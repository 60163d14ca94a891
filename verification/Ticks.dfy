/** A 64-bit counter that tickets are drawn from. */
module Ticks {
  import opened Bytes

  /** The counter after `n` draws. */
  function Tick(c: u64, n: nat): u64 { (c + n) % TWO64 }

  lemma TickStarts(c: u64)
    ensures Tick(c, 0) == c
  {
  }

  lemma TickNext(c: u64, n: nat)
    ensures Tick(Tick(c, n), 1) == Tick(c, n + 1)
  {
  }
}
