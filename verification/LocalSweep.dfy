/** The expiry sweep of the in-process cache: which buckets a run of tickets visits, and what is left. */
module LocalSweep {
  import opened Bytes
  import opened Arithmetic
  import opened PowersOfTwo
  import opened Ticks
  import opened LocalTable

  /** Ticket `t` visits one bucket: shards in turn, then the next bucket of each. */
  predicate Hits(shards: nat, sizes: seq<nat>, t: nat, i: nat, b: nat)
    requires shards > 0
  {
    t % shards == i && i < |sizes| && sizes[i] > 0 && (t / shards) % sizes[i] == b
  }

  ghost predicate Visits(shards: nat, sizes: seq<nat>, c: nat, work: nat, i: nat, b: nat)
    requires shards > 0
  {
    exists t :: c <= t < c + work && Hits(shards, sizes, t, i, b)
  }

  ghost predicate VisitsKey(l: Shape, hash: Long -> u32, sizes: seq<nat>, c: nat, work: nat, k: Long)
    requires l.span > 0 && l.shards > 0
  {
    var i := l.ShardOf(hash(k));
    i < |sizes| && sizes[i] > 0 && Visits(l.shards, sizes, c, work, i, Slot(hash(k), sizes[i]))
  }

  /** What the index keeps after `work` tickets from `c` at time `now`: all but the expired keys they visit. */
  ghost function Swept(l: Shape, hash: Long -> u32, sizes: seq<nat>, index: map<Long, Entry>, c: nat, work: nat,
                       now: u32): map<Long, Entry>
    requires l.span > 0 && l.shards > 0
  {
    map k | k in index && !(Expired(index[k], now) && VisitsKey(l, hash, sizes, c, work, k)) :: index[k]
  }

  lemma SweptNone(l: Shape, hash: Long -> u32, sizes: seq<nat>, index: map<Long, Entry>, c: nat, now: u32)
    requires l.span > 0 && l.shards > 0
    ensures Swept(l, hash, sizes, index, c, 0, now) == index
  {
    hide Shape.ShardOf, Slot;
  }

  /** Sweeps add up: two calls in a row do what one with all their tickets does. */
  lemma SweptTwice(l: Shape, hash: Long -> u32, sizes: seq<nat>, index: map<Long, Entry>, c: nat, a: nat, b: nat,
                   now: u32)
    requires l.span > 0 && l.shards > 0
    ensures Swept(l, hash, sizes, Swept(l, hash, sizes, index, c, a, now), c + a, b, now)
       == Swept(l, hash, sizes, index, c, a + b, now)
  {
    hide Shape.ShardOf, Slot, Hits, Expired;
    forall k
      ensures VisitsKey(l, hash, sizes, c, a + b, k)
         <==> VisitsKey(l, hash, sizes, c, a, k) || VisitsKey(l, hash, sizes, c + a, b, k)
    {
      var i := l.ShardOf(hash(k));
      if i < |sizes| && sizes[i] > 0 { VisitsSplit(l.shards, sizes, c, a, b, i, Slot(hash(k), sizes[i])); }
    }
  }

  lemma VisitsSplit(shards: nat, sizes: seq<nat>, c: nat, a: nat, b: nat, i: nat, x: nat)
    requires shards > 0
    ensures Visits(shards, sizes, c, a + b, i, x)
      <==> Visits(shards, sizes, c, a, i, x) || Visits(shards, sizes, c + a, b, i, x)
  {
    hide Hits;
  }

  /** Without deadlines there is nothing to sweep. */
  lemma SweptIdle(l: Shape, hash: Long -> u32, sizes: seq<nat>, index: map<Long, Entry>, c: nat, work: nat, now: u32)
    requires l.span > 0 && l.shards > 0 && forall k :: k in index ==> index[k].exp == 0
    ensures Swept(l, hash, sizes, index, c, work, now) == index
  {
    hide Shape.ShardOf, Slot, VisitsKey;
  }

  // ---- a ticket counter of 64 bits ----

  /** What `work` tickets leave when the counter may wrap around once on the way. */
  ghost function SweptFrom(l: Shape, hash: Long -> u32, sizes: seq<nat>, index: map<Long, Entry>, c: u64, work: u64,
                           now: u32): map<Long, Entry>
    requires l.span > 0 && l.shards > 0
  {
    if c + work <= TWO64 then Swept(l, hash, sizes, index, c, work, now)
    else Swept(l, hash, sizes, Swept(l, hash, sizes, index, c, TWO64 - c, now), 0, c + work - TWO64, now)
  }

  lemma SweptFromNone(l: Shape, hash: Long -> u32, sizes: seq<nat>, index: map<Long, Entry>, c: u64, now: u32)
    requires l.span > 0 && l.shards > 0
    ensures SweptFrom(l, hash, sizes, index, c, 0, now) == index
  {
    hide Swept;
    SweptNone(l, hash, sizes, index, c, now);
  }

  lemma SweptFromIdle(l: Shape, hash: Long -> u32, sizes: seq<nat>, index: map<Long, Entry>, c: u64, work: u64,
                      now: u32)
    requires l.span > 0 && l.shards > 0 && forall k :: k in index ==> index[k].exp == 0
    ensures SweptFrom(l, hash, sizes, index, c, work, now) == index
  {
    hide Swept;
    SweptIdle(l, hash, sizes, index, c, work, now);
    if c + work > TWO64 {
      SweptIdle(l, hash, sizes, index, c, TWO64 - c, now);
      SweptIdle(l, hash, sizes, index, 0, c + work - TWO64, now);
    }
  }

  /** One more ticket, whatever it is numbered. */
  lemma SweptFromNext(l: Shape, hash: Long -> u32, sizes: seq<nat>, index: map<Long, Entry>, c: u64, n: nat, now: u32)
    requires l.span > 0 && l.shards > 0 && n + 1 < TWO64
    ensures SweptFrom(l, hash, sizes, index, c, n + 1, now)
         == Swept(l, hash, sizes, SweptFrom(l, hash, sizes, index, c, n, now), Tick(c, n), 1, now)
  {
    hide Swept;
    if c + n < TWO64 {
      SweptTwice(l, hash, sizes, index, c, n, 1, now);
    } else {
      var before := Swept(l, hash, sizes, index, c, TWO64 - c, now);
      SweptNone(l, hash, sizes, before, 0, now);
      SweptTwice(l, hash, sizes, before, 0, c + n - TWO64, 1, now);
    }
  }

  /** A remainder is met within one full round. */
  lemma Round(q: nat, n: nat, b: nat) returns (d: nat)
    requires b < n
    ensures d < n && (q + d) % n == b
  {
    var r := q % n;
    d := if r <= b then b - r else n - r + b;
    var k := q / n;
    assert q == k * n + r;
    if r <= b {
      assert q + d == k * n + b;
      DivMod(k, b, n);
    } else {
      assert q + d == (k + 1) * n + b;
      DivMod(k + 1, b, n);
    }
  }

  /** Tickets numbering shards times the largest bucket count visit every bucket. */
  lemma AllVisited(shards: nat, sizes: seq<nat>, c: nat, work: nat, most: nat, i: nat, b: nat)
    requires shards > 0 && i < shards && i < |sizes| && b < sizes[i] <= most && work >= shards * most
    ensures Visits(shards, sizes, c, work, i, b)
  {
    hide Hits;
    var first := FirstRound(shards, c, i);
    var d := Round(first, sizes[i], b);
    TicketBound(first, d, shards, i, c, most);
    HitsAt(shards, sizes, first + d, i, b);
  }

  lemma TicketBound(first: nat, d: nat, shards: nat, i: nat, c: nat, most: nat)
    requires c <= first * shards + i < c + shards && d < most
    ensures c <= (first + d) * shards + i < c + shards * most
  {
    assert (first + d) * shards == first * shards + d * shards;
    Scale(d + 1, most, shards);
    assert (d + 1) * shards == d * shards + shards;
    Scale(0, d, shards);
  }

  lemma HitsAt(shards: nat, sizes: seq<nat>, q: nat, i: nat, b: nat)
    requires i < shards && i < |sizes| && sizes[i] > 0 && q % sizes[i] == b
    ensures Hits(shards, sizes, q * shards + i, i, b)
  {
    DivMod(q, i, shards);
  }

  /** The first round whose ticket for shard `i` is not before `c`. */
  lemma FirstRound(shards: nat, c: nat, i: nat) returns (q: nat)
    requires i < shards
    ensures c <= q * shards + i < c + shards
  {
    var k, r := c / shards, c % shards;
    assert c == k * shards + r;
    if r <= i {
      q := k;
    } else {
      q := k + 1;
      assert q * shards == k * shards + shards;
    }
  }

  /** A sweep of any length removes nothing without a deadline or before it, and changes nothing it keeps. */
  lemma SweptKeeps(l: Shape, hash: Long -> u32, sizes: seq<nat>, index: map<Long, Entry>, c: u64, work: u64, now: u32)
    requires l.span > 0 && l.shards > 0
    ensures var after := SweptFrom(l, hash, sizes, index, c, work, now);
      && (forall k :: k in after ==> k in index && after[k] == index[k])
      && (forall k :: k in index && (index[k].exp == 0 || now < index[k].exp) ==> k in after)
  {
    hide VisitsKey;
  }

  // ---- full rounds ----

  /** Adding a multiple of the round changes neither the shard nor the bucket of a ticket. */
  lemma HitsPeriodic(shards: nat, sizes: seq<nat>, t: nat, m: nat, i: nat, b: nat)
    requires shards > 0 && i < |sizes| && sizes[i] > 0
    ensures Hits(shards, sizes, t + m * (shards * sizes[i]), i, b) <==> Hits(shards, sizes, t, i, b)
  {
    var n := sizes[i];
    var k, r := t / shards, t % shards;
    assert t == k * shards + r;
    assert m * (shards * n) == (m * n) * shards;
    assert t + m * (shards * n) == (k + m * n) * shards + r;
    DivMod(k, r, shards);
    DivMod(k + m * n, r, shards);
    ModAdd(m, k, n);
  }

  lemma VisitsPeriodic(shards: nat, sizes: seq<nat>, m: nat, r: nat, i: nat, b: nat)
    requires shards > 0 && i < |sizes| && sizes[i] > 0
    ensures Visits(shards, sizes, m * (shards * sizes[i]), r, i, b) <==> Visits(shards, sizes, 0, r, i, b)
  {
    hide Hits;
    var p := m * (shards * sizes[i]);
    if Visits(shards, sizes, p, r, i, b) {
      var t :| p <= t < p + r && Hits(shards, sizes, t, i, b);
      HitsPeriodic(shards, sizes, t - p, m, i, b);
    }
    if Visits(shards, sizes, 0, r, i, b) {
      var t :| 0 <= t < r && Hits(shards, sizes, t, i, b);
      HitsPeriodic(shards, sizes, t, m, i, b);
    }
  }

  /** The round of every shard divides the range of the counter. */
  ghost predicate Divides(shards: nat, sizes: seq<nat>) {
    forall i :: 0 <= i < |sizes| ==> sizes[i] > 0 && Multiple(TWO64, shards * sizes[i])
  }

  lemma SweptPeriodic(l: Shape, hash: Long -> u32, sizes: seq<nat>, index: map<Long, Entry>, r: nat, now: u32)
    requires l.span > 0 && l.shards > 0 && Divides(l.shards, sizes)
    ensures Swept(l, hash, sizes, index, TWO64, r, now) == Swept(l, hash, sizes, index, 0, r, now)
  {
    hide Shape.ShardOf, Slot, Visits, Expired;
    forall k ensures VisitsKey(l, hash, sizes, TWO64, r, k) <==> VisitsKey(l, hash, sizes, 0, r, k) {
      var i := l.ShardOf(hash(k));
      if i < |sizes| && sizes[i] > 0 {
        var m: nat :| TWO64 == m * (l.shards * sizes[i]);
        VisitsPeriodic(l.shards, sizes, m, r, i, Slot(hash(k), sizes[i]));
      }
    }
  }

  /** When rounds divide the range, a wrap of the counter costs nothing. */
  lemma WrapIsFree(l: Shape, hash: Long -> u32, sizes: seq<nat>, index: map<Long, Entry>, c: u64, work: u64, now: u32)
    requires l.span > 0 && l.shards > 0 && Divides(l.shards, sizes)
    ensures SweptFrom(l, hash, sizes, index, c, work, now) == Swept(l, hash, sizes, index, c, work, now)
  {
    hide Swept, Divides;
    if c + work > TWO64 {
      var first := Swept(l, hash, sizes, index, c, TWO64 - c, now);
      SweptPeriodic(l, hash, sizes, first, c + work - TWO64, now);
      SweptTwice(l, hash, sizes, index, c, TWO64 - c, c + work - TWO64, now);
    }
  }

  /** Shard and bucket counts are powers of two, so their rounds do. */
  lemma RoundsDivide(l: Shape, sizes: seq<nat>, most: nat)
    requires l.Ok() && (forall i :: 0 <= i < |sizes| ==> IsPow2(sizes[i]) && 0 < sizes[i] <= most)
    requires l.shards * most < TWO64
    ensures Divides(l.shards, sizes)
  {
    hide IsPow2, Pow2, Multiple;
    assert Pow2(64) == TWO64 && Pow2(32) == 0x1_0000_0000 by { Pow2Values(); Pow2Sum(32, 32); }
    DivisorIsPow2(l.shards, l.span, 32);
    forall i | 0 <= i < |sizes| ensures sizes[i] > 0 && Multiple(TWO64, l.shards * sizes[i]) {
      Scale(sizes[i], most, l.shards);
      Pow2Divides(l.shards, sizes[i], 64);
    }
  }

  /** The entries without a deadline and those whose deadline is ahead. */
  ghost function Unexpired(index: map<Long, Entry>, now: u32): map<Long, Entry> {
    map k | k in index && (index[k].exp == 0 || now < index[k].exp) :: index[k]
  }

  lemma AllSwept(l: Shape, hash: Long -> u32, sizes: seq<nat>, index: map<Long, Entry>, c: nat, work: nat, most: nat,
                 now: u32)
    requires l.Ok() && |sizes| == l.shards && (forall i :: 0 <= i < |sizes| ==> 0 < sizes[i] <= most)
    requires work >= l.shards * most && l.shards > 0
    ensures Swept(l, hash, sizes, index, c, work, now) == Unexpired(index, now)
  {
    hide Slot, Visits;
    forall k ensures VisitsKey(l, hash, sizes, c, work, k) {
      ShardInRange(l, hash(k));
      var i := l.ShardOf(hash(k));
      AllVisited(l.shards, sizes, c, work, most, i, Slot(hash(k), sizes[i]));
    }
  }

  /** After as many tickets as shards times the largest bucket count, from any cursor and across a wrap of the
      counter, no expired entry is left and nothing else is gone. */
  lemma SweptAll(l: Shape, hash: Long -> u32, sizes: seq<nat>, index: map<Long, Entry>, c: u64, work: u64, most: nat,
                 now: u32)
    requires l.Ok() && |sizes| == l.shards > 0
    requires forall i :: 0 <= i < |sizes| ==> IsPow2(sizes[i]) && 0 < sizes[i] <= most
    requires work >= l.shards * most
    ensures SweptFrom(l, hash, sizes, index, c, work, now) == Unexpired(index, now)
  {
    hide Swept, SweptFrom, Divides, IsPow2, Unexpired;
    RoundsDivide(l, sizes, most);
    WrapIsFree(l, hash, sizes, index, c, work, now);
    AllSwept(l, hash, sizes, index, c, work, most, now);
  }
}
