/** Powers of two, for shard and bucket counts. */
module PowersOfTwo {
  function Pow2(n: nat): (p: nat)
    ensures p > 0
  {
    if n == 0 then 1 else 2 * Pow2(n - 1)
  }

  lemma {:induction false} Pow2Sum(a: nat, b: nat)
    ensures Pow2(a) * Pow2(b) == Pow2(a + b)
  {
    if a > 0 {
      Pow2Sum(a - 1, b);
      assert Pow2(a) * Pow2(b) == 2 * (Pow2(a - 1) * Pow2(b));
    }
  }

  lemma {:induction false} Pow2Grows(a: nat, b: nat)
    requires a < b
    ensures Pow2(a) < Pow2(b)
  {
    if a + 1 < b { Pow2Grows(a, b - 1); }
  }

  lemma Pow2Values()
    ensures Pow2(32) == 0x1_0000_0000 && Pow2(63) == 0x8000_0000_0000_0000
  {
    assert Pow2(8) == 256;
    Pow2Sum(8, 8);
    Pow2Sum(16, 16);
    Pow2Sum(32, 31);
    assert Pow2(32) == 2 * Pow2(31);
  }

  ghost predicate IsPow2(n: nat) { exists k :: n == Pow2(k) }

  lemma DoublePow2(n: nat)
    requires IsPow2(n)
    ensures IsPow2(2 * n)
  {
    var k: nat :| n == Pow2(k);
    assert 2 * n == Pow2(k + 1);
  }

  lemma Half(a: nat, b: nat, p: nat)
    requires a * b == 2 * p
    ensures a % 2 == 0 ==> a / 2 * b == p
    ensures a % 2 == 1 ==> b % 2 == 0 && a * (b / 2) == p
  {
    if a % 2 == 0 {
      assert a == 2 * (a / 2);
      assert a * b == 2 * (a / 2 * b);
    } else {
      assert a == 2 * (a / 2) + 1;
      assert a * b == 2 * (a / 2 * b) + b;
      assert b == 2 * (p - a / 2 * b);
      assert b == 2 * (b / 2);
      assert a * b == 2 * (a * (b / 2));
    }
  }

  /** Only powers of two divide a power of two. */
  lemma {:induction false} DivisorIsPow2(a: nat, b: nat, n: nat)
    requires a * b == Pow2(n)
    ensures IsPow2(a)
    decreases n
  {
    if n == 0 {
      assert a == 1 by { UnitFactors(a, b); }
      assert Pow2(0) == 1;
    } else {
      Half(a, b, Pow2(n - 1));
      if a % 2 == 0 {
        DivisorIsPow2(a / 2, b, n - 1);
        DoublePow2(a / 2);
      } else {
        DivisorIsPow2(a, b / 2, n - 1);
      }
    }
  }

  lemma UnitFactors(a: nat, b: nat)
    requires a * b == 1
    ensures a == 1
  {
    assert a > 0 && b > 0;
    assert a * b == a + a * (b - 1);
  }

  /** A smaller power of two divides a larger one. */
  ghost predicate Multiple(n: nat, d: nat) { exists m: nat :: n == m * d }

  lemma Pow2Divides(a: nat, b: nat, n: nat)
    requires IsPow2(a) && IsPow2(b) && a * b <= Pow2(n)
    ensures Multiple(Pow2(n), a * b)
  {
    hide Pow2;
    var i: nat :| a == Pow2(i);
    var j: nat :| b == Pow2(j);
    Pow2Sum(i, j);
    var k := i + j;
    assert k <= n by {
      if n < k { Pow2Grows(n, k); }
    }
    Pow2Sum(n - k, k);
    var m: nat := Pow2(n - k);
    assert Pow2(n) == m * Pow2(k) && Pow2(k) == a * b;
  }
}
