/** Quotients, remainders and products. */
module Arithmetic {
  lemma Scale(a: nat, b: nat, n: nat)
    requires a <= b
    ensures a * n <= b * n
  {
    assert b * n == a * n + (b - a) * n;
  }

  /** A quotient and a remainder determine each other. */
  lemma DivMod(q: nat, i: nat, n: nat)
    requires i < n
    ensures (q * n + i) / n == q && (q * n + i) % n == i
  {
    var t := q * n + i;
    var d, m := t / n, t % n;
    assert t == d * n + m && 0 <= m < n;
    if d < q { Gap(d, q, n); }
    if q < d { Gap(q, d, n); }
  }

  lemma Gap(a: nat, b: nat, n: nat)
    requires a < b
    ensures a * n + n <= b * n
  {
    Scale(1, b - a, n);
    assert b * n == a * n + (b - a) * n;
  }

  /** Whole multiples do not change a remainder. */
  lemma ModAdd(t: nat, y: nat, m: nat)
    requires m > 0
    ensures (t * m + y) % m == y % m
  {
    assert y == y / m * m + y % m;
    assert t * m + y == (t + y / m) * m + y % m;
    DivMod(t + y / m, y % m, m);
  }
}
