/** Sums of weights over finite maps, for footprint accounting. */
module MapSum {
  ghost function Pick<K(!new), V(!new)>(m: map<K, V>): (k: K)
    requires m != map[]
    ensures k in m
  {
    var k :| k in m;
    k
  }

  ghost function Sum<K(!new), V(!new)>(m: map<K, V>, w: (K, V) -> nat): nat
    decreases m.Keys
  {
    if m == map[] then 0 else w(Pick(m), m[Pick(m)]) + Sum(m - {Pick(m)}, w)
  }

  /** Which key is removed first does not matter. */
  lemma {:induction false} SumRemove<K(!new), V(!new)>(m: map<K, V>, k: K, w: (K, V) -> nat)
    requires k in m
    ensures Sum(m, w) == Sum(m - {k}, w) + w(k, m[k])
    decreases m.Keys
  {
    hide Pick;
    var p := Pick(m);
    if p != k {
      SumRemove(m - {p}, k, w);
      SumRemove(m - {k}, p, w);
      assert m - {p} - {k} == m - {k} - {p};
    }
  }

  lemma SumInsert<K(!new), V(!new)>(m: map<K, V>, k: K, v: V, w: (K, V) -> nat)
    ensures Sum(m[k := v], w) == (if k in m then Sum(m, w) - w(k, m[k]) else Sum(m, w)) + w(k, v)
  {
    hide Sum;
    SumRemove(m[k := v], k, w);
    assert m[k := v] - {k} == m - {k};
    if k in m {
      SumRemove(m, k, w);
    } else {
      assert m - {k} == m;
    }
  }

  /** Two maps over the same keys with the same weights have the same sum. */
  lemma {:induction false} SumAgree<K(!new), V(!new), W(!new)>(m: map<K, V>, n: map<K, W>,
                                 f: (K, V) -> nat, g: (K, W) -> nat)
    requires m.Keys == n.Keys && forall k :: k in m ==> f(k, m[k]) == g(k, n[k])
    ensures Sum(m, f) == Sum(n, g)
    decreases m.Keys
  {
    hide Pick;
    if m == map[] {
      assert n.Keys == {};
      assert n == map[];
    } else {
      var p := Pick(m);
      SumRemove(n, p, g);
      SumAgree(m - {p}, n - {p}, f, g);
    }
  }

  /** Weights add up key by key. */
  lemma {:induction false} SumPlus<K(!new), V(!new)>(m: map<K, V>, f: (K, V) -> nat, g: (K, V) -> nat, h: (K, V) -> nat)
    requires forall k :: k in m ==> h(k, m[k]) == f(k, m[k]) + g(k, m[k])
    ensures Sum(m, h) == Sum(m, f) + Sum(m, g)
    decreases m.Keys
  {
    if m != map[] { SumPlus(m - {Pick(m)}, f, g, h); }
  }

  /** A weight of one for every key counts them. */
  lemma {:induction false} SumOnes<K(!new), V(!new)>(m: map<K, V>, f: (K, V) -> nat)
    requires forall k :: k in m ==> f(k, m[k]) == 1
    ensures Sum(m, f) == |m|
    decreases m.Keys
  {
    if m != map[] {
      var p := Pick(m);
      SumOnes(m - {p}, f);
      assert (m - {p}).Keys == m.Keys - {p};
    }
  }

  lemma {:induction false} SumZero<K(!new), V(!new)>(m: map<K, V>, f: (K, V) -> nat)
    requires forall k :: k in m ==> f(k, m[k]) == 0
    ensures Sum(m, f) == 0
    decreases m.Keys
  {
    if m != map[] { SumZero(m - {Pick(m)}, f); }
  }

  /** Fewer keys with the same values weigh no more. */
  lemma {:induction false} SumSubmap<K(!new), V(!new)>(a: map<K, V>, b: map<K, V>, w: (K, V) -> nat)
    requires forall k :: k in a ==> k in b && a[k] == b[k]
    ensures Sum(a, w) <= Sum(b, w) && |a| <= |b|
    decreases a.Keys
  {
    hide Pick;
    if a != map[] {
      var p := Pick(a);
      SumRemove(b, p, w);
      SumSubmap(a - {p}, b - {p}, w);
      assert (a - {p}).Keys == a.Keys - {p} && (b - {p}).Keys == b.Keys - {p};
    }
  }
}
