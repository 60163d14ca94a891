/** Byte-wise key order: the first difference decides, and a prefix comes first. */
module KeyOrder {
  import opened Bytes
  import opened Selection

  predicate KeyLess(a: Bytes, b: Bytes) {
    if b == [] then false
    else if a == [] then true
    else if a[0] != b[0] then a[0] < b[0]
    else KeyLess(a[1..], b[1..])
  }

  /** The keys agree up to `i`, where the first ends or has the smaller byte. */
  ghost predicate DecidedAt(a: Bytes, b: Bytes, i: nat) {
    i <= |a| && i < |b| && a[..i] == b[..i] && (i == |a| || a[i] < b[i])
  }

  lemma FirstAgrees(a: Bytes, b: Bytes, i: nat)
    requires DecidedAt(a, b, i)
    ensures i > 0 ==> a != [] && a[0] == b[0]
  {
    if i > 0 { assert a[..i][0] == a[0] && b[..i][0] == b[0]; }
  }

  /** The first difference decides, and a prefix comes first. */
  lemma {:induction false} KeyLessIff(a: Bytes, b: Bytes)
    ensures KeyLess(a, b) <==> exists i :: DecidedAt(a, b, i)
  {
    if a == [] || b == [] || a[0] != b[0] {
      assert KeyLess(a, b) ==> DecidedAt(a, b, 0);
      if i: nat :| DecidedAt(a, b, i) { FirstAgrees(a, b, i); }
    } else {
      KeyLessIff(a[1..], b[1..]);
      if i: nat :| DecidedAt(a[1..], b[1..], i) {
        assert a[..i + 1] == [a[0]] + a[1..][..i] && b[..i + 1] == [b[0]] + b[1..][..i];
        assert DecidedAt(a, b, i + 1);
      }
      if i: nat :| DecidedAt(a, b, i) {
        assert i > 0;
        assert a[1..][..i - 1] == a[..i][1..] && b[1..][..i - 1] == b[..i][1..];
        assert DecidedAt(a[1..], b[1..], i - 1);
      }
    }
  }

  lemma {:induction false} Asymmetric(a: Bytes, b: Bytes)
    requires KeyLess(a, b)
    ensures !KeyLess(b, a)
  {
    if a != [] && a[0] == b[0] { Asymmetric(a[1..], b[1..]); }
  }

  lemma {:induction false} Comparable(a: Bytes, b: Bytes)
    ensures a == b || KeyLess(a, b) || KeyLess(b, a)
  {
    if a != [] && b != [] && a[0] == b[0] {
      Comparable(a[1..], b[1..]);
      assert a == [a[0]] + a[1..] && b == [b[0]] + b[1..];
    }
  }

  lemma {:induction false} Transitive(a: Bytes, b: Bytes, c: Bytes)
    requires KeyLess(a, b) && KeyLess(b, c)
    ensures KeyLess(a, c)
  {
    if a != [] && a[0] == b[0] == c[0] { Transitive(a[1..], b[1..], c[1..]); }
  }

  lemma KeyOrderTotal()
    ensures Total(KeyLess)
  {
    hide KeyLess;
    forall a, b ensures KeyLess(a, b) ==> !KeyLess(b, a) { if KeyLess(a, b) { Asymmetric(a, b); } }
    forall a, b ensures a == b || KeyLess(a, b) || KeyLess(b, a) { Comparable(a, b); }
    forall a, b, c ensures KeyLess(a, b) && KeyLess(b, c) ==> KeyLess(a, c) {
      if KeyLess(a, b) && KeyLess(b, c) { Transitive(a, b, c); }
    }
  }
}
