/** Singly linked lists threaded through words of memory, reached through the address of a link. */
module LinkedWords {
  /** The address of the word that refers to element `i`: the head word, then each element's own link. */
  function Slot(head: nat, s: seq<nat>, i: nat): nat
    requires i <= |s|
  {
    if i == 0 then head else s[i - 1]
  }

  function Ref(s: seq<nat>, i: nat): nat
    requires i <= |s|
  {
    if i < |s| then s[i] else 0
  }

  /** From `head` the words lead through exactly the elements of `s` and then to zero. */
  ghost predicate Chain(w: map<nat, nat>, head: nat, s: seq<nat>) {
    forall i :: 0 <= i <= |s| ==> Slot(head, s, i) in w && w[Slot(head, s, i)] == Ref(s, i)
  }

  /** No element is zero, occurs twice or is the head word: the list is acyclic. */
  ghost predicate Proper(head: nat, s: seq<nat>) {
    && 0 !in s && head !in s
    && forall i, j :: 0 <= i < j < |s| ==> s[i] != s[j]
  }

  function Without(s: seq<nat>, i: nat): seq<nat>
    requires i < |s|
  {
    s[..i] + s[i + 1..]
  }

  /** Storing an element's successor where it was referred to removes just that element. */
  lemma Removed(w: map<nat, nat>, head: nat, s: seq<nat>, i: nat)
    requires Chain(w, head, s) && Proper(head, s) && i < |s|
    ensures Slot(head, s, i + 1) in w
    ensures Chain(w[Slot(head, s, i) := w[s[i]]], head, Without(s, i)) && Proper(head, Without(s, i))
  {
    assert Slot(head, s, i + 1) in w;
    var t, v := Without(s, i), w[Slot(head, s, i) := w[s[i]]];
    forall k | 0 <= k <= |t| ensures Slot(head, t, k) in v && v[Slot(head, t, k)] == Ref(t, k) {
      if k <= i {
        assert Slot(head, t, k) == Slot(head, s, k);
        assert w[Slot(head, s, i + 1)] == Ref(s, i + 1);
      } else {
        assert Slot(head, t, k) == Slot(head, s, k + 1);
        assert Ref(t, k) == Ref(s, k + 1);
      }
    }
  }

  /** Storing a new element where the list ended appends it. */
  lemma Appended(w: map<nat, nat>, head: nat, s: seq<nat>, x: nat)
    requires Chain(w, head, s) && Proper(head, s) && x != 0 && x != head && x !in s
    ensures Chain(w[x := 0][Slot(head, s, |s|) := x], head, s + [x]) && Proper(head, s + [x])
  {
    var t, v := s + [x], w[x := 0][Slot(head, s, |s|) := x];
    forall k | 0 <= k <= |t| ensures Slot(head, t, k) in v && v[Slot(head, t, k)] == Ref(t, k) {
      if k <= |s| { assert Slot(head, t, k) == Slot(head, s, k); }
    }
  }

  /** Giving a new element an old one's successor and its place replaces it. */
  lemma Replaced(w: map<nat, nat>, head: nat, s: seq<nat>, i: nat, x: nat)
    requires Chain(w, head, s) && Proper(head, s) && i < |s| && x != 0 && x != head && x !in s
    ensures Slot(head, s, i + 1) in w
    ensures Chain(w[x := w[s[i]]][Slot(head, s, i) := x], head, s[i := x]) && Proper(head, s[i := x])
  {
    assert Slot(head, s, i + 1) in w;
    var t, v := s[i := x], w[x := w[s[i]]][Slot(head, s, i) := x];
    assert w[Slot(head, s, i + 1)] == Ref(s, i + 1);
    forall k | 0 <= k <= |t| ensures Slot(head, t, k) in v && v[Slot(head, t, k)] == Ref(t, k) {
      if k != i + 1 { assert Slot(head, t, k) == Slot(head, s, k); }
    }
  }

  /** Putting a new element before the whole list. */
  lemma Pushed(w: map<nat, nat>, head: nat, s: seq<nat>, x: nat)
    requires Chain(w, head, s) && Proper(head, s) && x != 0 && x != head && x !in s
    ensures head in w
    ensures Chain(w[x := w[head]][head := x], head, [x] + s) && Proper(head, [x] + s)
  {
    assert Slot(head, s, 0) in w;
    var t, v := [x] + s, w[x := w[head]][head := x];
    forall k | 0 <= k <= |t| ensures Slot(head, t, k) in v && v[Slot(head, t, k)] == Ref(t, k) {
      if k > 0 { assert Slot(head, t, k) == if k == 1 then x else Slot(head, s, k - 1); }
    }
  }

  /** A list does not notice writes to other words. */
  lemma Framed(w: map<nat, nat>, v: map<nat, nat>, head: nat, s: seq<nat>)
    requires Chain(w, head, s)
    requires head in w ==> head in v && v[head] == w[head]
    requires forall x :: x in s && x in w ==> x in v && v[x] == w[x]
    ensures Chain(v, head, s)
  {
    forall k | 0 <= k <= |s| ensures Slot(head, s, k) in v && v[Slot(head, s, k)] == Ref(s, k) {
      assert Slot(head, s, k) in w;
    }
  }

  /** What the words say decides the list. */
  lemma {:induction false} ChainUnique(w: map<nat, nat>, head: nat, s: seq<nat>, t: seq<nat>)
    requires Chain(w, head, s) && Chain(w, head, t) && 0 !in s && 0 !in t
    ensures s == t
  {
    SamePrefix(w, head, s, t, if |s| <= |t| then |s| else |t|);
    var n := if |s| <= |t| then |s| else |t|;
    assert w[Slot(head, s, n)] == Ref(s, n) && w[Slot(head, t, n)] == Ref(t, n);
    assert Slot(head, s, n) == Slot(head, t, n);
  }

  lemma {:induction false} SamePrefix(w: map<nat, nat>, head: nat, s: seq<nat>, t: seq<nat>, n: nat)
    requires Chain(w, head, s) && Chain(w, head, t) && n <= |s| && n <= |t|
    ensures s[..n] == t[..n]
  {
    if n > 0 {
      SamePrefix(w, head, s, t, n - 1);
      assert Slot(head, s, n - 1) == Slot(head, t, n - 1) by {
        if n > 1 { assert s[..n - 1][n - 2] == t[..n - 1][n - 2]; }
      }
      assert w[Slot(head, s, n - 1)] == Ref(s, n - 1) && w[Slot(head, t, n - 1)] == Ref(t, n - 1);
      assert s[..n] == s[..n - 1] + [s[n - 1]] && t[..n] == t[..n - 1] + [t[n - 1]];
    }
  }

  lemma WithoutMembers(head: nat, s: seq<nat>, i: nat)
    requires Proper(head, s) && i < |s|
    ensures forall c :: c in Without(s, i) <==> c in s && c != s[i]
  {
    var rest := Without(s, i);
    forall c | c in s && c != s[i] ensures c in rest {
      var k :| 0 <= k < |s| && s[k] == c;
      assert rest[if k < i then k else k - 1] == c;
    }
    forall c | c in rest ensures c in s && c != s[i] {
      var k :| 0 <= k < |rest| && rest[k] == c;
      assert s[if k < i then k else k + 1] == c;
    }
  }

  lemma UpdateMembers(head: nat, s: seq<nat>, i: nat, x: nat)
    requires Proper(head, s) && i < |s| && x !in s
    ensures forall c :: c in s[i := x] <==> c == x || (c in s && c != s[i])
  {
    var t := s[i := x];
    forall c | c in s && c != s[i] ensures c in t {
      var k :| 0 <= k < |s| && s[k] == c;
      assert t[k] == c;
    }
    assert t[i] == x;
  }
}
