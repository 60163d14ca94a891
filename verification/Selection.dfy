/** Keeping the smallest few of an unordered walk: the bounded selection behind the paged inventories. */
module Selection {
  /** A strict total order. */
  ghost predicate Total<T(!new)>(less: (T, T) -> bool) {
    && (forall a, b :: less(a, b) ==> !less(b, a))
    && (forall a, b :: a == b || less(a, b) || less(b, a))
    && (forall a, b, c :: less(a, b) && less(b, c) ==> less(a, c))
  }

  /** The kept items, the place of the largest, and how many arrived after the buffer was full. */
  datatype Sel<T> = Sel(items: seq<T>, largest: nat, over: nat)

  /** Scan from place `i` for an item larger than the one at `best`. */
  function Largest<T>(less: (T, T) -> bool, items: seq<T>, best: nat, i: nat): (r: nat)
    requires best < |items|
    ensures r < |items|
    decreases |items| - i
  {
    if i >= |items| then best else Largest(less, items, if less(items[best], items[i]) then i else best, i + 1)
  }

  /** One match arrives. Once the buffer is full it may only displace the largest, which is then looked for
      again from place `from`. */
  function Offer<T>(less: (T, T) -> bool, cap: nat, from: nat, s: Sel<T>, x: T): Sel<T>
    requires 0 < cap && (s.items != [] ==> s.largest < |s.items|)
  {
    if |s.items| < cap then
      Sel(s.items + [x], if s.items == [] || less(s.items[s.largest], x) then |s.items| else s.largest, s.over)
    else if s.items == [] || !less(x, s.items[s.largest]) then s.(over := s.over + 1)
    else
      var items := s.items[s.largest := x];
      Sel(items, Largest(less, items, s.largest, from), s.over + 1)
  }

  function Select<T>(less: (T, T) -> bool, cap: nat, from: nat, walk: seq<T>): (s: Sel<T>)
    requires 0 < cap
    ensures |s.items| == Min(cap, |walk|) && (s.items != [] ==> s.largest < |s.items|) && s.over == |walk| - |s.items|
  {
    if walk == [] then Sel([], 0, 0)
    else Offer(less, cap, from, Select(less, cap, from, walk[..|walk| - 1]), walk[|walk| - 1])
  }

  function Min(a: nat, b: nat): nat { if a <= b then a else b }

  ghost predicate Distinct<T>(s: seq<T>) { forall i, j :: 0 <= i < j < |s| ==> s[i] != s[j] }

  /** The items are distinct members of the walk, as many as fit, and every member left out is larger than all of
      them. */
  ghost predicate Smallest<T(!new)>(less: (T, T) -> bool, cap: nat, items: seq<T>, walk: seq<T>) {
    && |items| == Min(cap, |walk|) && Distinct(items)
    && (forall x :: x in items ==> x in walk)
    && (forall x, y :: x in walk && x !in items && y in items ==> less(y, x))
  }

  ghost predicate IsLargest<T>(less: (T, T) -> bool, items: seq<T>, at: nat) {
    at < |items| && forall j :: 0 <= j < |items| && j != at ==> less(items[j], items[at])
  }

  lemma {:induction false} LargestFrom<T(!new)>(less: (T, T) -> bool, items: seq<T>, best: nat, i: nat)
    requires Total(less) && Distinct(items) && best < |items| && i <= |items|
    requires forall j :: 0 <= j < i && j != best ==> less(items[j], items[best])
    ensures IsLargest(less, items, Largest(less, items, best, i))
    decreases |items| - i
  {
    if i < |items| {
      if best != i && !less(items[best], items[i]) { assert items[best] != items[i]; }
      LargestFrom(less, items, if less(items[best], items[i]) then i else best, i + 1);
    }
  }

  /** Looking from the start, the selection always holds the smallest and knows its largest. */
  lemma {:induction false} SelectsSmallest<T(!new)>(less: (T, T) -> bool, cap: nat, walk: seq<T>)
    requires Total(less) && 0 < cap && Distinct(walk)
    ensures var s := Select(less, cap, 0, walk);
      Smallest(less, cap, s.items, walk) && (walk != [] ==> IsLargest(less, s.items, s.largest))
  {
    if walk == [] {
      NoneSmallest(less, cap);
    } else {
      hide Total, Smallest, IsLargest, Distinct, Largest;
      var front, x := walk[..|walk| - 1], walk[|walk| - 1];
      FrontDistinct(walk);
      SelectsSmallest(less, cap, front);
      var s := Select(less, cap, 0, front);
      assert front + [x] == walk;
      if |s.items| < cap {
        OfferAppends(less, cap, 0, s, front, x);
      } else {
        OfferLooks(less, cap, s, front, x);
      }
    }
  }

  lemma NoneSmallest<T(!new)>(less: (T, T) -> bool, cap: nat)
    ensures Smallest(less, cap, [], [])
  {
  }

  lemma FrontDistinct<T>(walk: seq<T>)
    requires Distinct(walk) && walk != []
    ensures Distinct(walk[..|walk| - 1]) && walk[|walk| - 1] !in walk[..|walk| - 1]
  {
  }

  lemma OfferLooks<T(!new)>(less: (T, T) -> bool, cap: nat, s: Sel<T>, front: seq<T>, x: T)
    requires Total(less) && 0 < cap == |s.items| && Smallest(less, cap, s.items, front) && x !in front
    requires IsLargest(less, s.items, s.largest)
    ensures var t := Offer(less, cap, 0, s, x);
      Smallest(less, cap, t.items, front + [x]) && IsLargest(less, t.items, t.largest)
  {
    hide Total;
    OfferKeeps(less, cap, 0, s, front, x);
    if less(x, s.items[s.largest]) { LargestFrom(less, s.items[s.largest := x], s.largest, 0); }
  }

  lemma OfferAppends<T(!new)>(less: (T, T) -> bool, cap: nat, from: nat, s: Sel<T>, front: seq<T>, x: T)
    requires Total(less) && 0 < cap && |s.items| < cap && Smallest(less, cap, s.items, front) && x !in front
    requires front != [] ==> IsLargest(less, s.items, s.largest)
    requires s.items != [] ==> s.largest < |s.items|
    ensures var t := Offer(less, cap, from, s, x);
      Smallest(less, cap, t.items, front + [x]) && IsLargest(less, t.items, t.largest)
  {
    var t := Offer(less, cap, from, s, x);
    assert forall y :: y in t.items <==> y in s.items || y == x;
    AllKept(s.items, front);
    if s.items != [] {
      assert x != s.items[s.largest];
    }
  }

  lemma AllKept<T(!new)>(items: seq<T>, walk: seq<T>)
    requires |items| == |walk| && Distinct(items) && forall x :: x in items ==> x in walk
    ensures forall x :: x in walk ==> x in items
  {
    var a, b := set x | x in items, set x | x in walk;
    SetSize(items);
    SetSizeAtMost(walk);
    Equal(a, b);
    forall x | x in walk ensures x in items { assert x in b; }
  }

  lemma {:induction false} SetSize<T>(s: seq<T>)
    requires Distinct(s)
    ensures |set x | x in s| == |s|
  {
    if s != [] {
      var front, last := s[..|s| - 1], s[|s| - 1];
      SetSize(front);
      assert last !in front;
      assert (set x | x in s) == (set x | x in front) + {last};
    }
  }

  lemma {:induction false} SetSizeAtMost<T>(s: seq<T>)
    ensures |set x | x in s| <= |s|
  {
    if s != [] {
      var front, last := s[..|s| - 1], s[|s| - 1];
      SetSizeAtMost(front);
      assert (set x | x in s) == (set x | x in front) + {last};
    }
  }

  lemma {:induction false} Equal<T>(a: set<T>, b: set<T>)
    requires a <= b && |a| >= |b|
    ensures a == b
    decreases a
  {
    if a == {} {
      assert |b| == 0;
    } else {
      var x :| x in a;
      Equal(a - {x}, b - {x});
      assert a == (a - {x}) + {x} && b == (b - {x}) + {x};
    }
  }

  /** A full selection that knows its largest keeps the smallest, wherever it looks afterwards. */
  lemma OfferKeeps<T(!new)>(less: (T, T) -> bool, cap: nat, from: nat, s: Sel<T>, front: seq<T>, x: T)
    requires Total(less) && 0 < cap == |s.items| && Smallest(less, cap, s.items, front) && x !in front
    requires IsLargest(less, s.items, s.largest)
    ensures Smallest(less, cap, Offer(less, cap, from, s, x).items, front + [x])
    ensures !less(x, s.items[s.largest]) ==> Offer(less, cap, from, s, x).items == s.items
    ensures less(x, s.items[s.largest]) ==> Offer(less, cap, from, s, x).items == s.items[s.largest := x]
  {
    var top := s.items[s.largest];
    assert top in s.items && top in front && x != top;
    if less(x, top) {
      var t := s.items[s.largest := x];
      UpdatedMembers(s.items, s.largest, x);
      forall z, y | z in front + [x] && z !in t && y in t ensures less(y, z) {
        if z == top {
          if y != x { var j :| 0 <= j < |s.items| && s.items[j] == y; }
        } else if y == x {
          assert less(top, z) && less(x, top);
        } else {
          assert z in front && z !in s.items && y in s.items;
        }
      }
    } else {
      assert less(top, x);
      forall y | y in s.items ensures less(y, x) {
        var j :| 0 <= j < |s.items| && s.items[j] == y;
        assert j == s.largest || less(y, top);
      }
    }
  }

  lemma UpdatedMembers<T(!new)>(s: seq<T>, i: nat, x: T)
    requires Distinct(s) && i < |s| && x !in s
    ensures Distinct(s[i := x]) && forall y :: y in s[i := x] <==> y == x || (y in s && y != s[i])
  {
    var t := s[i := x];
    assert t[i] == x;
    forall y | y in s && y != s[i] ensures y in t {
      var j :| 0 <= j < |s| && s[j] == y;
      assert t[j] == y;
    }
  }

  // ---- in place ----

  class Selector<T(!new)> {
    const less: (T, T) -> bool
    const cap: nat
    const from: nat
    var items: seq<T>
    var largest: nat
    var over: nat
    ghost var walk: seq<T>

    ghost predicate Valid()
      reads this
    {
      0 < cap && Sel(items, largest, over) == Select(less, cap, from, walk)
    }

    constructor (order: (T, T) -> bool, size: nat, start: nat)
      requires 0 < size
      ensures Valid() && less == order && cap == size && from == start && walk == []
    {
      less, cap, from := order, size, start;
      items, largest, over, walk := [], 0, 0, [];
    }

    /** Take one match of the walk. */
    method Add(x: T)
      requires Valid()
      modifies this
      ensures Valid() && walk == old(walk) + [x]
    {
      ghost var more := walk + [x];
      assert more[..|more| - 1] == walk;
      if |items| < cap {
        if items == [] || less(items[largest], x) { largest := |items|; }
        items := items + [x];
        walk := more;
        return;
      }
      over := over + 1;
      if !less(x, items[largest]) {
        walk := more;
        return;
      }
      items := items[largest := x];
      ghost var kept, goal := items, Largest(less, items, largest, from);
      var i: nat := from;
      while i < |items|
        invariant items == kept && over == old(over) + 1 && walk == old(walk)
        invariant largest < |items| && Largest(less, items, largest, i) == goal
      {
        if less(items[largest], items[i]) { largest := i; }
        i := i + 1;
      }
      walk := more;
    }
  }

  ghost predicate Ascending<T>(less: (T, T) -> bool, s: seq<T>) { forall i, j :: 0 <= i < j < |s| ==> less(s[i], s[j]) }

  ghost predicate SameItems<T>(a: seq<T>, b: seq<T>) { multiset(a) == multiset(b) }

  /** Insertion sort. */
  method Sort<T(!new, ==)>(s: seq<T>, less: (T, T) -> bool) returns (t: seq<T>)
    requires Total(less) && Distinct(s)
    ensures Ascending(less, t) && SameItems(s, t) && |t| == |s|
  {
    hide Total;
    t := s;
    if |s| == 0 { return; }
    var i := 1;
    while i < |t|
      invariant |t| == |s| && 1 <= i <= |t| && SameItems(s, t) && Distinct(t) && Ascending(less, t[..i])
    {
      t := Insert(t, i, less);
      SameDistinct(s, t);
      i := i + 1;
    }
    assert t[..i] == t;
  }

  /** The item at `i` moved down to place `j`. */
  function Lowered<T>(s: seq<T>, i: nat, j: nat): seq<T>
    requires j <= i < |s|
  {
    s[..j] + [s[i]] + s[j..i] + s[i + 1..]
  }

  /** Move the item at `i` down past the larger ones before it. */
  method Insert<T(!new, ==)>(s: seq<T>, i: nat, less: (T, T) -> bool) returns (t: seq<T>)
    requires Total(less) && Distinct(s) && i < |s| && Ascending(less, s[..i])
    ensures |t| == |s| && SameItems(s, t) && Ascending(less, t[..i + 1])
  {
    hide Total, Ascending, Lowered;
    var k, j := s[i], i;
    t := s;
    LoweredStart(s, i);
    while j > 0 && less(k, t[j - 1])
      invariant 0 <= j <= i && |t| == |s| && t[j := k] == Lowered(s, i, j)
      invariant forall m :: j <= m < i ==> less(k, s[m])
    {
      LoweredStep(s, i, j, t);
      t := t[j := t[j - 1]];
      j := j - 1;
    }
    LoweredEnd(s, i, j, t);
    if j > 0 { Otherwise(less, s[j - 1], k); }
    InsertAscends(s, i, j, less);
    t := t[j := k];
  }

  lemma LoweredStart<T>(s: seq<T>, i: nat)
    requires i < |s|
    ensures s[i := s[i]] == Lowered(s, i, i)
  {
    assert s == s[..i] + [s[i]] + s[i + 1..];
  }

  lemma LoweredStep<T>(s: seq<T>, i: nat, j: nat, t: seq<T>)
    requires 0 < j <= i < |s| && |t| == |s| && t[j := s[i]] == Lowered(s, i, j)
    ensures t[j - 1] == s[j - 1]
    ensures t[j := t[j - 1]][j - 1 := s[i]] == Lowered(s, i, j - 1)
  {
    assert t[j - 1] == t[j := s[i]][j - 1] == s[j - 1];
    var u, v := t[j := t[j - 1]][j - 1 := s[i]], Lowered(s, i, j - 1);
    assert forall m :: 0 <= m < |u| && m != j && m != j - 1 ==> u[m] == t[j := s[i]][m];
  }

  lemma LoweredEnd<T>(s: seq<T>, i: nat, j: nat, t: seq<T>)
    requires j <= i < |s| && |t| == |s| && t[j := s[i]] == Lowered(s, i, j)
    ensures t[j := s[i]][..i + 1] == s[..j] + [s[i]] + s[j..i] && SameItems(s, t[j := s[i]])
    ensures j > 0 ==> t[j - 1] == s[j - 1]
  {
    assert s == s[..j] + s[j..i] + [s[i]] + s[i + 1..];
    if j > 0 { assert t[j - 1] == t[j := s[i]][j - 1]; }
  }

  lemma Otherwise<T(!new)>(less: (T, T) -> bool, a: T, b: T)
    requires Total(less) && a != b && !less(b, a)
    ensures less(a, b)
  {
  }

  lemma InsertAscends<T(!new)>(s: seq<T>, i: nat, j: nat, less: (T, T) -> bool)
    requires Total(less) && j <= i < |s| && Ascending(less, s[..i]) && (j > 0 ==> less(s[j - 1], s[i]))
    requires forall m :: j <= m < i ==> less(s[i], s[m])
    ensures Ascending(less, s[..j] + [s[i]] + s[j..i])
  {
    var u := s[..j] + [s[i]] + s[j..i];
    forall a, b | 0 <= a < b < |u| ensures less(u[a], u[b]) {
      if b == j {
        if a < j - 1 { assert less(s[..i][a], s[..i][j - 1]); }
      } else if a != j {
        var x, y := (if a < j then a else a - 1), (if b < j then b else b - 1);
        assert u[a] == s[..i][x] && u[b] == s[..i][y];
      }
    }
  }

  lemma SameDistinct<T(!new)>(s: seq<T>, t: seq<T>)
    requires Distinct(s) && SameItems(s, t)
    ensures Distinct(t)
  {
    forall i, j | 0 <= i < j < |t| ensures t[i] != t[j] {
      if t[i] == t[j] {
        TwiceIn(t, i, j);
        OnceIn(s, t[i]);
      }
    }
  }

  lemma TwiceIn<T(!new)>(t: seq<T>, i: nat, j: nat)
    requires i < j < |t| && t[i] == t[j]
    ensures multiset(t)[t[i]] >= 2
  {
    assert t == t[..j] + [t[j]] + t[j + 1..];
    assert t[i] in t[..j];
  }

  lemma {:induction false} OnceIn<T(!new)>(s: seq<T>, x: T)
    requires Distinct(s)
    ensures multiset(s)[x] <= 1
  {
    if s != [] {
      OnceIn(s[..|s| - 1], x);
      assert s == s[..|s| - 1] + [s[|s| - 1]];
      assert s[|s| - 1] !in s[..|s| - 1];
    }
  }
}
