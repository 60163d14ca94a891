/** The paged inventory of receipts: the same bounded selection, except that after a displacement the largest is
    looked for from the second place on. */
module ReceiptInventory {
  import opened Bytes
  import opened Selection
  import opened KeyOrder

  /** What orders a receipt: when it completed, then its operation id. */
  datatype Mark = Mark(ms: u64, op: Id)

  datatype Row = Row(kind: byte, mark: Mark)

  predicate MarkLess(a: Mark, b: Mark) { if a.ms != b.ms then a.ms < b.ms else KeyLess(a.op, b.op) }

  lemma MarkOrderTotal()
    ensures Total(MarkLess)
  {
    hide KeyLess;
    KeyOrderTotal();
  }

  predicate Wanted(kind: byte, after: Option<Mark>, r: Row) {
    (kind == 0 || r.kind == kind) && (after.None? || MarkLess(after.value, r.mark))
  }

  /** The kind asked for, or any; and later than the cursor, or as late with an operation id behind its own. */
  lemma WantedIff(kind: byte, after: Option<Mark>, r: Row)
    ensures Wanted(kind, after, r)
       <==> (kind == 0 || r.kind == kind)
            && (after.None? || after.value.ms < r.mark.ms
                || (after.value.ms == r.mark.ms && exists i :: DecidedAt(after.value.op, r.mark.op, i)))
  {
    hide KeyLess;
    if after.Some? { KeyLessIff(after.value.op, r.mark.op); }
  }

  function Marks(kind: byte, after: Option<Mark>, walk: seq<Row>): seq<Mark> {
    if walk == [] then []
    else
      var front, r := Marks(kind, after, walk[..|walk| - 1]), walk[|walk| - 1];
      if Wanted(kind, after, r) then front + [r.mark] else front
  }

  ghost predicate OpsDiffer(walk: seq<Row>) {
    forall i, j :: 0 <= i < j < |walk| ==> walk[i].mark.op != walk[j].mark.op
  }

  lemma {:induction false} MarksDistinct(kind: byte, after: Option<Mark>, walk: seq<Row>)
    requires OpsDiffer(walk)
    ensures Distinct(Marks(kind, after, walk))
    ensures forall m :: m in Marks(kind, after, walk) ==> exists i :: 0 <= i < |walk| && walk[i].mark == m
  {
    hide Wanted;
    if walk != [] {
      var front, r := walk[..|walk| - 1], walk[|walk| - 1];
      MarksDistinct(kind, after, front);
      forall m | m in Marks(kind, after, front)
        ensures m != r.mark && exists i :: 0 <= i < |walk| && walk[i].mark == m
      {
        var i :| 0 <= i < |front| && front[i].mark == m;
        assert walk[i].mark == m;
      }
      assert walk[|walk| - 1].mark == r.mark;
      assert r.mark !in Marks(kind, after, front);
    }
  }

  /** Exactly the marks of the wanted receipts. */
  lemma {:induction false} MarksMember(kind: byte, after: Option<Mark>, walk: seq<Row>, m: Mark)
    ensures m in Marks(kind, after, walk) <==> exists r :: r in walk && r.mark == m && Wanted(kind, after, r)
  {
    hide Wanted;
    if walk != [] {
      var front, last := walk[..|walk| - 1], walk[|walk| - 1];
      MarksMember(kind, after, front, m);
      assert forall r :: r in walk <==> r in front || r == last;
    }
  }

  /** The marks a page calls back with, in order, and how many receipts matched. */
  method Scan(walk: seq<Row>, kind: byte, after: Option<Mark>, max: nat) returns (marks: seq<Mark>, total: nat)
    requires OpsDiffer(walk) && max > 0
    ensures total == |Marks(kind, after, walk)| && |marks| == Min(max, total) && Ascending(MarkLess, marks)
    ensures SameItems(Select(MarkLess, max, 1, Marks(kind, after, walk)).items, marks)
  {
    hide Wanted, MarkLess, Select;
    var sel := new Selector(MarkLess, max, 1);
    total := 0;
    var i := 0;
    while i < |walk|
      invariant i <= |walk| && sel.Valid() && fresh(sel) && sel.cap == max && sel.from == 1 && sel.less == MarkLess
      invariant sel.walk == Marks(kind, after, walk[..i]) && total == |sel.walk|
    {
      assert walk[..i + 1][..i] == walk[..i];
      if Wanted(kind, after, walk[i]) {
        total := total + 1;
        sel.Add(walk[i].mark);
      }
      i := i + 1;
    }
    assert walk[..i] == walk;
    MarksDistinct(kind, after, walk);
    MarkOrderTotal();
    StaysDistinct(MarkLess, max, 1, sel.walk);
    marks := Sort(sel.items, MarkLess);
  }

  lemma {:induction false} StaysDistinct<T(!new)>(less: (T, T) -> bool, cap: nat, from: nat, walk: seq<T>)
    requires 0 < cap && Distinct(walk)
    ensures Distinct(Select(less, cap, from, walk).items)
          && forall x :: x in Select(less, cap, from, walk).items ==> x in walk
  {
    if walk != [] {
      var front, x := walk[..|walk| - 1], walk[|walk| - 1];
      FrontDistinct(walk);
      StaysDistinct(less, cap, from, front);
      var s := Select(less, cap, from, front);
      assert x !in s.items && forall y :: y in walk <==> y in front || y == x;
      if |s.items| == cap && less(x, s.items[s.largest]) { UpdatedMembers(s.items, s.largest, x); }
    }
  }

  // ---- when it selects the smallest ----

  /** With at most one match more than there is room for, or room for one only, the selection is right. */
  lemma {:induction false} RightWhenFew<T(!new)>(less: (T, T) -> bool, cap: nat, walk: seq<T>)
    requires Total(less) && 0 < cap && Distinct(walk) && (cap == 1 || |walk| <= cap + 1)
    ensures var s := Select(less, cap, 1, walk);
      && Smallest(less, cap, s.items, walk)
      && (walk != [] && (cap == 1 || |walk| <= cap) ==> IsLargest(less, s.items, s.largest))
  {
    if walk == [] {
      NoneSmallest(less, cap);
    } else {
      hide Total, Smallest, IsLargest, Distinct, Largest;
      var front, x := walk[..|walk| - 1], walk[|walk| - 1];
      FrontDistinct(walk);
      RightWhenFew(less, cap, front);
      var s := Select(less, cap, 1, front);
      assert front + [x] == walk;
      if |s.items| < cap {
        OfferAppends(less, cap, 1, s, front, x);
      } else {
        OfferKeeps(less, cap, 1, s, front, x);
        if cap == 1 { OnlyIsLargest(less, Select(less, cap, 1, walk)); }
      }
    }
  }

  lemma OnlyIsLargest<T(!new)>(less: (T, T) -> bool, s: Sel<T>)
    requires |s.items| == 1 && s.largest < |s.items|
    ensures IsLargest(less, s.items, s.largest)
  {
  }

  // ---- when it need not ----

  /** Completion times of a walk that defeats a selection of `cap`: the two largest first, the smallest next. */
  function BadTime(cap: nat, j: nat): nat {
    if j == 0 then 2 * cap
    else if j == 1 then 2 * cap + 1
    else if j < cap then j
    else if j == cap then 0
    else if j == cap + 1 then cap + 1
    else 2 * cap + j
  }

  ghost function BadMark(cap: nat, j: nat): Mark
    requires cap < 0x1_0000_0000 && j < 0x1_0000_0000
  {
    Mark(BadTime(cap, j), LE(BadTime(cap, j), 16))
  }

  ghost function BadWalk(cap: nat, n: nat): seq<Mark>
    requires cap < 0x1_0000_0000 && n <= 0x1_0000_0000
  {
    seq(n, j requires 0 <= j < n => BadMark(cap, j))
  }

  lemma BadTimesDiffer(cap: nat, i: nat, j: nat)
    requires i != j && cap >= 2
    ensures BadTime(cap, i) != BadTime(cap, j)
  {
  }

  lemma BadLess(cap: nat, i: nat, j: nat)
    requires 2 <= cap < 0x1_0000_0000 && i < 0x1_0000_0000 && j < 0x1_0000_0000 && i != j
    ensures MarkLess(BadMark(cap, i), BadMark(cap, j)) <==> BadTime(cap, i) < BadTime(cap, j)
  {
    BadTimesDiffer(cap, i, j);
  }

  /** While the buffer fills, the second item is the largest. */
  lemma {:induction false} BadFill(cap: nat, n: nat)
    requires 2 <= cap < 0x8000_0000 && 0 < n <= cap
    ensures Select(MarkLess, cap, 1, BadWalk(cap, n)) == Sel(BadWalk(cap, n), if n == 1 then 0 else 1, 0)
  {
    hide BadMark, MarkLess;
    var w := BadWalk(cap, n);
    assert w[..n - 1] == BadWalk(cap, n - 1);
    if n == 1 {
      assert Select(MarkLess, cap, 1, w[..0]) == Sel([], 0, 0);
      assert w == [BadMark(cap, 0)];
    } else {
      BadFill(cap, n - 1);
      assert w == BadWalk(cap, n - 1) + [BadMark(cap, n - 1)];
      BadLess(cap, if n == 2 then 0 else 1, n - 1);
    }
  }

  /** What the buffer holds ever after the first displacement: the second largest stays, out of sight. */
  ghost function BadItems(cap: nat): seq<Mark>
    requires 2 <= cap < 0x8000_0000
  {
    BadWalk(cap, cap)[1 := BadMark(cap, cap)]
  }

  lemma {:induction false} LargestFromOne(cap: nat, best: nat, i: nat)
    requires 2 <= cap < 0x8000_0000 && 1 <= best < cap && 1 <= i
    ensures 1 <= Largest(MarkLess, BadItems(cap), best, i) < cap
    decreases cap - i
  {
    hide BadMark, MarkLess;
    if i < cap {
      LargestFromOne(cap, if MarkLess(BadItems(cap)[best], BadItems(cap)[i]) then i else best, i + 1);
    }
  }

  /** From then on every further match is turned away. */
  lemma {:induction false} BadStays(cap: nat, n: nat)
    requires 2 <= cap < 0x8000_0000 && cap < n <= 0x1_0000_0000
    ensures var s := Select(MarkLess, cap, 1, BadWalk(cap, n)); s.items == BadItems(cap) && 1 <= s.largest < cap
  {
    hide MarkLess, BadMark, Largest;
    var w := BadWalk(cap, n);
    var x := BadMark(cap, n - 1);
    assert w[..n - 1] == BadWalk(cap, n - 1) && w[n - 1] == x;
    if n == cap + 1 {
      BadFill(cap, cap);
      BadLess(cap, cap, 1);
      LargestFromOne(cap, 1, 1);
    } else {
      BadStays(cap, n - 1);
      var s := Select(MarkLess, cap, 1, BadWalk(cap, n - 1));
      if s.largest == 1 {
        BadLess(cap, n - 1, cap);
      } else {
        BadLess(cap, n - 1, s.largest);
      }
    }
  }

  /** With room for two or more and at least two matches too many, some walk of that many receipts leaves out
      one that is smaller than one it keeps. */
  lemma WrongWhenMany(cap: nat, n: nat) returns (walk: seq<Mark>)
    requires 2 <= cap < 0x8000_0000 && cap + 2 <= n <= 0x1_0000_0000
    ensures |walk| == n && (forall i, j :: 0 <= i < j < n ==> walk[i].op != walk[j].op)
    ensures !Smallest(MarkLess, cap, Select(MarkLess, cap, 1, walk).items, walk)
  {
    walk := BadWalk(cap, n);
    forall i, j | 0 <= i < j < n ensures walk[i].op != walk[j].op { BadOpsDiffer(cap, i, j); }
    hide MarkLess, BadMark, Largest;
    BadStays(cap, n);
    var items := BadItems(cap);
    var missed, kept := BadMark(cap, cap + 1), BadMark(cap, 0);
    assert walk[cap + 1] == missed && items[0] == kept;
    forall j | 0 <= j < cap ensures items[j] != missed {
      assert items[j] == BadMark(cap, if j == 1 then cap else j);
      BadMarksDiffer(cap, if j == 1 then cap else j, cap + 1);
    }
    BadLess(cap, 0, cap + 1);
    assert missed in walk && missed !in items && kept in items;
  }

  lemma BadMarksDiffer(cap: nat, i: nat, j: nat)
    requires 2 <= cap < 0x8000_0000 && i < 0x1_0000_0000 && j < 0x1_0000_0000 && i != j
    ensures BadMark(cap, i) != BadMark(cap, j)
  {
    BadTimesDiffer(cap, i, j);
  }

  lemma BadOpsDiffer(cap: nat, i: nat, j: nat)
    requires 2 <= cap < 0x8000_0000 && i < 0x1_0000_0000 && j < 0x1_0000_0000 && i != j
    ensures BadMark(cap, i).op != BadMark(cap, j).op
  {
    BadTimesDiffer(cap, i, j);
    FieldWidths();
    Wide();
    LERoundTrip(BadTime(cap, i), 16);
    LERoundTrip(BadTime(cap, j), 16);
  }

  lemma Wide()
    ensures Pow256(16) > 0x10_0000_0000
  {
    FieldWidths();
    hide Pow256;
    PowGrows(8, 16);
  }

  lemma {:induction false} PowGrows(a: nat, b: nat)
    requires a <= b
    ensures Pow256(a) <= Pow256(b)
  {
    if a < b { PowGrows(a, b - 1); }
  }

  /** For a walk of `n` receipts in whatever order, the page is the smallest of them just when there is room for
      one, or at most one match too many. */
  lemma ReceiptsSelectedIff(cap: nat, n: nat)
    requires 0 < cap < 0x8000_0000 && n <= 0x1_0000_0000
    ensures (forall walk: seq<Mark> :: |walk| == n && Distinct(walk) ==>
      Smallest(MarkLess, cap, Select(MarkLess, cap, 1, walk).items, walk))
      <==> cap == 1 || n <= cap + 1
  {
    hide MarkLess, Smallest, Select;
    MarkOrderTotal();
    if cap == 1 || n <= cap + 1 {
      forall walk: seq<Mark> | |walk| == n && Distinct(walk)
        ensures Smallest(MarkLess, cap, Select(MarkLess, cap, 1, walk).items, walk)
      {
        RightWhenFew(MarkLess, cap, walk);
      }
    } else {
      var walk := WrongWhenMany(cap, n);
      assert Distinct(walk);
    }
  }
}
