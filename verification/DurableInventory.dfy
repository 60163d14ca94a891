/** The paged inventory of durable keys: a bounded selection over an unordered walk, sorted, with a keyset cursor. */
module DurableInventory {
  import opened Bytes
  import opened Selection
  import opened KeyOrder

  const NAME_MAX := 255

  /** The key has the prefix and lies past the cursor; an empty prefix or cursor does not restrict. */
  predicate Matches(prefix: Bytes, after: Bytes, k: Bytes) {
    (|prefix| == 0 || prefix <= k) && (|after| == 0 || KeyLess(after, k))
  }

  /** The key starts with the prefix, byte for byte, and the first difference from the cursor, if there is one, puts
      it behind. */
  lemma MatchesIff(prefix: Bytes, after: Bytes, k: Bytes)
    ensures Matches(prefix, after, k)
       <==> |prefix| <= |k| && (forall i :: 0 <= i < |prefix| ==> k[i] == prefix[i])
            && (after == [] || exists i :: DecidedAt(after, k, i))
  {
    hide KeyLess;
    KeyLessIff(after, k);
  }

  function Matching(prefix: Bytes, after: Bytes, walk: seq<Bytes>): seq<Bytes> {
    if walk == [] then []
    else
      var front, k := Matching(prefix, after, walk[..|walk| - 1]), walk[|walk| - 1];
      if Matches(prefix, after, k) then front + [k] else front
  }

  lemma {:induction false} MatchingMembers(prefix: Bytes, after: Bytes, walk: seq<Bytes>)
    ensures forall k :: k in Matching(prefix, after, walk) <==> k in walk && Matches(prefix, after, k)
    ensures Distinct(walk) ==> Distinct(Matching(prefix, after, walk))
  {
    hide Matches;
    if walk != [] {
      var front, last := walk[..|walk| - 1], walk[|walk| - 1];
      MatchingMembers(prefix, after, front);
      assert forall k :: k in walk <==> k in front || k == last;
      assert Distinct(walk) ==> last !in front;
    }
  }

  /** A page over a set of keys: the smallest matching ones in order, and a cursor exactly when some are left. */
  ghost predicate IsPage(keys: set<Bytes>, limit: nat, prefix: Bytes, after: Bytes, page: seq<Bytes>,
                         next: Option<Bytes>) {
    && Ascending(KeyLess, page) && |page| <= limit
    && (forall k :: k in page ==> k in keys && Matches(prefix, after, k))
    && (forall k, p :: k in keys && Matches(prefix, after, k) && k !in page && p in page ==> KeyLess(p, k))
    && match next
       case None => forall k :: k in keys && Matches(prefix, after, k) ==> k in page
       case Some(c) => page != [] && |page| == limit && c == page[|page| - 1] && Leaves(keys, prefix, after, page)
  }

  /** Some matching key is not on the page. */
  ghost predicate Leaves(keys: set<Bytes>, prefix: Bytes, after: Bytes, page: seq<Bytes>) {
    exists k :: k in keys && Matches(prefix, after, k) && k !in page
  }

  ghost predicate Enumerates(walk: seq<Bytes>, keys: set<Bytes>) {
    Distinct(walk) && forall k :: k in walk <==> k in keys
  }

  /** Offer every matching key of the walk to the selection; a key too long for the answer is noted. */
  method Walk(walk: seq<Bytes>, size: nat, prefix: Bytes, after: Bytes)
    returns (tooLarge: bool, items: seq<Bytes>, over: nat)
    requires size > 0
    ensures tooLarge <==> exists j :: 0 <= j < |walk| && |walk[j]| > NAME_MAX
    ensures !tooLarge
      ==> var s := Select(KeyLess, size, 0, Matching(prefix, after, walk)); items == s.items && over == s.over
  {
    hide Matches, KeyLess, Select;
    var sel := new Selector(KeyLess, size, 0);
    tooLarge := false;
    var i := 0;
    while i < |walk|
      invariant i <= |walk| && sel.Valid() && fresh(sel) && sel.cap == size && sel.from == 0 && sel.less == KeyLess
      invariant tooLarge <==> exists j :: 0 <= j < i && |walk[j]| > NAME_MAX
      invariant !tooLarge ==> sel.walk == Matching(prefix, after, walk[..i])
    {
      var k := walk[i];
      assert walk[..i + 1][..i] == walk[..i];
      if |k| > NAME_MAX {
        tooLarge := true;
      } else if Matches(prefix, after, k) {
        sel.Add(k);
      }
      i := i + 1;
    }
    assert walk[..i] == walk;
    items, over := sel.items, sel.over;
  }

  /** One request. It is refused when any key of the store is too long for the answer. */
  method Page(walk: seq<Bytes>, limit: nat, prefix: Bytes, after: Bytes, ghost keys: set<Bytes>)
    returns (ok: bool, page: seq<Bytes>, next: Option<Bytes>)
    requires limit > 0 && Enumerates(walk, keys)
    ensures ok <==> forall k :: k in keys ==> |k| <= 255
    ensures ok ==> IsPage(keys, limit, prefix, after, page, next)
  {
    hide Matches, KeyLess, IsPage, Matching, Smallest, Ascending;
    var tooLarge, kept, over := Walk(walk, limit + 1, prefix, after);
    if tooLarge { return false, [], None; }
    KeyOrderTotal();
    MatchingMembers(prefix, after, walk);
    ghost var matching := Matching(prefix, after, walk);
    SelectsSmallest(KeyLess, limit + 1, matching);
    KeptDistinct(kept, matching, limit + 1);
    var items := Sort(kept, KeyLess);
    var returned := if |items| < limit then |items| else limit;
    var more := |items| > limit || over > 0;
    ok, page := true, items[..returned];
    next := if more && returned > 0 then Some(items[returned - 1]) else None;
    PageOf(keys, limit, prefix, after, matching, kept, items, page, next);
  }

  lemma KeptDistinct(kept: seq<Bytes>, matching: seq<Bytes>, size: nat)
    requires Smallest(KeyLess, size, kept, matching)
    ensures Distinct(kept)
  {
  }

  lemma PageOf(keys: set<Bytes>, limit: nat, prefix: Bytes, after: Bytes, matching: seq<Bytes>, kept: seq<Bytes>,
               items: seq<Bytes>,
               page: seq<Bytes>, next: Option<Bytes>)
    requires limit > 0 && Total(KeyLess) && Distinct(matching) && Smallest(KeyLess, limit + 1, kept, matching)
    requires forall k :: k in matching <==> k in keys && Matches(prefix, after, k)
    requires Ascending(KeyLess, items) && SameItems(kept, items) && |items| == |kept|
    requires page == items[..Min(|items|, limit)]
    requires next == if |matching| > limit then Some(items[limit - 1]) else None
    ensures IsPage(keys, limit, prefix, after, page, next)
  {
    hide Matches, KeyLess, Total;
    SameMembers(kept, items);
    if |matching| <= limit {
      AllKept(kept, matching);
      assert page == items;
    } else {
      forall k, p | k in matching && k !in page && p in page ensures KeyLess(p, k) {
        var a :| 0 <= a < limit && page[a] == p;
        if k in items {
          var b :| 0 <= b < |items| && items[b] == k;
          assert a < b by { assert forall m :: 0 <= m < limit ==> page[m] == items[m] && page[m] in page; }
        } else {
          assert p in items;
        }
      }
      LeftOver(keys, limit, prefix, after, items);
    }
  }

  /** An item past the page is the key it leaves. */
  lemma LeftOver(keys: set<Bytes>, limit: nat, prefix: Bytes, after: Bytes, items: seq<Bytes>)
    requires Total(KeyLess) && Ascending(KeyLess, items) && limit < |items|
    requires forall k :: k in items ==> k in keys && Matches(prefix, after, k)
    ensures Leaves(keys, prefix, after, items[..limit])
  {
    hide Matches, KeyLess;
    assert items[limit] in items;
    assert items[limit] !in items[..limit];
  }

  lemma SameMembers(a: seq<Bytes>, b: seq<Bytes>)
    requires SameItems(a, b)
    ensures forall k :: k in a <==> k in b
  {
    forall k ensures k in a <==> k in b { assert k in multiset(a) <==> k in multiset(b); }
  }

  // ---- following the cursor ----

  datatype Turn = Turn(limit: nat, page: seq<Bytes>, next: Option<Bytes>)

  /** Requests that each start at the cursor the one before returned. */
  ghost predicate Followed(keys: set<Bytes>, prefix: Bytes, after: Bytes, turns: seq<Turn>)
    decreases |turns|
  {
    turns == [] || (
      && turns[0].limit > 0 && IsPage(keys, turns[0].limit, prefix, after, turns[0].page, turns[0].next)
      && (|turns| > 1 ==> turns[0].next.Some? && Followed(keys, prefix, turns[0].next.value, turns[1..])))
  }

  function Listed(turns: seq<Turn>): seq<Bytes> {
    if turns == [] then [] else turns[0].page + Listed(turns[1..])
  }

  /** What is past the cursor of a page is what the page left out. */
  lemma CursorLeaves(keys: set<Bytes>, limit: nat, prefix: Bytes, after: Bytes, page: seq<Bytes>, next: Option<Bytes>,
                     k: Bytes)
    requires IsPage(keys, limit, prefix, after, page, next) && next.Some? && (forall x :: x in keys ==> |x| > 0)
    ensures next.value in keys
    ensures k in keys ==> (Matches(prefix, next.value, k) <==> Matches(prefix, after, k) && k !in page)
  {
    hide KeyLess;
    KeyOrderTotal();
    var c := next.value;
    assert page[|page| - 1] == c && c in page;
    if k in page {
      var i :| 0 <= i < |page| && page[i] == k;
      assert i == |page| - 1 || KeyLess(k, c);
    }
  }

  /** Following the cursor lists every matching key once, in strictly ascending order, whatever the limits. */
  lemma {:induction false} CursorsListAll(keys: set<Bytes>, prefix: Bytes, after: Bytes, turns: seq<Turn>)
    requires (forall x :: x in keys ==> |x| > 0) && Followed(keys, prefix, after, turns) && turns != []
    ensures Ascending(KeyLess, Listed(turns))
    ensures forall k :: k in Listed(turns) ==> k in keys && Matches(prefix, after, k)
    ensures turns[|turns| - 1].next.None? ==> forall k :: k in keys && Matches(prefix, after, k) ==> k in Listed(turns)
    decreases |turns|
  {
    hide Matches, KeyLess;
    var t := turns[0];
    if |turns| == 1 {
      assert Listed(turns[1..]) == [];
      assert Listed(turns) == t.page;
    } else {
      var rest := turns[1..];
      CursorsListAll(keys, prefix, t.next.value, rest);
      forall k | k in keys ensures Matches(prefix, t.next.value, k) <==> Matches(prefix, after, k) && k !in t.page {
        CursorLeaves(keys, t.limit, prefix, after, t.page, t.next, k);
      }
      assert rest[|rest| - 1] == turns[|turns| - 1];
      JoinAscends(t.page, Listed(rest));
    }
  }

  /** No turn but a lone one is empty, so following the cursor takes at most as many turns as there are keys. */
  lemma {:induction false} TurnsBounded(keys: set<Bytes>, prefix: Bytes, after: Bytes, turns: seq<Turn>)
    requires (forall x :: x in keys ==> |x| > 0) && Followed(keys, prefix, after, turns) && turns != []
    ensures |turns| == 1 || |turns| <= |Listed(turns)|
    ensures |Listed(turns)| <= |keys|
    ensures (exists k :: k in keys && Matches(prefix, after, k)) ==> |turns| <= |Listed(turns)|
    decreases |turns|
  {
    hide Matches, KeyLess;
    CursorsListAll(keys, prefix, after, turns);
    ListedFits(Listed(turns), keys);
    var t := turns[0];
    if |turns| == 1 {
      assert Listed(turns[1..]) == [];
    } else {
      var k :| k in keys && Matches(prefix, after, k) && k !in t.page;
      CursorLeaves(keys, t.limit, prefix, after, t.page, t.next, k);
      TurnsBounded(keys, prefix, t.next.value, turns[1..]);
    }
  }

  lemma ListedFits(listed: seq<Bytes>, keys: set<Bytes>)
    requires Ascending(KeyLess, listed) && forall k :: k in listed ==> k in keys
    ensures |listed| <= |keys|
    decreases |listed|
  {
    hide KeyLess;
    KeyOrderTotal();
    if listed != [] {
      var front, last := listed[..|listed| - 1], listed[|listed| - 1];
      assert last !in front;
      ListedFits(front, keys - {last});
    }
  }

  lemma JoinAscends(a: seq<Bytes>, b: seq<Bytes>)
    requires Ascending(KeyLess, a) && Ascending(KeyLess, b) && forall x, y :: x in a && y in b ==> KeyLess(x, y)
    ensures Ascending(KeyLess, a + b)
  {
    hide KeyLess;
    var s := a + b;
    forall i, j | 0 <= i < j < |s| ensures KeyLess(s[i], s[j]) {
      if i < |a| <= j { assert s[i] in a && s[j] in b; }
    }
  }
}
