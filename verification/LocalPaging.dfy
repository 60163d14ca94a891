/** Scanning the in-process cache's metadata, whole or a page at a time. */
module LocalPaging {
  import opened Bytes
  import opened LocalTable
  import opened LocalSteps

  datatype Cursor = Cursor(shard: nat, bucket: nat, entry: nat)

  /** What a scan at one time delivers of a chain: the entries that are live and match, in order. */
  function Filter(chain: Bucket, want: Entry -> bool): Bucket {
    if chain == [] then [] else (if want(chain[0]) then [chain[0]] else []) + Filter(chain[1..], want)
  }

  function BucketsFrom(t: Buckets, b: nat, want: Entry -> bool): Bucket
    decreases |t| - b
  {
    if b >= |t| then [] else Filter(t[b], want) + BucketsFrom(t, b + 1, want)
  }

  function ShardsFrom(tables: seq<Buckets>, i: nat, want: Entry -> bool): Bucket
    decreases |tables| - i
  {
    if i >= |tables| then [] else BucketsFrom(tables[i], 0, want) + ShardsFrom(tables, i + 1, want)
  }

  /** What is still to come at a cursor. */
  function Rest(tables: seq<Buckets>, c: Cursor, want: Entry -> bool): Bucket {
    if c.shard >= |tables| then []
    else if c.bucket >= |tables[c.shard]| then ShardsFrom(tables, c.shard + 1, want)
    else
      Filter(Tail(tables[c.shard][c.bucket], c.entry), want)
      + (BucketsFrom(tables[c.shard], c.bucket + 1, want) + ShardsFrom(tables, c.shard + 1, want))
  }

  function Tail(chain: Bucket, skip: nat): Bucket { if skip <= |chain| then chain[skip..] else [] }

  lemma RestStart(tables: seq<Buckets>, want: Entry -> bool)
    ensures Rest(tables, Cursor(0, 0, 0), want) == ShardsFrom(tables, 0, want)
  {
    if |tables| > 0 { RestBucketStart(tables, 0, 0, want); }
  }

  lemma RestBucketStart(tables: seq<Buckets>, i: nat, b: nat, want: Entry -> bool)
    requires i < |tables|
    ensures Rest(tables, Cursor(i, b, 0), want) == BucketsFrom(tables[i], b, want) + ShardsFrom(tables, i + 1, want)
  {
    hide Filter, BucketsFrom, ShardsFrom;
    var rest := ShardsFrom(tables, i + 1, want);
    BucketsStep(tables[i], b, want);
    if b < |tables[i]| {
      assert Tail(tables[i][b], 0) == tables[i][b];
      Associates(Filter(tables[i][b], want), BucketsFrom(tables[i], b + 1, want), rest);
    } else {
      assert [] + rest == rest;
    }
  }

  lemma BucketsStep(t: Buckets, b: nat, want: Entry -> bool)
    ensures BucketsFrom(t, b, want) == if b < |t| then Filter(t[b], want) + BucketsFrom(t, b + 1, want) else []
  {
    hide Filter;
  }

  lemma Associates(f: Bucket, x: Bucket, y: Bucket)
    ensures (f + x) + y == f + (x + y)
  {
  }

  lemma FilterNone(chain: Bucket, want: Entry -> bool)
    ensures Filter(Tail(chain, |chain|), want) == []
  {
  }

  /** The part of a page that one bucket gives: `last` is the place after the last entry delivered here, and
      `left` what the bucket still has to give. */
  method PageBucket(chain: Bucket, skip: nat, max: nat, want: Entry -> bool, before: Bucket)
    returns (out: Bucket, last: nat, more: bool, ghost left: Bucket)
    requires |before| <= max
    ensures out + left == before + Filter(Tail(chain, skip), want) && |before| <= |out| <= max
    ensures if more then |out| == max && left != [] else left == []
    ensures if |out| == |before| then out == before else last <= |chain| && Filter(Tail(chain, last), want) == left
  {
    hide Filter;
    out, last, more := before, 0, false;
    left := Filter(Tail(chain, skip), want);
    var j := 0;
    while j < |chain|
      invariant j <= |chain| && |before| <= |out| <= max
      invariant out + left == before + Filter(Tail(chain, skip), want)
      invariant left == Filter(Tail(chain, if j < skip then skip else j), want)
      invariant if |out| == |before| then out == before else last <= |chain| && Filter(Tail(chain, last), want) == left
    {
      if j < skip || !want(chain[j]) {
        Skips(chain, skip, j, want);
      } else {
        Takes(chain, j, want);
        if |out| == max {
          more := true;
          return;
        }
        ShiftOne(out, left);
        out, last, left := out + [chain[j]], j + 1, left[1..];
      }
      j := j + 1;
    }
    FilterNone(chain, want);
    FilterPast(chain, skip, want);
  }

  lemma ShiftOne(out: Bucket, left: Bucket)
    requires left != []
    ensures (out + [left[0]]) + left[1..] == out + left
  {
  }

  lemma FilterPast(chain: Bucket, skip: nat, want: Entry -> bool)
    ensures Filter(Tail(chain, if |chain| < skip then skip else |chain|), want) == []
  {
  }

  lemma Skips(chain: Bucket, skip: nat, j: nat, want: Entry -> bool)
    requires j < |chain| && (j < skip || !want(chain[j]))
    ensures Filter(Tail(chain, if j < skip then skip else j), want)
       == Filter(Tail(chain, if j + 1 < skip then skip else j + 1), want)
  {
    if skip <= j { assert chain[j..][1..] == chain[j + 1..]; }
  }

  lemma Takes(chain: Bucket, j: nat, want: Entry -> bool)
    requires j < |chain| && want(chain[j])
    ensures Filter(Tail(chain, j), want) == [chain[j]] + Filter(Tail(chain, j + 1), want)
  {
    assert chain[j..][1..] == chain[j + 1..];
  }

  /** The entries of one page from a cursor, where the next page starts, and whether there is more to come. A limit
      of zero is refused. */
  method Page(tables: seq<Buckets>, start: Option<Cursor>, max: nat, want: Entry -> bool)
    returns (ok: bool, out: Bucket, next: Cursor, more: bool)
    ensures ok <==> max > 0
    ensures !ok ==> out == []
    ensures ok ==> out + Rest(tables, next, want) == Rest(tables, From(start), want) && |out| <= max
    ensures ok ==> if more then |out| == max && Rest(tables, next, want) != [] else Rest(tables, next, want) == []
  {
    hide Rest;
    ok, out, next, more := max > 0, [], From(start), false;
    if !ok { return; }
    var position := next;
    if position.shard >= |tables| {
      RestOver(tables, position, want);
      return;
    }
    var i := position.shard;
    while i < |tables|
      invariant position.shard == i <= |tables| && |out| <= max
      invariant out + Rest(tables, position, want) == Rest(tables, From(start), want)
      invariant out != [] ==> Rest(tables, next, want) == Rest(tables, position, want)
    {
      out, next, more, position := PageShard(tables, i, position, max, want, out, next);
      if more { return; }
      i := i + 1;
    }
    RestOver(tables, position, want);
    if out == [] { next := position; }
  }

  function From(start: Option<Cursor>): Cursor { if start.Some? then start.value else Cursor(0, 0, 0) }

  lemma RestOver(tables: seq<Buckets>, c: Cursor, want: Entry -> bool)
    requires c.shard >= |tables|
    ensures Rest(tables, c, want) == []
  {
  }

  /** The part of a page that one shard gives. */
  method PageShard(tables: seq<Buckets>, i: nat, start: Cursor, max: nat, want: Entry -> bool, before: Bucket,
                   after: Cursor)
    returns (out: Bucket, next: Cursor, more: bool, position: Cursor)
    requires i < |tables| && start.shard == i && |before| <= max && max > 0
    requires before != [] ==> Rest(tables, after, want) == Rest(tables, start, want)
    ensures |out| <= max && position.shard == (if more then i else i + 1)
    ensures !more ==> out + Rest(tables, position, want) == before + Rest(tables, start, want)
    ensures more ==> out + Rest(tables, next, want) == before + Rest(tables, start, want) && |out| == max
    ensures more ==> Rest(tables, next, want) != []
    ensures out != [] ==> more || Rest(tables, next, want) == Rest(tables, position, want)
  {
    hide Rest, Filter, Tail;
    out, next, more, position := before, after, false, start;
    var b := position.bucket;
    while b < |tables[i]|
      invariant position.shard == i && position.bucket == b && |out| <= max
      invariant out + Rest(tables, position, want) == before + Rest(tables, start, want)
      invariant out != [] ==> Rest(tables, next, want) == Rest(tables, position, want)
    {
      var skip := position.entry;
      var now, last, full, left := PageBucket(tables[i][b], skip, max, want, out);
      ghost var tail := Rest(tables, Cursor(i, b + 1, 0), want);
      RestIs(tables, i, b, skip, want);
      RestIs(tables, i, b, last, want);
      Regroup(now, left, out, Filter(Tail(tables[i][b], skip), want), tail);
      if |now| != |out| { next := Cursor(i, b, last); }
      out := now;
      if full {
        more := true;
        return;
      }
      position := Cursor(i, b + 1, 0);
      b := b + 1;
    }
    RestEnd(tables, position, want);
    position := Cursor(i + 1, 0, 0);
  }

  lemma Regroup(now: Bucket, left: Bucket, out: Bucket, f: Bucket, tail: Bucket)
    requires now + left == out + f
    ensures now + (left + tail) == out + (f + tail)
    ensures now == out ==> left == f
    ensures left == [] ==> left + tail == tail
    ensures left != [] ==> left + tail != []
  {
    assert (now + left) + tail == now + (left + tail);
    assert (out + f) + tail == out + (f + tail);
    if now == out {
      assert left == (now + left)[|now|..];
      assert f == (out + f)[|out|..];
    }
  }

  lemma RestIs(tables: seq<Buckets>, i: nat, b: nat, skip: nat, want: Entry -> bool)
    requires i < |tables| && b < |tables[i]|
    ensures Rest(tables, Cursor(i, b, skip), want)
       == Filter(Tail(tables[i][b], skip), want) + Rest(tables, Cursor(i, b + 1, 0), want)
  {
    hide Filter, BucketsFrom, ShardsFrom;
    RestBucketStart(tables, i, b + 1, want);
  }

  lemma RestEnd(tables: seq<Buckets>, c: Cursor, want: Entry -> bool)
    requires c.shard < |tables| && c.bucket >= |tables[c.shard]|
    ensures Rest(tables, c, want) == Rest(tables, Cursor(c.shard + 1, 0, 0), want)
  {
    hide Filter, BucketsFrom, ShardsFrom;
    if c.shard + 1 < |tables| { RestBucketStart(tables, c.shard + 1, 0, want); }
    ShardsStep(tables, c.shard + 1, want);
  }

  lemma ShardsStep(tables: seq<Buckets>, i: nat, want: Entry -> bool)
    ensures ShardsFrom(tables, i, want)
       == if i < |tables| then BucketsFrom(tables[i], 0, want) + ShardsFrom(tables, i + 1, want) else []
  {
  }

  // ---- paging equals scanning ----

  /** One request and its answer. */
  datatype Turn = Turn(max: nat, out: Bucket, next: Cursor, more: bool)

  /** The answer is what Page promises. */
  ghost predicate Served(tables: seq<Buckets>, want: Entry -> bool, c: Cursor, t: Turn) {
    && t.max > 0 && t.out + Rest(tables, t.next, want) == Rest(tables, c, want) && |t.out| <= t.max
    && if t.more then |t.out| == t.max && Rest(tables, t.next, want) != [] else Rest(tables, t.next, want) == []
  }

  /** Requests that each start at the cursor before, for as long as there was more. */
  ghost predicate Followed(tables: seq<Buckets>, want: Entry -> bool, c: Cursor, turns: seq<Turn>)
    decreases |turns|
  {
    turns == [] || (
      && Served(tables, want, c, turns[0]) && (|turns| > 1 ==> turns[0].more)
      && Followed(tables, want, turns[0].next, turns[1..]))
  }

  function Delivered(turns: seq<Turn>): Bucket {
    if turns == [] then [] else turns[0].out + Delivered(turns[1..])
  }

  /** Following cursors, whatever the limits, delivers the scan in order; it ends with the scan, after no more
      requests than there are entries, plus one. */
  lemma {:induction false} PagesAreScan(tables: seq<Buckets>, want: Entry -> bool, c: Cursor, turns: seq<Turn>)
    requires Followed(tables, want, c, turns) && turns != []
    ensures var last := turns[|turns| - 1];
      && Delivered(turns) + Rest(tables, last.next, want) == Rest(tables, c, want)
      && (!last.more ==> Delivered(turns) == Rest(tables, c, want))
    ensures |turns| <= |Rest(tables, c, want)| + 1
    decreases |turns|
  {
    hide Rest;
    var t := turns[0];
    if |turns| == 1 {
      assert Delivered(turns[1..]) == [];
      assert Delivered(turns) == t.out;
    } else {
      var more := turns[1..];
      assert more[|more| - 1] == turns[|turns| - 1];
      PagesAreScan(tables, want, t.next, more);
      var r := Rest(tables, turns[|turns| - 1].next, want);
      assert (t.out + Delivered(more)) + r == t.out + (Delivered(more) + r);
    }
  }

  /** The whole scan, up to a limit. */
  method ScanMetadata(tables: seq<Buckets>, max: nat, want: Entry -> bool) returns (ok: bool, out: Bucket)
    ensures ok <==> max > 0
    ensures !ok ==> out == []
    ensures ok ==> out <= ShardsFrom(tables, 0, want) && |out| <= max
    ensures ok ==> (|out| < max ==> out == ShardsFrom(tables, 0, want))
  {
    hide Filter, BucketsFrom, ShardsFrom, Rest;
    ok, out := max > 0, [];
    if !ok { return; }
    RestStart(tables, want);
    ghost var all := ShardsFrom(tables, 0, want);
    ghost var rest := all;
    var i := 0;
    while i < |tables| && |out| < max
      invariant i <= |tables| && |out| <= max && out + rest == all
      invariant |out| < max ==> rest == Rest(tables, Cursor(i, 0, 0), want)
    {
      var b := 0;
      while b < |tables[i]| && |out| < max
        invariant b <= |tables[i]| && |out| <= max && out + rest == all
        invariant |out| < max ==> rest == Rest(tables, Cursor(i, b, 0), want)
      {
        RestIs(tables, i, b, 0, want);
        var now, last, full, left := PageBucket(tables[i][b], 0, max, want, out);
        ghost var tail := Rest(tables, Cursor(i, b + 1, 0), want);
        Regroup(now, left, out, Filter(Tail(tables[i][b], 0), want), tail);
        out, rest := now, left + tail;
        b := b + 1;
      }
      if |out| < max { RestEnd(tables, Cursor(i, b, 0), want); }
      i := i + 1;
    }
    if |out| < max { RestOver(tables, Cursor(i, 0, 0), want); }
  }

  // ---- every live entry once ----

  lemma {:induction false} FilterMember(chain: Bucket, want: Entry -> bool, e: Entry)
    ensures e in Filter(chain, want) <==> e in chain && want(e)
  {
    if chain != [] { FilterMember(chain[1..], want, e); }
  }

  lemma {:induction false} FilterDiffer(chain: Bucket, want: Entry -> bool)
    requires KeysDiffer(chain)
    ensures KeysDiffer(Filter(chain, want))
  {
    if chain != [] {
      FilterDiffer(chain[1..], want);
      forall e | e in Filter(chain[1..], want) ensures e.key != chain[0].key {
        FilterMember(chain[1..], want, e);
        var p :| 0 <= p < |chain[1..]| && chain[1..][p] == e;
        assert chain[p + 1] == e;
      }
    }
  }

  ghost predicate InBuckets(t: Buckets, b: nat, e: Entry) { exists c :: b <= c < |t| && e in t[c] }

  ghost predicate InTables(tables: seq<Buckets>, i: nat, e: Entry) {
    exists j :: i <= j < |tables| && InBuckets(tables[j], 0, e)
  }

  lemma {:induction false} BucketsMember(t: Buckets, b: nat, want: Entry -> bool, e: Entry)
    ensures e in BucketsFrom(t, b, want) <==> want(e) && InBuckets(t, b, e)
    decreases |t| - b
  {
    hide Filter;
    if b < |t| {
      BucketsMember(t, b + 1, want, e);
      FilterMember(t[b], want, e);
      assert InBuckets(t, b, e) <==> e in t[b] || InBuckets(t, b + 1, e);
    }
  }

  lemma {:induction false} ShardsMember(tables: seq<Buckets>, i: nat, want: Entry -> bool, e: Entry)
    ensures e in ShardsFrom(tables, i, want) <==> want(e) && InTables(tables, i, e)
    decreases |tables| - i
  {
    hide Filter, BucketsFrom, InBuckets;
    if i < |tables| {
      ShardsMember(tables, i + 1, want, e);
      BucketsMember(tables[i], 0, want, e);
      assert InTables(tables, i, e) <==> InBuckets(tables[i], 0, e) || InTables(tables, i + 1, e);
    }
  }

  lemma JoinDiffer(a: Bucket, b: Bucket)
    requires KeysDiffer(a) && KeysDiffer(b) && forall x, y :: x in a && y in b ==> x.key != y.key
    ensures KeysDiffer(a + b)
  {
    var s := a + b;
    forall p, q | 0 <= p < q < |s| ensures s[p].key != s[q].key {
      if p < |a| && q >= |a| { assert s[p] in a && s[q] in b; }
    }
  }

  lemma {:induction false} BucketsDiffer(l: Shape, hash: Long -> u32, i: nat, t: Buckets, index: map<Long, Entry>,
                                         b: nat, want: Entry -> bool)
    requires l.span > 0 && ShardFiled(l, hash, i, t, index)
    ensures KeysDiffer(BucketsFrom(t, b, want))
    decreases |t| - b
  {
    hide Slot, Shape.ShardOf;
    if b < |t| {
      BucketsDiffer(l, hash, i, t, index, b + 1, want);
      assert BucketOk(l, hash, i, b, |t|, t[b], index);
      FilterDiffer(t[b], want);
      forall x, y | x in Filter(t[b], want) && y in BucketsFrom(t, b + 1, want) ensures x.key != y.key {
        FilterMember(t[b], want, x);
        BucketsMember(t, b + 1, want, y);
        var c :| b + 1 <= c < |t| && y in t[c];
        assert BucketOk(l, hash, i, c, |t|, t[c], index);
      }
      JoinDiffer(Filter(t[b], want), BucketsFrom(t, b + 1, want));
    }
  }

  lemma NoneDiffer()
    ensures KeysDiffer([])
  {
  }

  lemma {:induction false} ShardsDiffer(l: Shape, hash: Long -> u32, tables: seq<Buckets>, index: map<Long, Entry>,
                                        i: nat, want: Entry -> bool)
    requires l.span > 0 && Filed(l, hash, tables, index)
    ensures KeysDiffer(ShardsFrom(tables, i, want))
    decreases |tables| - i
  {
    hide Slot, Shape.ShardOf, ShardFiled, Filter, BucketsFrom, KeysDiffer, Present;
    if i >= |tables| {
      NoneDiffer();
    } else {
      ShardsDiffer(l, hash, tables, index, i + 1, want);
      BucketsDiffer(l, hash, i, tables[i], index, 0, want);
      forall x, y | x in BucketsFrom(tables[i], 0, want) && y in ShardsFrom(tables, i + 1, want)
        ensures x.key != y.key
      {
        BucketsMember(tables[i], 0, want, x);
        ShardsMember(tables, i + 1, want, y);
        var b :| 0 <= b < |tables[i]| && x in tables[i][b];
        var j :| i + 1 <= j < |tables| && InBuckets(tables[j], 0, y);
        var c :| 0 <= c < |tables[j]| && y in tables[j][c];
        InShardOf(l, hash, tables, index, i, b, x);
        InShardOf(l, hash, tables, index, j, c, y);
      }
      JoinDiffer(BucketsFrom(tables[i], 0, want), ShardsFrom(tables, i + 1, want));
    }
  }

  lemma InShardOf(l: Shape, hash: Long -> u32, tables: seq<Buckets>, index: map<Long, Entry>, i: nat, b: nat, e: Entry)
    requires l.span > 0 && Filed(l, hash, tables, index) && i < |tables| && b < |tables[i]| && e in tables[i][b]
    ensures l.ShardOf(hash(e.key)) == i && e.key in index && index[e.key] == e
  {
    hide Slot, Shape.ShardOf;
    assert ShardFiled(l, hash, i, tables[i], index);
    assert BucketOk(l, hash, i, b, |tables[i]|, tables[i][b], index);
  }

  /** The scan lists every entry of the index that is wanted, each key once, and nothing else. */
  lemma ScanIsIndex(l: Shape, hash: Long -> u32, tables: seq<Buckets>, index: map<Long, Entry>, want: Entry -> bool)
    requires l.span > 0 && Filed(l, hash, tables, index)
    ensures KeysDiffer(ShardsFrom(tables, 0, want))
    ensures forall e :: e in ShardsFrom(tables, 0, want) <==> want(e) && e.key in index && index[e.key] == e
  {
    hide Slot, Shape.ShardOf, ShardFiled, ShardsFrom, KeysDiffer;
    ShardsDiffer(l, hash, tables, index, 0, want);
    forall e ensures e in ShardsFrom(tables, 0, want) <==> want(e) && e.key in index && index[e.key] == e {
      ShardsMember(tables, 0, want, e);
      if j :| 0 <= j < |tables| && InBuckets(tables[j], 0, e) {
        var c :| 0 <= c < |tables[j]| && e in tables[j][c];
        InShardOf(l, hash, tables, index, j, c, e);
      }
      if e.key in index && index[e.key] == e {
        assert Present(l, hash, tables, e.key, e);
        assert InBuckets(tables[l.ShardOf(hash(e.key))], 0, e);
      }
    }
  }
}
