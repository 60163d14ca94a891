/** The in-process cache's writes to one shard, and why each keeps the table filed and counted. */
module LocalSteps {
  import opened Bytes
  import opened MapSum
  import opened PowersOfTwo
  import opened LocalTable

  // ---- counters ----

  lemma {:induction false} BucketBytesSet(tables: seq<Buckets>, i: nat, t: Buckets)
    requires i < |tables|
    ensures BucketBytes(tables[i := t]) == BucketBytes(tables) - LINK_BYTES * |tables[i]| + LINK_BYTES * |t|
  {
    var n := |tables| - 1;
    var after := tables[i := t];
    if i == n {
      assert after[..n] == tables[..n];
    } else {
      BucketBytesSet(tables[..n], i, t);
      assert after[..n] == tables[..n][i := t];
    }
  }

  lemma {:induction false} SumSeqSet(s: seq<nat>, i: nat, x: nat)
    requires i < |s|
    ensures SumSeq(s[i := x]) == SumSeq(s) - s[i] + x
  {
    var n := |s| - 1;
    var after := s[i := x];
    if i == n {
      assert after[..n] == s[..n];
    } else {
      SumSeqSet(s[..n], i, x);
      assert after[..n] == s[..n][i := x];
    }
  }

  /** What a change of the index by one entry does to every counter. */
  lemma TallyPut(l: Shape, v: Table, i: nat, e: Entry, t: Buckets, charge: int, left: nat)
    requires l.span > 0 && Tallied(l, v) && i < l.shards && |t| == |v.tables[i]| && l.ShardOf(e.hash) == i && Classed(e)
    requires e.key in v.index ==> l.ShardOf(v.index[e.key].hash) == i && Classed(v.index[e.key])
    requires charge + v.slack[i] ==
      left + Capacity(e) - (if e.key in v.index then Capacity(v.index[e.key]) else 0)
    ensures Tallied(l, v.(tables := v.tables[i := t], index := v.index[e.key := e], slack := v.slack[i := left],
      counts := v.counts[i := v.counts[i] + (if e.key in v.index then 0 else 1)],
      mems := v.mems[i := v.mems[i] + charge], total := v.total + charge,
      ttl := v.ttl - (if e.key in v.index then TtlWeight(e.key, v.index[e.key]) else 0) + TtlWeight(e.key, e)))
  {
    hide Sum, BucketBytes, SumSeq, Shape.ShardOf, Capacity, Classed;
    SumInsert(v.index, e.key, e, TtlWeight);
    SumInsert(v.index, e.key, e, CapWeight);
    BucketBytesSet(v.tables, i, t);
    SumSeqSet(v.slack, i, left);
    forall j | 0 <= j < l.shards
      ensures Sum(v.index[e.key := e], InShard(l, j))
         == Sum(v.index, InShard(l, j)) + (if j == i && e.key !in v.index then 1 else 0)
      ensures Sum(v.index[e.key := e], CapInShard(l, j)) == Sum(v.index, CapInShard(l, j))
        + (if j != i then 0
           else if e.key in v.index then CapWeight(e.key, e) - CapWeight(e.key, v.index[e.key])
           else CapWeight(e.key, e))
    {
      SumInsert(v.index, e.key, e, InShard(l, j));
      SumInsert(v.index, e.key, e, CapInShard(l, j));
    }
  }

  lemma TallyDrop(l: Shape, v: Table, i: nat, k: Long, t: Buckets)
    requires l.span > 0 && Tallied(l, v) && i < l.shards && |t| == |v.tables[i]| && k in v.index
    requires l.ShardOf(v.index[k].hash) == i && Classed(v.index[k])
    ensures var c := Capacity(v.index[k]);
      && c <= v.mems[i] && c <= v.total && v.counts[i] > 0
      && Tallied(l, v.(tables := v.tables[i := t], index := v.index - {k}, counts := v.counts[i := v.counts[i] - 1],
           mems := v.mems[i := v.mems[i] - c], total := v.total - c, ttl := v.ttl - TtlWeight(k, v.index[k])))
  {
    hide Sum, BucketBytes, SumSeq, Shape.ShardOf, Capacity, Classed;
    SumRemove(v.index, k, TtlWeight);
    SumRemove(v.index, k, CapWeight);
    BucketBytesSet(v.tables, i, t);
    forall j | 0 <= j < l.shards
      ensures Sum(v.index, InShard(l, j)) == Sum(v.index - {k}, InShard(l, j)) + (if j == i then 1 else 0)
      ensures Sum(v.index, CapInShard(l, j))
         == Sum(v.index - {k}, CapInShard(l, j)) + (if j == i then CapWeight(k, v.index[k]) else 0)
    {
      SumRemove(v.index, k, InShard(l, j));
      SumRemove(v.index, k, CapInShard(l, j));
    }
  }

  // ---- steps ----

  /** Put a new entry at the front of its chain. */
  ghost function Inserted(l: Shape, v: Table, e: Entry): Table
    requires l.span > 0 && l.ShardOf(e.hash) < |v.tables| == |v.counts| == |v.mems|
    requires |v.tables[l.ShardOf(e.hash)]| > 0 && Classed(e)
  {
    var i := l.ShardOf(e.hash);
    var b := Slot(e.hash, |v.tables[i]|);
    v.(tables := v.tables[i := v.tables[i][b := [e] + v.tables[i][b]]], counts := v.counts[i := v.counts[i] + 1],
       mems := v.mems[i := v.mems[i] + Capacity(e)], total := v.total + Capacity(e), ttl := v.ttl + TtlWeight(e.key, e),
       index := v.index[e.key := e])
  }

  /** Put an entry in the place of one with the same key, with `charge` more bytes counted. */
  ghost function Replaced(l: Shape, v: Table, i: nat, b: nat, p: nat, e: Entry, charge: int): Table
    requires i < |v.tables| == |v.mems| == |v.slack| && b < |v.tables[i]| && p < |v.tables[i][b]|
    requires Classed(e) && Classed(v.tables[i][b][p])
  {
    var was := v.tables[i][b][p];
    var more := charge + Capacity(was) - Capacity(e);
    v.(tables := v.tables[i := v.tables[i][b := v.tables[i][b][p := e]]], mems := v.mems[i := v.mems[i] + charge],
       total := v.total + charge, ttl := v.ttl - TtlWeight(e.key, was) + TtlWeight(e.key, e),
       index := v.index[e.key := e],
       slack := v.slack[i := if v.slack[i] + more >= 0 then v.slack[i] + more else 0])
  }

  /** Take an entry out. */
  ghost function Removed(l: Shape, v: Table, i: nat, b: nat, p: nat): Table
    requires i < |v.tables| == |v.counts| == |v.mems| && b < |v.tables[i]| && p < |v.tables[i][b]|
    requires Classed(v.tables[i][b][p])
  {
    var e := v.tables[i][b][p];
    v.(tables := v.tables[i := v.tables[i][b := Cut(v.tables[i][b], p)]],
       counts := v.counts[i := v.counts[i] - 1], mems := v.mems[i := v.mems[i] - Capacity(e)],
       total := v.total - Capacity(e),
       ttl := v.ttl - TtlWeight(e.key, e), index := v.index - {e.key})
  }

  /** Give a shard another bucket array. */
  ghost function Resized(v: Table, i: nat, t: Buckets): Table
    requires i < |v.tables| == |v.mems|
  {
    var delta := LINK_BYTES * |t| - LINK_BYTES * |v.tables[i]|;
    v.(tables := v.tables[i := t], mems := v.mems[i := v.mems[i] + delta], total := v.total + delta)
  }

  lemma InsertKeeps(l: Shape, hash: Long -> u32, v: Table, e: Entry)
    requires Ok(l, hash, v) && e.key !in v.index && e.hash == hash(e.key) && Classed(e)
    requires l.ShardOf(e.hash) < |v.tables| == |v.counts| == |v.mems| && |v.tables[l.ShardOf(e.hash)]| > 0
    ensures Ok(l, hash, Inserted(l, v, e))
  {
    hide Tallied, Shape.ShardOf, Slot, Capacity, Classed;
    var i := l.ShardOf(e.hash);
    var b := Slot(e.hash, |v.tables[i]|);
    var chain := [e] + v.tables[i][b];
    FilePut(l, hash, v, i, b, chain, e);
    assert v.slack[i := v.slack[i]] == v.slack by { Lengths(l, v); }
    Lengths(l, v);
    TallyPut(l, v, i, e, v.tables[i][b := chain], Capacity(e), v.slack[i]);
  }

  lemma Lengths(l: Shape, v: Table)
    requires l.span > 0 && Tallied(l, v)
    ensures |v.tables| == |v.counts| == |v.mems| == |v.slack| == l.shards
  {
  }

  lemma FilePut(l: Shape, hash: Long -> u32, v: Table, i: nat, b: nat, chain: Bucket, e: Entry)
    requires l.span > 0 && Filed(l, hash, v.tables, v.index) && e.key !in v.index && e.hash == hash(e.key) && Classed(e)
    requires i == l.ShardOf(e.hash) < |v.tables| && |v.tables[i]| > 0 && b == Slot(e.hash, |v.tables[i]|)
    requires chain == [e] + v.tables[i][b]
    ensures Filed(l, hash, v.tables[i := v.tables[i][b := chain]], v.index[e.key := e])
  {
    hide Shape.ShardOf, Slot, Classed;
    var now := v.index[e.key := e];
    assert ShardFiled(l, hash, i, v.tables[i], v.index);
    assert BucketOk(l, hash, i, b, |v.tables[i]|, v.tables[i][b], v.index);
    assert BucketOk(l, hash, i, b, |v.tables[i]|, chain, now);
    forall k | k in now && Here(l, hash, v.tables, i, b, k) ensures now[k].key == k && now[k] in chain {
      if k != e.key { assert Present(l, hash, v.tables, k, v.index[k]); }
    }
    Refile(l, hash, v.tables, v.index, i, b, chain, now);
  }

  /** What an entry found in a chain brings along. */
  lemma Found(l: Shape, hash: Long -> u32, v: Table, i: nat, b: nat, p: nat)
    requires l.span > 0 && Filed(l, hash, v.tables, v.index) && i < |v.tables| && b < |v.tables[i]|
    requires p < |v.tables[i][b]|
    ensures var e := v.tables[i][b][p];
      && e.key in v.index && v.index[e.key] == e && e.hash == hash(e.key) && Classed(e)
      && l.ShardOf(e.hash) == i && Slot(e.hash, |v.tables[i]|) == b
  {
    hide Shape.ShardOf, Slot, Classed;
    assert ShardFiled(l, hash, i, v.tables[i], v.index);
    assert BucketOk(l, hash, i, b, |v.tables[i]|, v.tables[i][b], v.index);
    assert v.tables[i][b][p] in v.tables[i][b];
  }

  lemma FileReplace(l: Shape, hash: Long -> u32, v: Table, i: nat, b: nat, p: nat, e: Entry)
    requires l.span > 0 && Filed(l, hash, v.tables, v.index) && i < |v.tables| && b < |v.tables[i]|
    requires p < |v.tables[i][b]|
    requires e.key == v.tables[i][b][p].key && e.hash == v.tables[i][b][p].hash && Classed(e)
    ensures Filed(l, hash, v.tables[i := v.tables[i][b := v.tables[i][b][p := e]]], v.index[e.key := e])
  {
    hide Shape.ShardOf, Slot, Classed;
    Found(l, hash, v, i, b, p);
    var now, was, chain := v.index[e.key := e], v.tables[i][b], v.tables[i][b][p := e];
    assert ShardFiled(l, hash, i, v.tables[i], v.index);
    assert BucketOk(l, hash, i, b, |v.tables[i]|, was, v.index);
    assert BucketOk(l, hash, i, b, |v.tables[i]|, chain, now) by {
      forall x | x in chain
        ensures x.key in now && now[x.key] == x && x.hash == hash(x.key) && Classed(x) && l.ShardOf(x.hash) == i
        ensures Slot(x.hash, |v.tables[i]|) == b
      {
        var q :| 0 <= q < |chain| && chain[q] == x;
        assert q == p || (was[q] in was && was[q] == x);
      }
    }
    forall k | k in now && Here(l, hash, v.tables, i, b, k) ensures now[k].key == k && now[k] in chain {
      if k == e.key {
        assert chain[p] == e;
      } else {
        assert Present(l, hash, v.tables, k, v.index[k]);
        var q :| 0 <= q < |was| && was[q] == v.index[k];
        assert chain[q] == was[q];
      }
    }
    Refile(l, hash, v.tables, v.index, i, b, chain, now);
  }

  lemma ReplaceKeeps(l: Shape, hash: Long -> u32, v: Table, i: nat, b: nat, p: nat, e: Entry, charge: int)
    requires Ok(l, hash, v) && i < |v.tables| == |v.mems| == |v.slack| && b < |v.tables[i]| && p < |v.tables[i][b]|
    requires e.key == v.tables[i][b][p].key && e.hash == v.tables[i][b][p].hash && Classed(e)
    requires Classed(v.tables[i][b][p])
    requires charge + Capacity(v.tables[i][b][p]) - Capacity(e) >= 0
    ensures Ok(l, hash, Replaced(l, v, i, b, p, e, charge))
  {
    hide Tallied, Shape.ShardOf, Slot, Capacity, Classed, Filed;
    Found(l, hash, v, i, b, p);
    FileReplace(l, hash, v, i, b, p, e);
    Lengths(l, v);
    assert v.counts[i := v.counts[i]] == v.counts;
    TallyPut(l, v, i, e, v.tables[i][b := v.tables[i][b][p := e]], charge,
             v.slack[i] + charge + Capacity(v.tables[i][b][p]) - Capacity(e));
  }

  ghost predicate KeysDiffer(chain: Bucket) {
    forall p, q :: 0 <= p < q < |chain| ==> chain[p].key != chain[q].key
  }

  function Cut(chain: Bucket, p: nat): Bucket
    requires p < |chain|
  {
    chain[..p] + chain[p + 1..]
  }

  lemma CutMember(was: Bucket, p: nat, x: Entry)
    requires p < |was| && KeysDiffer(was)
    ensures x in Cut(was, p) <==> x in was && x.key != was[p].key
  {
    var chain := Cut(was, p);
    if x in chain {
      var q :| 0 <= q < |chain| && chain[q] == x;
      assert was[if q < p then q else q + 1] == x;
    }
    if x in was && x.key != was[p].key {
      var q :| 0 <= q < |was| && was[q] == x;
      assert chain[if q < p then q else q - 1] == x;
    }
  }

  lemma CutDiffer(was: Bucket, p: nat)
    requires p < |was| && KeysDiffer(was)
    ensures KeysDiffer(Cut(was, p))
  {
  }

  lemma BucketShrinks(l: Shape, hash: Long -> u32, i: nat, b: nat, n: nat, was: Bucket, index: map<Long, Entry>, p: nat)
    requires l.span > 0 && n > 0 && BucketOk(l, hash, i, b, n, was, index) && p < |was|
    ensures BucketOk(l, hash, i, b, n, Cut(was, p), index - {was[p].key})
    ensures forall x :: x in was && x.key != was[p].key ==> x in Cut(was, p)
  {
    hide Shape.ShardOf, Slot, Classed, Cut;
    CutDiffer(was, p);
    forall x ensures x in Cut(was, p) <==> x in was && x.key != was[p].key { CutMember(was, p, x); }
  }

  lemma FileRemove(l: Shape, hash: Long -> u32, v: Table, i: nat, b: nat, p: nat)
    requires l.span > 0 && Filed(l, hash, v.tables, v.index) && i < |v.tables| && b < |v.tables[i]|
    requires p < |v.tables[i][b]|
    ensures Filed(l, hash, v.tables[i := v.tables[i][b := Cut(v.tables[i][b], p)]], v.index - {v.tables[i][b][p].key})
  {
    hide Shape.ShardOf, Slot, Classed;
    Found(l, hash, v, i, b, p);
    var was := v.tables[i][b];
    var now, chain := v.index - {was[p].key}, Cut(was, p);
    assert ShardFiled(l, hash, i, v.tables[i], v.index);
    assert BucketOk(l, hash, i, b, |v.tables[i]|, was, v.index);
    BucketShrinks(l, hash, i, b, |v.tables[i]|, was, v.index, p);
    forall k | k in now && Here(l, hash, v.tables, i, b, k) ensures now[k].key == k && now[k] in chain {
      assert Present(l, hash, v.tables, k, v.index[k]);
    }
    Refile(l, hash, v.tables, v.index, i, b, chain, now);
  }

  lemma RemoveKeeps(l: Shape, hash: Long -> u32, v: Table, i: nat, b: nat, p: nat)
    requires Ok(l, hash, v) && i < |v.tables| == |v.mems| == |v.counts| && b < |v.tables[i]| && p < |v.tables[i][b]|
    requires Classed(v.tables[i][b][p])
    ensures Ok(l, hash, Removed(l, v, i, b, p))
    ensures var c := Capacity(v.tables[i][b][p]); c <= v.mems[i] && c <= v.total && v.counts[i] > 0
  {
    hide Tallied, Shape.ShardOf, Slot, Capacity, Classed, Filed;
    Found(l, hash, v, i, b, p);
    FileRemove(l, hash, v, i, b, p);
    Lengths(l, v);
    TallyDrop(l, v, i, v.tables[i][b][p].key, v.tables[i][b := Cut(v.tables[i][b], p)]);
  }

  // ---- doubling ----

  /** The new bucket array holds exactly the shard's entries, each in the bucket its hash selects. */
  ghost predicate Rehashed(l: Shape, hash: Long -> u32, v: Table, i: nat, t: Buckets)
    requires l.span > 0
  {
    && ShardFiled(l, hash, i, t, v.index)
    && forall k :: k in v.index && l.ShardOf(hash(k)) == i ==> v.index[k] in t[Slot(hash(k), |t|)]
  }

  lemma ResizeKeeps(l: Shape, hash: Long -> u32, v: Table, i: nat, t: Buckets)
    requires Ok(l, hash, v) && i < |v.tables| == |v.mems| && Rehashed(l, hash, v, i, t)
    ensures Ok(l, hash, Resized(v, i, t))
  {
    hide Shape.ShardOf, Slot, Sum, BucketBytes, SumSeq;
    var q := Resized(v, i, t);
    BucketBytesSet(v.tables, i, t);
    forall k | k in v.index ensures Present(l, hash, q.tables, k, v.index[k]) {
      assert Present(l, hash, v.tables, k, v.index[k]);
    }
  }

  /** Which entries have been moved once buckets below `x` and the first `y` entries of bucket `x` have been. */
  ghost predicate Moved(t: Buckets, x: nat, y: nat, e: Entry)
    requires |t| > 0
  {
    var b := Slot(e.hash, |t|);
    e in t[b] && (b < x || (b == x && y <= |t[b]| && e in t[b][..y]))
  }

  /** The new array while entries are being moved. */
  ghost predicate Moving(l: Shape, hash: Long -> u32, v: Table, i: nat, x: nat, y: nat, t: Buckets)
    requires l.span > 0 && i < |v.tables| && |v.tables[i]| > 0
  {
    ShardFiled(l, hash, i, t, v.index) && HoldsMoved(v.tables[i], x, y, t)
  }

  /** It holds the moved entries and no others. */
  ghost predicate HoldsMoved(from: Buckets, x: nat, y: nat, t: Buckets)
    requires |from| > 0 && |t| > 0
  {
    && (forall b, e :: 0 <= b < |t| && e in t[b] ==> Moved(from, x, y, e))
    && (forall e :: Moved(from, x, y, e) ==> e in t[Slot(e.hash, |t|)])
  }

  /** Move one entry to the front of its new bucket. */
  lemma MoveOne(l: Shape, hash: Long -> u32, v: Table, i: nat, x: nat, y: nat, t: Buckets)
    requires l.span > 0 && Filed(l, hash, v.tables, v.index) && i < |v.tables| && x < |v.tables[i]|
    requires y < |v.tables[i][x]|
    requires Moving(l, hash, v, i, x, y, t)
    ensures var e := v.tables[i][x][y]; var b := Slot(e.hash, |t|); Moving(l, hash, v, i, x, y + 1, t[b := [e] + t[b]])
  {
    hide Shape.ShardOf, Slot, Classed, Filed, HoldsMoved, BucketOk;
    Found(l, hash, v, i, x, y);
    var e := v.tables[i][x][y];
    var b := Slot(e.hash, |t|);
    HoldsOne(v.tables[i], x, y, t);
    forall f | f in t[b] ensures f.key != e.key {
      MovedIs(v.tables[i], x, y, t, b, f);
      NotYet(l, hash, v, i, x, y, f);
    }
    PushFiled(l, hash, i, t, v.index, e);
  }

  lemma MovedIs(from: Buckets, x: nat, y: nat, t: Buckets, b: nat, f: Entry)
    requires |from| > 0 && |t| > 0 && HoldsMoved(from, x, y, t) && b < |t| && f in t[b]
    ensures Moved(from, x, y, f)
  {
  }

  lemma PushFiled(l: Shape, hash: Long -> u32, i: nat, t: Buckets, index: map<Long, Entry>, e: Entry)
    requires l.span > 0 && ShardFiled(l, hash, i, t, index) && e.key in index && index[e.key] == e
    requires e.hash == hash(e.key) && Classed(e) && l.ShardOf(e.hash) == i
    requires forall f :: f in t[Slot(e.hash, |t|)] ==> f.key != e.key
    ensures var b := Slot(e.hash, |t|); ShardFiled(l, hash, i, t[b := [e] + t[b]], index)
  {
    hide Shape.ShardOf, Slot, Classed;
    var b := Slot(e.hash, |t|);
    var after := t[b := [e] + t[b]];
    forall c | 0 <= c < |after| ensures BucketOk(l, hash, i, c, |after|, after[c], index) {
      assert BucketOk(l, hash, i, c, |t|, t[c], index);
    }
  }

  lemma HoldsOne(from: Buckets, x: nat, y: nat, t: Buckets)
    requires x < |from| && y < |from[x]| && |t| > 0 && HoldsMoved(from, x, y, t) && Slot(from[x][y].hash, |from|) == x
    ensures var e := from[x][y]; var b := Slot(e.hash, |t|); HoldsMoved(from, x, y + 1, t[b := [e] + t[b]])
  {
    hide Slot, Moved;
    var e := from[x][y];
    var b := Slot(e.hash, |t|);
    var after := t[b := [e] + t[b]];
    forall f ensures Moved(from, x, y + 1, f) <==> Moved(from, x, y, f) || f == e { MovedStep(from, x, y, f); }
    forall c, f | 0 <= c < |after| && f in after[c] ensures Moved(from, x, y + 1, f) {
      assert f == e || f in t[c];
    }
    forall f | Moved(from, x, y + 1, f) ensures f in after[Slot(f.hash, |after|)] {
      assert f == e || f in t[Slot(f.hash, |t|)];
    }
  }

  lemma MovedStep(t: Buckets, x: nat, y: nat, f: Entry)
    requires x < |t| && y < |t[x]| && Slot(t[x][y].hash, |t|) == x
    ensures Moved(t, x, y + 1, f) <==> Moved(t, x, y, f) || f == t[x][y]
  {
    hide Slot;
    assert t[x][..y + 1] == t[x][..y] + [t[x][y]];
    assert t[x][y] in t[x];
  }

  /** An entry already moved is not the one at hand. */
  lemma NotYet(l: Shape, hash: Long -> u32, v: Table, i: nat, x: nat, y: nat, f: Entry)
    requires l.span > 0 && Filed(l, hash, v.tables, v.index) && i < |v.tables| && x < |v.tables[i]|
    requires y < |v.tables[i][x]|
    requires Moved(v.tables[i], x, y, f)
    ensures f.key != v.tables[i][x][y].key
  {
    hide Shape.ShardOf, Slot, Classed;
    Found(l, hash, v, i, x, y);
    var from := v.tables[i];
    var b := Slot(f.hash, |from|);
    assert ShardFiled(l, hash, i, from, v.index);
    assert BucketOk(l, hash, i, b, |from|, from[b], v.index);
    assert BucketOk(l, hash, i, x, |from|, from[x], v.index);
  }

  lemma MovingStarts(l: Shape, hash: Long -> u32, v: Table, i: nat, n: nat)
    requires l.span > 0 && i < |v.tables| && |v.tables[i]| > 0 && n > 0 && IsPow2(n)
    ensures Moving(l, hash, v, i, 0, 0, seq(n, _ => []))
  {
    hide Slot;
  }

  lemma MovingOn(l: Shape, hash: Long -> u32, v: Table, i: nat, x: nat, t: Buckets)
    requires l.span > 0 && i < |v.tables| && x < |v.tables[i]| && Moving(l, hash, v, i, x, |v.tables[i][x]|, t)
    ensures Moving(l, hash, v, i, x + 1, 0, t)
  {
    hide Slot, BucketOk;
    forall e ensures Moved(v.tables[i], x, |v.tables[i][x]|, e) <==> Moved(v.tables[i], x + 1, 0, e) {
      assert v.tables[i][x][..|v.tables[i][x]|] == v.tables[i][x];
    }
  }

  /** When every entry has been moved, the new array holds exactly the shard's entries. */
  lemma MovingEnds(l: Shape, hash: Long -> u32, v: Table, i: nat, t: Buckets)
    requires l.span > 0 && Filed(l, hash, v.tables, v.index) && i < |v.tables| && |v.tables[i]| > 0
    requires Moving(l, hash, v, i, |v.tables[i]|, 0, t)
    ensures Rehashed(l, hash, v, i, t)
  {
    hide Slot, Shape.ShardOf, BucketOk;
    forall k | k in v.index && l.ShardOf(hash(k)) == i ensures v.index[k] in t[Slot(hash(k), |t|)] {
      assert Present(l, hash, v.tables, k, v.index[k]);
      InPlace(l, hash, v, k);
      assert Moved(v.tables[i], |v.tables[i]|, 0, v.index[k]);
    }
  }

  lemma InPlace(l: Shape, hash: Long -> u32, v: Table, k: Long)
    requires l.span > 0 && Filed(l, hash, v.tables, v.index) && k in v.index
    ensures v.index[k].key == k && v.index[k].hash == hash(k) && Classed(v.index[k])
  {
    hide Slot, Shape.ShardOf, Classed;
    var i := l.ShardOf(hash(k));
    assert Present(l, hash, v.tables, k, v.index[k]);
    assert ShardFiled(l, hash, i, v.tables[i], v.index);
    var b := Slot(hash(k), |v.tables[i]|);
    assert BucketOk(l, hash, i, b, |v.tables[i]|, v.tables[i][b], v.index);
  }
}
