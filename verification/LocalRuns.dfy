/** Runs of operations on the in-process cache: when its byte counter stays exact. */
module LocalRuns {
  import opened Bytes
  import opened MapSum
  import opened LocalTable
  import opened LocalSteps
  import opened LocalCache

  datatype Op =
    | PutOp(key: Long, value: Long, exp: u32, alloc: bool, grow: bool, random: nat -> u32)
    | DeleteOp(key: Long)
    | GetOp(key: Long, now: u32)
    | ReapOp(key: Long)
    | SweepOp(work: u64, now: u32)
    | BudgetOp(bytes: nat)

  /** What an operation that finds `seen` leaves charged for good. */
  ghost function Waste(seen: map<Long, Entry>, op: Op): int {
    if op.PutOp? then Shrinkage(seen, op.key, op.value) else 0
  }

  /** A put that shrinks an entry in its own, directly allocated block. */
  ghost predicate ShrinksDirect(seen: map<Long, Entry>, op: Op) {
    && op.PutOp? && op.key in seen && seen[op.key].cls == DIRECT && |op.value| < |seen[op.key].value|
  }

  /** The byte counter is the bucket bytes and the capacities of the entries. */
  ghost predicate Exact(c: LocalCache)
    reads c
  {
    c.total == BucketBytes(c.tables) + Sum(c.index, CapWeight)
  }

  /** Only shrinking a direct entry leaves anything charged. */
  lemma WasteIsShrinking(l: Shape, hash: Long -> u32, v: Table, seen: map<Long, Entry>, op: Op)
    requires Ok(l, hash, v) && Submap(seen, v.index)
    ensures Waste(seen, op) >= 0 && (Waste(seen, op) == 0 <==> !ShrinksDirect(seen, op))
  {
    hide Tallied;
    if op.PutOp? && op.key in seen { InPlace(l, hash, v, op.key); }
  }

  lemma ExactIff(c: LocalCache)
    requires c.Valid()
    ensures Exact(c) <==> SumSeq(c.slack) == 0
  {
    BytesCovered(c.l, c.hash, c.View());
  }

  method Perform(c: LocalCache, op: Op) returns (ghost seen: map<Long, Entry>)
    requires c.Valid() && c.l.shards > 0
    modifies c
    ensures c.Valid() && Submap(seen, old(c.index))
    ensures SumSeq(c.slack) == old(SumSeq(c.slack)) + Waste(seen, op)
  {
    hide Ok, SumSeq, Contents, Shrinkage, PutEntry, FitsInPlace;
    seen := c.index;
    match op
    case PutOp(key, value, exp, alloc, grow, random) =>
      var ok;
      ok, seen := c.Put(key, value, exp, alloc, grow, random);
    case DeleteOp(key) =>
      var found := c.Delete(key);
    case GetOp(key, now) =>
      var r := c.Get(key, now);
    case ReapOp(key) =>
      c.Reap(key);
    case SweepOp(work, now) =>
      c.SweepExpired(work, now);
    case BudgetOp(bytes) =>
      c.budget := bytes;
  }

  /** Any operations in a row, from a cache whose counter is exact: `trace` is the index each of them found. The
      counter is exact at the end if and only if none of them was a put that shrank a direct entry in place. */
  method Run(c: LocalCache, ops: seq<Op>) returns (ghost trace: seq<map<Long, Entry>>)
    requires c.Valid() && c.l.shards > 0 && Exact(c)
    modifies c
    ensures c.Valid() && |trace| == |ops|
    ensures Exact(c) <==> forall n :: 0 <= n < |ops| ==> !ShrinksDirect(trace[n], ops[n])
  {
    hide Ok, SumSeq, Waste, ShrinksDirect, Exact;
    ExactIff(c);
    trace := [];
    for i := 0 to |ops|
      invariant c.Valid() && |trace| == i
      invariant SumSeq(c.slack) == 0 <==> forall n :: 0 <= n < i ==> !ShrinksDirect(trace[n], ops[n])
    {
      ghost var was := c.View();
      ghost var seen := Perform(c, ops[i]);
      WasteIsShrinking(c.l, c.hash, was, seen, ops[i]);
      trace := trace + [seen];
    }
    ExactIff(c);
  }

  /** A direct entry shrunk in place and then deleted leaves the difference charged for ever. */
  method ShrinkThenDelete(c: LocalCache, key: Long, large: Long, small: Long)
    requires c.Valid() && c.index == map[] && c.budget == 0
    requires HEADER + |key| + |large| > SLAB_MAX_ENTRY && |small| <= |large|
    modifies c
    ensures c.Valid() && c.index == map[]
    ensures SumSeq(c.slack) == old(SumSeq(c.slack)) + |large| - |small|
  {
    hide Ok, SumSeq, Contents;
    var first, _ := c.Put(key, large, 0, true, false, _ => 0);
    var second, _ := c.Put(key, small, 0, true, false, _ => 0);
    var found := c.Delete(key);
  }

  /** A lookup that found its key stale removes what it has by the time it comes back: a value put in between is
      lost, although its put succeeded and its deadline has not passed. */
  method LostPut(c: LocalCache, key: Long, value: Long, now: u32)
    requires c.Valid() && c.budget == 0 && key in c.index && 0 < c.index[key].exp <= now
    modifies c
    ensures c.Valid() && key !in c.index && c.index == old(c.index) - {key}
    ensures c.revision == old(c.revision) + 1
  {
    hide Ok, SumSeq, Contents, PutEntry;
    var r, stale := c.Look(key, now);
    assert stale;
    var ok, _ := c.Put(key, value, 0, true, false, _ => 0);
    assert ok && key in c.index && c.index[key].exp == 0 by { PutHas(c.hash, old(c.index), key, value); }
    c.Reap(key);
    assert c.index == old(c.index) - {key};
  }

  lemma PutHas(hash: Long -> u32, index: map<Long, Entry>, key: Long, value: Long)
    ensures PutEntry(hash, index, key, value, 0).exp == 0 && PutEntry(hash, index, key, value, 0).value == value
  {
  }

  /** What a lookup that comes back does is what the deadlines allow if and only if the key is still stale then, or
      gone. */
  lemma ReapRightIff(index: map<Long, Entry>, key: Long, now: u32)
    ensures index - {key} == (map k | k in index && (k != key || index[k].exp == 0 || now < index[k].exp) :: index[k])
       <==> key !in index || 0 < index[key].exp <= now
  {
    if key in index && (index[key].exp == 0 || now < index[key].exp) {
      assert key !in index - {key};
      assert key in map k | k in index && (k != key || index[k].exp == 0 || now < index[k].exp) :: index[k];
    }
  }
}
