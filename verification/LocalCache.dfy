/** The in-process cache: sharded chains of entries, doubling bucket arrays, deadlines and byte counters. */
module LocalCache {
  import opened Bytes
  import opened Arithmetic
  import opened Ticks
  import opened MapSum
  import opened PowersOfTwo
  import opened LocalTable
  import opened LocalSteps
  import opened LocalSweep

  /** The class an allocation of `size` bytes falls in: the smallest that holds it, or a direct block above 4096. */
  method ClassFor(size: nat) returns (cls: nat)
    ensures cls == ClassOf(size)
    ensures cls == DIRECT || cls < |CLASS_SIZES|
  {
    if size > SLAB_MAX_ENTRY { return DIRECT; }
    cls := 0;
    while CLASS_SIZES[cls] < size
      invariant cls <= 18 && forall c :: 0 <= c < cls ==> CLASS_SIZES[c] < size
      decreases 18 - cls
    {
      cls := cls + 1;
    }
    LeastClassIs(size, cls);
  }

  ghost function LeastClass(size: nat): (c: nat)
    requires size <= SLAB_MAX_ENTRY
    ensures c < |CLASS_SIZES| && CLASS_SIZES[c] >= size && forall d :: 0 <= d < c ==> CLASS_SIZES[d] < size
  {
    LeastFrom(size, 0)
  }

  ghost function LeastFrom(size: nat, from: nat): (c: nat)
    requires size <= SLAB_MAX_ENTRY && from <= 18
    ensures from <= c <= 18 && CLASS_SIZES[c] >= size && forall d :: from <= d < c ==> CLASS_SIZES[d] < size
    decreases 18 - from
  {
    if CLASS_SIZES[from] >= size then from else LeastFrom(size, from + 1)
  }

  lemma LeastClassIs(size: nat, c: nat)
    requires size <= SLAB_MAX_ENTRY && c < |CLASS_SIZES| && CLASS_SIZES[c] >= size
          && forall d :: 0 <= d < c ==> CLASS_SIZES[d] < size
    ensures LeastClass(size) == c
  {
    var d := LeastClass(size);
    assert !(d < c) && !(c < d);
  }

  /** Rounding a bucket count up to a power of two of at least sixteen; zero when there is none that fits. */
  method RoundBuckets(requested: u64) returns (n: u64)
    ensures n == 0 <==> requested > 0x8000_0000_0000_0000
    ensures n != 0 ==> n >= 16 && n >= requested && IsPow2(n) && (n > 16 ==> n < 2 * requested)
  {
    var wanted := if requested < 16 then 16 else requested;
    n := 16;
    ghost var k := 4;
    while n < wanted && n <= UINT64_MAX / 2
      invariant 4 <= k <= 63 && n == Pow2(k) && n >= 16 && (n > 16 ==> n < 2 * requested) && n <= 0x8000_0000_0000_0000
      decreases TWO64 - n
    {
      Bound(k);
      n, k := n * 2, k + 1;
    }
    if n < wanted { n := 0; }
  }

  lemma Bound(k: nat)
    requires Pow2(k) <= UINT64_MAX / 2
    ensures k < 63 && 2 * Pow2(k) <= 0x8000_0000_0000_0000
  {
    hide Pow2;
    Pow2Values();
    if 63 < k { Pow2Grows(63, k); }
    DoubleBound(k);
  }

  lemma DoubleBound(k: nat)
    requires k < 63
    ensures 2 * Pow2(k) <= Pow2(63)
  {
    assert 2 * Pow2(k) == Pow2(k + 1);
    if k + 1 < 63 { Pow2Grows(k + 1, 63); }
  }

  class LocalCache {
    const l: Shape
    const hash: Long -> u32
    var tables: seq<Buckets>
    var counts: seq<int>
    var mems: seq<int>
    var total: int
    var ttl: int
    var revision: nat
    var expired: nat
    var cursor: u64
    var budget: nat
    var evicted: nat
    ghost var index: map<Long, Entry>
    ghost var slack: seq<nat>

    ghost function View(): Table
      reads this
    {
      Table(tables, counts, mems, total, ttl, index, slack)
    }

    ghost predicate Valid()
      reads this
    {
      Ok(l, hash, View())
    }

    constructor (shape: Shape, hashOf: Long -> u32, buckets: nat)
      requires shape.Ok() && IsPow2(buckets) && buckets > 0
      ensures l == shape && hash == hashOf && Valid() && index == map[] && cursor == 0
      ensures total == shape.shards * (LINK_BYTES * buckets)
      ensures SumSeq(slack) == 0 && budget == 0 && revision == expired == evicted == 0
    {
      l, hash := shape, hashOf;
      tables := seq(shape.shards, _ => seq(buckets, _ => []));
      counts, mems := seq(shape.shards, _ => 0), seq(shape.shards, _ => LINK_BYTES * buckets);
      total, ttl := shape.shards * (LINK_BYTES * buckets), 0;
      revision, expired, cursor, budget, evicted := 0, 0, 0, 0, 0;
      index, slack := map[], seq(shape.shards, _ => 0);
      new;
      NewOk(l, hash, View(), buckets);
      NoSlack(slack);
    }

    /** Walk the key's chain to its entry, or to its end. */
    method Scan(key: Long) returns (i: nat, b: nat, p: nat)
      requires Valid()
      ensures i == l.ShardOf(hash(key)) < |tables| && |tables[i]| > 0 && b == Slot(hash(key), |tables[i]|)
      ensures p <= |tables[i][b]|
      ensures p < |tables[i][b]| <==> key in index
      ensures p < |tables[i][b]| ==> tables[i][b][p].key == key && index[key] == tables[i][b][p]
    {
      hide Tallied, Shape.ShardOf, Slot, Classed, Filed;
      var h := hash(key);
      HasChain(l, hash, View(), key);
      i := l.ShardOf(h);
      b, p := Slot(h, |tables[i]|), 0;
      while p < |tables[i][b]|
        invariant p <= |tables[i][b]| && forall q :: 0 <= q < p ==> tables[i][b][q].key != key
      {
        Found(l, hash, View(), i, b, p);
        if tables[i][b][p].hash == h && tables[i][b][p].key == key { return; }
        p := p + 1;
      }
      NotFiled(l, hash, View(), key);
    }

    /** Double the bucket array of a shard that holds more than two entries a bucket, if memory allows. */
    method MaybeResize(i: nat, grow: bool)
      requires Valid() && i < |tables| && i < |counts|
      modifies this`tables, this`mems, this`total
      ensures Valid() && |tables| == |old(tables)|
      ensures (forall j :: 0 <= j < |tables| && j != i ==> tables[j] == old(tables)[j])
      ensures if old(counts)[i] > 2 * |old(tables)[i]| && grow then |tables[i]| == 2 * |old(tables)[i]|
              else View() == old(View())
    {
      hide Tallied, Shape.ShardOf, Slot, Classed, Filed, Rehashed;
      if counts[i] <= |tables[i]| * 2 || !grow { return; }
      ghost var was := View();
      Lengths(l, was);
      var t := Rehash(i);
      var delta := LINK_BYTES * |t| - LINK_BYTES * |tables[i]|;
      mems := mems[i := mems[i] + delta];
      total := total + delta;
      tables := tables[i := t];
      ResizeKeeps(l, hash, was, i, t);
    }

    /** Move every entry of a shard to a bucket array twice the size, each to the front of its new chain. */
    method Rehash(i: nat) returns (t: Buckets)
      requires Valid() && i < |tables|
      ensures |t| == 2 * |tables[i]| && Rehashed(l, hash, View(), i, t)
    {
      hide Tallied, Shape.ShardOf, Slot, Classed, Moving, Rehashed, BucketOk;
      assert ShardFiled(l, hash, i, tables[i], index);
      var n := 2 * |tables[i]|;
      t := seq(n, _ => []);
      DoublePow2(|tables[i]|);
      MovingStarts(l, hash, View(), i, n);
      var x := 0;
      while x < |tables[i]|
        invariant x <= |tables[i]| && |t| == n && Moving(l, hash, View(), i, x, 0, t)
      {
        var y := 0;
        while y < |tables[i][x]|
          invariant y <= |tables[i][x]| && |t| == n && Moving(l, hash, View(), i, x, y, t)
        {
          var e := tables[i][x][y];
          var b := Slot(e.hash, |t|);
          MoveOne(l, hash, View(), i, x, y, t);
          t := t[b := [e] + t[b]];
          y := y + 1;
        }
        MovingOn(l, hash, View(), i, x, t);
        x := x + 1;
      }
      MovingEnds(l, hash, View(), i, t);
    }

    /** Put an entry in the place of one with the same key. */
    method ReplaceAt(i: nat, b: nat, p: nat, e: Entry, charge: int)
      requires i < |tables| == |mems| == |slack| && b < |tables[i]| && p < |tables[i][b]| && Classed(e)
      requires Classed(tables[i][b][p])
      modifies this`tables, this`mems, this`total, this`ttl, this`index, this`slack
      ensures View() == Replaced(l, old(View()), i, b, p, e, charge)
    {
      hide Capacity, Classed;
      var was := tables[i][b][p];
      if was.exp == 0 && e.exp != 0 {
        ttl := ttl + 1;
      } else if was.exp != 0 && e.exp == 0 {
        ttl := ttl - 1;
      }
      mems := mems[i := mems[i] + charge];
      total := total + charge;
      tables := tables[i := tables[i][b := tables[i][b][p := e]]];
      index := index[e.key := e];
      ghost var more := charge + Capacity(was) - Capacity(e);
      slack := slack[i := if slack[i] + more >= 0 then slack[i] + more else 0];
    }

    /** Unlink an entry and take it off every counter. */
    method RemoveAt(i: nat, b: nat, p: nat)
      requires i < |tables| == |mems| == |counts| && b < |tables[i]| && p < |tables[i][b]| && Classed(tables[i][b][p])
      modifies this`tables, this`counts, this`mems, this`total, this`ttl, this`index
      ensures View() == Removed(l, old(View()), i, b, p)
    {
      hide Capacity, Classed;
      var e := tables[i][b][p];
      tables := tables[i := tables[i][b := Cut(tables[i][b], p)]];
      if e.exp != 0 { ttl := ttl - 1; }
      var got := Capacity(e);
      mems := mems[i := mems[i] - got];
      total := total - got;
      counts := counts[i := counts[i] - 1];
      index := index - {e.key};
    }

    /** Chain a new entry in front and count it. */
    method InsertEntry(e: Entry)
      requires l.span > 0 && l.ShardOf(e.hash) < |tables| == |counts| == |mems| && |tables[l.ShardOf(e.hash)]| > 0
      requires Classed(e)
      modifies this`tables, this`counts, this`mems, this`total, this`ttl, this`index
      ensures View() == Inserted(l, old(View()), e)
    {
      hide Capacity, Classed, Shape.ShardOf, Slot;
      var i := l.ShardOf(e.hash);
      var b := Slot(e.hash, |tables[i]|);
      var got := Capacity(e);
      mems := mems[i := mems[i] + got];
      total := total + got;
      if e.exp != 0 { ttl := ttl + 1; }
      tables := tables[i := tables[i][b := [e] + tables[i][b]]];
      counts := counts[i := counts[i] + 1];
      index := index[e.key := e];
    }

    /** A put that found its key: rewrite the entry where it is, or replace it by a new one. */
    method PutFound(i: nat, b: nat, p: nat, value: Long, exp: u32, alloc: bool) returns (ok: bool)
      requires Valid() && i < |tables| && b < |tables[i]| && p < |tables[i][b]|
      requires tables[i][b][p].key in index && index[tables[i][b][p].key] == tables[i][b][p]
      modifies this`tables, this`mems, this`total, this`ttl, this`index, this`slack
      ensures Valid() && (!ok ==> View() == old(View()))
      ensures ok <==> alloc || FitsInPlace(old(index), old(tables[i][b][p].key), value)
      ensures ok
        ==> index == var k := old(tables[i][b][p].key); old(index)[k := PutEntry(hash, old(index), k, value, exp)]
      ensures SumSeq(slack) == old(SumSeq(slack)) + Shrinkage(old(index), old(tables[i][b][p].key), value)
    {
      hide Tallied, Filed, Capacity, Classed, Shape.ShardOf, Slot, SumSeq, Contents, ClassOf, Shape.Ok;
      ghost var was := View();
      assert l.span > 0 by { SpanOk(l, hash, was); }
      Lengths(l, was);
      Found(l, hash, was, i, b, p);
      var e := tables[i][b][p];
      var size := HEADER + |e.key| + |value|;
      var now, charge := e.(value := value, exp := exp), 0;
      if size <= Capacity(e) {
        InPlaceFits(e, value, exp);
      } else {
        if !alloc { return false; }
        var cls := ClassFor(size);
        now := Entry(e.key, value, exp, e.hash, cls);
        NewFits(now, size);
        charge := Capacity(now) - Capacity(e);
      }
      ReplaceKeeps(l, hash, was, i, b, p, now, charge);
      ReplaceAt(i, b, p, now, charge);
      SumSeqSet(was.slack, i, slack[i]);
      return true;
    }

    /** Make and chain an entry for a key that has none. */
    method Create(key: Long, value: Long, exp: u32)
      requires Valid() && key !in index
      modifies this`tables, this`counts, this`mems, this`total, this`ttl, this`index
      ensures Valid() && index == old(index)[key := PutEntry(hash, old(index), key, value, exp)]
    {
      hide Tallied, Filed, Capacity, Classed, Shape.ShardOf, Slot, ClassOf;
      ghost var was := View();
      Lengths(l, was);
      HasChain(l, hash, was, key);
      var size := HEADER + |key| + |value|;
      var cls := ClassFor(size);
      var e := Entry(key, value, exp, hash(key), cls);
      NewFits(e, size);
      InsertKeeps(l, hash, was, e);
      InsertEntry(e);
    }

    /** A put that did not find its key: a new entry, and perhaps a larger bucket array. */
    method PutNew(key: Long, value: Long, exp: u32, grow: bool)
      requires Valid() && key !in index
      modifies this`tables, this`counts, this`mems, this`total, this`ttl, this`index
      ensures Valid() && index == old(index)[key := PutEntry(hash, old(index), key, value, exp)]
    {
      hide Ok, Shape.ShardOf, PutEntry;
      Create(key, value, exp);
      HasCounts(l, hash, View());
      HasChain(l, hash, View(), key);
      MaybeResize(l.ShardOf(hash(key)), grow);
    }

    /** The locked part of a put. `alloc` and `grow` say whether the allocator has an entry, a bucket array. */
    method PutLocked(key: Long, value: Long, exp: u32, alloc: bool, grow: bool) returns (ok: bool, inPlace: bool)
      requires Valid()
      modifies this`tables, this`counts, this`mems, this`total, this`ttl, this`index, this`slack, this`revision
      ensures Valid()
      ensures index == if ok then old(index)[key := PutEntry(hash, old(index), key, value, exp)] else old(index)
      ensures ok <==> alloc || FitsInPlace(old(index), key, value)
      ensures inPlace <==> FitsInPlace(old(index), key, value)
      ensures revision == old(revision) + (if ok then 1 else 0) && (!ok ==> View() == old(View()))
      ensures SumSeq(slack) == old(SumSeq(slack)) + Shrinkage(old(index), key, value)
    {
      hide Ok, SumSeq, Shape.ShardOf, Slot, Classed, Capacity, PutEntry;
      var i, b, p := Scan(key);
      if p < |tables[i][b]| {
        assert Classed(tables[i][b][p]) by { ChainClassed(l, hash, View(), i, b, p); }
        inPlace := HEADER + |key| + |value| <= Capacity(tables[i][b][p]);
        ok := PutFound(i, b, p, value, exp, alloc);
      } else {
        ok, inPlace := alloc, false;
        if ok { PutNew(key, value, exp, grow); }
      }
      if ok { revision := revision + 1; }
    }

    /** Remove the first entry of the first chain that has one, from bucket `at` on and around. */
    method EvictOne(i: nat, at: nat)
      requires Valid() && i < |tables| && at < |tables[i]| && i < |counts| && counts[i] != 0
      modifies this`tables, this`counts, this`mems, this`total, this`ttl, this`index, this`evicted
      ensures Valid() && Submap(index, old(index)) && |index| == |old(index)| - 1 && evicted == old(evicted) + 1
    {
      hide Tallied, Filed, Capacity, Classed, Shape.ShardOf, Slot;
      ghost var was := View();
      Lengths(l, was);
      var probe := 0;
      while probe < |tables[i]|
        invariant View() == was && evicted == old(evicted) && probe <= |tables[i]|
        invariant forall q :: 0 <= q < probe ==> tables[i][Probed(at, q, |tables[i]|)] == []
      {
        var b := Probed(at, probe, |tables[i]|);
        if tables[i][b] != [] {
          Found(l, hash, was, i, b, 0);
          RemoveKeeps(l, hash, was, i, b, 0);
          RemoveAt(i, b, 0);
          OneFewer(was.index, was.tables[i][b][0].key);
          evicted := evicted + 1;
          return;
        }
        probe := probe + 1;
      }
      AllProbed(l, hash, was, i, at);
    }

    /** Evict until the bytes are within the budget or the work is used up; `random` is the generator's stream,
        read from `from` on. Over budget, the first shard drawn gives up an entry if it has one. */
    method EvictUnderBudget(work: nat, random: nat -> u32, from: nat) returns (next: nat)
      requires Valid()
      modifies this`tables, this`counts, this`mems, this`total, this`ttl, this`index, this`evicted
      ensures Valid() && Submap(index, old(index))
      ensures |index| + evicted == |old(index)| + old(evicted) && old(evicted) <= evicted <= old(evicted) + work
      ensures (budget == 0 || old(total) <= budget) ==> View() == old(View()) && next == from
      ensures 0 < budget < old(total) && 0 < work && old(Draws(View(), random, from)) ==> evicted > old(evicted)
    {
      hide Ok;
      next := from;
      if budget == 0 { return; }
      for n := 0 to work
        invariant if n == 0 then View() == old(View()) && next == from else old(total) > budget
        invariant Valid() && Submap(index, old(index))
        invariant |index| + evicted == |old(index)| + old(evicted) && old(evicted) <= evicted <= old(evicted) + n
        invariant n > 0 && old(Draws(View(), random, from)) ==> evicted > old(evicted)
      {
        if total <= budget { return; }
        HasCounts(l, hash, View());
        SizesOk(l, hash, View());
        HasChain(l, hash, View(), []);
        var i := random(next) % |tables|;
        next := next + 1;
        if counts[i] != 0 {
          EvictOne(i, random(next) % |tables[i]|);
          next := next + 1;
        }
      }
    }

    /** A put; with a budget it evicts before, once the bytes reach it, and after, if a new entry took them past it.
        `seen` is the index the put itself found. */
    method Put(key: Long, value: Long, exp: u32, alloc: bool, grow: bool, random: nat -> u32)
      returns (ok: bool, ghost seen: map<Long, Entry>)
      requires Valid()
      modifies this
      ensures Valid() && cursor == old(cursor) && budget == old(budget) && expired == old(expired)
      ensures Submap(seen, old(index)) && (budget == 0 || old(total) < budget ==> seen == old(index))
      ensures ok <==> alloc || FitsInPlace(seen, key, value)
      ensures Submap(index, if ok then seen[key := PutEntry(hash, seen, key, value, exp)] else seen)
      ensures Submap(Contents(index),
                     if ok then Contents(old(index))[key := Item(value, exp)] else Contents(old(index)))
      ensures !ok || budget == 0 || FitsInPlace(seen, key, value) ==>
        index == if ok then seen[key := PutEntry(hash, seen, key, value, exp)] else seen
      ensures budget == 0 ==>
        Contents(index) == if ok then Contents(old(index))[key := Item(value, exp)] else Contents(old(index))
      ensures revision == old(revision) + (if ok then 1 else 0)
      ensures (budget == 0 || old(total) < budget) && !ok ==> View() == old(View())
      ensures SumSeq(slack) == old(SumSeq(slack)) + Shrinkage(seen, key, value)
      ensures |index| + evicted == |old(index)| + old(evicted) + (if ok && key !in seen then 1 else 0)
      ensures old(evicted) <= evicted <= old(evicted) + 6 * l.shards
    {
      hide Ok, Contents, SumSeq, PutEntry, FitsInPlace, Shrinkage, Submap;
      var next := 0;
      SubmapSelf(index);
      if budget != 0 && total >= budget { next := EvictUnderBudget(l.shards * 2, random, 0); }
      seen := index;
      ghost var was := View();
      var inPlace;
      ok, inPlace := PutLocked(key, value, exp, alloc, grow);
      PutSize(seen, key, PutEntry(hash, seen, key, value, exp));
      SubmapSelf(index);
      if ok && !inPlace && budget != 0 && total > budget { next := EvictUnderBudget(l.shards * 4, random, next); }
      PutOutcome(l, hash, was, old(index), index, ok, key, value, exp);
    }

    method Delete(key: Long) returns (found: bool)
      requires Valid()
      modifies this
      ensures Valid() && found == (key in old(index)) && index == old(index) - {key} && slack == old(slack)
      ensures revision == old(revision) + (if found then 1 else 0) && expired == old(expired)
    {
      hide Tallied, Filed, Capacity, Classed, Shape.ShardOf, Slot;
      ghost var was := View();
      Lengths(l, was);
      var i, b, p := Scan(key);
      found := p < |tables[i][b]|;
      if found {
        Found(l, hash, was, i, b, p);
        RemoveKeeps(l, hash, was, i, b, p);
        RemoveAt(i, b, p);
        revision := revision + 1;
      } else {
        assert index - {key} == index;
      }
    }

    /** Look a key up under the read lock. It is found before its deadline, and always if it has none; from its
        deadline on it is not found, and `stale`. */
    method Look(key: Long, now: u32) returns (r: Option<Long>, stale: bool)
      requires Valid()
      ensures key in index && (index[key].exp == 0 || now < index[key].exp) ==> r == Some(index[key].value)
      ensures r.Some? ==> key in index && (index[key].exp == 0 || now < index[key].exp)
      ensures stale <==> key in index && 0 < index[key].exp <= now
    {
      hide Ok, Shape.ShardOf, Slot;
      var i, b, p := Scan(key);
      if p == |tables[i][b]| { return None, false; }
      var e := tables[i][b][p];
      if Expired(e, now) { return None, true; }
      return Some(e.value), false;
    }

    /** Come back under the write lock to remove a stale entry: whatever the key has by then goes. */
    method Reap(key: Long)
      requires Valid()
      modifies this
      ensures Valid() && index == old(index) - {key} && slack == old(slack) && revision == old(revision)
      ensures expired == old(expired) + (if key in old(index) then 1 else 0)
      ensures budget == old(budget) && evicted == old(evicted) && cursor == old(cursor)
    {
      hide Tallied, Filed, Capacity, Classed, Shape.ShardOf, Slot;
      ghost var was := View();
      Lengths(l, was);
      var i, b, p := Scan(key);
      if p == |tables[i][b]| {
        assert index - {key} == index;
        return;
      }
      Found(l, hash, was, i, b, p);
      RemoveKeeps(l, hash, was, i, b, p);
      RemoveAt(i, b, p);
      expired := expired + 1;
    }

    /** Look a key up with nothing in between; from its deadline on, an entry is not found and removed. */
    method Get(key: Long, now: u32) returns (r: Option<Long>)
      requires Valid()
      modifies this
      ensures Valid() && slack == old(slack)
      ensures key in old(index) && (old(index)[key].exp == 0 || now < old(index)[key].exp) ==>
        r == Some(old(index)[key].value) && index == old(index)
      ensures key in old(index) && 0 < old(index)[key].exp <= now ==> r == None && index == old(index) - {key}
      ensures key !in old(index) ==> r == None && index == old(index)
      ensures expired == old(expired) + (if key in old(index) && r.None? then 1 else 0) && revision == old(revision)
    {
      hide Ok;
      var stale;
      r, stale := Look(key, now);
      if stale { Reap(key); }
    }

    /** Remove one expired entry. */
    method ExpireAt(i: nat, b: nat, p: nat)
      requires Valid() && i < |tables| && b < |tables[i]| && p < |tables[i][b]|
      modifies this`tables, this`counts, this`mems, this`total, this`ttl, this`index, this`revision, this`expired
      ensures Valid() && Sizes(tables) == old(Sizes(tables)) && i < |tables| && b < |tables[i]|
      ensures tables[i][b] == Cut(old(tables)[i][b], p)
      ensures old(tables[i][b][p].key) in old(index) && old(index)[old(tables[i][b][p].key)] == old(tables[i][b][p])
      ensures Goes(l, hash, i, |tables[i]|, b, old(tables[i][b][p].key))
      ensures index == old(index) - {old(tables[i][b][p].key)} && |index| == |old(index)| - 1
      ensures revision == old(revision) + 1 && expired == old(expired) + 1
    {
      hide Tallied, Filed, Capacity, Classed, Shape.ShardOf, Slot;
      ghost var was := View();
      Found(l, hash, was, i, b, p);
      Lengths(l, was);
      RemoveKeeps(l, hash, was, i, b, p);
      RemoveAt(i, b, p);
      OneFewer(was.index, was.tables[i][b][p].key);
      revision := revision + 1;
      expired := expired + 1;
    }

    /** Remove the entry at a place if it is expired, or else move on to the next place. */
    method SweepStep(i: nat, b: nat, p: nat, now: u32, ghost before: map<Long, Entry>) returns (q: nat)
      requires Valid() && l.span > 0 && i < |tables| && b < |tables[i]| && p < |tables[i][b]|
      requires Kept(before, index, now) && OnlyFrom(l, hash, i, |tables[i]|, b, before, index)
      requires NoneExpired(tables[i][b], p, now)
      modifies this`tables, this`counts, this`mems, this`total, this`ttl, this`index, this`revision, this`expired
      ensures Valid() && Sizes(tables) == old(Sizes(tables))
      ensures i < |tables| && |tables[i]| == |old(tables)[i]| && b < |tables[i]|
      ensures Kept(before, index, now) && OnlyFrom(l, hash, i, |tables[i]|, b, before, index)
      ensures NoneExpired(tables[i][b], q, now)
      ensures |index| + expired == |old(index)| + old(expired) && revision - old(revision) == expired - old(expired)
      ensures q <= |tables[i][b]| && |tables[i][b]| - q == |old(tables)[i][b]| - p - 1
    {
      hide Ok, Shape.ShardOf, Slot, Expired, Cut, Goes, Sizes, Kept, OnlyFrom, NoneExpired;
      if Expired(tables[i][b][p], now) {
        CutAt(tables[i][b], p, now);
        SizesAt(tables, i);
        ghost var was, k := index, tables[i][b][p].key;
        ExpireAt(i, b, p);
        SizesAt(tables, i);
        KeptDrop(l, hash, i, |tables[i]|, b, before, was, k, now);
        return p;
      }
      OneMore(tables[i][b], p, now);
      return p + 1;
    }

    /** Remove the expired entries of one chain. */
    method SweepBucket(i: nat, b: nat, now: u32)
      requires Valid() && i < |tables| && b < |tables[i]|
      modifies this`tables, this`counts, this`mems, this`total, this`ttl, this`index, this`revision, this`expired
      ensures Valid() && Sizes(tables) == old(Sizes(tables)) && i < |tables| && b < |tables[i]|
      ensures Kept(old(index), index, now) && OnlyFrom(l, hash, i, |tables[i]|, b, old(index), index)
      ensures NoneExpired(tables[i][b], |tables[i][b]|, now)
      ensures |index| + expired == |old(index)| + old(expired) && revision - old(revision) == expired - old(expired)
    {
      hide Ok, Expired, Sizes, Kept, OnlyFrom, NoneExpired;
      SpanOk(l, hash, View());
      NoneYet(tables[i][b], now);
      ghost var before := index;
      KeptAll(l, hash, i, |tables[i]|, b, before, now);
      var p: nat := 0;
      while p < |tables[i][b]|
        invariant Valid() && Sizes(tables) == old(Sizes(tables))
        invariant i < |tables| && |tables[i]| == |old(tables)[i]| && b < |tables[i]| && p <= |tables[i][b]|
        invariant Kept(before, index, now) && OnlyFrom(l, hash, i, |tables[i]|, b, before, index)
        invariant NoneExpired(tables[i][b], p, now)
        invariant |index| + expired == |before| + old(expired) && revision - old(revision) == expired - old(expired)
        decreases |tables[i][b]| - p
      {
        p := SweepStep(i, b, p, now, before);
      }
    }

    /** Remove the expired entries of the bucket a ticket names. */
    method SweepTicket(ticket: u64, now: u32)
      requires Valid() && l.shards > 0
      modifies this`tables, this`counts, this`mems, this`total, this`ttl, this`index, this`revision, this`expired
      ensures Valid() && Sizes(tables) == old(Sizes(tables))
      ensures l.span > 0 && index == Swept(l, hash, Sizes(tables), old(index), ticket, 1, now)
      ensures |index| + expired == |old(index)| + old(expired) && revision - old(revision) == expired - old(expired)
    {
      hide Tallied, Filed, Shape.ShardOf, Slot, Swept, Kept, OnlyFrom, Sizes, Expired;
      var i := ticket % l.shards;
      ghost var was := View();
      SizesOk(l, hash, was);
      var b := (ticket / l.shards) % |tables[i]|;
      SizesAt(tables, i);
      SweepBucket(i, b, now);
      SweptOne(l, hash, was, View(), i, b, ticket, now);
    }

    /** Draw tickets and remove the expired entries of the buckets they name; with no deadlines at all, do nothing.
        The ticket counter wraps around. Whatever has no deadline, or has it ahead, survives. */
    method SweepExpired(work: u64, now: u32)
      requires Valid() && l.shards > 0
      modifies this
      ensures Valid() && Sizes(tables) == old(Sizes(tables))
      ensures l.span > 0 && index == SweptFrom(l, hash, Sizes(tables), old(index), old(cursor), work, now)
      ensures forall k :: k in index ==> k in old(index) && index[k] == old(index)[k]
      ensures forall k :: k in old(index) && (old(index)[k].exp == 0 || now < old(index)[k].exp) ==> k in index
      ensures cursor == Tick(old(cursor), if old(ttl) == 0 then 0 else work) && slack == old(slack)
      ensures |index| + expired == |old(index)| + old(expired) && revision - old(revision) == expired - old(expired)
    {
      hide Tallied, Filed, Swept, SweptFrom, Sizes, Tick;
      SweptKeeps(l, hash, Sizes(tables), index, cursor, work, now);
      TickStarts(cursor);
      if ttl == 0 {
        NoDeadlines(l, View());
        SweptFromIdle(l, hash, Sizes(tables), index, cursor, work, now);
        return;
      }
      SweptFromNone(l, hash, Sizes(tables), index, cursor, now);
      var n := 0;
      while n < work
        invariant n <= work && Valid() && Sizes(tables) == old(Sizes(tables)) && cursor == Tick(old(cursor), n)
        invariant slack == old(slack)
        invariant index == SweptFrom(l, hash, Sizes(tables), old(index), old(cursor), n, now)
        invariant |index| + expired == |old(index)| + old(expired) && revision - old(revision) == expired - old(expired)
      {
        var ticket := cursor;
        cursor := Tick(cursor, 1);
        TickNext(old(cursor), n);
        SweepTicket(ticket, now);
        SweptFromNext(l, hash, Sizes(tables), old(index), old(cursor), n, now);
        n := n + 1;
      }
    }
  }

  /** Opening a cache: the bucket count is rounded up, and none is made when it cannot be. */
  method NewCache(shape: Shape, hashOf: Long -> u32, requested: u64) returns (c: LocalCache?)
    requires shape.Ok()
    ensures c == null <==> requested > 0x8000_0000_0000_0000
    ensures c != null ==> fresh(c) && c.Valid() && c.l == shape && c.hash == hashOf && c.index == map[] && c.cursor == 0
    ensures c != null ==> SumSeq(c.slack) == 0 && c.budget == 0
  {
    hide Ok, SumSeq, IsPow2;
    var n := RoundBuckets(requested);
    if n == 0 { return null; }
    c := new LocalCache(shape, hashOf, n);
  }

  // ---- eviction ----

  ghost predicate Submap<K(!new), V(!new)>(a: map<K, V>, b: map<K, V>) {
    forall k :: k in a ==> k in b && a[k] == b[k]
  }

  lemma SubmapSelf<K(!new), V(!new)>(a: map<K, V>)
    ensures Submap(a, a)
  {
  }

  lemma SubmapTrans<K(!new), V(!new)>(a: map<K, V>, b: map<K, V>, c: map<K, V>)
    requires Submap(a, b) && Submap(b, c)
    ensures Submap(a, c)
  {
  }

  lemma PutSize(index: map<Long, Entry>, key: Long, e: Entry)
    ensures |index[key := e]| == |index| + (if key in index then 0 else 1)
  {
    assert index[key := e].Keys == index.Keys + {key};
    if key in index { assert index[key := e].Keys == index.Keys; }
  }

  lemma ContentsSubmap(a: map<Long, Entry>, b: map<Long, Entry>)
    requires Submap(a, b)
    ensures Submap(Contents(a), Contents(b))
  {
  }

  /** What a put does to a part of the cache is part of what it does to the whole. */
  lemma PutSubmap(l: Shape, hash: Long -> u32, v: Table, whole: map<Long, Entry>, key: Long, value: Long, exp: u32)
    requires Ok(l, hash, v) && Submap(v.index, whole)
    ensures Contents(v.index[key := PutEntry(hash, v.index, key, value, exp)])
       == Contents(v.index)[key := Item(value, exp)]
    ensures Submap(Contents(v.index)[key := Item(value, exp)], Contents(whole)[key := Item(value, exp)])
    ensures Submap(Contents(v.index), Contents(whole))
  {
    hide Ok, FitsInPlace;
    InPlaceKey(l, hash, v, key);
    PutContents(v.index, PutEntry(hash, v.index, key, value, exp));
  }

  /** What a put and evictions around it leave is part of what the put alone would. */
  lemma PutOutcome(l: Shape, hash: Long -> u32, was: Table, before: map<Long, Entry>, after: map<Long, Entry>, ok: bool,
                   key: Long, value: Long, exp: u32)
    requires Ok(l, hash, was) && Submap(was.index, before)
    requires Submap(after, if ok then was.index[key := PutEntry(hash, was.index, key, value, exp)] else was.index)
    ensures Submap(Contents(after), if ok then Contents(before)[key := Item(value, exp)] else Contents(before))
    ensures was.index == before && ok && after == before[key := PutEntry(hash, before, key, value, exp)] ==>
      Contents(after) == Contents(before)[key := Item(value, exp)]
  {
    hide Ok, Contents, PutEntry, Submap;
    PutSubmap(l, hash, was, before, key, value, exp);
    var put := if ok then was.index[key := PutEntry(hash, was.index, key, value, exp)] else was.index;
    ContentsSubmap(after, put);
    SubmapTrans(Contents(after), Contents(put),
                if ok then Contents(before)[key := Item(value, exp)] else Contents(before));
  }

  /** The first shard the generator draws counts an entry. */
  ghost predicate Draws(v: Table, random: nat -> u32, from: nat) {
    0 < |v.tables| == |v.counts| && v.counts[random(from) % |v.tables|] != 0
  }

  lemma ChainClassed(l: Shape, hash: Long -> u32, v: Table, i: nat, b: nat, p: nat)
    requires Ok(l, hash, v) && i < |v.tables| && b < |v.tables[i]| && p < |v.tables[i][b]|
    ensures Classed(v.tables[i][b][p])
  {
    hide Tallied, Filed, Classed;
    Found(l, hash, v, i, b, p);
  }

  function Probed(at: nat, q: nat, n: nat): (b: nat)
    requires n > 0
    ensures b < n
  {
    (at + q) % n
  }

  lemma ProbesCover(at: nat, b: nat, n: nat) returns (q: nat)
    requires at < n && b < n
    ensures q < n && Probed(at, q, n) == b
  {
    q := if at <= b then b - at else b + n - at;
    if at > b {
      assert at + q == n + b;
      DivMod(1, b, n);
    }
  }

  /** A shard whose chains are all empty counts no entries. */
  lemma AllProbed(l: Shape, hash: Long -> u32, v: Table, i: nat, at: nat)
    requires Ok(l, hash, v) && i < |v.tables| && at < |v.tables[i]|
    requires forall q :: 0 <= q < |v.tables[i]| ==> v.tables[i][Probed(at, q, |v.tables[i]|)] == []
    ensures i < |v.counts| && v.counts[i] == 0
  {
    hide Shape.ShardOf, Slot, ShardFiled, Probed, CapInShard, Sum, BucketBytes;
    forall k | k in v.index ensures InShard(l, i)(k, v.index[k]) == 0 {
      assert Present(l, hash, v.tables, k, v.index[k]);
      InPlace(l, hash, v, k);
      if l.ShardOf(hash(k)) == i {
        var q := ProbesCover(at, Slot(hash(k), |v.tables[i]|), |v.tables[i]|);
      }
    }
    SumZero(v.index, InShard(l, i));
  }

  /** None of the first `p` entries of a chain is expired. */
  ghost predicate NoneExpired(chain: Bucket, p: nat, now: u32) {
    p <= |chain| && forall q :: 0 <= q < p ==> !Expired(chain[q], now)
  }

  lemma NoneYet(chain: Bucket, now: u32)
    ensures NoneExpired(chain, 0, now)
  {
  }

  lemma OneMore(chain: Bucket, p: nat, now: u32)
    requires p < |chain| && NoneExpired(chain, p, now) && !Expired(chain[p], now)
    ensures NoneExpired(chain, p + 1, now)
  {
  }

  lemma CutAt(chain: Bucket, p: nat, now: u32)
    requires p < |chain| && NoneExpired(chain, p, now)
    ensures |Cut(chain, p)| == |chain| - 1 && NoneExpired(Cut(chain, p), p, now)
  {
  }

  lemma OneFewer(index: map<Long, Entry>, k: Long)
    requires k in index
    ensures |index - {k}| == |index| - 1
  {
    assert (index - {k}).Keys == index.Keys - {k};
  }

  ghost function Sizes(tables: seq<Buckets>): seq<nat> { seq(|tables|, i requires 0 <= i < |tables| => |tables[i]|) }

  lemma SizesAt(tables: seq<Buckets>, i: nat)
    requires i < |tables|
    ensures |Sizes(tables)| == |tables| && Sizes(tables)[i] == |tables[i]|
  {
  }

  /** The key's chain is chain `b` of a shard `i` with `n` buckets. */
  ghost predicate Goes(l: Shape, hash: Long -> u32, i: nat, n: nat, b: nat, k: Long)
    requires l.span > 0 && n > 0
  {
    l.ShardOf(hash(k)) == i && Slot(hash(k), n) == b
  }

  /** Only keys of that chain are gone. */
  ghost predicate OnlyFrom(l: Shape, hash: Long -> u32, i: nat, n: nat, b: nat, before: map<Long, Entry>,
                           after: map<Long, Entry>)
    requires l.span > 0 && n > 0
  {
    forall k :: k in before && k !in after ==> Goes(l, hash, i, n, b, k)
  }

  /** What is left is as it was, and what is gone was expired. */
  ghost predicate Kept(before: map<Long, Entry>, after: map<Long, Entry>, now: u32) {
    && (forall k :: k in after ==> k in before && after[k] == before[k])
    && (forall k :: k in before && k !in after ==> Expired(before[k], now))
  }

  lemma KeptAll(l: Shape, hash: Long -> u32, i: nat, n: nat, b: nat, index: map<Long, Entry>, now: u32)
    requires l.span > 0 && n > 0
    ensures Kept(index, index, now) && OnlyFrom(l, hash, i, n, b, index, index)
  {
  }

  lemma KeptDrop(l: Shape, hash: Long -> u32, i: nat, n: nat, b: nat, before: map<Long, Entry>, after: map<Long,
                 Entry>, k: Long, now: u32)
    requires l.span > 0 && n > 0 && Kept(before, after, now) && OnlyFrom(l, hash, i, n, b, before, after)
    requires k in after && Expired(after[k], now) && Goes(l, hash, i, n, b, k)
    ensures Kept(before, after - {k}, now) && OnlyFrom(l, hash, i, n, b, before, after - {k})
  {
    hide Expired, Goes;
  }

  lemma SizesOk(l: Shape, hash: Long -> u32, v: Table)
    requires Ok(l, hash, v)
    ensures |v.tables| == l.shards && forall i :: 0 <= i < |v.tables| ==> |v.tables[i]| > 0 && IsPow2(|v.tables[i]|)
  {
    hide Tallied, BucketOk;
    assert forall i :: 0 <= i < |v.tables| ==> ShardFiled(l, hash, i, v.tables[i], v.index);
  }

  /** A sweep with as many tickets as shards times the largest bucket count leaves exactly the entries without a
      deadline and those whose deadline is ahead. */
  lemma FullSweep(l: Shape, hash: Long -> u32, v: Table, c: u64, work: u64, most: nat, now: u32)
    requires Ok(l, hash, v) && l.shards > 0 && (forall i :: 0 <= i < |v.tables| ==> |v.tables[i]| <= most)
    requires work >= l.shards * most
    ensures l.span > 0 && SweptFrom(l, hash, Sizes(v.tables), v.index, c, work, now)
                       == map k | k in v.index && (v.index[k].exp == 0 || now < v.index[k].exp) :: v.index[k]
  {
    hide Tallied, Filed, SweptFrom, IsPow2;
    SizesOk(l, hash, v);
    SweptAll(l, hash, Sizes(v.tables), v.index, c, work, most, now);
  }

  /** The deadline counter is zero only when no entry has a deadline. */
  lemma NoDeadlines(l: Shape, v: Table)
    requires l.span > 0 && Tallied(l, v) && v.ttl == 0
    ensures forall k :: k in v.index ==> v.index[k].exp == 0
  {
    forall k | k in v.index ensures v.index[k].exp == 0 {
      SumRemove(v.index, k, TtlWeight);
    }
  }

  /** Sweeping the bucket a ticket names is one step of the sweep. */
  lemma SweptOne(l: Shape, hash: Long -> u32, v: Table, q: Table, i: nat, b: nat, t: nat, now: u32)
    requires l.shards > 0 && Ok(l, hash, v) && Ok(l, hash, q) && Sizes(q.tables) == Sizes(v.tables) && i < |q.tables|
    requires b < |q.tables[i]|
    requires Kept(v.index, q.index, now) && OnlyFrom(l, hash, i, |q.tables[i]|, b, v.index, q.index)
    requires NoneExpired(q.tables[i][b], |q.tables[i][b]|, now) && Hits(l.shards, Sizes(v.tables), t, i, b)
    ensures q.index == Swept(l, hash, Sizes(v.tables), v.index, t, 1, now)
  {
    hide Tallied, Shape.ShardOf, Slot, Expired, Hits;
    assert forall e :: e in q.tables[i][b] ==> !Expired(e, now);
    var sizes := Sizes(v.tables);
    forall k | k in v.index
      ensures k in q.index <==> !(Expired(v.index[k], now) && VisitsKey(l, hash, sizes, t, 1, k))
    {
      OneTicket(l.shards, sizes, t, i, b, l.ShardOf(hash(k)));
      if k in q.index { assert Present(l, hash, q.tables, k, q.index[k]); }
      SizesOk(l, hash, q);
    }
  }

  lemma OneTicket(shards: nat, sizes: seq<nat>, t: nat, i: nat, b: nat, j: nat)
    requires shards > 0 && Hits(shards, sizes, t, i, b)
    ensures forall c :: Visits(shards, sizes, t, 1, j, c) <==> j == i && c == b
  {
  }

  lemma PutContents(index: map<Long, Entry>, e: Entry)
    ensures Contents(index[e.key := e]) == Contents(index)[e.key := Item(e.value, e.exp)]
  {
  }

  /** The key has an entry large enough for the value. */
  ghost predicate FitsInPlace(index: map<Long, Entry>, key: Long, value: Long) {
    key in index && Classed(index[key]) && HEADER + |key| + |value| <= Capacity(index[key])
  }

  ghost function ClassOf(size: nat): nat { if size > SLAB_MAX_ENTRY then DIRECT else LeastClass(size) }

  /** The entry a put leaves under its key: the old one rewritten, or a new one in the class of its size. */
  ghost function PutEntry(hash: Long -> u32, index: map<Long, Entry>, key: Long, value: Long, exp: u32): Entry {
    if FitsInPlace(index, key, value) then index[key].(value := value, exp := exp)
    else Entry(key, value, exp, hash(key), ClassOf(HEADER + |key| + |value|))
  }

  lemma HasCounts(l: Shape, hash: Long -> u32, v: Table)
    requires Ok(l, hash, v)
    ensures l.span > 0 && |v.counts| == |v.tables| == l.shards
  {
    hide Filed, Tallied;
    Lengths(l, v);
  }

  lemma SpanOk(l: Shape, hash: Long -> u32, v: Table)
    requires Ok(l, hash, v)
    ensures l.span > 0
  {
    hide Tallied, Filed;
  }

  lemma InPlaceKey(l: Shape, hash: Long -> u32, v: Table, key: Long)
    requires Ok(l, hash, v)
    ensures key in v.index ==> v.index[key].key == key
  {
    hide Tallied;
    if key in v.index { InPlace(l, hash, v, key); }
  }

  /** What a put leaves charged for good: the bytes by which it shrinks a directly allocated entry. */
  ghost function Shrinkage(index: map<Long, Entry>, key: Long, value: Long): int {
    if FitsInPlace(index, key, value) && index[key].cls == DIRECT then |index[key].value| - |value| else 0
  }

  lemma InPlaceFits(e: Entry, value: Long, exp: u32)
    requires Classed(e) && HEADER + |e.key| + |value| <= Capacity(e)
    ensures var now := e.(value := value, exp := exp);
      Classed(now) && Capacity(e) - Capacity(now) == (if e.cls == DIRECT then |e.value| - |value| else 0) >= 0
  {
  }

  lemma NewFits(e: Entry, size: nat)
    requires size == Size(e) && e.cls == ClassOf(size)
    ensures Classed(e) && Size(e) <= Capacity(e)
  {
  }

  lemma NewOk(l: Shape, hash: Long -> u32, v: Table, buckets: nat)
    requires l.Ok() && IsPow2(buckets) && buckets > 0 && v.tables == seq(l.shards, _ => seq(buckets, _ => []))
    requires v.counts == seq(l.shards, _ => 0) && v.mems == seq(l.shards, _ => LINK_BYTES * buckets) && v.ttl == 0
    requires v.total == l.shards * (LINK_BYTES * buckets) && v.index == map[] && v.slack == seq(l.shards, _ => 0)
    ensures Ok(l, hash, v)
  {
    SameBuckets(v.tables, buckets);
    NoSlack(v.slack);
  }

  lemma {:induction false} SameBuckets(tables: seq<Buckets>, n: nat)
    requires forall i :: 0 <= i < |tables| ==> |tables[i]| == n
    ensures BucketBytes(tables) == |tables| * (LINK_BYTES * n)
  {
    if tables != [] {
      SameBuckets(tables[..|tables| - 1], n);
      Distribute(|tables| - 1, LINK_BYTES * n);
    }
  }

  lemma Distribute(k: nat, x: nat)
    ensures (k + 1) * x == k * x + x
  {
  }

  lemma {:induction false} NoSlack(s: seq<nat>)
    requires forall i :: 0 <= i < |s| ==> s[i] == 0
    ensures SumSeq(s) == 0
  {
    if s != [] { NoSlack(s[..|s| - 1]); }
  }

  lemma HasChain(l: Shape, hash: Long -> u32, v: Table, key: Long)
    requires Ok(l, hash, v)
    ensures l.ShardOf(hash(key)) < |v.tables| == l.shards && |v.tables[l.ShardOf(hash(key))]| > 0
  {
    hide Tallied, Slot, BucketOk;
    ShardInRange(l, hash(key));
    assert ShardFiled(l, hash, l.ShardOf(hash(key)), v.tables[l.ShardOf(hash(key))], v.index);
  }

  lemma NotFiled(l: Shape, hash: Long -> u32, v: Table, key: Long)
    requires Ok(l, hash, v) && l.ShardOf(hash(key)) < |v.tables| && |v.tables[l.ShardOf(hash(key))]| > 0
    requires forall e :: e in v.tables[l.ShardOf(hash(key))][Slot(hash(key), |v.tables[l.ShardOf(hash(key))]|)] ==>
      e.key != key
    ensures key !in v.index
  {
    hide Tallied, Slot, Shape.ShardOf, BucketOk, ShardFiled;
    assert forall k :: k in v.index ==> Present(l, hash, v.tables, k, v.index[k]);
  }

  // ---- the byte counter ----

  /** The byte counter is the bucket bytes plus the live capacities plus what shrinking left behind: it never
      drops below what is there, and it is exact just when nothing was left behind. */
  lemma BytesCovered(l: Shape, hash: Long -> u32, v: Table)
    requires Ok(l, hash, v)
    ensures v.total == BucketBytes(v.tables) + Sum(v.index, CapWeight) + SumSeq(v.slack)
    ensures v.total >= BucketBytes(v.tables) + Sum(v.index, CapWeight) >= 0
    ensures v.total == BucketBytes(v.tables) + Sum(v.index, CapWeight)
      <==> forall i :: 0 <= i < |v.slack| ==> v.slack[i] == 0
  {
    hide Filed, Sum, BucketBytes;
    if forall i :: 0 <= i < |v.slack| ==> v.slack[i] == 0 {
      NoSlack(v.slack);
    } else {
      var i :| 0 <= i < |v.slack| && v.slack[i] != 0;
      SumSeqSet(v.slack, i, 0);
    }
  }
}
