/** The writes of the embedded heap and table, one step at a time, and why each keeps the region sound. */
module EmbeddedSteps {
  import opened Bytes
  import opened LinkedWords
  import opened MapSum
  import opened EmbeddedRegion

  // ---- the heap ----

  /** Unlink the free block at position `i`. */
  ghost function TakeFree(r: Region, i: nat): Region
    requires i < |r.free| && r.free[i] in r.freeLinks
  {
    r.(freeLinks := r.freeLinks[Slot(FREE_HEAD, r.free, i) := r.freeLinks[r.free[i]]][r.free[i] := 0],
       free := Without(r.free, i))
  }

  /** Cut a new block of `need` bytes off the unused end. */
  ghost function Grow(r: Region, need: nat): Region {
    r.(freeLinks := r.freeLinks[r.bump := 0], caps := r.caps[r.bump := need],
       bump := r.bump + need, claimed := r.claimed + need)
  }

  /** Put a held block at the front of the free list. */
  ghost function Release(r: Region, b: nat): Region
    requires FREE_HEAD in r.freeLinks
  {
    r.(freeLinks := r.freeLinks[b := r.freeLinks[FREE_HEAD]][FREE_HEAD := b], free := [b] + r.free)
  }

  lemma FreeHeadIn(w: map<nat, nat>, free: seq<nat>)
    requires Chain(w, FREE_HEAD, free)
    ensures FREE_HEAD in w && forall b :: b in free ==> b in w
  {
    assert Slot(FREE_HEAD, free, 0) in w;
    forall b | b in free ensures b in w {
      var i :| 0 <= i < |free| && free[i] == b;
      assert Slot(FREE_HEAD, free, i + 1) in w;
    }
  }

  lemma {:induction false} FreeBytesWithout(caps: map<nat, nat>, free: seq<nat>, i: nat)
    requires i < |free| && forall b :: b in free ==> b in caps
    ensures forall b :: b in Without(free, i) ==> b in caps
    ensures FreeBytes(caps, free) == FreeBytes(caps, Without(free, i)) + caps[free[i]]
  {
    var rest := Without(free, i);
    if i == 0 {
      assert rest == free[1..];
    } else {
      FreeBytesWithout(caps, free[1..], i - 1);
      assert Without(free[1..], i - 1) == rest[1..];
    }
  }

  lemma {:induction false} FreeBytesAgree(caps: map<nat, nat>, more: map<nat, nat>, free: seq<nat>)
    requires forall b :: b in free ==> b in caps && b in more && caps[b] == more[b]
    ensures FreeBytes(caps, free) == FreeBytes(more, free)
  {
    if free != [] { FreeBytesAgree(caps, more, free[1..]); }
  }

  /** More blocks, with the old ones unchanged, leave the entries as they were. */
  lemma CellsStay(l: Layout, hash: Long -> u32, caps: map<nat, nat>, more: map<nat, nat>, cells: map<nat, Cell>,
                  chains: seq<seq<nat>>)
    requires l.span > 0 && Celled(l, hash, caps, cells, chains)
    requires forall b :: b in caps ==> b in more && more[b] == caps[b]
    ensures Celled(l, hash, more, cells, chains) && LiveMap(l, more, cells) == LiveMap(l, caps, cells)
  {
    assert forall e :: e in cells ==> CellOk(l, hash, caps, e, cells[e], chains);
  }

  lemma TakeFreeKeeps(l: Layout, hash: Long -> u32, r: Region, i: nat)
    requires Ok(l, hash, r, 0) && i < |r.free|
    ensures r.free[i] in r.freeLinks && Ok(l, hash, TakeFree(r, i), r.free[i])
  {
    hide Placed, Chained, Celled, Indexed, Tallied, LiveMap, FreeBytes, Layout.Ok, Chain;
    FreeHeadIn(r.freeLinks, r.free);
    var b, q := r.free[i], TakeFree(r, i);
    Removed(r.freeLinks, FREE_HEAD, r.free, i);
    assert b !in q.free && b != 0;
    Framed(r.freeLinks[Slot(FREE_HEAD, r.free, i) := r.freeLinks[b]], q.freeLinks, FREE_HEAD, q.free);
    TakeFreeOwned(r.caps, r.free, r.cells, i);
    FreeBytesWithout(r.caps, r.free, i);
  }

  lemma TakeFreeOwned(caps: map<nat, nat>, free: seq<nat>, cells: map<nat, Cell>, i: nat)
    requires Owned(caps, free, cells, 0) && Proper(FREE_HEAD, free) && i < |free| && free[i] in caps
    ensures Owned(caps, Without(free, i), cells, free[i])
  {
    WithoutMembers(FREE_HEAD, free, i);
    assert free[i] in free;
  }

  lemma GrowPlaced(l: Layout, caps: map<nat, nat>, bump: nat, need: nat)
    requires Placed(l, caps, bump) && need % ALIGN == 0 && BLOCK + ENTRY <= need <= l.end - bump
    ensures Placed(l, caps[bump := need], bump + need) && bump !in caps
  {
  }

  lemma GrowKeeps(l: Layout, hash: Long -> u32, r: Region, need: nat)
    requires Ok(l, hash, r, 0) && need % ALIGN == 0 && BLOCK + ENTRY <= need <= l.end - r.bump
    ensures Ok(l, hash, Grow(r, need), r.bump)
  {
    hide Placed, Chained, Celled, Indexed, Owned, Tallied, LiveMap, FreeBytes, Layout.Ok, Chain, Proper;
    var q := Grow(r, need);
    GrowPlaced(l, r.caps, r.bump, need);
    SomeRoom(l, r.caps, r.bump);
    Framed(r.freeLinks, q.freeLinks, FREE_HEAD, r.free);
    CellsStay(l, hash, r.caps, q.caps, r.cells, r.chains);
    FreeBytesAgree(r.caps, q.caps, r.free);
    GrowOwned(l, hash, r.caps, r.free, r.cells, r.chains, r.bump, need);
  }

  lemma GrowOwned(l: Layout, hash: Long -> u32, caps: map<nat, nat>, free: seq<nat>, cells: map<nat, Cell>,
                  chains: seq<seq<nat>>, b: nat, need: nat)
    requires l.span > 0 && Owned(caps, free, cells, 0) && Celled(l, hash, caps, cells, chains) && b !in caps
    requires b !in free
    ensures b != 0 ==> Owned(caps[b := need], free, cells, b)
  {
    assert forall e :: e in cells ==> CellOk(l, hash, caps, e, cells[e], chains);
  }

  lemma SomeRoom(l: Layout, caps: map<nat, nat>, bump: nat)
    requires l.Ok() && Placed(l, caps, bump)
    ensures bump > FREE_HEAD && forall b :: b in caps ==> b > FREE_HEAD
  {
  }

  lemma ReleaseKeeps(l: Layout, hash: Long -> u32, r: Region, b: nat)
    requires b != 0 && Ok(l, hash, r, b)
    ensures FREE_HEAD in r.freeLinks && Ok(l, hash, Release(r, b), 0)
  {
    hide Placed, Chained, Celled, Indexed, Tallied, LiveMap, Layout.Ok, Chain, Proper;
    FreeHeadIn(r.freeLinks, r.free);
    var q := Release(r, b);
    SomeRoom(l, r.caps, r.bump);
    Pushed(r.freeLinks, FREE_HEAD, r.free, b);
    assert q.free[1..] == r.free;
    ReleaseOwned(r.caps, r.free, r.cells, b);
  }

  lemma ReleaseOwned(caps: map<nat, nat>, free: seq<nat>, cells: map<nat, Cell>, b: nat)
    requires b != 0 && Owned(caps, free, cells, b)
    ensures Owned(caps, [b] + free, cells, 0)
  {
    assert forall c :: c in [b] + free <==> c == b || c in free;
  }

  // ---- counters ----

  lemma TallyInsert(l: Layout, live: map<nat, Live>, e: nat, v: Live, total: int, ttl: int, counts: seq<int>,
                    mems: seq<int>)
    requires Tallied(l, live, total, ttl, counts, mems) && e !in live && v.shard < l.shards
    ensures Tallied(l, live[e := v], total + v.cap, ttl + TtlOf(e, v), counts[v.shard := counts[v.shard] + 1],
                    mems[v.shard := mems[v.shard] + v.cap])
  {
    hide Sum;
    SumInsert(live, e, v, CapOf);
    SumInsert(live, e, v, TtlOf);
    forall s | 0 <= s < l.shards
      ensures Sum(live[e := v], InShard(s)) == Sum(live, InShard(s)) + InShard(s)(e, v)
      ensures Sum(live[e := v], CapInShard(s)) == Sum(live, CapInShard(s)) + CapInShard(s)(e, v)
    {
      SumInsert(live, e, v, InShard(s));
      SumInsert(live, e, v, CapInShard(s));
    }
  }

  lemma TallyRemove(l: Layout, live: map<nat, Live>, e: nat, total: int, ttl: int, counts: seq<int>, mems: seq<int>)
    requires Tallied(l, live, total, ttl, counts, mems) && e in live && live[e].shard < l.shards
    ensures var v := live[e];
      && v.cap <= total && TtlOf(e, v) <= ttl && 0 < counts[v.shard] && v.cap <= mems[v.shard]
      && Tallied(l, live - {e}, total - v.cap, ttl - TtlOf(e, v), counts[v.shard := counts[v.shard] - 1],
                 mems[v.shard := mems[v.shard] - v.cap])
  {
    hide Sum;
    var v := live[e];
    SumRemove(live, e, CapOf);
    SumRemove(live, e, TtlOf);
    forall s | 0 <= s < l.shards
      ensures Sum(live, InShard(s)) == Sum(live - {e}, InShard(s)) + InShard(s)(e, v)
      ensures Sum(live, CapInShard(s)) == Sum(live - {e}, CapInShard(s)) + CapInShard(s)(e, v)
    {
      SumRemove(live, e, InShard(s));
      SumRemove(live, e, CapInShard(s));
    }
  }

  /** An entry replaced by one of the same shard. */
  lemma TallySwap(l: Layout, live: map<nat, Live>, e: nat, f: nat, v: Live, total: int, ttl: int, counts: seq<int>,
                  mems: seq<int>)
    requires Tallied(l, live, total, ttl, counts, mems) && e in live && (f == e || f !in live)
    requires live[e].shard == v.shard < l.shards
    ensures Tallied(l, (live - {e})[f := v], total - live[e].cap + v.cap, ttl - TtlOf(e, live[e]) + TtlOf(f, v), counts,
                    mems[v.shard := mems[v.shard] - live[e].cap + v.cap])
  {
    hide Sum, InShard, CapInShard;
    var s, u := v.shard, live[e];
    TallyRemove(l, live, e, total, ttl, counts, mems);
    var fewer, less := counts[s := counts[s] - 1], mems[s := mems[s] - u.cap];
    TallyInsert(l, live - {e}, f, v, total - u.cap, ttl - TtlOf(e, u), fewer, less);
    assert fewer[s := fewer[s] + 1] == counts;
    assert less[s := less[s] + v.cap] == mems[s := mems[s] - u.cap + v.cap];
  }

  // ---- chains ----

  /** Bucket words lie below every block, so no entry is one. */
  lemma HeadsLow(l: Layout, hash: Long -> u32, r: Region, held: nat, i: nat, e: nat)
    requires Ok(l, hash, r, held) && i < |r.chains| && BLOCK <= e && e - BLOCK in r.caps
    ensures e != l.Head(i) && e != 0
  {
    hide FreeListed, Celled, Indexed, Owned, Tallied, Conserved, Chain, Proper, LiveMap;
  }

  /** Writes to one bucket's words, to its entries and to entries not in use leave the other chains alone. */
  lemma OthersStay(l: Layout, i: nat, links: map<nat, nat>, more: map<nat, nat>, chains: seq<seq<nat>>, s: seq<nat>,
                   cells: map<nat, Cell>, now: map<nat, Cell>)
    requires l.span > 0 && Chained(l, links, chains, cells) && i < |chains| && ChainOk(l, more, i, s, now)
    requires forall j :: 0 <= j < |chains| && j != i && l.Head(j) in links ==>
      l.Head(j) in more && more[l.Head(j)] == links[l.Head(j)]
    requires forall e :: e in cells && l.BucketOf(cells[e].hash) != i && e in links ==> e in more && more[e] == links[e]
    requires forall e :: e in cells && l.BucketOf(cells[e].hash) != i ==> e in now && now[e] == cells[e]
    ensures Chained(l, more, chains[i := s], now)
  {
    hide Chain, Proper, Layout.BucketOf, Layout.Head;
    var after := chains[i := s];
    forall j | 0 <= j < |after| ensures ChainOk(l, more, j, after[j], now) {
      if j != i {
        assert ChainOk(l, links, j, chains[j], cells);
        Framed(links, more, l.Head(j), chains[j]);
      }
    }
  }

  /** A word of bucket `i` is no other bucket's word and no other bucket's entry; a held block's entry is neither. */
  lemma Apart(l: Layout, hash: Long -> u32, r: Region, held: nat, i: nat, p: nat)
    requires Ok(l, hash, r, held) && i < |r.chains| && p <= |r.chains[i]|
    ensures var x := Slot(l.Head(i), r.chains[i], p);
      && (forall j :: 0 <= j < |r.chains| && j != i ==> l.Head(j) != x)
      && (forall e :: e in r.cells && l.BucketOf(r.cells[e].hash) != i ==> e != x)
    ensures held != 0 ==> forall j :: 0 <= j < |r.chains| ==> l.Head(j) != held + BLOCK
  {
    hide FreeListed, Indexed, Tallied, Conserved, Chain, LiveMap, FreeBytes, Placed, Layout.BucketOf, Layout.Head;
    var x := Slot(l.Head(i), r.chains[i], p);
    assert ChainOk(l, r.links, i, r.chains[i], r.cells);
    forall j | 0 <= j < |r.chains| && j != i ensures l.Head(j) != x {
      if p > 0 {
        assert CellOk(l, hash, r.caps, x, r.cells[x], r.chains);
        HeadsLow(l, hash, r, held, j, x);
      } else {
        assert l.Head(j) != l.Head(i) by { HeadsDiffer(l, i, j); }
      }
    }
    forall e | e in r.cells && l.BucketOf(r.cells[e].hash) != i ensures e != x {
      if p == 0 {
        assert CellOk(l, hash, r.caps, e, r.cells[e], r.chains);
        HeadsLow(l, hash, r, held, i, e);
      }
    }
    if held != 0 {
      forall j | 0 <= j < |r.chains| ensures l.Head(j) != held + BLOCK { HeadsLow(l, hash, r, held, j, held + BLOCK); }
    }
  }

  lemma HeadsDiffer(l: Layout, i: nat, j: nat)
    requires i != j
    ensures l.Head(i) != l.Head(j)
  {
  }

  /** Rewriting one chain, with its words, its entries and one entry not in use, keeps the table chained. */
  lemma Rechain(l: Layout, hash: Long -> u32, r: Region, held: nat, i: nat, p: nat, y: nat,
                links: map<nat, nat>, s: seq<nat>, cells: map<nat, Cell>)
    requires Ok(l, hash, r, held) && i < |r.chains| && p <= |r.chains[i]|
    requires y == Slot(l.Head(i), r.chains[i], p) || (held != 0 && y == held + BLOCK)
    requires forall a :: a in r.links && a != Slot(l.Head(i), r.chains[i], p) && a != y ==>
      a in links && links[a] == r.links[a]
    requires ChainOk(l, links, i, s, cells)
    requires forall e :: e in cells ==>
      e in s || (e in r.cells && cells[e] == r.cells[e] && l.BucketOf(r.cells[e].hash) != i)
    requires forall e :: e in r.cells && l.BucketOf(r.cells[e].hash) != i ==> e in cells && cells[e] == r.cells[e]
    requires forall e :: e in s ==> CellFits(hash, r.caps, e, cells[e])
    ensures Chained(l, links, r.chains[i := s], cells) && Celled(l, hash, r.caps, cells, r.chains[i := s])
  {
    hide FreeListed, Indexed, Tallied, Conserved, Chain, LiveMap, FreeBytes, Placed, Layout.BucketOf, Layout.Head,
         CellFits, Proper;
    Apart(l, hash, r, held, i, p);
    OthersStay(l, i, r.links, links, r.chains, s, r.cells, cells);
    var after := r.chains[i := s];
    forall e | e in cells ensures CellOk(l, hash, r.caps, e, cells[e], after) {
      if e !in s { assert CellOk(l, hash, r.caps, e, r.cells[e], r.chains); }
    }
  }

  // ---- the table ----

  /** Chain a new entry, in the held block, at the end of its bucket. */
  ghost function Link(l: Layout, r: Region, held: nat, c: Cell): Region
    requires l.span > 0 && l.BucketOf(c.hash) < |r.chains| && held in r.caps
    requires l.ShardOf(c.hash) < |r.counts| && |r.counts| == |r.mems|
  {
    var e: nat := held + BLOCK;
    var i, s := l.BucketOf(c.hash), l.ShardOf(c.hash);
    r.(links := r.links[e := 0][Slot(l.Head(i), r.chains[i], |r.chains[i]|) := e], cells := r.cells[e := c],
       chains := r.chains[i := r.chains[i] + [e]], index := r.index[c.key := e],
       total := r.total + r.caps[held], ttl := r.ttl + (if c.exp != 0 then 1 else 0),
       counts := r.counts[s := r.counts[s] + 1], mems := r.mems[s := r.mems[s] + r.caps[held]])
  }

  /** Put a new entry, in the held block, where an entry of the same key was; that one's block is then held. */
  ghost function Swap(l: Layout, r: Region, held: nat, p: nat, c: Cell): Region
    requires l.span > 0 && l.BucketOf(c.hash) < |r.chains| && held in r.caps
    requires p < |r.chains[l.BucketOf(c.hash)]|
    requires var was := r.chains[l.BucketOf(c.hash)][p];
      was in r.links && was in r.cells && BLOCK <= was && was - BLOCK in r.caps
    requires l.ShardOf(c.hash) < |r.counts| && |r.counts| == |r.mems|
  {
    var e: nat := held + BLOCK;
    var i, s := l.BucketOf(c.hash), l.ShardOf(c.hash);
    var was := r.chains[i][p];
    var chain: seq<nat> := r.chains[i][p := e];
    var now, before := r.caps[held], r.caps[was - BLOCK];
    r.(links := r.links[e := r.links[was]][Slot(l.Head(i), r.chains[i], p) := e], cells := (r.cells - {was})[e := c],
       chains := r.chains[i := chain], index := r.index[c.key := e],
       total := r.total - before + now, mems := r.mems[s := r.mems[s] - before + now],
       ttl := r.ttl - (if r.cells[was].exp != 0 then 1 else 0) + (if c.exp != 0 then 1 else 0))
  }

  /** Take an entry out of its chain; its block is then held. */
  ghost function Unlink(l: Layout, r: Region, i: nat, p: nat): Region
    requires l.span > 0 && i < |r.chains| && p < |r.chains[i]|
    requires var was := r.chains[i][p]; was in r.links && was in r.cells && BLOCK <= was && was - BLOCK in r.caps
    requires l.ShardOf(r.cells[r.chains[i][p]].hash) < |r.counts| && |r.counts| == |r.mems|
  {
    var was := r.chains[i][p];
    var c, cap := r.cells[was], r.caps[was - BLOCK];
    var s := l.ShardOf(c.hash);
    r.(links := r.links[Slot(l.Head(i), r.chains[i], p) := r.links[was]], cells := r.cells - {was},
       chains := r.chains[i := Without(r.chains[i], p)], index := r.index - {c.key},
       total := r.total - cap, ttl := r.ttl - (if c.exp != 0 then 1 else 0),
       counts := r.counts[s := r.counts[s] - 1], mems := r.mems[s := r.mems[s] - cap])
  }

  /** Write a new value and deadline into an entry. */
  ghost function Overwrite(r: Region, e: nat, value: Long, exp: u32): Region
    requires e in r.cells
  {
    r.(cells := r.cells[e := r.cells[e].(value := value, exp := exp)],
       ttl := r.ttl - (if r.cells[e].exp != 0 then 1 else 0) + (if exp != 0 then 1 else 0))
  }

  /** What an entry found at a place in a chain brings along. */
  lemma Found(l: Layout, hash: Long -> u32, r: Region, held: nat, i: nat, p: nat)
    requires Ok(l, hash, r, held) && i < |r.chains| && p < |r.chains[i]|
    ensures var e := r.chains[i][p];
      && e in r.links && e in r.cells && CellOk(l, hash, r.caps, e, r.cells[e], r.chains)
      && l.BucketOf(r.cells[e].hash) == i
      && l.ShardOf(r.cells[e].hash) < l.shards && |r.counts| == |r.mems| == l.shards && |r.chains| == l.shards * BUCKETS
      && Slot(l.Head(i), r.chains[i], p) in r.links
  {
    hide Placed, FreeListed, Indexed, Owned, Conserved, Proper, LiveMap, Sum, InShard, CapInShard;
    var e := r.chains[i][p];
    assert ChainOk(l, r.links, i, r.chains[i], r.cells);
    assert Slot(l.Head(i), r.chains[i], p + 1) in r.links && Slot(l.Head(i), r.chains[i], p) in r.links;
    assert e in r.chains[i];
    BucketInRange(l, r.cells[e].hash);
  }

  /** What a held block brings along for a key's bucket. */
  lemma Ready(l: Layout, hash: Long -> u32, r: Region, held: nat, h: u32)
    requires held != 0 && Ok(l, hash, r, held)
    ensures l.ShardOf(h) < l.shards && |r.counts| == |r.mems| == l.shards
    ensures l.BucketOf(h) < |r.chains| && held in r.caps && held + BLOCK !in r.cells
    ensures held + BLOCK != l.Head(l.BucketOf(h)) && held + BLOCK !in r.chains[l.BucketOf(h)]
    ensures ChainOk(l, r.links, l.BucketOf(h), r.chains[l.BucketOf(h)], r.cells)
  {
    hide Placed, FreeListed, Celled, Indexed, Conserved, LiveMap, Sum, InShard, CapInShard, Chain, Proper,
         Layout.BucketOf, Layout.Head;
    BucketInRange(l, h);
    HeadsLow(l, hash, r, held, l.BucketOf(h), held + BLOCK);
  }

  lemma LinkKeeps(l: Layout, hash: Long -> u32, r: Region, held: nat, c: Cell)
    requires held != 0 && Ok(l, hash, r, held) && c.hash == hash(c.key) && c.key !in r.index
    requires Size(c) <= r.caps[held] - BLOCK
    requires l.BucketOf(c.hash) < |r.chains| && l.ShardOf(c.hash) < |r.counts| && |r.counts| == |r.mems|
    ensures Ok(l, hash, Link(l, r, held, c), 0)
  {
    hide Placed, FreeListed, Chained, Celled, Indexed, Owned, Tallied, LiveMap, Layout.Ok, FreeBytes, Layout.ShardOf,
         Layout.BucketOf;
    Ready(l, hash, r, held, c.hash);
    var e: nat := held + BLOCK;
    var q := Link(l, r, held, c);
    LinkChained(l, hash, r, held, c);
    IndexPut(r.index, r.cells, e, c);
    UseOwned(r.caps, r.free, r.cells, held, c);
    LivePut(l, r.caps, r.cells, e, e, c);
    NotLive(l, r.caps, r.cells, e);
    TallyInsert(l, LiveMap(l, r.caps, r.cells), e, LiveOf(l, r.caps, e, c), r.total, r.ttl, r.counts, r.mems);
  }

  lemma NotLive(l: Layout, caps: map<nat, nat>, cells: map<nat, Cell>, e: nat)
    requires l.span > 0 && e !in cells
    ensures e !in LiveMap(l, caps, cells)
  {
  }

  lemma IndexPut(index: map<Long, nat>, cells: map<nat, Cell>, e: nat, c: Cell)
    requires Indexed(index, cells) && c.key !in index && e !in cells
    ensures Indexed(index[c.key := e], cells[e := c])
  {
  }

  lemma UseOwned(caps: map<nat, nat>, free: seq<nat>, cells: map<nat, Cell>, held: nat, c: Cell)
    requires held != 0 && Owned(caps, free, cells, held)
    ensures Owned(caps, free, cells[held + BLOCK := c], 0)
  {
  }

  lemma LinkChained(l: Layout, hash: Long -> u32, r: Region, held: nat, c: Cell)
    requires held != 0 && Ok(l, hash, r, held) && c.hash == hash(c.key) && held in r.caps
    requires Size(c) <= r.caps[held] - BLOCK
    requires l.BucketOf(c.hash) < |r.chains| && l.ShardOf(c.hash) < |r.counts| && |r.counts| == |r.mems|
    ensures var q := Link(l, r, held, c);
      Chained(l, q.links, q.chains, q.cells) && Celled(l, hash, q.caps, q.cells, q.chains)
  {
    hide Placed, FreeListed, Chained, Indexed, Owned, Tallied, Conserved, LiveMap, Layout.Ok, FreeBytes,
         Layout.ShardOf, Layout.BucketOf,
         Layout.Head, Chain, Proper, Size;
    Ready(l, hash, r, held, c.hash);
    var e: nat, i, q := held + BLOCK, l.BucketOf(c.hash), Link(l, r, held, c);
    var s := r.chains[i];
    Appended(r.links, l.Head(i), s, e);
    assert forall x :: x in s ==> CellOk(l, hash, r.caps, x, r.cells[x], r.chains);
    assert forall x :: x in r.cells && l.BucketOf(r.cells[x].hash) == i ==>
      CellOk(l, hash, r.caps, x, r.cells[x], r.chains) && x in s;
    assert forall x :: x in s + [e] <==> x in s || x == e;
    Rechain(l, hash, r, held, i, |s|, e, q.links, s + [e], q.cells);
  }

  lemma UnlinkKeeps(l: Layout, hash: Long -> u32, r: Region, i: nat, p: nat)
    requires Ok(l, hash, r, 0) && i < |r.chains| && p < |r.chains[i]|
    requires r.chains[i][p] in r.links && r.chains[i][p] in r.cells && BLOCK <= r.chains[i][p]
    requires r.chains[i][p] - BLOCK in r.caps
    requires l.ShardOf(r.cells[r.chains[i][p]].hash) < |r.counts| && |r.counts| == |r.mems|
    ensures r.chains[i][p] > BLOCK && Ok(l, hash, Unlink(l, r, i, p), r.chains[i][p] - BLOCK)
  {
    hide Placed, FreeListed, Chained, Celled, Indexed, Owned, Tallied, LiveMap, Layout.Ok, FreeBytes, Layout.ShardOf,
         Layout.BucketOf;
    Found(l, hash, r, 0, i, p);
    var e := r.chains[i][p];
    SomeRoom(l, r.caps, r.bump);
    UnlinkChained(l, hash, r, i, p);
    IndexDrop(r.index, r.cells, e);
    DropOwned(r.caps, r.free, r.cells, e);
    LiveAt(l, r.caps, r.cells, e);
    LivePut(l, r.caps, r.cells, e, e, r.cells[e]);
    TallyRemove(l, LiveMap(l, r.caps, r.cells), e, r.total, r.ttl, r.counts, r.mems);
  }

  lemma IndexDrop(index: map<Long, nat>, cells: map<nat, Cell>, e: nat)
    requires Indexed(index, cells) && e in cells
    ensures Indexed(index - {cells[e].key}, cells - {e})
  {
  }

  lemma DropOwned(caps: map<nat, nat>, free: seq<nat>, cells: map<nat, Cell>, e: nat)
    requires Owned(caps, free, cells, 0) && e in cells && BLOCK < e && e - BLOCK in caps
    ensures Owned(caps, free, cells - {e}, e - BLOCK)
  {
  }

  lemma UnlinkChained(l: Layout, hash: Long -> u32, r: Region, i: nat, p: nat)
    requires Ok(l, hash, r, 0) && i < |r.chains| && p < |r.chains[i]|
    requires r.chains[i][p] in r.links && r.chains[i][p] in r.cells && BLOCK <= r.chains[i][p]
    requires r.chains[i][p] - BLOCK in r.caps
    requires l.ShardOf(r.cells[r.chains[i][p]].hash) < |r.counts| && |r.counts| == |r.mems|
    ensures var q := Unlink(l, r, i, p);
      Chained(l, q.links, q.chains, q.cells) && Celled(l, hash, q.caps, q.cells, q.chains)
  {
    hide Placed, FreeListed, Indexed, Owned, Tallied, Conserved, LiveMap, Layout.Ok, FreeBytes, Layout.ShardOf,
         Layout.BucketOf,
         Layout.Head, Chain, Proper, Size;
    Found(l, hash, r, 0, i, p);
    var s, q := r.chains[i], Unlink(l, r, i, p);
    assert ChainOk(l, r.links, i, s, r.cells);
    Removed(r.links, l.Head(i), s, p);
    WithoutMembers(l.Head(i), s, p);
    assert forall x :: x in s ==> CellOk(l, hash, r.caps, x, r.cells[x], r.chains);
    assert forall x :: x in r.cells && l.BucketOf(r.cells[x].hash) == i ==>
      CellOk(l, hash, r.caps, x, r.cells[x], r.chains) && x in s;
    Rechain(l, hash, r, 0, i, p, Slot(l.Head(i), s, p), q.links, Without(s, p), q.cells);
  }

  lemma SwapKeeps(l: Layout, hash: Long -> u32, r: Region, held: nat, p: nat, c: Cell)
    requires held != 0 && Ok(l, hash, r, held) && c.hash == hash(c.key) && Size(c) <= r.caps[held] - BLOCK
    requires l.BucketOf(c.hash) < |r.chains| && p < |r.chains[l.BucketOf(c.hash)]|
    requires var was := r.chains[l.BucketOf(c.hash)][p];
      was in r.links && was in r.cells && BLOCK <= was && was - BLOCK in r.caps && r.cells[was].key == c.key
    requires l.ShardOf(c.hash) < |r.counts| && |r.counts| == |r.mems|
    ensures r.chains[l.BucketOf(c.hash)][p] > BLOCK
    ensures Ok(l, hash, Swap(l, r, held, p, c), r.chains[l.BucketOf(c.hash)][p] - BLOCK)
  {
    hide Placed, FreeListed, Chained, Celled, Indexed, Owned, Tallied, LiveMap, Layout.Ok, FreeBytes, Layout.ShardOf,
         Layout.BucketOf;
    Ready(l, hash, r, held, c.hash);
    var e: nat, i := held + BLOCK, l.BucketOf(c.hash);
    var was := r.chains[i][p];
    Found(l, hash, r, held, i, p);
    SomeRoom(l, r.caps, r.bump);
    SwapChained(l, hash, r, held, p, c);
    IndexSwap(r.index, r.cells, was, e, c);
    SwapOwned(r.caps, r.free, r.cells, held, was, c);
    LiveAt(l, r.caps, r.cells, was);
    LivePut(l, r.caps, r.cells, was, e, c);
    NotLive(l, r.caps, r.cells, e);
    TallySwap(l, LiveMap(l, r.caps, r.cells), was, e, LiveOf(l, r.caps, e, c), r.total, r.ttl, r.counts, r.mems);
  }

  lemma IndexSwap(index: map<Long, nat>, cells: map<nat, Cell>, was: nat, e: nat, c: Cell)
    requires Indexed(index, cells) && was in cells && cells[was].key == c.key && e !in cells
    ensures Indexed(index[c.key := e], (cells - {was})[e := c])
  {
  }

  lemma SwapOwned(caps: map<nat, nat>, free: seq<nat>, cells: map<nat, Cell>, held: nat, was: nat, c: Cell)
    requires held != 0 && Owned(caps, free, cells, held) && was in cells && BLOCK < was && was - BLOCK in caps
    ensures Owned(caps, free, (cells - {was})[held + BLOCK := c], was - BLOCK)
  {
  }

  lemma SwapChained(l: Layout, hash: Long -> u32, r: Region, held: nat, p: nat, c: Cell)
    requires held != 0 && Ok(l, hash, r, held) && c.hash == hash(c.key) && held in r.caps
    requires Size(c) <= r.caps[held] - BLOCK
    requires l.BucketOf(c.hash) < |r.chains| && p < |r.chains[l.BucketOf(c.hash)]|
    requires var was := r.chains[l.BucketOf(c.hash)][p];
      was in r.links && was in r.cells && BLOCK <= was && was - BLOCK in r.caps
    requires l.ShardOf(c.hash) < |r.counts| && |r.counts| == |r.mems|
    ensures var q := Swap(l, r, held, p, c);
      Chained(l, q.links, q.chains, q.cells) && Celled(l, hash, q.caps, q.cells, q.chains)
  {
    hide Placed, FreeListed, Chained, Indexed, Owned, Tallied, Conserved, LiveMap, Layout.Ok, FreeBytes,
         Layout.ShardOf, Layout.BucketOf,
         Layout.Head, Chain, Proper, Size;
    Ready(l, hash, r, held, c.hash);
    var e: nat, i, q := held + BLOCK, l.BucketOf(c.hash), Swap(l, r, held, p, c);
    var s := r.chains[i];
    var t: seq<nat> := s[p := e];
    Replaced(r.links, l.Head(i), s, p, e);
    UpdateMembers(l.Head(i), s, p, e);
    assert forall x :: x in s ==> CellOk(l, hash, r.caps, x, r.cells[x], r.chains);
    assert forall x :: x in r.cells && l.BucketOf(r.cells[x].hash) == i ==>
      CellOk(l, hash, r.caps, x, r.cells[x], r.chains) && x in s;
    Rechain(l, hash, r, held, i, p, e, q.links, t, q.cells);
  }

  lemma OverwriteKeeps(l: Layout, hash: Long -> u32, r: Region, i: nat, p: nat, value: Long, exp: u32)
    requires Ok(l, hash, r, 0) && i < |r.chains| && p < |r.chains[i]|
    requires r.chains[i][p] in r.cells && r.chains[i][p] - BLOCK in r.caps
    requires ENTRY + |r.cells[r.chains[i][p]].key| + |value| <= r.caps[r.chains[i][p] - BLOCK] - BLOCK
    ensures Ok(l, hash, Overwrite(r, r.chains[i][p], value, exp), 0)
  {
    hide Placed, FreeListed, Chained, Celled, Indexed, Owned, Tallied, LiveMap, Layout.Ok, FreeBytes;
    var e := r.chains[i][p];
    Found(l, hash, r, 0, i, p);
    var q := Overwrite(r, e, value, exp);
    var live, c := LiveMap(l, r.caps, r.cells), q.cells[e];
    RewriteStays(l, hash, r.links, r.caps, r.chains, r.index, r.cells, e, c);
    assert Owned(q.caps, q.free, q.cells, 0) by { SameOwners(r.caps, r.free, r.cells, q.cells, 0); }
    LiveAt(l, r.caps, r.cells, e);
    LivePut(l, r.caps, r.cells, e, e, c);
    TallySwap(l, live, e, e, LiveOf(l, r.caps, e, c), r.total, r.ttl, r.counts, r.mems);
    assert r.mems[l.ShardOf(c.hash) := r.mems[l.ShardOf(c.hash)]] == r.mems;
  }

  lemma SameOwners(caps: map<nat, nat>, free: seq<nat>, cells: map<nat, Cell>, now: map<nat, Cell>, held: nat)
    requires Owned(caps, free, cells, held) && now.Keys == cells.Keys
    ensures Owned(caps, free, now, held)
  {
  }

  /** Rewriting an entry that keeps its key and fits its block. */
  lemma RewriteStays(l: Layout, hash: Long -> u32, links: map<nat, nat>, caps: map<nat, nat>, chains: seq<seq<nat>>,
                     index: map<Long, nat>, cells: map<nat, Cell>, e: nat, c: Cell)
    requires l.span > 0 && Chained(l, links, chains, cells) && Celled(l, hash, caps, cells, chains)
    requires Indexed(index, cells)
    requires e in cells && c.key == cells[e].key && c.hash == cells[e].hash
    requires BLOCK <= e && e - BLOCK in caps && Size(c) <= caps[e - BLOCK] - BLOCK
    ensures Chained(l, links, chains, cells[e := c]) && Celled(l, hash, caps, cells[e := c], chains)
    ensures Indexed(index, cells[e := c])
  {
    hide Chain, Proper, Layout.BucketOf, Layout.Head, Size;
    var now := cells[e := c];
    forall j | 0 <= j < |chains| ensures ChainOk(l, links, j, chains[j], now) {
      assert ChainOk(l, links, j, chains[j], cells);
    }
    forall f | f in now ensures CellOk(l, hash, caps, f, now[f], chains) {
      assert CellOk(l, hash, caps, f, cells[f], chains);
    }
  }

  // ---- the map the table stands for ----

  /** The map after a value is rewritten in place. */
  lemma OverwriteContents(r: Region, e: nat, value: Long, exp: u32)
    requires Indexed(r.index, r.cells) && e in r.cells
    ensures Indexed(r.index, Overwrite(r, e, value, exp).cells)
    ensures Contents(Overwrite(r, e, value, exp)) == Contents(r)[r.cells[e].key := Item(value, exp)]
  {
  }

  /** The map after an entry is put at a new place under its key. */
  lemma PutContents(r: Region, q: Region, c: Cell, e: nat)
    requires Indexed(r.index, r.cells) && Indexed(q.index, q.cells)
    requires q.index == r.index[c.key := e] && e in q.cells && q.cells[e] == c
    requires forall k :: k in r.index && k != c.key ==>
      r.index[k] in q.cells && q.cells[r.index[k]] == r.cells[r.index[k]]
    ensures Contents(q) == Contents(r)[c.key := Item(c.value, c.exp)]
  {
  }

  /** The map after an entry is taken out. */
  lemma UnlinkContents(r: Region, q: Region, e: nat)
    requires Indexed(r.index, r.cells) && Indexed(q.index, q.cells) && e in r.cells
    requires q.index == r.index - {r.cells[e].key} && q.cells == r.cells - {e}
    ensures Contents(q) == Contents(r) - {r.cells[e].key}
  {
  }

  lemma LiveAt(l: Layout, caps: map<nat, nat>, cells: map<nat, Cell>, e: nat)
    requires l.span > 0 && e in cells
    ensures e in LiveMap(l, caps, cells) && LiveMap(l, caps, cells)[e] == LiveOf(l, caps, e, cells[e])
  {
  }

  lemma LivePut(l: Layout, caps: map<nat, nat>, cells: map<nat, Cell>, gone: nat, e: nat, c: Cell)
    requires l.span > 0
    ensures LiveMap(l, caps, (cells - {gone})[e := c]) == (LiveMap(l, caps, cells) - {gone})[e := LiveOf(l, caps, e, c)]
    ensures LiveMap(l, caps, cells - {gone}) == LiveMap(l, caps, cells) - {gone}
    ensures LiveMap(l, caps, cells[e := c]) == LiveMap(l, caps, cells)[e := LiveOf(l, caps, e, c)]
    ensures gone == e ==> (cells - {gone})[e := c] == cells[e := c]
  {
  }
}
