/** The embedded cache: a first-fit heap and a sharded chained table over offsets in one shared region. */
module EmbeddedCache {
  import opened Bytes
  import opened Arithmetic
  import opened LinkedWords
  import opened MapSum
  import opened EmbeddedRegion
  import opened EmbeddedSteps
  import opened EmbeddedSweep
  import opened Ticks

  // ---- sizes ----

  /** Rounding up to 16 in 64-bit arithmetic. */
  function AlignUp(n: u64): u64 { (n + 15) % TWO64 / 16 * 16 }

  /** The block size an allocation of `size` bytes asks for, or none when the sum would overflow. */
  function NeedOf(size: u64): Option<u64> {
    if size > UINT64_MAX - BLOCK then None else Some(AlignUp(BLOCK + size))
  }

  /** The overflow test lets fifteen sizes through for which the rounding wraps to zero. */
  lemma NeedCovers(size: u64)
    requires NeedOf(size).Some?
    ensures NeedOf(size).value % ALIGN == 0
    ensures NeedOf(size).value >= BLOCK + size <==> size <= UINT64_MAX - 31
    ensures size <= UINT64_MAX - 31 ==> NeedOf(size).value < BLOCK + size + 16
  {
    var n := BLOCK + size;
    if n + 15 < TWO64 {
      assert (n + 15) % TWO64 == n + 15;
    } else {
      assert (n + 15) % TWO64 == n + 15 - TWO64;
    }
  }

  /** The first free block large enough, from position `k` on. */
  ghost function FirstFit(caps: map<nat, nat>, free: seq<nat>, need: nat, k: nat): (i: nat)
    requires k <= |free| && forall b :: b in free ==> b in caps
    ensures k <= i <= |free| && (i < |free| ==> caps[free[i]] >= need)
    ensures forall j :: k <= j < i ==> caps[free[j]] < need
    decreases |free| - k
  {
    if k == |free| || caps[free[k]] >= need then k else FirstFit(caps, free, need, k + 1)
  }

  lemma {:induction false} FirstFitIs(caps: map<nat, nat>, free: seq<nat>, need: nat, k: nat, i: nat)
    requires k <= i <= |free| && forall b :: b in free ==> b in caps
    requires (i < |free| ==> caps[free[i]] >= need) && forall j :: k <= j < i ==> caps[free[j]] < need
    ensures FirstFit(caps, free, need, k) == i
    decreases i - k
  {
    if k < i { FirstFitIs(caps, free, need, k + 1, i); }
  }

  /** A block of that size can be had: a free one, or unused bytes. */
  ghost predicate Fits(l: Layout, r: Region, need: nat)
    requires forall b :: b in r.free ==> b in r.caps
  {
    FirstFit(r.caps, r.free, need, 0) < |r.free| || need <= l.end - r.bump
  }

  lemma FitsIff(l: Layout, r: Region, need: nat)
    requires forall b :: b in r.free ==> b in r.caps
    ensures Fits(l, r, need) <==> (exists b :: b in r.free && need <= r.caps[b]) || need <= l.end - r.bump
  {
    var i := FirstFit(r.caps, r.free, need, 0);
    if i < |r.free| { assert r.free[i] in r.free; }
  }

  /** The region once the block is given out, and the block. */
  ghost function Given(r: Region, need: nat): (Region, nat)
    requires (forall b :: b in r.free ==> b in r.caps && b in r.freeLinks)
  {
    var i := FirstFit(r.caps, r.free, need, 0);
    if i < |r.free| then (TakeFree(r, i), r.free[i]) else (Grow(r, need), r.bump)
  }

  lemma GivenKeeps(l: Layout, hash: Long -> u32, r: Region, need: nat)
    requires Ok(l, hash, r, 0) && need % ALIGN == 0 && BLOCK + ENTRY <= need && Fits(l, r, need)
    ensures (forall b :: b in r.free ==> b in r.freeLinks) && r.bump > 0 && 0 !in r.free
    ensures var (q, b) := Given(r, need);
      Ok(l, hash, q, b) && b in q.caps && need <= q.caps[b]
      && q.index == r.index && q.cells == r.cells && q.chains == r.chains && b != 0
  {
    hide Placed, Chained, Celled, Indexed, Owned, Tallied, LiveMap, Layout.Ok, Chain, Conserved, FreeBytes;
    FreeHeadIn(r.freeLinks, r.free);
    SomeRoom(l, r.caps, r.bump);
    var i := FirstFit(r.caps, r.free, need, 0);
    if i < |r.free| {
      TakeFreeKeeps(l, hash, r, i);
    } else {
      GrowKeeps(l, hash, r, need);
    }
  }

  /** An entry taken off the counters and out of use. */
  ghost function Uncounted(r: Region, e: nat, s: nat): Region
    requires e in r.cells && BLOCK <= e && e - BLOCK in r.caps && s < |r.mems|
  {
    r.(cells := r.cells - {e}, ttl := r.ttl - (if r.cells[e].exp != 0 then 1 else 0),
       mems := r.mems[s := r.mems[s] - r.caps[e - BLOCK]], total := r.total - r.caps[e - BLOCK])
  }

  ghost predicate Submap(a: map<Long, Item>, b: map<Long, Item>) {
    forall k :: k in a ==> k in b && a[k] == b[k]
  }

  class EmbeddedCache {
    const l: Layout
    const hash: Long -> u32
    var freeLinks: map<nat, nat>
    var caps: map<nat, nat>
    var links: map<nat, nat>
    /** The entries in use; the bytes of a freed one are not read again. */
    var cells: map<nat, Cell>
    var bump: nat
    var claimed: int
    var total: int
    var ttl: int
    var counts: seq<int>
    var mems: seq<int>
    var budget: nat
    var evicted: nat
    var expired: nat
    var cursor: u64
    ghost var free: seq<nat>
    ghost var chains: seq<seq<nat>>
    ghost var index: map<Long, nat>

    ghost function View(): Region
      reads this
    {
      Region(freeLinks, caps, links, cells, bump, claimed, total, ttl, counts, mems, free, chains, index)
    }

    ghost predicate Valid()
      reads this
    {
      Ok(l, hash, View(), 0)
    }

    /** The map the cache stands for, deadlines included. */
    ghost function Map(): map<Long, Item>
      reads this
      requires Valid()
    {
      Contents(View())
    }

    /** A new region: every bucket empty, nothing on the free list, the bucket arrays already counted. */
    constructor (layout: Layout, hashOf: Long -> u32)
      requires layout.Ok()
      ensures l == layout && hash == hashOf && Valid() && Map() == map[] && budget == 0
      ensures claimed == total == l.shards * BUCKET_BYTES && ttl == 0
    {
      l, hash := layout, hashOf;
      var heads: map<nat, nat> := map[];
      var i := 0;
      while i < layout.shards * BUCKETS
        invariant i <= layout.shards * BUCKETS
        invariant forall j :: 0 <= j < i ==> layout.Head(j) in heads && heads[layout.Head(j)] == 0
      {
        heads := heads[layout.Head(i) := 0];
        i := i + 1;
      }
      freeLinks, caps, links, cells := map[FREE_HEAD := 0], map[], heads, map[];
      bump, claimed := layout.start + layout.shards * BUCKET_BYTES, layout.shards * BUCKET_BYTES;
      total, ttl := layout.shards * BUCKET_BYTES, 0;
      counts, mems := seq(layout.shards, _ => 0), seq(layout.shards, _ => BUCKET_BYTES);
      budget, evicted, expired, cursor := 0, 0, 0, 0;
      free, chains, index := [], seq(layout.shards * BUCKETS, _ => []), map[];
      new;
      NewOk(l, hash, View());
    }

    /** The number of entries, summed over the shards. */
    method Count() returns (n: int)
      requires Valid()
      ensures n == |Map()|
    {
      hide Ok, Contents, Indexed;
      HasShards(l, hash, View());
      n := 0;
      var s := 0;
      while s < l.shards
        invariant s <= l.shards && n == CountBelow(counts, s)
      {
        n := n + counts[s];
        s := s + 1;
      }
      CountsAddUp(l, hash, View());
    }

    /** Walk the free list to the first block large enough; `prev` is the block before it. */
    method SearchFree(need: nat) returns (prev: nat, off: nat, ghost i: nat)
      requires Valid()
      ensures i <= |free| && off == Ref(free, i) && prev == (if i == 0 then 0 else free[i - 1])
      ensures i == FirstFit(caps, free, need, 0) && off == Ref(free, FirstFit(caps, free, need, 0))
    {
      hide Placed, Chained, Celled, Indexed, Owned, Tallied, LiveMap, Chain, Conserved, FreeBytes, FirstFit,
           Layout.Ok, Proper;
      FreeHeadIn(freeLinks, free);
      NoZero(FREE_HEAD, free);
      LinkAt(freeLinks, FREE_HEAD, free, 0);
      prev, off, i := 0, freeLinks[FREE_HEAD], 0;
      while off != 0
        invariant i <= |free| && off == Ref(free, i) && prev == (if i == 0 then 0 else free[i - 1])
        invariant forall k :: 0 <= k < i ==> caps[free[k]] < need
        decreases |free| - i
      {
        if caps[off] >= need { break; }
        LinkAt(freeLinks, FREE_HEAD, free, i + 1);
        prev, off, i := off, freeLinks[off], i + 1;
      }
      FirstFitIs(caps, free, need, 0, i);
    }

    method HeapAlloc(size: u64) returns (e: nat)
      requires Valid() && ENTRY <= size <= UINT64_MAX - 31
      modifies this`freeLinks, this`caps, this`bump, this`claimed, this`free
      ensures forall b :: b in old(free) ==> b in old(caps) && b in old(freeLinks)
      ensures e != 0 <==> Fits(l, old(View()), NeedOf(size).value)
      ensures e == 0 ==> View() == old(View())
      ensures e != 0 ==> e > BLOCK && (View(), e - BLOCK) == Given(old(View()), NeedOf(size).value)
    {
      hide Placed, Chained, Celled, Indexed, Owned, Tallied, LiveMap, Chain, Conserved, FreeBytes, FirstFit,
           Layout.Ok, AlignUp, Proper, TakeFree;
      NeedCovers(size);
      var need := NeedOf(size).value;
      FreeHeadIn(freeLinks, free);
      NoZero(FREE_HEAD, free);
      SomeRoom(l, caps, bump);
      var prev: nat, off: nat, i: nat := SearchFree(need);
      if off != 0 {
        TakeBlock(prev, off, i);
        return off + BLOCK;
      }
      if bump > l.end || need > l.end - bump { return 0; }
      e := bump + BLOCK;
      freeLinks := freeLinks[bump := 0];
      caps := caps[bump := need];
      bump := bump + need;
      claimed := claimed + need;
    }

    /** Unlink a free block from the one before it, or from the head. */
    method TakeBlock(prev: nat, off: nat, ghost i: nat)
      requires i < |free| && off == free[i] && off in freeLinks && prev == (if i == 0 then 0 else free[i - 1])
            && 0 !in free
      modifies this`freeLinks, this`free
      ensures View() == TakeFree(old(View()), i)
    {
      if prev != 0 {
        freeLinks := freeLinks[prev := freeLinks[off]];
      } else {
        freeLinks := freeLinks[FREE_HEAD := freeLinks[off]];
      }
      freeLinks := freeLinks[off := 0];
      free := Without(free, i);
    }

    /** Put a block at the front of the free list. */
    method PushFree(b: nat)
      requires FREE_HEAD in freeLinks
      modifies this`freeLinks, this`free
      ensures View() == Release(old(View()), b)
    {
      freeLinks := freeLinks[b := freeLinks[FREE_HEAD]];
      freeLinks := freeLinks[FREE_HEAD := b];
      free := [b] + free;
    }

    /** Give an entry's block back and take it off the byte and deadline counters. */
    method EntryFree(e: nat, s: nat)
      requires e in cells && BLOCK <= e && e - BLOCK in caps && FREE_HEAD in freeLinks && s < |mems|
      modifies this`freeLinks, this`cells, this`total, this`ttl, this`mems, this`free
      ensures View() == Release(Uncounted(old(View()), e, s), e - BLOCK)
    {
      hide Release;
      var bytes := caps[e - BLOCK];
      if cells[e].exp != 0 { ttl := ttl - 1; }
      cells := cells - {e};
      mems := mems[s := mems[s] - bytes];
      total := total - bytes;
      PushFree(e - BLOCK);
    }

    /** Unlink the entry a chain word refers to and free it: the writes. */
    method Detach(link: nat, ghost i: nat, ghost p: nat)
      requires l.span > 0 && i < |chains| && p < |chains[i]| && link == Slot(l.Head(i), chains[i], p)
      requires link in links && links[link] == chains[i][p] && links[link] in links && links[link] in cells
      requires BLOCK <= links[link] && links[link] - BLOCK in caps && FREE_HEAD in freeLinks
      requires l.ShardOf(cells[links[link]].hash) < |counts| && |counts| == |mems|
      requires counts[l.ShardOf(cells[links[link]].hash)] > 0
      modifies this`freeLinks, this`links, this`cells, this`total, this`ttl, this`counts, this`mems, this`free,
               this`chains, this`index
      ensures View() == Release(Unlink(l, old(View()), i, p), old(links[link]) - BLOCK)
    {
      hide Layout.ShardOf, Layout.BucketOf, Layout.Head;
      var e := links[link];
      ghost var key := cells[e].key;
      var s := l.ShardOf(cells[e].hash);
      links := links[link := links[e]];
      EntryFree(e, s);
      if counts[s] != 0 { counts := counts[s := counts[s] - 1]; }
      chains := chains[i := Without(chains[i], p)];
      index := index - {key};
    }

    /** Remove the entry a chain word refers to. */
    method RemoveLocked(link: nat, ghost i: nat, ghost p: nat)
      requires Valid() && i < |chains| && p < |chains[i]| && link == Slot(l.Head(i), chains[i], p)
      modifies this`freeLinks, this`links, this`cells, this`total, this`ttl, this`counts, this`mems, this`free,
               this`chains, this`index
      ensures old(chains[i][p]) in old(cells)
      ensures Valid() && Map() == old(Map()) - {old(cells)[old(chains[i][p])].key}
      ensures |index| == |old(index)| - 1 && |chains| == |old(chains)| && chains[i] == Without(old(chains[i]), p)
      ensures cells == old(cells) - {old(chains[i][p])}
    {
      hide Ok, Unlink, Release, Contents, Indexed, Layout.ShardOf, Layout.Head, Layout.BucketOf;
      ghost var was := View();
      Removable(l, hash, was, i, p);
      Detach(link, i, p);
      UnlinkShape(l, was, i, p, View());
      RemoveKeeps(l, hash, was, i, p, View());
    }

    /** Walk the key's chain to its entry, or to the word that ends the chain. */
    method Scan(key: Long) returns (link: nat, ghost i: nat, ghost p: nat)
      requires Valid()
      ensures i == l.BucketOf(hash(key)) < |chains| && p <= |chains[i]|
      ensures link == Slot(l.Head(i), chains[i], p) && link in links && links[link] == Ref(chains[i], p)
      ensures p < |chains[i]| <==> key in index
      ensures p < |chains[i]| ==> links[link] != 0 && links[link] in cells && cells[links[link]].key == key
      ensures p < |chains[i]| ==> index[key] == links[link]
      ensures p == |chains[i]| <==> links[link] == 0
    {
      hide Placed, Tallied, LiveMap, Chain, Conserved, FreeBytes, Layout.Ok, Proper, FreeListed, Chained, Owned,
           Indexed,
           Layout.ShardOf, Layout.BucketOf, Layout.Head, Celled, CellOk;
      var h := hash(key);
      HasBucket(l, hash, View(), key);
      i, p := l.BucketOf(h), 0;
      link := l.Head(l.BucketOf(h));
      ChainAt(l, hash, View(), i, p);
      while links[link] != 0
        invariant p <= |chains[i]| && link == Slot(l.Head(i), chains[i], p) && link in links
        invariant links[link] == Ref(chains[i], p)
        invariant forall q :: 0 <= q < p ==> chains[i][q] in cells && cells[chains[i][q]].key != key
        decreases |chains[i]| - p
      {
        var e := links[link];
        FoundKey(l, hash, View(), i, p);
        if cells[e].hash == h && cells[e].key == key { return; }
        ChainAt(l, hash, View(), i, p + 1);
        link, p := e, p + 1;
      }
      NotChained(l, hash, View(), key);
    }

    /** Fill a new block's entry, point a chain word at it and count its bytes. */
    method Occupy(link: nat, e: nat, c: Cell, next: nat, s: nat)
      requires e > BLOCK && e - BLOCK in caps && s < |mems|
      modifies this`links, this`cells, this`total, this`ttl, this`mems
      ensures View() == old(View()).(links := old(links)[e := next][link := e], cells := old(cells)[e := c],
        ttl := old(ttl) + (if c.exp != 0 then 1 else 0), total := old(total) + caps[e - BLOCK],
        mems := old(mems)[s := old(mems)[s] + caps[e - BLOCK]])
    {
      links := links[e := next];
      cells := cells[e := c];
      if c.exp != 0 { ttl := ttl + 1; }
      links := links[link := e];
      var bytes := caps[e - BLOCK];
      mems := mems[s := mems[s] + bytes];
      total := total + bytes;
    }

    /** Fill a new block's entry and chain it where the walk ended. */
    method AppendEntry(link: nat, e: nat, c: Cell)
      requires l.span > 0 && e > BLOCK && e - BLOCK in caps && l.BucketOf(c.hash) < |chains| && link in links
      requires links[link] == 0
      requires link == Slot(l.Head(l.BucketOf(c.hash)), chains[l.BucketOf(c.hash)], |chains[l.BucketOf(c.hash)]|)
      requires l.ShardOf(c.hash) < |counts| && |counts| == |mems|
      modifies this`links, this`cells, this`total, this`ttl, this`counts, this`mems, this`chains, this`index
      ensures View() == Link(l, old(View()), e - BLOCK, c)
    {
      hide Layout.ShardOf, Layout.BucketOf, Layout.Head;
      ghost var i := l.BucketOf(c.hash);
      var s := l.ShardOf(c.hash);
      Occupy(link, e, c, links[link], s);
      counts := counts[s := counts[s] + 1];
      chains := chains[i := chains[i] + [e]];
      index := index[c.key := e];
    }

    /** Fill a new block's entry, chain it in an entry's place, and free that one. */
    method ReplaceEntry(link: nat, e: nat, c: Cell, ghost p: nat)
      requires l.span > 0 && e > BLOCK && e - BLOCK in caps && l.BucketOf(c.hash) < |chains|
      requires p < |chains[l.BucketOf(c.hash)]|
      requires link == Slot(l.Head(l.BucketOf(c.hash)), chains[l.BucketOf(c.hash)], p) && FREE_HEAD in freeLinks
      requires link in links && links[link] == chains[l.BucketOf(c.hash)][p] && links[link] in links
      requires links[link] in cells && e !in cells
      requires BLOCK <= links[link] && links[link] - BLOCK in caps && l.ShardOf(c.hash) < |counts| && |counts| == |mems|
      modifies this`freeLinks, this`links, this`cells, this`total, this`ttl, this`mems, this`free, this`chains,
               this`index
      ensures View() == Release(Swap(l, old(View()), e - BLOCK, p, c), old(links[link]) - BLOCK)
    {
      hide Layout.ShardOf, Layout.BucketOf, Layout.Head;
      ghost var i := l.BucketOf(c.hash);
      var s := l.ShardOf(c.hash);
      var gone := links[link];
      Occupy(link, e, c, links[gone], s);
      EntryFree(gone, s);
      chains := chains[i := SetAt(chains[i], p, e)];
      index := index[c.key := e];
      assert cells == (old(cells) - {gone})[e := c];
    }

    /** Write a value and deadline into an entry whose block has room. */
    method RewriteEntry(e: nat, value: Long, exp: u32)
      requires e in cells
      modifies this`cells, this`ttl
      ensures View() == Overwrite(old(View()), e, value, exp)
    {
      if cells[e].exp == 0 && exp != 0 {
        ttl := ttl + 1;
      } else if cells[e].exp != 0 && exp == 0 {
        ttl := ttl - 1;
      }
      cells := cells[e := cells[e].(value := value, exp := exp)];
    }

    /** The locked part of a put: rewrite in place when the block has room, else take a new block. */
    method PutLocked(key: Long, value: Long, exp: u32) returns (ok: bool, inPlace: bool)
      requires Valid()
      modifies this`freeLinks, this`caps, this`links, this`cells, this`bump, this`claimed, this`total, this`ttl,
               this`counts, this`mems,
               this`free, this`chains, this`index
      ensures Valid() && Map() == if ok then old(Map())[key := Item(value, exp)] else old(Map())
      ensures ok <==> old(Roomy(View(), key, value)) || old(Fits(l, View(), NeedOf(ENTRY + |key| + |value|).value))
      ensures inPlace <==> old(Roomy(View(), key, value))
      ensures !ok ==> View() == old(View())
    {
      hide Ok, Contents, Layout.ShardOf, Layout.BucketOf, Layout.Head, Fits, NeedOf, Given, Release, Swap, Link,
           Overwrite, Chain, Proper;
      var link, i, p := Scan(key);
      var size := ENTRY + |key| + |value|;
      var h := hash(key);
      var c := Cell(h, key, value, exp);
      ghost var was := View();
      Basics(l, hash, was);
      if links[link] != 0 {
        var e := links[link];
        if size <= caps[e - BLOCK] - BLOCK {
          OverwriteKeeps(l, hash, was, i, p, value, exp);
          OverwriteContents(was, e, value, exp);
          RewriteEntry(e, value, exp);
          return true, true;
        }
        var f := HeapAlloc(size);
        if f == 0 { return false, false; }
        AllocKeeps(l, hash, was, View(), f - BLOCK, size);
        Swappable(l, hash, View(), f - BLOCK, p, c);
        ReplaceEntry(link, f, c, p);
        return true, false;
      }
      var f := HeapAlloc(size);
      if f == 0 { return false, false; }
      AllocKeeps(l, hash, was, View(), f - BLOCK, size);
      Linkable(l, hash, View(), f - BLOCK, c);
      AppendEntry(link, f, c);
      return true, false;
    }

    /** Look a key up at time `now`; from its deadline on, an entry is not found and removed. */
    method Get(key: Long, now: u32) returns (r: Option<Long>)
      requires Valid()
      modifies this
      ensures Valid()
      ensures key in old(Map()) && (old(Map())[key].exp == 0 || now < old(Map())[key].exp) ==>
        r == Some(old(Map())[key].value) && Map() == old(Map())
      ensures key in old(Map()) && 0 < old(Map())[key].exp <= now ==> r == None && Map() == old(Map()) - {key}
      ensures key !in old(Map()) ==> r == None && Map() == old(Map())
      ensures budget == old(budget) && evicted == old(evicted) && (r.Some? ==> View() == old(View()))
      ensures expired == old(expired) + (if key in old(Map()) && r.None? then 1 else 0)
    {
      hide Ok, Layout.ShardOf, Layout.BucketOf, Layout.Head, Chain, Proper;
      Basics(l, hash, View());
      var link, i, p := Scan(key);
      if links[link] == 0 { return None; }
      var c := cells[links[link]];
      if Expired(c.exp, now) {
        RemoveLocked(link, i, p);
        expired := expired + 1;
        return None;
      }
      return Some(c.value);
    }

    method Delete(key: Long) returns (found: bool)
      requires Valid()
      modifies this
      ensures Valid() && found == (key in old(Map())) && Map() == old(Map()) - {key} && budget == old(budget)
      ensures expired == old(expired) && evicted == old(evicted)
    {
      hide Ok, Layout.ShardOf, Layout.BucketOf, Layout.Head, Chain, Proper;
      Basics(l, hash, View());
      var link, i, p := Scan(key);
      found := links[link] != 0;
      if found {
        RemoveLocked(link, i, p);
      } else {
        assert Map() - {key} == Map();
      }
    }

    /** Remove the first entry of the first bucket in use, probing one shard's buckets from a random one. */
    method EvictOne(s: nat, at: nat)
      requires Valid() && s < l.shards && at < BUCKETS && s < |counts|
      modifies this
      ensures Valid() && Submap(Map(), old(Map())) && budget == old(budget) && expired == old(expired)
      ensures evicted == old(evicted) + (if old(counts)[s] == 0 then 0 else 1)
      ensures |index| + evicted == |old(index)| + old(evicted)
    {
      hide Ok, Layout.ShardOf, Layout.BucketOf, Layout.Head, Chain, Proper, Contents, Indexed;
      Basics(l, hash, View());
      HasShards(l, hash, View());
      if counts[s] == 0 { return; }
      var probe := 0;
      while probe < BUCKETS
        invariant View() == old(View()) && budget == old(budget) && evicted == old(evicted) && probe <= BUCKETS
        invariant expired == old(expired)
        invariant forall q :: 0 <= q < probe ==> chains[s * BUCKETS + Probed(at, q)] == []
      {
        var b := Probed(at, probe);
        ghost var i := s * BUCKETS + b;
        ChainAt(l, hash, View(), i, 0);
        if links[l.Head(s * BUCKETS + b)] != 0 {
          RemoveLocked(l.Head(s * BUCKETS + b), i, 0);
          evicted := evicted + 1;
          return;
        }
        probe := probe + 1;
      }
      AllProbed(l, hash, View(), s, at);
    }

    // ---- the expiry sweep ----

    /** Remove the entry a chain word refers to if it is expired, or else move on to that entry's own word. */
    method SweepStep(link: nat, ghost i: nat, ghost p: nat, now: u32, ghost before: map<Long, Item>)
      returns (next: nat, ghost q: nat)
      requires Valid() && i < |chains| && p < |chains[i]| && link == Slot(l.Head(i), chains[i], p) && l.span > 0
      requires Trimmed(l, hash, before, Map(), i, now) && NoneStale(View(), i, p, now)
      modifies this`freeLinks, this`links, this`cells, this`total, this`ttl, this`counts, this`mems, this`free,
               this`chains, this`index, this`expired
      ensures Valid() && |chains| == |old(chains)| && q <= |chains[i]| && next == Slot(l.Head(i), chains[i], q)
      ensures |chains[i]| - q == |old(chains)[i]| - p - 1
      ensures Trimmed(l, hash, before, Map(), i, now) && NoneStale(View(), i, q, now)
      ensures |index| + expired == |old(index)| + old(expired)
    {
      hide Ok, Layout.ShardOf, Layout.BucketOf, Layout.Head, Chain, Proper, Contents, Indexed, Expired, Trimmed,
        NoneStale;
      ChainAt(l, hash, View(), i, p);
      var e := links[link];
      ghost var was := View();
      InChain(l, hash, was, i, p);
      if Expired(cells[e].exp, now) {
        RemoveLocked(link, i, p);
        expired := expired + 1;
        TrimOne(l, hash, before, was, i, p, now);
        StaleWithout(was, View(), i, p, now);
        return link, p;
      }
      StaleNext(was, i, p, now);
      return e, p + 1;
    }

    /** Remove the expired entries of one bucket's chain. */
    method SweepBucket(i: nat, now: u32)
      requires Valid() && i < |chains|
      modifies this`freeLinks, this`links, this`cells, this`total, this`ttl, this`counts, this`mems, this`free,
               this`chains, this`index, this`expired
      ensures Valid() && |chains| == |old(chains)| && l.span > 0
      ensures Map() == Rid(l, hash, old(Map()), i, now) && |index| + expired == |old(index)| + old(expired)
    {
      hide Ok, Layout.ShardOf, Layout.BucketOf, Layout.Head, Chain, Proper, Contents, Indexed, Expired, Trimmed,
        NoneStale, Rid;
      Basics(l, hash, View());
      ghost var before := Map();
      ghost var p: nat := 0;
      var link := l.Head(i);
      Untrimmed(l, hash, View(), i, now);
      ChainAt(l, hash, View(), i, 0);
      while links[link] != 0
        invariant Valid() && |chains| == |old(chains)| && p <= |chains[i]| && link == Slot(l.Head(i), chains[i], p)
        invariant link in links && links[link] == Ref(chains[i], p) && 0 !in chains[i]
        invariant Trimmed(l, hash, before, Map(), i, now) && NoneStale(View(), i, p, now)
        invariant |index| + expired == |old(index)| + old(expired)
        decreases |chains[i]| - p
      {
        link, p := SweepStep(link, i, p, now, before);
        ChainAt(l, hash, View(), i, p);
      }
      assert p == |chains[i]|;
      Basics(l, hash, View());
      Trims(l, hash, before, View(), i, now);
    }

    /** Draw tickets and remove the expired entries of the buckets they name; with no deadlines at all, do nothing.
        A key is gone exactly if its deadline has come and a ticket named its bucket. */
    method SweepExpired(work: nat, now: u32)
      requires Valid()
      modifies this
      ensures Valid() && l.span > 0 && l.shards > 0
      ensures Map() == Swept(l, hash, old(Map()), old(cursor), work, now)
      ensures forall k :: k in Map() ==> k in old(Map()) && Map()[k] == old(Map())[k]
      ensures forall k :: k in old(Map()) ==>
        (k !in Map() <==> 0 < old(Map())[k].exp <= now && Reaches(l, old(cursor), work, l.BucketOf(hash(k))))
      ensures |index| + expired == |old(index)| + old(expired)
      ensures cursor == Tick(old(cursor), if old(ttl) == 0 then 0 else work)
      ensures budget == old(budget) && evicted == old(evicted)
    {
      hide Ok, Layout.ShardOf, Layout.BucketOf, Contents, Indexed, Swept, Rid, Tick, TicketBucket, Layout.Ok;
      LayoutIsOk(l, hash, View());
      TicketInRange(l, 0);
      SweptKeeps(l, hash, Map(), cursor, work, now);
      TickStarts(cursor);
      if ttl == 0 {
        NoDeadlines(l, hash, View());
        SweptIdle(l, hash, Map(), cursor, work, now);
        return;
      }
      SweptNone(l, hash, Map(), cursor, now);
      for n := 0 to work
        invariant Valid() && cursor == Tick(old(cursor), n)
        invariant Map() == Swept(l, hash, old(Map()), old(cursor), n, now)
        invariant |index| + expired == |old(index)| + old(expired) && budget == old(budget) && evicted == old(evicted)
      {
        var ticket := cursor;
        cursor := Tick(cursor, 1);
        TickNext(old(cursor), n);
        TicketInRange(l, ticket);
        HasChains(l, hash, View());
        SweptNext(l, hash, old(Map()), old(cursor), n, now);
        SweepBucket(TicketBucket(l, ticket), now);
      }
    }

    /** Evict until the bytes in use are within the budget or the work is used up; `random` is the generator's
        stream, read from `from` on. Over budget, the first shard drawn gives up an entry if it has one. */
    method EvictUnderBudget(work: nat, random: nat -> u64, from: nat) returns (next: nat)
      requires Valid()
      modifies this
      ensures Valid() && Submap(Map(), old(Map())) && budget == old(budget) && expired == old(expired)
      ensures |index| + evicted == |old(index)| + old(evicted) && old(evicted) <= evicted <= old(evicted) + work
      ensures (budget == 0 || old(total) <= budget) ==> View() == old(View()) && next == from
      ensures 0 < budget < old(total) && 0 < work && old(Draws(View(), l, random, from)) ==> evicted > old(evicted)
    {
      hide Ok, Layout.ShardOf, Layout.BucketOf, Layout.Head, Chain, Proper, Contents, Indexed;
      Basics(l, hash, View());
      next := from;
      if budget == 0 { return; }
      for n := 0 to work
        invariant if n == 0 then View() == old(View()) && next == from else old(total) > budget
        invariant Valid() && Submap(Map(), old(Map())) && budget == old(budget) && expired == old(expired)
        invariant |index| + evicted == |old(index)| + old(evicted) && old(evicted) <= evicted <= old(evicted) + n
        invariant n > 0 && old(Draws(View(), l, random, from)) ==> evicted > old(evicted)
      {
        if total <= budget { return; }
        HasShards(l, hash, View());
        InShards(l, hash, View(), random(next) % 0x1_0000_0000);
        var s := l.ShardOf(random(next) % 0x1_0000_0000);
        next := next + 1;
        if counts[s] != 0 {
          EvictOne(s, random(next) % BUCKETS);
          next := next + 1;
        }
      }
    }

    /** Insert or overwrite; with a budget, evict before over it and after a new block took the bytes past it.
        An entry rewritten where it is never evicts. */
    method Put(key: Long, value: Long, exp: u32, random: nat -> u64)
      returns (ok: bool, ghost seen: map<Long, Item>)
      requires Valid()
      modifies this
      ensures Valid() && budget == old(budget)
      ensures Submap(seen, old(Map())) && (budget == 0 || old(total) < budget ==> seen == old(Map()))
      ensures Submap(Map(), if ok then seen[key := Item(value, exp)] else seen)
      ensures |Map()| + evicted == |old(Map())| + old(evicted) + (if ok && key !in seen then 1 else 0)
      ensures old(evicted) <= evicted <= old(evicted) + 6 * l.shards
      ensures budget == 0 ==> Map() == if ok then old(Map())[key := Item(value, exp)] else old(Map())
      ensures old(total) < budget && (!ok || old(Roomy(View(), key, value))) ==>
        Map() == if ok then old(Map())[key := Item(value, exp)] else old(Map())
      ensures (budget == 0 || old(total) < budget) && !ok ==> View() == old(View())
      ensures budget == 0 || old(total) < budget ==>
        (ok <==> old(Roomy(View(), key, value)) || old(Fits(l, View(), NeedOf(ENTRY + |key| + |value|).value)))
    {
      hide Ok, Contents, Indexed, Fits, NeedOf, Roomy;
      Basics(l, hash, View());
      SizeOf(View());
      var next := 0;
      if budget != 0 && total >= budget { next := EvictUnderBudget(l.shards * 2, random, 0); }
      seen := Map();
      Basics(l, hash, View());
      SizeOf(View());
      var inPlace;
      ok, inPlace := PutLocked(key, value, exp);
      PutSize(seen, key, Item(value, exp));
      Basics(l, hash, View());
      SizeOf(View());
      if ok && !inPlace && budget != 0 && total > budget { next := EvictUnderBudget(l.shards * 4, random, next); }
      Basics(l, hash, View());
      SizeOf(View());
    }
  }

  lemma SizeOf(r: Region)
    requires Indexed(r.index, r.cells)
    ensures |Contents(r)| == |r.index|
  {
    hide Indexed;
    assert Contents(r).Keys == r.index.Keys;
  }

  lemma PutSize(m: map<Long, Item>, key: Long, x: Item)
    ensures |m[key := x]| == |m| + (if key in m then 0 else 1)
  {
    assert m[key := x].Keys == m.Keys + {key};
    if key in m { assert m[key := x].Keys == m.Keys; }
  }

  // ---- what a sweep of one chain keeps ----

  /** What is left is as it was, and what is gone was expired and in chain `i`. */
  ghost predicate Trimmed(l: Layout, hash: Long -> u32, before: map<Long, Item>, after: map<Long, Item>, i: nat,
                          now: u32)
    requires l.span > 0
  {
    && (forall k :: k in after ==> k in before && after[k] == before[k])
    && (forall k :: k in before && k !in after ==> Expired(before[k].exp, now) && l.BucketOf(hash(k)) == i)
  }

  /** None of the first `p` entries of the chain is expired. */
  ghost predicate NoneStale(r: Region, i: nat, p: nat, now: u32) {
    && i < |r.chains| && p <= |r.chains[i]|
    && forall q :: 0 <= q < p ==> r.chains[i][q] in r.cells && !Expired(r.cells[r.chains[i][q]].exp, now)
  }

  lemma Untrimmed(l: Layout, hash: Long -> u32, r: Region, i: nat, now: u32)
    requires Ok(l, hash, r, 0) && l.span > 0 && Indexed(r.index, r.cells) && i < |r.chains|
    ensures Trimmed(l, hash, Contents(r), Contents(r), i, now) && NoneStale(r, i, 0, now)
  {
    hide Ok, Contents, Indexed;
  }

  lemma InChain(l: Layout, hash: Long -> u32, r: Region, i: nat, p: nat)
    requires Ok(l, hash, r, 0) && i < |r.chains| && p < |r.chains[i]|
    ensures var e := r.chains[i][p]; e in r.cells && r.cells[e].key in r.index && r.index[r.cells[e].key] == e
    ensures l.span > 0 && l.BucketOf(hash(r.cells[r.chains[i][p]].key)) == i && Indexed(r.index, r.cells)
  {
    hide Placed, FreeListed, Celled, Owned, Tallied, LiveMap, Conserved, Layout.BucketOf, Chain, Proper;
    FoundKey(l, hash, r, i, p);
    assert ChainOk(l, r.links, i, r.chains[i], r.cells);
  }

  lemma TrimOne(l: Layout, hash: Long -> u32, before: map<Long, Item>, was: Region, i: nat, p: nat, now: u32)
    requires Ok(l, hash, was, 0) && l.span > 0 && Indexed(was.index, was.cells)
    requires i < |was.chains| && p < |was.chains[i]| && was.chains[i][p] in was.cells
    requires var c := was.cells[was.chains[i][p]]; c.key in was.index && Expired(c.exp, now)
    requires Trimmed(l, hash, before, Contents(was), i, now)
    ensures Trimmed(l, hash, before, Contents(was) - {was.cells[was.chains[i][p]].key}, i, now)
  {
    hide Ok, Layout.BucketOf, Expired;
    InChain(l, hash, was, i, p);
  }

  lemma StaleWithout(was: Region, r: Region, i: nat, p: nat, now: u32)
    requires NoneStale(was, i, p, now) && p < |was.chains[i]| && |r.chains| == |was.chains|
    requires r.chains[i] == Without(was.chains[i], p) && r.cells == was.cells - {was.chains[i][p]}
    requires was.chains[i][p] in was.cells && Expired(was.cells[was.chains[i][p]].exp, now)
    ensures NoneStale(r, i, p, now) && |r.chains[i]| == |was.chains[i]| - 1
  {
    hide Expired;
  }

  lemma StaleNext(r: Region, i: nat, p: nat, now: u32)
    requires NoneStale(r, i, p, now) && p < |r.chains[i]|
    requires r.chains[i][p] in r.cells && !Expired(r.cells[r.chains[i][p]].exp, now)
    ensures NoneStale(r, i, p + 1, now)
  {
    hide Expired;
  }

  /** A chain without expired entries and a map that lost only expired ones of it: the bucket was swept. */
  lemma Trims(l: Layout, hash: Long -> u32, before: map<Long, Item>, r: Region, i: nat, now: u32)
    requires Ok(l, hash, r, 0) && l.span > 0 && i < |r.chains| && Indexed(r.index, r.cells)
    requires Trimmed(l, hash, before, Contents(r), i, now) && NoneStale(r, i, |r.chains[i]|, now)
    ensures Contents(r) == Rid(l, hash, before, i, now)
  {
    hide Ok, Layout.BucketOf, Expired;
    forall k | k in Contents(r) && l.BucketOf(hash(k)) == i
      ensures !Expired(Contents(r)[k].exp, now)
    {
      var j, p := KeyHasOnePlace(l, hash, r, k);
      assert KeyAt(r, j, p, k);
    }
  }

  lemma LayoutIsOk(l: Layout, hash: Long -> u32, r: Region)
    requires Ok(l, hash, r, 0)
    ensures l.Ok() && Indexed(r.index, r.cells)
  {
    hide Placed, FreeListed, Chained, Celled, Indexed, Owned, Tallied, Layout.Ok;
  }

  lemma HasChains(l: Layout, hash: Long -> u32, r: Region)
    requires Ok(l, hash, r, 0)
    ensures |r.chains| == l.shards * BUCKETS
  {
    hide Placed, FreeListed, Celled, Indexed, Owned, Tallied, Layout.Ok, ChainOk;
  }

  /** The deadline counter is zero only when no key has a deadline. */
  lemma NoDeadlines(l: Layout, hash: Long -> u32, r: Region)
    requires Ok(l, hash, r, 0) && r.ttl == 0 && Indexed(r.index, r.cells)
    ensures forall k :: k in Contents(r) ==> Contents(r)[k].exp == 0
  {
    hide Ok, Contents, Indexed;
    DeadlinesCounted(l, hash, r);
    forall k | k in Contents(r) ensures Contents(r)[k].exp == 0 {
      assert k !in TtlKeys(Contents(r));
    }
  }

  /** The first shard the generator draws counts an entry. */
  ghost predicate Draws(r: Region, l: Layout, random: nat -> u64, from: nat) {
    l.span > 0 && var s := l.ShardOf(random(from) % 0x1_0000_0000); s < |r.counts| && r.counts[s] != 0
  }

  function Probed(at: nat, q: nat): (b: nat)
    ensures b < BUCKETS
  {
    (at + q) % BUCKETS
  }

  lemma ProbesCover(at: nat, b: nat) returns (q: nat)
    requires at < BUCKETS && b < BUCKETS
    ensures q < BUCKETS && Probed(at, q) == b
  {
    q := if at <= b then b - at else b + BUCKETS - at;
  }

  /** A shard whose buckets are all empty counts no entries. */
  lemma AllProbed(l: Layout, hash: Long -> u32, r: Region, s: nat, at: nat)
    requires Ok(l, hash, r, 0) && s < l.shards && at < BUCKETS && |r.chains| == l.shards * BUCKETS
    requires forall q :: 0 <= q < BUCKETS ==> r.chains[s * BUCKETS + Probed(at, q)] == []
    ensures s < |r.counts| && r.counts[s] == 0
  {
    hide Placed, FreeListed, Chained, Indexed, Owned, Conserved, Sum, Probed, CapInShard;
    var live := LiveMap(l, r.caps, r.cells);
    forall e | e in live ensures InShard(s)(e, live[e]) == 0 {
      assert CellOk(l, hash, r.caps, e, r.cells[e], r.chains);
      var q := ProbesCover(at, r.cells[e].hash % BUCKETS);
      assert r.chains[s * BUCKETS + Probed(at, q)] == [];
    }
    SumZero(live, InShard(s));
  }

  lemma HasShards(l: Layout, hash: Long -> u32, r: Region)
    requires Ok(l, hash, r, 0)
    ensures |r.counts| == l.shards && |r.chains| == l.shards * BUCKETS
  {
    hide Placed, FreeListed, Celled, Indexed, Owned, LiveMap, Conserved, Layout.BucketOf, Sum, InShard, CapInShard;
  }

  lemma InShards(l: Layout, hash: Long -> u32, r: Region, h: u32)
    requires Ok(l, hash, r, 0)
    ensures l.ShardOf(h) < l.shards
  {
    hide Placed, FreeListed, Chained, Celled, Indexed, Owned, LiveMap, Conserved, Layout.BucketOf, Tallied;
    BucketInRange(l, h);
  }

  /** The key has an entry whose block the new value fits. */
  ghost predicate Roomy(r: Region, key: Long, value: Long) {
    && key in r.index && BLOCK <= r.index[key] && r.index[key] - BLOCK in r.caps
    && ENTRY + |key| + |value| <= r.caps[r.index[key] - BLOCK] - BLOCK
  }

  lemma Basics(l: Layout, hash: Long -> u32, r: Region)
    requires Ok(l, hash, r, 0)
    ensures l.span > 0 && Indexed(r.index, r.cells)
    ensures forall e :: e in r.cells ==> BLOCK <= e && e - BLOCK in r.caps
    ensures forall b :: b in r.free ==> b in r.caps && b in r.freeLinks
  {
    hide Placed, Chained, Owned, Tallied, LiveMap, Chain, Conserved, FreeBytes, Layout.Ok, Proper, Layout.ShardOf,
         Layout.BucketOf, Layout.Head, Indexed;
    FreeHeadIn(r.freeLinks, r.free);
    assert forall e :: e in r.cells ==> CellOk(l, hash, r.caps, e, r.cells[e], r.chains);
  }

  /** An allocation that succeeds holds a block with room for what was asked, and changes nothing a caller sees. */
  lemma AllocKeeps(l: Layout, hash: Long -> u32, r: Region, q: Region, b: nat, size: u64)
    requires Ok(l, hash, r, 0) && ENTRY <= size <= UINT64_MAX - 31 && Fits(l, r, NeedOf(size).value)
    requires (forall b :: b in r.free ==> b in r.freeLinks) && (q, b) == Given(r, NeedOf(size).value)
    ensures Ok(l, hash, q, b) && b in q.caps && size <= q.caps[b] - BLOCK && b != 0
    ensures q.index == r.index && q.cells == r.cells && q.chains == r.chains && q.links == r.links
    ensures Contents(q) == Contents(r)
  {
    hide Ok, AlignUp, FirstFit;
    Basics(l, hash, r);
    NeedCovers(size);
    GivenKeeps(l, hash, r, NeedOf(size).value);
  }

  /** A new key in a held block: the region stays sound and the map gains the key. */
  lemma Linkable(l: Layout, hash: Long -> u32, r: Region, held: nat, c: Cell)
    requires held != 0 && Ok(l, hash, r, held) && c.hash == hash(c.key) && c.key !in r.index
    requires Size(c) <= r.caps[held] - BLOCK
    ensures l.BucketOf(c.hash) < |r.chains| && l.ShardOf(c.hash) < |r.counts| && |r.counts| == |r.mems|
    ensures Ok(l, hash, Link(l, r, held, c), 0)
    ensures Contents(Link(l, r, held, c)) == Contents(r)[c.key := Item(c.value, c.exp)]
  {
    hide Placed, Chained, Celled, Owned, Tallied, LiveMap, Chain, Conserved, FreeBytes, Layout.Ok, Proper,
         Layout.ShardOf, Layout.BucketOf,
         Layout.Head, Contents, Indexed, FreeListed;
    Ready(l, hash, r, held, c.hash);
    LinkKeeps(l, hash, r, held, c);
    var q := Link(l, r, held, c);
    KeysKept(r.index, r.cells, q.cells, c.key, held + BLOCK);
    PutContents(r, q, c, held + BLOCK);
  }

  /** A key's entry replaced by one in a held block. */
  lemma Swappable(l: Layout, hash: Long -> u32, r: Region, held: nat, p: nat, c: Cell)
    requires held != 0 && Ok(l, hash, r, held) && c.hash == hash(c.key) && Size(c) <= r.caps[held] - BLOCK
    requires l.BucketOf(c.hash) < |r.chains| && p < |r.chains[l.BucketOf(c.hash)]|
    requires r.chains[l.BucketOf(c.hash)][p] in r.cells && r.cells[r.chains[l.BucketOf(c.hash)][p]].key == c.key
    ensures var was := r.chains[l.BucketOf(c.hash)][p]; was in r.links && BLOCK < was && was - BLOCK in r.caps
    ensures l.ShardOf(c.hash) < |r.counts| && |r.counts| == |r.mems| && FREE_HEAD in r.freeLinks
    ensures held in r.caps && held + BLOCK !in r.cells
    ensures var q := Release(Swap(l, r, held, p, c), r.chains[l.BucketOf(c.hash)][p] - BLOCK);
      Ok(l, hash, q, 0) && Contents(q) == Contents(r)[c.key := Item(c.value, c.exp)]
  {
    hide Placed, Chained, Celled, Owned, Tallied, LiveMap, Chain, Conserved, FreeBytes, Layout.Ok, Proper,
         Layout.ShardOf, Layout.BucketOf,
         Layout.Head, Contents, Indexed;
    Ready(l, hash, r, held, c.hash);
    Found(l, hash, r, held, l.BucketOf(c.hash), p);
    FreeHeadIn(r.freeLinks, r.free);
    SwapKeeps(l, hash, r, held, p, c);
    var was := r.chains[l.BucketOf(c.hash)][p];
    ReleaseKeeps(l, hash, Swap(l, r, held, p, c), was - BLOCK);
    var q := Release(Swap(l, r, held, p, c), was - BLOCK);
    KeysKept(r.index, r.cells, q.cells, c.key, held + BLOCK);
    PutContents(r, q, c, held + BLOCK);
  }

  function SetAt(s: seq<nat>, p: nat, e: nat): seq<nat>
    requires p < |s|
  {
    s[p := e]
  }

  /** Every other key's entry is untouched. */
  lemma KeysKept(index: map<Long, nat>, cells: map<nat, Cell>, now: map<nat, Cell>, key: Long, e: nat)
    requires Indexed(index, cells) && e !in cells
    requires forall x :: x in cells && cells[x].key != key ==> x in now && (now[x] == cells[x] || x == e)
    ensures forall k :: k in index && k != key ==> index[k] in now && now[index[k]] == cells[index[k]]
  {
  }

  lemma HasBucket(l: Layout, hash: Long -> u32, r: Region, key: Long)
    requires Ok(l, hash, r, 0)
    ensures l.BucketOf(hash(key)) < |r.chains|
  {
    hide Placed, FreeListed, Celled, Indexed, Owned, Tallied, LiveMap, Conserved, Layout.BucketOf;
    BucketInRange(l, hash(key));
  }

  lemma FoundKey(l: Layout, hash: Long -> u32, r: Region, i: nat, p: nat)
    requires Ok(l, hash, r, 0) && i < |r.chains| && p < |r.chains[i]|
    ensures var e := r.chains[i][p];
      e in r.cells && r.cells[e].hash == hash(r.cells[e].key)
      && r.cells[e].key in r.index && r.index[r.cells[e].key] == e
  {
    hide Placed, FreeListed, Chained, Celled, Owned, Tallied, LiveMap, Conserved, Layout.BucketOf;
    Found(l, hash, r, 0, i, p);
  }

  lemma NotChained(l: Layout, hash: Long -> u32, r: Region, key: Long)
    requires Ok(l, hash, r, 0) && l.BucketOf(hash(key)) < |r.chains|
    requires forall e :: e in r.chains[l.BucketOf(hash(key))] ==> e in r.cells && r.cells[e].key != key
    ensures key !in r.index
  {
    hide Placed, FreeListed, Chained, Owned, Tallied, LiveMap, Conserved, Layout.BucketOf;
    assert forall e :: e in r.cells ==> CellOk(l, hash, r.caps, e, r.cells[e], r.chains);
  }

  lemma Shrinks(index: map<Long, nat>, key: Long)
    requires key in index
    ensures |index - {key}| == |index| - 1
  {
    assert (index - {key}).Keys == index.Keys - {key};
    assert |index.Keys - {key}| == |index.Keys| - 1;
  }

  lemma ChainAt(l: Layout, hash: Long -> u32, r: Region, i: nat, p: nat)
    requires Ok(l, hash, r, 0) && i < |r.chains| && p <= |r.chains[i]|
    ensures Slot(l.Head(i), r.chains[i], p) in r.links
    ensures r.links[Slot(l.Head(i), r.chains[i], p)] == Ref(r.chains[i], p) && 0 !in r.chains[i]
  {
    hide Placed, FreeListed, Celled, Indexed, Owned, Tallied, LiveMap, Conserved, Layout.BucketOf;
    assert ChainOk(l, r.links, i, r.chains[i], r.cells);
  }

  /** What a chained entry's removal needs is there, and its counters do not run below zero. */
  lemma Removable(l: Layout, hash: Long -> u32, r: Region, i: nat, p: nat)
    requires Ok(l, hash, r, 0) && i < |r.chains| && p < |r.chains[i]|
    ensures var e, link := r.chains[i][p], Slot(l.Head(i), r.chains[i], p);
      && link in r.links && r.links[link] == e && e in r.links && e in r.cells && BLOCK < e && e - BLOCK in r.caps
      && l.span > 0 && l.ShardOf(r.cells[e].hash) < |r.counts| && |r.counts| == |r.mems| && FREE_HEAD in r.freeLinks
      && r.counts[l.ShardOf(r.cells[e].hash)] > 0 && r.cells[e].key in r.index && Indexed(r.index, r.cells)
  {
    hide Placed, Chained, Celled, Owned, Tallied, LiveMap, Chain, Conserved, FreeBytes, Layout.Ok, Proper,
         Layout.ShardOf, Layout.BucketOf,
         Layout.Head;
    var e := r.chains[i][p];
    Found(l, hash, r, 0, i, p);
    ChainAt(l, hash, r, i, p);
    FreeHeadIn(r.freeLinks, r.free);
    SomeRoom(l, r.caps, r.bump);
    LiveAt(l, r.caps, r.cells, e);
    TallyRemove(l, LiveMap(l, r.caps, r.cells), e, r.total, r.ttl, r.counts, r.mems);
  }

  /** After the removal the region is sound and the map has lost the key. */
  lemma UnlinkShape(l: Layout, r: Region, i: nat, p: nat, q: Region)
    requires l.span > 0 && i < |r.chains| && p < |r.chains[i]|
    requires var e := r.chains[i][p]; e in r.links && e in r.cells && BLOCK <= e && e - BLOCK in r.caps
    requires l.ShardOf(r.cells[r.chains[i][p]].hash) < |r.counts| && |r.counts| == |r.mems| && FREE_HEAD in r.freeLinks
    requires q == Release(Unlink(l, r, i, p), r.chains[i][p] - BLOCK)
    ensures |q.chains| == |r.chains| && q.chains[i] == Without(r.chains[i], p) && q.cells == r.cells - {r.chains[i][p]}
  {
    hide Layout.ShardOf, Layout.Head;
  }

  lemma RemoveKeeps(l: Layout, hash: Long -> u32, r: Region, i: nat, p: nat, q: Region)
    requires l.span > 0 && i < |r.chains| && p < |r.chains[i]|
    requires var e := r.chains[i][p];
      e in r.links && e in r.cells && BLOCK <= e && e - BLOCK in r.caps && r.cells[e].key in r.index
    requires l.ShardOf(r.cells[r.chains[i][p]].hash) < |r.counts| && |r.counts| == |r.mems| && FREE_HEAD in r.freeLinks
    requires q == Release(Unlink(l, r, i, p), r.chains[i][p] - BLOCK)
    requires Ok(l, hash, r, 0)
    ensures Ok(l, hash, q, 0)
    ensures Contents(q) == Contents(r) - {r.cells[r.chains[i][p]].key} && |q.index| == |r.index| - 1
  {
    hide Placed, FreeListed, Chained, Celled, Owned, Tallied, LiveMap, Chain, Conserved, FreeBytes, Layout.Ok, Proper,
         Layout.ShardOf,
         Layout.BucketOf, Layout.Head, Contents, Indexed;
    var e := r.chains[i][p];
    UnlinkKeeps(l, hash, r, i, p);
    ReleaseKeeps(l, hash, Unlink(l, r, i, p), e - BLOCK);
    UnlinkContents(r, q, e);
    Shrinks(r.index, r.cells[e].key);
  }

  lemma NoZero(head: nat, s: seq<nat>)
    requires Proper(head, s)
    ensures 0 !in s && head !in s
  {
  }

  lemma LinkAt(w: map<nat, nat>, head: nat, s: seq<nat>, i: nat)
    requires Chain(w, head, s) && i <= |s|
    ensures Slot(head, s, i) in w && w[Slot(head, s, i)] == Ref(s, i)
  {
  }

  lemma NewOk(l: Layout, hash: Long -> u32, r: Region)
    requires l.Ok() && r.freeLinks == map[FREE_HEAD := 0] && r.caps == map[] && r.cells == map[] && r.index == map[]
    requires r.free == []
    requires forall i :: 0 <= i < l.shards * BUCKETS ==> l.Head(i) in r.links && r.links[l.Head(i)] == 0
    requires r.chains == seq(l.shards * BUCKETS, _ => []) && r.bump == l.start + l.shards * BUCKET_BYTES
    requires r.claimed == r.total == l.shards * BUCKET_BYTES && r.ttl == 0
    requires r.counts == seq(l.shards, _ => 0) && r.mems == seq(l.shards, _ => BUCKET_BYTES)
    ensures Ok(l, hash, r, 0)
  {
    hide Chained, Tallied, LiveMap, Placed;
    NewChained(l, r.links, r.chains, r.cells);
    NewTallied(l, r.caps, r.cells, r.total, r.counts, r.mems);
    NewPlaced(l, r.caps, r.bump);
    assert Slot(FREE_HEAD, r.free, 0) == FREE_HEAD;
  }

  lemma NewPlaced(l: Layout, caps: map<nat, nat>, bump: nat)
    requires l.Ok() && caps == map[] && bump == l.TableEnd()
    ensures Placed(l, caps, bump)
  {
    DivMod(l.start / ALIGN + 128 * l.shards, 0, ALIGN);
  }

  lemma NewChained(l: Layout, links: map<nat, nat>, chains: seq<seq<nat>>, cells: map<nat, Cell>)
    requires l.span > 0 && chains == seq(l.shards * BUCKETS, _ => []) && cells == map[]
    requires forall i :: 0 <= i < l.shards * BUCKETS ==> l.Head(i) in links && links[l.Head(i)] == 0
    ensures Chained(l, links, chains, cells)
  {
    hide Layout.Head, Layout.BucketOf;
    forall i | 0 <= i < |chains| ensures ChainOk(l, links, i, chains[i], cells) {
      assert l.Head(i) in links && chains[i] == [];
      assert forall k :: 0 <= k <= 0 ==> Slot(l.Head(i), [], k) == l.Head(i);
    }
  }

  lemma NewTallied(l: Layout, caps: map<nat, nat>, cells: map<nat, Cell>, total: int, counts: seq<int>, mems: seq<int>)
    requires l.span > 0 && cells == map[] && total == l.shards * BUCKET_BYTES
    requires counts == seq(l.shards, _ => 0) && mems == seq(l.shards, _ => BUCKET_BYTES)
    ensures Tallied(l, LiveMap(l, caps, cells), total, 0, counts, mems)
  {
    assert LiveMap(l, caps, cells) == map[];
  }

  // ---- what the counters and the places say ----

  ghost function CountBelow(counts: seq<int>, n: nat): int
    requires n <= |counts|
  {
    if n == 0 then 0 else CountBelow(counts, n - 1) + counts[n - 1]
  }

  function BelowShard(n: nat): (nat, Live) -> nat { (e, v: Live) => if v.shard < n then 1 else 0 }

  lemma {:induction false} CountsBelow(live: map<nat, Live>, counts: seq<int>, n: nat)
    requires n <= |counts| && forall s :: 0 <= s < |counts| ==> counts[s] == Sum(live, InShard(s))
    ensures CountBelow(counts, n) == Sum(live, BelowShard(n))
  {
    if n == 0 {
      SumZero(live, BelowShard(0));
    } else {
      CountsBelow(live, counts, n - 1);
      SumPlus(live, BelowShard(n - 1), InShard(n - 1), BelowShard(n));
    }
  }

  /** The shards' entry counts add up to the number of keys. */
  lemma CountsAddUp(l: Layout, hash: Long -> u32, r: Region)
    requires Ok(l, hash, r, 0)
    ensures |r.counts| == l.shards && CountBelow(r.counts, l.shards) == |Contents(r)|
  {
    hide Placed, FreeListed, Chained, Owned, Conserved, Sum, CapInShard, Celled, Layout.ShardOf, Layout.Ok;
    var live := LiveMap(l, r.caps, r.cells);
    CountsBelow(live, r.counts, l.shards);
    forall e | e in live ensures BelowShard(l.shards)(e, live[e]) == 1 {
      InShards(l, hash, r, r.cells[e].hash);
    }
    SumOnes(live, BelowShard(l.shards));
    assert live.Keys == r.cells.Keys && Contents(r).Keys == r.index.Keys;
    KeysCounted(r.index, r.cells);
  }

  ghost function TtlKeys(m: map<Long, Item>): set<Long> { set k | k in m && m[k].exp != 0 }

  ghost function CellTtl(e: nat, c: Cell): nat { if c.exp != 0 then 1 else 0 }

  ghost function IndexTtl(index: map<Long, nat>, cells: map<nat, Cell>): set<Long>
    requires Indexed(index, cells)
  {
    set k | k in index && cells[index[k]].exp != 0
  }

  lemma {:induction false} KeysCounted(index: map<Long, nat>, cells: map<nat, Cell>)
    requires Indexed(index, cells)
    ensures |index| == |cells| && Sum(cells, CellTtl) == |IndexTtl(index, cells)|
    decreases cells.Keys
  {
    hide Sum, Indexed;
    if cells == map[] {
      NoKeys(index, cells);
      SumZero(cells, CellTtl);
    } else {
      var e := Pick(cells);
      var k := cells[e].key;
      IndexDrop(index, cells, e);
      KeysCounted(index - {k}, cells - {e});
      SumRemove(cells, e, CellTtl);
      OneLess(index, cells, e);
    }
  }

  lemma NoKeys(index: map<Long, nat>, cells: map<nat, Cell>)
    requires Indexed(index, cells) && cells == map[]
    ensures |index| == 0 && IndexTtl(index, cells) == {}
  {
    assert index.Keys == {};
  }

  lemma OneLess(index: map<Long, nat>, cells: map<nat, Cell>, e: nat)
    requires Indexed(index, cells) && e in cells && Indexed(index - {cells[e].key}, cells - {e})
    ensures |index| == |index - {cells[e].key}| + 1 && |cells| == |cells - {e}| + 1
    ensures |IndexTtl(index, cells)| == |IndexTtl(index - {cells[e].key}, cells - {e})| + CellTtl(e, cells[e])
  {
    var k := cells[e].key;
    assert k in index && (index - {k}).Keys == index.Keys - {k} && (cells - {e}).Keys == cells.Keys - {e};
    hide IndexTtl, Indexed;
    TtlWithout(index, cells, e);
  }

  lemma TtlWithout(index: map<Long, nat>, cells: map<nat, Cell>, e: nat)
    requires Indexed(index, cells) && e in cells && Indexed(index - {cells[e].key}, cells - {e})
    ensures var k, b := cells[e].key, IndexTtl(index - {cells[e].key}, cells - {e});
      k !in b && IndexTtl(index, cells) == if cells[e].exp != 0 then b + {k} else b
  {
  }

  /** The deadline counter is the number of keys that have a deadline. */
  lemma DeadlinesCounted(l: Layout, hash: Long -> u32, r: Region)
    requires Ok(l, hash, r, 0)
    ensures r.ttl == |TtlKeys(Contents(r))|
  {
    hide Placed, FreeListed, Chained, Owned, Conserved, Sum, InShard, CapInShard, Celled, Layout.ShardOf, Layout.Ok;
    var live := LiveMap(l, r.caps, r.cells);
    SumAgree(live, r.cells, TtlOf, CellTtl);
    KeysCounted(r.index, r.cells);
    assert TtlKeys(Contents(r)) == IndexTtl(r.index, r.cells);
  }

  /** A key of the map is in exactly one place: once in the chain its hash selects, and in no other chain. */
  lemma KeyHasOnePlace(l: Layout, hash: Long -> u32, r: Region, k: Long) returns (i: nat, p: nat)
    requires Ok(l, hash, r, 0) && k in Contents(r)
    ensures i == l.BucketOf(hash(k)) < |r.chains| && p < |r.chains[i]|
    ensures forall j, q :: 0 <= j < |r.chains| && 0 <= q < |r.chains[j]| ==> (KeyAt(r, j, q, k) <==> j == i && q == p)
  {
    hide Placed, FreeListed, Owned, Tallied, LiveMap, Conserved, Layout.BucketOf, Layout.Head, Chain;
    var e := r.index[k];
    assert CellOk(l, hash, r.caps, e, r.cells[e], r.chains);
    i := l.BucketOf(hash(k));
    p :| 0 <= p < |r.chains[i]| && r.chains[i][p] == e;
    forall j, q | 0 <= j < |r.chains| && 0 <= q < |r.chains[j]| && KeyAt(r, j, q, k) ensures j == i && q == p {
      assert ChainOk(l, r.links, j, r.chains[j], r.cells);
      assert r.chains[j][q] == e && e in r.chains[j];
    }
    assert KeyAt(r, i, p, k);
  }

  /** The entry at place `p` of chain `i` is the key's. */
  ghost predicate KeyAt(r: Region, i: nat, p: nat, k: Long)
    requires i < |r.chains| && p < |r.chains[i]|
  {
    r.chains[i][p] in r.cells && r.cells[r.chains[i][p]].key == k
  }

  /** Bytes `[a, a + n)` and `[b, b + m)` have nothing in common. */
  ghost predicate Disjoint(a: nat, n: nat, b: nat, m: nat) { a + n <= b || b + m <= a }

  lemma BlockPlaced(l: Layout, caps: map<nat, nat>, bump: nat, a: nat)
    requires Placed(l, caps, bump) && a in caps
    ensures a % ALIGN == 0 && l.TableEnd() <= a && a + caps[a] <= bump <= l.end
    ensures forall b :: b in caps && b != a ==> Disjoint(a, caps[a], b, caps[b])
  {
  }

  /** Every live entry, with its header, key and value, is aligned, inside the heap and past the bucket arrays. */
  lemma EntryInside(l: Layout, hash: Long -> u32, r: Region, e: nat)
    requires Ok(l, hash, r, 0) && e in r.cells
    ensures BLOCK <= e && e - BLOCK in r.caps && e % ALIGN == 0
    ensures l.TableEnd() <= e - BLOCK && e + Size(r.cells[e]) <= e - BLOCK + r.caps[e - BLOCK] <= r.bump <= l.end
  {
    hide FreeListed, Chained, Indexed, Owned, Conserved, Tallied, LiveMap, Layout.Ok, Size, Layout.BucketOf,
         Layout.TableEnd, Placed;
    assert CellOk(l, hash, r.caps, e, r.cells[e], r.chains);
    BlockPlaced(l, r.caps, r.bump, e - BLOCK);
  }

  /** Two live entries share no byte. */
  lemma EntriesApart(l: Layout, hash: Long -> u32, r: Region, e: nat, f: nat)
    requires Ok(l, hash, r, 0) && e in r.cells && f in r.cells && e != f
    ensures BLOCK <= e && BLOCK <= f
    ensures Disjoint(e - BLOCK, BLOCK + Size(r.cells[e]), f - BLOCK, BLOCK + Size(r.cells[f]))
  {
    hide Ok, Size, Layout.TableEnd, Placed;
    EntryInside(l, hash, r, e);
    EntryInside(l, hash, r, f);
    PlacedOf(l, hash, r);
    BlockPlaced(l, r.caps, r.bump, e - BLOCK);
  }

  lemma PlacedOf(l: Layout, hash: Long -> u32, r: Region)
    requires Ok(l, hash, r, 0)
    ensures Placed(l, r.caps, r.bump) && Owned(r.caps, r.free, r.cells, 0) && forall b :: b in r.free ==> b in r.caps
  {
  }

  /** A live entry shares no byte with a free block, and no block is both. */
  lemma EntryNotFree(l: Layout, hash: Long -> u32, r: Region, e: nat, b: nat)
    requires Ok(l, hash, r, 0) && e in r.cells && b in r.free
    ensures BLOCK <= e && b != e - BLOCK && b in r.caps
    ensures Disjoint(e - BLOCK, BLOCK + Size(r.cells[e]), b, r.caps[b])
  {
    hide Ok, Size, Layout.TableEnd, Placed;
    EntryInside(l, hash, r, e);
    PlacedOf(l, hash, r);
    BlockPlaced(l, r.caps, r.bump, e - BLOCK);
    assert b + BLOCK !in r.cells;
  }

  /** Bytes claimed are the bytes bumped past the header, and also the bytes in use plus the bytes free. */
  lemma BytesConserved(l: Layout, hash: Long -> u32, r: Region)
    requires Ok(l, hash, r, 0)
    ensures (forall b :: b in r.free ==> b in r.caps) && r.claimed == r.bump - l.start
    ensures r.claimed == r.total + FreeBytes(r.caps, r.free)
    ensures r.total == l.shards * BUCKET_BYTES + Sum(LiveMap(l, r.caps, r.cells), CapOf)
    ensures 0 <= r.total <= r.claimed <= l.end - l.start
  {
    hide Chained, Celled, Indexed, Owned, FreeBytes, Sum, InShard, CapInShard;
  }
}
