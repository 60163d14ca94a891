/** The shared-memory region of the embedded cache as a value: blocks, free list, bucket chains, counters. */
module EmbeddedRegion {
  import opened Bytes
  import opened Arithmetic
  import opened LinkedWords
  import opened MapSum

  const ALIGN := 16
  const BLOCK := 16
  const ENTRY := 24
  const BUCKETS := 256
  /** The bytes of one shard's bucket array. */
  const BUCKET_BYTES := 2048
  /** The word that holds the head of the free list; it lies in the header, below the heap. */
  const FREE_HEAD := 8

  /** Where things are: the heap's first offset, the end of the region, the shards and the hash range of each. */
  datatype Layout = Layout(start: nat, end: nat, shards: nat, span: nat) {
    ghost predicate Ok() {
      && FREE_HEAD < start && start % ALIGN == 0 && TableEnd() <= end < TWO64
      && 0 < span && shards * span == 0x1_0000_0000
    }

    function TableEnd(): nat { start + shards * BUCKET_BYTES }

    /** Bucket `b` of shard `s` is word `s * 256 + b` of the bucket arrays. */
    function Head(i: nat): nat { start + 8 * i }

    function ShardOf(hash: u32): nat
      requires span > 0
    {
      hash / span
    }

    function BucketOf(hash: u32): nat
      requires span > 0
    {
      ShardOf(hash) * BUCKETS + hash % BUCKETS
    }
  }

  lemma BucketInRange(l: Layout, hash: u32)
    requires l.Ok()
    ensures l.ShardOf(hash) < l.shards && l.BucketOf(hash) < l.shards * BUCKETS
  {
    var s := hash / l.span;
    assert s * l.span <= hash;
    if l.shards <= s { Scale(l.shards, s, l.span); }
  }

  /** An entry's fields after its chain link. */
  datatype Cell = Cell(hash: u32, key: Long, value: Long, exp: u32)

  function Size(c: Cell): nat { ENTRY + |c.key| + |c.value| }

  /** What a caller sees of a key. */
  datatype Item = Item(value: Long, exp: u32)

  /** Block headers and entries are read and written by offset: `freeLinks` and `caps` are the words of
      block headers, `links` the words of buckets and entries, `cells` the rest of each entry. `free`, `chains`
      and `index` name the lists and the keys those words spell out. */
  datatype Region = Region(
    freeLinks: map<nat, nat>, caps: map<nat, nat>, links: map<nat, nat>, cells: map<nat, Cell>,
    bump: nat, claimed: int, total: int, ttl: int, counts: seq<int>, mems: seq<int>,
    free: seq<nat>, chains: seq<seq<nat>>, index: map<Long, nat>)

  /** Blocks are aligned, inside the heap, large enough for a header and an entry, and pairwise disjoint. */
  ghost predicate Placed(l: Layout, caps: map<nat, nat>, bump: nat) {
    && l.TableEnd() <= bump <= l.end && bump % ALIGN == 0
    && (forall b :: b in caps ==>
         b % ALIGN == 0 && caps[b] % ALIGN == 0 && caps[b] >= BLOCK + ENTRY
         && l.TableEnd() <= b && b + caps[b] <= bump)
    && (forall a, b :: a in caps && b in caps && a < b ==> a + caps[a] <= b)
  }

  /** The free list is acyclic and holds blocks. */
  ghost predicate FreeListed(w: map<nat, nat>, free: seq<nat>, caps: map<nat, nat>) {
    && Chain(w, FREE_HEAD, free) && Proper(FREE_HEAD, free)
    && (forall b :: b in free ==> b in caps)
  }

  /** Every chain is acyclic and holds the entries of its own bucket. */
  ghost predicate Chained(l: Layout, links: map<nat, nat>, chains: seq<seq<nat>>, cells: map<nat, Cell>)
    requires l.span > 0
  {
    && |chains| == l.shards * BUCKETS
    && forall i :: 0 <= i < |chains| ==> ChainOk(l, links, i, chains[i], cells)
  }

  ghost predicate ChainOk(l: Layout, links: map<nat, nat>, i: nat, s: seq<nat>, cells: map<nat, Cell>)
    requires l.span > 0
  {
    && Chain(links, l.Head(i), s) && Proper(l.Head(i), s)
    && forall e :: e in s ==> e in cells && l.BucketOf(cells[e].hash) == i
  }

  /** Each live entry lies after a block header, fits its block, and is chained under its own hash. */
  ghost predicate Celled(l: Layout, hash: Long -> u32, caps: map<nat, nat>, cells: map<nat, Cell>,
                         chains: seq<seq<nat>>)
    requires l.span > 0
  {
    forall e :: e in cells ==> CellOk(l, hash, caps, e, cells[e], chains)
  }

  ghost predicate CellOk(l: Layout, hash: Long -> u32, caps: map<nat, nat>, e: nat, c: Cell, chains: seq<seq<nat>>)
    requires l.span > 0
  {
    && CellFits(hash, caps, e, c)
    && l.BucketOf(c.hash) < |chains| && e in chains[l.BucketOf(c.hash)]
  }

  ghost predicate CellFits(hash: Long -> u32, caps: map<nat, nat>, e: nat, c: Cell) {
    BLOCK <= e && e - BLOCK in caps && Size(c) <= caps[e - BLOCK] - BLOCK && c.hash == hash(c.key)
  }

  /** The index and the live entries name each other: every key is in exactly one entry. */
  ghost predicate Indexed(index: map<Long, nat>, cells: map<nat, Cell>) {
    && (forall k :: k in index ==> index[k] in cells && cells[index[k]].key == k)
    && (forall e :: e in cells ==> cells[e].key in index && index[cells[e].key] == e)
  }

  /** Every block is free, or live, or the one held between its allocation and its use; zero holds none. */
  ghost predicate Owned(caps: map<nat, nat>, free: seq<nat>, cells: map<nat, Cell>, held: nat) {
    && (held != 0 ==> held in caps && held !in free && held + BLOCK !in cells)
    && (forall b :: b in free ==> b + BLOCK !in cells)
    && (forall b :: b in caps ==> b in free || b + BLOCK in cells || (b == held && held != 0))
  }

  /** What the counters count of one live entry. */
  datatype Live = Live(cap: nat, shard: nat, ttl: bool)

  ghost function LiveMap(l: Layout, caps: map<nat, nat>, cells: map<nat, Cell>): map<nat, Live>
    requires l.span > 0
  {
    map e | e in cells :: LiveOf(l, caps, e, cells[e])
  }

  ghost function LiveOf(l: Layout, caps: map<nat, nat>, e: nat, c: Cell): Live
    requires l.span > 0
  {
    Live(if e >= BLOCK && e - BLOCK in caps then caps[e - BLOCK] else 0, l.ShardOf(c.hash), c.exp != 0)
  }

  function CapOf(e: nat, v: Live): nat { v.cap }

  function TtlOf(e: nat, v: Live): nat { if v.ttl then 1 else 0 }

  function InShard(s: nat): (nat, Live) -> nat { (e, v: Live) => if v.shard == s then 1 else 0 }

  function CapInShard(s: nat): (nat, Live) -> nat { (e, v: Live) => if v.shard == s then v.cap else 0 }

  ghost function FreeBytes(caps: map<nat, nat>, free: seq<nat>): nat
    requires forall b :: b in free ==> b in caps
  {
    if free == [] then 0 else caps[free[0]] + FreeBytes(caps, free[1..])
  }

  /** The counters kept per shard and over all shards are those of the live entries. */
  ghost predicate Tallied(l: Layout, live: map<nat, Live>, total: int, ttl: int, counts: seq<int>, mems: seq<int>) {
    && total == l.shards * BUCKET_BYTES + Sum(live, CapOf)
    && ttl == Sum(live, TtlOf)
    && |counts| == |mems| == l.shards
    && (forall s :: 0 <= s < l.shards ==> counts[s] == Sum(live, InShard(s)))
    && (forall s :: 0 <= s < l.shards ==> mems[s] == BUCKET_BYTES + Sum(live, CapInShard(s)))
  }

  /** Bytes claimed are bytes bumped, and also bytes in use plus bytes free. */
  ghost predicate Conserved(l: Layout, r: Region, held: nat)
    requires (held != 0 ==> held in r.caps) && (forall b :: b in r.free ==> b in r.caps)
  {
    && r.claimed == r.bump - l.start
    && r.claimed == r.total + FreeBytes(r.caps, r.free) + (if held == 0 then 0 else r.caps[held])
  }

  ghost predicate Ok(l: Layout, hash: Long -> u32, r: Region, held: nat) {
    && l.span > 0 && l.Ok()
    && Placed(l, r.caps, r.bump)
    && FreeListed(r.freeLinks, r.free, r.caps)
    && Chained(l, r.links, r.chains, r.cells)
    && Celled(l, hash, r.caps, r.cells, r.chains)
    && Indexed(r.index, r.cells)
    && Owned(r.caps, r.free, r.cells, held)
    && Tallied(l, LiveMap(l, r.caps, r.cells), r.total, r.ttl, r.counts, r.mems)
    && Conserved(l, r, held)
  }

  /** The map the table stands for. */
  ghost function Contents(r: Region): map<Long, Item>
    requires Indexed(r.index, r.cells)
  {
    map k | k in r.index :: Item(r.cells[r.index[k]].value, r.cells[r.index[k]].exp)
  }
}
