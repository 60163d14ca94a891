/** The in-process cache as a value: shards of bucket chains, and the counters kept beside them. */
module LocalTable {
  import opened Bytes
  import opened Arithmetic
  import opened PowersOfTwo
  import opened MapSum

  const HEADER := 32
  const LINK_BYTES := 8
  const SLAB_MAX_ENTRY := 4096
  const DIRECT := 0xFFFF
  const CLASS_SIZES: seq<nat> :=
    [48, 64, 80, 96, 128, 160, 192, 256, 320, 384, 512, 640, 768, 1024, 1280, 1536, 2048, 3072, 4096,
                                  6144, 8192, 12288, 16384, 24576, 32768, 49152, 65536]

  datatype Entry = Entry(key: Long, value: Long, exp: u32, hash: u32, cls: nat)

  predicate Classed(e: Entry) { e.cls == DIRECT || e.cls < |CLASS_SIZES| }

  function Size(e: Entry): nat { HEADER + |e.key| + |e.value| }

  /** The bytes an entry is taken to occupy: its size class, or, allocated directly, what it holds now. */
  function Capacity(e: Entry): nat
    requires Classed(e)
  {
    if e.cls == DIRECT then Size(e) else CLASS_SIZES[e.cls]
  }

  predicate Expired(e: Entry, now: u32) { e.exp != 0 && e.exp <= now }

  type Bucket = seq<Entry>
  type Buckets = seq<Bucket>

  /** How many shards there are and how much of the hash range each takes. */
  datatype Shape = Shape(shards: nat, span: nat) {
    ghost predicate Ok() { 0 < span && shards * span == 0x1_0000_0000 }

    /** The shard comes from the high bits of the hash. */
    function ShardOf(hash: u32): nat
      requires span > 0
    {
      hash / span
    }
  }

  lemma ShardInRange(l: Shape, hash: u32)
    requires l.Ok()
    ensures l.ShardOf(hash) < l.shards
  {
    var s := hash / l.span;
    assert s * l.span <= hash;
    if l.shards <= s { Scale(l.shards, s, l.span); }
  }

  /** The bucket comes from the low bits; the bucket count is a power of two, so masking is a remainder. */
  function Slot(hash: u32, buckets: nat): (b: nat)
    requires buckets > 0
    ensures b < buckets
  {
    hash % buckets
  }

  /** `index` names the entry of every key in the table; `slack` is what shrinking direct entries in place
      has left charged, shard by shard. */
  datatype Table = Table(tables: seq<Buckets>, counts: seq<int>, mems: seq<int>, total: int, ttl: int,
                         index: map<Long, Entry>, slack: seq<nat>)

  /** The chain of one bucket holds entries that belong there, one for each key. */
  ghost predicate BucketOk(l: Shape, hash: Long -> u32, i: nat, b: nat, n: nat, chain: Bucket, index: map<Long, Entry>)
    requires l.span > 0 && n > 0
  {
    && (forall e :: e in chain ==>
         && e.key in index && index[e.key] == e
         && e.hash == hash(e.key) && Classed(e) && l.ShardOf(e.hash) == i && Slot(e.hash, n) == b)
    && (forall p, q :: 0 <= p < q < |chain| ==> chain[p].key != chain[q].key)
  }

  ghost predicate ShardFiled(l: Shape, hash: Long -> u32, i: nat, t: Buckets, index: map<Long, Entry>)
    requires l.span > 0
  {
    && |t| > 0 && IsPow2(|t|)
    && forall b :: 0 <= b < |t| ==> BucketOk(l, hash, i, b, |t|, t[b], index)
  }

  /** Every key of the index is in the chain its hash selects. */
  ghost predicate Present(l: Shape, hash: Long -> u32, tables: seq<Buckets>, k: Long, e: Entry)
    requires l.span > 0
  {
    var h := hash(k);
    && e.key == k && l.ShardOf(h) < |tables| && |tables[l.ShardOf(h)]| > 0
    && e in tables[l.ShardOf(h)][Slot(h, |tables[l.ShardOf(h)]|)]
  }

  ghost predicate Filed(l: Shape, hash: Long -> u32, tables: seq<Buckets>, index: map<Long, Entry>)
    requires l.span > 0
  {
    && |tables| == l.shards
    && (forall i :: 0 <= i < |tables| ==> ShardFiled(l, hash, i, tables[i], index))
    && (forall k :: k in index ==> Present(l, hash, tables, k, index[k]))
  }

  function CapWeight(k: Long, e: Entry): nat { if Classed(e) then Capacity(e) else 0 }

  function TtlWeight(k: Long, e: Entry): nat { if e.exp != 0 then 1 else 0 }

  function InShard(l: Shape, i: nat): (Long, Entry) -> nat
    requires l.span > 0
  {
    (k, e: Entry) => if l.ShardOf(e.hash) == i then 1 else 0
  }

  function CapInShard(l: Shape, i: nat): (Long, Entry) -> nat
    requires l.span > 0
  {
    (k, e: Entry) => if l.ShardOf(e.hash) == i then CapWeight(k, e) else 0
  }

  ghost function BucketBytes(tables: seq<Buckets>): nat {
    if tables == [] then 0 else BucketBytes(tables[..|tables| - 1]) + LINK_BYTES * |tables[|tables| - 1]|
  }

  ghost function SumSeq(s: seq<nat>): nat {
    if s == [] then 0 else SumSeq(s[..|s| - 1]) + s[|s| - 1]
  }

  /** The counters: entries, deadlines, and bytes, which are bucket bytes, capacities and slack. */
  ghost predicate Tallied(l: Shape, v: Table)
    requires l.span > 0
  {
    && |v.tables| == |v.counts| == |v.mems| == |v.slack| == l.shards
    && v.ttl == Sum(v.index, TtlWeight)
    && v.total == BucketBytes(v.tables) + Sum(v.index, CapWeight) + SumSeq(v.slack)
    && forall i :: 0 <= i < l.shards ==>
         && v.counts[i] == Sum(v.index, InShard(l, i))
         && v.mems[i] == LINK_BYTES * |v.tables[i]| + Sum(v.index, CapInShard(l, i)) + v.slack[i]
  }

  ghost predicate Ok(l: Shape, hash: Long -> u32, v: Table) {
    l.Ok() && Filed(l, hash, v.tables, v.index) && Tallied(l, v)
  }

  datatype Item = Item(value: Long, exp: u32)

  /** The map the table stands for. */
  ghost function Contents(index: map<Long, Entry>): map<Long, Item> {
    map k | k in index :: Item(index[k].value, index[k].exp)
  }

  // ---- one chain changes ----

  /** Rewriting one chain, with the index following it, keeps every entry filed. */
  lemma Refile(l: Shape, hash: Long -> u32, tables: seq<Buckets>, index: map<Long, Entry>, i: nat, b: nat,
               chain: Bucket, now: map<Long, Entry>)
    requires l.span > 0 && Filed(l, hash, tables, index) && i < |tables| && b < |tables[i]|
    requires BucketOk(l, hash, i, b, |tables[i]|, chain, now)
    requires forall k :: k in index && !Here(l, hash, tables, i, b, k) ==> k in now && now[k] == index[k]
    requires forall k :: k in now ==>
      if Here(l, hash, tables, i, b, k) then now[k].key == k && now[k] in chain else k in index && now[k] == index[k]
    ensures Filed(l, hash, tables[i := tables[i][b := chain]], now)
  {
    hide Shape.ShardOf, Slot, Classed;
    var after := tables[i := tables[i][b := chain]];
    forall j | 0 <= j < |after| ensures ShardFiled(l, hash, j, after[j], now) {
      assert ShardFiled(l, hash, j, tables[j], index);
      forall c | 0 <= c < |after[j]| ensures BucketOk(l, hash, j, c, |after[j]|, after[j][c], now) {
        if j != i || c != b {
          assert BucketOk(l, hash, j, c, |tables[j]|, tables[j][c], index);
          assert after[j][c] == tables[j][c];
        }
      }
    }
    forall k | k in now ensures Present(l, hash, after, k, now[k]) {
      var j := l.ShardOf(hash(k));
      if Here(l, hash, tables, i, b, k) {
        assert after[i][b] == chain;
      } else {
        assert Present(l, hash, tables, k, index[k]);
        assert after[j][Slot(hash(k), |tables[j]|)] == tables[j][Slot(hash(k), |tables[j]|)];
      }
    }
  }

  /** The key's chain is chain `b` of shard `i`. */
  ghost predicate Here(l: Shape, hash: Long -> u32, tables: seq<Buckets>, i: nat, b: nat, k: Long)
    requires l.span > 0 && i < |tables| && |tables[i]| > 0
  {
    l.ShardOf(hash(k)) == i && Slot(hash(k), |tables[i]|) == b
  }
}
