/** The expiry sweep of the embedded cache: which buckets its tickets reach, and which they miss. */
module EmbeddedSweep {
  import opened Bytes
  import opened Arithmetic
  import opened Ticks
  import opened EmbeddedRegion

  const SWEEP_HASH := 2654435761

  predicate Expired(exp: u32, now: u32) { exp != 0 && exp <= now }

  /** A ticket is hashed to its shard, and counts through the buckets of all shards at once. */
  function TicketShard(l: Layout, t: u64): nat
    requires l.span > 0
  {
    l.ShardOf(t * SWEEP_HASH % 0x1_0000_0000)
  }

  function TicketBucket(l: Layout, t: u64): nat
    requires l.span > 0 && l.shards > 0
  {
    TicketShard(l, t) * BUCKETS + t / l.shards % BUCKETS
  }

  lemma TicketInRange(l: Layout, t: u64)
    requires l.Ok()
    ensures l.span > 0 && l.shards > 0 && TicketBucket(l, t) < l.shards * BUCKETS
  {
    hide Layout.ShardOf;
    assert l.shards > 0 by { assert l.shards * l.span == 0x1_0000_0000; }
    BucketInRange(l, t * SWEEP_HASH % 0x1_0000_0000);
    Scale(TicketShard(l, t) + 1, l.shards, BUCKETS);
  }

  /** One of `work` tickets drawn at counter `c` names bucket `i`. */
  ghost predicate Reaches(l: Layout, c: u64, work: nat, i: nat)
    requires l.span > 0 && l.shards > 0
  {
    exists n :: 0 <= n < work && TicketBucket(l, Tick(c, n)) == i
  }

  /** The map without the expired keys of one bucket. */
  ghost function Rid(l: Layout, hash: Long -> u32, m: map<Long, Item>, i: nat, now: u32): map<Long, Item>
    requires l.span > 0
  {
    map k | k in m && !(Expired(m[k].exp, now) && l.BucketOf(hash(k)) == i) :: m[k]
  }

  /** The map without the expired keys of the buckets that `work` tickets name. */
  ghost function Swept(l: Layout, hash: Long -> u32, m: map<Long, Item>, c: u64, work: nat, now: u32): map<Long, Item>
    requires l.span > 0 && l.shards > 0
  {
    map k | k in m && !(Expired(m[k].exp, now) && Reaches(l, c, work, l.BucketOf(hash(k)))) :: m[k]
  }

  /** A key survives the sweep unless its deadline has come and a ticket names its bucket. */
  lemma SweptKeeps(l: Layout, hash: Long -> u32, m: map<Long, Item>, c: u64, work: nat, now: u32)
    requires l.span > 0 && l.shards > 0
    ensures var after := Swept(l, hash, m, c, work, now);
      && (forall k :: k in after ==> k in m && after[k] == m[k])
      && (forall k :: k in m ==>
            (k !in after <==> 0 < m[k].exp <= now && Reaches(l, c, work, l.BucketOf(hash(k)))))
  {
    hide Layout.BucketOf, Reaches;
  }

  lemma SweptNone(l: Layout, hash: Long -> u32, m: map<Long, Item>, c: u64, now: u32)
    requires l.span > 0 && l.shards > 0
    ensures Swept(l, hash, m, c, 0, now) == m
  {
    hide Layout.BucketOf, TicketBucket;
  }

  lemma SweptIdle(l: Layout, hash: Long -> u32, m: map<Long, Item>, c: u64, work: nat, now: u32)
    requires l.span > 0 && l.shards > 0 && forall k :: k in m ==> m[k].exp == 0
    ensures Swept(l, hash, m, c, work, now) == m
  {
    hide Layout.BucketOf, Reaches;
  }

  /** One more ticket rids the map of one more bucket's expired keys. */
  lemma SweptNext(l: Layout, hash: Long -> u32, m: map<Long, Item>, c: u64, n: nat, now: u32)
    requires l.span > 0 && l.shards > 0
    ensures Swept(l, hash, m, c, n + 1, now)
         == Rid(l, hash, Swept(l, hash, m, c, n, now), TicketBucket(l, Tick(c, n)), now)
  {
    hide Layout.BucketOf, TicketBucket, Expired, Tick;
    forall i ensures Reaches(l, c, n + 1, i) <==> Reaches(l, c, n, i) || TicketBucket(l, Tick(c, n)) == i {
      if Reaches(l, c, n + 1, i) {
        var j :| 0 <= j < n + 1 && TicketBucket(l, Tick(c, j)) == i;
        assert j < n || j == n;
      }
    }
  }

  // ---- what one round reaches ----

  lemma RoundFits(l: Layout)
    requires l.Ok()
    ensures l.span > 0 && 0 < l.shards <= 0x1_0000_0000 && l.shards * BUCKETS < TWO64
  {
    assert l.shards > 0 by { assert l.shards * l.span == 0x1_0000_0000; }
    Scale(1, l.span, l.shards);
  }

  /** The tickets of a round that count to bucket `b`. */
  predicate CountsTo(l: Layout, t: u64, b: nat)
    requires l.shards > 0
  {
    t / l.shards == b
  }

  lemma SameBucket(l: Layout, n: u64, s: nat, b: nat)
    requires l.span > 0 && l.shards > 0 && n < l.shards * BUCKETS && b < BUCKETS
    ensures TicketBucket(l, n) == s * BUCKETS + b <==> TicketShard(l, n) == s && CountsTo(l, n, b)
  {
    hide TicketShard;
    var q := n / l.shards;
    QuotientBelow(n, BUCKETS, l.shards);
    DivMod(s, b, BUCKETS);
    DivMod(TicketShard(l, n), q, BUCKETS);
  }

  lemma QuotientBelow(n: nat, m: nat, d: nat)
    requires d > 0 && n < d * m
    ensures n / d < m
  {
    var q := n / d;
    assert q * d <= n;
    assert q >= m ==> q * d == m * d + (q - m) * d;
  }

  /** A round of tickets from zero, one for every bucket, reaches a bucket if and only if one of the tickets that
      count to it is hashed to its shard. */
  lemma RoundReachesIff(l: Layout, s: nat, b: nat)
    requires l.Ok() && s < l.shards && b < BUCKETS
    ensures l.span > 0 && l.shards > 0
    ensures Reaches(l, 0, l.shards * BUCKETS, s * BUCKETS + b)
       <==> exists t: u64 :: t < l.shards * BUCKETS && CountsTo(l, t, b) && TicketShard(l, t) == s
  {
    hide TicketShard, TicketBucket, CountsTo, Layout.Ok;
    RoundFits(l);
    var work, i := l.shards * BUCKETS, s * BUCKETS + b;
    if Reaches(l, 0, work, i) {
      var n :| 0 <= n < work && TicketBucket(l, Tick(0, n)) == i;
      SameBucket(l, n, s, b);
    }
    if t: u64 :| t < work && CountsTo(l, t, b) && TicketShard(l, t) == s {
      SameBucket(l, t, s, b);
      assert TicketBucket(l, Tick(0, t)) == i;
    }
  }

  /** With two shards, the third bucket of the second is not reached by the first 512 tickets, although there are
      512 buckets: an expired entry there outlives the round. */
  lemma RoundMisses(l: Layout, hash: Long -> u32, m: map<Long, Item>, k: Long, now: u32)
    requires l.Ok() && l.shards == 2 && k in m && l.BucketOf(hash(k)) == 258
    ensures l.span > 0 && !Reaches(l, 0, l.shards * BUCKETS, 258)
    ensures k in Swept(l, hash, m, 0, l.shards * BUCKETS, now)
  {
    assert l.span == 0x8000_0000;
    RoundReachesIff(l, 1, 2);
    assert TicketShard(l, 4) == 0 && TicketShard(l, 5) == 0;
    assert forall t: u64 :: CountsTo(l, t, 2) ==> t == 4 || t == 5;
  }
}
