/** Laying out a new embedded region: how many shards, and where the heap starts. */
module EmbeddedPlan {
  import opened Bytes
  import opened PowersOfTwo
  import opened EmbeddedRegion
  import opened EmbeddedCache

  const SHARED_BYTES := 128
  const SHARD_BYTES := 40

  /** The least power of two that is at least the request, and at least two; none when it would not fit a size. */
  method PlanShards(requested: u64) returns (shards: u64, bits: nat)
    ensures shards == 0 <==> requested > Pow2(63)
    ensures shards != 0 ==> shards == Pow2(bits) && shards >= requested && 1 <= bits <= 63
    ensures shards > 2 ==> Pow2(bits - 1) < requested
  {
    Pow2Values();
    ghost var k := 0;
    shards := 1;
    while shards < requested
      invariant k <= 63 && shards == Pow2(k) && (k > 0 ==> Pow2(k - 1) < requested)
      decreases 63 - k
    {
      if shards > UINT64_MAX / 2 {
        assert k == 63 by { if k < 63 { Pow2Grows(k, 63); } }
        return 0, 0;
      }
      assert k < 63 by { assert shards != Pow2(63); }
      shards, k := shards * 2, k + 1;
    }
    assert shards <= Pow2(63) by { if k < 63 { Pow2Grows(k, 63); } }
    if shards < 2 { shards, k := 2, 1; }
    bits := 1;
    while Pow2(bits) < shards
      invariant 1 <= bits <= k
      decreases k - bits
    {
      if k == bits { assert false; }
      bits := bits + 1;
    }
    if bits < k { Pow2Grows(bits, k); }
  }

  /** An offset that addresses a record: not zero, and inside the region. */
  predicate Addressable(size: u64, off: u64) {
    0 < off < size
  }

  /** Where the heap starts, past the shared record and the shard records; zero when they do not fit. Sums that
      wrap around align to zero, which addresses nothing. */
  method PlanHeap(size: u64, base: u64, shards: u64) returns (start: u64)
    requires SHARED_BYTES <= size && base <= size - SHARED_BYTES
    ensures start != 0 ==> 0 < base && base + SHARED_BYTES <= start < size && start % ALIGN == 0
    ensures start != 0 && shards * SHARD_BYTES < TWO64 ==> base + SHARED_BYTES + shards * SHARD_BYTES <= start
  {
    hide AlignUp;
    var shardsAt := AlignUp(base + SHARED_BYTES);
    Aligned(base + SHARED_BYTES);
    var shardsBytes := shards * SHARD_BYTES % TWO64;
    start := AlignUp((shardsAt + shardsBytes) % TWO64);
    if shardsAt > size || shardsBytes > size - shardsAt || start >= size { return 0; }
    if !Addressable(size, base) || !Addressable(size, shardsAt) { return 0; }
    Aligned(shardsAt + shardsBytes);
  }

  /** The layout of a region of `size` bytes whose shared record lies at `base`. It is sound whenever the shard
      bits fit the 32-bit hash they are taken from. */
  method Plan(size: u64, base: u64, requested: u64) returns (r: Option<Layout>)
    ensures r.Some? ==> r.value.end == size && requested <= r.value.shards && r.value.TableEnd() <= size
                        && base + SHARED_BYTES + r.value.shards * SHARD_BYTES <= r.value.start
    ensures r.Some? && r.value.shards <= 0x1_0000_0000 ==> r.value.Ok()
  {
    hide AlignUp, Pow2;
    if size < SHARED_BYTES || base > size - SHARED_BYTES { return None; }
    var shards, bits := PlanShards(requested);
    if shards == 0 { return None; }
    var start := PlanHeap(size, base, shards);
    if start == 0 { return None; }
    var bump := start;
    var i := 0;
    while i < shards
      invariant i <= shards && bump == start + i * BUCKET_BYTES <= size && bump % ALIGN == 0
    {
      if BUCKET_BYTES > size - bump { return None; }
      Aligned(bump + BUCKET_BYTES);
      bump := AlignUp(bump + BUCKET_BYTES);
      i := i + 1;
    }
    Pow2Values();
    if bits <= 32 {
      Pow2Sum(bits, 32 - bits);
      return Some(Layout(start, size, shards, Pow2(32 - bits)));
    }
    Pow2Grows(32, bits);
    return Some(Layout(start, size, shards, 0));
  }

  /** Alignment rounds up to the next multiple of sixteen, or wraps to zero. */
  lemma Aligned(n: u64)
    ensures AlignUp(n) % ALIGN == 0 && (AlignUp(n) == 0 || n <= AlignUp(n) < n + 16)
    ensures n % ALIGN == 0 ==> AlignUp(n) == n
  {
  }
}
