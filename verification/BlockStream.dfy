/** Block-wise absorption and padding of a Merkle-Damgard hash, for any compression function. */
module BlockStream {
  import opened Bytes

  type Block = s: seq<byte> | |s| == 64 witness Zeros(64)

  /** Folds a compression function over every 64-byte block of `data`. */
  function Fold<S>(step: (S, Block) -> S, iv: S, data: Bytes): S
    requires |data| % 64 == 0
  {
    if |data| == 0 then iv
    else step(Fold(step, iv, data[..|data| - 64]), data[|data| - 64..])
  }

  function Zeros(n: nat): (s: Bytes)
    ensures |s| == n
  {
    if n == 0 then [] else Zeros(n - 1) + [0]
  }

  function BigEndian(x: u64): (s: Bytes)
    ensures |s| == 8
  {
    [x / 0x100_0000_0000_0000 % 256, x / 0x1_0000_0000_0000 % 256, x / 0x100_0000_0000 % 256,
     x / 0x1_0000_0000 % 256, x / 0x100_0000 % 256, x / 0x1_0000 % 256, x / 0x100 % 256, x % 256]
  }

  /** Big-endian 64-bit field, reduced modulo 2^64 as the length counter is. */
  function BE64(v: nat): (s: Bytes)
    ensures |s| == 8
  {
    BigEndian(v % TWO64)
  }

  /** How many zero bytes bring a buffer holding `at` bytes to 56. */
  function ZerosFrom(at: nat): nat {
    if at % 64 <= 56 then 56 - at % 64 else 120 - at % 64
  }

  /** Section 5.1.1 of FIPS 180-4: a one bit, zeros up to 56 bytes modulo 64, the bit length. */
  function Padding(n: nat): (s: Bytes)
    ensures (n + |s|) % 64 == 0
  {
    [0x80] + Zeros(ZerosFrom(n + 1)) + BE64(8 * n)
  }

  lemma {:induction false} ZerosAreZero(n: nat, i: nat)
    requires i < n
    ensures Zeros(n)[i] == 0
  {
    if i < n - 1 { ZerosAreZero(n - 1, i); }
  }

  /** The number a big-endian field spells. */
  function FromBE(s: Bytes): nat {
    if |s| == 0 then 0 else 256 * FromBE(s[..|s| - 1]) + s[|s| - 1]
  }

  lemma NextByte(s: Bytes, k: nat, x: nat)
    requires k < |s| && FromBE(s[..k]) == x / 256 && s[k] == x % 256
    ensures FromBE(s[..k + 1]) == x
  {
    assert s[..k + 1][..k] == s[..k];
  }

  lemma BigEndianReads(x: u64)
    ensures FromBE(BigEndian(x)) == x
  {
    hide FromBE;
    var s := BigEndian(x);
    assert FromBE(s[..0]) == 0 by { Nothing(s[..0]); }
    NextByte(s, 0, x / 0x100_0000_0000_0000);
    NextByte(s, 1, x / 0x1_0000_0000_0000);
    NextByte(s, 2, x / 0x100_0000_0000);
    NextByte(s, 3, x / 0x1_0000_0000);
    NextByte(s, 4, x / 0x100_0000);
    NextByte(s, 5, x / 0x1_0000);
    NextByte(s, 6, x / 0x100);
    NextByte(s, 7, x);
    assert s[..8] == s;
  }

  lemma Nothing(s: Bytes)
    requires |s| == 0
    ensures FromBE(s) == 0
  {
  }

  /** The padding is a one bit, only zeros, and the length of the message in bits as a big-endian number, and there is
      no shorter one of that kind that fills the last block. */
  lemma PaddingShape(n: nat)
    ensures var s := Padding(n);
      && 9 <= |s| <= 72 && s[0] == 0x80 && (forall i :: 1 <= i < |s| - 8 ==> s[i] == 0)
      && FromBE(s[|s| - 8..]) == 8 * n % TWO64
  {
    hide BigEndian, Zeros, FromBE;
    var s, z := Padding(n), ZerosFrom(n + 1);
    BigEndianReads(8 * n % TWO64);
    forall i | 1 <= i < |s| - 8 ensures s[i] == 0 { ZerosAreZero(z, i - 1); }
    assert s[|s| - 8..] == BE64(8 * n);
  }

  function Concat(parts: seq<Bytes>): Bytes {
    if |parts| == 0 then [] else Concat(parts[..|parts| - 1]) + parts[|parts| - 1]
  }

  /** `h` is the fold of `absorbed` without its incomplete last block `held`. */
  ghost predicate Covers<S(!new)>(step: (S, Block) -> S, iv: S, h: S, held: Bytes, absorbed: Bytes) {
    && |held| == |absorbed| % 64
    && held == absorbed[|absorbed| - |held|..]
    && h == Fold(step, iv, absorbed[..|absorbed| - |held|])
  }

  lemma ZerosUnfold(n: nat)
    ensures Zeros(0) == [] && Zeros(n + 1) == Zeros(n) + [0]
  {
  }

  lemma ZerosFromStep(n: nat)
    ensures n % 64 == 56 ==> ZerosFrom(n) == 0
    ensures n % 64 != 56 ==> ZerosFrom(n) == ZerosFrom(n + 1) + 1
  {
  }

  lemma AddModulo(a: nat, b: nat)
    ensures (a % TWO64 + b) % TWO64 == (a + b) % TWO64
  {
  }

  lemma MultipleModulo(k: nat, r: nat)
    ensures (TWO64 * k + r) % TWO64 == r % TWO64
  {
  }

  /** The reduced byte counter still yields the bit length modulo 2^64. */
  lemma BitLength(n: nat)
    ensures BE64(n % TWO64 * 8 % TWO64) == BE64(8 * n)
  {
    hide BigEndian;
    MultipleModulo(8 * (n / TWO64), 8 * (n % TWO64));
  }

  lemma CoversMore<S(!new)>(step: (S, Block) -> S, iv: S, h: S, held: Bytes, absorbed: Bytes, chunk: Bytes)
    requires Covers(step, iv, h, held, absorbed) && |held| + |chunk| < 64
    ensures Covers(step, iv, h, held + chunk, absorbed + chunk)
  {
    var more := absorbed + chunk;
    assert more[..|more| - |held + chunk|] == absorbed[..|absorbed| - |held|];
    assert more[|more| - |held + chunk|..] == held + chunk;
  }

  lemma CoversFull<S(!new)>(step: (S, Block) -> S, iv: S, h: S, held: Bytes, absorbed: Bytes, chunk: Bytes)
    requires Covers(step, iv, h, held, absorbed) && |held| + |chunk| == 64
    ensures Covers(step, iv, step(h, held + chunk), [], absorbed + chunk)
  {
    var more := absorbed + chunk;
    assert more[..|more| - 64] == absorbed[..|absorbed| - |held|];
    assert more[|more| - 64..] == held + chunk;
    assert more[..|more|] == more;
  }

  lemma CoversAll<S(!new)>(step: (S, Block) -> S, iv: S, h: S, absorbed: Bytes)
    requires Covers(step, iv, h, [], absorbed)
    ensures |absorbed| % 64 == 0 && h == Fold(step, iv, absorbed)
  {
    assert absorbed[..|absorbed|] == absorbed;
  }

  lemma PaddingSplit(msg: Bytes)
    ensures msg + Padding(|msg|) == msg + [0x80] + Zeros(ZerosFrom(|msg| + 1)) + BE64(8 * |msg|)
  {
    hide BE64, ZerosFrom, Zeros;
  }
}
