/** SHA-256 (FIPS 180-4): the one-shot definition, and the loops and the stream that compute it. */
module Sha256 {
  import opened Bytes
  import opened BlockStream

  type Word = bv32

  /** The eight working variables, or the eight words of a hash value. */
  datatype Regs = Regs(a: Word, b: Word, c: Word, d: Word, e: Word, f: Word, g: Word, h: Word)

  const ROUNDS: nat := 64

  /** Section 4.2.2: the round constants. */
  function K(t: nat): Word
    requires t < 64
  {
    var row: seq<Word> :=
      if t < 8 then
        [0x428a2f98, 0x71374491, 0xb5c0fbcf, 0xe9b5dba5, 0x3956c25b, 0x59f111f1, 0x923f82a4, 0xab1c5ed5]
      else if t < 16 then
        [0xd807aa98, 0x12835b01, 0x243185be, 0x550c7dc3, 0x72be5d74, 0x80deb1fe, 0x9bdc06a7, 0xc19bf174]
      else if t < 24 then
        [0xe49b69c1, 0xefbe4786, 0x0fc19dc6, 0x240ca1cc, 0x2de92c6f, 0x4a7484aa, 0x5cb0a9dc, 0x76f988da]
      else if t < 32 then
        [0x983e5152, 0xa831c66d, 0xb00327c8, 0xbf597fc7, 0xc6e00bf3, 0xd5a79147, 0x06ca6351, 0x14292967]
      else if t < 40 then
        [0x27b70a85, 0x2e1b2138, 0x4d2c6dfc, 0x53380d13, 0x650a7354, 0x766a0abb, 0x81c2c92e, 0x92722c85]
      else if t < 48 then
        [0xa2bfe8a1, 0xa81a664b, 0xc24b8b70, 0xc76c51a3, 0xd192e819, 0xd6990624, 0xf40e3585, 0x106aa070]
      else if t < 56 then
        [0x19a4c116, 0x1e376c08, 0x2748774c, 0x34b0bcb5, 0x391c0cb3, 0x4ed8aa4a, 0x5b9cca4f, 0x682e6ff3]
      else
        [0x748f82ee, 0x78a5636f, 0x84c87814, 0x8cc70208, 0x90befffa, 0xa4506ceb, 0xbef9a3f7, 0xc67178f2];
    row[t % 8]
  }

  const IV := Regs(0x6a09e667, 0xbb67ae85, 0x3c6ef372, 0xa54ff53a,
                   0x510e527f, 0x9b05688c, 0x1f83d9ab, 0x5be0cd19)

  // ---- section 4.1.2: the six logical functions ----

  function Ror(x: Word, n: Word): Word
    requires n <= 32
  {
    (x >> n) | (x << (32 - n))
  }

  function Ch(x: Word, y: Word, z: Word): Word { (x & y) ^ (!x & z) }
  function Maj(x: Word, y: Word, z: Word): Word { (x & y) ^ (x & z) ^ (y & z) }
  function BigSigma0(x: Word): Word { Ror(x, 2) ^ Ror(x, 13) ^ Ror(x, 22) }
  function BigSigma1(x: Word): Word { Ror(x, 6) ^ Ror(x, 11) ^ Ror(x, 25) }
  function SmallSigma0(x: Word): Word { Ror(x, 7) ^ Ror(x, 18) ^ (x >> 3) }
  function SmallSigma1(x: Word): Word { Ror(x, 17) ^ Ror(x, 19) ^ (x >> 10) }

  // ---- section 6.2.2: one block ----

  /** The `i`-th big-endian word of a block. */
  function BlockWord(block: Block, i: nat): Word
    requires i < 16
  {
    ((block[i * 4] as Word) << 24) | ((block[i * 4 + 1] as Word) << 16)
    | ((block[i * 4 + 2] as Word) << 8) | (block[i * 4 + 3] as Word)
  }

  /** Step 1: the word a schedule of at least sixteen words is extended with. */
  function NextWord(w: seq<Word>): Word
    requires |w| >= 16
  {
    w[|w| - 16] + SmallSigma0(w[|w| - 15]) + w[|w| - 7] + SmallSigma1(w[|w| - 2])
  }

  /** Step 1: the first `n` words of the message schedule. */
  function Schedule(block: Block, n: nat): (w: seq<Word>)
    ensures |w| == n
  {
    if n == 0 then []
    else
      var w := Schedule(block, n - 1);
      w + [if n <= 16 then BlockWord(block, n - 1) else NextWord(w)]
  }

  /** Step 3: one round with round constant `k` and schedule word `w`. */
  function T1(e: Word, f: Word, g: Word, h: Word, k: Word, w: Word): Word {
    h + BigSigma1(e) + Ch(e, f, g) + k + w
  }

  function T2(a: Word, b: Word, c: Word): Word {
    BigSigma0(a) + Maj(a, b, c)
  }

  function Round(r: Regs, k: Word, w: Word): Regs {
    var t1, t2 := T1(r.e, r.f, r.g, r.h, k, w), T2(r.a, r.b, r.c);
    Regs(t1 + t2, r.a, r.b, r.c, r.d + t1, r.e, r.f, r.g)
  }

  function Rounds(r: Regs, block: Block, n: nat): Regs
    requires n <= ROUNDS
  {
    if n == 0 then r else Round(Rounds(r, block, n - 1), K(n - 1), Schedule(block, ROUNDS)[n - 1])
  }

  /** Step 4: the intermediate hash value. */
  function AddRegs(x: Regs, y: Regs): Regs {
    Regs(x.a + y.a, x.b + y.b, x.c + y.c, x.d + y.d, x.e + y.e, x.f + y.f, x.g + y.g, x.h + y.h)
  }

  function Compress(r: Regs, block: Block): Regs {
    AddRegs(r, Rounds(r, block, ROUNDS))
  }

  function BigEndian32(x: u32): (s: Bytes)
    ensures |s| == 4
  {
    [x / 0x100_0000, x / 0x1_0000 % 256, x / 0x100 % 256, x % 256]
  }

  function WordBytes(w: Word): (s: Bytes)
    ensures |s| == 4
  {
    BigEndian32(w as nat)
  }

  function TwoWords(a: Word, b: Word): (s: Bytes)
    ensures |s| == 8
  {
    WordBytes(a) + WordBytes(b)
  }

  function Output(r: Regs): Digest {
    TwoWords(r.a, r.b) + TwoWords(r.c, r.d) + TwoWords(r.e, r.f) + TwoWords(r.g, r.h)
  }

  /** The one-shot digest of a whole message. */
  function Hash(msg: Bytes): Digest {
    Output(Fold(Compress, IV, msg + Padding(|msg|)))
  }

  // ---- the imperative compression loop ----

  /** The message schedule of a block. */
  method FillSchedule(block: Block) returns (w: array<Word>)
    ensures fresh(w)
    ensures w[..] == Schedule(block, ROUNDS)
  {
    w := new Word[ROUNDS];
    for i := 0 to 16
      invariant w[..i] == Schedule(block, i)
    {
      w[i] := BlockWord(block, i);
      assert w[..i + 1] == w[..i] + [w[i]];
    }
    for i := 16 to ROUNDS
      invariant w[..i] == Schedule(block, i)
    {
      w[i] := NextWord(w[..i]);
      assert w[..i + 1] == w[..i] + [w[i]];
    }
    assert w[..ROUNDS] == w[..];
  }

  /** Sixty-four rounds over the working variables, added back to the hash words. */
  method CompressBlock(h: Regs, block: Block) returns (r: Regs)
    ensures r == Compress(h, block)
  {
    var w := FillSchedule(block);
    r := h;
    for i := 0 to ROUNDS
      invariant r == Rounds(h, block, i)
    {
      r := Round(r, K(i), w[..][i]);
    }
    r := AddRegs(h, r);
  }

  /** The hash of everything absorbed so far, block by block through a 64-byte buffer. */
  class Stream {
    var h: Regs
    const buf: array<byte>
    var at: nat
    var total: u64
    ghost var absorbed: Bytes

    /** The hash state covers every whole block absorbed and the buffer holds the rest. */
    ghost predicate Buffered()
      reads this, buf
    {
      && buf.Length == 64
      && at == |absorbed| % 64
      && Covers(Compress, IV, h, buf[..at], absorbed)
    }

    constructor ()
      ensures Buffered() && total == 0 && fresh(buf) && absorbed == []
    {
      h := IV;
      buf := new byte[64](_ => 0);
      at, total, absorbed := 0, 0, [];
    }

    /** Absorbs a span that fits the room left in the buffer. */
    method Absorb(chunk: Bytes)
      requires Buffered() && |chunk| <= 64 - at
      modifies this`h, this`at, this`absorbed, buf
      ensures Buffered()
      ensures absorbed == old(absorbed) + chunk
      ensures at == (old(at) + |chunk|) % 64
    {
      hide Compress;
      ghost var held := buf[..at];
      PutBytes(buf, at, chunk);
      at := at + |chunk|;
      if at == 64 {
        assert buf[..] == buf[..at];
        CoversFull(Compress, IV, h, held, absorbed, chunk);
        h := CompressBlock(h, buf[..]);
        at := 0;
      } else {
        CoversMore(Compress, IV, h, held, absorbed, chunk);
      }
      absorbed := absorbed + chunk;
    }

    /** Absorbs `data`, compressing each time the buffer fills. */
    method Update(data: Bytes)
      requires Buffered()
      modifies this, buf
      ensures Buffered()
      ensures absorbed == old(absorbed) + data
      ensures total == (old(total) + |data|) % TWO64
    {
      hide Covers, Compress;
      total := (total + |data|) % TWO64;
      ghost var start, counted := absorbed, total;
      var p := 0;
      while p < |data|
        invariant p <= |data|
        invariant Buffered()
        invariant absorbed == start + data[..p]
        invariant total == counted
      {
        var take := if 64 - at > |data| - p then |data| - p else 64 - at;
        Absorb(data[p..p + take]);
        assert data[..p] + data[p..p + take] == data[..p + take];
        p := p + take;
      }
      assert data[..p] == data;
    }

    /** Appends 0x80 and zeros until exactly the length field is missing from the last block. */
    method Pad()
      requires Buffered()
      modifies this, buf
      ensures Buffered() && at == 56
      ensures absorbed == old(absorbed) + [0x80] + Zeros(ZerosFrom(|old(absorbed)| + 1))
    {
      hide Covers, ZerosFrom, Zeros, Compress;
      ghost var msg := absorbed;
      Update([0x80]);
      ghost var z := 0;
      ZerosUnfold(0);
      assert absorbed == msg + [0x80] + Zeros(0);
      while at != 56
        invariant Buffered()
        invariant absorbed == msg + [0x80] + Zeros(z)
        invariant z + ZerosFrom(|absorbed|) == ZerosFrom(|msg| + 1)
        decreases ZerosFrom(|absorbed|)
      {
        ZerosFromStep(|absorbed|);
        Update([0]);
        ZerosUnfold(z);
        z := z + 1;
        assert absorbed == msg + [0x80] + Zeros(z);
      }
      ZerosFromStep(|absorbed|);
    }

    /** Pads, appends the bit length and returns the digest of everything absorbed. */
    method Final() returns (out: Regs)
      requires Buffered() && total == |absorbed| % TWO64
      modifies this, buf
      ensures out == Fold(Compress, IV, old(absorbed) + Padding(|old(absorbed)|))
    {
      hide Covers, Fold, BE64, Zeros, ZerosFrom, Compress;
      ghost var msg := absorbed;
      var bits := total * 8 % TWO64;
      BitLength(|msg|);
      Pad();
      ghost var held := buf[..56];
      PutBytes(buf, 56, BE64(bits));
      assert buf[..] == buf[..64] == held + BE64(bits);
      PaddingSplit(msg);
      CoversFull(Compress, IV, h, held, absorbed, BE64(bits));
      h := CompressBlock(h, buf[..]);
      CoversAll(Compress, IV, h, absorbed + BE64(bits));
      at := 0;
      out := h;
    }
  }

  /** Hashing a list of spans is hashing their concatenation, however it was split. */
  method HashParts(parts: seq<Bytes>) returns (out: Digest)
    ensures out == Hash(Concat(parts))
  {
    hide Compress, Output;
    var s := new Stream();
    for i := 0 to |parts|
      invariant s.Buffered() && s.total == |s.absorbed| % TWO64 && fresh(s) && fresh(s.buf)
      invariant s.absorbed == Concat(parts[..i])
    {
      if |parts[i]| > 0 {
        AddModulo(|s.absorbed|, |parts[i]|);
        s.Update(parts[i]);
      }
      assert parts[..i + 1][..i] == parts[..i];
    }
    assert parts[..|parts|] == parts;
    var h := s.Final();
    out := Output(h);
  }
}
