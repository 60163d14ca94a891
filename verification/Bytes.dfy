/** Bytes, fixed-width little-endian fields and buffer writes shared by every record codec. */
module Bytes {
  import opened Arithmetic

  type byte = x: int | 0 <= x < 256
  type u16 = x: int | 0 <= x < 0x1_0000
  type u32 = x: int | 0 <= x < 0x1_0000_0000
  type u64 = x: int | 0 <= x < 0x1_0000_0000_0000_0000

  const UINT64_MAX: u64 := 0xFFFF_FFFF_FFFF_FFFF
  const TWO64 := 0x1_0000_0000_0000_0000

  type Bytes = seq<byte>
  /** A span whose length fits a 16-bit length field. */
  type Short = s: seq<byte> | |s| < 0x1_0000
  /** A span whose length fits a 32-bit length field. */
  type Long = s: seq<byte> | |s| < 0x1_0000_0000
  /** A 16-byte identifier: operation id, store id, epoch or delivery proof. */
  type Id = s: seq<byte> | |s| == 16 witness [0, 0, 0, 0, 0, 0, 0, 0, 0, 0, 0, 0, 0, 0, 0, 0]
  /** A SHA-256 digest. */
  type Digest = s: seq<byte> | |s| == 32
    witness [0, 0, 0, 0, 0, 0, 0, 0, 0, 0, 0, 0, 0, 0, 0, 0, 0, 0, 0, 0, 0, 0, 0, 0, 0, 0, 0, 0, 0, 0, 0, 0]

  const ZERO_ID: Id := [0, 0, 0, 0, 0, 0, 0, 0, 0, 0, 0, 0, 0, 0, 0, 0]

  datatype Option<+T> = None | Some(value: T)

  // ---- little-endian numbers ----

  function Pow256(n: nat): (p: nat)
    ensures p > 0
  {
    if n == 0 then 1 else 256 * Pow256(n - 1)
  }

  lemma FieldWidths()
    ensures Pow256(2) == 0x1_0000 && Pow256(4) == 0x1_0000_0000 && Pow256(8) == TWO64
  {
    assert Pow256(1) == 256 && Pow256(2) == 0x1_0000;
    assert Pow256(3) == 0x100_0000 && Pow256(4) == 0x1_0000_0000;
    assert Pow256(5) == 0x100_0000_0000 && Pow256(6) == 0x1_0000_0000_0000;
    assert Pow256(7) == 0x100_0000_0000_0000;
  }

  /** The low `n` bytes of `v`, least significant first. */
  function LE(v: nat, n: nat): (s: seq<byte>)
    ensures |s| == n
  {
    if n == 0 then [] else [v % 256] + LE(v / 256, n - 1)
  }

  function FromLE(s: seq<byte>): nat {
    if |s| == 0 then 0 else s[0] + 256 * FromLE(s[1..])
  }

  /** A value that fits its field is read back unchanged. */
  lemma {:induction false} LERoundTrip(v: nat, n: nat)
    requires v < Pow256(n)
    ensures FromLE(LE(v, n)) == v
  {
    if n > 0 {
      LERoundTrip(v / 256, n - 1);
      assert LE(v, n)[1..] == LE(v / 256, n - 1);
    }
  }

  /** Byte `i` is the one that counts in units of 256 to the power of `i`. */
  lemma {:induction false} LEByte(v: nat, n: nat, i: nat)
    requires i < n
    ensures LE(v, n)[i] == v / Pow256(i) % 256
  {
    if i > 0 {
      LEByte(v / 256, n - 1, i - 1);
      DivTwice(v, Pow256(i - 1));
    }
  }

  lemma DivTwice(v: nat, m: nat)
    requires m > 0
    ensures v / 256 / m == v / (256 * m)
  {
    var q, r := v / (256 * m), v % (256 * m);
    assert v == 256 * (m * q) + r;
    assert v / 256 == m * q + r / 256;
    assert r / 256 < m;
    DivMod(q, r / 256, m);
  }

  lemma {:induction false} FromLEBound(s: seq<byte>)
    ensures FromLE(s) < Pow256(|s|)
  {
    if |s| > 0 {
      FromLEBound(s[1..]);
    }
  }

  lemma U16RoundTrip(v: u16)
    ensures FromLE(LE(v, 2)) == v
  {
    LERoundTrip(v, 2);
    FieldWidths();
  }

  lemma U32RoundTrip(v: u32)
    ensures FromLE(LE(v, 4)) == v
  {
    LERoundTrip(v, 4);
    FieldWidths();
  }

  lemma U64RoundTrip(v: u64)
    ensures FromLE(LE(v, 8)) == v
  {
    LERoundTrip(v, 8);
    FieldWidths();
  }

  function Get16(d: Bytes, at: nat): (v: u16)
    requires at + 2 <= |d|
  {
    FromLEBound(d[at..at + 2]);
    FieldWidths();
    FromLE(d[at..at + 2])
  }

  function Get32(d: Bytes, at: nat): (v: u32)
    requires at + 4 <= |d|
  {
    FromLEBound(d[at..at + 4]);
    FieldWidths();
    FromLE(d[at..at + 4])
  }

  function Get64(d: Bytes, at: nat): (v: u64)
    requires at + 8 <= |d|
  {
    FromLEBound(d[at..at + 8]);
    FieldWidths();
    FromLE(d[at..at + 8])
  }

  /** Detaches the last field `x` from the decoded prefix `p + x` of a payload. */
  lemma Peel(s: Bytes, p: Bytes, x: Bytes)
    requires |p| + |x| <= |s| && s[..|p| + |x|] == p + x
    ensures s[..|p|] == p
    ensures s[|p|..|p| + |x|] == x
  {
    assert s[..|p|] == s[..|p| + |x|][..|p|];
    assert s[|p|..|p| + |x|] == s[..|p| + |x|][|p|..];
  }

  // ---- in-place writes (jput16, jput32, jput64 and memcpy) ----

  /** Writes `n` little-endian bytes of `v` at `at`. */
  method PutLE(buf: array<byte>, at: nat, v: nat, n: nat)
    requires at + n <= buf.Length
    modifies buf
    ensures buf[..at + n] == old(buf[..at]) + LE(v, n)
    ensures buf[at + n..] == old(buf[at + n..])
  {
    var x := v;
    for i := 0 to n
      invariant buf[..at + i] + LE(x, n - i) == old(buf[..at]) + LE(v, n)
      invariant buf[at + n..] == old(buf[at + n..])
    {
      ghost var before := buf[..at + i];
      buf[at + i] := x % 256;
      assert buf[..at + i + 1] == before + [x % 256];
      x := x / 256;
      assert buf[..at + i + 1] + LE(x, n - i - 1) == before + ([buf[at + i]] + LE(x, n - i - 1));
    }
  }

  /** Copies a span to `at`. */
  method PutBytes(buf: array<byte>, at: nat, s: Bytes)
    requires at + |s| <= buf.Length
    modifies buf
    ensures buf[..at + |s|] == old(buf[..at]) + s
    ensures buf[at + |s|..] == old(buf[at + |s|..])
  {
    for i := 0 to |s|
      invariant buf[..at + i] == old(buf[..at]) + s[..i]
      invariant buf[at + |s|..] == old(buf[at + |s|..])
    {
      buf[at + i] := s[i];
      assert buf[..at + i + 1] == buf[..at + i] + [s[i]];
      assert s[..i + 1] == s[..i] + [s[i]];
    }
    assert s[..|s|] == s;
  }

  /** A cursor walking a caller's buffer, as the running offset of the encoders does. */
  class Writer {
    const buf: array<byte>
    var at: nat
    ghost var written: Bytes

    ghost predicate Valid()
      reads this, buf
    {
      at <= buf.Length && buf[..at] == written
    }

    constructor (buf: array<byte>)
      ensures this.buf == buf && at == 0 && written == [] && Valid()
    {
      this.buf, at, written := buf, 0, [];
    }

    lemma Reads()
      requires Valid()
      ensures at <= buf.Length && buf[..at] == written
    {
    }

    method Put(s: Bytes)
      requires Valid() && at + |s| <= buf.Length
      modifies this, buf
      ensures Valid()
      ensures at == old(at) + |s| && written == old(written) + s
    {
      PutBytes(buf, at, s);
      at, written := at + |s|, written + s;
    }

    method PutNumber(v: nat, n: nat)
      requires Valid() && at + n <= buf.Length
      modifies this, buf
      ensures Valid()
      ensures at == old(at) + n && written == old(written) + LE(v, n)
    {
      PutLE(buf, at, v, n);
      at, written := at + n, written + LE(v, n);
    }
  }

  /** Accumulates a little-endian field, most significant byte first. */
  method GetLE(d: Bytes, at: nat, n: nat) returns (v: nat)
    requires at + n <= |d|
    ensures v == FromLE(d[at..at + n])
  {
    v := 0;
    for i := n downto 0
      invariant v == FromLE(d[at + i..at + n])
    {
      v := d[at + i] + 256 * v;
      assert d[at + i..at + n][1..] == d[at + i + 1..at + n];
    }
  }
}
