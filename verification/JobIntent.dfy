/** The canonical semantic identity of a request ("KJS1") and its digest. */
module JobIntent {
  import opened Bytes
  import opened BlockStream
  import opened Sha256

  /** The stable identity of a consumed message. */
  datatype InputRef = InputRef(queue: Short, incarnation: u64, message: u64)

  /** The message a completion publishes. */
  datatype OutputRef = OutputRef(queue: Short, incarnation: u64, value: Long)

  /** Everything a retry must repeat; the delivery proof is deliberately absent. */
  datatype Intent = Intent(
    kind: byte,
    opId: Id,
    storeId: Id,
    input: Option<InputRef>,
    key: Short,
    expected: u64,
    value: Long,
    output: Option<OutputRef>)
  {
    function InQueue(): Short { if input.Some? then input.value.queue else [] }
    function InIncarnation(): u64 { if input.Some? then input.value.incarnation else 0 }
    function InMessage(): u64 { if input.Some? then input.value.message else 0 }
    function OutQueue(): Short { if output.Some? then output.value.queue else [] }
    function OutIncarnation(): u64 { if output.Some? then output.value.incarnation else 0 }
    function OutValue(): Long { if output.Some? then output.value.value else [] }
  }

  const TAG: Bytes := [75, 74, 83, 49] // "KJS1"

  function Flag(b: bool): (s: Bytes)
    ensures |s| == 1
  {
    if b then [1] else [0]
  }

  /** The fixed 85-byte header. */
  function Header(i: Intent): (h: Bytes)
    ensures |h| == 85
  {
    TAG + [i.kind] + i.opId + i.storeId
    + Flag(i.input.Some?) + LE(|i.InQueue()|, 2) + LE(i.InIncarnation(), 8) + LE(i.InMessage(), 8)
    + LE(|i.key|, 2) + LE(i.expected, 8) + LE(|i.value|, 4)
    + Flag(i.output.Some?) + LE(|i.OutQueue()|, 2) + LE(i.OutIncarnation(), 8) + LE(|i.OutValue()|, 4)
  }

  /** The bytes that are hashed: the header, then every variable-length span in fixed order. */
  function Preimage(i: Intent): Bytes {
    Header(i) + i.InQueue() + i.key + i.value + i.OutQueue() + i.OutValue()
  }

  function IntentDigest(i: Intent): Digest {
    Hash(Preimage(i))
  }

  // ---- the pre-image determines the intent ----

  /** Reads an intent back from a pre-image. */
  function Parse(s: Bytes): (r: Option<Intent>) {
    if |s| < 85 then None
    else
      var il, kl, vl, ol, wl :=
        Get16(s, 38) as nat, Get16(s, 56) as nat, Get32(s, 66) as nat, Get16(s, 71) as nat, Get32(s, 81) as nat;
      var k, v, o, w := 85 + il, 85 + il + kl, 85 + il + kl + vl, 85 + il + kl + vl + ol;
      if |s| != w + wl then None
      else
        Some(Intent(
               s[4], s[5..21], s[21..37],
               if s[37] == 0 then None else Some(InputRef(s[85..k], Get64(s, 40), Get64(s, 48))),
               s[k..v], Get64(s, 58), s[v..o],
               if s[70] == 0 then None else Some(OutputRef(s[o..w], Get64(s, 73), s[w..]))))
  }

  /** Field by field, from the last to the first, the header is recovered. */
  lemma HeaderFields(i: Intent, s: Bytes)
    requires |s| >= 85 && s[..85] == Header(i)
    ensures s[4] == i.kind && s[5..21] == i.opId && s[21..37] == i.storeId
    ensures s[37..38] == Flag(i.input.Some?)
    ensures Get16(s, 38) == |i.InQueue()| && Get64(s, 40) == i.InIncarnation() && Get64(s, 48) == i.InMessage()
    ensures Get16(s, 56) == |i.key| && Get64(s, 58) == i.expected && Get32(s, 66) == |i.value|
    ensures s[70..71] == Flag(i.output.Some?)
    ensures Get16(s, 71) == |i.OutQueue()| && Get64(s, 73) == i.OutIncarnation() && Get32(s, 81) == |i.OutValue()|
  {
    hide LE, FromLE;
    var h5 := TAG + [i.kind];
    var h21 := h5 + i.opId;
    var h37 := h21 + i.storeId;
    var h38 := h37 + Flag(i.input.Some?);
    var h40 := h38 + LE(|i.InQueue()|, 2);
    var h48 := h40 + LE(i.InIncarnation(), 8);
    var h56 := h48 + LE(i.InMessage(), 8);
    var h58 := h56 + LE(|i.key|, 2);
    var h66 := h58 + LE(i.expected, 8);
    var h70 := h66 + LE(|i.value|, 4);
    var h71 := h70 + Flag(i.output.Some?);
    var h73 := h71 + LE(|i.OutQueue()|, 2);
    var h81 := h73 + LE(i.OutIncarnation(), 8);
    Peel(s, h81, LE(|i.OutValue()|, 4));  U32RoundTrip(|i.OutValue()|);
    Peel(s, h73, LE(i.OutIncarnation(), 8));  U64RoundTrip(i.OutIncarnation());
    Peel(s, h71, LE(|i.OutQueue()|, 2));  U16RoundTrip(|i.OutQueue()|);
    Peel(s, h70, Flag(i.output.Some?));
    Peel(s, h66, LE(|i.value|, 4));  U32RoundTrip(|i.value|);
    Peel(s, h58, LE(i.expected, 8));  U64RoundTrip(i.expected);
    Peel(s, h56, LE(|i.key|, 2));  U16RoundTrip(|i.key|);
    Peel(s, h48, LE(i.InMessage(), 8));  U64RoundTrip(i.InMessage());
    Peel(s, h40, LE(i.InIncarnation(), 8));  U64RoundTrip(i.InIncarnation());
    Peel(s, h38, LE(|i.InQueue()|, 2));  U16RoundTrip(|i.InQueue()|);
    Peel(s, h37, Flag(i.input.Some?));
    Peel(s, h21, i.storeId);
    Peel(s, h5, i.opId);
    Peel(s, TAG, [i.kind]);
  }

  /** Five spans after a header are found again by their lengths alone. */
  lemma FiveSpans(p: Bytes, a: Bytes, b: Bytes, c: Bytes, d: Bytes, e: Bytes)
    ensures
      var s := p + a + b + c + d + e;
      var i1 := |p| + |a|;
      var i2 := i1 + |b|;
      var i3 := i2 + |c|;
      var i4 := i3 + |d|;
      && |s| == i4 + |e|
      && s[..|p|] == p && s[|p|..i1] == a && s[i1..i2] == b && s[i2..i3] == c && s[i3..i4] == d && s[i4..] == e
  {
    var s := p + a + b + c + d + e;
    assert s[..|s|] == s;
    Peel(s, p + a + b + c + d, e);
    Peel(s, p + a + b + c, d);
    Peel(s, p + a + b, c);
    Peel(s, p + a, b);
    Peel(s, p, a);
  }

  lemma TagFirst(i: Intent)
    ensures Preimage(i)[..4] == TAG
  {
    hide LE;
    var h := Header(i);
    assert h[..4] == TAG;
    assert Preimage(i)[..4] == h[..4];
  }

  /** The pre-image starts with its tag, says in a byte of one or zero whether there is an input and an output, and can
      be read back, so nothing of the intent is lost. */
  lemma ParsePreimage(i: Intent)
    ensures Parse(Preimage(i)) == Some(i) && Preimage(i)[..4] == [75, 74, 83, 49] && |Preimage(i)| >= 85
    ensures Preimage(i)[37] == (if i.input.Some? then 1 else 0) && Preimage(i)[70] == (if i.output.Some? then 1 else 0)
  {
    hide Header, LE, FromLE, Get16, Get32, Get64;
    var s := Preimage(i);
    FiveSpans(Header(i), i.InQueue(), i.key, i.value, i.OutQueue(), i.OutValue());
    HeaderFields(i, s);
    assert s[..4] == [75, 74, 83, 49] by { TagFirst(i); }
    assert s[37..38][0] == s[37] && s[70..71][0] == s[70];
  }

  /** Two different intents never hash the same bytes. */
  lemma PreimageInjective(a: Intent, b: Intent)
    requires Preimage(a) == Preimage(b)
    ensures a == b
  {
    ParsePreimage(a);
    ParsePreimage(b);
  }

  // ---- the imperative digest ----

  /** Writes who is asking: tag, kind, operation and store. */
  method FillIdentity(w: Writer, i: Intent)
    requires w.Valid() && w.at == 0 && w.written == [] && w.buf.Length == 96
    modifies w, w.buf
    ensures w.Valid() && w.at == 37
    ensures w.written == TAG + [i.kind] + i.opId + i.storeId
  {
    hide Writer.Valid;
    w.Put(TAG);
    w.Put([i.kind]);
    w.Put(i.opId);
    w.Put(i.storeId);
  }

  method FillInput(w: Writer, i: Intent)
    requires w.Valid() && w.at == 37 && w.buf.Length == 96
    modifies w, w.buf
    ensures w.Valid() && w.at == 56
    ensures w.written == old(w.written) + Flag(i.input.Some?) + LE(|i.InQueue()|, 2)
                         + LE(i.InIncarnation(), 8) + LE(i.InMessage(), 8)
  {
    hide Writer.Valid, LE;
    w.Put(Flag(i.input.Some?));
    w.PutNumber(|i.InQueue()|, 2);
    w.PutNumber(i.InIncarnation(), 8);
    w.PutNumber(i.InMessage(), 8);
  }

  method FillState(w: Writer, i: Intent)
    requires w.Valid() && w.at == 56 && w.buf.Length == 96
    modifies w, w.buf
    ensures w.Valid() && w.at == 70
    ensures w.written == old(w.written) + LE(|i.key|, 2) + LE(i.expected, 8) + LE(|i.value|, 4)
  {
    hide Writer.Valid, LE;
    w.PutNumber(|i.key|, 2);
    w.PutNumber(i.expected, 8);
    w.PutNumber(|i.value|, 4);
  }

  method FillOutput(w: Writer, i: Intent)
    requires w.Valid() && w.at == 70 && w.buf.Length == 96
    modifies w, w.buf
    ensures w.Valid() && w.at == 85
    ensures w.written == old(w.written) + Flag(i.output.Some?) + LE(|i.OutQueue()|, 2)
                         + LE(i.OutIncarnation(), 8) + LE(|i.OutValue()|, 4)
  {
    hide Writer.Valid, LE;
    w.Put(Flag(i.output.Some?));
    w.PutNumber(|i.OutQueue()|, 2);
    w.PutNumber(i.OutIncarnation(), 8);
    w.PutNumber(|i.OutValue()|, 4);
  }

  /** Fills the fixed header in place, field after field. */
  method FillHeader(i: Intent) returns (fixed: array<byte>)
    ensures fresh(fixed) && fixed.Length == 96
    ensures fixed[..85] == Header(i)
  {
    hide LE, Flag;
    fixed := new byte[96](_ => 0);
    var w := new Writer(fixed);
    FillIdentity(w, i);
    FillInput(w, i);
    FillState(w, i);
    FillOutput(w, i);
    w.Reads();
  }

  /** Hashes the header with every non-empty span. */
  method CanonicalDigest(i: Intent) returns (d: Digest)
    ensures d == IntentDigest(i)
  {
    hide Header, Hash;
    var fixed := FillHeader(i);
    var parts := AddSpan([], fixed[..85]);
    assert Concat(parts) == Header(i);
    parts := AddSpan(parts, i.InQueue());
    parts := AddSpan(parts, i.key);
    parts := AddSpan(parts, i.value);
    parts := AddSpan(parts, i.OutQueue());
    parts := AddSpan(parts, i.OutValue());
    d := HashParts(parts);
  }

  /** Empty spans are not passed to the hash. */
  function AddSpan(parts: seq<Bytes>, span: Bytes): (r: seq<Bytes>)
    ensures Concat(r) == Concat(parts) + span
  {
    if |span| == 0 then parts
    else
      assert (parts + [span])[..|parts|] == parts;
      parts + [span]
  }
}
