/** The job feature records of the Queue log: payload layouts, their encoders and the replay parser. */
module JobRecord {
  import opened Bytes
  import opened JobIntent

  const FMT: byte := 1

  const KIND_COMPLETION: byte := 1
  const KIND_PUT: byte := 2
  const KIND_DELETE: byte := 3

  const OP_STATE := 17
  const OP_COMPLETION := 18
  const OP_RECEIPT := 19
  const OP_META := 20

  const NAME_MAX := 255
  /** Replay treats a longer record as the corrupt tail of the log. */
  const MESSAGE_MAX := 0x400_0000

  const STATE_NAME: Bytes := [42, 106, 111, 98, 45, 115, 116, 97, 116, 101] // "*job-state"
  const RECEIPT_NAME: Bytes := [42, 106, 111, 98, 45, 114, 101, 99, 101, 105, 112, 116] // "*job-receipt"
  const META_NAME: Bytes := [42, 106, 111, 98, 45, 109, 101, 116, 97] // "*job-meta"

  /** One framed record of the log; checksums and torn tails are resolved below this level. */
  datatype Frame = Frame(op: nat, name: Bytes, id: u64, aux: u64, data: Bytes)

  /** The durable outcome of one operation. */
  datatype Receipt = Receipt(
    kind: byte,
    opId: Id,
    digest: Digest,
    commitId: u64,
    version: u64,
    inQueue: Short,
    inMessage: u64,
    outQueue: Short,
    outMessage: u64,
    completedAt: u64,
    expiresAt: u64)

  // ---- LOG_JOB_STATE ----

  datatype StateBody = StateBody(
    kind: byte, opId: Id, expected: u64, key: Short, value: Long, completedAt: u64, expiresAt: u64)

  function StatePayload(b: StateBody): (d: Bytes)
    ensures |d| == 48 + |b.key| + |b.value|
  {
    [FMT] + [b.kind] + b.opId + LE(b.expected, 8) + LE(|b.key|, 2) + b.key
    + LE(|b.value|, 4) + b.value + LE(b.completedAt, 8) + LE(b.expiresAt, 8)
  }

  /** The replay side's reading of a state payload. */
  function ParseState(d: Bytes): Option<StateBody> {
    if |d| < 48 || (d[1] != KIND_PUT && d[1] != KIND_DELETE) then None
    else
      var kl := Get16(d, 26);
      if 28 + kl + 4 > |d| then None
      else
        var vl := Get32(d, 28 + kl);
        if 32 + kl + vl + 16 != |d| || (d[1] == KIND_DELETE && vl != 0) then None
        else
          Some(StateBody(d[1], d[2..18], Get64(d, 18), d[28..28 + kl], d[32 + kl..32 + kl + vl],
                         Get64(d, 32 + kl + vl), Get64(d, 40 + kl + vl)))
  }

  predicate StateBodyOk(b: StateBody) {
    b.kind == KIND_PUT || (b.kind == KIND_DELETE && b.value == [])
  }

  lemma StateFields(b: StateBody)
    ensures
      var d := StatePayload(b);
      var kl, vl := |b.key|, |b.value|;
      && d[0] == FMT && d[1] == b.kind && d[2..18] == b.opId && Get64(d, 18) == b.expected
      && Get16(d, 26) == kl && d[28..28 + kl] == b.key && Get32(d, 28 + kl) == vl
      && d[32 + kl..32 + kl + vl] == b.value
      && Get64(d, 32 + kl + vl) == b.completedAt && Get64(d, 40 + kl + vl) == b.expiresAt
  {
    hide LE, FromLE;
    var d := StatePayload(b);
    var p2 := [FMT] + [b.kind];
    var p18 := p2 + b.opId;
    var p26 := p18 + LE(b.expected, 8);
    var p28 := p26 + LE(|b.key|, 2);
    var pk := p28 + b.key;
    var pl := pk + LE(|b.value|, 4);
    var pv := pl + b.value;
    var pc := pv + LE(b.completedAt, 8);
    assert d[..|d|] == d;
    Peel(d, pc, LE(b.expiresAt, 8));  U64RoundTrip(b.expiresAt);
    Peel(d, pv, LE(b.completedAt, 8));  U64RoundTrip(b.completedAt);
    Peel(d, pl, b.value);
    Peel(d, pk, LE(|b.value|, 4));  U32RoundTrip(|b.value|);
    Peel(d, p28, b.key);
    Peel(d, p26, LE(|b.key|, 2));  U16RoundTrip(|b.key|);
    Peel(d, p18, LE(b.expected, 8));  U64RoundTrip(b.expected);
    Peel(d, p2, b.opId);
    Peel(d, [FMT], [b.kind]);
  }

  /** Replay reads back exactly the state record that was written. */
  lemma ParseStatePayload(b: StateBody)
    ensures ParseState(StatePayload(b)) == (if StateBodyOk(b) then Some(b) else None)
  {
    hide StatePayload, Get16, Get32, Get64;
    StateFields(b);
  }

  // ---- LOG_JOB_COMPLETION ----

  datatype OutputBody = OutputBody(queue: Short, incarnation: u64, message: u64, value: Long)

  datatype CompletionBody = CompletionBody(
    opId: Id,
    inIncarnation: u64,
    output: Option<OutputBody>,
    version: u64,
    key: Short,
    expected: u64,
    value: Long,
    completedAt: u64,
    expiresAt: u64)
  {
    function OutQueue(): Short { if output.Some? then output.value.queue else [] }
    function OutIncarnation(): u64 { if output.Some? then output.value.incarnation else 0 }
    function OutMessage(): u64 { if output.Some? then output.value.message else 0 }
    function OutValue(): Long { if output.Some? then output.value.value else [] }
  }

  const COMPLETION_FIXED := 86

  function CompletionLength(b: CompletionBody): nat {
    COMPLETION_FIXED + |b.OutQueue()| + |b.OutValue()| + |b.key| + |b.value|
  }

  /** The output half of a completion payload. */
  function OutputPart(b: CompletionBody): (d: Bytes)
    ensures |d| == 48 + |b.OutQueue()| + |b.OutValue()|
  {
    [FMT] + b.opId + LE(b.inIncarnation, 8) + Flag(b.output.Some?) + LE(|b.OutQueue()|, 2) + b.OutQueue()
    + LE(b.OutIncarnation(), 8) + LE(b.OutMessage(), 8) + LE(|b.OutValue()|, 4) + b.OutValue()
  }

  function CompletionPayload(b: CompletionBody): (d: Bytes)
    ensures |d| == CompletionLength(b)
  {
    OutputPart(b) + LE(b.version, 8) + LE(|b.key|, 2) + b.key + LE(b.expected, 8) + LE(|b.value|, 4) + b.value
    + LE(b.completedAt, 8) + LE(b.expiresAt, 8)
  }

  /** The replay side's reading of a completion payload. */
  function ParseCompletion(d: Bytes): Option<CompletionBody> {
    if |d| < 78 then None
    else
      var ql := Get16(d, 26);
      if ql > NAME_MAX || (d[25] == 0 && ql > 0) || 48 + ql > |d| then None
      else
        var o := 48 + ql + Get32(d, 44 + ql);
        if o + 10 > |d| then None
        else
          var k := o + 10 + Get16(d, o + 8);
          if k + 12 > |d| then None
          else
            var v := k + 12 + Get32(d, k + 8);
            if v + 16 != |d| then None
            else
              Some(CompletionBody(
                     d[1..17], Get64(d, 17),
                     if d[25] == 0 then None
                     else Some(OutputBody(d[28..28 + ql], Get64(d, 28 + ql), Get64(d, 36 + ql), d[48 + ql..o])),
                     Get64(d, o), d[o + 10..k], Get64(d, k), d[k + 12..v], Get64(d, v), Get64(d, v + 8)))
  }

  lemma OutputFields(b: CompletionBody, d: Bytes)
    requires |d| >= |OutputPart(b)| && d[..|OutputPart(b)|] == OutputPart(b)
    ensures
      var ql := |b.OutQueue()|;
      && d[0] == FMT && d[1..17] == b.opId && Get64(d, 17) == b.inIncarnation
      && d[25..26] == Flag(b.output.Some?) && Get16(d, 26) == ql && d[28..28 + ql] == b.OutQueue()
      && Get64(d, 28 + ql) == b.OutIncarnation() && Get64(d, 36 + ql) == b.OutMessage()
      && Get32(d, 44 + ql) == |b.OutValue()| && d[48 + ql..48 + ql + |b.OutValue()|] == b.OutValue()
  {
    hide LE, FromLE;
    var p17 := [FMT] + b.opId;
    var p25 := p17 + LE(b.inIncarnation, 8);
    var p26 := p25 + Flag(b.output.Some?);
    var p28 := p26 + LE(|b.OutQueue()|, 2);
    var pq := p28 + b.OutQueue();
    var pi := pq + LE(b.OutIncarnation(), 8);
    var pm := pi + LE(b.OutMessage(), 8);
    var pl := pm + LE(|b.OutValue()|, 4);
    Peel(d, pl, b.OutValue());
    Peel(d, pm, LE(|b.OutValue()|, 4));  U32RoundTrip(|b.OutValue()|);
    Peel(d, pi, LE(b.OutMessage(), 8));  U64RoundTrip(b.OutMessage());
    Peel(d, pq, LE(b.OutIncarnation(), 8));  U64RoundTrip(b.OutIncarnation());
    Peel(d, p28, b.OutQueue());
    Peel(d, p26, LE(|b.OutQueue()|, 2));  U16RoundTrip(|b.OutQueue()|);
    Peel(d, p25, Flag(b.output.Some?));
    Peel(d, p17, LE(b.inIncarnation, 8));  U64RoundTrip(b.inIncarnation);
    Peel(d, [FMT], b.opId);
  }

  lemma CompletionFields(b: CompletionBody)
    ensures
      var d := CompletionPayload(b);
      var o := |OutputPart(b)|;
      var k := o + 10 + |b.key|;
      var v := k + 12 + |b.value|;
      && |d| == v + 16
      && d[..o] == OutputPart(b)
      && Get64(d, o) == b.version && Get16(d, o + 8) == |b.key| && d[o + 10..k] == b.key
      && Get64(d, k) == b.expected && Get32(d, k + 8) == |b.value| && d[k + 12..v] == b.value
      && Get64(d, v) == b.completedAt && Get64(d, v + 8) == b.expiresAt
  {
    hide LE, FromLE, OutputPart;
    var d := CompletionPayload(b);
    var p0 := OutputPart(b);
    var p1 := p0 + LE(b.version, 8);
    var p2 := p1 + LE(|b.key|, 2);
    var p3 := p2 + b.key;
    var p4 := p3 + LE(b.expected, 8);
    var p5 := p4 + LE(|b.value|, 4);
    var p6 := p5 + b.value;
    var p7 := p6 + LE(b.completedAt, 8);
    assert d[..|d|] == d;
    Peel(d, p7, LE(b.expiresAt, 8));  U64RoundTrip(b.expiresAt);
    Peel(d, p6, LE(b.completedAt, 8));  U64RoundTrip(b.completedAt);
    Peel(d, p5, b.value);
    Peel(d, p4, LE(|b.value|, 4));  U32RoundTrip(|b.value|);
    Peel(d, p3, LE(b.expected, 8));  U64RoundTrip(b.expected);
    Peel(d, p2, b.key);
    Peel(d, p1, LE(|b.key|, 2));  U16RoundTrip(|b.key|);
    Peel(d, p0, LE(b.version, 8));  U64RoundTrip(b.version);
  }

  /** Replay reads back exactly the completion record that was written. */
  lemma ParseCompletionPayload(b: CompletionBody)
    ensures ParseCompletion(CompletionPayload(b)) == (if |b.OutQueue()| <= NAME_MAX then Some(b) else None)
  {
    hide CompletionPayload, OutputPart, Get16, Get32, Get64;
    var d := CompletionPayload(b);
    CompletionFields(b);
    OutputFields(b, d);
    assert d[25..26][0] == d[25];
  }

  // ---- LOG_JOB_RECEIPT ----

  /** A checkpointed receipt. The kind precedes the format byte, unlike every other payload. */
  function ReceiptPayload(r: Receipt): (d: Bytes)
    ensures |d| == 87 + |r.outQueue| + |r.inQueue|
  {
    [r.kind] + [FMT] + r.opId + r.digest + Flag(r.outQueue != []) + LE(|r.outQueue|, 2) + r.outQueue
    + LE(r.outMessage, 8) + LE(|r.inQueue|, 2) + r.inQueue + LE(r.inMessage, 8)
    + LE(r.completedAt, 8) + LE(r.expiresAt, 8)
  }

  /** The replay side's reading of a receipt payload. */
  function ParseReceipt(d: Bytes, commitId: u64, version: u64): Option<Receipt> {
    if |d| < 87 || (d[1] != KIND_COMPLETION && d[1] != KIND_PUT && d[1] != KIND_DELETE) then None
    else
      var ol := Get16(d, 51);
      if 63 + ol > |d| then None
      else
        var il := Get16(d, 61 + ol);
        if 87 + ol + il != |d| then None
        else
          var m := 63 + ol + il;
          Some(Receipt(d[1], d[2..18], d[18..50], commitId, version,
                       d[63 + ol..m], Get64(d, m), d[53..53 + ol], Get64(d, 53 + ol),
                       Get64(d, m + 8), Get64(d, m + 16)))
  }

  lemma ReceiptFields(r: Receipt)
    ensures
      var d := ReceiptPayload(r);
      var ol, il := |r.outQueue|, |r.inQueue|;
      var m := 63 + ol + il;
      && d[0] == r.kind && d[1] == FMT && d[2..18] == r.opId && d[18..50] == r.digest
      && Get16(d, 51) == ol && d[53..53 + ol] == r.outQueue && Get64(d, 53 + ol) == r.outMessage
      && Get16(d, 61 + ol) == il && d[63 + ol..m] == r.inQueue && Get64(d, m) == r.inMessage
      && Get64(d, m + 8) == r.completedAt && Get64(d, m + 16) == r.expiresAt
  {
    hide LE, FromLE, Flag;
    var d := ReceiptPayload(r);
    var p2 := [r.kind] + [FMT];
    var p18 := p2 + r.opId;
    var p50 := p18 + r.digest;
    var p51 := p50 + Flag(r.outQueue != []);
    var p53 := p51 + LE(|r.outQueue|, 2);
    var pq := p53 + r.outQueue;
    var pm := pq + LE(r.outMessage, 8);
    var pl := pm + LE(|r.inQueue|, 2);
    var pi := pl + r.inQueue;
    var pn := pi + LE(r.inMessage, 8);
    var pc := pn + LE(r.completedAt, 8);
    assert d[..|d|] == d;
    Peel(d, pc, LE(r.expiresAt, 8));  U64RoundTrip(r.expiresAt);
    Peel(d, pn, LE(r.completedAt, 8));  U64RoundTrip(r.completedAt);
    Peel(d, pi, LE(r.inMessage, 8));  U64RoundTrip(r.inMessage);
    Peel(d, pl, r.inQueue);
    Peel(d, pm, LE(|r.inQueue|, 2));  U16RoundTrip(|r.inQueue|);
    Peel(d, pq, LE(r.outMessage, 8));  U64RoundTrip(r.outMessage);
    Peel(d, p53, r.outQueue);
    Peel(d, p51, LE(|r.outQueue|, 2));  U16RoundTrip(|r.outQueue|);
    Peel(d, p50, Flag(r.outQueue != []));
    Peel(d, p18, r.digest);
    Peel(d, p2, r.opId);
    Peel(d, [r.kind], [FMT]);
  }

  // ---- LOG_JOB_META ----

  datatype Meta = Meta(storeId: Id, nextMessage: u64, nextIncarnation: u64, versionHwm: u64, commitHwm: u64)

  function MetaPayload(m: Meta): (d: Bytes)
    ensures |d| == 49
  {
    [FMT] + m.storeId + LE(m.nextMessage, 8) + LE(m.nextIncarnation, 8) + LE(m.versionHwm, 8) + LE(m.commitHwm, 8)
  }

  function ParseMeta(d: Bytes): Option<Meta> {
    if |d| != 49 then None
    else Some(Meta(d[1..17], Get64(d, 17), Get64(d, 25), Get64(d, 33), Get64(d, 41)))
  }

  lemma ParseMetaPayload(m: Meta)
    ensures MetaPayload(m)[0] == FMT
    ensures ParseMeta(MetaPayload(m)) == Some(m)
  {
    hide LE, FromLE;
    var d := MetaPayload(m);
    var p17 := [FMT] + m.storeId;
    var p25 := p17 + LE(m.nextMessage, 8);
    var p33 := p25 + LE(m.nextIncarnation, 8);
    var p41 := p33 + LE(m.versionHwm, 8);
    assert d[..|d|] == d;
    Peel(d, p41, LE(m.commitHwm, 8));  U64RoundTrip(m.commitHwm);
    Peel(d, p33, LE(m.versionHwm, 8));  U64RoundTrip(m.versionHwm);
    Peel(d, p25, LE(m.nextIncarnation, 8));  U64RoundTrip(m.nextIncarnation);
    Peel(d, p17, LE(m.nextMessage, 8));  U64RoundTrip(m.nextMessage);
    Peel(d, [FMT], m.storeId);
  }

  // ---- whole records ----

  datatype Record =
    | StateRecord(version: u64, commitId: u64, state: StateBody)
    | CompletionRecord(inQueue: Short, inMessage: u64, commit: u64, completion: CompletionBody)
    | ReceiptRecord(receipt: Receipt)
    | MetaRecord(meta: Meta)

  function Encode(r: Record): Frame {
    match r
    case StateRecord(version, commitId, b) => Frame(OP_STATE, STATE_NAME, version, commitId, StatePayload(b))
    case CompletionRecord(q, m, commitId, b) => Frame(OP_COMPLETION, q, m, commitId, CompletionPayload(b))
    case ReceiptRecord(x) => Frame(OP_RECEIPT, RECEIPT_NAME, x.commitId, x.version, ReceiptPayload(x))
    case MetaRecord(m) => Frame(OP_META, META_NAME, 0, 0, MetaPayload(m))
  }

  /** What replay makes of a frame; None is a refused open or a truncated tail. */
  function Decode(f: Frame): Option<Record> {
    if !(1 <= |f.name| <= NAME_MAX) || !(1 <= |f.data| <= MESSAGE_MAX) || f.data[0] != FMT then None
    else if f.op == OP_STATE then
      var b := ParseState(f.data);
      if b.None? then None else Some(StateRecord(f.id, f.aux, b.value))
    else if f.op == OP_COMPLETION then
      var b := ParseCompletion(f.data);
      if b.None? then None else Some(CompletionRecord(f.name, f.id, f.aux, b.value))
    else if f.op == OP_RECEIPT then
      var r := ParseReceipt(f.data, f.id, f.aux);
      if r.None? then None else Some(ReceiptRecord(r.value))
    else if f.op == OP_META then
      var m := ParseMeta(f.data);
      if m.None? then None else Some(MetaRecord(m.value))
    else None
  }

  /** Exactly the records that survive being written and replayed. */
  predicate Replayable(r: Record) {
    match r
    case StateRecord(_, _, b) => StateBodyOk(b) && 48 + |b.key| + |b.value| <= MESSAGE_MAX
    case CompletionRecord(q, _, _, b) =>
      1 <= |q| <= NAME_MAX && |b.OutQueue()| <= NAME_MAX && CompletionLength(b) <= MESSAGE_MAX
    case ReceiptRecord(x) => x.kind == FMT && 87 + |x.outQueue| + |x.inQueue| <= MESSAGE_MAX
    case MetaRecord(_) => true
  }

  /** A record comes back from the log unchanged exactly when it is replayable, and is never misread. */
  lemma DecodeEncode(r: Record)
    ensures Decode(Encode(r)) == (if Replayable(r) then Some(r) else None)
  {
    hide StatePayload, CompletionPayload, ReceiptPayload, MetaPayload, ParseState, ParseCompletion, ParseMeta,
      Get16, Get32, Get64, CompletionLength, LE;
    match r
    case StateRecord(_, _, b) => StateFields(b); ParseStatePayload(b);
    case CompletionRecord(_, _, _, b) =>
      CompletionFields(b);
      OutputFields(b, CompletionPayload(b));
      ParseCompletionPayload(b);
    case ReceiptRecord(x) => ReceiptFields(x);
    case MetaRecord(m) => ParseMetaPayload(m);
  }

  /** The receipt of a direct mutation is written with its kind where replay expects the format. */
  lemma DirectReceiptIsRefused(r: Receipt)
    requires r.kind == KIND_PUT || r.kind == KIND_DELETE
    ensures Decode(Encode(ReceiptRecord(r))).None?
  {
    DecodeEncode(ReceiptRecord(r));
  }
}
