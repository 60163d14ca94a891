/** What the log means: durable state, receipts and high-water marks rebuilt record by record. */
module JobImage {
  import opened Bytes
  import opened JobIntent
  import opened JobRecord

  datatype Entry = Entry(value: Long, version: u64, commitId: u64)

  type State = map<Short, Entry>

  /** The part of the engine that replay rebuilds. */
  datatype Image = Image(
    storeId: Option<Id>,
    state: State,
    receipts: map<Id, Receipt>,
    versionHwm: u64,
    commitHwm: u64)

  const EMPTY := Image(None, map[], map[], 0, 0)

  function Max(a: u64, b: u64): (m: u64)
    ensures m >= a && m >= b && (m == a || m == b)
  {
    if a < b then b else a
  }

  function StoreIdOf(img: Image): Id {
    if img.storeId.Some? then img.storeId.value else ZERO_ID
  }

  function RaiseHwm(img: Image, version: u64, commitId: u64): Image {
    img.(versionHwm := Max(img.versionHwm, version), commitHwm := Max(img.commitHwm, commitId))
  }

  /** A repeated operation id is accepted only with the same commit, version and digest. */
  function InsertReceipt(receipts: map<Id, Receipt>, r: Receipt): Option<map<Id, Receipt>> {
    if r.opId !in receipts then Some(receipts[r.opId := r])
    else
      var first := receipts[r.opId];
      if first.commitId == r.commitId && first.version == r.version && first.digest == r.digest then Some(receipts)
      else None
  }

  function WithReceipt(img: Image, r: Receipt): Option<Image> {
    var inserted := InsertReceipt(img.receipts, r);
    if inserted.None? then None else Some(img.(receipts := inserted.value))
  }

  // ---- the replay hooks ----

  function HookState(img: Image, version: u64, commitId: u64, b: StateBody): Option<Image> {
    var put := b.kind == KIND_PUT;
    var kind := if put then KIND_PUT else KIND_DELETE;
    var intent := Intent(kind, b.opId, StoreIdOf(img), None, b.key, b.expected, if put then b.value else [], None);
    var state := if put then img.state[b.key := Entry(b.value, version, commitId)] else img.state - {b.key};
    var next := RaiseHwm(img.(state := state), version, commitId);
    if b.expiresAt == 0 then Some(next)
    else WithReceipt(next, Receipt(b.kind, b.opId, IntentDigest(intent), commitId, version,
                                   [], 0, [], 0, b.completedAt, b.expiresAt))
  }

  function HookCompletion(img: Image, q: Short, m: u64, commitId: u64, b: CompletionBody): Option<Image> {
    var output :=
      if b.output.None? then None
      else Some(OutputRef(b.output.value.queue, b.output.value.incarnation, b.output.value.value));
    var intent := Intent(KIND_COMPLETION, b.opId, StoreIdOf(img), Some(InputRef(q, b.inIncarnation, m)),
                         b.key, b.expected, b.value, output);
    var next := RaiseHwm(img.(state := img.state[b.key := Entry(b.value, b.version, commitId)]), b.version, commitId);
    WithReceipt(next, Receipt(KIND_COMPLETION, b.opId, IntentDigest(intent), commitId, b.version,
                              q, m, b.OutQueue(), b.OutMessage(), b.completedAt, b.expiresAt))
  }

  function HookMeta(img: Image, m: Meta): Image {
    var known := if img.storeId.Some? then img else img.(storeId := Some(m.storeId));
    RaiseHwm(known, m.versionHwm, m.commitHwm)
  }

  function Apply(img: Image, r: Record): Option<Image> {
    match r
    case StateRecord(version, commitId, b) => HookState(img, version, commitId, b)
    case CompletionRecord(q, m, commitId, b) => HookCompletion(img, q, m, commitId, b)
    case ReceiptRecord(x) => WithReceipt(RaiseHwm(img, x.version, x.commitId), x)
    case MetaRecord(m) => Some(HookMeta(img, m))
  }

  /** Replays one frame on top of `at`; a refused frame refuses the open. */
  function ReplayFrame(at: Option<Image>, f: Frame): Option<Image> {
    if at.None? then None
    else
      var r := Decode(f);
      if r.None? then None else Apply(at.value, r.value)
  }

  function ReplayFrom(at: Option<Image>, frames: seq<Frame>): Option<Image> {
    if |frames| == 0 then at
    else ReplayFrame(ReplayFrom(at, frames[..|frames| - 1]), frames[|frames| - 1])
  }

  /** What a log of whole records amounts to. */
  function Replay(frames: seq<Frame>): Option<Image> {
    ReplayFrom(Some(EMPTY), frames)
  }

  /** A record whose header is within its limits; any other reads as corrupt. */
  predicate Sized(f: Frame) {
    1 <= |f.name| <= NAME_MAX && 1 <= |f.data| <= MESSAGE_MAX
  }

  /** The log without the corrupt records at its end. */
  function Intact(frames: seq<Frame>): seq<Frame> {
    if |frames| > 0 && !Sized(frames[|frames| - 1]) then Intact(frames[..|frames| - 1]) else frames
  }

  /** Opening a store on this log: a corrupt end is cut off, and a corrupt record before an intact one refuses. */
  function OpenLog(frames: seq<Frame>): Option<Image> {
    Replay(Intact(frames))
  }

  lemma DecodedIsSized(f: Frame)
    ensures Decode(f).Some? ==> Sized(f)
  {
  }

  lemma {:induction false} ReplayedAreSized(at: Option<Image>, frames: seq<Frame>)
    requires ReplayFrom(at, frames).Some?
    ensures forall i :: 0 <= i < |frames| ==> Sized(frames[i])
  {
    hide Apply, Decode, Sized;
    if |frames| > 0 {
      ReplayedAreSized(at, frames[..|frames| - 1]);
      DecodedIsSized(frames[|frames| - 1]);
    }
  }

  lemma {:induction false} IntactIs(frames: seq<Frame>, n: nat)
    requires n <= |frames| && (n > 0 ==> Sized(frames[n - 1]))
    requires forall j :: n <= j < |frames| ==> !Sized(frames[j])
    ensures Intact(frames) == frames[..n]
  {
    hide Sized;
    if n < |frames| {
      var front := frames[..|frames| - 1];
      IntactIs(front, n);
      assert front[..n] == frames[..n];
    } else {
      assert frames[..n] == frames;
    }
  }

  lemma {:induction false} IntactBeyond(frames: seq<Frame>, j: nat)
    requires j < |frames| && Sized(frames[j])
    ensures j < |Intact(frames)| && Intact(frames) <= frames
  {
    hide Sized;
    if !Sized(frames[|frames| - 1]) {
      IntactBeyond(frames[..|frames| - 1], j);
    }
  }

  lemma {:induction false} ReplayConcat(at: Option<Image>, a: seq<Frame>, b: seq<Frame>)
    ensures ReplayFrom(at, a + b) == ReplayFrom(ReplayFrom(at, a), b)
  {
    if |b| == 0 {
      assert a + b == a;
    } else {
      var front := b[..|b| - 1];
      ReplayConcat(at, a, front);
      assert (a + b)[..|a + b| - 1] == a + front;
    }
  }

  lemma {:induction false} ReplayNone(frames: seq<Frame>)
    ensures ReplayFrom(None, frames) == None
  {
    if |frames| > 0 {
      ReplayNone(frames[..|frames| - 1]);
    }
  }

  // ---- commits ----

  /** One committed operation: its semantic request and the identity it was given. */
  datatype Commit = Commit(
    intent: Intent, version: u64, commitId: u64, outMessage: u64, completedAt: u64, expiresAt: u64)
  {
    function Key(): Short { intent.key }
    function OpId(): Id { intent.opId }
  }

  function CommitRecord(c: Commit): Record {
    var i := c.intent;
    if i.kind == KIND_COMPLETION then
      var output :=
        if i.output.None? then None
        else Some(OutputBody(i.output.value.queue, i.output.value.incarnation, c.outMessage, i.output.value.value));
      CompletionRecord(i.InQueue(), i.InMessage(), c.commitId,
                       CompletionBody(i.opId, i.InIncarnation(), output, c.version, i.key, i.expected, i.value,
                                      c.completedAt, c.expiresAt))
    else
      StateRecord(c.version, c.commitId,
                  StateBody(i.kind, i.opId, i.expected, i.key, i.value, c.completedAt, c.expiresAt))
  }

  function CommitReceipt(c: Commit): Receipt {
    var i := c.intent;
    Receipt(i.kind, i.opId, IntentDigest(i), c.commitId, c.version, i.InQueue(), i.InMessage(),
            i.OutQueue(), if i.output.Some? then c.outMessage else 0, c.completedAt, c.expiresAt)
  }

  function CommitFrame(c: Commit): Frame {
    Encode(CommitRecord(c))
  }

  function ApplyCommit(state: State, c: Commit): State {
    if c.intent.kind == KIND_DELETE then state - {c.Key()}
    else state[c.Key() := Entry(c.intent.value, c.version, c.commitId)]
  }

  /** The shape every admitted operation has. */
  predicate CommitOk(c: Commit) {
    && Replayable(CommitRecord(c))
    && c.expiresAt != 0 && c.version > 0
    && (c.intent.kind == KIND_COMPLETION ==> c.intent.input.Some?)
    && (c.intent.kind != KIND_COMPLETION ==> c.intent.input.None? && c.intent.output.None?)
  }

  /** The image after a commit whose receipt is new. */
  function CommitImage(img: Image, c: Commit): Image {
    RaiseHwm(img, c.version, c.commitId).(
      state := ApplyCommit(img.state, c), receipts := img.receipts[c.OpId() := CommitReceipt(c)])
  }

  /** Replaying a commit's record does what the live commit did, and the digest recomputed from the
      record is the live one; a conflicting receipt for the same operation id refuses the open. */
  lemma ReplayCommit(img: Image, c: Commit)
    requires CommitOk(c) && img.storeId == Some(c.intent.storeId)
    requires c.OpId() in img.receipts ==> img.receipts[c.OpId()].commitId != c.commitId
    ensures ReplayFrame(Some(img), CommitFrame(c))
         == if c.OpId() in img.receipts then None else Some(CommitImage(img, c))
  {
    hide Encode, Decode, IntentDigest, CompletionLength;
    DecodeEncode(CommitRecord(c));
    var i := c.intent;
    if i.kind == KIND_COMPLETION {
      assert i.input == Some(InputRef(i.InQueue(), i.InIncarnation(), i.InMessage()));
      assert i == Intent(KIND_COMPLETION, i.opId, i.storeId, i.input, i.key, i.expected, i.value, i.output);
      assert Apply(img, CommitRecord(c))
          == if c.OpId() in img.receipts then None else Some(CommitImage(img, c));
    } else {
      assert i == Intent(i.kind, i.opId, i.storeId, None, i.key, i.expected, i.value, None);
    }
  }

  /** A record that was already replayed is accepted again and changes nothing. */
  lemma ReplayAgain(img: Image, c: Commit)
    requires CommitOk(c) && img.storeId == Some(c.intent.storeId)
    ensures ReplayFrame(Some(CommitImage(img, c)), CommitFrame(c)) == Some(CommitImage(img, c))
  {
    hide Encode, Decode, IntentDigest, CompletionLength;
    DecodeEncode(CommitRecord(c));
    var i, done := c.intent, CommitImage(img, c);
    if i.kind == KIND_COMPLETION {
      assert i.input == Some(InputRef(i.InQueue(), i.InIncarnation(), i.InMessage()));
      assert i == Intent(KIND_COMPLETION, i.opId, i.storeId, i.input, i.key, i.expected, i.value, i.output);
      assert ApplyCommit(done.state, c) == done.state;
      assert Apply(done, CommitRecord(c)) == Some(done);
    } else {
      assert i == Intent(i.kind, i.opId, i.storeId, None, i.key, i.expected, i.value, None);
      assert ApplyCommit(done.state, c) == done.state;
    }
  }
}
