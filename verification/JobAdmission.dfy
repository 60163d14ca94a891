/** What each locked section of the job engine decides and changes, on values. */
module JobAdmission {
  import opened Bytes
  import opened MapSum
  import opened JobIntent
  import opened JobRecord
  import opened JobImage
  import opened JobCheckpoint

  datatype Status =
    | Ok | UnsupportedFeature | ValidationFailed | RequestTooLarge | IdempotencyConflict
    | StateVersionConflict | DeliveryExpired | DeliveryNotOwned | ResourceExhausted
    | OperationInDoubt | PersistenceUnavailable | NotFound

  datatype Config = Config(
    stateMaxBytes: nat, receiptsMaxBytes: nat, receiptsMaxCount: nat, retentionMs: nat, maxOpBytes: nat)

  /** A zero selects the default. */
  function Effective(c: Config): (r: Config)
    ensures r.retentionMs > 0
  {
    Config(if c.stateMaxBytes == 0 then 0x400_0000 else c.stateMaxBytes,
           if c.receiptsMaxBytes == 0 then 0x400_0000 else c.receiptsMaxBytes,
           if c.receiptsMaxCount == 0 then 100000 else c.receiptsMaxCount,
           if c.retentionMs == 0 then 86400000 else c.retentionMs,
           if c.maxOpBytes == 0 then 131072 else c.maxOpBytes)
  }

  /** A delivery proof binds a worker to one delivery of one message in one process lifetime. */
  datatype Proof = Proof(
    epoch: Id, queue: Short, incarnation: u64, message: u64, tag: u64, owner: u64, expiresMono: u64)

  datatype Engine = Engine(
    cfg: Config,
    img: Image,
    failed: bool,
    attached: bool,
    gcCursor: nat,
    inDoubt: Option<Id>,
    proofs: map<Id, Proof>,
    epoch: Id)

  // ---- footprints and budgets ----

  const ENTRY_OVERHEAD := 64 + 96    // sizeof(JobStateEntry) and the index charge
  const RECEIPT_OVERHEAD := 152 + 96 // sizeof(JobReceiptRec) and the index charge

  function EntryFootprint(k: Short, e: Entry): nat {
    ENTRY_OVERHEAD + |k| + |e.value|
  }

  function ReceiptFootprint(inLen: nat, outLen: nat): nat {
    RECEIPT_OVERHEAD + inLen + outLen
  }

  function FootprintOf(op: Id, r: Receipt): nat {
    ReceiptFootprint(|r.inQueue|, |r.outQueue|)
  }

  ghost function StateBytes(s: State): nat { Sum(s, EntryFootprint) }

  ghost function ReceiptBytes(rs: map<Id, Receipt>): nat { Sum(rs, FootprintOf) }

  /** How much a put changes the state footprint: an update in place counts only its delta. */
  function Growth(s: State, key: Short, value: Long): int {
    if key in s then |value| - |s[key].value| else ENTRY_OVERHEAD + |key| + |value|
  }

  ghost predicate StateRoom(e: Engine, key: Short, value: Long) {
    var delta := Growth(e.img.state, key, value);
    delta > 0 ==> StateBytes(e.img.state) + delta <= e.cfg.stateMaxBytes
  }

  ghost predicate ReceiptRoom(e: Engine, inLen: nat, outLen: nat) {
    && |e.img.receipts| + 1 <= e.cfg.receiptsMaxCount
    && ReceiptBytes(e.img.receipts) + ReceiptFootprint(inLen, outLen) <= e.cfg.receiptsMaxBytes
  }

  /** A put changes the state footprint by exactly its growth. */
  lemma PutFootprint(s: State, key: Short, e: Entry)
    ensures StateBytes(s[key := e]) == StateBytes(s) + Growth(s, key, e.value)
  {
    SumInsert(s, key, e, EntryFootprint);
    if key in s {
      SumRemove(s, key, EntryFootprint);
    }
  }

  lemma DeleteFootprint(s: State, key: Short)
    ensures StateBytes(s - {key}) == StateBytes(s) - (if key in s then EntryFootprint(key, s[key]) else 0)
  {
    if key in s {
      SumRemove(s, key, EntryFootprint);
    } else {
      assert s - {key} == s;
    }
  }

  // ---- bounded receipt collection ----

  const RECEIPT_BUCKETS := 4096
  const GC_BUDGET := 64

  function FnvStep(h: bv32, b: bv32): bv32 {
    (h ^ b) * 16777619
  }

  function Fnv1a(s: Bytes): bv32 {
    if |s| == 0 then 2166136261 else FnvStep(Fnv1a(s[..|s| - 1]), s[|s| - 1] as bv32)
  }

  lemma FnvNext(s: Bytes, b: byte, x: bv32, h: bv32, next: bv32)
    requires Fnv1a(s) == h && b as bv32 == x && FnvStep(h, x) == next
    ensures Fnv1a(s + [b]) == next
  {
    hide FnvStep;
    assert (s + [b])[..|s|] == s;
  }

  /** Known answers of the 32-bit FNV-1a hash: of nothing and of "a". */
  lemma FnvVectors()
    ensures Fnv1a([]) == 0x811c9dc5 && Fnv1a([97]) == 0xe40c292c
  {
    assert FnvStep(0x811c9dc5, 97) == 0xe40c292c;
    FnvNext([], 97, 97, 0x811c9dc5, 0xe40c292c);
    assert [] + [97] == [97];
  }

  function ReceiptBucket(op: Id): (b: nat)
    ensures b < RECEIPT_BUCKETS
  {
    Fnv1a(op) as nat % RECEIPT_BUCKETS
  }

  /** Bucket `b` is among the `n` buckets visited from `cursor` on, cyclically. */
  predicate Visited(b: nat, cursor: nat, n: nat) {
    (b + RECEIPT_BUCKETS - cursor % RECEIPT_BUCKETS) % RECEIPT_BUCKETS < n
  }

  /** The receipts left after sweeping `n` buckets. */
  function Swept(rs: map<Id, Receipt>, cursor: nat, n: nat, now: nat): map<Id, Receipt> {
    map op | op in rs && !(Visited(ReceiptBucket(op), cursor, n) && Expired(rs[op], now)) :: rs[op]
  }

  function Collected(e: Engine, now: nat): Engine {
    e.(img := e.img.(receipts := Swept(e.img.receipts, e.gcCursor, GC_BUDGET, now)),
       gcCursor := (e.gcCursor + GC_BUDGET) % RECEIPT_BUCKETS)
  }

  // ---- direct mutations ----

  datatype DirectRequest = DirectRequest(put: bool, key: Short, value: Long, expected: u64, opId: Id)

  function DirectIntent(storeId: Id, r: DirectRequest): Intent {
    Intent(if r.put then KIND_PUT else KIND_DELETE, r.opId, storeId, None, r.key, r.expected,
           if r.put then r.value else [], None)
  }

  function ValidateDirect(cfg: Config, r: DirectRequest): Status {
    if |r.key| == 0 || r.opId == ZERO_ID || (!r.put && r.expected == 0) then ValidationFailed
    else if |r.key| + (if r.put then |r.value| else 0) + 64 > cfg.maxOpBytes then RequestTooLarge
    else Ok
  }

  /** Zero creates only; a positive version must match exactly. */
  predicate VersionMatches(s: State, key: Short, expected: u64) {
    if expected == 0 then key !in s else key in s && s[key].version == expected
  }

  datatype Outcome =
    | Rejected(status: Status)
    | Matched(receipt: Receipt)
    | Reserved(commit: Commit)

  function Reserve(e: Engine): Engine
    requires e.img.versionHwm < UINT64_MAX && e.img.commitHwm < UINT64_MAX
  {
    e.(img := e.img.(versionHwm := e.img.versionHwm + 1, commitHwm := e.img.commitHwm + 1))
  }

  predicate Exhausted(e: Engine) {
    e.img.versionHwm == UINT64_MAX || e.img.commitHwm == UINT64_MAX
  }

  /** The ledger's answer for an operation id: nothing retained, a matching retry, or a conflict. */
  function Ledger(rs: map<Id, Receipt>, i: Intent): Option<Outcome> {
    if i.opId !in rs then None
    else if rs[i.opId].kind != i.kind || rs[i.opId].digest != IntentDigest(i) then
      Some(Rejected(IdempotencyConflict))
    else Some(Matched(rs[i.opId]))
  }

  /** Makes room in the ledger if it can: one bounded collection, then the same test again. */
  ghost function RoomMade(e: Engine, inLen: nat, outLen: nat, now: nat): Engine {
    if ReceiptRoom(e, inLen, outLen) then e else Collected(e, now)
  }

  function Deadline(cfg: Config, now: u64): u64 {
    (now + cfg.retentionMs) % TWO64
  }

  /** Admission of a put or delete, with the state lock held. */
  ghost function AdmitDirect(e: Engine, r: DirectRequest, now: u64, alloc: bool): (Engine, Outcome) {
    var i := DirectIntent(StoreIdOf(e.img), r);
    var known := Ledger(e.img.receipts, i);
    if known.Some? then (e, known.value)
    else if e.inDoubt == Some(r.opId) then (e, Rejected(OperationInDoubt))
    else if e.failed then (e, Rejected(PersistenceUnavailable))
    else if r.put && !VersionMatches(e.img.state, r.key, r.expected) then (e, Rejected(StateVersionConflict))
    else if !r.put && r.key !in e.img.state then (e, Rejected(NotFound))
    else if !r.put && e.img.state[r.key].version != r.expected then (e, Rejected(StateVersionConflict))
    else if r.put && !StateRoom(e, r.key, r.value) then (e, Rejected(ResourceExhausted))
    else
      var e1 := RoomMade(e, 0, 0, now);
      if !ReceiptRoom(e1, 0, 0) then (e1, Rejected(ResourceExhausted))
      else if Exhausted(e1) then (e1.(failed := true), Rejected(PersistenceUnavailable))
      else
        var e2 := Reserve(e1);
        if !alloc then (e2, Rejected(ResourceExhausted))
        else (e2, Reserved(Commit(i, e2.img.versionHwm, e2.img.commitHwm, 0, now, Deadline(e.cfg, now))))
  }

  /** Publication of a committed operation; an existing receipt for its id is kept. */
  function Published(e: Engine, c: Commit): Engine {
    e.(img := e.img.(
         state := ApplyCommit(e.img.state, c),
         receipts := if c.OpId() in e.img.receipts then e.img.receipts
                     else e.img.receipts[c.OpId() := CommitReceipt(c)]))
  }

  function InDoubt(e: Engine, op: Id): Engine {
    e.(failed := true, inDoubt := Some(op))
  }

  // ---- the log ----

  /** How a synchronous append ends: acknowledged, failed with the record kept, or failed with it lost. */
  datatype Fate = Durable | Kept | Lost

  /** A failed append latches the log: nothing is written after it. */
  datatype Log = Log(frames: seq<Frame>, failed: bool)

  function Append(log: Log, f: Frame, fate: Fate): (Log, bool) {
    if log.failed then (log, false)
    else if fate == Lost then (log.(failed := true), false)
    else (Log(log.frames + [f], fate == Kept), fate == Durable)
  }

  datatype Result = Result(e: Engine, log: Log, status: Status, receipt: Option<Receipt>, replayed: bool)

  /** The append of a reserved commit and what follows from its outcome. */
  function Finish(e: Engine, log: Log, c: Commit, fate: Fate): Result {
    var (log', ok) := if e.attached then Append(log, CommitFrame(c), fate) else (log, false);
    if ok then Result(Published(e, c), log', Ok, Some(CommitReceipt(c)), false)
    else Result(InDoubt(e, c.OpId()), log', OperationInDoubt, None, false)
  }

  /** A whole direct mutation. */
  ghost function Direct(e: Engine, log: Log, r: DirectRequest, now: u64, alloc: bool, fate: Fate): Result {
    var v := ValidateDirect(e.cfg, r);
    if v != Ok then Result(e, log, v, None, false)
    else
      var (e1, outcome) := AdmitDirect(e, r, now, alloc);
      match outcome
      case Rejected(status) => Result(e1, log, status, None, false)
      case Matched(receipt) => Result(e1, log, Ok, Some(receipt), true)
      case Reserved(c) => Finish(e1, log, c, fate)
  }

  // ---- completions ----

  datatype CompletionRequest = CompletionRequest(
    input: InputRef, proof: Id, key: Short, expected: u64, value: Long, output: Option<OutputRef>, opId: Id)

  function CompletionIntent(storeId: Id, r: CompletionRequest): Intent {
    Intent(KIND_COMPLETION, r.opId, storeId, Some(r.input), r.key, r.expected, r.value, r.output)
  }

  function OutLength(r: CompletionRequest): nat {
    if r.output.Some? then |r.output.value.queue| else 0
  }

  function Aggregate(r: CompletionRequest): nat {
    |r.input.queue| + |r.key| + |r.value| + 64
    + if r.output.Some? then |r.output.value.queue| + |r.output.value.value| + 32 else 0
  }

  function ValidateCompletion(e: Engine, r: CompletionRequest): Status {
    if |r.input.queue| == 0 || |r.input.queue| > NAME_MAX || r.input.incarnation == 0 || r.input.message == 0
       || |r.key| == 0 || r.opId == ZERO_ID
       || (r.output.Some? && (|r.output.value.queue| == 0 || |r.output.value.queue| > NAME_MAX
                              || r.output.value.incarnation == 0)) then ValidationFailed
    else if !e.attached then UnsupportedFeature
    else if e.img.storeId.None? then PersistenceUnavailable
    else if Aggregate(r) > e.cfg.maxOpBytes then RequestTooLarge
    else Ok
  }

  /** Receipt, in-doubt and latch checks that precede every delivery validation; None proceeds. */
  function LookUp(e: Engine, r: CompletionRequest): Option<Outcome> {
    var v := ValidateCompletion(e, r);
    if v != Ok then Some(Rejected(v))
    else
      var known := Ledger(e.img.receipts, CompletionIntent(StoreIdOf(e.img), r));
      if known.Some? then known
      else if e.inDoubt == Some(r.opId) then Some(Rejected(OperationInDoubt))
      else if e.failed then Some(Rejected(PersistenceUnavailable))
      else None
  }

  /** The receipt check repeated under the Queue locks. */
  function Recheck(e: Engine, r: CompletionRequest): Option<Outcome> {
    Ledger(e.img.receipts, CompletionIntent(StoreIdOf(e.img), r))
  }

  predicate ProofMatches(e: Engine, r: CompletionRequest) {
    && r.proof in e.proofs
    && e.proofs[r.proof].epoch == e.epoch
    && e.proofs[r.proof].queue == r.input.queue
    && e.proofs[r.proof].incarnation == r.input.incarnation
    && e.proofs[r.proof].message == r.input.message
  }

  /** The clocks and allocator as one prepare sees them. */
  datatype Env = Env(now: u64, gcNow: u64, mono: u64, alloc: bool)

  /** Version check, budgets, delivery proof and reservations, taking the state lock. */
  ghost function Prepare(e: Engine, r: CompletionRequest, outMessage: u64, env: Env): (Engine, Outcome) {
    var inLen := |r.input.queue|;
    if Exhausted(e) then (e.(failed := true), Rejected(PersistenceUnavailable))
    else if !VersionMatches(e.img.state, r.key, r.expected) then (e, Rejected(StateVersionConflict))
    else if !StateRoom(e, r.key, r.value) then (e, Rejected(ResourceExhausted))
    else
      var e1 := RoomMade(e, inLen, OutLength(r), env.gcNow);
      if !ReceiptRoom(e1, inLen, OutLength(r)) then (e1, Rejected(ResourceExhausted))
      else if !ProofMatches(e1, r) then (e1, Rejected(DeliveryNotOwned))
      else if e1.proofs[r.proof].expiresMono <= env.mono then (e1, Rejected(DeliveryExpired))
      else
        var e2 := Reserve(e1);
        if !env.alloc then (e2, Rejected(ResourceExhausted))
        else
          (e2, Reserved(Commit(CompletionIntent(StoreIdOf(e.img), r), e2.img.versionHwm, e2.img.commitHwm,
                               if r.output.Some? then outMessage else 0, env.now, Deadline(e.cfg, env.now))))
  }

  /** The registry's native tag and owner for this delivery; without them there is nothing to commit. */
  predicate Delivered(e: Engine, r: CompletionRequest) {
    && r.proof in e.proofs
    && e.proofs[r.proof].queue == r.input.queue
    && e.proofs[r.proof].incarnation == r.input.incarnation
    && e.proofs[r.proof].message == r.input.message
    && e.proofs[r.proof].tag != 0 && e.proofs[r.proof].owner != 0
  }

  /** A completion whose proof has run out is told so even when the Queue only saw a foreign delivery. */
  function Explained(e: Engine, r: CompletionRequest, mono: u64, status: Status): Status {
    if status == DeliveryNotOwned && ProofMatches(e, r) && e.proofs[r.proof].expiresMono <= mono then DeliveryExpired
    else status
  }

  function Retired(e: Engine, proof: Id): Engine {
    e.(proofs := e.proofs - {proof})
  }

  /** A whole completion with nothing interleaved; `queue` is the Queue engine's own rejection, if any. */
  ghost function Complete(e: Engine, log: Log, r: CompletionRequest, queue: Option<Status>, outMessage: u64, env: Env,
                          fate: Fate): Result
  {
    var known := LookUp(e, r);
    if known.Some? then
      if known.value.Matched? then Result(e, log, Ok, Some(known.value.receipt), true)
      else Result(e, log, if known.value.Rejected? then known.value.status else Ok, None, false)
    else if !Delivered(e, r) then Result(e, log, DeliveryNotOwned, None, false)
    else if queue.Some? then Result(e, log, Explained(e, r, env.mono, queue.value), None, false)
    else
      var (e1, outcome) := Prepare(e, r, outMessage, env);
      match outcome
      case Rejected(status) => Result(e1, log, Explained(e1, r, env.mono, status), None, false)
      case Matched(receipt) => Result(e1, log, Ok, Some(receipt), true)
      case Reserved(c) =>
        var done := Finish(e1, log, c, fate);
        if done.status == Ok then done.(e := Retired(done.e, r.proof)) else done
  }
}
