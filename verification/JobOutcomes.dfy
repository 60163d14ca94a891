/** Who is answered what: admission, fencing and retention in the request's and the engine's own fields. */
module JobOutcomes {
  import opened Bytes
  import opened MapSum
  import opened JobIntent
  import opened JobRecord
  import opened JobImage
  import opened JobAdmission

  /** A store opened with every option zero has 64 MiB for state and for receipts, 100000 receipts kept for a day, and
      operations of up to 128 KiB; an option that is set stays as it is. */
  lemma Defaults(c: Config)
    ensures Effective(Config(0, 0, 0, 0, 0)) == Config(67108864, 67108864, 100000, 86400000, 131072)
    ensures c.stateMaxBytes > 0 ==> Effective(c).stateMaxBytes == c.stateMaxBytes
    ensures c.receiptsMaxBytes > 0 ==> Effective(c).receiptsMaxBytes == c.receiptsMaxBytes
    ensures c.receiptsMaxCount > 0 ==> Effective(c).receiptsMaxCount == c.receiptsMaxCount
    ensures c.retentionMs > 0 ==> Effective(c).retentionMs == c.retentionMs
    ensures c.maxOpBytes > 0 ==> Effective(c).maxOpBytes == c.maxOpBytes
  {
  }

  // ---- versions ----

  /** Nothing but its version and its room can stop an operation with this id. */
  predicate Unhindered(e: Engine, op: Id) {
    && op !in e.img.receipts && e.inDoubt != Some(op) && !e.failed
    && e.img.versionHwm < UINT64_MAX && e.img.commitHwm < UINT64_MAX
  }

  /** The state with the value under the key fits the budget, or is no larger than the state without. */
  ghost predicate StateHolds(e: Engine, key: Short, value: Long) {
    var after := StateBytes(e.img.state[key := Entry(value, 0, 0)]);
    after <= e.cfg.stateMaxBytes || after <= StateBytes(e.img.state)
  }

  /** The ledger has room for one more receipt naming queues of these lengths. */
  ghost predicate LedgerHolds(e: Engine, names: nat) {
    && |e.img.receipts| < e.cfg.receiptsMaxCount
    && ReceiptBytes(e.img.receipts) + 248 + names <= e.cfg.receiptsMaxBytes
  }

  lemma StateHoldsIff(e: Engine, key: Short, value: Long)
    ensures StateRoom(e, key, value) <==> StateHolds(e, key, value)
  {
    hide StateBytes;
    PutFootprint(e.img.state, key, Entry(value, 0, 0));
  }

  lemma LedgerHoldsIff(e: Engine, inLen: nat, outLen: nat)
    ensures ReceiptRoom(e, inLen, outLen) <==> LedgerHolds(e, inLen + outLen)
  {
    hide ReceiptBytes;
  }

  /** A put that nothing hinders is reserved if and only if it creates an absent key, or names the version the key
      has; otherwise it is a version conflict that changes nothing. */
  lemma PutAdmittedIff(e: Engine, r: DirectRequest, now: u64)
    requires r.put && Unhindered(e, r.opId) && StateHolds(e, r.key, r.value) && LedgerHolds(e, 0)
    ensures AdmitDirect(e, r, now, true).1.Reserved?
       <==> (r.expected == 0 && r.key !in e.img.state)
            || (r.expected != 0 && r.key in e.img.state && e.img.state[r.key].version == r.expected)
    ensures AdmitDirect(e, r, now, true).1.Reserved?
         || AdmitDirect(e, r, now, true) == (e, Rejected(StateVersionConflict))
  {
    hide IntentDigest, StateRoom, ReceiptRoom, StateHolds, LedgerHolds, Collected;
    StateHoldsIff(e, r.key, r.value);
    LedgerHoldsIff(e, 0, 0);
  }

  /** A put of the right version that nothing else hinders runs out of room if and only if the state would outgrow
      its budget, or the ledger its caps even after a collection. */
  lemma PutExhaustedIff(e: Engine, r: DirectRequest, now: u64)
    requires r.put && Unhindered(e, r.opId)
    requires if r.expected == 0 then r.key !in e.img.state
             else r.key in e.img.state && e.img.state[r.key].version == r.expected
    ensures AdmitDirect(e, r, now, true).1 == Rejected(ResourceExhausted)
       <==> !StateHolds(e, r.key, r.value) || (!LedgerHolds(e, 0) && !LedgerHolds(Collected(e, now), 0))
  {
    hide IntentDigest, StateRoom, ReceiptRoom, StateHolds, LedgerHolds, Collected;
    StateHoldsIff(e, r.key, r.value);
    LedgerHoldsIff(e, 0, 0);
    LedgerHoldsIff(Collected(e, now), 0, 0);
    CollectedMarks(e, now);
  }

  lemma CollectedMarks(e: Engine, now: nat)
    ensures Collected(e, now).img.versionHwm == e.img.versionHwm && Collected(e, now).img.commitHwm == e.img.commitHwm
    ensures Collected(e, now).proofs == e.proofs && Collected(e, now).epoch == e.epoch
  {
  }

  /** A delete that nothing hinders is reserved if and only if the key has the version it names; an absent key is not
      found, and another version a conflict. */
  lemma DeleteAdmittedIff(e: Engine, r: DirectRequest, now: u64)
    requires !r.put && Unhindered(e, r.opId) && LedgerHolds(e, 0)
    ensures AdmitDirect(e, r, now, true).1.Reserved?
       <==> r.key in e.img.state && e.img.state[r.key].version == r.expected
    ensures r.key !in e.img.state <==> AdmitDirect(e, r, now, true) == (e, Rejected(NotFound))
    ensures r.key in e.img.state && e.img.state[r.key].version != r.expected
       <==> AdmitDirect(e, r, now, true) == (e, Rejected(StateVersionConflict))
  {
    hide IntentDigest, ReceiptRoom, LedgerHolds, Collected;
    LedgerHoldsIff(e, 0, 0);
  }

  /** Only a put or delete of a new id, at the version it names, is ever reserved. */
  lemma DirectIsCurrent(e: Engine, r: DirectRequest, now: u64, alloc: bool)
    requires AdmitDirect(e, r, now, alloc).1.Reserved?
    ensures r.opId !in e.img.receipts && e.inDoubt != Some(r.opId) && !e.failed
    ensures r.put && r.expected == 0 ==> r.key !in e.img.state
    ensures !r.put || r.expected != 0 ==> r.key in e.img.state && e.img.state[r.key].version == r.expected
  {
    hide IntentDigest, StateRoom, ReceiptRoom, RoomMade;
  }

  /** A put or delete acknowledged anew was of a new id at the version it names, and did what it says under the next
      version and commit id. */
  lemma DirectAnew(e: Engine, log: Log, r: DirectRequest, now: u64, alloc: bool, fate: Fate)
    requires Direct(e, log, r, now, alloc, fate).status == Ok && !Direct(e, log, r, now, alloc, fate).replayed
    ensures r.opId !in e.img.receipts && e.inDoubt != Some(r.opId) && !e.failed && e.attached && !log.failed
    ensures r.put && r.expected == 0 ==> r.key !in e.img.state
    ensures !r.put || r.expected != 0 ==> r.key in e.img.state && e.img.state[r.key].version == r.expected
    ensures var d := Direct(e, log, r, now, alloc, fate).e.img;
      && d.versionHwm == e.img.versionHwm + 1 && d.commitHwm == e.img.commitHwm + 1
      && d.state == if r.put then e.img.state[r.key := Entry(r.value, d.versionHwm, d.commitHwm)]
                    else e.img.state - {r.key}
  {
    hide AdmitDirect, IntentDigest, CommitFrame, ValidateDirect;
    var (e1, o) := AdmitDirect(e, r, now, alloc);
    AdmitRefuses(e, r, now, alloc);
    if o.Reserved? {
      DirectIsCurrent(e, r, now, alloc);
      ReservedImage(e, r, now, alloc);
    }
  }

  lemma AdmitRefuses(e: Engine, r: DirectRequest, now: u64, alloc: bool)
    ensures var o := AdmitDirect(e, r, now, alloc).1; o.Rejected? ==> o.status != Ok
  {
    hide IntentDigest, StateRoom, ReceiptRoom, RoomMade, VersionMatches;
  }

  lemma ReservedImage(e: Engine, r: DirectRequest, now: u64, alloc: bool)
    requires AdmitDirect(e, r, now, alloc).1.Reserved?
    ensures var (e1, o) := AdmitDirect(e, r, now, alloc);
      && e1.img.versionHwm == e.img.versionHwm + 1 && e1.img.commitHwm == e.img.commitHwm + 1
      && e1.img.state == e.img.state && e1.attached == e.attached
      && o.commit.version == e1.img.versionHwm && o.commit.commitId == e1.img.commitHwm
      && o.commit.intent.kind == (if r.put then 2 else 3) && o.commit.intent.key == r.key
      && o.commit.intent.value == (if r.put then r.value else [])
  {
    hide IntentDigest, StateRoom, ReceiptRoom, VersionMatches, Swept;
  }

  /** A request without a key, with the zero id, a delete without a version, or one too long is refused before anything
      is looked at. */
  lemma MalformedDirect(e: Engine, log: Log, r: DirectRequest, now: u64, alloc: bool, fate: Fate)
    ensures r.key == [] || r.opId == ZERO_ID || (!r.put && r.expected == 0)
       <==> Direct(e, log, r, now, alloc, fate) == Result(e, log, ValidationFailed, None, false)
    ensures (|r.key| > 0 && r.opId != ZERO_ID && (r.put || r.expected != 0)
             && |r.key| + (if r.put then |r.value| else 0) + 64 > e.cfg.maxOpBytes)
       <==> Direct(e, log, r, now, alloc, fate) == Result(e, log, RequestTooLarge, None, false)
  {
    hide AdmitDirect, Finish;
    AdmitRefuses(e, r, now, alloc);
    AdmitStatus(e, r, now, alloc);
    var (e1, o) := AdmitDirect(e, r, now, alloc);
    if o.Reserved? { FinishStatus(e1, log, o.commit, fate); }
  }

  /** A completion is refused as invalid if and only if a name, the key, the id, an incarnation or the message is
      missing, or a name is too long; then as unsupported without a log, as unavailable without an identity, and as too
      large beyond the bound. */
  lemma MalformedCompletion(e: Engine, r: CompletionRequest)
    ensures
      var invalid := !(1 <= |r.input.queue| <= 255) || r.input.incarnation == 0 || r.input.message == 0 || r.key == []
                     || r.opId == ZERO_ID
                     || (r.output.Some? && !(1 <= |r.output.value.queue| <= 255 && r.output.value.incarnation != 0));
      var extra := if r.output.Some? then |r.output.value.queue| + |r.output.value.value| + 32 else 0;
      && (invalid <==> LookUp(e, r) == Some(Rejected(ValidationFailed)))
      && (!invalid && !e.attached <==> LookUp(e, r) == Some(Rejected(UnsupportedFeature)))
      && (!invalid && e.attached && e.img.storeId.None? ==> LookUp(e, r) == Some(Rejected(PersistenceUnavailable)))
      && (!invalid && e.attached && e.img.storeId.Some?
          && |r.input.queue| + |r.key| + |r.value| + 64 + extra > e.cfg.maxOpBytes
          <==> LookUp(e, r) == Some(Rejected(RequestTooLarge)))
  {
    hide IntentDigest;
  }

  /** When the marks run out the engine latches instead of wrapping them around. */
  lemma ExhaustedLatches(e: Engine, r: DirectRequest, c: CompletionRequest, outMessage: u64, env: Env)
    requires e.img.versionHwm == UINT64_MAX || e.img.commitHwm == UINT64_MAX
    requires r.put && r.opId !in e.img.receipts && e.inDoubt != Some(r.opId) && !e.failed
    requires r.expected == 0 && r.key !in e.img.state && StateHolds(e, r.key, r.value) && LedgerHolds(e, 0)
    ensures AdmitDirect(e, r, env.now, env.alloc) == (e.(failed := true), Rejected(PersistenceUnavailable))
    ensures Prepare(e, c, outMessage, env) == (e.(failed := true), Rejected(PersistenceUnavailable))
  {
    hide IntentDigest, StateRoom, ReceiptRoom, StateHolds, LedgerHolds, Collected;
    StateHoldsIff(e, r.key, r.value);
    LedgerHoldsIff(e, 0, 0);
  }

  /** Without memory for its receipt an operation is refused, and only its version and commit id are spent. */
  lemma NoMemory(e: Engine, r: DirectRequest, now: u64)
    requires AdmitDirect(e, r, now, true).1.Reserved?
    ensures AdmitDirect(e, r, now, false) == (AdmitDirect(e, r, now, true).0, Rejected(ResourceExhausted))
  {
    hide IntentDigest, StateRoom, ReceiptRoom, VersionMatches, RoomMade;
  }

  lemma AdmitStatus(e: Engine, r: DirectRequest, now: u64, alloc: bool)
    ensures var o := AdmitDirect(e, r, now, alloc).1;
      o.Rejected? ==> o.status != ValidationFailed && o.status != RequestTooLarge
  {
    hide IntentDigest, StateRoom, ReceiptRoom, RoomMade, VersionMatches;
  }

  lemma FinishStatus(e: Engine, log: Log, k: Commit, fate: Fate)
    ensures var s := Finish(e, log, k, fate).status; s == Ok || s == OperationInDoubt
  {
    hide CommitFrame, CommitReceipt, ApplyCommit;
  }

  /** What one entry and one receipt are charged. */
  lemma Charges(s: State, key: Short, x: Entry, rs: map<Id, Receipt>, op: Id, r: Receipt)
    requires key !in s && op !in rs
    ensures StateBytes(s[key := x]) == StateBytes(s) + 160 + |key| + |x.value|
    ensures ReceiptBytes(rs[op := r]) == ReceiptBytes(rs) + 248 + |r.inQueue| + |r.outQueue|
  {
    hide Sum;
    SumInsert(s, key, x, EntryFootprint);
    SumInsert(rs, op, r, FootprintOf);
  }

  // ---- delivery proofs ----

  /** The proof is registered by this process for exactly the delivery the request completes. */
  predicate Binds(e: Engine, r: CompletionRequest) {
    r.proof in e.proofs
    && e.proofs[r.proof] == e.proofs[r.proof].(epoch := e.epoch, queue := r.input.queue,
                                              incarnation := r.input.incarnation, message := r.input.message)
  }

  lemma BindsIff(e: Engine, r: CompletionRequest)
    ensures ProofMatches(e, r) <==> Binds(e, r)
  {
  }

  ghost predicate CompletionHolds(e: Engine, r: CompletionRequest) {
    StateHolds(e, r.key, r.value) && LedgerHolds(e, |r.input.queue| + OutLength(r))
  }

  /** A completion with room and marks to spare is reserved if and only if it names the version the key has, or creates
      it, and its proof binds this very delivery and has time left; the first of these that fails is the answer, and
      nothing changes. */
  lemma CompletionAdmittedIff(e: Engine, r: CompletionRequest, outMessage: u64, env: Env)
    requires e.img.versionHwm < UINT64_MAX && e.img.commitHwm < UINT64_MAX && CompletionHolds(e, r) && env.alloc
    ensures var current := (r.expected == 0 && r.key !in e.img.state)
                        || (r.expected != 0 && r.key in e.img.state && e.img.state[r.key].version == r.expected);
      var (e1, o) := Prepare(e, r, outMessage, env);
      && (o.Reserved? <==> current && Binds(e, r) && env.mono < e.proofs[r.proof].expiresMono)
      && (!current ==> (e1, o) == (e, Rejected(StateVersionConflict)))
      && (current && !Binds(e, r) ==> (e1, o) == (e, Rejected(DeliveryNotOwned)))
      && (current && Binds(e, r) && e.proofs[r.proof].expiresMono <= env.mono ==>
            (e1, o) == (e, Rejected(DeliveryExpired)))
  {
    hide IntentDigest, StateRoom, ReceiptRoom, StateHolds, LedgerHolds, Collected, Binds, ProofMatches;
    StateHoldsIff(e, r.key, r.value);
    LedgerHoldsIff(e, |r.input.queue|, OutLength(r));
    BindsIff(e, r);
  }

  /** Whatever else holds, a completion whose proof does not bind its delivery is not reserved. */
  lemma UnboundIsNotReserved(e: Engine, r: CompletionRequest, outMessage: u64, env: Env)
    ensures Prepare(e, r, outMessage, env).1.Reserved? ==> Binds(e, r) && env.mono < e.proofs[r.proof].expiresMono
  {
    hide IntentDigest, StateRoom, ReceiptRoom, Collected, Binds, ProofMatches;
    BindsIff(e, r);
    BindsIff(Collected(e, env.gcNow), r);
    CollectedMarks(e, env.gcNow);
    assert Binds(Collected(e, env.gcNow), r) <==> Binds(e, r) by { SameBinding(e, Collected(e, env.gcNow), r); }
  }

  lemma SameBinding(e: Engine, e1: Engine, r: CompletionRequest)
    requires e1.proofs == e.proofs && e1.epoch == e.epoch
    ensures Binds(e1, r) <==> Binds(e, r)
  {
  }

  /** A completion that no receipt answers is turned away before anything else if the registry has no such proof, has
      it for another queue, incarnation or message, or without the tag and owner to commit with. */
  lemma ForeignDelivery(e: Engine, log: Log, r: CompletionRequest, queue: Option<Status>, outMessage: u64, env: Env,
                        fate: Fate)
    requires LookUp(e, r).None?
    requires r.proof !in e.proofs || e.proofs[r.proof].queue != r.input.queue
          || e.proofs[r.proof].incarnation != r.input.incarnation || e.proofs[r.proof].message != r.input.message
          || e.proofs[r.proof].tag == 0 || e.proofs[r.proof].owner == 0
    ensures Complete(e, log, r, queue, outMessage, env, fate) == Result(e, log, DeliveryNotOwned, None, false)
  {
    hide LookUp, Prepare, Finish;
  }

  /** A completion is acknowledged anew only with a proof that binds its delivery, has time left and is gone
      afterwards. */
  lemma AcknowledgedIsOwned(e: Engine, log: Log, r: CompletionRequest, queue: Option<Status>, outMessage: u64, env: Env,
                            fate: Fate)
    requires queue != Some(Ok)
    ensures var d := Complete(e, log, r, queue, outMessage, env, fate);
      d.status == Ok && !d.replayed ==>
        Binds(e, r) && env.mono < e.proofs[r.proof].expiresMono && r.proof !in d.e.proofs && d.receipt.Some?
  {
    hide LookUp, Prepare, Finish, Binds, ProofMatches, Delivered;
    LookUpRefuses(e, r);
    PrepareRefuses(e, r, outMessage, env);
    UnboundIsNotReserved(e, r, outMessage, env);
    var (e1, o) := Prepare(e, r, outMessage, env);
    if o.Reserved? {
      FinishReceipt(e1, log, o.commit, fate);
    }
  }

  /** A completion whose proof does not bind its delivery, or has no time left, leaves log and state as they are. */
  lemma UnboundWritesNothing(e: Engine, log: Log, r: CompletionRequest, queue: Option<Status>, outMessage: u64,
                             env: Env, fate: Fate)
    requires Binds(e, r) ==> e.proofs[r.proof].expiresMono <= env.mono
    ensures var d := Complete(e, log, r, queue, outMessage, env, fate);
      d.log == log && d.e.img.state == e.img.state
  {
    hide LookUp, Prepare, Finish, Binds, ProofMatches, Delivered, Explained;
    LookUpRefuses(e, r);
    UnboundIsNotReserved(e, r, outMessage, env);
    PreparedState(e, r, outMessage, env);
  }

  lemma PreparedState(e: Engine, r: CompletionRequest, outMessage: u64, env: Env)
    ensures Prepare(e, r, outMessage, env).0.img.state == e.img.state
  {
    hide VersionMatches, StateRoom, ReceiptRoom, ProofMatches, Swept;
  }

  lemma FinishReceipt(e: Engine, log: Log, k: Commit, fate: Fate)
    ensures Finish(e, log, k, fate).status == Ok ==> Finish(e, log, k, fate).receipt == Some(CommitReceipt(k))
  {
    hide CommitFrame, CommitReceipt, ApplyCommit;
  }

  lemma LookUpRefuses(e: Engine, r: CompletionRequest)
    ensures LookUp(e, r).Some? && LookUp(e, r).value.Rejected? ==> LookUp(e, r).value.status != Ok
    ensures LookUp(e, r).Some? ==> !LookUp(e, r).value.Reserved?
  {
    hide IntentDigest, ValidateCompletion;
  }

  lemma PrepareRefuses(e: Engine, r: CompletionRequest, outMessage: u64, env: Env)
    ensures var o := Prepare(e, r, outMessage, env).1; o.Reserved? || (o.Rejected? && o.status != Ok)
  {
    hide VersionMatches, StateRoom, ReceiptRoom, RoomMade, ProofMatches;
  }

  /** A refused completion is told that its delivery expired if and only if its proof binds the delivery and has no
      time left; otherwise it is told what the Queue said. */
  lemma ExpiredDelivery(e: Engine, r: CompletionRequest, mono: u64)
    ensures Explained(e, r, mono, DeliveryNotOwned)
         == if Binds(e, r) && e.proofs[r.proof].expiresMono <= mono then DeliveryExpired else DeliveryNotOwned
    ensures forall s :: s != DeliveryNotOwned ==> Explained(e, r, mono, s) == s
  {
    hide Binds, ProofMatches;
    BindsIff(e, r);
  }

  /** A completion that holds its delivery but that the Queue refuses is told the Queue's reason, or that its delivery
      expired; nothing changes. */
  lemma QueueRefuses(e: Engine, log: Log, r: CompletionRequest, refusal: Status, outMessage: u64, env: Env, fate: Fate)
    requires LookUp(e, r).None? && Binds(e, r) && e.proofs[r.proof].tag != 0 && e.proofs[r.proof].owner != 0
    ensures Complete(e, log, r, Some(refusal), outMessage, env, fate)
         == Result(e, log, if refusal == DeliveryNotOwned && e.proofs[r.proof].expiresMono <= env.mono
                           then DeliveryExpired else refusal, None, false)
  {
    hide LookUp, Prepare, Finish;
  }

  /** With room and marks to spare, what a completion that holds its delivery is answered, and that a refusal leaves
      everything as it is. */
  lemma CompletionAnswered(e: Engine, log: Log, r: CompletionRequest, outMessage: u64, env: Env, fate: Fate)
    requires LookUp(e, r).None? && Binds(e, r) && e.proofs[r.proof].tag != 0 && e.proofs[r.proof].owner != 0
    requires e.img.versionHwm < UINT64_MAX && e.img.commitHwm < UINT64_MAX && CompletionHolds(e, r) && env.alloc
    requires e.attached && !log.failed
    ensures var current := (r.expected == 0 && r.key !in e.img.state)
                        || (r.expected != 0 && r.key in e.img.state && e.img.state[r.key].version == r.expected);
      var d := Complete(e, log, r, None, outMessage, env, fate);
      && (!current ==> d == Result(e, log, StateVersionConflict, None, false))
      && (current && e.proofs[r.proof].expiresMono <= env.mono ==> d == Result(e, log, DeliveryExpired, None, false))
      && (current && env.mono < e.proofs[r.proof].expiresMono ==>
            d.status == (if fate == Durable then Ok else OperationInDoubt) && !d.replayed)
  {
    hide LookUp, Prepare, IntentDigest, CompletionHolds, CommitFrame, CommitReceipt, ApplyCommit;
    CompletionAdmittedIff(e, r, outMessage, env);
    PreparedAttached(e, r, outMessage, env);
  }

  lemma PreparedAttached(e: Engine, r: CompletionRequest, outMessage: u64, env: Env)
    ensures Prepare(e, r, outMessage, env).0.attached == e.attached
  {
    hide VersionMatches, StateRoom, ReceiptRoom, ProofMatches, Swept;
  }

  // ---- in doubt ----

  /** After an append of unknown durability the engine answers its id with doubt and every other new one with
      unavailability, and changes nothing more. */
  lemma LatchedRefuses(e: Engine, log: Log, r: DirectRequest, c: CompletionRequest, now: u64, alloc: bool, fate: Fate)
    requires e.failed
    ensures ValidateDirect(e.cfg, r) == Ok && r.opId !in e.img.receipts ==>
      Direct(e, log, r, now, alloc, fate)
      == Result(e, log, if e.inDoubt == Some(r.opId) then OperationInDoubt else PersistenceUnavailable, None, false)
    ensures ValidateCompletion(e, c) == Ok && c.opId !in e.img.receipts ==>
      LookUp(e, c) == Some(Rejected(if e.inDoubt == Some(c.opId) then OperationInDoubt else PersistenceUnavailable))
  {
    hide ValidateDirect, ValidateCompletion, IntentDigest, StateRoom, ReceiptRoom, RoomMade, VersionMatches;
  }

  // ---- what is reserved ----

  /** A reserved put or delete carries its request, the next version and commit id, the clock it was given, and a
      deadline one retention later. */
  lemma DirectCarries(e: Engine, r: DirectRequest, now: u64, alloc: bool)
    requires AdmitDirect(e, r, now, alloc).1.Reserved? && now + e.cfg.retentionMs < TWO64
    ensures AdmitDirect(e, r, now, alloc).1.commit
         == Commit(Intent(if r.put then 2 else 3, r.opId, StoreIdOf(e.img), None, r.key, r.expected,
                          if r.put then r.value else [], None),
                   e.img.versionHwm + 1, e.img.commitHwm + 1, 0, now, now + e.cfg.retentionMs)
  {
    hide IntentDigest, StateRoom, ReceiptRoom, VersionMatches, Collected;
    CollectedMarks(e, now);
  }

  /** So does a reserved completion, with the id of its output message if it has one. */
  lemma CompletionCarries(e: Engine, r: CompletionRequest, outMessage: u64, env: Env)
    requires Prepare(e, r, outMessage, env).1.Reserved? && env.now + e.cfg.retentionMs < TWO64
    ensures Prepare(e, r, outMessage, env).1.commit
         == Commit(Intent(1, r.opId, StoreIdOf(e.img), Some(r.input), r.key, r.expected, r.value, r.output),
                   e.img.versionHwm + 1, e.img.commitHwm + 1, if r.output.Some? then outMessage else 0,
                   env.now, env.now + e.cfg.retentionMs)
  {
    hide IntentDigest, StateRoom, ReceiptRoom, VersionMatches, Collected, ProofMatches;
    CollectedMarks(e, env.gcNow);
  }
}
