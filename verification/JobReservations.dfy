/** What admission guarantees of the operations it lets through. */
module JobReservations {
  import opened Bytes
  import opened JobIntent
  import opened JobRecord
  import opened JobImage
  import opened JobAdmission
  import opened JobCore
  import opened JobRuns

  /** Operations are bounded so that every record replays, and deadlines are never zero. */
  predicate ConfigOk(cfg: Config) {
    cfg.retentionMs > 0 && cfg.maxOpBytes + 21 <= MESSAGE_MAX
  }

  lemma SweptIsSofter(e: Engine, now: u64)
    ensures Softer(e.img, Collected(e, now).img, now)
  {
  }

  lemma RoomIsSofter(e: Engine, inLen: nat, outLen: nat, now: u64)
    ensures Softer(e.img, RoomMade(e, inLen, outLen, now).img, now)
    ensures RoomMade(e, inLen, outLen, now) == e.(img := RoomMade(e, inLen, outLen, now).img,
                                                  gcCursor := RoomMade(e, inLen, outLen, now).gcCursor)
  {
    hide ReceiptRoom;
    SweptIsSofter(e, now);
  }

  /** Admission of a direct mutation, whatever it answers, only softens memory. */
  lemma DirectSoftens(e: Engine, r: DirectRequest, now: u64, alloc: bool)
    ensures var (e1, _) := AdmitDirect(e, r, now, alloc);
      && Softer(e.img, e1.img, now)
      && e1 == e.(img := e1.img, gcCursor := e1.gcCursor, failed := e1.failed)
  {
    hide Ledger, VersionMatches, StateRoom, ReceiptRoom, Collected, Softer, RoomMade, DirectIntent;
    RoomIsSofter(e, 0, 0, now);
    SofterReflexive(e.img, now);
    SofterReserved(e, RoomMade(e, 0, 0, now), now);
  }

  lemma SofterReflexive(img: Image, now: nat)
    ensures Softer(img, img, now)
  {
  }

  lemma SofterReserved(e: Engine, e1: Engine, now: nat)
    requires Softer(e.img, e1.img, now)
    ensures !Exhausted(e1) ==> Softer(e.img, Reserve(e1).img, now)
  {
  }

  lemma ReserveKeepsRoom(e: Engine, inLen: nat, outLen: nat)
    requires !Exhausted(e)
    ensures ReceiptRoom(Reserve(e), inLen, outLen) <==> ReceiptRoom(e, inLen, outLen)
  {
    hide ReceiptBytes;
  }

  /** A reserved direct mutation is new, passed its version check, fits its budgets and is well formed. */
  lemma DirectReserved(e: Engine, r: DirectRequest, now: u64, alloc: bool)
    requires ConfigOk(e.cfg) && ClockSane(e.cfg, now) && ValidateDirect(e.cfg, r) == Ok
    requires AdmitDirect(e, r, now, alloc).1.Reserved?
    ensures var (e1, o) := AdmitDirect(e, r, now, alloc); var k := o.commit;
      && k.intent == DirectIntent(StoreIdOf(e.img), r)
      && CommitOk(k)
      && e.img.versionHwm < k.version == e1.img.versionHwm
      && e.img.commitHwm < k.commitId == e1.img.commitHwm
      && (r.put ==> StateRoom(e, r.key, r.value) && VersionMatches(e.img.state, r.key, r.expected))
      && (!r.put ==> r.key in e.img.state && e.img.state[r.key].version == r.expected)
      && r.opId !in e.img.receipts && r.opId !in e1.img.receipts
      && ReceiptRoom(e1, 0, 0)
      && !e1.failed
  {
    hide VersionMatches, StateRoom, ReceiptRoom, Softer, IntentDigest, Collected;
    RoomIsSofter(e, 0, 0, now);
    RoomKeepsAbsent(e, 0, 0, now, r.opId);
    ReserveKeepsRoom(RoomMade(e, 0, 0, now), 0, 0);
  }

  lemma RoomKeepsAbsent(e: Engine, inLen: nat, outLen: nat, now: u64, op: Id)
    requires op !in e.img.receipts
    ensures op !in RoomMade(e, inLen, outLen, now).img.receipts
    ensures RoomMade(e, inLen, outLen, now).img.versionHwm == e.img.versionHwm
    ensures RoomMade(e, inLen, outLen, now).img.commitHwm == e.img.commitHwm
    ensures RoomMade(e, inLen, outLen, now).failed == e.failed
  {
    hide ReceiptRoom;
  }

  /** An admitted put never grows the state past its budget. */
  lemma PutFits(e: Engine, k: Commit)
    requires StateBytes(e.img.state) <= e.cfg.stateMaxBytes
    requires k.intent.kind != KIND_DELETE ==> StateRoom(e, k.Key(), k.intent.value)
    ensures StateBytes(ApplyCommit(e.img.state, k)) <= e.cfg.stateMaxBytes
  {
    hide StateBytes;
    if k.intent.kind == KIND_DELETE {
      DeleteFootprint(e.img.state, k.Key());
    } else {
      PutFootprint(e.img.state, k.Key(), Entry(k.intent.value, k.version, k.commitId));
    }
  }

  /** Preparing a completion, whatever it answers, only softens memory. */
  lemma PrepareSoftens(e: Engine, r: CompletionRequest, outMessage: u64, env: Env)
    ensures var (e1, _) := Prepare(e, r, outMessage, env);
      && Softer(e.img, e1.img, env.gcNow)
      && e1 == e.(img := e1.img, gcCursor := e1.gcCursor, failed := e1.failed)
  {
    hide VersionMatches, StateRoom, ReceiptRoom, Collected, Softer, RoomMade, CompletionIntent, ProofMatches;
    var inLen, outLen := |r.input.queue|, OutLength(r);
    RoomIsSofter(e, inLen, outLen, env.gcNow);
    SofterReflexive(e.img, env.gcNow);
    SofterReserved(e, RoomMade(e, inLen, outLen, env.gcNow), env.gcNow);
  }

  /** A completion is only ever reserved with a registered, matching, unexpired proof of this process;
      it passed its version check and is well formed. */
  lemma PrepareReserved(e: Engine, r: CompletionRequest, outMessage: u64, env: Env)
    requires ConfigOk(e.cfg) && ClockSane(e.cfg, env.now) && ValidateCompletion(e, r) == Ok
    requires Prepare(e, r, outMessage, env).1.Reserved?
    ensures var (e1, o) := Prepare(e, r, outMessage, env); var k := o.commit;
      && k.intent == CompletionIntent(StoreIdOf(e.img), r)
      && CommitOk(k)
      && e.img.versionHwm < k.version == e1.img.versionHwm
      && e.img.commitHwm < k.commitId == e1.img.commitHwm
      && StateRoom(e, k.Key(), k.intent.value)
      && VersionMatches(e.img.state, k.Key(), k.intent.expected)
      && ProofMatches(e, r) && r.proof in e.proofs
      && e.proofs[r.proof].epoch == e.epoch && e.proofs[r.proof].queue == r.input.queue
      && e.proofs[r.proof].incarnation == r.input.incarnation && e.proofs[r.proof].message == r.input.message
      && env.mono < e.proofs[r.proof].expiresMono
      && ReceiptRoom(e1, |r.input.queue|, OutLength(r))
  {
    hide VersionMatches, StateRoom, ReceiptRoom, Softer, IntentDigest, Collected;
    RoomIsSofter(e, |r.input.queue|, OutLength(r), env.gcNow);
    RoomKeepsMarks(e, |r.input.queue|, OutLength(r), env.gcNow);
    ReserveKeepsRoom(RoomMade(e, |r.input.queue|, OutLength(r), env.gcNow), |r.input.queue|, OutLength(r));
  }

  lemma RoomKeepsMarks(e: Engine, inLen: nat, outLen: nat, now: u64)
    ensures RoomMade(e, inLen, outLen, now).img.versionHwm == e.img.versionHwm
    ensures RoomMade(e, inLen, outLen, now).img.commitHwm == e.img.commitHwm
  {
    hide ReceiptRoom;
  }

  lemma SofterState(a: Image, b: Image, now: nat)
    requires Softer(a, b, now)
    ensures b.state == a.state && b.storeId == a.storeId
  {
  }

  lemma DirectHadRoom(e: Engine, r: DirectRequest, now: u64, alloc: bool)
    requires AdmitDirect(e, r, now, alloc).1.Reserved?
    ensures r.put ==> StateRoom(e, r.key, r.value) && VersionMatches(e.img.state, r.key, r.expected)
    ensures !r.put ==> r.key in e.img.state && e.img.state[r.key].version == r.expected
  {
    hide VersionMatches, StateRoom, ReceiptRoom, RoomMade, DirectIntent, IntentDigest;
  }
}
