/** What one acknowledged operation leaves behind: with nothing in its way it commits, and how, in plain fields. */
module JobEffects {
  import opened Bytes
  import opened JobIntent
  import opened JobRecord
  import opened JobImage
  import opened JobHistory
  import opened JobAdmission
  import opened JobOutcomes
  import opened JobCore
  import opened JobMirror
  import opened JobRuns
  import opened JobReservations
  import opened JobFencing
  import opened JobSafety
  import opened JobTheorems

  /** The process is up and may write. */
  predicate Writable(w: World) {
    w.up && w.e.attached && !w.log.failed
  }

  /** The operation is there: shown, on the log as the last commit, and answered for from now on. */
  ghost predicate Takes(w: World, x: World, state: State, receipt: Receipt) {
    && x.e.img.state == state
    && receipt.opId in x.e.img.receipts && x.e.img.receipts[receipt.opId] == receipt
    && x.e.img.versionHwm == w.e.img.versionHwm + 1 && x.e.img.commitHwm == w.e.img.commitHwm + 1
    && |x.hist| == |w.hist| + 1 && w.hist <= x.hist && x.hist[|w.hist|].OpId() == receipt.opId
    && x.applied == w.applied + 1 && |w.hist| in x.linked
    && Writable(x) && !x.e.failed && x.e.inDoubt == w.e.inDoubt && |x.log.frames| == |w.log.frames| + 1
  }

  /** Room was there, so nothing was collected. */
  lemma RoomStays(e: Engine, inLen: nat, outLen: nat, now: nat)
    requires LedgerHolds(e, inLen + outLen)
    ensures RoomMade(e, inLen, outLen, now) == e
  {
    hide ReceiptBytes;
  }

  lemma AdmittedEngine(e: Engine, r: DirectRequest, now: u64)
    requires AdmitDirect(e, r, now, true).1.Reserved? && LedgerHolds(e, 0)
    ensures AdmitDirect(e, r, now, true).0 == e.(img := e.img.(versionHwm := e.img.versionHwm + 1,
                                                              commitHwm := e.img.commitHwm + 1))
  {
    hide VersionMatches, StateRoom, ReceiptRoom, RoomMade, IntentDigest, LedgerHolds;
    RoomStays(e, 0, 0, now);
  }

  /** An acknowledged append of a commit whose id has no receipt. */
  lemma LoggedTakes(w: World, e: Engine, clock: nat, k: Commit)
    requires Writable(w) && !w.e.failed && k.OpId() !in w.e.img.receipts
    requires w.e.img.versionHwm < UINT64_MAX && w.e.img.commitHwm < UINT64_MAX
    requires e == w.e.(img := w.e.img.(versionHwm := w.e.img.versionHwm + 1, commitHwm := w.e.img.commitHwm + 1))
    ensures Takes(w, Logged(w.(e := e, clock := clock), e, k, Durable), ApplyCommit(w.e.img.state, k), CommitReceipt(k))
  {
    hide CommitFrame, ApplyCommit, IntentDigest;
  }

  lemma DirectTakes(w: World, r: DirectRequest, now: u64, k: Commit)
    requires Writable(w) && Unhindered(w.e, r.opId) && ValidateDirect(w.e.cfg, r) == Ok
    requires AdmitDirect(w.e, r, now, true).1 == Reserved(k) && k.OpId() == r.opId && LedgerHolds(w.e, 0)
    ensures Takes(w, DoDirect(w, r, now, true, Durable), ApplyCommit(w.e.img.state, k), CommitReceipt(k))
  {
    hide AdmitDirect, LedgerHolds, ApplyCommit, CommitReceipt, Takes, Logged, ValidateDirect;
    AdmittedEngine(w.e, r, now);
    LoggedTakes(w, AdmitDirect(w.e, r, now, true).0, Later(w.clock, now), k);
  }

  /** A put that nothing else hinders and that creates an absent key, or names the version the key has, commits: the
      key then has the value under the next version, and the receipt says so. */
  lemma PutCommits(w: World, r: DirectRequest, now: u64)
    requires Writable(w) && Unhindered(w.e, r.opId) && StateHolds(w.e, r.key, r.value) && LedgerHolds(w.e, 0)
    requires r.put && |r.key| > 0 && r.opId != ZERO_ID && |r.key| + |r.value| + 64 <= w.e.cfg.maxOpBytes
    requires now + w.e.cfg.retentionMs < TWO64
    requires (r.expected == 0 && r.key !in w.e.img.state)
          || (r.expected != 0 && r.key in w.e.img.state && w.e.img.state[r.key].version == r.expected)
    ensures Enabled(w, DirectStep(r, now, true, Durable))
    ensures var i := Intent(2, r.opId, StoreIdOf(w.e.img), None, r.key, r.expected, r.value, None);
      var version, commitId := w.e.img.versionHwm + 1, w.e.img.commitHwm + 1;
      Takes(w, Do(w, DirectStep(r, now, true, Durable)), w.e.img.state[r.key := Entry(r.value, version, commitId)],
            Receipt(2, r.opId, IntentDigest(i), commitId, version, [], 0, [], 0, now, now + w.e.cfg.retentionMs))
  {
    hide AdmitDirect, StateHolds, LedgerHolds, Takes, IntentDigest, DoDirect;
    PutAdmittedIff(w.e, r, now);
    DirectCarries(w.e, r, now, true);
    DirectTakes(w, r, now, AdmitDirect(w.e, r, now, true).1.commit);
  }

  /** A delete that nothing else hinders and that names the version the key has commits, and the key is gone. */
  lemma DeleteCommits(w: World, r: DirectRequest, now: u64)
    requires Writable(w) && Unhindered(w.e, r.opId) && LedgerHolds(w.e, 0)
    requires !r.put && |r.key| > 0 && r.opId != ZERO_ID && |r.key| + 64 <= w.e.cfg.maxOpBytes
    requires now + w.e.cfg.retentionMs < TWO64
    requires r.expected != 0 && r.key in w.e.img.state && w.e.img.state[r.key].version == r.expected
    ensures Enabled(w, DirectStep(r, now, true, Durable))
    ensures var i := Intent(3, r.opId, StoreIdOf(w.e.img), None, r.key, r.expected, [], None);
      var version, commitId := w.e.img.versionHwm + 1, w.e.img.commitHwm + 1;
      Takes(w, Do(w, DirectStep(r, now, true, Durable)), w.e.img.state - {r.key},
            Receipt(3, r.opId, IntentDigest(i), commitId, version, [], 0, [], 0, now, now + w.e.cfg.retentionMs))
  {
    hide AdmitDirect, LedgerHolds, Takes, IntentDigest, DoDirect;
    DeleteAdmittedIff(w.e, r, now);
    DirectCarries(w.e, r, now, true);
    DirectTakes(w, r, now, AdmitDirect(w.e, r, now, true).1.commit);
  }

  /** Wherever a run without a checkpoint published over newer commits ends: updating a key at the version just read
      commits, and so does deleting it, if nothing else is in the way. */
  lemma ReadThenWriteCommits(cfg: Config, steps: seq<Step>, w: World, key: Short, value: Long, op: Id, now: u64)
    requires Reached(cfg, steps, w) && Writable(w) && key in w.e.img.state
    requires Unhindered(w.e, op) && StateHolds(w.e, key, value) && LedgerHolds(w.e, 0)
    requires |key| > 0 && op != ZERO_ID && |key| + |value| + 64 <= w.e.cfg.maxOpBytes
    requires now + w.e.cfg.retentionMs < TWO64
    ensures var read := w.e.img.state[key].version; var next := w.e.img.versionHwm + 1;
      var put := Do(w, DirectStep(DirectRequest(true, key, value, read, op), now, true, Durable));
      var del := Do(w, DirectStep(DirectRequest(false, key, [], read, op), now, true, Durable));
      && put.e.img.state == w.e.img.state[key := Entry(value, next, w.e.img.commitHwm + 1)] && read < next
      && del.e.img.state == w.e.img.state - {key}
      && op in put.e.img.receipts && put.e.img.receipts[op].version == next
      && |put.hist| == |del.hist| == |w.hist| + 1
  {
    hide Inv, Exec, Do, Enabled, StateHolds, LedgerHolds, CoveredRun;
    ReachedOk(cfg, steps, w);
    VersionsArePositive(w, key);
    ShownIsBelow(w, key);
    PutCommits(w, DirectRequest(true, key, value, w.e.img.state[key].version, op), now);
    DeleteCommits(w, DirectRequest(false, key, [], w.e.img.state[key].version, op), now);
  }

  lemma ShownIsBelow(w: World, key: Short)
    requires Inv(w) && w.up && key in w.e.img.state
    ensures w.e.img.state[key].version <= w.e.img.versionHwm
  {
    hide Fenced, IdentityOk, LogOk, HistoryOk, ReceiptsOk, PendingOk, MirrorOk, BaseImage;
  }

  // ---- completions ----

  lemma PreparedEngine(e: Engine, r: CompletionRequest, outMessage: u64, env: Env)
    requires Prepare(e, r, outMessage, env).1.Reserved? && LedgerHolds(e, |r.input.queue| + OutLength(r))
    ensures Prepare(e, r, outMessage, env).0 == e.(img := e.img.(versionHwm := e.img.versionHwm + 1,
                                                                commitHwm := e.img.commitHwm + 1))
  {
    hide VersionMatches, StateRoom, ReceiptRoom, RoomMade, ProofMatches, LedgerHolds;
    RoomStays(e, |r.input.queue|, OutLength(r), env.gcNow);
  }

  lemma CompletionTakes(w: World, t: nat, outMessage: u64, env: Env, k: Commit)
    requires Writable(w) && t in w.threads && w.threads[t].Holding?
    requires Unhindered(w.e, w.threads[t].req.opId) && k.OpId() == w.threads[t].req.opId
    requires Prepare(w.e, w.threads[t].req, outMessage, env).1 == Reserved(k)
    requires CompletionHolds(w.e, w.threads[t].req)
    ensures Takes(w, DoCommit(w, t, true, outMessage, env, Durable), ApplyCommit(w.e.img.state, k), CommitReceipt(k))
  {
    hide Prepare, LedgerHolds, StateHolds, ApplyCommit, CommitReceipt, Logged;
    var e1 := Prepare(w.e, w.threads[t].req, outMessage, env).0;
    PreparedEngine(w.e, w.threads[t].req, outMessage, env);
    LoggedTakes(w, e1, Later(w.clock, env.gcNow), k);
  }

  /** A completion that nothing else hinders, at the key's version and with a proof that binds its delivery and has
      time left, commits: the key has its value under the next version, and the receipt names both queues, the message
      consumed and the message put out. */
  lemma CompletionCommits(w: World, t: nat, outMessage: u64, env: Env)
    requires Writable(w) && t in w.threads && w.threads[t].Holding? && env.alloc
    requires Unhindered(w.e, w.threads[t].req.opId) && CompletionHolds(w.e, w.threads[t].req)
    requires env.now + w.e.cfg.retentionMs < TWO64
    requires var r := w.threads[t].req;
      && Binds(w.e, r) && env.mono < w.e.proofs[r.proof].expiresMono
      && ((r.expected == 0 && r.key !in w.e.img.state)
          || (r.expected != 0 && r.key in w.e.img.state && w.e.img.state[r.key].version == r.expected))
    ensures Enabled(w, CommitStep(t, true, outMessage, env, Durable))
    ensures var r := w.threads[t].req;
      var i := Intent(1, r.opId, StoreIdOf(w.e.img), Some(r.input), r.key, r.expected, r.value, r.output);
      var version, commitId := w.e.img.versionHwm + 1, w.e.img.commitHwm + 1;
      var outQueue := if r.output.Some? then r.output.value.queue else [];
      var outId := if r.output.Some? then outMessage else 0;
      Takes(w, Do(w, CommitStep(t, true, outMessage, env, Durable)),
            w.e.img.state[r.key := Entry(r.value, version, commitId)],
            Receipt(1, r.opId, IntentDigest(i), commitId, version, r.input.queue, r.input.message, outQueue, outId,
                    env.now, env.now + w.e.cfg.retentionMs))
  {
    hide Prepare, LedgerHolds, StateHolds, Binds, Takes, IntentDigest, DoCommit;
    var r := w.threads[t].req;
    CompletionAdmittedIff(w.e, r, outMessage, env);
    CompletionCarries(w.e, r, outMessage, env);
    CompletionTakes(w, t, outMessage, env, Prepare(w.e, r, outMessage, env).1.commit);
  }

  /** A completion whose proof names another epoch, queue, incarnation or message, is not registered or has run out
      writes nothing, on any run. */
  lemma ForeignProofWritesNothing(w: World, t: nat, fence: bool, outMessage: u64, env: Env, fate: Fate)
    requires Enabled(w, CommitStep(t, fence, outMessage, env, fate))
    requires var r := w.threads[t].req;
      || r.proof !in w.e.proofs
      || w.e.proofs[r.proof].epoch != w.e.epoch || w.e.proofs[r.proof].queue != r.input.queue
      || w.e.proofs[r.proof].incarnation != r.input.incarnation || w.e.proofs[r.proof].message != r.input.message
      || w.e.proofs[r.proof].expiresMono <= env.mono
    ensures var x := Do(w, CommitStep(t, fence, outMessage, env, fate));
      x.hist == w.hist && x.log == w.log && x.backed == w.backed && x.e.img.state == w.e.img.state
  {
    hide Prepare, Logged, Softer;
    var r := w.threads[t].req;
    UnboundIsNotReserved(w.e, r, outMessage, env);
    PrepareSoftens(w.e, r, outMessage, env);
    SofterState(w.e.img, Prepare(w.e, r, outMessage, env).0.img, env.gcNow);
  }
}
