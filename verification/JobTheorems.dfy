/** What callers of the durable job engine may rely on, over every run, and where they may not. */
module JobTheorems {
  import opened Bytes
  import opened JobIntent
  import opened JobRecord
  import opened JobImage
  import opened JobCheckpoint
  import opened JobHistory
  import opened JobAdmission
  import opened JobCore
  import opened JobMirror
  import opened JobRuns
  import opened JobReservations
  import opened JobFencing
  import opened JobSafety
  import opened JobRetention

  /** `w` is where some run of a new store ends. */
  ghost predicate Ran(cfg: Config, steps: seq<Step>, w: World) {
    ConfigOk(Effective(cfg)) && Exec(NewWorld(cfg), steps) == Some(w)
  }

  /** In that run no checkpoint was published over newer commits. */
  ghost predicate Reached(cfg: Config, steps: seq<Step>, w: World) {
    Ran(cfg, steps, w) && CoveredRun(NewWorld(cfg), steps)
  }

  lemma RanOk(cfg: Config, steps: seq<Step>, w: World)
    requires Ran(cfg, steps, w)
    ensures Sound(w) && w.e.cfg == Effective(cfg)
  {
    hide Sound, Exec;
    NewWorldOk(cfg);
    RunSound(NewWorld(cfg), steps);
  }

  lemma ReachedOk(cfg: Config, steps: seq<Step>, w: World)
    requires Reached(cfg, steps, w)
    ensures Inv(w)
  {
    hide Inv, Exec, CoveredRun;
    NewWorldOk(cfg);
    RunKeeps(NewWorld(cfg), steps);
  }

  // ---- crash recovery ----

  /** Every receipt whose deadline `clock` has not come to is still there, unchanged. */
  ghost predicate KeepsLive(before: map<Id, Receipt>, clock: nat, after: map<Id, Receipt>) {
    forall op :: op in before && (before[op].expiresAt == 0 || clock < before[op].expiresAt) ==>
      op in after && after[op] == before[op]
  }

  /** Recovery keeps the operation in doubt whole or not at all, and all unexpired receipts. */
  ghost predicate Resolves(before: Image, hist: seq<Commit>, applied: nat, clock: nat, after: Image) {
    && KeepsLive(before.receipts, clock, after.receipts)
    && after.state == Fold(hist)
    && (applied == |hist| ==> after.state == before.state)
    && (applied < |hist| ==>
          var k := hist[applied];
          && applied + 1 == |hist|
          && after.state == ApplyCommit(before.state, k)
          && k.OpId() in after.receipts && after.receipts[k.OpId()] == CommitReceipt(k))
  }

  lemma RecoveredResolves(c: Core, max: nat)
    requires CoreOk(c) && MirrorOk(c, max) && c.up && Opens(c)
    ensures Resolves(c.img, c.hist, c.applied, c.clock, Recovered(c))
  {
    hide LogOk, HistoryOk, MemoryOk, ReceiptsOk, PendingOk, BudgetOk, Fold, ApplyCommit, CommitReceipt, Recovered,
      Opens, KeepsLive, Genuine, BaseImage;
    Recovery(c);
    LedgerSurvives(c);
    InDoubtShape(c);
    if c.applied < |c.hist| {
      LastIsRecovered(c);
    }
  }

  lemma LedgerSurvives(c: Core)
    requires LogOk(c) && HistoryOk(c) && ReceiptsOk(c) && c.up && Opens(c)
    requires Genuine(c.img.receipts, c.hist, c.applied, c.linked)
    ensures KeepsLive(c.img.receipts, c.clock, Recovered(c).receipts)
  {
    hide LogOk, Recovered, Opens, BaseImage, IntentDigest;
    RecoveredLedger(c);
    forall op | op in c.img.receipts && (c.img.receipts[op].expiresAt == 0 || c.clock < c.img.receipts[op].expiresAt)
      ensures op in Recovered(c).receipts && Recovered(c).receipts[op] == c.img.receipts[op]
    {
      var i :| i in c.linked && i < c.applied && IsSource(c.hist, i, op, c.img.receipts[op]);
      assert CommitOk(c.hist[i]) && c.hist[i].expiresAt == c.img.receipts[op].expiresAt;
      assert i in Relinked(c) && i < |c.hist| && c.hist[i].expiresAt > c.clock;
    }
  }

  /** A crash at any point of any run. The store reopens if and only if no operation id is on the log
      twice and the last checkpoint carried only completion receipts. Unless a checkpoint was published over
      newer commits, its state is then exactly that of the committed records: the operation in doubt, if its
      record survived, is there with its state and its receipt, and otherwise leaves no trace, and every
      receipt that memory held and that has not expired is back with its original answer. */
  lemma CrashRecovery(cfg: Config, steps: seq<Step>, w: World, epoch: Id)
    requires Ran(cfg, steps, w) && w.up
    ensures Enabled(Do(w, CrashStep), RestartStep(epoch)) <==> Opens(CoreOf(w))
    ensures Opens(CoreOf(w)) && CoveredRun(NewWorld(cfg), steps) ==>
      Resolves(w.e.img, w.hist, w.applied, w.clock, Do(Do(w, CrashStep), RestartStep(epoch)).e.img)
  {
    hide CoreOk, Fenced, IdentityOk, MirrorOk, Recovered, Opens, Resolves, CoveredRun, Exec, Relinked;
    RanOk(cfg, steps, w);
    var c := CoreOf(w);
    CrashReopens(w, epoch);
    if Opens(c) && CoveredRun(NewWorld(cfg), steps) {
      ReachedOk(cfg, steps, w);
      RecoveredResolves(c, w.e.cfg.stateMaxBytes);
    }
  }

  lemma CrashReopens(w: World, epoch: Id)
    requires Stored(w) && w.up
    ensures Enabled(Do(w, CrashStep), RestartStep(epoch)) <==> Opens(CoreOf(w))
    ensures Opens(CoreOf(w)) ==> Do(Do(w, CrashStep), RestartStep(epoch)).e.img == Recovered(CoreOf(w))
  {
    hide LogOk, HistoryOk, MemoryOk, ReceiptsOk, PendingOk, IdentityOk, Recovered, Opens, Relinked;
    var v := Do(w, CrashStep);
    PendingIsOk(w);
    CrashStored(w);
    Recovery(CoreOf(v));
    SameOpens(CoreOf(w), CoreOf(v));
  }

  lemma SameOpens(c: Core, d: Core)
    requires c.from <= |c.hist| && d.from == c.from && d.hist == c.hist && d.base == c.base
    ensures Opens(c) <==> Opens(d)
    ensures Recovered(c) == Recovered(d)
  {
  }

  lemma InDoubtShape(c: Core)
    requires LogOk(c) && c.up && c.img.state == Fold(c.hist[..c.applied])
    ensures c.applied == |c.hist| ==> Fold(c.hist) == c.img.state
    ensures c.applied < |c.hist| ==> c.applied + 1 == |c.hist|
    ensures c.applied < |c.hist| ==> Fold(c.hist) == ApplyCommit(c.img.state, c.hist[c.applied])
  {
    hide BaseImage, BaseFrames, TailFrames, ApplyCommit, Follows;
    assert c.hist[..|c.hist|] == c.hist;
    if c.applied < |c.hist| {
      FoldSnoc(c.hist[..c.applied], c.hist[c.applied]);
      assert c.hist == c.hist[..c.applied] + [c.hist[c.applied]];
    }
  }

  lemma LastIsRecovered(c: Core)
    requires LogOk(c) && Opens(c) && c.applied < |c.hist|
    ensures var k := c.hist[|c.hist| - 1];
      k.OpId() in Recovered(c).receipts && Recovered(c).receipts[k.OpId()] == CommitReceipt(k)
  {
    hide BaseImage, BaseFrames, TailFrames, CommitReceipt, Follows, TailImage, Fold;
    var tail := c.hist[c.from..];
    TailReceipts(BaseImage(c.base), tail);
    assert tail[|tail| - 1] == c.hist[|c.hist| - 1];
  }

  // ---- idempotent retries ----

  /** On every run each commit was completed at a clock one of the steps was given, and is to be forgotten one
      configured retention after that; receipts were only ever collected or cut at clocks the steps were given. */
  lemma Retention(cfg: Config, steps: seq<Step>, w: World)
    requires Ran(cfg, steps, w)
    ensures forall i :: 0 <= i < |w.hist| ==>
      && w.hist[i].expiresAt == w.hist[i].completedAt + w.e.cfg.retentionMs
      && exists n :: 0 <= n < |steps| && Stamp(steps[n]) == Some(w.hist[i].completedAt)
    ensures w.e.cfg.retentionMs == if cfg.retentionMs == 0 then 86400000 else cfg.retentionMs
    ensures w.clock == 0 || exists n :: 0 <= n < |steps| && Tick(steps[n]) == Some(w.clock)
  {
    hide Exec, ConfigOk;
    RunRemembers(NewWorld(cfg), steps);
    ClockIsGiven(NewWorld(cfg), steps);
    assert forall i :: 0 <= i < |w.hist| ==> Stamped(steps, w.hist[i].completedAt);
  }

  /** Until one retention after it completed, repeating a committed operation, before or after any number of
      crashes, restarts and checkpoints, answers with the original receipt and changes nothing. */
  lemma RetryReturnsOriginal(cfg: Config, steps: seq<Step>, w: World, i: nat)
    requires Ran(cfg, steps, w) && w.up
    requires i in w.linked && i < w.applied <= |w.hist| && w.clock < w.hist[i].completedAt + w.e.cfg.retentionMs
    ensures forall r: DirectRequest, now, alloc, fate ::
      ValidateDirect(w.e.cfg, r) == Ok && DirectIntent(StoreIdOf(w.e.img), r) == w.hist[i].intent ==>
        Direct(w.e, w.log, r, now, alloc, fate) == Result(w.e, w.log, Ok, Some(CommitReceipt(w.hist[i])), true)
    ensures forall r: CompletionRequest ::
      ValidateCompletion(w.e, r) == Ok && CompletionIntent(StoreIdOf(w.e.img), r) == w.hist[i].intent ==>
        LookUp(w.e, r) == Some(Matched(CommitReceipt(w.hist[i])))
        && Recheck(w.e, r) == Some(Matched(CommitReceipt(w.hist[i])))
    ensures forall r: CompletionRequest, queue, outMessage, env, fate ::
      ValidateCompletion(w.e, r) == Ok && CompletionIntent(StoreIdOf(w.e.img), r) == w.hist[i].intent ==>
        Complete(w.e, w.log, r, queue, outMessage, env, fate)
        == Result(w.e, w.log, Ok, Some(CommitReceipt(w.hist[i])), true)
  {
    hide Fenced, IdentityOk, LogOk, HistoryOk, MemoryOk, PendingOk, ValidateDirect, ValidateCompletion, IntentDigest,
      BaseImage, Prepare, Finish;
    RanOk(cfg, steps, w);
    assert w.hist[i].expiresAt > w.clock by { Retention(cfg, steps, w); }
    assert Ledger(w.e.img.receipts, w.hist[i].intent) == Some(Matched(CommitReceipt(w.hist[i])));
  }

  predicate SameRequest(i: Intent, k: Commit) {
    i.kind == k.intent.kind && IntentDigest(i) == IntentDigest(k.intent)
  }

  /** Until one retention after it completed, the id of an operation used for any other request is a conflict
      that changes nothing, whatever the versions, budgets, latches or deliveries say. */
  lemma ReusedIdConflicts(cfg: Config, steps: seq<Step>, w: World, i: nat)
    requires Ran(cfg, steps, w) && w.up
    requires i in w.linked && i < w.applied <= |w.hist| && w.clock < w.hist[i].completedAt + w.e.cfg.retentionMs
    ensures forall r: DirectRequest, now, alloc, fate ::
      ValidateDirect(w.e.cfg, r) == Ok && r.opId == w.hist[i].OpId()
      && !SameRequest(DirectIntent(StoreIdOf(w.e.img), r), w.hist[i]) ==>
        Direct(w.e, w.log, r, now, alloc, fate) == Result(w.e, w.log, IdempotencyConflict, None, false)
    ensures forall r: CompletionRequest ::
      ValidateCompletion(w.e, r) == Ok && r.opId == w.hist[i].OpId()
      && !SameRequest(CompletionIntent(StoreIdOf(w.e.img), r), w.hist[i]) ==>
        LookUp(w.e, r) == Some(Rejected(IdempotencyConflict)) && Recheck(w.e, r) == Some(Rejected(IdempotencyConflict))
    ensures forall r: CompletionRequest, queue, outMessage, env, fate ::
      ValidateCompletion(w.e, r) == Ok && r.opId == w.hist[i].OpId()
      && !SameRequest(CompletionIntent(StoreIdOf(w.e.img), r), w.hist[i]) ==>
        Complete(w.e, w.log, r, queue, outMessage, env, fate) == Result(w.e, w.log, IdempotencyConflict, None, false)
  {
    hide Fenced, IdentityOk, LogOk, HistoryOk, MemoryOk, PendingOk, ValidateDirect, ValidateCompletion, IntentDigest,
      BaseImage, Prepare, Finish;
    RanOk(cfg, steps, w);
    assert w.hist[i].expiresAt > w.clock by { Retention(cfg, steps, w); }
    var op := w.hist[i].OpId();
    assert op in w.e.img.receipts && w.e.img.receipts[op] == CommitReceipt(w.hist[i]);
    assert forall j: Intent :: j.opId == op && !SameRequest(j, w.hist[i]) ==>
      Ledger(w.e.img.receipts, j) == Some(Rejected(IdempotencyConflict));
  }

  // ---- versions ----

  /** On any run the versions and commit ids of the history the log stands for strictly increase, and new ones
      are issued above them. */
  lemma VersionsGrow(cfg: Config, steps: seq<Step>, w: World)
    requires Ran(cfg, steps, w)
    ensures Ascending(w.hist)
    ensures w.up ==> forall i :: 0 <= i < |w.hist| ==>
      w.hist[i].version <= w.e.img.versionHwm && w.hist[i].commitId <= w.e.img.commitHwm
  {
    hide Fenced, IdentityOk, LogOk, ReceiptsOk, PendingOk, BaseImage, CommitOk, ImageOk;
    RanOk(cfg, steps, w);
  }

  /** One append leaves the applied history in place. */
  lemma LoggedExtends(v: World, k: Commit, fate: Fate)
    requires LogOk(CoreOf(v)) && v.up && v.applied <= |v.hist|
    ensures var x := Logged(v, v.e, k, fate);
      v.hist <= x.hist && v.applied <= x.applied <= |x.hist|
  {
    hide BaseFrames, TailFrames, BaseImage, CommitFrame, CommitReceipt, ApplyCommit, Follows;
  }

  lemma CommitExtends(w: World, s: Step)
    requires Stored(w) && Enabled(w, s) && (s.DirectStep? || s.CommitStep?)
    ensures w.hist <= Do(w, s).hist && w.applied <= Do(w, s).applied <= |Do(w, s).hist|
  {
    hide HistoryOk, MemoryOk, ReceiptsOk, PendingOk, IdentityOk, LogOk, AdmitDirect, Prepare, Logged, ValidateDirect,
      Softer;
    PendingIsOk(w);
    match s
    case DirectStep(r, now, alloc, fate) =>
      var (e1, o) := AdmitDirect(w.e, r, now, alloc);
      if o.Reserved? {
        SameLog(w, e1, Later(w.clock, now));
        LoggedExtends(w.(e := e1, clock := Later(w.clock, now)), o.commit, fate);
      }
    case CommitStep(t, _, outMessage, env, fate) =>
      var (e1, o) := Prepare(w.e, w.threads[t].req, outMessage, env);
      if o.Reserved? {
        SameLog(w, e1, Later(w.clock, env.gcNow));
        LoggedExtends(w.(e := e1, clock := Later(w.clock, env.gcNow)), o.commit, fate);
      }
  }

  lemma SameLog(w: World, e: Engine, clock: nat)
    requires LogOk(CoreOf(w))
    ensures LogOk(CoreOf(w.(e := e, clock := clock)))
  {
    hide BaseFrames, TailFrames, BaseImage, Follows;
  }

  /** Applied history is never taken back: not by later operations, crashes or restarts, and by a checkpoint
      exactly if something was committed between its cut and its publication. */
  lemma StepExtends(w: World, s: Step)
    requires Stored(w) && Enabled(w, s)
    ensures w.applied <= |w.hist| && Do(w, s).applied <= |Do(w, s).hist|
    ensures w.hist[..w.applied] <= Do(w, s).hist[..Do(w, s).applied] <==> Covered(w, s)
  {
    hide CoreOk, IdentityOk, DoDirect, DoCommit, BaseFrames, Encode, Recovered, Locks, LookUp, Recheck, Collected,
      Replay;
    PendingIsOk(w);
    if s.DirectStep? || s.CommitStep? {
      CommitExtends(w, s);
    }
  }

  lemma {:induction false} HistoryExtends(w: World, steps: seq<Step>)
    requires Sound(w) && Exec(w, steps).Some? && CoveredRun(w, steps)
    ensures var v := Exec(w, steps).value;
      w.applied <= |w.hist| && v.applied <= |v.hist| && w.hist[..w.applied] <= v.hist[..v.applied]
  {
    hide Fenced, Stored, Do, Enabled;
    if |steps| == 0 {
      PendingIsOk(w);
    } else {
      var front := steps[..|steps| - 1];
      HistoryExtends(w, front);
      RunSound(w, front);
      StepExtends(Exec(w, front).value, steps[|steps| - 1]);
    }
  }

  /** Between two moments no commit touched the key, and its entry is the one seen first. */
  ghost predicate Untouched(w: World, v: World, key: Short) {
    && key in w.e.img.state && key in v.e.img.state && v.e.img.state[key] == w.e.img.state[key]
    && w.applied <= v.applied <= |v.hist|
    && forall j :: w.applied <= j < v.applied ==> v.hist[j].Key() != key
  }

  lemma SameVersionUntouched(w: World, v: World, key: Short)
    requires Inv(w) && Inv(v) && w.up && v.up && w.applied <= |w.hist| && v.applied <= |v.hist|
    requires w.hist[..w.applied] <= v.hist[..v.applied]
    requires key in w.e.img.state && key in v.e.img.state
    requires w.e.img.state[key].version == v.e.img.state[key].version
    ensures Untouched(w, v, key)
  {
    hide Fenced, IdentityOk, LogOk, MemoryOk, ReceiptsOk, PendingOk, Fold, BaseImage, CommitOk, Genuine, BudgetOk;
    var early, late := w.hist[..w.applied], v.hist[..v.applied];
    VersionPinsEntry(early, late, key);
    forall j | w.applied <= j < v.applied
      ensures v.hist[j].Key() != key
    {
      assert late[j] == v.hist[j];
    }
  }

  lemma VersionsArePositive(w: World, key: Short)
    requires Inv(w) && w.up && key in w.e.img.state
    ensures w.e.img.state[key].version > 0
  {
    hide Fenced, IdentityOk, LogOk, MemoryOk, ReceiptsOk, PendingOk, BaseImage, Replayable, Genuine, BudgetOk;
    var i := FoldEntry(w.hist[..w.applied], key);
    assert w.hist[..w.applied][i] == w.hist[i] && CommitOk(w.hist[i]);
  }

  /** A mutation that expects a version read earlier is admitted only if nothing committed to the key
      in between, whatever deletes, recreations, crashes, restarts and checkpoints happened meanwhile. */
  lemma NoAba(cfg: Config, before: seq<Step>, w: World, after: seq<Step>, v: World, key: Short)
    requires Reached(cfg, before, w) && w.up && key in w.e.img.state
    requires Exec(w, after) == Some(v) && CoveredRun(w, after) && v.up
    ensures forall r: DirectRequest, now, alloc ::
      r.key == key && r.expected == w.e.img.state[key].version && Reserves(v.e, r, now, alloc) ==> Untouched(w, v, key)
    ensures forall r: CompletionRequest, outMessage, env ::
      r.key == key && r.expected == w.e.img.state[key].version && Prepare(v.e, r, outMessage, env).1.Reserved? ==>
        Untouched(w, v, key)
  {
    hide Inv, Exec, CoveredRun, AdmitDirect, Prepare, Untouched, ValidateDirect;
    ReachedOk(cfg, before, w);
    RunKeeps(w, after);
    assert Sound(w) by { InvIsSound(w); }
    HistoryExtends(w, after);
    VersionsArePositive(w, key);
    forall r: DirectRequest, now, alloc |
      r.key == key && r.expected == w.e.img.state[key].version && Reserves(v.e, r, now, alloc)
      ensures Untouched(w, v, key)
    {
      DirectHadRoom(v.e, r, now, alloc);
      SameVersionUntouched(w, v, key);
    }
    forall r: CompletionRequest, outMessage, env |
      r.key == key && r.expected == w.e.img.state[key].version && Prepare(v.e, r, outMessage, env).1.Reserved?
      ensures Untouched(w, v, key)
    {
      PrepareMatched(v.e, r, outMessage, env);
      SameVersionUntouched(w, v, key);
    }
  }

  lemma InvIsSound(w: World)
    requires Inv(w)
    ensures Sound(w)
  {
    hide Sound, MirrorOk;
  }

  lemma PrepareMatched(e: Engine, r: CompletionRequest, outMessage: u64, env: Env)
    requires Prepare(e, r, outMessage, env).1.Reserved?
    ensures VersionMatches(e.img.state, r.key, r.expected)
  {
    hide StateRoom, ReceiptRoom, RoomMade, VersionMatches, ProofMatches;
  }

  // ---- delivery proofs ----

  lemma RanFenced(cfg: Config, steps: seq<Step>, w: World)
    requires Ran(cfg, steps, w)
    ensures Fenced(w)
  {
    hide Exec;
    FencedRun(NewWorld(cfg), steps);
  }

  /** On every run no two completions hold a Queue in common, whether they read from it or write to it. */
  lemma QueuesExclusive(cfg: Config, steps: seq<Step>, w: World, t: nat, u: nat)
    requires Ran(cfg, steps, w) && t in w.threads && u in w.threads && t != u
    requires w.threads[t].Holding? || w.threads[t].Unretired?
    requires w.threads[u].Holding? || w.threads[u].Unretired?
    ensures var a, b := w.threads[t].req, w.threads[u].req;
      && a.input.queue != b.input.queue
      && (a.output.Some? ==> a.output.value.queue != b.input.queue)
      && (a.output.Some? && b.output.Some? ==> a.output.value.queue != b.output.value.queue)
  {
    hide ProofsOk, ValidateCompletion, Exec;
    RanFenced(cfg, steps, w);
    assert BothHold(w.threads[t], w.threads[u]);
    var a, b := w.threads[t].req, w.threads[u].req;
    assert a.input.queue in Locks(a) && b.input.queue in Locks(b);
    assert a.output.Some? ==> a.output.value.queue in Locks(a);
    assert b.output.Some? ==> b.output.value.queue in Locks(b);
  }

  /** Once an append was not acknowledged, nothing is committed until the store is opened again. */
  lemma FailedLogIsFinal(w: World, s: Step)
    requires Enabled(w, s) && w.log.failed && !s.RestartStep?
    ensures Do(w, s).log.failed && Do(w, s).hist <= w.hist
  {
    hide AdmitDirect, Prepare, LookUp, Recheck, Replay, BaseFrames, WalksAll, Encode, CommitFrame, CommitReceipt,
      ApplyCommit, Recovered, Swept, QueuesFree, ValidateDirect;
  }

  /** An append that is not acknowledged fails the log and, with the next step of its thread, the engine. */
  lemma FailedAppendIsFinal(w: World, r: DirectRequest, now: u64, alloc: bool, fate: Fate)
    requires Enabled(w, DirectStep(r, now, alloc, fate)) && Reserves(w.e, r, now, alloc)
    requires !w.e.attached || w.log.failed || fate != Durable
    ensures var x := Do(w, DirectStep(r, now, alloc, fate));
      && x.e.failed && x.e.inDoubt == Some(r.opId) && x.e.img.state == w.e.img.state
      && (w.e.attached ==> x.log.failed)
  {
    hide AdmitDirect, CommitFrame, CommitReceipt, ApplyCommit, ValidateDirect, Softer;
    DirectSoftens(w.e, r, now, alloc);
    SofterState(w.e.img, AdmitDirect(w.e, r, now, alloc).0.img, now);
  }

  /** Over every run, no proof backs two commits. */
  lemma ProofsBackOneCommit(cfg: Config, steps: seq<Step>, w: World)
    requires Ran(cfg, steps, w)
    ensures Distinct(w.backed)
  {
    hide ThreadsOk, Distinct;
    RanFenced(cfg, steps, w);
  }

  /** On every run a completion reaches the log only with a registered proof of the current process that is
      unexpired and names the queue, incarnation and message being completed; and then it is one more commit,
      backed by that proof. */
  lemma CompletionNeedsProof(cfg: Config, steps: seq<Step>, w: World, t: nat, fence: bool, outMessage: u64, env: Env,
                             fate: Fate)
    requires Ran(cfg, steps, w) && Enabled(w, CommitStep(t, fence, outMessage, env, fate))
    ensures var req := w.threads[t].req; var v := Do(w, CommitStep(t, fence, outMessage, env, fate));
      && (v.hist == w.hist ==> v.backed == w.backed)
      && (v.hist != w.hist ==>
            && req.proof in w.e.proofs && env.mono < w.e.proofs[req.proof].expiresMono
            && w.e.proofs[req.proof].epoch == w.e.epoch && w.e.proofs[req.proof].queue == req.input.queue
            && w.e.proofs[req.proof].incarnation == req.input.incarnation
            && w.e.proofs[req.proof].message == req.input.message
            && req.proof !in w.backed && v.backed == w.backed + [req.proof]
            && |v.hist| == |w.hist| + 1 && v.hist[|w.hist|].intent == CompletionIntent(StoreIdOf(w.e.img), req))
  {
    hide Prepare, Softer, CommitOk, StateRoom, VersionMatches, CommitFrame, ApplyCommit, CommitReceipt, ReceiptRoom,
      ValidateCompletion, ThreadsOk, ProofsOk, ProofMatches, CompletionIntent;
    RanFenced(cfg, steps, w);
    var req := w.threads[t].req;
    HolderIsValid(w, t);
    if fence {
      var (e1, o) := Prepare(w.e, req, outMessage, env);
      PrepareSoftens(w.e, req, outMessage, env);
      if o.Reserved? {
        PrepareReserved(w.e, req, outMessage, env);
        if !w.log.failed {
          ProofIsUnused(w, t);
        }
      }
    }
  }
}
