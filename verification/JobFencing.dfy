/** Delivery proofs, Queue locks and threads: the fencing of completions, kept by every step of every run. */
module JobFencing {
  import opened Bytes
  import opened JobRecord
  import opened JobImage
  import opened JobHistory
  import opened JobCheckpoint
  import opened JobAdmission
  import opened JobCore
  import opened JobRuns
  import opened JobReservations

  predicate HasRequest(p: Phase) {
    !p.Doubtful?
  }

  predicate BothHold(p: Phase, q: Phase) {
    HoldsLocks(p) && HoldsLocks(q)
  }

  /** Requests in flight were validated, and no two threads hold the same Queue. */
  ghost predicate ThreadsOk(w: World) {
    && (!w.up ==> w.threads == map[])
    && (forall t :: t in w.threads && HasRequest(w.threads[t]) ==> ValidateCompletion(w.e, w.threads[t].req) == Ok)
    && (forall t, u :: t in w.threads && u in w.threads && t != u && BothHold(w.threads[t], w.threads[u]) ==>
          Locks(w.threads[t].req) !! Locks(w.threads[u].req))
    && (w.pending.Some? ==> forall t :: t in w.threads ==> !HoldsLocks(w.threads[t]))
  }

  /** A proof that already backed a commit survives in the registry only until the thread that used it,
      which still holds its Queue, retires it. */
  ghost predicate ProofsOk(w: World) {
    && (!w.up ==> w.e.proofs == map[])
    && Distinct(w.backed)
    && (forall p :: p in w.backed ==> p in w.issued)
    && (forall p :: p in w.e.proofs ==> p in w.issued && w.e.proofs[p].epoch == w.e.epoch)
    && (forall p :: p in w.e.proofs && p in w.backed && !w.log.failed ==>
          exists t :: t in w.threads && w.threads[t].Unretired? && w.threads[t].req.proof == p
                      && w.threads[t].req.input.queue == w.e.proofs[p].queue)
  }

  /** Nothing here depends on what the log or the memory hold. */
  ghost predicate Fenced(w: World) {
    ConfigOk(w.e.cfg) && ThreadsOk(w) && ProofsOk(w)
  }

  /** Steps that leave threads, proofs, identity and checkpoint state alone keep what concerns them. */
  lemma FenceFrame(w: World, v: World)
    requires ThreadsOk(w) && ProofsOk(w)
    requires v.up == w.up && v.threads == w.threads && v.pending == w.pending
    requires v.e.cfg == w.e.cfg && v.e.attached == w.e.attached && v.e.img.storeId == w.e.img.storeId
    requires v.e.proofs == w.e.proofs && v.e.epoch == w.e.epoch
    requires v.issued == w.issued && v.backed == w.backed && (w.log.failed ==> v.log.failed)
    ensures ThreadsOk(v) && ProofsOk(v)
  {
    hide Locks, Distinct;
  }

  lemma HolderIsValid(w: World, t: nat)
    requires ThreadsOk(w) && t in w.threads && w.threads[t].Holding?
    ensures ValidateCompletion(w.e, w.threads[t].req) == Ok && w.pending.None?
  {
    hide Locks, ValidateCompletion;
  }

  /** No proof backs a second commit: whoever used it first still holds the Queue it is bound to. */
  lemma ProofIsUnused(w: World, t: nat)
    requires ThreadsOk(w) && ProofsOk(w) && t in w.threads && w.threads[t].Holding? && !w.log.failed
    requires ProofMatches(w.e, w.threads[t].req)
    ensures w.threads[t].req.proof !in w.backed
  {
    var req := w.threads[t].req;
    forall u | u in w.threads && w.threads[u].Unretired? ensures w.threads[u].req.input.queue != req.input.queue {
      assert BothHold(w.threads[t], w.threads[u]);
      assert req.input.queue in Locks(req) && w.threads[u].req.input.queue in Locks(w.threads[u].req);
    }
  }

  lemma ThreadMoves(w: World, t: nat, p: Phase)
    requires ThreadsOk(w) && w.up && t in w.threads
    requires p.Doubtful? || (HasRequest(w.threads[t]) && p.req == w.threads[t].req)
    requires HoldsLocks(p) ==> HoldsLocks(w.threads[t])
    ensures ThreadsOk(w.(threads := w.threads[t := p]))
    ensures ThreadsOk(w.(threads := w.threads - {t}))
  {
    hide Locks, ValidateCompletion;
  }

  lemma CommitFences(w: World, x: World, t: nat, p: Phase, backed: seq<Id>)
    requires ThreadsOk(w) && ProofsOk(w) && w.up && t in w.threads && w.threads[t].Holding?
    requires ThreadsOk(x) && ProofsOk(x) && x.up && x.threads == w.threads && x.backed == w.backed
    requires x.e.proofs == w.e.proofs && (w.log.failed ==> x.log.failed)
    requires p == Unretired(w.threads[t].req) || (p.Doubtful? && x.log.failed)
    requires backed == w.backed
          || (backed == w.backed + [w.threads[t].req.proof] && !w.log.failed && ProofMatches(w.e, w.threads[t].req))
    requires p.Unretired? ==> ProofMatches(x.e, w.threads[t].req)
    ensures ThreadsOk(x.(threads := w.threads[t := p], backed := backed))
    ensures ProofsOk(x.(threads := w.threads[t := p], backed := backed))
  {
    hide ThreadsOk, Locks;
    ThreadMoves(x, t, p);
    ThreadsFrame(x.(threads := w.threads[t := p]), x.(threads := w.threads[t := p], backed := backed));
    var y := x.(threads := w.threads[t := p], backed := backed);
    if backed != w.backed {
      ProofIsUnused(w, t);
      assert ProofMatches(w.e, w.threads[t].req);
    }
    forall q | q in y.e.proofs && q in y.backed && !y.log.failed
      ensures exists u :: u in y.threads && y.threads[u].Unretired? && y.threads[u].req.proof == q
                          && y.threads[u].req.input.queue == y.e.proofs[q].queue
    {
      if q == w.threads[t].req.proof {
        assert y.threads[t].req.proof == q;
      } else {
        assert q in x.backed;
        var u :| u in x.threads && x.threads[u].Unretired? && x.threads[u].req.proof == q
                 && x.threads[u].req.input.queue == x.e.proofs[q].queue;
        assert u != t && y.threads[u] == x.threads[u];
      }
    }
  }

  lemma ThreadsFrame(w: World, v: World)
    requires ThreadsOk(w)
    requires v.up == w.up && v.threads == w.threads && v.pending == w.pending
    requires v.e.cfg == w.e.cfg && v.e.attached == w.e.attached && v.e.img.storeId == w.e.img.storeId
    ensures ThreadsOk(v)
  {
    hide Locks;
  }

  lemma ProofsWithThread(w: World, t: nat, p: Phase)
    requires ProofsOk(w) && w.up && (t in w.threads ==> !w.threads[t].Unretired?)
    ensures ProofsOk(w.(threads := w.threads[t := p]))
  {
    var v := w.(threads := w.threads[t := p]);
    forall q | q in v.e.proofs && q in v.backed && !v.log.failed
      ensures exists u :: u in v.threads && v.threads[u].Unretired? && v.threads[u].req.proof == q
                          && v.threads[u].req.input.queue == v.e.proofs[q].queue
    {
      var u :| u in w.threads && w.threads[u].Unretired? && w.threads[u].req.proof == q
               && w.threads[u].req.input.queue == w.e.proofs[q].queue;
      assert v.threads[u] == w.threads[u];
    }
  }

  lemma ProofsFrame(w: World, v: World)
    requires ProofsOk(w)
    requires v.up == w.up && v.threads == w.threads && v.e.proofs == w.e.proofs && v.e.epoch == w.e.epoch
    requires v.issued == w.issued && v.backed == w.backed && (w.log.failed ==> v.log.failed)
    ensures ProofsOk(v)
  {
    hide Distinct;
  }

  // ---- every step keeps the fence ----

  /** One append changes nothing the fence depends on, and latches the log unless it is acknowledged. */
  lemma LoggedFence(v: World, k: Commit, fate: Fate)
    ensures var x := Logged(v, v.e, k, fate);
      && x == v.(e := x.e, log := x.log, hist := x.hist, applied := x.applied, linked := x.linked)
      && x.e == v.e.(img := x.e.img) && x.e.img.storeId == v.e.img.storeId
      && (v.log.failed ==> x.log.failed) && (!Acknowledged(v, v.e, fate) && v.e.attached ==> x.log.failed)
  {
    hide CommitFrame, ApplyCommit, CommitReceipt;
  }

  lemma DirectFenced(w: World, r: DirectRequest, now: u64, alloc: bool, fate: Fate)
    requires Fenced(w)
    ensures Fenced(DoDirect(w, r, now, alloc, fate))
  {
    hide AdmitDirect, ThreadsOk, ProofsOk, Softer, Logged, ValidateDirect, ConfigOk;
    if ValidateDirect(w.e.cfg, r) == Ok {
      var (e1, o) := AdmitDirect(w.e, r, now, alloc);
      DirectSoftens(w.e, r, now, alloc);
      SofterState(w.e.img, e1.img, now);
      var v := w.(e := e1, clock := Later(w.clock, now));
      FenceFrame(w, v);
      if o.Reserved? {
        LoggedFence(v, o.commit, fate);
        var x := Logged(v, e1, o.commit, fate);
        FenceFrame(v, x);
        FenceFrame(x, x.(e := InDoubt(x.e, r.opId)));
      }
    }
  }

  lemma CommitFenced(w: World, t: nat, fence: bool, outMessage: u64, env: Env, fate: Fate)
    requires Fenced(w) && Enabled(w, CommitStep(t, fence, outMessage, env, fate))
    ensures Fenced(DoCommit(w, t, fence, outMessage, env, fate))
  {
    hide Prepare, ThreadsOk, ProofsOk, Softer, CommitOk, Logged, StateRoom, ReceiptRoom, VersionMatches;
    var req := w.threads[t].req;
    assert ValidateCompletion(w.e, req) == Ok by { HolderIsValid(w, t); }
    if !fence {
      LeavesFenced(w, t);
    } else {
      var (e1, o) := Prepare(w.e, req, outMessage, env);
      PrepareSoftens(w.e, req, outMessage, env);
      SofterState(w.e.img, e1.img, env.gcNow);
      var v := w.(e := e1, clock := Later(w.clock, env.gcNow));
      FenceFrame(w, v);
      if !o.Reserved? {
        LeavesFenced(v, t);
      } else {
        PrepareReserved(w.e, req, outMessage, env);
        LoggedFence(v, o.commit, fate);
        var x := Logged(v, e1, o.commit, fate);
        FenceFrame(v, x);
        var p := if Acknowledged(v, e1, fate) then Unretired(req) else Doubtful(req.opId);
        var backed := if Recorded(v, e1, fate) then w.backed + [req.proof] else w.backed;
        CommitFences(w, x, t, p, backed);
        assert DoCommit(w, t, fence, outMessage, env, fate) == x.(threads := w.threads[t := p], backed := backed);
      }
    }
  }

  /** A thread that is not the one keeping a used proof fenced may simply go. */
  lemma LeavesFenced(w: World, t: nat)
    requires Fenced(w) && w.up && t in w.threads && !w.threads[t].Unretired?
    ensures Fenced(w.(threads := w.threads - {t}))
  {
    hide Locks, ValidateCompletion;
    var v := w.(threads := w.threads - {t});
    forall q | q in v.e.proofs && q in v.backed && !v.log.failed
      ensures exists u :: u in v.threads && v.threads[u].Unretired? && v.threads[u].req.proof == q
                          && v.threads[u].req.input.queue == v.e.proofs[q].queue
    {
      var u :| u in w.threads && w.threads[u].Unretired? && w.threads[u].req.proof == q
               && w.threads[u].req.input.queue == w.e.proofs[q].queue;
      assert u in v.threads && v.threads[u] == w.threads[u];
    }
  }

  lemma BeginFenced(w: World, t: nat, req: CompletionRequest)
    requires Fenced(w) && Enabled(w, BeginStep(t, req))
    ensures Fenced(Do(w, BeginStep(t, req)))
  {
    hide Locks, ValidateCompletion, Ledger;
    if LookUp(w.e, req).None? {
      ProofsWithThread(w, t, Looked(req));
    }
  }

  lemma EnterFenced(w: World, t: nat)
    requires Fenced(w) && Enabled(w, EnterStep(t))
    ensures Fenced(Do(w, EnterStep(t)))
  {
    hide Locks, ValidateCompletion, Ledger;
    var req := w.threads[t].req;
    if Recheck(w.e, req).None? {
      ProofsWithThread(w, t, Holding(req, |w.hist|));
    } else {
      LeavesFenced(w, t);
    }
  }

  lemma RetireFenced(w: World, t: nat)
    requires Fenced(w) && Enabled(w, RetireStep(t))
    ensures Fenced(Do(w, RetireStep(t)))
  {
    hide Locks, DoDirect, DoCommit, DoAttach, WithCore, Recovered, Collected;
    var v := Do(w, RetireStep(t));
    forall q | q in v.e.proofs && q in v.backed && !v.log.failed
      ensures exists u :: u in v.threads && v.threads[u].Unretired? && v.threads[u].req.proof == q
                          && v.threads[u].req.input.queue == v.e.proofs[q].queue
    {
      var u :| u in w.threads && w.threads[u].Unretired? && w.threads[u].req.proof == q
               && w.threads[u].req.input.queue == w.e.proofs[q].queue;
      assert u != t && v.threads[u] == w.threads[u];
    }
  }

  lemma LatchFenced(w: World, t: nat)
    requires Fenced(w) && Enabled(w, LatchStep(t))
    ensures Fenced(Do(w, LatchStep(t)))
  {
    hide ThreadsOk, ProofsOk;
    LeavesFenced(w, t);
    FenceFrame(w.(threads := w.threads - {t}), Do(w, LatchStep(t)));
  }

  /** Only fresh proofs enter the registry and any may leave it. */
  lemma RegistryFenced(w: World, s: Step)
    requires Fenced(w) && Enabled(w, s) && (s.DeliverStep? || s.ForgetStep? || s.ProofGcStep?)
    ensures Fenced(Do(w, s))
  {
    hide ThreadsOk, Distinct, DoDirect, DoCommit, DoAttach, WithCore, Recovered, Collected;
    var v := Do(w, s);
    ThreadsFrame(w, v);
    assert forall q :: q in v.e.proofs && q in v.backed ==> q in w.e.proofs && v.e.proofs[q] == w.e.proofs[q];
  }

  lemma AttachFenced(w: World, m: Meta, fate: Fate)
    requires Fenced(w) && Enabled(w, AttachStep(m, fate))
    ensures Fenced(DoAttach(w, m, fate))
  {
    hide Encode, Locks, Distinct, ValidateCompletion, ProofsOk;
    NobodyRequests(w);
    ProofsFrame(w, DoAttach(w, m, fate));
  }

  lemma NobodyRequests(w: World)
    requires ThreadsOk(w) && !w.e.attached
    ensures forall t :: t in w.threads ==> !HasRequest(w.threads[t])
  {
    hide Locks;
  }

  /** Steps that concern the log and the memory only; a cut waits until nobody holds a Queue. */
  lemma StoreFenced(w: World, s: Step)
    requires Fenced(w) && Enabled(w, s)
    requires s.ReceiptGcStep? || s.CutStep? || s.PublishStep? || s.AbandonStep?
    ensures Fenced(Do(w, s))
  {
    hide Locks, ProofsOk, WalksAll, BaseFrames, Swept, ValidateCompletion, BaseOk;
    ProofsFrame(w, Do(w, s));
    SameRequests(w, Do(w, s));
  }

  lemma SameRequests(w: World, v: World)
    requires v.e.cfg == w.e.cfg && v.e.attached == w.e.attached && v.e.img.storeId == w.e.img.storeId
    ensures forall r :: ValidateCompletion(v.e, r) == ValidateCompletion(w.e, r)
  {
  }

  lemma RestFenced(w: World, s: Step)
    requires Fenced(w) && Enabled(w, s) && (s.CrashStep? || s.RestartStep?)
    ensures Fenced(Do(w, s))
  {
    hide DoDirect, DoCommit, DoAttach, Collected, Recovered, Replay, Distinct, BaseFrames;
  }

  lemma FencedStep(w: World, s: Step)
    requires Fenced(w) && Enabled(w, s)
    ensures Fenced(Do(w, s))
  {
    hide Fenced, Enabled, DoDirect, DoCommit, DoAttach;
    match s
    case DirectStep(r, now, alloc, fate) => DirectFenced(w, r, now, alloc, fate);
    case BeginStep(t, req) => BeginFenced(w, t, req);
    case EnterStep(t) => EnterFenced(w, t);
    case CommitStep(t, fence, outMessage, env, fate) => CommitFenced(w, t, fence, outMessage, env, fate);
    case RetireStep(t) => RetireFenced(w, t);
    case LatchStep(t) => LatchFenced(w, t);
    case DeliverStep(_, _) => RegistryFenced(w, s);
    case ForgetStep(_) => RegistryFenced(w, s);
    case ProofGcStep(_) => RegistryFenced(w, s);
    case AttachStep(m, fate) => AttachFenced(w, m, fate);
    case CrashStep => RestFenced(w, s);
    case RestartStep(_) => RestFenced(w, s);
    case _ => StoreFenced(w, s);
  }

  lemma {:induction false} FencedRun(w: World, steps: seq<Step>)
    requires Fenced(w) && Exec(w, steps).Some?
    ensures Fenced(Exec(w, steps).value)
  {
    hide Fenced, Do, Enabled;
    if |steps| > 0 {
      FencedRun(w, steps[..|steps| - 1]);
      FencedStep(Exec(w, steps[..|steps| - 1]).value, steps[|steps| - 1]);
    }
  }
}
