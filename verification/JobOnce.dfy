/** At most one effect per operation id: when a second commit of an id can happen, and when it cannot. */
module JobOnce {
  import opened Bytes
  import opened JobIntent
  import opened JobRecord
  import opened JobImage
  import opened JobCheckpoint
  import opened JobHistory
  import opened JobAdmission
  import opened JobCore
  import opened JobRuns
  import opened JobReservations
  import opened JobFencing
  import opened JobSafety
  import opened JobRetention
  import opened JobTheorems

  /** Since the thread rechecked the ledger, somebody else committed the id it holds. */
  ghost predicate Overtaken(w: World, t: nat) {
    && t in w.threads && w.threads[t].Holding?
    && exists j :: w.threads[t].since <= j < |w.hist| && w.hist[j].OpId() == w.threads[t].req.opId
  }

  /** An overtaking commit whose receipt entered the ledger. */
  ghost predicate LinkedSince(w: World, since: nat, op: Id, j: nat) {
    since <= j < |w.hist| && w.hist[j].OpId() == op && j in w.linked
  }

  /** A held id has no receipt until it is overtaken, and then the first to overtake it was linked. */
  ghost predicate HeldOk(w: World) {
    forall t :: t in w.threads && w.threads[t].Holding? ==>
      && w.from <= w.threads[t].since <= |w.hist|
      && (!Overtaken(w, t) ==> w.threads[t].req.opId !in w.e.img.receipts)
      && (Overtaken(w, t) ==> exists j :: LinkedSince(w, w.threads[t].since, w.threads[t].req.opId, j))
  }

  // ---- what one step can do to the history ----

  ghost predicate Silent(w: World, x: World) {
    && x.hist == w.hist && x.linked == w.linked && x.clock >= w.clock
    && x.e.img.receipts.Keys <= w.e.img.receipts.Keys
  }

  ghost predicate Records(w: World, x: World, op: Id) {
    && !w.log.failed && w.up && |x.hist| == |w.hist| + 1 && x.hist[..|w.hist|] == w.hist
    && x.hist[|w.hist|].OpId() == op && x.clock >= w.clock
    && x.e.img.receipts.Keys <= w.e.img.receipts.Keys + {op}
    && w.linked <= x.linked <= w.linked + {|w.hist|} && (op !in w.e.img.receipts ==> |w.hist| in x.linked)
  }

  lemma SofterKeys(a: Image, b: Image, now: nat)
    requires Softer(a, b, now)
    ensures b.receipts.Keys <= a.receipts.Keys
  {
  }

  /** One append, seen from the history. */
  lemma LoggedShape(v: World, k: Commit, fate: Fate)
    requires v.up
    ensures var x := Logged(v, v.e, k, fate);
      && x == v.(e := v.e.(img := x.e.img), log := x.log, hist := x.hist, applied := x.applied, linked := x.linked)
      && (Recorded(v, v.e, fate) ==> Records(v, x, k.OpId()))
      && (Recorded(v, v.e, fate) ==> (|v.hist| in x.linked <==> |v.hist| in v.linked || k.OpId() !in v.e.img.receipts))
      && (!Recorded(v, v.e, fate) ==> Silent(v, x))
  {
    hide CommitFrame, ApplyCommit, CommitReceipt;
    var x := Logged(v, v.e, k, fate);
    if Recorded(v, v.e, fate) {
      assert (v.hist + [k])[..|v.hist|] == v.hist;
    }
  }

  /** A direct mutation records a commit only of an id without a receipt, and links it. */
  lemma DirectShape(w: World, r: DirectRequest, now: u64, alloc: bool, fate: Fate)
    requires Sound(w) && Enabled(w, DirectStep(r, now, alloc, fate))
    ensures var x := DoDirect(w, r, now, alloc, fate);
      && x.threads == w.threads && x.from == w.from
      && (Silent(w, x) || (Records(w, x, r.opId) && r.opId !in w.e.img.receipts))
  {
    hide AdmitDirect, Sound, Softer, CommitOk, Logged, ValidateDirect, StateRoom, VersionMatches, ReceiptRoom;
    if ValidateDirect(w.e.cfg, r) == Ok {
      var (e1, o) := AdmitDirect(w.e, r, now, alloc);
      DirectSoftens(w.e, r, now, alloc);
      SofterKeys(w.e.img, e1.img, now);
      var v := w.(e := e1, clock := Later(w.clock, now));
      if o.Reserved? {
        assert ConfigOk(w.e.cfg) by { ConfigIsOk(w); }
        DirectReserved(w.e, r, now, alloc);
        LoggedShape(v, o.commit, fate);
      }
    }
  }

  lemma ConfigIsOk(w: World)
    requires Sound(w)
    ensures ConfigOk(w.e.cfg)
  {
    hide Stored, ThreadsOk, ProofsOk;
  }

  /** A completion records a commit of the id it holds, linked exactly if by then the ledger has none. */
  lemma CommitShape(w: World, t: nat, fence: bool, outMessage: u64, env: Env, fate: Fate)
    requires Sound(w) && Enabled(w, CommitStep(t, fence, outMessage, env, fate))
    ensures var x := DoCommit(w, t, fence, outMessage, env, fate); var op := w.threads[t].req.opId;
      && x.from == w.from
      && (forall u :: u in x.threads && x.threads[u].Holding? ==>
            u != t && u in w.threads && x.threads[u] == w.threads[u])
      && (Silent(w, x) || (
            var e1 := Prepare(w.e, w.threads[t].req, outMessage, env).0;
            && Records(w, x, op) && x.clock == Later(w.clock, env.gcNow) && Softer(w.e.img, e1.img, env.gcNow)
            && (|w.hist| in x.linked <==> op !in e1.img.receipts)))
  {
    hide Prepare, Softer, CommitOk, Logged, StateRoom, VersionMatches, ProofMatches, CoreOk, ProofsOk,
      ValidateCompletion, ThreadsOk, ReceiptRoom;
    var req := w.threads[t].req;
    HolderIsValid(w, t);
    NewIsUnlinked(w);
    if fence {
      var (e1, o) := Prepare(w.e, req, outMessage, env);
      PrepareSoftens(w.e, req, outMessage, env);
      SofterKeys(w.e.img, e1.img, env.gcNow);
      var v := w.(e := e1, clock := Later(w.clock, env.gcNow));
      if o.Reserved? {
        PrepareReserved(w.e, req, outMessage, env);
        LoggedShape(v, o.commit, fate);
      }
    }
  }

  lemma NewIsUnlinked(w: World)
    requires Sound(w)
    ensures |w.hist| !in w.linked
  {
    hide LogOk, HistoryOk, MemoryOk, PendingOk, ThreadsOk, ProofsOk, Retained, BaseImage;
  }

  // ---- what threads hold, over every run ----

  /** Holders stay as they were, or have just found the ledger without their id. */
  ghost predicate HoldersFrom(w: World, x: World) {
    forall t :: t in x.threads && x.threads[t].Holding? ==>
      || (t in w.threads && x.threads[t] == w.threads[t])
      || (x.hist == w.hist && x.threads[t].since == |w.hist| && x.threads[t].req.opId !in x.e.img.receipts)
  }

  lemma HeldKeeps(w: World, x: World, op: Id)
    requires HeldOk(w) && HoldersFrom(w, x) && x.from == w.from <= |w.hist|
    requires Silent(w, x) || Records(w, x, op)
    ensures HeldOk(x)
  {
    forall t | t in x.threads && x.threads[t].Holding?
      ensures x.from <= x.threads[t].since <= |x.hist|
      ensures !Overtaken(x, t) ==> x.threads[t].req.opId !in x.e.img.receipts
      ensures Overtaken(x, t) ==> exists j :: LinkedSince(x, x.threads[t].since, x.threads[t].req.opId, j)
    {
      if t in w.threads && x.threads[t] == w.threads[t] {
        HolderKeeps(w, x, op, t);
      }
    }
  }

  lemma HolderKeeps(w: World, x: World, op: Id, t: nat)
    requires HeldOk(w) && t in w.threads && t in x.threads && x.threads[t] == w.threads[t] && w.threads[t].Holding?
    requires Silent(w, x) || Records(w, x, op)
    ensures !Overtaken(x, t) ==> x.threads[t].req.opId !in x.e.img.receipts
    ensures Overtaken(x, t) ==> exists j :: LinkedSince(x, x.threads[t].since, x.threads[t].req.opId, j)
  {
    var held, since := w.threads[t].req.opId, w.threads[t].since;
    assert forall j :: 0 <= j < |w.hist| ==> x.hist[j] == w.hist[j];
    if Overtaken(w, t) {
      var j :| LinkedSince(w, since, held, j);
      assert LinkedSince(x, since, held, j);
    } else if |x.hist| > |w.hist| && op == held {
      assert LinkedSince(x, since, held, |w.hist|);
    }
  }

  lemma SoundFrom(w: World)
    requires Sound(w)
    ensures w.from <= |w.hist|
    ensures w.pending.Some? ==> forall t :: t in w.threads ==> !w.threads[t].Holding?
    ensures !w.up ==> w.threads == map[]
  {
    hide Stored, ProofsOk, Locks;
    PendingIsOk(w);
  }

  /** No step but a direct mutation or a completion records a commit, and none but a recheck holds an id. */
  lemma OtherShape(w: World, s: Step)
    requires Sound(w) && Enabled(w, s) && !s.DirectStep? && !s.CommitStep?
    requires !s.PublishStep? && !s.CrashStep? && !s.RestartStep?
    ensures Do(w, s).from == w.from && Silent(w, Do(w, s)) && HoldersFrom(w, Do(w, s))
  {
    hide DoDirect, DoCommit, Prepare, AdmitDirect, CoreOk, ProofsOk, ThreadsOk, Locks, WalksAll,
      Encode, ValidateCompletion,
      Ledger, LookUp, ReceiptBucket;
    match s
    case EnterStep(t) => RecheckedIsNew(w.e, w.threads[t].req);
    case _ =>
  }

  lemma RecheckedIsNew(e: Engine, req: CompletionRequest)
    ensures Recheck(e, req).None? ==> req.opId !in e.img.receipts
  {
    hide IntentDigest;
  }

  lemma HeldStep(w: World, s: Step)
    requires Sound(w) && HeldOk(w) && Enabled(w, s)
    ensures HeldOk(Do(w, s))
  {
    hide Sound, HeldOk, Silent, Records, DoDirect, DoCommit, HoldersFrom, Recovered;
    SoundFrom(w);
    var x := Do(w, s);
    match s
    case DirectStep(r, now, alloc, fate) =>
      DirectShape(w, r, now, alloc, fate);
      SameHolders(w, x);
      HeldKeeps(w, x, r.opId);
    case CommitStep(t, fence, outMessage, env, fate) =>
      CommitShape(w, t, fence, outMessage, env, fate);
      SameHolders(w, x);
      HeldKeeps(w, x, w.threads[t].req.opId);
    case PublishStep => NobodyHolds(x);
    case CrashStep => NobodyHolds(x);
    case RestartStep(_) => NobodyHolds(x);
    case _ =>
      OtherShape(w, s);
      HeldKeeps(w, x, ZERO_ID);
  }

  lemma SameHolders(w: World, x: World)
    requires forall u :: u in x.threads && x.threads[u].Holding? ==> u in w.threads && x.threads[u] == w.threads[u]
    ensures HoldersFrom(w, x)
  {
  }

  lemma NobodyHolds(x: World)
    requires forall t :: t in x.threads ==> !x.threads[t].Holding?
    ensures HeldOk(x)
  {
  }

  lemma {:induction false} HeldRun(w: World, steps: seq<Step>)
    requires Sound(w) && HeldOk(w) && Exec(w, steps).Some?
    ensures HeldOk(Exec(w, steps).value)
  {
    hide Sound, HeldOk, Do, Enabled;
    if |steps| > 0 {
      var front := steps[..|steps| - 1];
      HeldRun(w, front);
      RunSound(w, front);
      HeldStep(Exec(w, front).value, steps[|steps| - 1]);
    }
  }

  lemma RanHolds(cfg: Config, steps: seq<Step>, w: World)
    requires Ran(cfg, steps, w)
    ensures Sound(w) && HeldOk(w)
  {
    hide Sound, Exec;
    RanOk(cfg, steps, w);
    NewWorldOk(cfg);
    HeldRun(NewWorld(cfg), steps);
  }

  // ---- at most once ----

  /** Every commit's receipt entered the ledger, and an id commits again only after its receipt expired. */
  ghost predicate Once(w: World) {
    && (forall i :: 0 <= i < |w.hist| ==> i in w.linked)
    && (forall i, j :: 0 <= i < j < |w.hist| && w.hist[i].OpId() == w.hist[j].OpId() ==> w.hist[i].expiresAt <= w.clock)
  }

  /** A completion reaches the log only if nobody overtook it. */
  ghost predicate Undisturbed(w: World, s: Step)
    requires Enabled(w, s)
  {
    s.CommitStep? && Do(w, s).hist != w.hist ==> !Overtaken(w, s.t)
  }

  ghost predicate UndisturbedRun(w: World, steps: seq<Step>) {
    |steps| == 0 || (
      var front, s := steps[..|steps| - 1], steps[|steps| - 1];
      && UndisturbedRun(w, front)
      && (Exec(w, front).Some? && Enabled(Exec(w, front).value, s) ==> Undisturbed(Exec(w, front).value, s)))
  }

  /** Without a receipt for the id, whatever committed it has expired. */
  lemma UnreceiptedExpired(w: World, op: Id)
    requires Sound(w) && w.up && !w.log.failed && op !in w.e.img.receipts
    requires forall i :: 0 <= i < |w.hist| ==> i in w.linked
    ensures forall i :: 0 <= i < |w.hist| && w.hist[i].OpId() == op ==> w.hist[i].expiresAt <= w.clock
  {
    hide HistoryOk, PendingOk, ThreadsOk, ProofsOk, BaseImage, BaseFrames, TailFrames, Fold,
      CommitReceipt, Follows;
  }

  lemma OnceRecords(w: World, x: World, op: Id)
    requires Sound(w) && Once(w) && Records(w, x, op) && op !in w.e.img.receipts
    ensures Once(x)
  {
    hide Sound;
    UnreceiptedExpired(w, op);
    assert forall i :: 0 <= i < |w.hist| ==> x.hist[i] == w.hist[i];
  }

  lemma OnceStep(w: World, s: Step)
    requires Sound(w) && HeldOk(w) && Once(w) && Enabled(w, s) && Undisturbed(w, s)
    ensures Once(Do(w, s))
  {
    hide Sound, HeldOk, Records, DoDirect, DoCommit, Once, Recovered, Overtaken, Softer;
    var x := Do(w, s);
    match s
    case DirectStep(r, now, alloc, fate) =>
      DirectShape(w, r, now, alloc, fate);
      if Silent(w, x) { OnceSilent(w, x); } else { OnceRecords(w, x, r.opId); }
    case CommitStep(t, fence, outMessage, env, fate) =>
      CommitShape(w, t, fence, outMessage, env, fate);
      if Silent(w, x) {
        OnceSilent(w, x);
      } else {
        assert w.threads[t].req.opId !in w.e.img.receipts by { NotOvertaken(w, x, t); }
        OnceRecords(w, x, w.threads[t].req.opId);
      }
    case PublishStep => OnceShorter(w, x);
    case CrashStep => OnceShorter(w, x);
    case RestartStep(_) => OnceShorter(w, x);
    case _ =>
      OtherShape(w, s);
      OnceSilent(w, x);
  }

  lemma NotOvertaken(w: World, x: World, t: nat)
    requires HeldOk(w) && t in w.threads && w.threads[t].Holding?
    requires Records(w, x, w.threads[t].req.opId) && (x.hist != w.hist ==> !Overtaken(w, t))
    ensures w.threads[t].req.opId !in w.e.img.receipts
  {
    hide Overtaken;
  }

  lemma OnceSilent(w: World, x: World)
    requires Once(w) && Silent(w, x)
    ensures Once(x)
  {
  }

  lemma OnceShorter(w: World, x: World)
    requires Once(w) && x.hist <= w.hist && x.clock == w.clock
    requires forall i :: i in w.linked && i < |x.hist| ==> i in x.linked
    ensures Once(x)
  {
    assert forall i :: 0 <= i < |x.hist| ==> x.hist[i] == w.hist[i];
  }

  lemma {:induction false} OnceRun(w: World, steps: seq<Step>)
    requires Sound(w) && HeldOk(w) && Once(w) && Exec(w, steps).Some? && UndisturbedRun(w, steps)
    ensures Once(Exec(w, steps).value)
  {
    hide Sound, HeldOk, Once, Do, Enabled, Undisturbed;
    if |steps| > 0 {
      var front := steps[..|steps| - 1];
      OnceRun(w, front);
      RunSound(w, front);
      HeldRun(w, front);
      OnceStep(Exec(w, front).value, steps[|steps| - 1]);
    }
  }

  /** At-most-once effects. On every run in which no operation was overtaken between the recheck of its receipt
      and its commit, every commit can be retried, and no id commits again until a step was given a clock one
      retention after it completed. */
  lemma AtMostOnce(cfg: Config, steps: seq<Step>, w: World)
    requires Ran(cfg, steps, w) && UndisturbedRun(NewWorld(cfg), steps)
    ensures forall i :: 0 <= i < |w.hist| ==> i in w.linked
    ensures forall i, j :: 0 <= i < j < |w.hist| && w.hist[i].OpId() == w.hist[j].OpId() ==>
      && w.hist[i].completedAt + w.e.cfg.retentionMs <= w.clock
      && exists n :: 0 <= n < |steps| && Tick(steps[n]) == Some(w.clock)
  {
    hide Sound, Exec, UndisturbedRun, ConfigOk, Effective;
    NewWorldOk(cfg);
    OnceRun(NewWorld(cfg), steps);
    Retention(cfg, steps, w);
    RanOk(cfg, steps, w);
    ConfigIsOk(w);
  }

  /** While no receipt of its id expires, the commit of a completion is linked if and only if nobody
      overtook it. */
  lemma CompletionLinkedIff(cfg: Config, steps: seq<Step>, w: World, t: nat, outMessage: u64, env: Env, fate: Fate)
    requires Ran(cfg, steps, w) && Enabled(w, CommitStep(t, true, outMessage, env, fate))
    requires var x := Do(w, CommitStep(t, true, outMessage, env, fate));
      && x.hist != w.hist
      && forall j :: w.threads[t].since <= j < |w.hist| && w.hist[j].OpId() == w.threads[t].req.opId ==>
           w.hist[j].expiresAt > x.clock
    ensures |w.hist| in Do(w, CommitStep(t, true, outMessage, env, fate)).linked <==> !Overtaken(w, t)
  {
    hide Sound, HeldOk, Prepare, Overtaken, DoCommit, Softer;
    RanHolds(cfg, steps, w);
    CommitShape(w, t, true, outMessage, env, fate);
    var e1 := Prepare(w.e, w.threads[t].req, outMessage, env).0;
    OvertakenIsLinked(w, t, e1, env.gcNow);
  }

  lemma OvertakenIsLinked(w: World, t: nat, e1: Engine, now: nat)
    requires Sound(w) && HeldOk(w) && w.up && t in w.threads && w.threads[t].Holding? && !w.log.failed
    requires Softer(w.e.img, e1.img, now)
    requires forall j :: w.threads[t].since <= j < |w.hist| && w.hist[j].OpId() == w.threads[t].req.opId ==>
      w.hist[j].expiresAt > Later(w.clock, now)
    ensures Overtaken(w, t) <==> w.threads[t].req.opId in e1.img.receipts
  {
    hide Sound, Softer, Overtaken;
    var op, since := w.threads[t].req.opId, w.threads[t].since;
    if Overtaken(w, t) {
      var j :| LinkedSince(w, since, op, j);
      LiveIsKept(w, e1.img, now, j);
    } else {
      SofterKeys(w.e.img, e1.img, now);
    }
  }

  lemma LiveIsKept(w: World, img: Image, now: nat, j: nat)
    requires Sound(w) && w.up && !w.log.failed && Softer(w.e.img, img, now)
    requires j in w.linked && j < |w.hist| && w.hist[j].expiresAt > Later(w.clock, now)
    ensures w.hist[j].OpId() in img.receipts
  {
    hide HistoryOk, PendingOk, ThreadsOk, ProofsOk, BaseImage, BaseFrames, TailFrames, Fold,
      CommitReceipt, Follows, Softer;
    RetainedSofter(w.e.img, img, now, w.hist, w.applied, w.linked, w.clock);
  }

  /** A completion that was overtaken and still reaches the log puts its id there a second time, and from then
      on the store does not open again. */
  lemma OvertakenCommitsTwice(cfg: Config, steps: seq<Step>, w: World, t: nat, outMessage: u64, env: Env, fate: Fate)
    requires Ran(cfg, steps, w) && Enabled(w, CommitStep(t, true, outMessage, env, fate))
    requires Do(w, CommitStep(t, true, outMessage, env, fate)).hist != w.hist && Overtaken(w, t)
    ensures var x := Do(w, CommitStep(t, true, outMessage, env, fate));
      && |x.hist| == |w.hist| + 1 && x.hist[|w.hist|].OpId() == w.threads[t].req.opId
      && (exists i :: w.from <= i < |w.hist| && x.hist[i].OpId() == w.threads[t].req.opId)
      && !Opens(CoreOf(x)) && Replay(x.log.frames).None?
  {
    hide Sound, Prepare, DoCommit, Softer, Opens, Replay;
    RanHolds(cfg, steps, w);
    CommitShape(w, t, true, outMessage, env, fate);
    StepSound(w, CommitStep(t, true, outMessage, env, fate));
    var x := Do(w, CommitStep(t, true, outMessage, env, fate));
    var i :| w.threads[t].since <= i < |w.hist| && w.hist[i].OpId() == w.threads[t].req.opId;
    assert x.hist[i] == w.hist[i];
    SoundLog(x);
    Recovery(CoreOf(x));
    TwiceCannotOpen(CoreOf(x), i, |w.hist|);
  }

  lemma SoundLog(w: World)
    requires Sound(w)
    ensures LogOk(CoreOf(w))
  {
    hide Fenced, LogOk, HistoryOk, MemoryOk, ReceiptsOk, PendingOk, IdentityOk;
  }

  lemma TwiceCannotOpen(c: Core, i: nat, j: nat)
    requires c.from <= i < j < |c.hist| && c.hist[i].OpId() == c.hist[j].OpId()
    ensures !Opens(c)
  {
    var tail := c.hist[c.from..];
    assert tail[i - c.from] == c.hist[i] && tail[j - c.from] == c.hist[j];
  }
}
