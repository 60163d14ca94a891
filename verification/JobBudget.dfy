/** The budget of durable state: what keeps it, and when a restart does not. */
module JobBudget {
  import opened Bytes
  import opened MapSum
  import opened JobRecord
  import opened JobImage
  import opened JobCheckpoint
  import opened JobHistory
  import opened JobAdmission
  import opened JobCore
  import opened JobMirror
  import opened JobRuns
  import opened JobReservations
  import opened JobFencing
  import opened JobSafety
  import opened JobTheorems

  // ---- operations ----

  /** No larger than the budget, or at least no larger than before. */
  ghost predicate NoWorse(max: nat, before: State, after: State) {
    StateBytes(after) <= max || StateBytes(after) <= StateBytes(before)
  }

  /** What a commit adds to the footprint of a state. */
  function CommitGrowth(s: State, k: Commit): int {
    if k.intent.kind != KIND_DELETE then Growth(s, k.Key(), k.intent.value)
    else if k.Key() in s then 0 - EntryFootprint(k.Key(), s[k.Key()]) else 0
  }

  lemma CommitWeighs(s: State, k: Commit)
    ensures StateBytes(ApplyCommit(s, k)) == StateBytes(s) + CommitGrowth(s, k)
  {
    hide StateBytes;
    if k.intent.kind == KIND_DELETE {
      DeleteFootprint(s, k.Key());
    } else {
      PutFootprint(s, k.Key(), Entry(k.intent.value, k.version, k.commitId));
    }
  }

  lemma RoomIsEnough(e: Engine, k: Commit)
    requires k.intent.kind != KIND_DELETE ==> StateRoom(e, k.Key(), k.intent.value)
    ensures NoWorse(e.cfg.stateMaxBytes, e.img.state, ApplyCommit(e.img.state, k))
  {
    hide StateBytes, ApplyCommit;
    CommitWeighs(e.img.state, k);
  }

  lemma LoggedState(v: World, k: Commit, fate: Fate)
    ensures var x := Logged(v, v.e, k, fate);
      x.e.img.state == v.e.img.state || x.e.img.state == ApplyCommit(v.e.img.state, k)
  {
    hide CommitFrame, ApplyCommit, CommitReceipt;
  }

  lemma DirectInBudget(w: World, r: DirectRequest, now: u64, alloc: bool, fate: Fate)
    requires ConfigOk(w.e.cfg) && Enabled(w, DirectStep(r, now, alloc, fate))
    ensures NoWorse(w.e.cfg.stateMaxBytes, w.e.img.state, DoDirect(w, r, now, alloc, fate).e.img.state)
  {
    hide AdmitDirect, Softer, CommitOk, ValidateDirect, StateRoom, VersionMatches, ReceiptRoom, Logged, StateBytes,
      ApplyCommit;
    if ValidateDirect(w.e.cfg, r) == Ok {
      var (e1, o) := AdmitDirect(w.e, r, now, alloc);
      DirectSoftens(w.e, r, now, alloc);
      SofterState(w.e.img, e1.img, now);
      if o.Reserved? {
        DirectReserved(w.e, r, now, alloc);
        RoomIsEnough(w.e, o.commit);
        LoggedState(w.(e := e1, clock := Later(w.clock, now)), o.commit, fate);
      }
    }
  }

  lemma CompletionInBudget(w: World, t: nat, fence: bool, outMessage: u64, env: Env, fate: Fate)
    requires Fenced(w) && Enabled(w, CommitStep(t, fence, outMessage, env, fate))
    ensures NoWorse(w.e.cfg.stateMaxBytes, w.e.img.state, DoCommit(w, t, fence, outMessage, env, fate).e.img.state)
  {
    hide Prepare, ThreadsOk, ProofsOk, Softer, CommitOk, ValidateCompletion, StateRoom, VersionMatches, ReceiptRoom,
      Logged, StateBytes, ApplyCommit, ProofMatches;
    var req := w.threads[t].req;
    HolderIsValid(w, t);
    if fence {
      var (e1, o) := Prepare(w.e, req, outMessage, env);
      PrepareSoftens(w.e, req, outMessage, env);
      SofterState(w.e.img, e1.img, env.gcNow);
      if o.Reserved? {
        PrepareReserved(w.e, req, outMessage, env);
        RoomIsEnough(w.e, o.commit);
        LoggedState(w.(e := e1, clock := Later(w.clock, env.gcNow)), o.commit, fate);
      }
    }
  }

  // ---- restarts ----

  function StateAfter(s: State, h: seq<Commit>): State {
    if |h| == 0 then s else ApplyCommit(StateAfter(s, h[..|h| - 1]), h[|h| - 1])
  }

  /** What the commits of a log tail add, one after the other, to the state they follow. */
  function TailGrowth(s: State, h: seq<Commit>): int {
    if |h| == 0 then 0
    else TailGrowth(s, h[..|h| - 1]) + CommitGrowth(StateAfter(s, h[..|h| - 1]), h[|h| - 1])
  }

  lemma {:induction false} TailWeighs(img: Image, h: seq<Commit>)
    ensures TailImage(img, h).state == StateAfter(img.state, h)
    ensures StateBytes(StateAfter(img.state, h)) == StateBytes(img.state) + TailGrowth(img.state, h)
  {
    hide StateBytes, ApplyCommit, CommitGrowth, CommitReceipt;
    if |h| > 0 {
      TailWeighs(img, h[..|h| - 1]);
      CommitWeighs(StateAfter(img.state, h[..|h| - 1]), h[|h| - 1]);
    }
  }

  /** The state of the base and what the commits since add to it fit the budget. */
  ghost predicate StateFits(cfg: Config, c: Core)
    requires c.from <= |c.hist|
  {
    StateBytes(BaseImage(c.base).state) + TailGrowth(BaseImage(c.base).state, c.hist[c.from..]) <= cfg.stateMaxBytes
  }

  /** Replay checks no budget: a restart leaves the state within it if and only if what the log adds up to fits. */
  lemma RestartInBudgetIff(w: World, epoch: Id)
    requires Stored(w) && Enabled(w, RestartStep(epoch))
    ensures StateBytes(Do(w, RestartStep(epoch)).e.img.state) <= w.e.cfg.stateMaxBytes
       <==> StateFits(w.e.cfg, CoreOf(w))
  {
    hide Stored, BaseImage, StateBytes, StateAfter, TailGrowth, Replay, NoReuse;
    RestartStored(w, epoch);
    TailWeighs(BaseImage(w.base), w.hist[w.from..]);
  }

  // ---- runs ----

  ghost predicate InBudgetAfter(w: World, s: Step)
    requires Enabled(w, s)
  {
    s.RestartStep? ==> StateFits(w.e.cfg, CoreOf(w))
  }

  /** Every restart of the run found a log whose state fits. */
  ghost predicate BudgetedRun(w: World, steps: seq<Step>) {
    |steps| == 0 || (
      var front, s := steps[..|steps| - 1], steps[|steps| - 1];
      && BudgetedRun(w, front)
      && (Exec(w, front).Some? && Enabled(Exec(w, front).value, s) ==> InBudgetAfter(Exec(w, front).value, s)))
  }

  lemma BudgetStep(w: World, s: Step)
    requires Sound(w) && StateBytes(w.e.img.state) <= w.e.cfg.stateMaxBytes && Enabled(w, s)
    ensures StateBytes(Do(w, s).e.img.state) <= w.e.cfg.stateMaxBytes <==> InBudgetAfter(w, s)
  {
    hide Stored, ThreadsOk, ProofsOk, DoDirect, DoCommit, StateFits, LookUp, Recheck, Locks, Encode, WalksAll, Swept,
      StateBytes, BaseFrames;
    match s
    case DirectStep(r, now, alloc, fate) => DirectInBudget(w, r, now, alloc, fate);
    case CommitStep(t, fence, outMessage, env, fate) => CompletionInBudget(w, t, fence, outMessage, env, fate);
    case RestartStep(epoch) => RestartInBudgetIff(w, epoch);
    case ReceiptGcStep(_) =>
    case _ => ImageKept(w, s);
  }

  lemma {:induction false} BudgetRun(w: World, steps: seq<Step>)
    requires Sound(w) && StateBytes(w.e.img.state) <= w.e.cfg.stateMaxBytes && Exec(w, steps).Some?
    requires BudgetedRun(w, steps)
    ensures StateBytes(Exec(w, steps).value.e.img.state) <= w.e.cfg.stateMaxBytes
  {
    hide Sound, StateBytes, Do, Enabled, InBudgetAfter;
    if |steps| > 0 {
      var front := steps[..|steps| - 1];
      BudgetRun(w, front);
      RunSound(w, front);
      BudgetStep(Exec(w, front).value, steps[|steps| - 1]);
    }
  }

  /** On every run whose restarts found a log that fits, durable state stays within its budget. */
  lemma StateStaysInBudget(cfg: Config, steps: seq<Step>, w: World)
    requires Ran(cfg, steps, w) && BudgetedRun(NewWorld(cfg), steps)
    ensures StateBytes(w.e.img.state) <= w.e.cfg.stateMaxBytes
  {
    hide Sound, Exec, BudgetedRun;
    NewWorldOk(cfg);
    RunSound(NewWorld(cfg), steps);
    assert Sum<Short, Entry>(map[], EntryFootprint) == 0;
    BudgetRun(NewWorld(cfg), steps);
  }

  /** Unless a checkpoint was published over newer commits, the log always fits and so does memory. */
  lemma CoveredInBudget(cfg: Config, steps: seq<Step>, w: World)
    requires Reached(cfg, steps, w)
    ensures w.from <= |w.hist| && StateFits(w.e.cfg, CoreOf(w))
    ensures w.up ==> StateBytes(w.e.img.state) <= w.e.cfg.stateMaxBytes
  {
    hide Fenced, IdentityOk, LogOk, HistoryOk, MemoryOk, ReceiptsOk, PendingOk, BaseImage, Fold, StateBytes, Genuine,
      TailGrowth, StateAfter, TailImage, CoveredRun, Exec;
    ReachedOk(cfg, steps, w);
    PendingIsOk(w);
    var img, tail := BaseImage(w.base), w.hist[w.from..];
    TailWeighs(img, tail);
    TailState(img, w.hist[..w.from], tail);
    assert w.hist[..w.from] + tail == w.hist;
  }
}
