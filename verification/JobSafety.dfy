/** What every step of every run keeps, and what one kind of checkpoint does not. */
module JobSafety {
  import opened Bytes
  import opened MapSum
  import opened JobRecord
  import opened JobImage
  import opened JobCheckpoint
  import opened JobHistory
  import opened JobAdmission
  import opened JobCore
  import opened JobMirror
  import opened JobRuns
  import opened JobReservations
  import opened JobFencing

  ghost predicate IdentityOk(w: World) {
    && (w.base == Virgin ==> w.hist == [])
    && (w.up ==>
          && (w.e.attached ==> w.e.img.storeId.Some?)
          && (w.e.img.storeId.None? && !w.log.failed ==> w.base == Virgin))
  }

  ghost predicate Stored(w: World) {
    CoreOk(CoreOf(w)) && IdentityOk(w)
  }

  /** What holds on every run whatsoever. */
  ghost predicate Sound(w: World) {
    Fenced(w) && Stored(w)
  }

  /** What holds as long as no checkpoint was published over newer commits. */
  ghost predicate Inv(w: World) {
    Sound(w) && MirrorOk(CoreOf(w), w.e.cfg.stateMaxBytes)
  }

  // ---- appends ----

  lemma SoftStored(w: World, e1: Engine, now: nat)
    requires Stored(w) && w.up && Softer(w.e.img, e1.img, now)
    requires e1 == w.e.(img := e1.img, gcCursor := e1.gcCursor, failed := e1.failed)
    ensures Stored(w.(e := e1, clock := Later(w.clock, now)))
  {
    hide CoreOk;
    var v := w.(e := e1, clock := Later(w.clock, now));
    SoftKeeps(CoreOf(w), e1.img, now);
    assert CoreOf(v) == CoreOf(w).(img := e1.img, clock := Later(w.clock, now));
  }

  lemma CutMarks(c: Core)
    requires PendingOk(c) && c.pending.Some? && c.pending.value.Checkpointed?
    ensures c.pending.value.img.versionHwm <= c.img.versionHwm && c.pending.value.img.commitHwm <= c.img.commitHwm
  {
    hide BaseOk, BaseImage, Retained;
  }

  /** A reservation made in `w` is admissible for the log, once memory was softened to `v`. */
  lemma ReservedAdmissible(w: World, v: World, k: Commit)
    requires Stored(w) && Stored(v) && w.up && v.e.attached && !v.log.failed
    requires v == w.(e := v.e, clock := v.clock) && v.e.img.storeId == w.e.img.storeId
    requires CommitOk(k) && k.intent.storeId == StoreIdOf(w.e.img)
    requires w.e.img.versionHwm < k.version == v.e.img.versionHwm
    requires w.e.img.commitHwm < k.commitId == v.e.img.commitHwm
    ensures Admissible(CoreOf(v), k)
  {
    hide LogOk, HistoryOk, ReceiptsOk, PendingOk, CommitOk, BaseImage, ImageOk;
    if w.pending.Some? && w.pending.value.Checkpointed? {
      CutMarks(CoreOf(w));
    }
  }

  lemma LoggedStored(v: World, k: Commit, fate: Fate)
    requires Stored(v) && v.up && (v.e.attached && !v.log.failed ==> Admissible(CoreOf(v), k))
    ensures Stored(Logged(v, v.e, k, fate))
  {
    hide LogOk, HistoryOk, ReceiptsOk, PendingOk, CommitFrame, ApplyCommit, CommitReceipt, CommitOk, Numbered, ImageOk;
    if v.e.attached && !v.log.failed {
      CommitKeeps(CoreOf(v), k, fate);
      assert CoreOf(Logged(v, v.e, k, fate)) == Committed(CoreOf(v), k, fate);
    } else {
      assert Logged(v, v.e, k, fate) == v;
    }
  }

  lemma LoggedMirrors(v: World, k: Commit, fate: Fate, max: nat)
    requires Stored(v) && v.up && MirrorOk(CoreOf(v), max)
    requires v.e.attached && !v.log.failed ==> Admissible(CoreOf(v), k)
    requires v.e.attached && !v.log.failed ==> StateBytes(ApplyCommit(v.e.img.state, k)) <= max
    ensures MirrorOk(CoreOf(Logged(v, v.e, k, fate)), max)
  {
    hide CoreOk, MirrorOk, CommitFrame, ApplyCommit, CommitReceipt, CommitOk, Numbered, StateBytes;
    if v.e.attached && !v.log.failed {
      CommitMirrors(CoreOf(v), k, fate, max);
      assert CoreOf(Logged(v, v.e, k, fate)) == Committed(CoreOf(v), k, fate);
    } else {
      assert Logged(v, v.e, k, fate) == v;
    }
  }

  lemma InBudget(c: Core, max: nat)
    requires MirrorOk(c, max) && c.up
    ensures StateBytes(c.img.state) <= max
  {
    hide StateBytes, Fold, Genuine, BaseImage;
  }

  lemma DirectStored(w: World, r: DirectRequest, now: u64, alloc: bool, fate: Fate)
    requires Sound(w) && Enabled(w, DirectStep(r, now, alloc, fate))
    ensures Stored(DoDirect(w, r, now, alloc, fate))
  {
    hide AdmitDirect, CoreOk, ThreadsOk, ProofsOk, Softer, CommitOk, Logged, ValidateDirect, Admissible, StateRoom,
      ReceiptRoom;
    if ValidateDirect(w.e.cfg, r) == Ok {
      var (e1, o) := AdmitDirect(w.e, r, now, alloc);
      DirectSoftens(w.e, r, now, alloc);
      SofterState(w.e.img, e1.img, now);
      SoftStored(w, e1, now);
      var v := w.(e := e1, clock := Later(w.clock, now));
      if o.Reserved? {
        DirectReserved(w.e, r, now, alloc);
        if v.e.attached && !v.log.failed {
          ReservedAdmissible(w, v, o.commit);
        }
        LoggedStored(v, o.commit, fate);
        LatchedStored(Logged(v, e1, o.commit, fate), r.opId);
      }
    }
  }

  lemma LatchedStored(w: World, op: Id)
    requires Stored(w)
    ensures Stored(w.(e := InDoubt(w.e, op))) && CoreOf(w.(e := InDoubt(w.e, op))) == CoreOf(w)
  {
    hide CoreOk;
    assert CoreOf(w.(e := InDoubt(w.e, op))) == CoreOf(w);
  }

  lemma DirectMirrors(w: World, r: DirectRequest, now: u64, alloc: bool, fate: Fate)
    requires Inv(w) && Enabled(w, DirectStep(r, now, alloc, fate))
    ensures MirrorOk(CoreOf(DoDirect(w, r, now, alloc, fate)), w.e.cfg.stateMaxBytes)
  {
    hide AdmitDirect, CoreOk, MirrorOk, ThreadsOk, ProofsOk, Softer, CommitOk, Logged, ValidateDirect, Admissible,
      StateRoom, ReceiptRoom, IdentityOk, ApplyCommit, StateBytes;
    var max := w.e.cfg.stateMaxBytes;
    if ValidateDirect(w.e.cfg, r) == Ok {
      var (e1, o) := AdmitDirect(w.e, r, now, alloc);
      DirectSoftens(w.e, r, now, alloc);
      SofterState(w.e.img, e1.img, now);
      SoftStored(w, e1, now);
      SoftMirrors(CoreOf(w), e1.img, now, max);
      var v := w.(e := e1, clock := Later(w.clock, now));
      assert CoreOf(v) == CoreOf(w).(img := e1.img, clock := Later(w.clock, now));
      if o.Reserved? {
        DirectReserved(w.e, r, now, alloc);
        InBudget(CoreOf(w), max);
        PutFits(w.e, o.commit);
        if v.e.attached && !v.log.failed {
          ReservedAdmissible(w, v, o.commit);
        }
        LoggedMirrors(v, o.commit, fate, max);
        LoggedStored(v, o.commit, fate);
        LatchedStored(Logged(v, e1, o.commit, fate), r.opId);
      }
    }
  }

  lemma CommitStored(w: World, t: nat, fence: bool, outMessage: u64, env: Env, fate: Fate)
    requires Sound(w) && Enabled(w, CommitStep(t, fence, outMessage, env, fate))
    ensures Stored(DoCommit(w, t, fence, outMessage, env, fate))
  {
    hide Prepare, CoreOk, ThreadsOk, ProofsOk, Softer, CommitOk, Logged, Admissible, StateRoom, VersionMatches,
      ReceiptRoom, ProofMatches, ValidateCompletion;
    var req := w.threads[t].req;
    HolderIsValid(w, t);
    if fence {
      var (e1, o) := Prepare(w.e, req, outMessage, env);
      PrepareSoftens(w.e, req, outMessage, env);
      SofterState(w.e.img, e1.img, env.gcNow);
      SoftStored(w, e1, env.gcNow);
      var v := w.(e := e1, clock := Later(w.clock, env.gcNow));
      if !o.Reserved? {
        SameStored(v, DoCommit(w, t, fence, outMessage, env, fate));
      } else {
        PrepareReserved(w.e, req, outMessage, env);
        if v.e.attached && !v.log.failed {
          ReservedAdmissible(w, v, o.commit);
        }
        LoggedStored(v, o.commit, fate);
        SameStored(Logged(v, e1, o.commit, fate), DoCommit(w, t, fence, outMessage, env, fate));
      }
    } else {
      SameStored(w, DoCommit(w, t, fence, outMessage, env, fate));
    }
  }

  lemma SameStored(w: World, v: World)
    requires Stored(w) && v == w.(threads := v.threads, backed := v.backed)
    ensures Stored(v) && CoreOf(v) == CoreOf(w)
  {
    hide CoreOk;
    assert CoreOf(v) == CoreOf(w);
  }

  lemma CommitMirrored(w: World, t: nat, fence: bool, outMessage: u64, env: Env, fate: Fate)
    requires Inv(w) && Enabled(w, CommitStep(t, fence, outMessage, env, fate))
    ensures MirrorOk(CoreOf(DoCommit(w, t, fence, outMessage, env, fate)), w.e.cfg.stateMaxBytes)
  {
    hide Prepare, CoreOk, MirrorOk, ThreadsOk, ProofsOk, Softer, CommitOk, Logged, Admissible, StateRoom,
      VersionMatches, ReceiptRoom, ProofMatches, ValidateCompletion, IdentityOk, ApplyCommit, StateBytes;
    var req, max := w.threads[t].req, w.e.cfg.stateMaxBytes;
    HolderIsValid(w, t);
    if fence {
      var (e1, o) := Prepare(w.e, req, outMessage, env);
      PrepareSoftens(w.e, req, outMessage, env);
      SofterState(w.e.img, e1.img, env.gcNow);
      SoftStored(w, e1, env.gcNow);
      SoftMirrors(CoreOf(w), e1.img, env.gcNow, max);
      var v := w.(e := e1, clock := Later(w.clock, env.gcNow));
      assert CoreOf(v) == CoreOf(w).(img := e1.img, clock := Later(w.clock, env.gcNow));
      if !o.Reserved? {
        SameStored(v, DoCommit(w, t, fence, outMessage, env, fate));
      } else {
        PrepareReserved(w.e, req, outMessage, env);
        InBudget(CoreOf(w), max);
        PutFits(w.e, o.commit);
        if v.e.attached && !v.log.failed {
          ReservedAdmissible(w, v, o.commit);
        }
        LoggedMirrors(v, o.commit, fate, max);
        LoggedStored(v, o.commit, fate);
        SameStored(Logged(v, e1, o.commit, fate), DoCommit(w, t, fence, outMessage, env, fate));
      }
    } else {
      SameStored(w, DoCommit(w, t, fence, outMessage, env, fate));
    }
  }

  // ---- every step ----

  /** Steps of threads and of the proof registry that touch neither log nor memory. */
  predicate Idle(s: Step) {
    s.BeginStep? || s.EnterStep? || s.RetireStep? || s.LatchStep? || s.DeliverStep? || s.ForgetStep? || s.ProofGcStep?
  }

  lemma IdleStored(w: World, s: Step)
    requires Stored(w) && Enabled(w, s) && Idle(s)
    ensures Stored(Do(w, s)) && CoreOf(Do(w, s)) == CoreOf(w) && Do(w, s).e.cfg == w.e.cfg
  {
    hide CoreOk, LookUp, Recheck, DoDirect, DoCommit, DoAttach, Collected, Recovered, QueuesFree;
    assert CoreOf(Do(w, s)) == CoreOf(w);
  }

  lemma AttachStored(w: World, m: Meta, fate: Fate)
    requires Stored(w) && Enabled(w, AttachStep(m, fate))
    ensures Stored(DoAttach(w, m, fate))
  {
    hide CoreOk, Encode;
    var v := DoAttach(w, m, fate);
    if w.e.img.storeId.Some? {
      assert CoreOf(v) == CoreOf(w);
    } else {
      AttachKeeps(CoreOf(w), m, fate);
      assert CoreOf(v) == Attached(CoreOf(w), m, fate);
    }
  }

  lemma AttachMirrored(w: World, m: Meta, fate: Fate, max: nat)
    requires Stored(w) && MirrorOk(CoreOf(w), max) && Enabled(w, AttachStep(m, fate))
    ensures MirrorOk(CoreOf(DoAttach(w, m, fate)), max)
  {
    hide CoreOk, MirrorOk, Encode;
    var v := DoAttach(w, m, fate);
    if w.e.img.storeId.Some? {
      assert CoreOf(v) == CoreOf(w);
    } else {
      AttachMirrors(CoreOf(w), m, fate, max);
      assert CoreOf(v) == Attached(CoreOf(w), m, fate);
    }
  }

  lemma ReceiptGcStored(w: World, now: u64)
    requires Stored(w) && w.up
    ensures Stored(Do(w, ReceiptGcStep(now)))
  {
    hide Softer, Swept, CoreOk;
    SweptIsSofter(w.e, now);
    SoftStored(w, Collected(w.e, now), now);
  }

  lemma CutStored(w: World, cut: Cut)
    requires Stored(w) && Enabled(w, CutStep(cut))
    ensures Stored(Do(w, CutStep(cut))) && CoreOf(Do(w, CutStep(cut))) == CutAt(CoreOf(w), cut)
  {
    hide CoreOk, WalksAll;
    CutKeeps(CoreOf(w), cut);
    var v := WithCore(w, w.e, CutAt(CoreOf(w), cut));
    assert CoreOf(v) == CutAt(CoreOf(w), cut);
  }

  lemma PublishedCore(w: World)
    requires w.up && w.pending.Some? && BaseOk(w.pending.value) && w.cutAt <= |w.hist|
    ensures CoreOf(Do(w, PublishStep)) == PublishedCut(CoreOf(w))
  {
    hide BaseFrames, BaseOk;
    assert CoreOf(WithCore(w, w.e, PublishedCut(CoreOf(w)))) == PublishedCut(CoreOf(w));
  }

  /** Even a checkpoint published over newer commits leaves log and memory sound, though no longer the same. */
  lemma PublishStored(w: World)
    requires Stored(w) && Enabled(w, PublishStep)
    ensures Stored(Do(w, PublishStep))
  {
    hide LogOk, HistoryOk, MemoryOk, ReceiptsOk, BaseFrames, Retained, ImageOk;
    PublishKeeps(CoreOf(w));
    PublishedCore(w);
  }

  lemma AbandonStored(w: World)
    requires Stored(w) && Enabled(w, AbandonStep)
    ensures Stored(Do(w, AbandonStep)) && CoreOf(Do(w, AbandonStep)) == Abandoned(CoreOf(w))
  {
    hide LogOk, HistoryOk, MemoryOk, ReceiptsOk;
    assert CoreOf(Do(w, AbandonStep)) == Abandoned(CoreOf(w));
    AbandonKeeps(CoreOf(w));
  }

  lemma AbandonKeeps(c: Core)
    requires CoreOk(c)
    ensures CoreOk(Abandoned(c))
    ensures forall max :: MirrorOk(c, max) ==> MirrorOk(Abandoned(c), max)
  {
    hide BaseFrames, TailFrames, BaseImage, Follows, Ascending, CommitOk, ImageOk, Retained, Shows, Fold, StateBytes;
  }

  lemma CrashStored(w: World)
    requires Stored(w) && Enabled(w, CrashStep)
    ensures Stored(Do(w, CrashStep)) && CoreOf(Do(w, CrashStep)) == Crashed(CoreOf(w))
  {
    hide CoreOk;
    CrashKeeps(CoreOf(w));
    assert CoreOf(Do(w, CrashStep)) == Crashed(CoreOf(w));
  }

  lemma RestartStored(w: World, epoch: Id)
    requires Stored(w) && Enabled(w, RestartStep(epoch))
    ensures Opens(CoreOf(w)) && Stored(Do(w, RestartStep(epoch)))
    ensures CoreOf(Do(w, RestartStep(epoch))) == Restarted(CoreOf(w))
  {
    hide HistoryOk, ReceiptsOk, PendingOk, MemoryOk, LogOk, Opens, Recovered, Relinked;
    var c := CoreOf(w);
    Recovery(c);
    RestartKeeps(c);
    RecoveredMarks(c);
    var v := Do(w, RestartStep(epoch));
    assert CoreOf(v) == Restarted(c);
    assert v.e.img.storeId.None? ==> w.base == Virgin by { NamedUnlessVirgin(c); }
  }

  lemma NamedUnlessVirgin(c: Core)
    requires LogOk(c)
    ensures BaseImage(c.base).storeId.None? ==> c.base == Virgin
  {
    hide BaseFrames, TailFrames, Follows;
  }

  lemma StoredStep(w: World, s: Step)
    requires Sound(w) && Enabled(w, s)
    ensures Stored(Do(w, s))
  {
    hide Stored, Enabled, DoDirect, DoCommit, DoAttach, Fenced;
    match s
    case DirectStep(r, now, alloc, fate) => DirectStored(w, r, now, alloc, fate);
    case CommitStep(t, fence, outMessage, env, fate) => CommitStored(w, t, fence, outMessage, env, fate);
    case ReceiptGcStep(now) => UpWhenEnabled(w, s); ReceiptGcStored(w, now);
    case AttachStep(m, fate) => AttachStored(w, m, fate);
    case CutStep(cut) => CutStored(w, cut);
    case PublishStep => PublishStored(w);
    case AbandonStep => AbandonStored(w);
    case CrashStep => CrashStored(w);
    case RestartStep(epoch) => RestartStored(w, epoch);
    case _ => IdleStored(w, s);
  }

  lemma UpWhenEnabled(w: World, s: Step)
    requires Enabled(w, s) && (s.ReceiptGcStep? || s.PublishStep?)
    ensures w.up && (s.PublishStep? ==> w.pending.Some?)
  {
  }

  /** Every step of every kind keeps the fence and the soundness of log, memory and ledger. */
  lemma StepSound(w: World, s: Step)
    requires Sound(w) && Enabled(w, s)
    ensures Sound(Do(w, s)) && Do(w, s).e.cfg == w.e.cfg
  {
    hide Fenced, Stored, Enabled, Do;
    FencedStep(w, s);
    StoredStep(w, s);
    SameConfig(w, s);
  }

  lemma SameConfig(w: World, s: Step)
    requires Enabled(w, s)
    ensures Do(w, s).e.cfg == w.e.cfg
  {
    hide AdmitDirect, Prepare, LookUp, Recheck, Softer, Replay, BaseFrames, WalksAll, Encode, CommitFrame,
      CommitReceipt, ApplyCommit, Recovered, Swept, QueuesFree;
    match s
    case DirectStep(r, now, alloc, _) => DirectSoftens(w.e, r, now, alloc);
    case CommitStep(t, _, outMessage, env, _) => PrepareSoftens(w.e, w.threads[t].req, outMessage, env);
    case _ =>
  }

  /** Steps that leave state and receipts in memory as they are. */
  predicate LeavesImage(s: Step) {
    !s.DirectStep? && !s.CommitStep? && !s.ReceiptGcStep? && !s.RestartStep?
  }

  lemma ImageKept(w: World, s: Step)
    requires Enabled(w, s) && LeavesImage(s)
    ensures Do(w, s).e.img.state == w.e.img.state && Do(w, s).e.img.receipts == w.e.img.receipts
  {
    hide DoDirect, DoCommit, LookUp, Recheck, QueuesFree, Encode, WalksAll, BaseFrames, Replay, Recovered, Relinked,
      Collected, Below, BaseOk, HoldsLocks, Later;
    if Idle(s) {
      IdleImage(w, s);
    }
  }

  lemma IdleImage(w: World, s: Step)
    requires Enabled(w, s) && Idle(s)
    ensures Do(w, s).e.img == w.e.img
  {
    hide DoDirect, DoCommit, DoAttach, LookUp, Recheck, QueuesFree, Replay, Recovered, Collected, WithCore, HoldsLocks;
  }

  /** Any run of any length keeps them. */
  lemma {:induction false} RunSound(w: World, steps: seq<Step>)
    requires Sound(w) && Exec(w, steps).Some?
    ensures Sound(Exec(w, steps).value) && Exec(w, steps).value.e.cfg == w.e.cfg
  {
    hide Sound, Do, Enabled;
    if |steps| > 0 {
      RunSound(w, steps[..|steps| - 1]);
      StepSound(Exec(w, steps[..|steps| - 1]).value, steps[|steps| - 1]);
    }
  }

  // ---- the mirror ----

  lemma StepMirrors(w: World, s: Step)
    requires Inv(w) && Enabled(w, s) && Covered(w, s)
    ensures MirrorOk(CoreOf(Do(w, s)), w.e.cfg.stateMaxBytes)
  {
    hide MirrorOk, CoreOk, IdentityOk, Fenced, Enabled, DoDirect, DoCommit, DoAttach, Recovered, Softer;
    var c, max := CoreOf(w), w.e.cfg.stateMaxBytes;
    match s
    case DirectStep(r, now, alloc, fate) => DirectMirrors(w, r, now, alloc, fate);
    case CommitStep(t, fence, outMessage, env, fate) => CommitMirrored(w, t, fence, outMessage, env, fate);
    case ReceiptGcStep(now) =>
      UpWhenEnabled(w, s);
      SweptIsSofter(w.e, now);
      SoftMirrors(c, Collected(w.e, now).img, now, max);
    case AttachStep(m, fate) => AttachMirrored(w, m, fate, max);
    case CutStep(cut) => CutIsUp(w, cut); CutStored(w, cut); CutMirrors(c, cut, max);
    case PublishStep => UpWhenEnabled(w, s); PendingIsOk(w); PublishedCore(w); PublishMirrors(c, max);
    case AbandonStep => AbandonStored(w); AbandonKeeps(c);
    case CrashStep => CrashStored(w); CrashMirrors(c, max);
    case RestartStep(epoch) => RestartStored(w, epoch); DownWhenRestarted(w, epoch); RestartMirrors(c, max);
    case _ => IdleStored(w, s);
  }

  lemma CutIsUp(w: World, cut: Cut)
    requires Enabled(w, CutStep(cut))
    ensures w.up
  {
  }

  lemma DownWhenRestarted(w: World, epoch: Id)
    requires Enabled(w, RestartStep(epoch))
    ensures !w.up
  {
  }

  lemma PendingIsOk(w: World)
    requires Stored(w)
    ensures w.from <= w.applied <= |w.hist|
    ensures w.pending.Some? ==> BaseOk(w.pending.value) && w.from <= w.cutAt <= w.applied
  {
    hide HistoryOk, MemoryOk, ReceiptsOk, BaseOk, Retained, BaseFrames, TailFrames, BaseImage, Follows;
  }

  /** One step of any kind keeps the mirror too, unless it publishes a checkpoint over newer commits. */
  lemma StepKeeps(w: World, s: Step)
    requires Inv(w) && Enabled(w, s) && Covered(w, s)
    ensures Inv(Do(w, s))
  {
    hide Sound, MirrorOk, Enabled, Do;
    StepSound(w, s);
    StepMirrors(w, s);
  }

  /** And so does a run of any length without such a publication. */
  lemma {:induction false} RunKeeps(w: World, steps: seq<Step>)
    requires Inv(w) && Exec(w, steps).Some? && CoveredRun(w, steps)
    ensures Inv(Exec(w, steps).value)
  {
    hide Inv, Do, Enabled, Covered;
    if |steps| > 0 {
      RunKeeps(w, steps[..|steps| - 1]);
      StepKeeps(Exec(w, steps[..|steps| - 1]).value, steps[|steps| - 1]);
    }
  }

  lemma NewStored(cfg: Config)
    ensures Stored(NewWorld(cfg))
  {
    var c := CoreOf(NewWorld(cfg));
    assert c.hist[c.from..] == [];
    assert BaseFrames(Virgin) + TailFrames([]) == [];
  }

  lemma NewMirrors(cfg: Config, max: nat)
    ensures MirrorOk(CoreOf(NewWorld(cfg)), max)
  {
    var c := CoreOf(NewWorld(cfg));
    assert c.hist[..c.applied] == [];
    assert Sum<Short, Entry>(map[], EntryFootprint) == 0;
  }

  lemma NewWorldOk(cfg: Config)
    requires ConfigOk(Effective(cfg))
    ensures Inv(NewWorld(cfg))
  {
    hide Stored, MirrorOk;
    NewStored(cfg);
    NewMirrors(cfg, Effective(cfg).stateMaxBytes);
  }
}
