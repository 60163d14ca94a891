/** Every interleaving of the job engine's locked sections, crashes and restarts included. */
module JobRuns {
  import opened Bytes
  import opened JobRecord
  import opened JobImage
  import opened JobCheckpoint
  import opened JobHistory
  import opened JobAdmission
  import opened JobCore

  /** Where a completing thread stands between two of its locked sections. */
  datatype Phase =
    | Looked(req: CompletionRequest)    // receipt looked up, no lock held
    | Holding(req: CompletionRequest, since: nat) // Queue locks held, receipt rechecked after `since` commits
    | Unretired(req: CompletionRequest) // committed and published, Queue locks held, proof still registered
    | Doubtful(op: Id)                  // the append failed, the engine is not latched yet

  datatype World = World(
    e: Engine,
    up: bool,
    log: Log,
    base: Base,
    from: nat,
    hist: seq<Commit>,
    applied: nat,
    linked: set<nat>,
    clock: nat,
    pending: Option<Base>,
    cutAt: nat,
    threads: map<nat, Phase>,
    issued: set<Id>,
    backed: seq<Id>)

  function CoreOf(w: World): Core {
    Core(w.e.img, w.up, w.log, w.base, w.from, w.hist, w.applied, w.linked, w.clock, w.pending,
         w.cutAt)
  }

  /** The world with `e` as its engine and everything durable taken from `c`. */
  function WithCore(w: World, e: Engine, c: Core): World {
    w.(e := e.(img := c.img), up := c.up, log := c.log, base := c.base, from := c.from, hist := c.hist,
       applied := c.applied, linked := c.linked, clock := c.clock, pending := c.pending, cutAt := c.cutAt)
  }

  datatype Step =
    | DirectStep(r: DirectRequest, now: u64, alloc: bool, fate: Fate)
    | BeginStep(t: nat, req: CompletionRequest)
    | EnterStep(t: nat)
    | CommitStep(t: nat, fence: bool, outMessage: u64, env: Env, fate: Fate)
    | RetireStep(t: nat)
    | LatchStep(t: nat)
    | DeliverStep(id: Id, proof: Proof)
    | ForgetStep(id: Id)
    | ProofGcStep(gone: set<Id>)
    | ReceiptGcStep(now: u64)
    | AttachStep(meta: Meta, fate: Fate)
    | CutStep(cut: Cut)
    | PublishStep
    | AbandonStep
    | CrashStep
    | RestartStep(epoch: Id)

  // ---- when a step can happen ----

  predicate HoldsLocks(p: Phase) {
    p.Holding? || p.Unretired?
  }

  function Locks(r: CompletionRequest): set<Short> {
    {r.input.queue} + if r.output.Some? then {r.output.value.queue} else {}
  }

  predicate QueuesFree(w: World, req: CompletionRequest) {
    forall u :: u in w.threads && HoldsLocks(w.threads[u]) ==> Locks(w.threads[u].req) !! Locks(req)
  }

  /** The wall clock is far enough from overflow for a deadline to be represented. */
  predicate ClockSane(cfg: Config, now: u64) {
    now + cfg.retentionMs < TWO64
  }

  ghost predicate Reserves(e: Engine, r: DirectRequest, now: u64, alloc: bool) {
    ValidateDirect(e.cfg, r) == Ok && AdmitDirect(e, r, now, alloc).1.Reserved?
  }

  ghost predicate Enabled(w: World, s: Step) {
    match s
    case DirectStep(_, now, _, _) =>
      // a direct mutation takes no Queue lock, so nothing keeps it out of a checkpoint
      w.up && ClockSane(w.e.cfg, now)
    case BeginStep(t, _) => w.up && t !in w.threads
    case EnterStep(t) =>
      w.up && t in w.threads && w.threads[t].Looked? && w.pending.None? && QueuesFree(w, w.threads[t].req)
    case CommitStep(t, _, _, env, _) =>
      w.up && t in w.threads && w.threads[t].Holding? && ClockSane(w.e.cfg, env.now)
    case RetireStep(t) => w.up && t in w.threads && w.threads[t].Unretired?
    case LatchStep(t) => w.up && t in w.threads && w.threads[t].Doubtful?
    case DeliverStep(id, p) => w.up && id !in w.issued && p.epoch == w.e.epoch
    case ForgetStep(_) => w.up
    case ProofGcStep(_) => w.up
    case ReceiptGcStep(_) => w.up
    case AttachStep(m, _) =>
      && w.up && !w.e.attached && !w.log.failed && w.pending.None?
      && m.versionHwm == w.e.img.versionHwm && m.commitHwm == w.e.img.commitHwm
    case CutStep(cut) =>
      && w.up && w.pending.None? && w.e.img.storeId.Some? && WalksAll(w.e.img, cut)
      && (forall t :: t in w.threads ==> !HoldsLocks(w.threads[t]))
    case PublishStep => w.up && w.pending.Some? && BaseOk(w.pending.value) && w.cutAt <= |w.hist|
    case AbandonStep => w.pending.Some?
    case CrashStep => w.up
    case RestartStep(_) => !w.up && w.from <= |w.hist| && Replay(w.log.frames).Some?
  }

  // ---- what it does ----

  /** A reserved commit goes to the log, and into the history if its record stays there. */
  function Logged(w: World, e: Engine, k: Commit, fate: Fate): World {
    var c := CoreOf(w).(img := e.img);
    if !e.attached || w.log.failed then WithCore(w, e, c) else WithCore(w, e, Committed(c, k, fate))
  }

  predicate Acknowledged(w: World, e: Engine, fate: Fate) {
    e.attached && !w.log.failed && fate == Durable
  }

  predicate Recorded(w: World, e: Engine, fate: Fate) {
    e.attached && !w.log.failed && fate != Lost
  }

  ghost function DoDirect(w: World, r: DirectRequest, now: u64, alloc: bool, fate: Fate): World {
    if ValidateDirect(w.e.cfg, r) != Ok then w
    else
      var (e1, outcome) := AdmitDirect(w.e, r, now, alloc);
      var w1 := w.(e := e1, clock := Later(w.clock, now));
      if !outcome.Reserved? then w1
      else
        var w2 := Logged(w1, e1, outcome.commit, fate);
        if Acknowledged(w1, e1, fate) then w2 else w2.(e := InDoubt(w2.e, r.opId))
  }

  ghost function DoCommit(w: World, t: nat, fence: bool, outMessage: u64, env: Env, fate: Fate): World
    requires t in w.threads && w.threads[t].Holding?
  {
    var req := w.threads[t].req;
    var idle := w.threads - {t};
    if !fence then w.(threads := idle)
    else
      var (e1, outcome) := Prepare(w.e, req, outMessage, env);
      var w1 := w.(e := e1, clock := Later(w.clock, env.gcNow));
      if !outcome.Reserved? then w1.(threads := idle)
      else
        var w2 := Logged(w1, e1, outcome.commit, fate);
        var w3 := if Recorded(w1, e1, fate) then w2.(backed := w2.backed + [req.proof]) else w2;
        w3.(threads := w.threads[t := if Acknowledged(w1, e1, fate) then Unretired(req) else Doubtful(req.opId)])
  }

  function DoAttach(w: World, m: Meta, fate: Fate): World {
    if w.e.img.storeId.Some? then w.(e := w.e.(attached := true))
    else
      var w1 := WithCore(w, w.e, Attached(CoreOf(w), m, fate));
      if fate == Durable then w1.(e := w1.e.(attached := true)) else w1.(e := w1.e.(failed := true))
  }

  /** A fresh process: empty proof registry, new epoch, nothing latched, not attached. */
  function FreshEngine(cfg: Config, img: Image, epoch: Id): Engine {
    Engine(cfg, img, false, false, 0, None, map[], epoch)
  }

  ghost function Do(w: World, s: Step): World
    requires Enabled(w, s)
  {
    match s
    case DirectStep(r, now, alloc, fate) => DoDirect(w, r, now, alloc, fate)
    case BeginStep(t, req) => if LookUp(w.e, req).None? then w.(threads := w.threads[t := Looked(req)]) else w
    case EnterStep(t) =>
      var req := w.threads[t].req;
      if Recheck(w.e, req).None? then w.(threads := w.threads[t := Holding(req, |w.hist|)])
      else w.(threads := w.threads - {t})
    case CommitStep(t, fence, outMessage, env, fate) => DoCommit(w, t, fence, outMessage, env, fate)
    case RetireStep(t) =>
      w.(e := w.e.(proofs := w.e.proofs - {w.threads[t].req.proof}), threads := w.threads - {t})
    case LatchStep(t) => w.(e := InDoubt(w.e, w.threads[t].op), threads := w.threads - {t})
    case DeliverStep(id, p) => w.(e := w.e.(proofs := w.e.proofs[id := p]), issued := w.issued + {id})
    case ForgetStep(id) => w.(e := w.e.(proofs := w.e.proofs - {id}))
    case ProofGcStep(gone) => w.(e := w.e.(proofs := w.e.proofs - gone))
    case ReceiptGcStep(now) => w.(e := Collected(w.e, now), clock := Later(w.clock, now))
    case AttachStep(m, fate) => DoAttach(w, m, fate)
    case CutStep(cut) => WithCore(w, w.e, CutAt(CoreOf(w), cut))
    case PublishStep => WithCore(w, w.e, PublishedCut(CoreOf(w)))
    case AbandonStep => WithCore(w, w.e, Abandoned(CoreOf(w)))
    case CrashStep => WithCore(w, w.e, Crashed(CoreOf(w))).(e := w.e.(proofs := map[]), threads := map[])
    case RestartStep(epoch) =>
      WithCore(w, FreshEngine(w.e.cfg, w.e.img, epoch), Restarted(CoreOf(w)))
  }

  /** A store that was never opened. */
  function NewWorld(cfg: Config): World {
    World(FreshEngine(Effective(cfg), EMPTY, ZERO_ID), false, Log([], false), Virgin, 0, [], 0, {}, 0, None,
          0, map[], {}, [])
  }

  /** Where a run ends; None if one of its steps could not happen. */
  ghost function Exec(w: World, steps: seq<Step>): Option<World> {
    if |steps| == 0 then Some(w)
    else
      var m := Exec(w, steps[..|steps| - 1]);
      if m.Some? && Enabled(m.value, steps[|steps| - 1]) then Some(Do(m.value, steps[|steps| - 1])) else None
  }

  lemma ExecSnoc(w: World, steps: seq<Step>, s: Step)
    requires Exec(w, steps).Some? && Enabled(Exec(w, steps).value, s)
    ensures Exec(w, steps + [s]) == Some(Do(Exec(w, steps).value, s))
  {
    hide Do, Enabled;
    assert (steps + [s])[..|steps|] == steps;
  }

  /** A checkpoint is published only if nothing was committed since its cut. */
  predicate Covered(w: World, s: Step) {
    s.PublishStep? ==> w.applied == w.cutAt
  }

  /** So it was for every checkpoint of the run. */
  ghost predicate CoveredRun(w: World, steps: seq<Step>) {
    |steps| == 0 || (
      var front := steps[..|steps| - 1];
      CoveredRun(w, front) && (Exec(w, front).Some? ==> Covered(Exec(w, front).value, steps[|steps| - 1])))
  }
}
