/** How long a committed operation is remembered: from the clock its step was given, for the retention configured. */
module JobRetention {
  import opened Bytes
  import opened JobRecord
  import opened JobImage
  import opened JobCheckpoint
  import opened JobHistory
  import opened JobAdmission
  import opened JobOutcomes
  import opened JobCore
  import opened JobRuns
  import opened JobSafety

  /** The wall clock a step stamps its commit with. */
  function Stamp(s: Step): Option<nat> {
    match s
    case DirectStep(_, now, _, _) => Some(now)
    case CommitStep(_, _, _, env, _) => Some(env.now)
    case _ => None
  }

  /** The wall clock a step collects or cuts receipts at. */
  function Tick(s: Step): Option<nat> {
    match s
    case DirectStep(_, now, _, _) => Some(now)
    case CommitStep(_, _, _, env, _) => Some(env.gcNow)
    case ReceiptGcStep(now) => Some(now)
    case CutStep(cut) => Some(cut.now)
    case _ => None
  }

  ghost predicate Stamped(steps: seq<Step>, at: nat) {
    exists n :: 0 <= n < |steps| && Stamp(steps[n]) == Some(at)
  }

  ghost predicate Ticked(steps: seq<Step>, at: nat) {
    exists n :: 0 <= n < |steps| && Tick(steps[n]) == Some(at)
  }

  /** One append adds nothing but its commit. */
  lemma LoggedAdds(v: World, e: Engine, k: Commit, fate: Fate)
    ensures var x := Logged(v, e, k, fate); (x.hist == v.hist || x.hist == v.hist + [k]) && x.clock == v.clock
  {
    hide CommitFrame, ApplyCommit, CommitReceipt;
  }

  /** A step keeps a beginning of the history, or adds one commit: completed at the clock the step was given, and to
      be forgotten one retention later. */
  ghost predicate Adds(w: World, s: Step, x: World) {
    || x.hist <= w.hist
    || (&& |x.hist| == |w.hist| + 1 && w.hist <= x.hist
        && var k := x.hist[|w.hist|];
           Stamp(s) == Some(k.completedAt) && k.expiresAt == k.completedAt + w.e.cfg.retentionMs)
  }

  lemma DirectAdds(w: World, r: DirectRequest, now: u64, alloc: bool, fate: Fate)
    requires Enabled(w, DirectStep(r, now, alloc, fate))
    ensures Adds(w, DirectStep(r, now, alloc, fate), DoDirect(w, r, now, alloc, fate))
  {
    hide AdmitDirect, Logged, ValidateDirect;
    var (e1, o) := AdmitDirect(w.e, r, now, alloc);
    if o.Reserved? {
      DirectCarries(w.e, r, now, alloc);
      LoggedAdds(w.(e := e1, clock := Later(w.clock, now)), e1, o.commit, fate);
    }
  }

  lemma CommitAdds(w: World, t: nat, fence: bool, outMessage: u64, env: Env, fate: Fate)
    requires Enabled(w, CommitStep(t, fence, outMessage, env, fate))
    ensures Adds(w, CommitStep(t, fence, outMessage, env, fate), DoCommit(w, t, fence, outMessage, env, fate))
  {
    hide Prepare, Logged;
    var req := w.threads[t].req;
    var (e1, o) := Prepare(w.e, req, outMessage, env);
    if o.Reserved? {
      CompletionCarries(w.e, req, outMessage, env);
      LoggedAdds(w.(e := e1, clock := Later(w.clock, env.gcNow)), e1, o.commit, fate);
    }
  }

  lemma StepAdds(w: World, s: Step)
    requires Enabled(w, s)
    ensures Adds(w, s, Do(w, s))
  {
    hide DoDirect, DoCommit, LookUp, Recheck, Encode, WalksAll, BaseFrames, Replay, Recovered, Relinked, Collected,
      QueuesFree, BaseOk, HoldsLocks, Later;
    match s
    case DirectStep(r, now, alloc, fate) => DirectAdds(w, r, now, alloc, fate);
    case CommitStep(t, fence, outMessage, env, fate) => CommitAdds(w, t, fence, outMessage, env, fate);
    case _ =>
  }

  lemma StampedSnoc(steps: seq<Step>, s: Step, at: nat)
    requires Stamped(steps, at) || Stamp(s) == Some(at)
    ensures Stamped(steps + [s], at)
  {
    if Stamped(steps, at) {
      var n :| 0 <= n < |steps| && Stamp(steps[n]) == Some(at);
      assert (steps + [s])[n] == steps[n];
    } else {
      assert (steps + [s])[|steps|] == s;
    }
  }

  /** Every commit of the history was completed at a clock one of the steps was given, and is to be forgotten one
      retention later. */
  ghost predicate Remembered(steps: seq<Step>, w: World) {
    forall i :: 0 <= i < |w.hist| ==>
      Stamped(steps, w.hist[i].completedAt) && w.hist[i].expiresAt == w.hist[i].completedAt + w.e.cfg.retentionMs
  }

  lemma RememberedStep(steps: seq<Step>, w: World, s: Step)
    requires Remembered(steps, w) && Enabled(w, s)
    ensures Remembered(steps + [s], Do(w, s))
  {
    hide Do, Enabled, Stamped;
    StepAdds(w, s);
    SameConfig(w, s);
    var x := Do(w, s);
    forall i | 0 <= i < |x.hist|
      ensures Stamped(steps + [s], x.hist[i].completedAt)
      ensures x.hist[i].expiresAt == x.hist[i].completedAt + x.e.cfg.retentionMs
    {
      if i < |w.hist| {
        assert x.hist[i] == w.hist[i];
      }
      StampedSnoc(steps, s, x.hist[i].completedAt);
    }
  }

  lemma {:induction false} RunRemembers(w: World, steps: seq<Step>)
    requires w.hist == [] && Exec(w, steps).Some?
    ensures Remembered(steps, Exec(w, steps).value) && Exec(w, steps).value.e.cfg == w.e.cfg
  {
    hide Do, Enabled, Remembered;
    if |steps| == 0 {
      NothingRemembered(steps, w);
    } else {
      var front, s := steps[..|steps| - 1], steps[|steps| - 1];
      RunRemembers(w, front);
      RememberedStep(front, Exec(w, front).value, s);
      SameConfig(Exec(w, front).value, s);
      assert front + [s] == steps;
    }
  }

  lemma NothingRemembered(steps: seq<Step>, w: World)
    requires w.hist == []
    ensures Remembered(steps, w)
  {
  }

  // ---- the clock ----

  /** The clock of a run moves only to a time one of its steps was given. */
  lemma StepTicks(w: World, s: Step)
    requires Enabled(w, s)
    ensures Do(w, s).clock == w.clock || Some(Do(w, s).clock) == Tick(s)
  {
    hide AdmitDirect, Prepare, Logged, LookUp, Recheck, Encode, WalksAll, BaseFrames, Replay, Recovered, Relinked,
      Collected, QueuesFree, BaseOk, HoldsLocks, ValidateDirect;
    match s
    case DirectStep(r, now, alloc, fate) =>
      var (e1, o) := AdmitDirect(w.e, r, now, alloc);
      if o.Reserved? {
        LoggedAdds(w.(e := e1, clock := Later(w.clock, now)), e1, o.commit, fate);
      }
    case CommitStep(t, fence, outMessage, env, fate) =>
      var (e1, o) := Prepare(w.e, w.threads[t].req, outMessage, env);
      if o.Reserved? {
        LoggedAdds(w.(e := e1, clock := Later(w.clock, env.gcNow)), e1, o.commit, fate);
      }
    case _ =>
  }

  lemma {:induction false} ClockIsGiven(w: World, steps: seq<Step>)
    requires Exec(w, steps).Some?
    ensures Exec(w, steps).value.clock == w.clock || Ticked(steps, Exec(w, steps).value.clock)
  {
    hide Do, Enabled;
    if |steps| > 0 {
      var front, s := steps[..|steps| - 1], steps[|steps| - 1];
      ClockIsGiven(w, front);
      StepTicks(Exec(w, front).value, s);
      var at := Exec(w, steps).value.clock;
      if Tick(s) == Some(at) {
        assert Tick(steps[|steps| - 1]) == Some(at);
      } else if Ticked(front, at) {
        var n :| 0 <= n < |front| && Tick(front[n]) == Some(at);
        assert steps[n] == front[n];
      }
    }
  }
}
