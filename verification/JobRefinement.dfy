/** The engine's operations are the runs' steps: what the class computes is what the theorems speak of. */
module JobRefinement {
  import opened Bytes
  import opened JobRecord
  import opened JobImage
  import opened JobCheckpoint
  import opened JobHistory
  import opened JobAdmission
  import opened JobCore
  import opened JobRuns
  import opened JobSafety
  import opened JobEngine

  /** A direct mutation is one step. */
  lemma DirectIsStep(w: World, r: DirectRequest, now: u64, alloc: bool, fate: Fate)
    ensures var v := DoDirect(w, r, now, alloc, fate); var d := Direct(w.e, w.log, r, now, alloc, fate);
      v.e == d.e && v.log == d.log
  {
    hide AdmitDirect, CommitFrame, ApplyCommit, CommitReceipt, ValidateDirect;
    if ValidateDirect(w.e.cfg, r) == Ok && AdmitDirect(w.e, r, now, alloc).1.Reserved? {
      AdmittedIntent(w.e, r, now, alloc);
    }
  }

  /** Committing a prepared completion is one step; its latch or its retirement is the next. */
  lemma CommitIsStep(w: World, t: nat, outMessage: u64, env: Env, fate: Fate)
    requires t in w.threads && w.threads[t].Holding?
    requires Prepare(w.e, w.threads[t].req, outMessage, env).1.Reserved?
    ensures var req := w.threads[t].req; var (e1, o) := Prepare(w.e, req, outMessage, env);
      var v := DoCommit(w, t, true, outMessage, env, fate); var d := Finish(e1, w.log, o.commit, fate);
      && v.log == d.log && (d.status == Ok <==> Acknowledged(w, e1, fate))
      && (d.status == Ok ==> v.e == d.e && v.threads == w.threads[t := Unretired(req)])
      && (d.status != Ok ==> InDoubt(v.e, req.opId) == d.e && v.threads == w.threads[t := Doubtful(req.opId)])
  {
    hide Prepare, CommitFrame, ApplyCommit, CommitReceipt;
    PreparedIntent(w.e, w.threads[t].req, outMessage, env);
  }

  /** The steps of a completion that nothing interleaves with. */
  ghost function CompletionSteps(w: World, t: nat, r: CompletionRequest, outMessage: u64, env: Env,
                                 fate: Fate): seq<Step> {
    var (e1, o) := Prepare(w.e, r, outMessage, env);
    [BeginStep(t, r), EnterStep(t), CommitStep(t, true, outMessage, env, fate)]
    + if !o.Reserved? then []
      else if Acknowledged(w, e1, fate) then [RetireStep(t)] else [LatchStep(t)]
  }

  /** Without interleaving, a completion past its lookup is exactly those steps. */
  lemma CompleteIsRun(w: World, t: nat, r: CompletionRequest, outMessage: u64, env: Env, fate: Fate)
    requires w.up && t !in w.threads && w.pending.None? && QueuesFree(w, r) && ClockSane(w.e.cfg, env.now)
    requires LookUp(w.e, r).None? && Delivered(w.e, r)
    ensures var m := Exec(w, CompletionSteps(w, t, r, outMessage, env, fate));
      var d := Complete(w.e, w.log, r, None, outMessage, env, fate);
      m.Some? && m.value.e == d.e && m.value.log == d.log && m.value.threads == w.threads
  {
    hide Prepare, LookUp, Recheck, DoCommit, Complete, Delivered, Exec, CompletionSteps, QueuesFree;
    LookUpIsRecheck(w.e, r);
    var w2 := w.(threads := w.threads[t := Holding(r, |w.hist|)]);
    BeginAndEnter(w, t, r, w2);
    var s3 := CommitStep(t, true, outMessage, env, fate);
    ExecSnoc(w, [BeginStep(t, r), EnterStep(t)], s3);
    assert [BeginStep(t, r), EnterStep(t)] + [s3] == [BeginStep(t, r), EnterStep(t), s3];
    CommitCloses(w, w2, t, r, outMessage, env, fate);
  }

  lemma Begins(w: World, t: nat, r: CompletionRequest)
    requires w.up && t !in w.threads && LookUp(w.e, r).None?
    ensures Enabled(w, BeginStep(t, r)) && Do(w, BeginStep(t, r)) == w.(threads := w.threads[t := Looked(r)])
  {
    hide LookUp;
  }

  lemma Enters(w: World, t: nat, r: CompletionRequest)
    requires w.up && t !in w.threads && w.pending.None? && QueuesFree(w, r) && Recheck(w.e, r).None?
    ensures var v := w.(threads := w.threads[t := Looked(r)]);
      Enabled(v, EnterStep(t)) && Do(v, EnterStep(t)) == w.(threads := w.threads[t := Holding(r, |w.hist|)])
  {
    hide Recheck, Locks;
    var v := w.(threads := w.threads[t := Looked(r)]);
    assert v.threads[t := Holding(r, |w.hist|)] == w.threads[t := Holding(r, |w.hist|)];
  }

  lemma BeginAndEnter(w: World, t: nat, r: CompletionRequest, v: World)
    requires w.up && t !in w.threads && w.pending.None? && QueuesFree(w, r)
    requires LookUp(w.e, r).None? && Recheck(w.e, r).None?
    requires v == w.(threads := w.threads[t := Holding(r, |w.hist|)])
    ensures Exec(w, [BeginStep(t, r), EnterStep(t)]) == Some(v)
  {
    hide LookUp, Recheck, QueuesFree, Do, Enabled;
    var s1, s2 := BeginStep(t, r), EnterStep(t);
    Begins(w, t, r);
    Enters(w, t, r);
    assert Exec(w, []) == Some(w);
    ExecSnoc(w, [], s1);
    assert [] + [s1] == [s1];
    ExecSnoc(w, [s1], s2);
    assert [s1] + [s2] == [s1, s2];
  }

  lemma LookUpIsRecheck(e: Engine, r: CompletionRequest)
    requires LookUp(e, r).None?
    ensures Recheck(e, r).None?
  {
    hide Ledger, ValidateCompletion;
  }

  lemma CommitCloses(w: World, w2: World, t: nat, r: CompletionRequest, outMessage: u64, env: Env, fate: Fate)
    requires w.up && t !in w.threads && w2 == w.(threads := w.threads[t := Holding(r, |w.hist|)])
          && ClockSane(w.e.cfg, env.now)
    requires LookUp(w.e, r).None? && Delivered(w.e, r)
    requires Exec(w, [BeginStep(t, r), EnterStep(t), CommitStep(t, true, outMessage, env, fate)])
          == Some(DoCommit(w2, t, true, outMessage, env, fate))
    ensures var m := Exec(w, CompletionSteps(w, t, r, outMessage, env, fate));
      var d := Complete(w.e, w.log, r, None, outMessage, env, fate);
      m.Some? && m.value.e == d.e && m.value.log == d.log && m.value.threads == w.threads
  {
    hide Prepare, LookUp, Explained, Finish, DoCommit, InDoubt, Acknowledged, Do, Enabled;
    var steps := [BeginStep(t, r), EnterStep(t), CommitStep(t, true, outMessage, env, fate)];
    var w3 := DoCommit(w2, t, true, outMessage, env, fate);
    var (e1, o) := Prepare(w.e, r, outMessage, env);
    assert w2.threads - {t} == w.threads;
    if !o.Reserved? {
      PrepareNeverMatches(w.e, r, outMessage, env);
      RejectedCloses(w2, t, outMessage, env, fate);
      assert CompletionSteps(w, t, r, outMessage, env, fate) == steps;
    } else {
      CommitIsStep(w2, t, outMessage, env, fate);
      SameAcknowledged(w, w2, e1, fate);
      var last := if Acknowledged(w, e1, fate) then RetireStep(t) else LatchStep(t);
      assert CompletionSteps(w, t, r, outMessage, env, fate) == steps + [last];
      Closes(w2, w3, t, r, outMessage, env, fate);
      ExecSnoc(w, steps, last);
    }
  }

  lemma SameAcknowledged(w: World, v: World, e: Engine, fate: Fate)
    requires v == w.(threads := v.threads)
    ensures Acknowledged(v, e, fate) == Acknowledged(w, e, fate)
  {
  }

  /** A completion that is refused leaves its thread and nothing in the log. */
  lemma RejectedCloses(w: World, t: nat, outMessage: u64, env: Env, fate: Fate)
    requires t in w.threads && w.threads[t].Holding? && !Prepare(w.e, w.threads[t].req, outMessage, env).1.Reserved?
    ensures var v := DoCommit(w, t, true, outMessage, env, fate);
      v.e == Prepare(w.e, w.threads[t].req, outMessage, env).0 && v.log == w.log && v.threads == w.threads - {t}
  {
    hide Prepare;
  }

  /** The step after the commit: retire the proof of an acknowledged one, latch the doubt of another. */
  lemma Closes(w: World, v: World, t: nat, r: CompletionRequest, outMessage: u64, env: Env, fate: Fate)
    requires w.up && t in w.threads && w.threads[t] == Holding(r, |w.hist|)
          && v == DoCommit(w, t, true, outMessage, env, fate)
    requires v.threads == w.threads[t := Unretired(r)] || v.threads == w.threads[t := Doubtful(r.opId)]
    ensures v.threads == w.threads[t := Unretired(r)] ==>
      && Enabled(v, RetireStep(t)) && Do(v, RetireStep(t)).e == Retired(v.e, r.proof)
      && Do(v, RetireStep(t)).log == v.log && Do(v, RetireStep(t)).threads == w.threads - {t}
    ensures v.threads == w.threads[t := Doubtful(r.opId)] ==>
      && Enabled(v, LatchStep(t)) && Do(v, LatchStep(t)).e == InDoubt(v.e, r.opId)
      && Do(v, LatchStep(t)).log == v.log && Do(v, LatchStep(t)).threads == w.threads - {t}
  {
    hide Prepare, CommitFrame, ApplyCommit, CommitReceipt, InDoubt, DoDirect, DoAttach;
    assert w.threads[t := Unretired(r)] - {t} == w.threads - {t};
    assert w.threads[t := Doubtful(r.opId)] - {t} == w.threads - {t};
  }

  lemma PrepareNeverMatches(e: Engine, r: CompletionRequest, outMessage: u64, env: Env)
    ensures !Prepare(e, r, outMessage, env).1.Matched?
  {
    hide VersionMatches, StateRoom, ReceiptRoom, RoomMade, ProofMatches;
  }

  // ---- opening and checkpoints ----

  lemma {:induction false} StatesAreSized(img: Image, keys: seq<Short>)
    requires ImageOk(img) && forall k :: k in keys ==> k in img.state
    ensures forall i :: 0 <= i < |StateFrames(img.state, keys)| ==> Sized(StateFrames(img.state, keys)[i])
  {
    hide Sized, Encode, ImageOk;
    if |keys| > 0 {
      StatesAreSized(img, keys[..|keys| - 1]);
      EntryIsSized(img, keys[|keys| - 1]);
    }
  }

  lemma EntryIsSized(img: Image, k: Short)
    requires ImageOk(img) && k in img.state
    ensures Sized(EntryFrame(k, img.state[k]))
  {
  }

  lemma {:induction false} ReceiptsAreSized(img: Image, ops: seq<Id>, now: nat)
    requires ImageOk(img) && forall op :: op in ops ==> op in img.receipts
    ensures forall i :: 0 <= i < |ReceiptFrames(img.receipts, ops, now)| ==>
      Sized(ReceiptFrames(img.receipts, ops, now)[i])
  {
    hide Sized, Encode, ImageOk;
    if |ops| > 0 {
      ReceiptsAreSized(img, ops[..|ops| - 1], now);
      ReceiptIsSized(img, ops[|ops| - 1]);
    }
  }

  lemma ReceiptIsSized(img: Image, op: Id)
    requires ImageOk(img) && op in img.receipts
    ensures Sized(Encode(ReceiptRecord(img.receipts[op])))
  {
  }

  lemma MetaIsSized(m: Meta)
    ensures Sized(Encode(MetaRecord(m)))
  {
  }

  lemma BaseIsSized(b: Base)
    requires BaseOk(b)
    ensures forall i :: 0 <= i < |BaseFrames(b)| ==> Sized(BaseFrames(b)[i])
  {
    hide Sized, Encode, ImageOk, StateFrames, ReceiptFrames;
    match b
    case Virgin =>
    case Fresh(m) => MetaIsSized(m);
    case Checkpointed(img, cut) =>
      MetaIsSized(Meta(img.storeId.value, cut.nextMessage, cut.nextIncarnation, img.versionHwm, img.commitHwm));
      StatesAreSized(img, cut.keys);
      ReceiptsAreSized(img, cut.ops, cut.now);
  }

  lemma CommitIsSized(k: Commit)
    requires CommitOk(k)
    ensures Sized(CommitFrame(k))
  {
    hide Encode, Decode, Sized;
    DecodeEncode(CommitRecord(k));
    DecodedIsSized(CommitFrame(k));
  }

  /** No record of a run's log is corrupt, so opening it is replaying all of it. */
  lemma OpensAsReplayed(w: World)
    requires Stored(w)
    ensures OpenLog(w.log.frames) == Replay(w.log.frames)
  {
    hide IdentityOk, HistoryOk, MemoryOk, ReceiptsOk, PendingOk, Sized, CommitOk, BaseImage, BaseFrames, BaseOk, Intact,
      CommitFrame, Replay;
    var frames, tail := w.log.frames, w.hist[w.from..];
    BaseIsSized(w.base);
    if |tail| > 0 {
      CommitIsSized(tail[|tail| - 1]);
    }
    assert |frames| > 0 ==> Sized(frames[|frames| - 1]);
    IntactIs(frames, |frames|);
    assert frames[..|frames|] == frames;
  }

  /** A restart is opening the log: a fresh engine over exactly what replay yields. */
  lemma OpenIsStep(w: World, epoch: Id, img: Image)
    requires Stored(w) && Enabled(w, RestartStep(epoch)) && OpenLog(w.log.frames) == Some(img)
    ensures Do(w, RestartStep(epoch)).e == FreshEngine(w.e.cfg, img, epoch)
    ensures Do(w, RestartStep(epoch)).log == Log(w.log.frames, false)
  {
    hide IdentityOk, LogOk, HistoryOk, MemoryOk, ReceiptsOk, PendingOk, Opens, Recovered, OpenLog;
    OpensAsReplayed(w);
    PendingIsOk(w);
    Recovery(CoreOf(w));
  }

  /** A cut and its publication replace the log by what emitting the checkpoint writes. */
  lemma CheckpointIsSteps(w: World, cut: Cut)
    requires Stored(w) && Enabled(w, CutStep(cut))
    ensures var v := Do(w, CutStep(cut));
      && v.e == w.e && v.log == w.log && Enabled(v, PublishStep) && Covered(v, PublishStep)
      && Do(v, PublishStep).e == w.e && Do(v, PublishStep).log.frames == CheckpointFrames(w.e.img, cut)
  {
    hide Stored, CheckpointFrames, WalksAll, ImageOk;
    CutStored(w, cut);
    PendingIsOk(Do(w, CutStep(cut)));
  }
}
