/** The caps on the receipt ledger: what keeps them, and when a restart does not. */
module JobLedger {
  import opened Bytes
  import opened MapSum
  import opened JobIntent
  import opened JobRecord
  import opened JobImage
  import opened JobCheckpoint
  import opened JobHistory
  import opened JobAdmission
  import opened JobCore
  import opened JobRuns
  import opened JobReservations
  import opened JobFencing
  import opened JobSafety
  import opened JobTheorems

  /** A ledger within its count and byte caps. */
  ghost predicate WithinCaps(cfg: Config, rs: map<Id, Receipt>) {
    |rs| <= cfg.receiptsMaxCount && ReceiptBytes(rs) <= cfg.receiptsMaxBytes
  }

  // ---- operations ----

  lemma FewerFit(cfg: Config, a: map<Id, Receipt>, b: map<Id, Receipt>)
    requires WithinCaps(cfg, b) && forall op :: op in a ==> op in b && a[op] == b[op]
    ensures WithinCaps(cfg, a)
  {
    SumSubmap(a, b, FootprintOf);
  }

  /** What was reserved with room for its receipt fits once published. */
  lemma PublishedFits(e: Engine, k: Commit)
    requires ReceiptRoom(e, |k.intent.InQueue()|, |k.intent.OutQueue()|)
    ensures WithinCaps(e.cfg, PublishedImage(e.img, k).receipts)
  {
    hide IntentDigest, ApplyCommit;
    if k.OpId() !in e.img.receipts {
      SumInsert(e.img.receipts, k.OpId(), CommitReceipt(k), FootprintOf);
      assert e.img.receipts[k.OpId() := CommitReceipt(k)].Keys == e.img.receipts.Keys + {k.OpId()};
    }
  }

  lemma SofterFits(cfg: Config, a: Image, b: Image, now: nat)
    requires Softer(a, b, now) && WithinCaps(cfg, a.receipts)
    ensures WithinCaps(cfg, b.receipts)
  {
    FewerFit(cfg, b.receipts, a.receipts);
  }

  /** One append publishes exactly when it is acknowledged. */
  lemma LoggedLedger(v: World, k: Commit, fate: Fate)
    ensures var x := Logged(v, v.e, k, fate);
      && x.e.cfg == v.e.cfg && x.applied == v.applied + (if Acknowledged(v, v.e, fate) then 1 else 0)
      && x.e.img.receipts == if Acknowledged(v, v.e, fate) then PublishedImage(v.e.img, k).receipts
                             else v.e.img.receipts
  {
    hide CommitFrame, ApplyCommit, CommitReceipt;
  }

  /** A direct mutation keeps a ledger within its caps, and one that was acknowledged leaves it so. */
  lemma DirectFits(w: World, r: DirectRequest, now: u64, alloc: bool, fate: Fate)
    requires ConfigOk(w.e.cfg) && Enabled(w, DirectStep(r, now, alloc, fate))
    ensures var x := DoDirect(w, r, now, alloc, fate);
      && x.e.cfg == w.e.cfg
      && (WithinCaps(w.e.cfg, w.e.img.receipts) || x.applied > w.applied ==> WithinCaps(w.e.cfg, x.e.img.receipts))
  {
    hide AdmitDirect, Softer, CommitOk, ValidateDirect, StateRoom,
      VersionMatches, ReceiptRoom, WithinCaps, Logged, PublishedImage;
    if ValidateDirect(w.e.cfg, r) == Ok {
      var (e1, o) := AdmitDirect(w.e, r, now, alloc);
      DirectSoftens(w.e, r, now, alloc);
      if WithinCaps(w.e.cfg, w.e.img.receipts) {
        SofterFits(w.e.cfg, w.e.img, e1.img, now);
      }
      if o.Reserved? {
        DirectReserved(w.e, r, now, alloc);
        PublishedFits(e1, o.commit);
        LoggedLedger(w.(e := e1, clock := Later(w.clock, now)), o.commit, fate);
      }
    }
  }

  lemma CompletionFits(w: World, t: nat, fence: bool, outMessage: u64, env: Env, fate: Fate)
    requires Fenced(w) && Enabled(w, CommitStep(t, fence, outMessage, env, fate))
    ensures var x := DoCommit(w, t, fence, outMessage, env, fate);
      && x.e.cfg == w.e.cfg
      && (WithinCaps(w.e.cfg, w.e.img.receipts) || x.applied > w.applied ==> WithinCaps(w.e.cfg, x.e.img.receipts))
  {
    hide Prepare, ThreadsOk, ProofsOk, Softer, CommitOk, ValidateCompletion, StateRoom,
      VersionMatches, ReceiptRoom, WithinCaps, Logged, PublishedImage, ProofMatches;
    var req := w.threads[t].req;
    HolderIsValid(w, t);
    if fence {
      var (e1, o) := Prepare(w.e, req, outMessage, env);
      PrepareSoftens(w.e, req, outMessage, env);
      if WithinCaps(w.e.cfg, w.e.img.receipts) {
        SofterFits(w.e.cfg, w.e.img, e1.img, env.gcNow);
      }
      if o.Reserved? {
        PrepareReserved(w.e, req, outMessage, env);
        PublishedFits(e1, o.commit);
        LoggedLedger(w.(e := e1, clock := Later(w.clock, env.gcNow)), o.commit, fate);
      }
    }
  }

  // ---- restarts ----

  /** What the receipts of these commits weigh. */
  function TailFootprint(h: seq<Commit>): nat {
    if |h| == 0 then 0
    else TailFootprint(h[..|h| - 1])
         + ReceiptFootprint(|h[|h| - 1].intent.InQueue()|, |h[|h| - 1].intent.OutQueue()|)
  }

  /** The base's receipts and one more for every commit after it fit the caps. */
  ghost predicate LogFits(cfg: Config, c: Core)
    requires c.from <= |c.hist|
  {
    var rs := BaseImage(c.base).receipts;
    && |rs| + (|c.hist| - c.from) <= cfg.receiptsMaxCount
    && ReceiptBytes(rs) + TailFootprint(c.hist[c.from..]) <= cfg.receiptsMaxBytes
  }

  /** Replay enters every receipt on the log, whatever the caps and however long ago it expired. */
  lemma {:induction false} TailLedger(img: Image, h: seq<Commit>)
    requires NoReuse(img.receipts, h)
    ensures |TailImage(img, h).receipts| == |img.receipts| + |h|
    ensures ReceiptBytes(TailImage(img, h).receipts) == ReceiptBytes(img.receipts) + TailFootprint(h)
  {
    hide IntentDigest, ApplyCommit, Sum;
    if |h| > 0 {
      var front, k := h[..|h| - 1], h[|h| - 1];
      assert NoReuse(img.receipts, front);
      TailLedger(img, front);
      ReuseStep(img, h);
      var rs := TailImage(img, front).receipts;
      SumInsert(rs, k.OpId(), CommitReceipt(k), FootprintOf);
      assert rs[k.OpId() := CommitReceipt(k)].Keys == rs.Keys + {k.OpId()};
    }
  }

  /** A restart leaves the ledger within its caps if and only if the log fits them. */
  lemma RestartFitsIff(w: World, epoch: Id)
    requires Stored(w) && Enabled(w, RestartStep(epoch))
    ensures var x := Do(w, RestartStep(epoch));
      && x.e.cfg == w.e.cfg
      && (WithinCaps(w.e.cfg, x.e.img.receipts) <==> LogFits(w.e.cfg, CoreOf(w)))
  {
    hide Stored, BaseImage, ReceiptBytes, NoReuse, TailImage, Replay;
    RestartStored(w, epoch);
    TailLedger(BaseImage(w.base), w.hist[w.from..]);
  }

  // ---- runs ----

  ghost predicate FitsAfter(w: World, s: Step)
    requires Enabled(w, s)
  {
    s.RestartStep? ==> LogFits(w.e.cfg, CoreOf(w))
  }

  /** Every restart of the run found a log that fits. */
  ghost predicate FittingRun(w: World, steps: seq<Step>) {
    |steps| == 0 || (
      var front, s := steps[..|steps| - 1], steps[|steps| - 1];
      && FittingRun(w, front)
      && (Exec(w, front).Some? && Enabled(Exec(w, front).value, s) ==> FitsAfter(Exec(w, front).value, s)))
  }

  lemma LedgerStep(w: World, s: Step)
    requires Sound(w) && WithinCaps(w.e.cfg, w.e.img.receipts) && Enabled(w, s)
    ensures Do(w, s).e.cfg == w.e.cfg
    ensures WithinCaps(w.e.cfg, Do(w, s).e.img.receipts) <==> FitsAfter(w, s)
  {
    hide Fenced, Stored, WithinCaps, Recovered, Relinked, DoDirect, DoCommit, LogFits, Softer, LookUp, Recheck,
      Locks, Encode, WalksAll, Swept;
    match s
    case DirectStep(r, now, alloc, fate) => ConfigIsOk(w); DirectFits(w, r, now, alloc, fate);
    case CommitStep(t, fence, outMessage, env, fate) => CompletionFits(w, t, fence, outMessage, env, fate);
    case RestartStep(epoch) => RestartFitsIff(w, epoch);
    case ReceiptGcStep(now) =>
      SweptIsSofter(w.e, now);
      SofterFits(w.e.cfg, w.e.img, Collected(w.e, now).img, now);
    case _ => ImageKept(w, s);
  }

  lemma ConfigIsOk(w: World)
    requires Fenced(w)
    ensures ConfigOk(w.e.cfg)
  {
    hide ThreadsOk, ProofsOk;
  }

  lemma {:induction false} LedgerRun(w: World, steps: seq<Step>)
    requires Sound(w) && WithinCaps(w.e.cfg, w.e.img.receipts) && Exec(w, steps).Some? && FittingRun(w, steps)
    ensures var x := Exec(w, steps).value; x.e.cfg == w.e.cfg && WithinCaps(w.e.cfg, x.e.img.receipts)
  {
    hide Sound, WithinCaps, Do, Enabled, FitsAfter;
    if |steps| > 0 {
      var front := steps[..|steps| - 1];
      LedgerRun(w, front);
      RunSound(w, front);
      LedgerStep(Exec(w, front).value, steps[|steps| - 1]);
    }
  }

  /** On every run whose restarts found a log that fits, the ledger stays within both caps. */
  lemma LedgerStaysInBudget(cfg: Config, steps: seq<Step>, w: World)
    requires Ran(cfg, steps, w) && FittingRun(NewWorld(cfg), steps)
    ensures |w.e.img.receipts| <= w.e.cfg.receiptsMaxCount
    ensures ReceiptBytes(w.e.img.receipts) <= w.e.cfg.receiptsMaxBytes
  {
    hide Sound, Exec, FittingRun;
    NewWorldOk(cfg);
    assert Sum<Id, Receipt>(map[], FootprintOf) == 0;
    LedgerRun(NewWorld(cfg), steps);
  }
}
