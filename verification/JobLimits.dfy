/** Where the guarantees stop: interleavings and inputs for which a stronger claim is false. */
module JobLimits {
  import opened Bytes
  import opened JobIntent
  import opened JobRecord
  import opened JobImage
  import opened JobCheckpoint
  import opened JobHistory
  import opened JobAdmission
  import opened JobCore
  import opened JobMirror
  import opened JobRuns
  import opened JobReservations
  import opened JobFencing
  import opened JobSafety
  import opened JobEngine

  // ---- a direct mutation between a checkpoint's cut and its publication ----

  /** Direct mutations take no Queue lock, so they can commit after the cut was taken and before the new log
      replaces the old. They are acknowledged and memory shows them, but what the published log restores is
      the history of the cut, and the versions they were given are free to be issued again. */
  lemma UncoveredPublishLoses(w: World)
    requires Stored(w) && Enabled(w, PublishStep) && !Covered(w, PublishStep)
    ensures var v := Do(w, PublishStep); var restored := Replay(v.log.frames);
      && w.cutAt < w.applied <= |w.hist| && v.up && v.e == w.e
      && (restored.Some? ==>
            && restored.value.state == BaseImage(w.pending.value).state
            && forall i :: w.cutAt <= i < w.applied ==>
                 restored.value.versionHwm < w.hist[i].version && restored.value.commitHwm < w.hist[i].commitId)
      && (Inv(w) ==> w.e.img.state == Fold(w.hist[..w.applied])
                     && BaseImage(w.pending.value).state == Fold(w.hist[..w.cutAt]))
  {
    hide Fenced, IdentityOk, LogOk, HistoryOk, MemoryOk, ReceiptsOk, BudgetOk, BaseFrames, Replay, Fold, Genuine,
      Retained, BaseOk;
    BaseReplay(w.pending.value);
  }

  /** The first of them is lost from the state already: what the published log restores is not what it left. */
  lemma CheckpointWindowLosesCommit(w: World, r: DirectRequest, now: u64)
    requires Inv(w) && w.up && w.pending.Some? && w.e.attached && !w.log.failed && ClockSane(w.e.cfg, now)
    requires w.cutAt == w.applied
    requires Reserves(w.e, r, now, true)
    ensures Direct(w.e, w.log, r, now, true, Durable).status == Ok
    ensures var v := Direct(w.e, w.log, r, now, true, Durable); var frames := BaseFrames(w.pending.value);
      && v.e.img.state != w.e.img.state
      && (Replay(frames).Some? ==> Replay(frames).value.state == w.e.img.state)
  {
    hide AdmitDirect, ThreadsOk, ProofsOk, IdentityOk, LogOk, HistoryOk, MemoryOk, ReceiptsOk, BudgetOk, CommitFrame,
      CommitReceipt, BaseFrames, Replay, Fold, Genuine, Retained, CommitOk, Softer, StateRoom, VersionMatches,
      ValidateDirect;
    var (e1, o) := AdmitDirect(w.e, r, now, true);
    DirectSoftens(w.e, r, now, true);
    SofterState(w.e.img, e1.img, now);
    DirectReserved(w.e, r, now, true);
    BaseReplay(w.pending.value);
    CommitChangesState(w, o.commit);
  }

  /** A commit numbered above the high-water mark always changes the state it is applied to. */
  lemma CommitChangesState(w: World, k: Commit)
    requires Stored(w) && w.up && w.e.img.versionHwm < k.version
    requires k.intent.kind == KIND_DELETE ==> k.Key() in w.e.img.state
    ensures ApplyCommit(w.e.img.state, k) != w.e.img.state
  {
    hide IdentityOk, LogOk, HistoryOk, ReceiptsOk, PendingOk, BaseImage, CommitOk;
    var next := ApplyCommit(w.e.img.state, k);
    if k.intent.kind == KIND_DELETE {
      assert k.Key() !in next;
    } else {
      assert next[k.Key()].version == k.version;
      assert k.Key() in w.e.img.state ==> w.e.img.state[k.Key()].version <= w.e.img.versionHwm;
    }
  }

  // ---- oversized completions ----

  /** The aggregate bound admits completion records up to 21 bytes longer than itself. */
  lemma CompletionRecordFits(e: Engine, r: CompletionRequest, k: Commit)
    requires ValidateCompletion(e, r) == Ok && k.intent == CompletionIntent(StoreIdOf(e.img), r)
    ensures CommitRecord(k).CompletionRecord?
    ensures CompletionLength(CommitRecord(k).completion) <= Aggregate(r) + 21
    ensures Decode(CommitFrame(k)).Some? <==> CompletionLength(CommitRecord(k).completion) <= MESSAGE_MAX
  {
    hide Encode, Decode;
    DecodeEncode(CommitRecord(k));
  }

  ghost predicate Oversized(e: Engine, r: CompletionRequest, k: Commit) {
    && ValidateCompletion(e, r) == Ok && k.intent == CompletionIntent(StoreIdOf(e.img), r)
    && Decode(CommitFrame(k)).None?
  }

  const OP: Id := [1, 0, 0, 0, 0, 0, 0, 0, 0, 0, 0, 0, 0, 0, 0, 0]

  /** Any operation bound within 20 bytes of the log's own record limit admits a completion that exceeds the
      limit and is dropped as a corrupt tail on replay. */
  lemma OversizedCompletion(cfg: Config) returns (e: Engine, r: CompletionRequest, k: Commit)
    requires cfg.maxOpBytes + 21 > MESSAGE_MAX
    ensures e.cfg == cfg && Oversized(e, r, k)
  {
    hide Encode, Decode;
    var n := if cfg.maxOpBytes < MESSAGE_MAX then cfg.maxOpBytes else MESSAGE_MAX;
    var value := seq(n - 66, _ => 0);
    e := Engine(cfg, EMPTY.(storeId := Some(OP)), false, true, 0, None, map[], OP);
    r := CompletionRequest(InputRef([1], 1, 1), OP, [1], 0, value, None, OP);
    k := Commit(CompletionIntent(OP, r), 1, 1, 0, 0, 1);
    DecodeEncode(CommitRecord(k));
  }

  /** Every validated completion replays if and only if the operation bound leaves 21 bytes for its record. */
  lemma CompletionsReplayIff(cfg: Config)
    ensures (forall e: Engine, r, k :: e.cfg == cfg ==> !Oversized(e, r, k)) <==> cfg.maxOpBytes + 21 <= MESSAGE_MAX
  {
    hide Encode, Decode, CommitFrame;
    if cfg.maxOpBytes + 21 <= MESSAGE_MAX {
      forall e: Engine, r, k: Commit | e.cfg == cfg && ValidateCompletion(e, r) == Ok
                              && k.intent == CompletionIntent(StoreIdOf(e.img), r)
        ensures Decode(CommitFrame(k)).Some?
      {
        CompletionRecordFits(e, r, k);
      }
    } else {
      var e, r, k := OversizedCompletion(cfg);
    }
  }

  /** An oversized completion at the end of the log is cut off: the store opens as if it had never been
      acknowledged. With anything after it, the store does not open. */
  lemma OversizedIsDropped(e: Engine, r: CompletionRequest, k: Commit, frames: seq<Frame>, next: Frame)
    requires Oversized(e, r, k) && Replay(frames).Some? && Sized(next)
    ensures OpenLog(frames + [CommitFrame(k)]) == Replay(frames)
    ensures OpenLog(frames + [CommitFrame(k)] + [next]).None?
  {
    hide Encode, Decode, ReplayFrom, Intact, ValidateCompletion;
    CompletionRecordFits(e, r, k);
    assert !Sized(CommitFrame(k)) by { OversizedFrame(k); }
    ReplayedAreSized(Some(EMPTY), frames);
    var log := frames + [CommitFrame(k)];
    IntactIs(log, |frames|);
    assert log[..|frames|] == frames;
    CorruptRefuses(log + [next], |frames|, |frames| + 1);
  }

  lemma OversizedFrame(k: Commit)
    requires CommitRecord(k).CompletionRecord? && CompletionLength(CommitRecord(k).completion) > MESSAGE_MAX
    ensures !Sized(CommitFrame(k))
  {
  }

  // ---- bounded collection is complete ----

  function Passes(e: Engine, n: nat, now: nat): Engine {
    if n == 0 then e else Collected(Passes(e, n - 1, now), now)
  }

  lemma VisitedSplit(b: nat, cursor: nat, m: nat)
    requires b < RECEIPT_BUCKETS && cursor < RECEIPT_BUCKETS && m + GC_BUDGET <= RECEIPT_BUCKETS
    ensures Visited(b, cursor, m + GC_BUDGET)
       <==> Visited(b, cursor, m) || Visited(b, (cursor + m) % RECEIPT_BUCKETS, GC_BUDGET)
  {
  }

  lemma SweptTwice(rs: map<Id, Receipt>, cursor: nat, m: nat, now: nat)
    requires cursor < RECEIPT_BUCKETS && m + GC_BUDGET <= RECEIPT_BUCKETS
    ensures Swept(Swept(rs, cursor, m, now), (cursor + m) % RECEIPT_BUCKETS, GC_BUDGET, now)
         == Swept(rs, cursor, m + GC_BUDGET, now)
  {
    hide ReceiptBucket, Visited;
    forall op | op in rs
      ensures Visited(ReceiptBucket(op), cursor, m + GC_BUDGET)
         <==> Visited(ReceiptBucket(op), cursor, m)
              || Visited(ReceiptBucket(op), (cursor + m) % RECEIPT_BUCKETS, GC_BUDGET)
    {
      VisitedSplit(ReceiptBucket(op), cursor, m);
    }
  }

  lemma {:induction false} PassesSweep(e: Engine, n: nat, now: nat)
    requires e.gcCursor < RECEIPT_BUCKETS && n * GC_BUDGET <= RECEIPT_BUCKETS
    ensures Passes(e, n, now).img.receipts == Swept(e.img.receipts, e.gcCursor, n * GC_BUDGET, now)
    ensures Passes(e, n, now).gcCursor == (e.gcCursor + n * GC_BUDGET) % RECEIPT_BUCKETS
  {
    hide Swept;
    if n == 0 {
      NoneSwept(e.img.receipts, e.gcCursor, now);
    } else {
      var m := (n - 1) * GC_BUDGET;
      PassesSweep(e, n - 1, now);
      SweptTwice(e.img.receipts, e.gcCursor, m, now);
      CursorAdvances(e.gcCursor, m);
      assert m + GC_BUDGET == n * GC_BUDGET;
    }
  }

  lemma CursorAdvances(cursor: nat, m: nat)
    ensures ((cursor + m) % RECEIPT_BUCKETS + GC_BUDGET) % RECEIPT_BUCKETS
       == (cursor + (m + GC_BUDGET)) % RECEIPT_BUCKETS
  {
  }

  lemma NoneSwept(rs: map<Id, Receipt>, cursor: nat, now: nat)
    ensures Swept(rs, cursor, 0, now) == rs
  {
    hide ReceiptBucket;
  }

  /** Sixty-four passes at one time remove every receipt whose deadline has come by then and remove no other. */
  lemma SixtyFourPassesCollectAll(e: Engine, now: nat)
    requires e.gcCursor < RECEIPT_BUCKETS
    ensures Passes(e, 64, now).img.receipts
         == map op | op in e.img.receipts && !(0 < e.img.receipts[op].expiresAt <= now) :: e.img.receipts[op]
  {
    hide Passes, ReceiptBucket;
    PassesSweep(e, 64, now);
  }
}
