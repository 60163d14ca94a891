/** Concrete runs, each showing that a condition stated elsewhere is needed. */
module JobWitness {
  import opened Bytes
  import opened MapSum
  import opened JobIntent
  import opened JobRecord
  import opened JobImage
  import opened JobCheckpoint
  import opened JobHistory
  import opened JobAdmission
  import opened JobCore
  import opened JobRuns
  import opened JobReservations
  import opened JobFencing
  import opened JobSafety
  import opened JobTheorems
  import opened JobOnce
  import opened JobLedger
  import opened JobLimits

  const OTHER: Id := [2, 0, 0, 0, 0, 0, 0, 0, 0, 0, 0, 0, 0, 0, 0, 0]
  const META := Meta(OP, 0, 0, 0, 0)

  predicate Workable(cfg: Config) {
    ConfigOk(cfg) && cfg.maxOpBytes >= 1000 && 1 < cfg.retentionMs < 1000000000000
  }

  /** Limits under which the few small operations below are admitted. */
  predicate Roomy(cfg: Config) {
    Workable(cfg) && cfg.stateMaxBytes >= 1000 && cfg.receiptsMaxBytes >= 1000 && cfg.receiptsMaxCount >= 1
  }

  /** Nothing failed, and hardly anything was numbered. */
  predicate Healthy(w: World) {
    && w.up && w.e.attached && !w.e.failed && w.e.inDoubt == None && !w.log.failed
    && w.e.img.storeId == Some(OP) && w.e.img.versionHwm < 10 && w.e.img.commitHwm < 10
    && w.e.gcCursor < RECEIPT_BUCKETS
  }

  // ---- single steps ----

  lemma Extend(cfg: Config, steps: seq<Step>, w: World, s: Step)
    requires Reached(cfg, steps, w) && Enabled(w, s) && Covered(w, s)
    ensures Reached(cfg, steps + [s], Do(w, s))
  {
    hide Do, Enabled, Covered;
    ExecSnoc(NewWorld(cfg), steps, s);
    assert (steps + [s])[..|steps|] == steps;
  }

  lemma SoundHere(cfg: Config, steps: seq<Step>, w: World)
    requires Reached(cfg, steps, w)
    ensures Sound(w) && Stored(w)
  {
    hide Fenced, Stored, Exec, CoveredRun;
    RanOk(cfg, steps, w);
  }

  lemma ReachedRan(cfg: Config, steps: seq<Step>, w: World)
    requires Reached(cfg, steps, w)
    ensures Ran(cfg, steps, w)
  {
    hide Exec, CoveredRun;
  }

  lemma ExtendRan(cfg: Config, steps: seq<Step>, w: World, s: Step)
    requires Ran(cfg, steps, w) && Enabled(w, s)
    ensures Ran(cfg, steps + [s], Do(w, s))
  {
    hide Do, Enabled;
    ExecSnoc(NewWorld(cfg), steps, s);
  }

  lemma NoSteps(cfg: Config)
    requires ConfigOk(Effective(cfg))
    ensures Reached(cfg, [], NewWorld(cfg))
  {
    hide Do, Enabled;
  }

  /** A new store, opened and attached. */
  function Opened(cfg: Config): World {
    World(Engine(Effective(cfg), Image(Some(OP), map[], map[], 0, 0), false, true, 0, None, map[], OP),
          true, Log([Encode(MetaRecord(META))], false), Fresh(META), 0, [], 0, {}, 0, None, 0, map[], {}, [])
  }

  lemma Opening(cfg: Config)
    requires ConfigOk(Effective(cfg))
    ensures Reached(cfg, [RestartStep(OP), AttachStep(META, Durable)], Opened(cfg))
  {
    hide DoDirect, DoCommit, Prepare, AdmitDirect, Collected, LookUp, Recheck, Locks, Encode, Exec, CoveredRun;
    var w0 := NewWorld(cfg);
    var s1, s2 := RestartStep(OP), AttachStep(META, Durable);
    NoSteps(cfg);
    Extend(cfg, [], w0, s1);
    var w1 := Do(w0, s1);
    assert w1 == w0.(e := FreshEngine(Effective(cfg), EMPTY, OP), up := true) by { assert w1.linked == {}; }
    assert [] + [s1] == [s1];
    Extend(cfg, [s1], w1, s2);
    assert Do(w1, s2) == Opened(cfg) by { assert [] + [Encode(MetaRecord(META))] == [Encode(MetaRecord(META))]; }
    assert [s1] + [s2] == [s1, s2];
  }

  lemma EmptyHasRoom(e: Engine, key: Short, value: Long)
    requires Roomy(e.cfg) && e.img.state == map[] && |key| == 1 && |value| == 1
    ensures StateRoom(e, key, value)
  {
    assert Sum<Short, Entry>(map[], EntryFootprint) == 0;
  }

  lemma NoneHasRoom(e: Engine, inLen: nat)
    requires Roomy(e.cfg) && e.img.receipts == map[] && inLen <= 1
    ensures ReceiptRoom(e, inLen, 0)
  {
    assert Sum<Id, Receipt>(map[], FootprintOf) == 0;
  }

  lemma OneHasRoom(e: Engine, key: Short, x: Entry, other: Short, value: Long)
    requires Roomy(e.cfg) && e.img.state == map[key := x] && |key| == 1 && |x.value| == 1
    requires |other| == 1 && |value| == 1
    ensures StateRoom(e, other, value)
  {
    assert Sum<Short, Entry>(map[], EntryFootprint) == 0;
    PutFootprint(map[], key, x);
  }

  lemma OneReceiptHasRoom(e: Engine, op: Id, r: Receipt, inLen: nat)
    requires Roomy(e.cfg) && e.cfg.receiptsMaxCount >= 2 && e.img.receipts == map[op := r] && inLen <= 1
    requires |r.inQueue| <= 1 && |r.outQueue| == 0
    ensures ReceiptRoom(e, inLen, 0)
  {
    assert Sum<Id, Receipt>(map[], FootprintOf) == 0;
    SumInsert(map[], op, r, FootprintOf);
    assert map[op := r].Keys == {op};
  }

  function PutCommit(w: World, r: DirectRequest, now: u64): Commit
    requires Healthy(w)
  {
    Commit(DirectIntent(OP, r), w.e.img.versionHwm + 1, w.e.img.commitHwm + 1, 0, now, Deadline(w.e.cfg, now))
  }

  function Numbering(img: Image): Image
    requires img.versionHwm < 10 && img.commitHwm < 10
  {
    img.(versionHwm := img.versionHwm + 1, commitHwm := img.commitHwm + 1)
  }

  /** What a commit that is acknowledged does to the world. */
  function Acked(w: World, k: Commit, now: nat): World
    requires Healthy(w)
  {
    var img := Numbering(w.e.img);
    w.(e := w.e.(img := PublishedImage(img, k)), log := Log(w.log.frames + [CommitFrame(k)], false),
       hist := w.hist + [k], applied := w.applied + 1,
       linked := if k.OpId() in img.receipts then w.linked else w.linked + {|w.hist|},
       clock := Later(w.clock, now))
  }

  /** A put of a new key under a new id. */
  predicate FreshPut(w: World, r: DirectRequest) {
    && r.put && r.expected == 0 && |r.key| == 1 && |r.value| == 1 && r.opId != ZERO_ID
    && r.key !in w.e.img.state && r.opId !in w.e.img.receipts
  }

  lemma AfterPut(w: World, r: DirectRequest, now: u64)
    requires Healthy(w) && Workable(w.e.cfg) && now < 2000000000000 && FreshPut(w, r)
    requires StateRoom(w.e, r.key, r.value) && ReceiptRoom(w.e, 0, 0)
    ensures Enabled(w, DirectStep(r, now, true, Durable))
    ensures Do(w, DirectStep(r, now, true, Durable)) == Acked(w, PutCommit(w, r, now), now)
  {
    hide StateRoom, ReceiptRoom, CommitFrame, CommitReceipt, ApplyCommit, IntentDigest;
    var (e1, o) := AdmitDirect(w.e, r, now, true);
    assert ValidateDirect(w.e.cfg, r) == Ok;
    assert o == Reserved(PutCommit(w, r, now)) && e1 == Reserve(w.e);
  }

  /** A delete of a key at the version it has, under a new id. */
  predicate FreshDelete(w: World, r: DirectRequest) {
    && !r.put && |r.key| == 1 && r.opId != ZERO_ID && r.opId !in w.e.img.receipts
    && r.key in w.e.img.state && r.expected == w.e.img.state[r.key].version != 0
  }

  lemma AfterDelete(w: World, r: DirectRequest, now: u64)
    requires Healthy(w) && Workable(w.e.cfg) && now < 2000000000000 && FreshDelete(w, r) && ReceiptRoom(w.e, 0, 0)
    ensures Enabled(w, DirectStep(r, now, true, Durable))
    ensures Do(w, DirectStep(r, now, true, Durable)) == Acked(w, PutCommit(w, r, now), now)
  {
    hide ReceiptRoom, CommitFrame, CommitReceipt, ApplyCommit, IntentDigest;
    var (e1, o) := AdmitDirect(w.e, r, now, true);
    assert ValidateDirect(w.e.cfg, r) == Ok;
    assert o == Reserved(PutCommit(w, r, now)) && e1 == Reserve(w.e);
  }

  function WorkCommit(w: World, req: CompletionRequest): Commit
    requires Healthy(w)
  {
    Commit(CompletionIntent(OP, req), w.e.img.versionHwm + 1, w.e.img.commitHwm + 1, 0, 1, Deadline(w.e.cfg, 1))
  }

  const CALM := Env(1, 1, 0, true)

  lemma AfterCompletion(w: World, t: nat)
    requires Healthy(w) && Roomy(w.e.cfg) && t in w.threads && w.threads[t].Holding?
    requires var req := w.threads[t].req;
      && req.output.None? && req.expected == 0 && req.key !in w.e.img.state
      && StateRoom(w.e, req.key, req.value) && ReceiptRoom(w.e, |req.input.queue|, 0)
      && ProofMatches(w.e, req) && w.e.proofs[req.proof].expiresMono > 0
    ensures var s := CommitStep(t, true, 0, CALM, Durable); var req := w.threads[t].req;
      && Enabled(w, s)
      && Do(w, s) == Acked(w, WorkCommit(w, req), 1).(threads := w.threads[t := Unretired(req)],
                                                     backed := w.backed + [req.proof])
  {
    hide StateRoom, ReceiptRoom, CommitFrame, CommitReceipt, ApplyCommit, IntentDigest, ProofMatches;
    var req := w.threads[t].req;
    var (e1, o) := Prepare(w.e, req, 0, CALM);
    assert o == Reserved(WorkCommit(w, req)) && e1 == Reserve(w.e);
  }

  // ---- two operations with one id ----

  const PUT := DirectRequest(true, [7], [9], 0, OP)

  /** A completion of message 1 of the queue named `q`, under the same id as PUT. */
  function Work(q: byte, proof: Id): CompletionRequest {
    CompletionRequest(InputRef([q], 1, 1), proof, [q], 0, [9], None, OP)
  }

  function ProofFor(q: byte): Proof {
    Proof(OP, [q], 1, 1, 0, 0, 1)
  }

  const PROOFS: map<Id, Proof> := map[OP := ProofFor(1), OTHER := ProofFor(2)]

  /** Two workers, on different queues, both past the recheck of the same id. */
  function TwoHolders(cfg: Config): World {
    var w := Opened(cfg);
    w.(e := w.e.(proofs := PROOFS), issued := {OP, OTHER},
       threads := map[0 := Holding(Work(1, OP), 0), 1 := Holding(Work(2, OTHER), 0)])
  }

  lemma Delivering(cfg: Config) returns (steps: seq<Step>)
    requires Roomy(Effective(cfg))
    ensures Reached(cfg, steps, Opened(cfg).(e := Opened(cfg).e.(proofs := PROOFS), issued := {OP, OTHER}))
  {
    hide Reached, Encode;
    Opening(cfg);
    steps := [RestartStep(OP), AttachStep(META, Durable)];
    var w0 := Opened(cfg);
    var s1, s2 := DeliverStep(OP, ProofFor(1)), DeliverStep(OTHER, ProofFor(2));
    Extend(cfg, steps, w0, s1);
    var w1 := Do(w0, s1);
    Extend(cfg, steps + [s1], w1, s2);
    steps := steps + [s1] + [s2];
    assert Do(w1, s2) == w0.(e := w0.e.(proofs := PROOFS), issued := {OP, OTHER}) by {
      assert Do(w1, s2).e.proofs == PROOFS;
    }
  }

  lemma LooksUp(e: Engine, req: CompletionRequest)
    requires Roomy(e.cfg) && e.attached && e.img.storeId.Some? && e.img.receipts == map[]
          && e.inDoubt == None && !e.failed
    requires exists q, p :: req == Work(q, p)
    ensures LookUp(e, req).None? && Recheck(e, req).None?
  {
  }

  /** A worker looks its request up, takes its queues and rechecks. */
  lemma Joins(cfg: Config, steps: seq<Step>, w: World, t: nat, req: CompletionRequest)
    requires Reached(cfg, steps, w) && w.up && t !in w.threads && w.pending.None? && QueuesFree(w, req)
    requires LookUp(w.e, req).None? && Recheck(w.e, req).None?
    ensures Reached(cfg, steps + [BeginStep(t, req), EnterStep(t)],
                    w.(threads := w.threads[t := Holding(req, |w.hist|)]))
  {
    hide Reached, LookUp, Recheck, Locks;
    var begin, enter := BeginStep(t, req), EnterStep(t);
    Extend(cfg, steps, w, begin);
    var w1 := w.(threads := w.threads[t := Looked(req)]);
    Extend(cfg, steps + [begin], w1, enter);
    assert Do(w1, enter) == w.(threads := w.threads[t := Holding(req, |w.hist|)]) by {
      assert w1.threads[t := Holding(req, |w.hist|)] == w.threads[t := Holding(req, |w.hist|)];
    }
    assert steps + [begin] + [enter] == steps + [begin, enter];
  }

  lemma Holders(cfg: Config) returns (steps: seq<Step>)
    requires Roomy(Effective(cfg))
    ensures Reached(cfg, steps, TwoHolders(cfg))
  {
    hide Reached, Encode, LookUp, Recheck;
    steps := Delivering(cfg);
    var w0 := Opened(cfg).(e := Opened(cfg).e.(proofs := PROOFS), issued := {OP, OTHER});
    LooksUp(w0.e, Work(1, OP));
    LooksUp(w0.e, Work(2, OTHER));
    Joins(cfg, steps, w0, 0, Work(1, OP));
    var w1 := w0.(threads := w0.threads[0 := Holding(Work(1, OP), 0)]);
    steps := steps + [BeginStep(0, Work(1, OP)), EnterStep(0)];
    Joins(cfg, steps, w1, 1, Work(2, OTHER));
    steps := steps + [BeginStep(1, Work(2, OTHER)), EnterStep(1)];
    assert w1.threads[1 := Holding(Work(2, OTHER), 0)] == TwoHolders(cfg).threads;
  }

  /** Everything acknowledged, one id on the log twice, and the store does not open again. */
  ghost predicate CommittedTwice(w: World, first: byte, second: byte) {
    && Healthy(w) && |w.hist| == w.applied == 2 && w.hist[0].OpId() == w.hist[1].OpId()
    && w.hist[0].intent.kind == first && w.hist[1].intent.kind == second
    && Replay(w.log.frames).None?
  }

  /** Worker 0 completes although its id was committed after its recheck. */
  lemma SecondCommits(cfg: Config, steps: seq<Step>, w: World, first: byte)
    requires Reached(cfg, steps, w) && Healthy(w) && Roomy(w.e.cfg) && w.e.cfg.receiptsMaxCount >= 2
    requires 0 in w.threads && w.threads[0] == Holding(Work(1, OP), 0) && w.e.proofs == PROOFS && w.e.epoch == OP
    requires |w.hist| == w.applied == 1 && w.hist[0].OpId() == OP && w.hist[0].intent.kind == first
    requires [1] !in w.e.img.state && StateRoom(w.e, [1], [9]) && ReceiptRoom(w.e, 1, 0)
    requires w.e.img.versionHwm < 5 && w.e.img.commitHwm < 5
    ensures exists more, v :: Reached(cfg, more, v) && CommittedTwice(v, first, KIND_COMPLETION)
  {
    hide Reached, Ran, StateRoom, ReceiptRoom, Replay, Opens, CommitFrame, CommitReceipt, Do, Enabled;
    AfterCompletion(w, 0);
    var s := CommitStep(0, true, 0, CALM, Durable);
    Extend(cfg, steps, w, s);
    var v := Do(w, s);
    assert Overtaken(w, 0) by { assert w.hist[0].OpId() == OP; }
    assert Ran(cfg, steps, w) by { ReachedRan(cfg, steps, w); }
    OvertakenCommitsTwice(cfg, steps, w, 0, 0, CALM, Durable);
    assert CommittedTwice(v, first, KIND_COMPLETION);
  }

  /** A put overtakes a completion with the same id: both commit. */
  lemma PutOvertakes(cfg: Config)
    requires Roomy(Effective(cfg)) && Effective(cfg).receiptsMaxCount >= 2
    ensures exists steps, w :: Reached(cfg, steps, w) && CommittedTwice(w, KIND_PUT, KIND_COMPLETION)
  {
    hide Reached, StateRoom, ReceiptRoom, Encode, Do, Enabled, CommitFrame, IntentDigest, CommittedTwice;
    var steps := Holders(cfg);
    var w := TwoHolders(cfg);
    EmptyHasRoom(w.e, PUT.key, PUT.value);
    NoneHasRoom(w.e, 0);
    AfterPut(w, PUT, 1);
    Extend(cfg, steps, w, DirectStep(PUT, 1, true, Durable));
    var k := PutCommit(w, PUT, 1);
    var v := Acked(w, k, 1);
    OneHasRoom(v.e, [7], Entry([9], 1, 1), [1], [9]);
    OneReceiptHasRoom(v.e, OP, CommitReceipt(k), 1);
    SecondCommits(cfg, steps + [DirectStep(PUT, 1, true, Durable)], v, KIND_PUT);
  }

  /** So does a completion on another queue. */
  lemma CompletionOvertakes(cfg: Config)
    requires Roomy(Effective(cfg)) && Effective(cfg).receiptsMaxCount >= 2
    ensures exists steps, w :: Reached(cfg, steps, w) && CommittedTwice(w, KIND_COMPLETION, KIND_COMPLETION)
  {
    hide Reached, StateRoom, ReceiptRoom, Encode, Do, Enabled, CommitFrame, IntentDigest, CommittedTwice;
    var steps := Holders(cfg);
    var w := TwoHolders(cfg);
    EmptyHasRoom(w.e, [2], [9]);
    NoneHasRoom(w.e, 1);
    AfterCompletion(w, 1);
    var s := CommitStep(1, true, 0, CALM, Durable);
    Extend(cfg, steps, w, s);
    var k := WorkCommit(w, Work(2, OTHER));
    var v := Do(w, s);
    OneHasRoom(v.e, [2], Entry([9], 1, 1), [1], [9]);
    OneReceiptHasRoom(v.e, OP, CommitReceipt(k), 1);
    SecondCommits(cfg, steps + [s], v, KIND_COMPLETION);
  }

  // ---- a ledger over its cap after a restart ----

  const SECOND_PUT := DirectRequest(true, [8], [9], 0, OTHER)

  lemma {:induction false} PassesFrame(e: Engine, n: nat, now: nat)
    ensures Passes(e, n, now) == e.(img := e.img.(receipts := Passes(e, n, now).img.receipts),
                                    gcCursor := Passes(e, n, now).gcCursor)
  {
    hide Swept;
    if n > 0 {
      PassesFrame(e, n - 1, now);
    }
  }

  lemma {:induction false} Collecting(cfg: Config, steps: seq<Step>, w: World, n: nat, now: u64)
    returns (more: seq<Step>)
    requires Reached(cfg, steps, w) && w.up
    ensures Reached(cfg, more, w.(e := Passes(w.e, n, now), clock := if n == 0 then w.clock else Later(w.clock, now)))
  {
    hide Reached, Collected;
    if n == 0 {
      more := steps;
    } else {
      more := Collecting(cfg, steps, w, n - 1, now);
      var v := w.(e := Passes(w.e, n - 1, now), clock := if n == 1 then w.clock else Later(w.clock, now));
      Extend(cfg, more, v, ReceiptGcStep(now));
      more := more + [ReceiptGcStep(now)];
    }
  }

  /** Sixty-four passes after its deadline, the only receipt is gone and nothing else changed. */
  lemma CollectsOnly(w: World, op: Id, r: Receipt, now: nat)
    requires w.e.gcCursor < RECEIPT_BUCKETS && w.e.img.receipts == map[op := r] && Expired(r, now)
    ensures var e := Passes(w.e, 64, now);
      e == w.e.(img := w.e.img.(receipts := map[]), gcCursor := e.gcCursor) && e.gcCursor < RECEIPT_BUCKETS
  {
    hide Passes;
    PassesFrame(w.e, 64, now);
    SixtyFourPassesCollectAll(w.e, now);
    PassesSweep(w.e, 64, now);
    assert Live(map[op := r], now) == map[];
  }

  lemma OneCollected(cfg: Config) returns (steps: seq<Step>, w: World, k: Commit)
    requires Roomy(Effective(cfg))
    ensures Reached(cfg, steps, w) && Healthy(w) && w.e.cfg == Effective(cfg) && w.hist == [k] && k.OpId() == OP
    ensures w.e.img.state == map[[7] := Entry([9], 1, 1)] && w.e.img.receipts == map[] && w.base == Fresh(META)
    ensures w.e.img.versionHwm == 1 && w.e.img.commitHwm == 1 && w.pending.None? && w.from == 0
  {
    hide Reached, StateRoom, ReceiptRoom, Encode, Do, Enabled, CommitFrame, IntentDigest, Passes;
    Opening(cfg);
    steps := [RestartStep(OP), AttachStep(META, Durable)];
    var w0 := Opened(cfg);
    EmptyHasRoom(w0.e, PUT.key, PUT.value);
    NoneHasRoom(w0.e, 0);
    AfterPut(w0, PUT, 1);
    Extend(cfg, steps, w0, DirectStep(PUT, 1, true, Durable));
    k := PutCommit(w0, PUT, 1);
    var w1 := Acked(w0, k, 1);
    var late: u64 := 1 + Effective(cfg).retentionMs;
    assert k.expiresAt == late;
    steps := Collecting(cfg, steps + [DirectStep(PUT, 1, true, Durable)], w1, 64, late);
    w := w1.(e := Passes(w1.e, 64, late), clock := Later(w1.clock, late));
    CollectsOnly(w1, OP, CommitReceipt(k), late);
  }

  /** With room for one receipt, a second operation is admitted once the first receipt was collected; a restart
      brings both receipts back. */
  lemma RestartExceedsCap(cfg: Config)
    requires Roomy(Effective(cfg)) && Effective(cfg).receiptsMaxCount == 1
    ensures exists steps, w :: Reached(cfg, steps, w) && w.up && |w.e.img.receipts| == 2 > w.e.cfg.receiptsMaxCount
  {
    hide Reached, StateRoom, ReceiptRoom, Do, Enabled, CommitFrame, IntentDigest;
    var steps, w, k := OneCollected(cfg);
    OneHasRoom(w.e, [7], Entry([9], 1, 1), SECOND_PUT.key, SECOND_PUT.value);
    NoneHasRoom(w.e, 0);
    var late: u64 := 1 + Effective(cfg).retentionMs;
    AfterPut(w, SECOND_PUT, late);
    var put := DirectStep(SECOND_PUT, late, true, Durable);
    Extend(cfg, steps, w, put);
    var v := Acked(w, PutCommit(w, SECOND_PUT, late), late);
    RestartCounts(cfg, steps + [put], v);
  }

  lemma RestartCounts(cfg: Config, steps: seq<Step>, w: World)
    requires Reached(cfg, steps, w) && w.up && w.base == Fresh(META) && w.from == 0
    requires |w.hist| == 2 && w.hist[0].OpId() != w.hist[1].OpId()
    ensures exists more, v :: Reached(cfg, more, v) && v.up && |v.e.img.receipts| == 2 && v.e.cfg == w.e.cfg
  {
    hide Reached, Sound, Do, TailImage, LogOk;
    Extend(cfg, steps, w, CrashStep);
    var v := Crashing(w);
    SoundHere(cfg, steps + [CrashStep], v);
    var x := Reopening(v);
    Extend(cfg, steps + [CrashStep], v, RestartStep(OTHER));
  }

  lemma Crashing(w: World) returns (v: World)
    requires w.up
    ensures v == Do(w, CrashStep) && !v.up && v.hist == w.hist && v.base == w.base && v.from == w.from
    ensures v.e.cfg == w.e.cfg
  {
    v := Do(w, CrashStep);
  }

  lemma Reopening(v: World) returns (x: World)
    requires Sound(v) && !v.up && v.base == Fresh(META) && v.from == 0
    requires |v.hist| == 2 && v.hist[0].OpId() != v.hist[1].OpId()
    ensures Enabled(v, RestartStep(OTHER)) && x == Do(v, RestartStep(OTHER))
    ensures x.up && |x.e.img.receipts| == 2 && x.e.cfg == v.e.cfg
  {
    hide Fenced, IdentityOk, HistoryOk, MemoryOk, ReceiptsOk, PendingOk, LogOk, TailImage, Replay, Relinked, NoReuse;
    var c := CoreOf(v);
    assert c.hist[c.from..] == v.hist;
    NoneReused(v.hist);
    Recovery(c);
    TailLedger(BaseImage(v.base), v.hist);
    x := Do(v, RestartStep(OTHER));
  }

  lemma NoneReused(h: seq<Commit>)
    requires |h| == 2 && h[0].OpId() != h[1].OpId()
    ensures NoReuse(map[], h)
  {
  }

  // ---- a checkpoint that carries the receipt of a direct mutation ----

  /** A checkpoint, then a crash. */
  function CheckpointAndCrash(cut: Cut): seq<Step> {
    [CutStep(cut), PublishStep, CrashStep]
  }

  /** Any checkpoint taken while the receipt of a direct mutation is live ends in a log that does not open. */
  lemma CheckpointRefusesOpen(w: World, cut: Cut)
    requires Stored(w) && Enabled(w, CutStep(cut)) && !OnlyCompletionsLive(w.e.img.receipts, cut.now)
    ensures var m := Exec(w, CheckpointAndCrash(cut));
      m.Some? && !m.value.up && m.value.e.failed == w.e.failed && m.value.hist == w.hist[..w.applied]
      && Replay(m.value.log.frames).None?
  {
    hide Stored, Replay, OnlyCompletionsLive, Do, Enabled, Exec;
    var w1 := Do(w, CutStep(cut));
    CutStored(w, cut);
    var w2, w3 := PublishAndCrash(w, cut, w1);
    ExecThree(w, CutStep(cut), PublishStep, CrashStep);
  }

  lemma PublishAndCrash(w: World, cut: Cut, w1: World) returns (w2: World, w3: World)
    requires Stored(w1) && Enabled(w, CutStep(cut)) && w1 == Do(w, CutStep(cut))
    requires !OnlyCompletionsLive(w.e.img.receipts, cut.now)
    ensures Enabled(w1, PublishStep) && w2 == Do(w1, PublishStep)
    ensures Enabled(w2, CrashStep) && w3 == Do(w2, CrashStep)
    ensures !w3.up && w3.e.failed == w.e.failed && w3.applied == w.applied && w.applied <= |w.hist|
    ensures w3.hist == w.hist[..w.applied] && Replay(w3.log.frames).None?
  {
    hide Stored, Replay, CheckpointFrames, OnlyCompletionsLive, WalksAll, ImageOk;
    PendingIsOk(w1);
    w2 := Do(w1, PublishStep);
    w3 := Do(w2, CrashStep);
    BaseReplay(w1.pending.value);
  }

  /** Three steps, each enabled after the one before it, are a run. */
  lemma ExecThree(w: World, a: Step, b: Step, c: Step)
    requires Enabled(w, a) && Enabled(Do(w, a), b) && Enabled(Do(Do(w, a), b), c)
    ensures Exec(w, [a, b, c]) == Some(Do(Do(Do(w, a), b), c))
  {
    hide Do, Enabled;
    assert Exec(w, []) == Some(w);
    ExecSnoc(w, [], a);
    assert [] + [a] == [a];
    ExecSnoc(w, [a], b);
    assert [a] + [b] == [a, b];
    ExecSnoc(w, [a, b], c);
    assert [a, b] + [c] == [a, b, c];
  }

  /** One put, one checkpoint before its receipt expires, one crash: nothing failed and no id was reused,
      and the store no longer opens. */
  lemma CheckpointAfterPut(cfg: Config)
    requires Roomy(Effective(cfg))
    ensures exists steps, w, cut ::
      && Reached(cfg, steps, w) && Healthy(w) && |w.hist| == 1
      && Exec(w, CheckpointAndCrash(cut)).Some?
      && Replay(Exec(w, CheckpointAndCrash(cut)).value.log.frames).None?
  {
    hide Reached, Sound, Stored, Encode, Do, Replay, StateRoom, ReceiptRoom, CheckpointAndCrash, CommitFrame,
      IntentDigest, Exec;
    Opening(cfg);
    var steps, put := [RestartStep(OP), AttachStep(META, Durable)], DirectStep(PUT, 1, true, Durable);
    var w0 := Opened(cfg);
    EmptyHasRoom(w0.e, PUT.key, PUT.value);
    NoneHasRoom(w0.e, 0);
    AfterPut(w0, PUT, 1);
    Extend(cfg, steps, w0, put);
    var w := Acked(w0, PutCommit(w0, PUT, 1), 1);
    SoundHere(cfg, steps + [put], w);
    var cut := Cut(1, 0, 0, [[7]], [OP]);
    assert !OnlyCompletionsLive(w.e.img.receipts, cut.now) by {
      assert !Expired(w.e.img.receipts[OP], 1);
    }
    assert Enabled(w, CutStep(cut));
    CheckpointRefusesOpen(w, cut);
  }

  // ---- a commit between a cut and its publication ----

  const EMPTY_CUT := Cut(1, 0, 0, [], [])
  const REWRITE := DirectRequest(true, [7], [8], 0, OTHER)

  lemma CutOfNothing(cfg: Config) returns (w: World)
    requires Roomy(Effective(cfg))
    ensures Exec(Opened(cfg), [CutStep(EMPTY_CUT), DirectStep(PUT, 1, true, Durable)]) == Some(w)
    ensures Healthy(w) && w.e.cfg == Effective(cfg) && w.applied == 1 && w.cutAt == 0
    ensures w.e.img.state == map[[7] := Entry([9], 1, 1)]
    ensures w == Opened(cfg).(e := w.e, log := w.log, hist := w.hist, applied := 1, linked := w.linked, clock := 1,
                              pending := Some(Checkpointed(Opened(cfg).e.img, EMPTY_CUT)))
    ensures w.e == Opened(cfg).e.(img := w.e.img)
  {
    hide StateRoom, ReceiptRoom, Encode, CommitFrame, IntentDigest, Exec, DoDirect;
    var w0 := Opened(cfg);
    var cut, put := CutStep(EMPTY_CUT), DirectStep(PUT, 1, true, Durable);
    var w1 := Do(w0, cut);
    EmptyHasRoom(w1.e, PUT.key, PUT.value);
    NoneHasRoom(w1.e, 0);
    AfterPut(w1, PUT, 1);
    w := Acked(w1, PutCommit(w1, PUT, 1), 1);
    ExecTwo(w0, cut, put);
  }

  lemma ExecTwo(w: World, a: Step, b: Step)
    requires Enabled(w, a) && Enabled(Do(w, a), b)
    ensures Exec(w, [a, b]) == Some(Do(Do(w, a), b))
  {
    hide Do, Enabled;
    assert Exec(w, []) == Some(w);
    ExecSnoc(w, [], a);
    assert [] + [a] == [a];
    ExecSnoc(w, [a], b);
    assert [a] + [b] == [a, b];
  }

  lemma PublishesNothing(cfg: Config, w: World) returns (w1: World, w2: World)
    requires w == Opened(cfg).(e := w.e, log := w.log, hist := w.hist, applied := 1, linked := w.linked, clock := 1,
                               pending := Some(Checkpointed(Opened(cfg).e.img, EMPTY_CUT)))
    requires w.e == Opened(cfg).e.(img := w.e.img) && !w.log.failed
    ensures Enabled(w, PublishStep) && w1 == Do(w, PublishStep)
    ensures Enabled(w1, CrashStep) && w2 == Do(w1, CrashStep)
    ensures !w2.up && w2.base == w.pending.value && BaseOk(w2.base) && w2.log == Log(BaseFrames(w2.base), false)
    ensures w2.hist == [] && w2.from == 0 && w2.pending.None? && w2.e.cfg == w.e.cfg
  {
    hide Encode, BaseFrames;
    w1 := Do(w, PublishStep);
    w2 := Do(w1, CrashStep);
  }

  lemma Reattaches(w: World, img: Image) returns (w1: World, v: World)
    requires !w.up && w.base == Checkpointed(img, EMPTY_CUT) && BaseOk(w.base)
          && w.log == Log(BaseFrames(w.base), false)
    requires w.hist == [] && w.from == 0 && w.pending.None? && img == Image(Some(OP), map[], map[], 0, 0)
    ensures Enabled(w, RestartStep(OTHER)) && w1 == Do(w, RestartStep(OTHER))
    ensures Enabled(w1, AttachStep(META, Durable)) && v == Do(w1, AttachStep(META, Durable))
    ensures Healthy(v) && v.e.cfg == w.e.cfg && v.e.img == img
  {
    hide Encode, BaseFrames, Replay, BaseOk, WalksAll;
    BaseReplay(w.base);
    assert BaseImage(w.base) == img by { assert Live(map[], 1) == map[]; }
    assert w.hist[w.from..] == [];
    w1 := Do(w, RestartStep(OTHER));
    v := Do(w1, AttachStep(META, Durable));
  }

  /** Publishing the cut and crashing brings the empty store back, open and attached again. */
  lemma ComesBackEmpty(cfg: Config, w: World) returns (steps: seq<Step>, v: World)
    requires w == Opened(cfg).(e := w.e, log := w.log, hist := w.hist, applied := 1, linked := w.linked, clock := 1,
                               pending := Some(Checkpointed(Opened(cfg).e.img, EMPTY_CUT)))
    requires w.e == Opened(cfg).e.(img := w.e.img) && !w.log.failed
    ensures steps == [PublishStep, CrashStep, RestartStep(OTHER), AttachStep(META, Durable)]
    ensures Exec(w, steps) == Some(v)
    ensures Healthy(v) && v.e.cfg == w.e.cfg && v.e.img == Opened(cfg).e.img
  {
    hide Encode, Exec, Do, Enabled, BaseFrames, BaseOk;
    var w1, w2 := PublishesNothing(cfg, w);
    var w3;
    w3, v := Reattaches(w2, Opened(cfg).e.img);
    ExecThree(w, PublishStep, CrashStep, RestartStep(OTHER));
    steps := [PublishStep, CrashStep, RestartStep(OTHER)] + [AttachStep(META, Durable)];
    ExecSnoc(w, [PublishStep, CrashStep, RestartStep(OTHER)], AttachStep(META, Durable));
  }

  /** What a client read as version 1 is gone after an uncovered checkpoint, and version 1 is a different value. */
  lemma VersionIssuedTwice(cfg: Config)
    requires Roomy(Effective(cfg))
    ensures exists before, w, after, v ::
      && Exec(NewWorld(cfg), before) == Some(w) && Exec(w, after) == Some(v) && Healthy(w) && Healthy(v)
      && w.e.img.state == map[[7] := Entry([9], 1, 1)] && v.e.img.state == map[[7] := Entry([8], 1, 1)]
  {
    hide StateRoom, ReceiptRoom, Encode, CommitFrame, IntentDigest, Exec, CoveredRun, Do, Enabled;
    Opening(cfg);
    var before := [RestartStep(OP), AttachStep(META, Durable)];
    var window := [CutStep(EMPTY_CUT), DirectStep(PUT, 1, true, Durable)];
    var w := CutOfNothing(cfg);
    ExecConcat(NewWorld(cfg), before, window);
    var after, w1 := ComesBackEmpty(cfg, w);
    EmptyHasRoom(w1.e, REWRITE.key, REWRITE.value);
    NoneHasRoom(w1.e, 0);
    AfterPut(w1, REWRITE, 1);
    ExecSnoc(w, after, DirectStep(REWRITE, 1, true, Durable));
    assert Exec(w, after + [DirectStep(REWRITE, 1, true, Durable)]) == Some(Acked(w1, PutCommit(w1, REWRITE, 1), 1));
  }

  lemma {:induction false} ExecConcat(w: World, a: seq<Step>, b: seq<Step>)
    requires Exec(w, a).Some? && Exec(Exec(w, a).value, b).Some?
    ensures Exec(w, a + b) == Exec(Exec(w, a).value, b)
    decreases |b|
  {
    hide Do, Enabled;
    if |b| == 0 {
      assert a + b == a;
    } else {
      ExecConcat(w, a, b[..|b| - 1]);
      assert (a + b)[..|a + b| - 1] == a + b[..|b| - 1];
    }
  }

  // ---- state over its budget after a restart ----

  const THIRD: Id := [3, 0, 0, 0, 0, 0, 0, 0, 0, 0, 0, 0, 0, 0, 0, 0]
  const ERASE := DirectRequest(false, [7], [], 1, OTHER)
  const INSTEAD := DirectRequest(true, [8], [9], 0, THIRD)

  /** One entry fits the state budget and two do not. */
  predicate Tight(cfg: Config) {
    Workable(cfg) && 162 <= cfg.stateMaxBytes < 324 && cfg.receiptsMaxBytes >= 1000 && cfg.receiptsMaxCount >= 3
  }

  lemma OneFits(e: Engine, key: Short, value: Long)
    requires Tight(e.cfg) && e.img.state == map[] && |key| == 1 && |value| == 1
    ensures StateRoom(e, key, value)
  {
    assert Sum<Short, Entry>(map[], EntryFootprint) == 0;
  }

  lemma TwoWeigh(s: State, a: Short, b: Short, x: Entry, y: Entry)
    requires s == map[a := x, b := y] && a != b && |a| == |b| == |x.value| == |y.value| == 1
    ensures StateBytes(s) == 324
  {
    assert Sum<Short, Entry>(map[], EntryFootprint) == 0;
    PutFootprint(map[], a, x);
    PutFootprint(map[a := x], b, y);
    assert s == map[a := x][b := y];
  }

  /** Receipts of direct mutations weigh 248 each. */
  ghost predicate FewReceipts(rs: map<Id, Receipt>, n: nat) {
    |rs| <= n && ReceiptBytes(rs) <= 248 * n
  }

  lemma FewHaveRoom(e: Engine, n: nat)
    requires Tight(e.cfg) && FewReceipts(e.img.receipts, n) && n <= 2
    ensures ReceiptRoom(e, 0, 0)
  {
    hide ReceiptBytes;
  }

  lemma OneMoreReceipt(img: Image, k: Commit, n: nat)
    requires FewReceipts(img.receipts, n) && k.intent.input.None? && k.intent.output.None?
    ensures FewReceipts(PublishedImage(img, k).receipts, n + 1)
  {
    hide IntentDigest, ApplyCommit, Sum;
    var rs := img.receipts;
    if k.OpId() !in rs {
      SumInsert(rs, k.OpId(), CommitReceipt(k), FootprintOf);
      assert rs[k.OpId() := CommitReceipt(k)].Keys == rs.Keys + {k.OpId()};
    }
  }

  /** Up to the cut: one entry, whose receipt has expired by then. */
  lemma CutOfOne(cfg: Config) returns (steps: seq<Step>, w: World, late: u64)
    requires Tight(Effective(cfg))
    ensures Ran(cfg, steps, w) && Healthy(w) && w.e.cfg == Effective(cfg) && late < 2000000000000
    ensures w.e.img.state == map[[7] := Entry([9], 1, 1)] && w.e.img.receipts.Keys == {OP}
    ensures FewReceipts(w.e.img.receipts, 1) && w.e.img.versionHwm == 1 && w.e.img.commitHwm == 1
    ensures w.pending == Some(Checkpointed(w.e.img, Cut(late, 0, 0, [[7]], [OP]))) && w.cutAt == 1
    ensures |w.hist| == 1 && w.applied == 1 && Expired(w.e.img.receipts[OP], late)
  {
    hide Reached, StateRoom, ReceiptRoom, Encode, Do, CommitFrame, IntentDigest, FewReceipts, DoDirect, Ran;
    Opening(cfg);
    steps := [RestartStep(OP), AttachStep(META, Durable)];
    var w0, put := Opened(cfg), DirectStep(PUT, 1, true, Durable);
    assert Ran(cfg, steps, w0) by { ReachedRan(cfg, steps, w0); }
    OneFits(w0.e, PUT.key, PUT.value);
    assert FewReceipts(w0.e.img.receipts, 0) by { NoReceipts(); }
    FewHaveRoom(w0.e, 0);
    AfterPut(w0, PUT, 1);
    ExtendRan(cfg, steps, w0, put);
    var k := PutCommit(w0, PUT, 1);
    var w1 := Acked(w0, k, 1);
    OneMoreReceipt(Numbering(w0.e.img), k, 0);
    late := 1 + Effective(cfg).retentionMs;
    steps := steps + [put];
    w := CutsOne(cfg, steps, w1, late);
    steps := steps + [CutStep(Cut(late, 0, 0, [[7]], [OP]))];
  }

  lemma NoReceipts()
    ensures FewReceipts(map[], 0)
  {
    assert Sum<Id, Receipt>(map[], FootprintOf) == 0;
  }

  lemma CutsOne(cfg: Config, steps: seq<Step>, w: World, late: u64) returns (v: World)
    requires Ran(cfg, steps, w) && w.up && w.pending.None? && w.threads == map[] && w.e.img.storeId.Some?
    requires w.e.img.state.Keys == {[7]} && w.e.img.receipts.Keys == {OP}
    ensures Ran(cfg, steps + [CutStep(Cut(late, 0, 0, [[7]], [OP]))], v)
    ensures v == w.(pending := Some(Checkpointed(w.e.img, Cut(late, 0, 0, [[7]], [OP]))), cutAt := w.applied,
                    clock := Later(w.clock, late))
  {
    hide Ran;
    var cut := Cut(late, 0, 0, [[7]], [OP]);
    assert Enabled(w, CutStep(cut));
    ExtendRan(cfg, steps, w, CutStep(cut));
    v := Do(w, CutStep(cut));
  }

  /** After the cut: the entry goes, the checkpoint with it is published, and another entry takes its place. */
  lemma ErasedAndReplaced(cfg: Config, steps: seq<Step>, w: World, late: u64) returns (more: seq<Step>, v: World)
    requires Tight(w.e.cfg) && Ran(cfg, steps, w) && Healthy(w) && late < 2000000000000
    requires w.e.img.state == map[[7] := Entry([9], 1, 1)] && w.e.img.receipts.Keys == {OP}
    requires FewReceipts(w.e.img.receipts, 1) && w.e.img.versionHwm == 1 && w.e.img.commitHwm == 1
    requires w.pending == Some(Checkpointed(w.e.img, Cut(late, 0, 0, [[7]], [OP]))) && w.cutAt == 1
    requires |w.hist| == 1 && w.applied == 1 && Stored(w)
    ensures Ran(cfg, more, v) && v.up && v.base == w.pending.value && v.from == 1 && |v.hist| == 2
    ensures v.hist[1].intent == DirectIntent(OP, INSTEAD) && v.e.cfg == w.e.cfg
  {
    hide Ran, StateRoom, ReceiptRoom, Do, Enabled, CommitFrame, IntentDigest, FewReceipts, Stored;
    FewHaveRoom(w.e, 1);
    AfterDelete(w, ERASE, late);
    var erase, instead := DirectStep(ERASE, late, true, Durable), DirectStep(INSTEAD, late, true, Durable);
    ExtendRan(cfg, steps, w, erase);
    var k := PutCommit(w, ERASE, late);
    var w1 := Acked(w, k, late);
    OneMoreReceipt(Numbering(w.e.img), k, 1);
    assert w1.e.img.state == map[];
    var w2 := PublishesOver(w, w1);
    ExtendRan(cfg, steps + [erase], w1, PublishStep);
    OneFits(w2.e, INSTEAD.key, INSTEAD.value);
    FewHaveRoom(w2.e, 2);
    AfterPut(w2, INSTEAD, late);
    more := steps + [erase] + [PublishStep];
    ExtendRan(cfg, more, w2, instead);
    more := more + [instead];
    v := Acked(w2, PutCommit(w2, INSTEAD, late), late);
  }

  lemma PublishesOver(w: World, w1: World) returns (w2: World)
    requires Stored(w) && w.pending.Some? && w.cutAt == 1 && |w.hist| == 1 && w1.up
    requires w1.pending == w.pending && w1.cutAt == 1 && |w1.hist| == 2 && w1.hist[..1] == w.hist
    ensures Enabled(w1, PublishStep) && w2 == Do(w1, PublishStep)
    ensures w2.e == w1.e && w2.up && w2.log.failed == w1.log.failed && w2.base == w.pending.value && w2.from == 1
    ensures w2.hist == w.hist
  {
    hide Stored, BaseOk, BaseFrames;
    PendingIsOk(w);
    w2 := Do(w1, PublishStep);
  }

  /** A restart on that log holds both entries. */
  lemma RestoresBoth(v: World, img: Image, late: u64) returns (x: World)
    requires Stored(v) && !v.up && v.base == Checkpointed(img, Cut(late, 0, 0, [[7]], [OP])) && v.from == 1
    requires img.state == map[[7] := Entry([9], 1, 1)] && img.receipts.Keys == {OP} && Expired(img.receipts[OP], late)
    requires |v.hist| == 2 && v.hist[1].intent == DirectIntent(OP, INSTEAD)
    ensures Enabled(v, RestartStep(OTHER)) && x == Do(v, RestartStep(OTHER))
    ensures x.up && x.e.cfg == v.e.cfg && StateBytes(x.e.img.state) == 324
  {
    hide Replay, LogOk, HistoryOk, MemoryOk, ReceiptsOk, PendingOk, IdentityOk, StateBytes, CommitReceipt, Relinked;
    var c, k := CoreOf(v), v.hist[1];
    assert c.hist[c.from..] == [k];
    assert BaseImage(c.base).receipts == map[];
    Recovery(c);
    assert Opens(c);
    x := Do(v, RestartStep(OTHER));
    assert [k][..0] == [];
    assert Recovered(c) == CommitImage(TailImage(BaseImage(c.base), []), k);
    assert x.e.img.state == map[[7] := Entry([9], 1, 1), [8] := Entry([9], k.version, k.commitId)];
    TwoWeigh(x.e.img.state, [7], [8], Entry([9], 1, 1), Entry([9], k.version, k.commitId));
  }

  /** An uncovered checkpoint brings a deleted entry back beside what was admitted in its place. */
  lemma RestartExceedsBudget(cfg: Config)
    requires Tight(Effective(cfg))
    ensures exists steps, w :: Ran(cfg, steps, w) && w.up && StateBytes(w.e.img.state) > w.e.cfg.stateMaxBytes
  {
    hide Ran, Sound, Stored, Do, Enabled, StateBytes, FewReceipts;
    var steps, w, late := CutOfOne(cfg);
    assert Stored(w) by { StoredHere(cfg, steps, w); }
    var img := w.e.img;
    var more, v := ErasedAndReplaced(cfg, steps, w, late);
    var v1 := Crashing(v);
    assert Enabled(v, CrashStep) by { CanCrash(v); }
    ExtendRan(cfg, more, v, CrashStep);
    StoredHere(cfg, more + [CrashStep], v1);
    var x := RestoresBoth(v1, img, late);
    ExtendRan(cfg, more + [CrashStep], v1, RestartStep(OTHER));
    assert Ran(cfg, more + [CrashStep] + [RestartStep(OTHER)], x);
  }

  lemma CanCrash(w: World)
    requires w.up
    ensures Enabled(w, CrashStep)
  {
  }

  lemma StoredHere(cfg: Config, steps: seq<Step>, w: World)
    requires Ran(cfg, steps, w)
    ensures Stored(w)
  {
    hide Fenced, Stored, Exec;
    RanOk(cfg, steps, w);
  }
}
