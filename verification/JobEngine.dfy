/** The job engine itself: fields, counters and the log it appends to, updated in place. */
module JobEngine {
  import opened Bytes
  import opened MapSum
  import opened JobIntent
  import opened JobRecord
  import opened JobImage
  import opened JobCheckpoint
  import opened JobAdmission
  import opened JobOutcomes
  import opened JobEncode

  /** The Queue log as the engine sees it: a synchronous append whose fate the environment decides. */
  class QueueLog {
    var frames: seq<Frame>
    var failed: bool

    ghost function View(): Log
      reads this
    {
      Log(frames, failed)
    }

    method AppendSync(f: Frame, fate: Fate) returns (ok: bool)
      modifies this
      ensures (View(), ok) == Append(old(View()), f, fate)
    {
      if failed {
        return false;
      }
      if fate != Lost {
        frames := frames + [f];
      }
      failed := fate != Durable;
      ok := fate == Durable;
    }
  }

  class JobEngine {
    const cfg: Config
    const epoch: Id
    var storeId: Option<Id>
    var failed: bool
    var attached: bool
    var state: map<Short, Entry>
    var stateBytes: nat
    var receipts: map<Id, Receipt>
    var receiptCount: nat
    var receiptBytes: nat
    var proofs: map<Id, Proof>
    var versionHwm: u64
    var commitHwm: u64
    var gcCursor: nat
    var inDoubt: Option<Id>

    /** The counters are exactly the footprints of what is linked. */
    ghost predicate Valid()
      reads this
    {
      && stateBytes == StateBytes(state)
      && receiptCount == |receipts|
      && receiptBytes == ReceiptBytes(receipts)
      && gcCursor < RECEIPT_BUCKETS
    }

    ghost function Memory(): Image
      reads this
    {
      Image(storeId, state, receipts, versionHwm, commitHwm)
    }

    ghost function View(): Engine
      reads this
    {
      Engine(cfg, Memory(), failed, attached, gcCursor, inDoubt, proofs, epoch)
    }

    constructor (cfg: Config, epoch: Id)
      ensures Valid()
      ensures View() == Engine(Effective(cfg), EMPTY, false, false, 0, None, map[], epoch)
    {
      this.cfg, this.epoch := Effective(cfg), epoch;
      storeId, failed, attached, inDoubt := None, false, false, None;
      state, stateBytes, receipts, receiptCount, receiptBytes := map[], 0, map[], 0, 0;
      proofs, versionHwm, commitHwm, gcCursor := map[], 0, 0, 0;
    }

    // ---- receipts ----

    /** Unlinks one receipt and uncharges it. */
    method DropReceipt(op: Id)
      requires Valid() && op in receipts
      modifies this`receipts, this`receiptCount, this`receiptBytes
      ensures Valid() && receipts == old(receipts) - {op}
    {
      SumRemove(receipts, op, FootprintOf);
      assert (receipts - {op}).Keys == receipts.Keys - {op};
      receiptBytes := receiptBytes - FootprintOf(op, receipts[op]);
      receiptCount := receiptCount - 1;
      receipts := receipts - {op};
    }

    /** Sweeps one bucket. */
    method SweepBucket(b: nat, now: nat) returns (removed: nat)
      requires Valid()
      modifies this`receipts, this`receiptCount, this`receiptBytes
      ensures Valid()
      ensures receipts == BucketSwept(old(receipts), b, now)
      ensures removed == old(receiptCount) - receiptCount
    {
      hide ReceiptBucket, ReceiptBytes, StateBytes;
      removed := 0;
      var doomed := set op | op in receipts && ReceiptBucket(op) == b && Expired(receipts[op], now);
      while doomed != {}
        invariant Valid()
        invariant doomed <= receipts.Keys
        invariant BucketSwept(receipts, b, now) == BucketSwept(old(receipts), b, now)
        invariant doomed == set op | op in receipts && ReceiptBucket(op) == b && Expired(receipts[op], now)
        invariant receiptCount + removed == old(receiptCount)
        decreases doomed
      {
        var op :| op in doomed;
        ghost var before := receipts;
        assert op in before;
        DropReceipt(op);
        removed := removed + 1;
        doomed := doomed - {op};
        assert receiptCount == |receipts| && |receipts.Keys| == |before.Keys| - 1 by {
          assert receipts.Keys == before.Keys - {op};
        }
      }
      assert receipts == BucketSwept(receipts, b, now);
    }

    /** One bounded pass: 64 buckets from the cursor on. */
    method ReceiptGc(now: nat) returns (removed: nat)
      requires Valid()
      modifies this`receipts, this`receiptCount, this`receiptBytes, this`gcCursor
      ensures Valid() && View() == Collected(old(View()), now)
      ensures removed == |old(receipts)| - |receipts|
    {
      hide ReceiptBytes, StateBytes, Swept, BucketSwept, CursorAt;
      removed := 0;
      ghost var start, from := receipts, gcCursor;
      NothingSwept(start, from, now);
      CursorStarts(from);
      for i := 0 to GC_BUDGET
        invariant Valid()
        invariant gcCursor == CursorAt(from, i)
        invariant receipts == Swept(start, from, i, now)
        invariant receiptCount + removed == |start|
      {
        var b := gcCursor;
        CursorMoves(from, i);
        gcCursor := (gcCursor + 1) % RECEIPT_BUCKETS;
        var n := SweepBucket(b, now);
        removed := removed + n;
        SweptStep(start, from, i, now);
      }
      CursorStarts(from);
    }

    /** Publishes a receipt unless its operation id already has one. */
    method LinkReceipt(r: Receipt)
      requires Valid()
      modifies this`receipts, this`receiptCount, this`receiptBytes
      ensures Valid()
      ensures receipts == if r.opId in old(receipts) then old(receipts) else old(receipts)[r.opId := r]
    {
      if r.opId !in receipts {
        SumInsert(receipts, r.opId, r, FootprintOf);
        assert receipts[r.opId := r].Keys == receipts.Keys + {r.opId};
        receipts := receipts[r.opId := r];
        receiptCount := receiptCount + 1;
        receiptBytes := receiptBytes + FootprintOf(r.opId, r);
      }
    }

    // ---- state ----

    /** Replaces a value in place or links a fresh entry, charging only the difference. */
    method PutEntry(key: Short, e: Entry)
      requires Valid()
      modifies this`state, this`stateBytes
      ensures Valid() && state == old(state)[key := e]
    {
      PutFootprint(state, key, e);
      stateBytes := stateBytes + Growth(state, key, e.value);
      state := state[key := e];
    }

    method DeleteEntry(key: Short)
      requires Valid()
      modifies this`state, this`stateBytes
      ensures Valid() && state == old(state) - {key}
    {
      DeleteFootprint(state, key);
      if key in state {
        stateBytes := stateBytes - EntryFootprint(key, state[key]);
        state := state - {key};
      } else {
        assert state - {key} == state;
      }
    }

    /** Application of a durable commit; nothing here can fail. */
    method Publish(c: Commit, digest: Digest)
      requires Valid() && digest == IntentDigest(c.intent)
      modifies this`state, this`stateBytes, this`receipts, this`receiptCount, this`receiptBytes
      ensures Valid() && View() == Published(old(View()), c)
    {
      hide IntentDigest, StateBytes, ReceiptBytes;
      var i := c.intent;
      if i.kind == KIND_DELETE {
        DeleteEntry(i.key);
      } else {
        PutEntry(i.key, Entry(i.value, c.version, c.commitId));
      }
      LinkReceipt(Receipt(i.kind, i.opId, digest, c.commitId, c.version, i.InQueue(), i.InMessage(), i.OutQueue(),
                          if i.output.Some? then c.outMessage else 0, c.completedAt, c.expiresAt));
    }

    // ---- admission ----

    method HasReceiptRoom(inLen: nat, outLen: nat) returns (room: bool)
      requires Valid()
      ensures room == ReceiptRoom(View(), inLen, outLen)
    {
      room := receiptCount + 1 <= cfg.receiptsMaxCount
              && receiptBytes + ReceiptFootprint(inLen, outLen) <= cfg.receiptsMaxBytes;
    }

    /** Tries one bounded collection before giving up on the ledger's caps. */
    method MakeRoom(inLen: nat, outLen: nat, now: nat) returns (room: bool)
      requires Valid()
      modifies this`receipts, this`receiptCount, this`receiptBytes, this`gcCursor
      ensures Valid() && View() == RoomMade(old(View()), inLen, outLen, now)
      ensures room == ReceiptRoom(View(), inLen, outLen)
    {
      hide Collected, ReceiptRoom;
      room := HasReceiptRoom(inLen, outLen);
      if !room {
        var _ := ReceiptGc(now);
        room := HasReceiptRoom(inLen, outLen);
      }
    }

    method FitsState(key: Short, value: Long) returns (fits: bool)
      requires Valid()
      ensures fits == StateRoom(View(), key, value)
    {
      var delta := Growth(state, key, value);
      fits := delta <= 0 || stateBytes + delta <= cfg.stateMaxBytes;
    }

    method LookReceipt(i: Intent, digest: Digest) returns (known: Option<Outcome>)
      requires digest == IntentDigest(i)
      ensures known == Ledger(receipts, i)
    {
      if i.opId !in receipts {
        return None;
      }
      var r := receipts[i.opId];
      if r.kind != i.kind || r.digest != digest {
        return Some(Rejected(IdempotencyConflict));
      }
      known := Some(Matched(r));
    }

    /** Reserves a put or delete of a new id, at the version it names and within the budgets, or says what is wrong. */
    method Admit(r: DirectRequest, i: Intent, digest: Digest, now: u64, alloc: bool) returns (o: Outcome)
      requires Valid() && i == DirectIntent(StoreIdOf(Memory()), r) && digest == IntentDigest(i)
      modifies this
      ensures Valid() && (View(), o) == AdmitDirect(old(View()), r, now, alloc)
      ensures o.Reserved? ==> r.opId !in old(receipts) && !old(failed)
      ensures o.Reserved? && r.put && r.expected == 0 ==> r.key !in old(state)
      ensures o.Reserved? && !(r.put && r.expected == 0) ==>
        r.key in old(state) && old(state)[r.key].version == r.expected
    {
      hide AdmitDirect;
      ghost var was := View();
      o := Decide(r, i, digest, now, alloc);
      if o.Reserved? {
        DirectIsCurrent(was, r, now, alloc);
      }
    }

    /** The checks in their order: ledger, doubt, latch, version, state budget, ledger budget, marks. */
    method Decide(r: DirectRequest, i: Intent, digest: Digest, now: u64, alloc: bool) returns (o: Outcome)
      requires Valid() && i == DirectIntent(StoreIdOf(Memory()), r) && digest == IntentDigest(i)
      modifies this
      ensures Valid() && (View(), o) == AdmitDirect(old(View()), r, now, alloc)
    {
      hide Collected, ReceiptRoom, StateRoom, IntentDigest, StateBytes, ReceiptBytes, Ledger, RoomMade;
      var known := LookReceipt(i, digest);
      if known.Some? {
        return known.value;
      }
      if inDoubt == Some(r.opId) {
        return Rejected(OperationInDoubt);
      }
      if failed {
        return Rejected(PersistenceUnavailable);
      }
      if r.put {
        if !VersionMatches(state, r.key, r.expected) {
          return Rejected(StateVersionConflict);
        }
        var fits := FitsState(r.key, r.value);
        if !fits {
          return Rejected(ResourceExhausted);
        }
      } else {
        if r.key !in state {
          return Rejected(NotFound);
        }
        if state[r.key].version != r.expected {
          return Rejected(StateVersionConflict);
        }
      }
      var room := MakeRoom(0, 0, now);
      if !room {
        return Rejected(ResourceExhausted);
      }
      if versionHwm == UINT64_MAX || commitHwm == UINT64_MAX {
        failed := true;
        return Rejected(PersistenceUnavailable);
      }
      versionHwm, commitHwm := versionHwm + 1, commitHwm + 1;
      if !alloc {
        return Rejected(ResourceExhausted);
      }
      o := Reserved(Commit(i, versionHwm, commitHwm, 0, now, Deadline(cfg, now)));
    }

    /** The append of a reserved commit, then publication or the in-doubt latch. */
    method FinishCommit(log: QueueLog, c: Commit, digest: Digest, data: Bytes, fate: Fate)
      returns (status: Status, receipt: Option<Receipt>)
      requires Valid() && digest == IntentDigest(c.intent)
      requires data == CommitFrame(c).data
      modifies this, log
      ensures Valid()
      ensures Result(View(), log.View(), status, receipt, false) == Finish(old(View()), old(log.View()), c, fate)
    {
      hide IntentDigest, StatePayload, CompletionPayload, StateBytes, ReceiptBytes, ApplyCommit, Append;
      var ok := false;
      if attached {
        var f := match CommitRecord(c) {
          case StateRecord(v, k, _) => Frame(OP_STATE, STATE_NAME, v, k, data)
          case CompletionRecord(q, m, k, _) => Frame(OP_COMPLETION, q, m, k, data)
        };
        ok := log.AppendSync(f, fate);
      }
      if ok {
        Publish(c, digest);
        var i := c.intent;
        receipt := Some(Receipt(i.kind, i.opId, digest, c.commitId, c.version, i.InQueue(), i.InMessage(), i.OutQueue(),
                                if i.output.Some? then c.outMessage else 0, c.completedAt, c.expiresAt));
        status := Ok;
      } else {
        failed, inDoubt := true, Some(c.intent.opId);
        status, receipt := OperationInDoubt, None;
      }
    }

    /** A version-checked put or delete: acknowledged anew, it was of a new id at the version it names, and the key
        then has the value, or is gone, under the next version. */
    method Mutate(log: QueueLog, r: DirectRequest, now: u64, alloc: bool, fate: Fate)
      returns (status: Status, receipt: Option<Receipt>, replayed: bool)
      requires Valid()
      modifies this, log
      ensures Valid()
      ensures Result(View(), log.View(), status, receipt, replayed)
           == Direct(old(View()), old(log.View()), r, now, alloc, fate)
      ensures status == Ok && !replayed ==> r.opId !in old(receipts) && !old(failed)
      ensures status == Ok && !replayed && r.put && r.expected == 0 ==> r.key !in old(state)
      ensures status == Ok && !replayed && !(r.put && r.expected == 0) ==>
        r.key in old(state) && old(state)[r.key].version == r.expected
      ensures status == Ok && !replayed ==>
        && versionHwm == old(versionHwm) + 1 && commitHwm == old(commitHwm) + 1
        && state == if r.put then old(state)[r.key := Entry(r.value, versionHwm, commitHwm)] else old(state) - {r.key}
    {
      hide Direct;
      ghost var was, logged := View(), log.View();
      status, receipt, replayed := RunMutation(log, r, now, alloc, fate);
      if status == Ok && !replayed {
        DirectAnew(was, logged, r, now, alloc, fate);
      }
    }

    /** From validation through the append to the durable receipt. */
    method RunMutation(log: QueueLog, r: DirectRequest, now: u64, alloc: bool, fate: Fate)
      returns (status: Status, receipt: Option<Receipt>, replayed: bool)
      requires Valid()
      modifies this, log
      ensures Valid()
      ensures Result(View(), log.View(), status, receipt, replayed)
           == Direct(old(View()), old(log.View()), r, now, alloc, fate)
    {
      hide AdmitDirect, Finish, StatePayload, IntentDigest, StateBytes, ReceiptBytes;
      var v := ValidateDirect(cfg, r);
      if v != Ok {
        return v, None, false;
      }
      var i := DirectIntent(if storeId.Some? then storeId.value else ZERO_ID, r);
      var digest := CanonicalDigest(i);
      var o := Admit(r, i, digest, now, alloc);
      match o
      case Rejected(s) => return s, None, false;
      case Matched(x) => return Ok, Some(x), true;
      case Reserved(c) =>
        var data := EncodeState(StateBody(i.kind, i.opId, i.expected, i.key, i.value, c.completedAt, c.expiresAt));
        assert c.intent == i by { AdmittedIntent(old(View()), r, now, alloc); }
        status, receipt := FinishCommit(log, c, digest, data, fate);
        replayed := false;
    }

    // ---- completions ----

    method LookUpCompletion(r: CompletionRequest, i: Intent, digest: Digest) returns (known: Option<Outcome>)
      requires i == CompletionIntent(StoreIdOf(Memory()), r) && digest == IntentDigest(i)
      ensures known == LookUp(View(), r)
    {
      hide Ledger, IntentDigest;
      var v := Validate(r);
      if v != Ok {
        return Some(Rejected(v));
      }
      known := LookReceipt(i, digest);
      if known.Some? {
        return;
      }
      if inDoubt == Some(r.opId) {
        return Some(Rejected(OperationInDoubt));
      }
      if failed {
        return Some(Rejected(PersistenceUnavailable));
      }
    }

    method Validate(r: CompletionRequest) returns (v: Status)
      ensures v == ValidateCompletion(View(), r)
    {
      if |r.input.queue| == 0 || |r.input.queue| > NAME_MAX || r.input.incarnation == 0 || r.input.message == 0
         || |r.key| == 0 || r.opId == ZERO_ID
         || (r.output.Some? && (|r.output.value.queue| == 0 || |r.output.value.queue| > NAME_MAX
                                || r.output.value.incarnation == 0)) {
        return ValidationFailed;
      }
      if !attached {
        return UnsupportedFeature;
      }
      if storeId.None? {
        return PersistenceUnavailable;
      }
      v := if Aggregate(r) > cfg.maxOpBytes then RequestTooLarge else Ok;
    }

    /** Is the registered proof this delivery's, of this process? */
    method OwnsDelivery(r: CompletionRequest) returns (owns: bool)
      ensures owns == ProofMatches(View(), r)
    {
      if r.proof !in proofs {
        return false;
      }
      var p := proofs[r.proof];
      owns := p.epoch == epoch && p.queue == r.input.queue && p.incarnation == r.input.incarnation
              && p.message == r.input.message;
    }

    method DecideCompletion(r: CompletionRequest, i: Intent, outMessage: u64, env: Env) returns (o: Outcome)
      requires Valid() && i == CompletionIntent(StoreIdOf(Memory()), r)
      modifies this
      ensures Valid() && (View(), o) == Prepare(old(View()), r, outMessage, env)
    {
      hide Collected, ReceiptRoom, StateRoom, StateBytes, ReceiptBytes, RoomMade, ProofMatches;
      if versionHwm == UINT64_MAX || commitHwm == UINT64_MAX {
        failed := true;
        return Rejected(PersistenceUnavailable);
      }
      if !VersionMatches(state, r.key, r.expected) {
        return Rejected(StateVersionConflict);
      }
      var fits := FitsState(r.key, r.value);
      if !fits {
        return Rejected(ResourceExhausted);
      }
      var room := MakeRoom(|r.input.queue|, OutLength(r), env.gcNow);
      if !room {
        return Rejected(ResourceExhausted);
      }
      var owns := OwnsDelivery(r);
      if !owns {
        return Rejected(DeliveryNotOwned);
      }
      if ExpiresAt(r) <= env.mono {
        return Rejected(DeliveryExpired);
      }
      versionHwm, commitHwm := versionHwm + 1, commitHwm + 1;
      if !env.alloc {
        return Rejected(ResourceExhausted);
      }
      o := Reserved(Commit(i, versionHwm, commitHwm, if r.output.Some? then outMessage else 0, env.now,
                           Deadline(cfg, env.now)));
    }

    /** Version, budgets, proof and reservation under the state lock: nothing is reserved without a proof of this very
        delivery. */
    method PrepareCompletion(r: CompletionRequest, i: Intent, outMessage: u64, env: Env) returns (o: Outcome)
      requires Valid() && i == CompletionIntent(StoreIdOf(Memory()), r)
      modifies this
      ensures Valid() && (View(), o) == Prepare(old(View()), r, outMessage, env)
      ensures o.Reserved? ==>
        && r.proof in old(proofs) && env.mono < old(proofs)[r.proof].expiresMono
        && old(proofs)[r.proof].epoch == epoch && old(proofs)[r.proof].queue == r.input.queue
        && old(proofs)[r.proof].incarnation == r.input.incarnation && old(proofs)[r.proof].message == r.input.message
    {
      hide Prepare;
      UnboundIsNotReserved(View(), r, outMessage, env);
      o := DecideCompletion(r, i, outMessage, env);
    }

    function ExpiresAt(r: CompletionRequest): u64
      requires ProofMatches(View(), r)
      reads this
    {
      proofs[r.proof].expiresMono
    }

    /** A completion from validation to the retired proof, with nothing interleaved. */
    method RunCompletion(log: QueueLog, r: CompletionRequest, queue: Option<Status>, outMessage: u64, env: Env,
                         fate: Fate)
      returns (status: Status, receipt: Option<Receipt>, replayed: bool)
      requires Valid()
      modifies this, log
      ensures Valid()
      ensures Result(View(), log.View(), status, receipt, replayed)
           == Complete(old(View()), old(log.View()), r, queue, outMessage, env, fate)
    {
      hide LookUp, Prepare, Finish, IntentDigest, CompletionPayload, StateBytes, ReceiptBytes, ProofMatches,
        Explained;
      replayed := false;
      var i := CompletionIntent(if storeId.Some? then storeId.value else ZERO_ID, r);
      var digest := CanonicalDigest(i);
      var known := LookUpCompletion(r, i, digest);
      if known.Some? {
        NeverReserved(View(), r);
        match known.value
        case Matched(x) => return Ok, Some(x), true;
        case Rejected(s) => return s, None, false;
      }
      if !(r.proof in proofs && proofs[r.proof].queue == r.input.queue
           && proofs[r.proof].incarnation == r.input.incarnation && proofs[r.proof].message == r.input.message
           && proofs[r.proof].tag != 0 && proofs[r.proof].owner != 0) {
        return DeliveryNotOwned, None, false;
      }
      if queue.Some? {
        status := Explain(r, env.mono, queue.value);
        return status, None, false;
      }
      var o := PrepareCompletion(r, i, outMessage, env);
      match o
      case Rejected(s) =>
        status := Explain(r, env.mono, s);
        return status, None, false;
      case Matched(x) => return Ok, Some(x), true;
      case Reserved(c) =>
        PreparedIntent(old(View()), r, outMessage, env);
        var CompletionRecord(_, _, _, b) := CommitRecord(c);
        var data := EncodeCompletion(b, CompletionLength(b));
        status, receipt := FinishCommit(log, c, digest, data.value, fate);
        if status == Ok {
          proofs := proofs - {r.proof};
        }
    }

    /** A completion is acknowledged anew only with a proof of this very delivery, which is then retired; without one
        that names it, it is turned away and nothing is written. */
    method CompleteJob(log: QueueLog, r: CompletionRequest, queue: Option<Status>, outMessage: u64, env: Env,
                       fate: Fate)
      returns (status: Status, receipt: Option<Receipt>, replayed: bool)
      requires Valid()
      modifies this, log
      ensures Valid()
      ensures Result(View(), log.View(), status, receipt, replayed)
           == Complete(old(View()), old(log.View()), r, queue, outMessage, env, fate)
      ensures status == Ok && !replayed && queue != Some(Ok) ==>
        && r.proof in old(proofs) && env.mono < old(proofs)[r.proof].expiresMono && r.proof !in proofs
        && old(proofs)[r.proof].epoch == epoch && old(proofs)[r.proof].queue == r.input.queue
        && old(proofs)[r.proof].incarnation == r.input.incarnation && old(proofs)[r.proof].message == r.input.message
      ensures old(LookUp(View(), r).None? && !Names(proofs, r)) ==>
        status == DeliveryNotOwned && View() == old(View()) && log.View() == old(log.View())
    {
      hide Complete, LookUp, Names;
      CompletionOutcome(View(), log.View(), r, queue, outMessage, env, fate);
      status, receipt, replayed := RunCompletion(log, r, queue, outMessage, env, fate);
    }

    method Explain(r: CompletionRequest, mono: u64, status: Status) returns (s: Status)
      ensures s == Explained(View(), r, mono, status)
    {
      hide ProofMatches;
      s := status;
      if status == DeliveryNotOwned {
        var owns := OwnsDelivery(r);
        if owns && ExpiresAt(r) <= mono {
          s := DeliveryExpired;
        }
      }
    }

    // ---- replay hooks ----

    method RaiseMarks(version: u64, commitId: u64)
      modifies this`versionHwm, this`commitHwm
      ensures Memory() == RaiseHwm(old(Memory()), version, commitId)
    {
      if version > versionHwm {
        versionHwm := version;
      }
      if commitId > commitHwm {
        commitHwm := commitId;
      }
    }

    /** First commit wins; a repetition with other content is refused. */
    method RestoreReceipt(r: Receipt) returns (ok: bool)
      requires Valid()
      modifies this`receipts, this`receiptCount, this`receiptBytes
      ensures Valid()
      ensures ok == InsertReceipt(old(receipts), r).Some?
      ensures ok ==> receipts == InsertReceipt(old(receipts), r).value
    {
      if r.opId in receipts {
        var first := receipts[r.opId];
        return first.commitId == r.commitId && first.version == r.version && first.digest == r.digest;
      }
      LinkReceipt(r);
      ok := true;
    }

    method ReplayState(version: u64, commitId: u64, b: StateBody) returns (ok: bool)
      requires Valid()
      modifies this`state, this`stateBytes, this`versionHwm, this`commitHwm, this`receipts, this`receiptCount,
        this`receiptBytes
      ensures Valid()
      ensures ok == HookState(old(Memory()), version, commitId, b).Some?
      ensures ok ==> Memory() == HookState(old(Memory()), version, commitId, b).value
    {
      hide IntentDigest, InsertReceipt, StateBytes, ReceiptBytes;
      var put := b.kind == KIND_PUT;
      var digest := CanonicalDigest(
        Intent(if put then KIND_PUT else KIND_DELETE, b.opId, if storeId.Some? then storeId.value else ZERO_ID, None,
               b.key, b.expected, if put then b.value else [], None));
      if put {
        PutEntry(b.key, Entry(b.value, version, commitId));
      } else {
        DeleteEntry(b.key);
      }
      RaiseMarks(version, commitId);
      ok := true;
      if b.expiresAt != 0 {
        ok := RestoreReceipt(
          Receipt(b.kind, b.opId, digest, commitId, version, [], 0, [], 0, b.completedAt, b.expiresAt));
      }
    }

    method ReplayCompletion(q: Short, m: u64, commitId: u64, b: CompletionBody) returns (ok: bool)
      requires Valid()
      modifies this`state, this`stateBytes, this`versionHwm, this`commitHwm, this`receipts, this`receiptCount,
        this`receiptBytes
      ensures Valid()
      ensures ok == HookCompletion(old(Memory()), q, m, commitId, b).Some?
      ensures ok ==> Memory() == HookCompletion(old(Memory()), q, m, commitId, b).value
    {
      hide IntentDigest, InsertReceipt, StateBytes, ReceiptBytes;
      var output :=
        if b.output.None? then None
        else Some(OutputRef(b.output.value.queue, b.output.value.incarnation, b.output.value.value));
      var digest := CanonicalDigest(
        Intent(KIND_COMPLETION, b.opId, if storeId.Some? then storeId.value else ZERO_ID,
               Some(InputRef(q, b.inIncarnation, m)), b.key, b.expected, b.value, output));
      PutEntry(b.key, Entry(b.value, b.version, commitId));
      RaiseMarks(b.version, commitId);
      ok := RestoreReceipt(Receipt(KIND_COMPLETION, b.opId, digest, commitId, b.version, q, m, b.OutQueue(),
                                   b.OutMessage(), b.completedAt, b.expiresAt));
    }

    method ReplayRecord(r: Record) returns (ok: bool)
      requires Valid()
      modifies this`storeId, this`state, this`stateBytes, this`versionHwm, this`commitHwm, this`receipts,
        this`receiptCount, this`receiptBytes
      ensures Valid()
      ensures ok == Apply(old(Memory()), r).Some?
      ensures ok ==> Memory() == Apply(old(Memory()), r).value
    {
      hide HookState, HookCompletion, InsertReceipt, StateBytes, ReceiptBytes;
      match r
      case StateRecord(version, commitId, b) => ok := ReplayState(version, commitId, b);
      case CompletionRecord(q, m, commitId, b) => ok := ReplayCompletion(q, m, commitId, b);
      case ReceiptRecord(x) =>
        RaiseMarks(x.version, x.commitId);
        ok := RestoreReceipt(x);
      case MetaRecord(m) =>
        if storeId.None? {
          storeId := Some(m.storeId);
        }
        RaiseMarks(m.versionHwm, m.commitHwm);
        ok := true;
    }

    /** Rebuilds a fresh engine from a log, record by record, or refuses to open. */
    method Open(frames: seq<Frame>) returns (ok: bool)
      requires Valid() && Memory() == EMPTY
      modifies this`storeId, this`state, this`stateBytes, this`versionHwm, this`commitHwm, this`receipts,
        this`receiptCount, this`receiptBytes
      ensures Valid()
      ensures ok == OpenLog(frames).Some?
      ensures ok ==> Memory() == OpenLog(frames).value
    {
      hide Apply, Decode, StateBytes, ReceiptBytes, Replay, Sized, Intact;
      ReplayNothing();
      assert frames[..0] == [];
      for n := 0 to |frames|
        invariant Valid() && Replay(frames[..n]) == Some(Memory()) && (n > 0 ==> Sized(frames[n - 1]))
      {
        ReplayNext(frames, n);
        if !Sized(frames[n]) {
          var m := HoldsRecord(frames, n);
          if m < |frames| {
            CorruptRefuses(frames, n, m);
            return false;
          }
          IntactIs(frames, n);
          return true;
        }
        var r := Decode(frames[n]);
        ok := false;
        if r.Some? {
          ok := ReplayRecord(r.value);
        }
        if !ok {
          RefusesOpen(frames, n, n);
          return;
        }
      }
      assert frames[..|frames|] == frames;
      IntactIs(frames, |frames|);
      ok := true;
    }

    /** Whether an intact record follows a corrupt one, and where. */
    method HoldsRecord(frames: seq<Frame>, from: nat) returns (m: nat)
      requires from < |frames| && !Sized(frames[from])
      ensures from < m <= |frames| && (m < |frames| ==> Sized(frames[m]))
      ensures forall j :: from <= j < m ==> !Sized(frames[j])
    {
      hide Sized;
      m := from + 1;
      while m < |frames| && !Sized(frames[m])
        invariant from < m <= |frames| && forall j :: from <= j < m ==> !Sized(frames[j])
      {
        m := m + 1;
      }
    }

    // ---- checkpoint emission ----

    /** Emits identity, every entry and every unexpired receipt, in whatever order the indexes are walked. */
    method EmitCheckpoint(now: nat, nextMessage: u64, nextIncarnation: u64) returns (frames: seq<Frame>, cut: Cut)
      requires Valid()
      ensures cut.now == now && cut.nextMessage == nextMessage && cut.nextIncarnation == nextIncarnation
      ensures WalksAll(Memory(), cut)
      ensures frames == CheckpointFrames(Memory(), cut)
    {
      hide StateBytes, ReceiptBytes, StatePayload, ReceiptPayload, MetaPayload;
      frames := [];
      if storeId.Some? {
        frames := [Encode(MetaRecord(Meta(storeId.value, nextMessage, nextIncarnation, versionHwm, commitHwm)))];
      }
      var keys, states := EmitStates();
      var ops, kept := EmitReceipts(now);
      frames := frames + states + kept;
      cut := Cut(now, nextMessage, nextIncarnation, keys, ops);
    }

    method EmitStates() returns (keys: seq<Short>, frames: seq<Frame>)
      ensures Enumerates(keys, state.Keys)
      ensures frames == StateFrames(state, keys)
    {
      hide StatePayload;
      keys, frames := [], [];
      var left := state.Keys;
      while left != {}
        invariant left <= state.Keys
        invariant forall k :: k in keys <==> k in state.Keys && k !in left
        invariant Distinct(keys)
        invariant frames == StateFrames(state, keys)
        decreases left
      {
        var k :| k in left;
        var data := EncodeState(StateBody(KIND_PUT, ZERO_ID, 0, k, state[k].value, 0, 0));
        frames := frames + [Frame(OP_STATE, STATE_NAME, state[k].version, state[k].commitId, data)];
        assert (keys + [k])[..|keys|] == keys;
        keys := keys + [k];
        left := left - {k};
      }
    }

    method EmitReceipts(now: nat) returns (ops: seq<Id>, frames: seq<Frame>)
      ensures Enumerates(ops, receipts.Keys)
      ensures frames == ReceiptFrames(receipts, ops, now)
    {
      hide ReceiptPayload;
      ops, frames := [], [];
      var left := receipts.Keys;
      while left != {}
        invariant left <= receipts.Keys
        invariant forall op :: op in ops <==> op in receipts.Keys && op !in left
        invariant Distinct(ops)
        invariant frames == ReceiptFrames(receipts, ops, now)
        decreases left
      {
        var op :| op in left;
        var r := receipts[op];
        if !Expired(r, now) {
          var data := EncodeReceipt(r);
          frames := frames + [Frame(OP_RECEIPT, RECEIPT_NAME, r.commitId, r.version, data)];
        }
        assert (ops + [op])[..|ops|] == ops;
        ops := ops + [op];
        left := left - {op};
      }
    }
  }

  /** The receipts left after sweeping bucket `b`. */
  function BucketSwept(rs: map<Id, Receipt>, b: nat, now: nat): map<Id, Receipt> {
    map op | op in rs && !(ReceiptBucket(op) == b && Expired(rs[op], now)) :: rs[op]
  }

  function CursorAt(from: nat, i: nat): nat {
    (from + i) % RECEIPT_BUCKETS
  }

  lemma CursorStarts(from: nat)
    requires from < RECEIPT_BUCKETS
    ensures CursorAt(from, 0) == from && CursorAt(from, GC_BUDGET) == (from + GC_BUDGET) % RECEIPT_BUCKETS
  {
  }

  lemma CursorMoves(from: nat, i: nat)
    ensures CursorAt(from, i) < RECEIPT_BUCKETS
    ensures (CursorAt(from, i) + 1) % RECEIPT_BUCKETS == CursorAt(from, i + 1) < RECEIPT_BUCKETS
  {
  }

  lemma NothingSwept(rs: map<Id, Receipt>, cursor: nat, now: nat)
    ensures Swept(rs, cursor, 0, now) == rs
  {
    hide ReceiptBucket;
  }

  lemma SweptStep(rs: map<Id, Receipt>, cursor: nat, i: nat, now: nat)
    requires cursor < RECEIPT_BUCKETS && i < RECEIPT_BUCKETS
    ensures Swept(rs, cursor, i + 1, now)
         == BucketSwept(Swept(rs, cursor, i, now), CursorAt(cursor, i), now)
  {
    hide ReceiptBucket, Visited;
    forall op | op in rs
      ensures Visited(ReceiptBucket(op), cursor, i + 1)
         <==> Visited(ReceiptBucket(op), cursor, i) || ReceiptBucket(op) == (cursor + i) % RECEIPT_BUCKETS
    {
      VisitedStep(ReceiptBucket(op), cursor, i);
    }
  }

  lemma VisitedStep(b: nat, cursor: nat, i: nat)
    requires b < RECEIPT_BUCKETS && cursor < RECEIPT_BUCKETS && i < RECEIPT_BUCKETS
    ensures Visited(b, cursor, i + 1) <==> Visited(b, cursor, i) || b == (cursor + i) % RECEIPT_BUCKETS
  {
  }

  lemma AdmittedIntent(e: Engine, r: DirectRequest, now: u64, alloc: bool)
    requires AdmitDirect(e, r, now, alloc).1.Reserved?
    ensures AdmitDirect(e, r, now, alloc).1.commit.intent == DirectIntent(StoreIdOf(e.img), r)
  {
    hide VersionMatches, StateRoom, ReceiptRoom, RoomMade, IntentDigest;
  }

  lemma PreparedIntent(e: Engine, r: CompletionRequest, outMessage: u64, env: Env)
    requires Prepare(e, r, outMessage, env).1.Reserved?
    ensures Prepare(e, r, outMessage, env).1.commit.intent == CompletionIntent(StoreIdOf(e.img), r)
  {
    hide VersionMatches, StateRoom, ReceiptRoom, RoomMade, ProofMatches;
  }

  lemma NeverReserved(e: Engine, r: CompletionRequest)
    ensures LookUp(e, r).Some? ==> !LookUp(e, r).value.Reserved?
  {
    hide IntentDigest, ValidateCompletion;
  }

  lemma ReplayNothing()
    ensures Replay([]) == Some(EMPTY)
  {
  }

  lemma ReplayNext(frames: seq<Frame>, n: nat)
    requires n < |frames|
    ensures Replay(frames[..n + 1]) == ReplayFrame(Replay(frames[..n]), frames[n])
  {
    hide ReplayFrame;
    assert frames[..n + 1][..n] == frames[..n];
  }

  /** A log refused at a record before an intact one is not opened. */
  lemma RefusesOpen(frames: seq<Frame>, n: nat, m: nat)
    requires n <= m < |frames| && Sized(frames[m]) && Replay(frames[..n + 1]).None?
    ensures OpenLog(frames).None?
  {
    hide Replay, Sized, Intact;
    IntactBeyond(frames, m);
    var kept := Intact(frames);
    assert kept[..n + 1] == frames[..n + 1];
    StaysRefused(kept, n + 1);
  }

  lemma CorruptRefuses(frames: seq<Frame>, n: nat, m: nat)
    requires n < m < |frames| && !Sized(frames[n]) && Sized(frames[m])
    ensures OpenLog(frames).None?
  {
    hide Replay, Intact, OpenLog;
    ReplayNext(frames, n);
    assert Decode(frames[n]).None?;
    RefusesOpen(frames, n, m);
  }

  /** The proof is registered for the queue, incarnation and message the request completes. */
  ghost predicate Names(proofs: map<Id, Proof>, r: CompletionRequest) {
    && r.proof in proofs && proofs[r.proof].queue == r.input.queue
    && proofs[r.proof].incarnation == r.input.incarnation && proofs[r.proof].message == r.input.message
  }

  lemma CompletionOutcome(e: Engine, log: Log, r: CompletionRequest, queue: Option<Status>, outMessage: u64, env: Env,
                          fate: Fate)
    ensures var d := Complete(e, log, r, queue, outMessage, env, fate);
      d.status == Ok && !d.replayed && queue != Some(Ok) ==>
        && r.proof in e.proofs && env.mono < e.proofs[r.proof].expiresMono && r.proof !in d.e.proofs
        && e.proofs[r.proof].epoch == e.epoch && e.proofs[r.proof].queue == r.input.queue
        && e.proofs[r.proof].incarnation == r.input.incarnation && e.proofs[r.proof].message == r.input.message
    ensures LookUp(e, r).None? && !Names(e.proofs, r) ==>
      Complete(e, log, r, queue, outMessage, env, fate) == Result(e, log, DeliveryNotOwned, None, false)
  {
    hide Complete, LookUp;
    if queue != Some(Ok) {
      AcknowledgedIsOwned(e, log, r, queue, outMessage, env, fate);
    }
    if LookUp(e, r).None? && !Names(e.proofs, r) {
      ForeignDelivery(e, log, r, queue, outMessage, env, fate);
    }
  }

  /** A refused record refuses the whole log. */
  lemma {:induction false} StaysRefused(frames: seq<Frame>, n: nat)
    requires n <= |frames| && Replay(frames[..n]).None?
    ensures Replay(frames).None?
  {
    hide ReplayFrame;
    ReplayConcat(Some(EMPTY), frames[..n], frames[n..]);
    assert frames[..n] + frames[n..] == frames;
    ReplayNone(frames[n..]);
  }
}
