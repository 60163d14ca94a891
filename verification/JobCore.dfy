/** The engine's memory against its log and its committed history, and what every step of every run keeps. */
module JobCore {
  import opened Bytes
  import opened JobIntent
  import opened JobRecord
  import opened JobImage
  import opened JobCheckpoint
  import opened JobHistory
  import opened JobAdmission

  /** Memory and log, beside the history they are judged against. `hist` holds every commit whose
      record is on the log, `applied` of which memory shows; `linked` are the commits whose receipt
      entered the ledger; `clock` bounds every time a receipt was collected or cut at. A checkpoint that
      was cut but not published is `pending`, and `cutAt` is how much of the history it stands for. */
  datatype Core = Core(
    img: Image,
    up: bool,
    log: Log,
    base: Base,
    from: nat,
    hist: seq<Commit>,
    applied: nat,
    linked: set<nat>,
    clock: nat,
    pending: Option<Base>,
    cutAt: nat)

  // ---- the invariant ----

  /** The log is its base followed by exactly the commits since, in order. */
  ghost predicate LogOk(c: Core) {
    && c.from <= c.applied <= |c.hist| <= c.applied + 1
    && (c.applied < |c.hist| ==> c.up && c.log.failed)
    && BaseOk(c.base)
    && c.log.frames == BaseFrames(c.base) + TailFrames(c.hist[c.from..])
    && Follows(BaseImage(c.base), c.hist[c.from..])
  }

  /** Versions grow along the whole history and the base accounts for the part it replaced. */
  ghost predicate HistoryOk(c: Core) {
    && Ascending(c.hist)
    && (forall i :: 0 <= i < |c.hist| ==> CommitOk(c.hist[i]))
    && (forall i :: 0 <= i < c.from && i < |c.hist| ==>
          && c.hist[i].version <= BaseImage(c.base).versionHwm
          && c.hist[i].commitId <= BaseImage(c.base).commitHwm)
  }

  /** Memory is fit to be checkpointed and never numbers below what was committed. */
  ghost predicate MemoryOk(c: Core) {
    && c.applied <= |c.hist|
    && (c.up ==>
          && ImageOk(c.img)
          && (forall i :: 0 <= i < |c.hist| ==>
                c.hist[i].version <= c.img.versionHwm && c.hist[i].commitId <= c.img.commitHwm)
          && BaseImage(c.base).versionHwm <= c.img.versionHwm
          && BaseImage(c.base).commitHwm <= c.img.commitHwm
          && (c.img.storeId.Some? ==> BaseImage(c.base).storeId == c.img.storeId))
  }

  /** No linked receipt disappears before its deadline. */
  ghost predicate Retained(rs: map<Id, Receipt>, hist: seq<Commit>, n: nat, linked: set<nat>, clock: nat) {
    n <= |hist| && forall i :: i in linked && i < n && hist[i].expiresAt > clock ==>
      hist[i].OpId() in rs && rs[hist[i].OpId()] == CommitReceipt(hist[i])
  }

  ghost predicate ReceiptsOk(c: Core) {
    && (forall i :: i in c.linked ==> i < |c.hist|)
    && Retained(BaseImage(c.base).receipts, c.hist, c.from, c.linked, c.clock)
    && (c.up ==> Retained(c.img.receipts, c.hist, c.applied, c.linked, c.clock))
  }

  /** A checkpoint that was cut but not yet published accounts for the history applied when it was cut. */
  ghost predicate PendingOk(c: Core) {
    c.pending.Some? ==>
      var b := c.pending.value;
      && c.up && b.Checkpointed? && BaseOk(b) && c.from <= c.cutAt <= c.applied <= |c.hist|
      && b.img.storeId == c.img.storeId
      && b.img.versionHwm <= c.img.versionHwm && b.img.commitHwm <= c.img.commitHwm
      && (forall i :: 0 <= i < c.cutAt ==>
            c.hist[i].version <= b.img.versionHwm && c.hist[i].commitId <= b.img.commitHwm)
      && (forall i :: c.cutAt <= i < c.applied ==>
            b.img.versionHwm < c.hist[i].version && b.img.commitHwm < c.hist[i].commitId)
      && Retained(BaseImage(b).receipts, c.hist, c.cutAt, c.linked, c.clock)
  }

  ghost predicate CoreOk(c: Core) {
    LogOk(c) && HistoryOk(c) && MemoryOk(c) && ReceiptsOk(c) && PendingOk(c)
  }

  // ---- recovery ----

  /** Exactly when a store opens on this log. */
  ghost predicate Opens(c: Core) {
    c.from <= |c.hist| && BaseOpens(c.base) && NoReuse(BaseImage(c.base).receipts, c.hist[c.from..])
  }

  /** What opening the store recovers. */
  function Recovered(c: Core): Image
    requires c.from <= |c.hist|
  {
    TailImage(BaseImage(c.base), c.hist[c.from..])
  }

  /** Crash recovery: replaying the log yields what its base and the commits since amount to, or refuses to
      open; it opens if and only if the last checkpoint carried completion receipts only and no operation id is
      used twice on the log. A base that stands for the history it replaced recovers the whole of it. */
  lemma Recovery(c: Core)
    requires LogOk(c)
    ensures Replay(c.log.frames) == if Opens(c) then Some(Recovered(c)) else None
    ensures BaseImage(c.base).state == Fold(c.hist[..c.from]) ==> Recovered(c).state == Fold(c.hist)
  {
    hide BaseFrames, TailFrames, BaseImage, NoReuse, Follows, BaseOpens, TailImage, Fold;
    var b, tail := c.base, c.hist[c.from..];
    BaseReplay(b);
    ReplayConcat(Some(EMPTY), BaseFrames(b), TailFrames(tail));
    if BaseOpens(b) {
      TailReplay(BaseImage(b), tail);
    } else {
      ReplayNone(TailFrames(tail));
    }
    if BaseImage(b).state == Fold(c.hist[..c.from]) {
      TailState(BaseImage(b), c.hist[..c.from], tail);
      assert c.hist[..c.from] + tail == c.hist;
    }
  }

  // ---- steps that change no history ----

  /** Memory keeps its state and identity; marks may grow and expired receipts may go. */
  ghost predicate Softer(a: Image, b: Image, now: nat) {
    && b.state == a.state && b.storeId == a.storeId
    && a.versionHwm <= b.versionHwm && a.commitHwm <= b.commitHwm
    && (forall op :: op in b.receipts ==> op in a.receipts && b.receipts[op] == a.receipts[op])
    && (forall op :: op in a.receipts && op !in b.receipts ==> Expired(a.receipts[op], now))
  }

  function Later(clock: nat, now: nat): (t: nat)
    ensures t >= clock && t >= now
  {
    if clock < now then now else clock
  }

  lemma RetainedLater(rs: map<Id, Receipt>, hist: seq<Commit>, n: nat, linked: set<nat>, clock: nat, later: nat)
    requires Retained(rs, hist, n, linked, clock) && clock <= later
    ensures Retained(rs, hist, n, linked, later)
  {
    hide CommitReceipt;
  }

  lemma RetainedSofter(a: Image, b: Image, now: nat, hist: seq<Commit>, n: nat, linked: set<nat>, clock: nat)
    requires Softer(a, b, now) && Retained(a.receipts, hist, n, linked, clock)
    ensures Retained(b.receipts, hist, n, linked, Later(clock, now))
  {
    hide IntentDigest;
  }

  lemma SofterIsOk(a: Image, b: Image, now: nat)
    requires Softer(a, b, now) && ImageOk(a)
    ensures ImageOk(b)
  {
  }

  lemma SoftKeeps(c: Core, img: Image, now: nat)
    requires CoreOk(c) && c.up && Softer(c.img, img, now)
    ensures CoreOk(c.(img := img, clock := Later(c.clock, now)))
  {
    hide Retained, BaseImage, BaseFrames, TailFrames, Follows, Ascending, CommitOk, ImageOk;
    SofterIsOk(c.img, img, now);
    RetainedSofter(c.img, img, now, c.hist, c.applied, c.linked, c.clock);
    RetainedLater(BaseImage(c.base).receipts, c.hist, c.from, c.linked, c.clock, Later(c.clock, now));
    if c.pending.Some? {
      RetainedLater(BaseImage(c.pending.value).receipts, c.hist, c.cutAt, c.linked, c.clock, Later(c.clock, now));
    }
  }

  // ---- commits ----

  function PublishedImage(img: Image, k: Commit): Image {
    img.(state := ApplyCommit(img.state, k),
         receipts := if k.OpId() in img.receipts then img.receipts
                     else img.receipts[k.OpId() := CommitReceipt(k)])
  }

  function LinkedBy(c: Core, k: Commit): set<nat> {
    if k.OpId() in c.img.receipts then c.linked else c.linked + {|c.hist|}
  }

  /** One append and what follows: applied, in doubt with its record kept, or in doubt and lost. */
  function Committed(c: Core, k: Commit, fate: Fate): Core {
    match fate
    case Durable =>
      c.(log := Log(c.log.frames + [CommitFrame(k)], false), hist := c.hist + [k], applied := c.applied + 1,
         linked := LinkedBy(c, k), img := PublishedImage(c.img, k))
    case Kept =>
      c.(log := Log(c.log.frames + [CommitFrame(k)], true), hist := c.hist + [k], linked := LinkedBy(c, k))
    case Lost => c.(log := c.log.(failed := true))
  }

  /** A reservation numbers a commit above everything committed and within the high-water marks. */
  ghost predicate Numbered(c: Core, k: Commit) {
    && (forall i :: 0 <= i < |c.hist| ==> c.hist[i].version < k.version && c.hist[i].commitId < k.commitId)
    && BaseImage(c.base).versionHwm < k.version <= c.img.versionHwm
    && BaseImage(c.base).commitHwm < k.commitId <= c.img.commitHwm
    && (c.pending.Some? && c.pending.value.Checkpointed? ==> AboveCut(c.pending.value.img, k))
  }

  predicate AboveCut(img: Image, k: Commit) {
    img.versionHwm < k.version && img.commitHwm < k.commitId
  }

  ghost predicate Admissible(c: Core, k: Commit) {
    && CoreOk(c) && c.up && !c.log.failed
    && CommitOk(k) && c.img.storeId == Some(k.intent.storeId) && Numbered(c, k)
  }

  lemma LogGrows(c: Core, k: Commit, fate: Fate)
    requires Admissible(c, k) && fate != Lost
    ensures LogOk(Committed(c, k, fate)) && HistoryOk(Committed(c, k, fate))
  {
    hide BaseFrames, TailFrames, BaseImage, CommitFrame, CommitOk, CommitReceipt, ApplyCommit;
    var d := Committed(c, k, fate);
    var tail := c.hist[c.from..];
    assert d.hist[c.from..] == tail + [k];
    TailFramesSnoc(tail, k);
    assert d.log.frames == BaseFrames(c.base) + (TailFrames(tail) + [CommitFrame(k)]);
    assert forall i :: 0 <= i < |tail| ==> tail[i] == c.hist[c.from + i];
  }

  lemma RetainedGrows(rs: map<Id, Receipt>, hist: seq<Commit>, n: nat, linked: set<nat>, clock: nat, k: Commit,
                      more: set<nat>)
    requires Retained(rs, hist, n, linked, clock)
    requires more == linked || more == linked + {|hist|}
    ensures Retained(rs, hist + [k], n, more, clock)
  {
    hide CommitReceipt;
  }

  lemma LedgerGrows(c: Core, k: Commit)
    requires c.applied == |c.hist| && forall i :: i in c.linked ==> i < |c.hist|
    requires Retained(c.img.receipts, c.hist, c.applied, c.linked, c.clock)
    ensures var d := Committed(c, k, Durable); Retained(d.img.receipts, d.hist, d.applied, d.linked, d.clock)
  {
    hide CommitReceipt, ApplyCommit, CommitFrame;
    var d := Committed(c, k, Durable);
    forall i | i in d.linked && i < d.applied && d.hist[i].expiresAt > d.clock
      ensures d.hist[i].OpId() in d.img.receipts && d.img.receipts[d.hist[i].OpId()] == CommitReceipt(d.hist[i])
    {
      if i < |c.hist| {
        assert d.hist[i] == c.hist[i];
      }
    }
  }

  lemma PublishedIsOk(img: Image, k: Commit)
    requires ImageOk(img) && CommitOk(k) && k.version <= img.versionHwm && k.commitId <= img.commitHwm
    ensures ImageOk(PublishedImage(img, k))
  {
    hide IntentDigest;
  }

  /** What a pending checkpoint accounts for is not changed by a commit after its cut. */
  lemma PendingGrows(c: Core, k: Commit, d: Core)
    requires PendingOk(c) && (c.pending.Some? ==> AboveCut(c.pending.value.img, k))
    requires d.hist == c.hist + [k] && d.pending == c.pending && d.cutAt == c.cutAt && d.from == c.from
    requires d.applied == c.applied || (c.applied == |c.hist| && d.applied == |d.hist|)
    requires d.up == c.up && d.img.storeId == c.img.storeId
    requires d.img.versionHwm == c.img.versionHwm && d.img.commitHwm == c.img.commitHwm && d.clock == c.clock
    requires d.linked == c.linked || d.linked == c.linked + {|c.hist|}
    ensures PendingOk(d)
  {
    hide BaseImage, Retained;
    if c.pending.Some? {
      RetainedGrows(BaseImage(c.pending.value).receipts, c.hist, c.cutAt, c.linked, c.clock, k, d.linked);
    }
  }

  /** Whatever becomes of its record, an admitted commit keeps the whole invariant. */
  lemma CommitKeeps(c: Core, k: Commit, fate: Fate)
    requires Admissible(c, k)
    ensures CoreOk(Committed(c, k, fate))
  {
    hide BaseFrames, TailFrames, BaseImage, CommitFrame, CommitOk, CommitReceipt, Retained, Follows, ApplyCommit,
      Ascending, ImageOk;
    var d := Committed(c, k, fate);
    if fate != Lost {
      LogGrows(c, k, fate);
      RetainedGrows(BaseImage(c.base).receipts, c.hist, c.from, c.linked, c.clock, k, d.linked);
      PendingGrows(c, k, d);
      if fate == Durable {
        PublishedIsOk(c.img, k);
        LedgerGrows(c, k);
      } else {
        RetainedGrows(c.img.receipts, c.hist, c.applied, c.linked, c.clock, k, d.linked);
      }
    }
  }

  // ---- identity, checkpoints, crashes and restarts ----

  /** First use writes the store's identity before any other record. */
  function Attached(c: Core, m: Meta, fate: Fate): Core {
    match fate
    case Durable =>
      c.(log := Log(c.log.frames + [Encode(MetaRecord(m))], false), base := Fresh(m),
         img := c.img.(storeId := Some(m.storeId)))
    case Kept => c.(log := Log(c.log.frames + [Encode(MetaRecord(m))], true), base := Fresh(m))
    case Lost => c.(log := c.log.(failed := true))
  }

  lemma AttachKeeps(c: Core, m: Meta, fate: Fate)
    requires CoreOk(c) && c.up && !c.log.failed && c.base == Virgin && c.hist == [] && c.pending.None?
    requires m.versionHwm == c.img.versionHwm && m.commitHwm == c.img.commitHwm
    ensures CoreOk(Attached(c, m, fate))
  {
    hide Encode, CommitReceipt, CheckpointFrames, Ascending;
    var d := Attached(c, m, fate);
    assert c.hist[c.from..] == [];
  }

  function Below(s: set<nat>, n: nat): set<nat> {
    set i | i in s && i < n
  }

  /** A checkpoint takes effect: the log is now the cut, and every record written since is gone with the old log. */
  ghost function PublishedCut(c: Core): Core
    requires c.pending.Some? && BaseOk(c.pending.value) && c.cutAt <= |c.hist|
  {
    c.(base := c.pending.value, from := c.cutAt, hist := c.hist[..c.cutAt], applied := c.cutAt,
       linked := Below(c.linked, c.cutAt),
       log := c.log.(frames := BaseFrames(c.pending.value)), pending := None)
  }

  lemma RetainedShrinks(rs: map<Id, Receipt>, hist: seq<Commit>, n: nat, m: nat, linked: set<nat>, clock: nat)
    requires Retained(rs, hist, n, linked, clock) && m <= n
    ensures Retained(rs, hist[..m], m, Below(linked, m), clock)
  {
    hide CommitReceipt;
  }

  /** Publishing keeps the invariant even over commits made since the cut. */
  lemma PublishKeeps(c: Core)
    requires CoreOk(c) && c.pending.Some?
    ensures CoreOk(PublishedCut(c))
  {
    hide BaseFrames, CommitReceipt, CommitOk, Retained, ImageOk;
    var d := PublishedCut(c);
    var b := c.pending.value;
    assert d.hist[d.from..] == [];
    RetainedShrinks(BaseImage(b).receipts, c.hist, c.cutAt, c.cutAt, c.linked, c.clock);
    RetainedShrinks(c.img.receipts, c.hist, c.applied, c.cutAt, c.linked, c.clock);
    BaseBelow(b);
  }

  /** A checkpoint that fails after its cut leaves the log as it was. */
  function Abandoned(c: Core): Core {
    c.(pending := None)
  }

  lemma BaseBelow(b: Base)
    requires BaseOk(b)
    ensures forall op :: op in BaseImage(b).receipts ==> BaseImage(b).receipts[op].commitId <= BaseImage(b).commitHwm
  {
  }

  function Crashed(c: Core): Core {
    c.(up := false, applied := |c.hist|, pending := None)
  }

  lemma CrashKeeps(c: Core)
    requires CoreOk(c)
    ensures CoreOk(Crashed(c))
  {
    hide BaseFrames, TailFrames, BaseImage, CommitOk, Retained, Follows, Ascending, ImageOk;
  }

  predicate OnLog(c: Core, i: nat) {
    c.from <= i < |c.hist|
  }

  /** Replay enters the receipt of every commit on the log. */
  function Relinked(c: Core): set<nat> {
    c.linked + set i: nat | i < |c.hist| && OnLog(c, i)
  }

  function Restarted(c: Core): Core
    requires c.from <= |c.hist|
  {
    c.(up := true, img := Recovered(c), linked := Relinked(c), log := c.log.(failed := false))
  }

  lemma RecoveredCommit(c: Core, i: nat)
    requires c.from <= |c.hist| && NoReuse(BaseImage(c.base).receipts, c.hist[c.from..])
    requires Retained(BaseImage(c.base).receipts, c.hist, c.from, c.linked, c.clock)
    requires i in Relinked(c) && i < |c.hist| && c.hist[i].expiresAt > c.clock
    ensures c.hist[i].OpId() in Recovered(c).receipts
    ensures Recovered(c).receipts[c.hist[i].OpId()] == CommitReceipt(c.hist[i])
  {
    hide CommitReceipt, BaseImage, TailImage, NoReuse;
    var tail := c.hist[c.from..];
    TailReceipts(BaseImage(c.base), tail);
    if i >= c.from {
      assert tail[i - c.from] == c.hist[i];
    }
  }

  /** Every receipt that was linked and is unexpired comes back from the log unchanged. */
  lemma RecoveredLedger(c: Core)
    requires LogOk(c) && ReceiptsOk(c) && Opens(c)
    ensures Retained(Recovered(c).receipts, c.hist, |c.hist|, Relinked(c), c.clock)
  {
    hide LogOk, BaseImage, CommitReceipt, Recovered, Relinked, BaseOpens, NoReuse;
    forall i | i in Relinked(c) && i < |c.hist| && c.hist[i].expiresAt > c.clock
      ensures c.hist[i].OpId() in Recovered(c).receipts
      ensures Recovered(c).receipts[c.hist[i].OpId()] == CommitReceipt(c.hist[i])
    {
      RecoveredCommit(c, i);
    }
  }

  /** Nothing below the base is relinked. */
  lemma BaseRelinked(c: Core, rs: map<Id, Receipt>)
    requires Retained(rs, c.hist, c.from, c.linked, c.clock)
    ensures Retained(rs, c.hist, c.from, Relinked(c), c.clock)
  {
    hide CommitReceipt;
    assert forall i :: i in Relinked(c) && i < c.from ==> i in c.linked;
  }

  lemma BaseIsOk(b: Base)
    requires BaseOk(b)
    ensures ImageOk(BaseImage(b))
  {
  }

  /** Replay builds images fit to be checkpointed. */
  lemma {:induction false} TailIsOk(img: Image, h: seq<Commit>)
    requires ImageOk(img) && forall i :: 0 <= i < |h| ==> CommitOk(h[i])
    ensures ImageOk(TailImage(img, h))
  {
    hide CommitOk, ImageOk;
    if |h| > 0 {
      TailIsOk(img, h[..|h| - 1]);
      CommitIsOk(TailImage(img, h[..|h| - 1]), h[|h| - 1]);
    }
  }

  lemma CommitIsOk(img: Image, k: Commit)
    requires ImageOk(img) && CommitOk(k)
    ensures ImageOk(CommitImage(img, k))
  {
    hide IntentDigest;
  }

  lemma RecoveredMarks(c: Core)
    requires LogOk(c) && HistoryOk(c)
    ensures var r := Recovered(c);
      && r.storeId == BaseImage(c.base).storeId
      && BaseImage(c.base).versionHwm <= r.versionHwm && BaseImage(c.base).commitHwm <= r.commitHwm
      && forall i :: 0 <= i < |c.hist| ==> c.hist[i].version <= r.versionHwm && c.hist[i].commitId <= r.commitHwm
  {
    hide CommitOk, BaseImage, BaseFrames, TailFrames, TailImage, Fold;
    var tail := c.hist[c.from..];
    TailMarks(BaseImage(c.base), tail);
    if |tail| > 0 {
      assert tail[|tail| - 1] == c.hist[|c.hist| - 1];
      forall i | 0 <= i < |c.hist|
        ensures c.hist[i].version <= tail[|tail| - 1].version && c.hist[i].commitId <= tail[|tail| - 1].commitId
      {
      }
    }
  }

  lemma RestartKeeps(c: Core)
    requires CoreOk(c) && !c.up && Opens(c)
    ensures CoreOk(Restarted(c))
  {
    hide BaseFrames, TailFrames, BaseImage, CommitOk, Retained, Follows, Ascending, Opens, ImageOk, TailImage;
    RecoveredLedger(c);
    BaseRelinked(c, BaseImage(c.base).receipts);
    RecoveredMarks(c);
    BaseIsOk(c.base);
    TailIsOk(BaseImage(c.base), c.hist[c.from..]);
  }

  function CutAt(c: Core, cut: Cut): Core {
    c.(pending := Some(Checkpointed(c.img, cut)), cutAt := c.applied, clock := Later(c.clock, cut.now))
  }

  lemma CutKeeps(c: Core, cut: Cut)
    requires CoreOk(c) && c.up && c.img.storeId.Some? && WalksAll(c.img, cut)
    ensures CoreOk(CutAt(c, cut))
  {
    hide BaseFrames, TailFrames, CommitOk, Retained, Follows, Ascending, ImageOk;
    var live := c.img.(receipts := Live(c.img.receipts, cut.now));
    RetainedSofter(c.img, live, cut.now, c.hist, c.applied, c.linked, c.clock);
    RetainedLater(c.img.receipts, c.hist, c.applied, c.linked, c.clock, Later(c.clock, cut.now));
    RetainedLater(BaseImage(c.base).receipts, c.hist, c.from, c.linked, c.clock, Later(c.clock, cut.now));
  }
}
