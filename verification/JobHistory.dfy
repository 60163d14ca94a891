/** Committed history: the state it denotes, its versions, and how a log replays to it. */
module JobHistory {
  import opened Bytes
  import opened JobIntent
  import opened JobRecord
  import opened JobImage
  import opened JobCheckpoint

  /** The state map denoted by a sequence of commits. */
  function Fold(h: seq<Commit>): State {
    if |h| == 0 then map[] else ApplyCommit(Fold(h[..|h| - 1]), h[|h| - 1])
  }

  /** Versions and commit ids only grow. */
  ghost predicate Ascending(h: seq<Commit>) {
    forall i, j :: 0 <= i < j < |h| ==> h[i].version < h[j].version && h[i].commitId < h[j].commitId
  }

  /** An entry is the last commit that touched its key. */
  lemma {:induction false} FoldEntry(h: seq<Commit>, k: Short) returns (i: nat)
    requires k in Fold(h)
    ensures i < |h| && h[i].Key() == k
    ensures Fold(h)[k] == Entry(h[i].intent.value, h[i].version, h[i].commitId)
    ensures forall j :: i < j < |h| ==> h[j].Key() != k
  {
    var front := h[..|h| - 1];
    if h[|h| - 1].Key() == k {
      i := |h| - 1;
    } else {
      i := FoldEntry(front, k);
    }
  }

  lemma SameVersion(h: seq<Commit>, i: nat, j: nat)
    requires Ascending(h) && i < |h| && j < |h| && h[i].version == h[j].version
    ensures i == j
  {
  }

  /** No ABA: if a later history still shows the version read earlier, no commit touched the key in
      between and the entry is the one that was read. */
  lemma VersionPinsEntry(early: seq<Commit>, late: seq<Commit>, k: Short)
    requires early <= late && Ascending(late)
    requires k in Fold(early) && k in Fold(late) && Fold(early)[k].version == Fold(late)[k].version
    ensures Fold(late)[k] == Fold(early)[k]
    ensures forall j :: |early| <= j < |late| ==> late[j].Key() != k
  {
    var i := FoldEntry(early, k);
    var j := FoldEntry(late, k);
    assert early[i] == late[i];
    SameVersion(late, i, j);
  }

  // ---- the log as a base and a tail of commits ----

  /** What the log starts with: nothing, the identity written at first use, or a checkpoint. */
  datatype Base =
    | Virgin
    | Fresh(meta: Meta)
    | Checkpointed(img: Image, cut: Cut)

  ghost predicate BaseOk(b: Base) {
    match b
    case Virgin => true
    case Fresh(m) => true
    case Checkpointed(img, cut) => ImageOk(img) && WalksAll(img, cut) && img.storeId.Some?
  }

  ghost function BaseFrames(b: Base): seq<Frame>
    requires BaseOk(b)
  {
    match b
    case Virgin => []
    case Fresh(m) => [Encode(MetaRecord(m))]
    case Checkpointed(img, cut) => CheckpointFrames(img, cut)
  }

  function BaseImage(b: Base): Image {
    match b
    case Virgin => EMPTY
    case Fresh(m) => Image(Some(m.storeId), map[], map[], m.versionHwm, m.commitHwm)
    case Checkpointed(img, cut) => img.(receipts := Live(img.receipts, cut.now))
  }

  predicate BaseOpens(b: Base) {
    b.Checkpointed? ==> OnlyCompletionsLive(b.img.receipts, b.cut.now)
  }

  lemma BaseReplay(b: Base)
    requires BaseOk(b)
    ensures Replay(BaseFrames(b)) == if BaseOpens(b) then Some(BaseImage(b)) else None
  {
    hide Encode, Decode, CheckpointFrames;
    match b
    case Virgin =>
    case Fresh(m) =>
      DecodeEncode(MetaRecord(m));
      var f := Encode(MetaRecord(m));
      assert [f][..0] == [];
      assert ReplayFrom(Some(EMPTY), [f]) == ReplayFrame(ReplayFrom(Some(EMPTY), []), f);
    case Checkpointed(img, cut) => CheckpointReplay(img, cut);
  }

  function TailFrames(h: seq<Commit>): seq<Frame> {
    if |h| == 0 then [] else TailFrames(h[..|h| - 1]) + [CommitFrame(h[|h| - 1])]
  }

  function TailImage(img: Image, h: seq<Commit>): Image {
    if |h| == 0 then img else CommitImage(TailImage(img, h[..|h| - 1]), h[|h| - 1])
  }

  /** No operation id is committed twice in one log, nor once more than its checkpoint retains. */
  ghost predicate NoReuse(rs: map<Id, Receipt>, h: seq<Commit>) {
    && (forall i :: 0 <= i < |h| ==> h[i].OpId() !in rs)
    && (forall i, j :: 0 <= i < j < |h| ==> h[i].OpId() != h[j].OpId())
  }

  /** Commits that may follow an image: well formed, of its store, numbered above everything in it. */
  ghost predicate Follows(img: Image, h: seq<Commit>) {
    && Ascending(h)
    && (forall i :: 0 <= i < |h| ==>
          && CommitOk(h[i]) && img.storeId == Some(h[i].intent.storeId)
          && h[i].version > img.versionHwm && h[i].commitId > img.commitHwm)
    && (forall op :: op in img.receipts ==> img.receipts[op].commitId <= img.commitHwm)
  }

  function OpIds(h: seq<Commit>): set<Id> {
    set c | c in h :: c.OpId()
  }

  lemma {:induction false} TailMarks(img: Image, h: seq<Commit>)
    requires Follows(img, h)
    ensures var t := TailImage(img, h);
      && t.storeId == img.storeId
      && t.versionHwm == (if |h| == 0 then img.versionHwm else h[|h| - 1].version)
      && t.commitHwm == (if |h| == 0 then img.commitHwm else h[|h| - 1].commitId)
  {
    hide CommitReceipt, ApplyCommit, CommitOk;
    if |h| > 0 {
      TailMarks(img, h[..|h| - 1]);
    }
  }

  lemma {:induction false} TailIds(img: Image, h: seq<Commit>)
    ensures TailImage(img, h).receipts.Keys == img.receipts.Keys + OpIds(h)
  {
    hide CommitReceipt, ApplyCommit;
    if |h| > 0 {
      var front, c := h[..|h| - 1], h[|h| - 1];
      TailIds(img, front);
      assert OpIds(h) == OpIds(front) + {c.OpId()} by {
        assert h == front + [c];
      }
    }
  }

  /** Every receipt of the image comes from before the tail or from one of its commits. */
  lemma {:induction false} TailOrigin(img: Image, h: seq<Commit>, op: Id)
    requires op in TailImage(img, h).receipts
    ensures
      || (op in img.receipts && TailImage(img, h).receipts[op] == img.receipts[op])
      || exists c :: c in h && c.OpId() == op && TailImage(img, h).receipts[op] == CommitReceipt(c)
  {
    hide CommitReceipt, ApplyCommit;
    if |h| > 0 && op != h[|h| - 1].OpId() {
      TailOrigin(img, h[..|h| - 1], op);
    }
  }

  /** A log tail replays to exactly its commits, or refuses to open because an operation id is reused. */
  lemma {:induction false} TailReplay(img: Image, h: seq<Commit>)
    requires Follows(img, h)
    ensures ReplayFrom(Some(img), TailFrames(h))
         == if NoReuse(img.receipts, h) then Some(TailImage(img, h)) else None
  {
    hide CommitFrame, ReplayFrame, CommitOk, CommitImage, NoReuse, Ascending;
    if |h| == 0 {
      NoReuseEmpty(img.receipts);
    } else {
      var front, c := h[..|h| - 1], h[|h| - 1];
      FollowsFront(img, h);
      TailReplay(img, front);
      var frames := TailFrames(h);
      assert frames[..|frames| - 1] == TailFrames(front);
      if NoReuse(img.receipts, front) {
        ReceiptsBelow(img, h);
        ReuseStep(img, h);
        assert TailImage(img, front).storeId == img.storeId by { TailMarks(img, front); }
        ReplayCommit(TailImage(img, front), c);
      } else {
        RefusedStays(CommitFrame(c));
        ReusePersists(img.receipts, h);
      }
    }
  }

  lemma NoReuseEmpty(rs: map<Id, Receipt>)
    ensures NoReuse(rs, [])
  {
  }

  lemma FollowsFront(img: Image, h: seq<Commit>)
    requires |h| > 0 && Follows(img, h)
    ensures Follows(img, h[..|h| - 1])
    ensures CommitOk(h[|h| - 1]) && img.storeId == Some(h[|h| - 1].intent.storeId)
  {
    hide CommitOk;
  }

  /** The last commit reuses an id exactly when the image before it already holds a receipt for it. */
  lemma ReuseStep(img: Image, h: seq<Commit>)
    requires |h| > 0 && NoReuse(img.receipts, h[..|h| - 1])
    ensures h[|h| - 1].OpId() in TailImage(img, h[..|h| - 1]).receipts <==> !NoReuse(img.receipts, h)
  {
    hide TailImage;
    var front, op := h[..|h| - 1], h[|h| - 1].OpId();
    TailIds(img, front);
    if op in TailImage(img, front).receipts {
      if op !in img.receipts {
        var c :| c in front && c.OpId() == op;
        var i :| 0 <= i < |front| && front[i] == c;
        assert h[i].OpId() == h[|h| - 1].OpId();
      }
    } else {
      assert forall i :: 0 <= i < |front| ==> h[i] == front[i] && front[i] in front;
    }
  }

  lemma ReusePersists(rs: map<Id, Receipt>, h: seq<Commit>)
    requires |h| > 0 && !NoReuse(rs, h[..|h| - 1])
    ensures !NoReuse(rs, h)
  {
    var front := h[..|h| - 1];
    if i :| 0 <= i < |front| && front[i].OpId() in rs {
      assert h[i].OpId() in rs;
    } else {
      var i, j :| 0 <= i < j < |front| && front[i].OpId() == front[j].OpId();
      assert h[i].OpId() == h[j].OpId();
    }
  }

  lemma ReceiptsBelow(img: Image, h: seq<Commit>)
    requires |h| > 0 && Follows(img, h) && Follows(img, h[..|h| - 1])
    ensures var t := TailImage(img, h[..|h| - 1]);
      forall op :: op in t.receipts ==> t.receipts[op].commitId < h[|h| - 1].commitId
  {
    hide CommitOk, TailImage, IntentDigest;
    var front, c := h[..|h| - 1], h[|h| - 1];
    var t := TailImage(img, front);
    forall op | op in t.receipts
      ensures t.receipts[op].commitId < c.commitId
    {
      TailOrigin(img, front, op);
      if !(op in img.receipts && t.receipts[op] == img.receipts[op]) {
        var d :| d in front && d.OpId() == op && t.receipts[op] == CommitReceipt(d);
        var i :| 0 <= i < |front| && front[i] == d;
        assert h[i] == d;
      }
    }
  }

  /** Without reuse the image keeps every earlier receipt and gains every commit's own. */
  lemma {:induction false} TailReceipts(img: Image, h: seq<Commit>)
    requires NoReuse(img.receipts, h)
    ensures forall op :: op in img.receipts ==>
              op in TailImage(img, h).receipts && TailImage(img, h).receipts[op] == img.receipts[op]
    ensures forall i :: 0 <= i < |h| ==>
              h[i].OpId() in TailImage(img, h).receipts
              && TailImage(img, h).receipts[h[i].OpId()] == CommitReceipt(h[i])
  {
    hide CommitReceipt, ApplyCommit;
    if |h| > 0 {
      var front := h[..|h| - 1];
      assert NoReuse(img.receipts, front);
      TailReceipts(img, front);
      forall i | 0 <= i < |front|
        ensures h[i] == front[i] && h[i].OpId() != h[|h| - 1].OpId()
      {
      }
    }
  }

  /** The tail continues the history its image stands for. */
  lemma {:induction false} TailState(img: Image, before: seq<Commit>, h: seq<Commit>)
    requires img.state == Fold(before)
    ensures TailImage(img, h).state == Fold(before + h)
  {
    hide ApplyCommit, CommitReceipt, RaiseHwm;
    if |h| == 0 {
      assert before + h == before;
    } else {
      TailState(img, before, h[..|h| - 1]);
      assert (before + h)[..|before + h| - 1] == before + h[..|h| - 1];
    }
  }

  lemma {:induction false} TailFramesSnoc(h: seq<Commit>, c: Commit)
    ensures TailFrames(h + [c]) == TailFrames(h) + [CommitFrame(c)]
  {
    assert (h + [c])[..|h|] == h;
  }

  lemma FoldSnoc(h: seq<Commit>, c: Commit)
    ensures Fold(h + [c]) == ApplyCommit(Fold(h), c)
  {
    assert (h + [c])[..|h|] == h;
  }
}
