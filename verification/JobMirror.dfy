/** Memory as the mirror of the committed history, which only a checkpoint published over newer commits breaks. */
module JobMirror {
  import opened Bytes
  import opened JobRecord
  import opened JobImage
  import opened JobCheckpoint
  import opened JobHistory
  import opened JobAdmission
  import opened JobCore

  ghost predicate IsSource(hist: seq<Commit>, i: nat, op: Id, r: Receipt) {
    i < |hist| && hist[i].OpId() == op && r == CommitReceipt(hist[i])
  }

  /** Every receipt is that of a linked commit among the first `n`. */
  ghost predicate Genuine(rs: map<Id, Receipt>, hist: seq<Commit>, n: nat, linked: set<nat>) {
    n <= |hist| && forall op :: op in rs ==> exists i :: i in linked && i < n && IsSource(hist, i, op, rs[op])
  }

  /** An image shows exactly the first `n` commits, and no receipt but theirs. */
  ghost predicate Shows(img: Image, hist: seq<Commit>, n: nat, linked: set<nat>) {
    n <= |hist| && img.state == Fold(hist[..n]) && Genuine(img.receipts, hist, n, linked)
  }

  ghost predicate BudgetOk(c: Core, max: nat) {
    c.applied <= |c.hist| && StateBytes(Fold(c.hist)) <= max && StateBytes(Fold(c.hist[..c.applied])) <= max
  }

  /** The base, the memory and a pending checkpoint each show the part of the history they stand for. */
  ghost predicate MirrorOk(c: Core, max: nat) {
    && Shows(BaseImage(c.base), c.hist, c.from, c.linked)
    && (c.up ==> Shows(c.img, c.hist, c.applied, c.linked))
    && (c.pending.Some? ==> Shows(BaseImage(c.pending.value), c.hist, c.cutAt, c.linked))
    && BudgetOk(c, max)
  }

  lemma ShowsSofter(a: Image, b: Image, now: nat, hist: seq<Commit>, n: nat, linked: set<nat>)
    requires Softer(a, b, now) && Shows(a, hist, n, linked)
    ensures Shows(b, hist, n, linked)
  {
    hide CommitReceipt, Fold;
  }

  lemma SoftMirrors(c: Core, img: Image, now: nat, max: nat)
    requires MirrorOk(c, max) && c.up && Softer(c.img, img, now)
    ensures MirrorOk(c.(img := img, clock := Later(c.clock, now)), max)
  {
    hide Shows, Softer, BaseImage, Fold, StateBytes;
    ShowsSofter(c.img, img, now, c.hist, c.applied, c.linked);
  }

  lemma ShowsGrows(img: Image, hist: seq<Commit>, n: nat, linked: set<nat>, k: Commit, more: set<nat>)
    requires Shows(img, hist, n, linked) && linked <= more
    ensures Shows(img, hist + [k], n, more)
  {
    hide CommitReceipt, Fold;
    assert (hist + [k])[..n] == hist[..n];
    forall op | op in img.receipts
      ensures exists i :: i in more && i < n && IsSource(hist + [k], i, op, img.receipts[op])
    {
      var i :| i in linked && i < n && IsSource(hist, i, op, img.receipts[op]);
      assert IsSource(hist + [k], i, op, img.receipts[op]);
    }
  }

  lemma ShowsCommit(c: Core, k: Commit)
    requires Shows(c.img, c.hist, c.applied, c.linked) && c.applied == |c.hist|
    ensures var d := Committed(c, k, Durable); Shows(d.img, d.hist, d.applied, d.linked)
  {
    hide CommitReceipt, CommitFrame, ApplyCommit, Fold;
    var d := Committed(c, k, Durable);
    ShowsGrows(c.img, c.hist, c.applied, c.linked, k, d.linked);
    FoldSnoc(c.hist, k);
    assert c.hist[..c.applied] == c.hist && d.hist[..d.applied] == d.hist;
    assert IsSource(d.hist, |c.hist|, k.OpId(), CommitReceipt(k));
    forall op | op in d.img.receipts
      ensures exists i :: i in d.linked && i < d.applied && IsSource(d.hist, i, op, d.img.receipts[op])
    {
      if op in c.img.receipts && d.img.receipts[op] == c.img.receipts[op] {
        var i :| i in d.linked && i < c.applied && IsSource(d.hist, i, op, c.img.receipts[op]);
      }
    }
  }

  /** An admitted commit that fits the budget leaves memory a mirror of the history. */
  lemma CommitMirrors(c: Core, k: Commit, fate: Fate, max: nat)
    requires Admissible(c, k) && MirrorOk(c, max) && StateBytes(ApplyCommit(c.img.state, k)) <= max
    ensures MirrorOk(Committed(c, k, fate), max)
  {
    hide LogOk, HistoryOk, MemoryOk, ReceiptsOk, PendingOk, Genuine, BaseImage, CommitFrame, CommitReceipt, ApplyCommit,
      Fold, StateBytes, Numbered, CommitOk;
    var d := Committed(c, k, fate);
    AllApplied(c);
    assert c.hist[..c.applied] == c.hist;
    if fate != Lost {
      FoldSnoc(c.hist, k);
      assert d.hist[..d.applied] == if fate == Durable then d.hist else c.hist;
      ShowsGrows(BaseImage(c.base), c.hist, c.from, c.linked, k, d.linked);
      if c.pending.Some? {
        ShowsGrows(BaseImage(c.pending.value), c.hist, c.cutAt, c.linked, k, d.linked);
      }
      if fate == Durable {
        ShowsCommit(c, k);
      } else {
        ShowsGrows(c.img, c.hist, c.applied, c.linked, k, d.linked);
      }
    }
  }

  lemma AllApplied(c: Core)
    requires LogOk(c) && !c.log.failed
    ensures c.applied == |c.hist|
  {
    hide BaseFrames, TailFrames, BaseImage, Follows;
  }

  lemma AttachMirrors(c: Core, m: Meta, fate: Fate, max: nat)
    requires MirrorOk(c, max) && c.base == Virgin && c.hist == [] && c.pending.None?
    ensures MirrorOk(Attached(c, m, fate), max)
  {
    hide Encode, CommitReceipt, StateBytes;
  }

  lemma ShowsShorter(img: Image, hist: seq<Commit>, n: nat, m: nat, linked: set<nat>)
    requires Shows(img, hist, n, linked) && n <= m <= |hist|
    ensures Shows(img, hist[..m], n, Below(linked, m))
  {
    hide CommitReceipt, Fold;
    assert hist[..m][..n] == hist[..n];
    forall op | op in img.receipts
      ensures exists i :: i in Below(linked, m) && i < n && IsSource(hist[..m], i, op, img.receipts[op])
    {
      var i :| i in linked && i < n && IsSource(hist, i, op, img.receipts[op]);
      assert IsSource(hist[..m], i, op, img.receipts[op]);
    }
  }

  /** So does publishing a checkpoint, if nothing was committed since its cut. */
  lemma PublishMirrors(c: Core, max: nat)
    requires MirrorOk(c, max) && c.up && c.pending.Some? && BaseOk(c.pending.value) && c.applied == c.cutAt
    ensures MirrorOk(PublishedCut(c), max)
  {
    hide Genuine, BaseImage, BaseFrames, BaseOk, StateBytes, Fold;
    var d := PublishedCut(c);
    ShowsShorter(BaseImage(c.pending.value), c.hist, c.cutAt, c.cutAt, c.linked);
    ShowsShorter(c.img, c.hist, c.cutAt, c.cutAt, c.linked);
    assert d.hist[..d.applied] == d.hist;
  }

  lemma CrashMirrors(c: Core, max: nat)
    requires MirrorOk(c, max)
    ensures MirrorOk(Crashed(c), max)
  {
    hide Shows, BaseImage, StateBytes, Fold;
    assert c.hist[..|c.hist|] == c.hist;
  }

  lemma CutMirrors(c: Core, cut: Cut, max: nat)
    requires MirrorOk(c, max) && c.up
    ensures MirrorOk(CutAt(c, cut), max)
  {
    hide Shows, StateBytes, Fold;
    var live := c.img.(receipts := Live(c.img.receipts, cut.now));
    ShowsSofter(c.img, live, cut.now, c.hist, c.applied, c.linked);
  }

  // ---- restarts ----

  lemma RecoveredSource(c: Core, op: Id)
    requires c.from <= |c.hist| && Genuine(BaseImage(c.base).receipts, c.hist, c.from, c.linked)
    requires op in Recovered(c).receipts
    ensures exists i :: i in Relinked(c) && i < |c.hist| && IsSource(c.hist, i, op, Recovered(c).receipts[op])
  {
    hide CommitReceipt, BaseImage, TailImage;
    var img, tail := BaseImage(c.base), c.hist[c.from..];
    var r := Recovered(c).receipts[op];
    TailOrigin(img, tail, op);
    if op in img.receipts && r == img.receipts[op] {
      var i :| i in c.linked && i < c.from && IsSource(c.hist, i, op, r);
      assert i in Relinked(c);
    } else {
      var k :| k in tail && k.OpId() == op && r == CommitReceipt(k);
      var j :| 0 <= j < |tail| && tail[j] == k;
      assert OnLog(c, c.from + j) && IsSource(c.hist, c.from + j, op, r);
    }
  }

  lemma BaseShowsRelinked(c: Core, img: Image)
    requires Shows(img, c.hist, c.from, c.linked)
    ensures Shows(img, c.hist, c.from, Relinked(c))
  {
    hide CommitReceipt, Fold;
    forall op | op in img.receipts
      ensures exists i :: i in Relinked(c) && i < c.from && IsSource(c.hist, i, op, img.receipts[op])
    {
      var i :| i in c.linked && i < c.from && IsSource(c.hist, i, op, img.receipts[op]);
      assert i in Relinked(c);
    }
  }

  /** What a restart recovers shows the whole history. */
  lemma RecoveredShows(c: Core)
    requires LogOk(c) && Shows(BaseImage(c.base), c.hist, c.from, c.linked)
    ensures Shows(Recovered(c), c.hist, |c.hist|, Relinked(c))
  {
    hide LogOk, BaseImage, CommitReceipt, Recovered, Relinked, Fold, IsSource, Opens;
    Recovery(c);
    assert c.from <= |c.hist| && c.hist[..|c.hist|] == c.hist;
    forall op | op in Recovered(c).receipts
      ensures exists i :: i in Relinked(c) && i < |c.hist| && IsSource(c.hist, i, op, Recovered(c).receipts[op])
    {
      RecoveredSource(c, op);
    }
  }

  lemma RestartMirrors(c: Core, max: nat)
    requires CoreOk(c) && MirrorOk(c, max) && !c.up
    ensures MirrorOk(Restarted(c), max)
  {
    hide LogOk, HistoryOk, MemoryOk, ReceiptsOk, Shows, BaseImage, Recovered, Relinked, Fold, StateBytes, BaseOk,
      Retained;
    DownIsApplied(c);
    RecoveredShows(c);
    BaseShowsRelinked(c, BaseImage(c.base));
  }

  lemma DownIsApplied(c: Core)
    requires LogOk(c) && !c.up
    ensures c.applied == |c.hist|
  {
    hide BaseFrames, TailFrames, BaseImage, Follows;
  }
}
