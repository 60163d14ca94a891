/** Checkpoint emission and what replaying a checkpoint restores. */
module JobCheckpoint {
  import opened Bytes
  import opened JobIntent
  import opened JobRecord
  import opened JobImage

  /** A retention deadline of zero never expires. */
  predicate Expired(r: Receipt, now: nat) {
    r.expiresAt != 0 && r.expiresAt <= now
  }

  function Live(receipts: map<Id, Receipt>, now: nat): map<Id, Receipt> {
    map op | op in receipts && !Expired(receipts[op], now) :: receipts[op]
  }

  /** One consistent cut: the clock, the Queue engine's marks, and the order the buckets are walked in. */
  datatype Cut = Cut(now: nat, nextMessage: u64, nextIncarnation: u64, keys: seq<Short>, ops: seq<Id>)

  ghost predicate Distinct<T(!new)>(s: seq<T>) {
    forall i, j :: 0 <= i < j < |s| ==> s[i] != s[j]
  }

  ghost predicate Enumerates<T(!new)>(s: seq<T>, keys: set<T>) {
    Distinct(s) && (forall x :: x in s <==> x in keys)
  }

  ghost predicate WalksAll(img: Image, cut: Cut) {
    Enumerates(cut.keys, img.state.Keys) && Enumerates(cut.ops, img.receipts.Keys)
  }

  // ---- emission ----

  /** State travels without its receipt: no operation id and no deadline. */
  function EntryFrame(k: Short, e: Entry): Frame {
    Encode(StateRecord(e.version, e.commitId, StateBody(KIND_PUT, ZERO_ID, 0, k, e.value, 0, 0)))
  }

  function StateFrames(state: State, keys: seq<Short>): seq<Frame>
    requires forall k :: k in keys ==> k in state
  {
    if |keys| == 0 then []
    else
      var k := keys[|keys| - 1];
      StateFrames(state, keys[..|keys| - 1]) + [EntryFrame(k, state[k])]
  }

  function ReceiptFrames(receipts: map<Id, Receipt>, ops: seq<Id>, now: nat): seq<Frame>
    requires forall op :: op in ops ==> op in receipts
  {
    if |ops| == 0 then []
    else
      var r := receipts[ops[|ops| - 1]];
      var front := ReceiptFrames(receipts, ops[..|ops| - 1], now);
      if Expired(r, now) then front else front + [Encode(ReceiptRecord(r))]
  }

  /** Identity and high-water marks first; an engine without a store id has none to write. */
  function MetaFrames(img: Image, cut: Cut): seq<Frame> {
    if img.storeId.None? then []
    else [Encode(MetaRecord(Meta(img.storeId.value, cut.nextMessage, cut.nextIncarnation,
                                 img.versionHwm, img.commitHwm)))]
  }

  ghost function CheckpointFrames(img: Image, cut: Cut): seq<Frame>
    requires WalksAll(img, cut)
  {
    MetaFrames(img, cut) + StateFrames(img.state, cut.keys) + ReceiptFrames(img.receipts, cut.ops, cut.now)
  }

  // ---- replaying a checkpoint ----

  /** What every engine that was built by commits and replay satisfies. */
  ghost predicate ImageOk(img: Image) {
    && (forall k :: k in img.state ==>
          && img.state[k].version <= img.versionHwm && img.state[k].commitId <= img.commitHwm
          && 48 + |k| + |img.state[k].value| <= MESSAGE_MAX)
    && (forall op :: op in img.receipts ==>
          && img.receipts[op].opId == op
          && img.receipts[op].version <= img.versionHwm && img.receipts[op].commitId <= img.commitHwm
          && |img.receipts[op].outQueue| <= NAME_MAX && |img.receipts[op].inQueue| <= NAME_MAX)
  }

  /** Every receipt the cut carries over is a completion receipt. */
  predicate OnlyCompletionsLive(receipts: map<Id, Receipt>, now: nat) {
    forall op :: op in receipts && !Expired(receipts[op], now) ==> receipts[op].kind == KIND_COMPLETION
  }

  function Chosen(state: State, keys: seq<Short>): State
    requires forall k :: k in keys ==> k in state
  {
    map k | k in keys :: state[k]
  }

  lemma {:induction false} ReplayStateFrames(img: Image, start: Image, keys: seq<Short>)
    requires ImageOk(img) && Distinct(keys)
    requires forall k :: k in keys ==> k in img.state
    requires start.state == map[] && start.versionHwm == img.versionHwm && start.commitHwm == img.commitHwm
    ensures ReplayFrom(Some(start), StateFrames(img.state, keys))
         == Some(start.(state := Chosen(img.state, keys)))
  {
    hide EntryFrame, ReplayFrame;
    if |keys| > 0 {
      var front, k := keys[..|keys| - 1], keys[|keys| - 1];
      assert forall x :: x in keys <==> x in front || x == k;
      ReplayStateFrames(img, start, front);
      var frames := StateFrames(img.state, keys);
      assert frames[..|frames| - 1] == StateFrames(img.state, front);
      ReplayEntryFrame(start.(state := Chosen(img.state, front)), k, img.state[k]);
      assert Chosen(img.state, keys) == Chosen(img.state, front)[k := img.state[k]];
    }
  }

  lemma ReplayEntryFrame(img: Image, k: Short, e: Entry)
    requires 48 + |k| + |e.value| <= MESSAGE_MAX
    requires e.version <= img.versionHwm && e.commitId <= img.commitHwm
    ensures ReplayFrame(Some(img), EntryFrame(k, e)) == Some(img.(state := img.state[k := e]))
  {
    hide Encode, Decode, IntentDigest;
    DecodeEncode(StateRecord(e.version, e.commitId, StateBody(KIND_PUT, ZERO_ID, 0, k, e.value, 0, 0)));
  }

  lemma ReplayReceiptFrame(img: Image, r: Receipt)
    requires r.version <= img.versionHwm && r.commitId <= img.commitHwm && r.opId !in img.receipts
    requires |r.outQueue| <= NAME_MAX && |r.inQueue| <= NAME_MAX
    ensures ReplayFrame(Some(img), Encode(ReceiptRecord(r)))
         == if r.kind == KIND_COMPLETION then Some(img.(receipts := img.receipts[r.opId := r])) else None
  {
    hide Encode, Decode;
    DecodeEncode(ReceiptRecord(r));
  }

  lemma LiveGrows(live: map<Id, Receipt>, op: Id, r: Receipt, now: nat)
    requires op !in live && !Expired(r, now)
    ensures OnlyCompletionsLive(live[op := r], now) <==> OnlyCompletionsLive(live, now) && r.kind == KIND_COMPLETION
  {
    var more := live[op := r];
    if OnlyCompletionsLive(more, now) {
      assert op in more;
      forall x | x in live && !Expired(live[x], now)
        ensures live[x].kind == KIND_COMPLETION
      {
        assert x in more && more[x] == live[x];
      }
    }
  }

  lemma RefusedStays(f: Frame)
    ensures ReplayFrame(None, f) == None
  {
  }

  function LiveOf(receipts: map<Id, Receipt>, ops: seq<Id>, now: nat): map<Id, Receipt>
    requires forall op :: op in ops ==> op in receipts
  {
    map op | op in ops && !Expired(receipts[op], now) :: receipts[op]
  }

  lemma {:induction false} ReplayReceiptFrames(img: Image, start: Image, ops: seq<Id>, now: nat)
    requires ImageOk(img) && Distinct(ops)
    requires forall op :: op in ops ==> op in img.receipts
    requires start.receipts == map[] && start.versionHwm == img.versionHwm && start.commitHwm == img.commitHwm
    ensures ReplayFrom(Some(start), ReceiptFrames(img.receipts, ops, now))
         == if OnlyCompletionsLive(LiveOf(img.receipts, ops, now), now)
            then Some(start.(receipts := LiveOf(img.receipts, ops, now))) else None
  {
    hide Encode, ReplayFrame;
    if |ops| > 0 {
      var front, op := ops[..|ops| - 1], ops[|ops| - 1];
      var r := img.receipts[op];
      assert forall x :: x in ops <==> x in front || x == op;
      ReplayReceiptFrames(img, start, front, now);
      var before, after := LiveOf(img.receipts, front, now), LiveOf(img.receipts, ops, now);
      if Expired(r, now) {
        assert after == before;
      } else {
        assert op !in front;
        assert after == before[op := r];
        LiveGrows(before, op, r, now);
        var frames := ReceiptFrames(img.receipts, ops, now);
        assert frames[..|frames| - 1] == ReceiptFrames(img.receipts, front, now);
        if OnlyCompletionsLive(before, now) {
          ReplayReceiptFrame(start.(receipts := before), r);
        } else {
          RefusedStays(Encode(ReceiptRecord(r)));
        }
      }
    }
  }

  lemma ReplayMetaFrames(img: Image, cut: Cut)
    requires img.storeId.None? ==> img.versionHwm == 0 && img.commitHwm == 0
    ensures Replay(MetaFrames(img, cut)) == Some(img.(state := map[], receipts := map[]))
  {
    hide Encode, Decode;
    if img.storeId.Some? {
      var m := Meta(img.storeId.value, cut.nextMessage, cut.nextIncarnation, img.versionHwm, img.commitHwm);
      DecodeEncode(MetaRecord(m));
      var f := Encode(MetaRecord(m));
      assert MetaFrames(img, cut) == [f] && [f][..0] == [];
      assert ReplayFrom(Some(EMPTY), [f]) == ReplayFrame(ReplayFrom(Some(EMPTY), []), f);
      assert HookMeta(EMPTY, m) == img.(state := map[], receipts := map[]);
    }
  }

  /** Replaying a checkpoint restores the same state, versions, commit ids and high-water marks and
      exactly the receipts unexpired at the cut. It succeeds if and only if every one of those is a
      completion receipt; otherwise the store no longer opens. */
  lemma CheckpointReplay(img: Image, cut: Cut)
    requires ImageOk(img) && WalksAll(img, cut)
    requires img.storeId.None? ==> img.versionHwm == 0 && img.commitHwm == 0
    ensures Replay(CheckpointFrames(img, cut))
         == if OnlyCompletionsLive(img.receipts, cut.now)
            then Some(img.(receipts := Live(img.receipts, cut.now))) else None
  {
    hide MetaFrames, StateFrames, ReceiptFrames, ReplayFrom, Expired;
    var meta, states, receipts :=
      MetaFrames(img, cut), StateFrames(img.state, cut.keys), ReceiptFrames(img.receipts, cut.ops, cut.now);
    ReplayMetaFrames(img, cut);
    ReplayConcat(Some(EMPTY), meta + states, receipts);
    ReplayConcat(Some(EMPTY), meta, states);
    var start := img.(state := map[], receipts := map[]);
    ReplayStateFrames(img, start, cut.keys);
    assert Chosen(img.state, cut.keys) == img.state;
    var full := start.(state := img.state);
    ReplayReceiptFrames(img, full, cut.ops, cut.now);
    var live := Live(img.receipts, cut.now);
    assert LiveOf(img.receipts, cut.ops, cut.now) == live;
    assert full.(receipts := live) == img.(receipts := live);
    assert forall op :: op in live <==> op in img.receipts && !Expired(img.receipts[op], cut.now);
  }
}
