/** The management API's mutation limiter: a ring of admissions checked against two rolling windows. */
module RateLimiter {
  import opened Bytes

  const PER_SECOND := 512
  const BYTES_PER_MINUTE := 16777216
  const RING := 1024
  const SECOND := 1000
  const MINUTE := 60000

  datatype Sample = Sample(when: u64, bytes: u64)

  // ---- what the windows count ----

  /** The clock does not run backwards. */
  ghost predicate Ordered(h: seq<Sample>) {
    forall i, j :: 0 <= i < j < |h| ==> h[i].when <= h[j].when
  }

  ghost predicate NotAfter(h: seq<Sample>, now: int) {
    forall i :: 0 <= i < |h| ==> h[i].when <= now
  }

  /** How many admissions are less than `span` milliseconds old. */
  function Recent(h: seq<Sample>, now: int, span: int): nat {
    if h == [] then 0 else Recent(h[..|h| - 1], now, span) + (if now - h[|h| - 1].when < span then 1 else 0)
  }

  /** How many bytes those admissions carried. */
  function RecentBytes(h: seq<Sample>, now: int, span: int): nat {
    if h == [] then 0
    else RecentBytes(h[..|h| - 1], now, span) + (if now - h[|h| - 1].when < span then h[|h| - 1].bytes else 0)
  }

  /** The limits leave room for one more. */
  ghost predicate Allowed(h: seq<Sample>, now: int, bytes: nat) {
    && Recent(h, now, SECOND) < PER_SECOND
    && RecentBytes(h, now, MINUTE) + bytes <= BYTES_PER_MINUTE
    && Recent(h, now, MINUTE) < RING
  }

  ghost function RecentOnes(h: seq<Sample>, now: int, span: int): set<nat> {
    set i | 0 <= i < |h| && now - h[i].when < span
  }

  /** The count is the number of those admissions. */
  lemma {:induction false} RecentCounts(h: seq<Sample>, now: int, span: int)
    ensures Recent(h, now, span) == |RecentOnes(h, now, span)|
  {
    if h != [] {
      var front, last := h[..|h| - 1], |h| - 1;
      RecentCounts(front, now, span);
      assert RecentOnes(h, now, span) - {last} == RecentOnes(front, now, span);
    }
  }

  /** `t` is when the oldest admission of the last minute was made, or the present if there was none. */
  ghost predicate IsOldest(h: seq<Sample>, now: int, t: int) {
    && (forall k :: 0 <= k < |h| && now - h[k].when < 60000 ==> t <= h[k].when)
    && (t == now || exists k :: 0 <= k < |h| && h[k].when == t && now - t < 60000)
  }

  /** A history of admissions, each allowed when it was made. */
  ghost predicate Admitted(h: seq<Sample>) {
    Ordered(h) && forall j :: 0 <= j < |h| ==> Allowed(h[..j], h[j].when, h[j].bytes)
  }

  /** How many admissions fall into the `span` milliseconds from `from` on. */
  function Within(h: seq<Sample>, from: int, span: int): nat {
    if h == [] then 0 else Within(h[..|h| - 1], from, span) + (if from <= h[|h| - 1].when < from + span then 1 else 0)
  }

  function BytesWithin(h: seq<Sample>, from: int, span: int): nat {
    if h == [] then 0
    else BytesWithin(h[..|h| - 1], from, span) + (if from <= h[|h| - 1].when < from + span then h[|h| - 1].bytes else 0)
  }

  /** A window that reaches a moment sees no more than what is recent then. */
  lemma {:induction false} WithinRecent(h: seq<Sample>, from: int, span: int, now: int)
    requires from <= now < from + span && NotAfter(h, now)
    ensures Within(h, from, span) <= Recent(h, now, span) && BytesWithin(h, from, span) <= RecentBytes(h, now, span)
  {
    if h != [] { WithinRecent(h[..|h| - 1], from, span, now); }
  }

  /** What is recent is what falls into the window that ends now. */
  lemma {:induction false} RecentIsWindow(h: seq<Sample>, now: int, span: int)
    requires NotAfter(h, now)
    ensures Recent(h, now, span) == Within(h, now - span + 1, span)
    ensures RecentBytes(h, now, span) == BytesWithin(h, now - span + 1, span)
  {
    if h != [] { RecentIsWindow(h[..|h| - 1], now, span); }
  }

  /** Every window, wherever it starts: at most 512 admissions a second, 1024 a minute and 16 MiB a minute. */
  lemma {:induction false} WindowsHold(h: seq<Sample>, from: int)
    requires Admitted(h)
    ensures Within(h, from, 1000) <= 512
    ensures Within(h, from, 60000) <= 1024 && BytesWithin(h, from, 60000) <= 16777216
  {
    if h != [] {
      var front, last := h[..|h| - 1], h[|h| - 1];
      assert forall j :: 0 <= j < |front| ==> front[..j] == h[..j] && Allowed(h[..j], h[j].when, h[j].bytes);
      WindowsHold(front, from);
      assert Allowed(h[..|h| - 1], last.when, last.bytes);
      if from <= last.when < from + SECOND { WithinRecent(front, from, SECOND, last.when); }
      if from <= last.when < from + MINUTE { WithinRecent(front, from, MINUTE, last.when); }
    }
  }

  // ---- sums over parts ----

  lemma {:induction false} RecentJoin(a: seq<Sample>, b: seq<Sample>, now: int, span: int)
    ensures Recent(a + b, now, span) == Recent(a, now, span) + Recent(b, now, span)
    ensures RecentBytes(a + b, now, span) == RecentBytes(a, now, span) + RecentBytes(b, now, span)
  {
    if b == [] {
      assert a + b == a;
    } else {
      RecentJoin(a, b[..|b| - 1], now, span);
      assert (a + b)[..|a + b| - 1] == a + b[..|b| - 1];
    }
  }

  lemma {:induction false} NoneRecent(h: seq<Sample>, now: int, span: int)
    requires forall i :: 0 <= i < |h| ==> now - h[i].when >= span
    ensures Recent(h, now, span) == 0 && RecentBytes(h, now, span) == 0
  {
    if h != [] { NoneRecent(h[..|h| - 1], now, span); }
  }

  lemma {:induction false} RecentCount(h: seq<Sample>, now: int, span: int)
    ensures Recent(h, now, span) <= |h|
    ensures Recent(h, now, span) == |h| <==> forall i :: 0 <= i < |h| ==> now - h[i].when < span
  {
    if h != [] {
      var front := h[..|h| - 1];
      RecentCount(front, now, span);
      assert forall i :: 0 <= i < |front| ==> front[i] == h[i];
    }
  }

  lemma RecentNext(ring: seq<Sample>, i: nat, now: int)
    requires i < |ring|
    ensures Recent(ring[..i + 1], now, SECOND)
       == Recent(ring[..i], now, SECOND) + (if now - ring[i].when < SECOND then 1 else 0)
    ensures RecentBytes(ring[..i + 1], now, MINUTE)
       == RecentBytes(ring[..i], now, MINUTE) + (if now - ring[i].when < MINUTE then ring[i].bytes else 0)
  {
    assert ring[..i + 1][..i] == ring[..i];
  }

  lemma NoSamples(now: int)
    ensures Recent([], now, SECOND) == 0 && RecentBytes([], now, MINUTE) == 0
  {
  }

  // ---- the ring ----

  /** The newest admissions, as the ring holds them: in order until it is full, then wrapped around `next`. */
  ghost predicate Held(ring: seq<Sample>, count: nat, next: nat, h: seq<Sample>)
    requires |ring| == RING
  {
    && next < RING
    && if count < RING then count == next == |h| && ring[..count] == h
       else count == RING <= |h| && ring[..next] == h[|h| - next..] && ring[next..] == h[|h| - RING..|h| - next]
  }

  /** An admission leaves the ring only once it is a minute old. */
  ghost predicate Spaced(h: seq<Sample>) {
    forall k :: 0 <= k && k + RING < |h| ==> h[k + RING].when - h[k].when >= MINUTE
  }

  lemma TailIsRecent(h: seq<Sample>, now: int, span: int)
    requires |h| >= RING && Spaced(h) && NotAfter(h, now) && span <= MINUTE
    ensures Recent(h, now, span) == Recent(h[|h| - RING..], now, span)
    ensures RecentBytes(h, now, span) == RecentBytes(h[|h| - RING..], now, span)
  {
    hide Recent, RecentBytes;
    var gone, held := h[..|h| - RING], h[|h| - RING..];
    assert h == gone + held;
    RecentJoin(gone, held, now, span);
    forall k | 0 <= k < |gone| ensures now - gone[k].when >= span {
      assert h[k + RING].when - h[k].when >= MINUTE && h[k + RING].when <= now;
    }
    NoneRecent(gone, now, span);
  }

  lemma RingSplits(ring: seq<Sample>, next: nat, h: seq<Sample>) returns (older: seq<Sample>, newer: seq<Sample>)
    requires |ring| == RING && Held(ring, RING, next, h)
    ensures |h| >= RING && ring[..RING] == newer + older && h[|h| - RING..] == older + newer
  {
    older, newer := ring[next..], ring[..next];
    assert h[|h| - RING..] == h[|h| - RING..|h| - next] + h[|h| - next..];
  }

  /** So the ring holds every admission of the last minute. */
  lemma RingIsRecent(ring: seq<Sample>, count: nat, next: nat, h: seq<Sample>, now: int, span: int)
    requires |ring| == RING && Held(ring, count, next, h) && Spaced(h) && NotAfter(h, now) && span <= MINUTE
    ensures count <= RING
    ensures Recent(ring[..count], now, span) == Recent(h, now, span)
    ensures RecentBytes(ring[..count], now, span) == RecentBytes(h, now, span)
  {
    hide Recent, RecentBytes, Spaced;
    if count == RING {
      var older, newer := RingSplits(ring, next, h);
      RecentJoin(newer, older, now, span);
      RecentJoin(older, newer, now, span);
      TailIsRecent(h, now, span);
    }
  }

  /** An admission less than a minute old has not left the ring. */
  lemma MinuteInRing(ring: seq<Sample>, count: nat, next: nat, h: seq<Sample>, now: int, k: nat)
    requires |ring| == RING && Held(ring, count, next, h) && Spaced(h) && NotAfter(h, now)
    requires k < |h| && now - h[k].when < MINUTE
    ensures k >= |h| - count && h[k] in ring[..count]
  {
    hide Spaced;
    assert k >= |h| - count by { SpacedAt(h, k, now); }
    if count == RING {
      var older, newer := RingSplits(ring, next, h);
      assert h[k] == h[|h| - RING..][k - (|h| - RING)];
      assert h[k] in older + newer;
    }
  }

  /** Whatever the ring holds was admitted. */
  lemma RingWasAdmitted(ring: seq<Sample>, count: nat, next: nat, h: seq<Sample>, i: nat)
    requires |ring| == RING && Held(ring, count, next, h) && i < count <= RING
    ensures ring[i] in h
  {
    if count == RING {
      var older, newer := RingSplits(ring, next, h);
      assert ring[..RING][i] in older + newer;
      assert older + newer == h[|h| - RING..];
    } else {
      assert ring[..count][i] in h;
    }
  }

  /** The oldest recent sample of the ring is the oldest recent admission. */
  lemma OldestOfRing(ring: seq<Sample>, count: nat, next: nat, h: seq<Sample>, now: int, t: int)
    requires |ring| == RING && Held(ring, count, next, h) && Spaced(h) && NotAfter(h, now) && count <= RING
    requires IsOldest(ring[..count], now, t)
    ensures IsOldest(h, now, t)
  {
    hide Held, Spaced, NotAfter;
    var held := ring[..count];
    forall k | 0 <= k < |h| && now - h[k].when < 60000 ensures t <= h[k].when {
      MinuteInRing(ring, count, next, h, now, k);
      var i :| 0 <= i < |held| && held[i] == h[k];
    }
    if t != now {
      var i :| 0 <= i < |held| && held[i].when == t && now - t < 60000;
      RingWasAdmitted(ring, count, next, h, i);
      var k :| 0 <= k < |h| && h[k] == ring[i];
      assert h[k].when == t;
    }
  }

  lemma NoneOldest(now: int)
    ensures IsOldest([], now, now)
  {
  }

  lemma OldestNext(ring: seq<Sample>, i: nat, now: int, t: int)
    requires i < |ring| && IsOldest(ring[..i], now, t) && t <= now
    ensures IsOldest(ring[..i + 1], now, if now - ring[i].when < 60000 && ring[i].when < t then ring[i].when else t)
  {
    var seen, more := ring[..i], ring[..i + 1];
    var u := if now - ring[i].when < 60000 && ring[i].when < t then ring[i].when else t;
    assert forall k :: 0 <= k < i ==> more[k] == seen[k];
    assert more[i] == ring[i];
    if u == t && t != now {
      var k :| 0 <= k < |seen| && seen[k].when == t && now - t < 60000;
      assert more[k].when == t;
    }
  }

  lemma SpacedAt(h: seq<Sample>, k: nat, now: int)
    requires Spaced(h) && NotAfter(h, now) && k < |h| && now - h[k].when < MINUTE
    ensures k + RING >= |h|
  {
    if k + RING < |h| { SpacedPair(h, k); }
  }

  lemma SpacedPair(h: seq<Sample>, k: nat)
    requires Spaced(h) && k + RING < |h|
    ensures h[k + RING].when - h[k].when >= MINUTE
  {
  }

  lemma OldestIs(ring: seq<Sample>, next: nat, h: seq<Sample>)
    requires |ring| == RING && Held(ring, RING, next, h)
    ensures |h| >= RING && ring[next] == h[|h| - RING]
  {
    assert ring[next] == ring[next..][0];
  }

  /** A full ring whose oldest sample is still in the window means the window is full. */
  lemma OldestDecides(ring: seq<Sample>, next: nat, h: seq<Sample>, now: int)
    requires |ring| == RING && Held(ring, RING, next, h) && Spaced(h) && Ordered(h) && NotAfter(h, now)
    ensures Recent(h, now, MINUTE) >= RING <==> now - ring[next].when < MINUTE
  {
    hide Recent, Held, Spaced;
    OldestIs(ring, next, h);
    TailIsRecent(h, now, MINUTE);
    var held := h[|h| - RING..];
    RecentCount(held, now, MINUTE);
    assert held[0] == h[|h| - RING];
    assert forall i :: 0 <= i < |held| ==> held[0].when <= held[i].when;
  }

  lemma SmallRing(ring: seq<Sample>, count: nat, next: nat, h: seq<Sample>, now: int)
    requires |ring| == RING && Held(ring, count, next, h) && count < RING
    ensures Recent(h, now, MINUTE) < RING
  {
    RecentCount(h, now, MINUTE);
  }

  class RateLimiter {
    const samples: array<Sample>
    var count: nat
    var next: nat
    ghost var history: seq<Sample>

    /** The ring holds the newest admissions, every admission was allowed, and none of the last minute is lost. */
    ghost predicate Valid()
      reads this, samples
    {
      samples.Length == RING && Held(samples[..], count, next, history) && Admitted(history) && Spaced(history)
    }

    constructor ()
      ensures Valid() && fresh(samples) && history == []
    {
      samples := new Sample[RING](_ => Sample(0, 0));
      count, next, history := 0, 0, [];
    }

    /** Count what the windows hold. */
    method Measure(now: u64) returns (second: nat, bytes: nat, oldest: u64)
      requires Valid() && NotAfter(history, now)
      ensures second == Recent(history, now, SECOND) && bytes == RecentBytes(history, now, MINUTE)
      ensures oldest <= now && now - oldest < MINUTE && IsOldest(history, now, oldest)
    {
      hide Held, Admitted, Spaced, NotAfter, Recent, RecentBytes, IsOldest;
      NoSamples(now);
      NoneOldest(now);
      second, bytes, oldest := 0, 0, now;
      ghost var ring := samples[..];
      RingIsRecent(ring, count, next, history, now, SECOND);
      RingIsRecent(ring, count, next, history, now, MINUTE);
      var i := 0;
      while i < count
        invariant i <= count && oldest <= now && now - oldest < MINUTE && IsOldest(ring[..i], now, oldest)
        invariant second == Recent(ring[..i], now, SECOND) && bytes == RecentBytes(ring[..i], now, MINUTE)
      {
        RecentNext(ring, i, now);
        OldestNext(ring, i, now, oldest);
        var sample := samples[i];
        if now - sample.when < SECOND { second := second + 1; }
        if now - sample.when < MINUTE {
          bytes := bytes + sample.bytes;
          if sample.when < oldest { oldest := sample.when; }
        }
        i := i + 1;
      }
      OldestOfRing(ring, count, next, history, now, oldest);
    }

    /** Admit a mutation of `bytes` bytes at time `now`, or say how many seconds to wait: one when the second or the
        ring is full, and otherwise until the oldest admission of the minute has left it. */
    method Allow(now: u64, bytes: u64) returns (ok: bool, retryAfter: int)
      requires Valid() && NotAfter(history, now)
      modifies this, samples
      ensures Valid() && ok == Allowed(old(history), now, bytes)
      ensures history == if ok then old(history) + [Sample(now, bytes)] else old(history)
      ensures ok <==> Recent(old(history), now, 1000) < 512 && RecentBytes(old(history), now, 60000) + bytes <= 16777216
                      && Recent(old(history), now, 60000) < 1024
      ensures !ok ==> 1 <= retryAfter <= 60
      ensures Recent(old(history), now, 1000) >= 512 ==> retryAfter == 1
      ensures !ok && RecentBytes(old(history), now, 60000) + bytes <= 16777216 ==> retryAfter == 1
      ensures Recent(old(history), now, 1000) < 512 && RecentBytes(old(history), now, 60000) + bytes > 16777216 ==>
        exists t :: IsOldest(old(history), now, t) && 1000 * (retryAfter - 1) < 60000 - (now - t) <= 1000 * retryAfter
    {
      hide IsOldest, Recent, RecentBytes;
      ok, retryAfter := false, 0;
      var second, minute, oldest := Measure(now);
      if second >= PER_SECOND || bytes > BYTES_PER_MINUTE || minute > BYTES_PER_MINUTE - bytes {
        var remaining := if second >= PER_SECOND then 1000 else MINUTE - (now - oldest);
        retryAfter := (remaining + 999) / 1000;
        if retryAfter == 0 { retryAfter := 1; }
        assert IsOldest(history, now, oldest);
        return;
      }
      if count == RING {
        OldestDecides(samples[..], next, history, now);
      } else {
        SmallRing(samples[..], count, next, history, now);
      }
      if count == RING && now - samples[next].when < MINUTE {
        retryAfter := 1;
        return;
      }
      Append(now, bytes);
      ok := true;
    }

    /** Write the admission over the oldest slot. */
    method Append(now: u64, bytes: u64)
      requires Valid() && NotAfter(history, now) && Allowed(history, now, bytes)
      requires count == RING ==> now - samples[next].when >= MINUTE
      modifies this, samples
      ensures Valid() && history == old(history) + [Sample(now, bytes)]
    {
      hide Held, Admitted, Spaced, Allowed;
      var s := Sample(now, bytes);
      HeldAt(samples[..], count, next, history);
      ghost var ring, h := samples[..], history;
      AdmitOne(h, s);
      HeldNext(ring, count, next, h, s);
      samples[next] := s;
      assert samples[..] == ring[next := s];
      next := (next + 1) % RING;
      if count < RING { count := count + 1; }
      history := h + [s];
    }
  }

  lemma AdmitOne(h: seq<Sample>, s: Sample)
    requires Admitted(h) && NotAfter(h, s.when) && Allowed(h, s.when, s.bytes)
    ensures Admitted(h + [s])
  {
    var g := h + [s];
    forall j | 0 <= j < |g| ensures Allowed(g[..j], g[j].when, g[j].bytes) {
      assert g[..j] == h[..j];
      if j == |h| { assert h[..j] == h; }
    }
  }

  lemma HeldAt(ring: seq<Sample>, count: nat, next: nat, h: seq<Sample>)
    requires |ring| == RING && Held(ring, count, next, h)
    ensures next < RING && count <= RING
  {
  }

  /** Writing at `next` shifts the window the ring shows by one. */
  lemma HeldNext(ring: seq<Sample>, count: nat, next: nat, h: seq<Sample>, s: Sample)
    requires |ring| == RING && Held(ring, count, next, h) && Spaced(h)
    requires count == RING ==> s.when - ring[next].when >= MINUTE
    ensures Held(ring[next := s], if count < RING then count + 1 else count, (next + 1) % RING, h + [s])
    ensures Spaced(h + [s])
  {
    if count == RING {
      HeldFull(ring, next, h, s);
      hide Held;
      OldestIs(ring, next, h);
      SpacedNext(h, s);
    } else if count + 1 < RING {
      assert ring[next := s][..count + 1] == ring[..count] + [s];
    } else {
      assert ring[next := s] == ring[..count] + [s] == h + [s];
      HeldWhole(ring[next := s]);
    }
  }

  lemma SpacedNext(h: seq<Sample>, s: Sample)
    requires Spaced(h) && |h| >= RING && s.when - h[|h| - RING].when >= MINUTE
    ensures Spaced(h + [s])
  {
  }

  lemma HeldWhole(h: seq<Sample>)
    requires |h| == RING
    ensures Held(h, RING, 0, h)
  {
  }

  lemma HeldFull(ring: seq<Sample>, next: nat, h: seq<Sample>, s: Sample)
    requires |ring| == RING && Held(ring, RING, next, h)
    ensures Held(ring[next := s], RING, (next + 1) % RING, h + [s])
  {
    var r, g, m := ring[next := s], h + [s], |h| + 1;
    var older, newer := ring[next..], ring[..next];
    assert g[m - next - 1..] == h[|h| - next..] + [s];
    if next + 1 < RING {
      assert r[..next + 1] == newer + [s];
      assert r[next + 1..] == older[1..];
      assert h[|h| - RING..|h| - next][1..] == g[m - RING..m - next - 1];
    } else {
      assert r == newer + [s];
      assert g[m - RING..] == r;
      assert g[m - RING..m] == g[m - RING..];
    }
  }
}
