// The step sequencer on the beat timeline: playing render windows one after another,
// and seeking straight to a beat. Beats are real numbers; rounding is not modelled.
module SequencerTimeline {
  import opened Reals
  import opened Traversal

  const TOLERANCE := 0.000000001

  /** How many beats a step lasts. */
  function StepBeats(e: Setup, i: nat): (r: real)
    requires Sane(e)
    ensures r >= SHORTEST_STEP
  {
    if i % 2 != 0 then e.oddBeats else e.evenBeats
  }

  /** Where the k-th step of a walk begins, in beats after its first. */
  function Start(e: Setup, w: Walk, k: nat): (r: real)
    requires Sane(e)
    ensures r >= 0.0
  {
    if k == 0 then 0.0 else Start(e, w, k - 1) + StepBeats(e, Orbit(e, w, k - 1).step)
  }

  lemma {:induction false} StartGrows(e: Setup, w: Walk, i: nat, j: nat)
    requires Sane(e) && i <= j
    ensures Start(e, w, i) <= Start(e, w, j)
    ensures i < j ==> Start(e, w, i) + SHORTEST_STEP <= Start(e, w, j)
  {
    if i < j { StartGrows(e, w, i, j - 1); }
  }

  // ---- playing -------------------------------------------------------------------

  /** stepBeats is 0 until the step has been loaded. */
  datatype Cursor = Cursor(walk: Walk, beatAccum: real, stepBeats: real)

  datatype Boundary = Boundary(beat: real, step: nat)

  predicate Ready(c: Cursor) {
    || (c.beatAccum == 0.0 && c.stepBeats == 0.0)
    || (c.stepBeats >= SHORTEST_STEP && 0.0 <= c.beatAccum <= c.stepBeats - TOLERANCE)
  }

  function ResetCursor(e: Setup): Cursor
    requires Sane(e)
  {
    Cursor(ResetWalk(e), 0.0, 0.0)
  }

  function Loaded(e: Setup, c: Cursor): (r: Cursor)
    requires Sane(e)
  {
    if c.stepBeats <= 0.0 then c.(stepBeats := StepBeats(e, c.walk.step)) else c
  }

  /** One pass of the window loop: up to the end of the step or of the window. */
  function Segment(e: Setup, c: Cursor, now: real, end: real): (Cursor, real)
    requires Sane(e)
  {
    var segEnd := MinReal(now + (c.stepBeats - c.beatAccum), end);
    var accum := c.beatAccum + (segEnd - now);
    if accum >= c.stepBeats - TOLERANCE then (Cursor(Advance(e, c.walk), 0.0, 0.0), segEnd)
    else (c.(beatAccum := accum), segEnd)
  }

  /** An upper bound on the passes a window takes. */
  function Passes(now: real, end: real): nat {
    if end <= now then 0 else ((end - now) * 1000000000.0).Floor + 1
  }

  /** Every pass covers a billionth of a beat or ends the window. */
  lemma {:induction false} PassesDrop(now: real, next: real, end: real)
    requires now < end && next <= end && (next == end || next >= now + TOLERANCE)
    ensures Passes(next, end) < Passes(now, end)
  {
    if next != end {
      assert (end - next) * 1000000000.0 <= (end - now) * 1000000000.0 - 1.0;
    }
  }

  lemma {:induction false} SegmentMoves(e: Setup, c: Cursor, now: real, end: real)
    requires Sane(e) && Ready(c) && now < end
    ensures var (c', next) := Segment(e, Loaded(e, c), now, end);
            Ready(c') && now < next <= end && Passes(next, end) < Passes(now, end)
  {
    var (c', next) := Segment(e, Loaded(e, c), now, end);
    PassesDrop(now, next, end);
  }

  function Published(c: Cursor, now: real): seq<Boundary> {
    if c.beatAccum == 0.0 then [Boundary(now, c.walk.step)] else []
  }

  /** A whole render window: the cursor it leaves and the boundaries it publishes. */
  function Play(e: Setup, c: Cursor, now: real, end: real): (r: (Cursor, seq<Boundary>))
    requires Sane(e) && Ready(c)
    ensures Ready(r.0)
    decreases Passes(now, end)
  {
    if now >= end then (c, [])
    else
      SegmentMoves(e, c, now, end);
      var loaded := Loaded(e, c);
      var (c', next) := Segment(e, loaded, now, end);
      var (last, rest) := Play(e, c', next, end);
      (last, Published(loaded, now) + rest)
  }

  /** The boundaries of a window lie in it, in strictly increasing order. */
  lemma {:induction false} BoundariesLieInWindow(e: Setup, c: Cursor, now: real, end: real)
    requires Sane(e) && Ready(c)
    ensures InWindow(Play(e, c, now, end).1, now, end)
    decreases Passes(now, end)
  {
    if now < end {
      SegmentMoves(e, c, now, end);
      var (c', next) := Segment(e, Loaded(e, c), now, end);
      BoundariesLieInWindow(e, c', next, end);
      var first, rest := Published(Loaded(e, c), now), Play(e, c', next, end).1;
      assert Play(e, c, now, end).1 == first + rest;
      BoundariesJoin(first, rest, now, next, end);
    }
  }

  predicate InWindow(bs: seq<Boundary>, now: real, end: real) {
    && (forall i :: 0 <= i < |bs| ==> now <= bs[i].beat < end)
    && (forall i, j :: 0 <= i < j < |bs| ==> bs[i].beat < bs[j].beat)
  }

  lemma {:induction false} BoundariesJoin(first: seq<Boundary>, rest: seq<Boundary>, now: real, next: real, end: real)
    requires |first| <= 1 && (|first| == 1 ==> first[0].beat == now)
    requires now < next <= end && InWindow(rest, next, end)
    ensures InWindow(first + rest, now, end)
  {}

  /** A window begins with a boundary exactly when the cursor is at the start of a step. */
  lemma {:induction false} FirstBoundary(e: Setup, c: Cursor, now: real, end: real)
    requires Sane(e) && Ready(c) && now < end
    ensures var bs := Play(e, c, now, end).1;
            if c.beatAccum == 0.0 then bs != [] && bs[0] == Boundary(now, c.walk.step)
            else bs == [] || bs[0].beat > now
  {
    SegmentMoves(e, c, now, end);
    var (c', next) := Segment(e, Loaded(e, c), now, end);
    BoundariesLieInWindow(e, c', next, end);
    var first, rest := Published(Loaded(e, c), now), Play(e, c', next, end).1;
    assert Play(e, c, now, end).1 == first + rest;
  }

  // ---- where a cursor stands on the ideal timeline ----------------------------------

  /** c is in the k-th step of the walk that began at w. */
  predicate StandsAt(e: Setup, w: Walk, c: Cursor, k: nat)
    requires Sane(e)
  {
    && Ready(c)
    && c.walk == Orbit(e, w, k)
    && (c.stepBeats == 0.0 || c.stepBeats == StepBeats(e, c.walk.step))
  }

  /** Which step is k-th and when it should begin, in beats after the first. */
  datatype Timeline = Timeline(step: nat -> nat, start: nat -> real)

  function TimelineOf(e: Setup, w: Walk): Timeline
    requires Sane(e)
  {
    Timeline((k: nat) => Orbit(e, w, k).step, (k: nat) => Start(e, w, k))
  }

  /** Every step of a timeline lasts. */
  ghost predicate Lasting(tl: Timeline) {
    && tl.start(0) == 0.0
    && forall i: nat, j: nat :: i < j ==> tl.start(i) + SHORTEST_STEP <= tl.start(j)
  }

  lemma {:induction false} SequencerTimelineLasts(e: Setup, w: Walk)
    requires Sane(e)
    ensures Lasting(TimelineOf(e, w))
  {
    forall i: nat, j: nat | i < j
      ensures TimelineOf(e, w).start(i) + SHORTEST_STEP <= TimelineOf(e, w).start(j)
    {
      StartGrows(e, w, i, j);
    }
  }

  /** How far the cursor has come, in beats after the walk began. */
  function Position(tl: Timeline, c: Cursor, k: nat): real { tl.start(k) + c.beatAccum }

  /** How far a cursor is ahead of a clock. */
  function Ahead(tl: Timeline, c: Cursor, k: nat, elapsed: real): real { Position(tl, c, k) - elapsed }

  /** How much further than the clock a cursor has moved. */
  function Skipped(tl: Timeline, c: Cursor, k: nat, c': Cursor, k': nat, beats: real): real {
    Position(tl, c', k') - Position(tl, c, k) - beats
  }

  /** The first step whose boundary is still to be published. */
  function NextOrdinal(c: Cursor, k: nat): nat { if c.beatAccum == 0.0 then k else k + 1 }

  /** bs are the boundaries of the steps from first on, shifted by offset beats. */
  predicate OnTimeline(tl: Timeline, first: nat, offset: real, bs: seq<Boundary>) {
    forall i :: 0 <= i < |bs| ==> bs[i] == Boundary(offset + tl.start(first + i), tl.step(first + i))
  }

  lemma {:induction false} TimelineJoins(tl: Timeline, first: nat, offset: real, a: seq<Boundary>, b: seq<Boundary>)
    requires OnTimeline(tl, first, offset, a) && OnTimeline(tl, first + |a|, offset, b)
    ensures OnTimeline(tl, first, offset, a + b)
  {
    var ab := a + b;
    forall i | 0 <= i < |ab| ensures ab[i] == Boundary(offset + tl.start(first + i), tl.step(first + i)) {
      if i >= |a| { assert ab[i] == b[i - |a|]; }
    }
  }

  /** A cursor at the start of a step, or not within the tolerance of the next. */
  predicate Settled(tl: Timeline, c: Cursor, k: nat) {
    c.beatAccum == 0.0 || (0.0 < c.beatAccum && Position(tl, c, k) < tl.start(k + 1) - TOLERANCE)
  }

  lemma {:induction false} AtTimeline(e: Setup, w: Walk, k: nat)
    requires Sane(e)
    ensures TimelineOf(e, w).start(k) == Start(e, w, k) && TimelineOf(e, w).step(k) == Orbit(e, w, k).step
  {}

  lemma {:induction false} NextOnTimeline(e: Setup, w: Walk, k: nat)
    requires Sane(e)
    ensures TimelineOf(e, w).start(k + 1) == TimelineOf(e, w).start(k) + StepBeats(e, Orbit(e, w, k).step)
  {
    AtTimeline(e, w, k);
    var next := k + 1;
    assert Start(e, w, next) == Start(e, w, k) + StepBeats(e, Orbit(e, w, k).step);
    AtTimeline(e, w, next);
  }

  /** One pass moves the cursor as far as the clock, except that it may skip the last
      billionth of a beat of a step when the window ends there. */
  lemma {:induction false} SegmentKeepsTime(e: Setup, w: Walk, k: nat, c: Cursor, now: real,
                                            end: real) returns (k': nat)
    requires Sane(e) && StandsAt(e, w, c, k) && now < end
    ensures var (c', next) := Segment(e, Loaded(e, c), now, end);
            var tl := TimelineOf(e, w);
            && now < next <= end
            && StandsAt(e, w, c', k') && Settled(tl, c', k')
            && NextOrdinal(c', k') == NextOrdinal(c, k) + |Published(Loaded(e, c), now)|
            && 0.0 <= Skipped(tl, c, k, c', k', next - now) <= TOLERANCE
            && (Skipped(tl, c, k, c', k', next - now) > 0.0 ==> next == end && c'.beatAccum == 0.0)
  {
    var (c', next) := Segment(e, Loaded(e, c), now, end);
    k' := if c'.beatAccum == 0.0 then k + 1 else k;
    assert Orbit(e, w, k + 1) == Advance(e, Orbit(e, w, k));
    NextOnTimeline(e, w, k);
    SegmentArithmetic(TimelineOf(e, w), Loaded(e, c), k, Advance(e, c.walk), now, end, e);
  }

  lemma {:induction false} SegmentArithmetic(tl: Timeline, c: Cursor, k: nat, next: Walk, now: real, end: real,
                                             e: Setup)
    requires Sane(e) && next == Advance(e, c.walk) && Ready(c) && c.stepBeats >= SHORTEST_STEP && now < end
    requires tl.start(k + 1) == tl.start(k) + c.stepBeats
    ensures var (c', at) := Segment(e, c, now, end);
            var k' := if c'.beatAccum == 0.0 then k + 1 else k;
            && now < at <= end && Settled(tl, c', k')
            && (c'.beatAccum == 0.0 ==> c' == Cursor(next, 0.0, 0.0))
            && (c'.beatAccum != 0.0 ==> c' == c.(beatAccum := c'.beatAccum))
            && 0.0 <= Skipped(tl, c, k, c', k', at - now) <= TOLERANCE
            && (Skipped(tl, c, k, c', k', at - now) > 0.0 ==> at == end && c'.beatAccum == 0.0)
  {}

  /** One window: it publishes exactly the steps that begin in it, each at its place on
      the timeline the cursor started on, and the cursor ends where the clock does or,
      when the window ends in the last billionth of a step, at the end of that step. */
  predicate WindowInTime(tl: Timeline, c: Cursor, k: nat, now: real, end: real, c': Cursor, k': nat,
                         bs: seq<Boundary>) {
    && NextOrdinal(c', k') == NextOrdinal(c, k) + |bs|
    && OnTimeline(tl, NextOrdinal(c, k), now - Position(tl, c, k), bs)
    && 0.0 <= Skipped(tl, c, k, c', k', end - now) <= TOLERANCE
    && (Skipped(tl, c, k, c', k', end - now) > 0.0 ==> c'.beatAccum == 0.0)
    && (now < end ==> Settled(tl, c', k'))
  }

  lemma {:induction false} WindowKeepsTime(e: Setup, w: Walk, k: nat, c: Cursor, now: real, end: real)
    returns (k': nat)
    requires Sane(e) && StandsAt(e, w, c, k) && now <= end
    ensures StandsAt(e, w, Play(e, c, now, end).0, k')
    ensures WindowInTime(TimelineOf(e, w), c, k, now, end, Play(e, c, now, end).0, k', Play(e, c, now, end).1)
    decreases Passes(now, end)
  {
    if now >= end {
      k' := k;
    } else {
      SegmentMoves(e, c, now, end);
      var (c1, next) := Segment(e, Loaded(e, c), now, end);
      var k1 := SegmentKeepsTime(e, w, k, c, now, end);
      k' := WindowKeepsTime(e, w, k1, c1, next, end);
      SegmentThenWindow(e, w, k, c, now, c1, k1, next, Play(e, c1, next, end).0, k', end, Play(e, c1, next, end).1);
    }
  }

  lemma {:induction false} SegmentThenWindow(e: Setup, w: Walk, k: nat, c: Cursor, now: real, c1: Cursor, k1: nat,
                                             next: real, c2: Cursor, k2: nat, end: real, rest: seq<Boundary>)
    requires Sane(e) && StandsAt(e, w, c, k) && now < next <= end
    requires NextOrdinal(c1, k1) == NextOrdinal(c, k) + |Published(Loaded(e, c), now)|
    requires 0.0 <= Skipped(TimelineOf(e, w), c, k, c1, k1, next - now) <= TOLERANCE
    requires Settled(TimelineOf(e, w), c1, k1)
    requires Skipped(TimelineOf(e, w), c, k, c1, k1, next - now) > 0.0 ==> next == end && c1.beatAccum == 0.0
    requires WindowInTime(TimelineOf(e, w), c1, k1, next, end, c2, k2, rest)
    requires next == end ==> c2 == c1 && k2 == k1 && rest == []
    ensures WindowInTime(TimelineOf(e, w), c, k, now, end, c2, k2, Published(Loaded(e, c), now) + rest)
  {
    AtTimeline(e, w, k);
    FirstOnTimeline(TimelineOf(e, w), c, k, now);
    WindowsJoin(TimelineOf(e, w), c, k, now, c1, k1, next, Published(Loaded(e, c), now), c2, k2, end, rest);
  }

  lemma {:induction false} FirstOnTimeline(tl: Timeline, c: Cursor, k: nat, now: real)
    requires tl.step(k) == c.walk.step
    ensures OnTimeline(tl, NextOrdinal(c, k), now - Position(tl, c, k), Published(c, now))
  {
    if c.beatAccum == 0.0 {
      assert now - Position(tl, c, k) + tl.start(k) == now;
    }
  }

  lemma {:induction false} SameOffset(tl: Timeline, first: nat, a: real, b: real, bs: seq<Boundary>)
    requires a == b && OnTimeline(tl, first, a, bs)
    ensures OnTimeline(tl, first, b, bs)
  {}

  lemma {:induction false} WindowsJoin(tl: Timeline, c: Cursor, k: nat, now: real, c1: Cursor, k1: nat, next: real,
                                       first: seq<Boundary>, c2: Cursor, k2: nat, end: real, rest: seq<Boundary>)
    requires now < next <= end
    requires NextOrdinal(c1, k1) == NextOrdinal(c, k) + |first|
    requires OnTimeline(tl, NextOrdinal(c, k), now - Position(tl, c, k), first)
    requires 0.0 <= Skipped(tl, c, k, c1, k1, next - now) <= TOLERANCE && Settled(tl, c1, k1)
    requires Skipped(tl, c, k, c1, k1, next - now) > 0.0 ==> next == end && c1.beatAccum == 0.0
    requires WindowInTime(tl, c1, k1, next, end, c2, k2, rest)
    requires next == end ==> c2 == c1 && k2 == k1 && rest == []
    ensures WindowInTime(tl, c, k, now, end, c2, k2, first + rest)
  {
    if next == end {
      assert first + rest == first;
    } else {
      SameOffset(tl, NextOrdinal(c1, k1), next - Position(tl, c1, k1), now - Position(tl, c, k), rest);
      TimelineJoins(tl, NextOrdinal(c, k), now - Position(tl, c, k), first, rest);
    }
  }

  // ---- a run of windows ---------------------------------------------------------------

  /** The windows between consecutive times, played one after another. */
  function PlayAll(e: Setup, c: Cursor, times: seq<real>): (r: (Cursor, seq<Boundary>))
    requires Sane(e) && Ready(c)
    ensures Ready(r.0)
  {
    if |times| < 2 then (c, [])
    else
      var n := |times| - 1;
      var (before, bs) := PlayAll(e, c, times[..n]);
      var (after, more) := Play(e, before, times[n - 1], times[n]);
      (after, bs + more)
  }

  predicate Increasing(times: seq<real>) {
    forall i, j :: 0 <= i < j < |times| ==> times[i] < times[j]
  }

  function Windows(times: seq<real>): nat
    requires |times| > 0
  {
    |times| - 1
  }

  function Elapsed(times: seq<real>): real
    requires |times| > 0
  {
    times[|times| - 1] - times[0]
  }

  /** A time in the last billionth of a beat before some step begins. */
  ghost predicate NearBoundary(tl: Timeline, elapsed: real) {
    exists i: nat :: tl.start(i) - TOLERANCE <= elapsed < tl.start(i)
  }

  ghost predicate NeverNearBoundary(tl: Timeline, times: seq<real>) {
    forall j :: 0 < j < |times| ==> !NearBoundary(tl, times[j] - times[0])
  }

  /** A billionth of a beat for every window. */
  function Slack(windows: nat): (r: real)
    ensures r >= 0.0
  {
    if windows == 0 then 0.0 else Slack(windows - 1) + TOLERANCE
  }

  lemma {:induction false} SlackIsLinear(windows: nat)
    ensures Slack(windows) == TOLERANCE * windows as real
  {
    if windows > 0 { SlackIsLinear(windows - 1); }
  }

  /** b is the boundary of the i-th step, never late and early by the slack of so many
      windows at most. */
  predicate InTime(tl: Timeline, origin: real, windows: nat, b: Boundary, i: nat) {
    b.step == tl.step(i) && origin + tl.start(i) - Slack(windows) <= b.beat <= origin + tl.start(i)
  }

  /** Every step begins once, in order; never late; at most a billionth of a beat
      early for each window played. */
  predicate PublishedInTime(tl: Timeline, origin: real, windows: nat, bs: seq<Boundary>) {
    forall i :: 0 <= i < |bs| ==> InTime(tl, origin, windows, bs[i], i)
  }

  /** Each step is published once, in order, never late, at most a billionth of a beat
      early per window; the cursor is ahead of the clock by no more; and it is exactly
      on the clock if and only if exact, and then so is everything published. */
  predicate KeepsTimeAt(tl: Timeline, origin: real, elapsed: real, windows: nat, exact: bool, c: Cursor, k: nat,
                        bs: seq<Boundary>) {
    && |bs| == NextOrdinal(c, k)
    && PublishedInTime(tl, origin, windows, bs)
    && 0.0 <= Ahead(tl, c, k, elapsed) <= Slack(windows)
    && (Ahead(tl, c, k, elapsed) == 0.0 <==> exact)
    && (exact ==> OnTimeline(tl, 0, origin, bs))
  }

  /** So it is after all windows between times, exact if and only if no window ended
      within a billionth of a beat before a step. */
  ghost predicate KeepsTime(tl: Timeline, times: seq<real>, c: Cursor, k: nat, bs: seq<Boundary>)
    requires |times| > 0
  {
    KeepsTimeAt(tl, times[0], Elapsed(times), Windows(times), NeverNearBoundary(tl, times), c, k, bs)
  }

  /** Every run of consecutive windows from a reset keeps time, in every mode. */
  lemma {:induction false} RunKeepsTime(e: Setup, times: seq<real>) returns (k: nat)
    requires Sane(e) && |times| > 0 && Increasing(times)
    ensures StandsAt(e, ResetWalk(e), PlayAll(e, ResetCursor(e), times).0, k)
    ensures KeepsTime(TimelineOf(e, ResetWalk(e)), times,
                      PlayAll(e, ResetCursor(e), times).0, k, PlayAll(e, ResetCursor(e), times).1)
    decreases |times|
  {
    if |times| == 1 {
      k := ResetKeepsTime(e, times);
    } else {
      var earlier := times[..|times| - 1];
      var k0 := RunKeepsTime(e, earlier);
      var played := PlayAll(e, ResetCursor(e), earlier);
      k := NextWindow(e, ResetWalk(e), times, k0, played.0, played.1);
      PlayAllMore(e, ResetCursor(e), times);
    }
  }

  lemma {:induction false} PlayAllMore(e: Setup, c: Cursor, times: seq<real>)
    requires Sane(e) && Ready(c) && |times| >= 2
    ensures var played := PlayAll(e, c, times[..|times| - 1]);
            var more := Play(e, played.0, times[|times| - 2], times[|times| - 1]);
            PlayAll(e, c, times) == (more.0, played.1 + more.1)
  {}

  /** Later windows keep what earlier ones have published. */
  lemma {:induction false} PlayAllPrefix(e: Setup, c: Cursor, times: seq<real>, m: nat)
    requires Sane(e) && Ready(c) && 1 <= m <= |times|
    ensures PlayAll(e, c, times[..m]).1 <= PlayAll(e, c, times).1
    decreases |times|
  {
    if m == |times| {
      assert times[..m] == times;
    } else {
      var earlier := times[..|times| - 1];
      assert earlier[..m] == times[..m];
      PlayAllPrefix(e, c, earlier, m);
      PlayAllMore(e, c, times);
    }
  }

  /** The i-th boundary is published in the j-th window of the run. */
  predicate InWindowOfRun(e: Setup, times: seq<real>, j: nat, i: nat)
    requires Sane(e) && j + 1 < |times|
  {
    |PlayAll(e, ResetCursor(e), times[..j + 1]).1| <= i < |PlayAll(e, ResetCursor(e), times[..j + 2]).1|
  }

  /** Each boundary is early by at most a billionth of a beat for every window that ended
      before its own, however many follow. */
  lemma {:induction false} BoundaryKeepsTime(e: Setup, times: seq<real>, j: nat, i: nat)
    requires Sane(e) && Increasing(times) && j + 1 < |times| && InWindowOfRun(e, times, j, i)
    ensures i < |PlayAll(e, ResetCursor(e), times).1|
    ensures InTime(TimelineOf(e, ResetWalk(e)), times[0], j, PlayAll(e, ResetCursor(e), times).1[i], i)
  {
    var upTo := times[..j + 2];
    assert upTo[..|upTo| - 1] == times[..j + 1];
    PlayAllMore(e, ResetCursor(e), upTo);
    var played := PlayAll(e, ResetCursor(e), times[..j + 1]);
    PublishedAfter(e, times[..j + 1], played.0, played.1, times[j], times[j + 1], i);
    PlayAllPrefix(e, ResetCursor(e), times, j + 2);
  }

  lemma {:induction false} PublishedAfter(e: Setup, prev: seq<real>, c: Cursor, bs: seq<Boundary>, now: real,
                                          end: real, i: nat)
    requires Sane(e) && Increasing(prev) && |prev| > 0 && now == prev[|prev| - 1] && now <= end
    requires c == PlayAll(e, ResetCursor(e), prev).0 && bs == PlayAll(e, ResetCursor(e), prev).1
    requires |bs| <= i < |bs| + |Play(e, c, now, end).1|
    ensures InTime(TimelineOf(e, ResetWalk(e)), prev[0], Windows(prev), (bs + Play(e, c, now, end).1)[i], i)
  {
    var k := RunKeepsTime(e, prev);
    NextPublished(e, ResetWalk(e), prev, c, k, bs, now, end, i);
  }

  lemma {:induction false} NextPublished(e: Setup, w: Walk, prev: seq<real>, c: Cursor, k: nat, bs: seq<Boundary>,
                                         now: real, end: real, i: nat)
    requires Sane(e) && |prev| > 0 && now == prev[|prev| - 1] && now <= end && StandsAt(e, w, c, k)
    requires KeepsTime(TimelineOf(e, w), prev, c, k, bs) && |bs| <= i < |bs| + |Play(e, c, now, end).1|
    ensures InTime(TimelineOf(e, w), prev[0], Windows(prev), (bs + Play(e, c, now, end).1)[i], i)
  {
    var k' := WindowKeepsTime(e, w, k, c, now, end);
    PublishedNext(TimelineOf(e, w), prev[0], Windows(prev), c, k, bs, now, Play(e, c, now, end).1, i);
  }

  lemma {:induction false} PublishedNext(tl: Timeline, origin: real, windows: nat, c: Cursor, k: nat,
                                         bs: seq<Boundary>, now: real, more: seq<Boundary>, i: nat)
    requires |bs| == NextOrdinal(c, k) && 0.0 <= Ahead(tl, c, k, now - origin) <= Slack(windows)
    requires OnTimeline(tl, |bs|, now - Position(tl, c, k), more) && |bs| <= i < |bs| + |more|
    ensures InTime(tl, origin, windows, (bs + more)[i], i)
  {
    assert (bs + more)[i] == more[i - |bs|];
  }

  lemma {:induction false} ResetKeepsTime(e: Setup, times: seq<real>) returns (k: nat)
    requires Sane(e) && |times| == 1
    ensures StandsAt(e, ResetWalk(e), ResetCursor(e), k)
    ensures KeepsTime(TimelineOf(e, ResetWalk(e)), times, ResetCursor(e), k, [])
  {
    k := 0;
    SequencerTimelineLasts(e, ResetWalk(e));
    NoWindowsKeepTime(TimelineOf(e, ResetWalk(e)), times, ResetCursor(e));
  }

  lemma {:induction false} NextWindow(e: Setup, w: Walk, times: seq<real>, k: nat, c: Cursor,
                                      bs: seq<Boundary>) returns (k': nat)
    requires Sane(e) && |times| >= 2 && times[|times| - 2] < times[|times| - 1]
    requires StandsAt(e, w, c, k)
    requires KeepsTime(TimelineOf(e, w), times[..|times| - 1], c, k, bs)
    ensures var (c', more) := Play(e, c, times[|times| - 2], times[|times| - 1]);
            StandsAt(e, w, c', k') && KeepsTime(TimelineOf(e, w), times, c', k', bs + more)
  {
    var n := |times| - 1;
    k' := WindowKeepsTime(e, w, k, c, times[n - 1], times[n]);
    SequencerTimelineLasts(e, w);
    TimesGrow(TimelineOf(e, w), times, c, k, bs, Play(e, c, times[n - 1], times[n]).0, k',
              Play(e, c, times[n - 1], times[n]).1);
  }

  lemma {:induction false} TimesGrow(tl: Timeline, times: seq<real>, c: Cursor, k: nat, bs: seq<Boundary>, c': Cursor,
                                     k': nat, more: seq<Boundary>)
    requires Lasting(tl) && |times| >= 2 && times[|times| - 2] < times[|times| - 1]
    requires KeepsTime(tl, times[..|times| - 1], c, k, bs)
    requires WindowInTime(tl, c, k, times[|times| - 2], times[|times| - 1], c', k', more)
    ensures KeepsTime(tl, times, c', k', bs + more)
  {
    NeverNearGrows(tl, times);
    var prev := times[..|times| - 1];
    assert prev[0] == times[0] && prev[|prev| - 1] == times[|times| - 2];
    WindowGrowsRun(tl, prev[0], Elapsed(prev), Windows(prev), NeverNearBoundary(tl, prev), c, k, bs,
                   times[|times| - 2], times[|times| - 1], c', k', more,
                   times[0], Elapsed(times), Windows(times), NeverNearBoundary(tl, times));
  }

  lemma {:induction false} NoWindowsKeepTime(tl: Timeline, times: seq<real>, c: Cursor)
    requires Lasting(tl) && |times| == 1 && c.beatAccum == 0.0
    ensures KeepsTime(tl, times, c, 0, [])
  {}

  /** The primed values are those after one more window. */
  lemma {:induction false} WindowGrowsRun(tl: Timeline, origin: real, elapsed: real, windows: nat, exact: bool,
                                          c: Cursor, k: nat, bs: seq<Boundary>, now: real, end: real, c': Cursor,
                                          k': nat, more: seq<Boundary>, origin': real, elapsed': real, windows': nat,
                                          exact': bool)
    requires Lasting(tl) && now < end && now == origin + elapsed
    requires KeepsTimeAt(tl, origin, elapsed, windows, exact, c, k, bs)
    requires WindowInTime(tl, c, k, now, end, c', k', more)
    requires origin' == origin && elapsed' == end - origin && windows' == windows + 1
    requires exact' <==> exact && !NearBoundary(tl, elapsed')
    ensures KeepsTimeAt(tl, origin', elapsed', windows', exact', c', k', bs + more)
  {
    RunGrows(tl, origin, windows, c, k, bs, now, more);
    AheadGrows(tl, origin, windows, c, k, now, end, c', k', more);
    if exact {
      NearBoundaryIsWhereItSkips(tl, k', c', elapsed');
      ExactWindowsJoin(tl, c, k, origin, now, bs, more);
    }
  }

  lemma {:induction false} ExactWindowsJoin(tl: Timeline, c: Cursor, k: nat, origin: real, now: real,
                                            bs: seq<Boundary>, more: seq<Boundary>)
    requires |bs| == NextOrdinal(c, k) && now - Position(tl, c, k) == origin
    requires OnTimeline(tl, 0, origin, bs) && OnTimeline(tl, |bs|, now - Position(tl, c, k), more)
    ensures OnTimeline(tl, 0, origin, bs + more)
  {
    SameOffset(tl, |bs|, now - Position(tl, c, k), origin, more);
    TimelineJoins(tl, 0, origin, bs, more);
  }

  lemma {:induction false} AheadGrows(tl: Timeline, origin: real, windows: nat, c: Cursor, k: nat, now: real,
                                      end: real, c': Cursor, k': nat, more: seq<Boundary>)
    requires 0.0 <= Ahead(tl, c, k, now - origin) <= Slack(windows)
    requires WindowInTime(tl, c, k, now, end, c', k', more)
    ensures Ahead(tl, c, k, now - origin) <= Ahead(tl, c', k', end - origin)
    ensures Ahead(tl, c', k', end - origin) <= Ahead(tl, c, k, now - origin) + TOLERANCE
    ensures Ahead(tl, c', k', end - origin) <= Slack(windows + 1)
  {
    assert Slack(windows + 1) == Slack(windows) + TOLERANCE;
  }

  lemma {:induction false} NeverNearGrows(tl: Timeline, times: seq<real>)
    requires |times| >= 2
    ensures NeverNearBoundary(tl, times) <==>
            NeverNearBoundary(tl, times[..|times| - 1]) && !NearBoundary(tl, Elapsed(times))
  {
    var n := |times| - 1;
    if NeverNearBoundary(tl, times) {
      forall j | 0 < j < n ensures !NearBoundary(tl, times[..n][j] - times[..n][0]) {
        assert times[..n][j] == times[j];
      }
    } else {
      var j :| 0 < j < |times| && NearBoundary(tl, times[j] - times[0]);
      if j < n { assert times[..n][j] == times[j]; }
    }
  }

  lemma {:induction false} RunGrows(tl: Timeline, origin: real, windows: nat, c: Cursor, k: nat, bs: seq<Boundary>,
                                    now: real, more: seq<Boundary>)
    requires |bs| == NextOrdinal(c, k)
    requires PublishedInTime(tl, origin, windows, bs)
    requires 0.0 <= Ahead(tl, c, k, now - origin) <= Slack(windows)
    requires OnTimeline(tl, |bs|, now - Position(tl, c, k), more)
    ensures PublishedInTime(tl, origin, windows + 1, bs + more)
  {
    var all := bs + more;
    assert Slack(windows + 1) == Slack(windows) + TOLERANCE;
    forall i | 0 <= i < |all| ensures InTime(tl, origin, windows + 1, all[i], i) {
      if i >= |bs| { assert all[i] == more[i - |bs|]; }
    }
  }

  /** A cursor that was exact before its window is ahead after it just when the
      window ended within the tolerance. */
  lemma {:induction false} NearBoundaryIsWhereItSkips(tl: Timeline, k: nat, c: Cursor, elapsed: real)
    requires Lasting(tl) && Settled(tl, c, k)
    requires 0.0 <= Ahead(tl, c, k, elapsed) <= TOLERANCE
    requires Ahead(tl, c, k, elapsed) > 0.0 ==> c.beatAccum == 0.0
    ensures Ahead(tl, c, k, elapsed) == 0.0 <==> !NearBoundary(tl, elapsed)
  {
    if Ahead(tl, c, k, elapsed) == 0.0 {
      forall i: nat ensures !(tl.start(i) - TOLERANCE <= elapsed < tl.start(i)) {
        if i <= k {
          assert i < k ==> tl.start(i) + SHORTEST_STEP <= tl.start(k);
        } else {
          assert tl.start(k) + SHORTEST_STEP <= tl.start(k + 1);
          assert k + 1 < i ==> tl.start(k + 1) + SHORTEST_STEP <= tl.start(i);
        }
      }
    } else {
      assert tl.start(k) - TOLERANCE <= elapsed < tl.start(k);
    }
  }

  // ---- a window that ends in the tolerance ------------------------------------------------

  /** The engine's own pattern of eight sixteenths. */
  function Sixteenths(draws: nat -> nat): Setup { Setup(8, Forward, 0.25, 0.25, draws) }

  /** Half a billionth of a beat before the second step. */
  const JUST_BEFORE := 0.2499999995

  lemma {:induction false} JustBeforeSecondStep(draws: nat -> nat)
    ensures var e := Sixteenths(draws); var tl := TimelineOf(e, ResetWalk(e));
            tl.start(1) == 0.25 && NearBoundary(tl, JUST_BEFORE)
  {
    var e := Sixteenths(draws);
    var w := ResetWalk(e);
    AtTimeline(e, w, 1);
    assert Start(e, w, 0) == 0.0;
    assert Orbit(e, w, 0) == w;
    assert TimelineOf(e, w).start(1) == 0.25;
  }

  /** When a window ends there the next one begins with the second step, too early. */
  lemma {:induction false} WindowEndingJustBefore(draws: nat -> nat)
    ensures var e := Sixteenths(draws);
            [Boundary(0.0, 0), Boundary(JUST_BEFORE, 1)] <= PlayAll(e, ResetCursor(e), [0.0, JUST_BEFORE, 0.5]).1
  {
    var e := Sixteenths(draws);
    var c, times := ResetCursor(e), [0.0, JUST_BEFORE, 0.5];
    var (after, bs) := Play(e, c, 0.0, JUST_BEFORE);
    FirstWindow(e, c);
    FirstBoundary(e, after, JUST_BEFORE, 0.5);
    assert times[..2] == [0.0, JUST_BEFORE] && times[..2][..1] == [0.0];
    PlayAllMore(e, c, times[..2]);
    PlayAllMore(e, c, times);
    assert [] + bs == bs;
  }

  lemma {:induction false} FirstWindow(e: Setup, c: Cursor)
    requires e.length == 8 && e.mode == Forward && e.evenBeats == 0.25 && e.oddBeats == 0.25
    requires c == ResetCursor(e)
    ensures Play(e, c, 0.0, JUST_BEFORE) == (Cursor(Walk(1, 1, 0), 0.0, 0.0), [Boundary(0.0, 0)])
  {
    SegmentMoves(e, c, 0.0, JUST_BEFORE);
    var next := Cursor(Walk(1, 1, 0), 0.0, 0.0);
    assert Segment(e, Loaded(e, c), 0.0, JUST_BEFORE) == (next, JUST_BEFORE);
    assert Play(e, next, JUST_BEFORE, JUST_BEFORE) == (next, []);
    assert Published(Loaded(e, c), 0.0) + [] == [Boundary(0.0, 0)];
  }
}
