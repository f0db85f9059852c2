// Seeking straight to a beat, and its agreement with playing up to that beat.
module SequencerSeek {
  import opened Reals
  import opened Traversal
  import opened SequencerTimeline

  /** How long each ordinal of the closed form lasts. */
  function OrdinalBeats(e: Setup): nat -> real
    requires Sane(e)
  {
    (k: nat) => StepBeats(e, StepForOrdinal(e, k).0)
  }

  /** The first k of some lengths. */
  function Sum(beats: nat -> real, k: nat): real { if k == 0 then 0.0 else Sum(beats, k - 1) + beats(k - 1) }

  /** Where an ordinal begins, summed along the closed form. */
  function OrdinalStart(e: Setup, k: nat): real
    requires Sane(e)
  {
    Sum(OrdinalBeats(e), k)
  }

  lemma {:induction false} OrdinalStartGrows(e: Setup, k: nat)
    requires Sane(e)
    ensures OrdinalStart(e, k) >= 0.0
    ensures k > 0 ==> OrdinalStart(e, k) >= SHORTEST_STEP
  {
    if k > 0 {
      OrdinalStartGrows(e, k - 1);
      assert OrdinalBeats(e)(k - 1) >= SHORTEST_STEP;
    }
  }

  function CycleBeats(e: Setup): (r: real)
    requires Sane(e)
    ensures r >= SHORTEST_STEP
  {
    OrdinalStartGrows(e, CycleLength(e));
    OrdinalStart(e, CycleLength(e))
  }

  /** The remainder of b by c, for a positive b, as fmod takes it. */
  function FMod(b: real, c: real): real
    requires c > 0.0
  {
    b - Product(Ratio(b, c).Floor as real, c)
  }

  /** Which of the lengths of a cycle a beat falls in, searched from ord. */
  function Search(beats: nat -> real, cycle: nat, local: real, ord: nat): (r: nat)
    requires ord < cycle
    ensures ord <= r < cycle
    decreases cycle - ord
  {
    if local < Sum(beats, ord) + beats(ord) || ord == cycle - 1 then ord else Search(beats, cycle, local, ord + 1)
  }

  /** A search from the start has come to ord, which begins at accum. */
  ghost predicate SearchedTo(beats: nat -> real, cycle: nat, local: real, ord: nat, accum: real) {
    ord < cycle && accum == Sum(beats, ord) && Search(beats, cycle, local, 0) == Search(beats, cycle, local, ord)
  }

  lemma {:induction false} SearchMore(beats: nat -> real, cycle: nat, local: real, ord: nat, accum: real, length: real)
    requires SearchedTo(beats, cycle, local, ord, accum) && length == beats(ord)
    ensures if local < accum + length || ord == cycle - 1 then Search(beats, cycle, local, 0) == ord
            else SearchedTo(beats, cycle, local, ord + 1, accum + length)
  {}

  /** The ordinal of the cycle that a beat of the cycle falls in. */
  function Locate(e: Setup, local: real, ord: nat): (r: nat)
    requires Sane(e) && ord < CycleLength(e)
    ensures ord <= r < CycleLength(e)
  {
    Search(OrdinalBeats(e), CycleLength(e), local, ord)
  }

  /** The cursor standing local beats into the cycle. */
  function CursorWithin(e: Setup, local: real): Cursor
    requires Sane(e)
  {
    var ord := Locate(e, local, 0);
    var stepBeats := StepBeats(e, StepForOrdinal(e, ord).0);
    Cursor(OrdinalWalk(e, ord), ClampReal(local - OrdinalStart(e, ord), 0.0, stepBeats - TOLERANCE), stepBeats)
  }

  /** The cursor a seek leaves. */
  function Seek(e: Setup, beat: real): Cursor
    requires Sane(e)
  {
    if beat <= 0.0 || e.mode == Random then
      ResetCursor(e).(stepBeats := StepBeats(e, ResetWalk(e).step))
    else CursorWithin(e, FMod(beat, CycleBeats(e)))
  }

  // ---- the two timelines are one ---------------------------------------------------

  ghost predicate BeatsOf(e: Setup, w: Walk, beats: nat -> real)
    requires Sane(e)
  {
    forall k: nat :: beats(k) == StepBeats(e, Orbit(e, w, k).step)
  }

  lemma {:induction false} StartIsSum(e: Setup, w: Walk, beats: nat -> real, k: nat)
    requires Sane(e) && BeatsOf(e, w, beats)
    ensures Start(e, w, k) == Sum(beats, k)
  {
    if k > 0 { StartIsSum(e, w, beats, k - 1); }
  }

  lemma {:induction false} OrdinalStartIsStart(e: Setup, k: nat)
    requires Sane(e) && e.mode != Random
    ensures OrdinalStart(e, k) == Start(e, ResetWalk(e), k)
  {
    var w, beats := ResetWalk(e), OrdinalBeats(e);
    forall i: nat ensures beats(i) == StepBeats(e, Orbit(e, w, i).step) { SteppingIsClosedForm(e, i); }
    StartIsSum(e, w, beats, k);
  }

  /** n times c, by repeated addition. */
  function Repeated(n: nat, c: real): real { if n == 0 then 0.0 else Repeated(n - 1, c) + c }

  lemma {:induction false} RepeatedIsProduct(n: nat, c: real)
    ensures Repeated(n, c) == Product(n as real, c)
  {
    if n == 0 {
      ZeroProduct(c);
    } else {
      RepeatedIsProduct(n - 1, c);
      ProductNext((n - 1) as real, c);
    }
  }

  /** What a walk shows a cycle later. */
  function Later<T>(f: nat -> T, cycle: nat, k: nat): T { f(k + cycle) }

  ghost predicate Periodic<T(!new)>(f: nat -> T, cycle: nat) {
    forall k: nat {:trigger Later(f, cycle, k)} :: Later(f, cycle, k) == f(k)
  }

  /** Lengths that repeat after a cycle add up to whole cycles. */
  lemma {:induction false} SumRepeats(beats: nat -> real, cycle: nat, j: nat)
    requires Periodic(beats, cycle)
    ensures Sum(beats, j + cycle) == Sum(beats, cycle) + Sum(beats, j)
  {
    if j > 0 {
      SumRepeats(beats, cycle, j - 1);
      assert Later(beats, cycle, j - 1) == beats(j - 1);
    }
  }

  /** n cycles later the same is at the same distance. */
  lemma {:induction false} CyclesAddUp<T(!new)>(beats: nat -> real, at: nat -> T, cycle: nat, n: nat, j: nat)
    returns (k: nat)
    requires Periodic(beats, cycle) && Periodic(at, cycle)
    ensures Sum(beats, k) == Repeated(n, Sum(beats, cycle)) + Sum(beats, j) && at(k) == at(j)
    decreases n
  {
    if n == 0 {
      k := j;
    } else {
      k := CyclesAddUp(beats, at, cycle, n - 1, j + cycle);
      SumRepeats(beats, cycle, j);
      assert Later(at, cycle, j) == at(j);
    }
  }

  /** The place of each ordinal in the pattern. */
  function OrdinalPlaces(e: Setup): nat -> (nat, int)
    requires Sane(e)
  {
    (k: nat) => StepForOrdinal(e, k)
  }

  lemma {:induction false} OrdinalsArePeriodic(e: Setup)
    requires Sane(e)
    ensures Periodic(OrdinalBeats(e), CycleLength(e)) && Periodic(OrdinalPlaces(e), CycleLength(e))
  {
    var beats, places, cycle := OrdinalBeats(e), OrdinalPlaces(e), CycleLength(e);
    forall k: nat ensures Later(beats, cycle, k) == beats(k) && Later(places, cycle, k) == places(k) {
      OneCycleLater(e, k);
    }
  }

  lemma {:induction false} OneCycleLater(e: Setup, k: nat)
    requires Sane(e)
    ensures Later(OrdinalBeats(e), CycleLength(e), k) == OrdinalBeats(e)(k)
    ensures Later(OrdinalPlaces(e), CycleLength(e), k) == OrdinalPlaces(e)(k)
  {
    OrdinalsRepeat(e, k);
    BeatsAt(e, k);
    BeatsAt(e, k + CycleLength(e));
  }

  lemma {:induction false} BeatsAt(e: Setup, k: nat)
    requires Sane(e)
    ensures OrdinalBeats(e)(k) == StepBeats(e, StepForOrdinal(e, k).0)
  {}

  /** n cycles later the same step comes at the same distance. */
  lemma {:induction false} CyclesRepeat(e: Setup, n: nat, j: nat) returns (k: nat)
    requires Sane(e)
    ensures OrdinalStart(e, k) == Repeated(n, CycleBeats(e)) + OrdinalStart(e, j)
    ensures StepForOrdinal(e, k) == StepForOrdinal(e, j)
  {
    OrdinalsArePeriodic(e);
    k := CyclesAddUp(OrdinalBeats(e), OrdinalPlaces(e), CycleLength(e), n, j);
    assert OrdinalPlaces(e)(k) == OrdinalPlaces(e)(j);
  }

  /** fmod takes off a whole number of cycles. */
  lemma {:induction false} FModTakesOffCycles(b: real, c: real) returns (n: nat)
    requires b > 0.0 && c > 0.0
    ensures b == Repeated(n, c) + FMod(b, c) && 0.0 <= FMod(b, c) < c
  {
    FloorIsNotNegative(b, c);
    n := Ratio(b, c).Floor;
    FloorOfRatio(b, c);
    RepeatedIsProduct(n, c);
  }

  lemma {:induction false} SearchFinds(beats: nat -> real, cycle: nat, local: real, ord: nat)
    requires ord < cycle && Sum(beats, ord) <= local < Sum(beats, cycle)
    ensures var r := Search(beats, cycle, local, ord); Sum(beats, r) <= local < Sum(beats, r + 1)
    decreases cycle - ord
  {
    var next := ord + 1;
    assert Sum(beats, next) == Sum(beats, ord) + beats(ord);
    if local >= Sum(beats, next) { SearchFinds(beats, cycle, local, next); }
  }

  /** The search stops at the ordinal the beat falls in. */
  lemma {:induction false} LocateFinds(e: Setup, local: real, ord: nat)
    requires Sane(e) && ord < CycleLength(e)
    requires OrdinalStart(e, ord) <= local < CycleBeats(e)
    ensures var r := Locate(e, local, ord); OrdinalStart(e, r) <= local < OrdinalStart(e, r + 1)
  {
    SearchFinds(OrdinalBeats(e), CycleLength(e), local, ord);
  }

  /** A seek lands at the ordinal the beat falls in. */
  lemma {:induction false} SeekLandsAtOrdinal(e: Setup, beat: real) returns (k: nat)
    requires Sane(e) && e.mode != Random && beat > 0.0
    ensures OrdinalStart(e, k) <= beat < OrdinalStart(e, k) + StepBeats(e, StepForOrdinal(e, k).0)
    ensures var stepBeats := StepBeats(e, StepForOrdinal(e, k).0);
            Seek(e, beat) ==
            Cursor(OrdinalWalk(e, k), ClampReal(beat - OrdinalStart(e, k), 0.0, stepBeats - TOLERANCE), stepBeats)
  {
    var local := FMod(beat, CycleBeats(e));
    var n := FModTakesOffCycles(beat, CycleBeats(e));
    LocateFinds(e, local, 0);
    var ord := Locate(e, local, 0);
    k := CyclesRepeat(e, n, ord);
    CyclesLater(e, ord, k, local, beat, Repeated(n, CycleBeats(e)));
  }

  lemma {:induction false} CyclesLater(e: Setup, ord: nat, k: nat, local: real, beat: real, before: real)
    requires Sane(e) && beat == before + local && OrdinalStart(e, k) == before + OrdinalStart(e, ord)
    requires StepForOrdinal(e, k) == StepForOrdinal(e, ord)
    requires 0.0 <= local && ord == Locate(e, local, 0) && OrdinalStart(e, ord) <= local < OrdinalStart(e, ord + 1)
    ensures var stepBeats := StepBeats(e, StepForOrdinal(e, k).0);
            && OrdinalStart(e, k) <= beat < OrdinalStart(e, k) + stepBeats
            && CursorWithin(e, local) ==
               Cursor(OrdinalWalk(e, k), ClampReal(beat - OrdinalStart(e, k), 0.0, stepBeats - TOLERANCE), stepBeats)
  {
    assert beat - OrdinalStart(e, k) == local - OrdinalStart(e, ord);
  }

  /** a is in the k-th step, as far into it as the beat is, but never in its last
      billionth of a beat. */
  predicate LandsAt(e: Setup, w: Walk, a: Cursor, beat: real, k: nat)
    requires Sane(e)
  {
    var tl := TimelineOf(e, w);
    && SameWalk(e, a.walk, Orbit(e, w, k))
    && a.stepBeats == StepBeats(e, Orbit(e, w, k).step)
    && tl.start(k) <= beat < tl.start(k + 1) == tl.start(k) + a.stepBeats
    && a.beatAccum == ClampReal(beat - tl.start(k), 0.0, a.stepBeats - TOLERANCE)
  }

  lemma {:induction false} SeekLands(e: Setup, beat: real) returns (k: nat)
    requires Sane(e) && e.mode != Random && beat > 0.0
    ensures LandsAt(e, ResetWalk(e), Seek(e, beat), beat, k)
  {
    k := SeekLandsAtOrdinal(e, beat);
    OrdinalStartIsStart(e, k);
    SteppingIsClosedForm(e, k);
    SameWalkSymmetric(e, Orbit(e, ResetWalk(e), k), OrdinalWalk(e, k));
    AtTimeline(e, ResetWalk(e), k);
    NextOnTimeline(e, ResetWalk(e), k);
  }

  lemma {:induction false} SameWalkSymmetric(e: Setup, a: Walk, b: Walk)
    requires SameWalk(e, a, b)
    ensures SameWalk(e, b, a)
  {}

  // ---- seek equals play -----------------------------------------------------------------

  /** Two cursors that nothing to come can tell apart. */
  predicate SameFuture(e: Setup, a: Cursor, b: Cursor)
    requires Sane(e)
  {
    && Ready(a) && Ready(b)
    && SameWalk(e, a.walk, b.walk)
    && a.beatAccum == b.beatAccum
    && Loaded(e, a).stepBeats == Loaded(e, b).stepBeats
  }

  /** Such cursors publish the same boundaries in every window to come. */
  lemma {:induction false} SameFutureSamePlay(e: Setup, a: Cursor, b: Cursor, now: real, end: real)
    requires Sane(e) && SameFuture(e, a, b)
    ensures Play(e, a, now, end).1 == Play(e, b, now, end).1
    ensures SameFuture(e, Play(e, a, now, end).0, Play(e, b, now, end).0)
    decreases Passes(now, end)
  {
    if now < end {
      SegmentMoves(e, a, now, end);
      SegmentMoves(e, b, now, end);
      SameFutureSegment(e, a, b, now, end);
      var (a', next) := Segment(e, Loaded(e, a), now, end);
      SameFutureSamePlay(e, a', Segment(e, Loaded(e, b), now, end).0, next, end);
    }
  }

  lemma {:induction false} SameFutureSegment(e: Setup, a: Cursor, b: Cursor, now: real, end: real)
    requires Sane(e) && SameFuture(e, a, b) && now < end
    ensures Segment(e, Loaded(e, a), now, end).1 == Segment(e, Loaded(e, b), now, end).1
    ensures SameFuture(e, Segment(e, Loaded(e, a), now, end).0, Segment(e, Loaded(e, b), now, end).0)
    ensures Published(Loaded(e, a), now) == Published(Loaded(e, b), now)
  {
    SameWalkAdvances(e, a.walk, b.walk);
  }

  /** A beat where seeking and playing part: after the start, in the last billionth of a
      beat of a step. */
  ghost predicate Parts(e: Setup, beat: real)
    requires Sane(e)
  {
    beat > 0.0 && NearBoundary(TimelineOf(e, ResetWalk(e)), beat)
  }

  /** Seek equals play: from a reset, seeking to a beat and playing up to it leave
      cursors with the same future if and only if the beat is not in the last billionth
      of a step, for every beat, pattern length, swing and mode but Random. Every window
      from that beat on then publishes the same boundaries, and otherwise none does. */
  lemma {:induction false} SeekIsPlayIff(e: Setup, beat: real)
    requires Sane(e) && e.mode != Random
    ensures SameFuture(e, Seek(e, beat), Play(e, ResetCursor(e), 0.0, beat).0) <==> !Parts(e, beat)
    ensures forall end | beat < end ::
              Play(e, Seek(e, beat), beat, end).1 == Play(e, Play(e, ResetCursor(e), 0.0, beat).0, beat, end).1
              <==> !Parts(e, beat)
  {
    var a, c := Seek(e, beat), Play(e, ResetCursor(e), 0.0, beat).0;
    if beat <= 0.0 {
      SeekBeforeStartIsReset(e, beat);
    } else {
      var k := SeekLands(e, beat);
      var j := PlayEnds(e, ResetCursor(e), beat);
      SeekMeetsPlay(e, ResetWalk(e), a, beat, k, j, c);
    }
    forall end | beat < end ensures Play(e, a, beat, end).1 == Play(e, c, beat, end).1 <==> !Parts(e, beat) {
      if Parts(e, beat) {
        FirstBoundary(e, a, beat, end);
        FirstBoundary(e, c, beat, end);
      } else {
        SameFutureSamePlay(e, a, c, beat, end);
      }
    }
  }

  /** Half a billionth before its second step a seek of the engine's own pattern misses
      the step that playing has reached. */
  lemma {:induction false} SeekJustBeforeMissesStep(draws: nat -> nat, end: real)
    requires JUST_BEFORE < end
    ensures var e := Sixteenths(draws);
            Play(e, Seek(e, JUST_BEFORE), JUST_BEFORE, end).1
            != Play(e, Play(e, ResetCursor(e), 0.0, JUST_BEFORE).0, JUST_BEFORE, end).1
  {
    JustBeforeSecondStep(draws);
    SeekIsPlayIff(Sixteenths(draws), JUST_BEFORE);
  }

  /** c is where the clock is or, in the last billionth of a step, at its end. */
  predicate EndsAt(tl: Timeline, c: Cursor, j: nat, beat: real) {
    && Settled(tl, c, j) && 0.0 <= Ahead(tl, c, j, beat) <= TOLERANCE
    && (Ahead(tl, c, j, beat) > 0.0 ==> c.beatAccum == 0.0)
  }

  lemma {:induction false} PlayEnds(e: Setup, c: Cursor, beat: real) returns (j: nat)
    requires Sane(e) && beat > 0.0 && c == ResetCursor(e)
    ensures StandsAt(e, ResetWalk(e), Play(e, c, 0.0, beat).0, j)
    ensures EndsAt(TimelineOf(e, ResetWalk(e)), Play(e, c, 0.0, beat).0, j, beat)
  {
    AtTimeline(e, ResetWalk(e), 0);
    j := WindowKeepsTime(e, ResetWalk(e), 0, c, 0.0, beat);
  }

  /** a sits where a seek lands, c where playing leaves off. */
  lemma {:induction false} SeekMeetsPlay(e: Setup, w: Walk, a: Cursor, beat: real, k: nat, j: nat, c: Cursor)
    requires Sane(e) && StandsAt(e, w, c, j) && EndsAt(TimelineOf(e, w), c, j, beat) && LandsAt(e, w, a, beat, k)
    ensures SameFuture(e, a, c) <==> !NearBoundary(TimelineOf(e, w), beat)
    ensures NearBoundary(TimelineOf(e, w), beat) ==> a.beatAccum != 0.0 && c.beatAccum == 0.0
  {
    SeekReady(e, w, a, beat, k);
    SequencerTimelineLasts(e, w);
    SeekWaits(TimelineOf(e, w), a, k, j, c, beat);
    if j == k { SameStepSameFuture(e, w, a, c, k); }
  }

  lemma {:induction false} SeekReady(e: Setup, w: Walk, a: Cursor, beat: real, k: nat)
    requires Sane(e) && LandsAt(e, w, a, beat, k)
    ensures Ready(a)
  {}

  lemma {:induction false} SameStepSameFuture(e: Setup, w: Walk, a: Cursor, c: Cursor, k: nat)
    requires Sane(e) && StandsAt(e, w, c, k) && Ready(a)
    requires SameWalk(e, a.walk, Orbit(e, w, k)) && a.stepBeats == StepBeats(e, Orbit(e, w, k).step)
    ensures SameFuture(e, a, c) <==> a.beatAccum == c.beatAccum
  {}

  /** In the last billionth of a step a seek stays in it while play has left it;
      elsewhere they meet. */
  lemma {:induction false} SeekWaits(tl: Timeline, a: Cursor, k: nat, j: nat, c: Cursor, beat: real)
    requires Lasting(tl) && tl.start(k) <= beat < tl.start(k + 1) == tl.start(k) + a.stepBeats
    requires a.beatAccum == ClampReal(beat - tl.start(k), 0.0, a.stepBeats - TOLERANCE) && EndsAt(tl, c, j, beat)
    ensures NearBoundary(tl, beat) ==> a.beatAccum > c.beatAccum == 0.0
    ensures !NearBoundary(tl, beat) ==> j == k && a.beatAccum == c.beatAccum
  {
    var lasts := tl.start(k) + SHORTEST_STEP <= tl.start(k + 1);
    NearBoundaryIsWhereItSkips(tl, j, c, beat);
    if NearBoundary(tl, beat) {
      BehindNearBoundary(tl, k, beat);
    } else {
      PlayLandsToo(tl, k, j, c, beat);
    }
  }

  lemma {:induction false} BehindNearBoundary(tl: Timeline, k: nat, beat: real)
    requires Lasting(tl) && NearBoundary(tl, beat) && tl.start(k) <= beat < tl.start(k + 1)
    ensures beat >= tl.start(k + 1) - TOLERANCE
  {
    var i: nat :| tl.start(i) - TOLERANCE <= beat < tl.start(i);
    var start, next := tl.start(i), tl.start(k + 1);
  }

  lemma {:induction false} PlayLandsToo(tl: Timeline, k: nat, j: nat, c: Cursor, beat: real)
    requires Lasting(tl) && !NearBoundary(tl, beat) && Settled(tl, c, j) && Ahead(tl, c, j, beat) == 0.0
    requires tl.start(k) <= beat < tl.start(k + 1)
    ensures j == k && c.beatAccum == beat - tl.start(k) && beat < tl.start(k + 1) - TOLERANCE
  {
    var next, nextOfPlay := tl.start(k + 1), tl.start(j + 1);
    NotJustBefore(tl, k + 1, beat);
  }

  lemma {:induction false} NotJustBefore(tl: Timeline, i: nat, elapsed: real)
    requires !NearBoundary(tl, elapsed)
    ensures elapsed < tl.start(i) - TOLERANCE || tl.start(i) <= elapsed
  {}

  /** A seek to a beat before the start is a reset. */
  lemma {:induction false} SeekBeforeStartIsReset(e: Setup, beat: real)
    requires Sane(e) && beat <= 0.0
    ensures SameFuture(e, Seek(e, beat), ResetCursor(e))
  {}
}
