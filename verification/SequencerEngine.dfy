// The step sequencer as the plug-in runs it: a cursor that setters, transport events,
// seeks and render windows update in place.
module SequencerEngines {
  import opened Basics
  import opened Generator
  import opened Reals
  import opened Remainders
  import opened Traversal
  import opened SequencerTimeline
  import opened SequencerSeek
  import opened SequencerSwing

  datatype RestartPolicy = OnTransportPlay | OnLoopWrap | Free

  datatype StepBoundary = StepBoundary(sampleOffset: int, stepIndex: nat)

  /** The frame of a beat in a window of frames, clamped to the window. */
  function BeatToFrame(beat: real, beatStart: real, beatsPerFrame: real, frameCount: int): int {
    if beatsPerFrame <= 0.0 || frameCount <= 0 then 0
    else Clamp(Ratio(beat - beatStart, beatsPerFrame).Floor, 0, frameCount - 1)
  }

  function Framed(b: Boundary, beatStart: real, beatsPerFrame: real, frameCount: int): StepBoundary {
    StepBoundary(BeatToFrame(b.beat, beatStart, beatsPerFrame, frameCount), b.step)
  }

  /** What a caller with room for capacity boundaries receives. */
  function Received(bs: seq<Boundary>, beatStart: real, beatsPerFrame: real, frameCount: int, capacity: int)
    : (r: seq<StepBoundary>)
    ensures |r| == if capacity <= 0 then 0 else if |bs| <= capacity then |bs| else capacity
    ensures forall i :: 0 <= i < |r| ==> r[i] == Framed(bs[i], beatStart, beatsPerFrame, frameCount)
  {
    var n := if capacity <= 0 then 0 else if |bs| <= capacity then |bs| else capacity;
    seq(n, i requires 0 <= i < n => Framed(bs[i], beatStart, beatsPerFrame, frameCount))
  }

  // ---- frames -----------------------------------------------------------------------

  /** Inside its window a beat falls in the frame it is given: no clamping. */
  lemma {:induction false} FrameHoldsBeat(beat: real, beatStart: real, beatEnd: real, beatsPerFrame: real,
                                          frameCount: int)
    requires frameCount > 0 && beatStart <= beat < beatEnd
    requires beatsPerFrame == Ratio(beatEnd - beatStart, frameCount as real)
    ensures var f := BeatToFrame(beat, beatStart, beatsPerFrame, frameCount);
            && 0 <= f < frameCount
            && beatStart + Product(f as real, beatsPerFrame) <= beat
            && beat < beatStart + Product(f as real, beatsPerFrame) + beatsPerFrame
  {
    var n := frameCount as real;
    FramesLast(beatEnd - beatStart, n, beatsPerFrame);
    var x := beat - beatStart;
    FloorOfRatio(x, beatsPerFrame);
    FloorIsNotNegative(x, beatsPerFrame);
    var f := Ratio(x, beatsPerFrame).Floor as real;
    FactorsKeepOrder(f, n, beatsPerFrame);
  }

  /** Any other beat gets the first frame or the last, whichever is nearer. */
  lemma {:induction false} OtherBeatsAreClamped(beat: real, beatStart: real, beatsPerFrame: real, frameCount: int)
    requires frameCount > 0 && beatsPerFrame > 0.0
    ensures beat < beatStart ==> BeatToFrame(beat, beatStart, beatsPerFrame, frameCount) == 0
    ensures beat >= beatStart + Product(frameCount as real, beatsPerFrame) ==>
              BeatToFrame(beat, beatStart, beatsPerFrame, frameCount) == frameCount - 1
  {
    var x := beat - beatStart;
    var f := Ratio(x, beatsPerFrame).Floor as real;
    FloorOfRatio(x, beatsPerFrame);
    ZeroProduct(beatsPerFrame);
    FactorsKeepOrder(f, 0.0, beatsPerFrame);
    ProductNext(f, beatsPerFrame);
    FactorsKeepOrder(frameCount as real, f + 1.0, beatsPerFrame);
  }

  lemma {:induction false} FramesLast(beats: real, n: real, beatsPerFrame: real)
    requires beats > 0.0 && n > 0.0 && beatsPerFrame == Ratio(beats, n)
    ensures beatsPerFrame > 0.0 && Product(n, beatsPerFrame) == beats
  {
    RatioTimes(beats, n);
    ZeroProduct(n);
    FactorsKeepOrder(0.0, beatsPerFrame, n);
    assert Product(n, beatsPerFrame) == Product(beatsPerFrame, n);
  }

  /** A later beat never gets an earlier frame. */
  lemma {:induction false} FramesAreMonotone(a: real, b: real, beatStart: real, beatsPerFrame: real, frameCount: int)
    requires a <= b
    ensures BeatToFrame(a, beatStart, beatsPerFrame, frameCount) <= BeatToFrame(b, beatStart, beatsPerFrame, frameCount)
  {
    if beatsPerFrame > 0.0 { RatioKeepsOrder(a - beatStart, b - beatStart, beatsPerFrame); }
  }

  /** Sample offsets handed to the caller are frames of the window, in order. */
  lemma {:induction false} OffsetsAreOrderedFrames(e: Setup, c: Cursor, beatStart: real, beatEnd: real,
                                                   frameCount: int, capacity: int)
    requires Sane(e) && Ready(c) && frameCount > 0 && beatStart < beatEnd
    ensures var r := Received(Play(e, c, beatStart, beatEnd).1, beatStart,
                              Ratio(beatEnd - beatStart, frameCount as real), frameCount, capacity);
            && (forall i :: 0 <= i < |r| ==> 0 <= r[i].sampleOffset < frameCount)
            && (forall i, j :: 0 <= i < j < |r| ==> r[i].sampleOffset <= r[j].sampleOffset)
  {
    BoundariesLieInWindow(e, c, beatStart, beatEnd);
    ReceivedInOrder(Play(e, c, beatStart, beatEnd).1, beatStart, beatEnd,
                    Ratio(beatEnd - beatStart, frameCount as real), frameCount, capacity);
  }

  lemma {:induction false} ReceivedInOrder(bs: seq<Boundary>, beatStart: real, beatEnd: real, perFrame: real,
                                           frameCount: int, capacity: int)
    requires frameCount > 0 && perFrame == Ratio(beatEnd - beatStart, frameCount as real)
    requires InWindow(bs, beatStart, beatEnd)
    ensures var r := Received(bs, beatStart, perFrame, frameCount, capacity);
            && (forall i :: 0 <= i < |r| ==> 0 <= r[i].sampleOffset < frameCount)
            && (forall i, j :: 0 <= i < j < |r| ==> r[i].sampleOffset <= r[j].sampleOffset)
  {
    var r := Received(bs, beatStart, perFrame, frameCount, capacity);
    forall i | 0 <= i < |r| ensures 0 <= r[i].sampleOffset < frameCount {
      FrameHoldsBeat(bs[i].beat, beatStart, beatEnd, perFrame, frameCount);
    }
    forall i, j | 0 <= i < j < |r| ensures r[i].sampleOffset <= r[j].sampleOffset {
      FramesAreMonotone(bs[i].beat, bs[j].beat, beatStart, perFrame, frameCount);
    }
  }

  // ---- the window loop -------------------------------------------------------------------

  /** From cur at now, having published published, the rest of the window is what is
      left of playing it from c. */
  ghost predicate PlayedSoFar(e: Setup, c: Cursor, start: real, end: real, cur: Cursor, now: real,
                              published: seq<Boundary>)
    requires Sane(e) && Ready(c) && Ready(cur)
  {
    && Play(e, c, start, end).0 == Play(e, cur, now, end).0
    && Play(e, c, start, end).1 == published + Play(e, cur, now, end).1
  }

  lemma {:induction false} NothingPlayed(e: Setup, c: Cursor, start: real, end: real)
    requires Sane(e) && Ready(c)
    ensures PlayedSoFar(e, c, start, end, c, start, [])
  {
    assert [] + Play(e, c, start, end).1 == Play(e, c, start, end).1;
  }

  lemma {:induction false} PlayedMore(e: Setup, c: Cursor, start: real, end: real, cur: Cursor, now: real,
                                      published: seq<Boundary>, cur': Cursor, next: real)
    requires Sane(e) && Ready(c) && Ready(cur) && Ready(cur') && now < end
    requires (cur', next) == Segment(e, Loaded(e, cur), now, end)
    requires PlayedSoFar(e, c, start, end, cur, now, published)
    ensures PlayedSoFar(e, c, start, end, cur', next, published + Published(Loaded(e, cur), now))
  {
    var first := Published(Loaded(e, cur), now);
    SegmentMoves(e, cur, now, end);
    assert Play(e, cur, now, end).1 == first + Play(e, cur', next, end).1;
    assert published + (first + Play(e, cur', next, end).1) == published + first + Play(e, cur', next, end).1;
  }

  lemma {:induction false} AllPlayed(e: Setup, c: Cursor, start: real, end: real, cur: Cursor, published: seq<Boundary>)
    requires Sane(e) && Ready(c) && Ready(cur) && PlayedSoFar(e, c, start, end, cur, end, published)
    ensures Play(e, c, start, end) == (cur, published)
  {
    assert Play(e, cur, end, end) == (cur, []);
    assert published + [] == published;
  }

  lemma {:induction false} ReceivedMore(bs: seq<Boundary>, b: Boundary, beatStart: real, perFrame: real,
                                        frameCount: int, capacity: int)
    ensures var r := Received(bs, beatStart, perFrame, frameCount, capacity);
            Received(bs + [b], beatStart, perFrame, frameCount, capacity) ==
            if |r| < (if capacity < 0 then 0 else capacity) then r + [Framed(b, beatStart, perFrame, frameCount)] else r
  {}

  // ---- settings ------------------------------------------------------------------------

  function Reseeded(state: bv32): bv32 { if state == 0 then FALLBACK_SEED else state }

  /** The generator's state after k draws. */
  function StateAfter(generator: bv32 -> bv32, origin: bv32, k: nat): bv32 {
    if k == 0 then origin else Reseeded(generator(StateAfter(generator, origin, k - 1)))
  }

  /** k steps of a generator and nothing else. */
  function Iterated(generator: bv32 -> bv32, origin: bv32, k: nat): bv32 {
    if k == 0 then origin else generator(Iterated(generator, origin, k - 1))
  }

  lemma {:induction false} NonzeroStatesAreIterates(generator: bv32 -> bv32, origin: bv32, k: nat)
    requires forall x :: generator(x) != 0
    ensures StateAfter(generator, origin, k) == Iterated(generator, origin, k)
    ensures origin != 0 ==> Iterated(generator, origin, k) != 0
  {
    if k > 0 { NonzeroStatesAreIterates(generator, origin, k - 1); }
  }

  /** With the generator of the plug-in the reseeding is never needed: the states are its
      plain iterates, and from a reset on none of them is zero. */
  lemma {:induction false} StatesAreIterates(origin: bv32, k: nat)
    ensures StateAfter(XorShift32, origin, k) == Iterated(XorShift32, origin, k)
    ensures origin != 0 ==> Iterated(XorShift32, origin, k) != 0
  {
    forall x ensures XorShift32(x) != 0 { GeneratorIsNeverZero(x); }
    NonzeroStatesAreIterates(XorShift32, origin, k);
  }

  function Draw(generator: bv32 -> bv32, origin: bv32, k: nat): nat { StateAfter(generator, origin, k + 1) as nat }

  /** The random walk of a pattern: after the first step, each is the next plain iterate
      of xorshift32 from the seed, reduced by the length. */
  lemma {:induction false} RandomWalkIsTheGenerator(e: Setup, origin: bv32, k: nat)
    requires Sane(e) && e.mode == Random && forall i: nat :: e.draws(i) == Draw(XorShift32, origin, i)
    ensures Orbit(e, ResetWalk(e), 0).step == 0
    ensures Orbit(e, ResetWalk(e), k + 1).step == Iterated(XorShift32, origin, k + 1) as nat % e.length
  {
    WalkStaysInPattern(e, k);
    StatesAreIterates(origin, k + 1);
    RemainderIsModulus(e.draws(k), e.length);
  }

  class SequencerEngine {
    const generator: bv32 -> bv32
    var length: nat
    var seed: bv32
    var stepsPerBeat: real
    var swing: real
    var enabled: bool
    var restartPolicy: RestartPolicy
    var traversalMode: Mode
    var step: nat
    var direction: int
    var beatAccum: real
    var stepBeats: real
    var rngState: bv32
    ghost var origin: bv32
    ghost var drawn: nat

    ghost function Config(): Setup
      requires stepsPerBeat >= 0.001
      reads this
    {
      var from := origin;
      Settings(length, traversalMode, stepsPerBeat, swing, (k: nat) => Draw(generator, from, k))
    }

    ghost function Position(): Cursor
      reads this
    {
      Cursor(Walk(step, direction, drawn), beatAccum, stepBeats)
    }

    ghost predicate Valid()
      reads this
    {
      && 1 <= length <= MAX_STEPS && stepsPerBeat >= 0.001 && 0.0 <= swing <= 1.0
      && rngState == StateAfter(generator, origin, drawn)
      && Ready(Position())
    }

    constructor ()
      ensures Valid() && Config().length == 8 && traversalMode == Forward && !enabled
      ensures restartPolicy == OnTransportPlay && Position() == ResetCursor(Config()) && generator == XorShift32
    {
      generator := XorShift32;
      length, seed, stepsPerBeat, swing := 8, 0xDEADBEEF, 4.0, 0.0;
      enabled, restartPolicy, traversalMode := false, OnTransportPlay, Forward;
      step, direction, beatAccum, stepBeats := 0, 1, 0.0, 0.0;
      rngState, origin, drawn := 0xDEADBEEF, 0xDEADBEEF, 0;
    }

    method SetPattern(newLength: int, newSeed: bv32)
      requires Valid()
      modifies `length, `seed
      ensures Valid() && length == Clamp(newLength, 1, MAX_STEPS) && seed == newSeed
    {
      length, seed := Clamp(newLength, 1, MAX_STEPS), newSeed;
    }

    method SetStepsPerBeat(spb: real)
      requires Valid()
      modifies `stepsPerBeat
      ensures Valid() && stepsPerBeat == if spb >= 0.001 then spb else 4.0
    {
      stepsPerBeat := if spb >= 0.001 then spb else 4.0;
    }

    method SetSwing(sw: real)
      requires Valid()
      modifies `swing
      ensures Valid() && swing == ClampReal(sw, 0.0, 1.0)
    {
      swing := ClampReal(sw, 0.0, 1.0);
    }

    method SetTraversalMode(mode: Mode)
      requires Valid()
      modifies `traversalMode
      ensures Valid() && traversalMode == mode
    {
      traversalMode := mode;
    }

    method SetRestartPolicy(policy: RestartPolicy)
      requires Valid()
      modifies `restartPolicy
      ensures Valid() && restartPolicy == policy
    {
      restartPolicy := policy;
    }

    method SetEnabled(on: bool)
      requires Valid()
      modifies `enabled
      ensures Valid() && enabled == on
    {
      enabled := on;
    }

    method ResetCursor_()
      requires Valid()
      modifies `step, `direction, `beatAccum, `stepBeats, `rngState, `origin, `drawn
      ensures Valid() && Position() == ResetCursor(Config())
      ensures origin == if seed == 0 then FALLBACK_SEED else seed
    {
      step, direction, beatAccum, stepBeats := 0, 1, 0.0, 0.0;
      rngState := if seed == 0 then FALLBACK_SEED else seed;
      origin, drawn := rngState, 0;
      if traversalMode == Reverse {
        step := length - 1;
        direction := -1;
      }
    }

    method OnTransportChange(wasPlaying: bool, isPlaying: bool)
      requires Valid()
      modifies `step, `direction, `beatAccum, `stepBeats, `rngState, `origin, `drawn
      ensures Valid()
      ensures var restarts := !wasPlaying && isPlaying && restartPolicy == OnTransportPlay;
              && (restarts ==> Position() == ResetCursor(Config()))
              && (!restarts ==> Position() == old(Position()))
    {
      if !wasPlaying && isPlaying && restartPolicy == OnTransportPlay {
        ResetCursor_();
      }
    }

    method LoopWrapped()
      requires Valid()
      modifies `step, `direction, `beatAccum, `stepBeats, `rngState, `origin, `drawn
      ensures Valid()
      ensures restartPolicy == OnLoopWrap ==> Position() == ResetCursor(Config())
      ensures restartPolicy != OnLoopWrap ==> Position() == old(Position())
    {
      if restartPolicy == OnLoopWrap {
        ResetCursor_();
      }
    }

    function StepBeatsForStepIndex(i: nat): real
      requires stepsPerBeat >= 0.001
      reads this
    {
      StepLength(stepsPerBeat, swing, i % 2 != 0)
    }

    method TraversalCycleLength() returns (r: nat)
      requires Valid()
      ensures r == CycleLength(Config())
    {
      if traversalMode == PingPong {
        r := if length > 1 then length * 2 - 2 else 1;
      } else {
        r := length;
      }
    }

    method StepIndexForTraversalOrdinal(ordinal: nat) returns (index: nat, dir: int)
      requires Valid()
      ensures (index, dir) == StepForOrdinal(Config(), ordinal)
    {
      match traversalMode {
        case Forward =>
          RemainderIsModulus(ordinal, length);
          index, dir := ordinal % length, 1;
        case Reverse =>
          RemainderIsModulus(ordinal, length);
          index, dir := length - 1 - ordinal % length, -1;
        case PingPong =>
          index, dir := PingPongIndex(ordinal);
        case Random =>
          index, dir := 0, 1;
      }
    }

    method PingPongIndex(ordinal: nat) returns (index: nat, dir: int)
      requires Valid() && traversalMode == PingPong
      ensures (index, dir) == StepForOrdinal(Config(), ordinal)
    {
      var cycle := if length > 1 then length * 2 - 2 else 1;
      RemainderIsModulus(ordinal, cycle);
      var cyclePos := ordinal % cycle;
      if length <= 1 {
        index, dir := 0, 1;
      } else if cyclePos < length {
        index, dir := cyclePos, if cyclePos < length - 1 then 1 else -1;
      } else {
        index, dir := length - 2 - (cyclePos - length), -1;
      }
    }

    method AdvanceCursor()
      requires Valid()
      modifies `step, `direction, `rngState, `drawn
      ensures Valid()
      ensures Position() == old(Position()).(walk := Advance(old(Config()), old(Position()).walk))
    {
      match traversalMode {
        case Forward =>
          RemainderIsModulus(step + 1, length);
          step := (step + 1) % length;
        case Reverse =>
          RemainderIsModulus(step - 1 + length, length);
          step := (step - 1 + length) % length;
        case PingPong =>
          if length <= 1 {
            step, direction := 0, 1;
          } else {
            var next := step + direction;
            if next >= length {
              next, direction := length - 2, -1;
            } else if next < 0 {
              next, direction := 1, 1;
            }
            step := Clamp(next, 0, length - 1);
          }
        case Random =>
          AdvanceRandom();
      }
    }

    method AdvanceRandom()
      requires Valid() && traversalMode == Random
      modifies `step, `rngState, `drawn
      ensures Valid()
      ensures Position() == old(Position()).(walk := Advance(old(Config()), old(Position()).walk))
    {
      var value := NextRandom();
      RemainderIsModulus(value, length);
      step := value % length;
    }

    method NextRandom() returns (value: nat)
      requires rngState == StateAfter(generator, origin, drawn)
      modifies `rngState, `drawn
      ensures drawn == old(drawn) + 1 && rngState == StateAfter(generator, origin, drawn)
      ensures value == Draw(generator, origin, old(drawn))
    {
      rngState := Reseeded(generator(rngState));
      value := rngState as nat;
      drawn := drawn + 1;
    }

    /** Seeks to a beat: reset, reduce by whole cycles, then search the cycle. */
    method SyncToBeatPosition(beatPosition: real)
      requires Valid()
      modifies `step, `direction, `beatAccum, `stepBeats, `rngState, `origin, `drawn
      ensures Valid()
      ensures Position() == Seek(Config(), beatPosition)
    {
      ResetCursor_();
      if beatPosition <= 0.0 || traversalMode == Random {
        stepBeats := StepBeatsForStepIndex(step);
        beatAccum := 0.0;
        return;
      }
      var cycleBeats := SumCycle();
      var localBeat := FModBeats(beatPosition, cycleBeats);
      SeekWithin(localBeat);
    }

    method SeekWithin(localBeat: real)
      requires Valid() && Position().walk == ResetWalk(Config())
      modifies `step, `direction, `beatAccum, `stepBeats
      ensures Valid() && Position() == CursorWithin(Config(), localBeat)
    {
      var index, dir, accum := FindInCycle(localBeat);
      step, direction := index, dir;
      stepBeats := StepBeatsForStepIndex(index);
      beatAccum := ClampReal(localBeat - accum, 0.0, stepBeats - 0.000000001);
    }

    static method FModBeats(b: real, c: real) returns (r: real)
      requires c > 0.0
      ensures r == FMod(b, c)
    {
      r := b - Product(Ratio(b, c).Floor as real, c);
    }

    method SumCycle() returns (cycleBeats: real)
      requires Valid()
      ensures cycleBeats == CycleBeats(Config())
    {
      var cycle := TraversalCycleLength();
      cycleBeats := 0.0;
      for ord := 0 to cycle
        invariant cycleBeats == OrdinalStart(Config(), ord)
      {
        var index, _ := StepIndexForTraversalOrdinal(ord);
        cycleBeats := cycleBeats + StepBeatsForStepIndex(index);
      }
    }

    method FindInCycle(localBeat: real) returns (index: nat, dir: int, accum: real)
      requires Valid()
      ensures var ord := Locate(Config(), localBeat, 0);
              (index, dir) == StepForOrdinal(Config(), ord) && accum == OrdinalStart(Config(), ord)
    {
      var cycle := TraversalCycleLength();
      accum := 0.0;
      var ord, length := 0, 0.0;
      index, dir, length := OrdinalStep(ord);
      ghost var e := Config();
      ghost var beats := OrdinalBeats(e);
      while !(localBeat < accum + length || ord == cycle - 1)
        invariant SearchedTo(beats, cycle, localBeat, ord, accum)
        invariant (index, dir) == StepForOrdinal(e, ord) && length == beats(ord)
        decreases cycle - ord
      {
        SearchMore(beats, cycle, localBeat, ord, accum, length);
        accum := accum + length;
        ord := ord + 1;
        index, dir, length := OrdinalStep(ord);
      }
      SearchMore(beats, cycle, localBeat, ord, accum, length);
    }

    /** The step of an ordinal and how long it lasts. */
    method OrdinalStep(ord: nat) returns (index: nat, dir: int, length: real)
      requires Valid()
      ensures (index, dir) == StepForOrdinal(Config(), ord) && length == OrdinalBeats(Config())(ord)
    {
      index, dir := StepIndexForTraversalOrdinal(ord);
      length := StepBeatsForStepIndex(index);
      BeatsAt(Config(), ord);
    }

    /** Plays a render window, telling the caller where each step begins. */
    method AdvanceWindow(beatStart: real, beatEnd: real, frameCount: int, capacity: int)
      returns (boundaries: seq<StepBoundary>)
      requires Valid()
      modifies `step, `direction, `beatAccum, `stepBeats, `rngState, `drawn
      ensures Valid()
      ensures !enabled || frameCount <= 0 || beatEnd <= beatStart ==> Position() == old(Position()) && boundaries == []
      ensures enabled && frameCount > 0 && beatEnd > beatStart ==>
                var (c, bs) := Play(old(Config()), old(Position()), beatStart, beatEnd);
                && Position() == c
                && boundaries == Received(bs, beatStart, Ratio(beatEnd - beatStart, frameCount as real),
                                          frameCount, capacity)
    {
      boundaries := [];
      if !enabled || frameCount <= 0 || beatEnd <= beatStart {
        return;
      }
      var beatsPerFrame := Ratio(beatEnd - beatStart, frameCount as real);
      boundaries := PlayWindow(beatStart, beatEnd, beatsPerFrame, frameCount, capacity);
    }

    /** The window loop. */
    method PlayWindow(beatStart: real, beatEnd: real, beatsPerFrame: real, frameCount: int, capacity: int)
      returns (boundaries: seq<StepBoundary>)
      requires Valid() && beatStart < beatEnd
      modifies `step, `direction, `beatAccum, `stepBeats, `rngState, `drawn
      ensures Valid()
      ensures var (c, bs) := Play(old(Config()), old(Position()), beatStart, beatEnd);
              Position() == c && boundaries == Received(bs, beatStart, beatsPerFrame, frameCount, capacity)
    {
      boundaries := [];
      var beatCursor := beatStart;
      ghost var published: seq<Boundary> := [];
      ghost var e, c := Config(), Position();
      NothingPlayed(e, c, beatStart, beatEnd);
      while beatCursor < beatEnd
        invariant Valid() && Config() == e && Sane(e) && Ready(c) && beatCursor <= beatEnd
        invariant PlayedSoFar(e, c, beatStart, beatEnd, Position(), beatCursor, published)
        invariant boundaries == Received(published, beatStart, beatsPerFrame, frameCount, capacity)
        decreases Passes(beatCursor, beatEnd)
      {
        ghost var before, now := Position(), beatCursor;
        SegmentMoves(e, before, now, beatEnd);
        LoadStep();
        boundaries := PublishStep(boundaries, published, beatCursor, beatStart, beatsPerFrame, frameCount, capacity);
        beatCursor := PlaySegment(beatCursor, beatEnd);
        PlayedMore(e, c, beatStart, beatEnd, before, now, published, Position(), beatCursor);
        published := published + Published(Loaded(e, before), now);
      }
      AllPlayed(e, c, beatStart, beatEnd, Position(), published);
    }

    /** Writes down where a step begins, if it begins here. */
    method PublishStep(boundaries: seq<StepBoundary>, ghost published: seq<Boundary>, now: real, beatStart: real,
                       beatsPerFrame: real, frameCount: int, capacity: int)
      returns (more: seq<StepBoundary>)
      requires boundaries == Received(published, beatStart, beatsPerFrame, frameCount, capacity)
      ensures more == Received(published + Published(Position(), now), beatStart, beatsPerFrame, frameCount, capacity)
    {
      more := boundaries;
      if beatAccum == 0.0 {
        more := Publish(boundaries, published, Boundary(now, step), beatStart, beatsPerFrame, frameCount, capacity);
      } else {
        assert published + Published(Position(), now) == published;
      }
    }

    /** Writes a boundary down while there is room. */
    static method Publish(boundaries: seq<StepBoundary>, ghost published: seq<Boundary>, b: Boundary, beatStart: real,
                          beatsPerFrame: real, frameCount: int, capacity: int)
      returns (more: seq<StepBoundary>)
      requires boundaries == Received(published, beatStart, beatsPerFrame, frameCount, capacity)
      ensures more == Received(published + [b], beatStart, beatsPerFrame, frameCount, capacity)
    {
      more := boundaries;
      if |boundaries| < (if capacity < 0 then 0 else capacity) {
        var offset := BeatToFrame(b.beat, beatStart, beatsPerFrame, frameCount);
        more := more + [StepBoundary(offset, b.step)];
      }
      ReceivedMore(published, b, beatStart, beatsPerFrame, frameCount, capacity);
    }

    method LoadStep()
      requires Valid()
      modifies `stepBeats
      ensures Valid() && Position() == Loaded(old(Config()), old(Position())) && stepBeats > 0.0
    {
      if stepBeats <= 0.0 {
        stepBeats := StepBeatsForStepIndex(step);
      }
    }

    /** The part of a pass after the step is loaded and published. */
    method PlaySegment(beatCursor: real, beatEnd: real) returns (segEnd: real)
      requires Valid() && stepBeats > 0.0 && beatCursor < beatEnd
      modifies `step, `direction, `beatAccum, `stepBeats, `rngState, `drawn
      ensures Valid() && (Position(), segEnd) == Segment(old(Config()), old(Position()), beatCursor, beatEnd)
    {
      var stepEnd := beatCursor + (stepBeats - beatAccum);
      segEnd := if stepEnd < beatEnd then stepEnd else beatEnd;
      beatAccum := beatAccum + (segEnd - beatCursor);
      if beatAccum >= stepBeats - 0.000000001 {
        beatAccum := 0.0;
        stepBeats := 0.0;
        AdvanceCursor();
      }
    }
  }
}
