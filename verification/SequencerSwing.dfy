// What the settings of the sequencer make of its steps: how long even and odd steps
// last, and where each step of a pattern begins.
module SequencerSwing {
  import opened Reals
  import opened Remainders
  import opened Traversal
  import opened SequencerTimeline

  function StepLength(stepsPerBeat: real, swing: real, odd: bool): real
    requires stepsPerBeat >= 0.001
  {
    var beats := 1.0 / stepsPerBeat * (if odd then 1.0 + swing * 0.5 else 1.0 - swing * 0.5);
    if beats < SHORTEST_STEP then SHORTEST_STEP else beats
  }

  /** What a pattern plays by under the given settings. */
  function Settings(length: nat, mode: Mode, stepsPerBeat: real, swing: real, draws: nat -> nat): Setup
    requires stepsPerBeat >= 0.001
  {
    Setup(length, mode, StepLength(stepsPerBeat, swing, false), StepLength(stepsPerBeat, swing, true), draws)
  }

  /** Settings whose even steps, the shorter ones, are not shortened below the least
      length. */
  predicate Unclamped(stepsPerBeat: real, swing: real) { 2.0 - swing >= 2.0 * Product(SHORTEST_STEP, stepsPerBeat) }

  /** One swung step before the least length is enforced. */
  lemma {:induction false} SwungBeats(stepsPerBeat: real, swing: real, odd: bool) returns (beats: real)
    requires stepsPerBeat >= 0.001
    ensures StepLength(stepsPerBeat, swing, odd) == if beats < SHORTEST_STEP then SHORTEST_STEP else beats
    ensures Product(beats, stepsPerBeat) == if odd then 1.0 + swing * 0.5 else 1.0 - swing * 0.5
  {
    var factor := if odd then 1.0 + swing * 0.5 else 1.0 - swing * 0.5;
    beats := 1.0 / stepsPerBeat * factor;
    calc {
      Product(beats, stepsPerBeat);
      (1.0 / stepsPerBeat * factor) * stepsPerBeat;
      (1.0 / stepsPerBeat * stepsPerBeat) * factor;
      factor;
    }
  }

  /** Where the least length does not bite, an even step and an odd one together last two
      steps' time, and the odd one is longer by swing steps' time. */
  lemma {:induction false} SwingLengthens(stepsPerBeat: real, swing: real)
    requires stepsPerBeat >= 0.001 && 0.0 <= swing <= 1.0 && Unclamped(stepsPerBeat, swing)
    ensures var even, odd := StepLength(stepsPerBeat, swing, false), StepLength(stepsPerBeat, swing, true);
            && even + odd == Ratio(2.0, stepsPerBeat)
            && odd - even == Ratio(swing, stepsPerBeat)
            && (swing == 0.0 ==> even == odd == Ratio(1.0, stepsPerBeat))
  {
    var even := SwungBeats(stepsPerBeat, swing, false);
    var odd := SwungBeats(stepsPerBeat, swing, true);
    FactorsKeepOrder(SHORTEST_STEP, even, stepsPerBeat);
    FactorsKeepOrder(SHORTEST_STEP, odd, stepsPerBeat);
    RatioOf(even + odd, 2.0, stepsPerBeat);
    RatioOf(odd - even, swing, stepsPerBeat);
    if swing == 0.0 { RatioOf(even, 1.0, stepsPerBeat); }
  }

  lemma {:induction false} RatioOf(q: real, x: real, d: real)
    requires d > 0.0 && Product(q, d) == x
    ensures Ratio(x, d) == q
  {
    RatioTimes(x, d);
    FactorsKeepOrder(q, Ratio(x, d), d);
    FactorsKeepOrder(Ratio(x, d), q, d);
  }

  /** A step whose swung length would be below a millionth of a beat lasts just that. */
  lemma {:induction false} ShortStepsLastTheLeast(stepsPerBeat: real, swing: real, odd: bool)
    requires stepsPerBeat >= 0.001
    requires (if odd then 2.0 + swing else 2.0 - swing) < 2.0 * Product(SHORTEST_STEP, stepsPerBeat)
    ensures StepLength(stepsPerBeat, swing, odd) == SHORTEST_STEP
  {
    var beats := SwungBeats(stepsPerBeat, swing, odd);
    FactorsKeepOrder(beats, SHORTEST_STEP, stepsPerBeat);
  }

  // ---- where the steps begin ------------------------------------------------------

  /** Even and odd steps take turns: an even length round which the walk goes, or a walk
      to and fro. */
  predicate TakesTurns(e: Setup) {
    match e.mode
    case PingPong => e.length >= 2
    case Random => false
    case _ => e.length % 2 == 0
  }

  predicate OddAt(e: Setup, k: nat) { (k % 2 != 0) != (e.mode == Reverse) }

  lemma {:induction false} ParityTakesTurns(e: Setup, k: nat)
    requires Sane(e) && TakesTurns(e)
    ensures var w := Orbit(e, ResetWalk(e), k);
            && w.step < e.length && (w.step % 2 != 0) == OddAt(e, k)
            && (e.mode == PingPong ==> w.direction == 1 || w.direction == -1)
  {
    if k > 0 {
      ParityTakesTurns(e, k - 1);
      ParityTurns(e, Orbit(e, ResetWalk(e), k - 1));
    }
  }

  lemma {:induction false} ParityTurns(e: Setup, w: Walk)
    requires Sane(e) && TakesTurns(e) && w.step < e.length
    requires e.mode == PingPong ==> w.direction == 1 || w.direction == -1
    ensures (Advance(e, w).step % 2 != 0) == (w.step % 2 == 0)
    ensures e.mode == PingPong ==> Advance(e, w).direction == 1 || Advance(e, w).direction == -1
  {
    match e.mode
    case Forward => assert Remainder(w.step + 1, e.length) == if w.step + 1 < e.length then w.step + 1 else 0;
    case Reverse =>
      assert w.step > 0 ==> Remainder(w.step - 1 + e.length, e.length) == Remainder(w.step - 1, e.length);
    case PingPong =>
  }

  /** Every second step begins a whole number of step pairs after the first, the one
      between begins the length of a step later: an even one, or in Reverse an odd one. */
  lemma {:induction false} PairsOfStepsBegin(e: Setup, m: nat)
    requires Sane(e) && TakesTurns(e)
    ensures Start(e, ResetWalk(e), 2 * m) == Product(m as real, e.evenBeats + e.oddBeats)
    ensures Start(e, ResetWalk(e), 2 * m + 1) == Product(m as real, e.evenBeats + e.oddBeats)
              + if e.mode == Reverse then e.oddBeats else e.evenBeats
  {
    PairBegins(e, m, 2 * m);
    NextBegins(e, m, 2 * m);
  }

  lemma {:induction false} PairBegins(e: Setup, m: nat, k: nat)
    requires Sane(e) && TakesTurns(e) && k == m + m
    ensures Start(e, ResetWalk(e), k) == Product(m as real, e.evenBeats + e.oddBeats)
  {
    if m == 0 {
      ZeroProduct(e.evenBeats + e.oddBeats);
    } else {
      PairBegins(e, m - 1, k - 2);
      NextBegins(e, m - 1, k - 2);
      NextPair(m - 1, e.evenBeats + e.oddBeats);
    }
  }

  /** A pair of steps from ordinal k = 2m on. */
  lemma {:induction false} NextBegins(e: Setup, m: nat, k: nat)
    requires Sane(e) && TakesTurns(e) && k == m + m
    ensures Start(e, ResetWalk(e), k + 1)
            == Start(e, ResetWalk(e), k) + if e.mode == Reverse then e.oddBeats else e.evenBeats
    ensures Start(e, ResetWalk(e), k + 2) == Start(e, ResetWalk(e), k) + (e.evenBeats + e.oddBeats)
  {
    var w := ResetWalk(e);
    OneMoreStep(e, w, k, k + 1);
    OneMoreStep(e, w, k + 1, k + 2);
    BeatsTakeTurns(e, m, k);
    BeatsTakeTurns(e, m, k + 1);
  }

  lemma {:induction false} OneMoreStep(e: Setup, w: Walk, k: nat, next: nat)
    requires Sane(e) && next == k + 1
    ensures Start(e, w, next) == Start(e, w, k) + StepBeats(e, Orbit(e, w, k).step)
  {}

  lemma {:induction false} BeatsTakeTurns(e: Setup, m: nat, k: nat)
    requires Sane(e) && TakesTurns(e) && m + m <= k <= m + m + 1
    ensures StepBeats(e, Orbit(e, ResetWalk(e), k).step)
            == if (k == m + m) == (e.mode == Reverse) then e.oddBeats else e.evenBeats
  {
    ParityTakesTurns(e, k);
  }

  lemma {:induction false} NextPair(m: nat, pair: real)
    ensures Product((m + 1) as real, pair) == Product(m as real, pair) + pair
  {
    ProductNext(m as real, pair);
    assert (m + 1) as real == m as real + 1.0;
  }

  /** The timeline of the settings, counted in steps of the rate: whatever the swing, every
      second step stands on the grid, and the one between comes early by half the swing,
      late by as much when the pattern is walked backward. */
  lemma {:induction false} SwungStepsBegin(length: nat, mode: Mode, stepsPerBeat: real, swing: real,
                                           draws: nat -> nat, m: nat)
    requires stepsPerBeat >= 0.001 && 0.0 <= swing <= 1.0 && Unclamped(stepsPerBeat, swing)
    requires var e := Settings(length, mode, stepsPerBeat, swing, draws); Sane(e) && TakesTurns(e)
    ensures var e := Settings(length, mode, stepsPerBeat, swing, draws);
            && Product(Start(e, ResetWalk(e), 2 * m), stepsPerBeat) == 2.0 * (m as real)
            && Product(Start(e, ResetWalk(e), 2 * m + 1), stepsPerBeat)
               == 2.0 * (m as real) + 1.0 + (if mode == Reverse then swing * 0.5 else -swing * 0.5)
  {
    var e := Settings(length, mode, stepsPerBeat, swing, draws);
    PairsOfStepsBegin(e, m);
    var even := SwungBeats(stepsPerBeat, swing, false);
    var odd := SwungBeats(stepsPerBeat, swing, true);
    FactorsKeepOrder(SHORTEST_STEP, even, stepsPerBeat);
    FactorsKeepOrder(SHORTEST_STEP, odd, stepsPerBeat);
    ScaledStart(m as real, even, odd, stepsPerBeat, if mode == Reverse then odd else even);
  }

  lemma {:induction false} ScaledStart(m: real, even: real, odd: real, stepsPerBeat: real, first: real)
    requires Product(even, stepsPerBeat) + Product(odd, stepsPerBeat) == 2.0
    ensures Product(Product(m, even + odd), stepsPerBeat) == 2.0 * m
    ensures Product(Product(m, even + odd) + first, stepsPerBeat) == 2.0 * m + Product(first, stepsPerBeat)
  {
    calc {
      Product(Product(m, even + odd), stepsPerBeat);
      m * (even * stepsPerBeat + odd * stepsPerBeat);
      m * 2.0;
    }
    assert Product(Product(m, even + odd) + first, stepsPerBeat)
           == Product(Product(m, even + odd), stepsPerBeat) + Product(first, stepsPerBeat);
  }
}
