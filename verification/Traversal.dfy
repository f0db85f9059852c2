// The order in which the step sequencer visits a pattern: one step at a time, and
// in closed form by ordinal.
module Traversal {
  import opened Basics
  import opened Remainders

  const MAX_STEPS := 32
  datatype Mode = Forward | Reverse | PingPong | Random

  const SHORTEST_STEP := 0.000001

  /** What a pattern plays by: swing makes odd steps longer than even ones; draws are
      the random numbers since the reset. */
  datatype Setup = Setup(length: nat, mode: Mode, evenBeats: real, oddBeats: real, draws: nat -> nat)

  predicate Sane(e: Setup) {
    1 <= e.length <= MAX_STEPS && e.evenBeats >= SHORTEST_STEP && e.oddBeats >= SHORTEST_STEP
  }

  /** The part of the cursor that says which step plays and which comes next. */
  datatype Walk = Walk(step: nat, direction: int, drawn: nat)

  function ResetWalk(e: Setup): Walk
    requires Sane(e)
  {
    if e.mode == Reverse then Walk(e.length - 1, -1, 0) else Walk(0, 1, 0)
  }

  /** advanceCursor_: from a step to the next. */
  function Advance(e: Setup, w: Walk): (r: Walk)
    requires Sane(e)
    ensures r.step < e.length
  {
    match e.mode
    case Forward => w.(step := Remainder(w.step + 1, e.length))
    case Reverse => w.(step := Remainder(w.step - 1 + e.length, e.length))
    case PingPong =>
      if e.length <= 1 then w.(step := 0, direction := 1)
      else
        var next := w.step + w.direction;
        if next >= e.length then w.(step := Clamp(e.length - 2, 0, e.length - 1), direction := -1)
        else if next < 0 then w.(step := Clamp(1, 0, e.length - 1), direction := 1)
        else w.(step := Clamp(next, 0, e.length - 1))
    case Random => w.(step := Remainder(e.draws(w.drawn), e.length), drawn := w.drawn + 1)
  }

  /** k advances from w. */
  function Orbit(e: Setup, w: Walk, k: nat): Walk
    requires Sane(e)
  {
    if k == 0 then w else Advance(e, Orbit(e, w, k - 1))
  }

  function CycleLength(e: Setup): (r: nat)
    requires Sane(e)
    ensures 1 <= r
  {
    if e.mode == PingPong then (if e.length > 1 then e.length * 2 - 2 else 1) else e.length
  }

  /** The closed form: the step and the direction of an ordinal. */
  function StepForOrdinal(e: Setup, ordinal: nat): (r: (nat, int))
    requires Sane(e)
    ensures r.0 < e.length
  {
    match e.mode
    case Forward => (Remainder(ordinal, e.length), 1)
    case Reverse => (e.length - 1 - Remainder(ordinal, e.length), -1)
    case PingPong =>
      var cyclePos := Remainder(ordinal, CycleLength(e));
      if e.length <= 1 then (0, 1)
      else if cyclePos < e.length then (cyclePos, if cyclePos < e.length - 1 then 1 else -1)
      else (e.length - 2 - (cyclePos - e.length), -1)
    case Random => (0, 1)
  }

  /** Two walks that cannot be told apart by any step to come: the direction only
      matters away from the end points. */
  predicate SameWalk(e: Setup, a: Walk, b: Walk) {
    && a.step == b.step < e.length && a.drawn == b.drawn
    && (e.mode == PingPong ==>
          && (a.direction == 1 || a.direction == -1) && (b.direction == 1 || b.direction == -1)
          && (a.direction == b.direction || a.step == 0 || a.step == e.length - 1))
  }

  lemma {:induction false} SameWalkAdvances(e: Setup, a: Walk, b: Walk)
    requires Sane(e) && SameWalk(e, a, b)
    ensures SameWalk(e, Advance(e, a), Advance(e, b))
  {}

  /** Bisimilar walks visit the same steps forever. */
  lemma {:induction false} SameWalkSameFuture(e: Setup, a: Walk, b: Walk, k: nat)
    requires Sane(e) && SameWalk(e, a, b)
    ensures SameWalk(e, Orbit(e, a, k), Orbit(e, b, k))
  {
    if k > 0 {
      SameWalkSameFuture(e, a, b, k - 1);
      SameWalkAdvances(e, Orbit(e, a, k - 1), Orbit(e, b, k - 1));
    }
  }

  lemma {:induction false} SameWalkTransitive(e: Setup, a: Walk, b: Walk, c: Walk)
    requires SameWalk(e, a, b) && SameWalk(e, b, c)
    ensures SameWalk(e, a, c)
  {}

  /** The walk the closed form describes. */
  function OrdinalWalk(e: Setup, ordinal: nat): Walk
    requires Sane(e)
  {
    ResetWalk(e).(step := StepForOrdinal(e, ordinal).0, direction := StepForOrdinal(e, ordinal).1)
  }

  /** In every mode but Random: k single steps from a reset reach the step of ordinal
      k, and the stored direction differs at most at an end point of PingPong. */
  lemma {:induction false} SteppingIsClosedForm(e: Setup, k: nat)
    requires Sane(e) && e.mode != Random
    ensures Orbit(e, ResetWalk(e), k).step == StepForOrdinal(e, k).0
    ensures SameWalk(e, Orbit(e, ResetWalk(e), k), OrdinalWalk(e, k))
    ensures e.mode != PingPong || e.length == 1 ==> Orbit(e, ResetWalk(e), k) == OrdinalWalk(e, k)
  {
    if k == 0 {
    } else {
      var before := Orbit(e, ResetWalk(e), k - 1);
      SteppingIsClosedForm(e, k - 1);
      SameWalkAdvances(e, before, OrdinalWalk(e, k - 1));
      OrdinalsAdvance(e, k);
      SameWalkTransitive(e, Advance(e, before), Advance(e, OrdinalWalk(e, k - 1)), OrdinalWalk(e, k));
    }
  }

  lemma {:induction false} OrdinalsAdvance(e: Setup, k: nat)
    requires Sane(e) && e.mode != Random && k > 0
    ensures SameWalk(e, Advance(e, OrdinalWalk(e, k - 1)), OrdinalWalk(e, k))
    ensures e.mode != PingPong || e.length == 1 ==> Advance(e, OrdinalWalk(e, k - 1)) == OrdinalWalk(e, k)
  {
    match e.mode
    case Forward =>
      RemainderNext(k - 1, e.length);
      RemainderNext(StepForOrdinal(e, k - 1).0, e.length);
    case Reverse =>
      RemainderNext(k - 1, e.length);
      var step := StepForOrdinal(e, k - 1).0;
      if step > 0 { assert Remainder(step - 1 + e.length, e.length) == Remainder(step - 1, e.length); }
    case PingPong => PingPongStep(e, k);
  }

  lemma {:induction false} PingPongStep(e: Setup, k: nat)
    requires Sane(e) && e.mode == PingPong && k > 0
    ensures SameWalk(e, Advance(e, OrdinalWalk(e, k - 1)), OrdinalWalk(e, k))
  {
    RemainderNext(k - 1, CycleLength(e));
  }

  /** Stepping stores the direction a step was reached in. */
  lemma {:induction false} StoredDirection(e: Setup, k: nat)
    requires Sane(e) && e.mode == PingPong && e.length >= 2
    ensures var at := Remainder(k, CycleLength(e));
            Orbit(e, ResetWalk(e), k).direction == if k == 0 || 0 < at < e.length then 1 else -1
  {
    if k > 0 {
      StoredDirection(e, k - 1);
      RemainderNext(k - 1, CycleLength(e));
      SteppingIsClosedForm(e, k - 1);
      Turns(e, k);
    }
  }

  /** One step, and the direction it stores. */
  lemma {:induction false} Turns(e: Setup, k: nat)
    requires Sane(e) && e.mode == PingPong && e.length >= 2 && k > 0
    requires Orbit(e, ResetWalk(e), k - 1).step == StepForOrdinal(e, k - 1).0
    requires var at := Remainder(k - 1, CycleLength(e));
             Orbit(e, ResetWalk(e), k - 1).direction == if k == 1 || 0 < at < e.length then 1 else -1
    ensures var at := Remainder(k - 1, CycleLength(e));
            Orbit(e, ResetWalk(e), k).direction == if at < e.length - 1 then 1 else -1
  {
    assert Orbit(e, ResetWalk(e), k) == Advance(e, Orbit(e, ResetWalk(e), k - 1));
  }

  /** The closed form gives the direction a step is left in: the two differ exactly where
      PingPong turns round, once it has begun. */
  lemma {:induction false} DirectionsDifferIff(e: Setup, k: nat)
    requires Sane(e) && e.mode == PingPong && e.length >= 2
    ensures Orbit(e, ResetWalk(e), k).direction != StepForOrdinal(e, k).1 <==>
            k > 0 && (k % CycleLength(e) == 0 || k % CycleLength(e) == e.length - 1)
  {
    StoredDirection(e, k);
    RemainderIsModulus(k, CycleLength(e));
  }

  /** The closed form repeats after one cycle. */
  lemma {:induction false} OrdinalsRepeat(e: Setup, k: nat)
    requires Sane(e)
    ensures StepForOrdinal(e, k + CycleLength(e)) == StepForOrdinal(e, k)
  {}

  /** In every mode, whatever the random numbers, the walk stays inside the pattern. */
  lemma {:induction false} WalkStaysInPattern(e: Setup, k: nat)
    requires Sane(e)
    ensures Orbit(e, ResetWalk(e), k).step < e.length
    ensures Orbit(e, ResetWalk(e), k).drawn == if e.mode == Random then k else 0
  {
    if k > 0 { WalkStaysInPattern(e, k - 1); }
  }
}
