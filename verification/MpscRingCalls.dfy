// How the calls of every thread begin and end, whatever the others do: what each call
// answers, and that it does answer.
module MpscRingCalls {
  import opened Basics
  import opened Remainders
  import opened MpscRing
  import opened MpscRingSteps
  import opened MpscRingRuns

  /** The call a thread is inside of, as its caller sees it. */
  datatype Call =
    | NoCall
    | Pushing(item: Item)
    | Publishing(item: Item, pos: nat)
    | Popping
    | Clearing(begun: bool)

  function PushOf(pc: Producer): Call {
    match pc
    case Idle => NoCall
    case LoadPos(item) => Pushing(item)
    case LoadSeq(item, _) => Pushing(item)
    case Reserve(item, _) => Pushing(item)
    case Write(item, pos, _) => Publishing(item, pos)
  }

  function CallOfTask(task: Task): Call { if task.Pop? then Popping else Clearing(true) }

  function ConsumerCall(pc: Consumer): Call {
    match pc
    case Resting => NoCall
    case LoadBarrier => Clearing(false)
    case Scan(_, _) => Clearing(true)
    case FetchPos(task) => CallOfTask(task)
    case FetchSeq(task, _) => CallOfTask(task)
    case Claim(task, _) => CallOfTask(task)
    case Read(task, _, _) => CallOfTask(task)
  }

  /** A push keeps its item from the call on, and either takes a place for it and later
      commits that place, or is refused. Nothing else ends it or begins it. */
  ghost predicate PushGoesOn(p: nat, words: nat, c: Call, a: Action, e: Event, c': Call) {
    match c
    case NoCall =>
      && !(e.Accept? && e.producer == p) && e != Refuse(p)
      && c' == if a.StartPush? && a.producer == p && |a.item| == words then Pushing(a.item) else NoCall
    case Pushing(item) =>
      if e.Accept? && e.producer == p then
        a.Produce? && a.producer == p && e.item == item && c' == Publishing(item, e.pos)
      else if e == Refuse(p) then a.Produce? && a.producer == p && c' == NoCall
      else c' == c
    case Publishing(_, pos) =>
      && !(e.Accept? && e.producer == p) && e != Refuse(p)
      && if e == Commit(pos) then a.Produce? && a.producer == p && c' == NoCall else c' == c
    case _ => false
  }

  /** A pop ends with an item, or with none when the place at the head holds no committed
      one; a reset takes its snapshot and ends with its count. Nothing else ends them. */
  ghost predicate ConsumerGoesOn(c: Call, committed: bool, a: Action, e: Event, c': Call) {
    match c
    case NoCall =>
      && !e.Deliver? && !e.Miss? && !e.Reset? && !e.ResetDone? && !e.Drop?
      && c' == if a.StartPop? then Popping else if a.StartClear? then Clearing(false) else NoCall
    case Popping =>
      && !e.Reset? && !e.ResetDone?
      && (e.Miss? ==> !committed)
      && c' == if e.Deliver? || e.Miss? then NoCall else Popping
    case Clearing(begun) =>
      && !e.Deliver? && !e.Miss? && (e.Reset? ==> !begun) && (e.ResetDone? ==> begun)
      && c' == if e.ResetDone? then NoCall else Clearing(begun || e.Reset?)
    case _ => false
  }

  // ---- one step ------------------------------------------------------------------

  lemma {:induction false} OwnPushGoesOn(s: Ring, p: nat, a: Action)
    requires Inv(s) && p < |s.producers| && a.Produce? && a.producer == p
    ensures PushGoesOn(p, s.words, PushOf(s.producers[p]), a, Exec(s, a).1, PushOf(Exec(s, a).0.producers[p]))
  {
    assert ProducerOk(s, p);
  }

  lemma {:induction false} OtherPushStays(s: Ring, p: nat, a: Action)
    requires Inv(s) && p < |s.producers| && !(a.Produce? && a.producer == p)
    ensures PushGoesOn(p, s.words, PushOf(s.producers[p]), a, Exec(s, a).1, PushOf(Exec(s, a).0.producers[p]))
  {
    assert ProducerOk(s, p);
    match a
    case Produce(q, _) => if q < |s.producers| { assert ProducerOk(s, q); }
    case _ =>
  }

  lemma {:induction false} PushGoesOnHere(s: Ring, p: nat, a: Action)
    requires Inv(s) && p < |s.producers|
    ensures PushGoesOn(p, s.words, PushOf(s.producers[p]), a, Exec(s, a).1, PushOf(Exec(s, a).0.producers[p]))
  {
    if a.Produce? && a.producer == p { OwnPushGoesOn(s, p, a); } else { OtherPushStays(s, p, a); }
  }

  lemma {:induction false} ConsumerGoesOnHere(s: Ring, a: Action)
    requires Inv(s)
    ensures ConsumerGoesOn(ConsumerCall(s.consumer), Committed(s, s.dequeuePos), a, Exec(s, a).1,
                           ConsumerCall(Exec(s, a).0.consumer))
  {
    if a.Consume? { OwnCallGoesOn(s, a.spurious); }
  }

  lemma {:induction false} OwnCallGoesOn(s: Ring, spurious: bool)
    requires Inv(s)
    ensures ConsumerGoesOn(ConsumerCall(s.consumer), Committed(s, s.dequeuePos), Consume(spurious),
                           ConsumerStep(s, spurious).1, ConsumerCall(ConsumerStep(s, spurious).0.consumer))
  {}

  // ---- every run -----------------------------------------------------------------

  /** In every interleaving each producer's pushes begin, take their place and end as
      PushGoesOn says, at every step of any thread. */
  lemma {:induction false} EveryPushIsAnswered(s: Ring, capacity: nat, actions: seq<Action>, a: Action, p: nat)
    requires Initial(s, capacity) && 2 <= capacity && p < |s.producers|
    ensures var r := ExecAll(s, actions);
            && |r.producers| == |s.producers| && r.words == s.words
            && PushGoesOn(p, s.words, PushOf(r.producers[p]), a, Exec(r, a).1, PushOf(Exec(r, a).0.producers[p]))
  {
    var states := RingRefinesFifo(s, capacity, actions);
    SameThreads(s, actions);
    PushGoesOnHere(ExecAll(s, actions), p, a);
  }

  /** In every interleaving pops and resets begin and end as ConsumerGoesOn says; above
      all, a pop that has dropped a straggler goes on to the next place. */
  lemma {:induction false} EveryPopIsAnswered(s: Ring, capacity: nat, actions: seq<Action>, a: Action)
    requires Initial(s, capacity) && 2 <= capacity
    ensures var r := ExecAll(s, actions);
            ConsumerGoesOn(ConsumerCall(r.consumer), Committed(r, r.dequeuePos), a, Exec(r, a).1,
                           ConsumerCall(Exec(r, a).0.consumer))
  {
    var states := RingRefinesFifo(s, capacity, actions);
    ConsumerGoesOnHere(ExecAll(s, actions), a);
  }

  lemma {:induction false} SameThreads(s: Ring, actions: seq<Action>)
    requires 0 < Capacity(s)
    ensures |ExecAll(s, actions).producers| == |s.producers| && ExecAll(s, actions).words == s.words
  {
    if actions != [] {
      SameThreads(s, actions[..|actions| - 1]);
      StepKeepsThreads(ExecAll(s, actions[..|actions| - 1]), actions[|actions| - 1]);
    }
  }

  lemma {:induction false} StepKeepsThreads(s: Ring, a: Action)
    requires 0 < Capacity(s)
    ensures |Exec(s, a).0.producers| == |s.producers| && Exec(s, a).0.words == s.words
  {}

  /** The pops begun: those called while the consumer rests. */
  function PopsBegun(s: Ring, actions: seq<Action>): nat
    requires 0 < Capacity(s)
  {
    if actions == [] then 0
    else
      var before := actions[..|actions| - 1];
      PopsBegun(s, before)
        + if actions[|actions| - 1].StartPop? && ExecAll(s, before).consumer.Resting? then 1 else 0
  }

  function Answers(trace: seq<Event>): nat {
    if trace == [] then 0
    else Answers(trace[..|trace| - 1])
           + if trace[|trace| - 1].Deliver? || trace[|trace| - 1].Miss? then 1 else 0
  }

  /** In every interleaving each pop that has returned gave one answer: an item, or that
      there is none. */
  lemma {:induction false} PopsAreAnswered(s: Ring, capacity: nat, actions: seq<Action>)
    requires Initial(s, capacity) && 2 <= capacity
    ensures PopsBegun(s, actions) == Answers(Trace(s, actions))
              + if ConsumerCall(ExecAll(s, actions).consumer) == Popping then 1 else 0
  {
    if actions != [] {
      var before, a := actions[..|actions| - 1], actions[|actions| - 1];
      PopsAreAnswered(s, capacity, before);
      EveryPopIsAnswered(s, capacity, before, a);
      var trace := Trace(s, actions);
      assert trace[..|trace| - 1] == Trace(s, before);
    }
  }

  // ---- progress ------------------------------------------------------------------

  /** How many of its own steps the consumer still needs, places to skip aside. */
  function Stage(s: Ring): nat {
    match s.consumer
    case Resting => 0
    case LoadBarrier => 0
    case Scan(_, _) => s.words + 5
    case FetchPos(_) => s.words + 4
    case FetchSeq(_, _) => s.words + 3
    case Claim(_, _) => s.words + 2
    case Read(_, _, out) => if |out| <= s.words then s.words - |out| + 1 else 1
  }

  /** The places below the boundary in force. */
  function Rounds(s: Ring): nat { if Low(s) <= Barrier(s) then Barrier(s) - Low(s) else 0 }

  /** An upper bound on the own steps of the call the consumer is inside of. */
  function StepsToAnswer(s: Ring): nat {
    if s.consumer.LoadBarrier? then Times(Capacity(s) + 1, s.words + 6)
    else Times(Rounds(s), s.words + 6) + Stage(s)
  }

  lemma {:induction false} RoundsFit(s: Ring)
    requires Inv(s)
    ensures Rounds(s) <= Capacity(s)
    ensures StepsToAnswer(s) <= Times(Capacity(s) + 1, s.words + 6)
  {
    assert s.consumer.Read? ==> |s.consumer.out| <= s.words;
    OneRoundMore(Rounds(s), Capacity(s), s.words + 6);
  }

  lemma {:induction false} OneRoundMore(k: nat, n: nat, w: nat)
    requires k <= n
    ensures Times(k + 1, w) == Times(k, w) + w <= Times(n + 1, w)
  {
    TimesOneMore(k, w);
    TimesKeepsOrder(k + 1, n + 1, w);
  }

  /** Each own step brings the answer nearer, unless it is the spurious failure of a
      compare-exchange; no step of another thread takes it farther away. */
  lemma {:induction false} ConsumerProgresses(s: Ring, a: Action)
    requires Inv(s) && !s.consumer.Resting? && !Exec(s, a).0.consumer.Resting?
    ensures StepsToAnswer(Exec(s, a).0) + (if a == Consume(false) then 1 else 0)
            <= StepsToAnswer(s) + if a == Consume(true) then 1 else 0
  {
    if a.Consume? { OwnStepProgresses(s, a.spurious); } else { OtherStepLeavesCall(s, a); }
  }

  lemma {:induction false} OtherStepLeavesCall(s: Ring, a: Action)
    requires 0 < Capacity(s) && !s.consumer.Resting? && !a.Consume?
    ensures var s' := Exec(s, a).0;
            && s'.consumer == s.consumer && s'.dequeuePos == s.dequeuePos && s'.resetBarrier == s.resetBarrier
            && s'.words == s.words && Capacity(s') == Capacity(s)
  {}

  lemma {:induction false} OwnStepProgresses(s: Ring, spurious: bool)
    requires Inv(s) && !s.consumer.Resting? && !ConsumerStep(s, spurious).0.consumer.Resting?
    ensures StepsToAnswer(ConsumerStep(s, spurious).0) + (if spurious then 0 else 1)
            <= StepsToAnswer(s) + if spurious then 1 else 0
  {
    if s.consumer.LoadBarrier? {
      ConsumerStepOk(s, spurious);
      var s' := ConsumerStep(s, spurious).0;
      RoundsFit(s');
      OneRoundMore(Rounds(s'), Capacity(s), s.words + 6);
    } else if s.consumer.Read? {
      ReadProgresses(s, spurious);
    } else if s.consumer.FetchSeq? {
      assert SlotOk(s, s.consumer.pos);
    }
  }

  lemma {:induction false} ReadProgresses(s: Ring, spurious: bool)
    requires Inv(s) && s.consumer.Read? && !ConsumerStep(s, spurious).0.consumer.Resting?
    ensures StepsToAnswer(ConsumerStep(s, spurious).0) + 1 <= StepsToAnswer(s)
  {
    var s' := ConsumerStep(s, spurious).0;
    if |s.consumer.out| == s.words {
      assert Rounds(s) == Rounds(s') + 1;
      OneRoundMore(Rounds(s'), Rounds(s'), s.words + 6);
    } else {
      assert Rounds(s) == Rounds(s');
    }
  }

  function OwnSteps(actions: seq<Action>, own: Action): nat {
    if actions == [] then 0
    else OwnSteps(actions[..|actions| - 1], own) + if actions[|actions| - 1] == own then 1 else 0
  }

  /** The run from s on keeps the invariant and the threads. */
  lemma {:induction false} RunKeepsInv(s: Ring, actions: seq<Action>)
    requires Inv(s) && 2 <= Capacity(s)
    ensures Inv(ExecAll(s, actions)) && Capacity(ExecAll(s, actions)) == Capacity(s)
    ensures |ExecAll(s, actions).producers| == |s.producers| && ExecAll(s, actions).words == s.words
  {
    SameThreads(s, actions);
    if actions != [] {
      RunKeepsInv(s, actions[..|actions| - 1]);
      EveryStepOk(ExecAll(s, actions[..|actions| - 1]), actions[|actions| - 1]);
    }
  }

  /** The consumer is inside a call from s on. */
  ghost predicate StaysBusy(s: Ring, actions: seq<Action>)
    requires 0 < Capacity(s)
  {
    && !ExecAll(s, actions).consumer.Resting?
    && (actions != [] ==> StaysBusy(s, actions[..|actions| - 1]))
  }

  /** No call of the consumer waits for a producer: from any state of the ring and in
      every interleaving, a pop or a reset has returned after a number of its own steps
      that the size of the ring fixes, spurious failures aside, even while reserved places
      are never committed. */
  lemma {:induction false} ConsumerNeverWaits(s: Ring, actions: seq<Action>)
    requires Inv(s) && 2 <= Capacity(s) && StaysBusy(s, actions)
    ensures OwnSteps(actions, Consume(false)) + StepsToAnswer(ExecAll(s, actions))
            <= Times(Capacity(s) + 1, s.words + 6) + OwnSteps(actions, Consume(true))
  {
    if actions == [] {
      RoundsFit(s);
    } else {
      var fewer := actions[..|actions| - 1];
      ConsumerNeverWaits(s, fewer);
      RunKeepsInv(s, fewer);
      ConsumerProgresses(ExecAll(s, fewer), actions[|actions| - 1]);
    }
  }

  /** An upper bound on the own steps a push needs while no other takes a place. */
  function StepsToReturn(s: Ring, p: nat): nat
    requires p < |s.producers|
  {
    match s.producers[p]
    case Idle => 0
    case LoadPos(_) => s.words + 4
    case LoadSeq(_, pos) => if pos == s.enqueuePos then s.words + 3 else s.words + 5
    case Reserve(_, pos) => if pos == s.enqueuePos then s.words + 2 else s.words + 4
    case Write(_, _, copied) => if copied <= s.words then s.words - copied + 1 else 1
  }

  lemma {:induction false} PushProgresses(s: Ring, p: nat, a: Action)
    requires Inv(s) && 2 <= Capacity(s) && p < |s.producers|
    requires !s.producers[p].Idle? && !Exec(s, a).0.producers[p].Idle?
    requires Exec(s, a).1.Accept? ==> Exec(s, a).1.producer == p
    ensures StepsToReturn(Exec(s, a).0, p) + (if a == Produce(p, false) then 1 else 0)
            <= StepsToReturn(s, p) + if a == Produce(p, true) then 1 else 0
  {
    if a.Produce? && a.producer == p {
      OwnPushProgresses(s, p, a.spurious);
    } else {
      OtherStepStays(s, p, a);
    }
  }

  lemma {:induction false} OtherStepStays(s: Ring, p: nat, a: Action)
    requires 0 < Capacity(s) && p < |s.producers| && !(a.Produce? && a.producer == p) && !s.producers[p].Idle?
    ensures var (s', e) := Exec(s, a);
            && |s'.producers| == |s.producers| && s'.producers[p] == s.producers[p] && s'.words == s.words
            && (s'.enqueuePos == s.enqueuePos || (e.Accept? && e.producer != p))
  {}

  lemma {:induction false} OwnPushProgresses(s: Ring, p: nat, spurious: bool)
    requires Inv(s) && 2 <= Capacity(s) && p < |s.producers|
    requires !s.producers[p].Idle? && !ProducerStep(s, p, spurious).0.producers[p].Idle?
    ensures StepsToReturn(ProducerStep(s, p, spurious).0, p) + (if spurious then 0 else 1)
            <= StepsToReturn(s, p) + if spurious then 1 else 0
  {
    assert ProducerOk(s, p);
    if s.producers[p].LoadSeq? && s.producers[p].pos == s.enqueuePos { FreeOrFull(s); }
  }

  /** The cell of the next place to reserve is free, or the ring is full. */
  lemma {:induction false} FreeOrFull(s: Ring)
    requires Inv(s) && 2 <= Capacity(s)
    ensures CellAt(s, s.enqueuePos).sequence <= s.enqueuePos
  {
    var q := WindowPosition(s, s.enqueuePos);
    assert SlotOk(s, q);
  }

  /** Producer p is inside a push from s on, and no other producer takes a place. */
  ghost predicate StaysAlone(s: Ring, p: nat, actions: seq<Action>)
    requires 0 < Capacity(s)
  {
    var r := ExecAll(s, actions);
    && p < |r.producers| && !r.producers[p].Idle?
    && (actions != [] ==>
          var before, a := actions[..|actions| - 1], actions[|actions| - 1];
          && StaysAlone(s, p, before)
          && (Exec(ExecAll(s, before), a).1.Accept? ==> Exec(ExecAll(s, before), a).1.producer == p))
  }

  /** Pushes only wait for one another: from any state of the ring and in every
      interleaving, while no other producer takes a place, a push has returned after a
      fixed number of its own steps, spurious failures aside. */
  lemma {:induction false} PushOnlyWaitsForOthers(s: Ring, p: nat, actions: seq<Action>)
    requires Inv(s) && 2 <= Capacity(s) && StaysAlone(s, p, actions)
    ensures OwnSteps(actions, Produce(p, false)) + StepsToReturn(ExecAll(s, actions), p)
            <= s.words + 5 + OwnSteps(actions, Produce(p, true))
  {
    if actions == [] {
      assert ProducerOk(s, p);
    } else {
      var fewer := actions[..|actions| - 1];
      PushOnlyWaitsForOthers(s, p, fewer);
      RunKeepsInv(s, fewer);
      PushProgresses(ExecAll(s, fewer), p, actions[|actions| - 1]);
    }
  }
}
