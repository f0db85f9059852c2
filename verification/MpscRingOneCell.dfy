// A ring of one cell is not a bounded queue.
module MpscRingOneCell {
  import opened MpscRing
  import opened MpscRingRuns

  lemma {:induction false} ExecMore(s: Ring, actions: seq<Action>, a: Action)
    requires 0 < Capacity(s)
    ensures ExecAll(s, actions + [a]) == Exec(ExecAll(s, actions), a).0
    ensures Trace(s, actions + [a]) == Trace(s, actions) + [Exec(ExecAll(s, actions), a).1]
  {
    assert (actions + [a])[..|actions|] == actions;
  }

  /** The reservations of a run are its Accept events; what left was claimed first. */
  lemma {:induction false} LogIsAccepts(s: Ring, actions: seq<Action>)
    requires 0 < Capacity(s) && s.log == [] && !s.consumer.Read?
    ensures ExecAll(s, actions).log == Accepts(Trace(s, actions))
    ensures |Fates(Trace(s, actions))| + (if ExecAll(s, actions).consumer.Read? then 1 else 0)
            <= ExecAll(s, actions).dequeuePos
  {
    if actions != [] {
      var before, a := actions[..|actions| - 1], actions[|actions| - 1];
      LogIsAccepts(s, before);
      var trace := Trace(s, actions);
      assert trace[..|trace| - 1] == Trace(s, before);
      ExecLogs(ExecAll(s, before), a);
    }
  }

  lemma {:induction false} ExecLogs(s: Ring, a: Action)
    requires 0 < Capacity(s)
    ensures var (s', e) := Exec(s, a);
            && s'.log == (if e.Accept? then s.log + [Reservation(e.producer, e.item)] else s.log)
            && s.dequeuePos + (if s'.consumer.Read? && !s.consumer.Read? then 1 else 0) <= s'.dequeuePos
            && ((e.Deliver? || e.Drop?) ==> s.consumer.Read? && !s'.consumer.Read?)
            && (s.consumer.Read? ==> s'.consumer.Read? || e.Deliver? || e.Drop?)
  {}

  /** A one-cell ring after the first item: its sequence word reads as free. */
  function OneCell(producers: seq<Producer>, items: seq<int>): Ring
    requires |items| == 1
  {
    Ring(1, [Cell(1, items)], 1, 0, 0, producers, Resting, [Reservation(0, items)])
  }

  /** With one cell the committed and the free sequence numbers coincide, and a
      second push is accepted into the cell that still holds the first item. */
  lemma {:induction false} OneCellOverfills(a: int, b: int) returns (s: Ring, actions: seq<Action>)
    ensures Initial(s, 1) && |actions| > 0
    ensures ExecAll(s, actions[..|actions| - 1]).dequeuePos == 0
    ensures Trace(s, actions)[|actions| - 1] == Accept(1, 1, [b])
  {
    s, actions := FirstItem(a, b);
    var again := Produce(1, false);
    var r := OneCell([Idle, LoadPos([b])], [a]);
    assert Exec(r, again).0 == OneCell([Idle, LoadSeq([b], 1)], [a]);
    ExecMore(s, actions, again);
    actions := actions + [again];
    r := OneCell([Idle, LoadSeq([b], 1)], [a]);
    assert Exec(r, again).0 == OneCell([Idle, Reserve([b], 1)], [a]);
    ExecMore(s, actions, again);
    actions := actions + [again];
    r := OneCell([Idle, Reserve([b], 1)], [a]);
    assert Exec(r, again).1 == Accept(1, 1, [b]);
    ExecMore(s, actions, again);
    assert (actions + [again])[..|actions|] == actions;
    actions := actions + [again];
  }

  lemma {:induction false} FirstItem(a: int, b: int) returns (s: Ring, actions: seq<Action>)
    ensures Initial(s, 1) && ExecAll(s, actions) == OneCell([Idle, LoadPos([b])], [a])
  {
    s := Ring(1, [Cell(0, [0])], 0, 0, 0, [Idle, Idle], Resting, []);
    actions := SearchesFirst(s, a, b);
    actions := PublishesFirst(s, actions, a, b);
  }

  function Empty(first: Producer, second: Producer): Ring {
    Ring(1, [Cell(0, [0])], 0, 0, 0, [first, second], Resting, [])
  }

  lemma {:induction false} SearchesFirst(s: Ring, a: int, b: int) returns (actions: seq<Action>)
    requires s == Empty(Idle, Idle)
    ensures ExecAll(s, actions) == Empty(Reserve([a], 0), LoadPos([b]))
  {
    ExecMore(s, [], StartPush(0, [a]));
    actions := [] + [StartPush(0, [a])];
    assert Exec(s, StartPush(0, [a])).0 == Empty(LoadPos([a]), Idle);
    ExecMore(s, actions, StartPush(1, [b]));
    actions := actions + [StartPush(1, [b])];
    assert Exec(Empty(LoadPos([a]), Idle), StartPush(1, [b])).0 == Empty(LoadPos([a]), LoadPos([b]));
    ExecMore(s, actions, Produce(0, false));
    actions := actions + [Produce(0, false)];
    assert Exec(Empty(LoadPos([a]), LoadPos([b])), Produce(0, false)).0 == Empty(LoadSeq([a], 0), LoadPos([b]));
    ExecMore(s, actions, Produce(0, false));
    actions := actions + [Produce(0, false)];
    assert Exec(Empty(LoadSeq([a], 0), LoadPos([b])), Produce(0, false)).0 == Empty(Reserve([a], 0), LoadPos([b]));
  }

  lemma {:induction false} PublishesFirst(s: Ring, before: seq<Action>, a: int, b: int) returns (actions: seq<Action>)
    requires 0 < Capacity(s) && ExecAll(s, before) == Empty(Reserve([a], 0), LoadPos([b]))
    ensures ExecAll(s, actions) == OneCell([Idle, LoadPos([b])], [a])
  {
    var log := [Reservation(0, [a])];
    ExecMore(s, before, Produce(0, false));
    actions := before + [Produce(0, false)];
    var r := Ring(1, [Cell(0, [0])], 1, 0, 0, [Write([a], 0, 0), LoadPos([b])], Resting, log);
    assert ExecAll(s, actions) == r;
    ExecMore(s, actions, Produce(0, false));
    actions := actions + [Produce(0, false)];
    var r' := Ring(1, [Cell(0, [a])], 1, 0, 0, [Write([a], 0, 1), LoadPos([b])], Resting, log);
    assert [0][0 := a] == [a] && [Cell(0, [0])][0 := Cell(0, [a])] == [Cell(0, [a])];
    assert Exec(r, Produce(0, false)).0 == r';
    ExecMore(s, actions, Produce(0, false));
    actions := actions + [Produce(0, false)];
    assert Exec(r', Produce(0, false)).0 == OneCell([Idle, LoadPos([b])], [a]);
  }

  ghost predicate Refines(s: Ring, capacity: nat, actions: seq<Action>)
    requires 0 < Capacity(s)
  {
    exists states :: IsFifoRun(capacity, states, Trace(s, actions))
  }

  /** Every run of the ring is a run of the bounded FIFO exactly when it has two
      cells or more. */
  lemma {:induction false} RefinesIffTwoCells(capacity: nat)
    requires 0 < capacity
    ensures (forall s: Ring, actions :: Initial(s, capacity) ==> Refines(s, capacity, actions)) <==> 2 <= capacity
  {
    if 2 <= capacity {
      forall s: Ring, actions | Initial(s, capacity) ensures Refines(s, capacity, actions) {
        var states := RingRefinesFifo(s, capacity, actions);
      }
    } else {
      var s, actions := OneCellOverfills(0, 1);
      NoFifoOverfills(s, actions);
    }
  }

  lemma {:induction false} NoFifoOverfills(s: Ring, actions: seq<Action>)
    requires Initial(s, 1) && |actions| > 0
    requires ExecAll(s, actions[..|actions| - 1]).dequeuePos == 0
    requires Trace(s, actions)[|actions| - 1].Accept? && Trace(s, actions)[|actions| - 1].pos == 1
    ensures !Refines(s, 1, actions)
  {
    var trace, n := Trace(s, actions), |actions| - 1;
    LogIsAccepts(s, actions[..n]);
    assert trace[..n] == Trace(s, actions[..n]);
    forall states ensures !IsFifoRun(1, states, trace) {
      FullQueueRefuses(states, trace);
    }
  }

  lemma {:induction false} FullQueueRefuses(states: seq<Fifo>, trace: seq<Event>)
    requires trace != [] && |Fates(trace[..|trace| - 1])| == 0
    requires trace[|trace| - 1].Accept? && trace[|trace| - 1].pos == 1
    ensures !IsFifoRun(1, states, trace)
  {
    if IsFifoRun(1, states, trace) {
      var n := |trace| - 1;
      assert FifoStep(states[n], trace[n], states[n + 1]);
      FifoRunKeepsCapacity(1, states, trace, n);
      FifoRunAccounts(1, states[..n + 1], trace[..n]);
    }
  }

  lemma {:induction false} FifoRunKeepsCapacity(capacity: nat, states: seq<Fifo>, trace: seq<Event>, n: nat)
    requires IsFifoRun(capacity, states, trace) && n <= |trace|
    ensures states[n].capacity == capacity
  {
    if n > 0 {
      FifoRunKeepsCapacity(capacity, states, trace, n - 1);
      assert FifoStep(states[n - 1], trace[n - 1], states[n - 1 + 1]);
    }
  }
}
