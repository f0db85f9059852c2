// What every interleaving of producers, consumer and resets obeys.
module MpscRingRuns {
  import opened Basics
  import opened Remainders
  import opened MpscRing
  import opened MpscRingSteps

  lemma {:induction false} InitialOk(s: Ring, capacity: nat)
    requires Initial(s, capacity) && 0 < capacity
    ensures Inv(s) && Abs(s) == Fifo(capacity, 0, [], None)
  {}

  /** states are the abstract queues between the events of trace, from empty on. */
  ghost predicate IsFifoRun(capacity: nat, states: seq<Fifo>, trace: seq<Event>) {
    && |states| == |trace| + 1
    && states[0] == Fifo(capacity, 0, [], None)
    && forall i :: 0 <= i < |trace| ==> FifoStep(states[i], trace[i], states[i + 1])
  }

  /** Refinement: for every interleaving of any number of producers with the
      consumer and its resets, the ring shows a trace of the abstract FIFO. */
  lemma {:induction false} RingRefinesFifo(s: Ring, capacity: nat, actions: seq<Action>) returns (states: seq<Fifo>)
    requires Initial(s, capacity) && 2 <= capacity
    ensures Inv(ExecAll(s, actions))
    ensures IsFifoRun(capacity, states, Trace(s, actions))
    ensures states[|actions|] == Abs(ExecAll(s, actions))
  {
    if actions == [] {
      InitialOk(s, capacity);
      states := [Fifo(capacity, 0, [], None)];
    } else {
      var before, a := actions[..|actions| - 1], actions[|actions| - 1];
      var earlier := RingRefinesFifo(s, capacity, before);
      EveryStepOk(ExecAll(s, before), a);
      FifoRunGrows(capacity, earlier, Trace(s, before), Exec(ExecAll(s, before), a).1, Abs(ExecAll(s, actions)));
      states := earlier + [Abs(ExecAll(s, actions))];
    }
  }

  lemma {:induction false} FifoRunGrows(capacity: nat, states: seq<Fifo>, trace: seq<Event>, e: Event, f: Fifo)
    requires IsFifoRun(capacity, states, trace) && FifoStep(states[|trace|], e, f)
    ensures IsFifoRun(capacity, states + [f], trace + [e])
  {
    var states', trace' := states + [f], trace + [e];
    forall i | 0 <= i < |trace'| ensures FifoStep(states'[i], trace'[i], states'[i + 1]) {
      if i < |trace| { assert FifoStep(states[i], trace[i], states[i + 1]); }
    }
  }

  // ---- what every trace of the abstract queue obeys ----------------------------

  datatype Fate = Delivered(item: Item) | Dropped

  /** The accepted items, in reservation order. */
  function Accepts(trace: seq<Event>): seq<Reservation> {
    if trace == [] then []
    else
      var before := Accepts(trace[..|trace| - 1]);
      match trace[|trace| - 1]
      case Accept(_, p, item) => before + [Reservation(p, item)]
      case _ => before
  }

  /** What became of the items that left, in the order they left. */
  function Fates(trace: seq<Event>): seq<Fate> {
    if trace == [] then []
    else
      var before := Fates(trace[..|trace| - 1]);
      match trace[|trace| - 1]
      case Deliver(_, item) => before + [Delivered(item)]
      case Drop(_) => before + [Dropped]
      case _ => before
  }

  /** The boundary of the latest reset, 0 before the first. */
  function LastBarrier(trace: seq<Event>): nat {
    if trace == [] then 0
    else match trace[|trace| - 1]
      case Reset(b) => b
      case _ => LastBarrier(trace[..|trace| - 1])
  }

  function DropsSinceReset(trace: seq<Event>): nat {
    if trace == [] then 0
    else
      var before := DropsSinceReset(trace[..|trace| - 1]);
      match trace[|trace| - 1]
      case Reset(_) => 0
      case Drop(_) => before + 1
      case _ => before
  }

  /** Every accepted item is delivered, dropped or still queued, exactly one of
      these; items leave in the order of their reservation; a delivered item is, word
      for word, the one its producer pushed. doomed means below the latest boundary. */
  ghost predicate Accounted(trace: seq<Event>, f: Fifo) {
    && f.base == |Fates(trace)|
    && |Accepts(trace)| == f.base + |f.entries|
    && LastBarrier(trace) <= |Accepts(trace)|
    && (forall i :: 0 <= i < |f.entries| ==>
          && Reservation(f.entries[i].producer, f.entries[i].item) == Accepts(trace)[f.base + i]
          && (f.entries[i].doomed <==> f.base + i < LastBarrier(trace)))
    && (forall pos :: 0 <= pos < |Fates(trace)| && Fates(trace)[pos].Delivered? ==>
          Fates(trace)[pos].item == Accepts(trace)[pos].item)
    && (f.scan.Some? ==> f.scan.value == DropsSinceReset(trace))
  }

  lemma {:induction false} FifoRunAccounts(capacity: nat, states: seq<Fifo>, trace: seq<Event>)
    requires IsFifoRun(capacity, states, trace)
    ensures Accounted(trace, states[|trace|])
  {
    if trace != [] {
      var n := |trace| - 1;
      FifoRunAccounts(capacity, states[..n + 1], trace[..n]);
      FifoStepAccounts(trace, states[n], states[n + 1]);
    }
  }

  lemma {:induction false} FifoStepAccounts(trace: seq<Event>, f: Fifo, f': Fifo)
    requires trace != [] && Accounted(trace[..|trace| - 1], f) && FifoStep(f, trace[|trace| - 1], f')
    ensures Accounted(trace, f')
  {
    match trace[|trace| - 1]
    case Deliver(_, _) => LeavingAccounts(trace, f, f');
    case Drop(_) => LeavingAccounts(trace, f, f');
    case Accept(_, _, _) => AcceptAccounts(trace, f, f');
    case _ => StayingAccounts(trace, f, f');
  }

  lemma {:induction false} LeavingAccounts(trace: seq<Event>, f: Fifo, f': Fifo)
    requires trace != [] && Accounted(trace[..|trace| - 1], f) && FifoStep(f, trace[|trace| - 1], f')
    requires trace[|trace| - 1].Deliver? || trace[|trace| - 1].Drop?
    ensures Accounted(trace, f')
  {
    assert Accepts(trace) == Accepts(trace[..|trace| - 1]);
    assert f.entries[0].item == Accepts(trace)[f.base].item;
    forall i | 0 <= i < |f'.entries| ensures f'.entries[i] == f.entries[1 + i] {}
  }

  lemma {:induction false} AcceptAccounts(trace: seq<Event>, f: Fifo, f': Fifo)
    requires trace != [] && Accounted(trace[..|trace| - 1], f) && FifoStep(f, trace[|trace| - 1], f')
    requires trace[|trace| - 1].Accept?
    ensures Accounted(trace, f')
  {
    var e := trace[|trace| - 1];
    assert Accepts(trace) == Accepts(trace[..|trace| - 1]) + [Reservation(e.producer, e.item)];
  }

  lemma {:induction false} StayingAccounts(trace: seq<Event>, f: Fifo, f': Fifo)
    requires trace != [] && Accounted(trace[..|trace| - 1], f) && FifoStep(f, trace[|trace| - 1], f')
    requires !trace[|trace| - 1].Deliver? && !trace[|trace| - 1].Drop? && !trace[|trace| - 1].Accept?
    ensures Accounted(trace, f')
  {
    assert Accepts(trace) == Accepts(trace[..|trace| - 1]);
    assert Fates(trace) == Fates(trace[..|trace| - 1]);
  }

  /** The reset boundary, over a whole run: from the snapshot on, no item reserved
      before it is delivered, even one published later; no item reserved at or after
      the latest boundary is dropped; boundaries never move back; and a reset reports
      exactly what it dropped. */
  lemma {:induction false} ResetBoundary(capacity: nat, states: seq<Fifo>, trace: seq<Event>, j: nat)
    requires IsFifoRun(capacity, states, trace) && j < |trace|
    ensures trace[j].Deliver? ==> trace[j].pos == |Fates(trace[..j])| && LastBarrier(trace[..j]) <= trace[j].pos
    ensures trace[j].Drop? ==> trace[j].pos == |Fates(trace[..j])| && trace[j].pos < LastBarrier(trace[..j])
    ensures trace[j].Reset? ==> LastBarrier(trace[..j]) <= trace[j].barrier == |Accepts(trace[..j])|
    ensures trace[j].ResetDone? ==> trace[j].discarded == DropsSinceReset(trace[..j])
    ensures trace[j].Accept? ==> trace[j].pos == |Accepts(trace[..j])|
  {
    FifoRunAccounts(capacity, states[..j + 1], trace[..j]);
    assert FifoStep(states[j], trace[j], states[j + 1]);
  }

  lemma {:induction false} BarriersOnlyGrow(capacity: nat, states: seq<Fifo>, trace: seq<Event>, i: nat, j: nat)
    requires IsFifoRun(capacity, states, trace) && i <= j <= |trace|
    ensures LastBarrier(trace[..i]) <= LastBarrier(trace[..j])
  {
    if i < j {
      BarriersOnlyGrow(capacity, states, trace, i, j - 1);
      ResetBoundary(capacity, states, trace, j - 1);
      assert trace[..j][..j - 1] == trace[..j - 1];
    }
  }

  lemma {:induction false} DeliveriesRespectResets(capacity: nat, states: seq<Fifo>, trace: seq<Event>, i: nat, j: nat)
    requires IsFifoRun(capacity, states, trace) && i < j < |trace|
    requires trace[i].Reset? && trace[j].Deliver?
    ensures trace[i].barrier <= trace[j].pos
  {
    ResetBoundary(capacity, states, trace, j);
    BarriersOnlyGrow(capacity, states, trace, i + 1, j);
    assert trace[..i + 1][|trace[..i + 1]| - 1] == trace[i];
  }

  /** For every interleaving: an item whose place was reserved before a reset's
      snapshot is never delivered after it. */
  lemma {:induction false} NothingCrossesAReset(s: Ring, capacity: nat, actions: seq<Action>, i: nat, j: nat)
    requires Initial(s, capacity) && 2 <= capacity
    requires i < j < |actions|
    requires Trace(s, actions)[i].Reset? && Trace(s, actions)[j].Deliver?
    ensures Trace(s, actions)[i].barrier <= Trace(s, actions)[j].pos
  {
    var states := RingRefinesFifo(s, capacity, actions);
    DeliveriesRespectResets(capacity, states, Trace(s, actions), i, j);
  }

  function Drops(trace: seq<Event>): nat {
    if trace == [] then 0
    else Drops(trace[..|trace| - 1]) + if trace[|trace| - 1].Drop? then 1 else 0
  }

  /** Between two resets the consumer skips at most the stale positions below the
      boundary, so the retry loop of pop ends after that many rounds. */
  lemma {:induction false} SkippingIsBounded(capacity: nat, states: seq<Fifo>, trace: seq<Event>, i: nat, j: nat)
    requires IsFifoRun(capacity, states, trace) && i <= j <= |trace|
    requires forall k :: i <= k < j ==> !trace[k].Reset?
    ensures LastBarrier(trace[..j]) == LastBarrier(trace[..i])
    ensures Drops(trace[..j]) - Drops(trace[..i])
            <= Min(|Fates(trace[..j])|, Max(LastBarrier(trace[..i]), |Fates(trace[..i])|)) - |Fates(trace[..i])|
  {
    if i < j {
      SkippingIsBounded(capacity, states, trace, i, j - 1);
      ResetBoundary(capacity, states, trace, j - 1);
      assert trace[..j][..j - 1] == trace[..j - 1] && trace[..j][j - 1] == trace[j - 1];
    }
  }

  /** For every interleaving: what is delivered at a position is, untorn, the item
      whose producer reserved that position, and positions leave in order. */
  lemma {:induction false} DeliveredIsWhatWasPushed(s: Ring, capacity: nat, actions: seq<Action>, j: nat)
    requires Initial(s, capacity) && 2 <= capacity
    requires j < |actions| && Trace(s, actions)[j].Deliver?
    ensures var trace, e := Trace(s, actions), Trace(s, actions)[j];
            && e.pos == |Fates(trace[..j])| < |Accepts(trace[..j])|
            && Accepts(trace[..j])[e.pos].item == e.item
  {
    var states := RingRefinesFifo(s, capacity, actions);
    var trace := Trace(s, actions);
    FifoRunAccounts(capacity, states[..j + 1], trace[..j]);
    assert FifoStep(states[j], trace[j], states[j + 1]);
  }

  /** For every interleaving: push gives up only when every cell is reserved,
      committed or being recycled, never because of contention. */
  lemma {:induction false} RefusedOnlyWhenFull(s: Ring, capacity: nat, actions: seq<Action>, a: Action)
    requires Initial(s, capacity) && 2 <= capacity
    requires Exec(ExecAll(s, actions), a).1.Refuse?
    ensures var r := ExecAll(s, actions); r.enqueuePos == Low(r) + capacity
  {
    var states := RingRefinesFifo(s, capacity, actions);
    EveryStepOk(ExecAll(s, actions), a);
  }

  lemma {:induction false} OwnersDiffer(r: Ring, p: nat, q: nat)
    requires Inv(r) && p < |r.producers| && q < |r.producers| && r.producers[p].Write?
    ensures p != q && r.producers[q].Write? ==>
              Remainder(r.producers[p].pos, Capacity(r)) != Remainder(r.producers[q].pos, Capacity(r))
    ensures r.consumer.Read? ==> Remainder(r.producers[p].pos, Capacity(r)) != Remainder(r.consumer.pos, Capacity(r))
  {
    assert ProducerOk(r, p) && ProducerOk(r, q);
    if p != q && r.producers[q].Write? {
      IndexInjective(Low(r), r.producers[p].pos, r.producers[q].pos, Capacity(r));
    }
    if r.consumer.Read? {
      assert SlotOk(r, r.consumer.pos);
      IndexInjective(Low(r), r.producers[p].pos, r.consumer.pos, Capacity(r));
    }
  }

  /** In every reachable state no two threads are inside the same cell. */
  lemma {:induction false} CellsHaveOneOwner(s: Ring, capacity: nat, actions: seq<Action>, p: nat, q: nat)
    requires Initial(s, capacity) && 2 <= capacity
    requires var r := ExecAll(s, actions); p < |r.producers| && q < |r.producers| && r.producers[p].Write?
    ensures var r := ExecAll(s, actions);
            && (p != q && r.producers[q].Write? ==>
                  Remainder(r.producers[p].pos, capacity) != Remainder(r.producers[q].pos, capacity))
            && (r.consumer.Read? ==> Remainder(r.producers[p].pos, capacity) != Remainder(r.consumer.pos, capacity))
  {
    var states := RingRefinesFifo(s, capacity, actions);
    OwnersDiffer(ExecAll(s, actions), p, q);
  }
}
