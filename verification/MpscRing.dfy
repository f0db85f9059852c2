// The bounded multi-producer single-consumer ring as an interleaved step machine.
// Every atomic load, store and compare-exchange is one step; copying an item in or
// out of a cell takes one step a word. Memory is sequentially consistent and
// positions are unbounded.
module MpscRing {
  import opened Basics
  import opened Remainders

  type Item = seq<int>

  datatype Cell = Cell(sequence: nat, data: Item)

  /** Where a producer stands inside push(item). */
  datatype Producer =
    | Idle
    | LoadPos(item: Item)
    | LoadSeq(item: Item, pos: nat)
    | Reserve(item: Item, pos: nat)
    | Write(item: Item, pos: nat, copied: nat)

  /** What the consumer's raw dequeue is running for. */
  datatype Task = Pop | Clear(barrier: nat, discarded: nat)

  datatype Consumer =
    | Resting
    | LoadBarrier
    | Scan(barrier: nat, discarded: nat)
    | FetchPos(task: Task)
    | FetchSeq(task: Task, pos: nat)
    | Claim(task: Task, pos: nat)
    | Read(task: Task, pos: nat, out: Item)

  datatype Reservation = Reservation(producer: nat, item: Item)

  /** The ring and its threads. log is a history variable: the reservations in the
      order their compare-exchange succeeded. */
  datatype Ring = Ring(
    words: nat, cells: seq<Cell>, enqueuePos: nat, dequeuePos: nat, resetBarrier: nat,
    producers: seq<Producer>, consumer: Consumer, log: seq<Reservation>)

  /** What a step shows to the outside. */
  datatype Event =
    | Internal
    | Accept(pos: nat, producer: nat, item: Item)
    | Commit(pos: nat)
    | Refuse(producer: nat)
    | Deliver(pos: nat, item: Item)
    | Drop(pos: nat)
    | Miss
    | Reset(barrier: nat)
    | ResetDone(discarded: nat)

  /** The scheduler's choices. spurious makes a weak compare-exchange fail. */
  datatype Action =
    | StartPush(producer: nat, item: Item)
    | Produce(producer: nat, spurious: bool)
    | StartPop
    | StartClear
    | Consume(spurious: bool)

  function Capacity(s: Ring): nat { |s.cells| }

  /** Two positions of one window never share a cell. */
  lemma {:induction false} IndexInjective(lo: nat, a: nat, b: nat, capacity: nat)
    requires 0 < capacity && lo <= a < lo + capacity && lo <= b < lo + capacity
    ensures Remainder(a, capacity) == Remainder(b, capacity) ==> a == b
  {
    if lo >= capacity {
      IndexInjective(lo - capacity, a - capacity, b - capacity, capacity);
    } else {
      assert Remainder(a, capacity) == if a < capacity then a else a - capacity;
      assert Remainder(b, capacity) == if b < capacity then b else b - capacity;
    }
  }

  lemma {:induction false} IndexWraps(pos: nat, capacity: nat)
    requires 0 < capacity
    ensures Remainder(pos + capacity, capacity) == Remainder(pos, capacity)
  {}

  /** The cell of a position: masking by capacity - 1 is the remainder, for the powers
      of two the ring admits. */
  function CellAt(s: Ring, pos: nat): Cell
    requires 0 < Capacity(s)
  {
    s.cells[Remainder(pos, Capacity(s))]
  }

  function SetProducer(s: Ring, p: nat, pc: Producer): Ring
    requires p < |s.producers|
  {
    s.(producers := s.producers[p := pc])
  }

  function SetCell(s: Ring, pos: nat, c: Cell): Ring
    requires 0 < Capacity(s)
  {
    s.(cells := s.cells[Remainder(pos, Capacity(s)) := c])
  }

  // ---- the steps -----------------------------------------------------------

  /** One step of push. */
  function ProducerStep(s: Ring, p: nat, spurious: bool): (Ring, Event)
    requires 0 < Capacity(s) && p < |s.producers|
  {
    match s.producers[p]
    case Idle => (s, Internal)
    case LoadPos(item) => (SetProducer(s, p, LoadSeq(item, s.enqueuePos)), Internal)
    case LoadSeq(item, pos) =>
      var sequence := CellAt(s, pos).sequence;
      if sequence == pos then (SetProducer(s, p, Reserve(item, pos)), Internal)
      else if sequence < pos then (SetProducer(s, p, Idle), Refuse(p))
      else (SetProducer(s, p, LoadPos(item)), Internal)
    case Reserve(item, pos) =>
      if s.enqueuePos == pos && !spurious then
        (SetProducer(s, p, Write(item, pos, 0))
           .(enqueuePos := pos + 1, log := s.log + [Reservation(p, item)]), Accept(pos, p, item))
      else (SetProducer(s, p, LoadSeq(item, s.enqueuePos)), Internal)
    case Write(item, pos, copied) =>
      var c := CellAt(s, pos);
      if copied < |item| && copied < |c.data| then
        (SetProducer(SetCell(s, pos, c.(data := c.data[copied := item[copied]])), p, Write(item, pos, copied + 1)),
         Internal)
      else (SetProducer(SetCell(s, pos, c.(sequence := pos + 1)), p, Idle), Commit(pos))
  }

  /** One step of pop or of the reset. */
  function ConsumerStep(s: Ring, spurious: bool): (Ring, Event)
    requires 0 < Capacity(s)
  {
    match s.consumer
    case Resting => (s, Internal)
    case LoadBarrier => (s.(consumer := Scan(s.enqueuePos, 0)), Reset(s.enqueuePos))
    case Scan(barrier, discarded) =>
      if s.dequeuePos >= barrier then (s.(consumer := Resting, resetBarrier := barrier), ResetDone(discarded))
      else (s.(consumer := FetchPos(Clear(barrier, discarded))), Internal)
    case FetchPos(task) => (s.(consumer := FetchSeq(task, s.dequeuePos)), Internal)
    case FetchSeq(task, pos) =>
      var sequence := CellAt(s, pos).sequence;
      if sequence == pos + 1 then (s.(consumer := Claim(task, pos)), Internal)
      else if sequence < pos + 1 then
        (match task
         case Pop => (s.(consumer := Resting), Miss)
         case Clear(barrier, discarded) =>
           (s.(consumer := Resting, resetBarrier := barrier), ResetDone(discarded)))
      else (s.(consumer := FetchPos(task)), Internal)
    case Claim(task, pos) =>
      if s.dequeuePos == pos && !spurious then
        (s.(dequeuePos := pos + 1, consumer := Read(task, pos, [])), Internal)
      else (s.(consumer := FetchSeq(task, s.dequeuePos)), Internal)
    case Read(task, pos, out) =>
      var c := CellAt(s, pos);
      if |out| < |c.data| then (s.(consumer := Read(task, pos, out + [c.data[|out|]])), Internal)
      else
        var s' := SetCell(s, pos, c.(sequence := pos + Capacity(s)));
        match task
        case Pop =>
          if pos >= s.resetBarrier then (s'.(consumer := Resting), Deliver(pos, out))
          else (s'.(consumer := FetchPos(Pop)), Drop(pos))
        case Clear(barrier, discarded) => (s'.(consumer := Scan(barrier, discarded + 1)), Drop(pos))
  }

  function Exec(s: Ring, a: Action): (Ring, Event)
    requires 0 < Capacity(s)
  {
    match a
    case StartPush(p, item) =>
      if p < |s.producers| && s.producers[p].Idle? && |item| == s.words
      then (SetProducer(s, p, LoadPos(item)), Internal) else (s, Internal)
    case Produce(p, spurious) => if p < |s.producers| then ProducerStep(s, p, spurious) else (s, Internal)
    case StartPop => (if s.consumer.Resting? then s.(consumer := FetchPos(Pop)) else s, Internal)
    case StartClear => (if s.consumer.Resting? then s.(consumer := LoadBarrier) else s, Internal)
    case Consume(spurious) => ConsumerStep(s, spurious)
  }

  predicate Initial(s: Ring, capacity: nat) {
    && |s.cells| == capacity
    && (forall i :: 0 <= i < capacity ==> s.cells[i].sequence == i && |s.cells[i].data| == s.words)
    && s.enqueuePos == s.dequeuePos == s.resetBarrier == 0
    && (forall p :: 0 <= p < |s.producers| ==> s.producers[p].Idle?)
    && s.consumer.Resting? && s.log == []
  }

  function ExecAll(s: Ring, actions: seq<Action>): (r: Ring)
    requires 0 < Capacity(s)
    ensures Capacity(r) == Capacity(s)
  {
    if actions == [] then s
    else Exec(ExecAll(s, actions[..|actions| - 1]), actions[|actions| - 1]).0
  }

  /** The events of a run, one an action. */
  function Trace(s: Ring, actions: seq<Action>): (r: seq<Event>)
    requires 0 < Capacity(s)
    ensures |r| == |actions|
  {
    if actions == [] then []
    else
      var before := actions[..|actions| - 1];
      Trace(s, before) + [Exec(ExecAll(s, before), actions[|actions| - 1]).1]
  }

  // ---- the invariant --------------------------------------------------------

  /** The oldest position whose cell has not been recycled. */
  function Low(s: Ring): nat {
    if s.consumer.Read? then s.consumer.pos else s.dequeuePos
  }

  /** The reset boundary in force: from the snapshot on, that of the running reset. */
  function Barrier(s: Ring): nat {
    match s.consumer
    case Scan(b, _) => b
    case FetchPos(Clear(b, _)) => b
    case FetchSeq(Clear(b, _), _) => b
    case Claim(Clear(b, _), _) => b
    case Read(Clear(b, _), _, _) => b
    case _ => s.resetBarrier
  }

  /** How many items the running reset has discarded. */
  function Discarded(s: Ring): Option<nat> {
    match s.consumer
    case Scan(_, n) => Some(n)
    case FetchPos(Clear(_, n)) => Some(n)
    case FetchSeq(Clear(_, n), _) => Some(n)
    case Claim(Clear(_, n), _) => Some(n)
    case Read(Clear(_, n), _, _) => Some(n)
    case _ => None
  }

  predicate Committed(s: Ring, pos: nat)
    requires 0 < Capacity(s)
  {
    CellAt(s, pos).sequence == pos + 1
  }

  /** The cell of a position in the window is free, reserved by the producer the log
      names, or committed with exactly that producer's item. */
  predicate SlotOk(s: Ring, pos: nat)
    requires 0 < Capacity(s) && |s.log| == s.enqueuePos
  {
    if pos >= s.enqueuePos then CellAt(s, pos).sequence == pos
    else if Committed(s, pos) then CellAt(s, pos).data == s.log[pos].item
    else
      && CellAt(s, pos).sequence == pos
      && s.log[pos].producer < |s.producers|
      && var pc := s.producers[s.log[pos].producer]; pc.Write? && pc.pos == pos
  }

  predicate ProducerOk(s: Ring, p: nat)
    requires 0 < Capacity(s) && p < |s.producers| && |s.log| == s.enqueuePos
  {
    match s.producers[p]
    case Idle => true
    case LoadPos(item) => |item| == s.words
    case LoadSeq(item, pos) => |item| == s.words && pos <= s.enqueuePos
    case Reserve(item, pos) => |item| == s.words && pos <= s.enqueuePos && pos < Low(s) + Capacity(s)
    case Write(item, pos, copied) =>
      && |item| == s.words
      && Low(s) <= pos < s.enqueuePos
      && s.log[pos] == Reservation(p, item)
      && CellAt(s, pos).sequence == pos
      && copied <= |item| == |CellAt(s, pos).data|
      && CellAt(s, pos).data[..copied] == item[..copied]
  }

  /** A reset only dequeues below its own snapshot. */
  predicate Within(task: Task, pos: nat) { task.Clear? ==> pos < task.barrier }

  predicate ConsumerOk(s: Ring)
    requires 0 < Capacity(s) && |s.log| == s.enqueuePos
  {
    && s.resetBarrier <= Barrier(s) <= s.enqueuePos
    && match s.consumer
       case FetchPos(task) => Within(task, s.dequeuePos)
       case FetchSeq(task, pos) => Within(task, pos) && pos == s.dequeuePos
       case Claim(task, pos) => Within(task, pos) && pos == s.dequeuePos < s.enqueuePos && Committed(s, pos)
       case Read(task, pos, out) =>
         && Within(task, pos)
         && pos + 1 == s.dequeuePos <= s.enqueuePos
         && Committed(s, pos)
         && |out| <= |s.log[pos].item| && out == s.log[pos].item[..|out|]
       case _ => true
  }

  predicate Shape(s: Ring) {
    && 0 < Capacity(s)
    && |s.log| == s.enqueuePos
    && (forall i :: 0 <= i < |s.cells| ==> |s.cells[i].data| == s.words)
    && (forall i :: 0 <= i < |s.log| ==> |s.log[i].item| == s.words)
    && s.dequeuePos <= s.enqueuePos <= Low(s) + Capacity(s)
    && (s.consumer.Read? ==> s.consumer.pos + 1 == s.dequeuePos)
  }

  predicate Inv(s: Ring) {
    && Shape(s)
    && (forall pos :: Low(s) <= pos < Low(s) + Capacity(s) ==> SlotOk(s, pos))
    && (forall p :: 0 <= p < |s.producers| ==> ProducerOk(s, p))
    && ConsumerOk(s)
  }

  // ---- the abstract queue ---------------------------------------------------

  /** doomed: reserved before the latest reset took its snapshot. */
  datatype Entry = Entry(producer: nat, item: Item, committed: bool, doomed: bool)

  /** A FIFO of reservations; base is the position of its head. scan counts what a
      running reset has discarded. */
  datatype Fifo = Fifo(capacity: nat, base: nat, entries: seq<Entry>, scan: Option<nat>)

  function Doomed(e: Entry): Entry { e.(doomed := true) }

  predicate FifoStep(f: Fifo, e: Event, f': Fifo) {
    match e
    case Internal => f' == f
    case Accept(pos, p, item) =>
      && pos == f.base + |f.entries| && |f.entries| < f.capacity
      && f' == f.(entries := f.entries + [Entry(p, item, false, false)])
    case Commit(pos) =>
      && f.base <= pos < f.base + |f.entries| && !f.entries[pos - f.base].committed
      && f' == f.(entries := f.entries[pos - f.base := f.entries[pos - f.base].(committed := true)])
    case Refuse(_) => |f.entries| == f.capacity && f' == f
    case Deliver(pos, item) =>
      && f.scan == None && f.entries != [] && pos == f.base
      && f.entries[0].committed && !f.entries[0].doomed && f.entries[0].item == item
      && f' == f.(base := f.base + 1, entries := f.entries[1..])
    case Drop(pos) =>
      && f.entries != [] && pos == f.base
      && f.entries[0].committed && f.entries[0].doomed
      && f' == f.(base := f.base + 1, entries := f.entries[1..],
                  scan := if f.scan == None then None else Some(f.scan.value + 1))
    case Miss => f.scan == None && (f.entries == [] || !f.entries[0].committed) && f' == f
    case Reset(barrier) =>
      && f.scan == None && barrier == f.base + |f.entries|
      && f' == f.(entries := seq(|f.entries|, i requires 0 <= i < |f.entries| => Doomed(f.entries[i])), scan := Some(0))
    case ResetDone(n) =>
      && f.scan == Some(n)
      && (f.entries == [] || !f.entries[0].committed || !f.entries[0].doomed)
      && f' == f.(scan := None)
  }

  function EntryAt(s: Ring, pos: nat): Entry
    requires 0 < Capacity(s) && pos < |s.log|
  {
    Entry(s.log[pos].producer, s.log[pos].item, Committed(s, pos), pos < Barrier(s))
  }

  function Entries(s: Ring): (r: seq<Entry>)
    requires Shape(s)
    ensures |r| == s.enqueuePos - Low(s)
    ensures forall i :: 0 <= i < |r| ==> r[i] == EntryAt(s, Low(s) + i)
  {
    seq(s.enqueuePos - Low(s), i requires 0 <= i < s.enqueuePos - Low(s) => EntryAt(s, Low(s) + i))
  }

  /** The queue a ring state stands for. */
  function Abs(s: Ring): Fifo
    requires Shape(s)
  {
    Fifo(Capacity(s), Low(s), Entries(s), Discarded(s))
  }
}
