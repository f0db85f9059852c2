// Every step of every thread keeps the ring's invariant and is a step of the abstract
// queue.
module MpscRingSteps {
  import opened Remainders
  import opened MpscRing

  ghost predicate StepOk(s: Ring, e: Event, s': Ring) {
    Shape(s) && Inv(s') && FifoStep(Abs(s), e, Abs(s'))
  }

  /** Other positions of the window keep their cells when one cell changes. */
  lemma {:induction false} OtherCells(s: Ring, pos: nat, c: Cell)
    requires 0 < Capacity(s) && Low(s) <= pos < Low(s) + Capacity(s)
    ensures CellAt(SetCell(s, pos, c), pos) == c
    ensures forall q :: Low(s) <= q < Low(s) + Capacity(s) && q != pos ==> CellAt(SetCell(s, pos, c), q) == CellAt(s, q)
  {
    forall q | Low(s) <= q < Low(s) + Capacity(s) && q != pos
      ensures CellAt(SetCell(s, pos, c), q) == CellAt(s, q)
    {
      IndexInjective(Low(s), pos, q, Capacity(s));
    }
  }

  /** A producer moving between points that own no cell. */
  lemma {:induction false} ProducerMoves(s: Ring, p: nat, pc: Producer)
    requires Inv(s) && p < |s.producers| && !s.producers[p].Write? && !pc.Write?
    requires ProducerOk(SetProducer(s, p, pc), p)
    ensures Inv(SetProducer(s, p, pc)) && Abs(SetProducer(s, p, pc)) == Abs(s)
  {
    var s' := SetProducer(s, p, pc);
    forall pos | Low(s') <= pos < Low(s') + Capacity(s') ensures SlotOk(s', pos) {
      assert SlotOk(s, pos);
    }
    forall q | 0 <= q < |s'.producers| ensures ProducerOk(s', q) {
      assert ProducerOk(s, q);
    }
    assert Entries(s') == Entries(s);
  }

  /** A consumer moving without touching the cells, the window or the boundary. */
  lemma {:induction false} ConsumerMoves(s: Ring, pc: Consumer)
    requires Inv(s)
    requires Low(s.(consumer := pc)) == Low(s) && Barrier(s.(consumer := pc)) == Barrier(s)
    requires Shape(s.(consumer := pc)) && ConsumerOk(s.(consumer := pc))
    ensures Inv(s.(consumer := pc)) && Abs(s.(consumer := pc)) == Abs(s).(scan := Discarded(s.(consumer := pc)))
  {
    var s' := s.(consumer := pc);
    forall pos | Low(s') <= pos < Low(s') + Capacity(s') ensures SlotOk(s', pos) {
      assert SlotOk(s, pos);
    }
    forall q | 0 <= q < |s'.producers| ensures ProducerOk(s', q) {
      assert ProducerOk(s, q);
    }
    assert Entries(s') == Entries(s);
  }

  /** What push reads in the sequence word decides between free, full and stale. */
  lemma {:induction false} SequenceSays(s: Ring, pos: nat)
    requires Inv(s) && 2 <= Capacity(s) && pos <= s.enqueuePos
    ensures CellAt(s, pos).sequence == pos ==> pos < Low(s) + Capacity(s)
    ensures CellAt(s, pos).sequence < pos ==> s.enqueuePos == Low(s) + Capacity(s)
  {
    var q := WindowPosition(s, pos);
    assert SlotOk(s, q);
    if q != pos { SamePlaceFarApart(pos, q, Capacity(s)); }
  }

  /** The position of the window that shares a cell with pos. */
  lemma {:induction false} WindowPosition(s: Ring, pos: nat) returns (q: nat)
    requires Shape(s) && pos <= s.enqueuePos
    ensures Low(s) <= q < Low(s) + Capacity(s) && Remainder(q, Capacity(s)) == Remainder(pos, Capacity(s))
    ensures pos < Low(s) || pos == q || pos == q + Capacity(s)
  {
    if pos < Low(s) {
      q := pos;
      while q < Low(s)
        invariant q < Low(s) + Capacity(s)
        invariant Remainder(q, Capacity(s)) == Remainder(pos, Capacity(s))
        decreases Low(s) - q
      {
        IndexWraps(q, Capacity(s));
        q := q + Capacity(s);
      }
    } else if pos < Low(s) + Capacity(s) {
      q := pos;
    } else {
      q := pos - Capacity(s);
      IndexWraps(q, Capacity(s));
    }
  }

  lemma {:induction false} SamePlaceFarApart(a: nat, b: nat, capacity: nat)
    requires 0 < capacity && a != b && Remainder(a, capacity) == Remainder(b, capacity)
    ensures a + capacity <= b || b + capacity <= a
  {
    var lo := if a < b then a else b;
    if a < lo + capacity && b < lo + capacity { IndexInjective(lo, a, b, capacity); }
  }

  lemma {:induction false} StartPushOk(s: Ring, p: nat, item: Item)
    requires Inv(s) && p < |s.producers| && s.producers[p].Idle? && |item| == s.words
    ensures StepOk(s, Internal, SetProducer(s, p, LoadPos(item)))
  {
    ProducerMoves(s, p, LoadPos(item));
  }

  /** The steps of push that own no cell. */
  lemma {:induction false} SearchStepOk(s: Ring, p: nat, spurious: bool)
    requires Inv(s) && 2 <= Capacity(s) && p < |s.producers|
    requires s.producers[p].LoadPos? || s.producers[p].LoadSeq? ||
             (s.producers[p].Reserve? && (spurious || s.producers[p].pos != s.enqueuePos))
    ensures StepOk(s, ProducerStep(s, p, spurious).1, ProducerStep(s, p, spurious).0)
  {
    assert ProducerOk(s, p);
    match s.producers[p]
    case LoadPos(item) => ProducerMoves(s, p, LoadSeq(item, s.enqueuePos));
    case LoadSeq(item, pos) =>
      SequenceSays(s, pos);
      var sequence := CellAt(s, pos).sequence;
      var next := if sequence == pos then Reserve(item, pos) else if sequence < pos then Idle else LoadPos(item);
      ProducerMoves(s, p, next);
    case Reserve(item, pos) => ProducerMoves(s, p, LoadSeq(item, s.enqueuePos));
  }

  /** The successful compare-exchange: a free cell becomes this producer's. */
  lemma {:induction false} ReserveStepOk(s: Ring, p: nat)
    requires Inv(s) && p < |s.producers| && s.producers[p].Reserve? && s.producers[p].pos == s.enqueuePos
    ensures StepOk(s, ProducerStep(s, p, false).1, ProducerStep(s, p, false).0)
  {
    var s' := ProducerStep(s, p, false).0;
    var pos := s.enqueuePos;
    assert ProducerOk(s, p);
    assert SlotOk(s, pos);
    ReserveKeepsInv(s, p);
    ReservedEntries(s, p);
  }

  lemma {:induction false} ReservedEntries(s: Ring, p: nat)
    requires Shape(s) && p < |s.producers| && s.producers[p].Reserve? && s.producers[p].pos == s.enqueuePos
    requires Shape(ProducerStep(s, p, false).0)
    requires Barrier(s) <= s.enqueuePos && CellAt(s, s.enqueuePos).sequence == s.enqueuePos
    ensures Entries(ProducerStep(s, p, false).0) == Entries(s) + [Entry(p, s.producers[p].item, false, false)]
  {
    var s' := ProducerStep(s, p, false).0;
    forall i | 0 <= i < |Entries(s)| ensures Entries(s')[i] == Entries(s)[i] {
      var q := Low(s) + i;
      assert EntryAt(s', q) == EntryAt(s, q);
    }
    assert EntryAt(s', s.enqueuePos) == Entry(p, s.producers[p].item, false, false);
  }

  lemma {:induction false} ReserveKeepsInv(s: Ring, p: nat)
    requires Inv(s) && p < |s.producers| && s.producers[p].Reserve? && s.producers[p].pos == s.enqueuePos
    ensures Inv(ProducerStep(s, p, false).0)
  {
    var s' := ProducerStep(s, p, false).0;
    assert ProducerOk(s, p);
    assert SlotOk(s, s.enqueuePos);
    forall q | Low(s') <= q < Low(s') + Capacity(s') ensures SlotOk(s', q) {
      assert SlotOk(s, q);
    }
    forall q | 0 <= q < |s'.producers| ensures ProducerOk(s', q) {
      assert ProducerOk(s, q);
    }
  }

  /** Copying one word touches only the cell this producer owns. */
  lemma {:induction false} WriteStepOk(s: Ring, p: nat)
    requires Inv(s) && p < |s.producers| && s.producers[p].Write? && s.producers[p].copied < |s.producers[p].item|
    ensures StepOk(s, ProducerStep(s, p, false).1, ProducerStep(s, p, false).0)
  {
    assert ProducerOk(s, p);
    var Write(item, pos, copied) := s.producers[p];
    var c' := CellAt(s, pos).(data := CellAt(s, pos).data[copied := item[copied]]);
    WordWritten(s, p);
    OwnedCellChanges(s, p, c', Write(item, pos, copied + 1));
    WrittenEntries(s, SetProducer(SetCell(s, pos, c'), p, Write(item, pos, copied + 1)), pos);
  }

  lemma {:induction false} WordWritten(s: Ring, p: nat)
    requires Inv(s) && p < |s.producers| && s.producers[p].Write? && s.producers[p].copied < |s.producers[p].item|
    ensures var s' := ProducerStep(s, p, false).0;
            && SlotOk(s', s.producers[p].pos) && ProducerOk(s', p)
            && CellAt(s', s.producers[p].pos).sequence == s.producers[p].pos
  {
    assert ProducerOk(s, p);
    var Write(item, pos, copied) := s.producers[p];
    var data := CellAt(s, pos).data;
    assert SlotOk(s, pos);
    assert data[copied := item[copied]][..copied + 1] == item[..copied + 1] by {
      assert data[copied := item[copied]][..copied] == data[..copied];
    }
  }

  /** Data alone does not show in the abstract queue. */
  lemma {:induction false} WrittenEntries(s: Ring, s': Ring, pos: nat)
    requires Shape(s) && Shape(s') && Low(s') == Low(s) && Capacity(s') == Capacity(s) && s'.log == s.log
    requires Barrier(s') == Barrier(s) && Low(s) <= pos < Low(s) + Capacity(s)
    requires CellAt(s', pos).sequence == CellAt(s, pos).sequence
    requires forall q :: Low(s) <= q < Low(s) + Capacity(s) && q != pos ==> CellAt(s', q) == CellAt(s, q)
    ensures Entries(s') == Entries(s)
  {
    forall i | 0 <= i < |Entries(s)| ensures Entries(s')[i] == Entries(s)[i] {
      assert EntryAt(s', Low(s) + i) == EntryAt(s, Low(s) + i);
    }
  }

  /** A producer changes its own cell: the other cells and producers do not notice. */
  lemma {:induction false} OwnedCellChanges(s: Ring, p: nat, c: Cell, pc: Producer)
    requires Inv(s) && p < |s.producers| && s.producers[p].Write? && |c.data| == s.words
    requires var s' := SetProducer(SetCell(s, s.producers[p].pos, c), p, pc);
             SlotOk(s', s.producers[p].pos) && ProducerOk(s', p)
    ensures var s' := SetProducer(SetCell(s, s.producers[p].pos, c), p, pc);
            && Inv(s')
            && forall q :: Low(s) <= q < Low(s) + Capacity(s) && q != s.producers[p].pos ==>
                 CellAt(s', q) == CellAt(s, q)
  {
    var pos := s.producers[p].pos;
    var s' := SetProducer(SetCell(s, pos, c), p, pc);
    assert ProducerOk(s, p);
    OtherCells(s, pos, c);
    forall q | Low(s') <= q < Low(s') + Capacity(s') ensures SlotOk(s', q) {
      if q != pos { OtherSlot(s, s', p, q); }
    }
    forall q | 0 <= q < |s'.producers| ensures ProducerOk(s', q) {
      if q != p { OtherProducer(s, s', p, q); }
    }
    assert SlotOk(s, pos);
    if s.consumer.Read? { assert SlotOk(s, s.consumer.pos); }
  }

  lemma {:induction false} OtherSlot(s: Ring, s': Ring, p: nat, q: nat)
    requires Inv(s) && p < |s.producers| && Shape(s')
    requires s'.log == s.log && s'.enqueuePos == s.enqueuePos && Capacity(s') == Capacity(s)
    requires |s'.producers| == |s.producers|
    requires forall r :: 0 <= r < |s.producers| && r != p ==> s'.producers[r] == s.producers[r]
    requires Low(s) <= q < Low(s) + Capacity(s) && CellAt(s', q) == CellAt(s, q)
    requires s.producers[p].Write? && s.producers[p].pos != q
    ensures SlotOk(s', q)
  {
    assert SlotOk(s, q);
  }

  lemma {:induction false} OtherProducer(s: Ring, s': Ring, p: nat, q: nat)
    requires Inv(s) && p < |s.producers| && q < |s.producers| && q != p && Shape(s')
    requires s'.log == s.log && s'.enqueuePos == s.enqueuePos && Capacity(s') == Capacity(s)
    requires Low(s') == Low(s) && s'.words == s.words
    requires |s'.producers| == |s.producers| && s'.producers[q] == s.producers[q]
    requires s.producers[p].Write?
    requires forall r :: Low(s) <= r < Low(s) + Capacity(s) && r != s.producers[p].pos ==> CellAt(s', r) == CellAt(s, r)
    ensures ProducerOk(s', q)
  {
    assert ProducerOk(s, q);
    assert ProducerOk(s, p);
  }

  /** The release store publishes the whole item. */
  lemma {:induction false} PublishStepOk(s: Ring, p: nat)
    requires Inv(s) && p < |s.producers| && s.producers[p].Write? && s.producers[p].copied == |s.producers[p].item|
    ensures StepOk(s, ProducerStep(s, p, false).1, ProducerStep(s, p, false).0)
  {
    var s' := ProducerStep(s, p, false).0;
    assert ProducerOk(s, p);
    var Write(item, pos, copied) := s.producers[p];
    var c := CellAt(s, pos).(sequence := pos + 1);
    assert c.data == item by {
      assert c.data[..copied] == c.data && item[..copied] == item;
    }
    assert CellAt(s', pos) == c;
    OwnedCellChanges(s, p, c, Idle);
    CommitsOne(s, s', pos);
  }

  lemma {:induction false} CommitsOne(s: Ring, s': Ring, pos: nat)
    requires Shape(s) && Shape(s') && Low(s) <= pos < s.enqueuePos && Capacity(s') == Capacity(s)
    requires s'.log == s.log && s'.consumer == s.consumer
    requires s'.resetBarrier == s.resetBarrier && s'.dequeuePos == s.dequeuePos
    requires s.enqueuePos <= Low(s) + Capacity(s) && !Committed(s, pos) && Committed(s', pos)
    requires forall q :: Low(s) <= q < Low(s) + Capacity(s) && q != pos ==> CellAt(s', q) == CellAt(s, q)
    ensures FifoStep(Abs(s), Commit(pos), Abs(s'))
  {
    CommittedEntries(s, s', pos);
  }

  lemma {:induction false} CommittedEntries(s: Ring, s': Ring, pos: nat)
    requires Shape(s) && Shape(s') && Low(s) <= pos < s.enqueuePos && Capacity(s') == Capacity(s)
    requires s'.log == s.log && Low(s') == Low(s) && Barrier(s') == Barrier(s)
    requires s.enqueuePos <= Low(s) + Capacity(s) && Committed(s', pos)
    requires forall q :: Low(s) <= q < Low(s) + Capacity(s) && q != pos ==> CellAt(s', q) == CellAt(s, q)
    ensures var k := pos - Low(s); Entries(s') == Entries(s)[k := Entries(s)[k].(committed := true)]
  {
    var k := pos - Low(s);
    var before, after := Entries(s), Entries(s');
    forall i | 0 <= i < |before| && i != k ensures after[i] == before[i] {
      SameEntry(s, s', Low(s) + i);
    }
    CommittedEntry(s, s', pos);
    OneEntryChanges(before, after, k);
  }

  lemma {:induction false} SameEntry(s: Ring, s': Ring, pos: nat)
    requires 0 < Capacity(s) == Capacity(s') && pos < |s.log| && s'.log == s.log
    requires Barrier(s') == Barrier(s) && CellAt(s', pos) == CellAt(s, pos)
    ensures EntryAt(s', pos) == EntryAt(s, pos)
  {}

  lemma {:induction false} CommittedEntry(s: Ring, s': Ring, pos: nat)
    requires 0 < Capacity(s) == Capacity(s') && pos < |s.log| && s'.log == s.log
    requires Barrier(s') == Barrier(s) && Committed(s', pos)
    ensures EntryAt(s', pos) == EntryAt(s, pos).(committed := true)
  {}

  lemma {:induction false} OneEntryChanges(before: seq<Entry>, after: seq<Entry>, k: nat)
    requires k < |before| == |after| && forall i :: 0 <= i < |before| && i != k ==> after[i] == before[i]
    ensures after == before[k := after[k]]
  {}

  // ---- the consumer's steps ---------------------------------------------------

  lemma {:induction false} HeadEntry(s: Ring)
    requires Inv(s) && Low(s) < s.enqueuePos
    ensures Entries(s) != [] && Entries(s)[0] == EntryAt(s, Low(s))
  {}

  /** The consumer's steps that neither take nor release a cell. */
  lemma {:induction false} ScanStepOk(s: Ring, spurious: bool)
    requires Inv(s) && !s.consumer.Read?
    requires s.consumer.Claim? ==> spurious
    ensures StepOk(s, ConsumerStep(s, spurious).1, ConsumerStep(s, spurious).0)
  {
    match s.consumer
    case Resting =>
    case LoadBarrier => SnapshotStepOk(s);
    case Scan(barrier, discarded) =>
      if s.dequeuePos >= barrier { BoundaryStepOk(s); } else { ConsumerMoves(s, FetchPos(Clear(barrier, discarded))); }
    case FetchPos(task) => ConsumerMoves(s, FetchSeq(task, s.dequeuePos));
    case FetchSeq(task, pos) => FetchSeqStepOk(s);
    case Claim(task, pos) => ConsumerMoves(s, FetchSeq(task, s.dequeuePos));
  }

  /** The snapshot: from here on everything already reserved is doomed. */
  lemma {:induction false} SnapshotStepOk(s: Ring)
    requires Inv(s) && s.consumer.LoadBarrier?
    ensures StepOk(s, ConsumerStep(s, false).1, ConsumerStep(s, false).0)
  {
    var s' := ConsumerStep(s, false).0;
    SameRing(s, s');
    assert Entries(s') == seq(|Entries(s)|, i requires 0 <= i < |Entries(s)| => Doomed(Entries(s)[i]));
  }

  /** Storing the boundary of the reset that ends. */
  lemma {:induction false} BoundaryStepOk(s: Ring)
    requires Inv(s)
    requires s.consumer.Scan? && s.dequeuePos >= s.consumer.barrier
    ensures StepOk(s, ConsumerStep(s, false).1, ConsumerStep(s, false).0)
  {
    var s' := ConsumerStep(s, false).0;
    SameRing(s, s');
    assert Entries(s') == Entries(s);
    if Low(s) < s.enqueuePos { HeadEntry(s); }
  }

  /** Nothing but the consumer and its boundary changes. */
  lemma {:induction false} SameRing(s: Ring, s': Ring)
    requires Inv(s) && Shape(s') && ConsumerOk(s') && Low(s') == Low(s)
    requires s' == s.(consumer := s'.consumer, resetBarrier := s'.resetBarrier)
    ensures Inv(s')
  {
    forall q | Low(s') <= q < Low(s') + Capacity(s') ensures SlotOk(s', q) {
      assert SlotOk(s, q);
    }
    forall q | 0 <= q < |s'.producers| ensures ProducerOk(s', q) {
      assert ProducerOk(s, q);
    }
  }

  lemma {:induction false} FetchSeqStepOk(s: Ring)
    requires Inv(s) && s.consumer.FetchSeq?
    ensures StepOk(s, ConsumerStep(s, false).1, ConsumerStep(s, false).0)
  {
    var s' := ConsumerStep(s, false).0;
    var pos := s.consumer.pos;
    assert SlotOk(s, pos);
    assert ConsumerOk(s');
    SameRing(s, s');
    assert Entries(s') == Entries(s);
    if Low(s) < s.enqueuePos { HeadEntry(s); }
  }

  lemma {:induction false} ClaimStepOk(s: Ring)
    requires Inv(s) && s.consumer.Claim?
    ensures StepOk(s, ConsumerStep(s, false).1, ConsumerStep(s, false).0)
  {
    var s' := ConsumerStep(s, false).0;
    var pos := s.consumer.pos;
    assert SlotOk(s, pos);
    forall q | Low(s') <= q < Low(s') + Capacity(s') ensures SlotOk(s', q) {
      assert SlotOk(s, q);
    }
    forall q | 0 <= q < |s'.producers| ensures ProducerOk(s', q) {
      assert ProducerOk(s, q);
    }
    assert Entries(s') == Entries(s);
  }

  lemma {:induction false} ReadStepOk(s: Ring)
    requires Inv(s) && s.consumer.Read? && |s.consumer.out| < s.words
    ensures StepOk(s, ConsumerStep(s, false).1, ConsumerStep(s, false).0)
  {
    var s' := ConsumerStep(s, false).0;
    var pos, out := s.consumer.pos, s.consumer.out;
    assert SlotOk(s, pos);
    assert s.log[pos].item[..|out| + 1] == s.log[pos].item[..|out|] + [s.log[pos].item[|out|]];
    SameRing(s, s');
    assert Entries(s') == Entries(s);
  }

  /** The release store that gives the cell back to the producers. */
  lemma {:induction false} RecycleStepOk(s: Ring)
    requires Inv(s) && s.consumer.Read? && |s.consumer.out| == s.words
    ensures StepOk(s, ConsumerStep(s, false).1, ConsumerStep(s, false).0)
  {
    var s' := ConsumerStep(s, false).0;
    var pos := s.consumer.pos;
    RecycleKeepsInv(s, s');
    assert SlotOk(s, pos);
    assert s.consumer.out == s.log[pos].item;
    RecycledEntries(s, s');
  }

  lemma {:induction false} RecycledEntries(s: Ring, s': Ring)
    requires Inv(s) && s.consumer.Read? && |s.consumer.out| == s.words && s' == ConsumerStep(s, false).0
    requires Inv(s')
    ensures Entries(s) != [] && Entries(s)[0] == EntryAt(s, s.consumer.pos) && Entries(s') == Entries(s)[1..]
  {
    HeadEntry(s);
    RecycledCells(s, s');
    TailEntries(s, s');
  }

  lemma {:induction false} TailEntries(s: Ring, s': Ring)
    requires Shape(s) && Shape(s') && Capacity(s') == Capacity(s) && s'.log == s.log
    requires Barrier(s') == Barrier(s) && Low(s') == Low(s) + 1 <= s.enqueuePos <= Low(s) + Capacity(s)
    requires forall q :: Low(s) < q < Low(s) + Capacity(s) ==> CellAt(s', q) == CellAt(s, q)
    ensures Entries(s') == Entries(s)[1..]
  {
    forall i | 0 <= i < |Entries(s')| ensures Entries(s')[i] == Entries(s)[1..][i] {
      SameEntry(s, s', Low(s') + i);
    }
  }

  /** After recycling, the freed cell is that of the newest position of the window. */
  lemma {:induction false} RecycledCells(s: Ring, s': Ring)
    requires Inv(s) && s.consumer.Read? && |s.consumer.out| == s.words && s' == ConsumerStep(s, false).0
    ensures CellAt(s', s.consumer.pos + Capacity(s)).sequence == s.consumer.pos + Capacity(s)
    ensures forall q :: s.consumer.pos < q < s.consumer.pos + Capacity(s) ==> CellAt(s', q) == CellAt(s, q)
  {
    var pos := s.consumer.pos;
    OtherCells(s, pos, CellAt(s, pos).(sequence := pos + Capacity(s)));
    IndexWraps(pos, Capacity(s));
  }

  lemma {:induction false} RecycleKeepsInv(s: Ring, s': Ring)
    requires Inv(s) && s.consumer.Read? && |s.consumer.out| == s.words && s' == ConsumerStep(s, false).0
    ensures Inv(s')
  {
    var pos := s.consumer.pos;
    RecycledCells(s, s');
    assert SlotOk(s, pos);
    forall q | Low(s') <= q < Low(s') + Capacity(s') ensures SlotOk(s', q) {
      if q < pos + Capacity(s) { assert SlotOk(s, q); }
    }
    forall q | 0 <= q < |s'.producers| ensures ProducerOk(s', q) {
      assert ProducerOk(s, q);
    }
  }

  // ---- any step --------------------------------------------------------------

  /** Any scheduler choice in any reachable ring of two or more cells is a step of
      the abstract queue showing the same event. */
  lemma {:induction false} EveryStepOk(s: Ring, a: Action)
    requires Inv(s) && 2 <= Capacity(s)
    ensures StepOk(s, Exec(s, a).1, Exec(s, a).0)
  {
    match a
    case StartPush(p, item) =>
      if p < |s.producers| && s.producers[p].Idle? && |item| == s.words { StartPushOk(s, p, item); }
    case Produce(p, spurious) =>
      if p < |s.producers| { ProducerStepOk(s, p, spurious); }
    case StartPop =>
      if s.consumer.Resting? { ConsumerMoves(s, FetchPos(Pop)); }
    case StartClear =>
      if s.consumer.Resting? { ConsumerMoves(s, LoadBarrier); }
    case Consume(spurious) => ConsumerStepOk(s, spurious);
  }

  lemma {:induction false} ProducerStepOk(s: Ring, p: nat, spurious: bool)
    requires Inv(s) && 2 <= Capacity(s) && p < |s.producers|
    ensures StepOk(s, ProducerStep(s, p, spurious).1, ProducerStep(s, p, spurious).0)
  {
    assert ProducerOk(s, p);
    match s.producers[p]
    case Idle =>
    case Reserve(item, pos) =>
      if s.enqueuePos == pos && !spurious { ReserveStepOk(s, p); } else { SearchStepOk(s, p, spurious); }
    case Write(item, pos, copied) =>
      if copied < |item| { WriteStepOk(s, p); } else { PublishStepOk(s, p); }
    case _ => SearchStepOk(s, p, spurious);
  }

  lemma {:induction false} ConsumerStepOk(s: Ring, spurious: bool)
    requires Inv(s)
    ensures StepOk(s, ConsumerStep(s, spurious).1, ConsumerStep(s, spurious).0)
  {
    if s.consumer.Claim? && !spurious {
      ClaimStepOk(s);
    } else if s.consumer.Read? {
      assert SlotOk(s, s.consumer.pos);
      if |s.consumer.out| < s.words { ReadStepOk(s); } else { RecycleStepOk(s); }
    } else {
      ScanStepOk(s, spurious);
    }
  }
}
