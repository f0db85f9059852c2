// The fixed-capacity C64 bus event queue: a buffer with a consumed prefix, sorted
// only when it is read, and an abstract pending list it stands for.
module SidBusQueues {
  import opened Basics
  import opened StableOrder

  const CAPACITY := 1024

  /** rw is true for a read, false for a write. */
  datatype BusCycle = BusCycle(address: nat, data: nat, rw: bool, phi2Cycle: nat, order: nat, projectionMirror: bool)

  datatype SidBusEvent = SidBusEvent(cycle: BusCycle, valid: bool)

  /** Bus slots in service order: by PHI2 cycle, the write edge before the read edge. */
  function SlotKey(c: BusCycle): int { 2 * c.phi2Cycle + if c.rw then 1 else 0 }

  /** The comparator handed to the library sort. */
  predicate Less(a: SidBusEvent, b: SidBusEvent) {
    if a.cycle.phi2Cycle != b.cycle.phi2Cycle then a.cycle.phi2Cycle < b.cycle.phi2Cycle
    else if a.cycle.rw != b.cycle.rw then !a.cycle.rw && b.cycle.rw
    else a.cycle.order < b.cycle.order
  }

  ghost predicate Sorted(s: seq<SidBusEvent>) {
    forall i, j :: 0 <= i < j < |s| ==> Less(s[i], s[j])
  }

  /** The tie-breakers are pairwise distinct, so Less is a strict total order on s. */
  ghost predicate DistinctOrders(s: seq<SidBusEvent>) {
    forall i, j :: 0 <= i < j < |s| ==> s[i].cycle.order != s[j].cycle.order
  }

  // ---- the sort -----------------------------------------------------------

  function Insert(s: seq<SidBusEvent>, e: SidBusEvent): (r: seq<SidBusEvent>)
    ensures |r| == |s| + 1
  {
    if s == [] then [e]
    else if Less(e, s[|s| - 1]) then Insert(s[..|s| - 1], e) + [s[|s| - 1]]
    else s + [e]
  }

  function SortedSeq(s: seq<SidBusEvent>): (r: seq<SidBusEvent>)
    ensures |r| == |s|
  {
    if s == [] then [] else Insert(SortedSeq(s[..|s| - 1]), s[|s| - 1])
  }

  lemma {:induction false} InsertPermutes(s: seq<SidBusEvent>, e: SidBusEvent)
    ensures multiset(Insert(s, e)) == multiset(s) + multiset{e}
  {
    if s != [] {
      assert s == s[..|s| - 1] + [s[|s| - 1]];
      InsertPermutes(s[..|s| - 1], e);
    }
  }

  lemma {:induction false} InsertSorts(s: seq<SidBusEvent>, e: SidBusEvent)
    requires Sorted(s) && forall i :: 0 <= i < |s| ==> s[i].cycle.order != e.cycle.order
    ensures Sorted(Insert(s, e))
  {
    if s != [] && Less(e, s[|s| - 1]) {
      var rest, last := s[..|s| - 1], s[|s| - 1];
      InsertSorts(rest, e);
      InsertPermutes(rest, e);
      forall x | x in Insert(rest, e) ensures Less(x, last) {
        assert x in multiset(Insert(rest, e));
      }
    }
  }

  lemma {:induction false} SortedSeqSorts(s: seq<SidBusEvent>)
    requires DistinctOrders(s)
    ensures Sorted(SortedSeq(s)) && multiset(SortedSeq(s)) == multiset(s)
  {
    if s != [] {
      var rest, last := s[..|s| - 1], s[|s| - 1];
      assert s == rest + [last];
      SortedSeqSorts(rest);
      InsertPermutes(SortedSeq(rest), last);
      forall i | 0 <= i < |SortedSeq(rest)| ensures SortedSeq(rest)[i].cycle.order != last.cycle.order {
        assert SortedSeq(rest)[i] in multiset(rest);
        assert SortedSeq(rest)[i] in rest;
      }
      InsertSorts(SortedSeq(rest), last);
    }
  }

  lemma {:induction false} LastIsGreatest(s: seq<SidBusEvent>, x: SidBusEvent)
    requires Sorted(s) && x in multiset(s)
    ensures s != [] && (x == s[|s| - 1] || Less(x, s[|s| - 1]))
  {
    assert x in s;
    var i :| 0 <= i < |s| && s[i] == x;
  }

  lemma {:induction false} DropLast(s: seq<SidBusEvent>)
    requires s != []
    ensures multiset(s[..|s| - 1]) == multiset(s) - multiset{s[|s| - 1]}
  {
    assert s == s[..|s| - 1] + [s[|s| - 1]];
  }

  lemma {:induction false} LastsAgree(a: seq<SidBusEvent>, b: seq<SidBusEvent>)
    requires Sorted(a) && Sorted(b) && multiset(a) == multiset(b) && a != [] && b != []
    ensures a[|a| - 1] == b[|b| - 1]
  {
    var x, y := a[|a| - 1], b[|b| - 1];
    assert x in multiset(a) && y in multiset(b);
    LastIsGreatest(a, y);
    LastIsGreatest(b, x);
  }

  /** An unstable library sort still has only one possible result. */
  lemma {:induction false} SortIsUnique(a: seq<SidBusEvent>, b: seq<SidBusEvent>)
    requires Sorted(a) && Sorted(b) && multiset(a) == multiset(b)
    ensures a == b
  {
    assert |a| == |multiset(a)| == |b|;
    if a != [] {
      LastsAgree(a, b);
      DropLast(a);
      DropLast(b);
      SortIsUnique(a[..|a| - 1], b[..|b| - 1]);
      assert a == a[..|a| - 1] + [a[|a| - 1]] && b == b[..|b| - 1] + [a[|a| - 1]];
    }
  }

  lemma {:induction false} RepeatsCount(t: seq<SidBusEvent>, i: nat, j: nat)
    requires i < j < |t| && t[i] == t[j]
    ensures multiset(t)[t[i]] >= 2
  {
    assert t == t[..j] + [t[j]] + t[j + 1..];
    assert t[i] in t[..j];
  }

  lemma {:induction false} DistinctCountsOnce(s: seq<SidBusEvent>, x: SidBusEvent)
    requires DistinctOrders(s)
    ensures multiset(s)[x] <= 1
  {
    if s != [] {
      var rest, last := s[..|s| - 1], s[|s| - 1];
      assert s == rest + [last];
      DistinctCountsOnce(rest, x);
      if x in multiset(rest) {
        assert x in rest;
      }
    }
  }

  lemma {:induction false} PermutationIsDistinct(s: seq<SidBusEvent>, t: seq<SidBusEvent>)
    requires DistinctOrders(s) && multiset(s) == multiset(t)
    ensures DistinctOrders(t)
  {
    forall i, j | 0 <= i < j < |t| ensures t[i].cycle.order != t[j].cycle.order {
      if t[i] == t[j] {
        RepeatsCount(t, i, j);
        assert multiset(s)[t[i]] >= 2;
        DistinctCountsOnce(s, t[i]);
      } else {
        assert t[i] in multiset(s) && t[j] in multiset(s);
        assert t[i] in s && t[j] in s;
      }
    }
  }

  /** What the library sort promises, and no more. */
  method StdSort(a: array<SidBusEvent>, n: nat)
    requires n <= a.Length && DistinctOrders(a[..n])
    modifies a
    ensures Sorted(a[..n]) && multiset(a[..n]) == multiset(old(a[..n]))
    ensures a[n..] == old(a[n..])
  {
    var sorted := SortedSeq(a[..n]);
    SortedSeqSorts(a[..n]);
    for i := 0 to n
      invariant a[..i] == sorted[..i] && a[n..] == old(a[n..])
    {
      a[i] := sorted[i];
    }
    assert a[..n] == sorted;
  }

  // ---- the pending list ---------------------------------------------------

  /** An event without its tie-breaker, which is bookkeeping of the buffer. */
  function Strip(e: SidBusEvent): BusCycle { e.cycle.(order := 0) }

  function StripAll(s: seq<SidBusEvent>): (r: seq<BusCycle>)
    ensures |r| == |s| && forall i :: 0 <= i < |s| ==> r[i] == Strip(s[i])
  {
    seq(|s|, i requires 0 <= i < |s| => Strip(s[i]))
  }

  /** The events of a buffer range, in service order. */
  ghost function ServiceOrder(s: seq<SidBusEvent>): (r: seq<BusCycle>)
    ensures |r| == |s|
  {
    StripAll(SortedSeq(s))
  }

  /** c goes behind everything that is not in a later bus slot. */
  function Enqueue(p: seq<BusCycle>, c: BusCycle): seq<BusCycle> {
    if p == [] then [c]
    else if SlotKey(c) < SlotKey(p[|p| - 1]) then Enqueue(p[..|p| - 1], c) + [p[|p| - 1]]
    else p + [c]
  }

  function Keep(p: seq<BusCycle>, mirror: bool): seq<BusCycle> {
    if p == [] then []
    else
      var rest, last := Keep(p[..|p| - 1], mirror), p[|p| - 1];
      if last.projectionMirror == mirror then rest + [last] else rest
  }

  lemma {:induction false} SortedIsServiceOrder(s: seq<SidBusEvent>)
    requires Sorted(s) && DistinctOrders(s)
    ensures SortedSeq(s) == s && ServiceOrder(s) == StripAll(s)
  {
    SortedSeqSorts(s);
    SortIsUnique(SortedSeq(s), s);
  }

  lemma {:induction false} InsertIsEnqueue(s: seq<SidBusEvent>, e: SidBusEvent)
    requires forall i :: 0 <= i < |s| ==> s[i].cycle.order < e.cycle.order
    ensures StripAll(Insert(s, e)) == Enqueue(StripAll(s), Strip(e))
  {
    if s != [] {
      var rest := s[..|s| - 1];
      assert StripAll(rest) == StripAll(s)[..|s| - 1];
      InsertIsEnqueue(rest, e);
    }
  }

  lemma {:induction false} AppendIsEnqueue(s: seq<SidBusEvent>, e: SidBusEvent)
    requires DistinctOrders(s) && forall i :: 0 <= i < |s| ==> s[i].cycle.order < e.cycle.order
    ensures ServiceOrder(s + [e]) == Enqueue(ServiceOrder(s), Strip(e))
  {
    assert (s + [e])[..|s|] == s;
    SortedSeqSorts(s);
    forall i | 0 <= i < |SortedSeq(s)| ensures SortedSeq(s)[i].cycle.order < e.cycle.order {
      assert SortedSeq(s)[i] in multiset(s);
      assert SortedSeq(s)[i] in s;
    }
    InsertIsEnqueue(SortedSeq(s), e);
  }

  // ---- consumed events ----------------------------------------------------

  /** No pending event sorts before an event that was already consumed. */
  ghost predicate NoneOvertakes(consumed: seq<SidBusEvent>, pending: seq<SidBusEvent>) {
    forall i, j :: 0 <= i < |consumed| && 0 <= j < |pending| ==> Less(consumed[i], pending[j])
  }

  /** The queue sorts consumed and pending events together. No consumed event is
      among those still to be served exactly when no pending event overtakes one. */
  lemma {:induction false} NothingServedTwiceIff(consumed: seq<SidBusEvent>, pending: seq<SidBusEvent>)
    requires DistinctOrders(consumed + pending) && Sorted(consumed)
    ensures (forall e :: e in consumed ==> e !in SortedSeq(consumed + pending)[|consumed|..])
              <==> NoneOvertakes(consumed, pending)
  {
    if NoneOvertakes(consumed, pending) {
      OrderlySortSplits(consumed, pending);
      forall e | e in consumed ensures e !in SortedSeq(pending) {
        SortedSeqSorts(pending);
        ConsumedIsNotPending(consumed, pending, e);
        assert e !in multiset(pending);
      }
    }
    if forall e :: e in consumed ==> e !in SortedSeq(consumed + pending)[|consumed|..] {
      ServedOnceMeansNoOvertake(consumed, pending);
    }
  }

  lemma {:induction false} ServedOnceMeansNoOvertake(consumed: seq<SidBusEvent>, pending: seq<SidBusEvent>)
    requires DistinctOrders(consumed + pending) && Sorted(consumed)
    requires forall e :: e in consumed ==> e !in SortedSeq(consumed + pending)[|consumed|..]
    ensures NoneOvertakes(consumed, pending)
  {
    var sorted, n := SortedSeq(consumed + pending), |consumed|;
    SortedSeqSorts(consumed + pending);
    assert multiset(consumed) == multiset(sorted[..n]) by {
      assert sorted == sorted[..n] + sorted[n..];
      forall e | e in multiset(consumed) ensures multiset(consumed)[e] <= multiset(sorted[..n])[e] {
        assert multiset(sorted)[e] == multiset(consumed + pending)[e];
        assert e in consumed && e !in multiset(sorted[n..]);
      }
      assert multiset(consumed) <= multiset(sorted[..n]);
      SameSizeSubset(multiset(consumed), multiset(sorted[..n]));
    }
    SortIsUnique(sorted[..n], consumed);
    KeptPrefixMeansNoOvertake(consumed, pending, sorted);
  }

  lemma {:induction false} SameSizeSubset(a: multiset<SidBusEvent>, b: multiset<SidBusEvent>)
    requires a <= b && |a| == |b|
    ensures a == b
  {
    assert b == a + (b - a);
  }

  lemma {:induction false} ConsumedIsNotPending(consumed: seq<SidBusEvent>, pending: seq<SidBusEvent>, e: SidBusEvent)
    requires DistinctOrders(consumed + pending) && e in consumed
    ensures e !in pending
  {
    var i :| 0 <= i < |consumed| && consumed[i] == e;
    forall j | 0 <= j < |pending| ensures pending[j] != e {
      assert (consumed + pending)[i] == e && (consumed + pending)[|consumed| + j] == pending[j];
    }
  }

  lemma {:induction false} OrderlySortSplits(consumed: seq<SidBusEvent>, pending: seq<SidBusEvent>)
    requires DistinctOrders(consumed + pending) && Sorted(consumed) && NoneOvertakes(consumed, pending)
    ensures DistinctOrders(pending) && SortedSeq(consumed + pending) == consumed + SortedSeq(pending)
  {
    SuffixIsDistinct(consumed, pending);
    SortedSeqSorts(consumed + pending);
    SortedSeqSorts(pending);
    OrderlyAppend(consumed, pending, SortedSeq(pending));
    SortIsUnique(SortedSeq(consumed + pending), consumed + SortedSeq(pending));
  }

  lemma {:induction false} OrderlyAppend(consumed: seq<SidBusEvent>, pending: seq<SidBusEvent>,
                                         sorted: seq<SidBusEvent>)
    requires Sorted(consumed) && Sorted(sorted) && NoneOvertakes(consumed, pending)
    requires multiset(sorted) == multiset(pending)
    ensures Sorted(consumed + sorted)
  {
    forall i, j | 0 <= i < |consumed| && 0 <= j < |sorted| ensures Less(consumed[i], sorted[j]) {
      assert sorted[j] in multiset(pending);
      assert sorted[j] in pending;
    }
  }

  lemma {:induction false} SuffixIsDistinct(s: seq<SidBusEvent>, t: seq<SidBusEvent>)
    requires DistinctOrders(s + t)
    ensures DistinctOrders(t)
  {
    forall i, j | 0 <= i < j < |t| ensures t[i].cycle.order != t[j].cycle.order {
      assert (s + t)[|s| + i] == t[i] && (s + t)[|s| + j] == t[j];
    }
  }

  lemma {:induction false} KeptPrefixMeansNoOvertake(consumed: seq<SidBusEvent>, pending: seq<SidBusEvent>,
                                                     sorted: seq<SidBusEvent>)
    requires Sorted(sorted) && multiset(sorted) == multiset(consumed + pending)
    requires |consumed| <= |sorted| && sorted[..|consumed|] == consumed
    ensures NoneOvertakes(consumed, pending)
  {
    var n := |consumed|;
    var rest := sorted[n..];
    assert sorted == consumed + rest;
    assert multiset(rest) == multiset(sorted) - multiset(consumed) == multiset(pending);
    forall i, j | 0 <= i < n && 0 <= j < |pending| ensures Less(consumed[i], pending[j]) {
      assert pending[j] in multiset(rest);
      assert pending[j] in rest;
      var m :| 0 <= m < |rest| && rest[m] == pending[j];
      assert Less(sorted[i], sorted[n + m]);
    }
  }

  // ---- the queue as a machine over values --------------------------------

  /** The buffered events, consumed ones first, and the two flags. The order
      counter is not here: it always equals the number of buffered events. */
  datatype Queue = Queue(buf: seq<SidBusEvent>, cursor: nat, sorted: bool)

  datatype Op = Push(cycle: BusCycle) | Next(phi2Cycle: nat) | RemoveMirror | Clear

  const EMPTY := Queue([], 0, true)

  function Rebased(s: seq<SidBusEvent>): (r: seq<SidBusEvent>)
    ensures |r| == |s|
  {
    seq(|s|, i requires 0 <= i < |s| => s[i].(cycle := s[i].cycle.(order := i)))
  }

  predicate IsMirror(e: SidBusEvent) { e.valid && e.cycle.projectionMirror }

  function KeepEvents(s: seq<SidBusEvent>, mirror: bool): seq<SidBusEvent> {
    if s == [] then []
    else
      var rest, last := KeepEvents(s[..|s| - 1], mirror), s[|s| - 1];
      if IsMirror(last) == mirror then rest + [last] else rest
  }

  function Cycles(s: seq<SidBusEvent>): (r: seq<BusCycle>)
    ensures |r| == |s|
  {
    seq(|s|, i requires 0 <= i < |s| => s[i].cycle)
  }

  function SortOf(q: Queue): Queue {
    if q.sorted || |q.buf| <= 1 then q else Queue(SortedSeq(q.buf), q.cursor, true)
  }

  function Renumbered(q: Queue): Queue { q.(buf := Rebased(q.buf)) }

  function CompactOf(q: Queue): Queue {
    if q.cursor == 0 then q
    else if q.cursor >= |q.buf| then EMPTY
    else Renumbered(SortOf(Queue(q.buf[q.cursor..], 0, q.sorted)))
  }

  function PushOf(q: Queue, c: BusCycle): (Queue, bool) {
    var room := if |q.buf| >= CAPACITY then CompactOf(q) else q;
    if |room.buf| >= CAPACITY then (room, false)
    else (Queue(room.buf + [SidBusEvent(c.(order := |room.buf|), true)], room.cursor, false), true)
  }

  function NextOf(q: Queue, phi2Cycle: nat): (Queue, Option<BusCycle>) { TakeOf(SortOf(q), phi2Cycle) }

  /** The head of a sorted queue, if it is due. */
  function TakeOf(s: Queue, phi2Cycle: nat): (Queue, Option<BusCycle>) {
    if s.cursor >= |s.buf| then (s, None)
    else if !s.buf[s.cursor].valid || s.buf[s.cursor].cycle.phi2Cycle > phi2Cycle then (s, None)
    else (s.(cursor := s.cursor + 1), Some(s.buf[s.cursor].cycle))
  }

  function MirrorOf(q: Queue): (Queue, seq<BusCycle>) {
    if q.buf == [] then (q, [])
    else
      var c := CompactOf(q);
      if c.buf == [] then (c, [])
      else
        var s := SortOf(c);
        (Queue(Rebased(KeepEvents(s.buf, false)), 0, true), Cycles(KeepEvents(s.buf, true)))
  }

  function Step(q: Queue, op: Op): Queue {
    match op
    case Push(c) => PushOf(q, c).0
    case Next(t) => NextOf(q, t).0
    case RemoveMirror => MirrorOf(q).0
    case Clear => EMPTY
  }

  /** The queue after a run of operations on an empty one. */
  function Run(ops: seq<Op>): Queue {
    if ops == [] then EMPTY else Step(Run(ops[..|ops| - 1]), ops[|ops| - 1])
  }

  // ---- what every reachable queue keeps ----------------------------------

  ghost predicate AllValid(b: seq<SidBusEvent>) { forall i :: 0 <= i < |b| ==> b[i].valid }

  ghost predicate Bounded(b: seq<SidBusEvent>, n: nat) { forall i :: 0 <= i < |b| ==> b[i].cycle.order < n }

  /** Tie-breakers are distinct and below the number of buffered events, so the
      comparator is a strict total order and 32 bits never wrap. */
  ghost predicate Ok(q: Queue) {
    && q.cursor <= |q.buf| <= CAPACITY
    && AllValid(q.buf)
    && Bounded(q.buf, |q.buf|)
    && DistinctOrders(q.buf)
    && Sorted(q.buf[..q.cursor])
    && (q.sorted ==> Sorted(q.buf))
  }

  lemma {:induction false} MembersCarry(s: seq<SidBusEvent>, t: seq<SidBusEvent>, n: nat)
    requires AllValid(s) && Bounded(s, n)
    requires forall e :: e in t ==> e in s
    ensures AllValid(t) && Bounded(t, n)
  {
    forall i | 0 <= i < |t| ensures t[i].valid && t[i].cycle.order < n {
      assert t[i] in s;
    }
  }

  lemma {:induction false} SortMembers(s: seq<SidBusEvent>)
    requires DistinctOrders(s)
    ensures Sorted(SortedSeq(s)) && DistinctOrders(SortedSeq(s))
    ensures forall e :: e in SortedSeq(s) ==> e in s
  {
    SortedSeqSorts(s);
    PermutationIsDistinct(s, SortedSeq(s));
    forall e | e in SortedSeq(s) ensures e in s {
      assert e in multiset(s);
    }
  }

  lemma {:induction false} SortOk(q: Queue)
    requires Ok(q)
    ensures Ok(SortOf(q)) && Sorted(SortOf(q).buf) && SortOf(q).buf == SortedSeq(q.buf)
  {
    SortMembers(q.buf);
    MembersCarry(q.buf, SortedSeq(q.buf), |q.buf|);
    if q.sorted || |q.buf| <= 1 { SortedIsServiceOrder(q.buf); }
  }

  lemma {:induction false} RebaseFacts(s: seq<SidBusEvent>)
    requires Sorted(s)
    ensures Sorted(Rebased(s)) && DistinctOrders(Rebased(s)) && Bounded(Rebased(s), |s|)
    ensures AllValid(s) ==> AllValid(Rebased(s))
    ensures StripAll(Rebased(s)) == StripAll(s)
  {
    forall i, j | 0 <= i < j < |s| ensures Less(Rebased(s)[i], Rebased(s)[j]) {
      assert Less(s[i], s[j]);
    }
  }

  lemma {:induction false} SuffixFacts(b: seq<SidBusEvent>, cursor: nat)
    requires cursor <= |b| && DistinctOrders(b)
    ensures DistinctOrders(b[cursor..]) && DistinctOrders(b[..cursor])
    ensures Sorted(b) ==> Sorted(b[cursor..]) && Sorted(b[..cursor])
    ensures AllValid(b) ==> AllValid(b[cursor..])
  {}

  /** The meaning of a queue: the events not yet consumed, in service order. */
  ghost function Pending(q: Queue): seq<BusCycle>
    requires q.cursor <= |q.buf|
  {
    ServiceOrder(q.buf[q.cursor..])
  }

  ghost predicate NoOvertake(q: Queue)
    requires q.cursor <= |q.buf|
  {
    NoneOvertakes(q.buf[..q.cursor], q.buf[q.cursor..])
  }

  lemma {:induction false} PendingLength(q: Queue)
    requires Ok(q)
    ensures |Pending(q)| == |q.buf| - q.cursor
  {
    SuffixFacts(q.buf, q.cursor);
    SortedSeqSorts(q.buf[q.cursor..]);
  }

  lemma {:induction false} CompactOk(q: Queue)
    requires Ok(q)
    ensures Ok(CompactOf(q)) && CompactOf(q).cursor == 0 && |CompactOf(q).buf| == |q.buf| - q.cursor
    ensures Pending(CompactOf(q)) == Pending(q)
  {
    var rest := q.buf[q.cursor..];
    SuffixFacts(q.buf, q.cursor);
    SortMembers(rest);
    if 0 < q.cursor < |q.buf| {
      var s := SortedSeq(rest);
      assert SortOf(Queue(rest, 0, q.sorted)).buf == s by {
        if q.sorted || |rest| <= 1 { SortedIsServiceOrder(rest); }
      }
      MembersCarry(rest, s, |q.buf|);
      RebaseFacts(s);
      SortedIsServiceOrder(Rebased(s));
      assert CompactOf(q).buf[0..] == Rebased(s);
    }
  }

  lemma {:induction false} AppendOk(q: Queue, e: SidBusEvent)
    requires Ok(q) && |q.buf| < CAPACITY && e.valid && e.cycle.order == |q.buf|
    ensures Ok(Queue(q.buf + [e], q.cursor, false))
    ensures Pending(Queue(q.buf + [e], q.cursor, false)) == Enqueue(Pending(q), Strip(e))
  {
    assert (q.buf + [e])[..q.cursor] == q.buf[..q.cursor];
    assert (q.buf + [e])[q.cursor..] == q.buf[q.cursor..] + [e];
    SuffixFacts(q.buf, q.cursor);
    AppendIsEnqueue(q.buf[q.cursor..], e);
  }

  /** Push accepts exactly while fewer than CAPACITY events wait, and then puts the
      event behind everything that is not in a later bus slot. */
  lemma {:induction false} PushRefines(q: Queue, c: BusCycle)
    requires Ok(q)
    ensures var (q', ok) := PushOf(q, c);
            && Ok(q')
            && (ok <==> |Pending(q)| < CAPACITY)
            && Pending(q') == if ok then Enqueue(Pending(q), c.(order := 0)) else Pending(q)
  {
    PendingLength(q);
    CompactOk(q);
    var room := if |q.buf| >= CAPACITY then CompactOf(q) else q;
    if |room.buf| < CAPACITY {
      AppendOk(room, SidBusEvent(c.(order := |room.buf|), true));
    }
  }

  /** A push lets an event overtake a consumed one exactly when no compaction makes
      room for it and it belongs to an earlier bus slot than the last consumed event. */
  lemma {:induction false} PushOvertakesIff(q: Queue, c: BusCycle)
    requires Ok(q) && NoOvertake(q)
    ensures PushOf(q, c).0.cursor <= |PushOf(q, c).0.buf|
    ensures NoOvertake(PushOf(q, c).0) <==>
              |q.buf| == CAPACITY || q.cursor == 0 || SlotKey(q.buf[q.cursor - 1].cycle) <= SlotKey(c)
  {
    if |q.buf| >= CAPACITY {
      CompactOk(q);
    } else {
      AppendOvertakesIff(q, SidBusEvent(c.(order := |q.buf|), true));
    }
  }

  lemma {:induction false} AppendOvertakesIff(q: Queue, e: SidBusEvent)
    requires Ok(q) && NoOvertake(q) && e.cycle.order == |q.buf|
    ensures NoOvertake(Queue(q.buf + [e], q.cursor, false)) <==>
              q.cursor == 0 || SlotKey(q.buf[q.cursor - 1].cycle) <= SlotKey(e.cycle)
  {
    assert (q.buf + [e])[..q.cursor] == q.buf[..q.cursor];
    assert (q.buf + [e])[q.cursor..] == q.buf[q.cursor..] + [e];
    OvertakeOnAppend(q.buf[..q.cursor], q.buf[q.cursor..], e);
  }

  lemma {:induction false} OvertakeOnAppend(consumed: seq<SidBusEvent>, pending: seq<SidBusEvent>, e: SidBusEvent)
    requires Sorted(consumed) && Bounded(consumed, e.cycle.order)
    requires NoneOvertakes(consumed, pending)
    ensures NoneOvertakes(consumed, pending + [e]) <==>
              consumed == [] || SlotKey(consumed[|consumed| - 1].cycle) <= SlotKey(e.cycle)
  {
    var all := pending + [e];
    assert e == all[|pending|];
    if consumed != [] && SlotKey(consumed[|consumed| - 1].cycle) <= SlotKey(e.cycle) {
      forall i | 0 <= i < |consumed| ensures Less(consumed[i], e) {
        assert SlotKey(consumed[i].cycle) <= SlotKey(consumed[|consumed| - 1].cycle);
      }
    }
  }

  /** A sorted buffer serves any suffix as it stands. */
  lemma {:induction false} SuffixIsServed(b: seq<SidBusEvent>, cursor: nat)
    requires Sorted(b) && DistinctOrders(b) && cursor <= |b|
    ensures ServiceOrder(b[cursor..]) == StripAll(b)[cursor..]
  {
    SuffixFacts(b, cursor);
    SortedIsServiceOrder(b[cursor..]);
    assert StripAll(b[cursor..]) == StripAll(b)[cursor..];
  }

  lemma {:induction false} CursorMayStand(q: Queue, cursor: nat)
    requires Ok(q) && Sorted(q.buf) && cursor <= |q.buf|
    ensures Ok(q.(cursor := cursor)) && NoOvertake(q.(cursor := cursor))
  {}

  /** A sort makes the pending list of the ranks from the cursor on. */
  lemma {:induction false} SortPending(q: Queue)
    requires Ok(q)
    ensures Pending(SortOf(q)) == Ranks(q)
    ensures NoOvertake(q) ==> Pending(SortOf(q)) == Pending(q)
  {
    SortOk(q);
    SuffixIsServed(SortOf(q).buf, q.cursor);
    if NoOvertake(q) { OrderlyRanks(q.buf, q.cursor); }
  }

  lemma {:induction false} OrderlyRanks(b: seq<SidBusEvent>, cursor: nat)
    requires cursor <= |b| && DistinctOrders(b) && Sorted(b[..cursor])
    requires NoneOvertakes(b[..cursor], b[cursor..])
    ensures ServiceOrder(b)[cursor..] == ServiceOrder(b[cursor..])
  {
    assert b == b[..cursor] + b[cursor..];
    OrderlySortSplits(b[..cursor], b[cursor..]);
  }

  lemma {:induction false} ConsumeOne(s: Queue)
    requires Ok(s) && Sorted(s.buf) && s.cursor < |s.buf|
    ensures Pending(s) != [] && Pending(s)[0] == Strip(s.buf[s.cursor])
    ensures Pending(s.(cursor := s.cursor + 1)) == Pending(s)[1..]
  {
    SuffixIsServed(s.buf, s.cursor);
    SuffixIsServed(s.buf, s.cursor + 1);
  }

  /** The ranks a read can serve from: everything buffered, sorted, past the cursor. */
  ghost function Ranks(q: Queue): seq<BusCycle>
    requires q.cursor <= |q.buf|
  {
    ServiceOrder(q.buf)[q.cursor..]
  }

  /** A read serves the event of the cursor's rank among everything buffered. When
      nothing overtakes, that is the head of the pending list. */
  lemma {:induction false} NextRefines(q: Queue, t: nat)
    requires Ok(q)
    ensures Ok(NextOf(q, t).0) && NoOvertake(NextOf(q, t).0)
    ensures NoOvertake(q) ==> Ranks(q) == Pending(q)
    ensures Ranks(q) == [] || Ranks(q)[0].phi2Cycle > t ==>
              NextOf(q, t).1 == None && Pending(NextOf(q, t).0) == Ranks(q)
    ensures Ranks(q) != [] && Ranks(q)[0].phi2Cycle <= t ==>
              && NextOf(q, t).1.Some? && NextOf(q, t).1.value.(order := 0) == Ranks(q)[0]
              && Pending(NextOf(q, t).0) == Ranks(q)[1..]
  {
    SortPending(q);
    SortOk(q);
    var s := SortOf(q);
    CursorMayStand(s, s.cursor);
    if s.cursor < |s.buf| {
      ConsumeOne(s);
      CursorMayStand(s, s.cursor + 1);
    }
  }

  lemma {:induction false} KeepEventsFacts(s: seq<SidBusEvent>, mirror: bool)
    requires Sorted(s) && AllValid(s)
    ensures Sorted(KeepEvents(s, mirror)) && |KeepEvents(s, mirror)| <= |s|
    ensures forall e :: e in KeepEvents(s, mirror) ==> e in s
    ensures StripAll(KeepEvents(s, mirror)) == Keep(StripAll(s), mirror)
  {
    if s != [] {
      var rest := s[..|s| - 1];
      KeepEventsFacts(rest, mirror);
      assert StripAll(rest) == StripAll(s)[..|s| - 1];
      var kept := KeepEvents(rest, mirror);
      forall i | 0 <= i < |kept| ensures Less(kept[i], s[|s| - 1]) {
        assert kept[i] in rest;
      }
    }
  }

  /** Flush and clear of the projection events take out exactly those, in service
      order, and keep the order of the rest. */
  lemma {:induction false} MirrorRefines(q: Queue)
    requires Ok(q)
    ensures var (q', removed) := MirrorOf(q);
            && Ok(q') && NoOvertake(q')
            && Pending(q') == Keep(Pending(q), false)
            && |removed| == |Keep(Pending(q), true)|
            && forall i :: 0 <= i < |removed| ==> removed[i].(order := 0) == Keep(Pending(q), true)[i]
  {
    CompactOk(q);
    var c := CompactOf(q);
    assert c.buf[c.cursor..] == c.buf;
    PendingLength(q);
    if q.buf != [] && c.buf != [] {
      SortOk(c);
      var s := SortOf(c).buf;
      assert Pending(c) == StripAll(s);
      KeepEventsFacts(s, false);
      KeepEventsFacts(s, true);
      var kept := KeepEvents(s, false);
      MembersCarry(s, kept, |s|);
      RebaseFacts(kept);
      SortedIsServiceOrder(Rebased(kept));
      assert Rebased(kept)[0..] == Rebased(kept);
    }
  }

  /** Every run of operations keeps the queue well formed. */
  lemma {:induction false} RunOk(ops: seq<Op>)
    ensures Ok(Run(ops))
  {
    if ops != [] {
      var before, op := Run(ops[..|ops| - 1]), ops[|ops| - 1];
      RunOk(ops[..|ops| - 1]);
      match op
      case Push(c) => PushRefines(before, c);
      case Next(t) => NextRefines(before, t);
      case RemoveMirror => MirrorRefines(before);
      case Clear =>
    }
  }

  lemma {:induction false} RunDistinct(ops: seq<Op>)
    ensures DistinctOrders(Run(ops).buf) && Run(ops).cursor <= |Run(ops).buf| <= CAPACITY
    ensures DistinctOrders(CompactOf(Run(ops)).buf) && |CompactOf(Run(ops)).buf| <= CAPACITY
  {
    RunOk(ops);
    CompactOk(Run(ops));
  }

  lemma {:induction false} RunSnoc(ops: seq<Op>, op: Op)
    ensures Run(ops + [op]) == Step(Run(ops), op)
  {
    assert (ops + [op])[..|ops|] == ops;
  }

  lemma {:induction false} NextRuns(ops: seq<Op>, q: Queue, t: nat)
    requires q == Run(ops)
    ensures DistinctOrders(q.buf) && Run(ops + [Op.Next(t)]) == NextOf(q, t).0
  {
    RunDistinct(ops);
    RunSnoc(ops, Op.Next(t));
  }

  lemma {:induction false} ClearEmpties(ops: seq<Op>)
    ensures Run(ops + [Op.Clear]) == EMPTY
  {
    RunSnoc(ops, Op.Clear);
  }

  // ---- the abstract queue -------------------------------------------------

  /** One operation on the pending list alone: what is left, and what leaves. */
  function SpecStep(p: seq<BusCycle>, op: Op): (seq<BusCycle>, seq<BusCycle>) {
    match op
    case Push(c) => (if |p| < CAPACITY then Enqueue(p, c.(order := 0)) else p, [])
    case Next(t) => if p == [] || p[0].phi2Cycle > t then (p, []) else (p[1..], [p[0]])
    case RemoveMirror => (Keep(p, false), Keep(p, true))
    case Clear => ([], p)
  }

  function SpecRun(ops: seq<Op>): seq<BusCycle> {
    if ops == [] then [] else SpecStep(SpecRun(ops[..|ops| - 1]), ops[|ops| - 1]).0
  }

  /** What the queue hands out in one operation. */
  function Served(q: Queue, op: Op): seq<BusCycle> {
    match op
    case Push(_) => []
    case Next(t) => (match NextOf(q, t).1 case None => [] case Some(c) => [c.(order := 0)])
    case RemoveMirror => ClearOrders(MirrorOf(q).1)
    case Clear => []
  }

  function ClearOrders(s: seq<BusCycle>): seq<BusCycle> {
    seq(|s|, i requires 0 <= i < |s| => s[i].(order := 0))
  }

  /** The caller's side of the bargain: an event is not pushed into an earlier bus
      slot than one this queue still remembers having served. */
  ghost predicate OrderlyOp(q: Queue, op: Op) {
    op.Push? && 0 < q.cursor <= |q.buf| < CAPACITY ==> SlotKey(q.buf[q.cursor - 1].cycle) <= SlotKey(op.cycle)
  }

  ghost predicate Orderly(ops: seq<Op>) {
    ops == [] || (Orderly(ops[..|ops| - 1]) && OrderlyOp(Run(ops[..|ops| - 1]), ops[|ops| - 1]))
  }

  /** The queue stands for the pending list p and will serve it in order. */
  ghost predicate StandsFor(q: Queue, p: seq<BusCycle>) {
    Ok(q) && NoOvertake(q) && Pending(q) == p
  }

  /** Over every orderly run the queue is its pending list. */
  lemma {:induction false} RunRefinesSpec(ops: seq<Op>)
    requires Orderly(ops)
    ensures StandsFor(Run(ops), SpecRun(ops))
  {
    if ops != [] {
      RunRefinesSpec(ops[..|ops| - 1]);
      StepRefinesSpec(Run(ops[..|ops| - 1]), SpecRun(ops[..|ops| - 1]), ops[|ops| - 1]);
    } else {
      EmptyStandsForNothing();
    }
  }

  lemma {:induction false} EmptyStandsForNothing()
    ensures StandsFor(EMPTY, [])
  {
    assert EMPTY.buf[0..] == [];
  }

  /** Each operation hands out exactly what the pending list hands out. */
  lemma {:induction false} StepRefinesSpec(q: Queue, p: seq<BusCycle>, op: Op)
    requires StandsFor(q, p) && OrderlyOp(q, op)
    ensures StandsFor(Step(q, op), SpecStep(p, op).0)
    ensures !op.Clear? ==> Served(q, op) == SpecStep(p, op).1
  {
    match op
    case Push(c) => PushRefinesSpec(q, p, c);
    case Next(t) => NextRefinesSpec(q, p, t);
    case RemoveMirror => MirrorRefinesSpec(q, p);
    case Clear => EmptyStandsForNothing();
  }

  lemma {:induction false} PushRefinesSpec(q: Queue, p: seq<BusCycle>, c: BusCycle)
    requires StandsFor(q, p) && OrderlyOp(q, Push(c))
    ensures StandsFor(PushOf(q, c).0, SpecStep(p, Push(c)).0)
  {
    PushRefines(q, c);
    PushOvertakesIff(q, c);
  }

  lemma {:induction false} NextRefinesSpec(q: Queue, p: seq<BusCycle>, t: nat)
    requires StandsFor(q, p)
    ensures StandsFor(NextOf(q, t).0, SpecStep(p, Next(t)).0)
    ensures Served(q, Next(t)) == SpecStep(p, Next(t)).1
  {
    NextRefines(q, t);
  }

  lemma {:induction false} MirrorRefinesSpec(q: Queue, p: seq<BusCycle>)
    requires StandsFor(q, p)
    ensures StandsFor(MirrorOf(q).0, Keep(p, false))
    ensures Served(q, RemoveMirror) == Keep(p, true)
  {
    MirrorRefines(q);
  }

  /** Without the caller's side of the bargain an event is served twice: push for
      cycle 10, serve it, push for cycle 5, and the next read serves cycle 10 again. */
  lemma {:induction false} OvertakingPushServesTwice(late: BusCycle, early: BusCycle)
    requires late.phi2Cycle == 10 && early.phi2Cycle == 5 && !late.rw && !early.rw
    ensures var first := PushOf(EMPTY, late).0;
            var second := PushOf(NextOf(first, 10).0, early).0;
            NextOf(first, 10).1 == NextOf(second, 10).1 == Some(late.(order := 0))
  {
    var a, b := SidBusEvent(late.(order := 0), true), SidBusEvent(early.(order := 1), true);
    FirstPush(late, a);
    ServeAlone(a);
    SecondPush(early, a, b);
    ServeOvertaken(a, b);
  }

  lemma {:induction false} FirstPush(c: BusCycle, a: SidBusEvent)
    requires a == SidBusEvent(c.(order := 0), true)
    ensures PushOf(EMPTY, c).0 == Queue([a], 0, false)
  {
    PushAppends(EMPTY, c);
    assert EMPTY.buf + [a] == [a];
  }

  lemma {:induction false} SecondPush(c: BusCycle, a: SidBusEvent, b: SidBusEvent)
    requires b == SidBusEvent(c.(order := 1), true)
    ensures PushOf(Queue([a], 1, false), c).0 == Queue([a, b], 1, false)
  {
    PushAppends(Queue([a], 1, false), c);
    assert [a] + [b] == [a, b];
  }

  lemma {:induction false} PushAppends(q: Queue, c: BusCycle)
    requires |q.buf| < CAPACITY
    ensures PushOf(q, c).0 == Queue(q.buf + [SidBusEvent(c.(order := |q.buf|), true)], q.cursor, false)
  {}

  lemma {:induction false} ServeAlone(a: SidBusEvent)
    requires a.valid && a.cycle.phi2Cycle == 10
    ensures NextOf(Queue([a], 0, false), 10) == (Queue([a], 1, false), Some(a.cycle))
  {}

  lemma {:induction false} ServeOvertaken(a: SidBusEvent, b: SidBusEvent)
    requires a.valid && a.cycle.phi2Cycle == 10 && Less(b, a)
    ensures NextOf(Queue([a, b], 1, false), 10).1 == Some(a.cycle)
  {
    SortTwo(a, b);
  }

  lemma {:induction false} SortTwo(a: SidBusEvent, b: SidBusEvent)
    requires Less(b, a)
    ensures SortedSeq([a, b]) == [b, a]
  {
    assert [a, b][..1] == [a] && [a][..0] == [];
    assert SortedSeq([a]) == [a];
    assert Insert([a], b) == Insert([], b) + [a];
  }

  // ---- laws of the abstract queue ------------------------------------------

  lemma {:induction false} EnqueueMembers(p: seq<BusCycle>, c: BusCycle)
    ensures forall x :: x in Enqueue(p, c) <==> x in p || x == c
  {
    if p != [] {
      assert p == p[..|p| - 1] + [p[|p| - 1]];
      EnqueueMembers(p[..|p| - 1], c);
    }
  }

  lemma {:induction false} EnqueueSorts(p: seq<BusCycle>, c: BusCycle)
    requires SortedBy(p, SlotKey)
    ensures SortedBy(Enqueue(p, c), SlotKey)
  {
    if p != [] && SlotKey(c) < SlotKey(p[|p| - 1]) {
      var rest, last := p[..|p| - 1], p[|p| - 1];
      EnqueueSorts(rest, c);
      EnqueueMembers(rest, c);
      forall i | 0 <= i < |Enqueue(rest, c)| ensures SlotKey(Enqueue(rest, c)[i]) <= SlotKey(last) {
        assert Enqueue(rest, c)[i] in Enqueue(rest, c);
      }
    }
  }

  /** Enqueueing is what keeps a stable (slot, arrival) order stable. */
  lemma {:induction false} EnqueueSelects(p: seq<BusCycle>, c: BusCycle, k: int)
    ensures Select(Enqueue(p, c), SlotKey, k) ==
            if SlotKey(c) == k then Select(p, SlotKey, k) + [c] else Select(p, SlotKey, k)
  {
    SelectSnoc(p, c, SlotKey, k);
    if p != [] && SlotKey(c) < SlotKey(p[|p| - 1]) {
      var rest, last := p[..|p| - 1], p[|p| - 1];
      EnqueueSelects(rest, c, k);
      SelectSnoc(Enqueue(rest, c), last, SlotKey, k);
      assert p == rest + [last];
      SelectSnoc(rest, last, SlotKey, k);
    }
  }

  ghost function WaitingStep(w: seq<BusCycle>, p: seq<BusCycle>, op: Op): seq<BusCycle> {
    match op
    case Push(c) => if |p| < CAPACITY then w + [c.(order := 0)] else w
    case Next(t) => if p == [] || p[0].phi2Cycle > t then w else DropFirst(w, SlotKey(p[0]))
    case RemoveMirror => Keep(w, false)
    case Clear => []
  }

  /** The pushes of a run that have not left, in the order they arrived. */
  ghost function Waiting(ops: seq<Op>): seq<BusCycle> {
    if ops == [] then []
    else WaitingStep(Waiting(ops[..|ops| - 1]), SpecRun(ops[..|ops| - 1]), ops[|ops| - 1])
  }

  /** s without its earliest element of slot k. */
  ghost function DropFirst(s: seq<BusCycle>, k: int): seq<BusCycle> {
    if s == [] then []
    else if Select(s[..|s| - 1], SlotKey, k) == [] && SlotKey(s[|s| - 1]) == k then s[..|s| - 1]
    else DropFirst(s[..|s| - 1], k) + [s[|s| - 1]]
  }

  lemma {:induction false} DropFirstSelects(s: seq<BusCycle>, k: int, c: int)
    requires Select(s, SlotKey, k) != []
    ensures Select(DropFirst(s, k), SlotKey, c) ==
            if c == k then Select(s, SlotKey, k)[1..] else Select(s, SlotKey, c)
  {
    var rest, last := s[..|s| - 1], s[|s| - 1];
    if Select(rest, SlotKey, k) != [] {
      DropFirstSelects(rest, k, c);
      SelectSnoc(DropFirst(rest, k), last, SlotKey, c);
    }
  }

  lemma {:induction false} KeepSelects(s: seq<BusCycle>, mirror: bool, k: int)
    ensures Select(Keep(s, mirror), SlotKey, k) == Keep(Select(s, SlotKey, k), mirror)
    ensures forall x :: x in Keep(s, mirror) ==> x in s
    ensures SortedBy(s, SlotKey) ==> SortedBy(Keep(s, mirror), SlotKey)
  {
    if s != [] {
      var rest, last := s[..|s| - 1], s[|s| - 1];
      KeepSelects(rest, mirror, k);
      SelectSnoc(Keep(rest, mirror), last, SlotKey, k);
      assert (Select(rest, SlotKey, k) + [last])[..|Select(rest, SlotKey, k)|] == Select(rest, SlotKey, k);
      if SortedBy(s, SlotKey) {
        forall i | 0 <= i < |Keep(rest, mirror)| ensures SlotKey(Keep(rest, mirror)[i]) <= SlotKey(last) {
          assert Keep(rest, mirror)[i] in rest;
        }
      }
    }
  }

  lemma {:induction false} ServeHeadSelects(p: seq<BusCycle>, k: int)
    requires SortedBy(p, SlotKey) && p != []
    ensures Select(p, SlotKey, k) ==
            if SlotKey(p[0]) == k then [p[0]] + Select(p[1..], SlotKey, k) else Select(p[1..], SlotKey, k)
  {
    assert p == [p[0]] + p[1..];
    SelectAppend([p[0]], p[1..], SlotKey, k);
    SelectSnoc([], p[0], SlotKey, k);
    assert [] + [p[0]] == [p[0]];
  }

  /** The pending list is at all times the stable order, by PHI2 cycle, write
      before read, then arrival, of the pushes that have not left. */
  lemma {:induction false} PendingIsStableOrder(ops: seq<Op>)
    ensures IsStableSort(Waiting(ops), SpecRun(ops), SlotKey)
  {
    if ops != [] {
      var before, op := ops[..|ops| - 1], ops[|ops| - 1];
      PendingIsStableOrder(before);
      PendingStep(Waiting(before), SpecRun(before), op);
    }
  }

  lemma {:induction false} PendingStep(w: seq<BusCycle>, p: seq<BusCycle>, op: Op)
    requires IsStableSort(w, p, SlotKey)
    ensures IsStableSort(WaitingStep(w, p, op), SpecStep(p, op).0, SlotKey)
  {
    var w', p' := WaitingStep(w, p, op), SpecStep(p, op).0;
    match op
    case Push(c) =>
      var c0 := c.(order := 0);
      if |p| < CAPACITY {
        EnqueueSorts(p, c0);
        forall k ensures Select(p', SlotKey, k) == Select(w', SlotKey, k) {
          EnqueueSelects(p, c0, k);
          SelectSnoc(w, c0, SlotKey, k);
          assert Select(p, SlotKey, k) == Select(w, SlotKey, k);
        }
      }
    case Next(t) =>
      if p != [] && p[0].phi2Cycle <= t {
        var head := SlotKey(p[0]);
        ServeHeadSelects(p, head);
        assert Select(p, SlotKey, head) == Select(w, SlotKey, head);
        forall k ensures Select(p', SlotKey, k) == Select(w', SlotKey, k) {
          ServeHeadSelects(p, k);
          DropFirstSelects(w, head, k);
          assert Select(p, SlotKey, k) == Select(w, SlotKey, k);
        }
      }
    case RemoveMirror =>
      KeepSelects(p, false, 0);
      forall k ensures Select(p', SlotKey, k) == Select(w', SlotKey, k) {
        KeepSelects(p, false, k);
        KeepSelects(w, false, k);
        assert Select(p, SlotKey, k) == Select(w, SlotKey, k);
      }
    case Clear =>
  }

  /** The events a run of the buffer took, those it handed out, in order, and those it was
      told to clear. */
  ghost function Accepted(ops: seq<Op>): multiset<BusCycle> {
    if ops == [] then multiset{} else Accepted(ops[..|ops| - 1]) + Taken(Run(ops[..|ops| - 1]), ops[|ops| - 1])
  }

  ghost function HandedOut(ops: seq<Op>): seq<BusCycle> {
    if ops == [] then [] else HandedOut(ops[..|ops| - 1]) + Served(Run(ops[..|ops| - 1]), ops[|ops| - 1])
  }

  ghost function Cleared(ops: seq<Op>): multiset<BusCycle> {
    if ops == [] then multiset{}
    else
      RunOk(ops[..|ops| - 1]);
      Cleared(ops[..|ops| - 1]) + Dropped(Run(ops[..|ops| - 1]), ops[|ops| - 1])
  }

  ghost function Taken(q: Queue, op: Op): multiset<BusCycle> {
    if op.Push? && PushOf(q, op.cycle).1 then multiset{op.cycle.(order := 0)} else multiset{}
  }

  ghost function Dropped(q: Queue, op: Op): multiset<BusCycle>
    requires q.cursor <= |q.buf|
  {
    if op.Clear? then multiset(Pending(q)) else multiset{}
  }

  /** What the pending list hands out over a run, clearing aside. */
  ghost function SpecHandedOut(ops: seq<Op>): seq<BusCycle> {
    if ops == [] then []
    else SpecHandedOut(ops[..|ops| - 1]) + SpecServed(SpecRun(ops[..|ops| - 1]), ops[|ops| - 1])
  }

  function SpecServed(p: seq<BusCycle>, op: Op): seq<BusCycle> { if op.Clear? then [] else SpecStep(p, op).1 }

  lemma {:induction false} EnqueuePermutes(p: seq<BusCycle>, c: BusCycle)
    ensures multiset(Enqueue(p, c)) == multiset(p) + multiset{c}
  {
    if p != [] {
      assert p == p[..|p| - 1] + [p[|p| - 1]];
      EnqueuePermutes(p[..|p| - 1], c);
    }
  }

  lemma {:induction false} KeepSplits(p: seq<BusCycle>)
    ensures multiset(p) == multiset(Keep(p, false)) + multiset(Keep(p, true))
  {
    if p != [] {
      assert p == p[..|p| - 1] + [p[|p| - 1]];
      KeepSplits(p[..|p| - 1]);
    }
  }

  lemma {:induction false} SpecStepConserves(p: seq<BusCycle>, op: Op)
    ensures var (p', out) := SpecStep(p, op);
            multiset(p') + multiset(out) ==
            if op.Push? && |p| < CAPACITY then multiset(p) + multiset{op.cycle.(order := 0)} else multiset(p)
  {
    match op
    case Push(c) => EnqueuePermutes(p, c.(order := 0));
    case Next(t) => if p != [] { assert p == [p[0]] + p[1..]; }
    case RemoveMirror => KeepSplits(p);
    case Clear =>
  }

  /** One operation on the buffer: what it takes is handed out, cleared or pending. */
  lemma {:induction false} StepConserves(q: Queue, p: seq<BusCycle>, op: Op)
    requires StandsFor(q, p) && OrderlyOp(q, op)
    ensures Served(q, op) == SpecServed(p, op)
    ensures multiset(p) + Taken(q, op) == multiset(Served(q, op)) + Dropped(q, op) + multiset(SpecStep(p, op).0)
  {
    StepRefinesSpec(q, p, op);
    SpecStepConserves(p, op);
    if op.Push? { PushRefines(q, op.cycle); }
  }

  /** Over every orderly run the buffer hands out, in order, exactly what the pending list
      hands out, and every event it took has been handed out, has been cleared or is still
      pending, exactly one of these: none is lost, invented or served twice. */
  lemma {:induction false} EveryEventLeavesOnce(ops: seq<Op>)
    requires Orderly(ops)
    ensures Ok(Run(ops)) && HandedOut(ops) == SpecHandedOut(ops)
    ensures Accepted(ops) == multiset(HandedOut(ops)) + Cleared(ops) + multiset(Pending(Run(ops)))
  {
    RunRefinesSpec(ops);
    if ops != [] {
      var before, op := ops[..|ops| - 1], ops[|ops| - 1];
      EveryEventLeavesOnce(before);
      RunRefinesSpec(before);
      StepConserves(Run(before), SpecRun(before), op);
      RunOk(before);
      SumsGrow(Accepted(before), HandedOut(before), Cleared(before), multiset(SpecRun(before)),
               Taken(Run(before), op), Served(Run(before), op), Dropped(Run(before), op), multiset(SpecRun(ops)));
    }
  }

  lemma {:induction false} SumsGrow(all: multiset<BusCycle>, out: seq<BusCycle>, cleared: multiset<BusCycle>,
                                    waiting: multiset<BusCycle>, taken: multiset<BusCycle>, served: seq<BusCycle>,
                                    dropped: multiset<BusCycle>, still: multiset<BusCycle>)
    requires all == multiset(out) + cleared + waiting
    requires waiting + taken == multiset(served) + dropped + still
    ensures all + taken == multiset(out + served) + (cleared + dropped) + still
  {
    assert all + taken == multiset(out) + cleared + (waiting + taken);
  }

  // ---- the class ------------------------------------------------------------

  method ShiftDown(a: array<SidBusEvent>, from: nat, n: nat)
    requires from + n <= a.Length
    modifies a
    ensures a[..n] == old(a[from..from + n])
  {
    ghost var before := a[..];
    for i := 0 to n
      invariant forall j :: 0 <= j < i ==> a[j] == before[from + j]
      invariant forall j :: i <= j < a.Length ==> a[j] == before[j]
    {
      a[i] := a[from + i];
    }
  }

  method Renumber(a: array<SidBusEvent>, n: nat)
    requires n <= a.Length
    modifies a
    ensures a[..n] == Rebased(old(a[..n]))
  {
    ghost var before := a[..n];
    for i := 0 to n
      invariant forall j :: 0 <= j < i ==> a[j] == Rebased(before)[j]
      invariant forall j :: i <= j < n ==> a[j] == before[j]
    {
      a[i] := a[i].(cycle := a[i].cycle.(order := i));
    }
  }

  lemma {:induction false} KeepEventsStep(s: seq<SidBusEvent>, i: nat, mirror: bool)
    requires i < |s|
    ensures KeepEvents(s[..i + 1], mirror) ==
            if IsMirror(s[i]) == mirror then KeepEvents(s[..i], mirror) + [s[i]] else KeepEvents(s[..i], mirror)
  {
    assert s[..i + 1][..i] == s[..i];
  }

  method MoveDown(a: array<SidBusEvent>, write: nat, read: nat)
    requires write <= read < a.Length
    modifies a
    ensures a[..write + 1] == old(a[..write]) + [old(a[read])]
    ensures forall i :: read < i < a.Length ==> a[i] == old(a[i])
  {
    if write != read { a[write] := a[read]; }
  }

  /** The in-place filter: keep the ordinary events in order, hand out the projection ones. */
  method SplitMirror(a: array<SidBusEvent>, n: nat) returns (write: nat, removed: seq<BusCycle>)
    requires n <= a.Length
    modifies a
    ensures write <= n && a[..write] == KeepEvents(old(a[..n]), false)
    ensures removed == Cycles(KeepEvents(old(a[..n]), true))
  {
    ghost var b := a[..n];
    ghost var out: seq<SidBusEvent> := [];
    write, removed := 0, [];
    for read := 0 to n
      invariant write == |KeepEvents(b[..read], false)| <= read
      invariant a[..write] == KeepEvents(b[..read], false)
      invariant forall i :: read <= i < n ==> a[i] == b[i]
      invariant out == KeepEvents(b[..read], true) && removed == Cycles(out)
    {
      KeepEventsStep(b, read, true);
      KeepEventsStep(b, read, false);
      if a[read].valid && a[read].cycle.projectionMirror {
        removed := removed + [a[read].cycle];
        out := out + [b[read]];
      } else {
        MoveDown(a, write, read);
        write := write + 1;
      }
    }
    assert b[..n] == b;
  }

  class SidBusQueue {
    const events: array<SidBusEvent>
    var count: nat
    var cursor: nat
    var orderCounter: nat
    var sorted: bool
    ghost var history: seq<Op>

    ghost function State(): Queue
      reads this, events
      requires count <= events.Length
    {
      Queue(events[..count], cursor, sorted)
    }

    /** The fields are those of the value machine after this queue's history, and
        the order counter is the number of buffered events. */
    ghost predicate Valid()
      reads this, events
    {
      events.Length == CAPACITY && count <= CAPACITY && orderCounter == count && State() == Run(history)
    }

    constructor ()
      ensures Valid() && fresh(events) && history == []
    {
      events := new SidBusEvent[CAPACITY](_ => SidBusEvent(BusCycle(0, 0, true, 0, 0, false), false));
      count, cursor, orderCounter, sorted, history := 0, 0, 0, true, [];
    }

    method Clear()
      requires Valid()
      modifies this
      ensures Valid() && history == old(history) + [Op.Clear]
    {
      count, sorted, cursor, orderCounter := 0, true, 0, 0;
      ClearEmpties(history);
      assert events[..0] == [];
      history := history + [Op.Clear];
    }

    method SortStable()
      requires count <= events.Length && DistinctOrders(events[..count])
      modifies this`sorted, events
      ensures State() == SortOf(old(State()))
    {
      if sorted || count <= 1 { return; }
      ghost var before := events[..count];
      StdSort(events, count);
      SortedSeqSorts(before);
      SortIsUnique(events[..count], SortedSeq(before));
      sorted := true;
    }

    method RebasePendingOrder()
      requires count <= events.Length
      modifies this`orderCounter, events
      ensures State() == Renumbered(old(State())) && orderCounter == count
    {
      Renumber(events, count);
      orderCounter := count;
    }

    method CompactConsumed()
      requires cursor <= count <= events.Length && orderCounter == count && DistinctOrders(events[..count])
      modifies this`count, this`cursor, this`sorted, this`orderCounter, events
      ensures count <= events.Length && orderCounter == count && State() == CompactOf(old(State()))
    {
      if cursor == 0 { return; }
      if cursor >= count {
        count, cursor, sorted, orderCounter := 0, 0, true, 0;
        return;
      }
      SuffixFacts(events[..count], cursor);
      var remaining := count - cursor;
      ghost var rest := events[..count][cursor..];
      ShiftDown(events, cursor, remaining);
      count, cursor := remaining, 0;
      assert events[..count] == rest;
      SortStable();
      RebasePendingOrder();
    }

    method Push(cycle: BusCycle) returns (ok: bool)
      requires Valid()
      modifies this, events
      ensures Valid() && history == old(history) + [Op.Push(cycle)]
      ensures ok == PushOf(old(State()), cycle).1
    {
      RunDistinct(history);
      RunSnoc(history, Op.Push(cycle));
      if count >= CAPACITY { CompactConsumed(); }
      ok := count < CAPACITY;
      if ok {
        ghost var after := events[..count] + [SidBusEvent(cycle.(order := count), true)];
        events[count] := SidBusEvent(cycle.(order := orderCounter), true);
        orderCounter, count, sorted := orderCounter + 1, count + 1, false;
        assert events[..count] == after;
      }
      history := history + [Op.Push(cycle)];
    }

    method NextBeforeOrAt(phi2Cycle: nat) returns (r: Option<BusCycle>)
      requires Valid()
      modifies this, events
      ensures Valid() && history == old(history) + [Op.Next(phi2Cycle)]
      ensures r == NextOf(old(State()), phi2Cycle).1
    {
      NextRuns(history, State(), phi2Cycle);
      r := ServeHead(phi2Cycle);
      history := history + [Op.Next(phi2Cycle)];
    }

    /** Sort, then take the head if it is due. */
    method ServeHead(phi2Cycle: nat) returns (r: Option<BusCycle>)
      requires count <= events.Length && DistinctOrders(events[..count])
      modifies this`cursor, this`sorted, events
      ensures (State(), r) == NextOf(old(State()), phi2Cycle)
    {
      SortStable();
      r := TakeHead(phi2Cycle);
    }

    method TakeHead(phi2Cycle: nat) returns (r: Option<BusCycle>)
      requires count <= events.Length
      modifies this`cursor
      ensures (State(), r) == TakeOf(old(State()), phi2Cycle)
    {
      if cursor >= count { return None; }
      if !events[cursor].valid || events[cursor].cycle.phi2Cycle > phi2Cycle { return None; }
      r := Some(events[cursor].cycle);
      cursor := cursor + 1;
    }

    /** Sort, filter out the projection events and renumber the rest. */
    method ExtractMirror() returns (removed: seq<BusCycle>)
      requires count <= events.Length && orderCounter == count && DistinctOrders(events[..count])
      modifies this`count, this`cursor, this`sorted, this`orderCounter, events
      ensures count <= old(count) && orderCounter == count
      ensures State() == Queue(Rebased(KeepEvents(SortOf(old(State())).buf, false)), 0, true)
      ensures removed == Cycles(KeepEvents(SortOf(old(State())).buf, true))
    {
      SortStable();
      var write;
      write, removed := SplitMirror(events, count);
      count, cursor := write, 0;
      RebasePendingOrder();
      sorted := true;
    }

    /** The flush: removed is what the caller's apply function is called on, in
        order. The clear is the same without the calls. */
    method FlushPendingProjectionMirrorEvents() returns (removed: seq<BusCycle>)
      requires Valid()
      modifies this, events
      ensures Valid() && history == old(history) + [Op.RemoveMirror]
      ensures removed == MirrorOf(old(State())).1
    {
      RunDistinct(history);
      RunSnoc(history, Op.RemoveMirror);
      history := history + [Op.RemoveMirror];
      removed := [];
      if count == 0 { return; }
      CompactConsumed();
      if count == 0 { return; }
      removed := ExtractMirror();
    }
  }
}
