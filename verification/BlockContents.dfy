// What stands in a block's events, told from the host's lists: each event that is kept, its
// place, its frame and what it carries, and how fairly automation is thinned.
module BlockContents {
  import opened Basics
  import opened Remainders
  import opened BlockAdmission

  function Distance(a: int, b: int): nat { if a < b then b - a else a - b }

  /** No frame of the block is nearer to the offset. */
  ghost predicate IsNearest(frame: nat, offset: int, last: nat) {
    frame <= last && forall f: nat :: f <= last ==> Distance(frame, offset) <= Distance(f, offset)
  }

  /** Clamping gives the nearest frame: an offset inside the block is kept, one before it
      gives the first frame, one behind it the last; and order is kept. */
  lemma {:induction false} ClampIsNearest(offset: int, later: int, last: nat)
    ensures IsNearest(ClampOffset(offset, last), offset, last)
    ensures 0 <= offset <= last ==> ClampOffset(offset, last) == offset
    ensures offset <= later ==> ClampOffset(offset, last) <= ClampOffset(later, last)
  {}

  // ---- notes and pressure ------------------------------------------------------------

  /** How many readable events of a kind a list has. */
  function CountOf(list: seq<HostEvent>, kind: HostKind): nat {
    if list == [] then 0
    else
      var e := list[|list| - 1];
      CountOf(list[..|list| - 1], kind) + if e.readable && e.kind == kind then 1 else 0
  }

  /** An entry carries an event of the host: its payload, at the frame nearest to it. */
  ghost predicate Carries(c: Content, e: HostEvent, last: nat) {
    && (if e.kind == NoteEvent then c.Note? else c.Pressure?)
    && c.payload == e.payload && IsNearest(c.offset, e.offset, last)
  }

  lemma {:induction false} PassedAt(list: seq<HostEvent>, pass: nat, last: nat, i: nat)
    requires pass <= 1 && i < |list|
    requires list[i].readable && list[i].kind == if pass == 0 then NoteEvent else PressureEvent
    ensures var (k, passed) := (CountOf(list[..i], list[i].kind), Passed(list, pass, last));
            k < |passed| && Carries(passed[k], list[i], last)
    decreases |list|
  {
    var n := |list| - 1;
    PassedCount(list[..n], pass, last);
    if i < n {
      PassedAt(list[..n], pass, last, i);
      assert list[..n][..i] == list[..i];
    } else {
      ClampIsNearest(list[n].offset, list[n].offset, last);
    }
  }

  lemma {:induction false} PassedCount(list: seq<HostEvent>, pass: nat, last: nat)
    requires pass <= 1
    ensures |Passed(list, pass, last)| == CountOf(list, if pass == 0 then NoteEvent else PressureEvent)
  {
    if list != [] { PassedCount(list[..|list| - 1], pass, last); }
  }

  /** Where an event of the list goes: notes in the order of the list, pressure behind all
      the notes. */
  function PlaceOf(list: seq<HostEvent>, i: nat): nat
    requires i < |list|
  {
    CountOf(list[..i], list[i].kind) + if list[i].kind == PressureEvent then CountOf(list, NoteEvent) else 0
  }

  /** Every readable note and pressure of the list stands at its place in the block's
      events, with its own payload and at the nearest frame, as far as there is room. */
  lemma {:induction false} EventsStandInPlace(list: seq<HostEvent>, queues: seq<Queue>, cap: nat, last: nat, i: nat)
    requires i < |list| && list[i].readable && !list[i].kind.OtherEvent? && PlaceOf(list, i) < cap
    ensures var (r, k) := (Collected(list, queues, cap, last), PlaceOf(list, i));
            k < |r| && Carries(r[k], list[i], last)
  {
    var pass: nat := if list[i].kind == NoteEvent then 0 else 1;
    PassedAt(list, pass, last, i);
    PassedCount(list, 0, last);
    var notes, pressures := Notes(list, last), Pressures(list, last);
    CollectedAt(list, queues, cap, last, PlaceOf(list, i));
    if pass == 1 { assert (notes + pressures)[PlaceOf(list, i)] == pressures[PlaceOf(list, i) - |notes|]; }
  }

  lemma {:induction false} CollectedAt(list: seq<HostEvent>, queues: seq<Queue>, cap: nat, last: nat, k: nat)
    requires k < cap && k < |Notes(list, last) + Pressures(list, last)|
    ensures var r := Collected(list, queues, cap, last);
            k < |r| && r[k] == (Notes(list, last) + Pressures(list, last))[k]
  {}

  /** And nothing else stands there: what precedes automation is as many entries as there
      are readable notes and pressures, or as fit. */
  lemma {:induction false} AcceptedCount(list: seq<HostEvent>, cap: nat, last: nat)
    ensures |Accepted(list, cap, last)| == Min(cap, CountOf(list, NoteEvent) + CountOf(list, PressureEvent))
  {
    PassedCount(list, 0, last);
    PassedCount(list, 1, last);
  }

  // ---- automation --------------------------------------------------------------------

  /** The j-th point that queue i keeps. */
  function KeptPoint(q: Queue, keep: nat, j: nat): Point
    requires 0 < keep <= |q.points| && j < keep
  {
    ThinnedInRange(|q.points|, keep, j);
    q.points[ThinnedIndex(|q.points|, keep, j)]
  }

  lemma {:induction false} PickAt(q: Queue, keep: nat, n: nat, last: nat, j: nat)
    requires 0 < keep <= |q.points| && j < n <= keep && KeptPoint(q, keep, j).readable
    ensures var (k, picks, p) := (|Picks(q, keep, j, last)|, Picks(q, keep, n, last), KeptPoint(q, keep, j));
            && k < |picks| && picks[k].Automation? && picks[k].param == q.param && picks[k].payload == p.payload
            && IsNearest(picks[k].offset, p.offset, last)
  {
    if j < n - 1 {
      PickAt(q, keep, n - 1, last, j);
    } else {
      ClampIsNearest(KeptPoint(q, keep, j).offset, KeptPoint(q, keep, j).offset, last);
    }
  }

  lemma {:induction false} AllPicksAt(queues: seq<Queue>, perQueue: nat, last: nat, i: nat, k: nat)
    requires perQueue > 0 && i < |queues| && Usable(queues[i])
    requires k < |Picks(queues[i], Keep(queues[i], perQueue), Keep(queues[i], perQueue), last)|
    ensures var at := |AllPicks(queues[..i], perQueue, last)| + k;
            && at < |AllPicks(queues, perQueue, last)|
            && AllPicks(queues, perQueue, last)[at]
               == Picks(queues[i], Keep(queues[i], perQueue), Keep(queues[i], perQueue), last)[k]
    decreases |queues|
  {
    var n := |queues| - 1;
    if i < n {
      AllPicksAt(queues[..n], perQueue, last, i, k);
      assert queues[..n][..i] == queues[..i];
    }
  }

  /** Every readable point that a queue keeps stands behind the notes, the pressure, the
      earlier queues and the earlier points of its queue, with its own value, for its own
      parameter and at the nearest frame, as far as there is room. */
  lemma {:induction false} PointsStandInPlace(list: seq<HostEvent>, queues: seq<Queue>, cap: nat, last: nat, i: nat,
                                              j: nat)
    requires i < |queues| && Usable(queues[i])
    requires j < Keep(queues[i], Share(queues, cap, |Accepted(list, cap, last)|))
    requires KeptPoint(queues[i], Keep(queues[i], Share(queues, cap, |Accepted(list, cap, last)|)), j).readable
    ensures var accepted := |Accepted(list, cap, last)|;
            var share := Share(queues, cap, accepted);
            var (q, keep) := (queues[i], Keep(queues[i], share));
            var k := accepted + |AllPicks(queues[..i], share, last)| + |Picks(q, keep, j, last)|;
            var (r, p) := (Collected(list, queues, cap, last), KeptPoint(q, keep, j));
            k < cap ==> k < |r| && r[k].Automation? && r[k].param == q.param && r[k].payload == p.payload
                        && IsNearest(r[k].offset, p.offset, last)
  {
    var accepted := |Accepted(list, cap, last)|;
    var share := Share(queues, cap, accepted);
    var (q, keep) := (queues[i], Keep(queues[i], share));
    PickAt(q, keep, keep, last, j);
    AllPicksAt(queues, share, last, i, |Picks(q, keep, j, last)|);
  }

  /** Thinning is even: from one kept point to the next, and from the start to the first,
      it is points / keep steps or one more. */
  lemma {:induction false} GapsAreEven(points: nat, keep: nat, k: nat)
    requires 0 < keep <= points && k < keep
    ensures var gap := ThinnedIndex(points, keep, k) - if k == 0 then -1 else ThinnedIndex(points, keep, k - 1);
            points / keep <= gap <= points / keep + 1
  {
    TimesOneMore(k, points);
    QuotientOfSum(Times(k, points), points, keep);
    if keep == points { QuotientBounds(points, keep, 1); }
    QuotientBounds(0, keep, 0);
  }

  lemma {:induction false} QuotientOfSum(a: nat, b: nat, n: nat)
    requires n > 0
    ensures Quotient(a, n) + Quotient(b, n) <= Quotient(a + b, n) <= Quotient(a, n) + Quotient(b, n) + 1
  {
    var p, q, r := a / n, b / n, a % n + b % n;
    assert a + b == (p + q) * n + r by { SumOfMultiples(p, q, n); }
    if r < n {
      QuotientBounds(a + b, n, p + q);
    } else {
      SumOfMultiples(p + q, 1, n);
      QuotientBounds(a + b, n, p + q + 1);
    }
  }

  lemma {:induction false} SumOfMultiples(p: nat, q: nat, n: nat)
    ensures (p + q) * n == p * n + q * n
  {}

  /** The room for automation: what the block's budget leaves beside the notes and
      pressure, and no more than the buffer has. */
  function Room(cap: nat, n: nat): nat { Max(0, Min(cap, PARAM_POINT_BUDGET) - n) }

  /** The share of a queue: all of its points when they all fit the room; otherwise the
      largest number, but at least one, that every queue can keep within it. */
  lemma {:induction false} ShareIsLargest(queues: seq<Queue>, cap: nat, n: nat)
    requires CountsFit(queues)
    ensures var (kept, share, usable) := (KeptTotal(queues, Share(queues, cap, n)), Share(queues, cap, n),
                                          CountUsable(queues));
            if TotalPoints(queues) <= Room(cap, n) then kept == TotalPoints(queues)
            else && kept <= Max(Room(cap, n), usable)
                 && (usable > 0 ==> Room(cap, n) < Times(usable, share + 1))
  {
    var (usable, room) := (CountUsable(queues), Room(cap, n));
    KeptBounds(queues, Share(queues, cap, n));
    if usable > 0 && TotalPoints(queues) > room {
      QuotientTimes(room, usable);
      LessThanNext(room, usable);
      TimesKeepsOrder(1, Share(queues, cap, n), usable);
    }
  }

  lemma {:induction false} LessThanNext(x: nat, n: nat)
    requires n > 0
    ensures x < Times(n, Quotient(x, n) + 1)
  {
    assert x == n * (x / n) + x % n;
    assert n * (x / n + 1) == n * (x / n) + n;
  }

  /** Every queue keeps the same number of points, but for those that have no more. */
  lemma {:induction false} SharesAreEqual(a: Queue, b: Queue, perQueue: nat)
    ensures Keep(a, perQueue) <= |a.points| && Keep(a, perQueue) <= perQueue
    ensures Keep(a, perQueue) < Keep(b, perQueue) ==> Keep(a, perQueue) == |a.points|
  {}
}
