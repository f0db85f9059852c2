// Which of a host block's events reach the engine: notes first, then pressure, then
// automation thinned to a budget.
module BlockAdmission {
  import opened Remainders

  const PARAM_POINT_BUDGET := 256
  const INT32_MAX := 0x7fff_ffff

  datatype HostKind = NoteEvent | PressureEvent | OtherEvent

  /** An event of the host's list; the host may refuse to hand one out. */
  datatype HostEvent = HostEvent(readable: bool, kind: HostKind, offset: int, payload: int)

  /** An automation point; unreadable stands for a refusal or a value that is not finite. */
  datatype Point = Point(readable: bool, offset: int, payload: int)

  /** A parameter's points; not every parameter is a target of automation. */
  datatype Queue = Queue(param: nat, automatable: bool, points: seq<Point>)

  datatype Content =
    | Note(offset: nat, payload: int)
    | Pressure(offset: nat, payload: int)
    | Automation(param: nat, offset: nat, payload: int)

  datatype BlockEvent = BlockEvent(content: Content, rawOrder: nat)

  function ClampOffset(offset: int, last: nat): (r: nat)
    ensures r <= last
  {
    if offset < 0 then 0 else if offset > last then last else offset
  }

  function Take<T>(s: seq<T>, n: int): (r: seq<T>)
    ensures r <= s && |r| == if n < 0 then 0 else if n < |s| then n else |s|
  {
    if n < 0 then [] else if n < |s| then s[..n] else s
  }

  // ---- notes and pressure ----------------------------------------------------------------

  predicate Wanted(e: HostEvent, pass: nat) {
    e.readable && if pass == 0 then e.kind == NoteEvent else e.kind == PressureEvent
  }

  function ContentOf(e: HostEvent, pass: nat, last: nat): Content {
    if pass == 0 then Note(ClampOffset(e.offset, last), e.payload) else Pressure(ClampOffset(e.offset, last), e.payload)
  }

  /** What one pass over the list would collect. */
  function Passed(list: seq<HostEvent>, pass: nat, last: nat): seq<Content> {
    if list == [] then []
    else
      var e := list[|list| - 1];
      var before := Passed(list[..|list| - 1], pass, last);
      if Wanted(e, pass) then before + [ContentOf(e, pass, last)] else before
  }

  function Notes(list: seq<HostEvent>, last: nat): seq<Content> { Passed(list, 0, last) }

  function Pressures(list: seq<HostEvent>, last: nat): seq<Content> { Passed(list, 1, last) }

  // ---- automation ---------------------------------------------------------------------------

  predicate Usable(q: Queue) { q.automatable && q.points != [] }

  function CountUsable(queues: seq<Queue>): nat {
    if queues == [] then 0 else CountUsable(queues[..|queues| - 1]) + if Usable(queues[|queues| - 1]) then 1 else 0
  }

  function TotalPoints(queues: seq<Queue>): nat {
    if queues == [] then 0
    else TotalPoints(queues[..|queues| - 1]) + if Usable(queues[|queues| - 1]) then |queues[|queues| - 1].points| else 0
  }

  function Budget(cap: nat, n: nat): nat {
    var room := if cap - n < PARAM_POINT_BUDGET - n then cap - n else PARAM_POINT_BUDGET - n;
    if room < 0 then 0 else room
  }

  /** How many points each queue may keep, at least its last. */
  function PerQueue(usable: nat, total: nat, budget: nat): nat {
    if usable > 0 && total > budget then
      (if Quotient(budget, usable) < 1 then 1 else Quotient(budget, usable))
    else INT32_MAX
  }

  function Keep(q: Queue, perQueue: nat): nat { if |q.points| < perQueue then |q.points| else perQueue }

  /** The k-th of keep evenly spaced points. */
  function ThinnedIndex(points: nat, keep: nat, k: nat): int
    requires keep > 0
  {
    if keep == points then k else Quotient(Times(k + 1, points), keep) - 1
  }

  lemma {:induction false} QuotientOfProduct(a: nat, b: nat)
    requires b > 0
    ensures Quotient(Times(b, a), b) == a
  {
    QuotientBounds(Times(b, a), b, a);
  }

  lemma {:induction false} QuotientOfSmall(x: nat, n: nat)
    requires n > 0
    ensures x >= n ==> Quotient(x, n) >= 1
  {
    if x >= n { QuotientGrows(0, x, n); }
  }

  /** Thinned points lie in the queue, in strictly increasing order, and end at its last. */
  lemma {:induction false} ThinnedIndicesIncrease(points: nat, keep: nat, j: nat, k: nat)
    requires 0 < keep <= points && j <= k < keep
    ensures 0 <= ThinnedIndex(points, keep, j) <= ThinnedIndex(points, keep, k) < points
    ensures j < k ==> ThinnedIndex(points, keep, j) < ThinnedIndex(points, keep, k)
    ensures ThinnedIndex(points, keep, keep - 1) == points - 1
    decreases k
  {
    QuotientOfProduct(points, keep);
    ThinnedInRange(points, keep, k);
    ThinnedInRange(points, keep, j);
    if j < k {
      ThinnedIndicesIncrease(points, keep, j, k - 1);
      TimesOneMore(k, points);
      QuotientGrows(Times(k, points), Times(k + 1, points), keep);
    }
  }

  lemma {:induction false} ThinnedInRange(points: nat, keep: nat, k: nat)
    requires 0 < keep <= points && k < keep
    ensures 0 <= ThinnedIndex(points, keep, k) < points
  {
    TimesOneMore(0, points);
    QuotientOfSmall(Times(k + 1, points), keep);
    TimesAtLeast(k + 1, points);
    TimesKeepsOrder(k + 1, keep, points);
    QuotientOfProduct(points, keep);
    QuotientIsMonotone(Times(k + 1, points), Times(keep, points), keep);
  }

  lemma {:induction false} TimesAtLeast(a: nat, b: nat)
    requires a > 0
    ensures Times(a, b) >= b
  {
    if a > 1 {
      TimesAtLeast(a - 1, b);
      TimesOneMore(a - 1, b);
    }
  }

  /** The first k of the points a queue keeps, as far as they are readable. */
  function Picks(q: Queue, keep: nat, k: nat, last: nat): seq<Content>
    requires 0 < keep <= |q.points| && k <= keep
  {
    if k == 0 then []
    else
      ThinnedInRange(|q.points|, keep, k - 1);
      var p := q.points[ThinnedIndex(|q.points|, keep, k - 1)];
      var before := Picks(q, keep, k - 1, last);
      if p.readable then before + [Automation(q.param, ClampOffset(p.offset, last), p.payload)] else before
  }

  /** What the usable queues would contribute if nothing else were in the way. */
  function AllPicks(queues: seq<Queue>, perQueue: nat, last: nat): seq<Content>
    requires perQueue > 0
  {
    if queues == [] then []
    else
      var q := queues[|queues| - 1];
      var before := AllPicks(queues[..|queues| - 1], perQueue, last);
      if Usable(q) then before + Picks(q, Keep(q, perQueue), Keep(q, perQueue), last) else before
  }

  // ---- the block's events ---------------------------------------------------------------------

  function Accepted(list: seq<HostEvent>, cap: nat, last: nat): seq<Content> {
    Take(Notes(list, last) + Pressures(list, last), cap)
  }

  function Share(queues: seq<Queue>, cap: nat, n: nat): (r: nat)
    ensures r > 0
  {
    PerQueue(CountUsable(queues), TotalPoints(queues), Budget(cap, n))
  }

  function Collected(list: seq<HostEvent>, queues: seq<Queue>, cap: nat, last: nat): (r: seq<Content>)
    ensures |r| <= cap
  {
    var accepted := Accepted(list, cap, last);
    Take(accepted + AllPicks(queues, Share(queues, cap, |accepted|), last), cap)
  }

  /** The arrival numbers: 1, 2, 3 and so on in the order of admission. */
  function Numbered(cs: seq<Content>): (r: seq<BlockEvent>)
    ensures |r| == |cs| && forall i :: 0 <= i < |cs| ==> r[i] == BlockEvent(cs[i], i + 1)
  {
    seq(|cs|, i requires 0 <= i < |cs| => BlockEvent(cs[i], i + 1))
  }

  // ---- what is kept and what is given up ----------------------------------------------------------

  lemma {:induction false} PassedKinds(list: seq<HostEvent>, pass: nat, last: nat)
    ensures forall c :: c in Passed(list, pass, last) ==> if pass == 0 then c.Note? else c.Pressure?
  {
    if list != [] { PassedKinds(list[..|list| - 1], pass, last); }
  }

  lemma {:induction false} PicksAreAutomation(q: Queue, keep: nat, k: nat, last: nat)
    requires 0 < keep <= |q.points| && k <= keep
    ensures forall c :: c in Picks(q, keep, k, last) ==> c.Automation?
    ensures |Picks(q, keep, k, last)| <= k
    ensures (forall i :: 0 <= i < |q.points| ==> q.points[i].readable) ==> |Picks(q, keep, k, last)| == k
  {
    if k > 0 {
      PicksAreAutomation(q, keep, k - 1, last);
      ThinnedInRange(|q.points|, keep, k - 1);
    }
  }

  lemma {:induction false} AllPicksAreAutomation(queues: seq<Queue>, perQueue: nat, last: nat)
    requires perQueue > 0
    ensures forall c :: c in AllPicks(queues, perQueue, last) ==> c.Automation?
  {
    if queues != [] {
      var q := queues[|queues| - 1];
      AllPicksAreAutomation(queues[..|queues| - 1], perQueue, last);
      if Usable(q) { PicksAreAutomation(q, Keep(q, perQueue), Keep(q, perQueue), last); }
    }
  }

  lemma {:induction false} TakeOfJoin<T>(a: seq<T>, b: seq<T>, n: nat)
    ensures |a| >= n ==> Take(a + b, n) == Take(a, n)
    ensures |a| <= n ==> Take(a + b, n) == a + Take(b, n - |a|)
  {}

  /** No pressure or automation is kept while a note is given up, and no automation
      while pressure is: every kind is kept whole before the next begins. */
  lemma {:induction false} LessUrgentIsGivenUpFirst(list: seq<HostEvent>, queues: seq<Queue>, cap: nat, last: nat,
                                                    i: nat)
    requires i < |Collected(list, queues, cap, last)|
    ensures var r, notes, pressures := Collected(list, queues, cap, last), Notes(list, last), Pressures(list, last);
            && (!r[i].Note? ==> notes <= r)
            && (r[i].Automation? ==> notes + pressures <= r)
            && Take(notes, cap) <= r
  {
    var notes, pressures := Notes(list, last), Pressures(list, last);
    var accepted := Accepted(list, cap, last);
    var picks := AllPicks(queues, Share(queues, cap, |accepted|), last);
    PassedKinds(list, 0, last);
    PassedKinds(list, 1, last);
    AllPicksAreAutomation(queues, Share(queues, cap, |accepted|), last);
    TakeOfJoin(notes, pressures, cap);
    TakeOfJoin(accepted, picks, cap);
    KindsInOrder(notes, pressures, picks, cap, Collected(list, queues, cap, last), i);
  }

  lemma {:induction false} KindsInOrder(notes: seq<Content>, pressures: seq<Content>, picks: seq<Content>, cap: nat,
                                        r: seq<Content>, i: nat)
    requires r == Take(Take(notes + pressures, cap) + picks, cap) && i < |r|
    requires forall c :: c in notes ==> c.Note?
    requires forall c :: c in pressures ==> c.Pressure?
    requires forall c :: c in picks ==> c.Automation?
    ensures !r[i].Note? ==> notes <= r
    ensures r[i].Automation? ==> notes + pressures <= r
    ensures Take(notes, cap) <= r
  {
    var both := notes + pressures;
    if i < |notes| {
      assert r[i] == notes[i] && notes[i] in notes;
    } else if i < |both| {
      assert r[i] == pressures[i - |notes|] && pressures[i - |notes|] in pressures;
    }
  }

  predicate AllReadable(queues: seq<Queue>) {
    forall i, k :: 0 <= i < |queues| && 0 <= k < |queues[i].points| ==> queues[i].points[k].readable
  }

  predicate CountsFit(queues: seq<Queue>) { forall i :: 0 <= i < |queues| ==> |queues[i].points| <= INT32_MAX }

  function KeptTotal(queues: seq<Queue>, perQueue: nat): nat {
    if queues == [] then 0
    else
      var last := queues[|queues| - 1];
      KeptTotal(queues[..|queues| - 1], perQueue) + if Usable(last) then Keep(last, perQueue) else 0
  }

  lemma {:induction false} PicksCount(queues: seq<Queue>, perQueue: nat, last: nat)
    requires perQueue > 0
    ensures |AllPicks(queues, perQueue, last)| <= KeptTotal(queues, perQueue)
    ensures AllReadable(queues) ==> |AllPicks(queues, perQueue, last)| == KeptTotal(queues, perQueue)
  {
    if queues != [] {
      var n := |queues| - 1;
      PicksCount(queues[..n], perQueue, last);
      if AllReadable(queues) {
        forall i, k | 0 <= i < n && 0 <= k < |queues[..n][i].points| ensures queues[..n][i].points[k].readable {
          assert queues[..n][i] == queues[i];
        }
      }
      var keep := Keep(queues[n], perQueue);
      if Usable(queues[n]) { PicksAreAutomation(queues[n], keep, keep, last); }
    }
  }

  lemma {:induction false} KeptBounds(queues: seq<Queue>, perQueue: nat)
    requires perQueue > 0
    ensures CountUsable(queues) <= KeptTotal(queues, perQueue) <= TotalPoints(queues)
    ensures KeptTotal(queues, perQueue) <= Times(CountUsable(queues), perQueue)
    ensures perQueue == 1 ==> KeptTotal(queues, perQueue) == CountUsable(queues)
    ensures CountsFit(queues) && perQueue == INT32_MAX ==> KeptTotal(queues, perQueue) == TotalPoints(queues)
  {
    if queues != [] {
      var n := |queues| - 1;
      KeptBounds(queues[..n], perQueue);
      if CountsFit(queues) { assert forall i :: 0 <= i < n ==> queues[..n][i] == queues[i]; }
      TimesOneMore(CountUsable(queues[..n]), perQueue);
    }
  }

  lemma {:induction false} QuotientTimes(budget: nat, usable: nat)
    requires usable > 0
    ensures Times(usable, Quotient(budget, usable)) <= budget
  {
    assert budget == usable * (budget / usable) + budget % usable;
  }

  /** With room for one point a queue, what the queues keep fits the room; without it
      they keep one point each. */
  lemma {:induction false} KeptFits(queues: seq<Queue>, cap: nat, n: nat)
    requires CountsFit(queues) && n <= cap
    ensures var kept := KeptTotal(queues, Share(queues, cap, n)); kept <= cap - n <==> CountUsable(queues) <= cap - n
  {
    var usable, total, budget := CountUsable(queues), TotalPoints(queues), Budget(cap, n);
    var share := Share(queues, cap, n);
    KeptBounds(queues, share);
    if usable > 0 && total > budget && Quotient(budget, usable) >= 1 {
      QuotientTimes(budget, usable);
    }
  }

  /** Whether anything is lost: when every point is readable, all points the queues keep
      reach the engine if and only if there is room for one point a queue beside the
      notes and pressure. */
  lemma {:induction false} KeptPointsAreAdmittedIff(list: seq<HostEvent>, queues: seq<Queue>, cap: nat, last: nat)
    requires AllReadable(queues) && CountsFit(queues)
    ensures var accepted := Accepted(list, cap, last);
            var picks := AllPicks(queues, Share(queues, cap, |accepted|), last);
            Collected(list, queues, cap, last) == accepted + picks <==> |accepted| + CountUsable(queues) <= cap
  {
    var accepted := Accepted(list, cap, last);
    var share := Share(queues, cap, |accepted|);
    var picks := AllPicks(queues, share, last);
    PicksCount(queues, share, last);
    KeptFits(queues, cap, |accepted|);
    TakeOfJoin(accepted, picks, cap);
    assert |Collected(list, queues, cap, last)| == if |accepted + picks| <= cap then |accepted + picks| else cap;
  }

  /** Each queue's contribution ends on its last point, so the parameter ends the block on
      the host's value. */
  lemma {:induction false} ContributionEndsOnLastPoint(q: Queue, perQueue: nat, last: nat)
    requires Usable(q) && perQueue > 0 && q.points[|q.points| - 1].readable
    ensures var picks := Picks(q, Keep(q, perQueue), Keep(q, perQueue), last);
            var p := q.points[|q.points| - 1];
            picks != [] && picks[|picks| - 1] == Automation(q.param, ClampOffset(p.offset, last), p.payload)
  {
    ThinnedIndicesIncrease(|q.points|, Keep(q, perQueue), Keep(q, perQueue) - 1, Keep(q, perQueue) - 1);
  }

  /** With room for one point a queue, the last point of every readable queue reaches the
      engine, whatever the other queues do. */
  lemma {:induction false} LastPointsAreAdmitted(list: seq<HostEvent>, queues: seq<Queue>, cap: nat, last: nat, i: nat)
    requires CountsFit(queues) && i < |queues| && Usable(queues[i])
    requires queues[i].points[|queues[i].points| - 1].readable
    requires |Accepted(list, cap, last)| + CountUsable(queues) <= cap
    ensures var p := queues[i].points[|queues[i].points| - 1];
            Automation(queues[i].param, ClampOffset(p.offset, last), p.payload) in Collected(list, queues, cap, last)
  {
    var accepted := Accepted(list, cap, last);
    var share := Share(queues, cap, |accepted|);
    PicksCount(queues, share, last);
    KeptFits(queues, cap, |accepted|);
    ContributionIsIn(queues, share, last, i);
    var picks := AllPicks(queues, share, last);
    assert Collected(list, queues, cap, last) == accepted + picks;
  }

  lemma {:induction false} ContributionIsIn(queues: seq<Queue>, perQueue: nat, last: nat, i: nat)
    requires perQueue > 0 && i < |queues| && Usable(queues[i])
    requires queues[i].points[|queues[i].points| - 1].readable
    ensures var p := queues[i].points[|queues[i].points| - 1];
            Automation(queues[i].param, ClampOffset(p.offset, last), p.payload) in AllPicks(queues, perQueue, last)
  {
    var n := |queues| - 1;
    if i < n {
      ContributionIsIn(queues[..n], perQueue, last, i);
    } else {
      ContributionEndsOnLastPoint(queues[n], perQueue, last);
    }
  }
}
