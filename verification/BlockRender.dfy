// Rendering a host block: collecting its events into a fixed buffer, handing them out
// slice by slice, and the bypass fade.
module BlockRender {
  import opened BlockAdmission
  import opened Reals

  // ---- collecting -----------------------------------------------------------------------

  lemma {:induction false} PassedPrefix(list: seq<HostEvent>, i: nat, pass: nat, last: nat)
    requires i <= |list|
    ensures Passed(list[..i], pass, last) <= Passed(list, pass, last)
  {
    if i < |list| {
      PassedPrefix(list[..|list| - 1], i, pass, last);
      assert list[..|list| - 1][..i] == list[..i];
    } else {
      assert list[..i] == list;
    }
  }

  lemma {:induction false} AllPicksPrefix(queues: seq<Queue>, i: nat, perQueue: nat, last: nat)
    requires i <= |queues| && perQueue > 0
    ensures AllPicks(queues[..i], perQueue, last) <= AllPicks(queues, perQueue, last)
  {
    if i < |queues| {
      AllPicksPrefix(queues[..|queues| - 1], i, perQueue, last);
      assert queues[..|queues| - 1][..i] == queues[..i];
    } else {
      assert queues[..i] == queues;
    }
  }

  /** A full buffer takes nothing more. */
  lemma {:induction false} FullTakesNoMore(base: seq<Content>, some: seq<Content>, all: seq<Content>, cap: nat)
    requires some <= all && (|base + some| >= cap || some == all)
    ensures Take(base + some, cap) == Take(base + all, cap)
  {}

  lemma {:induction false} NumberedMore(cs: seq<Content>, c: Content)
    ensures Numbered(cs + [c]) == Numbered(cs) + [BlockEvent(c, |cs| + 1)]
  {}

  /** The preallocated event buffer of the processor. */
  class EventScratch {
    const events: array<BlockEvent>
    var count: nat

    ghost predicate Holds(cs: seq<Content>)
      reads this, events
    {
      count == |cs| <= events.Length && events[..count] == Numbered(cs)
    }

    constructor (capacity: nat)
      ensures Holds([]) && events.Length == capacity && fresh(events)
    {
      events := new BlockEvent[capacity](_ => BlockEvent(Note(0, 0), 0));
      count := 0;
      new;
      assert events[..0] == Numbered([]);
    }

    method Admit(c: Content, ghost cs: seq<Content>)
      requires Holds(cs) && count < events.Length
      modifies this, events
      ensures Holds(cs + [c])
    {
      NumberedMore(cs, c);
      events[count] := BlockEvent(c, count + 1);
      count := count + 1;
    }

    /** One pass over the host's list, until the buffer is full. */
    method CollectPass(list: seq<HostEvent>, pass: nat, last: nat, ghost base: seq<Content>)
      requires Holds(base)
      modifies this, events
      ensures Holds(Take(base + Passed(list, pass, last), events.Length))
    {
      ghost var cs := base;
      var i := 0;
      assert base + [] == base;
      while i < |list| && count < events.Length
        invariant i <= |list| && cs == base + Passed(list[..i], pass, last) && Holds(cs)
      {
        assert list[..i + 1][..i] == list[..i];
        if Wanted(list[i], pass) {
          Admit(ContentOf(list[i], pass, last), cs);
          cs := cs + [ContentOf(list[i], pass, last)];
        }
        i := i + 1;
      }
      PassedPrefix(list, i, pass, last);
      if i == |list| { assert list[..i] == list; }
      FullTakesNoMore(base, Passed(list[..i], pass, last), Passed(list, pass, last), events.Length);
    }

    /** One queue's evenly spaced points, until the buffer is full. */
    method CollectQueue(q: Queue, perQueue: nat, last: nat, ghost base: seq<Content>)
      requires Holds(base) && Usable(q) && perQueue > 0
      modifies this, events
      ensures Holds(Take(base + Picks(q, Keep(q, perQueue), Keep(q, perQueue), last), events.Length))
    {
      var points := |q.points|;
      var keep := if points < perQueue then points else perQueue;
      ghost var cs := base;
      var k := 0;
      assert base + [] == base;
      while k < keep && count < events.Length
        invariant k <= keep && cs == base + Picks(q, keep, k, last) && Holds(cs)
      {
        ThinnedInRange(points, keep, k);
        var next := k + 1;
        var p := q.points[if keep == points then k else (next * points) / keep - 1];
        ThinnedPoint(points, keep, k);
        if p.readable {
          var c := Automation(q.param, ClampOffset(p.offset, last), p.payload);
          Admit(c, cs);
          cs := cs + [c];
        }
        assert cs == base + Picks(q, keep, next, last);
        k := next;
      }
      PicksPrefix(q, keep, k, last);
      FullTakesNoMore(base, Picks(q, keep, k, last), Picks(q, keep, keep, last), events.Length);
    }

    /** All usable queues in turn, until the buffer is full. */
    method CollectQueues(queues: seq<Queue>, perQueue: nat, last: nat, ghost base: seq<Content>)
      requires Holds(base) && perQueue > 0
      modifies this, events
      ensures Holds(Take(base + AllPicks(queues, perQueue, last), events.Length))
    {
      ghost var cs := base;
      var i := 0;
      assert base + [] == base;
      while i < |queues| && count < events.Length
        invariant i <= |queues| && cs == Take(base + AllPicks(queues[..i], perQueue, last), events.Length) && Holds(cs)
      {
        assert queues[..i + 1][..i] == queues[..i];
        if queues[i].automatable && |queues[i].points| > 0 {
          ghost var earlier := AllPicks(queues[..i], perQueue, last);
          ghost var picks := Picks(queues[i], Keep(queues[i], perQueue), Keep(queues[i], perQueue), last);
          CollectQueue(queues[i], perQueue, last, cs);
          TakeTwice(base, earlier, picks, events.Length);
          cs := Take(cs + picks, events.Length);
        }
        i := i + 1;
      }
      AllPicksPrefix(queues, i, perQueue, last);
      if i == |queues| { assert queues[..i] == queues; }
      FullTakesNoMore(base, AllPicks(queues[..i], perQueue, last), AllPicks(queues, perQueue, last), events.Length);
    }

    /** How many usable queues there are, and how many points they have in all. */
    method CountQueues(queues: seq<Queue>) returns (usable: nat, total: nat)
      ensures usable == CountUsable(queues) && total == TotalPoints(queues)
    {
      usable, total := 0, 0;
      for i := 0 to |queues|
        invariant usable == CountUsable(queues[..i]) && total == TotalPoints(queues[..i])
      {
        assert queues[..i + 1][..i] == queues[..i];
        if queues[i].automatable && |queues[i].points| > 0 {
          usable := usable + 1;
          total := total + |queues[i].points|;
        }
      }
      assert queues[..|queues|] == queues;
    }

    /** The events of a block: notes, then pressure, then thinned automation. */
    method CollectEvents(list: seq<HostEvent>, queues: seq<Queue>, frameCount: nat)
      modifies this, events
      ensures var last := if frameCount == 0 then 0 else frameCount - 1;
              Holds(Collected(list, queues, events.Length, last))
    {
      var last := if frameCount == 0 then 0 else frameCount - 1;
      count := 0;
      assert events[..0] == Numbered([]);
      CollectPass(list, 0, last, []);
      ghost var notes := Take([] + Notes(list, last), events.Length);
      CollectPass(list, 1, last, notes);
      ghost var accepted := Accepted(list, events.Length, last);
      assert [] + Notes(list, last) == Notes(list, last);
      TakeTwice([], Notes(list, last), Pressures(list, last), events.Length);
      assert Holds(accepted);
      var usable, total := CountQueues(queues);
      var perQueue := PerQueue(usable, total, Budget(events.Length, count));
      CollectQueues(queues, perQueue, last, accepted);
    }
  }

  lemma {:induction false} TakeTwice(base: seq<Content>, a: seq<Content>, b: seq<Content>, cap: nat)
    ensures Take(Take(base + a, cap) + b, cap) == Take(base + (a + b), cap)
  {
    assert base + (a + b) == (base + a) + b;
    TakeOfTaken(base + a, b, cap);
  }

  lemma {:induction false} TakeOfTaken(s: seq<Content>, more: seq<Content>, cap: nat)
    ensures Take(Take(s, cap) + more, cap) == Take(s + more, cap)
  {
    if cap < |s| {
      var front := s[..cap];
      assert (front + more)[..cap] == front;
      assert (s + more)[..cap] == front;
    }
  }

  lemma {:induction false} ThinnedPoint(points: nat, keep: nat, k: nat)
    requires 0 < keep
    ensures ThinnedIndex(points, keep, k) == if keep == points then k else ((k + 1) * points) / keep - 1
  {}

  lemma {:induction false} PicksPrefix(q: Queue, keep: nat, k: nat, last: nat)
    requires 0 < keep <= |q.points| && k <= keep
    ensures Picks(q, keep, k, last) <= Picks(q, keep, keep, last)
    decreases keep - k
  {
    if k < keep { PicksPrefix(q, keep, k + 1, last); }
  }

  // ---- slices ----------------------------------------------------------------------------

  datatype Placed = Placed(sampleOffset: int, payload: int)

  /** Frames [start, start + frames) with the events [first, end). */
  datatype Slice = Slice(start: nat, frames: nat, first: nat, end: nat)

  predicate InOrder(events: seq<Placed>) {
    forall i, j :: 0 <= i < j < |events| ==> events[i].sampleOffset <= events[j].sampleOffset
  }

  predicate InBlock(events: seq<Placed>, frames: nat) {
    forall i :: 0 <= i < |events| ==> 0 <= events[i].sampleOffset < frames
  }

  /** The slices lie end to end from the start of the block, and so do their events. */
  predicate Tiles(slices: seq<Slice>, frames: nat, count: nat) {
    && (slices == [] ==> frames == 0 && count == 0)
    && (slices != [] ==>
          && slices[0].start == 0 && slices[0].first == 0
          && slices[|slices| - 1].start + slices[|slices| - 1].frames == frames
          && slices[|slices| - 1].end == count)
    && (forall k :: 0 <= k < |slices| ==> 0 < slices[k].frames && slices[k].first <= slices[k].end <= count)
    && (forall k, next :: 0 <= k < |slices| && next == k + 1 && next < |slices| ==>
          slices[next].start == slices[k].start + slices[k].frames && slices[next].first == slices[k].end)
  }

  /** Within its slice an event keeps its place in the block. */
  predicate Rebased(slices: seq<Slice>, before: seq<Placed>, after: seq<Placed>)
    requires |before| == |after|
  {
    forall k, i :: 0 <= k < |slices| && slices[k].first <= i < slices[k].end && i < |before| ==>
      && 0 <= after[i].sampleOffset < slices[k].frames
      && after[i].sampleOffset + slices[k].start == before[i].sampleOffset
      && after[i].payload == before[i].payload
  }

  /** Cuts a block into slices of at most slice frames and rebases the events of each. */
  method CutBlock(events: array<Placed>, count: nat, frames: nat, slice: nat) returns (slices: seq<Slice>)
    requires count <= events.Length && slice > 0 && InOrder(events[..count]) && InBlock(events[..count], frames)
    modifies events
    ensures Tiles(slices, frames, count) && Rebased(slices, old(events[..count]), events[..count])
    ensures forall k :: 0 <= k < |slices| ==> slices[k].frames <= slice
  {
    ghost var before := events[..count];
    ghost var ev;
    slices, ev := CutSlices(events, count, frames, slice, before);
    AllCut(slices, frames, ev, slice, before, events[..count]);
  }

  /** The slice loop. */
  method CutSlices(events: array<Placed>, count: nat, frames: nat, slice: nat, ghost before: seq<Placed>)
    returns (slices: seq<Slice>, ghost ev: nat)
    requires count <= events.Length && slice > 0 && InOrder(before) && InBlock(before, frames)
    requires before == events[..count]
    modifies events
    ensures CutSoFar(slices, frames, ev, slice, before, events[..count])
  {
    slices := [];
    var start: nat, next: nat := 0, 0;
    while start < frames
      invariant start <= frames && CutSoFar(slices, start, next, slice, before, events[..count])
      decreases frames - start
    {
      var n := if slice < frames - start then slice else frames - start;
      var end := RebaseSlice(events, count, next, start, n, slices, slice, before);
      slices := slices + [Slice(start, n, next, end)];
      start, next := start + n, end;
    }
    ev := next;
  }

  lemma {:induction false} AllCut(slices: seq<Slice>, frames: nat, ev: nat, slice: nat, before: seq<Placed>,
                                  after: seq<Placed>)
    requires CutSoFar(slices, frames, ev, slice, before, after)
    ensures InBlock(before, frames) ==> ev == |before|
  {
    if ev < |before| { assert frames <= before[ev].sampleOffset; }
  }

  /** The block is cut up to start, its events up to ev; the rest are as they were. */
  predicate CutSoFar(slices: seq<Slice>, start: nat, ev: nat, slice: nat, before: seq<Placed>, after: seq<Placed>) {
    && |before| == |after| && ev <= |before| && (start == 0 ==> ev == 0)
    && Tiles(slices, start, ev) && Rebased(slices, before, after)
    && (forall k :: 0 <= k < |slices| ==> slices[k].frames <= slice)
    && (forall i :: ev <= i < |before| ==> after[i] == before[i] && start <= before[i].sampleOffset)
  }

  /** Rebases the events of one slice and says where they end. */
  method RebaseSlice(events: array<Placed>, count: nat, ev: nat, start: nat, n: nat, ghost slices: seq<Slice>,
                     ghost slice: nat, ghost before: seq<Placed>) returns (end: nat)
    requires count <= events.Length && InOrder(before) && 0 < n <= slice
    requires CutSoFar(slices, start, ev, slice, before, events[..count])
    modifies events
    ensures CutSoFar(slices + [Slice(start, n, ev, end)], start + n, end, slice, before, events[..count])
  {
    ghost var earlier := events[..count];
    end := MoveEvents(events, count, ev, start, n, before);
    TilesMore(slices, start, ev, n, end);
    RebasedStays(slices, start, ev, before, earlier, events[..count]);
    RebasedMore(slices, Slice(start, n, ev, end), before, events[..count]);
  }

  /** Shifts the events before start + n back by start. */
  method MoveEvents(events: array<Placed>, count: nat, ev: nat, start: nat, n: nat, ghost before: seq<Placed>)
    returns (end: nat)
    requires ev <= count <= events.Length && |before| == count && InOrder(before)
    requires forall i :: ev <= i < count ==> events[i] == before[i] && start <= before[i].sampleOffset
    modifies events
    ensures ev <= end <= count
    ensures forall i :: 0 <= i < events.Length && !(ev <= i < end) ==> events[i] == old(events[i])
    ensures forall i :: ev <= i < end ==>
              && 0 <= events[i].sampleOffset < n && events[i].sampleOffset + start == before[i].sampleOffset
              && events[i].payload == before[i].payload
    ensures forall i :: end <= i < count ==> start + n <= before[i].sampleOffset
  {
    end := ev;
    while end < count && events[end].sampleOffset < start + n
      invariant ev <= end <= count
      invariant forall i :: 0 <= i < events.Length && !(ev <= i < end) ==> events[i] == old(events[i])
      invariant forall i :: ev <= i < end ==>
                  && 0 <= events[i].sampleOffset < n && events[i].sampleOffset + start == before[i].sampleOffset
                  && events[i].payload == before[i].payload
    {
      events[end] := events[end].(sampleOffset := events[end].sampleOffset - start);
      end := end + 1;
    }
  }

  lemma {:induction false} TilesMore(slices: seq<Slice>, start: nat, ev: nat, n: nat, end: nat)
    requires Tiles(slices, start, ev) && n > 0 && ev <= end
    ensures Tiles(slices + [Slice(start, n, ev, end)], start + n, end)
  {}

  /** Later slices do not touch the events of earlier ones. */
  lemma {:induction false} RebasedStays(slices: seq<Slice>, start: nat, ev: nat, before: seq<Placed>,
                                        earlier: seq<Placed>, after: seq<Placed>)
    requires |before| == |earlier| == |after| && Tiles(slices, start, ev) && Rebased(slices, before, earlier)
    requires forall i :: 0 <= i < ev && i < |after| ==> after[i] == earlier[i]
    ensures Rebased(slices, before, after)
  {}

  lemma {:induction false} RebasedMore(slices: seq<Slice>, s: Slice, before: seq<Placed>, after: seq<Placed>)
    requires |before| == |after| && Rebased(slices, before, after)
    requires forall i :: s.first <= i < s.end && i < |before| ==>
               && 0 <= after[i].sampleOffset < s.frames && after[i].sampleOffset + s.start == before[i].sampleOffset
               && after[i].payload == before[i].payload
    ensures Rebased(slices + [s], before, after)
  {}

  /** Every event falls in exactly one slice. */
  lemma {:induction false} ExactlyOneSlice(slices: seq<Slice>, frames: nat, count: nat, i: nat) returns (k: nat)
    requires Tiles(slices, frames, count) && i < count
    ensures k < |slices| && slices[k].first <= i < slices[k].end
    ensures forall j :: 0 <= j < |slices| && slices[j].first <= i < slices[j].end ==> j == k
  {
    k := 0;
    while slices[k].end <= i
      invariant k < |slices| && slices[k].first <= i
      invariant forall j :: 0 <= j < k ==> slices[j].end <= i
      decreases |slices| - k
    {
      var next := k + 1;
      assert next < |slices| ==> slices[next].first == slices[k].end;
      k := next;
    }
    forall j | k < j < |slices| ensures i < slices[j].first {
      LaterSlicesStartLater(slices, frames, count, k, j);
    }
  }

  lemma {:induction false} LaterSlicesStartLater(slices: seq<Slice>, frames: nat, count: nat, k: nat, j: nat)
    requires Tiles(slices, frames, count) && k < j < |slices|
    ensures slices[k].end <= slices[j].first
  {
    var before := j - 1;
    assert slices[j].first == slices[before].end;
    if k < before { LaterSlicesStartLater(slices, frames, count, k, before); }
  }

  // ---- the bypass fade -------------------------------------------------------------------------

  /** One frame of the fade. */
  function NextGain(gain: real, target: real, step: real): real {
    if target > gain then (if target < gain + step then target else gain + step)
    else (if target > gain - step then target else gain - step)
  }

  function GainAfter(gain: real, target: real, step: real, frames: nat): real {
    if frames == 0 then gain else NextGain(GainAfter(gain, target, step, frames - 1), target, step)
  }

  /** A channel with the fade laid over it. */
  function Faded(out: seq<real>, gain: real, target: real, step: real): (r: seq<real>)
    ensures |r| == |out|
  {
    if out == [] then []
    else
      var n := |out| - 1;
      Faded(out[..n], gain, target, step) + [Product(out[n], GainAfter(gain, target, step, n + 1))]
  }

  lemma {:induction false} GainsCompose(gain: real, target: real, step: real, m: nat, n: nat)
    ensures GainAfter(gain, target, step, m + n) == GainAfter(GainAfter(gain, target, step, m), target, step, n)
  {
    if n > 0 { GainsCompose(gain, target, step, m, n - 1); }
  }

  /** Fading a block slice by slice is fading it whole: the gains do not depend on where
      it is cut. */
  lemma {:induction false} SlicingKeepsTheFade(a: seq<real>, b: seq<real>, gain: real, target: real, step: real)
    ensures Faded(a + b, gain, target, step)
         == Faded(a, gain, target, step) + Faded(b, GainAfter(gain, target, step, |a|), target, step)
    ensures GainAfter(gain, target, step, |a| + |b|) == GainAfter(GainAfter(gain, target, step, |a|), target, step, |b|)
  {
    GainsCompose(gain, target, step, |a|, |b|);
    if b == [] {
      assert a + b == a;
    } else {
      var n := |b| - 1;
      SlicingKeepsTheFade(a, b[..n], gain, target, step);
      FadedMore(a + b[..n], b[n], gain, target, step);
      assert a + b == a + b[..n] + [b[n]];
    }
  }

  lemma {:induction false} FadedMore(out: seq<real>, x: real, gain: real, target: real, step: real)
    ensures Faded(out + [x], gain, target, step)
         == Faded(out, gain, target, step) + [Product(x, GainAfter(gain, target, step, |out| + 1))]
  {
    assert (out + [x])[..|out|] == out;
  }

  lemma {:induction false} FadedStays(gain: real, step: real, frames: nat)
    requires step >= 0.0
    ensures GainAfter(gain, gain, step, frames) == gain
  {
    if frames > 0 { FadedStays(gain, step, frames - 1); }
  }

  function Distance(gain: real, target: real): real { if gain < target then target - gain else gain - target }

  function Ramp(step: real, frames: nat): real { if frames == 0 then 0.0 else Ramp(step, frames - 1) + step }

  /** The fade only ever approaches its target, by a step a frame, and never overshoots. */
  lemma {:induction false} FadeApproaches(gain: real, target: real, step: real, frames: nat)
    requires step >= 0.0
    ensures var d := Distance(gain, target) - Ramp(step, frames);
            Distance(GainAfter(gain, target, step, frames), target) == if d > 0.0 then d else 0.0
  {
    if frames > 0 { FadeApproaches(gain, target, step, frames - 1); }
  }

  lemma {:induction false} FadedAt(s: seq<real>, gain: real, target: real, step: real, i: nat)
    requires i < |s|
    ensures Faded(s, gain, target, step)[i] == Product(s[i], GainAfter(gain, target, step, i + 1))
  {
    if i < |s| - 1 { FadedAt(s[..|s| - 1], gain, target, step, i); }
  }

  /** At a target a fade leaves a sample as it is, or silences it. */
  lemma {:induction false} AtRest(x: real, gain: real, step: real, frames: nat)
    requires step >= 0.0 && (gain == 0.0 || gain == 1.0)
    ensures Product(x, GainAfter(gain, gain, step, frames)) == if gain == 0.0 then 0.0 else x
  {
    FadedStays(gain, step, frames);
  }

  /** The frames of one channel. */
  function Channel(out: array2<real>, c: nat): (r: seq<real>)
    requires c < out.Length0
    reads out
    ensures |r| == out.Length1 && forall i :: 0 <= i < |r| ==> r[i] == out[c, i]
  {
    seq(out.Length1, i requires 0 <= i < out.Length1 reads out => out[c, i])
  }

  /** Lays the fade over the channels in place, the same gain for all of a frame; at rest
      it leaves them or silences them. */
  method ApplyBypass(out: array2<real>, gain: real, bypassed: bool, step: real) returns (newGain: real)
    requires step >= 0.0
    modifies out
    ensures var target := if bypassed then 0.0 else 1.0;
            && newGain == GainAfter(gain, target, step, out.Length1)
            && forall c :: 0 <= c < out.Length0 ==> Channel(out, c) == Faded(old(Channel(out, c)), gain, target, step)
  {
    var target := if bypassed then 0.0 else 1.0;
    if gain == target {
      newGain := gain;
      FadedStays(gain, step, out.Length1);
      if target == 0.0 {
        Silence(out);
      }
      forall c, i | 0 <= c < out.Length0 && 0 <= i < out.Length1
        ensures out[c, i] == Product(old(out[c, i]), GainAfter(gain, target, step, i + 1))
      {
        AtRest(old(out[c, i]), gain, step, i + 1);
      }
    } else {
      newGain := FadeFrames(out, gain, target, step);
    }
    forall c | 0 <= c < out.Length0 ensures Channel(out, c) == Faded(old(Channel(out, c)), gain, target, step) {
      forall i | 0 <= i < out.Length1
        ensures Channel(out, c)[i] == Faded(old(Channel(out, c)), gain, target, step)[i]
      {
        FadedAt(old(Channel(out, c)), gain, target, step, i);
      }
    }
  }

  method Silence(out: array2<real>)
    modifies out
    ensures forall c, i :: 0 <= c < out.Length0 && 0 <= i < out.Length1 ==> out[c, i] == 0.0
  {
    for c := 0 to out.Length0
      invariant forall d, i :: 0 <= d < c && 0 <= i < out.Length1 ==> out[d, i] == 0.0
    {
      for i := 0 to out.Length1
        invariant forall d, j :: 0 <= d < c && 0 <= j < out.Length1 ==> out[d, j] == 0.0
        invariant forall j :: 0 <= j < i ==> out[c, j] == 0.0
      {
        out[c, i] := 0.0;
      }
    }
  }

  method FadeFrames(out: array2<real>, gain: real, target: real, step: real) returns (newGain: real)
    modifies out
    ensures newGain == GainAfter(gain, target, step, out.Length1)
    ensures forall c, i :: 0 <= c < out.Length0 && 0 <= i < out.Length1 ==>
              out[c, i] == Product(old(out[c, i]), GainAfter(gain, target, step, i + 1))
  {
    newGain := gain;
    for i := 0 to out.Length1
      invariant newGain == GainAfter(gain, target, step, i)
      invariant forall c, j :: 0 <= c < out.Length0 && 0 <= j < i ==>
                  out[c, j] == Product(old(out[c, j]), GainAfter(gain, target, step, j + 1))
      invariant forall c, j :: 0 <= c < out.Length0 && i <= j < out.Length1 ==> out[c, j] == old(out[c, j])
    {
      newGain := NextGain(newGain, target, step);
      ScaleFrame(out, i, newGain);
    }
  }

  /** Multiplies one frame of every channel. */
  method ScaleFrame(out: array2<real>, i: nat, gain: real)
    requires i < out.Length1
    modifies out
    ensures forall c, j :: 0 <= c < out.Length0 && 0 <= j < out.Length1 ==>
              out[c, j] == if j == i then Product(old(out[c, j]), gain) else old(out[c, j])
  {
    for c := 0 to out.Length0
      invariant forall d, j :: 0 <= d < out.Length0 && 0 <= j < out.Length1 ==>
                  out[d, j] == if d < c && j == i then Product(old(out[d, j]), gain) else old(out[d, j])
    {
      out[c, i] := Product(out[c, i], gain);
    }
  }
}
