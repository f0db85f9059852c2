// Which of several equally urgent events a full event buffer gives up: the order in which
// they were pushed, whatever numbers they carry.
module EventArrivals {
  import opened Basics
  import opened EventBuffers
  import opened Orders

  /** A push that takes the place of a held event. */
  predicate Replaces(capacity: nat, s: State, ev: TimedEvent) {
    && |s.events| >= capacity && s.events != []
    && Priority(ev.kind) < Priority(s.events[Worst(s.events)].kind)
  }

  /** The place in the run of each held event after the n-th push, from those before it. */
  function PlacesAfter(capacity: nat, s: State, places: seq<nat>, n: nat, ev: TimedEvent): seq<nat>
    requires |places| == |s.events|
  {
    if |s.events| < capacity then places + [n]
    else if Replaces(capacity, s, ev) then places[Worst(s.events) := n]
    else places
  }

  /** For each held event of a run, which push it was. */
  function Places(capacity: nat, pushed: seq<TimedEvent>): (r: seq<nat>)
    ensures |r| == |Run(capacity, pushed).events|
  {
    if pushed == [] then []
    else
      var n := |pushed| - 1;
      PlacesAfter(capacity, Run(capacity, pushed[..n]), Places(capacity, pushed[..n]), n, pushed[n])
  }

  /** places says which of the pushes the held events are. */
  ghost predicate Tracks(capacity: nat, pushed: seq<TimedEvent>, held: seq<TimedEvent>, places: seq<nat>) {
    && |places| == |held| == Min(|pushed|, capacity)
    && InRange(places, |pushed|) && Distinct(places)
    && forall k :: 0 <= k < |places| ==> held[k] == pushed[places[k]]
  }

  lemma {:induction false} AppendTracks(capacity: nat, pushed: seq<TimedEvent>, held: seq<TimedEvent>,
                                        places: seq<nat>, ev: TimedEvent)
    requires Tracks(capacity, pushed, held, places) && |held| < capacity
    ensures Tracks(capacity, pushed + [ev], held + [ev], places + [|pushed|])
  {}

  lemma {:induction false} ReplaceTracks(capacity: nat, pushed: seq<TimedEvent>, held: seq<TimedEvent>,
                                         places: seq<nat>, w: nat, ev: TimedEvent)
    requires Tracks(capacity, pushed, held, places) && |held| >= capacity && w < |held|
    ensures Tracks(capacity, pushed + [ev], held[w := ev], places[w := |pushed|])
  {}

  lemma {:induction false} RefuseTracks(capacity: nat, pushed: seq<TimedEvent>, held: seq<TimedEvent>,
                                        places: seq<nat>, ev: TimedEvent)
    requires Tracks(capacity, pushed, held, places) && |held| >= capacity
    ensures Tracks(capacity, pushed + [ev], held, places)
  {}

  lemma {:induction false} PushTracks(capacity: nat, pushed: seq<TimedEvent>, s: State, places: seq<nat>,
                                      ev: TimedEvent)
    requires Tracks(capacity, pushed, s.events, places)
    ensures Tracks(capacity, pushed + [ev], Push(capacity, s, ev).0.events,
                   PlacesAfter(capacity, s, places, |pushed|, ev))
  {
    if |s.events| < capacity {
      AppendTracks(capacity, pushed, s.events, places, ev);
    } else if Replaces(capacity, s, ev) {
      ReplaceTracks(capacity, pushed, s.events, places, Worst(s.events), ev);
    } else {
      RefuseTracks(capacity, pushed, s.events, places, ev);
    }
  }

  lemma {:induction false} RunTracks(capacity: nat, pushed: seq<TimedEvent>)
    ensures Tracks(capacity, pushed, Run(capacity, pushed).events, Places(capacity, pushed))
  {
    if pushed != [] {
      var n := |pushed| - 1;
      RunTracks(capacity, pushed[..n]);
      PushTracks(capacity, pushed[..n], Run(capacity, pushed[..n]), Places(capacity, pushed[..n]), pushed[n]);
      assert pushed[..n] + [pushed[n]] == pushed;
    }
  }

  // ---- selection by arrival -----------------------------------------------------------

  /** More urgent, or as urgent and pushed earlier. */
  predicate Precedes(pushed: seq<TimedEvent>, i: nat, j: nat)
    requires i < |pushed| && j < |pushed|
  {
    Priority(pushed[i].kind) < Priority(pushed[j].kind)
    || (Priority(pushed[i].kind) == Priority(pushed[j].kind) && i < j)
  }

  /** No push left out precedes one that is held. */
  ghost predicate ArrivalSelected(pushed: seq<TimedEvent>, places: seq<nat>)
    requires InRange(places, |pushed|)
  {
    forall i: nat, k :: i < |pushed| && i !in places && 0 <= k < |places| ==> !Precedes(pushed, i, places[k])
  }

  /** Of the held events as urgent as the w-th, that one was pushed last. */
  predicate IsLastPushed(pushed: seq<TimedEvent>, places: seq<nat>, w: nat)
    requires InRange(places, |pushed|) && w < |places|
  {
    forall k :: 0 <= k < |places| && Priority(pushed[places[k]].kind) == Priority(pushed[places[w]].kind) ==>
      places[k] <= places[w]
  }

  /** The other way round: that one was pushed first. */
  predicate IsFirstPushed(pushed: seq<TimedEvent>, places: seq<nat>, w: nat)
    requires InRange(places, |pushed|) && w < |places|
  {
    forall k :: 0 <= k < |places| && Priority(pushed[places[k]].kind) == Priority(pushed[places[w]].kind) ==>
      places[w] <= places[k]
  }

  /** One push on a buffer selected by arrival, of any event after any events: it stays so
      if and only if the push replaces nothing, or what it replaces is the last pushed of
      the least urgent held. */
  lemma {:induction false} PushKeepsArrivalIff(capacity: nat, pushed: seq<TimedEvent>, s: State, places: seq<nat>,
                                               ev: TimedEvent)
    requires Tracks(capacity, pushed, s.events, places) && ArrivalSelected(pushed, places)
    ensures InRange(PlacesAfter(capacity, s, places, |pushed|, ev), |pushed| + 1)
    ensures ArrivalSelected(pushed + [ev], PlacesAfter(capacity, s, places, |pushed|, ev)) <==>
            !Replaces(capacity, s, ev) || IsLastPushed(pushed, places, Worst(s.events))
  {
    PushTracks(capacity, pushed, s, places, ev);
    if |s.events| < capacity {
      RoomLeavesNothingOut(pushed, places);
      RoomLeavesNothingOut(pushed + [ev], places + [|pushed|]);
    } else if s.events != [] {
      LeastUrgentIsWorst(s.events);
      if Replaces(capacity, s, ev) {
        ReplacingKeepsArrivalIff(capacity, pushed, s.events, places, Worst(s.events), ev);
      } else {
        RefusingKeepsArrival(capacity, pushed, s.events, places, Worst(s.events), ev);
      }
    }
  }

  /** So many distinct places below a number are all of them. */
  lemma {:induction false} RoomLeavesNothingOut(pushed: seq<TimedEvent>, places: seq<nat>)
    requires InRange(places, |pushed|) && Distinct(places) && |places| == |pushed|
    ensures forall i: nat :: i < |pushed| ==> i in places
  {
    forall i: nat | i < |pushed| ensures i in places { OrderCovers(places, |pushed|, i); }
  }

  lemma {:induction false} LeastUrgentIsWorst(events: seq<TimedEvent>)
    requires events != []
    ensures forall k :: 0 <= k < |events| ==> Priority(events[k].kind) <= Priority(events[Worst(events)].kind)
  {
    WorstIsWorst(events);
  }

  lemma {:induction false} RefusingKeepsArrival(capacity: nat, pushed: seq<TimedEvent>, held: seq<TimedEvent>,
                                                places: seq<nat>, w: nat, ev: TimedEvent)
    requires Tracks(capacity, pushed, held, places) && ArrivalSelected(pushed, places) && w < |held|
    requires forall k :: 0 <= k < |held| ==> Priority(held[k].kind) <= Priority(held[w].kind)
    requires Priority(ev.kind) >= Priority(held[w].kind)
    ensures ArrivalSelected(pushed + [ev], places)
  {
    var all := pushed + [ev];
    forall i: nat, k | i < |all| && i !in places && 0 <= k < |places| ensures !Precedes(all, i, places[k]) {
      if i < |pushed| { assert !Precedes(pushed, i, places[k]); }
    }
  }

  lemma {:induction false} ReplacingKeepsArrivalIff(capacity: nat, pushed: seq<TimedEvent>, held: seq<TimedEvent>,
                                                    places: seq<nat>, w: nat, ev: TimedEvent)
    requires Tracks(capacity, pushed, held, places) && ArrivalSelected(pushed, places) && w < |held|
    requires forall k :: 0 <= k < |held| ==> Priority(held[k].kind) <= Priority(held[w].kind)
    requires Priority(ev.kind) < Priority(held[w].kind)
    ensures InRange(places[w := |pushed|], |pushed| + 1)
    ensures ArrivalSelected(pushed + [ev], places[w := |pushed|]) <==> IsLastPushed(pushed, places, w)
  {
    var all, places', n := pushed + [ev], places[w := |pushed|], |pushed|;
    if IsLastPushed(pushed, places, w) {
      forall i: nat, k | i < |all| && i !in places' && 0 <= k < |places'| ensures !Precedes(all, i, places'[k]) {
        assert places'[w] == n;
        LeftOutBefore(places, w, n, i);
        if i != places[w] { assert !Precedes(pushed, i, places[w]) && !Precedes(pushed, i, places[k]); }
      }
    } else {
      var k :| 0 <= k < |places| && Priority(pushed[places[k]].kind) == Priority(pushed[places[w]].kind)
               && places[k] > places[w];
      assert places'[k] == places[k] && places[w] !in places';
      assert Precedes(all, places[w], places'[k]);
    }
  }

  lemma {:induction false} LeftOutBefore(places: seq<nat>, w: nat, n: nat, i: nat)
    requires w < |places| && i !in places[w := n]
    ensures i == places[w] || i !in places
  {
    forall k | 0 <= k < |places| && k != w ensures places[k] != i { assert places[w := n][k] == places[k]; }
  }

  // ---- runs of notes with one number -------------------------------------------------------

  /** Note-ons and note-offs that all carry the same number, as those of the sequencer do. */
  predicate IsNoteRun(events: seq<TimedEvent>, number: nat) {
    forall x :: x in events ==> (x.kind == NoteOn || x.kind == NoteOff) && x.rawOrder == number
  }

  function OfKind(kind: EventKind): TimedEvent -> bool { (e: TimedEvent) => e.kind == kind }

  /** In such a buffer the worst event is the first of the note-ons, if there are any. */
  lemma {:induction false} WorstOfNotes(events: seq<TimedEvent>, number: nat)
    requires IsNoteRun(events, number) && events != []
    ensures var w := Worst(events);
            && (events[w].kind == NoteOn ==> forall k :: 0 <= k < w ==> events[k].kind == NoteOff)
            && (events[w].kind == NoteOff ==> forall k :: 0 <= k < |events| ==> events[k].kind == NoteOff)
  {
    WorstIsWorst(events);
    var w := Worst(events);
    forall k | 0 <= k < |events| ensures k < w ==> Before(events[k], events[w]) { assert events[k] in events; }
    assert events[w] in events;
  }

  /** How many of the events that fill the buffer are note-ons. */
  function EarlyOns(capacity: nat, pushed: seq<TimedEvent>): nat {
    Count(pushed[..Min(capacity, |pushed|)], OfKind(NoteOn))
  }

  /** How many note-offs come after the buffer is full. */
  function LateOffs(capacity: nat, pushed: seq<TimedEvent>): nat {
    Count(pushed[Min(capacity, |pushed|)..], OfKind(NoteOff))
  }

  /** What a full buffer of such a run looks like: the note-offs that came late stand in the
      places of the first note-ons, everything else where it was pushed. */
  ghost predicate NotesStand(capacity: nat, pushed: seq<TimedEvent>, held: seq<TimedEvent>, places: seq<nat>) {
    && capacity <= |pushed| && Tracks(capacity, pushed, held, places)
    && (forall k :: 0 <= k < capacity ==> places[k] == k || (places[k] >= capacity && held[k].kind == NoteOff))
    && (forall j, k :: 0 <= j < k < capacity && held[j].kind == NoteOn ==> places[k] == k)
    && (forall k :: 0 <= k < capacity && pushed[k].kind == NoteOff ==> places[k] == k)
    && OffsLeftOutLate(pushed, held, places)
  }

  /** A note-off is left out only when nothing but earlier note-offs is held. */
  ghost predicate OffsLeftOutLate(pushed: seq<TimedEvent>, held: seq<TimedEvent>, places: seq<nat>)
    requires |held| == |places|
  {
    forall i: nat, k :: i < |pushed| && i !in places && pushed[i].kind == NoteOff && 0 <= k < |places| ==>
      held[k].kind == NoteOff && places[k] < i
  }

  /** And how many note-ons it holds: each late note-off has taken one. */
  predicate OnsCounted(capacity: nat, pushed: seq<TimedEvent>, held: seq<TimedEvent>) {
    Count(held, OfKind(NoteOn)) ==
    EarlyOns(capacity, pushed) - Min(EarlyOns(capacity, pushed), LateOffs(capacity, pushed))
  }

  lemma {:induction false} RefusedNoteStands(capacity: nat, pushed: seq<TimedEvent>, held: seq<TimedEvent>,
                                             places: seq<nat>, ev: TimedEvent)
    requires NotesStand(capacity, pushed, held, places)
    requires ev.kind == NoteOff ==> forall k :: 0 <= k < |held| ==> held[k].kind == NoteOff
    ensures NotesStand(capacity, pushed + [ev], held, places)
  {
    var all := pushed + [ev];
    forall i: nat, k | i < |all| && i !in places && all[i].kind == NoteOff && 0 <= k < |places|
      ensures held[k].kind == NoteOff && places[k] < i
    {
      if i < |pushed| { assert all[i] == pushed[i]; }
    }
  }

  lemma {:induction false} NoOffLeftOut(pushed: seq<TimedEvent>, held: seq<TimedEvent>, places: seq<nat>, w: nat)
    requires |held| == |places| && OffsLeftOutLate(pushed, held, places) && w < |held| && held[w].kind != NoteOff
    ensures forall i: nat :: i < |pushed| && i !in places ==> pushed[i].kind != NoteOff
  {}

  lemma {:induction false} TakenNoteStands(capacity: nat, pushed: seq<TimedEvent>, held: seq<TimedEvent>,
                                           places: seq<nat>, w: nat, ev: TimedEvent)
    requires NotesStand(capacity, pushed, held, places) && w < |held| && held[w].kind == NoteOn
    requires ev.kind == NoteOff && forall k :: 0 <= k < w ==> held[k].kind == NoteOff
    ensures NotesStand(capacity, pushed + [ev], held[w := ev], places[w := |pushed|])
  {
    var all, places' := pushed + [ev], places[w := |pushed|];
    assert places[w] == w && pushed[w].kind == NoteOn;
    NoOffLeftOut(pushed, held, places, w);
    forall i: nat | i < |all| && i !in places' ensures all[i].kind != NoteOff {
      assert places'[w] == |pushed|;
      LeftOutBefore(places, w, |pushed|, i);
    }
  }

  lemma {:induction false} CountsAfterFull(capacity: nat, pushed: seq<TimedEvent>, ev: TimedEvent)
    requires capacity <= |pushed|
    ensures EarlyOns(capacity, pushed + [ev]) == EarlyOns(capacity, pushed)
    ensures LateOffs(capacity, pushed + [ev]) == LateOffs(capacity, pushed) + if ev.kind == NoteOff then 1 else 0
  {
    var all := pushed + [ev];
    assert all[..capacity] == pushed[..capacity];
    assert all[capacity..] == pushed[capacity..] + [ev];
    CountMore(pushed[capacity..], ev, OfKind(NoteOff));
  }

  lemma {:induction false} PushTakes(capacity: nat, pushed: seq<TimedEvent>, s: State, places: seq<nat>,
                                     ev: TimedEvent, w: nat)
    requires NotesStand(capacity, pushed, s.events, places) && OnsCounted(capacity, pushed, s.events)
    requires w < |s.events| && w == Worst(s.events) && s.events[w].kind == NoteOn && ev.kind == NoteOff
    requires forall k :: 0 <= k < w ==> s.events[k].kind == NoteOff
    ensures NotesStand(capacity, pushed + [ev], Push(capacity, s, ev).0.events,
                       PlacesAfter(capacity, s, places, |pushed|, ev))
    ensures OnsCounted(capacity, pushed + [ev], Push(capacity, s, ev).0.events)
  {
    TakenNoteStands(capacity, pushed, s.events, places, w, ev);
    CountsAfterFull(capacity, pushed, ev);
    CountUpdate(s.events, w, ev, OfKind(NoteOn));
    assert s.events[w] in s.events;
    MemberCounts(s.events, s.events[w], OfKind(NoteOn));
  }

  lemma {:induction false} PushRefuses(capacity: nat, pushed: seq<TimedEvent>, s: State, places: seq<nat>,
                                       ev: TimedEvent)
    requires NotesStand(capacity, pushed, s.events, places) && OnsCounted(capacity, pushed, s.events)
    requires !Replaces(capacity, s, ev)
    requires ev.kind == NoteOff ==> forall k :: 0 <= k < |s.events| ==> s.events[k].kind == NoteOff
    ensures NotesStand(capacity, pushed + [ev], Push(capacity, s, ev).0.events,
                       PlacesAfter(capacity, s, places, |pushed|, ev))
    ensures OnsCounted(capacity, pushed + [ev], Push(capacity, s, ev).0.events)
  {
    RefusedNoteStands(capacity, pushed, s.events, places, ev);
    CountsAfterFull(capacity, pushed, ev);
    if ev.kind == NoteOff { NoneCounts(s.events, OfKind(NoteOn)); }
  }

  /** One more note on a full buffer. */
  lemma {:induction false} NoteKeepsStanding(capacity: nat, pushed: seq<TimedEvent>, s: State, places: seq<nat>,
                                             ev: TimedEvent, number: nat)
    requires NotesStand(capacity, pushed, s.events, places) && OnsCounted(capacity, pushed, s.events)
    requires (ev.kind == NoteOn || ev.kind == NoteOff) && IsNoteRun(s.events, number)
    ensures NotesStand(capacity, pushed + [ev], Push(capacity, s, ev).0.events,
                       PlacesAfter(capacity, s, places, |pushed|, ev))
    ensures OnsCounted(capacity, pushed + [ev], Push(capacity, s, ev).0.events)
  {
    if s.events != [] {
      WorstOfNotes(s.events, number);
      assert s.events[Worst(s.events)] in s.events;
    }
    if s.events != [] && ev.kind == NoteOff && s.events[Worst(s.events)].kind == NoteOn {
      PushTakes(capacity, pushed, s, places, ev, Worst(s.events));
    } else {
      PushRefuses(capacity, pushed, s, places, ev);
    }
  }

  lemma {:induction false} HeldArePushed(capacity: nat, pushed: seq<TimedEvent>, number: nat)
    requires IsNoteRun(pushed, number)
    ensures IsNoteRun(Run(capacity, pushed).events, number)
  {
    RunTracks(capacity, pushed);
    var held, places := Run(capacity, pushed).events, Places(capacity, pushed);
    forall x | x in held ensures x in pushed {
      var k :| 0 <= k < |held| && held[k] == x;
      assert pushed[places[k]] == x;
    }
  }

  lemma {:induction false} PlacesMore(capacity: nat, pushed: seq<TimedEvent>, ev: TimedEvent)
    ensures Places(capacity, pushed + [ev]) ==
            PlacesAfter(capacity, Run(capacity, pushed), Places(capacity, pushed), |pushed|, ev)
  {
    assert (pushed + [ev])[..|pushed|] == pushed;
  }

  lemma {:induction false} PlacesWithRoom(capacity: nat, pushed: seq<TimedEvent>, ev: TimedEvent)
    requires |pushed| < capacity
    ensures Places(capacity, pushed + [ev]) == Places(capacity, pushed) + [|pushed|]
  {
    RunTracks(capacity, pushed);
    PlacesMore(capacity, pushed, ev);
  }

  /** While they fit every event stands where it was pushed. */
  lemma {:induction false} PlacesInOrder(capacity: nat, pushed: seq<TimedEvent>)
    requires |pushed| <= capacity
    ensures |Places(capacity, pushed)| == |pushed|
    ensures forall k :: 0 <= k < |pushed| ==> Places(capacity, pushed)[k] == k
  {
    if pushed != [] {
      var front, last := pushed[..|pushed| - 1], pushed[|pushed| - 1];
      assert pushed == front + [last];
      PlacesInOrder(capacity, front);
      PlacesWithRoom(capacity, front, last);
    }
  }

  lemma {:induction false} NotesStandAtFirst(capacity: nat, pushed: seq<TimedEvent>)
    requires |pushed| == capacity
    ensures NotesStand(capacity, pushed, Run(capacity, pushed).events, Places(capacity, pushed))
    ensures OnsCounted(capacity, pushed, Run(capacity, pushed).events)
  {
    RunTracks(capacity, pushed);
    RunHoldsAll(capacity, pushed);
    PlacesInOrder(capacity, pushed);
    assert pushed[..capacity] == pushed && pushed[capacity..] == [];
    RoomLeavesNothingOut(pushed, Places(capacity, pushed));
  }

  lemma {:induction false} NotesStandMore(capacity: nat, pushed: seq<TimedEvent>, ev: TimedEvent, number: nat)
    requires IsNoteRun(pushed, number) && (ev.kind == NoteOn || ev.kind == NoteOff)
    requires NotesStand(capacity, pushed, Run(capacity, pushed).events, Places(capacity, pushed))
    requires OnsCounted(capacity, pushed, Run(capacity, pushed).events)
    ensures NotesStand(capacity, pushed + [ev], Run(capacity, pushed + [ev]).events, Places(capacity, pushed + [ev]))
    ensures OnsCounted(capacity, pushed + [ev], Run(capacity, pushed + [ev]).events)
  {
    RunMore(capacity, pushed, ev);
    PlacesMore(capacity, pushed, ev);
    HeldArePushed(capacity, pushed, number);
    NoteKeepsStanding(capacity, pushed, Run(capacity, pushed), Places(capacity, pushed), ev, number);
  }

  lemma {:induction false} NotesStandInRun(capacity: nat, pushed: seq<TimedEvent>, number: nat)
    requires IsNoteRun(pushed, number) && capacity <= |pushed|
    ensures NotesStand(capacity, pushed, Run(capacity, pushed).events, Places(capacity, pushed))
    ensures OnsCounted(capacity, pushed, Run(capacity, pushed).events)
    decreases |pushed|
  {
    if |pushed| == capacity {
      NotesStandAtFirst(capacity, pushed);
    } else {
      var front, ev := pushed[..|pushed| - 1], pushed[|pushed| - 1];
      assert pushed == front + [ev] && ev in pushed;
      NotesStandInRun(capacity, front, number);
      NotesStandMore(capacity, front, ev, number);
    }
  }

  lemma {:induction false} FewerCount(s: seq<TimedEvent>, t: seq<TimedEvent>, p: TimedEvent -> bool)
    requires |s| == |t| && forall k :: 0 <= k < |s| ==> p(s[k]) ==> p(t[k])
    ensures Count(s, p) <= Count(t, p)
  {
    if s != [] { FewerCount(s[..|s| - 1], t[..|s| - 1], p); }
  }

  lemma {:induction false} LessCount(s: seq<TimedEvent>, t: seq<TimedEvent>, p: TimedEvent -> bool, i: nat)
    requires |s| == |t| && forall k :: 0 <= k < |s| ==> p(s[k]) ==> p(t[k])
    requires i < |s| && !p(s[i]) && p(t[i])
    ensures Count(s, p) < Count(t, p)
  {
    var n := |s| - 1;
    if i < n { LessCount(s[..n], t[..n], p, i); } else { FewerCount(s[..n], t[..n], p); }
  }

  /** A note-on of the first events is left out exactly when another stands in its place. */
  lemma {:induction false} LeftOutOfPlace(capacity: nat, pushed: seq<TimedEvent>, held: seq<TimedEvent>,
                                          places: seq<nat>, i: nat)
    requires NotesStand(capacity, pushed, held, places) && i < capacity
    ensures i !in places <==> places[i] >= capacity
  {}

  lemma {:induction false} StandingNotesSelectedIff(capacity: nat, pushed: seq<TimedEvent>, held: seq<TimedEvent>,
                                                    places: seq<nat>, number: nat)
    requires NotesStand(capacity, pushed, held, places) && OnsCounted(capacity, pushed, held)
    requires IsNoteRun(pushed, number)
    ensures ArrivalSelected(pushed, places) <==>
            LateOffs(capacity, pushed) == 0 || LateOffs(capacity, pushed) >= EarlyOns(capacity, pushed)
  {
    var a, b := EarlyOns(capacity, pushed), LateOffs(capacity, pushed);
    assert forall k :: 0 <= k < |held| ==> held[k] == pushed[places[k]] && held[k] in pushed;
    if b == 0 || b >= a {
      forall i: nat, k | i < |pushed| && i !in places && 0 <= k < |places| ensures !Precedes(pushed, i, places[k]) {
        assert pushed[i] in pushed;
        if pushed[i].kind == NoteOn && held[k].kind == NoteOn {
          NoteOnLeftOutLater(capacity, pushed, held, places, i, k);
        }
      }
    } else {
      NoteOnLost(capacity, pushed, held, places);
    }
  }

  lemma {:induction false} NoteOnLeftOutLater(capacity: nat, pushed: seq<TimedEvent>, held: seq<TimedEvent>,
                                              places: seq<nat>, i: nat, k: nat)
    requires NotesStand(capacity, pushed, held, places) && OnsCounted(capacity, pushed, held)
    requires LateOffs(capacity, pushed) == 0 || LateOffs(capacity, pushed) >= EarlyOns(capacity, pushed)
    requires i < |pushed| && i !in places && pushed[i].kind == NoteOn && k < |held| && held[k].kind == NoteOn
    ensures places[k] < i
  {
    MemberCounts(held, held[k], OfKind(NoteOn));
    if i < capacity { NoteOnReplaced(capacity, pushed, held, places, i); }
  }

  lemma {:induction false} NoteOnReplaced(capacity: nat, pushed: seq<TimedEvent>, held: seq<TimedEvent>,
                                          places: seq<nat>, i: nat)
    requires NotesStand(capacity, pushed, held, places) && i < capacity && i !in places && pushed[i].kind == NoteOn
    ensures Count(held, OfKind(NoteOn)) < EarlyOns(capacity, pushed)
  {
    LeftOutOfPlace(capacity, pushed, held, places, i);
    HeldOnsWereOns(capacity, pushed, held, places);
    LessCount(held, pushed[..capacity], OfKind(NoteOn), i);
  }

  lemma {:induction false} HeldOnsWereOns(capacity: nat, pushed: seq<TimedEvent>, held: seq<TimedEvent>,
                                          places: seq<nat>)
    requires NotesStand(capacity, pushed, held, places)
    ensures |held| == |pushed[..capacity]| == capacity
    ensures forall k :: 0 <= k < capacity ==> OfKind(NoteOn)(held[k]) ==> OfKind(NoteOn)(pushed[..capacity][k])
  {}

  lemma {:induction false} NoteOnLost(capacity: nat, pushed: seq<TimedEvent>, held: seq<TimedEvent>,
                                      places: seq<nat>)
    requires NotesStand(capacity, pushed, held, places) && OnsCounted(capacity, pushed, held)
    requires 0 < LateOffs(capacity, pushed) < EarlyOns(capacity, pushed)
    ensures !ArrivalSelected(pushed, places)
  {
    var k := LostOn(pushed[..capacity], held);
    var j := HeldOn(held);
    LeftOutOfPlace(capacity, pushed, held, places, k);
    assert Precedes(pushed, k, places[j]);
  }

  lemma {:induction false} LostOn(first: seq<TimedEvent>, held: seq<TimedEvent>) returns (k: nat)
    requires |first| == |held| && Count(held, OfKind(NoteOn)) < Count(first, OfKind(NoteOn))
    ensures k < |first| && first[k].kind == NoteOn && held[k].kind != NoteOn
  {
    if forall i :: 0 <= i < |first| ==> OfKind(NoteOn)(first[i]) ==> OfKind(NoteOn)(held[i]) {
      FewerCount(first, held, OfKind(NoteOn));
      assert false;
    }
    k :| 0 <= k < |first| && OfKind(NoteOn)(first[k]) && !OfKind(NoteOn)(held[k]);
  }

  lemma {:induction false} HeldOn(held: seq<TimedEvent>) returns (j: nat)
    requires Count(held, OfKind(NoteOn)) > 0
    ensures j < |held| && held[j].kind == NoteOn
  {
    if forall x :: x in held ==> !OfKind(NoteOn)(x) {
      NoneCounts(held, OfKind(NoteOn));
      assert false;
    }
    j :| 0 <= j < |held| && OfKind(NoteOn)(held[j]);
  }

  /** A run of note-ons and note-offs with one number, the sequencer's own: what it leaves in
      a buffer is selected by arrival if and only if no note-off came after the buffer was
      full, or as many came as there were note-ons in it. */
  lemma {:induction false} NotesKeepArrivalIff(capacity: nat, pushed: seq<TimedEvent>, number: nat)
    requires IsNoteRun(pushed, number)
    ensures InRange(Places(capacity, pushed), |pushed|)
    ensures ArrivalSelected(pushed, Places(capacity, pushed)) <==>
            LateOffs(capacity, pushed) == 0 || LateOffs(capacity, pushed) >= EarlyOns(capacity, pushed)
  {
    RunTracks(capacity, pushed);
    if |pushed| < capacity {
      RoomLeavesNothingOut(pushed, Places(capacity, pushed));
      assert pushed[|pushed|..] == [];
    } else {
      NotesStandInRun(capacity, pushed, number);
      StandingNotesSelectedIff(capacity, pushed, Run(capacity, pushed).events, Places(capacity, pushed), number);
    }
  }

  /** And each note-off that takes a place takes that of the note-on pushed first. */
  lemma {:induction false} NotesGiveUpTheFirst(capacity: nat, pushed: seq<TimedEvent>, ev: TimedEvent, number: nat)
    requires IsNoteRun(pushed, number) && (ev.kind == NoteOn || ev.kind == NoteOff)
    requires Replaces(capacity, Run(capacity, pushed), ev)
    ensures InRange(Places(capacity, pushed), |pushed|)
    ensures IsFirstPushed(pushed, Places(capacity, pushed), Worst(Run(capacity, pushed).events))
  {
    RunTracks(capacity, pushed);
    NotesStandInRun(capacity, pushed, number);
    HeldArePushed(capacity, pushed, number);
    FirstStandsFirst(capacity, pushed, Run(capacity, pushed).events, Places(capacity, pushed), number);
  }

  lemma {:induction false} FirstStandsFirst(capacity: nat, pushed: seq<TimedEvent>, held: seq<TimedEvent>,
                                            places: seq<nat>, number: nat)
    requires NotesStand(capacity, pushed, held, places) && IsNoteRun(held, number)
    requires held != [] && Priority(held[Worst(held)].kind) > Priority(NoteOff)
    ensures IsFirstPushed(pushed, places, Worst(held))
  {
    WorstOfNotes(held, number);
    forall k | 0 <= k < |held| ensures held[k] in held {}
  }

  // ---- other runs ------------------------------------------------------------------------

  /** Events are given up by their place in the buffer: with a less urgent event pushed
      before notes that fill it, the note pushed last stands first, and goes first. */
  lemma {:induction false} LastNoteStandsFirst(less: TimedEvent, notes: seq<TimedEvent>, urgent: TimedEvent)
    requires notes != [] && forall x :: x in notes ==> KeyOf(x) == KeyOf(notes[0])
    requires Priority(urgent.kind) < Priority(notes[0].kind) < Priority(less.kind)
    ensures Run(|notes|, [less] + notes + [urgent]).events == [urgent] + notes[..|notes| - 1]
  {
    var last, rest := notes[|notes| - 1], notes[..|notes| - 1];
    assert last in notes && notes[0] in notes && [less] + notes == [less] + rest + [last];
    assert forall x :: x in rest ==> x in notes;
    RunHoldsAll(|notes|, [less] + rest);
    LessUrgentIsWorst([less] + rest, KeyOf(last));
    FirstGoes([less] + rest, last, less, rest);
    AllOneKey(last, rest);
    FirstGoes([less] + notes, urgent, last, rest);
  }

  lemma {:induction false} AllOneKey(first: TimedEvent, rest: seq<TimedEvent>)
    requires forall x :: x in rest ==> KeyOf(x) == KeyOf(first)
    ensures Worst([first] + rest) == 0
  {
    FirstOfEqualsIsWorst([first] + rest);
  }

  lemma {:induction false} FirstGoes(pushed: seq<TimedEvent>, ev: TimedEvent, first: TimedEvent,
                                     rest: seq<TimedEvent>)
    requires Run(|rest| + 1, pushed).events == [first] + rest && Worst([first] + rest) == 0
    requires Priority(ev.kind) < Priority(first.kind)
    ensures Run(|rest| + 1, pushed + [ev]).events == [ev] + rest
  {
    RunMore(|rest| + 1, pushed, ev);
    ReplacesFirst(Run(|rest| + 1, pushed), ev, [first] + rest);
    assert ([first] + rest)[1..] == rest;
  }

  lemma {:induction false} LessUrgentIsWorst(events: seq<TimedEvent>, key: (nat, nat))
    requires events != [] && forall k :: 0 < k < |events| ==> KeyOf(events[k]) == key
    requires Priority(events[0].kind) > key.0
    ensures Worst(events) == 0
  {
    WorstIsWorst(events);
    assert !Before(events[0], events[Worst(events)]);
  }

  /** So it is in the least buffer the build accepts: a controller, 512 notes, a note-off. */
  lemma {:induction false} LastNoteIsLost()
    ensures var notes := FullOfNotes(_ => 0);
            Run(LEAST_CAPACITY, [TimedEvent(ControlChange, 0, 0)] + notes + [TimedEvent(NoteOff, 0, 0)]).events ==
            [TimedEvent(NoteOff, 0, 0)] + notes[..LEAST_CAPACITY - 1]
  {
    LastNoteStandsFirst(TimedEvent(ControlChange, 0, 0), FullOfNotes(_ => 0), TimedEvent(NoteOff, 0, 0));
  }
}
