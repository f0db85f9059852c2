// The fixed-capacity event buffer of a render block: when it is full it gives up its
// least urgent event for a more urgent one, and counts what is lost.
module EventBuffers {
  import opened Basics

  datatype EventKind =
    | NoteOn | NoteOff | PolyPressure | ControlChange | PitchBend | ChannelPressure | ProgramChange
    | ParameterSet | ParameterRamp | TransportChange | AllNotesOff | AllSoundOff | Panic

  /** rawOrder is the arrival number; payload stands for what is not looked at here. */
  datatype TimedEvent = TimedEvent(kind: EventKind, rawOrder: nat, payload: int)

  /** The least capacity the build accepts. */
  const LEAST_CAPACITY := 512

  /** Smaller is more urgent; a ramp ranks as the automation point it becomes. */
  function Priority(kind: EventKind): nat {
    match kind
    case Panic => 0
    case AllSoundOff => 1
    case AllNotesOff => 2
    case NoteOff => 3
    case ProgramChange => 6
    case TransportChange => 7
    case ParameterSet => 9
    case ParameterRamp => 9
    case NoteOn => 10
    case ControlChange => 11
    case PolyPressure => 12
    case ChannelPressure => 13
    case PitchBend => 14
  }

  /** The full order of urgency: what silences comes first, releases before attacks, and
      what shapes a note last; the two kinds of automation are one. */
  lemma {:induction false} OrderOfKinds()
    ensures Priority(Panic) < Priority(AllSoundOff) < Priority(AllNotesOff) < Priority(NoteOff)
    ensures Priority(NoteOff) < Priority(ProgramChange) < Priority(TransportChange) < Priority(ParameterSet)
    ensures Priority(ParameterSet) == Priority(ParameterRamp) < Priority(NoteOn) < Priority(ControlChange)
    ensures Priority(ControlChange) < Priority(PolyPressure) < Priority(ChannelPressure) < Priority(PitchBend)
  {}

  /** More urgent, or as urgent and earlier. */
  predicate Before(a: TimedEvent, b: TimedEvent) {
    Priority(a.kind) < Priority(b.kind) || (Priority(a.kind) == Priority(b.kind) && a.rawOrder < b.rawOrder)
  }

  // ---- telemetry ----------------------------------------------------------------------

  datatype DropClass = DropNoteOn | DropNoteOff | DropAutomation | DropController | DropTransport | DropPanic

  function ClassOf(kind: EventKind): DropClass {
    match kind
    case NoteOn => DropNoteOn
    case NoteOff => DropNoteOff
    case ParameterSet => DropAutomation
    case ParameterRamp => DropAutomation
    case ControlChange => DropController
    case PitchBend => DropController
    case ChannelPressure => DropController
    case PolyPressure => DropController
    case ProgramChange => DropController
    case TransportChange => DropTransport
    case AllNotesOff => DropPanic
    case AllSoundOff => DropPanic
    case Panic => DropPanic
  }

  /** The classes of the counters follow the order of urgency: each is one stretch of it,
      but that program changes count with the controllers. */
  lemma {:induction false} ClassesFollowUrgency(kind: EventKind)
    ensures ClassOf(kind) == DropPanic <==> Priority(kind) < Priority(NoteOff)
    ensures ClassOf(kind) == DropNoteOff <==> Priority(kind) == Priority(NoteOff)
    ensures ClassOf(kind) == DropTransport <==> Priority(kind) == Priority(TransportChange)
    ensures ClassOf(kind) == DropAutomation <==> Priority(kind) == Priority(ParameterSet)
    ensures ClassOf(kind) == DropNoteOn <==> Priority(kind) == Priority(NoteOn)
    ensures ClassOf(kind) == DropController <==> Priority(kind) > Priority(NoteOn) || kind == ProgramChange
  {}

  datatype Telemetry = Telemetry(
    droppedTotal: nat, replacedLowerPriority: nat, noteOn: nat, noteOff: nat, automation: nat,
    controller: nat, transport: nat, panic: nat, overflowed: bool)

  const NO_TELEMETRY := Telemetry(0, 0, 0, 0, 0, 0, 0, 0, false)

  function RecordDrop(t: Telemetry, kind: EventKind): Telemetry {
    var t' := t.(overflowed := true, droppedTotal := t.droppedTotal + 1);
    match ClassOf(kind)
    case DropNoteOn => t'.(noteOn := t.noteOn + 1)
    case DropNoteOff => t'.(noteOff := t.noteOff + 1)
    case DropAutomation => t'.(automation := t.automation + 1)
    case DropController => t'.(controller := t.controller + 1)
    case DropTransport => t'.(transport := t.transport + 1)
    case DropPanic => t'.(panic := t.panic + 1)
  }

  function RecordReplacement(t: Telemetry): Telemetry {
    t.(overflowed := true, replacedLowerPriority := t.replacedLowerPriority + 1)
  }

  function Dropped(t: Telemetry, class_: DropClass): nat {
    match class_
    case DropNoteOn => t.noteOn
    case DropNoteOff => t.noteOff
    case DropAutomation => t.automation
    case DropController => t.controller
    case DropTransport => t.transport
    case DropPanic => t.panic
  }

  // ---- the buffer as a value -----------------------------------------------------------

  datatype State = State(events: seq<TimedEvent>, telemetry: Telemetry)

  const EMPTY := State([], NO_TELEMETRY)

  predicate IsWorst(events: seq<TimedEvent>, w: nat) {
    && w < |events|
    && (forall i :: 0 <= i < w ==> Before(events[i], events[w]))
    && (forall i :: w < i < |events| ==> !Before(events[w], events[i]))
  }

  /** The first of the least urgent, latest events. */
  function Worst(events: seq<TimedEvent>): (w: nat)
    requires events != []
    ensures w < |events|
  {
    if |events| == 1 then 0
    else
      var n := |events| - 1;
      var w := Worst(events[..n]);
      if Before(events[w], events[n]) then n else w
  }

  /** Push on a buffer of the given capacity. */
  function Push(capacity: nat, s: State, ev: TimedEvent): (State, bool) {
    if |s.events| < capacity then (s.(events := s.events + [ev]), true)
    else if s.events != [] && Priority(ev.kind) < Priority(s.events[Worst(s.events)].kind) then
      var w := Worst(s.events);
      (State(s.events[w := ev], RecordReplacement(RecordDrop(s.telemetry, s.events[w].kind))), true)
    else (s.(telemetry := RecordDrop(s.telemetry, ev.kind)), false)
  }

  /** The answer of a push: whether the event is in the buffer now, one more of its like than
      before; refused it changes nothing but the counters. */
  lemma {:induction false} PushAnswers(capacity: nat, s: State, ev: TimedEvent)
    ensures var (s', held) := Push(capacity, s, ev);
            && multiset(s'.events)[ev] == multiset(s.events)[ev] + (if held then 1 else 0)
            && (!held ==> s'.events == s.events)
  {
    if |s.events| >= capacity && s.events != [] {
      var w := Worst(s.events);
      assert multiset(s.events[w := ev]) == multiset(s.events) - multiset{s.events[w]} + multiset{ev};
    }
  }

  /** Everything pushed since the last reset. */
  function Run(capacity: nat, pushed: seq<TimedEvent>): State {
    if pushed == [] then EMPTY
    else Push(capacity, Run(capacity, pushed[..|pushed| - 1]), pushed[|pushed| - 1]).0
  }

  // ---- offline selection ----------------------------------------------------------------

  function LeftOut(pushed: seq<TimedEvent>, held: seq<TimedEvent>): multiset<TimedEvent> {
    multiset(pushed) - multiset(held)
  }

  /** held are the capacity least of pushed: as many as fit, each as often at most as it
      was pushed, and nothing left out comes before anything held. */
  ghost predicate IsSelection(capacity: nat, pushed: seq<TimedEvent>, held: seq<TimedEvent>) {
    && |held| == Min(|pushed|, capacity)
    && multiset(held) <= multiset(pushed)
    && forall x, y :: x in LeftOut(pushed, held) && y in held ==> !Before(x, y)
  }

  lemma {:induction false} BeforeIsWeakOrder(x: TimedEvent, y: TimedEvent, z: TimedEvent)
    ensures Before(x, y) ==> !Before(y, x)
    ensures !Before(x, y) && !Before(y, z) ==> !Before(x, z)
    ensures !Before(x, y) && !Before(y, x) ==> KeyOf(x) == KeyOf(y)
  {}

  /** What an event is ranked by. */
  function KeyOf(x: TimedEvent): (nat, nat) { (Priority(x.kind), x.rawOrder) }

  /** No two events have both the same priority and the same arrival number. */
  predicate KeysDiffer(pushed: seq<TimedEvent>) {
    forall i, j :: 0 <= i < j < |pushed| ==> KeyOf(pushed[i]) != KeyOf(pushed[j])
  }

  lemma {:induction false} SameSize(a: multiset<TimedEvent>, b: multiset<TimedEvent>)
    requires a <= b && |a| == |b|
    ensures a == b
  {
    assert b == a + (b - a);
  }

  // ---- push keeps the selection ------------------------------------------------------------

  lemma {:induction false} WorstIsWorst(events: seq<TimedEvent>)
    requires events != []
    ensures IsWorst(events, Worst(events))
  {
    if |events| > 1 {
      var n := |events| - 1;
      WorstIsWorst(events[..n]);
      var w := Worst(events[..n]);
      assert events[..n][w] == events[w];
      if Before(events[w], events[n]) {
        forall i | 0 <= i < n ensures Before(events[i], events[n]) {
          assert events[..n][i] == events[i];
          if i > w { assert !Before(events[w], events[i]); }
        }
      } else {
        forall i | 0 <= i < n ensures i < w ==> Before(events[i], events[w]) {
          assert events[..n][i] == events[i];
        }
        forall i | w < i < |events| ensures !Before(events[w], events[i]) {
          if i < n { assert events[..n][i] == events[i]; }
        }
      }
    }
  }

  /** One push on a selection, whatever came before and whatever it is numbered: the
      buffer is again the selection if and only if it was not full, or the new event does
      not have to displace an equally urgent one with a later number. */
  lemma {:induction false} PushSelectsIff(capacity: nat, pushed: seq<TimedEvent>, s: State, ev: TimedEvent)
    requires IsSelection(capacity, pushed, s.events)
    ensures IsSelection(capacity, pushed + [ev], Push(capacity, s, ev).0.events) <==> !Overlooks(capacity, s, ev)
  {
    if |s.events| < capacity {
      RoomSelects(capacity, pushed, s.events, ev);
    } else if s.events != [] {
      NothingAfterWorst(s.events);
      var w := Worst(s.events);
      if Priority(ev.kind) < Priority(s.events[w].kind) {
        ReplacingSelects(capacity, pushed, s.events, w, ev);
      } else {
        DroppingSelectsIff(capacity, pushed, s.events, w, ev);
      }
    }
  }

  /** The branch that goes wrong: a full buffer whose worst event is exactly as urgent as
      the new one but carries a later arrival number. */
  predicate Overlooks(capacity: nat, s: State, ev: TimedEvent) {
    && |s.events| >= capacity && s.events != []
    && var worst := s.events[Worst(s.events)];
       Priority(ev.kind) == Priority(worst.kind) && ev.rawOrder < worst.rawOrder
  }

  lemma {:induction false} NothingAfterWorst(events: seq<TimedEvent>)
    requires events != []
    ensures forall x :: x in events ==> !Before(events[Worst(events)], x)
  {
    WorstIsWorst(events);
    var w := Worst(events);
    forall x | x in events ensures !Before(events[w], x) {
      var i :| 0 <= i < |events| && events[i] == x;
      BeforeIsWeakOrder(x, events[w], x);
    }
  }

  lemma {:induction false} RoomSelects(capacity: nat, pushed: seq<TimedEvent>, held: seq<TimedEvent>, ev: TimedEvent)
    requires IsSelection(capacity, pushed, held) && |held| < capacity
    ensures IsSelection(capacity, pushed + [ev], held + [ev])
  {
    SameSize(multiset(held), multiset(pushed));
  }

  lemma {:induction false} ReplacingSelects(capacity: nat, pushed: seq<TimedEvent>, held: seq<TimedEvent>, w: nat,
                                            ev: TimedEvent)
    requires IsSelection(capacity, pushed, held) && |held| == capacity && w < |held|
    requires Priority(ev.kind) < Priority(held[w].kind) && forall x :: x in held ==> !Before(held[w], x)
    ensures IsSelection(capacity, pushed + [ev], held[w := ev])
  {
    var held', worst := held[w := ev], held[w];
    ReplacedLeavesOut(pushed, held, w, ev);
    forall x, y | x in LeftOut(pushed, held) + multiset{worst} && y in held' ensures !Before(x, y) {
      assert y == ev || y in held;
      BeforeIsWeakOrder(x, worst, y);
    }
  }

  lemma {:induction false} ReplacedLeavesOut(pushed: seq<TimedEvent>, held: seq<TimedEvent>, w: nat, ev: TimedEvent)
    requires multiset(held) <= multiset(pushed) && w < |held|
    ensures multiset(held[w := ev]) <= multiset(pushed + [ev])
    ensures LeftOut(pushed + [ev], held[w := ev]) == LeftOut(pushed, held) + multiset{held[w]}
  {
    assert multiset(held[w := ev]) == multiset(held) - multiset{held[w]} + multiset{ev};
  }

  lemma {:induction false} DroppingSelectsIff(capacity: nat, pushed: seq<TimedEvent>, held: seq<TimedEvent>, w: nat,
                                              ev: TimedEvent)
    requires IsSelection(capacity, pushed, held) && |held| == capacity && w < |held|
    requires forall x :: x in held ==> !Before(held[w], x)
    ensures IsSelection(capacity, pushed + [ev], held) <==> !Before(ev, held[w])
  {
    var all := pushed + [ev];
    assert LeftOut(all, held) == LeftOut(pushed, held) + multiset{ev};
    assert ev in LeftOut(all, held) && held[w] in held;
    if !Before(ev, held[w]) {
      forall x, y | x in LeftOut(all, held) && y in held ensures !Before(x, y) {
        BeforeIsWeakOrder(ev, held[w], y);
      }
    }
  }

  // ---- a selection is unique --------------------------------------------------------------

  function HasKey(key: (nat, nat)): TimedEvent -> bool { (e: TimedEvent) => KeyOf(e) == key }

  function Differs(p: TimedEvent -> bool): TimedEvent -> bool { (e: TimedEvent) => !p(e) }

  /** What one selection holds more of than another is tied with what it holds less of. */
  lemma {:induction false} SurplusesAreTied(capacity: nat, pushed: seq<TimedEvent>, a: seq<TimedEvent>,
                                            b: seq<TimedEvent>, x: TimedEvent, y: TimedEvent)
    requires IsSelection(capacity, pushed, a) && IsSelection(capacity, pushed, b)
    requires multiset(a)[x] > multiset(b)[x] && multiset(b)[y] > multiset(a)[y]
    ensures KeyOf(x) == KeyOf(y) && x in pushed && y in pushed
  {
    assert multiset(pushed)[x] >= multiset(a)[x] && multiset(pushed)[y] >= multiset(b)[y];
    assert x in LeftOut(pushed, b) && y in b;
    assert y in LeftOut(pushed, a) && x in a;
    BeforeIsWeakOrder(x, y, x);
  }

  /** A selection is determined by what was pushed: two hold equally many events of each
      key, and the same events when no two keys are alike. */
  lemma {:induction false} SelectionIsUnique(capacity: nat, pushed: seq<TimedEvent>, a: seq<TimedEvent>,
                                             b: seq<TimedEvent>)
    requires IsSelection(capacity, pushed, a) && IsSelection(capacity, pushed, b)
    ensures forall key :: Count(a, HasKey(key)) == Count(b, HasKey(key))
    ensures KeysDiffer(pushed) ==> multiset(a) == multiset(b)
  {
    forall key ensures Count(a, HasKey(key)) == Count(b, HasKey(key)) {
      NoSurplusOfKey(capacity, pushed, a, b, key);
      NoSurplusOfKey(capacity, pushed, b, a, key);
    }
    if KeysDiffer(pushed) {
      forall x ensures multiset(a)[x] == multiset(b)[x] {
        NoSurplusOfEvent(capacity, pushed, a, b, x);
        NoSurplusOfEvent(capacity, pushed, b, a, x);
      }
    }
  }

  lemma {:induction false} NoSurplusOfKey(capacity: nat, pushed: seq<TimedEvent>, a: seq<TimedEvent>,
                                          b: seq<TimedEvent>, key: (nat, nat))
    requires IsSelection(capacity, pushed, a) && IsSelection(capacity, pushed, b)
    ensures Count(a, HasKey(key)) <= Count(b, HasKey(key))
  {
    if Count(a, HasKey(key)) > Count(b, HasKey(key)) {
      var x := Surplus(a, b, HasKey(key));
      var y := Deficit(a, b, HasKey(key));
      SurplusesAreTied(capacity, pushed, a, b, x, y);
    }
  }

  lemma {:induction false} NoSurplusOfEvent(capacity: nat, pushed: seq<TimedEvent>, a: seq<TimedEvent>,
                                            b: seq<TimedEvent>, x: TimedEvent)
    requires IsSelection(capacity, pushed, a) && IsSelection(capacity, pushed, b) && KeysDiffer(pushed)
    ensures multiset(a)[x] <= multiset(b)[x]
  {
    if multiset(a)[x] > multiset(b)[x] {
      CountsEvent(a, x);
      CountsEvent(b, x);
      var y := Deficit(a, b, (e: TimedEvent) => e == x);
      SurplusesAreTied(capacity, pushed, a, b, x, y);
      DifferentKeys(pushed, x, y);
    }
  }

  lemma {:induction false} DifferentKeys(pushed: seq<TimedEvent>, x: TimedEvent, y: TimedEvent)
    requires KeysDiffer(pushed) && x in pushed && y in pushed && x != y
    ensures KeyOf(x) != KeyOf(y)
  {
    var i :| 0 <= i < |pushed| && pushed[i] == x;
    var j :| 0 <= j < |pushed| && pushed[j] == y;
    assert i < j || j < i;
  }

  lemma {:induction false} CountsEvent(s: seq<TimedEvent>, x: TimedEvent)
    ensures Count(s, (e: TimedEvent) => e == x) == multiset(s)[x]
  {
    if s != [] {
      CountsEvent(s[..|s| - 1], x);
      assert s == s[..|s| - 1] + [s[|s| - 1]];
    }
  }

  /** Of the more numerous kind, one list holds some event more often. */
  lemma {:induction false} Surplus(a: seq<TimedEvent>, b: seq<TimedEvent>, p: TimedEvent -> bool)
    returns (x: TimedEvent)
    requires Count(a, p) > Count(b, p)
    ensures p(x) && multiset(a)[x] > multiset(b)[x]
    decreases |a|
  {
    var n := |a| - 1;
    var front, last := a[..n], a[n];
    assert a == front + [last];
    if !p(last) {
      x := Surplus(front, b, p);
    } else if multiset(a)[last] > multiset(b)[last] {
      x := last;
    } else {
      var j :| 0 <= j < |b| && b[j] == last;
      var rest := b[..j] + b[j + 1..];
      assert b == b[..j] + ([last] + b[j + 1..]);
      CountJoin(b[..j], [last] + b[j + 1..], p);
      CountJoin([last], b[j + 1..], p);
      CountJoin(b[..j], b[j + 1..], p);
      OneCounts(last, p);
      x := Surplus(front, rest, p);
    }
  }

  /** And of the others the second list holds some event more often. */
  lemma {:induction false} Deficit(a: seq<TimedEvent>, b: seq<TimedEvent>, p: TimedEvent -> bool)
    returns (y: TimedEvent)
    requires |a| == |b| && Count(a, p) > Count(b, p)
    ensures !p(y) && multiset(b)[y] > multiset(a)[y]
  {
    OthersCount(a, p);
    OthersCount(b, p);
    y := Surplus(b, a, Differs(p));
  }

  lemma {:induction false} OthersCount(s: seq<TimedEvent>, p: TimedEvent -> bool)
    ensures Count(s, p) + Count(s, Differs(p)) == |s|
  {
    if s != [] { OthersCount(s[..|s| - 1], p); }
  }

  // ---- runs ----------------------------------------------------------------------------------

  /** Among events of one priority the arrival numbers do not go back; they may repeat, as
      do those of the sequencer, which numbers nothing. */
  predicate Arriving(pushed: seq<TimedEvent>) {
    forall i, j :: 0 <= i < j < |pushed| && Priority(pushed[i].kind) == Priority(pushed[j].kind) ==>
      pushed[i].rawOrder <= pushed[j].rawOrder
  }

  /** After any run of pushes whose numbers do not go back the buffer is the offline
      selection of everything pushed. */
  lemma {:induction false} RunSelects(capacity: nat, pushed: seq<TimedEvent>)
    requires Arriving(pushed)
    ensures IsSelection(capacity, pushed, Run(capacity, pushed).events)
  {
    if pushed != [] {
      var n := |pushed| - 1;
      var s := Run(capacity, pushed[..n]);
      RunSelects(capacity, pushed[..n]);
      assert pushed[..n] + [pushed[n]] == pushed;
      if s.events != [] {
        var worst := s.events[Worst(s.events)];
        assert worst in multiset(s.events);
        assert worst in pushed[..n];
        var i :| 0 <= i < n && pushed[i] == worst;
      }
      PushSelectsIff(capacity, pushed[..n], s, pushed[n]);
    }
  }

  lemma {:induction false} RunMore(capacity: nat, pushed: seq<TimedEvent>, ev: TimedEvent)
    ensures Run(capacity, pushed + [ev]) == Push(capacity, Run(capacity, pushed), ev).0
  {
    assert (pushed + [ev])[..|pushed|] == pushed;
  }

  lemma {:induction false} RunWithRoom(capacity: nat, pushed: seq<TimedEvent>, ev: TimedEvent)
    requires Run(capacity, pushed).events == pushed && |pushed| < capacity
    ensures Run(capacity, pushed + [ev]).events == pushed + [ev]
  {
    RunMore(capacity, pushed, ev);
  }

  /** While they fit, the buffer holds the events pushed, in order. */
  lemma {:induction false} RunHoldsAll(capacity: nat, pushed: seq<TimedEvent>)
    requires |pushed| <= capacity
    ensures Run(capacity, pushed).events == pushed
  {
    if pushed != [] {
      var front, last := pushed[..|pushed| - 1], pushed[|pushed| - 1];
      assert pushed == front + [last];
      RunHoldsAll(capacity, front);
      RunWithRoom(capacity, front, last);
    }
  }

  lemma {:induction false} AllAlike(events: seq<TimedEvent>, kind: EventKind)
    requires events != [] && forall x :: x in events ==> x.kind == kind
    ensures events[Worst(events)].kind == kind
  {
    assert events[Worst(events)] in events;
  }

  /** A full buffer of equally urgent events overlooks one with an earlier number. */
  lemma {:induction false} EarlierNumberOverlooked(first: seq<TimedEvent>, late: TimedEvent)
    requires first != [] && forall x :: x in first ==> x.kind == late.kind && late.rawOrder < x.rawOrder
    ensures Run(|first|, first + [late]).events == first
    ensures !IsSelection(|first|, first + [late], first)
  {
    RunHoldsAll(|first|, first);
    RunMore(|first|, first, late);
    AllAlike(first, late.kind);
    RefusedBeforeHeld(first, late);
  }

  lemma {:induction false} RefusedBeforeHeld(held: seq<TimedEvent>, refused: TimedEvent)
    requires held != [] && Before(refused, held[0])
    ensures !IsSelection(|held|, held + [refused], held)
  {
    assert LeftOut(held + [refused], held) == multiset{refused};
    assert refused in LeftOut(held + [refused], held) && held[0] in held;
  }

  /** As many notes as the least buffer holds, the i-th with a number and a payload. */
  function FullOfNotes(number: nat -> nat): (notes: seq<TimedEvent>)
    ensures |notes| == LEAST_CAPACITY
    ensures forall i :: 0 <= i < |notes| ==> notes[i] == TimedEvent(NoteOn, number(i), i)
  {
    seq(LEAST_CAPACITY, i requires i >= 0 => TimedEvent(NoteOn, number(i), i))
  }

  /** Notes numbered from 1 on fill the least buffer the build accepts; the note with
      number 0 is refused, and the buffer is no selection. */
  lemma {:induction false} NoteZeroIsOverlooked()
    ensures var pushed := FullOfNotes(i => i + 1) + [TimedEvent(NoteOn, 0, 0)];
            !IsSelection(LEAST_CAPACITY, pushed, Run(LEAST_CAPACITY, pushed).events)
  {
    EarlierNumberOverlooked(FullOfNotes(i => i + 1), TimedEvent(NoteOn, 0, 0));
  }

  /** Among events of one key the first pushed is the one a more urgent event replaces,
      and the later ones stay. */
  lemma {:induction false} FirstOfEqualsIsReplaced(first: seq<TimedEvent>, urgent: TimedEvent)
    requires first != [] && forall x :: x in first ==> KeyOf(x) == KeyOf(first[0])
    requires Priority(urgent.kind) < Priority(first[0].kind)
    ensures Run(|first|, first + [urgent]).events == [urgent] + first[1..]
  {
    RunHoldsAll(|first|, first);
    RunMore(|first|, first, urgent);
    FirstOfEqualsIsWorst(first);
    ReplacesFirst(Run(|first|, first), urgent, first);
  }

  lemma {:induction false} ReplacesFirst(s: State, urgent: TimedEvent, held: seq<TimedEvent>)
    requires s.events == held != [] && Worst(held) == 0 && Priority(urgent.kind) < Priority(held[0].kind)
    ensures Push(|held|, s, urgent).0.events == [urgent] + held[1..]
  {
    assert held[0 := urgent] == [urgent] + held[1..];
  }

  /** The sequencer numbers its events 0: when its notes fill the least buffer, the first
      goes for a note-off, though 511 later notes are held. */
  lemma {:induction false} SequencerLosesItsFirstNote()
    ensures var notes, off := FullOfNotes(_ => 0), TimedEvent(NoteOff, 0, 0);
            Run(LEAST_CAPACITY, notes + [off]).events == [off] + notes[1..]
  {
    FirstOfEqualsIsReplaced(FullOfNotes(_ => 0), TimedEvent(NoteOff, 0, 0));
  }

  lemma {:induction false} FirstOfEqualsIsWorst(events: seq<TimedEvent>)
    requires events != [] && forall x :: x in events ==> KeyOf(x) == KeyOf(events[0])
    ensures Worst(events) == 0
  {
    WorstIsWorst(events);
    var w := Worst(events);
    assert events[w] in events;
    assert !Before(events[0], events[w]);
  }

  function Count(s: seq<TimedEvent>, p: TimedEvent -> bool): nat {
    if s == [] then 0 else Count(s[..|s| - 1], p) + if p(s[|s| - 1]) then 1 else 0
  }

  lemma {:induction false} CountUpdate(s: seq<TimedEvent>, w: nat, x: TimedEvent, p: TimedEvent -> bool)
    requires w < |s|
    ensures Count(s[w := x], p) + (if p(s[w]) then 1 else 0) == Count(s, p) + (if p(x) then 1 else 0)
  {
    var n := |s| - 1;
    if w == n {
      assert s[w := x][..n] == s[..n];
    } else {
      assert s[w := x][..n] == s[..n][w := x];
      CountUpdate(s[..n], w, x, p);
    }
  }

  lemma {:induction false} CountMore(s: seq<TimedEvent>, x: TimedEvent, p: TimedEvent -> bool)
    ensures Count(s + [x], p) == Count(s, p) + if p(x) then 1 else 0
  {
    assert (s + [x])[..|s|] == s;
  }

  /** The event a push lost, if any. */
  function Lost(capacity: nat, s: State, ev: TimedEvent): seq<TimedEvent> {
    if |s.events| < capacity then []
    else if s.events != [] && Priority(ev.kind) < Priority(s.events[Worst(s.events)].kind) then
      [s.events[Worst(s.events)]]
    else [ev]
  }

  function LostSoFar(capacity: nat, pushed: seq<TimedEvent>): seq<TimedEvent> {
    if pushed == [] then []
    else
      var before := pushed[..|pushed| - 1];
      LostSoFar(capacity, before) + Lost(capacity, Run(capacity, before), pushed[|pushed| - 1])
  }

  /** Nothing appears or disappears: of any kind of event, as many were pushed as are
      held and lost together. */
  lemma {:induction false} RunConserves(capacity: nat, pushed: seq<TimedEvent>, p: TimedEvent -> bool)
    ensures Count(pushed, p) == Count(Run(capacity, pushed).events, p) + Count(LostSoFar(capacity, pushed), p)
  {
    if pushed != [] {
      var n := |pushed| - 1;
      var s, ev := Run(capacity, pushed[..n]), pushed[n];
      RunConserves(capacity, pushed[..n], p);
      PushConserves(capacity, s, ev, p);
      CountJoin(LostSoFar(capacity, pushed[..n]), Lost(capacity, s, ev), p);
    }
  }

  lemma {:induction false} PushConserves(capacity: nat, s: State, ev: TimedEvent, p: TimedEvent -> bool)
    ensures Count(Push(capacity, s, ev).0.events, p) + Count(Lost(capacity, s, ev), p)
            == Count(s.events, p) + if p(ev) then 1 else 0
  {
    CountMore([], ev, p);
    if |s.events| < capacity {
      CountMore(s.events, ev, p);
    } else if s.events != [] {
      var w := Worst(s.events);
      CountMore([], s.events[w], p);
      CountUpdate(s.events, w, ev, p);
      assert [] + [s.events[w]] == [s.events[w]];
    }
    assert [] + [ev] == [ev];
  }

  lemma {:induction false} CountJoin(a: seq<TimedEvent>, b: seq<TimedEvent>, p: TimedEvent -> bool)
    ensures Count(a + b, p) == Count(a, p) + Count(b, p)
  {
    if b == [] {
      assert a + b == a;
    } else {
      var n := |b| - 1;
      assert (a + b)[..|a + b| - 1] == a + b[..n];
      CountJoin(a, b[..n], p);
    }
  }

  function InClass(class_: DropClass): TimedEvent -> bool {
    (e: TimedEvent) => ClassOf(e.kind) == class_
  }

  /** The held event a push took the place of: what was lost by a push that was kept. */
  function Evicted(capacity: nat, s: State, ev: TimedEvent): seq<TimedEvent> {
    if Push(capacity, s, ev).1 then Lost(capacity, s, ev) else []
  }

  function EvictedSoFar(capacity: nat, pushed: seq<TimedEvent>): seq<TimedEvent> {
    if pushed == [] then []
    else
      var before := pushed[..|pushed| - 1];
      EvictedSoFar(capacity, before) + Evicted(capacity, Run(capacity, before), pushed[|pushed| - 1])
  }

  /** The counters are the losses: in total, class by class, and those that had been held. */
  lemma {:induction false} TelemetryCountsLosses(capacity: nat, pushed: seq<TimedEvent>, class_: DropClass)
    ensures CountsLosses(Run(capacity, pushed).telemetry, LostSoFar(capacity, pushed), class_)
    ensures Run(capacity, pushed).telemetry.replacedLowerPriority == |EvictedSoFar(capacity, pushed)|
  {
    if pushed != [] {
      var n := |pushed| - 1;
      TelemetryCountsLosses(capacity, pushed[..n], class_);
      var s, ev := Run(capacity, pushed[..n]), pushed[n];
      PushTelemetry(capacity, s, ev, class_);
      LossIsCounted(s.telemetry, Run(capacity, pushed).telemetry, LostSoFar(capacity, pushed[..n]),
                    Lost(capacity, s, ev), class_);
    }
  }

  predicate CountsLosses(t: Telemetry, lost: seq<TimedEvent>, class_: DropClass) {
    && t.droppedTotal == |lost|
    && Dropped(t, class_) == Count(lost, InClass(class_))
    && (t.overflowed <==> lost != [])
  }

  /** What one push does to the counters. */
  predicate CountsOne(t: Telemetry, t': Telemetry, lost: seq<TimedEvent>, class_: DropClass) {
    && |lost| <= 1
    && t'.droppedTotal == t.droppedTotal + |lost|
    && Dropped(t', class_) == Dropped(t, class_) + (if lost != [] && ClassOf(lost[0].kind) == class_ then 1 else 0)
    && (t'.overflowed <==> t.overflowed || lost != [])
    && t'.droppedTotal - ClassSum(t') == t.droppedTotal - ClassSum(t)
  }

  lemma {:induction false} LossIsCounted(t: Telemetry, t': Telemetry, before: seq<TimedEvent>, lost: seq<TimedEvent>,
                                         class_: DropClass)
    requires CountsLosses(t, before, class_) && CountsOne(t, t', lost, class_)
    ensures CountsLosses(t', before + lost, class_)
  {
    CountJoin(before, lost, InClass(class_));
    if lost != [] {
      assert lost == [lost[0]];
      OneCounts(lost[0], InClass(class_));
    }
  }

  lemma {:induction false} PushTelemetry(capacity: nat, s: State, ev: TimedEvent, class_: DropClass)
    ensures CountsOne(s.telemetry, Push(capacity, s, ev).0.telemetry, Lost(capacity, s, ev), class_)
    ensures Push(capacity, s, ev).0.telemetry.replacedLowerPriority ==
            s.telemetry.replacedLowerPriority + |Evicted(capacity, s, ev)|
  {
    var lost := Lost(capacity, s, ev);
    if lost != [] { RecordsOne(s.telemetry, lost[0].kind, class_); }
  }

  lemma {:induction false} RecordsOne(t: Telemetry, kind: EventKind, class_: DropClass)
    ensures var t' := RecordDrop(t, kind);
            && t'.droppedTotal == t.droppedTotal + 1 && t'.overflowed
            && t'.replacedLowerPriority == t.replacedLowerPriority
            && Dropped(t', class_) == Dropped(t, class_) + (if ClassOf(kind) == class_ then 1 else 0)
            && ClassSum(t') == ClassSum(t) + 1
  {}

  function ClassSum(t: Telemetry): nat { t.noteOn + t.noteOff + t.automation + t.controller + t.transport + t.panic }

  lemma {:induction false} OneCounts(x: TimedEvent, p: TimedEvent -> bool)
    ensures Count([x], p) == if p(x) then 1 else 0
  {
    CountMore([], x, p);
    assert [] + [x] == [x];
  }

  lemma {:induction false} AllCount(s: seq<TimedEvent>)
    ensures Count(s, (e: TimedEvent) => true) == |s|
  {
    if s != [] { AllCount(s[..|s| - 1]); }
  }

  /** pushes = count + droppedTotal, and droppedTotal is the sum of the class counters. */
  lemma {:induction false} PushesAreHeldOrDropped(capacity: nat, pushed: seq<TimedEvent>)
    ensures var s := Run(capacity, pushed); |pushed| == |s.events| + s.telemetry.droppedTotal
    ensures var t := Run(capacity, pushed).telemetry; t.droppedTotal == ClassSum(t)
  {
    var all := (e: TimedEvent) => true;
    RunConserves(capacity, pushed, all);
    AllCount(pushed);
    AllCount(Run(capacity, pushed).events);
    AllCount(LostSoFar(capacity, pushed));
    TelemetryCountsLosses(capacity, pushed, DropPanic);
    ClassesAddUp(capacity, pushed);
  }

  lemma {:induction false} ClassesAddUp(capacity: nat, pushed: seq<TimedEvent>)
    ensures var t := Run(capacity, pushed).telemetry; t.droppedTotal == ClassSum(t)
  {
    if pushed != [] {
      var n := |pushed| - 1;
      ClassesAddUp(capacity, pushed[..n]);
      PushTelemetry(capacity, Run(capacity, pushed[..n]), pushed[n], DropPanic);
    }
  }

  lemma {:induction false} RoomLosesNothing(capacity: nat, pushed: seq<TimedEvent>)
    ensures |Run(capacity, pushed).events| <= capacity
    ensures |Run(capacity, pushed).events| < capacity ==> LostSoFar(capacity, pushed) == []
  {
    if pushed != [] { RoomLosesNothing(capacity, pushed[..|pushed| - 1]); }
  }

  ghost predicate LessUrgent(lost: seq<TimedEvent>, held: seq<TimedEvent>) {
    forall x, y :: x in lost && y in held ==> Priority(y.kind) <= Priority(x.kind)
  }

  /** However the events are numbered: nothing lost is more urgent than anything held. */
  lemma {:induction false} LostAreLessUrgent(capacity: nat, pushed: seq<TimedEvent>)
    ensures LessUrgent(LostSoFar(capacity, pushed), Run(capacity, pushed).events)
  {
    if pushed != [] {
      var before := pushed[..|pushed| - 1];
      LostAreLessUrgent(capacity, before);
      RoomLosesNothing(capacity, before);
      PushKeepsUrgent(capacity, Run(capacity, before), pushed[|pushed| - 1], LostSoFar(capacity, before));
    }
  }

  lemma {:induction false} PushKeepsUrgent(capacity: nat, s: State, ev: TimedEvent, lost: seq<TimedEvent>)
    requires LessUrgent(lost, s.events) && (|s.events| < capacity ==> lost == [])
    ensures LessUrgent(lost + Lost(capacity, s, ev), Push(capacity, s, ev).0.events)
  {
    if |s.events| >= capacity && s.events != [] {
      NothingAfterWorst(s.events);
      var worst := s.events[Worst(s.events)];
      assert worst in s.events;
      forall y | y in Push(capacity, s, ev).0.events ensures y == ev || y in s.events {}
    }
  }

  /** While the events at least as urgent as a priority fit the buffer none of them is
      ever lost, however they are numbered and whatever else is pushed. */
  lemma {:induction false} UrgentEventsSurvive(capacity: nat, pushed: seq<TimedEvent>, priority: nat)
    requires Count(pushed, AsUrgent(priority)) <= capacity
    ensures forall x :: x in LostSoFar(capacity, pushed) ==> Priority(x.kind) > priority
    ensures Count(Run(capacity, pushed).events, AsUrgent(priority)) == Count(pushed, AsUrgent(priority))
  {
    var held, lost := Run(capacity, pushed).events, LostSoFar(capacity, pushed);
    RunConserves(capacity, pushed, AsUrgent(priority));
    LostAreLessUrgent(capacity, pushed);
    RoomLosesNothing(capacity, pushed);
    forall x | x in lost ensures Priority(x.kind) > priority {
      if Priority(x.kind) <= priority {
        AllSatisfy(held, AsUrgent(priority));
        MemberCounts(lost, x, AsUrgent(priority));
      }
    }
    NoneCounts(lost, AsUrgent(priority));
  }

  function AsUrgent(priority: nat): TimedEvent -> bool { (e: TimedEvent) => Priority(e.kind) <= priority }

  lemma {:induction false} AllSatisfy(s: seq<TimedEvent>, p: TimedEvent -> bool)
    requires forall y :: y in s ==> p(y)
    ensures Count(s, p) == |s|
  {
    if s != [] { AllSatisfy(s[..|s| - 1], p); }
  }

  lemma {:induction false} MemberCounts(s: seq<TimedEvent>, x: TimedEvent, p: TimedEvent -> bool)
    requires x in s && p(x)
    ensures Count(s, p) >= 1
  {
    if s[|s| - 1] != x { MemberCounts(s[..|s| - 1], x, p); }
  }

  lemma {:induction false} NoneCounts(s: seq<TimedEvent>, p: TimedEvent -> bool)
    requires forall y :: y in s ==> !p(y)
    ensures Count(s, p) == 0
  {
    if s != [] { NoneCounts(s[..|s| - 1], p); }
  }

  lemma {:induction false} WorstOfMore(events: seq<TimedEvent>, x: TimedEvent)
    requires events != []
    ensures Worst(events + [x]) == if Before(events[Worst(events)], x) then |events| else Worst(events)
  {
    assert (events + [x])[..|events|] == events;
  }

  // ---- the buffer in place -----------------------------------------------------------------------

  class EventBuffer {
    const events: array<TimedEvent>
    var count: nat
    var telemetry: Telemetry
    ghost var pushed: seq<TimedEvent>

    ghost function Contents(): State
      requires count <= events.Length
      reads this, events
    {
      State(events[..count], telemetry)
    }

    ghost predicate Valid()
      reads this, events
    {
      && events.Length >= LEAST_CAPACITY
      && count <= events.Length
      && Contents() == Run(events.Length, pushed)
    }

    constructor (capacity: nat)
      requires capacity >= LEAST_CAPACITY
      ensures Valid() && pushed == [] && fresh(events) && events.Length == capacity
    {
      events := new TimedEvent[capacity](_ => TimedEvent(NoteOn, 0, 0));
      count, telemetry, pushed := 0, NO_TELEMETRY, [];
    }

    method FindWorst() returns (w: nat)
      requires Valid() && count > 0
      ensures w == Worst(events[..count])
    {
      w := 0;
      var i := 1;
      while i < count
        invariant 1 <= i <= count && w < i
        invariant w == Worst(events[..i])
      {
        WorstOfMore(events[..i], events[i]);
        assert events[..i + 1] == events[..i] + [events[i]];
        if Before(events[w], events[i]) {
          w := i;
        }
        i := i + 1;
      }
    }

    /** Keeps the event, in the place of a less urgent one if need be, or refuses it. */
    method PushEvent(ev: TimedEvent) returns (kept: bool)
      requires Valid()
      modifies this, events
      ensures Valid() && pushed == old(pushed) + [ev]
      ensures (Contents(), kept) == Push(events.Length, old(Contents()), ev)
    {
      kept := true;
      if count >= events.Length {
        var w := FindWorst();
        if Priority(ev.kind) < Priority(events[w].kind) {
          telemetry := RecordReplacement(RecordDrop(telemetry, events[w].kind));
          Overwrite(w, ev);
        } else {
          telemetry := RecordDrop(telemetry, ev.kind);
          kept := false;
        }
      } else {
        Append(ev);
      }
      pushed := pushed + [ev];
      assert pushed[..|pushed| - 1] == old(pushed);
    }

    method Append(ev: TimedEvent)
      requires count < events.Length
      modifies `count, events
      ensures count == old(count) + 1 && events[..count] == old(events[..count]) + [ev]
    {
      events[count] := ev;
      count := count + 1;
    }

    method Overwrite(w: nat, ev: TimedEvent)
      requires w < count <= events.Length
      modifies events
      ensures events[..count] == old(events[..count])[w := ev]
    {
      events[w] := ev;
    }

    method Reset()
      requires Valid()
      modifies this
      ensures Valid() && pushed == [] && Contents() == EMPTY
    {
      count, telemetry, pushed := 0, NO_TELEMETRY, [];
    }
  }
}
