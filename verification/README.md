# Verification of ArpSID's hard core

A Dafny model of the parts of ArpSID where a mistake would be hard to find by listening:
the lock-free event ring, the ordering of C64 writes, the step sequencer's timeline, event
admission, the saved formats and the DIGI capture hand-off. Each part is modelled branch by
branch from its source file and proved against a specification that does not look like it:
an abstract queue, a stable sort, an ideal timeline, an offline selection, the original
value before a round trip.

`dafny verify dfyconfig.toml` checks the whole project. The modules:

| file | models |
|---|---|
| `MpscRing.dfy`, `MpscRingSteps.dfy`, `MpscRingRuns.dfy`, `MpscRingCalls.dfy`, `MpscRingOneCell.dfy` | the bounded multi-producer single-consumer ring with its reset epoch, as an interleaved step machine, its refinement to a FIFO, and how its calls answer and end |
| `StableOrder.dfy`, `WriteScheduler.dfy` | the four-pass radix scheduler on arrays, and the theory of stable sorts |
| `SidBusQueue.dfy` | the C64 bus queue with consumed cursor, lazy sort, compaction and selective discard |
| `Generator.dfy`, `Traversal.dfy`, `SequencerTimeline.dfy`, `SequencerSwing.dfy`, `SequencerSeek.dfy`, `SequencerEngine.dfy` | the step sequencer: stepping and its closed form, windows on the beat timeline, what swing makes of it, seeking, and the engine's methods |
| `EventBuffer.dfy`, `EventArrival.dfy` | the priority buffer of a render block, its overflow counters, and the order of arrival among what it gives up |
| `LittleEndian.dfy`, `ChunkFormat.dfy`, `ComponentState.dfy`, `ComponentRoundTrips.dfy`, `ComponentLoads.dfy`, `KernelHost.dfy` | the VST3 component state: chunks, the four readers, round trips, what a load leaves, and the host's loops |
| `DigiCapture.dfy`, `DigiCaptureCalls.dfy` | the store-then-check hand-off of the capture buffer between two threads, and what its calls answer |
| `FileBank.dfy` | bank files over an abstract byte sequence |
| `D418Capture.dfy` | volume-register samples and their zero-order-hold reconstruction |
| `PresetMeta.dfy`, `PresetDocument.dfy` | the MetaInfo text of presets, the extraction of the name, and the text read as a document |
| `BlockAdmission.dfy`, `BlockContents.dfy`, `BlockRender.dfy` | collecting, thinning and slicing the events of a host block, and the bypass fade |
| `Basics.dfy`, `Orders.dfy`, `Remainders.dfy`, `Reals.dfy`, `StateRoots.dfy` | shared vocabulary, counting and arithmetic |

Classes carry the fields of the source's objects. Where the behaviour of an object over many
calls matters, `Valid()` says that the fields are those of a pure machine after the calls made
so far, each method is proved to perform one step of that machine, and the theorems are about
every run of the machine.

## Where the code does not do what is said about it

The model follows the code. For each item two lemmas are named: one with an input that shows
it, and one that says exactly when the promise holds.

- The ring admits a capacity of one (a power of two); such a ring accepts an item over an
  unread one (`OneCellOverfills`). From two cells on every promise holds (`RefinesIffTwoCells`).
- The scheduler is documented to order by sample and cycle; only two bytes of each key are
  passed over (`WideSamplesAreMisordered`, `ScheduleIsStableOrderIff`). The plug-in does not
  meet this input: its one caller clamps every sample to the block
  (`source/au3/ArpSIDDSPKernel.hpp:2656`), which has at most 4096 frames.
- The bus queue's comments say that future events sort after pending ones. A push for an
  earlier slot sorts before them, and before events already consumed, one of which is then
  served twice (`OvertakingPushServesTwice`; `PushOvertakesIff`, `NothingServedTwiceIff`).
- A seek and playing up to the same beat differ in the last billionth of a beat of a step
  (`SeekJustBeforeMissesStep`, `SeekIsPlayIff`), and windows that end there make later steps
  early (`WindowEndingJustBefore`, `RunKeepsTime`).
- A full event buffer does not replace an equally urgent event that carries a later number
  (`NoteZeroIsOverlooked`, `PushSelectsIff`).
- Among equally urgent events with the same number a full buffer goes by their place in it,
  not by their arrival: the notes of the sequencer, which it does not number, lose the one
  pushed first (`SequencerLosesItsFirstNote`), notes behind a controller the one pushed last
  (`LastNoteIsLost`). What is held stays first by priority and arrival through one more push
  exactly when the push replaces nothing, or replaces the last pushed of the least urgent
  (`PushKeepsArrivalIff`); through a whole run of the sequencer's notes exactly when no
  note-off comes once the buffer is full, or enough come to take the place of every note-on
  (`NotesKeepArrivalIff`).
- The preset marker is said to limit a load to the patch; a preset that carries panel chunks
  changes the panels too (`MarkedStateSwitchesOutput`; `PresetChangesThePatchOnlyIff`,
  `PresetKeepsPanelsIff`).
- The peeked and the loaded bypass flag differ when a state repeats the chunk
  (`PeekAndLoadDisagree`, `BypassAgreesIff`); so may the patch decoded alone and the one
  loaded when it repeats the patch (`SecondRootIsLoaded`, `RootAgreesIff`).
- Volume writes that fall behind an earlier one are played late (`LateWriteIsPlayedLate`,
  `LastWriteIsPlayedIff`).
- A bank of no slots is written but refused when read (`EmptyBankIsRefused`); every other bank
  that is written whole is read back (`LoadAfterSave`).

## Model

| member | source | states |
|---|---|---|
| `MpscRingRuns.RingRefinesFifo` | source/arpsid_bounded_mpsc_ring.h:46-160 | For every interleaving of any number of producers with the consumer, its pops and its resets, with spurious failures of the weak compare-exchange, a ring of two or more cells shows a run of the bounded FIFO of reservations, and its invariant holds in the state reached |
| `MpscRingOneCell.RefinesIffTwoCells` | source/arpsid_bounded_mpsc_ring.h:23-27 | The ring is such a queue on every run if and only if it has two cells or more; the compile-time test admits one, where a committed and a free sequence number coincide |
| `MpscRingOneCell.OneCellOverfills` | source/arpsid_bounded_mpsc_ring.h:49-61 | The run of a one-cell ring that accepts a second item while the first is still queued |
| `MpscRingSteps.EveryStepOk` | source/arpsid_bounded_mpsc_ring.h:46-160 | Any single step of any thread keeps the invariant and is a step of the queue showing the same event |
| `MpscRingRuns.FifoRunAccounts` | source/arpsid_bounded_mpsc_ring.h:46-85 | Over every run of the queue each accepted item is delivered, dropped or still queued, exactly one of these; items leave in reservation order; a delivered item is word for word the one pushed; the queued ones below the latest boundary are exactly the doomed ones |
| `MpscRingRuns.ResetBoundary` | source/arpsid_bounded_mpsc_ring.h:76-133 | A delivery is never below the latest reset boundary, a drop always is, boundaries equal the reservations at the snapshot and never move back, and a reset reports exactly the items it dropped |
| `MpscRingRuns.BarriersOnlyGrow` | source/arpsid_bounded_mpsc_ring.h:128-131 | Over a whole run the boundary never moves backward |
| `MpscRingRuns.NothingCrossesAReset` | source/arpsid_bounded_mpsc_ring.h:69-84 | In every interleaving no item whose slot was reserved before a reset's snapshot is delivered after it, even one published later |
| `MpscRingRuns.SkippingIsBounded` | source/arpsid_bounded_mpsc_ring.h:76-85 | Between two resets at most the stale positions below the boundary are skipped, which bounds the retry loop of pop; that it goes on to the end is the next row |
| `MpscRingCalls.EveryPopIsAnswered` | source/arpsid_bounded_mpsc_ring.h:69-133 | In every interleaving, at every step of any thread: a pop ends only with an item or with the answer that there is none, and with the latter only when the place at the head holds no committed item; having dropped a straggler it goes on; a reset takes one snapshot and ends only with its count |
| `MpscRingCalls.EveryPushIsAnswered` | source/arpsid_bounded_mpsc_ring.h:46-66 | In every interleaving a push keeps its item from the call on and ends only by committing the place it took for that item, or by being refused; no other step begins, ends or answers it |
| `MpscRingCalls.PopsAreAnswered` | source/arpsid_bounded_mpsc_ring.h:76-85 | Over every run the pops begun are the items handed out and the empty answers, and the one still running |
| `MpscRingCalls.ConsumerNeverWaits` | source/arpsid_bounded_mpsc_ring.h:111-133 | From any state that keeps the invariant, in every interleaving, a pop or a reset has returned after a number of its own steps that only the sizes of ring and item fix, spurious failures aside: it never spins on a place reserved and not committed |
| `MpscRingCalls.PushOnlyWaitsForOthers` | source/arpsid_bounded_mpsc_ring.h:44-66 | In every interleaving a push during which no other producer takes a place has returned after a fixed number of its own steps, spurious failures aside |
| `MpscRingRuns.DeliveredIsWhatWasPushed` | source/arpsid_bounded_mpsc_ring.h:63-65 | In every interleaving the item delivered at a position is, untorn, the item of the producer that reserved the position |
| `MpscRingRuns.RefusedOnlyWhenFull` | source/arpsid_bounded_mpsc_ring.h:44-59 | push gives up only when the whole window of cells is reserved, committed or being recycled, never from contention |
| `MpscRingRuns.CellsHaveOneOwner` | source/arpsid_bounded_mpsc_ring.h:63-64 | In every reachable state two producers, or a producer and the consumer, are never inside the same cell |
| `MpscRingSteps.SequenceSays` | source/arpsid_bounded_mpsc_ring.h:50-58 | In every invariant state the sequence word read by push tells a free cell of the window from a full ring |
| `MpscRingOneCell.LogIsAccepts` | source/arpsid_bounded_mpsc_ring.h:54-55 | For a ring of any size the reservations are the successful compare-exchanges in order, and nothing leaves before it is claimed |
| `Remainders.MaskIsRemainder` | source/arpsid_bounded_mpsc_ring.h:25-29 | For every capacity the compile-time test admits, masking a position by the capacity less one, bit by bit, gives the remainder by which the model counts round the ring |
| `WriteScheduler.Schedule` | include/arpsid/core/c64_fixed_write_scheduler.h:16-65 | In place, for any count: an ordered input is left untouched, any other is stably sorted by the bytes the four passes read; what lies behind count is unchanged and no bucket index leaves its array |
| `WriteScheduler.Pass` | include/arpsid/core/c64_fixed_write_scheduler.h:36-59 | One counting pass is a stable sort by one byte of one key |
| `WriteScheduler.Distribute` | include/arpsid/core/c64_fixed_write_scheduler.h:53-58 | The scatter loop puts each element at the next place of its bucket, in order |
| `WriteScheduler.BucketStarts` | include/arpsid/core/c64_fixed_write_scheduler.h:40-52 | The prefix sums are the numbers of elements in lower buckets |
| `WriteScheduler.ScheduleIsStableOrderIff` | include/arpsid/core/c64_fixed_write_scheduler.h:12-13 | The result is the input stably ordered by (sample, cycle) if and only if the input was ordered already or the two low bytes of sample reverse the same pairs as sample |
| `WriteScheduler.InRangeScheduleIsTheStableOrder` | include/arpsid/core/c64_fixed_write_scheduler.h:12-14 | For samples below 2^16 the result is the stable order by (sample, cycle), and the only one |
| `WriteScheduler.WideSamplesAreMisordered` | include/arpsid/core/c64_fixed_write_scheduler.h:61-64 | A sample of 2^16 is put before a sample of 1 |
| `WriteScheduler.DigitsComposeRadixKey` | include/arpsid/core/c64_fixed_write_scheduler.h:42-45 | The four bytes in the order of the passes compare lexicographically as the two-byte sample followed by the cycle |
| `StableOrder.LsdStep` | include/arpsid/core/c64_fixed_write_scheduler.h:61-64 | A stable pass by a higher digit after a sort by the lower ones sorts by both |
| `StableOrder.StableSortIsUnique` | include/arpsid/core/c64_fixed_write_scheduler.h:12-14 | A sequence has only one stable sort by a key |
| `StableOrder.SortsByBothIff` | include/arpsid/core/c64_fixed_write_scheduler.h:28-29 | When one key is a function of another, a stable sort by the one is a stable sort by the other exactly when both reverse the same pairs |
| `SidBusQueues.RunRefinesSpec` | include/arpsid/core/c64_bus.h:40-189 | Over every run whose pushes do not overtake a consumed event, buffer, cursor, lazy sort, compaction and renumbering together are the pending list in service order |
| `SidBusQueues.StepRefinesSpec` | include/arpsid/core/c64_bus.h:44-137 | Each push, read, flush and clear hands out exactly what the pending list hands out |
| `SidBusQueues.PendingIsStableOrder` | include/arpsid/core/c64_bus.h:142-146 | The pending list is at all times the stable order, by PHI2 cycle, write before read, then arrival, of the events that have not left |
| `SidBusQueues.EveryEventLeavesOnce` | include/arpsid/core/c64_bus.h:44-137 | Over every orderly run the buffer hands out, in order, exactly what the pending list hands out, and the events it accepted are the ones handed out, the ones cleared and the ones pending: none lost, invented or served twice |
| `SidBusQueues.NothingServedTwiceIff` | include/arpsid/core/c64_bus.h:123-137 | Sorting consumed and pending events together leaves no consumed event to be served again if and only if no pending event sorts before a consumed one |
| `SidBusQueues.PushOvertakesIff` | include/arpsid/core/c64_bus.h:44-51 | A push lets an event overtake exactly when it belongs to an earlier bus slot than the last consumed event and no compaction intervenes |
| `SidBusQueues.OvertakingPushServesTwice` | include/arpsid/core/c64_bus.h:132-137 | Push for cycle 10, serve it, push for cycle 5: the next read serves cycle 10 again |
| `SidBusQueues.PushRefines` | include/arpsid/core/c64_bus.h:44-51 | Push accepts exactly while fewer than 1024 events wait, and inserts behind everything not in a later bus slot |
| `SidBusQueues.NextRefines` | include/arpsid/core/c64_bus.h:132-137 | A read serves the event of the cursor's rank among everything buffered, the head of the pending list when nothing overtakes |
| `SidBusQueues.MirrorRefines` | include/arpsid/core/c64_bus.h:66-117 | Flush and clear take out exactly the projection events, in service order, and keep the order of the rest |
| `SidBusQueues.RunOk` | include/arpsid/core/c64_bus.h:148-182 | In every reachable queue the tie-breakers are distinct and below the event count, which never exceeds the capacity, so the 32-bit counter cannot wrap |
| `SidBusQueues.SortIsUnique` | include/arpsid/core/c64_bus.h:123-130 | With distinct tie-breakers the unstable library sort has one result |
| `SidBusQueues.SidBusQueue.Push` | include/arpsid/core/c64_bus.h:44-51 | The method performs the push of the specification on its fields |
| `SidBusQueues.SidBusQueue.NextBeforeOrAt` | include/arpsid/core/c64_bus.h:132-137 | The method performs the read of the specification on its fields |
| `SidBusQueues.SidBusQueue.FlushPendingProjectionMirrorEvents` | include/arpsid/core/c64_bus.h:66-86 | The method performs the flush of the specification and hands out the projection events in order |
| `SidBusQueues.SidBusQueue.CompactConsumed` | include/arpsid/core/c64_bus.h:148-175 | In-place compaction, sort and renumbering are the specification's compaction |
| `SidBusQueues.SplitMirror` | include/arpsid/core/c64_bus.h:72-81 | The in-place filter keeps the ordinary events in order and hands out the projection ones |
| `Traversal.SteppingIsClosedForm` | source/au3/ArpSIDSequencerEngine.h:247-327 | In every mode but Random, k single advances from a reset reach the step of ordinal k; the stored direction differs at most at an end point of PingPong |
| `Traversal.SameWalkSameFuture` | source/au3/ArpSIDSequencerEngine.h:294-313 | Cursors that differ only in the direction stored at an end point visit the same steps forever |
| `Traversal.DirectionsDifferIff` | source/au3/ArpSIDSequencerEngine.h:273-313 | In PingPong over two steps or more the direction stored by stepping and that of the closed form differ exactly at the end points where the walk turns round, once it has begun |
| `Traversal.WalkStaysInPattern` | source/au3/ArpSIDSequencerEngine.h:294-327 | In every mode, whatever the random numbers, the step stays inside the pattern |
| `SequencerSwing.SwingLengthens` | source/au3/ArpSIDSequencerEngine.h:333-339 | Under the engine's own settings, where the least length does not bite, an even and an odd step together last 2 / stepsPerBeat, the odd one longer by swing / stepsPerBeat; without swing both last 1 / stepsPerBeat |
| `SequencerSwing.ShortStepsLastTheLeast` | source/au3/ArpSIDSequencerEngine.h:338 | A step whose swung length would be below a millionth of a beat lasts that |
| `SequencerSwing.SwungStepsBegin` | source/au3/ArpSIDSequencerEngine.h:294-339 | Counted in steps of the rate, step 2m of a pattern of even length, or walked to and fro, begins at 2m whatever the swing, and step 2m + 1 at 2m + 1 less half the swing, more by half of it in Reverse |
| `SequencerSwing.PairsOfStepsBegin` | source/au3/ArpSIDSequencerEngine.h:294-339 | For any two lengths, clamped ones too: step 2m begins m pairs after the first, step 2m + 1 an even step later, in Reverse an odd one |
| `SequencerEngines.RandomWalkIsTheGenerator` | source/au3/ArpSIDSequencerEngine.h:316-321 | In Random the first step is step 0, and each later one the next plain iterate of xorshift32 from the seed, reduced by the length |
| `Generator.KnownOutputs` | include/arpsid/core/math_utils.h:106-114 | The outputs of xorshift32 for three states, the zero state among them |
| `SequencerEngines.StatesAreIterates` | source/au3/ArpSIDSequencerEngine.h:316-321 | After any number of draws from any seed the state of Random is the plain iterate of xorshift32, so its reseeding branch is never taken, and from a reset on it is never zero |
| `SequencerTimeline.RunKeepsTime` | source/au3/ArpSIDSequencerEngine.h:181-234 | Over any run of consecutive windows from a reset, in every mode, each step is published once, in order, never late and at most a billionth of a beat early per window; the cursor is exactly on the clock if and only if no window ended within a billionth of a beat before a step |
| `SequencerTimeline.BoundaryKeepsTime` | source/au3/ArpSIDSequencerEngine.h:202-232 | Over such a run each boundary is early by at most a billionth of a beat for every window that ended before its own, however many follow |
| `SequencerTimeline.WindowEndingJustBefore` | source/au3/ArpSIDSequencerEngine.h:226-231 | The engine's own pattern, played in a window that ends half a billionth of a beat before its second step, publishes that step too early |
| `SequencerTimeline.WindowKeepsTime` | source/au3/ArpSIDSequencerEngine.h:202-232 | One window publishes exactly the steps that begin in it, each at its place on the timeline, and ends where the clock does or, inside the tolerance, at the end of the step |
| `SequencerTimeline.SegmentMoves` | source/au3/ArpSIDSequencerEngine.h:203-232 | Each pass of the window loop covers at least a billionth of a beat or ends the window, so the loop terminates |
| `SequencerTimeline.StartGrows` | source/au3/ArpSIDSequencerEngine.h:333-339 | Every step lasts at least a millionth of a beat |
| `SequencerTimeline.SlackIsLinear` | source/au3/ArpSIDSequencerEngine.h:226 | The drift allowed after n windows is n billionths of a beat |
| `SequencerSeek.SeekIsPlayIff` | source/au3/ArpSIDSequencerEngine.h:107-155 | In every mode but Random, for every length, swing and beat: seeking to the beat and playing up to it leave cursors with the same future if and only if the beat is not, after the start, in the last billionth of a beat of a step; a seek to the start or before it is a reset; every window from that beat on then publishes the same boundaries, and otherwise none does |
| `SequencerSeek.SeekJustBeforeMissesStep` | source/au3/ArpSIDSequencerEngine.h:147-151 | Half a billionth of a beat before the second step of the engine's own pattern, what follows a seek differs from what follows playing |
| `SequencerSeek.SameFutureSamePlay` | source/au3/ArpSIDSequencerEngine.h:181-234 | Cursors with the same future publish the same boundaries in every window to come |
| `SequencerSeek.SeekLands` | source/au3/ArpSIDSequencerEngine.h:123-151 | A seek lands in the step of the walk the beat falls in, as far into it as the beat is, but never in its last billionth of a beat |
| `SequencerSeek.CyclesRepeat` | source/au3/ArpSIDSequencerEngine.h:123-131 | n traversal cycles later the same step comes at the same distance, which justifies the reduction by fmod |
| `SequencerSeek.FModTakesOffCycles` | source/au3/ArpSIDSequencerEngine.h:132 | fmod takes off a whole number of cycles |
| `SequencerSeek.LocateFinds` | source/au3/ArpSIDSequencerEngine.h:137-151 | The search loop stops at the ordinal the beat falls in |
| `SequencerEngines.SequencerEngine.SyncToBeatPosition` | source/au3/ArpSIDSequencerEngine.h:107-155 | The method leaves the cursor of the specified seek |
| `SequencerEngines.SequencerEngine.AdvanceWindow` | source/au3/ArpSIDSequencerEngine.h:181-234 | The method leaves the cursor of the specified window and hands out its first boundaries with their frames; a disabled, empty or backward window changes nothing |
| `SequencerEngines.SequencerEngine.AdvanceCursor` | source/au3/ArpSIDSequencerEngine.h:294-327 | The method takes the specified step, drawing from the generator in Random |
| `SequencerEngines.SequencerEngine.StepIndexForTraversalOrdinal` | source/au3/ArpSIDSequencerEngine.h:263-292 | The method computes the closed form |
| `SequencerEngines.FrameHoldsBeat` | source/au3/ArpSIDSequencerEngine.h:341-347 | A beat of the window falls in the frame it is given; the clamp never bites |
| `SequencerEngines.OtherBeatsAreClamped` | source/au3/ArpSIDSequencerEngine.h:341-347 | A beat before the window gets its first frame, one behind it the last |
| `SequencerEngines.OffsetsAreOrderedFrames` | source/au3/ArpSIDSequencerEngine.h:213-217 | Published sample offsets are frames of the window, in nondecreasing order |
| `SequencerTimeline.BoundariesLieInWindow` | source/au3/ArpSIDSequencerEngine.h:202-232 | The boundaries of a window lie in it and strictly increase |
| `EventBuffers.RunSelects` | source/au3/ArpSIDCanonicalEvents.h:186-211 | After any pushes whose arrival numbers do not go back within a priority, repeated numbers included, the buffer holds the offline selection: as many events as fit, and nothing lost comes before anything held |
| `EventBuffers.PushSelectsIff` | source/au3/ArpSIDCanonicalEvents.h:187-208 | One push on a selection, of any event after any events, leaves the selection if and only if it does not meet a full buffer whose worst event is equally urgent and later numbered |
| `EventBuffers.EarlierNumberOverlooked` | source/au3/ArpSIDCanonicalEvents.h:200-207 | A buffer of any size, full of equally urgent events, refuses one numbered before them all |
| `EventBuffers.NoteZeroIsOverlooked` | source/au3/ArpSIDCanonicalEvents.h:200-207 | So the least buffer the build accepts does, full of notes numbered from 1 on, with the note numbered 0 |
| `EventBuffers.FirstOfEqualsIsReplaced` | source/au3/ArpSIDCanonicalEvents.h:188-206 | In a buffer full of events of one priority and number, in the order they were pushed, a more urgent one replaces the first pushed, and the later ones stay |
| `EventBuffers.SequencerLosesItsFirstNote` | source/au3/ArpSIDSequencerEngine.h:389-402 | So the notes of the sequencer, which it does not number, lose the first to a note-off |
| `EventArrivals.PushKeepsArrivalIff` | source/au3/ArpSIDCanonicalEvents.h:187-210 | One push, of any event after any events, on a buffer where, by priority and order of pushing, nothing left out comes before anything held, keeps this so if and only if it replaces nothing, or what it replaces is the last pushed of the least urgent held |
| `EventArrivals.NotesKeepArrivalIff` | source/au3/ArpSIDSequencerEngine.h:389-420 | Over every run of note-ons and note-offs with one number, the sequencer's own, nothing left out comes before anything held, by priority and order of pushing, if and only if no note-off came after it was full, or as many came as there were note-ons among the events that filled it |
| `EventArrivals.NotesGiveUpTheFirst` | source/au3/ArpSIDSequencerEngine.h:389-420 | In such a run each note-off that takes a place takes that of the note-on pushed first of those held |
| `EventArrivals.LastNoteStandsFirst` | source/au3/ArpSIDCanonicalEvents.h:188-206 | With a less urgent event pushed before notes that fill the buffer and one more, the note pushed last stands in its place and is the one a more urgent event replaces |
| `EventArrivals.LastNoteIsLost` | source/au3/ArpSIDCanonicalEvents.h:188-206 | So in the least buffer the build accepts: a controller, 512 notes and a note-off lose the last note |
| `EventBuffers.SelectionIsUnique` | source/au3/ArpSIDCanonicalEvents.h:186-211 | Two selections of the same pushes hold equally many events of each priority and number, and the same events when no two pushes share both |
| `EventBuffers.RunConserves` | source/au3/ArpSIDCanonicalEvents.h:186-211 | Of any kind of event, as many were pushed as are held and lost together |
| `EventBuffers.TelemetryCountsLosses` | source/au3/ArpSIDCanonicalEvents.h:146-179 | The total and every class counter are the numbers of losses, the count of replacements is the number of losses that had been held, and the overflow flag says whether there were any |
| `EventBuffers.PushesAreHeldOrDropped` | source/au3/ArpSIDCanonicalEvents.h:159-211 | Pushes equal count plus droppedTotal, and droppedTotal is the sum of the class counters |
| `EventBuffers.LostAreLessUrgent` | source/au3/ArpSIDCanonicalEvents.h:187-211 | However events are numbered and whatever is pushed, nothing lost is more urgent than anything held |
| `EventBuffers.UrgentEventsSurvive` | include/arpsid/core/sid_event_queue.h:46-76 | While the events at least as urgent as a priority fit the buffer none of them is ever lost, however they are numbered |
| `EventBuffers.WorstIsWorst` | source/au3/ArpSIDCanonicalEvents.h:188-198 | The scan finds the first of the least urgent, latest events |
| `EventBuffers.PushAnswers` | source/au3/ArpSIDCanonicalEvents.h:186-211 | A push says whether the event is in the buffer afterwards, and refused changes nothing there |
| `EventBuffers.OrderOfKinds` | include/arpsid/core/sid_event_queue.h:57-76 | The full order of urgency of the thirteen kinds |
| `EventBuffers.ClassesFollowUrgency` | source/au3/ArpSIDCanonicalEvents.h:146-179 | Each class of the counters is one stretch of that order, but that program changes count with the controllers |
| `EventBuffers.EventBuffer.PushEvent` | source/au3/ArpSIDCanonicalEvents.h:186-211 | The method performs the push of the specification on its array and counters |
| `EventBuffers.EventBuffer.Reset` | source/au3/ArpSIDCanonicalEvents.h:221 | A reset empties buffer and counters |
| `LittleEndian.PutU32` | source/vst3/arpsid_vst3_kernel_host.cpp:48-50 | Appends the four bytes of a number, lowest first |
| `LittleEndian.DecodedEncoded` | source/vst3/arpsid_vst3_kernel_host.cpp:48-54 | A number that fits its bytes comes back |
| `LittleEndian.EncodedDecoded` | source/vst3/arpsid_vst3_kernel_host.cpp:48-54 | Every byte string is the encoding of the number it decodes to |
| `LittleEndian.GetU32IsShifts` | source/vst3/arpsid_vst3_kernel_host.cpp:51-54 | Decoding is the sum of the shifted bytes |
| `ChunkFormat.ParseEncodeAll` | source/vst3/arpsid_vst3_kernel_host.cpp:55-61 | Whatever bytes the payloads hold, walking an encoding meets exactly its chunks |
| `ChunkFormat.ParseOfTruncated` | source/vst3/arpsid_vst3_kernel_host.cpp:294-298 | Cut anywhere, an encoding yields a prefix of its chunks |
| `ComponentState.InsertedChunksAreSkipped` | source/vst3/arpsid_vst3_kernel_host.cpp:362-363 | An unknown chunk of any content inserted at any boundary changes no result of the four readers |
| `ComponentState.ReadersSeeKnownChunksOnly` | source/vst3/arpsid_vst3_kernel_host.cpp:228-387 | The four readers depend only on the chunks they know, in order |
| `ComponentRoundTrips.LoadRestoresASave` | source/vst3/arpsid_vst3_kernel_host.cpp:166-387 | Loading a save restores every saved part of a host whose models are as the sanitisers leave them, whatever the loading host held before |
| `ComponentLoads.LoadFollowsTheChunks` | source/vst3/arpsid_vst3_kernel_host.cpp:272-387 | On any chunked state and any host: patch and panels end as the last chunk that sets them says, the DIGI model and bank only together and repaired, the bypass flag as its last chunk says and off without one; a preset leaves bypass flag and tune |
| `ComponentLoads.LoadLeavesTheTune` | source/vst3/arpsid_vst3_kernel_host.cpp:356-385 | On any host and any chunked state that is no preset: the host ends with the tune and subtune of the last SID chunk of an allowed size, if it plays, and with no tune otherwise |
| `ComponentLoads.SaveCarriesTheTune` | source/vst3/arpsid_vst3_kernel_host.cpp:199-210 | A save carries the tune, whole and with its subtune, exactly when the host holds a file and the kernel has it loaded |
| `ComponentLoads.LoadsAgreeOnTheTune` | source/vst3/arpsid_vst3_kernel_host.cpp:378-385 | Two hosts that load the same project end with the same tune |
| `ComponentLoads.LoadingAgainChangesNothing` | source/vst3/arpsid_vst3_kernel_host.cpp:272-387 | Loading any bytes twice is loading them once |
| `ComponentLoads.RuntimeIsMadeSafe` | source/au3/ArpSIDDSPKernel.hpp:1363-1395 | Whatever six bytes are loaded, the DIGI settings come into range: the nearest rate, the nearest note to seven bits, mode 0 and channel 16 for unknown ones |
| `ComponentRoundTrips.LoadKeepsTuneKnown` | source/vst3/arpsid_vst3_kernel_host.cpp:380-385 | Loading any bytes keeps a host without a tune free of a subtune |
| `ComponentRoundTrips.ReadersReadBackASave` | source/vst3/arpsid_vst3_kernel_host.cpp:228-270 | The static readers read the patch, the bypass flag and the absence of the preset marker back from a save |
| `ComponentRoundTrips.BypassAgreesIff` | source/vst3/arpsid_vst3_kernel_host.cpp:258-270 | On any project state, truncated or not, peeking at the bypass flag agrees with loading it if and only if the first and the last bypass chunk say the same |
| `ComponentRoundTrips.PeekAndLoadDisagree` | source/vst3/arpsid_vst3_kernel_host.cpp:258-270 | A state that says bypassed and then not bypassed is peeked as bypassed and loaded as not |
| `ComponentRoundTrips.UniqueBypassAgrees` | source/vst3/arpsid_vst3_kernel_host.cpp:258-270 | With at most one bypass chunk they always agree |
| `ComponentRoundTrips.RootAgreesIff` | source/vst3/arpsid_vst3_kernel_host.cpp:228-242 | On any chunked state, truncated or not, decoding the patch alone and loading agree on whether there is one and what it is if and only if the first root chunk decodes to what the last one that decodes does, or none decodes |
| `ComponentRoundTrips.SecondRootIsLoaded` | source/vst3/arpsid_vst3_kernel_host.cpp:302-309 | Of two root chunks, the first of which does not decode, decoding alone finds none and loading takes the second |
| `ComponentRoundTrips.UniqueRootAgrees` | source/vst3/arpsid_vst3_kernel_host.cpp:228-242 | On any state with at most one root chunk, legacy ones included, decoding the patch alone and loading agree on whether there is one and what it is |
| `ComponentRoundTrips.LoadTakesLastRoot` | source/vst3/arpsid_vst3_kernel_host.cpp:302-309 | Loading schedules the last root chunk that decodes, and reports whether there was one |
| `ComponentRoundTrips.PresetLoadsThePatchOnly` | source/vst3/arpsid_vst3_kernel_host.cpp:214-226 | Loading an encoded preset changes the patch and nothing else |
| `ComponentRoundTrips.ApplyAllViews` | source/vst3/arpsid_vst3_kernel_host.cpp:301-364 | Whatever chunks stand around it, each panel is left at what the last chunk that can set it says, and as it was when there is none |
| `ComponentRoundTrips.CollectsDigi` | source/vst3/arpsid_vst3_kernel_host.cpp:333-342 | The DIGI model taken over is that of the last model chunk, if it decodes, and the bank the last of the right size |
| `ComponentRoundTrips.PresetKeepsPanelsIff` | source/vst3/arpsid_vst3_kernel_host.cpp:294-375 | A preset state leaves a host as it is but for the patch if and only if the host already has all that the other chunks of the state set |
| `ComponentRoundTrips.PresetChangesThePatchOnlyIff` | source/vst3/arpsid_vst3_kernel_host.cpp:374-375 | A preset state changes the patch only, on every settled host, if and only if no chunk of it sets a panel and not both its last DIGI model decodes and one of its DIGI banks has the right size |
| `ComponentRoundTrips.MarkedStateSwitchesOutput` | source/vst3/arpsid_vst3_kernel_host.cpp:374-375 | A marked state with an output chunk switches the output of every host |
| `ComponentRoundTrips.ExportIsThePresetOfThePatch` | source/vst3/arpsid_vst3_preset_export.cpp:99-122 | Reducing a saved project gives the marked encoding of its patch, or nothing without an encodable patch; byte for byte this is the preset encoding of the patch if and only if the patch is encodable and valid: an invalid one the host refuses to encode, while the exporter does not look |
| `ComponentRoundTrips.RuntimeSurvives` | source/vst3/arpsid_vst3_kernel_host.cpp:188-195 | The DIGI settings survive their six bytes, the rate in three of them |
| `KernelHosts.FindFirst` | source/vst3/arpsid_vst3_kernel_host.cpp:232-241 | The walker loop finds the first chunk with a tag, stopping at a cut chunk |
| `KernelHosts.DecodeStateRoot` | source/vst3/arpsid_vst3_kernel_host.cpp:228-242 | Decodes the legacy blob or the first root chunk |
| `KernelHosts.IsPresetState` | source/vst3/arpsid_vst3_kernel_host.cpp:244-256 | Says whether a whole chunk carries the preset marker |
| `KernelHosts.DecodeBypass` | source/vst3/arpsid_vst3_kernel_host.cpp:258-270 | Says what the first bypass chunk says |
| `KernelHosts.EncodePresetState` | source/vst3/arpsid_vst3_kernel_host.cpp:214-226 | Writes the preset encoding, or nothing for a patch that is invalid or cannot be encoded |
| `KernelHosts.PresetStateFrom` | source/vst3/arpsid_vst3_preset_export.cpp:99-122 | Writes the exporter's reduction of a full state |
| `KernelHosts.Vst3KernelHost.SaveState` | source/vst3/arpsid_vst3_kernel_host.cpp:166-212 | Writes the chunks of the host in order |
| `KernelHosts.Vst3KernelHost.LoadState` | source/vst3/arpsid_vst3_kernel_host.cpp:272-387 | Performs the specified load on the host's fields |
| `DigiCapture.NeverBoth` | source/vst3/arpsid_vst3_kernel_host.cpp:506-515 | In every interleaving at most one of the audio and the UI thread is at the capture buffer |
| `DigiCapture.NoWriteAfterCancel` | source/vst3/arpsid_vst3_kernel_host.cpp:506-515 | Once cancel has returned, no interleaving writes the buffer before the next arm |
| `DigiCapture.TakeIsTheRecording` | source/vst3/arpsid_vst3_kernel_host.cpp:517-552 | In every interleaving a stop hands over exactly the prefix of the input since the arm that fits the buffer, normalised |
| `DigiCaptureCalls.TakesGoToTheArmedSlot` | source/vst3/arpsid_vst3_kernel_host.cpp:494-528 | The same told from the run alone: in every interleaving a take goes to the slot of the last arm begun with the UI thread at rest, and is the normalised prefix of the blocks accepted since |
| `DigiCaptureCalls.StopsAnswer` | source/vst3/arpsid_vst3_kernel_host.cpp:517-528 | In every interleaving a stop ends in a take exactly when the capture was armed as it began and something had been recorded; it is refused otherwise |
| `DigiCaptureCalls.ArmedIsAnswered` | source/vst3/arpsid_vst3_kernel_host.cpp:494-521 | In every interleaving the capture is armed, outside of the calls that disarm or arm it, exactly if an arm was the last of them to end |
| `DigiCaptureCalls.EveryBlockIsTaken` | source/vst3/arpsid_vst3_kernel_host.cpp:530-552 | At every step: a block handed to an idle audio thread is taken up, and is done with only by its own step, with the buffer free |
| `DigiCaptureCalls.BlocksAreRecorded` | source/vst3/arpsid_vst3_kernel_host.cpp:530-552 | In every interleaving a block is recorded whole, behind what was recorded before it, or not at all, and the latter only if the capture was not armed all the while |
| `DigiCaptureCalls.EveryCallIsAnswered` | source/vst3/arpsid_vst3_kernel_host.cpp:494-528 | At every step of either thread an arm ends only armed, a cancel only with the buffer free, a stop only with a take or a refusal; a slot that does not exist arms nothing |
| `DigiCaptureCalls.CancelWaitsForOneBlock` | source/vst3/arpsid_vst3_kernel_host.cpp:506-515 | However blocks keep coming, once the audio thread has taken the steps left for the block it is inside of, the waiting UI thread finds the buffer free |
| `DigiCaptureCalls.AudioNeverWaits` | source/vst3/arpsid_vst3_kernel_host.cpp:530-552 | The audio thread is done with a block after as many own steps as it has samples, and nine, whatever the UI thread does |
| `DigiCaptureCalls.CallsEnd` | source/vst3/arpsid_vst3_kernel_host.cpp:494-528 | Turns of waiting aside, every call of the UI thread ends after as many own steps as the buffer has room for, and seven |
| `DigiCaptureCalls.PeakIsLargest` | source/vst3/arpsid_vst3_kernel_host.cpp:536-545 | The peak is the magnitude of some sample, and no sample is louder |
| `DigiCaptureCalls.QuietTakesPeakAt99` | source/vst3/arpsid_vst3_kernel_host.cpp:522-527 | A take with a peak between 0.0001 and 0.99 is scaled to a peak of exactly 0.99; any other is left as it is |
| `DigiCapture.RunKeepsInv` | source/vst3/arpsid_vst3_kernel_host.cpp:494-552 | Every step of both threads keeps the invariant of the hand-off |
| `DigiCapture.NormalisedFits` | source/vst3/arpsid_vst3_kernel_host.cpp:522-527 | Normalising brings no sample above the larger of its old peak and 0.99 |
| `FileBank.LoadAfterSave` | source/arpsid_file_bank.cpp:229-325 | For 1 to 128 slots, loading a saved bank returns every root in its slot and every meta cut to its wire fields |
| `FileBank.AnyOrderLoads` | source/arpsid_file_bank.cpp:287-317 | Any order of the slot records, with anything behind them, loads the same bank |
| `FileBank.RecordsLoadIff` | source/arpsid_file_bank.cpp:287-317 | As many records as the header promises, of any slots whatever and with anything behind them, load if and only if no slot comes twice and every slot is in range |
| `FileBank.AllSlotsAreSeen` | source/arpsid_file_bank.cpp:319-321 | The final check that all slots were seen never fails |
| `FileBank.CutBankNeverLoads` | source/arpsid_file_bank.cpp:274-318 | A bank file cut anywhere before its end never loads |
| `FileBank.FailedSaveNeverLoads` | source/arpsid_file_bank.cpp:246-262 | The file a save leaves when a patch in the middle cannot be encoded does not load |
| `FileBank.EmptyBankIsRefused` | source/arpsid_file_bank.cpp:280-282 | A bank of no slots can be written but not read |
| `FileBank.HeaderDecides` | source/arpsid_file_bank.cpp:274-282 | For every header: another magic number and a later version are refused with their own errors, no slots or too many as bad; behind any other header a load fails only for its records, and an earlier version is read like this one |
| `FileBank.ShortFilesFail` | source/arpsid_file_bank.cpp:274-276 | A file is reported as unreadable exactly when it is shorter than a header |
| `FileBank.MetaRoundTrip` | source/arpsid_file_bank.cpp:68-102 | A meta comes back with its strings cut to 47, 23, 15 and 31 characters |
| `FileBank.SecondTripIsExact` | source/arpsid_file_bank.cpp:68-102 | A second trip changes nothing |
| `FileBank.SaveBank` | source/arpsid_file_bank.cpp:229-263 | Writes header and records, refuses too many slots or missing metas, and stops at the first patch that cannot be encoded |
| `FileBank.LoadBank` | source/arpsid_file_bank.cpp:266-325 | Performs the specified load with its error codes; on any failure the caller's patches and metas are unchanged |
| `FileBank.RecordReadsAs` | source/arpsid_file_bank.cpp:287-317 | A record as written, with anything behind it, is read as its slot, its patch and its cut meta with exactly what stood behind it left to read, or refused when the slot was seen before; cut short anywhere it is refused |
| `D418Capture.ReconstructZoh` | include/arpsid/core/c64_d418_capture.h:75-99 | For any writes whatever: every frame gets the level of the specification, in which each volume write begins at its frame or where an earlier one has played to, and the volume writes are counted |
| `D418Capture.LastWriteIsPlayedIff` | include/arpsid/core/c64_d418_capture.h:71-99 | For every list of writes, every clock and rate: every frame plays the last volume write at or before it if and only if no volume write has a host frame before both the end of the buffer and that of an earlier one; its level is then that of this write, 0 before the first |
| `D418Capture.OrderedWritesPlayTheLastLevel` | include/arpsid/core/c64_d418_capture.h:71-74 | So it is for writes in time order whose frames fit |
| `D418Capture.LateWriteIsPlayedLate` | include/arpsid/core/c64_d418_capture.h:91-92 | A write for frame 1000 and then a full one for frame 0: the frames before 1000 stay silent |
| `D418Capture.ExtractSamples` | include/arpsid/core/c64_d418_capture.h:50-69 | The first capacity volume writes in order, repeated values included; all of them when they fit, which is what the reconstruction plays |
| `D418Capture.SampleCarriesItsWrite` | include/arpsid/core/c64_d418_capture.h:62-66 | A sample keeps the time stamp and the value of its write, its host frame, and the low four bits as its level |
| `D418Capture.HostFrameIsMonotone` | include/arpsid/core/c64_d418_capture.h:39-45 | Later time stamps get no earlier frames, as long as the later one fits |
| `D418Capture.FrameHoldsStamp` | include/arpsid/core/c64_d418_capture.h:39-45 | A fitting frame is the one its time stamp lies in; a clock or a rate of zero counts as PAL or 48000 |
| `D418Capture.LevelsAreEven` | include/arpsid/core/c64_d418_capture.h:34-37 | The low nibble alone counts: 0 is -1, 15 is 1, each level is 2/15 above the one before |
| `D418Capture.RegisterIsMasked` | include/arpsid/core/c64_d418_capture.h:20-22 | A write counts when the low five bits of its address are 0x18 |
| `PresetMeta.NameSurvives` | source/vst3/arpsid_vst3_preset_file.h:49-68 | For every name, category and comment, protected or not, reading the name back from the written text gives the name |
| `PresetDocument.DocumentReadsBack` | source/vst3/arpsid_vst3_preset_file.h:49-68 | For every name, category and comment: a reader that takes the text attribute by attribute finds exactly the attributes written, in order, each with its id, its whole value and its protection; no text breaks out of its attribute |
| `PresetMeta.UnescapeInvertsEscape` | source/vst3/arpsid_vst3_preset_file.h:32-45 | Decoding the five predefined entities inverts the escaping, for every text |
| `PresetMeta.EscapedHasNoDelimiters` | source/vst3/arpsid_vst3_preset_file.h:32-45 | Escaped text holds no quotation mark, apostrophe or angle bracket |
| `PresetMeta.KeyMatchesAtName` | source/vst3/arpsid_vst3_preset_file.h:123-125 | The key first matches at the Name attribute |
| `PresetMeta.XmlEscape` | source/vst3/arpsid_vst3_preset_file.h:32-45 | The escaping loop |
| `PresetMeta.UndoEscape` | source/vst3/arpsid_vst3_preset_file.h:131-146 | The decoding loop |
| `PresetMeta.ReadName` | source/vst3/arpsid_vst3_preset_file.h:122-149 | The reader's search and decoding |
| `BlockAdmission.LessUrgentIsGivenUpFirst` | source/vst3/arpsid_vst3_processor.cpp:198-247 | No pressure or automation is kept while a note is given up, and no automation while pressure is |
| `BlockContents.ClampIsNearest` | source/vst3/arpsid_vst3_processor.cpp:212 | An offset inside the block is kept, any other goes to the nearest frame, and order is kept |
| `BlockContents.EventsStandInPlace` | source/vst3/arpsid_vst3_processor.cpp:198-242 | Every readable note of the list, and behind the notes every readable pressure, stands in the block's events in the order of the list, with its own payload at the frame nearest to its offset, as far as there is room |
| `BlockContents.AcceptedCount` | source/vst3/arpsid_vst3_processor.cpp:198-242 | Nothing else stands before the automation |
| `BlockContents.PointsStandInPlace` | source/vst3/arpsid_vst3_processor.cpp:266-291 | Every readable point that a queue keeps stands behind them in the order of queues and points, for its parameter, with its own value at the nearest frame, as far as there is room |
| `BlockContents.ShareIsLargest` | source/vst3/arpsid_vst3_processor.cpp:262-264 | All points are kept when they fit the room the budget leaves; otherwise each queue keeps the largest number that fits for all of them, at least one |
| `BlockContents.SharesAreEqual` | source/vst3/arpsid_vst3_processor.cpp:270 | Every queue keeps the same number of points, but for those that have no more |
| `BlockContents.GapsAreEven` | source/vst3/arpsid_vst3_processor.cpp:271-273 | From one kept point to the next it is points / keep steps or one more |
| `BlockAdmission.ThinnedIndicesIncrease` | source/vst3/arpsid_vst3_processor.cpp:273-278 | Thinned points lie in the queue, strictly increase and end at its last point |
| `BlockAdmission.KeptPointsAreAdmittedIff` | source/vst3/arpsid_vst3_processor.cpp:250-291 | With readable points, everything the queues keep reaches the engine if and only if there is room for one point a queue beside the notes and pressure |
| `BlockAdmission.LastPointsAreAdmitted` | source/vst3/arpsid_vst3_processor.cpp:244-249 | With that room, the last point of every readable queue reaches the engine, whatever the other queues do |
| `BlockAdmission.ContributionEndsOnLastPoint` | source/vst3/arpsid_vst3_processor.cpp:244-249 | Each queue's contribution ends on its last point |
| `BlockRender.EventScratch.CollectEvents` | source/vst3/arpsid_vst3_processor.cpp:192-291 | The loops fill the buffer with exactly the specified events, numbered in the order of admission |
| `BlockRender.CutBlock` | source/vst3/arpsid_vst3_processor.cpp:369-387 | The slice loop tiles the block and its events and rebases each event in place so that slice start plus offset is its old offset |
| `BlockRender.ExactlyOneSlice` | source/vst3/arpsid_vst3_processor.cpp:374-386 | Every event falls in exactly one slice |
| `BlockRender.SlicingKeepsTheFade` | source/vst3/arpsid_vst3_processor.cpp:319-333 | The bypass gains do not depend on where a block is cut |
| `BlockRender.FadeApproaches` | source/vst3/arpsid_vst3_processor.cpp:328-332 | The fade approaches its target by a step a frame and never overshoots |
| `BlockRender.ApplyBypass` | source/vst3/arpsid_vst3_processor.cpp:319-333 | The method lays the specified fade over every channel, one gain for all of a frame, leaving the channels or silencing them at rest |

## Left out

- Weak memory orders and the wrap of `size_t` positions: threads interleave in sequentially consistent memory and positions are unbounded.
- `BoundedMpscRing::drainAll` and `empty`: the first is repeated pops, the second an approximate hint.
- IEEE rounding: beats, gains and levels are real numbers, so the guards against values that are not finite never apply.
- Notes, gates, ties, ratchets and probability of the sequencer (`fireStep_`): step boundaries only; with probabilities below 1 the same generator also serves those draws, so the Random walk is the one of a pattern without them.
- Changing pattern, swing or mode while a pattern plays: the setters are modelled, the timeline theorems hold from a reset on with fixed settings.
- SequencerEngines.SequencerEngine.AdvanceWindow: leaves out the notes and gates that the same loop fires, see above; the boundaries and the cursor are complete.
- The kernel's own way of emptying the sequencer's buffer, by the count alone: its counters run on over blocks, where the model counts since a reset.
- `EventBuffer::sort` and the sort of a block's events: library sorts by an order of another file; the slice loop takes events in order of their offsets.
- `SidTimedEventQueue` with its reserve for releases, and the conversions between it and the event buffer.
- The codecs behind a payload (`SidStateRootV1`, settings, mix, kit and DIGI models): abstract functions, of which a round trip assumes that decoding inverts encoding and that sanitised models are left alone.
- FileBank.DecodeMeta: a wire field without a terminator is read on into the following fields, and reading stops at the end of the record, where the source gives no meaning.
- File handles, directories, mutexes, the VST3 interfaces and the kernel's own handling of what is scheduled: inputs and results are values.
- `Vst3KernelHost::publishModelsLocked_`, the engine mode request and the import of a take into its slot (`setDigiUserSample`): calls into code outside the model.
- The mixing of the capture input down to one channel, and the translation of a host event's fields (a note-on without velocity is a note-off): blocks are mono and payloads opaque.
- Transport and silence flags of `process`, 64-bit conversion, and a bypass switch in the middle of a block.
- Single-patch files, the directory export and the factory bank: the same records one at a time.
- Factory tables, parameter metadata, effects and the SID emulation itself: data and signal processing without a structural law to prove.
