// What the calls of the capture answer in every interleaving, told from the actions of the
// run alone: which slot was armed, what was recorded, how a stop ends; and that every call
// ends.
module DigiCaptureCalls {
  import opened Basics
  import opened Reals
  import opened DigiCapture

  // ---- histories ------------------------------------------------------------------------

  /** The slot of the last arm begun while the UI thread was at rest. */
  function LastArm(s: Capture, actions: seq<Action>): Option<nat> {
    if actions == [] then None
    else
      var before, a := actions[..|actions| - 1], actions[|actions| - 1];
      if a.StartArm? && 0 <= a.slot < ACTIVE_SLOTS && ExecAll(s, before).user.Resting? then Some(a.slot)
      else LastArm(s, before)
  }

  /** Whether the capture was armed when the last stop was begun. */
  predicate StopSawArmed(s: Capture, actions: seq<Action>) {
    if actions == [] then false
    else
      var before, a := actions[..|actions| - 1], actions[|actions| - 1];
      if a.StartStop? && ExecAll(s, before).user.Resting? then ExecAll(s, before).armed
      else StopSawArmed(s, before)
  }

  /** Whether the last of the answers "armed" and "the buffer is free" was the first. */
  predicate ArmedSince(s: Capture, actions: seq<Action>) {
    if actions == [] then false
    else
      var e := Exec(ExecAll(s, actions[..|actions| - 1]), actions[|actions| - 1]).1;
      e.Armed? || (!e.Cancelled? && ArmedSince(s, actions[..|actions| - 1]))
  }

  predicate Accepts(s: Capture, a: Action) { a.AudioStep? && s.audio.CheckAgain? && s.armed }

  /** The blocks accepted since the capture was last armed, one after another. */
  function Recorded(s: Capture, actions: seq<Action>): seq<real> {
    if actions == [] then []
    else
      var before, a := actions[..|actions| - 1], actions[|actions| - 1];
      var r := ExecAll(s, before);
      if Exec(r, a).1.Armed? then []
      else if Accepts(r, a) then Recorded(s, before) + r.audio.block
      else Recorded(s, before)
  }

  /** The block the host handed in last, and what had been recorded since the last arm
      before it. */
  function LastBlock(s: Capture, actions: seq<Action>): Block {
    if actions == [] then []
    else
      var before, a := actions[..|actions| - 1], actions[|actions| - 1];
      if a.StartBlock? && ExecAll(s, before).audio.Idle? then a.block else LastBlock(s, before)
  }

  function Older(s: Capture, actions: seq<Action>): seq<real> {
    if actions == [] then []
    else
      var before, a := actions[..|actions| - 1], actions[|actions| - 1];
      if Exec(ExecAll(s, before), a).1.Armed? then []
      else if a.StartBlock? && ExecAll(s, before).audio.Idle? then Recorded(s, before)
      else Older(s, before)
  }

  /** The capture has been armed ever since that block was handed in. */
  predicate ArmedThroughout(s: Capture, actions: seq<Action>) {
    && actions != []
    && ExecAll(s, actions).armed
    && var before, a := actions[..|actions| - 1], actions[|actions| - 1];
       ((a.StartBlock? && ExecAll(s, before).audio.Idle?) || ArmedThroughout(s, before))
  }

  // ---- the slot ---------------------------------------------------------------------------

  /** The slot the UI thread is about to store, or has stored. */
  predicate SlotIs(r: Capture, slot: nat) {
    match r.user
    case Disarm(ThenArm(x)) => x == slot
    case WaitIdle(ThenArm(x)) => x == slot
    case Allocate(x) => x == slot
    case StoreSlot(x) => x == slot
    case _ => r.slot == slot
  }

  /** Nothing has been armed yet. */
  predicate NeverArmed(r: Capture) {
    && !r.armed
    && match r.user
       case Resting => true
       case LoadArmed => true
       case Disarm(after) => after.JustCancel? || after == ThenStop(false)
       case WaitIdle(after) => after.JustCancel? || after == ThenStop(false)
       case ReadFrames(wasArmed) => !wasArmed
       case _ => false
  }

  predicate SlotFollows(r: Capture, last: Option<nat>) {
    match last
    case Some(slot) => SlotIs(r, slot)
    case None => NeverArmed(r)
  }

  lemma {:induction false} SlotStep(r: Capture, a: Action, last: Option<nat>)
    requires SlotFollows(r, last)
    ensures SlotFollows(Exec(r, a).0, if a.StartArm? && 0 <= a.slot < ACTIVE_SLOTS && r.user.Resting? then Some(a.slot)
                                      else last)
  {
    if a.AudioStep? {
      AudioLeavesUser(r);
    } else if a.UserStep? {
      UserSlotStep(r, last);
    }
  }

  lemma {:induction false} UserSlotStep(r: Capture, last: Option<nat>)
    requires SlotFollows(r, last)
    ensures SlotFollows(UserStepped(r).0, last)
  {}

  lemma {:induction false} AudioLeavesUser(r: Capture)
    ensures var r' := AudioStepped(r).0; r'.user == r.user && r'.slot == r.slot && r'.armed == r.armed
    ensures !AudioStepped(r).1.Armed? && !AudioStepped(r).1.Take? && !AudioStepped(r).1.Refused?
  {}

  lemma {:induction false} SlotFollowsRun(s: Capture, actions: seq<Action>)
    requires Initial(s)
    ensures SlotFollows(ExecAll(s, actions), LastArm(s, actions))
  {
    if actions != [] {
      SlotFollowsRun(s, actions[..|actions| - 1]);
      SlotStep(ExecAll(s, actions[..|actions| - 1]), actions[|actions| - 1], LastArm(s, actions[..|actions| - 1]));
    }
  }

  // ---- what is recorded ---------------------------------------------------------------------

  /** The input the machine keeps for itself is what was recorded, but for the moment
      between emptying the capture and arming it. */
  lemma {:induction false} InputIsRecorded(s: Capture, actions: seq<Action>)
    requires Initial(s)
    ensures var r := ExecAll(s, actions);
            if r.user.ZeroPeak? || r.user.StoreArmed? then r.input == [] else r.input == Recorded(s, actions)
  {
    if actions != [] {
      var before, a := actions[..|actions| - 1], actions[|actions| - 1];
      InputIsRecorded(s, before);
      RunKeepsInv(s, before);
      InputStep(ExecAll(s, before), a);
    }
  }

  lemma {:induction false} InputStep(r: Capture, a: Action)
    requires Handshake(r)
    ensures var (r', e) := Exec(r, a);
            && (Accepts(r, a) ==> !r.user.ZeroPeak? && !r.user.StoreArmed? && !r'.user.ZeroPeak?)
            && (e.Armed? ==> r.user.StoreArmed? && a.UserStep?)
            && (r'.user.StoreArmed? <==> if a.UserStep? then r.user.ZeroPeak? else r.user.StoreArmed?)
            && (r'.user.ZeroPeak? <==> if a.UserStep? then r.user.ZeroFrames? else r.user.ZeroPeak?)
            && r'.input == if a.UserStep? && r.user.ZeroFrames? then []
                           else if Accepts(r, a) then r.input + r.audio.block else r.input
  {
    if a.AudioStep? { AudioLeavesUser(r); }
  }

  /** Where a block stands: nothing of it recorded yet, or all of it. */
  predicate BlockFollows(r: Capture, recorded: seq<real>, older: seq<real>, block: Block, live: bool) {
    match r.audio
    case Idle => true
    case CheckArmed(b) => b == block && recorded == older
    case SetBusy(b) => b == block && recorded == older
    case CheckAgain(b) => b == block && recorded == older
    case ClearBusy => recorded == older + block || (recorded == older && !live)
    case _ => recorded == older + block
  }

  lemma {:induction false} BlockStep(r: Capture, a: Action, recorded: seq<real>, older: seq<real>, block: Block,
                                     live: bool)
    requires Handshake(r) && BlockFollows(r, recorded, older, block, live) && (live ==> r.armed)
    requires !Exec(r, a).1.Armed? && !(a.StartBlock? && r.audio.Idle?)
    ensures var live' := live && Exec(r, a).0.armed;
            BlockFollows(Exec(r, a).0, if Accepts(r, a) then recorded + r.audio.block else recorded, older, block,
                         live')
  {}

  lemma {:induction false} BlockFollowsRun(s: Capture, actions: seq<Action>)
    requires Initial(s)
    ensures BlockFollows(ExecAll(s, actions), Recorded(s, actions), Older(s, actions), LastBlock(s, actions),
                         ArmedThroughout(s, actions))
  {
    if actions != [] {
      var before, a := actions[..|actions| - 1], actions[|actions| - 1];
      var r := ExecAll(s, before);
      BlockFollowsRun(s, before);
      RunKeepsInv(s, before);
      if Exec(r, a).1.Armed? {
        ArmingKeepsBlock(r, a, Recorded(s, before), Older(s, before), LastBlock(s, before), ArmedThroughout(s, before));
      } else if !(a.StartBlock? && r.audio.Idle?) {
        BlockStep(r, a, Recorded(s, before), Older(s, before), LastBlock(s, before), ArmedThroughout(s, before));
      }
    }
  }

  lemma {:induction false} ArmingKeepsBlock(r: Capture, a: Action, recorded: seq<real>, older: seq<real>, block: Block,
                                            live: bool)
    requires Handshake(r) && Exec(r, a).1.Armed? && BlockFollows(r, recorded, older, block, live) && (live ==> r.armed)
    ensures BlockFollows(Exec(r, a).0, [], [], block, live && Exec(r, a).0.armed) && !live
  {
    InputStep(r, a);
  }

  /** No block is lost: in every interleaving, when the audio thread is done with a block,
      the whole block has been recorded behind what was recorded since the arm, or nothing
      of it, and that only if the capture was not armed all the while. */
  lemma {:induction false} BlocksAreRecorded(s: Capture, actions: seq<Action>, a: Action)
    requires Initial(s)
    requires !ExecAll(s, actions).audio.Idle? && Exec(ExecAll(s, actions), a).0.audio.Idle?
    ensures var recorded := Recorded(s, actions + [a]);
            || recorded == Older(s, actions + [a]) + LastBlock(s, actions + [a])
            || (recorded == Older(s, actions + [a]) && !ArmedThroughout(s, actions + [a]))
  {
    BlockFollowsRun(s, actions);
    RunKeepsInv(s, actions);
    assert (actions + [a])[..|actions|] == actions;
    BlockEnds(ExecAll(s, actions), a);
  }

  lemma {:induction false} BlockEnds(r: Capture, a: Action)
    requires !r.audio.Idle? && Exec(r, a).0.audio.Idle?
    ensures a.AudioStep? && !Accepts(r, a) && !Exec(r, a).1.Armed?
    ensures (r.audio.CheckArmed? && !r.armed) || r.audio.ClearBusy?
  {
    if a.UserStep? { UserLeavesAudio(r); }
  }

  // ---- when it is armed -------------------------------------------------------------------

  /** The UI thread has not disarmed the capture, and is not arming it. */
  predicate Undisturbed(r: Capture) { r.user.Resting? || r.user.LoadArmed? || r.user.Disarm? }

  /** In every interleaving the capture is armed, outside of the calls that disarm or arm
      it, exactly if an arm was the last of them to end; inside of them it is not. */
  lemma {:induction false} ArmedIsAnswered(s: Capture, actions: seq<Action>)
    requires Initial(s)
    ensures var r := ExecAll(s, actions);
            && (r.armed <==> Undisturbed(r) && ArmedSince(s, actions))
            && (ArmedSince(s, actions) ==> Undisturbed(r) || r.user.WaitIdle?)
  {
    if actions != [] {
      var before, a := actions[..|actions| - 1], actions[|actions| - 1];
      ArmedIsAnswered(s, before);
      RunKeepsInv(s, before);
      ArmedStep(ExecAll(s, before), a, ArmedSince(s, before));
    }
  }

  lemma {:induction false} ArmedStep(r: Capture, a: Action, since: bool)
    requires (r.armed <==> Undisturbed(r) && since) && (since ==> Undisturbed(r) || r.user.WaitIdle?)
    ensures var (r', e) := Exec(r, a);
            var since' := e.Armed? || (!e.Cancelled? && since);
            && (r'.armed <==> Undisturbed(r') && since')
            && (since' ==> Undisturbed(r') || r'.user.WaitIdle?)
  {
    if a.AudioStep? { AudioGivesNoAnswer(r); AudioLeavesUser(r); }
  }

  // ---- how a stop ends -----------------------------------------------------------------------

  predicate StopFollows(r: Capture, saw: bool) {
    match r.user
    case LoadArmed => r.armed == saw
    case Disarm(ThenStop(w)) => w == saw
    case WaitIdle(ThenStop(w)) => w == saw
    case ReadFrames(w) => w == saw
    case ReadPeak(_) => saw
    case Scale(_, _, _) => saw
    case Publish(_) => saw
    case _ => true
  }

  lemma {:induction false} StopStep(r: Capture, a: Action, saw: bool)
    requires StopFollows(r, saw)
    ensures StopFollows(Exec(r, a).0, if a.StartStop? && r.user.Resting? then r.armed else saw)
  {
    if a.AudioStep? { AudioLeavesUser(r); }
  }

  lemma {:induction false} StopFollowsRun(s: Capture, actions: seq<Action>)
    requires Initial(s)
    ensures StopFollows(ExecAll(s, actions), StopSawArmed(s, actions))
  {
    if actions != [] {
      var before, a := actions[..|actions| - 1], actions[|actions| - 1];
      StopFollowsRun(s, before);
      StopStep(ExecAll(s, before), a, StopSawArmed(s, before));
    }
  }

  /** The take, told from the run alone: in every interleaving a stop hands over, under the
      slot of the last arm, the normalised prefix of what was recorded since that fits. */
  lemma {:induction false} TakesGoToTheArmedSlot(s: Capture, actions: seq<Action>, a: Action)
    requires Initial(s) && Exec(ExecAll(s, actions), a).1.Take?
    ensures LastArm(s, actions).Some?
    ensures Exec(ExecAll(s, actions), a).1
            == Take(LastArm(s, actions).value, Normalised(s.gainOf, Prefix(Recorded(s, actions), s.maxFrames)))
  {
    var r := ExecAll(s, actions);
    SlotFollowsRun(s, actions);
    InputIsRecorded(s, actions);
    if a.AudioStep? { AudioLeavesUser(r); }
    TakeIsTheRecording(s, actions, a);
  }

  /** In every interleaving a stop ends in a take exactly when the capture was armed as the
      stop began and something has been recorded, and is refused otherwise. */
  lemma {:induction false} StopsAnswer(s: Capture, actions: seq<Action>, a: Action)
    requires Initial(s)
    ensures var (e, takes) := (Exec(ExecAll(s, actions), a).1, StopSawArmed(s, actions) && Recorded(s, actions) != []);
            && (e.Take? ==> takes) && (e.Refused? ==> !takes)
  {
    var r := ExecAll(s, actions);
    StopFollowsRun(s, actions);
    InputIsRecorded(s, actions);
    RunKeepsInv(s, actions);
    if a.AudioStep? {
      AudioLeavesUser(r);
    } else if a.UserStep? && r.user.ReadFrames? {
      if r.user.wasArmed { FramesTellInput(r); }
    } else if a.UserStep? && r.user.Publish? {
      PublishedTake(r);
    }
  }

  /** With the audio thread out of the way, frames are stored exactly if there is input. */
  lemma {:induction false} FramesTellInput(r: Capture)
    requires Inv(r) && r.user.ReadFrames? && r.user.wasArmed
    ensures r.frames == 0 <==> r.input == []
  {
    assert Before(r) == r.input;
  }

  // ---- how the calls of the UI thread go -------------------------------------------------------

  datatype Call = NoCall | Arming(slot: nat) | Cancelling | Stopping

  function CallAfter(after: After): Call {
    match after
    case JustCancel => Cancelling
    case ThenArm(slot) => Arming(slot)
    case ThenStop(_) => Stopping
  }

  /** The call the UI thread is inside of; arming has stored its slot from ZeroFrames on. */
  function UserCall(r: Capture): Call {
    match r.user
    case Resting => NoCall
    case LoadArmed => Stopping
    case Disarm(after) => CallAfter(after)
    case WaitIdle(after) => CallAfter(after)
    case Allocate(slot) => Arming(slot)
    case StoreSlot(slot) => Arming(slot)
    case ZeroFrames => Arming(r.slot)
    case ZeroPeak => Arming(r.slot)
    case StoreArmed => Arming(r.slot)
    case _ => Stopping
  }

  /** An arm ends armed, a cancel once the buffer is free, a stop with a take or a refusal;
      nothing else ends a call, and no other step gives such an answer. */
  predicate CallGoesOn(c: Call, a: Action, e: Event, c': Call) {
    match c
    case NoCall =>
      && !e.Armed? && !e.Cancelled? && !e.Take? && !e.Refused?
      && c' == (match a
                case StartArm(slot) => if 0 <= slot < ACTIVE_SLOTS then Arming(slot) else NoCall
                case StartCancel => Cancelling
                case StartStop => Stopping
                case _ => NoCall)
    case Arming(_) => !e.Take? && !e.Refused? && c' == if e.Armed? then NoCall else c
    case Cancelling => !e.Armed? && !e.Take? && !e.Refused? && c' == if e.Cancelled? then NoCall else c
    case Stopping => !e.Armed? && c' == if e.Take? || e.Refused? then NoCall else c
  }

  lemma {:induction false} EveryCallIsAnswered(r: Capture, a: Action)
    ensures CallGoesOn(UserCall(r), a, Exec(r, a).1, UserCall(Exec(r, a).0))
  {
    if a.AudioStep? {
      AudioGivesNoAnswer(r);
    } else if a.UserStep? {
      UserStepAnswers(r);
    }
  }

  lemma {:induction false} UserStepAnswers(r: Capture)
    ensures CallGoesOn(UserCall(r), UserStep, UserStepped(r).1, UserCall(UserStepped(r).0))
  {
    if Taking(r) { TakingAnswers(r); } else { ArmingAnswers(r); }
  }

  lemma {:induction false} TakingAnswers(r: Capture)
    requires Taking(r)
    ensures CallGoesOn(UserCall(r), UserStep, UserStepped(r).1, UserCall(UserStepped(r).0))
  {}

  lemma {:induction false} ArmingAnswers(r: Capture)
    requires !Taking(r)
    ensures CallGoesOn(UserCall(r), UserStep, UserStepped(r).1, UserCall(UserStepped(r).0))
  {}

  lemma {:induction false} AudioGivesNoAnswer(r: Capture)
    ensures var (r', e) := AudioStepped(r);
            r'.user == r.user && r'.slot == r.slot && !e.Armed? && !e.Cancelled? && !e.Take? && !e.Refused?
  {}

  /** The audio thread takes up a block exactly when the host hands it one and it has none,
      and is done with it only by a step of its own, which leaves the buffer free. */
  lemma {:induction false} EveryBlockIsTaken(r: Capture, a: Action)
    requires Handshake(r)
    ensures var r' := Exec(r, a).0;
            && (r.audio.Idle? ==> (r'.audio.Idle? <==> !a.StartBlock?))
            && (!r.audio.Idle? && r'.audio.Idle? ==> a.AudioStep? && !r'.busy)
  {
    if a.UserStep? { UserLeavesAudio(r); }
  }

  // ---- progress -------------------------------------------------------------------------------------

  /** How many own steps the audio thread still needs for its block. */
  function AudioLeft(r: Capture): nat {
    match r.audio
    case Idle => 0
    case CheckArmed(block) => |block| + 9
    case SetBusy(block) => |block| + 8
    case CheckAgain(block) => |block| + 7
    case LoadFrames(block) => |block| + 6
    case LoadPeak(block, _) => |block| + 5
    case Write(block, i, _, _) => if i <= |block| then |block| - i + 4 else 4
    case StorePeak(_, _) => 3
    case StoreFrames(_) => 2
    case ClearBusy => 1
  }

  /** How many more of them may find it busy, once the capture is disarmed. */
  function BusyLeft(r: Capture): nat { if r.audio.CheckArmed? then 0 else AudioLeft(r) }

  /** How many own steps the UI thread still needs, turns of waiting aside. */
  function UserLeft(r: Capture): nat {
    match r.user
    case Resting => 0
    case LoadArmed => r.maxFrames + 7
    case Disarm(_) => r.maxFrames + 6
    case WaitIdle(_) => r.maxFrames + 5
    case Allocate(_) => 5
    case StoreSlot(_) => 4
    case ZeroFrames => 3
    case ZeroPeak => 2
    case StoreArmed => 1
    case ReadFrames(_) => r.maxFrames + 4
    case ReadPeak(frames) => frames + 3
    case Scale(frames, _, i) => if i <= frames then frames - i + 2 else 2
    case Publish(_) => 1
  }

  function AudioSteps(actions: seq<Action>): nat {
    if actions == [] then 0
    else AudioSteps(actions[..|actions| - 1]) + if actions[|actions| - 1].AudioStep? then 1 else 0
  }

  /** The steps of the UI thread in the run from r, without those that wait in vain. */
  function UserSteps(r: Capture, actions: seq<Action>): nat {
    if actions == [] then 0
    else
      var before := ExecAll(r, actions[..|actions| - 1]);
      UserSteps(r, actions[..|actions| - 1])
        + if actions[|actions| - 1].UserStep? && !(before.user.WaitIdle? && before.busy) then 1 else 0
  }

  /** The audio thread is inside a block in all of the run from r. */
  ghost predicate StaysInBlock(r: Capture, actions: seq<Action>) {
    !ExecAll(r, actions).audio.Idle? && (actions != [] ==> StaysInBlock(r, actions[..|actions| - 1]))
  }

  ghost predicate StaysInCall(r: Capture, actions: seq<Action>) {
    !ExecAll(r, actions).user.Resting? && (actions != [] ==> StaysInCall(r, actions[..|actions| - 1]))
  }

  ghost predicate StaysWaiting(r: Capture, actions: seq<Action>) {
    ExecAll(r, actions).user.WaitIdle? && (actions != [] ==> StaysWaiting(r, actions[..|actions| - 1]))
  }

  /** The audio thread never waits: whatever the UI thread does, it is done with a block
      after as many own steps as the block has samples, and nine. */
  lemma {:induction false} AudioNeverWaits(r: Capture, actions: seq<Action>)
    requires StaysInBlock(r, actions)
    ensures AudioSteps(actions) + AudioLeft(ExecAll(r, actions)) <= AudioLeft(r)
  {
    if actions != [] {
      AudioNeverWaits(r, actions[..|actions| - 1]);
      AudioProgresses(ExecAll(r, actions[..|actions| - 1]), actions[|actions| - 1]);
    }
  }

  lemma {:induction false} AudioProgresses(r: Capture, a: Action)
    requires !r.audio.Idle?
    ensures AudioLeft(Exec(r, a).0) + (if a.AudioStep? then 1 else 0) <= AudioLeft(r)
  {
    if a.UserStep? {
      UserLeavesAudio(r);
    } else if a.AudioStep? {
      AudioStepProgresses(r);
    }
  }

  lemma {:induction false} AudioStepProgresses(r: Capture)
    requires !r.audio.Idle?
    ensures AudioLeft(AudioStepped(r).0) < AudioLeft(r)
  {}

  lemma {:induction false} UserLeavesAudio(r: Capture)
    ensures UserStepped(r).0.audio == r.audio && UserStepped(r).0.maxFrames == r.maxFrames
  {}

  /** A cancel, and with it an arm or a stop, waits for one block at the most: after the
      steps that the audio thread needs for the block it is inside of, the UI thread finds
      the buffer free, however many blocks the host goes on to hand in. */
  lemma {:induction false} CancelWaitsForOneBlock(r: Capture, actions: seq<Action>)
    requires Inv(r) && StaysWaiting(r, actions)
    ensures BusyLeft(ExecAll(r, actions)) <= Max(0, BusyLeft(r) - AudioSteps(actions))
    ensures AudioSteps(actions) >= BusyLeft(r) ==> Exec(ExecAll(r, actions), UserStep).1 == Cancelled
  {
    BusyRunsOut(r, actions);
    RunFromKeepsInv(r, actions);
    FreeIsFound(ExecAll(r, actions));
  }

  lemma {:induction false} BusyRunsOut(r: Capture, actions: seq<Action>)
    requires Inv(r) && StaysWaiting(r, actions)
    ensures BusyLeft(ExecAll(r, actions)) <= Max(0, BusyLeft(r) - AudioSteps(actions))
  {
    if actions != [] {
      BusyRunsOut(r, actions[..|actions| - 1]);
      RunFromKeepsInv(r, actions[..|actions| - 1]);
      WaitingProgresses(ExecAll(r, actions[..|actions| - 1]), actions[|actions| - 1]);
    }
  }

  lemma {:induction false} FreeIsFound(r: Capture)
    requires Handshake(r) && r.user.WaitIdle?
    ensures BusyLeft(r) == 0 ==> UserStepped(r).1 == Cancelled
  {}

  lemma {:induction false} WaitingProgresses(r: Capture, a: Action)
    requires Handshake(r) && r.user.WaitIdle?
    ensures BusyLeft(Exec(r, a).0) <= if a.AudioStep? then Max(0, BusyLeft(r) - 1) else BusyLeft(r)
  {
    if a.UserStep? { UserLeavesAudio(r); }
  }

  /** But for that every call of the UI thread ends after as many own steps as the buffer
      has room for, and seven. */
  lemma {:induction false} CallsEnd(r: Capture, actions: seq<Action>)
    requires Inv(r) && StaysInCall(r, actions)
    ensures UserSteps(r, actions) + UserLeft(ExecAll(r, actions)) <= UserLeft(r)
  {
    if actions != [] {
      CallsEnd(r, actions[..|actions| - 1]);
      RunFromKeepsInv(r, actions[..|actions| - 1]);
      UserProgresses(ExecAll(r, actions[..|actions| - 1]), actions[|actions| - 1]);
    }
  }

  lemma {:induction false} UserProgresses(r: Capture, a: Action)
    requires Inv(r) && !r.user.Resting?
    ensures UserLeft(Exec(r, a).0) + (if a.UserStep? && !(r.user.WaitIdle? && r.busy) then 1 else 0) <= UserLeft(r)
  {
    if a.AudioStep? {
      AudioKeepsSize(r);
      AudioLeavesUser(r);
    } else if a.UserStep? {
      UserStepProgresses(r);
    }
  }

  lemma {:induction false} UserStepProgresses(r: Capture)
    requires BufferOk(r) && FramesOk(r) && UserOk(r) && !r.user.Resting?
    ensures UserLeft(UserStepped(r).0) + (if r.user.WaitIdle? && r.busy then 0 else 1) <= UserLeft(r)
  {
    if Taking(r) { TakingProgresses(r); } else { ArmingProgresses(r); }
  }

  /** The UI thread is past the waiting of a stop. */
  predicate Taking(r: Capture) { r.user.ReadFrames? || r.user.ReadPeak? || r.user.Scale? || r.user.Publish? }

  lemma {:induction false} TakingProgresses(r: Capture)
    requires |r.buffer| <= r.maxFrames && r.frames <= |r.buffer| && UserOk(r) && Taking(r)
    ensures UserLeft(UserStepped(r).0) + 1 <= UserLeft(r)
  {}

  lemma {:induction false} ArmingProgresses(r: Capture)
    requires r.maxFrames > 0 && !r.user.Resting? && !Taking(r)
    ensures UserLeft(UserStepped(r).0) + (if r.user.WaitIdle? && r.busy then 0 else 1) <= UserLeft(r)
  {}

  // ---- the level of a take ------------------------------------------------------------------------

  /** The peak is the magnitude of some sample, and none is louder. */
  lemma {:induction false} PeakIsLargest(s: seq<real>) returns (i: nat)
    requires s != []
    ensures i < |s| && Peak(s) == Abs(s[i])
    ensures forall j :: 0 <= j < |s| ==> Abs(s[j]) <= Peak(s)
  {
    var n := |s| - 1;
    if n == 0 {
      i := 0;
    } else {
      var k := PeakIsLargest(s[..n]);
      i := if Peak(s[..n]) < Abs(s[n]) then n else k;
    }
    forall j | 0 <= j < |s| ensures Abs(s[j]) <= Peak(s) { PeakBounds(s, j); }
  }

  /** A take with a peak between 0.0001 and 0.99 is brought to a peak of 0.99 without
      changing its shape; any other is left as it is. */
  lemma {:induction false} QuietTakesPeakAt99(s: seq<real>)
    ensures var take := Normalised(Gain, s);
            if 0.0001 < Peak(s) < 0.99 then
              && Peak(take) == 0.99
              && forall i :: 0 <= i < |s| ==> Product(take[i], Peak(s)) == Product(s[i], 0.99)
            else take == s
  {
    var p, g := Peak(s), Gain(Peak(s));
    forall i | 0 <= i < |s| ensures Normalised(Gain, s)[i] == Product(s[i], g) { AmplifiedAt(s, g, |s|, i); }
    if 0.0001 < p < 0.99 {
      GainTimesPeak(p);
      ScaledPeak(s, Normalised(Gain, s), g);
      forall i | 0 <= i < |s| ensures Product(Normalised(Gain, s)[i], p) == Product(s[i], 0.99) {
        assert Product(Product(s[i], g), p) == Product(s[i], Product(p, g));
      }
    }
  }

  lemma {:induction false} GainTimesPeak(p: real)
    requires 0.0001 < p < 0.99
    ensures Gain(p) > 1.0 && Product(p, Gain(p)) == 0.99
  {}

  lemma {:induction false} ScaledPeak(s: seq<real>, t: seq<real>, g: real)
    requires g > 0.0 && |t| == |s| && forall i :: 0 <= i < |s| ==> t[i] == Product(s[i], g)
    ensures Peak(t) == Product(Peak(s), g)
  {
    if s != [] {
      var n := |s| - 1;
      ScaledPeak(s[..n], t[..n], g);
      ScaledMagnitude(s[n], g);
      ProductKeepsOrder(MinReal(Peak(s[..n]), Abs(s[n])), MaxReal(Peak(s[..n]), Abs(s[n])), g);
    }
  }

  lemma {:induction false} ScaledMagnitude(x: real, g: real)
    requires g > 0.0
    ensures Abs(Product(x, g)) == Product(Abs(x), g)
  {}
}
