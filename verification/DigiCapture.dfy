// The hand-off of a capture buffer between the UI thread and the audio thread, as an
// interleaved step machine: every atomic load or store and every sample written is one
// step, in sequentially consistent memory.
module DigiCapture {
  import opened Reals

  /** Pads that can be captured to; arming any other is refused. */
  const ACTIVE_SLOTS := 8

  /** One mono block of the capture input, already mixed down. */
  type Block = seq<real>

  /** Where the audio thread stands inside captureDigiInput. */
  datatype Audio =
    | Idle
    | CheckArmed(block: Block)
    | SetBusy(block: Block)
    | CheckAgain(block: Block)
    | LoadFrames(block: Block)
    | LoadPeak(block: Block, pos: nat)
    | Write(block: Block, i: nat, pos: nat, peak: real)
    | StorePeak(pos: nat, peak: real)
    | StoreFrames(pos: nat)
    | ClearBusy

  /** What the UI thread goes on to once a capture is cancelled. */
  datatype After = JustCancel | ThenArm(slot: nat) | ThenStop(wasArmed: bool)

  /** Where the UI thread stands inside arm, cancel or stop. */
  datatype UserThread =
    | Resting
    | LoadArmed
    | Disarm(after: After)
    | WaitIdle(after: After)
    | Allocate(slot: nat)
    | StoreSlot(slot: nat)
    | ZeroFrames
    | ZeroPeak
    | StoreArmed
    | ReadFrames(wasArmed: bool)
    | ReadPeak(frames: nat)
    | Scale(frames: nat, gain: real, i: nat)
    | Publish(frames: nat)

  /** gainOf is the normalising rule; input and scaled are history variables: the samples
      of every block accepted since the capture was armed, and whether the buffer has been
      normalised since. */
  datatype Capture = Capture(
    maxFrames: nat, gainOf: real -> real, armed: bool, busy: bool, frames: nat, peak: real, slot: nat,
    buffer: seq<real>, audio: Audio, user: UserThread, input: seq<real>, scaled: bool)

  datatype Event =
    | Internal
    | Stored(pos: nat)
    | Armed
    | Cancelled
    | Refused
    | Take(slot: nat, samples: seq<real>)

  datatype Action =
    | StartBlock(block: Block)
    | AudioStep
    | StartArm(slot: int)
    | StartCancel
    | StartStop
    | UserStep

  function Abs(x: real): real { if x < 0.0 then -x else x }

  /** The largest magnitude of a take. */
  function Peak(s: seq<real>): (p: real)
    ensures p >= 0.0
  {
    if s == [] then 0.0 else MaxReal(Peak(s[..|s| - 1]), Abs(s[|s| - 1]))
  }

  /** Quiet takes are brought up to nearly full scale. */
  function Gain(peak: real): real { if 0.0001 < peak < 0.99 then 0.99 / peak else 1.0 }

  /** The first n samples multiplied by g. */
  function Amplified(s: seq<real>, g: real, n: nat): (r: seq<real>)
    requires n <= |s|
    ensures |r| == |s|
  {
    if n == 0 then s else Amplified(s, g, n - 1)[n - 1 := Product(s[n - 1], g)]
  }

  lemma {:induction false} AmplifiedAt(s: seq<real>, g: real, n: nat, i: nat)
    requires n <= |s| && i < |s|
    ensures Amplified(s, g, n)[i] == if i < n then Product(s[i], g) else s[i]
  {
    if n > 0 { AmplifiedAt(s, g, n - 1, i); }
  }

  /** The take a stop hands over: what was recorded while armed, normalised. */
  function Normalised(gainOf: real -> real, s: seq<real>): (r: seq<real>)
    ensures |r| == |s|
  {
    Amplified(s, gainOf(Peak(s)), |s|)
  }

  function Prefix(s: seq<real>, n: nat): (r: seq<real>)
    ensures |r| == if n < |s| then n else |s|
  {
    if n < |s| then s[..n] else s
  }

  /** One sample of a block stored, its magnitude taken into the peak. */
  function Storing(s: Capture, block: Block, i: nat, pos: nat, peak: real): Capture
    requires i < |block| && pos < |s.buffer|
  {
    s.(buffer := s.buffer[pos := block[i]], audio := Write(block, i + 1, pos + 1, MaxReal(peak, Abs(block[i]))))
  }

  function AudioStepped(s: Capture): (Capture, Event) {
    match s.audio
    case Idle => (s, Internal)
    case CheckArmed(block) => (s.(audio := if s.armed then SetBusy(block) else Idle), Internal)
    case SetBusy(block) => (s.(busy := true, audio := CheckAgain(block)), Internal)
    case CheckAgain(block) =>
      if s.armed then (s.(audio := LoadFrames(block), input := s.input + block), Internal)
      else (s.(audio := ClearBusy), Internal)
    case LoadFrames(block) => (s.(audio := LoadPeak(block, s.frames)), Internal)
    case LoadPeak(block, pos) => (s.(audio := Write(block, 0, pos, s.peak)), Internal)
    case Write(block, i, pos, peak) =>
      if i < |block| && pos < |s.buffer| then
        (Storing(s, block, i, pos, peak), Stored(pos))
      else (s.(audio := StorePeak(pos, peak)), Internal)
    case StorePeak(pos, peak) => (s.(peak := peak, audio := StoreFrames(pos)), Internal)
    case StoreFrames(pos) => (s.(frames := pos, audio := ClearBusy), Internal)
    case ClearBusy => (s.(busy := false, audio := Idle), Internal)
  }

  function UserStepped(s: Capture): (Capture, Event) {
    match s.user
    case Resting => (s, Internal)
    case LoadArmed => (s.(user := Disarm(ThenStop(s.armed))), Internal)
    case Disarm(after) => (s.(armed := false, user := WaitIdle(after)), Internal)
    case WaitIdle(after) =>
      if s.busy then (s, Internal)
      else
        (s.(user := match after
                    case JustCancel => Resting
                    case ThenArm(slot) => Allocate(slot)
                    case ThenStop(wasArmed) => ReadFrames(wasArmed)), Cancelled)
    case Allocate(slot) =>
      var buffer := if |s.buffer| != s.maxFrames then Zeros(s.maxFrames) else s.buffer;
      (s.(buffer := buffer, user := StoreSlot(slot)), Internal)
    case StoreSlot(slot) => (s.(slot := slot, user := ZeroFrames), Internal)
    case ZeroFrames => (s.(frames := 0, user := ZeroPeak, input := [], scaled := false), Internal)
    case ZeroPeak => (s.(peak := 0.0, user := StoreArmed), Internal)
    case StoreArmed => (s.(armed := true, user := Resting), Armed)
    case ReadFrames(wasArmed) =>
      if !wasArmed || s.frames == 0 then (s.(user := Resting), Refused)
      else (s.(user := ReadPeak(s.frames)), Internal)
    case ReadPeak(frames) => (s.(user := Scale(frames, s.gainOf(s.peak), 0), scaled := true), Internal)
    case Scale(frames, gain, i) =>
      if i < frames && i < |s.buffer| && gain != 1.0 then
        (s.(buffer := s.buffer[i := Product(s.buffer[i], gain)], user := Scale(frames, gain, i + 1)), Internal)
      else (s.(user := Publish(frames)), Internal)
    case Publish(frames) => (s.(user := Resting), Take(s.slot, Prefix(s.buffer, frames)))
  }

  function Zeros(n: nat): (r: seq<real>)
    ensures |r| == n
  {
    seq(n, i => 0.0)
  }

  function Exec(s: Capture, a: Action): (Capture, Event) {
    match a
    case StartBlock(block) => (if s.audio.Idle? then s.(audio := CheckArmed(block)) else s, Internal)
    case AudioStep => AudioStepped(s)
    case StartArm(slot) =>
      (if s.user.Resting? && 0 <= slot < ACTIVE_SLOTS then s.(user := Disarm(ThenArm(slot))) else s, Internal)
    case StartCancel => (if s.user.Resting? then s.(user := Disarm(JustCancel)) else s, Internal)
    case StartStop => (if s.user.Resting? then s.(user := LoadArmed) else s, Internal)
    case UserStep => UserStepped(s)
  }

  predicate Initial(s: Capture) {
    && s.maxFrames > 0 && !s.armed && !s.busy && s.frames == 0 && s.peak == 0.0 && s.buffer == []
    && s.audio.Idle? && s.user.Resting? && s.input == [] && !s.scaled
  }

  function ExecAll(s: Capture, actions: seq<Action>): Capture {
    if actions == [] then s
    else Exec(ExecAll(s, actions[..|actions| - 1]), actions[|actions| - 1]).0
  }

  /** The event of the j-th action of a run. */
  function EventAt(s: Capture, actions: seq<Action>, j: nat): Event
    requires j < |actions|
  {
    Exec(ExecAll(s, actions[..j]), actions[j]).1
  }

  // ---- the invariant -----------------------------------------------------------------

  /** The audio thread is between seeing the capture armed and clearing busy. */
  predicate Writing(s: Capture) {
    || s.audio.LoadFrames? || s.audio.LoadPeak? || s.audio.Write? || s.audio.StorePeak? || s.audio.StoreFrames?
  }

  /** The UI thread has the buffer to itself. */
  predicate Owning(s: Capture) {
    || s.user.Allocate? || s.user.StoreSlot? || s.user.ZeroFrames? || s.user.ZeroPeak? || s.user.StoreArmed?
    || s.user.ReadFrames? || s.user.ReadPeak? || s.user.Scale? || s.user.Publish?
  }

  predicate Handshake(s: Capture) {
    && (s.busy <==> (Writing(s) || s.audio.CheckAgain? || s.audio.ClearBusy?))
    && (Writing(s) ==> (s.armed || s.user.WaitIdle?))
    && (s.armed ==> (s.user.Resting? || s.user.LoadArmed? || s.user.Disarm?))
  }

  /** The samples of input that had been stored before the block being written. */
  function Before(s: Capture): seq<real> {
    match s.audio
    case LoadFrames(block) => if |block| <= |s.input| then s.input[..|s.input| - |block|] else s.input
    case LoadPeak(block, _) => if |block| <= |s.input| then s.input[..|s.input| - |block|] else s.input
    case Write(block, _, _, _) => if |block| <= |s.input| then s.input[..|s.input| - |block|] else s.input
    case _ => s.input
  }

  predicate Holds(s: Capture, n: nat) {
    n <= |s.buffer| && n <= |s.input| && s.buffer[..n] == s.input[..n]
  }

  predicate Stocked(s: Capture, kept: seq<real>) {
    s.frames == |Prefix(kept, |s.buffer|)| && (s.user.ZeroPeak? || s.peak == Peak(Prefix(kept, |s.buffer|)))
  }

  predicate AudioOk(s: Capture) {
    match s.audio
    case LoadFrames(block) => |block| <= |s.input| && s.input[|s.input| - |block|..] == block
    case LoadPeak(block, pos) =>
      |block| <= |s.input| && s.input[|s.input| - |block|..] == block && pos == s.frames
    case Write(block, i, pos, peak) =>
      && |block| <= |s.input| && s.input[|s.input| - |block|..] == block
      && i <= |block| && pos <= |s.buffer|
      && (i > 0 ==> pos == |s.input| - |block| + i)
      && (i == 0 ==> pos == s.frames)
      && Holds(s, pos) && peak == Peak(s.input[..pos])
    case StorePeak(pos, peak) =>
      pos == |Prefix(s.input, |s.buffer|)| && Holds(s, pos) && peak == Peak(s.input[..pos])
    case StoreFrames(pos) =>
      pos == |Prefix(s.input, |s.buffer|)| && Holds(s, pos) && s.peak == Peak(s.input[..pos])
    case _ => true
  }

  predicate BufferOk(s: Capture) {
    && (|s.buffer| == 0 || |s.buffer| == s.maxFrames) && s.maxFrames > 0
    && (|s.buffer| == 0 ==> s.input == [] && !s.armed && !Writing(s))
    && (s.user.StoreSlot? || s.user.ZeroFrames? || s.user.ZeroPeak? || s.user.StoreArmed? ==> |s.buffer| == s.maxFrames)
    && (s.scaled ==> !Writing(s) && !s.armed && !s.user.StoreArmed? && !s.user.ZeroPeak?)
  }

  predicate FramesOk(s: Capture) {
    && s.frames <= |s.buffer|
    && (!s.scaled ==> Holds(s, s.frames))
    && (!s.audio.StoreFrames? && !s.audio.StorePeak? && !s.scaled ==> Stocked(s, Before(s)))
  }

  predicate Inv(s: Capture) {
    Handshake(s) && BufferOk(s) && AudioOk(s) && FramesOk(s) && UserOk(s)
  }

  /** While a take is normalised, its scaled part is scaled and the rest is the input. */
  predicate UserOk(s: Capture) {
    match s.user
    case StoreArmed => s.input == [] && s.frames == 0 && s.peak == 0.0
    case ZeroPeak => s.input == [] && s.frames == 0
    case ReadFrames(wasArmed) => wasArmed ==> !s.scaled
    case Disarm(ThenStop(wasArmed)) => wasArmed == s.armed
    case WaitIdle(ThenStop(wasArmed)) => wasArmed ==> !s.scaled
    case ReadPeak(frames) => !s.scaled && frames == s.frames > 0
    case Scale(frames, gain, i) =>
      && s.scaled && 0 < frames == s.frames == |Prefix(s.input, |s.buffer|)| && i <= frames
      && gain == s.gainOf(Peak(s.input[..frames]))
      && s.buffer[..frames] == Amplified(s.input[..frames], gain, i)
    case Publish(frames) =>
      && s.scaled && 0 < frames == s.frames == |Prefix(s.input, |s.buffer|)|
      && s.buffer[..frames] == Normalised(s.gainOf, s.input[..frames])
    case _ => true
  }

  // ---- every step keeps the invariant --------------------------------------------------

  lemma {:induction false} PeakOfPrefix(s: seq<real>, n: nat)
    requires n < |s|
    ensures Peak(s[..n + 1]) == MaxReal(Peak(s[..n]), Abs(s[n]))
  {
    assert s[..n + 1][..n] == s[..n];
  }

  lemma {:induction false} StartsWriting(s: Capture)
    requires Inv(s) && s.audio.CheckAgain? && s.armed
    ensures Inv(AudioStepped(s).0)
  {
    var s' := AudioStepped(s).0;
    assert Before(s') == s.input;
    assert s'.input[..s.frames] == s.input[..s.frames];
  }

  lemma {:induction false} LoadsFrames(s: Capture)
    requires Inv(s) && s.audio.LoadFrames?
    ensures Inv(AudioStepped(s).0)
  {
    assert Before(AudioStepped(s).0) == Before(s);
  }

  lemma {:induction false} LoadsPeak(s: Capture)
    requires Inv(s) && s.audio.LoadPeak?
    ensures Inv(AudioStepped(s).0)
  {
    var block := s.audio.block;
    var before := Before(s);
    assert before == s.input[..|s.input| - |block|];
    assert Prefix(before, |s.buffer|) == s.input[..s.frames];
  }

  lemma {:induction false} StoresSample(s: Capture)
    requires Inv(s) && s.audio.Write? && s.audio.i < |s.audio.block| && s.audio.pos < |s.buffer|
    ensures Inv(AudioStepped(s).0)
  {
    WritePosition(s);
    StoredSampleIsInput(s, s.audio.block, s.audio.i, s.audio.pos, s.audio.peak);
    StoringKeepsFrames(s);
  }

  /** The sample stored is the next of the input. */
  lemma {:induction false} StoredSampleIsInput(s: Capture, block: Block, i: nat, pos: nat, peak: real)
    requires s.audio == Write(block, i, pos, peak) && AudioOk(s) && i < |block| && pos < |s.buffer|
    requires pos == |s.input| - |block| + i
    ensures AudioOk(Storing(s, block, i, pos, peak))
  {
    NextOfBlock(s.buffer, s.input, block, i, pos);
    PeakOfPrefix(s.input, pos);
  }

  lemma {:induction false} WritePosition(s: Capture)
    requires Inv(s) && s.audio.Write? && s.audio.pos < |s.buffer|
    ensures s.audio.pos == |s.input| - |s.audio.block| + s.audio.i
  {
    assert Before(s) == s.input[..|s.input| - |s.audio.block|];
  }

  lemma {:induction false} NextOfBlock(buffer: seq<real>, input: seq<real>, block: seq<real>, i: nat, pos: nat)
    requires i < |block| <= |input| && input[|input| - |block|..] == block
    requires pos < |buffer| && pos == |input| - |block| + i && buffer[..pos] == input[..pos]
    ensures input[pos] == block[i] && buffer[pos := block[i]][..pos + 1] == input[..pos + 1]
  {
    assert input[pos] == input[|input| - |block|..][i];
    assert input[..pos + 1] == input[..pos] + [input[pos]];
    assert buffer[pos := block[i]][..pos + 1] == buffer[..pos] + [block[i]];
  }

  lemma {:induction false} StoringKeepsFrames(s: Capture)
    requires Inv(s) && s.audio.Write? && s.audio.i < |s.audio.block| && s.audio.pos < |s.buffer|
    ensures FramesOk(AudioStepped(s).0)
  {
    var s' := AudioStepped(s).0;
    var block, before := s.audio.block, Before(s);
    assert before == s.input[..|s.input| - |block|];
    assert Before(s') == before && s.frames <= s.audio.pos;
    assert s'.buffer[..s.frames] == s.buffer[..s.frames];
  }

  lemma {:induction false} EndsBlock(s: Capture)
    requires Inv(s) && s.audio.Write? && !(s.audio.i < |s.audio.block| && s.audio.pos < |s.buffer|)
    ensures Inv(AudioStepped(s).0)
  {
    var Write(block, i, pos, peak) := s.audio;
    var before := Before(s);
    assert before == s.input[..|s.input| - |block|];
    assert pos == |Prefix(s.input, |s.buffer|)|;
  }

  lemma {:induction false} StoresFrames(s: Capture)
    requires Inv(s) && s.audio.StoreFrames?
    ensures Inv(AudioStepped(s).0)
  {
    var pos := s.audio.pos;
    assert Prefix(s.input, |s.buffer|) == s.input[..pos];
  }

  lemma {:induction false} AudioKeepsInv(s: Capture)
    requires Inv(s)
    ensures Inv(AudioStepped(s).0)
  {
    match s.audio
    case CheckAgain(_) => if s.armed { StartsWriting(s); }
    case LoadFrames(_) => LoadsFrames(s);
    case LoadPeak(_, _) => LoadsPeak(s);
    case Write(block, i, pos, _) =>
      if i < |block| && pos < |s.buffer| { StoresSample(s); } else { EndsBlock(s); }
    case StoreFrames(_) => StoresFrames(s);
    case _ => AudioOutsideKeepsInv(s);
  }

  lemma {:induction false} AudioOutsideKeepsInv(s: Capture)
    requires Inv(s) && (!Writing(s) || s.audio.StorePeak?) && !s.audio.CheckAgain?
    ensures Inv(AudioStepped(s).0)
  {
    assert Before(AudioStepped(s).0) == s.input;
  }

  lemma {:induction false} AllocateKeepsInv(s: Capture)
    requires Inv(s) && s.user.Allocate?
    ensures Inv(UserStepped(s).0)
  {
    if |s.buffer| != s.maxFrames {
      var s' := UserStepped(s).0;
      assert Prefix(s.input, |s.buffer|) == [] && Prefix(s'.input, |s'.buffer|) == [];
    }
  }

  lemma {:induction false} ZeroFramesKeepsInv(s: Capture)
    requires Inv(s) && s.user.ZeroFrames?
    ensures Inv(UserStepped(s).0)
  {
    var s' := UserStepped(s).0;
    assert s'.buffer[..0] == s'.input[..0];
  }

  lemma {:induction false} ReadFramesKeepsInv(s: Capture)
    requires Inv(s) && s.user.ReadFrames?
    ensures Inv(UserStepped(s).0)
  {}

  lemma {:induction false} ReadPeakKeepsInv(s: Capture)
    requires Inv(s) && s.user.ReadPeak?
    ensures Inv(UserStepped(s).0)
  {
    var n := s.frames;
    assert Before(s) == s.input;
    assert Prefix(s.input, |s.buffer|) == s.input[..n];
    forall k | 0 <= k < n ensures s.buffer[k] == s.input[k] {
      assert s.buffer[..n][k] == s.input[..n][k];
    }
  }

  lemma {:induction false} ScaleKeepsInv(s: Capture)
    requires Inv(s) && s.user.Scale?
    ensures Inv(UserStepped(s).0)
  {
    var Scale(frames, gain, i) := s.user;
    if i < frames && gain != 1.0 {
      ScaleOneKeepsInv(s, Product(s.buffer[i], gain));
    } else {
      if i < frames { UnitGain(s.input[..frames], gain, i); }
      ScaledKeepsInv(s, s.(user := Publish(frames)));
    }
  }

  lemma {:induction false} ScaleOneKeepsInv(s: Capture, v: real)
    requires Inv(s) && s.user.Scale? && s.user.i < s.user.frames && v == Product(s.buffer[s.user.i], s.user.gain)
    ensures Inv(s.(buffer := s.buffer[s.user.i := v], user := Scale(s.user.frames, s.user.gain, s.user.i + 1)))
  {
    var Scale(frames, gain, i) := s.user;
    ScalesOne(s.buffer, s.input[..frames], frames, gain, i, v);
    ScaledKeepsInv(s, s.(buffer := s.buffer[i := v], user := Scale(frames, gain, i + 1)));
  }

  lemma {:induction false} ScaledKeepsInv(s: Capture, s': Capture)
    requires Inv(s) && s.user.Scale? && s' == s.(buffer := s'.buffer, user := s'.user)
    requires |s'.buffer| == |s.buffer| && (s'.user.Scale? || s'.user.Publish?) && UserOk(s')
    ensures Inv(s')
  {}

  lemma {:induction false} ScalesOne(buffer: seq<real>, input: seq<real>, frames: nat, gain: real, i: nat, v: real)
    requires i < frames == |input| <= |buffer| && buffer[..frames] == Amplified(input, gain, i)
    requires v == Product(buffer[i], gain)
    ensures buffer[i := v][..frames] == Amplified(input, gain, i + 1)
  {
    AmplifiedAt(input, gain, i, i);
    assert buffer[i] == buffer[..frames][i] == input[i];
    var scaled, amplified := buffer[i := v][..frames], Amplified(input, gain, i + 1);
    forall k | 0 <= k < frames ensures scaled[k] == amplified[k] {
      AmplifiedAt(input, gain, i + 1, k);
      AmplifiedAt(input, gain, i, k);
      if k != i { assert scaled[k] == buffer[..frames][k]; }
    }
  }

  lemma {:induction false} UnitGain(input: seq<real>, gain: real, i: nat)
    requires i <= |input| && gain == 1.0
    ensures Amplified(input, gain, i) == Amplified(input, gain, |input|)
  {
    forall k | 0 <= k < |input| ensures Amplified(input, gain, i)[k] == Amplified(input, gain, |input|)[k] {
      AmplifiedAt(input, gain, i, k);
      AmplifiedAt(input, gain, |input|, k);
    }
  }

  lemma {:induction false} UserKeepsInv(s: Capture)
    requires Inv(s)
    ensures Inv(UserStepped(s).0)
  {
    match s.user
    case Allocate(_) => AllocateKeepsInv(s);
    case ZeroFrames => ZeroFramesKeepsInv(s);
    case ReadFrames(_) => ReadFramesKeepsInv(s);
    case ReadPeak(_) => ReadPeakKeepsInv(s);
    case Scale(_, _, _) => ScaleKeepsInv(s);
    case _ => UserElsewhereKeepsInv(s);
  }

  lemma {:induction false} UserElsewhereKeepsInv(s: Capture)
    requires Inv(s)
    requires !s.user.Allocate? && !s.user.ZeroFrames? && !s.user.ReadFrames? && !s.user.ReadPeak? && !s.user.Scale?
    ensures Inv(UserStepped(s).0)
  {
    match s.user
    case Resting =>
    case LoadArmed => UserMoves(s, UserStepped(s).0);
    case Disarm(_) => DisarmKeepsInv(s);
    case WaitIdle(_) => if !s.busy { UserMoves(s, UserStepped(s).0); }
    case StoreSlot(_) => UserMoves(s, UserStepped(s).0);
    case ZeroPeak => ZeroPeakKeepsInv(s);
    case StoreArmed => StoreArmedKeepsInv(s);
    case Publish(_) => UserMoves(s, UserStepped(s).0);
  }

  /** The UI thread moving on without touching what the audio thread uses. */
  lemma {:induction false} UserMoves(s: Capture, s': Capture)
    requires Inv(s) && s' == s.(user := s'.user, slot := s'.slot)
    requires Handshake(s') && UserOk(s') && BufferOk(s') && !s'.user.ZeroPeak? && !s.user.ZeroPeak?
    ensures Inv(s')
  {
    assert Before(s') == Before(s);
  }

  lemma {:induction false} DisarmKeepsInv(s: Capture)
    requires Inv(s) && s.user.Disarm?
    ensures Inv(UserStepped(s).0)
  {
    assert Before(UserStepped(s).0) == Before(s);
  }

  lemma {:induction false} ZeroPeakKeepsInv(s: Capture)
    requires Inv(s) && s.user.ZeroPeak?
    ensures Inv(UserStepped(s).0)
  {
    assert Prefix([], |s.buffer|) == [];
  }

  lemma {:induction false} StoreArmedKeepsInv(s: Capture)
    requires Inv(s) && s.user.StoreArmed?
    ensures Inv(UserStepped(s).0)
  {}

  lemma {:induction false} StartKeepsInv(s: Capture, a: Action)
    requires Inv(s) && !a.AudioStep? && !a.UserStep?
    ensures Inv(Exec(s, a).0) && Exec(s, a).0.maxFrames == s.maxFrames && Exec(s, a).0.gainOf == s.gainOf
  {
    if a.StartBlock? { StartBlockKeepsInv(s, a.block); } else { UserStartKeepsInv(s, a); }
  }

  lemma {:induction false} StartBlockKeepsInv(s: Capture, block: Block)
    requires Inv(s)
    ensures Inv(Exec(s, StartBlock(block)).0)
  {
    assert Before(Exec(s, StartBlock(block)).0) == Before(s);
  }

  lemma {:induction false} UserStartKeepsInv(s: Capture, a: Action)
    requires Inv(s) && (a.StartArm? || a.StartCancel? || a.StartStop?)
    ensures Inv(Exec(s, a).0)
  {
    if s.user.Resting? { UserMoves(s, Exec(s, a).0); }
  }

  lemma {:induction false} StepsKeepSize(s: Capture)
    ensures AudioStepped(s).0.maxFrames == s.maxFrames && UserStepped(s).0.maxFrames == s.maxFrames
    ensures AudioStepped(s).0.gainOf == s.gainOf && UserStepped(s).0.gainOf == s.gainOf
  {
    AudioKeepsSize(s);
    UserKeepsSize(s);
  }

  lemma {:induction false} AudioKeepsSize(s: Capture)
    ensures AudioStepped(s).0.maxFrames == s.maxFrames && AudioStepped(s).0.gainOf == s.gainOf
  {}

  lemma {:induction false} UserKeepsSize(s: Capture)
    ensures UserStepped(s).0.maxFrames == s.maxFrames && UserStepped(s).0.gainOf == s.gainOf
  {}

  lemma {:induction false} InitialInv(s: Capture)
    requires Initial(s)
    ensures Inv(s)
  {
    assert Prefix([], 0) == [];
  }

  lemma {:induction false} RunKeepsInv(s: Capture, actions: seq<Action>)
    requires Initial(s)
    ensures Inv(ExecAll(s, actions)) && ExecAll(s, actions).maxFrames == s.maxFrames
    ensures ExecAll(s, actions).gainOf == s.gainOf
  {
    InitialInv(s);
    RunFromKeepsInv(s, actions);
  }

  lemma {:induction false} RunFromKeepsInv(s: Capture, actions: seq<Action>)
    requires Inv(s)
    ensures Inv(ExecAll(s, actions)) && ExecAll(s, actions).maxFrames == s.maxFrames
    ensures ExecAll(s, actions).gainOf == s.gainOf
  {
    if actions != [] {
      RunFromKeepsInv(s, actions[..|actions| - 1]);
      ExecKeepsInv(ExecAll(s, actions[..|actions| - 1]), actions[|actions| - 1]);
    }
  }

  lemma {:induction false} ExecKeepsInv(s: Capture, a: Action)
    requires Inv(s)
    ensures Inv(Exec(s, a).0) && Exec(s, a).0.maxFrames == s.maxFrames && Exec(s, a).0.gainOf == s.gainOf
  {
    StepsKeepSize(s);
    if a.AudioStep? {
      AudioKeepsInv(s);
    } else if a.UserStep? {
      UserKeepsInv(s);
    } else {
      StartKeepsInv(s, a);
    }
  }

  // ---- what every interleaving obeys -------------------------------------------------------

  /** Mutual exclusion: in every reachable state at most one thread has the buffer. */
  lemma {:induction false} NeverBoth(s: Capture, actions: seq<Action>)
    requires Initial(s)
    ensures !(Writing(ExecAll(s, actions)) && Owning(ExecAll(s, actions)))
  {
    RunKeepsInv(s, actions);
  }

  /** Disarmed, and no block under way. */
  predicate Quiet(s: Capture) { !s.armed && !Writing(s) }

  lemma {:induction false} QuietUntilArmed(s: Capture, a: Action)
    requires Quiet(s) && !Exec(s, a).1.Armed?
    ensures Quiet(Exec(s, a).0)
  {}

  lemma {:induction false} QuietStoresNothing(s: Capture, a: Action)
    requires Quiet(s)
    ensures !Exec(s, a).1.Stored?
  {}

  lemma {:induction false} StaysQuiet(s: Capture, actions: seq<Action>, i: nat, j: nat)
    requires i <= j <= |actions| && Quiet(ExecAll(s, actions[..i]))
    requires forall k :: i <= k < j ==> !EventAt(s, actions, k).Armed?
    ensures Quiet(ExecAll(s, actions[..j]))
  {
    if i < j {
      StaysQuiet(s, actions, i, j - 1);
      var r := ExecAll(s, actions[..j - 1]);
      assert EventAt(s, actions, j - 1) == Exec(r, actions[j - 1]).1;
      QuietUntilArmed(r, actions[j - 1]);
      ExecAllMore(s, actions, j - 1);
    }
  }

  lemma {:induction false} ExecAllMore(s: Capture, actions: seq<Action>, j: nat)
    requires j < |actions|
    ensures ExecAll(s, actions[..j + 1]) == Exec(ExecAll(s, actions[..j]), actions[j]).0
  {
    assert actions[..j + 1][..j] == actions[..j];
  }

  /** Once cancel has returned, no interleaving writes the buffer before the next arm. */
  lemma {:induction false} NoWriteAfterCancel(s: Capture, actions: seq<Action>, i: nat, j: nat)
    requires Initial(s) && i < j < |actions| && EventAt(s, actions, i) == Cancelled
    requires forall k :: i < k < j ==> !EventAt(s, actions, k).Armed?
    ensures !EventAt(s, actions, j).Stored?
  {
    RunKeepsInv(s, actions[..i]);
    CancelledIsQuiet(ExecAll(s, actions[..i]), actions[i]);
    ExecAllMore(s, actions, i);
    StaysQuiet(s, actions, i + 1, j);
    QuietStoresNothing(ExecAll(s, actions[..j]), actions[j]);
  }

  lemma {:induction false} CancelledIsQuiet(s: Capture, a: Action)
    requires Handshake(s) && Exec(s, a).1 == Cancelled
    ensures Quiet(Exec(s, a).0)
  {
    if a.AudioStep? {
      AudioNeverCancels(s);
    } else if a.UserStep? {
      WaitedIsQuiet(s);
    }
  }

  lemma {:induction false} AudioNeverCancels(s: Capture)
    ensures AudioStepped(s).1 != Cancelled
  {}

  lemma {:induction false} WaitedIsQuiet(s: Capture)
    requires Handshake(s) && UserStepped(s).1 == Cancelled
    ensures Quiet(UserStepped(s).0)
  {}

  /** In every interleaving a stop hands over exactly the prefix of the input since the
      arm that fits the buffer, normalised, under the slot armed; and only if there is
      any. */
  lemma {:induction false} TakeIsTheRecording(s: Capture, actions: seq<Action>, a: Action)
    requires Initial(s) && Exec(ExecAll(s, actions), a).1.Take?
    ensures var r, e := ExecAll(s, actions), Exec(ExecAll(s, actions), a).1;
            && e.samples == Normalised(s.gainOf, Prefix(r.input, s.maxFrames))
            && e.slot == r.slot
            && 0 < |e.samples| <= s.maxFrames
  {
    RunKeepsInv(s, actions);
    PublishedTake(ExecAll(s, actions));
  }

  lemma {:induction false} PublishedTake(r: Capture)
    requires Inv(r) && r.user.Publish?
    ensures Prefix(r.buffer, r.user.frames) == Normalised(r.gainOf, Prefix(r.input, r.maxFrames))
    ensures 0 < |Prefix(r.buffer, r.user.frames)| <= r.maxFrames
  {
    var n := r.user.frames;
    assert Prefix(r.input, |r.buffer|) == r.input[..n];
  }

  lemma {:induction false} PeakBounds(s: seq<real>, i: nat)
    requires i < |s|
    ensures Abs(s[i]) <= Peak(s)
  {
    if i < |s| - 1 { PeakBounds(s[..|s| - 1], i); }
  }

  /** Normalising never makes a take clip that did not clip before. */
  lemma {:induction false} NormalisedFits(s: seq<real>, i: nat)
    requires i < |s|
    ensures Abs(Normalised(Gain, s)[i]) <= MaxReal(Peak(s), 0.99)
  {
    PeakBounds(s, i);
    GainBound(s[i], Peak(s));
    NormalisedWithin(Gain, s, i, MaxReal(Peak(s), 0.99));
  }

  lemma {:induction false} NormalisedWithin(gainOf: real -> real, s: seq<real>, i: nat, bound: real)
    requires i < |s| && Abs(Product(s[i], gainOf(Peak(s)))) <= bound
    ensures Abs(Normalised(gainOf, s)[i]) <= bound
  {
    AmplifiedBound(s, gainOf(Peak(s)), i, bound);
  }

  lemma {:induction false} AmplifiedBound(s: seq<real>, g: real, i: nat, bound: real)
    requires i < |s| && Abs(Product(s[i], g)) <= bound
    ensures Abs(Amplified(s, g, |s|)[i]) <= bound
  {
    AmplifiedAt(s, g, |s|, i);
  }

  lemma {:induction false} GainBound(x: real, p: real)
    requires Abs(x) <= p
    ensures Abs(Product(x, Gain(p))) <= MaxReal(p, 0.99)
  {
    if 0.0001 < p < 0.99 {
      var g := Gain(p);
      assert g * p == 0.99;
      assert g > 0.0;
      ScaledBound(x, p, g);
    } else {
      assert x * 1.0 == x;
    }
  }

  lemma {:induction false} ScaledBound(x: real, p: real, g: real)
    requires Abs(x) <= p && g > 0.0
    ensures Abs(x * g) <= g * p
  {
    assert -p * g <= x * g <= p * g;
  }
}
