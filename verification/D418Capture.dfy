// The volume-register DAC of the C64: its writes as samples, and their zero-order-hold
// reconstruction at the host's rate.
module D418Capture {
  import opened Basics
  import opened LittleEndian
  import opened Remainders

  const PAL_PHI2_HZ := 985248
  const DEFAULT_RATE := 48000
  const TWO_32 := 0x1_0000_0000
  const TWO_64 := 0x1_0000_0000_0000_0000

  /** A bus write with its PHI2 time stamp. */
  datatype TimedWrite = TimedWrite(phi2: nat, reg: byte, value: byte)

  /** A volume write at its host frame. */
  datatype Sample = Sample(phi2: nat, hostFrame: nat, value: byte, nibble: nat, unit: real)

  predicate IsD418(reg: byte) { reg % 32 == 24 }

  function Bipolar(value: byte): real { (value % 16) as real / 15.0 * 2.0 - 1.0 }

  /** The sixteen levels: the low nibble alone counts, 0 is -1, 15 is 1, and each is 2/15
      above the one before. */
  lemma {:induction false} LevelsAreEven(a: byte, b: byte)
    ensures a % 16 == 0 ==> Bipolar(a) == -1.0
    ensures a % 16 == 15 ==> Bipolar(a) == 1.0
    ensures a % 16 == b % 16 ==> Bipolar(a) == Bipolar(b)
    ensures (a as int) % 16 == (b as int) % 16 + 1 ==> Bipolar(a) == Bipolar(b) + 2.0 / 15.0
  {}

  /** The register is told by the low five bits of its address, so its mirrors count. */
  lemma {:induction false} RegisterIsMasked(reg: bv8)
    ensures IsD418(reg as byte) <==> reg & 0x1F == 0x18
  {}

  function Or(x: nat, fallback: nat): nat { if x != 0 then x else fallback }

  /** The host frame of a time stamp, with the wrap of its 64-bit product and the cut to
      32 bits. */
  function HostFrame(phi2: nat, cpuHz: nat, rate: nat): nat {
    Quotient(Times(phi2, Or(rate, DEFAULT_RATE)) % TWO_64, Or(cpuHz, PAL_PHI2_HZ)) % TWO_32
  }

  predicate FitsFrame(phi2: nat, cpuHz: nat, rate: nat) {
    && Times(phi2, Or(rate, DEFAULT_RATE)) < TWO_64
    && Quotient(Times(phi2, Or(rate, DEFAULT_RATE)), Or(cpuHz, PAL_PHI2_HZ)) < TWO_32
  }

  /** Later time stamps get no earlier frames, as long as the later one fits. */
  lemma {:induction false} HostFrameIsMonotone(a: nat, b: nat, cpuHz: nat, rate: nat)
    requires a <= b && FitsFrame(b, cpuHz, rate)
    ensures FitsFrame(a, cpuHz, rate) && HostFrame(a, cpuHz, rate) <= HostFrame(b, cpuHz, rate)
  {
    var r, c := Or(rate, DEFAULT_RATE), Or(cpuHz, PAL_PHI2_HZ);
    TimesKeepsOrder(a, b, r);
    QuotientIsMonotone(Times(a, r), Times(b, r), c);
    FittingFrame(a, cpuHz, rate, Times(a, r), c);
    FittingFrame(b, cpuHz, rate, Times(b, r), c);
  }

  lemma {:induction false} FittingFrame(phi2: nat, cpuHz: nat, rate: nat, product: nat, c: nat)
    requires product == Times(phi2, Or(rate, DEFAULT_RATE)) && c == Or(cpuHz, PAL_PHI2_HZ)
    requires FitsFrame(phi2, cpuHz, rate)
    ensures HostFrame(phi2, cpuHz, rate) == Quotient(product, c)
  {
    NoWrap(product, TWO_64);
    NoWrap(Quotient(product, c), TWO_32);
  }

  /** A fitting frame is the one that the time stamp lies in; a rate or a clock of zero
      counts as 48000 frames and the PAL clock. */
  lemma {:induction false} FrameHoldsStamp(phi2: nat, cpuHz: nat, rate: nat)
    requires FitsFrame(phi2, cpuHz, rate)
    ensures var (f, hz, r) := (HostFrame(phi2, cpuHz, rate), if cpuHz == 0 then 985248 else cpuHz,
                               if rate == 0 then 48000 else rate);
            Times(f, hz) <= Times(phi2, r) < Times(f + 1, hz)
  {
    var r, hz := Or(rate, DEFAULT_RATE), Or(cpuHz, PAL_PHI2_HZ);
    FittingFrame(phi2, cpuHz, rate, Times(phi2, r), hz);
    QuotientHolds(Times(phi2, r), hz);
  }

  lemma {:induction false} QuotientHolds(x: nat, n: nat)
    requires n > 0
    ensures Times(Quotient(x, n), n) <= x < Times(Quotient(x, n) + 1, n)
  {
    assert x == (x / n) * n + x % n;
    TimesOneMore(x / n, n);
  }

  lemma {:induction false} NoWrap(x: nat, n: nat)
    requires x < n && (n == TWO_32 || n == TWO_64)
    ensures x % n == x
  {}

  // ---- extraction ------------------------------------------------------------------------

  function SampleOf(w: TimedWrite, cpuHz: nat, rate: nat): Sample {
    Sample(w.phi2, HostFrame(w.phi2, cpuHz, rate), w.value, w.value % 16, Bipolar(w.value))
  }

  /** A sample is its write at its host frame, with the low four bits as its level. */
  lemma {:induction false} SampleCarriesItsWrite(phi2: nat, reg: byte, value: bv8, cpuHz: nat, rate: nat)
    ensures var s := SampleOf(TimedWrite(phi2, reg, value as byte), cpuHz, rate);
            && s.phi2 == phi2 && s.hostFrame == HostFrame(phi2, cpuHz, rate) && s.value == value as byte
            && s.nibble == (value & 0x0F) as nat && s.unit == s.nibble as real / 15.0 * 2.0 - 1.0
  {}

  /** Every volume write, repeated values included. */
  function Samples(writes: seq<TimedWrite>, cpuHz: nat, rate: nat): seq<Sample> {
    if writes == [] then []
    else
      var w := writes[|writes| - 1];
      var before := Samples(writes[..|writes| - 1], cpuHz, rate);
      if IsD418(w.reg) then before + [SampleOf(w, cpuHz, rate)] else before
  }

  lemma {:induction false} SamplesArePrefixes(writes: seq<TimedWrite>, i: nat, cpuHz: nat, rate: nat)
    requires i <= |writes|
    ensures Samples(writes[..i], cpuHz, rate) <= Samples(writes, cpuHz, rate)
  {
    if i < |writes| {
      SamplesArePrefixes(writes[..|writes| - 1], i, cpuHz, rate);
      assert writes[..|writes| - 1][..i] == writes[..i];
    } else {
      assert writes[..i] == writes;
    }
  }

  /** The first capacity samples, in order. */
  method ExtractSamples(writes: seq<TimedWrite>, capacity: nat, cpuHz: nat, rate: nat) returns (out: seq<Sample>)
    ensures out <= Samples(writes, cpuHz, rate)
    ensures |out| == if |Samples(writes, cpuHz, rate)| <= capacity then |Samples(writes, cpuHz, rate)| else capacity
  {
    out := [];
    var i := 0;
    while i < |writes| && |out| < capacity
      invariant i <= |writes| && |out| <= capacity
      invariant out == Samples(writes[..i], cpuHz, rate)
    {
      assert writes[..i + 1][..i] == writes[..i];
      if IsD418(writes[i].reg) {
        out := out + [SampleOf(writes[i], cpuHz, rate)];
      }
      i := i + 1;
    }
    assert i == |writes| ==> writes[..i] == writes;
    SamplesArePrefixes(writes, i, cpuHz, rate);
  }

  // ---- zero-order hold ---------------------------------------------------------------------

  /** The level in force after some samples; silence before the first. */
  function Held(samples: seq<Sample>): real {
    if samples == [] then 0.0 else samples[|samples| - 1].unit
  }

  /** Where the next sample may begin at the earliest: the latest frame so far, inside
      the buffer. */
  function Reached(samples: seq<Sample>, frames: nat): (r: nat)
    ensures r <= frames
  {
    if samples == [] then 0
    else
      var before, f := Reached(samples[..|samples| - 1], frames), samples[|samples| - 1].hostFrame;
      var target := if f < frames then f else frames;
      if before < target then target else before
  }

  /** The level at a frame: each sample begins at its frame, or where an earlier one has
      already been played to, and holds until the next. */
  function Level(samples: seq<Sample>, frames: nat, f: nat): real {
    if samples == [] then 0.0
    else if f < Reached(samples, frames) then Level(samples[..|samples| - 1], frames, f)
    else samples[|samples| - 1].unit
  }

  lemma {:induction false} HoldsFromReached(samples: seq<Sample>, frames: nat, f: nat)
    requires f >= Reached(samples, frames)
    ensures Level(samples, frames, f) == Held(samples)
  {}

  /** Fills the buffer with the level of every frame, for any writes whatever, and
      counts the volume writes. */
  method ReconstructZoh(writes: seq<TimedWrite>, dst: array<real>, cpuHz: nat, rate: nat) returns (applied: nat)
    modifies dst
    ensures dst.Length > 0 ==> applied == |Samples(writes, cpuHz, rate)|
    ensures dst.Length == 0 ==> applied == 0
    ensures forall f :: 0 <= f < dst.Length ==> dst[f] == Level(Samples(writes, cpuHz, rate), dst.Length, f)
  {
    applied := 0;
    var frames := dst.Length;
    if frames == 0 {
      return;
    }
    Fill(dst, 0, frames, 0.0);
    var held, cursor := 0.0, 0;
    for i := 0 to |writes|
      invariant cursor == Reached(Samples(writes[..i], cpuHz, rate), frames)
      invariant held == Held(Samples(writes[..i], cpuHz, rate)) && applied == |Samples(writes[..i], cpuHz, rate)|
      invariant forall f :: 0 <= f < cursor ==> dst[f] == Level(Samples(writes[..i], cpuHz, rate), frames, f)
    {
      var w := writes[i];
      assert writes[..i + 1][..i] == writes[..i];
      if IsD418(w.reg) {
        ghost var samples := Samples(writes[..i], cpuHz, rate);
        var frame := HostFrame(w.phi2, cpuHz, rate);
        var target := if frame < frames then frame else frames;
        PlayMore(samples, SampleOf(w, cpuHz, rate), frames);
        if cursor < target {
          Fill(dst, cursor, target, held);
          cursor := target;
        }
        held := Bipolar(w.value);
        applied := applied + 1;
      }
    }
    assert writes[..|writes|] == writes;
    HoldsToTheEnd(Samples(writes, cpuHz, rate), frames);
    Fill(dst, cursor, frames, held);
  }

  method Fill(dst: array<real>, from: nat, to: nat, level: real)
    requires from <= to <= dst.Length
    modifies dst
    ensures forall f :: 0 <= f < dst.Length ==> dst[f] == if from <= f < to then level else old(dst[f])
  {
    for f := from to to
      invariant forall g :: 0 <= g < dst.Length ==> dst[g] == if from <= g < f then level else old(dst[g])
    {
      dst[f] := level;
    }
  }

  lemma {:induction false} HoldsToTheEnd(samples: seq<Sample>, frames: nat)
    ensures forall f :: Reached(samples, frames) <= f < frames ==> Level(samples, frames, f) == Held(samples)
  {
    forall f | Reached(samples, frames) <= f < frames ensures Level(samples, frames, f) == Held(samples) {
      HoldsFromReached(samples, frames, f);
    }
  }

  /** One sample more keeps what is played and holds the old level up to its frame. */
  lemma {:induction false} PlayMore(samples: seq<Sample>, s: Sample, frames: nat)
    ensures var cursor, after := Reached(samples, frames), Reached(samples + [s], frames);
            && (forall f :: 0 <= f < cursor ==> Level(samples + [s], frames, f) == Level(samples, frames, f))
            && (forall f :: cursor <= f < after ==> Level(samples + [s], frames, f) == Held(samples))
            && after == Max(cursor, Min(s.hostFrame, frames))
            && Held(samples + [s]) == s.unit
  {
    assert (samples + [s])[..|samples|] == samples;
    HoldsToTheEnd(samples, frames);
  }

  // ---- on time ----------------------------------------------------------------------------------

  /** Which sample is played at a frame; -1 before the first. */
  function Playing(samples: seq<Sample>, frames: nat, f: nat): (r: int)
    ensures -1 <= r < |samples|
  {
    if samples == [] then -1
    else if f < Reached(samples, frames) then Playing(samples[..|samples| - 1], frames, f)
    else |samples| - 1
  }

  /** Which sample is due at a frame: the last one at or before it; -1 when there is none. */
  function Due(samples: seq<Sample>, f: nat): (r: int)
    ensures -1 <= r < |samples|
    ensures r >= 0 ==> samples[r].hostFrame <= f
    ensures forall k :: r < k < |samples| ==> f < samples[k].hostFrame
  {
    if samples == [] then -1
    else if samples[|samples| - 1].hostFrame <= f then |samples| - 1
    else Due(samples[..|samples| - 1], f)
  }

  function LevelOf(samples: seq<Sample>, k: int): real
    requires -1 <= k < |samples|
  {
    if k < 0 then 0.0 else samples[k].unit
  }

  lemma {:induction false} LevelIsOfPlaying(samples: seq<Sample>, frames: nat, f: nat)
    ensures Level(samples, frames, f) == LevelOf(samples, Playing(samples, frames, f))
  {
    if samples != [] { LevelIsOfPlaying(samples[..|samples| - 1], frames, f); }
  }

  /** A sample whose frame an earlier one has been played beyond. */
  predicate IsLate(before: nat, frame: nat, frames: nat) { frame < Min(before, frames) }

  predicate NoneLate(samples: seq<Sample>, frames: nat) {
    forall i, j :: 0 <= i < j < |samples| ==> !IsLate(samples[i].hostFrame, samples[j].hostFrame, frames)
  }

  /** In every buffer, what is played is what is due at every frame if and only if no
      sample is late. */
  lemma {:induction false} DueIsPlayedIff(samples: seq<Sample>, frames: nat)
    ensures (forall f :: 0 <= f < frames ==> Playing(samples, frames, f) == Due(samples, f))
            <==> NoneLate(samples, frames)
  {
    if NoneLate(samples, frames) {
      forall f | 0 <= f < frames ensures Playing(samples, frames, f) == Due(samples, f) {
        NoneLatePlaysDue(samples, frames, f);
      }
    } else {
      var i, j :| 0 <= i < j < |samples| && IsLate(samples[i].hostFrame, samples[j].hostFrame, frames);
      PlayedBeyond(samples, frames, i, samples[j].hostFrame);
      assert Due(samples, samples[j].hostFrame) >= j;
    }
  }

  lemma {:induction false} NoneLatePlaysDue(samples: seq<Sample>, frames: nat, f: nat)
    requires NoneLate(samples, frames) && f < frames
    ensures Playing(samples, frames, f) == Due(samples, f)
  {
    if samples != [] {
      NoneLatePlaysDue(samples[..|samples| - 1], frames, f);
      NoneLateReached(samples, frames);
    }
  }

  lemma {:induction false} NoneLateReached(samples: seq<Sample>, frames: nat)
    requires NoneLate(samples, frames) && samples != []
    ensures Reached(samples, frames) == Min(samples[|samples| - 1].hostFrame, frames)
  {
    if |samples| > 1 {
      var before := samples[..|samples| - 1];
      NoneLateReached(before, frames);
      assert !IsLate(before[|before| - 1].hostFrame, samples[|samples| - 1].hostFrame, frames);
    } else {
      assert samples[..0] == [];
    }
  }

  /** Before the frame a sample has been played to, only earlier samples are played. */
  lemma {:induction false} PlayedBeyond(samples: seq<Sample>, frames: nat, i: nat, f: nat)
    requires i < |samples| && IsLate(samples[i].hostFrame, f, frames)
    ensures f < Reached(samples, frames) && Playing(samples, frames, f) < i
  {
    if i < |samples| - 1 { PlayedBeyond(samples[..|samples| - 1], frames, i, f); }
  }

  // ---- the writes behind the samples ------------------------------------------------------------

  /** Two volume writes, the second behind the frame the first has been played to. */
  predicate Behind(a: TimedWrite, b: TimedWrite, frames: nat, cpuHz: nat, rate: nat) {
    && IsD418(a.reg) && IsD418(b.reg)
    && IsLate(HostFrame(a.phi2, cpuHz, rate), HostFrame(b.phi2, cpuHz, rate), frames)
  }

  predicate NoWriteIsLate(writes: seq<TimedWrite>, frames: nat, cpuHz: nat, rate: nat) {
    forall i, j :: 0 <= i < j < |writes| ==> !Behind(writes[i], writes[j], frames, cpuHz, rate)
  }

  lemma {:induction false} WriteIsSampled(writes: seq<TimedWrite>, i: nat, cpuHz: nat, rate: nat)
    requires i < |writes| && IsD418(writes[i].reg)
    ensures SampleOf(writes[i], cpuHz, rate) in Samples(writes, cpuHz, rate)
  {
    if i < |writes| - 1 { WriteIsSampled(writes[..|writes| - 1], i, cpuHz, rate); }
  }

  lemma {:induction false} SampleIsWritten(writes: seq<TimedWrite>, s: Sample, cpuHz: nat, rate: nat) returns (i: nat)
    requires s in Samples(writes, cpuHz, rate)
    ensures i < |writes| && IsD418(writes[i].reg) && SampleOf(writes[i], cpuHz, rate) == s
  {
    var n := |writes| - 1;
    if s in Samples(writes[..n], cpuHz, rate) {
      i := SampleIsWritten(writes[..n], s, cpuHz, rate);
    } else {
      i := n;
    }
  }

  lemma {:induction false} LateWritesAreLateSamples(writes: seq<TimedWrite>, frames: nat, cpuHz: nat, rate: nat)
    ensures NoneLate(Samples(writes, cpuHz, rate), frames) <==> NoWriteIsLate(writes, frames, cpuHz, rate)
  {
    if writes != [] {
      var n := |writes| - 1;
      LateWritesAreLateSamples(writes[..n], frames, cpuHz, rate);
      OneMoreWrite(writes[..n], writes[n], frames, cpuHz, rate);
      assert writes == writes[..n] + [writes[n]];
      if IsD418(writes[n].reg) {
        OneMoreSample(writes[..n], writes[n], frames, cpuHz, rate);
      }
    }
  }

  predicate LateAfter(writes: seq<TimedWrite>, w: TimedWrite, frames: nat, cpuHz: nat, rate: nat) {
    exists i :: 0 <= i < |writes| && Behind(writes[i], w, frames, cpuHz, rate)
  }

  lemma {:induction false} OneMoreWrite(writes: seq<TimedWrite>, w: TimedWrite, frames: nat, cpuHz: nat, rate: nat)
    ensures NoWriteIsLate(writes + [w], frames, cpuHz, rate) <==>
            NoWriteIsLate(writes, frames, cpuHz, rate) && !LateAfter(writes, w, frames, cpuHz, rate)
  {
    var all := writes + [w];
    assert all[|writes|] == w;
    if NoWriteIsLate(all, frames, cpuHz, rate) {
      forall i, j | 0 <= i < j < |writes| ensures !Behind(writes[i], writes[j], frames, cpuHz, rate) {
        assert all[i] == writes[i] && all[j] == writes[j];
      }
      forall i | 0 <= i < |writes| ensures !Behind(writes[i], w, frames, cpuHz, rate) {
        assert all[i] == writes[i];
      }
    }
  }

  lemma {:induction false} OneMoreSample(writes: seq<TimedWrite>, w: TimedWrite, frames: nat, cpuHz: nat, rate: nat)
    requires IsD418(w.reg)
    ensures var samples := Samples(writes, cpuHz, rate);
            NoneLate(samples + [SampleOf(w, cpuHz, rate)], frames) <==>
            NoneLate(samples, frames) && !LateAfter(writes, w, frames, cpuHz, rate)
  {
    var samples := Samples(writes, cpuHz, rate);
    var all := samples + [SampleOf(w, cpuHz, rate)];
    var frame := HostFrame(w.phi2, cpuHz, rate);
    assert all[|samples|].hostFrame == frame;
    if LateAfter(writes, w, frames, cpuHz, rate) {
      var i :| 0 <= i < |writes| && Behind(writes[i], w, frames, cpuHz, rate);
      WriteIsSampled(writes, i, cpuHz, rate);
      var k :| 0 <= k < |samples| && samples[k] == SampleOf(writes[i], cpuHz, rate);
      assert all[k] == samples[k];
    } else {
      forall k | 0 <= k < |samples| ensures !IsLate(samples[k].hostFrame, frame, frames) {
        var i := SampleIsWritten(writes, samples[k], cpuHz, rate);
        assert !Behind(writes[i], w, frames, cpuHz, rate);
      }
    }
    forall i, j | 0 <= i < j < |samples| ensures all[i] == samples[i] && all[j] == samples[j] {}
  }

  /** For every list of writes: every frame of the buffer plays the last volume write at or
      before it if and only if no volume write falls behind the frame an earlier one has
      been played to; then every frame has the level of that write, 0 before the first. */
  lemma {:induction false} LastWriteIsPlayedIff(writes: seq<TimedWrite>, frames: nat, cpuHz: nat, rate: nat)
    ensures var samples := Samples(writes, cpuHz, rate);
            (forall f :: 0 <= f < frames ==> Playing(samples, frames, f) == Due(samples, f))
            <==> NoWriteIsLate(writes, frames, cpuHz, rate)
    ensures NoWriteIsLate(writes, frames, cpuHz, rate) ==>
              var samples := Samples(writes, cpuHz, rate);
              forall f :: 0 <= f < frames ==> Level(samples, frames, f) == LevelOf(samples, Due(samples, f))
  {
    var samples := Samples(writes, cpuHz, rate);
    LateWritesAreLateSamples(writes, frames, cpuHz, rate);
    DueIsPlayedIff(samples, frames);
    if NoWriteIsLate(writes, frames, cpuHz, rate) {
      forall f | 0 <= f < frames ensures Level(samples, frames, f) == LevelOf(samples, Due(samples, f)) {
        LevelIsOfPlaying(samples, frames, f);
      }
    }
  }

  predicate InTimeOrder(writes: seq<TimedWrite>) {
    forall i, j :: 0 <= i < j < |writes| ==> writes[i].phi2 <= writes[j].phi2
  }

  predicate AllFit(writes: seq<TimedWrite>, cpuHz: nat, rate: nat) {
    forall i :: 0 <= i < |writes| ==> FitsFrame(writes[i].phi2, cpuHz, rate)
  }

  /** Writes in time order whose frames fit are never late. */
  lemma {:induction false} OrderedWritesAreOnTime(writes: seq<TimedWrite>, frames: nat, cpuHz: nat, rate: nat)
    requires InTimeOrder(writes) && AllFit(writes, cpuHz, rate)
    ensures NoWriteIsLate(writes, frames, cpuHz, rate)
  {
    forall i, j | 0 <= i < j < |writes| ensures !Behind(writes[i], writes[j], frames, cpuHz, rate) {
      HostFrameIsMonotone(writes[i].phi2, writes[j].phi2, cpuHz, rate);
    }
  }

  /** The reconstruction the source promises: for writes in time order with frames that
      fit, every frame carries the level of the last volume write at or before it. */
  lemma {:induction false} OrderedWritesPlayTheLastLevel(writes: seq<TimedWrite>, frames: nat, f: nat, cpuHz: nat,
                                                         rate: nat)
    requires InTimeOrder(writes) && AllFit(writes, cpuHz, rate) && f < frames
    ensures var samples := Samples(writes, cpuHz, rate);
            Level(samples, frames, f) == LevelOf(samples, Due(samples, f))
  {
    OrderedWritesAreOnTime(writes, frames, cpuHz, rate);
    LastWriteIsPlayedIff(writes, frames, cpuHz, rate);
  }

  /** A write for frame 1000, then a full one for frame 0. */
  const LATE_WRITES := [TimedWrite(20526, 24, 0), TimedWrite(0, 24, 15)]

  /** At the default clock and rate a buffer of 2048 frames is silent up to frame 1000,
      where the later write has been due from frame 0. */
  lemma {:induction false} LateWriteIsPlayedLate(f: nat)
    requires f < 1000
    ensures var samples := Samples(LATE_WRITES, 0, 0);
            Due(samples, f) == 1 && LevelOf(samples, 1) == 1.0 && Level(samples, 2048, f) == 0.0
  {
    var early, late := SampleOf(LATE_WRITES[0], 0, 0), SampleOf(LATE_WRITES[1], 0, 0);
    assert LATE_WRITES[..1] == [LATE_WRITES[0]] && LATE_WRITES[..1][..0] == [];
    assert Samples(LATE_WRITES[..1], 0, 0) == [] + [early];
    assert Samples(LATE_WRITES, 0, 0) == [early, late];
    assert early.hostFrame == 1000 && late.hostFrame == 0;
    assert [early, late][..1] == [early] && [early][..0] == [];
    assert Reached([early], 2048) == 1000;
    assert Level([early], 2048, f) == Level([], 2048, f);
  }
}
