// The plug-in's saved component state, version 5: who writes which chunks, and the
// four readers that walk them.
module ComponentState {
  import opened Basics
  import opened StateRoots
  import opened LittleEndian
  import opened ChunkFormat

  const STATE_VERSION: uint32 := 5
  const TAG_ROOT: uint32 := 0x524F4F54
  const TAG_SETTINGS: uint32 := 0x53455453
  const TAG_MIX: uint32 := 0x4D495820
  const TAG_KIT: uint32 := 0x4B495420
  const TAG_DIGI: uint32 := 0x4449474D
  const TAG_DIGI_BANK: uint32 := 0x44494742
  const TAG_DIGI_RUNTIME: uint32 := 0x44494752
  const TAG_OUTPUT: uint32 := 0x4F55544D
  const TAG_SID_FILE: uint32 := 0x53494446
  const TAG_BYPASS: uint32 := 0x42595053
  const TAG_PRESET: uint32 := 0x50525354

  const ALL_TAGS: set<uint32> :=
    {TAG_ROOT, TAG_SETTINGS, TAG_MIX, TAG_KIT, TAG_DIGI, TAG_DIGI_BANK, TAG_DIGI_RUNTIME, TAG_OUTPUT,
     TAG_SID_FILE, TAG_BYPASS, TAG_PRESET}

  const SETTINGS_SIZE := 32
  const MAX_SID_FILE_BYTES := 0x10_0000

  /** The codecs of other files: what encodes, accepts or sanitises each payload. The
      flag of decodeRoot tells the current magic number from the legacy one. */
  datatype Formats = Formats(
    encodeRoot: StateRoot -> Bytes, decodeRoot: (Bytes, bool) -> Option<StateRoot>, validRoot: StateRoot -> bool,
    settings: Bytes -> Bytes, mixSize: nat, mix: Bytes -> Bytes, kit: Bytes -> Option<Bytes>,
    digi: Bytes -> Option<Bytes>, bankSize: nat, bank: Bytes -> Bytes, repair: (Bytes, Bytes) -> Bytes,
    playsSid: (Bytes, nat) -> bool)

  datatype DigiRuntime = DigiRuntime(mode: byte, rateHz: nat, rootNote: byte, channel: byte)

  /** Everything of the host that a project saves. */
  datatype Host = Host(
    root: StateRoot, settings: Bytes, mix: Bytes, kit: Bytes, digi: Bytes, bank: Bytes,
    digiRuntime: DigiRuntime, pureOutput: bool, bypass: bool,
    sidFile: Bytes, sidSubtune: nat, sidLoaded: bool)

  // ---- writing -------------------------------------------------------------------------

  function ByteOfBool(b: bool): byte { if b then 1 else 0 }

  function DigiRuntimeBytes(d: DigiRuntime): Bytes {
    [d.mode] + Encoded(d.rateHz, 3) + [d.rootNote, d.channel]
  }

  function RootChunks(f: Formats, root: StateRoot): seq<Chunk> {
    if f.encodeRoot(root) == [] then [] else [Chunk(TAG_ROOT, f.encodeRoot(root))]
  }

  function PanelChunks(h: Host): seq<Chunk> {
    [Chunk(TAG_SETTINGS, h.settings), Chunk(TAG_MIX, h.mix), Chunk(TAG_KIT, h.kit)]
  }

  function DigiChunks(h: Host): seq<Chunk> {
    [Chunk(TAG_DIGI, h.digi), Chunk(TAG_DIGI_BANK, h.bank)]
  }

  function RuntimeChunks(h: Host): seq<Chunk> {
    [Chunk(TAG_DIGI_RUNTIME, DigiRuntimeBytes(h.digiRuntime)), Chunk(TAG_OUTPUT, [ByteOfBool(h.pureOutput)]),
     Chunk(TAG_BYPASS, [ByteOfBool(h.bypass)])]
  }

  function SidChunks(h: Host): seq<Chunk> {
    if h.sidFile != [] && h.sidLoaded then [Chunk(TAG_SID_FILE, Encoded(h.sidSubtune, 2) + h.sidFile)] else []
  }

  function SavedChunks(f: Formats, h: Host): seq<Chunk> {
    RootChunks(f, h.root) + (PanelChunks(h) + (DigiChunks(h) + (RuntimeChunks(h) + SidChunks(h))))
  }

  function Saved(f: Formats, h: Host): Bytes { U32(STATE_VERSION) + EncodeAll(SavedChunks(f, h)) }

  /** The patch-only state of a root; empty when there is none. */
  function PresetOf(f: Formats, root: StateRoot): Bytes {
    if !f.validRoot(root) || f.encodeRoot(root) == [] then []
    else U32(STATE_VERSION) + EncodeAll([Chunk(TAG_PRESET, [])] + RootChunks(f, root))
  }

  // ---- reading ----------------------------------------------------------------------------

  predicate Versioned(data: Bytes) { |data| >= 4 && GetU32(data) >= STATE_VERSION }

  function ChunksOf(data: Bytes): seq<Chunk>
    requires |data| >= 4
  {
    Parse(data[4..])
  }

  function RootIn(f: Formats, data: Bytes): Option<StateRoot> {
    if |data| < 4 then None
    else if !Versioned(data) then f.decodeRoot(data[4..], GetU32(data) >= 4)
    else
      match First(ChunksOf(data), TAG_ROOT)
      case Some(blob) => f.decodeRoot(blob, true)
      case None => None
  }

  predicate IsPreset(data: Bytes) { Versioned(data) && First(ChunksOf(data), TAG_PRESET).Some? }

  predicate IsSet(payload: Bytes) { |payload| >= 1 && payload[0] != 0 }

  predicate BypassIn(data: Bytes) {
    && Versioned(data)
    && match First(ChunksOf(data), TAG_BYPASS)
       case Some(payload) => IsSet(payload)
       case None => false
  }

  /** What loading collects before it is applied. */
  datatype Pending = Pending(
    haveRoot: bool, bypassed: bool, digi: Option<Bytes>, bank: Option<Bytes>, sidBytes: Bytes, sidSubtune: nat)

  const NOTHING_PENDING := Pending(false, false, None, None, [], 0)

  function SafeRuntime(p: Bytes): DigiRuntime
    requires |p| >= 6
  {
    DigiRuntime(if p[0] <= 1 then p[0] else 0,
                Clamp(Decoded(p[1..4]), 1000, 32000),
                if p[4] % 128 < 120 then p[4] % 128 else 120,
                if p[5] <= 15 then p[5] else 16)
  }

  function Apply(f: Formats, h: Host, p: Pending, c: Chunk): (Host, Pending) {
    var d := c.payload;
    if c.tag == TAG_ROOT then
      (match f.decodeRoot(d, true)
       case Some(root) => (h.(root := root), p.(haveRoot := true))
       case None => (h, p))
    else if c.tag == TAG_SETTINGS then
      (if |d| == SETTINGS_SIZE then h.(settings := f.settings(d)) else h, p)
    else if c.tag == TAG_MIX then
      (if |d| == f.mixSize then h.(mix := f.mix(d)) else h, p)
    else if c.tag == TAG_KIT then
      (match f.kit(d)
       case Some(kit) => (h.(kit := kit), p)
       case None => (h, p))
    else if c.tag == TAG_DIGI then (h, p.(digi := f.digi(d)))
    else if c.tag == TAG_DIGI_BANK then
      (h, if |d| == f.bankSize then p.(bank := Some(d)) else p)
    else if c.tag == TAG_DIGI_RUNTIME then
      (if |d| >= 6 then h.(digiRuntime := SafeRuntime(d)) else h, p)
    else if c.tag == TAG_OUTPUT then
      (if |d| >= 1 then h.(pureOutput := d[0] != 0) else h, p)
    else if c.tag == TAG_BYPASS then (h, p.(bypassed := IsSet(d)))
    else if c.tag == TAG_SID_FILE then
      (h, if |d| > 2 && |d| - 2 <= MAX_SID_FILE_BYTES then p.(sidSubtune := Decoded(d[..2]), sidBytes := d[2..]) else p)
    else (h, p)
  }

  function ApplyAll(f: Formats, h: Host, p: Pending, cs: seq<Chunk>): (Host, Pending)
    decreases |cs|
  {
    if cs == [] then (h, p)
    else
      var (h', p') := Apply(f, h, p, cs[0]);
      ApplyAll(f, h', p', cs[1..])
  }

  /** The DIGI model and bank are taken over only as a pair. */
  function PairDigi(f: Formats, h: Host, p: Pending): Host {
    if p.digi.Some? && p.bank.Some? then
      var bank := f.bank(p.bank.value);
      h.(bank := bank, digi := f.repair(p.digi.value, bank))
    else h
  }

  function Unloaded(h: Host): Host { h.(sidFile := [], sidSubtune := 0, sidLoaded := false) }

  function RestoreSid(f: Formats, h: Host, p: Pending): Host {
    if p.sidBytes != [] then
      if |p.sidBytes| <= MAX_SID_FILE_BYTES && f.playsSid(p.sidBytes, p.sidSubtune) then
        h.(sidFile := p.sidBytes, sidSubtune := p.sidSubtune, sidLoaded := true)
      else Unloaded(h)
    else if h.sidFile != [] || h.sidLoaded then Unloaded(h)
    else h
  }

  function Finish(f: Formats, h: Host, p: Pending, preset: bool): (Host, bool) {
    var paired := PairDigi(f, h, p);
    (if preset then paired else RestoreSid(f, paired.(bypass := p.bypassed), p), p.haveRoot)
  }

  function Loaded(f: Formats, h: Host, data: Bytes): (Host, bool) {
    if |data| < 4 then (h, false)
    else if !Versioned(data) then
      match f.decodeRoot(data[4..], GetU32(data) >= 4)
      case Some(root) => (h.(root := root), true)
      case None => (h, false)
    else
      var (h', p) := ApplyAll(f, h, NOTHING_PENDING, ChunksOf(data));
      Finish(f, h', p, IsPreset(data))
  }

  // ---- unknown chunks ----------------------------------------------------------------------

  lemma {:induction false} ApplyAllMore(f: Formats, h: Host, p: Pending, cs: seq<Chunk>, c: Chunk)
    ensures ApplyAll(f, h, p, cs + [c]) ==
            Apply(f, ApplyAll(f, h, p, cs).0, ApplyAll(f, h, p, cs).1, c)
    decreases |cs|
  {
    if cs == [] {
      assert [] + [c] == [c];
      assert [c][1..] == [];
    } else {
      var (h', p') := Apply(f, h, p, cs[0]);
      assert (cs + [c])[1..] == cs[1..] + [c];
      ApplyAllMore(f, h', p', cs[1..], c);
    }
  }

  lemma {:induction false} UnknownIsSkipped(f: Formats, h: Host, p: Pending, c: Chunk)
    requires c.tag !in ALL_TAGS
    ensures Apply(f, h, p, c) == (h, p)
  {}

  lemma {:induction false} ApplyAllOfKnown(f: Formats, h: Host, p: Pending, cs: seq<Chunk>)
    ensures ApplyAll(f, h, p, Known(cs, ALL_TAGS)) == ApplyAll(f, h, p, cs)
  {
    if cs != [] {
      var before, c := cs[..|cs| - 1], cs[|cs| - 1];
      assert cs == before + [c];
      ApplyAllOfKnown(f, h, p, before);
      ApplyAllMore(f, h, p, before, c);
      if c.tag in ALL_TAGS {
        ApplyAllMore(f, h, p, Known(before, ALL_TAGS), c);
      } else {
        UnknownIsSkipped(f, ApplyAll(f, h, p, before).0, ApplyAll(f, h, p, before).1, c);
      }
    }
  }

  /** All four readers depend only on the chunks they know, in order: two states that
      agree on these are read alike, whatever else stands between them. */
  lemma {:induction false} ReadersSeeKnownChunksOnly(f: Formats, h: Host, a: Bytes, b: Bytes)
    requires Versioned(a) && Versioned(b)
    requires Known(ChunksOf(a), ALL_TAGS) == Known(ChunksOf(b), ALL_TAGS)
    ensures RootIn(f, a) == RootIn(f, b) && IsPreset(a) == IsPreset(b) && BypassIn(a) == BypassIn(b)
    ensures Loaded(f, h, a) == Loaded(f, h, b)
  {
    FirstOfKnown(ChunksOf(a), TAG_ROOT, ALL_TAGS);
    FirstOfKnown(ChunksOf(b), TAG_ROOT, ALL_TAGS);
    FirstOfKnown(ChunksOf(a), TAG_PRESET, ALL_TAGS);
    FirstOfKnown(ChunksOf(b), TAG_PRESET, ALL_TAGS);
    FirstOfKnown(ChunksOf(a), TAG_BYPASS, ALL_TAGS);
    FirstOfKnown(ChunksOf(b), TAG_BYPASS, ALL_TAGS);
    ApplyAllOfKnown(f, h, NOTHING_PENDING, ChunksOf(a));
    ApplyAllOfKnown(f, h, NOTHING_PENDING, ChunksOf(b));
  }

  lemma {:induction false} ChunksOfEncoding(version: uint32, cs: seq<Chunk>)
    requires version >= STATE_VERSION && forall c :: c in cs ==> Fits(c)
    ensures var data := U32(version) + EncodeAll(cs); Versioned(data) && ChunksOf(data) == cs
  {
    GetU32OfU32(version, EncodeAll(cs));
    assert (U32(version) + EncodeAll(cs))[4..] == EncodeAll(cs);
    ParseEncodeAll(cs);
  }

  /** Forward compatibility: a later version may insert unknown chunks at any boundary,
      of any content, and no result changes. */
  lemma {:induction false} InsertedChunksAreSkipped(f: Formats, h: Host, version: uint32, later: uint32,
                                                    before: seq<Chunk>, inserted: Chunk, after: seq<Chunk>)
    requires version >= STATE_VERSION && later >= STATE_VERSION
    requires inserted.tag !in ALL_TAGS && Fits(inserted)
    requires forall c :: c in before + after ==> Fits(c)
    ensures var a, b := U32(version) + EncodeAll(before + after), U32(later) + EncodeAll(before + [inserted] + after);
            && RootIn(f, a) == RootIn(f, b) && IsPreset(a) == IsPreset(b) && BypassIn(a) == BypassIn(b)
            && Loaded(f, h, a) == Loaded(f, h, b)
  {
    forall c | c in before + [inserted] + after ensures Fits(c) {
      if c != inserted { assert c in before + after; }
    }
    ChunksOfEncoding(version, before + after);
    ChunksOfEncoding(later, before + [inserted] + after);
    InsertingUnknown(before, inserted, after, ALL_TAGS);
    ReadersSeeKnownChunksOnly(f, h, U32(version) + EncodeAll(before + after),
                              U32(later) + EncodeAll(before + [inserted] + after));
  }
}
