// What the writers and readers of the component state promise each other.
module ComponentRoundTrips {
  import opened Basics
  import opened StateRoots
  import opened LittleEndian
  import opened ChunkFormat
  import opened ComponentState

  // ---- save, then read -------------------------------------------------------------------

  predicate RootSurvives(f: Formats, root: StateRoot) {
    && f.validRoot(root)
    && 0 < |f.encodeRoot(root)| < 0x1_0000_0000
    && f.decodeRoot(f.encodeRoot(root), true) == Some(root)
  }

  /** The host's models are as the sanitisers leave them, its sizes are those of the
      formats, and a tune is kept exactly while it is loaded. */
  predicate Settled(f: Formats, h: Host) {
    && RootSurvives(f, h.root)
    && |h.settings| == SETTINGS_SIZE && f.settings(h.settings) == h.settings
    && |h.mix| == f.mixSize < 0x1_0000_0000 && f.mix(h.mix) == h.mix
    && |h.kit| < 0x1_0000_0000 && f.kit(h.kit) == Some(h.kit)
    && DigiSettled(f, h)
    && h.digiRuntime.mode <= 1 && 1000 <= h.digiRuntime.rateHz <= 32000
    && h.digiRuntime.rootNote <= 120 && h.digiRuntime.channel <= 16
    && SidSettled(f, h)
  }

  predicate DigiSettled(f: Formats, h: Host) {
    && |h.digi| < 0x1_0000_0000 && f.digi(h.digi) == Some(h.digi)
    && |h.bank| == f.bankSize < 0x1_0000_0000 && f.bank(h.bank) == h.bank
    && f.repair(h.digi, h.bank) == h.digi
  }

  predicate SidSettled(f: Formats, h: Host) {
    && (h.sidFile != [] <==> h.sidLoaded)
    && (h.sidFile == [] ==> h.sidSubtune == 0)
    && (h.sidFile != [] ==>
          |h.sidFile| <= MAX_SID_FILE_BYTES && h.sidSubtune < 0x1_0000 && f.playsSid(h.sidFile, h.sidSubtune))
  }

  /** Every chunk a host writes fits its length word. */
  predicate Writable(f: Formats, h: Host) {
    && |f.encodeRoot(h.root)| < 0x1_0000_0000 && |h.settings| < 0x1_0000_0000 && |h.mix| < 0x1_0000_0000
    && |h.kit| < 0x1_0000_0000 && |h.digi| < 0x1_0000_0000 && |h.bank| < 0x1_0000_0000
    && |h.sidFile| < 0xFFFF_FFFE
  }

  lemma {:induction false} SavedChunksFit(f: Formats, h: Host)
    requires Writable(f, h)
    ensures forall c :: c in SavedChunks(f, h) ==> Fits(c)
  {}

  lemma {:induction false} SavedParses(f: Formats, h: Host)
    requires Writable(f, h)
    ensures Versioned(Saved(f, h)) && ChunksOf(Saved(f, h)) == SavedChunks(f, h)
  {
    SavedChunksFit(f, h);
    ChunksOfEncoding(STATE_VERSION, SavedChunks(f, h));
  }

  lemma {:induction false} FirstOfFour(a: seq<Chunk>, b: seq<Chunk>, c: seq<Chunk>, d: seq<Chunk>, e: seq<Chunk>,
                                       tag: uint32)
    ensures First(a + (b + (c + (d + e))), tag) ==
            if First(a, tag).Some? then First(a, tag)
            else if First(b, tag).Some? then First(b, tag)
            else if First(c, tag).Some? then First(c, tag)
            else if First(d, tag).Some? then First(d, tag)
            else First(e, tag)
  {
    FirstOfJoin(d, e, tag);
    FirstOfJoin(c, d + e, tag);
    FirstOfJoin(b, c + (d + e), tag);
    FirstOfJoin(a, b + (c + (d + e)), tag);
  }

  lemma {:induction false} FirstOfSaved(f: Formats, h: Host, tag: uint32)
    requires tag == TAG_ROOT || tag == TAG_PRESET || tag == TAG_BYPASS
    ensures First(SavedChunks(f, h), tag) ==
            if tag == TAG_ROOT then (if f.encodeRoot(h.root) == [] then None else Some(f.encodeRoot(h.root)))
            else if tag == TAG_BYPASS then Some([ByteOfBool(h.bypass)])
            else None
  {
    FirstOfFour(RootChunks(f, h.root), PanelChunks(h), DigiChunks(h), RuntimeChunks(h), SidChunks(h), tag);
    NotInPanels(h, tag);
    NotInDigi(h, tag);
    InRuntime(h, tag);
  }

  lemma {:induction false} FirstOfCons(c: Chunk, rest: seq<Chunk>, tag: uint32)
    ensures First([c] + rest, tag) == if c.tag == tag then Some(c.payload) else First(rest, tag)
  {
    assert ([c] + rest)[1..] == rest;
  }

  lemma {:induction false} FirstOfThree(a: Chunk, b: Chunk, c: Chunk, tag: uint32)
    ensures First([a, b, c], tag) ==
            if a.tag == tag then Some(a.payload) else if b.tag == tag then Some(b.payload)
            else if c.tag == tag then Some(c.payload) else None
  {
    FirstOfCons(a, [b] + ([c] + []), tag);
    FirstOfCons(b, [c] + [], tag);
    FirstOfCons(c, [], tag);
    assert [a, b, c] == [a] + ([b] + ([c] + []));
  }

  lemma {:induction false} NotInPanels(h: Host, tag: uint32)
    requires tag == TAG_ROOT || tag == TAG_PRESET || tag == TAG_BYPASS
    ensures First(PanelChunks(h), tag) == None
  {
    FirstOfThree(PanelChunks(h)[0], PanelChunks(h)[1], PanelChunks(h)[2], tag);
  }

  lemma {:induction false} NotInDigi(h: Host, tag: uint32)
    requires tag == TAG_ROOT || tag == TAG_PRESET || tag == TAG_BYPASS
    ensures First(DigiChunks(h), tag) == None
  {
    var a, b := DigiChunks(h)[0], DigiChunks(h)[1];
    FirstOfCons(a, [b] + [], tag);
    FirstOfCons(b, [], tag);
    assert DigiChunks(h) == [a] + ([b] + []);
  }

  lemma {:induction false} InRuntime(h: Host, tag: uint32)
    requires tag == TAG_ROOT || tag == TAG_PRESET || tag == TAG_BYPASS
    ensures First(RuntimeChunks(h), tag) == if tag == TAG_BYPASS then Some([ByteOfBool(h.bypass)]) else None
  {
    FirstOfThree(RuntimeChunks(h)[0], RuntimeChunks(h)[1], RuntimeChunks(h)[2], tag);
  }

  /** The three static readers read back what a save wrote, whatever bytes the payloads
      hold. */
  lemma {:induction false} ReadersReadBackASave(f: Formats, h: Host)
    requires Writable(f, h)
    ensures !IsPreset(Saved(f, h)) && BypassIn(Saved(f, h)) == h.bypass
    ensures RootIn(f, Saved(f, h)) ==
            if f.encodeRoot(h.root) == [] then None else f.decodeRoot(f.encodeRoot(h.root), true)
  {
    SavedParses(f, h);
    FirstOfSaved(f, h, TAG_ROOT);
    FirstOfSaved(f, h, TAG_PRESET);
    FirstOfSaved(f, h, TAG_BYPASS);
  }

  // ---- save, then load ------------------------------------------------------------------------

  lemma {:induction false} ApplyAllJoin(f: Formats, h: Host, p: Pending, a: seq<Chunk>, b: seq<Chunk>)
    ensures ApplyAll(f, h, p, a + b) == ApplyAll(f, ApplyAll(f, h, p, a).0, ApplyAll(f, h, p, a).1, b)
    decreases |a|
  {
    if a == [] {
      assert a + b == b;
    } else {
      var (h', p') := Apply(f, h, p, a[0]);
      assert (a + b)[1..] == a[1..] + b;
      ApplyAllJoin(f, h', p', a[1..], b);
    }
  }

  lemma {:induction false} ApplyCons(f: Formats, h: Host, p: Pending, c: Chunk, rest: seq<Chunk>)
    ensures ApplyAll(f, h, p, [c] + rest) == ApplyAll(f, Apply(f, h, p, c).0, Apply(f, h, p, c).1, rest)
  {
    assert ([c] + rest)[1..] == rest;
  }

  lemma {:induction false} ApplyOne(f: Formats, h: Host, p: Pending, c: Chunk)
    ensures ApplyAll(f, h, p, [c]) == Apply(f, h, p, c)
  {
    assert [c][1..] == [];
  }

  lemma {:induction false} PanelsLoad(f: Formats, h: Host, h0: Host, p: Pending)
    requires Settled(f, h)
    ensures ApplyAll(f, h0, p, PanelChunks(h)) == (h0.(settings := h.settings, mix := h.mix, kit := h.kit), p)
  {
    var a, b, c := Chunk(TAG_SETTINGS, h.settings), Chunk(TAG_MIX, h.mix), Chunk(TAG_KIT, h.kit);
    assert PanelChunks(h) == [a] + ([b] + [c]);
    ApplyCons(f, h0, p, a, [b] + [c]);
    var h1 := h0.(settings := h.settings);
    assert Apply(f, h0, p, a) == (h1, p);
    ApplyCons(f, h1, p, b, [c]);
    var h2 := h1.(mix := h.mix);
    assert Apply(f, h1, p, b) == (h2, p);
    ApplyOne(f, h2, p, c);
  }

  lemma {:induction false} DigiLoads(f: Formats, h: Host, h0: Host, p: Pending)
    requires DigiSettled(f, h)
    ensures ApplyAll(f, h0, p, DigiChunks(h)) == (h0, p.(digi := Some(h.digi), bank := Some(h.bank)))
  {
    var a, b := Chunk(TAG_DIGI, h.digi), Chunk(TAG_DIGI_BANK, h.bank);
    assert DigiChunks(h) == [a] + [b];
    ApplyCons(f, h0, p, a, [b]);
    var p1 := p.(digi := Some(h.digi));
    assert Apply(f, h0, p, a) == (h0, p1);
    ApplyOne(f, h0, p1, b);
  }

  lemma {:induction false} RuntimeLoads(f: Formats, h: Host, h0: Host, p: Pending)
    requires Settled(f, h)
    ensures ApplyAll(f, h0, p, RuntimeChunks(h)) ==
            (h0.(digiRuntime := h.digiRuntime, pureOutput := h.pureOutput), p.(bypassed := h.bypass))
  {
    var a := Chunk(TAG_DIGI_RUNTIME, DigiRuntimeBytes(h.digiRuntime));
    var b, c := Chunk(TAG_OUTPUT, [ByteOfBool(h.pureOutput)]), Chunk(TAG_BYPASS, [ByteOfBool(h.bypass)]);
    assert RuntimeChunks(h) == [a] + ([b] + [c]);
    ApplyCons(f, h0, p, a, [b] + [c]);
    RuntimeSurvives(h.digiRuntime);
    var h1 := h0.(digiRuntime := h.digiRuntime);
    assert Apply(f, h0, p, a) == (h1, p);
    ApplyCons(f, h1, p, b, [c]);
    var h2 := h1.(pureOutput := h.pureOutput);
    assert Apply(f, h1, p, b) == (h2, p);
    ApplyOne(f, h2, p, c);
  }

  /** The DIGI rate is stored in three bytes, enough for the rates the engine runs at. */
  lemma {:induction false} RuntimeSurvives(d: DigiRuntime)
    requires d.mode <= 1 && 1000 <= d.rateHz <= 32000 && d.rootNote <= 120 && d.channel <= 16
    ensures |DigiRuntimeBytes(d)| == 6 && SafeRuntime(DigiRuntimeBytes(d)) == d
  {
    assert DigiRuntimeBytes(d)[1..4] == Encoded(d.rateHz, 3);
    assert Radix(3) == 0x100_0000;
    DecodedEncoded(d.rateHz, 3);
  }

  lemma {:induction false} SidLoads(f: Formats, h: Host, h0: Host, p: Pending)
    requires SidSettled(f, h) && p.sidBytes == [] && p.sidSubtune == 0
    ensures ApplyAll(f, h0, p, SidChunks(h)) == (h0, p.(sidBytes := h.sidFile, sidSubtune := h.sidSubtune))
  {
    if h.sidFile != [] {
      var d := Encoded(h.sidSubtune, 2) + h.sidFile;
      assert d[..2] == Encoded(h.sidSubtune, 2) && d[2..] == h.sidFile;
      assert Radix(2) == 0x1_0000;
      DecodedEncoded(h.sidSubtune, 2);
      ApplyOne(f, h0, p, Chunk(TAG_SID_FILE, d));
    }
  }

  /** A host without a tune has no subtune. */
  predicate TuneKnown(h: Host) { h.sidFile == [] ==> h.sidSubtune == 0 }

  /** Loading any state keeps it so. */
  lemma {:induction false} LoadKeepsTuneKnown(f: Formats, h: Host, data: Bytes)
    requires TuneKnown(h)
    ensures TuneKnown(Loaded(f, h, data).0)
  {
    if Versioned(data) { ApplyAllKeepsTheRest(f, h, NOTHING_PENDING, ChunksOf(data)); }
  }

  /** Load after save restores the whole host, whatever it held before. */
  lemma {:induction false} LoadRestoresASave(f: Formats, h: Host, other: Host)
    requires Settled(f, h) && TuneKnown(other)
    ensures Loaded(f, other, Saved(f, h)) == (h, true)
  {
    SavedParses(f, h);
    ReadersReadBackASave(f, h);
    var p0 := NOTHING_PENDING;
    var root := Chunk(TAG_ROOT, f.encodeRoot(h.root));
    var sids, runtimes, digis := SidChunks(h), RuntimeChunks(h), DigiChunks(h);
    var h1, p1 := other.(root := h.root), p0.(haveRoot := true);
    ApplyAllJoin(f, other, p0, [root], PanelChunks(h) + (digis + (runtimes + sids)));
    ApplyOne(f, other, p0, root);
    assert Apply(f, other, p0, root) == (h1, p1);
    ApplyAllJoin(f, h1, p1, PanelChunks(h), digis + (runtimes + sids));
    PanelsLoad(f, h, h1, p1);
    LoadTail(f, h, h1.(settings := h.settings, mix := h.mix, kit := h.kit), p1);
  }

  lemma {:induction false} LoadTail(f: Formats, h: Host, h0: Host, p: Pending)
    requires Settled(f, h) && p == NOTHING_PENDING.(haveRoot := true) && TuneKnown(h0)
    requires h0.root == h.root && h0.settings == h.settings && h0.mix == h.mix && h0.kit == h.kit
    ensures var (h', p') := ApplyAll(f, h0, p, DigiChunks(h) + (RuntimeChunks(h) + SidChunks(h)));
            Finish(f, h', p', false) == (h, true)
  {
    ApplyAllJoin(f, h0, p, DigiChunks(h), RuntimeChunks(h) + SidChunks(h));
    DigiLoads(f, h, h0, p);
    var p1 := p.(digi := Some(h.digi), bank := Some(h.bank));
    ApplyAllJoin(f, h0, p1, RuntimeChunks(h), SidChunks(h));
    RuntimeLoads(f, h, h0, p1);
    var h2 := h0.(digiRuntime := h.digiRuntime, pureOutput := h.pureOutput);
    var p2 := p1.(bypassed := h.bypass);
    SidLoads(f, h, h2, p2);
    FinishRestores(f, h, h2, p2.(sidBytes := h.sidFile, sidSubtune := h.sidSubtune));
  }

  lemma {:induction false} FinishRestores(f: Formats, h: Host, h0: Host, p: Pending)
    requires DigiSettled(f, h) && SidSettled(f, h) && TuneKnown(h0)
    requires p == Pending(true, h.bypass, Some(h.digi), Some(h.bank), h.sidFile, h.sidSubtune)
    requires h0.root == h.root && h0.settings == h.settings && h0.mix == h.mix && h0.kit == h.kit
    requires h0.digiRuntime == h.digiRuntime && h0.pureOutput == h.pureOutput
    ensures Finish(f, h0, p, false) == (h, true)
  {}

  // ---- presets -------------------------------------------------------------------------------

  lemma {:induction false} PresetParses(f: Formats, root: StateRoot)
    requires f.validRoot(root) && 0 < |f.encodeRoot(root)| < 0x1_0000_0000
    ensures Versioned(PresetOf(f, root))
    ensures ChunksOf(PresetOf(f, root)) == [Chunk(TAG_PRESET, [])] + [Chunk(TAG_ROOT, f.encodeRoot(root))]
  {
    ChunksOfEncoding(STATE_VERSION, [Chunk(TAG_PRESET, [])] + [Chunk(TAG_ROOT, f.encodeRoot(root))]);
  }

  /** Loading an encoded preset changes the patch and nothing else. */
  lemma {:induction false} PresetLoadsThePatchOnly(f: Formats, root: StateRoot, h: Host)
    requires RootSurvives(f, root)
    ensures IsPreset(PresetOf(f, root)) && RootIn(f, PresetOf(f, root)) == Some(root)
    ensures Loaded(f, h, PresetOf(f, root)) == (h.(root := root), true)
  {
    var marker, patch := Chunk(TAG_PRESET, []), Chunk(TAG_ROOT, f.encodeRoot(root));
    PresetParses(f, root);
    FirstOfCons(marker, [patch] + [], TAG_ROOT);
    FirstOfCons(marker, [patch] + [], TAG_PRESET);
    FirstOfCons(patch, [], TAG_ROOT);
    assert [patch] + [] == [patch];
    ApplyCons(f, h, NOTHING_PENDING, marker, [patch]);
    ApplyOne(f, h, NOTHING_PENDING, patch);
  }

  /** The exporter's reduction of a full state to a patch-only one. */
  function PresetFrom(data: Bytes): Option<Bytes> {
    if |data| < 4 || GetU32(data) != STATE_VERSION then None
    else
      match First(ChunksOf(data), TAG_ROOT)
      case None => None
      case Some(blob) =>
        Some(U32(STATE_VERSION) + U32(TAG_PRESET) + U32(0) + U32(TAG_ROOT) + U32(|blob|) + blob)
  }

  /** The preset bytes around the encoding of a patch, valid or not. */
  function Marked(f: Formats, root: StateRoot): Bytes {
    U32(STATE_VERSION) + EncodeAll([Chunk(TAG_PRESET, [])] + RootChunks(f, root))
  }

  /** Exporting a saved project gives the marked encoding of its patch, or nothing when the
      patch could not be encoded. Byte for byte this is the preset of the patch exactly when
      the patch is valid: the host refuses to encode an invalid one, the exporter does not
      look. */
  lemma {:induction false} ExportIsThePresetOfThePatch(f: Formats, h: Host)
    requires Writable(f, h)
    ensures PresetFrom(Saved(f, h)) == if f.encodeRoot(h.root) == [] then None else Some(Marked(f, h.root))
    ensures PresetFrom(Saved(f, h)) == Some(PresetOf(f, h.root)) <==> f.encodeRoot(h.root) != [] && f.validRoot(h.root)
  {
    SavedParses(f, h);
    FirstOfSaved(f, h, TAG_ROOT);
    GetU32OfU32(STATE_VERSION, EncodeAll(SavedChunks(f, h)));
    var blob := f.encodeRoot(h.root);
    if blob != [] {
      var marker, patch := Chunk(TAG_PRESET, []), Chunk(TAG_ROOT, blob);
      EncodeAllMore([marker], patch);
      EncodeAllMore([], marker);
      assert [] + [marker] == [marker];
      assert Encode(marker) == U32(TAG_PRESET) + U32(0);
      PresetBytes(U32(STATE_VERSION), U32(TAG_PRESET), U32(0), U32(TAG_ROOT), U32(|blob|), blob);
    }
  }

  lemma {:induction false} PresetBytes(a: Bytes, b: Bytes, c: Bytes, d: Bytes, e: Bytes, blob: Bytes)
    ensures a + (([] + (b + c)) + (d + e + blob)) == a + b + c + d + e + blob
  {}

  // ---- what a preset with other chunks does ------------------------------------------------------

  datatype Field = Settings | Mix | Kit | Runtime | Output

  datatype FieldValue = BytesValue(bytes: Bytes) | RuntimeValue(runtime: DigiRuntime) | FlagValue(flag: bool)

  function View(h: Host, field: Field): FieldValue {
    match field
    case Settings => BytesValue(h.settings)
    case Mix => BytesValue(h.mix)
    case Kit => BytesValue(h.kit)
    case Runtime => RuntimeValue(h.digiRuntime)
    case Output => FlagValue(h.pureOutput)
  }

  /** What a chunk sets a field to, if it does. */
  function Effect(f: Formats, c: Chunk, field: Field): Option<FieldValue> {
    var d := c.payload;
    match field
    case Settings => if c.tag == TAG_SETTINGS && |d| == SETTINGS_SIZE then Some(BytesValue(f.settings(d))) else None
    case Mix => if c.tag == TAG_MIX && |d| == f.mixSize then Some(BytesValue(f.mix(d))) else None
    case Kit => if c.tag == TAG_KIT && f.kit(d).Some? then Some(BytesValue(f.kit(d).value)) else None
    case Runtime => if c.tag == TAG_DIGI_RUNTIME && |d| >= 6 then Some(RuntimeValue(SafeRuntime(d))) else None
    case Output => if c.tag == TAG_OUTPUT && |d| >= 1 then Some(FlagValue(d[0] != 0)) else None
  }

  /** What a list of chunks leaves a field at, if it sets it. */
  function LastEffect(f: Formats, cs: seq<Chunk>, field: Field): Option<FieldValue> {
    if cs == [] then None
    else
      var e := Effect(f, cs[|cs| - 1], field);
      if e.Some? then e else LastEffect(f, cs[..|cs| - 1], field)
  }

  lemma {:induction false} ApplyViews(f: Formats, h: Host, p: Pending, c: Chunk, field: Field)
    ensures View(Apply(f, h, p, c).0, field) ==
            var e := Effect(f, c, field); if e.Some? then e.value else View(h, field)
  {}

  lemma {:induction false} ApplyAllViews(f: Formats, h: Host, p: Pending, cs: seq<Chunk>, field: Field)
    ensures View(ApplyAll(f, h, p, cs).0, field) ==
            var e := LastEffect(f, cs, field); if e.Some? then e.value else View(h, field)
  {
    if cs != [] {
      var n := |cs| - 1;
      assert cs == cs[..n] + [cs[n]];
      ApplyAllMore(f, h, p, cs[..n], cs[n]);
      ApplyAllViews(f, h, p, cs[..n], field);
      ApplyViews(f, ApplyAll(f, h, p, cs[..n]).0, ApplyAll(f, h, p, cs[..n]).1, cs[n], field);
    }
  }

  lemma {:induction false} ApplyAllKeepsTheRest(f: Formats, h: Host, p: Pending, cs: seq<Chunk>)
    ensures var h' := ApplyAll(f, h, p, cs).0;
            && h'.digi == h.digi && h'.bank == h.bank && h'.bypass == h.bypass
            && h'.sidFile == h.sidFile && h'.sidSubtune == h.sidSubtune && h'.sidLoaded == h.sidLoaded
    decreases |cs|
  {
    if cs != [] {
      var (h', p') := Apply(f, h, p, cs[0]);
      ApplyKeepsTheRest(f, h, p, cs[0]);
      ApplyAllKeepsTheRest(f, h', p', cs[1..]);
    }
  }

  lemma {:induction false} ApplyKeepsTheRest(f: Formats, h: Host, p: Pending, c: Chunk)
    ensures var h' := Apply(f, h, p, c).0;
            && h'.digi == h.digi && h'.bank == h.bank && h'.bypass == h.bypass
            && h'.sidFile == h.sidFile && h'.sidSubtune == h.sidSubtune && h'.sidLoaded == h.sidLoaded
  {}

  predicate SameButPatch(a: Host, b: Host) { a.(root := b.root) == b }

  /** What a list of chunks leaves as the DIGI model: the last one, if it decodes. */
  function LastDigi(f: Formats, cs: seq<Chunk>): Option<Bytes> {
    match Last(cs, TAG_DIGI)
    case Some(d) => f.digi(d)
    case None => None
  }

  predicate IsBank(f: Formats, c: Chunk) { c.tag == TAG_DIGI_BANK && |c.payload| == f.bankSize }

  /** And as the DIGI bank: the last one of the right size. */
  function LastBank(f: Formats, cs: seq<Chunk>): Option<Bytes> {
    if cs == [] then None
    else if IsBank(f, cs[|cs| - 1]) then Some(cs[|cs| - 1].payload)
    else LastBank(f, cs[..|cs| - 1])
  }

  lemma {:induction false} LastBankIff(f: Formats, cs: seq<Chunk>)
    ensures LastBank(f, cs).Some? <==> exists c :: c in cs && IsBank(f, c)
  {
    if cs != [] {
      var n := |cs| - 1;
      assert cs == cs[..n] + [cs[n]];
      LastBankIff(f, cs[..n]);
    }
  }

  /** What loading collects of the DIGI chunks. */
  lemma {:induction false} CollectsDigi(f: Formats, h: Host, cs: seq<Chunk>)
    ensures var p := ApplyAll(f, h, NOTHING_PENDING, cs).1; p.digi == LastDigi(f, cs) && p.bank == LastBank(f, cs)
  {
    if cs != [] {
      var n := |cs| - 1;
      assert cs == cs[..n] + [cs[n]];
      ApplyAllMore(f, h, NOTHING_PENDING, cs[..n], cs[n]);
      CollectsDigi(f, h, cs[..n]);
    }
  }

  /** The last DIGI model decodes and some bank has the size of a bank. */
  ghost predicate DigiComesAsPair(f: Formats, cs: seq<Chunk>) {
    LastDigi(f, cs).Some? && exists c :: c in cs && IsBank(f, c)
  }

  predicate SetsPanel(f: Formats, c: Chunk) {
    || Effect(f, c, Settings).Some? || Effect(f, c, Mix).Some? || Effect(f, c, Kit).Some?
    || Effect(f, c, Runtime).Some? || Effect(f, c, Output).Some?
  }

  lemma {:induction false} LastEffectIff(f: Formats, cs: seq<Chunk>)
    ensures (exists field :: LastEffect(f, cs, field).Some?) <==> exists c :: c in cs && SetsPanel(f, c)
  {
    if exists c :: c in cs && SetsPanel(f, c) {
      var c :| c in cs && SetsPanel(f, c);
      var field := FieldSet(f, c);
      EffectIsSeen(f, cs, c, field);
    } else if exists field :: LastEffect(f, cs, field).Some? {
      var field :| LastEffect(f, cs, field).Some?;
      var c := EffectIsMade(f, cs, field);
      assert c in cs && SetsPanel(f, c);
    }
  }

  lemma {:induction false} FieldSet(f: Formats, c: Chunk) returns (field: Field)
    requires SetsPanel(f, c)
    ensures Effect(f, c, field).Some?
  {
    field := if Effect(f, c, Settings).Some? then Settings
             else if Effect(f, c, Mix).Some? then Mix
             else if Effect(f, c, Kit).Some? then Kit
             else if Effect(f, c, Runtime).Some? then Runtime
             else Output;
  }

  lemma {:induction false} EffectIsSeen(f: Formats, cs: seq<Chunk>, c: Chunk, field: Field)
    requires c in cs && Effect(f, c, field).Some?
    ensures LastEffect(f, cs, field).Some?
  {
    if cs[|cs| - 1] != c { EffectIsSeen(f, cs[..|cs| - 1], c, field); }
  }

  lemma {:induction false} EffectIsMade(f: Formats, cs: seq<Chunk>, field: Field) returns (c: Chunk)
    requires LastEffect(f, cs, field).Some?
    ensures c in cs && Effect(f, c, field).Some?
  {
    c := cs[|cs| - 1];
    if Effect(f, c, field).None? { c := EffectIsMade(f, cs[..|cs| - 1], field); }
  }

  /** Some chunk sets a panel, or a DIGI model and bank come as a pair. */
  ghost predicate Touches(f: Formats, cs: seq<Chunk>) {
    (exists c :: c in cs && SetsPanel(f, c)) || DigiComesAsPair(f, cs)
  }

  /** The host has in its panels what the chunks would set them to. */
  ghost predicate AlreadyHas(f: Formats, h: Host, cs: seq<Chunk>) {
    && (forall field :: var e := LastEffect(f, cs, field); e.Some? ==> e.value == View(h, field))
    && (LastDigi(f, cs).Some? && LastBank(f, cs).Some? ==>
          && h.bank == f.bank(LastBank(f, cs).value)
          && h.digi == f.repair(LastDigi(f, cs).value, h.bank))
  }

  /** A preset state leaves a host as it is but for the patch exactly when the host already
      has all that the other chunks set; the marker alone does not stop them. */
  lemma {:induction false} PresetKeepsPanelsIff(f: Formats, data: Bytes, h: Host)
    requires IsPreset(data)
    ensures SameButPatch(h, Loaded(f, h, data).0) <==> AlreadyHas(f, h, ChunksOf(data))
  {
    var cs := ChunksOf(data);
    var (h', p) := ApplyAll(f, h, NOTHING_PENDING, cs);
    CollectsDigi(f, h, cs);
    ApplyAllKeepsTheRest(f, h, NOTHING_PENDING, cs);
    assert Loaded(f, h, data).0 == PairDigi(f, h', p);
    forall field ensures View(h', field) ==
                         var e := LastEffect(f, cs, field); if e.Some? then e.value else View(h, field)
    {
      ApplyAllViews(f, h, NOTHING_PENDING, cs, field);
    }
    SameViews(h, h', PairDigi(f, h', p));
  }

  /** Two hosts alike in what is no panel are the same but for the patch when every panel
      shows the same and the DIGI models are the same. */
  lemma {:induction false} SameViews(h: Host, h': Host, after: Host)
    requires after == h'.(digi := after.digi, bank := after.bank)
    requires h'.bypass == h.bypass && h'.sidFile == h.sidFile && h'.sidSubtune == h.sidSubtune
    requires h'.sidLoaded == h.sidLoaded
    ensures SameButPatch(h, after) <==>
            (forall field :: View(h', field) == View(h, field)) && after.digi == h.digi && after.bank == h.bank
  {
    if forall field :: View(h', field) == View(h, field) {
      assert View(h', Settings) == View(h, Settings) && View(h', Mix) == View(h, Mix) && View(h', Kit) == View(h, Kit);
      assert View(h', Runtime) == View(h, Runtime) && View(h', Output) == View(h, Output);
    }
  }

  predicate UnlikeInEveryPanel(a: Host, b: Host) {
    && a.settings != b.settings && a.mix != b.mix && a.kit != b.kit
    && a.digiRuntime != b.digiRuntime && a.pureOutput != b.pureOutput && a.bank != b.bank
  }

  /** A preset state changes the patch only, on every settled host, if and only if no chunk
      of it sets a panel and no DIGI model and bank come as a pair. (a and b show that every
      panel can be set in more than one way.) */
  lemma {:induction false} PresetChangesThePatchOnlyIff(f: Formats, data: Bytes, a: Host, b: Host)
    requires IsPreset(data) && Settled(f, a) && Settled(f, b) && UnlikeInEveryPanel(a, b)
    ensures (forall h | Settled(f, h) :: SameButPatch(h, Loaded(f, h, data).0)) <==> !Touches(f, ChunksOf(data))
  {
    var cs := ChunksOf(data);
    LastEffectIff(f, cs);
    LastBankIff(f, cs);
    if Touches(f, cs) {
      OneLacks(f, cs, a, b);
      PresetKeepsPanelsIff(f, data, a);
      PresetKeepsPanelsIff(f, data, b);
    } else {
      forall h | Settled(f, h) ensures SameButPatch(h, Loaded(f, h, data).0) {
        NothingToHave(f, h, cs);
        PresetKeepsPanelsIff(f, data, h);
      }
    }
  }

  lemma {:induction false} NothingToHave(f: Formats, h: Host, cs: seq<Chunk>)
    requires !(exists field :: LastEffect(f, cs, field).Some?)
    requires LastDigi(f, cs).None? || LastBank(f, cs).None?
    ensures AlreadyHas(f, h, cs)
  {
    forall field ensures LastEffect(f, cs, field).None? {}
  }

  /** Of two hosts that differ in every panel one lacks what is set. */
  lemma {:induction false} OneLacks(f: Formats, cs: seq<Chunk>, a: Host, b: Host)
    requires UnlikeInEveryPanel(a, b)
    requires (exists field :: LastEffect(f, cs, field).Some?) || (LastDigi(f, cs).Some? && LastBank(f, cs).Some?)
    ensures !AlreadyHas(f, a, cs) || !AlreadyHas(f, b, cs)
  {
    if exists field :: LastEffect(f, cs, field).Some? {
      var field :| LastEffect(f, cs, field).Some?;
      assert View(a, field) != View(b, field);
    }
  }

  /** A preset marker and an output mode. */
  const OUTPUT_PRESET := U32(STATE_VERSION) + EncodeAll([Chunk(TAG_PRESET, []), Chunk(TAG_OUTPUT, [1])])

  /** Loading it, as a preset, switches every host to the pure output. */
  lemma {:induction false} MarkedStateSwitchesOutput(f: Formats, h: Host)
    ensures IsPreset(OUTPUT_PRESET) && Loaded(f, h, OUTPUT_PRESET).0 == h.(pureOutput := true)
  {
    var marker, output := Chunk(TAG_PRESET, []), Chunk(TAG_OUTPUT, [1]);
    ChunksOfEncoding(STATE_VERSION, [marker, output]);
    assert [marker, output] == [marker] + [output];
    FirstOfCons(marker, [output], TAG_PRESET);
    ApplyCons(f, h, NOTHING_PENDING, marker, [output]);
    ApplyOne(f, h, NOTHING_PENDING, output);
  }

  // ---- the readers on any state --------------------------------------------------------------------

  predicate SaysBypassed(payload: Option<Bytes>) { payload.Some? && IsSet(payload.value) }

  lemma {:induction false} BypassedIsLast(f: Formats, h: Host, cs: seq<Chunk>)
    ensures ApplyAll(f, h, NOTHING_PENDING, cs).1.bypassed == SaysBypassed(Last(cs, TAG_BYPASS))
  {
    if cs != [] {
      var n := |cs| - 1;
      assert cs == cs[..n] + [cs[n]];
      ApplyAllMore(f, h, NOTHING_PENDING, cs[..n], cs[n]);
      BypassedIsLast(f, h, cs[..n]);
    }
  }

  /** On any project state, truncated or hostile: peeking at the bypass flag agrees with
      loading it if and only if the first and the last bypass chunk say the same. */
  lemma {:induction false} BypassAgreesIff(f: Formats, h: Host, data: Bytes)
    requires Versioned(data) && !IsPreset(data)
    ensures BypassIn(data) == Loaded(f, h, data).0.bypass <==>
            SaysBypassed(First(ChunksOf(data), TAG_BYPASS)) == SaysBypassed(Last(ChunksOf(data), TAG_BYPASS))
  {
    BypassedIsLast(f, h, ChunksOf(data));
  }

  /** A state that says bypassed, then not bypassed. */
  const TWO_BYPASSES := U32(STATE_VERSION) + EncodeAll([Chunk(TAG_BYPASS, [1]), Chunk(TAG_BYPASS, [0])])

  /** Peeking finds it bypassed, loading does not. */
  lemma {:induction false} PeekAndLoadDisagree(f: Formats, h: Host)
    ensures !IsPreset(TWO_BYPASSES) && BypassIn(TWO_BYPASSES) && !Loaded(f, h, TWO_BYPASSES).0.bypass
  {
    var on, off := Chunk(TAG_BYPASS, [1]), Chunk(TAG_BYPASS, [0]);
    ChunksOfEncoding(STATE_VERSION, [on, off]);
    assert [on, off] == [on] + ([off] + []);
    FirstOfCons(on, [off] + [], TAG_PRESET);
    FirstOfCons(off, [], TAG_PRESET);
    FirstOfCons(on, [off] + [], TAG_BYPASS);
    assert [on, off][|[on, off]| - 1] == off;
    BypassAgreesIff(f, h, TWO_BYPASSES);
  }

  /** With unique tags they always agree. */
  lemma {:induction false} UniqueBypassAgrees(f: Formats, h: Host, data: Bytes)
    requires Versioned(data) && !IsPreset(data) && CountTag(ChunksOf(data), TAG_BYPASS) <= 1
    ensures BypassIn(data) == Loaded(f, h, data).0.bypass
  {
    UniqueFirstIsLast(ChunksOf(data), TAG_BYPASS);
    BypassAgreesIff(f, h, data);
  }

  /** The patch a load schedules: the last root chunk that decodes. */
  function LastRoot(f: Formats, cs: seq<Chunk>): Option<StateRoot> {
    if cs == [] then None
    else
      var c := cs[|cs| - 1];
      if c.tag == TAG_ROOT && f.decodeRoot(c.payload, true).Some? then f.decodeRoot(c.payload, true)
      else LastRoot(f, cs[..|cs| - 1])
  }

  lemma {:induction false} LoadTakesLastRoot(f: Formats, h: Host, cs: seq<Chunk>)
    ensures var (h', p) := ApplyAll(f, h, NOTHING_PENDING, cs);
            && p.haveRoot == LastRoot(f, cs).Some?
            && h'.root == if LastRoot(f, cs).Some? then LastRoot(f, cs).value else h.root
  {
    if cs != [] {
      var n := |cs| - 1;
      assert cs == cs[..n] + [cs[n]];
      ApplyAllMore(f, h, NOTHING_PENDING, cs[..n], cs[n]);
      LoadTakesLastRoot(f, h, cs[..n]);
    }
  }

  lemma {:induction false} LastRootIsLast(f: Formats, cs: seq<Chunk>)
    requires CountTag(cs, TAG_ROOT) <= 1
    ensures LastRoot(f, cs) == match Last(cs, TAG_ROOT) case Some(blob) => f.decodeRoot(blob, true) case None => None
  {
    if cs != [] {
      var n := |cs| - 1;
      assert cs == cs[..n] + [cs[n]];
      CountOfJoin(cs[..n], [cs[n]], TAG_ROOT);
      assert [cs[n]][1..] == [];
      LastRootIsLast(f, cs[..n]);
      if cs[n].tag == TAG_ROOT {
        CountIsZero(cs[..n], TAG_ROOT);
        UniqueFirstIsLast(cs[..n], TAG_ROOT);
      }
    }
  }

  /** The patch that decoding alone finds: the first root chunk, if it decodes. */
  function FirstRoot(f: Formats, cs: seq<Chunk>): Option<StateRoot> {
    match First(cs, TAG_ROOT)
    case Some(blob) => f.decodeRoot(blob, true)
    case None => None
  }

  /** On any chunked state, truncated or hostile: decoding the patch alone and loading the
      state agree on whether there is one and on what it is if and only if the first root
      chunk decodes to what the last one that decodes does, or none decodes. */
  lemma {:induction false} RootAgreesIff(f: Formats, h: Host, data: Bytes)
    requires Versioned(data)
    ensures (var (h', loaded) := Loaded(f, h, data);
             var root := RootIn(f, data);
             loaded == root.Some? && h'.root == if root.Some? then root.value else h.root)
            <==> FirstRoot(f, ChunksOf(data)) == LastRoot(f, ChunksOf(data))
  {
    LoadedRoot(f, h, data);
  }

  lemma {:induction false} LoadedRoot(f: Formats, h: Host, data: Bytes)
    requires Versioned(data)
    ensures var last := LastRoot(f, ChunksOf(data));
            && Loaded(f, h, data).1 == last.Some?
            && Loaded(f, h, data).0.root == if last.Some? then last.value else h.root
  {
    LoadTakesLastRoot(f, h, ChunksOf(data));
  }

  /** Two root chunks, the first of which does not decode: decoding alone finds no patch,
      loading takes the second. */
  lemma {:induction false} SecondRootIsLoaded(f: Formats, h: Host, bad: Bytes, good: Bytes)
    requires |bad| < 0x1_0000_0000 && |good| < 0x1_0000_0000
    requires f.decodeRoot(bad, true).None? && f.decodeRoot(good, true).Some?
    ensures var data := U32(STATE_VERSION) + EncodeAll([Chunk(TAG_ROOT, bad), Chunk(TAG_ROOT, good)]);
            RootIn(f, data).None? && Loaded(f, h, data).1 && Loaded(f, h, data).0.root == f.decodeRoot(good, true).value
  {
    var first, second := Chunk(TAG_ROOT, bad), Chunk(TAG_ROOT, good);
    ChunksOfEncoding(STATE_VERSION, [first, second]);
    assert [first, second] == [first] + [second];
    FirstOfCons(first, [second], TAG_ROOT);
    LoadedRoot(f, h, U32(STATE_VERSION) + EncodeAll([first, second]));
    assert [first, second][..1] == [first];
  }

  /** On any state with at most one root chunk: decoding the patch alone and loading the
      state agree on whether there is one and on what it is. */
  lemma {:induction false} UniqueRootAgrees(f: Formats, h: Host, data: Bytes)
    requires Versioned(data) ==> CountTag(ChunksOf(data), TAG_ROOT) <= 1
    ensures Loaded(f, h, data).1 == RootIn(f, data).Some?
    ensures Loaded(f, h, data).0.root == if RootIn(f, data).Some? then RootIn(f, data).value else h.root
  {
    if Versioned(data) {
      LoadedRoot(f, h, data);
      LastRootIsLast(f, ChunksOf(data));
      UniqueFirstIsLast(ChunksOf(data), TAG_ROOT);
    }
  }
}
