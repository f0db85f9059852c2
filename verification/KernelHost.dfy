// The plug-in host object that owns the models a project saves, and the loops that
// write and walk its state.
module KernelHosts {
  import opened Basics
  import opened StateRoots
  import opened LittleEndian
  import opened ChunkFormat
  import opened ComponentState
  import opened ComponentRoundTrips

  /** One turn of every walker: the chunk at pos, if it is whole. */
  lemma {:induction false} WalkStep(data: Bytes, pos: nat)
    requires pos + 8 <= |data|
    ensures var length := GetU32(data[pos + 4..]);
            if length > |data| - (pos + 8) then Parse(data[pos..]) == []
            else Parse(data[pos..]) ==
                 [Chunk(GetU32(data[pos..]), data[pos + 8..pos + 8 + length])] + Parse(data[pos + 8 + length..])
  {
    var body := data[pos..];
    var length := GetU32(data[pos + 4..]);
    assert body[4..] == data[pos + 4..];
    if length <= |data| - (pos + 8) {
      assert body[8..8 + length] == data[pos + 8..pos + 8 + length];
      assert body[8 + length..] == data[pos + 8 + length..];
    }
  }

  /** What the turn means to a walker looking for a tag. */
  lemma {:induction false} FindStep(data: Bytes, pos: nat, tag: uint32)
    requires pos + 8 <= |data|
    ensures var length := GetU32(data[pos + 4..]);
            First(Parse(data[pos..]), tag) ==
            if length > |data| - (pos + 8) then None
            else if GetU32(data[pos..]) == tag then Some(data[pos + 8..pos + 8 + length])
            else First(Parse(data[pos + 8 + length..]), tag)
  {
    WalkStep(data, pos);
    var length := GetU32(data[pos + 4..]);
    if length <= |data| - (pos + 8) {
      FirstOfCons(Chunk(GetU32(data[pos..]), data[pos + 8..pos + 8 + length]), Parse(data[pos + 8 + length..]), tag);
    }
  }

  /** The payload a walker finds first under a tag. */
  method FindFirst(data: Bytes, tag: uint32) returns (payload: Option<Bytes>)
    requires |data| >= 4
    ensures payload == First(ChunksOf(data), tag)
  {
    var pos := 4;
    while pos + 8 <= |data|
      invariant 4 <= pos <= |data|
      invariant First(ChunksOf(data), tag) == First(Parse(data[pos..]), tag)
    {
      FindStep(data, pos, tag);
      var found, length := GetU32(data[pos..]), GetU32(data[pos + 4..]);
      pos := pos + 8;
      if length > |data| - pos {
        return None;
      }
      if found == tag {
        return Some(data[pos..pos + length]);
      }
      pos := pos + length;
    }
    assert Parse(data[pos..]) == [];
    payload := None;
  }

  method DecodeStateRoot(f: Formats, data: Bytes) returns (root: Option<StateRoot>)
    ensures root == RootIn(f, data)
  {
    if |data| < 4 {
      return None;
    }
    var version := GetU32(data);
    if version < STATE_VERSION {
      return f.decodeRoot(data[4..], version >= 4);
    }
    var blob := FindFirst(data, TAG_ROOT);
    match blob {
      case Some(bytes) => root := f.decodeRoot(bytes, true);
      case None => root := None;
    }
  }

  method IsPresetState(data: Bytes) returns (r: bool)
    ensures r == IsPreset(data)
  {
    if |data| < 4 || GetU32(data) < STATE_VERSION {
      return false;
    }
    var marker := FindFirst(data, TAG_PRESET);
    r := marker.Some?;
  }

  method DecodeBypass(data: Bytes) returns (r: bool)
    ensures r == BypassIn(data)
  {
    if |data| < 4 || GetU32(data) < STATE_VERSION {
      return false;
    }
    var payload := FindFirst(data, TAG_BYPASS);
    r := payload.Some? && |payload.value| >= 1 && payload.value[0] != 0;
  }

  /** The exporter's own walk over a full state. */
  method PresetStateFrom(data: Bytes) returns (preset: Option<Bytes>)
    ensures preset == PresetFrom(data)
  {
    if |data| < 4 || GetU32(data) != STATE_VERSION {
      return None;
    }
    var blob := FindFirst(data, TAG_ROOT);
    match blob {
      case None => preset := None;
      case Some(bytes) =>
        var out := PutU32([], STATE_VERSION);
        out := PutU32(out, TAG_PRESET);
        out := PutU32(out, 0);
        out := PutU32(out, TAG_ROOT);
        FirstFits(data[4..], TAG_ROOT);
        out := PutU32(out, |bytes|);
        assert [] + U32(STATE_VERSION) == U32(STATE_VERSION);
        preset := Some(out + bytes);
    }
  }

  /** Payloads that were walked over fit their length words. */
  lemma {:induction false} FirstFits(body: Bytes, tag: uint32)
    ensures var p := First(Parse(body), tag); p.Some? ==> |p.value| < 0x1_0000_0000
  {
    if |body| >= 8 && GetU32(body[4..]) <= |body| - 8 {
      var length := GetU32(body[4..]);
      FirstOfCons(Chunk(GetU32(body), body[8..8 + length]), Parse(body[8 + length..]), tag);
      FirstFits(body[8 + length..], tag);
    }
  }

  method PutChunk(out: Bytes, c: Chunk) returns (r: Bytes)
    requires Fits(c)
    ensures r == out + Encode(c)
  {
    r := PutU32(out, c.tag);
    r := PutU32(r, |c.payload|);
    r := r + c.payload;
  }

  method PutChunks(out: Bytes, cs: seq<Chunk>) returns (r: Bytes)
    requires forall c :: c in cs ==> Fits(c)
    ensures r == out + EncodeAll(cs)
  {
    r := out;
    for i := 0 to |cs|
      invariant r == out + EncodeAll(cs[..i])
    {
      assert cs[i] in cs;
      EncodeAllMore(cs[..i], cs[i]);
      assert cs[..i + 1] == cs[..i] + [cs[i]];
      r := PutChunk(r, cs[i]);
    }
    assert cs[..|cs|] == cs;
  }

  method EncodePresetState(f: Formats, root: StateRoot) returns (out: Bytes)
    requires |f.encodeRoot(root)| < 0x1_0000_0000
    ensures out == PresetOf(f, root)
  {
    out := [];
    if !f.validRoot(root) {
      return;
    }
    var blob := f.encodeRoot(root);
    if |blob| == 0 {
      return;
    }
    out := PutU32([], STATE_VERSION);
    assert [] + U32(STATE_VERSION) == U32(STATE_VERSION);
    out := PutChunks(out, [Chunk(TAG_PRESET, [])] + [Chunk(TAG_ROOT, blob)]);
  }

  class Vst3KernelHost {
    const formats: Formats
    var root: StateRoot
    var settings: Bytes
    var mix: Bytes
    var kit: Bytes
    var digi: Bytes
    var bank: Bytes
    var digiRuntime: DigiRuntime
    var pureOutput: bool
    var bypass: bool
    var sidFile: Bytes
    var sidSubtune: nat
    var sidLoaded: bool

    function State(): Host
      reads this
    {
      Host(root, settings, mix, kit, digi, bank, digiRuntime, pureOutput, bypass, sidFile, sidSubtune, sidLoaded)
    }

    constructor (formats: Formats, initial: Host)
      ensures State() == initial && this.formats == formats
    {
      this.formats := formats;
      root, settings, mix, kit := initial.root, initial.settings, initial.mix, initial.kit;
      digi, bank, digiRuntime := initial.digi, initial.bank, initial.digiRuntime;
      pureOutput, bypass := initial.pureOutput, initial.bypass;
      sidFile, sidSubtune, sidLoaded := initial.sidFile, initial.sidSubtune, initial.sidLoaded;
    }

    method SaveState() returns (out: Bytes)
      requires Writable(formats, State())
      ensures out == Saved(formats, State())
    {
      SavedChunksFit(formats, State());
      out := PutU32([], STATE_VERSION);
      assert [] + U32(STATE_VERSION) == U32(STATE_VERSION);
      var chunks: seq<Chunk> := [];
      var blob := formats.encodeRoot(root);
      if |blob| > 0 {
        chunks := [Chunk(TAG_ROOT, blob)];
      }
      chunks := chunks + (PanelChunks(State()) + (DigiChunks(State()) + (RuntimeChunks(State()) + SidChunks(State()))));
      out := PutChunks(out, chunks);
    }

    /** Restores a saved state; what stands before a cut is kept. */
    method LoadState(data: Bytes) returns (haveRoot: bool)
      modifies this
      ensures (State(), haveRoot) == Loaded(formats, old(State()), data)
    {
      if |data| < 4 {
        return false;
      }
      var version := GetU32(data);
      if version < STATE_VERSION {
        match formats.decodeRoot(data[4..], version >= 4) {
          case Some(legacy) =>
            root := legacy;
            haveRoot := true;
          case None =>
            haveRoot := false;
        }
        return;
      }
      var preset := IsPresetState(data);
      var pending := Walk(data);
      PairDigiModel(pending);
      haveRoot := pending.haveRoot;
      if preset {
        return;
      }
      bypass := pending.bypassed;
      RestoreTune(pending);
    }

    method Walk(data: Bytes) returns (pending: Pending)
      requires |data| >= 4
      modifies this
      ensures (State(), pending) == ApplyAll(formats, old(State()), NOTHING_PENDING, ChunksOf(data))
    {
      pending := NOTHING_PENDING;
      ghost var h := State();
      var pos, whole := 4, true;
      while whole && pos + 8 <= |data|
        invariant 4 <= pos <= |data|
        invariant ApplyAll(formats, h, NOTHING_PENDING, ChunksOf(data))
               == ApplyAll(formats, State(), pending, Parse(data[pos..]))
        invariant !whole ==> Parse(data[pos..]) == []
        decreases |data| - pos, whole
      {
        pending, pos, whole := WalkOne(data, pos, pending);
      }
    }

    /** One turn of the walk; not whole means the chunk at pos is cut short. */
    method WalkOne(data: Bytes, pos: nat, pending: Pending) returns (p: Pending, next: nat, whole: bool)
      requires pos + 8 <= |data|
      modifies this
      ensures pos <= next <= |data| && (whole ==> pos < next) && (!whole ==> Parse(data[next..]) == [])
      ensures ApplyAll(formats, old(State()), pending, Parse(data[pos..]))
           == ApplyAll(formats, State(), p, Parse(data[next..]))
    {
      WalkStep(data, pos);
      var tag, length := GetU32(data[pos..]), GetU32(data[pos + 4..]);
      if length > |data| - (pos + 8) {
        p, next, whole := pending, pos, false;
        return;
      }
      next, whole := pos + 8 + length, true;
      var payload := data[pos + 8..next];
      ApplyCons(formats, State(), pending, Chunk(tag, payload), Parse(data[next..]));
      p := TakeChunk(pending, tag, payload);
    }

    /** The switch over the tags. */
    method TakeChunk(pending: Pending, tag: uint32, d: Bytes) returns (p: Pending)
      modifies this
      ensures (State(), p) == Apply(formats, old(State()), pending, Chunk(tag, d))
    {
      p := pending;
      if tag == TAG_ROOT {
        match formats.decodeRoot(d, true) {
          case Some(decoded) =>
            root := decoded;
            p := p.(haveRoot := true);
          case None =>
        }
      } else if tag == TAG_SETTINGS {
        if |d| == SETTINGS_SIZE { settings := formats.settings(d); }
      } else if tag == TAG_MIX {
        if |d| == formats.mixSize { mix := formats.mix(d); }
      } else if tag == TAG_KIT {
        match formats.kit(d) {
          case Some(blob) => kit := blob;
          case None =>
        }
      } else if tag == TAG_DIGI {
        p := p.(digi := formats.digi(d));
      } else if tag == TAG_DIGI_BANK {
        if |d| == formats.bankSize { p := p.(bank := Some(d)); }
      } else if tag == TAG_DIGI_RUNTIME {
        if |d| >= 6 { digiRuntime := SafeRuntime(d); }
      } else if tag == TAG_OUTPUT {
        if |d| >= 1 { pureOutput := d[0] != 0; }
      } else if tag == TAG_BYPASS {
        p := p.(bypassed := |d| >= 1 && d[0] != 0);
      } else if tag == TAG_SID_FILE {
        if |d| > 2 && |d| - 2 <= MAX_SID_FILE_BYTES {
          p := p.(sidSubtune := Decoded(d[..2]), sidBytes := d[2..]);
        }
      }
    }

    method PairDigiModel(p: Pending)
      modifies `digi, `bank
      ensures State() == PairDigi(formats, old(State()), p)
    {
      if p.digi.Some? && p.bank.Some? {
        bank := formats.bank(p.bank.value);
        digi := formats.repair(p.digi.value, bank);
      }
    }

    method RestoreTune(p: Pending)
      modifies `sidFile, `sidSubtune, `sidLoaded
      ensures State() == RestoreSid(formats, old(State()), p)
    {
      if |p.sidBytes| > 0 {
        if |p.sidBytes| <= MAX_SID_FILE_BYTES && formats.playsSid(p.sidBytes, p.sidSubtune) {
          sidFile, sidSubtune, sidLoaded := p.sidBytes, p.sidSubtune, true;
        } else {
          sidFile, sidSubtune, sidLoaded := [], 0, false;
        }
      } else if |sidFile| > 0 || sidLoaded {
        sidFile, sidSubtune, sidLoaded := [], 0, false;
      }
    }
  }
}
