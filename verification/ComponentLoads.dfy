// What a load leaves of a host, read off the chunks of the state alone.
module ComponentLoads {
  import opened Basics
  import opened StateRoots
  import opened LittleEndian
  import opened ChunkFormat
  import opened ComponentState
  import opened ComponentRoundTrips

  datatype Tune = Tune(file: Bytes, subtune: nat)

  /** A SID chunk of a size that a load takes up. */
  predicate SetsTune(c: Chunk) {
    c.tag == TAG_SID_FILE && 2 < |c.payload| <= 2 + MAX_SID_FILE_BYTES
  }

  /** The tune of the last such chunk: its number in two bytes, then the file. */
  function LastTune(cs: seq<Chunk>): (r: Option<Tune>)
    ensures r.Some? ==> 0 < |r.value.file| <= MAX_SID_FILE_BYTES
  {
    if cs == [] then None
    else
      var c := cs[|cs| - 1];
      if SetsTune(c) then Some(Tune(c.payload[2..], Decoded(c.payload[..2]))) else LastTune(cs[..|cs| - 1])
  }

  lemma {:induction false} CollectsTune(f: Formats, h: Host, cs: seq<Chunk>)
    ensures var (p, tune) := (ApplyAll(f, h, NOTHING_PENDING, cs).1, LastTune(cs));
            && p.sidBytes == (if tune.Some? then tune.value.file else [])
            && p.sidSubtune == if tune.Some? then tune.value.subtune else 0
  {
    if cs != [] {
      var n := |cs| - 1;
      assert cs == cs[..n] + [cs[n]];
      ApplyAllMore(f, h, NOTHING_PENDING, cs[..n], cs[n]);
      CollectsTune(f, h, cs[..n]);
    }
  }

  /** The tune a state asks for, if the kernel plays it. */
  function PlayedTune(f: Formats, cs: seq<Chunk>): Option<Tune> {
    var tune := LastTune(cs);
    if tune.Some? && f.playsSid(tune.value.file, tune.value.subtune) then tune else None
  }

  predicate HasTune(h: Host, tune: Option<Tune>) {
    match tune
    case Some(t) => h.sidLoaded && h.sidFile == t.file && h.sidSubtune == t.subtune
    case None => !h.sidLoaded && h.sidFile == []
  }

  /** After a load of a project the host has the tune of the last SID chunk that can set
      one, if it plays, and otherwise none, whatever it held before; a subtune only outlasts
      the load in a host that had none of the rest of a tune. */
  lemma {:induction false} LoadLeavesTheTune(f: Formats, h: Host, data: Bytes)
    requires Versioned(data) && !IsPreset(data)
    ensures var (h', cs) := (Loaded(f, h, data).0, ChunksOf(data));
            && HasTune(h', PlayedTune(f, cs))
            && (PlayedTune(f, cs).None? ==>
                  h'.sidSubtune == if LastTune(cs).None? && HasTune(h, None) then h.sidSubtune else 0)
  {
    CollectsTune(f, h, ChunksOf(data));
    ApplyAllKeepsTheRest(f, h, NOTHING_PENDING, ChunksOf(data));
  }

  /** So two hosts that load the same project end with the same tune. */
  lemma {:induction false} LoadsAgreeOnTheTune(f: Formats, a: Host, b: Host, data: Bytes)
    requires Versioned(data) && !IsPreset(data) && TuneKnown(a) && TuneKnown(b)
    ensures var (a', b') := (Loaded(f, a, data).0, Loaded(f, b, data).0);
            a'.sidFile == b'.sidFile && a'.sidSubtune == b'.sidSubtune && a'.sidLoaded == b'.sidLoaded
  {
    LoadLeavesTheTune(f, a, data);
    LoadLeavesTheTune(f, b, data);
  }

  lemma {:induction false} LastTuneOfJoin(a: seq<Chunk>, b: seq<Chunk>)
    ensures LastTune(a + b) == if LastTune(b).Some? then LastTune(b) else LastTune(a)
  {
    if b == [] {
      assert a + b == a;
    } else {
      var n := |b| - 1;
      assert (a + b)[..|a + b| - 1] == a + b[..n];
      LastTuneOfJoin(a, b[..n]);
    }
  }

  lemma {:induction false} NoTune(cs: seq<Chunk>)
    requires forall i :: 0 <= i < |cs| ==> cs[i].tag != TAG_SID_FILE
    ensures LastTune(cs) == None
  {
    if cs != [] { NoTune(cs[..|cs| - 1]); }
  }

  /** A save carries the tune, whole and with its subtune, exactly when the host holds a file
      and the kernel has it loaded. */
  lemma {:induction false} SaveCarriesTheTune(f: Formats, h: Host)
    requires Writable(f, h) && |h.sidFile| <= MAX_SID_FILE_BYTES && h.sidSubtune < 0x1_0000
    ensures LastTune(ChunksOf(Saved(f, h)))
            == if h.sidFile != [] && h.sidLoaded then Some(Tune(h.sidFile, h.sidSubtune)) else None
  {
    SavedParses(f, h);
    var others := RootChunks(f, h.root) + (PanelChunks(h) + (DigiChunks(h) + RuntimeChunks(h)));
    assert SavedChunks(f, h) == others + SidChunks(h);
    NoTune(others);
    LastTuneOfJoin(others, SidChunks(h));
    TuneOfItsChunk(h);
  }

  lemma {:induction false} TuneOfItsChunk(h: Host)
    requires |h.sidFile| <= MAX_SID_FILE_BYTES && h.sidSubtune < 0x1_0000
    ensures LastTune(SidChunks(h))
            == if h.sidFile != [] && h.sidLoaded then Some(Tune(h.sidFile, h.sidSubtune)) else None
  {
    if SidChunks(h) != [] {
      var d := Encoded(h.sidSubtune, 2) + h.sidFile;
      assert d[..2] == Encoded(h.sidSubtune, 2) && d[2..] == h.sidFile;
      assert Radix(2) == 0x1_0000;
      DecodedEncoded(h.sidSubtune, 2);
    }
  }

  /** The DIGI model and bank that the chunks bring, when they bring both. */
  function LastPair(f: Formats, cs: seq<Chunk>): Option<(Bytes, Bytes)> {
    if LastDigi(f, cs).Some? && LastBank(f, cs).Some? then
      var bank := f.bank(LastBank(f, cs).value);
      Some((f.repair(LastDigi(f, cs).value, bank), bank))
    else None
  }

  /** Everything a load changes, part by part, from the chunks alone: patch and panels as
      the last chunk that sets them says and as before without one, the DIGI model and bank
      only together and repaired, the bypass flag off without a chunk; a preset leaves the
      bypass flag and the tune. */
  lemma {:induction false} LoadFollowsTheChunks(f: Formats, h: Host, data: Bytes)
    requires Versioned(data)
    ensures var (h', haveRoot) := Loaded(f, h, data);
            var cs := ChunksOf(data);
            && haveRoot == LastRoot(f, cs).Some?
            && h'.root == (if haveRoot then LastRoot(f, cs).value else h.root)
            && (forall field :: View(h', field) ==
                  var e := LastEffect(f, cs, field); if e.Some? then e.value else View(h, field))
            && (h'.digi, h'.bank) == (if LastPair(f, cs).Some? then LastPair(f, cs).value else (h.digi, h.bank))
            && h'.bypass == (if IsPreset(data) then h.bypass else SaysBypassed(Last(cs, TAG_BYPASS)))
            && (IsPreset(data) ==>
                  h'.sidFile == h.sidFile && h'.sidSubtune == h.sidSubtune && h'.sidLoaded == h.sidLoaded)
  {
    LoadedRoot(f, h, data);
    LoadedRest(f, h, data);
    forall field ensures View(Loaded(f, h, data).0, field) ==
                         var e := LastEffect(f, ChunksOf(data), field); if e.Some? then e.value else View(h, field)
    {
      LoadedView(f, h, data, field);
    }
  }

  lemma {:induction false} LoadedView(f: Formats, h: Host, data: Bytes, field: Field)
    requires Versioned(data)
    ensures View(Loaded(f, h, data).0, field) ==
            var e := LastEffect(f, ChunksOf(data), field); if e.Some? then e.value else View(h, field)
  {
    var (h', p) := ApplyAll(f, h, NOTHING_PENDING, ChunksOf(data));
    ApplyAllViews(f, h, NOTHING_PENDING, ChunksOf(data), field);
    FinishKeepsViews(f, h', p, IsPreset(data), field);
  }

  lemma {:induction false} LoadedRest(f: Formats, h: Host, data: Bytes)
    requires Versioned(data)
    ensures var (h', cs) := (Loaded(f, h, data).0, ChunksOf(data));
            && (h'.digi, h'.bank) == (if LastPair(f, cs).Some? then LastPair(f, cs).value else (h.digi, h.bank))
            && h'.bypass == (if IsPreset(data) then h.bypass else SaysBypassed(Last(cs, TAG_BYPASS)))
            && (IsPreset(data) ==>
                  h'.sidFile == h.sidFile && h'.sidSubtune == h.sidSubtune && h'.sidLoaded == h.sidLoaded)
  {
    var (h', p) := ApplyAll(f, h, NOTHING_PENDING, ChunksOf(data));
    CollectsDigi(f, h, ChunksOf(data));
    BypassedIsLast(f, h, ChunksOf(data));
    ApplyAllKeepsTheRest(f, h, NOTHING_PENDING, ChunksOf(data));
    FinishedRest(f, h', p, IsPreset(data));
  }

  lemma {:induction false} FinishedRest(f: Formats, h: Host, p: Pending, preset: bool)
    ensures var h' := Finish(f, h, p, preset).0;
            && h'.digi == PairDigi(f, h, p).digi && h'.bank == PairDigi(f, h, p).bank
            && h'.bypass == (if preset then h.bypass else p.bypassed)
            && (preset ==> h'.sidFile == h.sidFile && h'.sidSubtune == h.sidSubtune && h'.sidLoaded == h.sidLoaded)
  {}

  lemma {:induction false} FinishKeepsViews(f: Formats, h: Host, p: Pending, preset: bool, field: Field)
    ensures View(Finish(f, h, p, preset).0, field) == View(h, field)
  {}

  /** Loading a state a second time changes nothing. */
  lemma {:induction false} LoadingAgainChangesNothing(f: Formats, h: Host, data: Bytes)
    ensures Loaded(f, Loaded(f, h, data).0, data) == Loaded(f, h, data)
  {
    if Versioned(data) {
      var once := Loaded(f, h, data).0;
      LoadFollowsTheChunks(f, h, data);
      LoadFollowsTheChunks(f, once, data);
      if !IsPreset(data) {
        LoadLeavesTheTune(f, h, data);
        LoadLeavesTheTune(f, once, data);
      }
      assert forall field :: View(Loaded(f, once, data).0, field) == View(once, field);
      AlikeInEveryPart(Loaded(f, once, data).0, once);
    }
  }

  lemma {:induction false} AlikeInEveryPart(a: Host, b: Host)
    requires forall field :: View(a, field) == View(b, field)
    requires a.root == b.root && a.digi == b.digi && a.bank == b.bank && a.bypass == b.bypass
    requires a.sidFile == b.sidFile && a.sidSubtune == b.sidSubtune && a.sidLoaded == b.sidLoaded
    ensures a == b
  {
    assert View(a, Settings) == View(b, Settings) && View(a, Mix) == View(b, Mix) && View(a, Kit) == View(b, Kit);
    assert View(a, Runtime) == View(b, Runtime) && View(a, Output) == View(b, Output);
  }

  /** Whatever six bytes a state carries, the DIGI settings come into range: those in range
      are kept, an unknown mode becomes 0, an unknown channel 16, the rate the nearest one
      of the range and the root note the nearest to its low seven bits. */
  lemma {:induction false} RuntimeIsMadeSafe(p: Bytes)
    requires |p| >= 6
    ensures var (d, rate, note) := (SafeRuntime(p), Decoded(p[1..4]), (p[4] as int) % 128);
            && d.mode <= 1 && 1000 <= d.rateHz <= 32000 && d.rootNote <= 120 && d.channel <= 16
            && (d.mode == p[0] || (d.mode == 0 && p[0] > 1)) && (d.channel == p[5] || (d.channel == 16 && p[5] > 15))
            && (forall r :: 1000 <= r <= 32000 ==> Distance(d.rateHz, rate) <= Distance(r, rate))
            && (forall n :: 0 <= n <= 120 ==> Distance(d.rootNote as int, note) <= Distance(n, note))
  {}

  function Distance(a: int, b: int): int { if a < b then b - a else a - b }
}
