// The tagged chunks of the component state: tag, length, payload.
module ChunkFormat {
  import opened Basics
  import opened LittleEndian

  datatype Chunk = Chunk(tag: uint32, payload: Bytes)

  predicate Fits(c: Chunk) { |c.payload| < 0x1_0000_0000 }

  function Encode(c: Chunk): Bytes { U32(c.tag) + U32(|c.payload|) + c.payload }

  function EncodeAll(cs: seq<Chunk>): Bytes {
    if cs == [] then [] else Encode(cs[0]) + EncodeAll(cs[1..])
  }

  /** The chunks a walker meets, up to the first that is cut short. */
  function Parse(body: Bytes): seq<Chunk> {
    if |body| < 8 then []
    else
      var length := GetU32(body[4..]);
      if length > |body| - 8 then []
      else [Chunk(GetU32(body), body[8..8 + length])] + Parse(body[8 + length..])
  }

  lemma {:induction false} ParseEncode(c: Chunk, rest: Bytes)
    requires Fits(c)
    ensures Parse(Encode(c) + rest) == [c] + Parse(rest)
  {
    var body := Encode(c) + rest;
    var tail := c.payload + rest;
    assert body == U32(c.tag) + (U32(|c.payload|) + tail);
    GetU32OfU32(c.tag, U32(|c.payload|) + tail);
    assert body[4..] == U32(|c.payload|) + tail;
    GetU32OfU32(|c.payload|, tail);
    assert body[8..8 + |c.payload|] == c.payload;
    assert body[8 + |c.payload|..] == rest;
  }

  /** Whatever the payloads hold, walking an encoding meets exactly its chunks. */
  lemma {:induction false} ParseEncodeAll(cs: seq<Chunk>)
    requires forall c :: c in cs ==> Fits(c)
    ensures Parse(EncodeAll(cs)) == cs
  {
    if cs != [] {
      ParseEncodeAll(cs[1..]);
      ParseEncode(cs[0], EncodeAll(cs[1..]));
      assert cs == [cs[0]] + cs[1..];
    }
  }

  lemma {:induction false} EncodeAllJoin(a: seq<Chunk>, b: seq<Chunk>)
    ensures EncodeAll(a + b) == EncodeAll(a) + EncodeAll(b)
  {
    if a == [] {
      assert a + b == b;
    } else {
      EncodeAllJoin(a[1..], b);
      assert (a + b)[1..] == a[1..] + b;
    }
  }

  lemma {:induction false} EncodeAllMore(cs: seq<Chunk>, c: Chunk)
    ensures EncodeAll(cs + [c]) == EncodeAll(cs) + Encode(c)
  {
    EncodeAllJoin(cs, [c]);
    assert [c][1..] == [];
    assert EncodeAll([c]) == Encode(c) + [];
  }

  /** Cut anywhere, an encoding still yields a prefix of its chunks. */
  lemma {:induction false} ParseOfTruncated(cs: seq<Chunk>, n: nat)
    requires (forall c :: c in cs ==> Fits(c)) && n <= |EncodeAll(cs)|
    ensures Parse(EncodeAll(cs)[..n]) <= cs
  {
    if cs != [] {
      var c, rest := cs[0], EncodeAll(cs[1..]);
      assert c in cs;
      var cut := EncodeAll(cs)[..n];
      if n >= |Encode(c)| {
        var m := n - |Encode(c)|;
        assert cut == Encode(c) + rest[..m];
        ParseOfTruncated(cs[1..], m);
        ParseEncode(c, rest[..m]);
        assert cs == [c] + cs[1..];
      } else if n >= 8 {
        var tail := U32(|c.payload|) + c.payload[..n - 8];
        assert cut == U32(c.tag) + tail;
        assert cut[4..] == tail;
        GetU32OfU32(|c.payload|, c.payload[..n - 8]);
        assert Parse(cut) == [];
      }
    }
  }

  // ---- looking for a tag -----------------------------------------------------------

  /** The payload of the first chunk with a tag. */
  function First(cs: seq<Chunk>, tag: uint32): Option<Bytes> {
    if cs == [] then None else if cs[0].tag == tag then Some(cs[0].payload) else First(cs[1..], tag)
  }

  /** The payload of the last chunk with a tag. */
  function Last(cs: seq<Chunk>, tag: uint32): Option<Bytes> {
    if cs == [] then None
    else if cs[|cs| - 1].tag == tag then Some(cs[|cs| - 1].payload)
    else Last(cs[..|cs| - 1], tag)
  }

  function CountTag(cs: seq<Chunk>, tag: uint32): nat {
    if cs == [] then 0 else (if cs[0].tag == tag then 1 else 0) + CountTag(cs[1..], tag)
  }

  lemma {:induction false} FirstOfJoin(a: seq<Chunk>, b: seq<Chunk>, tag: uint32)
    ensures First(a + b, tag) == if First(a, tag).Some? then First(a, tag) else First(b, tag)
  {
    if a == [] {
      assert a + b == b;
    } else {
      assert (a + b)[1..] == a[1..] + b;
      FirstOfJoin(a[1..], b, tag);
    }
  }

  lemma {:induction false} CountOfJoin(a: seq<Chunk>, b: seq<Chunk>, tag: uint32)
    ensures CountTag(a + b, tag) == CountTag(a, tag) + CountTag(b, tag)
  {
    if a == [] {
      assert a + b == b;
    } else {
      assert (a + b)[1..] == a[1..] + b;
      CountOfJoin(a[1..], b, tag);
    }
  }

  lemma {:induction false} CountIsZero(cs: seq<Chunk>, tag: uint32)
    ensures CountTag(cs, tag) == 0 <==> First(cs, tag) == None
  {
    if cs != [] { CountIsZero(cs[1..], tag); }
  }

  /** Where a tag occurs at most once, its first chunk is its last. */
  lemma {:induction false} UniqueFirstIsLast(cs: seq<Chunk>, tag: uint32)
    requires CountTag(cs, tag) <= 1
    ensures First(cs, tag) == Last(cs, tag)
  {
    if cs != [] {
      var before, c := cs[..|cs| - 1], cs[|cs| - 1];
      assert cs == before + [c];
      CountOfJoin(before, [c], tag);
      FirstOfJoin(before, [c], tag);
      UniqueFirstIsLast(before, tag);
      CountIsZero(before, tag);
      assert [c][1..] == [];
    }
  }

  // ---- chunks a reader does not know ---------------------------------------------------

  /** The chunks with a known tag, in order. */
  function Known(cs: seq<Chunk>, tags: set<uint32>): seq<Chunk> {
    if cs == [] then []
    else
      var before := Known(cs[..|cs| - 1], tags);
      if cs[|cs| - 1].tag in tags then before + [cs[|cs| - 1]] else before
  }

  lemma {:induction false} KnownOfJoin(a: seq<Chunk>, b: seq<Chunk>, tags: set<uint32>)
    ensures Known(a + b, tags) == Known(a, tags) + Known(b, tags)
  {
    if b == [] {
      assert a + b == a;
    } else {
      var n := |b| - 1;
      assert (a + b)[..|a + b| - 1] == a + b[..n];
      KnownOfJoin(a, b[..n], tags);
    }
  }

  /** Inserting an unknown chunk anywhere leaves the known ones as they are. */
  lemma {:induction false} InsertingUnknown(a: seq<Chunk>, c: Chunk, b: seq<Chunk>, tags: set<uint32>)
    requires c.tag !in tags
    ensures Known(a + [c] + b, tags) == Known(a + b, tags)
  {
    KnownOfJoin(a + [c], b, tags);
    KnownOfJoin(a, [c], tags);
    KnownOfJoin(a, b, tags);
    assert [c][..0] == [];
    assert Known([c], tags) == [];
  }

  /** The first chunk of a known tag is found among the known chunks. */
  lemma {:induction false} FirstOfKnown(cs: seq<Chunk>, tag: uint32, tags: set<uint32>)
    requires tag in tags
    ensures First(Known(cs, tags), tag) == First(cs, tag)
  {
    if cs != [] {
      var before, c := cs[..|cs| - 1], cs[|cs| - 1];
      assert cs == before + [c] && [c][1..] == [];
      FirstOfKnown(before, tag, tags);
      FirstOfJoin(before, [c], tag);
      FirstOfJoin(Known(before, tags), [c], tag);
    }
  }
}
