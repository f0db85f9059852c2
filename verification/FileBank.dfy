// Bank files: a header and one record a slot, in any order, over an abstract byte
// sequence in the place of the file.
module FileBank {
  import opened Basics
  import opened Orders
  import opened StateRoots
  import opened LittleEndian

  const MAGIC0: uint32 := 0x53504441
  const MAGIC1: uint32 := 0x4B4E4142
  const BANK_VERSION: uint32 := 1
  const MAX_SLOTS := 128
  const BLOB_CAP := 65536
  const META_WIRE_SIZE := 128
  const RECORD_HEADER := 136

  datatype Error = ReadFailed | WriteFailed | BadMagic | BadVersion | BadBlob | TooManySlots

  /** The state codec of another file; encode gives nothing for a root it refuses. */
  datatype Codec = Codec(encode: StateRoot -> Bytes, decode: Bytes -> Option<StateRoot>)

  // ---- metadata -----------------------------------------------------------------------

  /** Strings are C strings without their terminator. */
  datatype Meta = Meta(
    name: Bytes, author: Bytes, category: Bytes, tags: Bytes,
    chipModel: byte, clockSystem: byte, forensic: byte, role: byte)

  predicate IsCString(s: Bytes) { forall i :: 0 <= i < |s| ==> s[i] != 0 }

  predicate MetaOk(m: Meta) {
    IsCString(m.name) && IsCString(m.author) && IsCString(m.category) && IsCString(m.tags)
  }

  function Zeros(n: nat): (r: Bytes)
    ensures |r| == n && forall i :: 0 <= i < n ==> r[i] == 0
  {
    seq(n, i => 0)
  }

  function Cut(s: Bytes, n: nat): (r: Bytes)
    ensures |r| == if |s| <= n then |s| else n
  {
    if |s| <= n then s else s[..n]
  }

  /** A bounded field: the string cut to leave room for its terminator, zero filled. */
  function Field(s: Bytes, size: nat): (r: Bytes)
    requires size > 0
    ensures |r| == size
  {
    Cut(s, size - 1) + Zeros(size - |Cut(s, size - 1)|)
  }

  /** The C string that begins in s, cut to limit characters. */
  function CString(s: Bytes, limit: nat): Bytes {
    if s == [] || s[0] == 0 || limit == 0 then [] else [s[0]] + CString(s[1..], limit - 1)
  }

  function Flags(m: Meta): (r: Bytes)
    ensures |r| == 8
  {
    [m.chipModel, m.clockSystem, m.forensic, m.role] + Zeros(4)
  }

  function EncodeMeta(m: Meta): (r: Bytes)
    ensures |r| == META_WIRE_SIZE
  {
    Field(m.name, 48) + (Field(m.author, 24) + (Field(m.category, 16) + (Field(m.tags, 32) + Flags(m))))
  }

  function DecodeMeta(wire: Bytes): Meta
    requires |wire| == META_WIRE_SIZE
  {
    Meta(CString(wire, 63), CString(wire[48..], 31), CString(wire[72..], 31), CString(wire[88..], 63),
         wire[120], wire[121], wire[122], wire[123])
  }

  /** What the wire format keeps of a string. */
  function Truncated(m: Meta): Meta {
    Meta(Cut(m.name, 47), Cut(m.author, 23), Cut(m.category, 15), Cut(m.tags, 31),
         m.chipModel, m.clockSystem, m.forensic, m.role)
  }

  lemma {:induction false} CStringOfText(text: Bytes, rest: Bytes, limit: nat)
    requires IsCString(text) && |text| < limit && rest != [] && rest[0] == 0
    ensures CString(text + rest, limit) == text
  {
    if text == [] {
      assert text + rest == rest;
    } else {
      assert (text + rest)[1..] == text[1..] + rest;
      CStringOfText(text[1..], rest, limit - 1);
      assert text == [text[0]] + text[1..];
    }
  }

  lemma {:induction false} FieldReadsBack(s: Bytes, size: nat, limit: nat, rest: Bytes)
    requires IsCString(s) && 0 < size <= limit
    ensures CString(Field(s, size) + rest, limit) == Cut(s, size - 1)
  {
    var text := Cut(s, size - 1);
    var fill := Zeros(size - |text|);
    assert Field(s, size) + rest == text + (fill + rest);
    CStringOfText(text, fill + rest, limit);
  }

  /** A meta comes back cut to its wire fields. */
  lemma {:induction false} MetaRoundTrip(m: Meta)
    requires MetaOk(m)
    ensures DecodeMeta(EncodeMeta(m)) == Truncated(m)
  {
    WireParts(Field(m.name, 48), Field(m.author, 24), Field(m.category, 16), Field(m.tags, 32), Flags(m));
    FieldReadsBack(m.name, 48, 63, Field(m.author, 24) + (Field(m.category, 16) + (Field(m.tags, 32) + Flags(m))));
    FieldReadsBack(m.author, 24, 31, Field(m.category, 16) + (Field(m.tags, 32) + Flags(m)));
    FieldReadsBack(m.category, 16, 31, Field(m.tags, 32) + Flags(m));
    FieldReadsBack(m.tags, 32, 63, Flags(m));
  }

  lemma {:induction false} WireParts(name: Bytes, author: Bytes, category: Bytes, tags: Bytes, flags: Bytes)
    requires |name| == 48 && |author| == 24 && |category| == 16 && |tags| == 32 && |flags| == 8
    ensures var wire := name + (author + (category + (tags + flags)));
            && wire[48..] == author + (category + (tags + flags))
            && wire[72..] == category + (tags + flags) && wire[88..] == tags + flags && wire[120..] == flags
            && wire[120] == flags[0] && wire[121] == flags[1] && wire[122] == flags[2] && wire[123] == flags[3]
  {}

  /** A second trip changes nothing. */
  lemma {:induction false} SecondTripIsExact(m: Meta)
    requires MetaOk(m)
    ensures MetaOk(Truncated(m)) && DecodeMeta(EncodeMeta(Truncated(m))) == Truncated(m)
  {
    MetaRoundTrip(Truncated(m));
  }

  // ---- records ---------------------------------------------------------------------------

  datatype Entry = Entry(root: StateRoot, meta: Meta)

  function Record(slot: uint32, wire: Bytes, blob: Bytes): Bytes {
    U32(slot) + (wire + (U32(|blob|) + blob))
  }

  /** Reads a record whose slot is in range and new: its slot, its entry and the rest. */
  function ReadRecord(c: Codec, data: Bytes, count: nat, seen: set<nat>): Option<(nat, Entry, Bytes)> {
    if |data| < 4 then None
    else
      var slot := GetU32(data);
      if slot >= count || slot in seen || |data| < RECORD_HEADER then None
      else
        var length := GetU32(data[132..]);
        if length == 0 || length > BLOB_CAP || |data| < RECORD_HEADER + length then None
        else
          match c.decode(data[RECORD_HEADER..RECORD_HEADER + length])
          case None => None
          case Some(root) => Some((slot, Entry(root, DecodeMeta(data[4..132])), data[RECORD_HEADER + length..]))
  }

  /** What reads a record of a bank of so many slots, some of them seen. */
  type Reader = (Bytes, nat, set<nat>) -> Option<(nat, Entry, Bytes)>

  function RecordReader(c: Codec): Reader {
    (data: Bytes, count: nat, seen: set<nat>) => ReadRecord(c, data, count, seen)
  }

  function ReadRecords(read: Reader, data: Bytes, count: nat, n: nat, got: map<nat, Entry>)
    : Option<map<nat, Entry>>
    decreases n
  {
    if n == 0 then Some(got)
    else
      match read(data, count, got.Keys)
      case None => None
      case Some((slot, entry, rest)) => ReadRecords(read, rest, count, n - 1, got[slot := entry])
  }

  datatype Loaded = Failed(error: Error) | Bank(entries: seq<Entry>)

  function Header(version: uint32, count: uint32): (r: Bytes)
    ensures |r| == 16
  {
    U32(MAGIC0) + (U32(MAGIC1) + (U32(version) + U32(count)))
  }

  /** A slot's entry; the default entry of a slot that was not read. */
  function EntryOf(got: map<nat, Entry>, i: nat): Entry {
    if i in got then got[i] else Entry(StateRoot([]), Meta([], [], [], [], 0, 0, 0, 0))
  }

  function Entries(got: map<nat, Entry>, count: nat): (r: seq<Entry>)
    ensures |r| == count && forall i :: 0 <= i < count ==> r[i] == EntryOf(got, i)
  {
    seq(count, i requires 0 <= i < count => EntryOf(got, i))
  }

  function Load(c: Codec, file: Bytes): Loaded {
    if |file| < 16 then Failed(ReadFailed)
    else if GetU32(file) != MAGIC0 || GetU32(file[4..]) != MAGIC1 then Failed(BadMagic)
    else if GetU32(file[8..]) > BANK_VERSION then Failed(BadVersion)
    else
      var count := GetU32(file[12..]);
      if count == 0 || count > MAX_SLOTS then Failed(BadBlob)
      else
        match ReadRecords(RecordReader(c), file[16..], count, count, map[])
        case None => Failed(BadBlob)
        case Some(got) =>
          if NumbersBelow(count) <= got.Keys then Bank(Entries(got, count)) else Failed(BadBlob)
  }

  /** A load reads no further than its header when a file is too short, no bank, of a later
      version, or has no slots or too many; behind any other header it can only fail for its
      records. An earlier version is read like this one. */
  lemma {:induction false} HeaderDecides(c: Codec, magic0: uint32, magic1: uint32, version: uint32, count: uint32,
                                         body: Bytes)
    ensures var r := Load(c, U32(magic0) + (U32(magic1) + (U32(version) + U32(count))) + body);
            if magic0 != MAGIC0 || magic1 != MAGIC1 then r == Failed(BadMagic)
            else if version > BANK_VERSION then r == Failed(BadVersion)
            else if count == 0 || count > MAX_SLOTS then r == Failed(BadBlob)
            else r == Failed(BadBlob) || (r.Bank? && |r.entries| == count)
  {
    var header := U32(magic0) + (U32(magic1) + (U32(version) + U32(count)));
    var file := header + body;
    assert file == U32(magic0) + (U32(magic1) + (U32(version) + (U32(count) + body)));
    GetU32OfU32(magic0, U32(magic1) + (U32(version) + (U32(count) + body)));
    assert file[4..] == U32(magic1) + (U32(version) + (U32(count) + body));
    GetU32OfU32(magic1, U32(version) + (U32(count) + body));
    assert file[8..] == U32(version) + (U32(count) + body);
    GetU32OfU32(version, U32(count) + body);
    assert file[12..] == U32(count) + body;
    GetU32OfU32(count, body);
  }

  lemma {:induction false} ShortFilesFail(c: Codec, file: Bytes)
    ensures Load(c, file) == Failed(ReadFailed) <==> |file| < 16
  {}

  // ---- the all-seen check is redundant ------------------------------------------------------

  lemma {:induction false} RecordsFillSlots(c: Codec, data: Bytes, count: nat, n: nat, got: map<nat, Entry>)
    requires got.Keys <= NumbersBelow(count) && ReadRecords(RecordReader(c), data, count, n, got).Some?
    ensures var r := ReadRecords(RecordReader(c), data, count, n, got).value;
            r.Keys <= NumbersBelow(count) && |r.Keys| == |got.Keys| + n
  {
    if n > 0 {
      var (slot, entry, rest) := ReadRecord(c, data, count, got.Keys).value;
      InNumbersBelow(count, slot);
      assert got[slot := entry].Keys == got.Keys + {slot};
      RecordsFillSlots(c, rest, count, n - 1, got[slot := entry]);
    }
  }

  /** Once count records with new slots in range have been read every slot is filled:
      the last check of a load never fails. */
  lemma {:induction false} AllSlotsAreSeen(c: Codec, data: Bytes, count: nat)
    requires ReadRecords(RecordReader(c), data, count, count, map[]).Some?
    ensures ReadRecords(RecordReader(c), data, count, count, map[]).value.Keys == NumbersBelow(count)
  {
    var none: map<nat, Entry> := map[];
    assert none.Keys == {};
    RecordsFillSlots(c, data, count, count, map[]);
    FullSubset(ReadRecords(RecordReader(c), data, count, count, map[]).value.Keys, count);
  }

  // ---- writing and reading back -----------------------------------------------------------------

  predicate Encodable(c: Codec, root: StateRoot) { 0 < |c.encode(root)| <= BLOB_CAP }

  predicate Writable(c: Codec, e: Entry) {
    Encodable(c, e.root) && MetaOk(e.meta) && c.decode(c.encode(e.root)) == Some(e.root)
  }

  predicate AllWritable(c: Codec, entries: seq<Entry>) { forall i :: 0 <= i < |entries| ==> Writable(c, entries[i]) }

  function RecordOf(c: Codec, slot: uint32, e: Entry): Bytes { Record(slot, EncodeMeta(e.meta), c.encode(e.root)) }

  function WireEntry(e: Entry): Entry { Entry(e.root, Truncated(e.meta)) }

  lemma {:induction false} RecordLayout(slot: uint32, wire: Bytes, blob: Bytes, rest: Bytes)
    requires |wire| == META_WIRE_SIZE && |blob| <= BLOB_CAP
    ensures var data := Record(slot, wire, blob) + rest;
            && |data| == RECORD_HEADER + |blob| + |rest|
            && GetU32(data) == slot && data[4..132] == wire && GetU32(data[132..]) == |blob|
            && data[RECORD_HEADER..RECORD_HEADER + |blob|] == blob && data[RECORD_HEADER + |blob|..] == rest
  {
    var data := Record(slot, wire, blob) + rest;
    assert data == U32(slot) + (wire + (U32(|blob|) + (blob + rest)));
    GetU32OfU32(slot, wire + (U32(|blob|) + (blob + rest)));
    assert data[132..] == U32(|blob|) + (blob + rest);
    GetU32OfU32(|blob|, blob + rest);
  }

  /** A slot that stops the load of a bank: out of range, or read before. */
  predicate Refused(slot: nat, count: nat, seen: set<nat>) { slot >= count || slot in seen }

  /** part is a record of slot: read in front of anything it stops the load if its slot is
      refused and fills it with entry if not; cut short it stops the load. */
  ghost predicate ReadsAs(read: Reader, count: nat, slot: nat, part: Bytes, entry: Entry) {
    && part != []
    && (forall rest: Bytes, seen: set<nat> :: read(part + rest, count, seen) ==
          if Refused(slot, count, seen) then None else Some((slot, entry, rest)))
    && (forall m: nat, seen: set<nat> :: m < |part| ==> read(part[..m], count, seen) == None)
  }

  lemma {:induction false} RecordReadsAs(c: Codec, count: nat, slot: uint32, e: Entry)
    requires Writable(c, e)
    ensures ReadsAs(RecordReader(c), count, slot, RecordOf(c, slot, e), WireEntry(e))
  {
    var part := RecordOf(c, slot, e);
    forall rest: Bytes, seen: set<nat>
      ensures ReadRecord(c, part + rest, count, seen) ==
              if Refused(slot, count, seen) then None else Some((slot, WireEntry(e), rest))
    {
      RecordLayout(slot, EncodeMeta(e.meta), c.encode(e.root), rest);
      MetaRoundTrip(e.meta);
    }
    forall m: nat, seen: set<nat> | m < |part| ensures ReadRecord(c, part[..m], count, seen) == None {
      CutRecordFails(c, count, slot, EncodeMeta(e.meta), c.encode(e.root), m, seen);
    }
  }

  lemma {:induction false} CutRecordFails(c: Codec, count: nat, slot: uint32, wire: Bytes, blob: Bytes, m: nat,
                                          seen: set<nat>)
    requires |wire| == META_WIRE_SIZE && |blob| <= BLOB_CAP && m < |Record(slot, wire, blob)|
    ensures ReadRecord(c, Record(slot, wire, blob)[..m], count, seen) == None
  {
    var whole := Record(slot, wire, blob);
    RecordLayout(slot, wire, blob, []);
    assert whole + [] == whole;
    if m >= RECORD_HEADER {
      assert whole[..m][132..][..4] == whole[132..][..4];
      assert GetU32(whole[..m][132..]) == GetU32(whole[132..]);
    }
  }

  function Concat(parts: seq<Bytes>): Bytes {
    if parts == [] then [] else parts[0] + Concat(parts[1..])
  }

  lemma {:induction false} ConcatMore(parts: seq<Bytes>, part: Bytes)
    ensures Concat(parts + [part]) == Concat(parts) + part
  {
    if parts == [] {
      assert [] + [part] == [part] && [part][1..] == [];
      assert part + [] == part;
    } else {
      assert (parts + [part])[1..] == parts[1..] + [part];
      ConcatMore(parts[1..], part);
    }
  }

  /** Records in an order: part i is a record of slot order[i] holding es[i]. */
  ghost predicate Readable(read: Reader, count: nat, order: seq<nat>, parts: seq<Bytes>, es: seq<Entry>) {
    |order| == |parts| == |es| && forall i :: 0 <= i < |order| ==> ReadsAs(read, count, order[i], parts[i], es[i])
  }

  lemma {:induction false} LaterReadable(read: Reader, count: nat, order: seq<nat>, parts: seq<Bytes>, es: seq<Entry>)
    requires Readable(read, count, order, parts, es) && order != []
    ensures Readable(read, count, order[1..], parts[1..], es[1..])
  {}

  /** What reading the records adds to what was read before. */
  function Filled(order: seq<nat>, es: seq<Entry>, got: map<nat, Entry>): map<nat, Entry>
    requires |order| == |es|
    decreases |order|
  {
    if order == [] then got else Filled(order[1..], es[1..], got[order[0] := es[0]])
  }

  lemma {:induction false} FilledHas(order: seq<nat>, es: seq<Entry>, got: map<nat, Entry>, i: nat)
    requires |order| == |es| && Distinct(order) && i < |order|
    ensures order[i] in Filled(order, es, got) && Filled(order, es, got)[order[i]] == es[i]
    decreases |order|
  {
    if i > 0 {
      FilledHas(order[1..], es[1..], got[order[0] := es[0]], i - 1);
    } else {
      FilledKeeps(order[1..], es[1..], got[order[0] := es[0]], order[0]);
    }
  }

  lemma {:induction false} FilledKeeps(order: seq<nat>, es: seq<Entry>, got: map<nat, Entry>, slot: nat)
    requires |order| == |es| && slot !in order && slot in got
    ensures slot in Filled(order, es, got) && Filled(order, es, got)[slot] == got[slot]
    decreases |order|
  {
    if order != [] { FilledKeeps(order[1..], es[1..], got[order[0] := es[0]], slot); }
  }

  lemma {:induction false} ReadsFirst(read: Reader, count: nat, order: seq<nat>, parts: seq<Bytes>, es: seq<Entry>,
                                      tail: Bytes, n: nat, got: map<nat, Entry>)
    requires Readable(read, count, order, parts, es) && order != [] && n > 0
    ensures ReadRecords(read, Concat(parts) + tail, count, n, got) ==
            if Refused(order[0], count, got.Keys) then None
            else ReadRecords(read, Concat(parts[1..]) + tail, count, n - 1, got[order[0] := es[0]])
  {
    var rest := Concat(parts[1..]) + tail;
    assert Concat(parts) + tail == parts[0] + rest;
    assert ReadsAs(read, count, order[0], parts[0], es[0]);
    var seen := got.Keys;
    assert read(parts[0] + rest, count, seen) ==
           if Refused(order[0], count, seen) then None else Some((order[0], es[0], rest));
  }

  lemma {:induction false} NoParts(parts: seq<Bytes>, tail: Bytes)
    requires parts == []
    ensures Concat(parts) + tail == tail
  {}

  /** Reading back records as far as no slot is refused. */
  function Fill(count: nat, order: seq<nat>, es: seq<Entry>, got: map<nat, Entry>): Option<map<nat, Entry>>
    requires |order| == |es|
    decreases |order|
  {
    if order == [] then Some(got)
    else if Refused(order[0], count, got.Keys) then None
    else Fill(count, order[1..], es[1..], got[order[0] := es[0]])
  }

  /** Reading n records more after some have been read back. */
  function ReadOn(read: Reader, data: Bytes, count: nat, n: nat, got: Option<map<nat, Entry>>)
    : Option<map<nat, Entry>>
  {
    if got.None? then None else ReadRecords(read, data, count, n, got.value)
  }

  /** Reading some more than the records takes what follows them for records too. */
  lemma {:induction false} RecordsFill(read: Reader, count: nat, order: seq<nat>, parts: seq<Bytes>, es: seq<Entry>,
                                       tail: Bytes, more: nat, got: map<nat, Entry>)
    requires Readable(read, count, order, parts, es)
    ensures ReadRecords(read, Concat(parts) + tail, count, |order| + more, got) ==
            ReadOn(read, tail, count, more, Fill(count, order, es, got))
    decreases |order|
  {
    if order == [] {
      NoParts(parts, tail);
    } else {
      ReadsFirst(read, count, order, parts, es, tail, |order| + more, got);
      if Refused(order[0], count, got.Keys) {
        assert Fill(count, order, es, got) == None;
      } else {
        var later, got' := order[1..], got[order[0] := es[0]];
        LaterReadable(read, count, order, parts, es);
        RecordsFill(read, count, later, parts[1..], es[1..], tail, more, got');
        assert |later| + more == |order| + more - 1;
        assert Fill(count, order, es, got) == Fill(count, later, es[1..], got');
      }
    }
  }

  lemma {:induction false} OnlyRecordsFill(read: Reader, count: nat, order: seq<nat>, parts: seq<Bytes>,
                                           es: seq<Entry>, tail: Bytes, got: map<nat, Entry>)
    requires Readable(read, count, order, parts, es)
    ensures ReadRecords(read, Concat(parts) + tail, count, |order|, got) == Fill(count, order, es, got)
  {
    RecordsFill(read, count, order, parts, es, tail, 0, got);
  }

  lemma {:induction false} OrderFills(count: nat, order: seq<nat>, es: seq<Entry>, got: map<nat, Entry>)
    requires |order| == |es| && Distinct(order) && InRange(order, count)
    requires forall i :: 0 <= i < |order| ==> order[i] !in got
    ensures Fill(count, order, es, got) == Some(Filled(order, es, got))
    decreases |order|
  {
    if order != [] { OrderFills(count, order[1..], es[1..], got[order[0] := es[0]]); }
  }

  lemma {:induction false} ReadsBackRecords(read: Reader, count: nat, order: seq<nat>, parts: seq<Bytes>,
                                            es: seq<Entry>, tail: Bytes, got: map<nat, Entry>)
    requires Readable(read, count, order, parts, es) && Distinct(order) && InRange(order, count)
    requires forall i :: 0 <= i < |order| ==> order[i] !in got
    ensures ReadRecords(read, Concat(parts) + tail, count, |order|, got) == Some(Filled(order, es, got))
  {
    OnlyRecordsFill(read, count, order, parts, es, tail, got);
    OrderFills(count, order, es, got);
  }

  /** Some slot comes twice, was read before or is out of range. */
  predicate Stops(count: nat, order: seq<nat>, got: map<nat, Entry>) {
    !Distinct(order) || exists i :: 0 <= i < |order| && Refused(order[i], count, got.Keys)
  }

  lemma {:induction false} StopRemains(count: nat, order: seq<nat>, got: map<nat, Entry>, got': map<nat, Entry>)
    requires order != [] && Stops(count, order, got) && !Refused(order[0], count, got.Keys)
    requires got'.Keys == got.Keys + {order[0]}
    ensures Stops(count, order[1..], got')
  {
    var later := order[1..];
    if Distinct(order) {
      var i :| 0 <= i < |order| && Refused(order[i], count, got.Keys);
      assert later[i - 1] == order[i];
    } else {
      var i, j :| 0 <= i < j < |order| && order[i] == order[j];
      assert later[j - 1] == order[j];
      if i > 0 { assert later[i - 1] == order[i]; }
    }
  }

  lemma {:induction false} StopsFill(count: nat, order: seq<nat>, es: seq<Entry>, got: map<nat, Entry>)
    requires |order| == |es| && Stops(count, order, got)
    ensures Fill(count, order, es, got) == None
    decreases |order|
  {
    if !Refused(order[0], count, got.Keys) {
      var got' := got[order[0] := es[0]];
      StopRemains(count, order, got, got');
      StopsFill(count, order[1..], es[1..], got');
    }
  }

  lemma {:induction false} NothingToRead(c: Codec, count: nat, n: nat, got: map<nat, Entry>)
    requires n > 0
    ensures ReadRecords(RecordReader(c), [], count, n, got) == None
  {}

  /** Fewer records than asked for stop the load. */
  lemma {:induction false} MissingRecordsFail(c: Codec, count: nat, order: seq<nat>, parts: seq<Bytes>,
                                              es: seq<Entry>, n: nat, got: map<nat, Entry>)
    requires Readable(RecordReader(c), count, order, parts, es) && |order| < n
    ensures ReadRecords(RecordReader(c), Concat(parts), count, n, got) == None
  {
    RecordsFill(RecordReader(c), count, order, parts, es, [], n - |order|, got);
    assert Concat(parts) + [] == Concat(parts);
    if Fill(count, order, es, got).Some? { NothingToRead(c, count, n - |order|, Fill(count, order, es, got).value); }
  }

  /** Records cut short anywhere stop the load. */
  lemma {:induction false} CutRecordsFail(read: Reader, count: nat, order: seq<nat>, parts: seq<Bytes>, es: seq<Entry>,
                                          m: nat, got: map<nat, Entry>)
    requires Readable(read, count, order, parts, es) && m < |Concat(parts)|
    ensures ReadRecords(read, Concat(parts)[..m], count, |order|, got) == None
    decreases |order|
  {
    var first, rest := parts[0], Concat(parts[1..]);
    assert ReadsAs(read, count, order[0], first, es[0]);
    var seen := got.Keys;
    if m < |first| {
      assert (first + rest)[..m] == first[..m];
      assert read(first[..m], count, seen) == None;
    } else {
      var k := m - |first|;
      assert (first + rest)[..m] == first + rest[..k];
      assert read(first + rest[..k], count, seen) ==
             if Refused(order[0], count, seen) then None else Some((order[0], es[0], rest[..k]));
      if !Refused(order[0], count, seen) {
        LaterReadable(read, count, order, parts, es);
        CutRecordsFail(read, count, order[1..], parts[1..], es[1..], k, got[order[0] := es[0]]);
      }
    }
  }

  // ---- banks --------------------------------------------------------------------------------------

  /** The records of entries, in the given order of slots. */
  function Parts(c: Codec, entries: seq<Entry>, order: seq<nat>): (r: seq<Bytes>)
    requires |entries| <= MAX_SLOTS && InRange(order, |entries|)
    ensures |r| == |order| && forall i :: 0 <= i < |order| ==> r[i] == RecordOf(c, order[i], entries[order[i]])
  {
    seq(|order|, i requires 0 <= i < |order| => RecordOf(c, order[i], entries[order[i]]))
  }

  function Arranged(entries: seq<Entry>, order: seq<nat>): (r: seq<Entry>)
    requires InRange(order, |entries|)
    ensures |r| == |order| && forall i :: 0 <= i < |order| ==> r[i] == WireEntry(entries[order[i]])
  {
    seq(|order|, i requires 0 <= i < |order| => WireEntry(entries[order[i]]))
  }

  lemma {:induction false} PartsAreReadable(c: Codec, entries: seq<Entry>, order: seq<nat>)
    requires |entries| <= MAX_SLOTS && InRange(order, |entries|)
    requires forall i :: 0 <= i < |order| ==> Writable(c, entries[order[i]])
    ensures Readable(RecordReader(c), |entries|, order, Parts(c, entries, order), Arranged(entries, order))
  {
    forall i | 0 <= i < |order|
      ensures ReadsAs(RecordReader(c), |entries|, order[i], Parts(c, entries, order)[i], Arranged(entries, order)[i])
    {
      RecordReadsAs(c, |entries|, order[i], entries[order[i]]);
    }
  }

  function WireEntries(entries: seq<Entry>): (r: seq<Entry>)
    ensures |r| == |entries| && forall i :: 0 <= i < |entries| ==> r[i] == WireEntry(entries[i])
  {
    seq(|entries|, i requires 0 <= i < |entries| => WireEntry(entries[i]))
  }

  lemma {:induction false} HeaderReads(version: uint32, count: uint32, rest: Bytes)
    ensures var file := Header(version, count) + rest;
            && |file| >= 16 && GetU32(file) == MAGIC0 && GetU32(file[4..]) == MAGIC1
            && GetU32(file[8..]) == version && GetU32(file[12..]) == count && file[16..] == rest
  {
    var d := U32(count) + rest;
    var c := U32(version) + d;
    var b := U32(MAGIC1) + c;
    GetU32OfU32(MAGIC0, b);
    GetU32OfU32(MAGIC1, c);
    GetU32OfU32(version, d);
    GetU32OfU32(count, rest);
    HeaderParts(U32(MAGIC0), U32(MAGIC1), U32(version), U32(count), rest);
  }

  lemma {:induction false} HeaderParts(a: Bytes, b: Bytes, c: Bytes, d: Bytes, rest: Bytes)
    requires |a| == |b| == |c| == |d| == 4
    ensures var file := (a + (b + (c + d))) + rest;
            && file == a + (b + (c + (d + rest))) && file[4..] == b + (c + (d + rest))
            && file[8..] == c + (d + rest) && file[12..] == d + rest && file[16..] == rest
  {}

  /** Any order of the slot records, with anything behind them, loads the same bank:
      every root in its slot, every meta cut to its wire fields. */
  lemma {:induction false} AnyOrderLoads(c: Codec, entries: seq<Entry>, order: seq<nat>, version: uint32, tail: Bytes)
    requires 1 <= |entries| <= MAX_SLOTS && AllWritable(c, entries)
    requires IsOrder(order, |entries|) && version <= BANK_VERSION
    ensures Load(c, Header(version, |entries|) + (Concat(Parts(c, entries, order)) + tail)) ==
            Bank(WireEntries(entries))
  {
    var count, es := |entries|, Arranged(entries, order);
    var body := Concat(Parts(c, entries, order)) + tail;
    HeaderReads(version, count, body);
    PartsAreReadable(c, entries, order);
    ReadsBackRecords(RecordReader(c), count, order, Parts(c, entries, order), es, tail, map[]);
    AllSlotsAreSeen(c, body, count);
    FilledEntries(entries, order);
  }

  lemma {:induction false} FilledEntries(entries: seq<Entry>, order: seq<nat>)
    requires IsOrder(order, |entries|)
    ensures Entries(Filled(order, Arranged(entries, order), map[]), |entries|) == WireEntries(entries)
  {
    forall i | 0 <= i < |entries|
      ensures EntryOf(Filled(order, Arranged(entries, order), map[]), i) == WireEntry(entries[i])
    {
      OrderCovers(order, |entries|, i);
      var k :| 0 <= k < |order| && order[k] == i;
      FilledHas(order, Arranged(entries, order), map[], k);
    }
  }

  /** The records of slots, in order, whatever slots they are. */
  function Records(c: Codec, slots: seq<uint32>, entries: seq<Entry>): (r: seq<Bytes>)
    requires |slots| == |entries|
    ensures |r| == |slots| && forall i :: 0 <= i < |slots| ==> r[i] == RecordOf(c, slots[i], entries[i])
  {
    seq(|slots|, i requires 0 <= i < |slots| => RecordOf(c, slots[i], entries[i]))
  }

  lemma {:induction false} RecordsAreReadable(c: Codec, count: nat, slots: seq<uint32>, entries: seq<Entry>)
    requires AllWritable(c, entries) && |slots| == |entries|
    ensures Readable(RecordReader(c), count, slots, Records(c, slots, entries), WireEntries(entries))
  {
    forall i | 0 <= i < |slots|
      ensures ReadsAs(RecordReader(c), count, slots[i], Records(c, slots, entries)[i], WireEntries(entries)[i])
    {
      RecordReadsAs(c, count, slots[i], entries[i]);
    }
  }

  lemma {:induction false} FillsIff(count: nat, order: seq<nat>, es: seq<Entry>)
    requires |order| == |es|
    ensures Fill(count, order, es, map[]).Some? <==> Distinct(order) && InRange(order, count)
  {
    if Distinct(order) && InRange(order, count) {
      OrderFills(count, order, es, map[]);
    } else {
      StopsFill(count, order, es, map[]);
    }
  }

  /** Reading the records that a body starts with. */
  lemma {:induction false} BodyFills(c: Codec, slots: seq<uint32>, entries: seq<Entry>, tail: Bytes)
    requires AllWritable(c, entries) && |slots| == |entries|
    ensures ReadRecords(RecordReader(c), Concat(Records(c, slots, entries)) + tail, |entries|, |entries|, map[]) ==
            Fill(|entries|, slots, WireEntries(entries), map[])
  {
    var count := |entries|;
    RecordsAreReadable(c, count, slots, entries);
    OnlyRecordsFill(RecordReader(c), count, slots, Records(c, slots, entries), WireEntries(entries), tail, map[]);
  }

  /** As many records as the header promises, for any slots whatever, in any order, load if
      and only if no slot comes twice and every slot is in range. */
  lemma {:induction false} RecordsLoadIff(c: Codec, slots: seq<uint32>, entries: seq<Entry>, tail: Bytes)
    requires 1 <= |entries| <= MAX_SLOTS && AllWritable(c, entries) && |slots| == |entries|
    ensures Load(c, Header(BANK_VERSION, |entries|) + (Concat(Records(c, slots, entries)) + tail)).Bank? <==>
            Distinct(slots) && InRange(slots, |entries|)
  {
    var body := Concat(Records(c, slots, entries)) + tail;
    BodyFills(c, slots, entries, tail);
    FillsIff(|entries|, slots, WireEntries(entries));
    BodyLoadsIff(c, body, |entries|);
  }

  lemma {:induction false} BodyLoadsIff(c: Codec, body: Bytes, count: nat)
    requires 1 <= count <= MAX_SLOTS
    ensures Load(c, Header(BANK_VERSION, count) + body).Bank? <==>
            ReadRecords(RecordReader(c), body, count, count, map[]).Some?
  {
    HeaderReads(BANK_VERSION, count, body);
    if ReadRecords(RecordReader(c), body, count, count, map[]).Some? { AllSlotsAreSeen(c, body, count); }
  }

  function InOrder(count: nat): (r: seq<nat>)
    ensures |r| == count && forall i :: 0 <= i < count ==> r[i] == i
  {
    seq(count, i => i)
  }

  /** The file after written of the records. */
  function Written(c: Codec, entries: seq<Entry>, written: nat): Bytes
    requires written <= |entries| <= MAX_SLOTS
  {
    Header(BANK_VERSION, |entries|) + Concat(Parts(c, entries, InOrder(written)))
  }

  /** Load after save, for 1 to 128 slots. */
  lemma {:induction false} LoadAfterSave(c: Codec, entries: seq<Entry>)
    requires 1 <= |entries| <= MAX_SLOTS && AllWritable(c, entries)
    ensures Load(c, Written(c, entries, |entries|)) == Bank(WireEntries(entries))
  {
    var order := InOrder(|entries|);
    AnyOrderLoads(c, entries, order, BANK_VERSION, []);
    assert Concat(Parts(c, entries, order)) + [] == Concat(Parts(c, entries, order));
  }

  /** A bank of no slots can be written but not read. */
  lemma {:induction false} EmptyBankIsRefused(c: Codec)
    ensures Load(c, Written(c, [], 0)) == Failed(BadBlob)
  {
    HeaderReads(BANK_VERSION, 0, Concat(Parts(c, [], InOrder(0))));
  }

  /** A bank file cut anywhere before its end never loads. */
  lemma {:induction false} CutBankNeverLoads(c: Codec, entries: seq<Entry>, m: nat)
    requires 1 <= |entries| <= MAX_SLOTS && AllWritable(c, entries) && m < |Written(c, entries, |entries|)|
    ensures Load(c, Written(c, entries, |entries|)[..m]).Failed?
  {
    if m >= 16 {
      var order := InOrder(|entries|);
      var header, body := Header(BANK_VERSION, |entries|), Concat(Parts(c, entries, order));
      assert (header + body)[..m] == header + body[..m - 16];
      HeaderReads(BANK_VERSION, |entries|, body[..m - 16]);
      PartsAreReadable(c, entries, order);
      CutRecordsFail(RecordReader(c), |entries|, order, Parts(c, entries, order), Arranged(entries, order),
                     m - 16, map[]);
    }
  }

  /** What a save leaves behind when a patch in the middle cannot be encoded does not load. */
  lemma {:induction false} FailedSaveNeverLoads(c: Codec, entries: seq<Entry>, written: nat)
    requires written < |entries| <= MAX_SLOTS && forall i :: 0 <= i < written ==> Writable(c, entries[i])
    ensures Load(c, Written(c, entries, written)) == Failed(BadBlob)
  {
    var order := InOrder(written);
    HeaderReads(BANK_VERSION, |entries|, Concat(Parts(c, entries, order)));
    PartsAreReadable(c, entries, order);
    MissingRecordsFail(c, |entries|, order, Parts(c, entries, order), Arranged(entries, order), |entries|, map[]);
  }

  // ---- saving and loading, record by record --------------------------------------------------------

  function Zip(patches: seq<StateRoot>, metas: seq<Meta>): (r: seq<Entry>)
    requires |metas| >= |patches|
    ensures |r| == |patches| && forall i :: 0 <= i < |r| ==> r[i] == Entry(patches[i], metas[i])
  {
    seq(|patches|, i requires 0 <= i < |patches| => Entry(patches[i], metas[i]))
  }

  lemma {:induction false} WrittenMore(c: Codec, entries: seq<Entry>, written: nat)
    requires written < |entries| <= MAX_SLOTS
    ensures Written(c, entries, written + 1) == Written(c, entries, written) + RecordOf(c, written, entries[written])
  {
    var next := written + 1;
    var before, after := Parts(c, entries, InOrder(written)), Parts(c, entries, InOrder(next));
    assert after == before + [RecordOf(c, written, entries[written])];
    ConcatMore(before, RecordOf(c, written, entries[written]));
    JoinsTwice(Header(BANK_VERSION, |entries|), Concat(before), RecordOf(c, written, entries[written]));
  }

  lemma {:induction false} JoinsTwice(a: Bytes, b: Bytes, c: Bytes)
    ensures a + (b + c) == (a + b) + c
  {}

  /** The file a save writes; a patch that cannot be encoded stops it half way. */
  method SaveBank(c: Codec, patches: seq<StateRoot>, metas: seq<Meta>)
    returns (error: Option<Error>, file: Bytes, written: nat)
    ensures |patches| > MAX_SLOTS ==> error == Some(TooManySlots) && file == []
    ensures |metas| < |patches| <= MAX_SLOTS ==> error == Some(BadBlob) && file == []
    ensures |patches| <= |metas| && |patches| <= MAX_SLOTS ==>
              && written <= |patches|
              && (forall i :: 0 <= i < written ==> Encodable(c, patches[i]))
              && (written < |patches| ==> !Encodable(c, patches[written]))
              && error == (if written == |patches| then None else Some(WriteFailed))
              && file == Written(c, Zip(patches, metas), written)
  {
    file, written := [], 0;
    if |patches| > MAX_SLOTS {
      error := Some(TooManySlots);
      return;
    }
    if |metas| < |patches| {
      error := Some(BadBlob);
      return;
    }
    file := WriteHeader(c, patches, metas);
    file, written := WriteRecords(c, file, patches, metas, Zip(patches, metas));
    error := if written == |patches| then None else Some(WriteFailed);
  }

  /** The records up to the first patch that cannot be encoded. */
  method WriteRecords(c: Codec, header: Bytes, patches: seq<StateRoot>, metas: seq<Meta>, ghost entries: seq<Entry>)
    returns (file: Bytes, written: nat)
    requires |patches| <= MAX_SLOTS && |patches| <= |metas| && entries == Zip(patches, metas)
    requires header == Written(c, entries, 0)
    ensures written <= |patches| && file == Written(c, entries, written)
    ensures forall i :: 0 <= i < written ==> Encodable(c, patches[i])
    ensures written < |patches| ==> !Encodable(c, patches[written])
  {
    file, written := header, 0;
    while written < |patches|
      invariant written <= |patches| && file == Written(c, entries, written)
      invariant forall i :: 0 <= i < written ==> Encodable(c, patches[i])
    {
      if |c.encode(patches[written])| == 0 || |c.encode(patches[written])| > BLOB_CAP {
        return;
      }
      file := WriteRecord(c, file, patches[written], metas[written], entries, written);
      written := written + 1;
    }
  }

  method WriteHeader(c: Codec, patches: seq<StateRoot>, metas: seq<Meta>) returns (file: Bytes)
    requires |patches| <= MAX_SLOTS && |patches| <= |metas|
    ensures file == Written(c, Zip(patches, metas), 0)
  {
    file := PutU32([], MAGIC0);
    file := PutU32(file, MAGIC1);
    file := PutU32(file, BANK_VERSION);
    file := PutU32(file, |patches|);
    HeaderJoins(U32(MAGIC0), U32(MAGIC1), U32(BANK_VERSION), U32(|patches|));
    assert Concat(Parts(c, Zip(patches, metas), InOrder(0))) == [];
  }

  lemma {:induction false} HeaderJoins(a: Bytes, b: Bytes, c: Bytes, d: Bytes)
    ensures [] + a + b + c + d == (a + (b + (c + d))) + []
  {}

  method WriteRecord(c: Codec, file: Bytes, patch: StateRoot, meta: Meta, ghost entries: seq<Entry>, slot: nat)
    returns (r: Bytes)
    requires slot < |entries| <= MAX_SLOTS && entries[slot] == Entry(patch, meta) && Encodable(c, patch)
    requires file == Written(c, entries, slot)
    ensures r == Written(c, entries, slot + 1)
  {
    r := AppendRecord(file, slot, EncodeMeta(meta), c.encode(patch));
    WrittenMore(c, entries, slot);
  }

  method AppendRecord(file: Bytes, slot: nat, wire: Bytes, blob: Bytes) returns (r: Bytes)
    requires slot < MAX_SLOTS && |blob| <= BLOB_CAP
    ensures r == file + Record(slot, wire, blob)
  {
    r := PutU32(file, slot);
    r := r + wire;
    r := PutU32(r, |blob|);
    r := r + blob;
  }

  predicate Holds(roots: seq<StateRoot>, metas: seq<Meta>, seen: seq<bool>, got: map<nat, Entry>) {
    && |roots| == |metas| == |seen|
    && (forall s :: s in got ==> s < |seen|)
    && (forall i :: 0 <= i < |seen| ==> (seen[i] <==> i in got))
    && (forall i :: 0 <= i < |seen| && seen[i] ==> got[i] == Entry(roots[i], metas[i]))
  }

  /** Reads a bank; on any failure the caller's patches and metas stay as they were. */
  method LoadBank(c: Codec, file: Bytes, patches: seq<StateRoot>, metas: seq<Meta>)
    returns (error: Option<Error>, newPatches: seq<StateRoot>, newMetas: seq<Meta>)
    ensures match Load(c, file)
            case Failed(e) => error == Some(e) && newPatches == patches && newMetas == metas
            case Bank(entries) =>
              && error == None && |newPatches| == |newMetas| == |entries|
              && Zip(newPatches, newMetas) == entries
  {
    newPatches, newMetas := patches, metas;
    if |file| < 16 {
      return Some(ReadFailed), patches, metas;
    }
    if GetU32(file) != MAGIC0 || GetU32(file[4..]) != MAGIC1 {
      return Some(BadMagic), patches, metas;
    }
    if GetU32(file[8..]) > BANK_VERSION {
      return Some(BadVersion), patches, metas;
    }
    var count := GetU32(file[12..]);
    if count == 0 || count > MAX_SLOTS {
      return Some(BadBlob), patches, metas;
    }
    var ok, roots, decoded, seen := LoadRecords(c, file[16..], count);
    ghost var read := ReadRecords(RecordReader(c), file[16..], count, count, map[]);
    var missing := exists i :: 0 <= i < count && !seen[i];
    if read.Some? {
      AllSlotsAreSeen(c, file[16..], count);
      forall i | 0 <= i < count ensures i in read.value { InNumbersBelow(count, i); }
    }
    if !ok || missing {
      return Some(BadBlob), patches, metas;
    }
    error, newPatches, newMetas := None, roots, decoded;
    assert Zip(roots, decoded) == Entries(read.value, count);
  }

  /** The record loop: decodes into slots and marks them seen. */
  method LoadRecords(c: Codec, data: Bytes, count: nat)
    returns (ok: bool, roots: seq<StateRoot>, metas: seq<Meta>, seen: seq<bool>)
    ensures |seen| == count
    ensures ok == ReadRecords(RecordReader(c), data, count, count, map[]).Some?
    ensures ok ==> Holds(roots, metas, seen, ReadRecords(RecordReader(c), data, count, count, map[]).value)
  {
    roots, metas := seq(count, i => StateRoot([])), seq(count, i => Meta([], [], [], [], 0, 0, 0, 0));
    seen, ok := seq(count, i => false), true;
    var rest, n := data, 0;
    ghost var got: map<nat, Entry> := map[];
    ghost var read := RecordReader(c);
    ghost var whole := ReadRecords(read, data, count, count, got);
    while n < count && ok
      invariant n <= count && |seen| == count && Holds(roots, metas, seen, got)
      invariant ok ==> whole == ReadRecords(read, rest, count, count - n, got)
      invariant !ok ==> whole == None
      decreases count - n, ok
    {
      var record := LoadRecord(c, rest, seen, got.Keys);
      OneRecord(read, rest, count, count - n, got, record);
      match record {
        case None => ok := false;
        case Some((slot, entry, later)) =>
          HoldsMore(roots, metas, seen, got, slot, entry);
          roots, metas, seen := roots[slot := entry.root], metas[slot := entry.meta], seen[slot := true];
          got := got[slot := entry];
          rest := later;
          n := n + 1;
      }
    }
  }

  lemma {:induction false} HoldsMore(roots: seq<StateRoot>, metas: seq<Meta>, seen: seq<bool>, got: map<nat, Entry>,
                                     slot: nat, e: Entry)
    requires Holds(roots, metas, seen, got) && slot < |seen|
    ensures Holds(roots[slot := e.root], metas[slot := e.meta], seen[slot := true], got[slot := e])
  {}

  lemma {:induction false} OneRecord(read: Reader, data: Bytes, count: nat, n: nat, got: map<nat, Entry>,
                                     record: Option<(nat, Entry, Bytes)>)
    requires n > 0 && record == read(data, count, got.Keys)
    ensures ReadRecords(read, data, count, n, got) ==
            match record
            case None => None
            case Some((slot, entry, rest)) => ReadRecords(read, rest, count, n - 1, got[slot := entry])
  {}

  /** One record, with the checks in the order the reader makes them. */
  method LoadRecord(c: Codec, data: Bytes, seen: seq<bool>, ghost slots: set<nat>)
    returns (record: Option<(nat, Entry, Bytes)>)
    requires forall i :: 0 <= i < |seen| ==> (seen[i] <==> i in slots)
    ensures record == RecordReader(c)(data, |seen|, slots)
    ensures record.Some? ==> record.value.0 < |seen|
  {
    if |data| < 4 {
      return None;
    }
    var slot := GetU32(data);
    if slot >= |seen| || seen[slot] {
      return None;
    }
    if |data| < RECORD_HEADER {
      return None;
    }
    var length := GetU32(data[132..]);
    if length == 0 || length > BLOB_CAP || |data| < RECORD_HEADER + length {
      return None;
    }
    match c.decode(data[RECORD_HEADER..RECORD_HEADER + length]) {
      case None => record := None;
      case Some(root) => record := Some((slot, Entry(root, DecodeMeta(data[4..132])), data[RECORD_HEADER + length..]));
    }
  }
}
