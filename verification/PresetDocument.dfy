// The MetaInfo text as a document: read attribute by attribute it says what was written,
// whatever the texts in it are.
module PresetDocument {
  import opened Basics
  import opened PresetMeta

  datatype Attribute = Attribute(id: string, value: string, protected: bool)

  /** The text before the first quotation mark, and the text from there on. */
  function UpToQuote(s: string): (string, string) {
    match Find(s, "\"", 0)
    case Some(at) => (s[..at], s[at..])
    case None => (s, "")
  }

  function After(s: string, prefix: string): string {
    if StartsWith(s, prefix) then s[|prefix|..] else s
  }

  /** What stands between a prefix and the next quotation mark, and the text from there on. */
  function ReadQuoted(s: string, prefix: string): Option<(string, string)> {
    if StartsWith(s, prefix) then Some(UpToQuote(After(s, prefix))) else None
  }

  function ReadFlags(s: string): Option<(bool, string)> {
    if StartsWith(s, Flags(true)) then Some((true, After(s, Flags(true))))
    else if StartsWith(s, Flags(false)) then Some((false, After(s, Flags(false))))
    else None
  }

  /** One attribute in front of a text, as a reader of XML takes it, and what follows. */
  function ReadAttribute(s: string): Option<(Attribute, string)> {
    match ReadQuoted(s, ATTR_OPEN)
    case None => None
    case Some((id, behindId)) =>
      match ReadQuoted(behindId, ATTR_VALUE)
      case None => None
      case Some((value, behindValue)) =>
        match ReadFlags(behindValue)
        case None => None
        case Some((protected, rest)) => Some((Attribute(id, Unescape(value), protected), rest))
  }

  /** All attributes up to the end of the document. */
  function ReadAttributes(s: string): Option<seq<Attribute>>
    decreases |s|
  {
    if s == XML_FOOTER then Some([])
    else
      match ReadAttribute(s)
      case None => None
      case Some((a, rest)) =>
        if |rest| >= |s| then None
        else
          match ReadAttributes(rest)
          case None => None
          case Some(more) => Some([a] + more)
  }

  function ReadDocument(s: string): Option<seq<Attribute>> {
    if StartsWith(s, Header()) then ReadAttributes(After(s, Header())) else None
  }

  /** What a preset says about itself. */
  function AttributesOf(name: string, category: string, comment: string, protected: bool): seq<Attribute> {
    FourAttributes(name, protected) + FurtherAttributes(category, comment, protected)
  }

  function FourAttributes(name: string, protected: bool): seq<Attribute> {
    [Attribute("MediaType", "VstPreset", protected), Attribute("PlugInName", "ArpSID", protected),
     Attribute("PlugInCategory", "Instrument|Synth", protected), Attribute("Name", name, protected)]
  }

  function FurtherAttributes(category: string, comment: string, protected: bool): seq<Attribute> {
    (if category != "" then
       [Attribute("MusicalCategory", category, protected), Attribute("MusicalInstrument", category, protected)]
     else [])
    + (if comment != "" then [Attribute("Comment", comment, protected)] else [])
  }

  function Written(a: Attribute): string { Attr(a.id, a.value, a.protected) }

  function WrittenAll(attributes: seq<Attribute>): string {
    if attributes == [] then XML_FOOTER else Written(attributes[0]) + WrittenAll(attributes[1..])
  }

  // ---- reading back ---------------------------------------------------------------------

  lemma {:induction false} AfterPrefix(prefix: string, rest: string)
    ensures StartsWith(prefix + rest, prefix) && After(prefix + rest, prefix) == rest
  {}

  lemma {:induction false} QuotedReads(prefix: string, text: string, rest: string)
    requires '\"' !in text && rest != "" && rest[0] == '\"'
    ensures ReadQuoted(prefix + (text + rest), prefix) == Some((text, rest))
  {
    AfterPrefix(prefix, text + rest);
    QuoteEndsValue("", text, rest);
    assert "" + text + rest == text + rest;
    assert (text + rest)[..|text|] == text && (text + rest)[|text|..] == rest;
  }

  lemma {:induction false} FlagsRead(protected: bool, rest: string)
    ensures ReadFlags(Flags(protected) + rest) == Some((protected, rest))
    ensures Flags(protected)[0] == '\"'
  {
    AfterPrefix(Flags(protected), rest);
    if !protected {
      var n := |ATTR_FLAGS| + 1;
      assert Flags(true)[n] == PROTECTED[1] && (Flags(false) + rest)[n] == EDITABLE[1];
    }
  }

  lemma {:induction false} PiecesReadBack(id: string, escaped: string, flags: string, rest: string, protected: bool)
    requires '\"' !in id && '\"' !in escaped && flags != "" && flags[0] == '\"'
    requires ReadFlags(flags + rest) == Some((protected, rest))
    ensures ReadAttribute(ATTR_OPEN + (id + (ATTR_VALUE + (escaped + (flags + rest)))))
            == Some((Attribute(id, Unescape(escaped), protected), rest))
  {
    var behindId := ATTR_VALUE + (escaped + (flags + rest));
    assert behindId[0] == ATTR_VALUE[0];
    QuotedReads(ATTR_OPEN, id, behindId);
    QuotedReads(ATTR_VALUE, escaped, flags + rest);
  }

  lemma {:induction false} PiecesJoin(a: string, b: string, c: string, d: string, e: string, rest: string)
    ensures a + b + c + d + e + rest == a + (b + (c + (d + (e + rest))))
  {}

  /** An attribute is read back as it was written, whatever its value and whatever follows. */
  lemma {:induction false} AttributeReadsBack(a: Attribute, rest: string)
    requires '\"' !in a.id
    ensures ReadAttribute(Written(a) + rest) == Some((a, rest))
  {
    FlagsRead(a.protected, rest);
    EscapedHasNoDelimiters(a.value);
    PiecesReadBack(a.id, Escape(a.value), Flags(a.protected), rest, a.protected);
    PiecesJoin(ATTR_OPEN, a.id, ATTR_VALUE, Escape(a.value), Flags(a.protected), rest);
    UnescapeInvertsEscape(a.value);
  }

  predicate NoQuotes(attributes: seq<Attribute>) {
    forall i :: 0 <= i < |attributes| ==> Lacks(attributes[i].id, '\"')
  }

  lemma {:induction false} StartsWithTab(a: Attribute, rest: string)
    ensures Written(a) + rest != XML_FOOTER && |Written(a)| > 0
  {
    PiecesJoin(ATTR_OPEN, a.id, ATTR_VALUE, Escape(a.value), Flags(a.protected), rest);
    assert (ATTR_OPEN + (a.id + (ATTR_VALUE + (Escape(a.value) + (Flags(a.protected) + rest)))))[0] == ATTR_OPEN[0];
    assert ATTR_OPEN[0] == '\t' && XML_FOOTER[0] == '<';
  }

  lemma {:induction false} AllReadBack(attributes: seq<Attribute>)
    requires NoQuotes(attributes)
    ensures ReadAttributes(WrittenAll(attributes)) == Some(attributes)
  {
    if attributes != [] {
      var a, rest := attributes[0], WrittenAll(attributes[1..]);
      AllReadBack(attributes[1..]);
      StartsWithTab(a, rest);
      AttributeReadsBack(a, rest);
      assert [a] + attributes[1..] == attributes;
    }
  }

  // ---- the document is its attributes -------------------------------------------------------

  lemma {:induction false} WrittenMore(a: Attribute, more: seq<Attribute>)
    ensures WrittenAll([a] + more) == Written(a) + WrittenAll(more)
  {
    assert ([a] + more)[1..] == more;
  }

  lemma {:induction false} FourWritten(a: Attribute, b: Attribute, c: Attribute, d: Attribute, more: seq<Attribute>)
    ensures WrittenAll([a, b, c, d] + more)
            == Written(a) + (Written(b) + (Written(c) + (Written(d) + WrittenAll(more))))
  {
    WrittenMore(d, more);
    WrittenMore(c, [d] + more);
    WrittenMore(b, [c] + ([d] + more));
    WrittenMore(a, [b] + ([c] + ([d] + more)));
    assert [a, b, c, d] + more == [a] + ([b] + ([c] + ([d] + more)));
  }

  lemma {:induction false} EndingWritten(kind: Attribute, played: Attribute, remark: Attribute, categorised: bool,
                                         remarked: bool)
    ensures WrittenAll((if categorised then [kind, played] else []) + (if remarked then [remark] else []))
            == (if categorised then Written(kind) + Written(played) else "")
               + (if remarked then Written(remark) else "") + XML_FOOTER
  {
    var last := if remarked then [remark] else [];
    var said := if remarked then Written(remark) else "";
    RemarkWritten(remark, remarked);
    if categorised {
      TwoWritten(kind, played, last);
      JoinThree(Written(kind), Written(played), said, XML_FOOTER);
    } else {
      assert [] + last == last && "" + said == said;
    }
  }

  lemma {:induction false} TwoWritten(a: Attribute, b: Attribute, more: seq<Attribute>)
    ensures WrittenAll([a, b] + more) == Written(a) + (Written(b) + WrittenAll(more))
  {
    WrittenMore(b, more);
    WrittenMore(a, [b] + more);
    assert [a, b] + more == [a] + ([b] + more);
  }

  lemma {:induction false} RemarkWritten(remark: Attribute, remarked: bool)
    ensures WrittenAll(if remarked then [remark] else []) == (if remarked then Written(remark) else "") + XML_FOOTER
  {
    if remarked {
      WrittenMore(remark, []);
      assert [remark] + [] == [remark];
    } else {
      assert "" + XML_FOOTER == XML_FOOTER;
    }
  }

  lemma {:induction false} JoinThree(a: string, b: string, c: string, d: string)
    ensures a + (b + (c + d)) == (a + b) + c + d
  {}

  lemma {:induction false} JoinDocument(header: string, a: string, b: string, c: string, d: string, ending: string)
    ensures (header + a + b + c) + d + ending == header + (a + (b + (c + (d + ending))))
  {}

  lemma {:induction false} EndingIsFurther(category: string, comment: string, protected: bool)
    ensures Ending(category, comment, protected) == WrittenAll(FurtherAttributes(category, comment, protected))
  {
    var kind := Attribute("MusicalCategory", category, protected);
    var played := Attribute("MusicalInstrument", category, protected);
    EndingWritten(kind, played, Attribute("Comment", comment, protected), category != "", comment != "");
  }

  lemma {:induction false} FourAreWritten(name: string, protected: bool, more: seq<Attribute>)
    ensures Opening(protected) + Attr("Name", name, protected) + WrittenAll(more)
            == Header() + WrittenAll(FourAttributes(name, protected) + more)
  {
    var media, plugin := Attribute("MediaType", "VstPreset", protected), Attribute("PlugInName", "ArpSID", protected);
    var kind, title := Attribute("PlugInCategory", "Instrument|Synth", protected), Attribute("Name", name, protected);
    FourWritten(media, plugin, kind, title, more);
    JoinDocument(Header(), Written(media), Written(plugin), Written(kind), Written(title), WrittenAll(more));
  }

  lemma {:induction false} DocumentIsItsAttributes(name: string, category: string, comment: string, protected: bool)
    ensures MetaInfo(name, category, comment, protected)
            == Header() + WrittenAll(AttributesOf(name, category, comment, protected))
  {
    EndingIsFurther(category, comment, protected);
    FourAreWritten(name, protected, FurtherAttributes(category, comment, protected));
  }

  /** For every name, category and comment, protected or not: no text can break out of its
      attribute, and the document says exactly what was written into it. */
  lemma {:induction false} DocumentReadsBack(name: string, category: string, comment: string, protected: bool)
    ensures ReadDocument(MetaInfo(name, category, comment, protected))
            == Some(AttributesOf(name, category, comment, protected))
  {
    var attributes := AttributesOf(name, category, comment, protected);
    DocumentIsItsAttributes(name, category, comment, protected);
    AfterPrefix(Header(), WrittenAll(attributes));
    IdsHaveNoQuotes(name, category, comment, protected);
    AllReadBack(attributes);
  }

  lemma {:induction false} IdsHaveNoQuotes(name: string, category: string, comment: string, protected: bool)
    ensures NoQuotes(AttributesOf(name, category, comment, protected))
  {
    FourHaveNoQuotes(name, protected);
    FurtherHaveNoQuotes(category, comment, protected);
    NoQuotesJoins(FourAttributes(name, protected), FurtherAttributes(category, comment, protected));
  }

  lemma {:induction false} NoQuotesJoins(a: seq<Attribute>, b: seq<Attribute>)
    requires NoQuotes(a) && NoQuotes(b)
    ensures NoQuotes(a + b)
  {}

  lemma {:induction false} FourHaveNoQuotes(name: string, protected: bool)
    ensures NoQuotes(FourAttributes(name, protected))
  {}

  lemma {:induction false} FurtherHaveNoQuotes(category: string, comment: string, protected: bool)
    ensures NoQuotes(FurtherAttributes(category, comment, protected))
  {
    FurtherIdsAreSafe();
    NoQuotesJoins(
      if category != "" then
        [Attribute("MusicalCategory", category, protected), Attribute("MusicalInstrument", category, protected)]
      else [],
      if comment != "" then [Attribute("Comment", comment, protected)] else []);
  }

  lemma {:induction false} FurtherIdsAreSafe()
    ensures Lacks("MusicalCategory", '\"') && Lacks("MusicalInstrument", '\"') && Lacks("Comment", '\"')
  {}
}
