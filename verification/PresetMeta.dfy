// The MetaInfo text of a preset file: written attribute by attribute, and searched for
// the preset's name when the file is read.
module PresetMeta {
  import opened Basics

  const PLUGIN_NAME := "ArpSID"
  const XML_VERSION := "<?xml version=\"1.0\""
  const XML_ENCODING := " encoding=\"utf-8\"?>\n"
  const META_OPEN := "<MetaInfo>\n"
  const XML_FOOTER := "</MetaInfo>\n"
  const ATTR_OPEN := "\t<Attr id=\""
  const ATTR_VALUE := "\" value=\""
  const ATTR_FLAGS := "\" type=\"string\" flags="
  const PROTECTED := "\"writeProtected\"/>\n"
  const EDITABLE := "\"\"/>\n"
  const NAME_KEY := "id=\"Name\" value=\""

  /** The five predefined entities of XML 1.0, section 4.6. */
  function EscapeChar(c: char): string {
    match c
    case '&' => "&amp;"
    case '<' => "&lt;"
    case '>' => "&gt;"
    case '\"' => "&quot;"
    case '\'' => "&apos;"
    case _ => [c]
  }

  function Escape(s: string): string {
    if s == [] then [] else EscapeChar(s[0]) + Escape(s[1..])
  }

  predicate StartsWith(s: string, prefix: string) { prefix <= s }

  /** The character an entity at the front of s stands for, and its length. */
  function EntityAt(s: string): Option<(char, nat)> {
    if StartsWith(s, "&amp;") then Some(('&', 5))
    else if StartsWith(s, "&lt;") then Some(('<', 4))
    else if StartsWith(s, "&gt;") then Some(('>', 4))
    else if StartsWith(s, "&quot;") then Some(('\"', 6))
    else if StartsWith(s, "&apos;") then Some(('\'', 6))
    else None
  }

  lemma {:induction false} EntityFits(s: string)
    ensures EntityAt(s).Some? ==> 0 < EntityAt(s).value.1 <= |s|
  {}

  function Unescape(s: string): string
    decreases |s|
  {
    if s == [] then []
    else
      EntityFits(s);
      match EntityAt(s)
      case Some((c, n)) => [c] + Unescape(s[n..])
      case None => [s[0]] + Unescape(s[1..])
  }

  // ---- escaping ------------------------------------------------------------------------

  lemma {:induction false} EscapedCharStarts(c: char, rest: string)
    ensures var e := EntityAt(EscapeChar(c) + rest);
            if |EscapeChar(c)| > 1 then e == Some((c, |EscapeChar(c)|)) else e == None && EscapeChar(c) == [c]
  {
    var s := EscapeChar(c) + rest;
    assert s[..|EscapeChar(c)|] == EscapeChar(c);
    if |EscapeChar(c)| == 1 {
      assert s[0] == c;
    } else {
      assert s[1] == EscapeChar(c)[1] && s[2] == EscapeChar(c)[2];
    }
  }

  /** Decoding the entities inverts the escaping, for every text. */
  lemma {:induction false} UnescapeInvertsEscape(s: string)
    ensures Unescape(Escape(s)) == s
  {
    if s != [] {
      var c, rest := s[0], Escape(s[1..]);
      EscapedCharStarts(c, rest);
      UnescapeInvertsEscape(s[1..]);
      assert (EscapeChar(c) + rest)[|EscapeChar(c)|..] == rest;
      assert s == [c] + s[1..];
    }
  }

  /** Escaped text holds no character that could end an attribute or open a tag. */
  lemma {:induction false} EscapedHasNoDelimiters(s: string)
    ensures '\"' !in Escape(s) && '<' !in Escape(s) && '>' !in Escape(s) && '\'' !in Escape(s)
  {
    if s != [] {
      EscapedCharHasNoDelimiters(s[0]);
      EscapedHasNoDelimiters(s[1..]);
    }
  }

  lemma {:induction false} EscapedCharHasNoDelimiters(c: char)
    ensures var e := EscapeChar(c); '\"' !in e && '<' !in e && '>' !in e && '\'' !in e
  {}

  method XmlEscape(s: string) returns (out: string)
    ensures out == Escape(s)
  {
    out := "";
    for i := 0 to |s|
      invariant out + Escape(s[i..]) == Escape(s)
    {
      assert s[i..][1..] == s[i + 1..];
      out := out + EscapeChar(s[i]);
    }
    assert s[|s|..] == [];
  }

  method UndoEscape(v: string) returns (u: string)
    ensures u == Unescape(v)
  {
    u := "";
    var i := 0;
    ghost var rest := Unescape(v);
    ghost var decoded := rest;
    assert v[0..] == v;
    while i < |v|
      invariant i <= |v| && rest == Unescape(v[i..])
      invariant decoded == u + rest
    {
      var c, next := NextChar(v, i);
      ghost var fewer := Unescape(v[next..]);
      MoveOver(u, c, fewer);
      u, i, rest := u + [c], next, fewer;
    }
    assert v[i..] == [] && rest == [];
  }

  lemma {:induction false} MoveOver(u: string, c: char, rest: string)
    ensures u + ([c] + rest) == (u + [c]) + rest
  {}

  /** The character at a position, an entity counting as one, and where the next begins. */
  method NextChar(v: string, i: nat) returns (c: char, next: nat)
    requires i < |v|
    ensures i < next <= |v| && Unescape(v[i..]) == [c] + Unescape(v[next..])
  {
    EntityFits(v[i..]);
    match EntityAt(v[i..]) {
      case Some((decoded, n)) =>
        c, next := decoded, i + n;
        assert v[i..][n..] == v[next..];
      case None =>
        c, next := v[i], i + 1;
        assert v[i..][1..] == v[next..];
    }
  }

  // ---- the document -------------------------------------------------------------------------

  function Flags(protected: bool): string { ATTR_FLAGS + (if protected then PROTECTED else EDITABLE) }

  function Attr(id: string, value: string, protected: bool): string {
    ATTR_OPEN + id + ATTR_VALUE + Escape(value) + Flags(protected)
  }

  function Header(): string { XML_VERSION + XML_ENCODING + META_OPEN }

  function Opening(protected: bool): string {
    Header() + Attr("MediaType", "VstPreset", protected) + Attr("PlugInName", PLUGIN_NAME, protected)
    + Attr("PlugInCategory", "Instrument|Synth", protected)
  }

  function Ending(category: string, comment: string, protected: bool): string {
    (if category == "" then ""
     else Attr("MusicalCategory", category, protected) + Attr("MusicalInstrument", category, protected))
    + (if comment != "" then Attr("Comment", comment, protected) else "")
    + XML_FOOTER
  }

  function MetaInfo(name: string, category: string, comment: string, protected: bool): string {
    Opening(protected) + Attr("Name", name, protected) + Ending(category, comment, protected)
  }

  // ---- searching -----------------------------------------------------------------------------

  predicate Occurs(s: string, key: string, p: nat) { p + |key| <= |s| && s[p..p + |key|] == key }

  /** The first occurrence of key at or after a position. */
  function Find(s: string, key: string, from: nat): (r: Option<nat>)
    ensures r.Some? ==> from <= r.value && Occurs(s, key, r.value)
    ensures r.Some? ==> forall p :: from <= p < r.value ==> !Occurs(s, key, p)
    ensures r.None? ==> forall p :: from <= p ==> !Occurs(s, key, p)
    decreases |s| - from
  {
    if from + |key| > |s| then None
    else if s[from..from + |key|] == key then Some(from)
    else if from >= |s| then None
    else Find(s, key, from + 1)
  }

  /** The name a reader finds in a MetaInfo text. */
  function NameIn(xml: string): Option<string> {
    match Find(xml, NAME_KEY, 0)
    case None => None
    case Some(at) =>
      match Find(xml, "\"", at + |NAME_KEY|)
      case None => None
      case Some(to) => Some(Unescape(xml[at + |NAME_KEY|..to]))
  }

  /** No quotation mark directly before an N. */
  predicate NoQuotedN(s: string) { forall p :: 0 <= p && p + 1 < |s| && s[p] == '\"' ==> s[p + 1] != 'N' }

  lemma {:induction false} NoQuotedNJoins(a: string, b: string)
    requires NoQuotedN(a) && NoQuotedN(b) && (a == [] || b == [] || b[0] != 'N' || a[|a| - 1] != '\"')
    ensures NoQuotedN(a + b)
  {
    var s := a + b;
    forall p | 0 <= p && p + 1 < |s| && s[p] == '\"' ensures s[p + 1] != 'N' {
      if p + 1 < |a| { assert a[p] == s[p] && a[p + 1] == s[p + 1]; }
      if p >= |a| { assert b[p - |a|] == s[p] && b[p - |a| + 1] == s[p + 1]; }
    }
  }

  lemma {:induction false} WithoutNIsSafe(s: string)
    requires 'N' !in s || '\"' !in s
    ensures NoQuotedN(s)
  {
    forall p | 0 <= p && p + 1 < |s| && s[p] == '\"' ensures s[p + 1] != 'N' {
      assert s[p] in s && s[p + 1] in s;
    }
  }

  predicate Lacks(s: string, c: char) { c !in s }

  lemma {:induction false} LacksJoins(a: string, b: string, c: char)
    requires Lacks(a, c) && Lacks(b, c)
    ensures Lacks(a + b, c)
  {}

  lemma {:induction false} HeaderLacksN()
    ensures Lacks(Header(), 'N')
  {
    assert Lacks(XML_VERSION, 'N');
    assert Lacks(XML_ENCODING, 'N');
    assert Lacks(META_OPEN, 'N');
    LacksJoins(XML_VERSION, XML_ENCODING, 'N');
    LacksJoins(XML_VERSION + XML_ENCODING, META_OPEN, 'N');
  }

  lemma {:induction false} GlueLacksN()
    ensures Lacks(ATTR_OPEN, 'N') && Lacks(ATTR_VALUE, 'N')
  {}

  lemma {:induction false} FlagsLackN(protected: bool)
    ensures Lacks(Flags(protected), 'N')
  {
    assert Lacks(ATTR_FLAGS, 'N');
    assert Lacks(PROTECTED, 'N');
    assert Lacks(EDITABLE, 'N');
    LacksJoins(ATTR_FLAGS, if protected then PROTECTED else EDITABLE, 'N');
  }

  lemma {:induction false} AttrIsSafe(id: string, value: string, protected: bool)
    requires id != "" && id[0] != 'N' && '\"' !in id
    requires value != "" && value[0] != 'N' && EscapeChar(value[0]) == [value[0]]
    ensures NoQuotedN(Attr(id, value, protected)) && Attr(id, value, protected)[0] == '\t'
  {
    EscapedHasNoDelimiters(value);
    assert Escape(value)[0] == value[0];
    GlueLacksN();
    FlagsLackN(protected);
    PiecesAreSafe(ATTR_OPEN, id, ATTR_VALUE, Escape(value), Flags(protected));
  }

  lemma {:induction false} PiecesAreSafe(open: string, id: string, glue: string, value: string, flags: string)
    requires Lacks(open, 'N') && Lacks(glue, 'N') && Lacks(flags, 'N') && Lacks(id, '\"') && Lacks(value, '\"')
    requires open != "" && glue != "" && flags != ""
    requires id != "" && id[0] != 'N' && value != "" && value[0] != 'N'
    ensures NoQuotedN(open + id + glue + value + flags)
  {
    WithoutNIsSafe(open);
    WithoutNIsSafe(id);
    WithoutNIsSafe(glue);
    WithoutNIsSafe(value);
    WithoutNIsSafe(flags);
    NoQuotedNJoins(open, id);
    NoQuotedNJoins(open + id, glue);
    NoQuotedNJoins(open + id + glue, value);
    NoQuotedNJoins(open + id + glue + value, flags);
  }

  lemma {:induction false} FourAreSafe(header: string, a: string, b: string, c: string, open: string)
    requires NoQuotedN(header) && SafeAttr(a) && SafeAttr(b) && SafeAttr(c) && SafeAttr(open)
    ensures NoQuotedN(header + a + b + c + open)
  {
    NoQuotedNJoins(header, a);
    NoQuotedNJoins(header + a, b);
    NoQuotedNJoins(header + a + b, c);
    NoQuotedNJoins(header + a + b + c, open);
  }

  lemma {:induction false} OpeningIsSafe(protected: bool)
    ensures NoQuotedN(Opening(protected) + ATTR_OPEN)
  {
    HeaderLacksN();
    GlueLacksN();
    WithoutNIsSafe(Header());
    WithoutNIsSafe(ATTR_OPEN);
    MediaTypeIsSafe(protected);
    PlugInNameIsSafe(protected);
    PlugInCategoryIsSafe(protected);
    FourAreSafe(Header(), Attr("MediaType", "VstPreset", protected), Attr("PlugInName", PLUGIN_NAME, protected),
                Attr("PlugInCategory", "Instrument|Synth", protected), ATTR_OPEN);
  }

  predicate SafeAttr(s: string) { NoQuotedN(s) && s != "" && s[0] != 'N' }

  lemma {:induction false} MediaTypeIsSafe(protected: bool)
    ensures SafeAttr(Attr("MediaType", "VstPreset", protected))
  {
    AttrIsSafe("MediaType", "VstPreset", protected);
  }

  lemma {:induction false} PlugInNameIsSafe(protected: bool)
    ensures SafeAttr(Attr("PlugInName", PLUGIN_NAME, protected))
  {
    AttrIsSafe("PlugInName", PLUGIN_NAME, protected);
  }

  lemma {:induction false} PlugInCategoryIsSafe(protected: bool)
    ensures SafeAttr(Attr("PlugInCategory", "Instrument|Synth", protected))
  {
    AttrIsSafe("PlugInCategory", "Instrument|Synth", protected);
  }

  lemma {:induction false} KeyIsQuotedN(s: string, p: nat)
    requires Occurs(s, NAME_KEY, p)
    ensures p + 4 < |s| && s[p + 3] == '\"' && s[p + 4] == 'N'
  {
    assert s[p..p + |NAME_KEY|][3] == NAME_KEY[3] && s[p..p + |NAME_KEY|][4] == NAME_KEY[4];
  }

  /** Where the key first matches: at the Name attribute. */
  lemma {:induction false} KeyMatchesAtName(opening: string, rest: string)
    requires NoQuotedN(opening + ATTR_OPEN)
    ensures Find(opening + ATTR_OPEN + "Name" + ATTR_VALUE + rest, NAME_KEY, 0) == Some(|opening| + 7)
  {
    var before := opening + ATTR_OPEN;
    var s := before + "Name" + ATTR_VALUE + rest;
    var at := |opening| + 7;
    assert ATTR_OPEN[7..] + "Name" + ATTR_VALUE == NAME_KEY;
    assert s == opening + ATTR_OPEN[..7] + NAME_KEY + rest;
    assert Occurs(s, NAME_KEY, at);
    forall p | 0 <= p < at ensures !Occurs(s, NAME_KEY, p) {
      assert before[p + 3] == s[p + 3] && before[p + 4] == s[p + 4];
      if Occurs(s, NAME_KEY, p) { KeyIsQuotedN(s, p); }
    }
  }

  lemma {:induction false} QuoteOccurs(s: string, p: nat)
    ensures Occurs(s, "\"", p) <==> p < |s| && s[p] == '\"'
  {
    if p < |s| { assert s[p..p + 1] == [s[p]]; }
  }

  lemma {:induction false} QuoteEndsValue(before: string, value: string, rest: string)
    requires '\"' !in value && rest != "" && rest[0] == '\"'
    ensures Find(before + value + rest, "\"", |before|) == Some(|before| + |value|)
  {
    var s := before + value + rest;
    QuoteOccurs(s, |before| + |value|);
    forall p | |before| <= p < |before| + |value| ensures !Occurs(s, "\"", p) {
      QuoteOccurs(s, p);
      assert s[p] == value[p - |before|] && value[p - |before|] in value;
    }
  }

  lemma {:induction false} NameBetween(opening: string, escaped: string, rest: string)
    requires NoQuotedN(opening + ATTR_OPEN) && '\"' !in escaped && rest != "" && rest[0] == '\"'
    ensures NameIn(opening + ATTR_OPEN + "Name" + ATTR_VALUE + escaped + rest) == Some(Unescape(escaped))
  {
    var before := opening + ATTR_OPEN + "Name" + ATTR_VALUE;
    var xml := before + escaped + rest;
    assert xml == before + (escaped + rest);
    KeyMatchesAtName(opening, escaped + rest);
    QuoteEndsValue(before, escaped, rest);
    assert |before| == |opening| + 7 + |NAME_KEY|;
    assert xml[|before|..|before| + |escaped|] == escaped;
  }

  lemma {:induction false} Regroup(opening: string, open: string, id: string, glue: string, value: string,
                                   flags: string, ending: string)
    ensures opening + (open + id + glue + value + flags) + ending ==
            opening + open + id + glue + value + (flags + ending)
  {}

  /** For every name, category and comment, protected or not: reading the name back from
      the written text gives the name. */
  lemma {:induction false} NameSurvives(name: string, category: string, comment: string, protected: bool)
    ensures NameIn(MetaInfo(name, category, comment, protected)) == Some(name)
  {
    var rest := Flags(protected) + Ending(category, comment, protected);
    OpeningIsSafe(protected);
    EscapedHasNoDelimiters(name);
    NameBetween(Opening(protected), Escape(name), rest);
    UnescapeInvertsEscape(name);
    Regroup(Opening(protected), ATTR_OPEN, "Name", ATTR_VALUE, Escape(name), Flags(protected),
            Ending(category, comment, protected));
  }

  /** The reader's own search. */
  method ReadName(xml: string) returns (name: Option<string>)
    ensures name == NameIn(xml)
  {
    match Find(xml, NAME_KEY, 0) {
      case None => name := None;
      case Some(at) =>
        match Find(xml, "\"", at + |NAME_KEY|) {
          case None => name := None;
          case Some(to) =>
            var v := UndoEscape(xml[at + |NAME_KEY|..to]);
            name := Some(v);
        }
    }
  }
}
