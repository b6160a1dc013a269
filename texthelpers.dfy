/** The text helpers of js/main.js: `shortDesc` and the two escapers,
    `escapeAttr` (for attribute values) and `escapeHtml` (for element text),
    together with the decoding a browser applies to what they produce. */
module TextHelpers {
  import opened JsValues
  import opened Strings

  /** `shortDesc`'s default length budget. */
  const SummaryLength: nat := 160

  /** `shortDesc(text, maxLen)`: the text itself when it fits, else its first
      `maxLen` characters followed by "...". */
  function ShortDesc(text: Value, maxLen: nat): (r: string)
    ensures var t := SafeText(text, "");
      && (|t| <= maxLen ==> r == t)
      && (|t| > maxLen ==> |r| == maxLen + 3 && r[..maxLen] == t[..maxLen] && r[maxLen..] == "...")
    ensures |r| <= maxLen + 3
  {
    var t := SafeText(text, "");
    if |t| <= maxLen then t else t[..maxLen] + "..."
  }

  /** The entities the escapers introduce. */
  const Amp: string := "&amp;"
  const Quot: string := "&quot;"
  const Lt: string := "&lt;"
  const Gt: string := "&gt;"
  const Apos: string := "&#39;"

  /** The entities `escapeAttr` introduces, and those of `escapeHtml`. */
  const AttrEntities: seq<string> := [Amp, Quot, Lt, Gt]
  const HtmlEntities: seq<string> := AttrEntities + [Apos]

  /** What `escapeAttr` turns one character into. */
  function AttrEntity(c: char): string {
    if c == '&' then Amp
    else if c == '"' then Quot
    else if c == '<' then Lt
    else if c == '>' then Gt
    else [c]
  }

  /** What `escapeHtml` turns one character into. */
  function HtmlEntity(c: char): string {
    if c == '\'' then Apos else AttrEntity(c)
  }

  /** Character-by-character encoding, the reference the replace chains are proved against. */
  function Encode(s: string, entity: char -> string): string {
    if s == [] then [] else entity(s[0]) + Encode(s[1..], entity)
  }

  /** The four `replaceAll` calls of `escapeAttr`, in the source's order. */
  function EscapeAttrText(s: string): string {
    ReplaceAll(ReplaceAll(ReplaceAll(ReplaceAll(s, '&', Amp), '"', Quot), '<', Lt), '>', Gt)
  }

  /** The five `replaceAll` calls of `escapeHtml`, in the source's order. */
  function EscapeHtmlText(s: string): string {
    ReplaceAll(ReplaceAll(ReplaceAll(ReplaceAll(ReplaceAll(s, '&', Amp), '<', Lt), '>', Gt), '"', Quot), '\'', Apos)
  }

  /** The character an entity at the head of `s` stands for, and the
      entity's length; a head that is not one of the five stands for itself. */
  function DecodeHead(s: string): (r: (char, nat))
    requires s != []
    ensures 1 <= r.1 <= |s|
  {
    if s[0] != '&' then (s[0], 1)
    else if HasPrefix(s, Amp) then ('&', 5)
    else if HasPrefix(s, Quot) then ('"', 6)
    else if HasPrefix(s, Lt) then ('<', 4)
    else if HasPrefix(s, Gt) then ('>', 4)
    else if HasPrefix(s, Apos) then ('\'', 5)
    else ('&', 1)
  }

  /** Entity decoding of attribute values and text: the five entities the
      escapers produce are decoded, scanning left to right. */
  function Unescape(s: string): string
    decreases |s|
  {
    if s == [] then [] else [DecodeHead(s).0] + Unescape(s[DecodeHead(s).1..])
  }

  /** One of `names` begins at position `i` of `t`. */
  predicate EntityAt(t: string, i: nat, names: seq<string>)
    requires i <= |t|
  {
    exists k | 0 <= k < |names| :: HasPrefix(t[i..], names[k])
  }

  /** Every '&' of `r` starts one of `names`. */
  predicate AmpersandsStartEntities(r: string, names: seq<string>) {
    forall i :: 0 <= i < |r| && r[i] == '&' ==> EntityAt(r, i, names)
  }

  /** `entity` leaves a character other than '&' as it is or maps it to one of
      `names`, each of which starts with its only '&'. */
  ghost predicate EntityTable(entity: char -> string, names: seq<string>) {
    && (forall c :: (entity(c) == [c] && c != '&') || entity(c) in names)
    && (forall k :: 0 <= k < |names| ==> |names[k]| > 0 && names[k][0] == '&' && '&' !in names[k][1..])
  }

  lemma {:induction false} EncodeConcat(a: string, b: string, entity: char -> string)
    ensures Encode(a + b, entity) == Encode(a, entity) + Encode(b, entity)
  {
    if a == [] {
      assert a + b == b;
    } else {
      assert (a + b)[0] == a[0] && (a + b)[1..] == a[1..] + b;
      EncodeConcat(a[1..], b, entity);
    }
  }

  lemma EncodeOne(c: char, entity: char -> string)
    ensures Encode([c], entity) == entity(c)
  {
    assert [c][1..] == [];
  }

  lemma {:induction false} EncodeEmpty(s: string, entity: char -> string)
    requires forall c :: entity(c) != []
    ensures Encode(s, entity) == [] <==> s == []
  {
  }

  /** A character no entity contains is absent from the encoding. */
  lemma {:induction false} EncodeExcludes(s: string, entity: char -> string, d: char)
    requires forall c :: d !in entity(c)
    ensures d !in Encode(s, entity)
  {
    if s != [] {
      EncodeExcludes(s[1..], entity, d);
    }
  }

  /** In an encoding by an entity table, every '&' starts one of its entities. */
  lemma {:induction false} EncodeAmpersands(s: string, entity: char -> string, names: seq<string>)
    requires EntityTable(entity, names)
    ensures AmpersandsStartEntities(Encode(s, entity), names)
  {
    if s != [] {
      var e, rest := entity(s[0]), Encode(s[1..], entity);
      var r := e + rest;
      EncodeAmpersands(s[1..], entity, names);
      forall i | 0 <= i < |r| && r[i] == '&'
        ensures EntityAt(r, i, names)
      {
        if i < |e| {
          assert e in names;
          var k :| 0 <= k < |names| && names[k] == e;
          assert r[i..][..|e|] == e;
        } else {
          var j := i - |e|;
          assert r[i..] == rest[j..] && rest[j] == '&' && j < |rest|;
          assert AmpersandsStartEntities(rest, names);
          assert EntityAt(rest, j, names);
          var k :| 0 <= k < |names| && HasPrefix(rest[j..], names[k]);
          assert HasPrefix(r[i..], names[k]);
        }
      }
    }
  }

  /** Decoding inverts an encoding whose entities the decoder reads back one at a time. */
  lemma {:induction false} EncodeRoundTrip(s: string, entity: char -> string)
    requires forall c, t :: Unescape(entity(c) + t) == [c] + Unescape(t)
    ensures Unescape(Encode(s, entity)) == s
  {
    if s != [] {
      EncodeRoundTrip(s[1..], entity);
      assert s == [s[0]] + s[1..];
    }
  }

  /** Text without '&' decodes to itself. */
  lemma {:induction false} UnescapePlain(p: string, t: string)
    requires '&' !in p
    ensures Unescape(p + t) == p + Unescape(t)
  {
    if p == [] {
      assert p + t == t;
    } else {
      var u := p + t;
      assert u[0] == p[0] && u[0] != '&' && u[1..] == p[1..] + t;
      assert DecodeHead(u) == (p[0], 1);
      UnescapePlain(p[1..], t);
      assert p == [p[0]] + p[1..];
    }
  }

  /** Only a line feed escapes to something holding a line feed. */
  lemma HtmlEntityNoLineFeed(c: char)
    requires c != '\n'
    ensures '\n' !in HtmlEntity(c)
  {
  }

  lemma DecodeHeadHtmlEntity(c: char, t: string)
    ensures var e := HtmlEntity(c); DecodeHead(e + t) == (c, |e|)
  {
    var u := HtmlEntity(c) + t;
    if c == '&' {
      assert u[..5] == Amp;
    } else if c == '"' {
      assert u[..6] == Quot && u[1] == 'q';
    } else if c == '<' {
      assert u[..4] == Lt && u[1] == 'l';
    } else if c == '>' {
      assert u[..4] == Gt && u[1] == 'g';
    } else if c == '\'' {
      assert u[..5] == Apos && u[1] == '#';
    } else {
      assert u[0] == c;
    }
  }

  lemma UnescapeHtmlEntity(c: char, t: string)
    ensures Unescape(HtmlEntity(c) + t) == [c] + Unescape(t)
  {
    var e := HtmlEntity(c);
    DecodeHeadHtmlEntity(c, t);
    assert (e + t)[|e|..] == t;
  }

  lemma UnescapeAttrEntity(c: char, t: string)
    ensures Unescape(AttrEntity(c) + t) == [c] + Unescape(t)
  {
    if c == '\'' {
      var u := AttrEntity(c) + t;
      assert u[0] == c && u[1..] == t;
    } else {
      UnescapeHtmlEntity(c, t);
    }
  }

  lemma AttrEntitiesDecode()
    ensures forall c, t :: Unescape(AttrEntity(c) + t) == [c] + Unescape(t)
  {
    forall c, t ensures Unescape(AttrEntity(c) + t) == [c] + Unescape(t) {
      UnescapeAttrEntity(c, t);
    }
  }

  lemma HtmlEntitiesDecode()
    ensures forall c, t :: Unescape(HtmlEntity(c) + t) == [c] + Unescape(t)
  {
    forall c, t ensures Unescape(HtmlEntity(c) + t) == [c] + Unescape(t) {
      UnescapeHtmlEntity(c, t);
    }
  }

  lemma AttrEntityTable()
    ensures EntityTable(AttrEntity, AttrEntities)
  {
    forall k | 0 <= k < |AttrEntities|
      ensures '&' !in AttrEntities[k][1..]
    {
    }
  }

  lemma HtmlEntityTable()
    ensures EntityTable(HtmlEntity, HtmlEntities)
  {
    forall k | 0 <= k < |HtmlEntities|
      ensures '&' !in HtmlEntities[k][1..]
    {
    }
    forall c ensures (HtmlEntity(c) == [c] && c != '&') || HtmlEntity(c) in HtmlEntities {
      if c == '\'' {
        assert HtmlEntities[4] == Apos;
      } else if AttrEntity(c) != [c] {
        assert AttrEntity(c) in AttrEntities;
      }
    }
  }

  /** Which of the escaped characters each entity contains: only '&'. */
  lemma EntityChars()
    ensures forall e :: e in HtmlEntities ==> '<' !in e && '>' !in e && '"' !in e && '\'' !in e
  {
  }

  lemma EscapeAttrOnAmp(c: char)
    requires c == '&'
    ensures EscapeAttrText([c]) == Amp
  {
    EntityChars();
    var s1 := ReplaceAll([c], '&', Amp);
    var s2 := ReplaceAll(s1, '"', Quot);
    var s3 := ReplaceAll(s2, '<', Lt);
    var s4 := ReplaceAll(s3, '>', Gt);
    assert EscapeAttrText([c]) == s4;
    ReplaceAllChar(c, '&', Amp);
    assert s1 == Amp;
    ReplaceAllAbsent(Amp, '"', Quot);
    assert s2 == Amp;
    ReplaceAllAbsent(Amp, '<', Lt);
    assert s3 == Amp;
    ReplaceAllAbsent(Amp, '>', Gt);
    assert s4 == Amp;
  }

  lemma EscapeAttrOnQuot(c: char)
    requires c == '"'
    ensures EscapeAttrText([c]) == Quot
  {
    EntityChars();
    var s1 := ReplaceAll([c], '&', Amp);
    var s2 := ReplaceAll(s1, '"', Quot);
    var s3 := ReplaceAll(s2, '<', Lt);
    var s4 := ReplaceAll(s3, '>', Gt);
    assert EscapeAttrText([c]) == s4;
    ReplaceAllChar(c, '&', Amp);
    assert s1 == [c];
    ReplaceAllChar(c, '"', Quot);
    assert s2 == Quot;
    ReplaceAllAbsent(Quot, '<', Lt);
    assert s3 == Quot;
    ReplaceAllAbsent(Quot, '>', Gt);
    assert s4 == Quot;
  }

  lemma EscapeAttrOnLt(c: char)
    requires c == '<'
    ensures EscapeAttrText([c]) == Lt
  {
    EntityChars();
    var s1 := ReplaceAll([c], '&', Amp);
    var s2 := ReplaceAll(s1, '"', Quot);
    var s3 := ReplaceAll(s2, '<', Lt);
    var s4 := ReplaceAll(s3, '>', Gt);
    assert EscapeAttrText([c]) == s4;
    ReplaceAllChar(c, '&', Amp);
    assert s1 == [c];
    ReplaceAllChar(c, '"', Quot);
    assert s2 == [c];
    ReplaceAllChar(c, '<', Lt);
    assert s3 == Lt;
    ReplaceAllAbsent(Lt, '>', Gt);
    assert s4 == Lt;
  }

  lemma EscapeAttrOnGt(c: char)
    requires c == '>'
    ensures EscapeAttrText([c]) == Gt
  {
    EntityChars();
    var s1 := ReplaceAll([c], '&', Amp);
    var s2 := ReplaceAll(s1, '"', Quot);
    var s3 := ReplaceAll(s2, '<', Lt);
    var s4 := ReplaceAll(s3, '>', Gt);
    assert EscapeAttrText([c]) == s4;
    ReplaceAllChar(c, '&', Amp);
    assert s1 == [c];
    ReplaceAllChar(c, '"', Quot);
    assert s2 == [c];
    ReplaceAllChar(c, '<', Lt);
    assert s3 == [c];
    ReplaceAllChar(c, '>', Gt);
    assert s4 == Gt;
  }

  lemma EscapeAttrOnPlain(c: char)
    requires c != '&' && c != '"' && c != '<' && c != '>'
    ensures EscapeAttrText([c]) == [c]
  {
    var s1 := ReplaceAll([c], '&', Amp);
    var s2 := ReplaceAll(s1, '"', Quot);
    var s3 := ReplaceAll(s2, '<', Lt);
    var s4 := ReplaceAll(s3, '>', Gt);
    assert EscapeAttrText([c]) == s4;
    ReplaceAllChar(c, '&', Amp);
    assert s1 == [c];
    ReplaceAllChar(c, '"', Quot);
    assert s2 == [c];
    ReplaceAllChar(c, '<', Lt);
    assert s3 == [c];
    ReplaceAllChar(c, '>', Gt);
    assert s4 == [c];
  }

  /** The chain of `escapeAttr` on one character gives that character's entity. */
  lemma EscapeAttrChar(c: char)
    ensures EscapeAttrText([c]) == AttrEntity(c)
  {
    if c == '&' {
      EscapeAttrOnAmp(c);
    } else if c == '"' {
      EscapeAttrOnQuot(c);
    } else if c == '<' {
      EscapeAttrOnLt(c);
    } else if c == '>' {
      EscapeAttrOnGt(c);
    } else {
      EscapeAttrOnPlain(c);
    }
  }

  lemma EscapeHtmlOnAmp(c: char)
    requires c == '&'
    ensures EscapeHtmlText([c]) == Amp
  {
    EntityChars();
    var s1 := ReplaceAll([c], '&', Amp);
    var s2 := ReplaceAll(s1, '<', Lt);
    var s3 := ReplaceAll(s2, '>', Gt);
    var s4 := ReplaceAll(s3, '"', Quot);
    var s5 := ReplaceAll(s4, '\'', Apos);
    assert EscapeHtmlText([c]) == s5;
    ReplaceAllChar(c, '&', Amp);
    assert s1 == Amp;
    ReplaceAllAbsent(Amp, '<', Lt);
    assert s2 == Amp;
    ReplaceAllAbsent(Amp, '>', Gt);
    assert s3 == Amp;
    ReplaceAllAbsent(Amp, '"', Quot);
    assert s4 == Amp;
    ReplaceAllAbsent(Amp, '\'', Apos);
    assert s5 == Amp;
  }

  lemma EscapeHtmlOnLt(c: char)
    requires c == '<'
    ensures EscapeHtmlText([c]) == Lt
  {
    EntityChars();
    var s1 := ReplaceAll([c], '&', Amp);
    var s2 := ReplaceAll(s1, '<', Lt);
    var s3 := ReplaceAll(s2, '>', Gt);
    var s4 := ReplaceAll(s3, '"', Quot);
    var s5 := ReplaceAll(s4, '\'', Apos);
    assert EscapeHtmlText([c]) == s5;
    ReplaceAllChar(c, '&', Amp);
    assert s1 == [c];
    ReplaceAllChar(c, '<', Lt);
    assert s2 == Lt;
    ReplaceAllAbsent(Lt, '>', Gt);
    assert s3 == Lt;
    ReplaceAllAbsent(Lt, '"', Quot);
    assert s4 == Lt;
    ReplaceAllAbsent(Lt, '\'', Apos);
    assert s5 == Lt;
  }

  lemma EscapeHtmlOnGt(c: char)
    requires c == '>'
    ensures EscapeHtmlText([c]) == Gt
  {
    EntityChars();
    var s1 := ReplaceAll([c], '&', Amp);
    var s2 := ReplaceAll(s1, '<', Lt);
    var s3 := ReplaceAll(s2, '>', Gt);
    var s4 := ReplaceAll(s3, '"', Quot);
    var s5 := ReplaceAll(s4, '\'', Apos);
    assert EscapeHtmlText([c]) == s5;
    ReplaceAllChar(c, '&', Amp);
    assert s1 == [c];
    ReplaceAllChar(c, '<', Lt);
    assert s2 == [c];
    ReplaceAllChar(c, '>', Gt);
    assert s3 == Gt;
    ReplaceAllAbsent(Gt, '"', Quot);
    assert s4 == Gt;
    ReplaceAllAbsent(Gt, '\'', Apos);
    assert s5 == Gt;
  }

  lemma EscapeHtmlOnQuot(c: char)
    requires c == '"'
    ensures EscapeHtmlText([c]) == Quot
  {
    EntityChars();
    var s1 := ReplaceAll([c], '&', Amp);
    var s2 := ReplaceAll(s1, '<', Lt);
    var s3 := ReplaceAll(s2, '>', Gt);
    var s4 := ReplaceAll(s3, '"', Quot);
    var s5 := ReplaceAll(s4, '\'', Apos);
    assert EscapeHtmlText([c]) == s5;
    ReplaceAllChar(c, '&', Amp);
    assert s1 == [c];
    ReplaceAllChar(c, '<', Lt);
    assert s2 == [c];
    ReplaceAllChar(c, '>', Gt);
    assert s3 == [c];
    ReplaceAllChar(c, '"', Quot);
    assert s4 == Quot;
    ReplaceAllAbsent(Quot, '\'', Apos);
    assert s5 == Quot;
  }

  lemma EscapeHtmlOnApos(c: char)
    requires c == '\''
    ensures EscapeHtmlText([c]) == Apos
  {
    EntityChars();
    var s1 := ReplaceAll([c], '&', Amp);
    var s2 := ReplaceAll(s1, '<', Lt);
    var s3 := ReplaceAll(s2, '>', Gt);
    var s4 := ReplaceAll(s3, '"', Quot);
    var s5 := ReplaceAll(s4, '\'', Apos);
    assert EscapeHtmlText([c]) == s5;
    ReplaceAllChar(c, '&', Amp);
    assert s1 == [c];
    ReplaceAllChar(c, '<', Lt);
    assert s2 == [c];
    ReplaceAllChar(c, '>', Gt);
    assert s3 == [c];
    ReplaceAllChar(c, '"', Quot);
    assert s4 == [c];
    ReplaceAllChar(c, '\'', Apos);
    assert s5 == Apos;
  }

  lemma EscapeHtmlOnPlain(c: char)
    requires c != '&' && c != '<' && c != '>' && c != '"' && c != '\''
    ensures EscapeHtmlText([c]) == [c]
  {
    var s1 := ReplaceAll([c], '&', Amp);
    var s2 := ReplaceAll(s1, '<', Lt);
    var s3 := ReplaceAll(s2, '>', Gt);
    var s4 := ReplaceAll(s3, '"', Quot);
    var s5 := ReplaceAll(s4, '\'', Apos);
    assert EscapeHtmlText([c]) == s5;
    ReplaceAllChar(c, '&', Amp);
    assert s1 == [c];
    ReplaceAllChar(c, '<', Lt);
    assert s2 == [c];
    ReplaceAllChar(c, '>', Gt);
    assert s3 == [c];
    ReplaceAllChar(c, '"', Quot);
    assert s4 == [c];
    ReplaceAllChar(c, '\'', Apos);
    assert s5 == [c];
  }

  /** The chain of `escapeHtml` on one character gives that character's entity. */
  lemma EscapeHtmlChar(c: char)
    ensures EscapeHtmlText([c]) == HtmlEntity(c)
  {
    if c == '&' {
      EscapeHtmlOnAmp(c);
    } else if c == '<' {
      EscapeHtmlOnLt(c);
    } else if c == '>' {
      EscapeHtmlOnGt(c);
    } else if c == '"' {
      EscapeHtmlOnQuot(c);
    } else if c == '\'' {
      EscapeHtmlOnApos(c);
    } else {
      EscapeHtmlOnPlain(c);
    }
  }

  /** Running the replace chain of `escapeAttr` is encoding character by character:
      no replacement string contains a character a later step replaces. */
  lemma {:induction false} EscapeAttrIsEncode(s: string)
    ensures EscapeAttrText(s) == Encode(s, AttrEntity)
  {
    if s != [] {
      var a, b := [s[0]], s[1..];
      assert s == a + b;
      var a1, b1 := ReplaceAll(a, '&', Amp), ReplaceAll(b, '&', Amp);
      ReplaceAllConcat(a, b, '&', Amp);
      var a2, b2 := ReplaceAll(a1, '"', Quot), ReplaceAll(b1, '"', Quot);
      ReplaceAllConcat(a1, b1, '"', Quot);
      var a3, b3 := ReplaceAll(a2, '<', Lt), ReplaceAll(b2, '<', Lt);
      ReplaceAllConcat(a2, b2, '<', Lt);
      ReplaceAllConcat(a3, b3, '>', Gt);
      EscapeAttrChar(s[0]);
      EscapeAttrIsEncode(b);
    }
  }

  /** Running the replace chain of `escapeHtml` is encoding character by character. */
  lemma {:induction false} EscapeHtmlIsEncode(s: string)
    ensures EscapeHtmlText(s) == Encode(s, HtmlEntity)
  {
    if s != [] {
      var a, b := [s[0]], s[1..];
      assert s == a + b;
      var a1, b1 := ReplaceAll(a, '&', Amp), ReplaceAll(b, '&', Amp);
      ReplaceAllConcat(a, b, '&', Amp);
      var a2, b2 := ReplaceAll(a1, '<', Lt), ReplaceAll(b1, '<', Lt);
      ReplaceAllConcat(a1, b1, '<', Lt);
      var a3, b3 := ReplaceAll(a2, '>', Gt), ReplaceAll(b2, '>', Gt);
      ReplaceAllConcat(a2, b2, '>', Gt);
      var a4, b4 := ReplaceAll(a3, '"', Quot), ReplaceAll(b3, '"', Quot);
      ReplaceAllConcat(a3, b3, '"', Quot);
      ReplaceAllConcat(a4, b4, '\'', Apos);
      EscapeHtmlChar(s[0]);
      EscapeHtmlIsEncode(b);
    }
  }

  /** What an encoding by `AttrEntity` guarantees. */
  lemma AttrEncodingFacts(s: string)
    ensures var r := Encode(s, AttrEntity);
      && '<' !in r && '>' !in r && '"' !in r
      && AmpersandsStartEntities(r, AttrEntities)
      && Unescape(r) == s
      && (r == "" <==> s == "")
  {
    AttrEntityTable();
    EncodeAmpersands(s, AttrEntity, AttrEntities);
    AttrEncodingExcludes(s);
    EncodeEmpty(s, AttrEntity);
    AttrEntitiesDecode();
    EncodeRoundTrip(s, AttrEntity);
  }

  lemma AttrEncodingExcludes(s: string)
    ensures var r := Encode(s, AttrEntity); '<' !in r && '>' !in r && '"' !in r
  {
    EncodeExcludes(s, AttrEntity, '<');
    EncodeExcludes(s, AttrEntity, '>');
    EncodeExcludes(s, AttrEntity, '"');
  }

  /** What an encoding by `HtmlEntity` guarantees. */
  lemma HtmlEncodingFacts(s: string)
    ensures var r := Encode(s, HtmlEntity);
      && '<' !in r && '>' !in r && '"' !in r && '\'' !in r
      && AmpersandsStartEntities(r, HtmlEntities)
      && Unescape(r) == s
      && (r == "" <==> s == "")
  {
    HtmlEntityTable();
    EncodeAmpersands(s, HtmlEntity, HtmlEntities);
    HtmlEncodingExcludes(s);
    EncodeEmpty(s, HtmlEntity);
    HtmlEntitiesDecode();
    EncodeRoundTrip(s, HtmlEntity);
  }

  lemma HtmlEncodingExcludes(s: string)
    ensures var r := Encode(s, HtmlEntity); '<' !in r && '>' !in r && '"' !in r && '\'' !in r
  {
    EncodeExcludes(s, HtmlEntity, '<');
    EncodeExcludes(s, HtmlEntity, '>');
    EncodeExcludes(s, HtmlEntity, '"');
    EncodeExcludes(s, HtmlEntity, '\'');
  }

  /** `escapeAttr(str)`: no '<', '>' or '"' survives, every '&' starts one of
      the four entities, and decoding gives back `safeText(str, "")`. */
  function EscapeAttr(v: Value): (r: string)
    ensures '<' !in r && '>' !in r && '"' !in r
    ensures AmpersandsStartEntities(r, AttrEntities)
    ensures Unescape(r) == SafeText(v, "")
    ensures r == "" <==> SafeText(v, "") == ""
  {
    var s := SafeText(v, "");
    EscapeAttrIsEncode(s);
    AttrEncodingFacts(s);
    EscapeAttrText(s)
  }

  /** `escapeHtml(str)`: the guarantees of `EscapeAttr`, over five entities,
      and no '\'' survives either. */
  function EscapeHtml(v: Value): (r: string)
    ensures '<' !in r && '>' !in r && '"' !in r && '\'' !in r
    ensures AmpersandsStartEntities(r, HtmlEntities)
    ensures Unescape(r) == SafeText(v, "")
    ensures r == "" <==> SafeText(v, "") == ""
  {
    var s := SafeText(v, "");
    EscapeHtmlIsEncode(s);
    HtmlEncodingFacts(s);
    EscapeHtmlText(s)
  }
}
