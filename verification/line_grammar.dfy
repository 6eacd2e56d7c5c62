/**
 * The GEDCOM line grammar of src/parsers/parse_gedcom_line.rs:
 *
 *   level [ " @" xref "@" ] " " tag [ " " value ] terminator
 *
 * where level is one or two decimal digits, xref one or more alphanumerics,
 * tag one to thirty-two alphanumerics or underscores, value one or more
 * characters other than a line break, and the terminator mandatory.
 * A successful parse returns the text after the terminator.
 */
module LineGrammar {

  import opened Options
  import opened Scan
  import opened Decimals

  /** `GedcomLine`: the fields of one parsed line. */
  datatype Line = Line(level: nat, xrefId: Option<string>, tag: string, value: Option<string>)

  /** `char::is_alphanumeric`, restricted to the ASCII letters and digits. */
  predicate IsAlphanumeric(c: char)
  {
    'a' <= c <= 'z' || 'A' <= c <= 'Z' || '0' <= c <= '9'
  }

  predicate IsAlphanumericOrUnderscore(c: char)
  {
    IsAlphanumeric(c) || c == '_'
  }

  // ----- level -----

  /** `parse_level`: one or two decimal digits read as a `u8`. */
  function ParseLevel(s: string): ParseResult<nat>
  {
    ParseOneOrTwoDigits(s)
  }

  // ----- cross-reference identifier -----

  function ParseXrefId(s: string): (r: ParseResult<string>)
    ensures r.Done? ==> IsSuffix(r.rest, s) && ValidXref(r.value)
  {
    match Literal(s, "@")
    case Fail(at) => Fail(at)
    case Done(s1, _) =>
      match TakeWhile1(s1, IsAlphanumeric)
      case Fail(at) => Fail(at)
      case Done(s2, id) =>
        match Literal(s2, "@")
        case Fail(at) => Fail(at)
        case Done(s3, _) => Done(s3, id)
  }

  // ----- tag -----

  function ParseTag(s: string): (r: ParseResult<string>)
    ensures r.Done? <==> s != [] && IsAlphanumericOrUnderscore(s[0])
    ensures r.Done? ==> ValidTag(r.value) && IsSuffix(r.rest, s) && |s| == |r.value| + |r.rest|
    ensures r.Done? && |r.value| < 32 && r.rest != [] ==> !IsAlphanumericOrUnderscore(r.rest[0])
  {
    TakeWhileMN(s, 1, 32, IsAlphanumericOrUnderscore)
  }

  // ----- line value -----

  /** `is_terminator`: a carriage return or a line feed (see `IsTerminatorParses`). */
  predicate IsTerminator(c: char)
  {
    c == '\r' || c == '\n'
  }

  function ParseLineValue(s: string): (r: ParseResult<string>)
    ensures r.Done? <==> s != [] && s[0] != '\r' && s[0] != '\n'
    ensures r.Done? ==> ValidValue(r.value) && IsSuffix(r.rest, s) && |s| == |r.value| + |r.rest|
    ensures r.Done? && r.rest != [] ==> r.rest[0] == '\r' || r.rest[0] == '\n'
  {
    TakeTill1(s, IsTerminator)
  }

  // ----- delimiter and terminator -----

  function ParseDelim(s: string): (r: ParseResult<string>)
    ensures r.Done? <==> s != [] && s[0] == ' '
    ensures r.Done? ==> IsSuffix(r.rest, s) && |s| == 1 + |r.rest|
  {
    Literal(s, " ")
  }

  /**
   * The terminator alternatives as written: "\r\n", "\r\n" a second time,
   * "\r", "\n".  The listed "\n\r" is not among them, so "\n\r" consumes
   * only its "\n".
   */
  function ParseTerminator(s: string): (r: ParseResult<string>)
    ensures r.Done? <==> s != [] && (s[0] == '\r' || s[0] == '\n')
    ensures r.Done? ==> IsSuffix(r.rest, s) && |s| == |r.value| + |r.rest|
    ensures r.Done? ==> r.value == (if |s| >= 2 && s[..2] == "\r\n" then "\r\n" else [s[0]])
    ensures r.Done? ==> s[|s| - |r.rest| - 1] == '\r' || s[|s| - |r.rest| - 1] == '\n'
  {
    var crlf := Literal(s, "\r\n");
    if crlf.Done? then crlf
    else
      var again := Literal(s, "\r\n");
      if again.Done? then again
      else
        var cr := Literal(s, "\r");
        if cr.Done? then cr else Literal(s, "\n")
  }

  /** `is_terminator` is written as "this one character parses as a terminator"; that is exactly a carriage return or a line feed. */
  lemma IsTerminatorParses(c: char)
    ensures IsTerminator(c) <==> ParseTerminator([c]).Done?
  {
  }

  // ----- the whole line -----

  predicate ValidXref(x: string)
  {
    |x| >= 1 && forall i :: 0 <= i < |x| ==> IsAlphanumeric(x[i])
  }

  predicate ValidTag(t: string)
  {
    1 <= |t| <= 32 && forall i :: 0 <= i < |t| ==> IsAlphanumericOrUnderscore(t[i])
  }

  predicate ValidValue(v: string)
  {
    |v| >= 1 && forall i :: 0 <= i < |v| ==> v[i] != '\r' && v[i] != '\n'
  }

  /** The lines the grammar can produce. */
  predicate ValidLine(l: Line)
  {
    && l.level < 100
    && (l.xrefId.Some? ==> ValidXref(l.xrefId.value))
    && ValidTag(l.tag)
    && (l.value.Some? ==> ValidValue(l.value.value))
  }

  /** The character of `s` just before its suffix `rest` is a line break. */
  predicate BreakBefore(s: string, rest: string)
  {
    |rest| < |s| && (s[|s| - |rest| - 1] == '\r' || s[|s| - |rest| - 1] == '\n')
  }

  /** `opt(preceded(parse_delim, parse_xref_id))` */
  function OptXref(s: string): (r: ParseResult<Option<string>>)
    ensures r.Done?
    ensures r.value.Some? ==> IsSuffix(r.rest, s) && ValidXref(r.value.value)
    ensures r.value.None? ==> r.rest == s
  {
    match ParseDelim(s)
    case Fail(_) => Done(s, None)
    case Done(s1, _) =>
      match ParseXrefId(s1)
      case Fail(_) => Done(s, None)
      case Done(s2, id) => Done(s2, Some(id))
  }

  /** `opt(preceded(parse_delim, parse_line_value))` */
  function OptValue(s: string): (r: ParseResult<Option<string>>)
    ensures r.Done?
    ensures r.value.Some? ==> IsSuffix(r.rest, s) && ValidValue(r.value.value)
    ensures r.value.Some? && r.rest != [] ==> r.rest[0] == '\r' || r.rest[0] == '\n'
    ensures r.value.None? ==> r.rest == s
  {
    match ParseDelim(s)
    case Fail(_) => Done(s, None)
    case Done(s1, _) =>
      match ParseLineValue(s1)
      case Fail(_) => Done(s, None)
      case Done(s2, v) => Done(s2, Some(v))
  }

  /**
   * `parse_gedcom_line`.  A parsed line is always valid, the input ends with
   * the returned rest, and the last character consumed is a line break.
   */
  function ParseGedcomLine(s: string): (r: ParseResult<Line>)
    ensures r.Done? ==> ValidLine(r.value)
  {
    match ParseLevel(s)
    case Fail(at) => Fail(at)
    case Done(s1, level) =>
      var x := OptXref(s1);
      match ParseDelim(x.rest)
      case Fail(at) => Fail(at)
      case Done(s3, _) =>
        match ParseTag(s3)
        case Fail(at) => Fail(at)
        case Done(s4, tag) =>
          var v := OptValue(s4);
          match ParseTerminator(v.rest)
          case Fail(at) => Fail(at)
          case Done(s6, term) =>
            Done(s6, Line(level, x.value, tag, v.value))
  }

  /** A parsed line leaves a suffix of its input, just after a line break. */
  lemma ParsedLineConsumesThroughBreak(s: string)
    ensures ParseGedcomLine(s).Done? ==> IsSuffix(ParseGedcomLine(s).rest, s) && BreakBefore(s, ParseGedcomLine(s).rest)
  {
    var r := ParseGedcomLine(s);
    if r.Done? {
      var l := ParseLevel(s);
      var x := OptXref(l.rest);
      var d := ParseDelim(x.rest);
      var t := ParseTag(d.rest);
      var v := OptValue(t.rest);
      var e := ParseTerminator(v.rest);
      ConsumedThroughTerminator(s, l.rest, x.rest, d.rest, t.rest, v.rest, e.rest);
    }
  }

  /** The suffix chain of the six steps of a line: the rest is a suffix of the input, just after a line break. */
  lemma ConsumedThroughTerminator(s: string, s1: string, s2: string, s3: string, s4: string, s5: string, s6: string)
    requires IsSuffix(s1, s) && IsSuffix(s2, s1) && IsSuffix(s3, s2) && IsSuffix(s4, s3) && IsSuffix(s5, s4)
    requires IsSuffix(s6, s5) && |s6| < |s5| && (s5[|s5| - |s6| - 1] == '\r' || s5[|s5| - |s6| - 1] == '\n')
    ensures IsSuffix(s6, s) && BreakBefore(s, s6)
  {
    SuffixTransitive(s2, s1, s);
    SuffixTransitive(s3, s2, s);
    SuffixTransitive(s4, s3, s);
    SuffixTransitive(s5, s4, s);
    SuffixTransitive(s6, s5, s);
    assert s[|s| - |s5|..] == s5;
    assert s[|s| - |s6| - 1] == s5[|s5| - |s6| - 1];
  }

  // ----- rendering a line, and parsing it back -----

  function XrefText(x: Option<string>): string
  {
    if x.Some? then " @" + x.value + "@" else ""
  }

  function ValueText(v: Option<string>): string
  {
    if v.Some? then " " + v.value else ""
  }

  /** The text of a line as the grammar writes it, ended by a line feed. */
  function Render(l: Line): string
  {
    DecimalText(l.level) + XrefText(l.xrefId) + " " + l.tag + ValueText(l.value) + "\n"
  }

  lemma LevelOn(level: nat, rest: string)
    requires level < 100 && rest != [] && rest[0] == ' '
    ensures ParseLevel(DecimalText(level) + rest) == Done(rest, level)
  {
    OneOrTwoDigitsOn(level, rest);
  }

  lemma XrefIdOn(id: string, rest: string)
    requires ValidXref(id)
    ensures ParseXrefId("@" + (id + ("@" + rest))) == Done(rest, id)
  {
    LiteralOn("@", id + ("@" + rest));
    TakeWhile1On(id, "@" + rest, IsAlphanumeric);
    LiteralOn("@", rest);
  }

  lemma OptXrefOn(x: Option<string>, rest: string)
    requires x.Some? ==> ValidXref(x.value)
    requires rest != [] && rest[0] == ' ' && (|rest| >= 2 ==> rest[1] != '@')
    ensures OptXref(XrefText(x) + rest) == Done(rest, x)
  {
    if x.Some? {
      var after := "@" + (x.value + ("@" + rest));
      assert XrefText(x) + rest == " " + after;
      assert ParseDelim(" " + after) == Done(after, " ") by { LiteralOn(" ", after); }
      XrefIdOn(x.value, rest);
    } else {
      assert XrefText(x) + rest == rest;
      assert rest == " " + rest[1..];
      LiteralOn(" ", rest[1..]);
    }
  }

  lemma TagOn(tag: string, rest: string)
    requires ValidTag(tag) && (|tag| == 32 || rest == [] || !IsAlphanumericOrUnderscore(rest[0]))
    ensures ParseTag(tag + rest) == Done(rest, tag)
  {
    TakeWhileMNOn(tag, rest, 1, 32, IsAlphanumericOrUnderscore);
  }

  lemma OptValueOn(v: Option<string>, rest: string)
    requires v.Some? ==> ValidValue(v.value)
    requires rest != [] && rest[0] == '\n'
    ensures OptValue(ValueText(v) + rest) == Done(rest, v)
  {
    if v.Some? {
      assert ValueText(v) + rest == " " + (v.value + rest);
      LiteralOn(" ", v.value + rest);
      TakeTill1On(v.value, rest, IsTerminator);
    } else {
      assert ValueText(v) + rest == rest;
    }
  }

  lemma LineFeedOn(rest: string)
    ensures ParseTerminator("\n" + rest) == Done(rest, "\n")
  {
    LiteralOn("\n", rest);
  }

  /** `Render(l) + rest`, regrouped to the right the way the parser consumes it. */
  lemma RenderThen(l: Line, rest: string)
    ensures Render(l) + rest
      == DecimalText(l.level) + (XrefText(l.xrefId) + (" " + (l.tag + (ValueText(l.value) + ("\n" + rest)))))
  {
  }

  /** The last two steps of a line, after its level, identifier, delimiter and tag: an optional value, then the terminator. */
  function LineTail(s: string, level: nat, xrefId: Option<string>, tag: string): ParseResult<Line>
  {
    var v := OptValue(s);
    match ParseTerminator(v.rest)
    case Fail(at) => Fail(at)
    case Done(rest, _) => Done(rest, Line(level, xrefId, tag, v.value))
  }

  /** A line whose first four steps succeed continues exactly as its tail. */
  lemma HeadSteps(s: string, t1: string, t2: string, t3: string, t4: string, level: nat, xrefId: Option<string>, tag: string)
    requires ParseLevel(s) == Done(t1, level)
    requires OptXref(t1) == Done(t2, xrefId)
    requires ParseDelim(t2) == Done(t3, " ")
    requires ParseTag(t3) == Done(t4, tag)
    ensures ParseGedcomLine(s) == LineTail(t4, level, xrefId, tag)
  {
  }

  /**
   * A rendered level, identifier, delimiter and tag are read back as such, provided the tag is not
   * continued by a further tag character; the line then continues as its tail.
   */
  lemma ParseHead(level: nat, xrefId: Option<string>, tag: string, t4: string)
    requires level < 100 && (xrefId.Some? ==> ValidXref(xrefId.value)) && ValidTag(tag)
    requires |tag| == 32 || t4 == [] || !IsAlphanumericOrUnderscore(t4[0])
    ensures ParseGedcomLine(DecimalText(level) + (XrefText(xrefId) + (" " + (tag + t4))))
         == LineTail(t4, level, xrefId, tag)
  {
    var t3 := tag + t4;
    var t2 := " " + t3;
    var t1 := XrefText(xrefId) + t2;
    var s := DecimalText(level) + t1;
    assert ParseLevel(s) == Done(t1, level) by {
      assert t1[0] == ' ';
      LevelOn(level, t1);
    }
    assert OptXref(t1) == Done(t2, xrefId) by {
      assert t2[1] == tag[0];
      OptXrefOn(xrefId, t2);
    }
    assert ParseDelim(t2) == Done(t3, " ") by { LiteralOn(" ", t3); }
    assert ParseTag(t3) == Done(t4, tag) by { TagOn(tag, t4); }
    HeadSteps(s, t1, t2, t3, t4, level, xrefId, tag);
  }

  /** Every valid line, rendered and followed by any text, parses back to itself and leaves exactly that text. */
  lemma RenderParses(l: Line, rest: string)
    requires ValidLine(l)
    ensures ParseGedcomLine(Render(l) + rest) == Done(rest, l)
  {
    var t5 := "\n" + rest;
    var t4 := ValueText(l.value) + t5;
    RenderThen(l, rest);
    assert t4[0] == ' ' || t4[0] == '\n';
    ParseHead(l.level, l.xrefId, l.tag, t4);
    assert OptValue(t4) == Done(t5, l.value) by { OptValueOn(l.value, t5); }
    assert ParseTerminator(t5) == Done(rest, "\n") by { LineFeedOn(rest); }
  }
}
