/**
 * The earlier line grammar of src/parse_gedcom_line.rs:
 *
 *   level " " tag " " value terminator
 *
 * It differs from the grammar of `LineGrammar` in four ways: there is no
 * cross-reference identifier, the tag admits no underscore, the delimiter
 * after the tag is mandatory and the value may be empty, and "\n\r" is one
 * of the terminators.
 */
module LegacyLine {

  import opened Scan
  import opened Decimals
  import opened LineGrammar

  /** `GedcomLine` of the earlier parser: the value is always present, possibly empty. */
  datatype LegacyLine = LegacyLine(level: nat, tag: string, value: string)

  /** `parse_tag`: one to thirty-two alphanumerics. */
  function LegacyTag(s: string): (r: ParseResult<string>)
    ensures r.Done? <==> s != [] && IsAlphanumeric(s[0])
    ensures r.Done? ==> ValidLegacyTag(r.value) && IsSuffix(r.rest, s) && |s| == |r.value| + |r.rest|
    ensures r.Done? && |r.value| < 32 && r.rest != [] ==> !IsAlphanumeric(r.rest[0])
  {
    TakeWhileMN(s, 1, 32, IsAlphanumeric)
  }

  /** `parse_line_value`: everything up to the first line break, possibly nothing. */
  function LegacyValue(s: string): (r: ParseResult<string>)
    ensures r.Done? && NoLineBreak(r.value) && IsSuffix(r.rest, s) && |s| == |r.value| + |r.rest|
    ensures r.rest != [] ==> IsTerminator(r.rest[0])
  {
    TakeTill(s, IsTerminator)
  }

  /** `parse_terminator`: the alternatives "\r\n", "\n\r", "\r", "\n", tried in that order. */
  function LegacyTerminator(s: string): (r: ParseResult<string>)
    ensures r.Done? <==> s != [] && IsTerminator(s[0])
    ensures r.Done? ==> IsSuffix(r.rest, s) && |s| == |r.value| + |r.rest|
    ensures r.Done? ==> r.value == if |s| >= 2 && (s[..2] == "\r\n" || s[..2] == "\n\r") then s[..2] else [s[0]]
  {
    var crlf := Literal(s, "\r\n");
    if crlf.Done? then crlf
    else
      var lfcr := Literal(s, "\n\r");
      if lfcr.Done? then lfcr
      else
        var cr := Literal(s, "\r");
        if cr.Done? then cr else Literal(s, "\n")
  }

  predicate ValidLegacyTag(t: string)
  {
    1 <= |t| <= 32 && forall i :: 0 <= i < |t| ==> IsAlphanumeric(t[i])
  }

  predicate NoLineBreak(v: string)
  {
    forall i :: 0 <= i < |v| ==> !IsTerminator(v[i])
  }

  predicate ValidLegacyLine(l: LegacyLine)
  {
    l.level < 100 && ValidLegacyTag(l.tag) && NoLineBreak(l.value)
  }

  /** `parse_gedcom_line` of the earlier parser: its six steps in sequence. A parsed line is always valid. */
  function ParseLegacyLine(s: string): (r: ParseResult<LegacyLine>)
    ensures r.Done? ==> ValidLegacyLine(r.value)
  {
    match ParseLevel(s)
    case Fail(at) => Fail(at)
    case Done(s1, level) =>
      match ParseDelim(s1)
      case Fail(at) => Fail(at)
      case Done(s2, _) =>
        match LegacyTag(s2)
        case Fail(at) => Fail(at)
        case Done(s3, tag) => LegacyTail(s3, level, tag)
  }

  /** The last three steps, after the tag: the delimiter, the value and the terminator. */
  function LegacyTail(s: string, level: nat, tag: string): (r: ParseResult<LegacyLine>)
    ensures r.Done? ==> r.value.level == level && r.value.tag == tag && NoLineBreak(r.value.value)
  {
    match ParseDelim(s)
    case Fail(at) => Fail(at)
    case Done(s1, _) =>
      var v := LegacyValue(s1);
      match LegacyTerminator(v.rest)
      case Fail(at) => Fail(at)
      case Done(rest, _) => Done(rest, LegacyLine(level, tag, v.value))
  }

  // ----- rendering a line, and parsing it back -----

  /** The text of a line as the earlier grammar writes it, ended by a line feed. */
  function RenderLegacy(l: LegacyLine): string
  {
    DecimalText(l.level) + " " + l.tag + " " + l.value + "\n"
  }

  lemma RenderLegacyThen(l: LegacyLine, rest: string)
    ensures RenderLegacy(l) + rest == DecimalText(l.level) + (" " + (l.tag + (" " + (l.value + ("\n" + rest)))))
  {
  }

  /** A rendered level, delimiter and tag are read back as such, and the line continues as its tail. */
  lemma LegacyHead(level: nat, tag: string, t3: string)
    requires level < 100 && ValidLegacyTag(tag)
    requires |tag| == 32 || t3 == [] || !IsAlphanumeric(t3[0])
    ensures ParseLegacyLine(DecimalText(level) + (" " + (tag + t3))) == LegacyTail(t3, level, tag)
  {
    var t2 := tag + t3;
    var t1 := " " + t2;
    assert ParseLevel(DecimalText(level) + t1) == Done(t1, level) by { LevelOn(level, t1); }
    assert ParseDelim(t1) == Done(t2, " ") by { LiteralOn(" ", t2); }
    assert LegacyTag(t2) == Done(t3, tag) by { TakeWhileMNOn(tag, t3, 1, 32, IsAlphanumeric); }
  }

  lemma LegacyValueOn(v: string, rest: string)
    requires NoLineBreak(v) && rest != [] && IsTerminator(rest[0])
    ensures LegacyValue(v + rest) == Done(rest, v)
  {
    TakeWhileMNOn(v, rest, 0, |v + rest|, c => !IsTerminator(c));
  }

  /** The tail " " value terminator is read back, with "\n" as the terminator when no carriage return follows it. */
  lemma LegacyTailOn(level: nat, tag: string, v: string, term: string, rest: string)
    requires NoLineBreak(v)
    requires term == "\n\r" || (term == "\n" && (rest == [] || rest[0] != '\r'))
    ensures LegacyTail(" " + (v + (term + rest)), level, tag) == Done(rest, LegacyLine(level, tag, v))
  {
    var t5 := term + rest;
    var t4 := v + t5;
    assert ParseDelim(" " + t4) == Done(t4, " ") by { LiteralOn(" ", t4); }
    assert LegacyValue(t4) == Done(t5, v) by { LegacyValueOn(v, t5); }
    assert LegacyTerminator(t5) == Done(rest, term) by {
      LiteralOn(term, rest);
      if term == "\n" { assert t5[..1] == "\n"; }
    }
  }

  /**
   * A valid line, rendered and followed by text that does not start with a
   * carriage return, parses back to itself and leaves exactly that text.  A
   * following carriage return would be taken into the terminator "\n\r".
   */
  lemma RenderLegacyParses(l: LegacyLine, rest: string)
    requires ValidLegacyLine(l)
    requires rest == [] || rest[0] != '\r'
    ensures ParseLegacyLine(RenderLegacy(l) + rest) == Done(rest, l)
  {
    RenderLegacyThen(l, rest);
    LegacyHead(l.level, l.tag, " " + (l.value + ("\n" + rest)));
    LegacyTailOn(l.level, l.tag, l.value, "\n", rest);
  }

  /** With a carriage return after the rendered line, the terminator "\n\r" takes it. */
  lemma RenderLegacyThenCarriageReturn(l: LegacyLine, rest: string)
    requires ValidLegacyLine(l)
    ensures ParseLegacyLine(RenderLegacy(l) + ("\r" + rest)) == Done(rest, l)
  {
    RenderLegacyThen(l, "\r" + rest);
    assert "\n" + ("\r" + rest) == "\n\r" + rest;
    LegacyHead(l.level, l.tag, " " + (l.value + ("\n\r" + rest)));
    LegacyTailOn(l.level, l.tag, l.value, "\n\r", rest);
  }

  /** A tag with no delimiter after it is rejected: the earlier grammar demands the delimiter even when the value is empty. */
  lemma LegacyValueRequiresDelimiter(level: nat, tag: string, rest: string)
    requires level < 100 && ValidLegacyTag(tag)
    ensures ParseLegacyLine(DecimalText(level) + (" " + (tag + ("\n" + rest)))).Fail?
  {
    LegacyHead(level, tag, "\n" + rest);
  }

  lemma LegacyValueLine()
    ensures ParseLegacyLine("0 TAG Some value\n") == Done("", LegacyLine(0, "TAG", "Some value"))
  {
    var l := LegacyLine(0, "TAG", "Some value");
    assert RenderLegacy(l) + "" == "0 TAG Some value\n" by { assert DecimalText(0) == "0"; }
    RenderLegacyParses(l, "");
  }

  lemma LegacyDoubleDigitLevel()
    ensures ParseLegacyLine("10 TAG Some value\n") == Done("", LegacyLine(10, "TAG", "Some value"))
  {
    var l := LegacyLine(10, "TAG", "Some value");
    assert RenderLegacy(l) + "" == "10 TAG Some value\n" by { assert DecimalText(10) == "10"; }
    RenderLegacyParses(l, "");
  }

  /** "0 TAG \n" is accepted with an empty value. */
  lemma LegacyEmptyValue()
    ensures ParseLegacyLine("0 TAG \n") == Done("", LegacyLine(0, "TAG", ""))
  {
    var l := LegacyLine(0, "TAG", "");
    assert RenderLegacy(l) + "" == "0 TAG \n" by { assert DecimalText(0) == "0"; }
    RenderLegacyParses(l, "");
  }

  lemma LegacyNoLevel()
    ensures ParseLegacyLine("TAG Some value\n").Fail?
  {
  }

  /** A level of three digits is rejected: the level takes at most two, and no delimiter follows them. */
  lemma LegacyThreeDigitLevelRejected(digits: string, rest: string)
    requires |digits| == 3 && AllDigits(digits)
    ensures ParseLegacyLine(digits + rest).Fail?
  {
    var t1 := digits[2..] + rest;
    assert digits + rest == digits[..2] + t1;
    TakeWhileMNOn(digits[..2], t1, 1, 2, IsDecimalDigit);
    assert t1[0] == digits[2];
  }

  /** A tag of thirty-three alphanumerics is rejected: the tag takes thirty-two, and no delimiter follows them. */
  lemma LegacyOverlongTagRejected(level: nat, tag: string, c: char, rest: string)
    requires level < 100 && ValidLegacyTag(tag) && |tag| == 32 && IsAlphanumeric(c)
    ensures ParseLegacyLine(DecimalText(level) + (" " + (tag + ([c] + rest)))).Fail?
  {
    LegacyHead(level, tag, [c] + rest);
  }
}
