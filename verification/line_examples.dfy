/**
 * The behaviour the unit tests of src/parsers/parse_gedcom_line.rs describe,
 * and a few edge cases of the grammar, as consequences of the model.
 */
module LineExamples {

  import opened Options
  import opened Scan
  import opened Decimals
  import opened LineGrammar

  lemma ValueLine()
    ensures ParseGedcomLine("0 TAG Some value\n") == Done("", Line(0, None, "TAG", Some("Some value")))
  {
    var l := Line(0, None, "TAG", Some("Some value"));
    assert Render(l) == "0 TAG Some value\n";
    RenderParses(l, "");
    assert Render(l) + "" == Render(l);
  }

  lemma DoubleDigitLevel()
    ensures ParseGedcomLine("10 TAG Some value\n") == Done("", Line(10, None, "TAG", Some("Some value")))
  {
    var l := Line(10, None, "TAG", Some("Some value"));
    assert DecimalText(10) == "10";
    assert Render(l) == "10 TAG Some value\n";
    RenderParses(l, "");
    assert Render(l) + "" == Render(l);
  }

  lemma NoLineValue()
    ensures ParseGedcomLine("0 TAG\n") == Done("", Line(0, None, "TAG", None))
  {
    var l := Line(0, None, "TAG", None);
    assert Render(l) == "0 TAG\n";
    RenderParses(l, "");
    assert Render(l) + "" == Render(l);
  }

  lemma WithXrefId()
    ensures ParseGedcomLine("0 @I1@ INDI\n1 NAME\n") == Done("1 NAME\n", Line(0, Some("I1"), "INDI", None))
  {
    var l := Line(0, Some("I1"), "INDI", None);
    assert Render(l) + "1 NAME\n" == "0 @I1@ INDI\n1 NAME\n" by {
      assert DecimalText(0) == "0";
      assert XrefText(l.xrefId) == " @I1@";
      assert ValueText(l.value) == "";
    }
    RenderParses(l, "1 NAME\n");
  }

  lemma NoLevel()
    ensures ParseGedcomLine("TAG Some value\n").Fail?
  {
  }

  /** A level of three digits is rejected: the level stops after two and no delimiter follows. */
  lemma ThreeDigitLevelRejected(digits: string, rest: string)
    requires |digits| == 3 && AllDigits(digits)
    ensures ParseGedcomLine(digits + rest).Fail?
  {
    var t1 := digits[2..] + rest;
    assert digits + rest == digits[..2] + t1;
    TakeWhileMNOn(digits[..2], t1, 1, 2, IsDecimalDigit);
    assert t1[0] == digits[2];
  }

  /** Thirty-two tag characters followed by a thirty-third make the line fail, whatever follows. */
  lemma OverlongTagRejected(level: nat, tag: string, c: char, rest: string)
    requires level < 100 && ValidTag(tag) && |tag| == 32 && IsAlphanumericOrUnderscore(c)
    ensures ParseGedcomLine(DecimalText(level) + (XrefText(None) + (" " + (tag + ([c] + rest))))).Fail?
  {
    ParseHead(level, None, tag, [c] + rest);
  }

  /** A space before the line break opens a value that is then missing, so the line is rejected. */
  lemma TrailingSpaceRejected(level: nat, tag: string, lineBreak: char, rest: string)
    requires level < 100 && ValidTag(tag) && IsTerminator(lineBreak)
    ensures ParseGedcomLine(DecimalText(level) + (XrefText(None) + (" " + (tag + (" " + ([lineBreak] + rest)))))).Fail?
  {
    ParseHead(level, None, tag, " " + ([lineBreak] + rest));
    LiteralOn(" ", [lineBreak] + rest);
  }

  /** "\n\r" is not one of the alternatives tried: it consumes only its line feed. */
  lemma LineFeedCarriageReturn()
    ensures ParseTerminator("\n\r") == Done("\r", "\n")
  {
    LiteralOn("\n", "\r");
    assert "\n\r" == "\n" + "\r";
  }

  lemma CarriageReturnLineFeed()
    ensures ParseTerminator("\r\nX") == Done("X", "\r\n")
  {
    LiteralOn("\r\n", "X");
    assert "\r\nX" == "\r\n" + "X";
  }
}
