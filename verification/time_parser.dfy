/**
 * The time parser of src/parsers/parse_time_value.rs:
 *
 *   hours ":" minutes [":" seconds]
 *
 * each component one or two digits read as a `u8`.  No range validation takes
 * place; the text after the last component is returned untouched.
 */
module TimeParser {

  import opened Options
  import opened Scan
  import opened Decimals
  import opened Calendar

  /** `parse_hours` */
  function ParseHours(s: string): ParseResult<nat>
  {
    ParseOneOrTwoDigits(s)
  }

  /** `parse_minutes` */
  function ParseMinutes(s: string): ParseResult<nat>
  {
    ParseOneOrTwoDigits(s)
  }

  /** `parse_seconds` */
  function ParseSeconds(s: string): ParseResult<nat>
  {
    ParseOneOrTwoDigits(s)
  }

  /** `parse_separator` */
  function ParseSeparator(s: string): (r: ParseResult<string>)
    ensures r.Done? <==> s != [] && s[0] == ':'
    ensures r.Done? ==> r.rest == s[1..]
  {
    Literal(s, ":")
  }

  /**
   * `opt(preceded(parse_separator, parse_seconds))`: a separator followed by
   * seconds, or nothing at all; when either part fails the input is left
   * as it was.
   */
  function OptSeconds(s: string): (r: ParseResult<Option<nat>>)
    ensures r.Done?
    ensures r.value.Some? ==> r.value.value < 100 && IsSuffix(r.rest, s) && |r.rest| < |s| - 1
    ensures r.value.None? ==> r.rest == s
  {
    match ParseSeparator(s)
    case Fail(_) => Done(s, None)
    case Done(s1, _) =>
      match ParseSeconds(s1)
      case Fail(_) => Done(s, None)
      case Done(rest, seconds) =>
        assert IsSuffix(s1, s);
        SuffixTransitive(rest, s1, s);
        Done(rest, Some(seconds))
  }

  /** `parse_time_value` */
  function ParseTimeValue(s: string): (r: ParseResult<TimeValue>)
    ensures r.Done? ==> r.value.hours < 100 && r.value.minutes < 100
    ensures r.Done? && r.value.seconds.Some? ==> r.value.seconds.value < 100
  {
    match ParseHours(s)
    case Fail(at) => Fail(at)
    case Done(s1, hours) =>
      match ParseSeparator(s1)
      case Fail(at) => Fail(at)
      case Done(s2, _) =>
        match ParseMinutes(s2)
        case Fail(at) => Fail(at)
        case Done(s3, minutes) =>
          match OptSeconds(s3)
          case Done(rest, seconds) => Done(rest, TimeValue(hours, minutes, seconds))
  }

  // ----- rendering a time, and parsing it back -----

  /** The optional seconds of a rendered time: nothing, or ":" and the seconds. */
  function SecondsText(seconds: Option<nat>): string
  {
    match seconds
    case None => ""
    case Some(sec) => ":" + DecimalText(sec)
  }

  /** A time as "hh:mm" or "hh:mm:ss", each component in shortest decimal form. */
  function RenderTime(t: TimeValue): string
  {
    DecimalText(t.hours) + ":" + DecimalText(t.minutes) + SecondsText(t.seconds)
  }

  /** Components below 100. */
  predicate ValidTime(t: TimeValue)
  {
    t.hours < 100 && t.minutes < 100 && (t.seconds.Some? ==> t.seconds.value < 100)
  }

  /** What may follow a rendered time without being taken for part of it. */
  predicate EndsTime(t: TimeValue, rest: string)
  {
    (rest == [] || !IsDecimalDigit(rest[0]))
    && (t.seconds.None? ==> rest == [] || rest[0] != ':' || |rest| == 1 || !IsDecimalDigit(rest[1]))
  }

  lemma OptSecondsOn(t: TimeValue, rest: string)
    requires ValidTime(t) && EndsTime(t, rest)
    ensures OptSeconds(SecondsText(t.seconds) + rest) == Done(rest, t.seconds)
  {
    match t.seconds
    case None =>
      assert SecondsText(t.seconds) + rest == rest;
      if rest != [] && rest[0] == ':' {
        assert ParseSeparator(rest).rest == rest[1..];
      }
    case Some(sec) =>
      var u := DecimalText(sec) + rest;
      assert SecondsText(t.seconds) + rest == ":" + u;
      assert ParseSeparator(":" + u) == Done(u, ":") by { LiteralOn(":", u); }
      OneOrTwoDigitsOn(sec, rest);
  }

  lemma RenderTimeThen(t: TimeValue, rest: string)
    ensures RenderTime(t) + rest == DecimalText(t.hours) + (":" + (DecimalText(t.minutes) + (SecondsText(t.seconds) + rest)))
  {
  }

  /** A rendered time followed by text that does not extend it parses back as that time and leaves exactly that text. */
  lemma RenderTimeParses(t: TimeValue, rest: string)
    requires ValidTime(t) && EndsTime(t, rest)
    ensures ParseTimeValue(RenderTime(t) + rest) == Done(rest, t)
  {
    var t3 := SecondsText(t.seconds) + rest;
    var t2 := DecimalText(t.minutes) + t3;
    var t1 := ":" + t2;
    RenderTimeThen(t, rest);
    assert ParseHours(DecimalText(t.hours) + t1) == Done(t1, t.hours) by { OneOrTwoDigitsOn(t.hours, t1); }
    assert ParseSeparator(t1) == Done(t2, ":") by { LiteralOn(":", t2); }
    assert ParseMinutes(t2) == Done(t3, t.minutes) by {
      assert t3 == [] || !IsDecimalDigit(t3[0]) by {
        if t.seconds.Some? { assert t3[0] == ':'; }
      }
      OneOrTwoDigitsOn(t.minutes, t3);
    }
    assert OptSeconds(t3) == Done(rest, t.seconds) by { OptSecondsOn(t, rest); }
  }

  /** Without a separator after the hours the time is rejected. */
  lemma MissingSeparatorRejected(hours: nat, rest: string)
    requires hours < 100 && (rest == [] || (rest[0] != ':' && !IsDecimalDigit(rest[0])))
    ensures ParseTimeValue(DecimalText(hours) + rest).Fail?
  {
    OneOrTwoDigitsOn(hours, rest);
  }

  /** Minutes are required: hours and a separator with no digit after it are rejected. */
  lemma MissingMinutesRejected(hours: nat, rest: string)
    requires hours < 100 && (rest == [] || !IsDecimalDigit(rest[0]))
    ensures ParseTimeValue(DecimalText(hours) + (":" + rest)).Fail?
  {
    OneOrTwoDigitsOn(hours, ":" + rest);
    LiteralOn(":", rest);
  }

  /** A separator after the minutes that is not followed by seconds is left in the rest, as in "15:21:". */
  lemma DanglingSeparatorLeft(hours: nat, minutes: nat, rest: string)
    requires hours < 100 && minutes < 100
    requires rest == [] || !IsDecimalDigit(rest[0])
    ensures ParseTimeValue(RenderTime(TimeValue(hours, minutes, None)) + (":" + rest))
      == Done(":" + rest, TimeValue(hours, minutes, None))
  {
    RenderTimeParses(TimeValue(hours, minutes, None), ":" + rest);
  }
}
