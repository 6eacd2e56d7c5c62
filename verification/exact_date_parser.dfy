/**
 * The older stand-alone date parser of src/parsers/parse_date_exact.rs.  Its
 * day, space and year steps are those of src/parsers/parse_date.rs; only the
 * month differs: it is matched with `tag`, so the code must be upper case.
 */
module ExactDateParser {

  import opened Scan
  import opened Calendar
  import DateParser
  import Decimals

  /** The alternatives of the case-sensitive `parse_month` from the `i`-th month on, each `tag` of a month code. */
  function MonthFrom(s: string, i: nat): (r: ParseResult<Month>)
    requires i <= 12
    ensures r.Done? ==> MonthCode(r.value) <= s && r.rest == s[3..]
    ensures r.Fail? ==> r.at == s
    decreases 12 - i
  {
    if i == 12 then Fail(s)
    else
      match Literal(s, MonthCode(Months[i]))
      case Done(rest, _) => Done(rest, Months[i])
      case Fail(_) => MonthFrom(s, i + 1)
  }

  /** `parse_month`: the first month whose upper-case code starts the input. */
  function ParseMonth(s: string): (r: ParseResult<Month>)
    ensures r.Done? ==> MonthCode(r.value) <= s && r.rest == s[3..]
    ensures r.Fail? ==> r.at == s
  {
    MonthFrom(s, 0)
  }

  /** `parse_date_exact` of src/parsers/parse_date_exact.rs */
  function ParseDateExact(s: string): (r: ParseResult<DateExact>)
    ensures r.Done? ==> r.value.day < 100 && r.value.year < 10000
  {
    match DateParser.ParseDay(s)
    case Fail(at) => Fail(at)
    case Done(s1, day) =>
      match DateParser.ParseSpace(s1)
      case Fail(at) => Fail(at)
      case Done(s2, _) =>
        match ParseMonth(s2)
        case Fail(at) => Fail(at)
        case Done(s3, month) =>
          match DateParser.ParseSpace(s3)
          case Fail(at) => Fail(at)
          case Done(s4, _) =>
            match DateParser.ParseYear(s4)
            case Fail(at) => Fail(at)
            case Done(rest, year) => Done(rest, DateExact(day, month, year))
  }

  // ----- the case-sensitive month -----

  /** A text that starts with a month's code is found at that month and at no earlier one. */
  lemma {:induction false} MonthFromFinds(s: string, i: nat, m: Month)
    requires i <= DateParser.MonthIndex(m) && MonthCode(m) <= s
    ensures MonthFrom(s, i) == Done(s[3..], m)
    decreases DateParser.MonthIndex(m) - i
  {
    if i < DateParser.MonthIndex(m) {
      if MonthCode(Months[i]) <= s {
        assert MonthCode(Months[i]) == s[..3] == MonthCode(m);
        assert MonthCode(Months[i])[..] == MonthCode(m);
      }
      MonthFromFinds(s, i + 1, m);
    }
  }

  /** The case-sensitive `parse_month` succeeds exactly on a text that starts with a month's upper-case code, and yields that month. */
  lemma ParseMonthExactly(s: string, m: Month)
    ensures MonthCode(m) <= s <==> ParseMonth(s).Done? && ParseMonth(s).value == m
  {
    if MonthCode(m) <= s {
      MonthFromFinds(s, 0, m);
    }
  }

  /** Every month code starts with an upper-case letter. */
  lemma CodeStartsUpper(m: Month)
    ensures 'A' <= MonthCode(m)[0] <= 'Z'
  {
  }

  /** A month written with a lower-case first letter is rejected. */
  lemma LowerCaseMonthRejected(s: string)
    requires s != [] && 'a' <= s[0] <= 'z'
    ensures ParseMonth(s).Fail?
  {
    if ParseMonth(s).Done? {
      CodeStartsUpper(ParseMonth(s).value);
    }
  }

  // ----- relation to the case-insensitive parser -----

  /** Where the case-sensitive month parser succeeds, the case-insensitive one yields the same month and rest. */
  lemma MonthAgrees(s: string)
    requires ParseMonth(s).Done?
    ensures DateParser.ParseMonth(s) == ParseMonth(s)
  {
    var m := ParseMonth(s).value;
    assert DateParser.StartsNoCase(s, MonthCode(m)) by {
      forall k | 0 <= k < 3 ensures s[k] == MonthCode(m)[k] { }
    }
    DateParser.ParseMonthExactly(s, m);
  }

  /** Every date this parser accepts is accepted by `parse_date_exact` of src/parsers/parse_date.rs with the same date and rest. */
  lemma {:induction false} AcceptedByCaseInsensitive(s: string)
    requires ParseDateExact(s).Done?
    ensures DateParser.ParseDateExact(s) == ParseDateExact(s)
  {
    var s2 := DateParser.ParseSpace(DateParser.ParseDay(s).rest).rest;
    MonthAgrees(s2);
  }

  /** A month's upper-case code is read as that month. */
  lemma MonthOn(month: Month, rest: string)
    ensures ParseMonth(MonthCode(month) + rest) == Done(rest, month)
  {
    var s := MonthCode(month) + rest;
    LiteralOn(MonthCode(month), rest);
    ParseMonthExactly(s, month);
    assert s[3..] == rest;
  }

  /** A rendered date with the month in upper case parses back as that date, as with the case-insensitive parser. */
  lemma RenderDateParses(day: nat, month: Month, year: nat, rest: string)
    requires day < 100 && 100 <= year < 10000
    requires year >= 1000 || rest == [] || !Decimals.IsDecimalDigit(rest[0])
    ensures ParseDateExact(DateParser.RenderDate(day, MonthCode(month), year) + rest) == Done(rest, DateExact(day, month, year))
  {
    var t4 := Decimals.DecimalText(year) + rest;
    var t3 := " " + t4;
    var t2 := MonthCode(month) + t3;
    var t1 := " " + t2;
    DateParser.RenderDateThen(day, MonthCode(month), year, rest);
    assert DateParser.ParseDay(Decimals.DecimalText(day) + t1) == Done(t1, day) by { Decimals.OneOrTwoDigitsOn(day, t1); }
    assert DateParser.ParseSpace(t1) == Done(t2, " ") by { LiteralOn(" ", t2); }
    assert ParseMonth(t2) == Done(t3, month) by { MonthOn(month, t3); }
    assert DateParser.ParseSpace(t3) == Done(t4, " ") by { LiteralOn(" ", t4); }
    assert DateParser.ParseYear(t4) == Done(rest, year) by { DateParser.YearOn(year, rest); }
  }

  /** A date whose month starts with a lower-case letter, such as "2 jan 2000", is rejected; the case-insensitive parser accepts it when the spelling is a month code. */
  lemma LowerCaseDateRejected(day: nat, spelling: string, year: nat, rest: string)
    requires day < 100 && spelling != [] && 'a' <= spelling[0] <= 'z'
    ensures ParseDateExact(DateParser.RenderDate(day, spelling, year) + rest).Fail?
  {
    var t2 := spelling + (" " + (Decimals.DecimalText(year) + rest));
    var t1 := " " + t2;
    DateParser.RenderDateThen(day, spelling, year, rest);
    assert DateParser.ParseDay(Decimals.DecimalText(day) + t1) == Done(t1, day) by { Decimals.OneOrTwoDigitsOn(day, t1); }
    assert DateParser.ParseSpace(t1) == Done(t2, " ") by { LiteralOn(" ", t2); }
    assert ParseMonth(t2).Fail? by { LowerCaseMonthRejected(t2); }
  }
}
