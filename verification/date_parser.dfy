/**
 * The date parsers of src/parsers/parse_date.rs:
 *
 *   day " " month " " year
 *
 * where the day is one or two digits, the month one of the twelve
 * three-letter codes in any letter case, and the year three or four digits
 * read as an `i16`.  No calendar validation takes place; the text after the
 * year is returned untouched.
 */
module DateParser {

  import opened Scan
  import opened Decimals
  import opened Calendar

  /** ASCII lower-casing; the month codes are ASCII, and no other character lower-cases to one of their letters. */
  function LowerAscii(c: char): char
  {
    if 'A' <= c <= 'Z' then (c as int + 32) as char else c
  }

  /** `tag_no_case(t)` succeeds on `s`: `s` starts with `t` up to letter case. */
  predicate StartsNoCase(s: string, t: string)
  {
    |s| >= |t| && forall i :: 0 <= i < |t| ==> LowerAscii(s[i]) == LowerAscii(t[i])
  }

  /** `parse_day` */
  function ParseDay(s: string): ParseResult<nat>
  {
    ParseOneOrTwoDigits(s)
  }

  /** `parse_space` */
  function ParseSpace(s: string): (r: ParseResult<string>)
    ensures r.Done? <==> s != [] && s[0] == ' '
    ensures r.Done? ==> r.rest == s[1..]
  {
    Literal(s, " ")
  }

  /** The alternatives of `parse_month` from the `i`-th month on, each `tag_no_case` of a month code. */
  function MonthFrom(s: string, i: nat): (r: ParseResult<Month>)
    requires i <= 12
    ensures r.Done? ==> StartsNoCase(s, MonthCode(r.value)) && r.rest == s[3..]
    decreases 12 - i
  {
    if i == 12 then Fail(s)
    else if StartsNoCase(s, MonthCode(Months[i])) then Done(s[3..], Months[i])
    else MonthFrom(s, i + 1)
  }

  /** `parse_month`: the first month whose code starts the input, in any letter case. */
  function ParseMonth(s: string): (r: ParseResult<Month>)
    ensures r.Done? ==> StartsNoCase(s, MonthCode(r.value)) && r.rest == s[3..]
  {
    MonthFrom(s, 0)
  }

  /** `parse_year`: three or four digits read as an `i16`, whose range they always fit. */
  function ParseYear(s: string): (r: ParseResult<nat>)
    ensures r.Done? <==> |s| >= 3 && IsDecimalDigit(s[0]) && IsDecimalDigit(s[1]) && IsDecimalDigit(s[2])
    ensures r.Done? ==> r.value < 10000 && |s| - 4 <= |r.rest| <= |s| - 3 && IsSuffix(r.rest, s)
    ensures r.Done? ==> AllDigits(s[..|s| - |r.rest|]) && r.value == DecimalValue(s[..|s| - |r.rest|])
    ensures r.Done? && |r.rest| == |s| - 3 && r.rest != [] ==> !IsDecimalDigit(r.rest[0])
  {
    match TakeWhileMN(s, 3, 4, IsDecimalDigit)
    case Fail(at) => Fail(at)
    case Done(rest, digits) =>
      assert digits == s[..|s| - |rest|];
      assert Pow10(|digits|) <= 10000;
      var n := FromStrRadix10(digits, 32767);
      if n.Parsed? then Done(rest, n.n) else Fail(s)
  }

  /** `parse_date_exact` of src/parsers/parse_date.rs */
  function ParseDateExact(s: string): (r: ParseResult<DateExact>)
    ensures r.Done? ==> r.value.day < 100 && r.value.year < 10000
  {
    match ParseDay(s)
    case Fail(at) => Fail(at)
    case Done(s1, day) =>
      match ParseSpace(s1)
      case Fail(at) => Fail(at)
      case Done(s2, _) =>
        match ParseMonth(s2)
        case Fail(at) => Fail(at)
        case Done(s3, month) =>
          match ParseSpace(s3)
          case Fail(at) => Fail(at)
          case Done(s4, _) =>
            match ParseYear(s4)
            case Fail(at) => Fail(at)
            case Done(rest, year) => Done(rest, DateExact(day, month, year))
  }

  /** `parse_date_greg`: the same steps as `parse_date_exact`, building a `DateGreg`. */
  function ParseDateGreg(s: string): (r: ParseResult<DateGreg>)
    ensures r.Done? ==> r.value.day < 100 && r.value.year < 10000
  {
    match ParseDay(s)
    case Fail(at) => Fail(at)
    case Done(s1, day) =>
      match ParseSpace(s1)
      case Fail(at) => Fail(at)
      case Done(s2, _) =>
        match ParseMonth(s2)
        case Fail(at) => Fail(at)
        case Done(s3, month) =>
          match ParseSpace(s3)
          case Fail(at) => Fail(at)
          case Done(s4, _) =>
            match ParseYear(s4)
            case Fail(at) => Fail(at)
            case Done(rest, year) => Done(rest, DateGreg(day, month, year))
  }

  // ----- the month alternatives -----

  function MonthIndex(m: Month): (i: nat)
    ensures i < 12 && Months[i] == m
  {
    match m
    case January => 0
    case February => 1
    case March => 2
    case April => 3
    case May => 4
    case June => 5
    case July => 6
    case August => 7
    case September => 8
    case October => 9
    case November => 10
    case December => 11
  }

  /** No two month codes are equal up to letter case. */
  lemma CodesDistinctNoCase(a: Month, b: Month)
    requires forall k :: 0 <= k < 3 ==> LowerAscii(MonthCode(a)[k]) == LowerAscii(MonthCode(b)[k])
    ensures a == b
  {
    var x, y := MonthCode(a), MonthCode(b);
    assert LowerAscii(x[0]) == LowerAscii(y[0]) && LowerAscii(x[1]) == LowerAscii(y[1]) && LowerAscii(x[2]) == LowerAscii(y[2]);
  }

  /** A text that starts with a month's code, in any letter case, is found at that month and at no earlier one. */
  lemma {:induction false} MonthFromFinds(s: string, i: nat, m: Month)
    requires i <= MonthIndex(m) && StartsNoCase(s, MonthCode(m))
    ensures MonthFrom(s, i) == Done(s[3..], m)
    decreases MonthIndex(m) - i
  {
    if i < MonthIndex(m) {
      if StartsNoCase(s, MonthCode(Months[i])) {
        CodesDistinctNoCase(Months[i], m);
      }
      MonthFromFinds(s, i + 1, m);
    }
  }

  /** `parse_month` succeeds exactly on a text that starts with some month's code, in any letter case, and yields that month. */
  lemma ParseMonthExactly(s: string, m: Month)
    ensures StartsNoCase(s, MonthCode(m)) <==> ParseMonth(s).Done? && ParseMonth(s).value == m
    ensures ParseMonth(s).Done? ==> ParseMonth(s).rest == s[3..]
  {
    if StartsNoCase(s, MonthCode(m)) {
      MonthFromFinds(s, 0, m);
    }
  }

  // ----- agreement of the two date parsers -----

  /** `parse_date_exact` and `parse_date_greg` accept the same texts, leave the same rest and read the same day, month and year. */
  lemma DateParsersAgree(s: string)
    ensures ParseDateExact(s).Done? <==> ParseDateGreg(s).Done?
    ensures ParseDateExact(s).Done? ==>
      var e, g := ParseDateExact(s), ParseDateGreg(s);
      e.rest == g.rest && e.value.day == g.value.day && e.value.month == g.value.month && e.value.year == g.value.year
  {
  }

  // ----- rendering a date, and parsing it back -----

  /** A date as "day MON year", with the day and year in shortest decimal form and the month spelt `monthText`. */
  function RenderDate(day: nat, monthText: string, year: nat): string
  {
    DecimalText(day) + " " + monthText + " " + DecimalText(year)
  }

  lemma YearOn(year: nat, rest: string)
    requires 100 <= year < 10000
    requires year >= 1000 || rest == [] || !IsDecimalDigit(rest[0])
    ensures ParseYear(DecimalText(year) + rest) == Done(rest, year)
  {
    TakeWhileMNOn(DecimalText(year), rest, 3, 4, IsDecimalDigit);
    AccumulateFromStart(DecimalText(year), 32767);
  }

  /** A month's code, in any letter case, is read as that month. */
  lemma MonthOn(month: Month, spelling: string, rest: string)
    requires |spelling| == 3 && StartsNoCase(spelling, MonthCode(month))
    ensures ParseMonth(spelling + rest) == Done(rest, month)
  {
    var s := spelling + rest;
    assert StartsNoCase(s, MonthCode(month)) by {
      forall k | 0 <= k < 3 ensures s[k] == spelling[k] { }
    }
    ParseMonthExactly(s, month);
    assert s[3..] == rest;
  }

  /** The rendered date followed by `rest`, regrouped as the parsers consume it. */
  lemma RenderDateThen(day: nat, monthText: string, year: nat, rest: string)
    ensures RenderDate(day, monthText, year) + rest == DecimalText(day) + (" " + (monthText + (" " + (DecimalText(year) + rest))))
  {
  }

  /**
   * A day below 100, a month spelt in any letter case and a year of three or
   * four digits, rendered and followed by any text that does not extend a
   * three-digit year, parse back as that date and leave exactly that text.
   * After a four-digit year a further digit is left in the rest.
   */
  lemma RenderDateParses(day: nat, month: Month, spelling: string, year: nat, rest: string)
    requires day < 100 && 100 <= year < 10000
    requires |spelling| == 3 && StartsNoCase(spelling, MonthCode(month))
    requires year >= 1000 || rest == [] || !IsDecimalDigit(rest[0])
    ensures ParseDateGreg(RenderDate(day, spelling, year) + rest) == Done(rest, DateGreg(day, month, year))
  {
    var t4 := DecimalText(year) + rest;
    var t3 := " " + t4;
    var t2 := spelling + t3;
    var t1 := " " + t2;
    RenderDateThen(day, spelling, year, rest);
    assert ParseDay(DecimalText(day) + t1) == Done(t1, day) by { OneOrTwoDigitsOn(day, t1); }
    assert ParseSpace(t1) == Done(t2, " ") by { LiteralOn(" ", t2); }
    assert ParseMonth(t2) == Done(t3, month) by { MonthOn(month, spelling, t3); }
    assert ParseSpace(t3) == Done(t4, " ") by { LiteralOn(" ", t4); }
    assert ParseYear(t4) == Done(rest, year) by { YearOn(year, rest); }
  }

  /** The same round trip through `parse_date_exact`. */
  lemma RenderDateExactParses(day: nat, month: Month, spelling: string, year: nat, rest: string)
    requires day < 100 && 100 <= year < 10000
    requires |spelling| == 3 && StartsNoCase(spelling, MonthCode(month))
    requires year >= 1000 || rest == [] || !IsDecimalDigit(rest[0])
    ensures ParseDateExact(RenderDate(day, spelling, year) + rest) == Done(rest, DateExact(day, month, year))
  {
    RenderDateParses(day, month, spelling, year, rest);
    DateParsersAgree(RenderDate(day, spelling, year) + rest);
  }

  /** The month is read in any letter case: "jan" is January. */
  lemma LowerCaseMonth()
    ensures ParseMonth("jan 2000") == Done(" 2000", January)
  {
    ParseMonthExactly("jan 2000", January);
  }

  /** A year of fewer than three digits is rejected. */
  lemma ShortYearRejected(year: string, rest: string)
    requires 1 <= |year| <= 2 && AllDigits(year) && (rest == [] || !IsDecimalDigit(rest[0]))
    ensures ParseYear(year + rest).Fail?
  {
    var s := year + rest;
    if |s| >= 3 {
      assert s[|year|] == (if |year| == 2 then rest[0] else s[1]);
    }
  }
}
