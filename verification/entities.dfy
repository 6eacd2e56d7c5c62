/**
 * The entity-level decoding helpers (src/gedcom_entities/dates.rs,
 * src/gedcom_entities/time_value.rs, src/gedcom_entities/individual.rs):
 * each reads the line's value as an owned string, then either runs a
 * primitive parser over it and insists that the whole string was consumed,
 * or compares it against fixed codes.  The sex codes are the variant names
 * of a unit-variant enum, decoded through the structural decoder.
 */
module Entities {

  import opened Options
  import opened Scan
  import opened Errors
  import opened Calendar
  import opened Decimals
  import DateParser
  import TimeParser
  import Decoder

  // ----- reading the scalar -----

  /**
   * `String::deserialize` on the decoder at `c`: forwarded to
   * `deserialize_any`, so a value with children is a map and is refused, and
   * otherwise the line's value (or, in key mode, its tag) is read.
   */
  function Scalar(cfg: Decoder.Config, c: Decoder.Cursor): (r: Result<string>)
    requires Decoder.Progresses(cfg.parse)
    ensures Decoder.ChoosesMap(c) ==> r == Err(Decoder.InvalidType("map", "a string"))
    ensures !Decoder.ChoosesMap(c) ==> r == Decoder.ReadStr(c)
  {
    match Decoder.Decode(cfg, c, Decoder.Owned)
    case Err(e) => Err(e)
    case Ok(d) => Ok(d.value.text)
  }

  /** A line in value mode without children and without a value has no scalar to read. */
  lemma ValuelessLineHasNoScalar(cfg: Decoder.Config, c: Decoder.Cursor)
    requires Decoder.Progresses(cfg.parse)
    requires c.state == Decoder.DeserialisingValue && c.current.value.None?
    requires c.next.None? || c.next.value.level != c.current.level + 1
    ensures Scalar(cfg, c) == Err(ExpectedGedcomLineWithValue)
  {
  }

  /** How a parser failure is reported: nom's error, displayed through `custom`. */
  function ParsingError(at: string): (e: Error)
    ensures e.Message? && |e.msg| == |"Parsing Error: "| + |at| && e.msg[|"Parsing Error: "|..] == at
  {
    DeCustom("Parsing Error: " + at)
  }

  /** The message for a parsed value that leaves characters behind. */
  function TrailingAfter(typeName: string): (e: Error)
    ensures e.Message? && |e.msg| > |typeName|
  {
    DeCustom("Trailing characters left after parsing " + typeName + ".")
  }

  // ----- dates -----

  /**
   * `deserialise_date_exact`: the scalar must parse as a whole with
   * `parse_date_exact` (the case-insensitive one of src/parsers/parse_date.rs).
   */
  function DeserialiseDateExact(scalar: Result<string>): (r: Result<DateExact>)
    ensures scalar.Err? ==> r == Err(scalar.error)
    ensures scalar.Ok? ==>
      var p := DateParser.ParseDateExact(scalar.value);
      (r.Ok? <==> p.Done? && p.rest == [])
      && (r.Ok? ==> r.value == p.value && r.value.day < 100 && r.value.year < 10000)
      && (p.Done? && p.rest != [] ==> r == Err(TrailingAfter("DateExact")))
      && (p.Fail? ==> r == Err(ParsingError(p.at)))
  {
    match scalar
    case Err(e) => Err(e)
    case Ok(s) =>
      match DateParser.ParseDateExact(s)
      case Fail(at) => Err(ParsingError(at))
      case Done(rest, date) => if rest == [] then Ok(date) else Err(TrailingAfter("DateExact"))
  }

  /** `deserialise_date_greg`: the same with `parse_date_greg` and its own message. */
  function DeserialiseDateGreg(scalar: Result<string>): (r: Result<DateGreg>)
    ensures scalar.Err? ==> r == Err(scalar.error)
    ensures scalar.Ok? ==>
      var p := DateParser.ParseDateGreg(scalar.value);
      (r.Ok? <==> p.Done? && p.rest == [])
      && (r.Ok? ==> r.value == p.value && r.value.day < 100 && r.value.year < 10000)
      && (p.Done? && p.rest != [] ==> r == Err(TrailingAfter("DateGreg")))
      && (p.Fail? ==> r == Err(ParsingError(p.at)))
  {
    match scalar
    case Err(e) => Err(e)
    case Ok(s) =>
      match DateParser.ParseDateGreg(s)
      case Fail(at) => Err(ParsingError(at))
      case Done(rest, date) => if rest == [] then Ok(date) else Err(TrailingAfter("DateGreg"))
  }

  /** A rendered date, its month in any letter case, is decoded as that date. */
  lemma DateExactRoundTrip(day: nat, month: Month, spelling: string, year: nat)
    requires day < 100 && 100 <= year < 10000
    requires |spelling| == 3 && DateParser.StartsNoCase(spelling, MonthCode(month))
    ensures DeserialiseDateExact(Ok(DateParser.RenderDate(day, spelling, year))) == Ok(DateExact(day, month, year))
  {
    var s := DateParser.RenderDate(day, spelling, year);
    assert s + [] == s;
    DateParser.RenderDateExactParses(day, month, spelling, year, []);
  }

  lemma DateGregRoundTrip(day: nat, month: Month, spelling: string, year: nat)
    requires day < 100 && 100 <= year < 10000
    requires |spelling| == 3 && DateParser.StartsNoCase(spelling, MonthCode(month))
    ensures DeserialiseDateGreg(Ok(DateParser.RenderDate(day, spelling, year))) == Ok(DateGreg(day, month, year))
  {
    var s := DateParser.RenderDate(day, spelling, year);
    assert s + [] == s;
    DateParser.RenderDateParses(day, month, spelling, year, []);
  }

  /** A date followed by anything that is not part of it is refused with the trailing-characters message. */
  lemma DateExactTrailingRejected(day: nat, month: Month, spelling: string, year: nat, rest: string)
    requires day < 100 && 100 <= year < 10000
    requires |spelling| == 3 && DateParser.StartsNoCase(spelling, MonthCode(month))
    requires rest != [] && (year >= 1000 || !IsDecimalDigit(rest[0]))
    ensures DeserialiseDateExact(Ok(DateParser.RenderDate(day, spelling, year) + rest)) == Err(TrailingAfter("DateExact"))
  {
    DateParser.RenderDateExactParses(day, month, spelling, year, rest);
  }

  lemma DateGregTrailingRejected(day: nat, month: Month, spelling: string, year: nat, rest: string)
    requires day < 100 && 100 <= year < 10000
    requires |spelling| == 3 && DateParser.StartsNoCase(spelling, MonthCode(month))
    requires rest != [] && (year >= 1000 || !IsDecimalDigit(rest[0]))
    ensures DeserialiseDateGreg(Ok(DateParser.RenderDate(day, spelling, year) + rest)) == Err(TrailingAfter("DateGreg"))
  {
    DateParser.RenderDateParses(day, month, spelling, year, rest);
  }

  // ----- time -----

  /** `deserialise_time_value`: the scalar must parse as a whole with `parse_time_value`. */
  function DeserialiseTimeValue(scalar: Result<string>): (r: Result<TimeValue>)
    ensures scalar.Err? ==> r == Err(scalar.error)
    ensures scalar.Ok? ==>
      var p := TimeParser.ParseTimeValue(scalar.value);
      (r.Ok? <==> p.Done? && p.rest == [])
      && (r.Ok? ==> r.value == p.value && TimeParser.ValidTime(r.value))
      && (p.Done? && p.rest != [] ==> r == Err(TrailingAfter("TimeValue")))
      && (p.Fail? ==> r == Err(ParsingError(p.at)))
  {
    match scalar
    case Err(e) => Err(e)
    case Ok(s) =>
      match TimeParser.ParseTimeValue(s)
      case Fail(at) => Err(ParsingError(at))
      case Done(rest, time) => if rest == [] then Ok(time) else Err(TrailingAfter("TimeValue"))
  }

  /** Every time with components below 100, rendered, is decoded as that time. */
  lemma TimeValueRoundTrip(t: TimeValue)
    requires TimeParser.ValidTime(t)
    ensures DeserialiseTimeValue(Ok(TimeParser.RenderTime(t))) == Ok(t)
  {
    var s := TimeParser.RenderTime(t);
    assert s + [] == s;
    TimeParser.RenderTimeParses(t, []);
  }

  /** A time ending in a separator without seconds, such as "15:21:", is refused with the trailing-characters message. */
  lemma DanglingSeparatorRejected(hours: nat, minutes: nat)
    requires hours < 100 && minutes < 100
    ensures DeserialiseTimeValue(Ok(TimeParser.RenderTime(TimeValue(hours, minutes, None)) + ":"))
      == Err(TrailingAfter("TimeValue"))
  {
    assert ":" + [] == ":";
    TimeParser.DanglingSeparatorLeft(hours, minutes, []);
  }

  // ----- booleans -----

  /** `deserialize_boolean`: exactly "Y" is true and exactly "N" is false. */
  function DeserializeBoolean(scalar: Result<string>): (r: Result<bool>)
    ensures scalar.Err? ==> r == Err(scalar.error)
    ensures scalar.Ok? ==> (r.Ok? <==> scalar.value == "Y" || scalar.value == "N")
    ensures r.Ok? ==> (r.value <==> scalar.value == "Y")
    ensures scalar.Ok? && r.Err? ==> r.error == DeCustom("Failed to parse boolean")
  {
    match scalar
    case Err(e) => Err(e)
    case Ok(s) =>
      if s == "Y" then Ok(true)
      else if s == "N" then Ok(false)
      else Err(DeCustom("Failed to parse boolean"))
  }

  /** The code a boolean is written as. */
  function BooleanCode(b: bool): (s: string)
    ensures |s| == 1
  {
    if b then "Y" else "N"
  }

  /** Each boolean's code decodes back to it, and no other string decodes to it. */
  lemma BooleanRoundTrip(b: bool, s: string)
    ensures DeserializeBoolean(Ok(BooleanCode(b))) == Ok(b)
    ensures DeserializeBoolean(Ok(s)) == Ok(b) ==> s == BooleanCode(b)
  {
  }

  /** Lower-case codes are not accepted. */
  lemma LowerCaseBooleanRejected()
    ensures DeserializeBoolean(Ok("y")).Err? && DeserializeBoolean(Ok("n")).Err? && DeserializeBoolean(Ok("")).Err?
  {
  }

  // ----- sex codes -----

  /** `SexValue`, a unit-variant enum whose variants are renamed to their codes. */
  datatype SexValue = Male | Female | Undetermined

  function SexCode(v: SexValue): (code: string)
    ensures |code| == 1
  {
    match v
    case Male => "M"
    case Female => "F"
    case Undetermined => "U"
  }

  /** The variants `SexValue` offers the decoder, in declaration order. */
  const SexVariants: seq<Decoder.Variant> := [Decoder.Unit("M"), Decoder.Unit("F"), Decoder.Unit("U")]

  /** The variant a decoded choice names. */
  function SexFromCode(code: string): (r: Option<SexValue>)
    ensures r.Some? ==> SexCode(r.value) == code
    ensures r.None? ==> code != "M" && code != "F" && code != "U"
  {
    if code == "M" then Some(Male)
    else if code == "F" then Some(Female)
    else if code == "U" then Some(Undetermined)
    else None
  }

  /** The codes are exactly "M", "F" and "U", one per value. */
  lemma SexCodesRoundTrip(v: SexValue, code: string)
    ensures SexFromCode(SexCode(v)) == Some(v)
    ensures SexFromCode(code).Some? <==> code in {"M", "F", "U"}
  {
  }

  /**
   * Decoding `SexValue` at a line reads the variant from the line's tag (key
   * mode): a tag that is a code selects that variant without consuming
   * anything; any other tag is an unknown variant listing the three codes.
   */
  lemma SexDecodes(cfg: Decoder.Config, c: Decoder.Cursor)
    requires Decoder.Progresses(cfg.parse)
    ensures var r := Decoder.Decode(cfg, c, Decoder.Enum(SexVariants));
      (SexFromCode(c.current.tag).Some? ==>
         r == Ok(Decoder.Decoded(c.(state := Decoder.DeserialisingValue), Decoder.Chosen(c.current.tag, None))))
      && (SexFromCode(c.current.tag).None? ==> r == Err(Decoder.UnknownVariant(c.current.tag, ["M", "F", "U"])))
  {
    assert Decoder.VariantNames(SexVariants) == ["M", "F", "U"];
  }
}
