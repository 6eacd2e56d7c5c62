# GEDCOM parser core, modelled in Dafny

This project models the reading side of a GEDCOM parser written in Rust. GEDCOM is the genealogy interchange format of GEDCOM 5.5.1. Each line of a file is `level [@xref@] tag [value]`, followed by a line terminator. Nesting is expressed only through the level numbers.

The model has three layers.

- **Line grammar.** `LineGrammar` models `parse_gedcom_line` of `src/parsers/parse_gedcom_line.rs`. It reads one terminated line into a `Line(level, xrefId, tag, value)` and returns the text after it. `LegacyLine` models the older and stricter parser of `src/parse_gedcom_line.rs`: it has no xref, no underscore in tags, a mandatory delimiter before the value, and four terminators. `Scan` holds the string primitives both parsers are built from: `take_while_m_n`, `take_while1`, `take_till1`, `take_till` and `tag`. `Decimals` models `from_decimal` and `is_decimal_digit`.
- **Structural decoder.** This is `src/gedcom_data_format/de.rs`, a serde `Deserializer` with one line of lookahead.
  - `Decoder` specifies it as functions over a `Cursor`: remaining input, current line, lookahead line, and key/value mode.
  - serde's visitors are replaced by an explicit `Shape` of what is asked for: `&str`, `String`, an ignored value, a derived struct, a string-keyed map, a `Vec`, a derived enum, or an `Option`.
  - `GedcomDeserializer` is the imperative decoder itself. It is a class whose fields are reassigned step by step, with its map, sequence and enum access objects. Every method is proved to produce the result and the new fields that `Decoder` specifies.
  - `DecoderProperties` proves what the decoder does with whole documents: where maps and sequences end, every unit test of `de.rs`, and two findings.
- **Leaf values.** These are:
  - the date parsers (`DateParser` for `src/parsers/parse_date.rs`, `ExactDateParser` for `src/parsers/parse_date_exact.rs`);
  - the time parser `TimeParser`;
  - the error type `Errors`;
  - the entity helpers of `Entities`, which accept a date or time only when the whole string parses, read the `Y`/`N` boolean, and use the `M`/`F`/`U` sex codes.

The decoder is parameterised by a `Config`. The config holds the line parser it reads with and the stop rule of its map-key step: `ParentLevelOnly` is the rule as written, `AnyShallowerLevel` the corrected one. The lemmas about the unit tests hold for any line parser that reads the test documents as their lines. `DecoderProperties.DocumentLexes` proves that `ParseGedcomLine` reads any document of valid lines that way.

## Model

| member | source | states |
|---|---|---|
| Scan.TakeWhileMN | src/parsers/parse_gedcom_line.rs:15 | `take_while_m_n(m, n, p)` succeeds iff the first `m` characters satisfy `p`. It takes between `m` and `n` of them, stops at `n` or at the first character failing `p`, and returns the rest untouched. |
| Scan.TakeWhile1 | src/parsers/parse_gedcom_line.rs:27 | `take_while1` succeeds iff the first character satisfies `p`. It then takes the longest such prefix. |
| Scan.TakeTill1 | src/parsers/parse_gedcom_line.rs:55 | `take_till1` succeeds iff the first character does not satisfy `p`. It then takes everything up to the first character that does. |
| Scan.TakeTill | src/parse_gedcom_line.rs:55 | `take_till` always succeeds, possibly with an empty match. It takes everything up to the first character satisfying `p`. |
| Scan.Literal | src/parsers/parse_gedcom_line.rs:26 | `tag(t)` succeeds iff the input starts with `t`, and it returns exactly the text after it. |
| Decimals.FromStrRadix10 | src/parsers/utilities/decimals.rs:1-3 | Base-10 parsing with a maximum. The empty string is an error, a digit string within the maximum gives its decimal value, and no result exceeds the maximum. |
| Decimals.FromDecimal | src/parsers/utilities/decimals.rs:1-3 | `u8::from_str_radix(_, 10)`. The empty string fails, a digit string up to 255 gives its decimal value, and a larger one overflows. Every 1- or 2-digit string succeeds with a value below 100. |
| Decimals.IsDecimalDigit | src/parsers/utilities/decimals.rs:5-7 | `char::is_digit(10)`: a character is a decimal digit iff it is one of the ASCII digits `0` to `9`. |
| Decimals.ParseOneOrTwoDigits | src/parsers/parse_date.rs:27-29 | `map_res(take_while_m_n(1, 2, is_decimal_digit), from_decimal)`, which is also the body of `parse_level`, `parse_hours`, `parse_minutes` and `parse_seconds`. It succeeds iff the input starts with a digit. It reads one or two digits as their value below 100, with no range check, and leaves a third digit in the rest. |
| Calendar.MonthCode | src/parsers/parse_date.rs:37-48 | Each month's GEDCOM code is the three-letter literal the date parser matches, `JAN` to `DEC` in calendar order. |
| Errors.DeCustom | src/gedcom_data_format/error.rs:22-26 | `de::Error::custom(msg)` is `Message(msg)`. |
| Errors.SerCustom | src/gedcom_data_format/error.rs:16-20 | `ser::Error::custom(msg)` is the same `Message(msg)` as on the deserialise side. |
| Errors.Display | src/gedcom_data_format/error.rs:28-41 | `Display` is total. A `Message` displays exactly its text, and every fixed case displays a non-empty text. |
| Errors.FromLineError | src/gedcom_data_format/error.rs:43-47 | Every line-parser failure, whatever its detail, converts to `InvalidGedcomLine`. |
| Errors.DisplayCustom | src/gedcom_data_format/error.rs:16-31 | A custom error from either side displays as the message it was made from. |
| Errors.FixedDisplaysDistinct | src/gedcom_data_format/error.rs:7-14 | Any two different fixed error cases display different texts. |
| LineGrammar.ParseXrefId | src/parsers/parse_gedcom_line.rs:24-32 | A parsed xref is one or more alphanumerics, stored without its `@` signs, and the rest is a suffix of the input. |
| LineGrammar.ParseTag | src/parsers/parse_gedcom_line.rs:38-44 | It succeeds iff the input starts with an alphanumeric or `_`. The tag is 1 to 32 such characters, and a shorter tag is followed by no further such character. |
| LineGrammar.ParseLineValue | src/parsers/parse_gedcom_line.rs:50-56 | It succeeds iff the input starts with a character other than CR or LF. The value contains no CR or LF and stops at the first one. |
| LineGrammar.ParseDelim | src/parsers/parse_gedcom_line.rs:62-77 | It succeeds iff the input starts with a space, and it consumes exactly that space. |
| LineGrammar.ParseTerminator | src/parsers/parse_gedcom_line.rs:83-104 | It succeeds iff the input starts with CR or LF. It consumes `"\r\n"` when present and otherwise the single character, so `"\n\r"` is not one terminator. |
| LineGrammar.IsTerminatorParses | src/parsers/parse_gedcom_line.rs:50-52 | `is_terminator(c)` holds iff the one-character string `c` parses as a terminator. |
| LineGrammar.OptXref | src/parsers/parse_gedcom_line.rs:121 | An optional ` @id@` always succeeds. When absent it consumes nothing; when present the id is a valid xref. |
| LineGrammar.OptValue | src/parsers/parse_gedcom_line.rs:124 | An optional ` value` always succeeds. When absent it consumes nothing; when present the value has no line break and is followed by a terminator or the end of the input. |
| LineGrammar.ParseGedcomLine | src/parsers/parse_gedcom_line.rs:118-137 | Every parsed line is valid: level below 100, a valid xref if any, a 1 to 32 character tag, and a value without line breaks. |
| LineGrammar.ParsedLineConsumesThroughBreak | src/parsers/parse_gedcom_line.rs:118-137 | A successful parse returns a proper suffix of its input, and the character before it is a CR or LF, so the terminator is mandatory. |
| LineGrammar.RenderParses | src/parsers/parse_gedcom_line.rs:118-137 | Round trip: any valid line written as `level[ @x@] tag[ value]\n`, followed by any text, parses back to the same line with exactly that text as the rest. |
| LineExamples.ValueLine | src/parsers/parse_gedcom_line.rs:139-158 | `"0 TAG Some value\n"` parses to level 0, no xref, tag `TAG`, value `Some value`, with nothing left. |
| LineExamples.DoubleDigitLevel | src/parsers/parse_gedcom_line.rs:160-179 | `"10 TAG Some value\n"` parses with level 10. |
| LineExamples.NoLineValue | src/parsers/parse_gedcom_line.rs:181-200 | `"0 TAG\n"` parses with no value. |
| LineExamples.WithXrefId | src/parsers/parse_gedcom_line.rs:118-137 | `"0 @I1@ INDI\n1 NAME\n"` parses with xref `I1` and leaves the next line. |
| LineExamples.NoLevel | src/parsers/parse_gedcom_line.rs:202-212 | A line without a level is rejected. |
| LineExamples.ThreeDigitLevelRejected | src/parsers/parse_gedcom_line.rs:214-224 | Any input starting with three digits is rejected. |
| LineExamples.OverlongTagRejected | src/parsers/parse_gedcom_line.rs:226-236 | A tag of 33 tag characters is rejected. |
| LineExamples.TrailingSpaceRejected | src/parsers/parse_gedcom_line.rs:124-125 | `level tag ` with a space directly before the terminator is rejected, because a value needs at least one character. |
| LineExamples.LineFeedCarriageReturn | src/parsers/parse_gedcom_line.rs:94-104 | `"\n\r"` consumes only the `"\n"`, even though `from_terminator` lists `"\n\r"`. |
| LineExamples.CarriageReturnLineFeed | src/parsers/parse_gedcom_line.rs:97 | `"\r\n"` is consumed as one terminator. |
| LegacyLine.LegacyTag | src/parse_gedcom_line.rs:37-43 | It succeeds iff the input starts with an alphanumeric. The tag is 1 to 32 alphanumerics, with no underscore. |
| LegacyLine.LegacyValue | src/parse_gedcom_line.rs:49-56 | It always succeeds, possibly empty. The value is everything up to the first CR or LF. |
| LegacyLine.LegacyTerminator | src/parse_gedcom_line.rs:66-73 | It succeeds iff the input starts with CR or LF. It consumes `"\r\n"` or `"\n\r"` when present, and otherwise the single character. |
| LegacyLine.ParseLegacyLine | src/parse_gedcom_line.rs:79-95 | Every parsed line has a level below 100, a valid alphanumeric tag, and a value without line breaks. |
| LegacyLine.LegacyTail | src/parse_gedcom_line.rs:83-85 | After the tag, the delimiter, value and terminator keep the level and tag, and the value has no line break. |
| LegacyLine.RenderLegacyParses | src/parse_gedcom_line.rs:79-95 | Round trip: any valid legacy line written as `level tag value\n`, followed by text that does not start with CR, parses back to the same line and leaves that text. |
| LegacyLine.RenderLegacyThenCarriageReturn | src/parse_gedcom_line.rs:66-73 | Followed by a CR, the same line consumes `"\n\r"` as its terminator. |
| LegacyLine.LegacyValueRequiresDelimiter | src/parse_gedcom_line.rs:81-84 | `level tag\n` without the delimiter before the value is rejected. |
| LegacyLine.LegacyValueLine | src/parse_gedcom_line.rs:97-115 | `"0 TAG Some value\n"` parses to level 0, tag `TAG`, value `Some value`, with nothing left. |
| LegacyLine.LegacyDoubleDigitLevel | src/parse_gedcom_line.rs:117-135 | `"10 TAG Some value\n"` parses with level 10. |
| LegacyLine.LegacyEmptyValue | src/parse_gedcom_line.rs:54-56 | `"0 TAG \n"` parses with the empty value. |
| LegacyLine.LegacyNoLevel | src/parse_gedcom_line.rs:137-147 | A line without a level is rejected. |
| LegacyLine.LegacyThreeDigitLevelRejected | src/parse_gedcom_line.rs:149-159 | Any line that starts with a three-digit level is rejected, whatever follows. |
| LegacyLine.LegacyOverlongTagRejected | src/parse_gedcom_line.rs:161-171 | A level, a delimiter and a tag of 33 or more alphanumerics is rejected, whatever follows. |
| DateParser.ParseSpace | src/parsers/parse_date.rs:31-33 | It succeeds iff the input starts with a space, and it consumes exactly one character. |
| DateParser.MonthFrom | src/parsers/parse_date.rs:35-52 | Trying the month codes from a given position, a match is a case-insensitive three-letter code and consumes exactly three characters. |
| DateParser.ParseMonth | src/parsers/parse_date.rs:35-52 | A parsed month's code matches the input's first three characters case-insensitively, and exactly those are consumed. |
| DateParser.ParseMonthExactly | src/parsers/parse_date.rs:35-52 | The input starts with a month's code, in any case, iff `ParseMonth` yields that month, which maps JAN to DEC in order. |
| DateParser.ParseYear | src/parsers/parse_date.rs:54-59 | It succeeds iff the input starts with three digits. It reads three or four digits as their value below 10000 and leaves a fifth digit in the rest. |
| DateParser.ParseDateExact | src/parsers/parse_date.rs:12-17 | A parsed exact date has a day below 100 and a year below 10000. |
| DateParser.ParseDateGreg | src/parsers/parse_date.rs:20-25 | A parsed Gregorian date has a day below 100 and a year below 10000. |
| DateParser.MonthIndex | src/gedcom_entities/dates.rs:50-64 | Each month has its position among the twelve, in calendar order. |
| DateParser.DateParsersAgree | src/parsers/parse_date.rs:12-25 | `parse_date_exact` and `parse_date_greg` accept the same inputs, with the same day, month, year and rest. |
| DateParser.RenderDateParses | src/parsers/parse_date.rs:20-25 | Round trip: `day MON year` with any spelling of the month code, followed by text that does not extend a 3-digit year, parses to that date and leaves the text. |
| DateParser.RenderDateExactParses | src/parsers/parse_date.rs:12-17 | The same round trip for `parse_date_exact`. |
| DateParser.LowerCaseMonth | src/parsers/parse_date.rs:35-52 | `"jan 2000"` is read as January, because month codes are matched case-insensitively. |
| DateParser.ShortYearRejected | src/parsers/parse_date.rs:54-59 | A one- or two-digit year is rejected. |
| ExactDateParser.MonthFrom | src/parsers/parse_date_exact.rs:27-44 | Trying the month codes from a given position, a match is an upper-case code prefix and consumes three characters. Failure returns the input. |
| ExactDateParser.ParseMonth | src/parsers/parse_date_exact.rs:27-44 | A parsed month's upper-case code is a prefix of the input, and exactly it is consumed. |
| ExactDateParser.ParseMonthExactly | src/parsers/parse_date_exact.rs:27-44 | The input starts with a month's upper-case code iff `ParseMonth` yields that month. |
| ExactDateParser.ParseDateExact | src/parsers/parse_date_exact.rs:12-17 | A parsed date has a day below 100 and a year below 10000. |
| ExactDateParser.CodeStartsUpper | src/parsers/parse_date_exact.rs:27-44 | Every month code starts with an upper-case letter. |
| ExactDateParser.LowerCaseMonthRejected | src/parsers/parse_date_exact.rs:27-44 | A month starting with a lower-case letter is rejected. |
| ExactDateParser.MonthAgrees | src/parsers/parse_date_exact.rs:27-44 | Whatever the case-sensitive month parser accepts, the case-insensitive one accepts with the same result. |
| ExactDateParser.AcceptedByCaseInsensitive | src/parsers/parse_date_exact.rs:12-17 | Every date this parser accepts is accepted identically by the parser of `src/parsers/parse_date.rs`. |
| ExactDateParser.MonthOn | src/parsers/parse_date_exact.rs:27-44 | Each upper-case code, followed by any text, parses to its month and leaves the text. |
| ExactDateParser.RenderDateParses | src/parsers/parse_date_exact.rs:12-17 | Round trip: `day MON year` with the upper-case code parses to that date and leaves the rest. |
| ExactDateParser.LowerCaseDateRejected | src/parsers/parse_date_exact.rs:12-17 | A date whose month is written starting in lower case is rejected. |
| TimeParser.ParseSeparator | src/parsers/parse_time_value.rs:34-36 | It succeeds iff the input starts with `:`, and it consumes exactly that. |
| TimeParser.OptSeconds | src/parsers/parse_time_value.rs:17 | Optional `:ss` always succeeds. When absent nothing is consumed; when present at least two characters are consumed. |
| TimeParser.ParseTimeValue | src/parsers/parse_time_value.rs:12-28 | Parsed hours and minutes are below 100, and so are the seconds when present. |
| TimeParser.RenderTimeParses | src/parsers/parse_time_value.rs:12-28 | Round trip: `hh:mm` or `hh:mm:ss`, followed by text that does not extend it, parses back to the same time value and leaves the text. |
| TimeParser.MissingSeparatorRejected | src/parsers/parse_time_value.rs:13-16 | Hours not followed by `:` are rejected. |
| TimeParser.MissingMinutesRejected | src/parsers/parse_time_value.rs:13-18 | Hours and `:` with no digit after them are rejected: the minutes are required. |
| TimeParser.DanglingSeparatorLeft | src/parsers/parse_time_value.rs:17 | `hh:mm:` not followed by a digit parses with no seconds and leaves the `:` in the rest. |
| Decoder.GedcomLineProgresses | src/parsers/parse_gedcom_line.rs:118-137 | Every line the line parser reads consumes at least one character. This makes the decoder terminate. |
| Decoder.Start | src/gedcom_data_format/de.rs:35-54 | Construction reads the first line as current and starts in value mode. There is a lookahead iff input remains after it. Any line failure is `InvalidGedcomLine`. |
| Decoder.Advance | src/gedcom_data_format/de.rs:56-71 | The lookahead becomes current and the mode is kept. The new lookahead is absent iff no input remained. Every step visits one line fewer, and a failure is `InvalidGedcomLine`. |
| Decoder.ReadStr | src/gedcom_data_format/de.rs:97-112 | In key mode the result is the tag. In value mode it is the value, and it fails with `ExpectedGedcomLineWithValue` iff the line has none. |
| Decoder.ChoosesMap | src/gedcom_data_format/de.rs:77-95 | `deserialize_any` reads a map exactly when it is in value mode and the next line exists and is one level deeper; in every other case it reads a string. |
| Decoder.RefusesMap | src/gedcom_data_format/de.rs:123-133 | `deserialize_map` fails with `ExpectedMap` exactly when a next line exists at any level other than one deeper; with no next line the map is read, and is empty. |
| Decoder.MapEnds | src/gedcom_data_format/de.rs:217-229 | The map's key step stops when no line follows, or, as written, when the next line is at exactly `map_level - 1`; the corrected rule stops at any level shallower than `map_level`. |
| Decoder.SeqEnds | src/gedcom_data_format/de.rs:180-195 | After its first element a sequence stops when no line follows or the next line has a different tag. |
| Decoder.Store | src/gedcom_data_format/de.rs:217-242 | Each key and value the map access yields is kept by a derived struct only when the key names one of its fields, always by a dictionary (a later key replacing an earlier one), and never by an ignored value. |
| Decoder.Finish | src/gedcom_data_format/de.rs:123-139 | When the map ends, a derived struct is assembled from the kept fields, a dictionary is the kept entries, and an ignored value is `Ignored`. |
| Decoder.AssembleRecord | src/gedcom_data_format/de.rs:123-139 | A derived struct's fields come out in declaration order, an unread `Option` field as absent. It succeeds iff every field was read or is optional. |
| Decoder.Decode | src/gedcom_data_format/de.rs:77-157 | Decoding never moves the cursor backwards. Its behaviour is stated by the lemmas in `DecoderProperties`. |
| Decoder.DecodeEntries | src/gedcom_data_format/de.rs:203-243 | A map's entries never move the cursor backwards. |
| Decoder.DecodeElements | src/gedcom_data_format/de.rs:160-200 | A sequence keeps the elements read so far and never moves the cursor backwards. |
| Decoder.FromStr | src/gedcom_data_format/de.rs:8-19 | A document whose first lines do not parse is `InvalidGedcomLine`. |
| Decoder.FromStrComplete | src/gedcom_data_format/de.rs:8-19 | The corrected `from_str` accepts only what `from_str` accepts, with the same value. |
| Decoder.DecodeAsEntries | src/gedcom_data_format/de.rs:123-139 | A struct, ignored value or map whose map is accepted decodes as the entries one level deeper than the current line. |
| Decoder.DecodeAsElements | src/gedcom_data_format/de.rs:175-199 | A sequence decodes its first element from the current line without moving, then its further elements. The first element's error is the sequence's error. |
| GedcomDeserializer.Deserializer.FromStr | src/gedcom_data_format/de.rs:35-54 | The new object succeeds iff `Start` does, and its fields are `Start`'s cursor. |
| GedcomDeserializer.Deserializer.ParseNextLine | src/gedcom_data_format/de.rs:56-71 | The fields become `Advance`'s cursor. On a parse error they are unchanged and the error is returned. |
| GedcomDeserializer.Deserializer.DeserializeStr | src/gedcom_data_format/de.rs:97-112 | The result is `ReadStr` of the fields, and nothing changes. |
| GedcomDeserializer.Deserializer.Deserialize | src/gedcom_data_format/de.rs:74-157 | Dispatch on the requested shape. Result and new fields are those `Decode` specifies. |
| GedcomDeserializer.Deserializer.DeserializeAny | src/gedcom_data_format/de.rs:77-95 | A map when the lookahead is exactly one level deeper in value mode, otherwise a string. Result and new fields are as `Decode` specifies. |
| GedcomDeserializer.Deserializer.DeserializeMap | src/gedcom_data_format/de.rs:123-139 | Refuses with `ExpectedMap` a lookahead at another depth, and otherwise visits the entries one level deeper. Result and new fields are as `Decode` specifies. |
| GedcomDeserializer.Deserializer.VisitMap | src/gedcom_data_format/de.rs:203-243 | The key/value loop of a derived struct or map over `GedcomMapAccess`. Result and new fields are as `DecodeEntries` specifies. |
| GedcomDeserializer.Deserializer.DeserializeSeq | src/gedcom_data_format/de.rs:114-121 | The element loop over `GedcomSequenceAccess`. Result and new fields are as `Decode` specifies for a sequence. |
| GedcomDeserializer.Deserializer.DeserializeEnum | src/gedcom_data_format/de.rs:141-151 | The variant is chosen through `GedcomEnumAccess`. Result and new fields are as `Decode` specifies for an enum. |
| GedcomDeserializer.MapAccess.NextKey | src/gedcom_data_format/de.rs:217-234 | At the map's end, per the stop rule, it yields none and changes nothing. Otherwise it advances exactly one line, sets key mode and yields that line's tag. |
| GedcomDeserializer.MapAccess.NextValue | src/gedcom_data_format/de.rs:236-242 | Sets value mode, does not advance, and decodes the value in place as `Decode` specifies. |
| GedcomDeserializer.SequenceAccess.NextElement | src/gedcom_data_format/de.rs:175-199 | The first element is decoded from the current line. A later one needs a lookahead with the sequence's tag, and is decoded after one advance in value mode. Otherwise it yields none and changes nothing. |
| GedcomDeserializer.EnumAccess.VariantSeed | src/gedcom_data_format/de.rs:253-261 | The variant is the current tag, read in key mode, which must name a variant (otherwise `unknown variant`). Afterwards the mode is value mode. |
| GedcomDeserializer.EnumAccess.UnitVariant | src/gedcom_data_format/de.rs:267-269 | A unit variant changes nothing. |
| GedcomDeserializer.EnumAccess.NewtypeVariant | src/gedcom_data_format/de.rs:271-276 | A newtype payload is decoded from the same current line, as `Decode` specifies. |
| GedcomDeserializer.DecodeDocument | src/gedcom_data_format/de.rs:8-19 | The imperative `from_str` returns exactly what `Decoder.FromStr` specifies. |
| DecoderProperties.DocumentLexes | src/parsers/parse_gedcom_line.rs:118-137 | The line parser reads any document of valid lines back as exactly those lines, one suffix at a time. |
| DecoderProperties.StartAt | src/gedcom_data_format/de.rs:35-54 | On a document, construction stands on the first line with the second as lookahead, in value mode. |
| DecoderProperties.AdvanceAt | src/gedcom_data_format/de.rs:56-71 | On a document, `parse_next_line` moves from line i to line i+1 and keeps the mode. |
| DecoderProperties.EntriesEndByRule | src/gedcom_data_format/de.rs:221-229 | A successfully decoded map leaves a cursor where its stop rule holds: no lookahead, or one the rule stops at. |
| DecoderProperties.EntriesEndShallower | src/gedcom_data_format/de.rs:221-229 | After a decoded map, any lookahead is at exactly the parent level as written, and shallower than the entries under the corrected rule. |
| DecoderProperties.StopRulesDiffer | src/gedcom_data_format/de.rs:221-229 | The written rule stops only where the corrected one does. They differ exactly on a lookahead two or more levels above the entries. |
| DecoderProperties.ElementsEndAtOtherTag | src/gedcom_data_format/de.rs:180-196 | A decoded sequence ends at no lookahead or at one with another tag, regardless of level, and the elements already read stay in front. |
| DecoderProperties.StrStaysOnLine | src/gedcom_data_format/de.rs:97-112 | A `&str` succeeds iff the line can be read as a string. It is the line's value (the tag in key mode), and the cursor does not move. |
| DecoderProperties.AnyDispatch | src/gedcom_data_format/de.rs:77-95 | In key mode a string or ignored value is the tag, read in place. In value mode without a deeper lookahead it succeeds iff the line has a value, in place. A map always moves forward. |
| DecoderProperties.DictRefused | src/gedcom_data_format/de.rs:123-133 | A map over a lookahead at a depth other than one deeper fails with `ExpectedMap`. |
| DecoderProperties.DictAtEnd | src/gedcom_data_format/de.rs:123-139 | A map on the last line succeeds with no entries and does not move. |
| DecoderProperties.StructWithoutChildren | src/gedcom_data_format/de.rs:77-95 | A struct on a line without children fails with `invalid type: string "v", expected struct Name`, or with `ExpectedGedcomLineWithValue` when the line has no value. |
| DecoderProperties.PresentOptionFails | src/gedcom_data_format/de.rs:153-157 | Because `option` is forwarded to `deserialize_any`, a present `Option` field never decodes. It is an `invalid type` error naming the map or string found. |
| DecoderProperties.EnumNamedByTag | src/gedcom_data_format/de.rs:253-269 | A decoded enum is the variant named by the current tag. A tag naming no variant is `unknown variant`. A unit variant consumes nothing and leaves value mode. |
| DecoderProperties.FromStrAt | src/gedcom_data_format/de.rs:8-19 | On a document, `from_str` is the decoding at its first line. It is accepted iff no input text remains, and errors pass through. |
| DecoderProperties.EntryStep | src/gedcom_data_format/de.rs:217-242 | A map that does not end advances to the next line, decodes that entry's value in value mode, stores it and goes on. |
| DecoderProperties.FinishAllPresent | src/gedcom_data_format/de.rs:123-139 | A struct whose fields were all read yields their values in declaration order. |
| DecoderProperties.FirstMissingField | src/gedcom_data_format/de.rs:123-139 | A struct with an unread non-optional field fails with `missing field`, naming the first such field in declaration order. |
| DecoderProperties.EntriesStop | src/gedcom_data_format/de.rs:221-229 | A map that ends yields its assembled value where it stands. |
| DecoderProperties.ElementsStop | src/gedcom_data_format/de.rs:188-195 | A sequence that ends yields the elements read so far where it stands. |
| DecoderProperties.ElementStep | src/gedcom_data_format/de.rs:188-198 | A sequence whose lookahead has its tag advances, decodes the next element in value mode and goes on. |
| DecoderProperties.SimpleStructDecodes | src/gedcom_data_format/de.rs:293-306 | `0 FOO / 1 BAR bar` decodes as `Foo { BAR: "bar" }`, ending on the last line. |
| DecoderProperties.SimpleStruct | src/gedcom_data_format/de.rs:293-306 | `from_str` of that document yields `Foo { BAR: "bar" }`. |
| DecoderProperties.StructWithIrrelevantField | src/gedcom_data_format/de.rs:308-321 | An unknown field between known ones is ignored, and the struct decodes. |
| DecoderProperties.MultipleFieldsTail | src/gedcom_data_format/de.rs:323-347 | The remaining fields of a three-field struct are read in order. |
| DecoderProperties.StructWithMultipleFields | src/gedcom_data_format/de.rs:323-347 | A struct with three fields decodes them all. |
| DecoderProperties.NestedInner | src/gedcom_data_format/de.rs:349-378 | The nested struct at level 1 decodes its two level-2 fields. |
| DecoderProperties.NestedStruct | src/gedcom_data_format/de.rs:349-378 | A struct holding a struct decodes. |
| DecoderProperties.NestedThenValueInner | src/gedcom_data_format/de.rs:380-407 | The nested struct ends at the lookahead back at level 1. |
| DecoderProperties.NestedStructThenValue | src/gedcom_data_format/de.rs:380-407 | A nested struct followed by a value of the outer struct decodes both. |
| DecoderProperties.ArrayElements | src/gedcom_data_format/de.rs:409-427 | Three lines with the same tag are read as three elements. |
| DecoderProperties.StructWithArrayField | src/gedcom_data_format/de.rs:409-427 | A `Vec` field over repeated tags decodes to all of them, in order. |
| DecoderProperties.ArrayThenValueElements | src/gedcom_data_format/de.rs:429-450 | The sequence stops at the first line with another tag. |
| DecoderProperties.StructWithArrayFieldThenValue | src/gedcom_data_format/de.rs:429-450 | A `Vec` field followed by another field decodes both. |
| DecoderProperties.StructWithArrayFieldOfOneValue | src/gedcom_data_format/de.rs:452-465 | A `Vec` field over one line is a one-element sequence. |
| DecoderProperties.NewtypeEnum | src/gedcom_data_format/de.rs:467-494 | The enum variant is named by the line's tag, and its newtype payload struct is decoded from the same line. |
| DecoderProperties.UnitVariantEnum | src/gedcom_data_format/de.rs:496-509 | A single line whose tag names a unit variant decodes to that variant. |
| DecoderProperties.DoubleAscentInnerAsWritten | src/gedcom_data_format/de.rs:221-229 | As written, the innermost map does not stop at a lookahead two levels up. It swallows that line as an unknown field of its own. |
| DecoderProperties.DoubleAscentAsWritten | src/gedcom_data_format/de.rs:221-229 | As written, the document with a two-level ascent fails with a `missing field` error for `END`. |
| DecoderProperties.DoubleAscentInnerCorrected | src/gedcom_data_format/de.rs:221-229 | Under the corrected rule the innermost map stops at the shallower lookahead. |
| DecoderProperties.DoubleAscentCorrected | src/gedcom_data_format/de.rs:221-229 | Under the corrected rule the same document decodes completely, including `END`. |
| DecoderProperties.DoubleAscentDocument | src/gedcom_data_format/de.rs:8-19 | On the text of that document, read by the line grammar, `from_str` fails as written and succeeds under the corrected rule. |
| DecoderProperties.LookaheadIgnored | src/gedcom_data_format/de.rs:14-18 | `from_str` and the corrected version differ exactly when decoding succeeds with no input text left but a lookahead line. Then `from_str` accepts and the corrected one reports trailing characters. |
| DecoderProperties.SecondRecordDropped | src/gedcom_data_format/de.rs:14-18 | A `&str` read from the first of two level-0 lines is accepted by `from_str`, silently dropping the second line. The corrected version rejects it. |
| DecoderProperties.SecondRecordDocument | src/gedcom_data_format/de.rs:8-19 | The same on the text `"0 FOO foo\n0 BAR bar\n"` read by the line grammar. |
| Entities.Scalar | src/gedcom_entities/dates.rs:15 | `String::deserialize` refuses a value with children (`invalid type: map, expected a string`) and otherwise reads the line's string. |
| Entities.ValuelessLineHasNoScalar | src/gedcom_entities/dates.rs:15 | A line without value or children gives `ExpectedGedcomLineWithValue`. |
| Entities.ParsingError | src/gedcom_entities/dates.rs:17 | A parser failure becomes a custom error whose message ends in the unparsed input. |
| Entities.TrailingAfter | src/gedcom_entities/dates.rs:21-23 | The trailing-characters message is a custom error naming the type. |
| Entities.DeserialiseDateExact | src/gedcom_entities/dates.rs:11-25 | A scalar error propagates unchanged. Otherwise it succeeds iff `parse_date_exact` consumes the whole string, and yields its date. A rest gives `Trailing characters left after parsing DateExact.` and a parse failure a parsing error. |
| Entities.DeserialiseDateGreg | src/gedcom_entities/dates.rs:34-48 | The same for `parse_date_greg`, with its own trailing message. |
| Entities.DateExactRoundTrip | src/gedcom_entities/dates.rs:11-25 | Any `day MON year` (year of 3 or 4 digits, month in any case) is accepted as that date. |
| Entities.DateGregRoundTrip | src/gedcom_entities/dates.rs:34-48 | The same for Gregorian dates. |
| Entities.DateExactTrailingRejected | src/gedcom_entities/dates.rs:18-24 | A valid date followed by any further text is refused with the trailing message. |
| Entities.DateGregTrailingRejected | src/gedcom_entities/dates.rs:41-47 | The same for Gregorian dates. |
| Entities.DeserialiseTimeValue | src/gedcom_entities/time_value.rs:11-25 | A scalar error propagates. Otherwise it succeeds iff `parse_time_value` consumes the whole string, and yields that time. A rest gives the TimeValue trailing message and a failure a parsing error. |
| Entities.TimeValueRoundTrip | src/gedcom_entities/time_value.rs:11-25 | Any `hh:mm` or `hh:mm:ss` text is accepted as that time. |
| Entities.DanglingSeparatorRejected | src/gedcom_entities/time_value.rs:18-24 | `hh:mm:` is refused with `Trailing characters left after parsing TimeValue.` |
| Entities.DeserializeBoolean | src/gedcom_entities/individual.rs:32-44 | A scalar error propagates. Otherwise the result is true for `"Y"`, false for `"N"`, and `Failed to parse boolean` for anything else. |
| Entities.BooleanRoundTrip | src/gedcom_entities/individual.rs:37-40 | Each boolean's code reads back as it, and only its code does. |
| Entities.LowerCaseBooleanRejected | src/gedcom_entities/individual.rs:41-43 | `"y"`, `"n"` and `""` are refused. |
| Entities.SexCode | src/gedcom_entities/individual.rs:46-54 | Every sex value has a one-letter code. |
| Entities.SexFromCode | src/gedcom_entities/individual.rs:46-54 | A code names the value whose code it is, and only `M`, `F` and `U` name one. |
| Entities.SexCodesRoundTrip | src/gedcom_entities/individual.rs:46-54 | Codes and values correspond one to one: exactly `M`, `F`, `U`. |
| Entities.SexDecodes | src/gedcom_entities/individual.rs:46-54 | Decoding `SexValue` reads the current tag. A code gives its unit variant in place, and any other tag gives `unknown variant`, naming the expected `M`, `F`, `U`. |

## Left out

- **Unicode classes.** `char::is_alphanumeric` is Unicode-wide in the source, but it is modelled on the ASCII letters and digits only. Unicode tables are not modelled.
- **Integer widths.** Levels, days and time components are `u8`, and years are `i16`. The parsers bound them below 100 and 10000, so no wrap-around can occur, and they are modelled as natural numbers.
- **Parser error detail.** `nom`'s error values are reduced to the remaining input.
  - `Entities.ParsingError` models the text of a wrapped parser failure as `Parsing Error: ` followed by the remaining input. The source's `Debug` rendering of `nom`'s error tuple and kind is not modelled.
  - The line parser's detailed error is discarded anyway, since it converts to `InvalidGedcomLine`.
- **serde's own messages.** Messages are modelled with serde's wording (`invalid type`, `missing field`, `duplicate field`, `unknown variant`), but without serde's escaping of quoted strings.
- **Variants.** `tuple_variant` and `struct_variant` are `unimplemented!()` in the source and are not offered: a `Variant` is a unit or newtype variant only.
- **Missing lookahead.** `parse_next_line` unwraps a missing lookahead and panics. Here it is a precondition (`c.next.Some?`), and every caller checks it first.
- **Line parser import.** `src/gedcom_data_format/de.rs:2` imports the line type and parser from `src/parse_gedcom_line.rs`, whose `GedcomLine` has no `xref_id` and a non-optional value. It matches neither shown parser as used by the decoder, whose code reads `Option` values. The decoder therefore reads `LineGrammar.Line` values and takes its line parser as a parameter. The lemmas on text use `ParseGedcomLine`.
- **Data binding.** serde's visitors, seeds and derived implementations are not modelled; the explicit `Shape` stands in for them.
  - Only the paths the decoder offers are modelled: strings, maps, sequences and enums.
  - An `Option` is forwarded to `deserialize_any`, so it is present only as `Absent` when its field is missing (see `DecoderProperties.PresentOptionFails`).
- **Not part of this model.** These have no behaviour beyond the schemas used as example shapes:
  - I/O and the command line (`src/main.rs`);
  - the relation output (`src/transform_gedcom_to_relation.rs`, `src/relation_entities/mod.rs`);
  - the header parsers of `src/parse_gedcom_header/`;
  - the schema-only entity declarations.
- **Integration tests.** The fixture-based tests are not modelled. They rely on files that are not part of this model, and they expect behaviours that the decoder as written does not have.
- **Module tree.** `src/parsers/parse_date_exact.rs` is not declared in `src/parsers/mod.rs`, so the entity helpers use `parse_date_exact` of `src/parsers/parse_date.rs`, which matches case-insensitively. The standalone file is still modelled as `ExactDateParser`.
- Decoder.Decode, Decoder.DecodeEntries, Decoder.DecodeElements: their own contracts only say that the cursor never moves backwards. What they decode is stated by the lemmas of `DecoderProperties`, for the general case and for every unit test of the source.
- **Small parsers.** `LineGrammar.ParseLevel`, `DateParser.ParseDay` and the `TimeParser` component parsers are names for `Decimals.ParseOneOrTwoDigits` and carry no contract of their own. The whole-line, whole-date and whole-time parsers only bound their results in their own contracts. What they accept is stated by the round-trip and rejection lemmas, for example `LineGrammar.RenderParses` and `DateParser.ShortYearRejected`.

## Findings

| source | as written | input that shows it | evidently intended | confidence | as-written member | corrected member |
|---|---|---|---|---|---|---|
| src/gedcom_data_format/de.rs:221-229 | A map ends only when the lookahead is at exactly `map_level - 1`. A lookahead two or more levels up is taken as one more key of the inner map. | `0 FOO\n1 BAR\n2 BAZ\n3 QUX qux\n1 END end\n` into `Foo { BAR: Bar { BAZ: Baz { QUX } }, END }`. `END` is swallowed by `Baz` as an unknown field, so the result is a `missing field` error for `END`. | A map ends at any lookahead shallower than its entries, and the document decodes with `END` = `end`. | medium, not executed | DecoderProperties.DoubleAscentAsWritten | DecoderProperties.DoubleAscentCorrected |
| src/gedcom_data_format/de.rs:14-18 | `from_str` checks only the unparsed input text. The lookahead line, already parsed out of that text, is not checked. | `0 FOO foo\n0 BAR bar\n` as a `&str`. `from_str` returns `foo` and the second line is dropped. | Input left over as a lookahead line is also trailing input, giving `TrailingCharacters`. | high, not executed | DecoderProperties.SecondRecordDropped | Decoder.FromStrComplete |
