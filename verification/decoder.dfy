/**
 * The structural decoder of src/gedcom_data_format/de.rs, as functions over
 * an explicit cursor.  The cursor holds the unparsed input, the current line,
 * one parsed line of lookahead and a key/value mode; nesting is inferred from
 * line levels alone.  The data-binding side (serde's visitors and derived
 * implementations) is replaced by an explicit description of the requested
 * shape: borrowed and owned strings, ignored values, structs, maps,
 * sequences, enums and optional fields.
 *
 * The functions here are the specification the `Deserializer` class of
 * deserializer.dfy is proved against.
 */
module Decoder {

  import opened Options
  import opened Scan
  import opened Errors
  import opened LineGrammar

  // ----- the cursor -----

  /** The stop rule of the map-key step (see `MapEnds`). */
  datatype MapEnd = ParentLevelOnly | AnyShallowerLevel

  /** `DeserializerState` */
  datatype State = DeserialisingKey | DeserialisingValue

  /** The fields of `Deserializer`: unparsed input, current line, lookahead, mode. */
  datatype Cursor = Cursor(remaining: string, current: Line, next: Option<Line>, state: State)

  /**
   * The decoder's parameters: the line parser it reads lines with, and the
   * stop rule of its map-key step.  The decoder of src/gedcom_data_format/de.rs
   * reads with `parse_gedcom_line` and stops as `ParentLevelOnly` says.
   */
  datatype Config = Config(parse: string -> ParseResult<Line>, rule: MapEnd)

  /** Every line the parser reads consumes at least one character. */
  ghost predicate Progresses(parse: string -> ParseResult<Line>)
  {
    forall s :: parse(s).Done? ==> |parse(s).rest| < |s|
  }

  /** The line parser of src/parsers/parse_gedcom_line.rs makes progress. */
  lemma GedcomLineProgresses()
    ensures Progresses(ParseGedcomLine)
  {
    forall s | ParseGedcomLine(s).Done? ensures |ParseGedcomLine(s).rest| < |s| {
      ParsedLineConsumesThroughBreak(s);
    }
  }

  /** Lines still to be visited: the unparsed characters, plus one for a lookahead line. */
  function Measure(c: Cursor): nat
  {
    |c.remaining| + if c.next.Some? then 1 else 0
  }

  /**
   * `Deserializer::from_str`: the first line, then a lookahead line if any
   * input remains, in value mode.  A line-parser failure is `InvalidGedcomLine`.
   */
  function Start(cfg: Config, input: string): (r: Result<Cursor>)
    ensures r.Ok? ==> r.value.state == DeserialisingValue
    ensures r.Ok? ==> cfg.parse(input).Done? && r.value.current == cfg.parse(input).value
    ensures r.Ok? ==> (r.value.next.None? <==> cfg.parse(input).rest == [])
    ensures r.Err? ==> r.error == InvalidGedcomLine
  {
    match cfg.parse(input)
    case Fail(at) => Err(FromLineError(at))
    case Done(rest, current) =>
      if rest == [] then Ok(Cursor(rest, current, None, DeserialisingValue))
      else
        match cfg.parse(rest)
        case Fail(at) => Err(FromLineError(at))
        case Done(rest2, next) => Ok(Cursor(rest2, current, Some(next), DeserialisingValue))
  }

  /**
   * `parse_next_line`: the lookahead becomes the current line; the new
   * lookahead is the next parsed line, or none once the input is exhausted.
   * The mode is kept.  Every successful step visits one line fewer.
   */
  function Advance(cfg: Config, c: Cursor): (r: Result<Cursor>)
    requires Progresses(cfg.parse) && c.next.Some?
    ensures r.Ok? ==> Measure(r.value) < Measure(c)
    ensures r.Ok? ==> r.value.current == c.next.value && r.value.state == c.state
    ensures r.Ok? ==> (r.value.next.None? <==> c.remaining == [])
    ensures r.Err? ==> r.error == InvalidGedcomLine
  {
    if c.remaining == [] then
      Ok(Cursor(c.remaining, c.next.value, None, c.state))
    else
      match cfg.parse(c.remaining)
      case Fail(at) => Err(FromLineError(at))
      case Done(rest, line) => Ok(Cursor(rest, c.next.value, Some(line), c.state))
  }

  // ----- the requested shapes and the decoded values -----

  /** What the data-binding side asks the decoder for. */
  datatype Shape =
    | Str                                   // `&str`: `deserialize_str`
    | Owned                                 // `String`: forwarded to `deserialize_any`
    | Any                                   // `IgnoredAny`, for unknown struct fields
    | Struct(name: string, fields: seq<Field>)  // a derived struct: forwarded to `deserialize_any`
    | Dict(value: Shape)                    // a string-keyed map: `deserialize_map`
    | Seq(element: Shape)                   // `Vec<T>`: `deserialize_seq`
    | Enum(variants: seq<Variant>)          // a derived enum: `deserialize_enum`
    | Optional(inner: Shape)                // `Option<T>`: forwarded to `deserialize_any`

  /** A struct field, under its (renamed) GEDCOM tag. */
  datatype Field = Field(key: string, shape: Shape)

  /** An enum variant, under its (renamed) GEDCOM tag: a unit variant or one carrying a payload. */
  datatype Variant = Unit(key: string) | Newtype(key: string, payload: Shape)

  datatype Value =
    | Text(text: string)
    | Ignored
    | Record(values: seq<Value>)
    | Entries(entries: map<string, Value>)
    | List(items: seq<Value>)
    | Chosen(variant: string, payload: Option<Value>)
    | Absent

  /** A decoded value and the cursor after it. */
  datatype Decoded = Decoded(cursor: Cursor, value: Value)

  // ----- the data-binding side's error messages -----

  function InvalidType(unexpected: string, expected: string): Error
  {
    DeCustom("invalid type: " + unexpected + ", expected " + expected)
  }

  /** How an unexpected string is named in an `invalid type` message. */
  function StringNamed(s: string): string
  {
    "string \"" + s + "\""
  }

  function MissingField(key: string): Error
  {
    DeCustom("missing field `" + key + "`")
  }

  function DuplicateField(key: string): Error
  {
    DeCustom("duplicate field `" + key + "`")
  }

  function Quoted(names: seq<string>): string
  {
    if names == [] then "" else
    "`" + names[0] + "`" + (if |names| == 1 then "" else ", " + Quoted(names[1..]))
  }

  function UnknownVariant(key: string, names: seq<string>): Error
  {
    DeCustom("unknown variant `" + key + "`, " +
      if names == [] then "there are no variants"
      else if |names| == 1 then "expected `" + names[0] + "`"
      else if |names| == 2 then "expected `" + names[0] + "` or `" + names[1] + "`"
      else "expected one of " + Quoted(names))
  }

  // ----- dispatch -----

  /**
   * `deserialize_str`: in key mode the current tag; in value mode the current
   * value, failing with `ExpectedGedcomLineWithValue` on a line without one.
   */
  function ReadStr(c: Cursor): (r: Result<string>)
    ensures c.state == DeserialisingKey ==> r == Ok(c.current.tag)
    ensures c.state == DeserialisingValue ==>
      (r.Ok? <==> c.current.value.Some?) && (r.Ok? ==> r.value == c.current.value.value)
    ensures r.Err? ==> r.error == ExpectedGedcomLineWithValue
  {
    match c.state
    case DeserialisingKey => Ok(c.current.tag)
    case DeserialisingValue =>
      if c.current.value.Some? then Ok(c.current.value.value) else Err(ExpectedGedcomLineWithValue)
  }

  /** `deserialize_any` turns to `deserialize_map`: value mode with a lookahead exactly one level deeper. */
  predicate ChoosesMap(c: Cursor)
  {
    c.state == DeserialisingValue && c.next.Some? && c.next.value.level == c.current.level + 1
  }

  /** `deserialize_map` refuses: a lookahead at any level but one deeper. */
  predicate RefusesMap(c: Cursor)
  {
    c.next.Some? && c.next.value.level != c.current.level + 1
  }

  /**
   * The map-key step of `GedcomMapAccess` stops: no lookahead, or (as
   * written) a lookahead at exactly the parent level `map_level - 1`, or
   * (corrected) a lookahead at any level above `map_level`.
   */
  predicate MapEnds(rule: MapEnd, c: Cursor, mapLevel: nat)
  {
    c.next.None? ||
    match rule
    case ParentLevelOnly => c.next.value.level + 1 == mapLevel
    case AnyShallowerLevel => c.next.value.level < mapLevel
  }

  /** The sequence step of `GedcomSequenceAccess` stops: no lookahead, or one with another tag. */
  predicate SeqEnds(c: Cursor, tag: string)
  {
    c.next.None? || c.next.value.tag != tag
  }

  predicate MapLike(shape: Shape)
  {
    shape.Struct? || shape.Dict? || shape.Any?
  }

  /** The position of the first of `keys` equal to `key`, if any: how a field or a variant is looked up by name. */
  function KeyIndex(keys: seq<string>, key: string): (r: Option<nat>)
    ensures r.Some? ==> r.value < |keys| && keys[r.value] == key
    ensures r.Some? ==> forall j :: 0 <= j < r.value ==> keys[j] != key
    ensures r.None? ==> forall j :: 0 <= j < |keys| ==> keys[j] != key
  {
    if keys == [] then None
    else if keys[0] == key then Some(0)
    else
      match KeyIndex(keys[1..], key)
      case None => None
      case Some(i) => Some(i + 1)
  }

  /** The keys of a struct's fields, in declaration order. */
  function FieldNames(fields: seq<Field>): seq<string>
  {
    seq(|fields|, i requires 0 <= i < |fields| => fields[i].key)
  }

  function VariantNames(variants: seq<Variant>): (names: seq<string>)
    ensures |names| == |variants| && forall i :: 0 <= i < |variants| ==> names[i] == variants[i].key
  {
    if variants == [] then [] else [variants[0].key] + VariantNames(variants[1..])
  }

  /** The shape the value under `key` is decoded with: the field's own shape, or `Any` for an unknown field. */
  function ValueShape(shape: Shape, key: string): Shape
    requires MapLike(shape)
  {
    match shape
    case Struct(_, fields) =>
      (match KeyIndex(FieldNames(fields), key) case Some(i) => fields[i].shape case None => Any)
    case Dict(value) => value
    case Any => Any
  }

  /** What a map-like value keeps of a decoded entry: struct fields and map entries, nothing for ignored values. */
  function Store(shape: Shape, acc: map<string, Value>, key: string, v: Value): map<string, Value>
    requires MapLike(shape)
  {
    match shape
    case Struct(_, fields) => if KeyIndex(FieldNames(fields), key).Some? then acc[key := v] else acc
    case Dict(_) => acc[key := v]
    case Any => acc
  }

  /** A struct's fields in declaration order; an absent optional field is `Absent`, any other absent field an error. */
  function AssembleRecord(fields: seq<Field>, acc: map<string, Value>): (r: Result<seq<Value>>)
    ensures r.Ok? ==> |r.value| == |fields|
    ensures r.Ok? ==> forall i :: 0 <= i < |fields| ==>
      r.value[i] == if fields[i].key in acc then acc[fields[i].key] else Absent
    ensures r.Ok? <==> forall i :: 0 <= i < |fields| ==> fields[i].key in acc || fields[i].shape.Optional?
  {
    if fields == [] then Ok([])
    else
      var head :=
        if fields[0].key in acc then Ok(acc[fields[0].key])
        else if fields[0].shape.Optional? then Ok(Absent)
        else Err(MissingField(fields[0].key));
      match head
      case Err(e) => Err(e)
      case Ok(v) =>
        match AssembleRecord(fields[1..], acc)
        case Err(e) => Err(e)
        case Ok(vs) => Ok([v] + vs)
  }

  /** The value a finished map-like decode yields. */
  function Finish(shape: Shape, acc: map<string, Value>): Result<Value>
    requires MapLike(shape)
  {
    match shape
    case Struct(_, fields) =>
      (match AssembleRecord(fields, acc) case Err(e) => Err(e) case Ok(vs) => Ok(Record(vs)))
    case Dict(_) => Ok(Entries(acc))
    case Any => Ok(Ignored)
  }

  // ----- decoding -----

  /**
   * Decode one value of `shape` at cursor `c`.  Nothing is consumed beyond
   * the value: the cursor after it visits no more lines than before.
   */
  function Decode(cfg: Config, c: Cursor, shape: Shape): (r: Result<Decoded>)
    requires Progresses(cfg.parse)
    ensures r.Ok? ==> Measure(r.value.cursor) <= Measure(c)
    decreases Measure(c), shape, 2
  {
    match shape
    case Str =>
      (match ReadStr(c)
       case Err(e) => Err(e)
       case Ok(s) => Ok(Decoded(c, Text(s))))
    case Owned =>
      if ChoosesMap(c) then Err(InvalidType("map", "a string"))
      else
        (match ReadStr(c)
         case Err(e) => Err(e)
         case Ok(s) => Ok(Decoded(c, Text(s))))
    case Any =>
      if ChoosesMap(c) then DecodeEntries(cfg, c, c.current.level + 1, shape, map[])
      else
        (match ReadStr(c)
         case Err(e) => Err(e)
         case Ok(_) => Ok(Decoded(c, Ignored)))
    case Struct(name, _) =>
      if ChoosesMap(c) then DecodeEntries(cfg, c, c.current.level + 1, shape, map[])
      else
        (match ReadStr(c)
         case Err(e) => Err(e)
         case Ok(s) => Err(InvalidType(StringNamed(s), "struct " + name)))
    case Dict(_) =>
      if RefusesMap(c) then Err(ExpectedMap)
      else DecodeEntries(cfg, c, c.current.level + 1, shape, map[])
    case Seq(element) =>
      (match Decode(cfg, c, element)
       case Err(e) => Err(e)
       case Ok(first) => DecodeElements(cfg, first.cursor, c.current.tag, shape, [first.value]))
    case Enum(variants) =>
      (match KeyIndex(VariantNames(variants), c.current.tag)
       case None => Err(UnknownVariant(c.current.tag, VariantNames(variants)))
       case Some(i) =>
         var c1 := c.(state := DeserialisingValue);
         match variants[i]
         case Unit(key) => Ok(Decoded(c1, Chosen(key, None)))
         case Newtype(key, payload) =>
           (match Decode(cfg, c1, payload)
            case Err(e) => Err(e)
            case Ok(d) => Ok(Decoded(d.cursor, Chosen(key, Some(d.value))))))
    case Optional(_) =>
      if ChoosesMap(c) then Err(InvalidType("map", "option"))
      else
        (match ReadStr(c)
         case Err(e) => Err(e)
         case Ok(s) => Err(InvalidType(StringNamed(s), "option")))
  }

  /**
   * The entries of a map at `mapLevel`, after those already kept in `acc`:
   * each key step moves to the lookahead line and reads its tag in key mode;
   * each value step switches to value mode and decodes the value in place.
   */
  function DecodeEntries(cfg: Config, c: Cursor, mapLevel: nat, shape: Shape, acc: map<string, Value>): (r: Result<Decoded>)
    requires Progresses(cfg.parse) && MapLike(shape)
    ensures r.Ok? ==> Measure(r.value.cursor) <= Measure(c)
    decreases Measure(c), shape, 1
  {
    if MapEnds(cfg.rule, c, mapLevel) then
      (match Finish(shape, acc)
       case Err(e) => Err(e)
       case Ok(v) => Ok(Decoded(c, v)))
    else
      match Advance(cfg, c)
      case Err(e) => Err(e)
      case Ok(c1) =>
        var key := c1.current.tag;
        if shape.Struct? && KeyIndex(FieldNames(shape.fields), key).Some? && key in acc then Err(DuplicateField(key))
        else
          match Decode(cfg, c1.(state := DeserialisingValue), ValueShape(shape, key))
          case Err(e) => Err(e)
          case Ok(d) => DecodeEntries(cfg, d.cursor, mapLevel, shape, Store(shape, acc, key, d.value))
  }

  /**
   * The elements of a sequence after those in `acc`: while the lookahead
   * carries the tag the sequence began with, move to it and decode the next
   * element in value mode.
   */
  function DecodeElements(cfg: Config, c: Cursor, tag: string, shape: Shape, acc: seq<Value>): (r: Result<Decoded>)
    requires Progresses(cfg.parse) && shape.Seq?
    ensures r.Ok? ==> Measure(r.value.cursor) <= Measure(c)
    ensures r.Ok? ==> r.value.value.List? && |r.value.value.items| >= |acc|
    decreases Measure(c), shape, 1
  {
    if SeqEnds(c, tag) then Ok(Decoded(c, List(acc)))
    else
      match Advance(cfg, c)
      case Err(e) => Err(e)
      case Ok(c1) =>
        match Decode(cfg, c1.(state := DeserialisingValue), shape.element)
        case Err(e) => Err(e)
        case Ok(d) => DecodeElements(cfg, d.cursor, tag, shape, acc + [d.value])
  }

  /**
   * `from_str`: start, decode, and refuse input left unparsed.  The
   * lookahead line, already parsed, is not looked at.
   */
  function FromStr(cfg: Config, input: string, shape: Shape): (r: Result<Value>)
    requires Progresses(cfg.parse)
    ensures Start(cfg, input).Err? ==> r == Err(InvalidGedcomLine)
  {
    match Start(cfg, input)
    case Err(e) => Err(e)
    case Ok(c) =>
      match Decode(cfg, c, shape)
      case Err(e) => Err(e)
      case Ok(d) => if d.cursor.remaining == [] then Ok(d.value) else Err(TrailingCharacters)
  }

  /** `from_str` as evidently intended: the lookahead line also counts as trailing input. */
  function FromStrComplete(cfg: Config, input: string, shape: Shape): (r: Result<Value>)
    requires Progresses(cfg.parse)
    ensures r.Ok? ==> FromStr(cfg, input, shape) == r
  {
    match Start(cfg, input)
    case Err(e) => Err(e)
    case Ok(c) =>
      match Decode(cfg, c, shape)
      case Err(e) => Err(e)
      case Ok(d) =>
        if d.cursor.remaining == [] && d.cursor.next.None? then Ok(d.value) else Err(TrailingCharacters)
  }

  // ----- one step of the definitions, for the imperative decoder -----

  /** A map-like shape whose map is accepted decodes as the entries at the next level. */
  lemma DecodeAsEntries(cfg: Config, c: Cursor, shape: Shape)
    requires Progresses(cfg.parse) && MapLike(shape) && (if shape.Dict? then !RefusesMap(c) else ChoosesMap(c))
    ensures Decode(cfg, c, shape) == DecodeEntries(cfg, c, c.current.level + 1, shape, map[])
  {
  }

  /** A sequence decodes its first element in place, then the elements that follow. */
  lemma DecodeAsElements(cfg: Config, c: Cursor, shape: Shape)
    requires Progresses(cfg.parse) && shape.Seq?
    ensures Decode(cfg, c, shape.element).Err? ==> Decode(cfg, c, shape) == Err(Decode(cfg, c, shape.element).error)
    ensures Decode(cfg, c, shape.element).Ok? ==>
      var head := Decode(cfg, c, shape.element).value;
      Decode(cfg, c, shape) == DecodeElements(cfg, head.cursor, c.current.tag, shape, [head.value])
  {
  }
}
