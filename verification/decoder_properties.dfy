/**
 * What the structural decoder of src/gedcom_data_format/de.rs does with a
 * whole document: it walks the document's lines in order, keeping one line
 * of lookahead; a map ends where its stop rule says; a sequence ends at the
 * first line with another tag; and `from_str` accepts a document once the
 * input text (but not necessarily the lookahead line) is used up.
 */
module DecoderProperties {

  import opened Options
  import opened Scan
  import opened Errors
  import opened LineGrammar
  import opened Decoder

  // ----- documents and the lines they are read as -----

  /** The text of a document: its lines, each rendered and ended by a line feed. */
  function Document(lines: seq<Line>): string
  {
    if lines == [] then [] else Render(lines[0]) + Document(lines[1..])
  }

  /**
   * `parse` reads the text `suffixes[0]` as `lines`: the i-th line is read
   * from `suffixes[i]` and leaves `suffixes[i + 1]`, the last one leaving
   * nothing.
   */
  predicate Lexes(parse: string -> ParseResult<Line>, suffixes: seq<string>, lines: seq<Line>)
  {
    && |suffixes| == |lines| + 1
    && suffixes[|lines|] == []
    && forall i :: 0 <= i < |lines| ==> parse(suffixes[i]) == Done(suffixes[i + 1], lines[i])
  }

  /** The suffixes of a document that begin at each of its lines. */
  function Suffixes(lines: seq<Line>): (s: seq<string>)
    ensures |s| == |lines| + 1
    ensures forall i :: 0 <= i <= |lines| ==> s[i] == Document(lines[i..])
  {
    if lines == [] then [[]]
    else
      var tail := Suffixes(lines[1..]);
      assert forall i :: 1 <= i <= |lines| ==> lines[i..] == lines[1..][i - 1..];
      [Document(lines)] + tail
  }

  /** The first line of a document is read back from its text, leaving the rest of the document. */
  lemma FirstLineParses(lines: seq<Line>)
    requires |lines| >= 1 && ValidLine(lines[0])
    ensures ParseGedcomLine(Document(lines)) == Done(Document(lines[1..]), lines[0])
  {
    RenderParses(lines[0], Document(lines[1..]));
  }

  /** The line grammar reads a document of valid lines back as those lines. */
  lemma DocumentLexes(lines: seq<Line>)
    requires forall i :: 0 <= i < |lines| ==> ValidLine(lines[i])
    ensures Lexes(ParseGedcomLine, Suffixes(lines), lines)
  {
    var s := Suffixes(lines);
    assert s[|lines|] == Document([]);
    forall i | 0 <= i < |lines|
      ensures ParseGedcomLine(s[i]) == Done(s[i + 1], lines[i])
    {
      assert lines[i..][1..] == lines[i + 1..];
      FirstLineParses(lines[i..]);
    }
  }

  /** The decoder standing on line `i` of a lexed document, with line `i + 1` as lookahead. */
  function At(suffixes: seq<string>, lines: seq<Line>, i: nat, state: State): Cursor
    requires |suffixes| == |lines| + 1 && i < |lines|
  {
    if i + 1 < |lines| then Cursor(suffixes[i + 2], lines[i], Some(lines[i + 1]), state)
    else Cursor([], lines[i], None, state)
  }

  /** `Deserializer::from_str` on a lexed document stands on its first line, in value mode. */
  lemma {:induction false} StartAt(cfg: Config, suffixes: seq<string>, lines: seq<Line>)
    requires Progresses(cfg.parse) && Lexes(cfg.parse, suffixes, lines) && |lines| >= 1
    ensures Start(cfg, suffixes[0]) == Ok(At(suffixes, lines, 0, DeserialisingValue))
  {
    assert cfg.parse(suffixes[0]) == Done(suffixes[1], lines[0]);
    if |lines| >= 2 {
      assert cfg.parse(suffixes[1]) == Done(suffixes[2], lines[1]);
      assert |suffixes[2]| < |suffixes[1]|;
    }
  }

  /** `parse_next_line` on a lexed document moves to the next line and keeps the mode. */
  lemma {:induction false} AdvanceAt(cfg: Config, suffixes: seq<string>, lines: seq<Line>, i: nat, state: State)
    requires Progresses(cfg.parse) && Lexes(cfg.parse, suffixes, lines) && i + 1 < |lines|
    ensures Advance(cfg, At(suffixes, lines, i, state)) == Ok(At(suffixes, lines, i + 1, state))
  {
    if i + 2 < |lines| {
      assert cfg.parse(suffixes[i + 2]) == Done(suffixes[i + 3], lines[i + 2]);
      assert |suffixes[i + 3]| < |suffixes[i + 2]|;
    }
  }

  // ----- where maps and sequences end -----

  /**
   * A map's entries end where the stop rule says: when decoding succeeds, the
   * cursor it leaves has no lookahead or one the rule stops at.
   */
  lemma {:induction false} EntriesEndByRule(cfg: Config, c: Cursor, mapLevel: nat, shape: Shape, acc: map<string, Value>)
    requires Progresses(cfg.parse) && MapLike(shape)
    requires DecodeEntries(cfg, c, mapLevel, shape, acc).Ok?
    ensures MapEnds(cfg.rule, DecodeEntries(cfg, c, mapLevel, shape, acc).value.cursor, mapLevel)
    decreases Measure(c)
  {
    if !MapEnds(cfg.rule, c, mapLevel) {
      var c1 := Advance(cfg, c).value;
      var key := c1.current.tag;
      var d := Decode(cfg, c1.(state := DeserialisingValue), ValueShape(shape, key)).value;
      EntriesEndByRule(cfg, d.cursor, mapLevel, shape, Store(shape, acc, key, d.value));
    }
  }

  /**
   * Under the corrected rule a map never ends while the lookahead is still
   * inside it: what follows a decoded map is shallower than its entries.
   * Under the rule as written it ends only at exactly the parent level.
   */
  lemma EntriesEndShallower(cfg: Config, c: Cursor, mapLevel: nat, shape: Shape, acc: map<string, Value>)
    requires Progresses(cfg.parse) && MapLike(shape)
    requires DecodeEntries(cfg, c, mapLevel, shape, acc).Ok?
    ensures var after := DecodeEntries(cfg, c, mapLevel, shape, acc).value.cursor;
      after.next.Some? ==>
        (cfg.rule == AnyShallowerLevel ==> after.next.value.level < mapLevel)
        && (cfg.rule == ParentLevelOnly ==> after.next.value.level + 1 == mapLevel)
  {
    EntriesEndByRule(cfg, c, mapLevel, shape, acc);
  }

  /**
   * The two stop rules agree except on a lookahead two or more levels above
   * the map's entries, where only the corrected rule stops.
   */
  lemma StopRulesDiffer(c: Cursor, mapLevel: nat)
    requires c.next.Some?
    ensures MapEnds(ParentLevelOnly, c, mapLevel) ==> MapEnds(AnyShallowerLevel, c, mapLevel)
    ensures MapEnds(AnyShallowerLevel, c, mapLevel) != MapEnds(ParentLevelOnly, c, mapLevel)
      <==> c.next.value.level + 1 < mapLevel
  {
  }

  /**
   * A sequence's elements end at the first lookahead with another tag (or
   * at the end of the input), and the elements already decoded stay in front.
   */
  lemma {:induction false} ElementsEndAtOtherTag(cfg: Config, c: Cursor, tag: string, shape: Shape, acc: seq<Value>)
    requires Progresses(cfg.parse) && shape.Seq?
    requires DecodeElements(cfg, c, tag, shape, acc).Ok?
    ensures var d := DecodeElements(cfg, c, tag, shape, acc).value;
      SeqEnds(d.cursor, tag) && d.value.List? && acc <= d.value.items
    decreases Measure(c)
  {
    if !SeqEnds(c, tag) {
      var c1 := Advance(cfg, c).value;
      var d := Decode(cfg, c1.(state := DeserialisingValue), shape.element).value;
      ElementsEndAtOtherTag(cfg, d.cursor, tag, shape, acc + [d.value]);
    }
  }

  // ----- dispatch on one line -----

  /** A borrowed string never moves the decoder: it is the line's value (or tag, in key mode). */
  lemma StrStaysOnLine(cfg: Config, c: Cursor)
    requires Progresses(cfg.parse)
    ensures Decode(cfg, c, Str).Ok? <==> ReadStr(c).Ok?
    ensures Decode(cfg, c, Str).Ok? ==> Decode(cfg, c, Str).value == Decoded(c, Text(ReadStr(c).value))
  {
  }

  /** A string-keyed map over a lookahead at another depth than one deeper is refused. */
  lemma DictRefused(cfg: Config, c: Cursor, value: Shape)
    requires Progresses(cfg.parse) && RefusesMap(c)
    ensures Decode(cfg, c, Dict(value)) == Err(ExpectedMap)
  {
  }

  /** A string-keyed map on the last line is empty. */
  lemma DictAtEnd(cfg: Config, c: Cursor, value: Shape)
    requires Progresses(cfg.parse) && c.next.None?
    ensures Decode(cfg, c, Dict(value)) == Ok(Decoded(c, Entries(map[])))
  {
  }

  /** A struct on a line without children is refused, naming the string found or the missing value. */
  lemma StructWithoutChildren(cfg: Config, c: Cursor, name: string, fields: seq<Field>)
    requires Progresses(cfg.parse) && !ChoosesMap(c)
    ensures ReadStr(c).Ok? ==>
      Decode(cfg, c, Struct(name, fields)) == Err(InvalidType(StringNamed(ReadStr(c).value), "struct " + name))
    ensures ReadStr(c).Err? ==> Decode(cfg, c, Struct(name, fields)) == Err(ExpectedGedcomLineWithValue)
  {
  }

  /**
   * An `Option` field that is present never decodes: `deserialize_option` is
   * forwarded to `deserialize_any`, which offers the visitor a string or a
   * map, and neither is an option.
   */
  lemma PresentOptionFails(cfg: Config, c: Cursor, inner: Shape)
    requires Progresses(cfg.parse)
    ensures Decode(cfg, c, Optional(inner)).Err?
    ensures ChoosesMap(c) ==> Decode(cfg, c, Optional(inner)) == Err(InvalidType("map", "option"))
    ensures !ChoosesMap(c) && ReadStr(c).Ok? ==>
      Decode(cfg, c, Optional(inner)) == Err(InvalidType(StringNamed(ReadStr(c).value), "option"))
  {
  }

  /**
   * `deserialize_any`: in key mode every string-like or ignored value is the
   * current tag, read without moving; in value mode it reads the line's own
   * value in place unless a lookahead one level deeper makes it a map, and
   * a map always moves past at least one line.
   */
  lemma AnyDispatch(cfg: Config, c: Cursor)
    requires Progresses(cfg.parse)
    ensures c.state == DeserialisingKey ==> Decode(cfg, c, Owned) == Ok(Decoded(c, Text(c.current.tag)))
    ensures c.state == DeserialisingKey ==> Decode(cfg, c, Any) == Ok(Decoded(c, Ignored))
    ensures !ChoosesMap(c) ==> (Decode(cfg, c, Any).Ok? <==> ReadStr(c).Ok?)
    ensures !ChoosesMap(c) && Decode(cfg, c, Any).Ok? ==> Decode(cfg, c, Any).value.cursor == c
    ensures ChoosesMap(c) && Decode(cfg, c, Any).Ok? ==> Measure(Decode(cfg, c, Any).value.cursor) < Measure(c)
  {
    if ChoosesMap(c) && Decode(cfg, c, Any).Ok? {
      DecodeAsEntries(cfg, c, Any);
      var c1 := Advance(cfg, c).value;
      var d := Decode(cfg, c1.(state := DeserialisingValue), Any).value;
      assert Measure(d.cursor) <= Measure(c1) < Measure(c);
    }
  }

  /**
   * An enum is named by the current line's tag: a decoded enum is the variant
   * of that name, and a tag naming no variant is an unknown variant.  A unit
   * variant consumes nothing and leaves the decoder in value mode.
   */
  lemma EnumNamedByTag(cfg: Config, c: Cursor, variants: seq<Variant>)
    requires Progresses(cfg.parse)
    ensures KeyIndex(VariantNames(variants), c.current.tag).None? ==>
      Decode(cfg, c, Enum(variants)) == Err(UnknownVariant(c.current.tag, VariantNames(variants)))
    ensures Decode(cfg, c, Enum(variants)).Ok? ==>
      var d := Decode(cfg, c, Enum(variants)).value;
      d.value.Chosen? && d.value.variant == c.current.tag
    ensures var i := KeyIndex(VariantNames(variants), c.current.tag);
      i.Some? && variants[i.value].Unit? ==>
        Decode(cfg, c, Enum(variants)) == Ok(Decoded(c.(state := DeserialisingValue), Chosen(c.current.tag, None)))
  {
  }

  // ----- one step of a map or a sequence -----

  /** `from_str` on a lexed document is the decoding at its first line, accepted once no input text is left. */
  lemma FromStrAt(cfg: Config, suffixes: seq<string>, lines: seq<Line>, shape: Shape)
    requires Progresses(cfg.parse) && Lexes(cfg.parse, suffixes, lines) && |lines| >= 1
    ensures var r := Decode(cfg, At(suffixes, lines, 0, DeserialisingValue), shape);
      (r.Err? ==> FromStr(cfg, suffixes[0], shape) == Err(r.error))
      && (r.Ok? ==> FromStr(cfg, suffixes[0], shape)
                      == if r.value.cursor.remaining == [] then Ok(r.value.value) else Err(TrailingCharacters))
  {
    StartAt(cfg, suffixes, lines);
  }

  /** A map that does not end moves to its next entry line, decodes the entry's value there, and goes on after it. */
  lemma EntryStep(cfg: Config, c: Cursor, c1: Cursor, mapLevel: nat, shape: Shape, acc: map<string, Value>, d: Decoded)
    requires Progresses(cfg.parse) && MapLike(shape)
    requires !MapEnds(cfg.rule, c, mapLevel) && Advance(cfg, c) == Ok(c1)
    requires !(shape.Struct? && KeyIndex(FieldNames(shape.fields), c1.current.tag).Some? && c1.current.tag in acc)
    requires Decode(cfg, c1.(state := DeserialisingValue), ValueShape(shape, c1.current.tag)) == Ok(d)
    ensures DecodeEntries(cfg, c, mapLevel, shape, acc)
      == DecodeEntries(cfg, d.cursor, mapLevel, shape, Store(shape, acc, c1.current.tag, d.value))
  {
  }

  /** A struct whose every field has been read assembles to those fields' values in declaration order. */
  lemma FinishAllPresent(name: string, fields: seq<Field>, acc: map<string, Value>, values: seq<Value>)
    requires |values| == |fields|
    requires forall i :: 0 <= i < |fields| ==> fields[i].key in acc && acc[fields[i].key] == values[i]
    ensures Finish(Struct(name, fields), acc) == Ok(Record(values))
  {
    var r := AssembleRecord(fields, acc);
    assert r.Ok?;
    assert r.value == values;
  }

  /**
   * A struct with a field that was not read and is not an `Option` fails,
   * naming the first such field in declaration order.
   */
  lemma {:induction false} FirstMissingField(fields: seq<Field>, acc: map<string, Value>, k: nat)
    requires k < |fields| && fields[k].key !in acc && !fields[k].shape.Optional?
    requires forall i :: 0 <= i < k ==> fields[i].key in acc || fields[i].shape.Optional?
    ensures AssembleRecord(fields, acc) == Err(MissingField(fields[k].key))
  {
    if k > 0 {
      FirstMissingField(fields[1..], acc, k - 1);
    }
  }

  /** A map that ends yields what its entries assemble to, where it stands. */
  lemma EntriesStop(cfg: Config, c: Cursor, mapLevel: nat, shape: Shape, acc: map<string, Value>, v: Value)
    requires Progresses(cfg.parse) && MapLike(shape)
    requires MapEnds(cfg.rule, c, mapLevel) && Finish(shape, acc) == Ok(v)
    ensures DecodeEntries(cfg, c, mapLevel, shape, acc) == Ok(Decoded(c, v))
  {
  }

  /** A sequence that ends yields the elements read so far, where it stands. */
  lemma ElementsStop(cfg: Config, c: Cursor, tag: string, shape: Shape, acc: seq<Value>)
    requires Progresses(cfg.parse) && shape.Seq? && SeqEnds(c, tag)
    ensures DecodeElements(cfg, c, tag, shape, acc) == Ok(Decoded(c, List(acc)))
  {
  }

  /** A sequence whose lookahead carries its tag moves there, decodes the element, and goes on after it. */
  lemma ElementStep(cfg: Config, c: Cursor, c1: Cursor, tag: string, shape: Shape, acc: seq<Value>, d: Decoded)
    requires Progresses(cfg.parse) && shape.Seq?
    requires !SeqEnds(c, tag) && Advance(cfg, c) == Ok(c1)
    requires Decode(cfg, c1.(state := DeserialisingValue), shape.element) == Ok(d)
    ensures DecodeElements(cfg, c, tag, shape, acc) == DecodeElements(cfg, d.cursor, tag, shape, acc + [d.value])
  {
  }

  // ----- the decoder's own examples -----

  /** `struct Foo { BAR: &str }` */
  const FooBar: Shape := Struct("Foo", [Field("BAR", Str)])

  /** "0 FOO\n1 BAR bar\n" */
  const SimpleStructLines: seq<Line> := [Line(0, None, "FOO", None), Line(1, None, "BAR", Some("bar"))]

  lemma SimpleStructDecodes(cfg: Config, suffixes: seq<string>)
    requires Progresses(cfg.parse) && Lexes(cfg.parse, suffixes, SimpleStructLines)
    ensures Decode(cfg, At(suffixes, SimpleStructLines, 0, DeserialisingValue), FooBar)
      == Ok(Decoded(At(suffixes, SimpleStructLines, 1, DeserialisingValue), Record([Text("bar")])))
  {
    var L := SimpleStructLines;
    var c0 := At(suffixes, L, 0, DeserialisingValue);
    var c1 := At(suffixes, L, 1, DeserialisingValue);
    AdvanceAt(cfg, suffixes, L, 0, DeserialisingValue);
    var acc := map["BAR" := Text("bar")];
    FinishAllPresent("Foo", FooBar.fields, acc, [Text("bar")]);
    EntriesStop(cfg, c1, 1, FooBar, acc, Record([Text("bar")]));
    EntryStep(cfg, c0, c1, 1, FooBar, map[], Decoded(c1, Text("bar")));
    DecodeAsEntries(cfg, c0, FooBar);
  }

  /** A one-field struct is read from its single child line. */
  lemma SimpleStruct(cfg: Config, suffixes: seq<string>)
    requires Progresses(cfg.parse) && Lexes(cfg.parse, suffixes, SimpleStructLines)
    ensures FromStr(cfg, suffixes[0], FooBar) == Ok(Record([Text("bar")]))
  {
    SimpleStructDecodes(cfg, suffixes);
    FromStrAt(cfg, suffixes, SimpleStructLines, FooBar);
  }

  /** "0 FOO\n1 BAR bar\n1 BAZ baz\n" */
  const IrrelevantFieldLines: seq<Line> :=
    [Line(0, None, "FOO", None), Line(1, None, "BAR", Some("bar")), Line(1, None, "BAZ", Some("baz"))]

  /** A child line whose tag is not a field of the struct is read and dropped. */
  lemma StructWithIrrelevantField(cfg: Config, suffixes: seq<string>)
    requires Progresses(cfg.parse) && Lexes(cfg.parse, suffixes, IrrelevantFieldLines)
    ensures FromStr(cfg, suffixes[0], FooBar) == Ok(Record([Text("bar")]))
  {
    var L := IrrelevantFieldLines;
    var c0 := At(suffixes, L, 0, DeserialisingValue);
    var c1 := At(suffixes, L, 1, DeserialisingValue);
    var c2 := At(suffixes, L, 2, DeserialisingValue);
    AdvanceAt(cfg, suffixes, L, 0, DeserialisingValue);
    AdvanceAt(cfg, suffixes, L, 1, DeserialisingValue);
    var acc := map["BAR" := Text("bar")];
    FinishAllPresent("Foo", FooBar.fields, acc, [Text("bar")]);
    EntriesStop(cfg, c2, 1, FooBar, acc, Record([Text("bar")]));
    EntryStep(cfg, c1, c2, 1, FooBar, acc, Decoded(c2, Ignored));
    EntryStep(cfg, c0, c1, 1, FooBar, map[], Decoded(c1, Text("bar")));
    DecodeAsEntries(cfg, c0, FooBar);
    FromStrAt(cfg, suffixes, L, FooBar);
  }

  /** `struct Foo { BAR: &str, BAZ: &str, QUX: &str }` */
  const FooThreeFields: Shape := Struct("Foo", [Field("BAR", Str), Field("BAZ", Str), Field("QUX", Str)])

  /** "0 FOO\n1 BAR bar\n1 BAZ baz\n1 QUX qux\n" */
  const MultipleFieldsLines: seq<Line> :=
    [Line(0, None, "FOO", None), Line(1, None, "BAR", Some("bar")),
     Line(1, None, "BAZ", Some("baz")), Line(1, None, "QUX", Some("qux"))]

  lemma MultipleFieldsTail(cfg: Config, suffixes: seq<string>)
    requires Progresses(cfg.parse) && Lexes(cfg.parse, suffixes, MultipleFieldsLines)
    ensures DecodeEntries(cfg, At(suffixes, MultipleFieldsLines, 2, DeserialisingValue), 1, FooThreeFields,
                          map["BAR" := Text("bar"), "BAZ" := Text("baz")])
      == Ok(Decoded(At(suffixes, MultipleFieldsLines, 3, DeserialisingValue), Record([Text("bar"), Text("baz"), Text("qux")])))
  {
    var L := MultipleFieldsLines;
    var c2 := At(suffixes, L, 2, DeserialisingValue);
    var c3 := At(suffixes, L, 3, DeserialisingValue);
    AdvanceAt(cfg, suffixes, L, 2, DeserialisingValue);
    var acc2 := map["BAR" := Text("bar"), "BAZ" := Text("baz")];
    var acc3 := acc2["QUX" := Text("qux")];
    FinishAllPresent("Foo", FooThreeFields.fields, acc3, [Text("bar"), Text("baz"), Text("qux")]);
    EntriesStop(cfg, c3, 1, FooThreeFields, acc3, Record([Text("bar"), Text("baz"), Text("qux")]));
    EntryStep(cfg, c2, c3, 1, FooThreeFields, acc2, Decoded(c3, Text("qux")));
  }

  /** The fields of a struct are read from successive child lines and assembled in declaration order. */
  lemma StructWithMultipleFields(cfg: Config, suffixes: seq<string>)
    requires Progresses(cfg.parse) && Lexes(cfg.parse, suffixes, MultipleFieldsLines)
    ensures FromStr(cfg, suffixes[0], FooThreeFields) == Ok(Record([Text("bar"), Text("baz"), Text("qux")]))
  {
    var L := MultipleFieldsLines;
    var c0 := At(suffixes, L, 0, DeserialisingValue);
    var c1 := At(suffixes, L, 1, DeserialisingValue);
    var c2 := At(suffixes, L, 2, DeserialisingValue);
    AdvanceAt(cfg, suffixes, L, 0, DeserialisingValue);
    AdvanceAt(cfg, suffixes, L, 1, DeserialisingValue);
    MultipleFieldsTail(cfg, suffixes);
    var acc1 := map["BAR" := Text("bar")];
    assert acc1["BAZ" := Text("baz")] == map["BAR" := Text("bar"), "BAZ" := Text("baz")];
    EntryStep(cfg, c1, c2, 1, FooThreeFields, acc1, Decoded(c2, Text("baz")));
    EntryStep(cfg, c0, c1, 1, FooThreeFields, map[], Decoded(c1, Text("bar")));
    DecodeAsEntries(cfg, c0, FooThreeFields);
    FromStrAt(cfg, suffixes, L, FooThreeFields);
  }

  /** `struct Bar { BAZ: &str, QUX: &str }` inside `struct Foo { BAR: Bar }` */
  const BarTwoFields: Shape := Struct("Bar", [Field("BAZ", Str), Field("QUX", Str)])
  const FooNested: Shape := Struct("Foo", [Field("BAR", BarTwoFields)])

  /** "0 FOO\n1 BAR\n2 BAZ baz\n2 QUX qux\n" */
  const NestedLines: seq<Line> :=
    [Line(0, None, "FOO", None), Line(1, None, "BAR", None),
     Line(2, None, "BAZ", Some("baz")), Line(2, None, "QUX", Some("qux"))]

  lemma NestedInner(cfg: Config, suffixes: seq<string>)
    requires Progresses(cfg.parse) && Lexes(cfg.parse, suffixes, NestedLines)
    ensures Decode(cfg, At(suffixes, NestedLines, 1, DeserialisingValue), BarTwoFields)
      == Ok(Decoded(At(suffixes, NestedLines, 3, DeserialisingValue), Record([Text("baz"), Text("qux")])))
  {
    var L := NestedLines;
    var c1 := At(suffixes, L, 1, DeserialisingValue);
    var c2 := At(suffixes, L, 2, DeserialisingValue);
    var c3 := At(suffixes, L, 3, DeserialisingValue);
    AdvanceAt(cfg, suffixes, L, 1, DeserialisingValue);
    AdvanceAt(cfg, suffixes, L, 2, DeserialisingValue);
    var inner := Record([Text("baz"), Text("qux")]);
    var acc1 := map["BAZ" := Text("baz")];
    var acc2 := acc1["QUX" := Text("qux")];
    FinishAllPresent("Bar", BarTwoFields.fields, acc2, inner.values);
    EntriesStop(cfg, c3, 2, BarTwoFields, acc2, inner);
    EntryStep(cfg, c2, c3, 2, BarTwoFields, acc1, Decoded(c3, Text("qux")));
    EntryStep(cfg, c1, c2, 2, BarTwoFields, map[], Decoded(c2, Text("baz")));
    DecodeAsEntries(cfg, c1, BarTwoFields);
  }

  /** A field whose line has children one level deeper is read as a nested struct. */
  lemma NestedStruct(cfg: Config, suffixes: seq<string>)
    requires Progresses(cfg.parse) && Lexes(cfg.parse, suffixes, NestedLines)
    ensures FromStr(cfg, suffixes[0], FooNested) == Ok(Record([Record([Text("baz"), Text("qux")])]))
  {
    var L := NestedLines;
    var c0 := At(suffixes, L, 0, DeserialisingValue);
    var c1 := At(suffixes, L, 1, DeserialisingValue);
    var c3 := At(suffixes, L, 3, DeserialisingValue);
    AdvanceAt(cfg, suffixes, L, 0, DeserialisingValue);
    NestedInner(cfg, suffixes);
    var inner := Record([Text("baz"), Text("qux")]);
    var outer := map["BAR" := inner];
    FinishAllPresent("Foo", FooNested.fields, outer, [inner]);
    EntriesStop(cfg, c3, 1, FooNested, outer, Record([inner]));
    EntryStep(cfg, c0, c1, 1, FooNested, map[], Decoded(c3, inner));
    DecodeAsEntries(cfg, c0, FooNested);
    FromStrAt(cfg, suffixes, L, FooNested);
  }

  /** `struct Foo { BAR: Bar, QUX: &str }` with `struct Bar { BAZ: &str }` */
  const BarOneField: Shape := Struct("Bar", [Field("BAZ", Str)])
  const FooNestedThenValue: Shape := Struct("Foo", [Field("BAR", BarOneField), Field("QUX", Str)])

  /** "0 FOO\n1 BAR\n2 BAZ baz\n1 QUX qux\n" */
  const NestedThenValueLines: seq<Line> :=
    [Line(0, None, "FOO", None), Line(1, None, "BAR", None),
     Line(2, None, "BAZ", Some("baz")), Line(1, None, "QUX", Some("qux"))]

  lemma NestedThenValueInner(cfg: Config, suffixes: seq<string>)
    requires Progresses(cfg.parse) && Lexes(cfg.parse, suffixes, NestedThenValueLines)
    ensures Decode(cfg, At(suffixes, NestedThenValueLines, 1, DeserialisingValue), BarOneField)
      == Ok(Decoded(At(suffixes, NestedThenValueLines, 2, DeserialisingValue), Record([Text("baz")])))
  {
    var L := NestedThenValueLines;
    var c1 := At(suffixes, L, 1, DeserialisingValue);
    var c2 := At(suffixes, L, 2, DeserialisingValue);
    AdvanceAt(cfg, suffixes, L, 1, DeserialisingValue);
    var acc := map["BAZ" := Text("baz")];
    FinishAllPresent("Bar", BarOneField.fields, acc, [Text("baz")]);
    EntriesStop(cfg, c2, 2, BarOneField, acc, Record([Text("baz")]));
    EntryStep(cfg, c1, c2, 2, BarOneField, map[], Decoded(c2, Text("baz")));
    DecodeAsEntries(cfg, c1, BarOneField);
  }

  /** A nested struct ends at a line one level up, which then continues the outer struct (under either stop rule). */
  lemma NestedStructThenValue(cfg: Config, suffixes: seq<string>)
    requires Progresses(cfg.parse) && Lexes(cfg.parse, suffixes, NestedThenValueLines)
    ensures FromStr(cfg, suffixes[0], FooNestedThenValue) == Ok(Record([Record([Text("baz")]), Text("qux")]))
  {
    var L := NestedThenValueLines;
    var c0 := At(suffixes, L, 0, DeserialisingValue);
    var c1 := At(suffixes, L, 1, DeserialisingValue);
    var c2 := At(suffixes, L, 2, DeserialisingValue);
    var c3 := At(suffixes, L, 3, DeserialisingValue);
    AdvanceAt(cfg, suffixes, L, 0, DeserialisingValue);
    AdvanceAt(cfg, suffixes, L, 2, DeserialisingValue);
    NestedThenValueInner(cfg, suffixes);
    var inner := Record([Text("baz")]);
    var v := Record([inner, Text("qux")]);
    var outer1 := map["BAR" := inner];
    var outer2 := outer1["QUX" := Text("qux")];
    FinishAllPresent("Foo", FooNestedThenValue.fields, outer2, v.values);
    EntriesStop(cfg, c3, 1, FooNestedThenValue, outer2, v);
    EntryStep(cfg, c2, c3, 1, FooNestedThenValue, outer1, Decoded(c3, Text("qux")));
    EntryStep(cfg, c0, c1, 1, FooNestedThenValue, map[], Decoded(c2, inner));
    DecodeAsEntries(cfg, c0, FooNestedThenValue);
    FromStrAt(cfg, suffixes, L, FooNestedThenValue);
  }

  /** `struct Foo { BAR: Vec<&str> }` */
  const FooList: Shape := Struct("Foo", [Field("BAR", Seq(Str))])

  /** "0 FOO\n1 BAR bar1\n1 BAR bar2\n1 BAR bar3\n" */
  const ArrayLines: seq<Line> :=
    [Line(0, None, "FOO", None), Line(1, None, "BAR", Some("bar1")),
     Line(1, None, "BAR", Some("bar2")), Line(1, None, "BAR", Some("bar3"))]

  lemma ArrayElements(cfg: Config, suffixes: seq<string>)
    requires Progresses(cfg.parse) && Lexes(cfg.parse, suffixes, ArrayLines)
    ensures Decode(cfg, At(suffixes, ArrayLines, 1, DeserialisingValue), Seq(Str))
      == Ok(Decoded(At(suffixes, ArrayLines, 3, DeserialisingValue), List([Text("bar1"), Text("bar2"), Text("bar3")])))
  {
    var L := ArrayLines;
    var c1 := At(suffixes, L, 1, DeserialisingValue);
    var c2 := At(suffixes, L, 2, DeserialisingValue);
    var c3 := At(suffixes, L, 3, DeserialisingValue);
    AdvanceAt(cfg, suffixes, L, 1, DeserialisingValue);
    AdvanceAt(cfg, suffixes, L, 2, DeserialisingValue);
    var items := [Text("bar1"), Text("bar2"), Text("bar3")];
    ElementsStop(cfg, c3, "BAR", Seq(Str), items);
    assert [Text("bar1"), Text("bar2")] + [Text("bar3")] == items;
    ElementStep(cfg, c2, c3, "BAR", Seq(Str), [Text("bar1"), Text("bar2")], Decoded(c3, Text("bar3")));
    assert [Text("bar1")] + [Text("bar2")] == [Text("bar1"), Text("bar2")];
    ElementStep(cfg, c1, c2, "BAR", Seq(Str), [Text("bar1")], Decoded(c2, Text("bar2")));
    DecodeAsElements(cfg, c1, Seq(Str));
  }

  /** Successive child lines with the same tag are read as the elements of a sequence field. */
  lemma StructWithArrayField(cfg: Config, suffixes: seq<string>)
    requires Progresses(cfg.parse) && Lexes(cfg.parse, suffixes, ArrayLines)
    ensures FromStr(cfg, suffixes[0], FooList) == Ok(Record([List([Text("bar1"), Text("bar2"), Text("bar3")])]))
  {
    var L := ArrayLines;
    var c0 := At(suffixes, L, 0, DeserialisingValue);
    var c1 := At(suffixes, L, 1, DeserialisingValue);
    var c3 := At(suffixes, L, 3, DeserialisingValue);
    AdvanceAt(cfg, suffixes, L, 0, DeserialisingValue);
    ArrayElements(cfg, suffixes);
    var list := List([Text("bar1"), Text("bar2"), Text("bar3")]);
    var acc := map["BAR" := list];
    FinishAllPresent("Foo", FooList.fields, acc, [list]);
    EntriesStop(cfg, c3, 1, FooList, acc, Record([list]));
    EntryStep(cfg, c0, c1, 1, FooList, map[], Decoded(c3, list));
    DecodeAsEntries(cfg, c0, FooList);
    FromStrAt(cfg, suffixes, L, FooList);
  }

  /** `struct Foo { BAR: Vec<&str>, BAZ: &str }` */
  const FooListThenValue: Shape := Struct("Foo", [Field("BAR", Seq(Str)), Field("BAZ", Str)])

  /** "0 FOO\n1 BAR bar1\n1 BAR bar2\n1 BAR bar3\n1 BAZ baz\n" */
  const ArrayThenValueLines: seq<Line> := ArrayLines + [Line(1, None, "BAZ", Some("baz"))]

  lemma ArrayThenValueElements(cfg: Config, suffixes: seq<string>)
    requires Progresses(cfg.parse) && Lexes(cfg.parse, suffixes, ArrayThenValueLines)
    ensures Decode(cfg, At(suffixes, ArrayThenValueLines, 1, DeserialisingValue), Seq(Str))
      == Ok(Decoded(At(suffixes, ArrayThenValueLines, 3, DeserialisingValue), List([Text("bar1"), Text("bar2"), Text("bar3")])))
  {
    var L := ArrayThenValueLines;
    var c1 := At(suffixes, L, 1, DeserialisingValue);
    var c2 := At(suffixes, L, 2, DeserialisingValue);
    var c3 := At(suffixes, L, 3, DeserialisingValue);
    AdvanceAt(cfg, suffixes, L, 1, DeserialisingValue);
    AdvanceAt(cfg, suffixes, L, 2, DeserialisingValue);
    var items := [Text("bar1"), Text("bar2"), Text("bar3")];
    ElementsStop(cfg, c3, "BAR", Seq(Str), items);
    assert [Text("bar1"), Text("bar2")] + [Text("bar3")] == items;
    ElementStep(cfg, c2, c3, "BAR", Seq(Str), [Text("bar1"), Text("bar2")], Decoded(c3, Text("bar3")));
    assert [Text("bar1")] + [Text("bar2")] == [Text("bar1"), Text("bar2")];
    ElementStep(cfg, c1, c2, "BAR", Seq(Str), [Text("bar1")], Decoded(c2, Text("bar2")));
    DecodeAsElements(cfg, c1, Seq(Str));
  }

  /** A sequence field ends at the first child line with another tag, which continues the struct. */
  lemma StructWithArrayFieldThenValue(cfg: Config, suffixes: seq<string>)
    requires Progresses(cfg.parse) && Lexes(cfg.parse, suffixes, ArrayThenValueLines)
    ensures FromStr(cfg, suffixes[0], FooListThenValue)
      == Ok(Record([List([Text("bar1"), Text("bar2"), Text("bar3")]), Text("baz")]))
  {
    var L := ArrayThenValueLines;
    var c0 := At(suffixes, L, 0, DeserialisingValue);
    var c1 := At(suffixes, L, 1, DeserialisingValue);
    var c3 := At(suffixes, L, 3, DeserialisingValue);
    var c4 := At(suffixes, L, 4, DeserialisingValue);
    AdvanceAt(cfg, suffixes, L, 0, DeserialisingValue);
    AdvanceAt(cfg, suffixes, L, 3, DeserialisingValue);
    ArrayThenValueElements(cfg, suffixes);
    var list := List([Text("bar1"), Text("bar2"), Text("bar3")]);
    var acc1 := map["BAR" := list];
    var acc2 := acc1["BAZ" := Text("baz")];
    FinishAllPresent("Foo", FooListThenValue.fields, acc2, [list, Text("baz")]);
    EntriesStop(cfg, c4, 1, FooListThenValue, acc2, Record([list, Text("baz")]));
    EntryStep(cfg, c3, c4, 1, FooListThenValue, acc1, Decoded(c4, Text("baz")));
    EntryStep(cfg, c0, c1, 1, FooListThenValue, map[], Decoded(c3, list));
    DecodeAsEntries(cfg, c0, FooListThenValue);
    FromStrAt(cfg, suffixes, L, FooListThenValue);
  }

  /** "0 FOO\n1 BAR bar1\n" */
  const OneValueLines: seq<Line> := [Line(0, None, "FOO", None), Line(1, None, "BAR", Some("bar1"))]

  /** A sequence field with a single line is a one-element sequence. */
  lemma StructWithArrayFieldOfOneValue(cfg: Config, suffixes: seq<string>)
    requires Progresses(cfg.parse) && Lexes(cfg.parse, suffixes, OneValueLines)
    ensures FromStr(cfg, suffixes[0], FooList) == Ok(Record([List([Text("bar1")])]))
  {
    var L := OneValueLines;
    var c0 := At(suffixes, L, 0, DeserialisingValue);
    var c1 := At(suffixes, L, 1, DeserialisingValue);
    AdvanceAt(cfg, suffixes, L, 0, DeserialisingValue);
    var list := List([Text("bar1")]);
    ElementsStop(cfg, c1, "BAR", Seq(Str), [Text("bar1")]);
    DecodeAsElements(cfg, c1, Seq(Str));
    var acc := map["BAR" := list];
    FinishAllPresent("Foo", FooList.fields, acc, [list]);
    EntriesStop(cfg, c1, 1, FooList, acc, Record([list]));
    EntryStep(cfg, c0, c1, 1, FooList, map[], Decoded(c1, list));
    DecodeAsEntries(cfg, c0, FooList);
    FromStrAt(cfg, suffixes, L, FooList);
  }

  /** `enum FooBaz { FOO(Foo), BAR(Baz) }` with `struct Baz { QUX: &str }` */
  const FooBaz: Shape := Enum([Newtype("FOO", FooBar), Newtype("BAR", Struct("Baz", [Field("QUX", Str)]))])

  /** A newtype variant is chosen by the line's tag and its payload is read from the same line. */
  lemma NewtypeEnum(cfg: Config, suffixes: seq<string>)
    requires Progresses(cfg.parse) && Lexes(cfg.parse, suffixes, SimpleStructLines)
    ensures FromStr(cfg, suffixes[0], FooBaz) == Ok(Chosen("FOO", Some(Record([Text("bar")]))))
  {
    var L := SimpleStructLines;
    var c0 := At(suffixes, L, 0, DeserialisingValue);
    SimpleStructDecodes(cfg, suffixes);
    assert KeyIndex(VariantNames(FooBaz.variants), "FOO") == Some(0);
    assert c0.(state := DeserialisingValue) == c0;
    FromStrAt(cfg, suffixes, L, FooBaz);
  }

  /** `enum Foo { BAR }` */
  const UnitEnum: Shape := Enum([Unit("BAR")])

  /** "0 BAR\n" */
  const UnitEnumLines: seq<Line> := [Line(0, None, "BAR", None)]

  /** A unit variant is chosen by the line's tag alone. */
  lemma UnitVariantEnum(cfg: Config, suffixes: seq<string>)
    requires Progresses(cfg.parse) && Lexes(cfg.parse, suffixes, UnitEnumLines)
    ensures FromStr(cfg, suffixes[0], UnitEnum) == Ok(Chosen("BAR", None))
  {
    FromStrAt(cfg, suffixes, UnitEnumLines, UnitEnum);
  }

  // ----- where the map stop rule as written goes wrong -----

  /** `struct Foo { BAR: Bar, END: &str }`, `struct Bar { BAZ: Baz }`, `struct Baz { QUX: &str }` */
  const BazQux: Shape := Struct("Baz", [Field("QUX", Str)])
  const BarBaz: Shape := Struct("Bar", [Field("BAZ", BazQux)])
  const FooDeep: Shape := Struct("Foo", [Field("BAR", BarBaz), Field("END", Str)])

  /** "0 FOO\n1 BAR\n2 BAZ\n3 QUX qux\n1 END end\n": after the deepest line, the document climbs two levels at once. */
  const DoubleAscentLines: seq<Line> :=
    [Line(0, None, "FOO", None), Line(1, None, "BAR", None), Line(2, None, "BAZ", None),
     Line(3, None, "QUX", Some("qux")), Line(1, None, "END", Some("end"))]

  /** What the document means: `Foo { BAR: Bar { BAZ: Baz { QUX: "qux" } }, END: "end" }`. */
  const DoubleAscentValue: Value := Record([Record([Record([Text("qux")])]), Text("end")])

  /** As written, the two nested structs both run on to the last line. */
  lemma DoubleAscentInnerAsWritten(cfg: Config, suffixes: seq<string>)
    requires Progresses(cfg.parse) && cfg.rule == ParentLevelOnly && Lexes(cfg.parse, suffixes, DoubleAscentLines)
    ensures Decode(cfg, At(suffixes, DoubleAscentLines, 1, DeserialisingValue), BarBaz)
      == Ok(Decoded(At(suffixes, DoubleAscentLines, 4, DeserialisingValue), Record([Record([Text("qux")])])))
  {
    var L := DoubleAscentLines;
    var c1 := At(suffixes, L, 1, DeserialisingValue);
    var c2 := At(suffixes, L, 2, DeserialisingValue);
    var c3 := At(suffixes, L, 3, DeserialisingValue);
    var c4 := At(suffixes, L, 4, DeserialisingValue);
    AdvanceAt(cfg, suffixes, L, 1, DeserialisingValue);
    AdvanceAt(cfg, suffixes, L, 2, DeserialisingValue);
    AdvanceAt(cfg, suffixes, L, 3, DeserialisingValue);
    var baz := Record([Text("qux")]);
    var bar := Record([baz]);
    var accBaz := map["QUX" := Text("qux")];
    assert Decode(cfg, c2, BazQux) == Ok(Decoded(c4, baz)) by {
      FinishAllPresent("Baz", BazQux.fields, accBaz, baz.values);
      EntriesStop(cfg, c4, 3, BazQux, accBaz, baz);
      EntryStep(cfg, c3, c4, 3, BazQux, accBaz, Decoded(c4, Ignored));
      EntryStep(cfg, c2, c3, 3, BazQux, map[], Decoded(c3, Text("qux")));
      DecodeAsEntries(cfg, c2, BazQux);
    }
    var accBar := map["BAZ" := baz];
    FinishAllPresent("Bar", BarBaz.fields, accBar, bar.values);
    EntriesStop(cfg, c4, 2, BarBaz, accBar, bar);
    EntryStep(cfg, c1, c2, 2, BarBaz, map[], Decoded(c4, baz));
    DecodeAsEntries(cfg, c1, BarBaz);
  }

  /**
   * As written, the innermost struct does not stop at the line two levels up:
   * it takes "1 END end" as one of its own (unknown, hence ignored) fields, so
   * the outer struct never sees it and reports it missing.
   */
  lemma DoubleAscentAsWritten(cfg: Config, suffixes: seq<string>)
    requires Progresses(cfg.parse) && cfg.rule == ParentLevelOnly && Lexes(cfg.parse, suffixes, DoubleAscentLines)
    ensures FromStr(cfg, suffixes[0], FooDeep) == Err(MissingField("END"))
  {
    var L := DoubleAscentLines;
    var c0 := At(suffixes, L, 0, DeserialisingValue);
    var c1 := At(suffixes, L, 1, DeserialisingValue);
    var c4 := At(suffixes, L, 4, DeserialisingValue);
    AdvanceAt(cfg, suffixes, L, 0, DeserialisingValue);
    DoubleAscentInnerAsWritten(cfg, suffixes);
    var bar := Record([Record([Text("qux")])]);
    FirstMissingField(FooDeep.fields, map["BAR" := bar], 1);
    EntryStep(cfg, c0, c1, 1, FooDeep, map[], Decoded(c4, bar));
    DecodeAsEntries(cfg, c0, FooDeep);
    FromStrAt(cfg, suffixes, L, FooDeep);
  }

  /** With the corrected rule both nested structs stop before the line two levels up. */
  lemma DoubleAscentInnerCorrected(cfg: Config, suffixes: seq<string>)
    requires Progresses(cfg.parse) && cfg.rule == AnyShallowerLevel && Lexes(cfg.parse, suffixes, DoubleAscentLines)
    ensures Decode(cfg, At(suffixes, DoubleAscentLines, 1, DeserialisingValue), BarBaz)
      == Ok(Decoded(At(suffixes, DoubleAscentLines, 3, DeserialisingValue), Record([Record([Text("qux")])])))
  {
    var L := DoubleAscentLines;
    var c1 := At(suffixes, L, 1, DeserialisingValue);
    var c2 := At(suffixes, L, 2, DeserialisingValue);
    var c3 := At(suffixes, L, 3, DeserialisingValue);
    AdvanceAt(cfg, suffixes, L, 1, DeserialisingValue);
    AdvanceAt(cfg, suffixes, L, 2, DeserialisingValue);
    var baz := Record([Text("qux")]);
    var bar := Record([baz]);
    var accBaz := map["QUX" := Text("qux")];
    assert Decode(cfg, c2, BazQux) == Ok(Decoded(c3, baz)) by {
      FinishAllPresent("Baz", BazQux.fields, accBaz, baz.values);
      EntriesStop(cfg, c3, 3, BazQux, accBaz, baz);
      EntryStep(cfg, c2, c3, 3, BazQux, map[], Decoded(c3, Text("qux")));
      DecodeAsEntries(cfg, c2, BazQux);
    }
    var accBar := map["BAZ" := baz];
    FinishAllPresent("Bar", BarBaz.fields, accBar, bar.values);
    EntriesStop(cfg, c3, 2, BarBaz, accBar, bar);
    EntryStep(cfg, c1, c2, 2, BarBaz, map[], Decoded(c3, baz));
    DecodeAsEntries(cfg, c1, BarBaz);
  }

  /** With the corrected rule each nested struct stops at the shallower line, and the document decodes as meant. */
  lemma DoubleAscentCorrected(cfg: Config, suffixes: seq<string>)
    requires Progresses(cfg.parse) && cfg.rule == AnyShallowerLevel && Lexes(cfg.parse, suffixes, DoubleAscentLines)
    ensures FromStr(cfg, suffixes[0], FooDeep) == Ok(DoubleAscentValue)
  {
    var L := DoubleAscentLines;
    var c0 := At(suffixes, L, 0, DeserialisingValue);
    var c1 := At(suffixes, L, 1, DeserialisingValue);
    var c3 := At(suffixes, L, 3, DeserialisingValue);
    var c4 := At(suffixes, L, 4, DeserialisingValue);
    AdvanceAt(cfg, suffixes, L, 0, DeserialisingValue);
    AdvanceAt(cfg, suffixes, L, 3, DeserialisingValue);
    DoubleAscentInnerCorrected(cfg, suffixes);
    var bar := Record([Record([Text("qux")])]);
    var accFoo := map["BAR" := bar];
    var accEnd := accFoo["END" := Text("end")];
    FinishAllPresent("Foo", FooDeep.fields, accEnd, DoubleAscentValue.values);
    EntriesStop(cfg, c4, 1, FooDeep, accEnd, DoubleAscentValue);
    EntryStep(cfg, c3, c4, 1, FooDeep, accFoo, Decoded(c4, Text("end")));
    EntryStep(cfg, c0, c1, 1, FooDeep, map[], Decoded(c3, bar));
    DecodeAsEntries(cfg, c0, FooDeep);
    FromStrAt(cfg, suffixes, L, FooDeep);
  }

  /** The same document as text, read by the line grammar: rejected as written, accepted as corrected. */
  lemma DoubleAscentDocument()
    ensures Progresses(ParseGedcomLine)
    ensures FromStr(Config(ParseGedcomLine, ParentLevelOnly), Document(DoubleAscentLines), FooDeep)
      == Err(MissingField("END"))
    ensures FromStr(Config(ParseGedcomLine, AnyShallowerLevel), Document(DoubleAscentLines), FooDeep)
      == Ok(DoubleAscentValue)
  {
    var L := DoubleAscentLines;
    assert forall i :: 0 <= i < |L| ==> ValidLine(L[i]);
    DocumentLexes(L);
    GedcomLineProgresses();
    assert L[0..] == L;
    DoubleAscentAsWritten(Config(ParseGedcomLine, ParentLevelOnly), Suffixes(L));
    DoubleAscentCorrected(Config(ParseGedcomLine, AnyShallowerLevel), Suffixes(L));
  }

  // ----- where `from_str` as written goes wrong -----

  /**
   * `from_str` accepts exactly when decoding succeeds and the input text is
   * used up; the corrected version also requires that no lookahead line is
   * left.  They differ exactly when a parsed line is left unread.
   */
  lemma LookaheadIgnored(cfg: Config, input: string, shape: Shape)
    requires Progresses(cfg.parse)
    ensures FromStr(cfg, input, shape) != FromStrComplete(cfg, input, shape) <==>
      Start(cfg, input).Ok? && Decode(cfg, Start(cfg, input).value, shape).Ok?
      && Decode(cfg, Start(cfg, input).value, shape).value.cursor.remaining == []
      && Decode(cfg, Start(cfg, input).value, shape).value.cursor.next.Some?
    ensures FromStr(cfg, input, shape) != FromStrComplete(cfg, input, shape) ==>
      FromStr(cfg, input, shape).Ok? && FromStrComplete(cfg, input, shape) == Err(TrailingCharacters)
  {
  }

  /** "0 FOO foo\n0 BAR bar\n": two records where one string is expected. */
  const TwoRecordLines: seq<Line> := [Line(0, None, "FOO", Some("foo")), Line(0, None, "BAR", Some("bar"))]

  /**
   * As written, a string is read from the first record and the second
   * record, already parsed as the lookahead, is silently dropped; the
   * corrected version rejects the leftover line.
   */
  lemma SecondRecordDropped(cfg: Config, suffixes: seq<string>)
    requires Progresses(cfg.parse) && Lexes(cfg.parse, suffixes, TwoRecordLines)
    ensures FromStr(cfg, suffixes[0], Str) == Ok(Text("foo"))
    ensures FromStrComplete(cfg, suffixes[0], Str) == Err(TrailingCharacters)
  {
    StartAt(cfg, suffixes, TwoRecordLines);
  }

  /** The same document as text, read by the line grammar. */
  lemma SecondRecordDocument()
    ensures Progresses(ParseGedcomLine)
    ensures FromStr(Config(ParseGedcomLine, ParentLevelOnly), Document(TwoRecordLines), Str) == Ok(Text("foo"))
    ensures FromStrComplete(Config(ParseGedcomLine, ParentLevelOnly), Document(TwoRecordLines), Str) == Err(TrailingCharacters)
  {
    var L := TwoRecordLines;
    assert forall i :: 0 <= i < |L| ==> ValidLine(L[i]);
    DocumentLexes(L);
    GedcomLineProgresses();
    assert L[0..] == L;
    SecondRecordDropped(Config(ParseGedcomLine, ParentLevelOnly), Suffixes(L));
  }
}
