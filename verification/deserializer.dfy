/**
 * The `Deserializer` of src/gedcom_data_format/de.rs as an object whose
 * fields are updated step by step, with its three access objects
 * (`GedcomMapAccess`, `GedcomSequenceAccess`, `GedcomEnumAccess`).  Every
 * method is proved to do what the functions of decoder.dfy specify: its
 * result is the specified result, and its fields afterwards are the
 * specified cursor.
 */
module GedcomDeserializer {

  import opened Options
  import opened Scan
  import opened Errors
  import opened LineGrammar
  import opened Decoder

  /** The method's result `r` and the object's new cursor `now` are what `spec` prescribes. */
  predicate Agrees(r: Result<Value>, spec: Result<Decoded>, now: Cursor)
  {
    match spec
    case Err(e) => r == Err(e)
    case Ok(d) => r == Ok(d.value) && now == d.cursor
  }

  class Deserializer {
    var remainingInput: string
    var currentLine: Line
    var nextLine: Option<Line>
    var state: State
    /** The line parser and map-key stop rule this decoder follows. */
    const config: Config

    /** The fields as a cursor value. */
    function Snapshot(): Cursor
      reads this
    {
      Cursor(remainingInput, currentLine, nextLine, state)
    }

    constructor (remaining: string, current: Line, next: Option<Line>, cfg: Config)
      ensures Snapshot() == Cursor(remaining, current, next, DeserialisingValue) && config == cfg
    {
      remainingInput := remaining;
      currentLine := current;
      nextLine := next;
      state := DeserialisingValue;
      config := cfg;
    }

    /** `Deserializer::from_str` */
    static method FromStr(input: string, cfg: Config) returns (r: Result<Deserializer>)
      ensures r.Ok? <==> Start(cfg, input).Ok?
      ensures r.Ok? ==> fresh(r.value) && r.value.Snapshot() == Start(cfg, input).value && r.value.config == cfg
      ensures r.Err? ==> r.error == Start(cfg, input).error
    {
      var first := cfg.parse(input);
      if first.Fail? {
        return Err(FromLineError(first.at));
      }
      if first.rest == [] {
        var d := new Deserializer(first.rest, first.value, None, cfg);
        return Ok(d);
      }
      var second := cfg.parse(first.rest);
      if second.Fail? {
        return Err(FromLineError(second.at));
      }
      var d := new Deserializer(second.rest, first.value, Some(second.value), cfg);
      return Ok(d);
    }

    /**
     * `parse_next_line`: as `Advance` prescribes; on a line-parser failure
     * nothing changes.
     */
    method ParseNextLine() returns (r: Result<()>)
      requires Progresses(config.parse) && nextLine.Some?
      modifies this
      ensures r.Ok? <==> Advance(config, old(Snapshot())).Ok?
      ensures r.Ok? ==> Snapshot() == Advance(config, old(Snapshot())).value
      ensures r.Err? ==> r.error == Advance(config, old(Snapshot())).error && Snapshot() == old(Snapshot())
    {
      var next := nextLine.value;
      if remainingInput == [] {
        currentLine := next;
        nextLine := None;
        return Ok(());
      }
      var parsed := config.parse(remainingInput);
      if parsed.Fail? {
        return Err(FromLineError(parsed.at));
      }
      currentLine := next;
      nextLine := Some(parsed.value);
      remainingInput := parsed.rest;
      return Ok(());
    }

    /** `deserialize_str` */
    method DeserializeStr() returns (r: Result<string>)
      ensures r == ReadStr(Snapshot())
    {
      match state
      case DeserialisingKey => r := Ok(currentLine.tag);
      case DeserialisingValue =>
        if currentLine.value.None? {
          r := Err(ExpectedGedcomLineWithValue);
        } else {
          r := Ok(currentLine.value.value);
        }
    }

    /** Decode one value of `shape`, dispatching as the data-binding side does. */
    method Deserialize(shape: Shape) returns (r: Result<Value>)
      requires Progresses(config.parse)
      modifies this
      decreases Measure(Snapshot()), shape, 3
      ensures Agrees(r, Decode(config, old(Snapshot()), shape), Snapshot())
    {
      match shape
      case Str =>
        var s := DeserializeStr();
        r := if s.Ok? then Ok(Text(s.value)) else Err(s.error);
      case Dict(_) =>
        r := DeserializeMap(shape);
      case Seq(_) =>
        r := DeserializeSeq(shape);
      case Enum(_) =>
        r := DeserializeEnum(shape);
      case _ =>
        r := DeserializeAny(shape);
    }

    /** `deserialize_any`: a map when in value mode with a lookahead one level deeper, else a string. */
    method DeserializeAny(shape: Shape) returns (r: Result<Value>)
      requires shape.Owned? || shape.Any? || shape.Struct? || shape.Optional?
      requires Progresses(config.parse)
      modifies this
      decreases Measure(Snapshot()), shape, 2
      ensures Agrees(r, Decode(config, old(Snapshot()), shape), Snapshot())
    {
      if state == DeserialisingValue && nextLine.Some? && nextLine.value.level == currentLine.level + 1 {
        r := DeserializeMap(shape);
        return;
      }
      var s := DeserializeStr();
      if s.Err? {
        return Err(s.error);
      }
      match shape
      case Owned => r := Ok(Text(s.value));
      case Any => r := Ok(Ignored);
      case Struct(name, _) => r := Err(InvalidType(StringNamed(s.value), "struct " + name));
      case Optional(_) => r := Err(InvalidType(StringNamed(s.value), "option"));
    }

    /**
     * `deserialize_map`: refuse a lookahead that is not one level deeper, then
     * let the shape's visitor walk the entries at `current level + 1`.
     */
    method DeserializeMap(shape: Shape) returns (r: Result<Value>)
      requires shape.Owned? || MapLike(shape) || shape.Optional?
      requires !shape.Dict? ==> ChoosesMap(Snapshot())
      requires Progresses(config.parse)
      modifies this
      decreases Measure(Snapshot()), shape, 1
      ensures Agrees(r, Decode(config, old(Snapshot()), shape), Snapshot())
    {
      if nextLine.Some? && nextLine.value.level != currentLine.level + 1 {
        return Err(ExpectedMap);
      }
      if shape.Owned? {
        return Err(InvalidType("map", "a string"));
      }
      if shape.Optional? {
        return Err(InvalidType("map", "option"));
      }
      DecodeAsEntries(config, Snapshot(), shape);
      var access := new MapAccess(this, currentLine.level + 1);
      r := VisitMap(access, shape);
    }

    /**
     * The visitor's loop over the entries of a map: a key step, then (for a
     * key that is new or not a field) a value step, until the key step stops.
     */
    method VisitMap(access: MapAccess, shape: Shape) returns (r: Result<Value>)
      requires access.de == this && MapLike(shape)
      requires Progresses(config.parse)
      modifies this
      decreases Measure(Snapshot()), shape, 0
      ensures Agrees(r, DecodeEntries(config, old(Snapshot()), access.mapLevel, shape, map[]), Snapshot())
    {
      ghost var c0 := Snapshot();
      var acc: map<string, Value> := map[];
      while true
        invariant Measure(Snapshot()) <= Measure(c0)
        invariant DecodeEntries(config, Snapshot(), access.mapLevel, shape, acc)
               == DecodeEntries(config, c0, access.mapLevel, shape, map[])
        decreases Measure(Snapshot())
      {
        ghost var c := Snapshot();
        var key := access.NextKey();
        if key.Err? {
          return Err(key.error);
        }
        if key.value.None? {
          var v := Finish(shape, acc);
          return if v.Ok? then Ok(v.value) else Err(v.error);
        }
        var k := key.value.value;
        if shape.Struct? && KeyIndex(FieldNames(shape.fields), k).Some? && k in acc {
          return Err(DuplicateField(k));
        }
        var v := access.NextValue(ValueShape(shape, k));
        if v.Err? {
          return Err(v.error);
        }
        acc := Store(shape, acc, k, v.value);
      }
    }

    /** `deserialize_seq`: the visitor's loop over the elements of a `GedcomSequenceAccess`. */
    method DeserializeSeq(shape: Shape) returns (r: Result<Value>)
      requires shape.Seq?
      requires Progresses(config.parse)
      modifies this
      decreases Measure(Snapshot()), shape, 1
      ensures Agrees(r, Decode(config, old(Snapshot()), shape), Snapshot())
    {
      ghost var c0 := Snapshot();
      DecodeAsElements(config, c0, shape);
      var access := new SequenceAccess(this);
      var items: seq<Value> := [];
      while true
        invariant fresh(access) && access.de == this && access.tag == c0.current.tag
        invariant Measure(Snapshot()) <= Measure(c0)
        invariant access.first ==> items == [] && Snapshot() == c0
        invariant !access.first ==> Decode(config, c0, shape) == DecodeElements(config, Snapshot(), access.tag, shape, items)
        decreases Measure(Snapshot()), if access.first then 1 else 0
      {
        ghost var wasFirst := access.first;
        ghost var c := Snapshot();
        ghost var before := items;
        var element := access.NextElement(shape.element);
        if element.Err? {
          return Err(element.error);
        }
        if element.value.None? {
          return Ok(List(items));
        }
        items := items + [element.value.value];
        assert wasFirst ==> items == [element.value.value] && c == c0;
        assert !wasFirst ==> DecodeElements(config, c, access.tag, shape, before) == DecodeElements(config, Snapshot(), access.tag, shape, items);
      }
    }

    /** `deserialize_enum`: name the variant by the current tag, then decode its payload, if any, in place. */
    method DeserializeEnum(shape: Shape) returns (r: Result<Value>)
      requires shape.Enum?
      requires Progresses(config.parse)
      modifies this
      decreases Measure(Snapshot()), shape, 1
      ensures Agrees(r, Decode(config, old(Snapshot()), shape), Snapshot())
    {
      var access := new EnumAccess(this);
      var i := access.VariantSeed(shape.variants);
      if i.Err? {
        return Err(i.error);
      }
      match shape.variants[i.value]
      case Unit(key) =>
        access.UnitVariant();
        r := Ok(Chosen(key, None));
      case Newtype(key, payload) =>
        var v := access.NewtypeVariant(payload);
        r := if v.Ok? then Ok(Chosen(key, Some(v.value))) else Err(v.error);
    }
  }

  /** `GedcomMapAccess`: the key and value steps of a map at `mapLevel`. */
  class MapAccess {
    const de: Deserializer
    const mapLevel: nat

    constructor (de: Deserializer, mapLevel: nat)
      ensures this.de == de && this.mapLevel == mapLevel
    {
      this.de := de;
      this.mapLevel := mapLevel;
    }

    /**
     * `next_key_seed`: stop when the map ends; otherwise move to the
     * lookahead line, switch to key mode and read its tag.
     */
    method NextKey() returns (r: Result<Option<string>>)
      requires Progresses(de.config.parse)
      modifies de
      ensures var c := old(de.Snapshot());
        if MapEnds(de.config.rule, c, mapLevel) then r == Ok(None) && de.Snapshot() == c
        else match Advance(de.config, c)
          case Err(e) => r == Err(e)
          case Ok(c1) => r == Ok(Some(c1.current.tag)) && de.Snapshot() == c1.(state := DeserialisingKey)
    {
      if de.nextLine.None? || MapEnds(de.config.rule, de.Snapshot(), mapLevel) {
        return Ok(None);
      }
      var advanced := de.ParseNextLine();
      if advanced.Err? {
        return Err(advanced.error);
      }
      de.state := DeserialisingKey;
      var key := de.DeserializeStr();
      return Ok(Some(key.value));
    }

    /** `next_value_seed`: switch to value mode and decode the value in place. */
    method NextValue(shape: Shape) returns (r: Result<Value>)
      requires Progresses(de.config.parse)
      modifies de
      decreases Measure(de.Snapshot()), shape, 4
      ensures Agrees(r, Decode(de.config, old(de.Snapshot()).(state := DeserialisingValue), shape), de.Snapshot())
    {
      de.state := DeserialisingValue;
      r := de.Deserialize(shape);
    }
  }

  /** `GedcomSequenceAccess`: the elements of a sequence of lines sharing the tag it began with. */
  class SequenceAccess {
    const de: Deserializer
    var first: bool
    const tag: string

    constructor (de: Deserializer)
      ensures this.de == de && first && tag == de.currentLine.tag
    {
      this.de := de;
      first := true;
      tag := de.currentLine.tag;
    }

    /**
     * `next_element_seed`: the first element is decoded from the current
     * line; each later one needs a lookahead with the same tag, and is
     * decoded after moving to it, in value mode.
     */
    method NextElement(shape: Shape) returns (r: Result<Option<Value>>)
      requires Progresses(de.config.parse)
      modifies this, de
      decreases Measure(de.Snapshot()), shape, 4
      ensures !first
      ensures old(first) ==> match Decode(de.config, old(de.Snapshot()), shape)
        case Err(e) => r == Err(e)
        case Ok(d) => r == Ok(Some(d.value)) && de.Snapshot() == d.cursor
      ensures !old(first) ==> var c := old(de.Snapshot());
        if SeqEnds(c, tag) then r == Ok(None) && de.Snapshot() == c
        else match Advance(de.config, c)
          case Err(e) => r == Err(e)
          case Ok(c1) =>
            match Decode(de.config, c1.(state := DeserialisingValue), shape)
            case Err(e) => r == Err(e)
            case Ok(d) => r == Ok(Some(d.value)) && de.Snapshot() == d.cursor
    {
      if first {
        first := false;
        var v := de.Deserialize(shape);
        return if v.Ok? then Ok(Some(v.value)) else Err(v.error);
      }
      if de.nextLine.None? || de.nextLine.value.tag != tag {
        return Ok(None);
      }
      var advanced := de.ParseNextLine();
      if advanced.Err? {
        return Err(advanced.error);
      }
      de.state := DeserialisingValue;
      var v := de.Deserialize(shape);
      return if v.Ok? then Ok(Some(v.value)) else Err(v.error);
    }
  }

  /** `GedcomEnumAccess`: the variant is named by the current line's tag. */
  class EnumAccess {
    const de: Deserializer

    constructor (de: Deserializer)
      ensures this.de == de
    {
      this.de := de;
    }

    /**
     * `variant_seed`: read the current tag in key mode and look it up among
     * the variants; on success return to value mode.
     */
    method VariantSeed(variants: seq<Variant>) returns (r: Result<nat>)
      requires Progresses(de.config.parse)
      modifies de
      ensures var c := old(de.Snapshot());
        match KeyIndex(VariantNames(variants), c.current.tag)
        case None => r == Err(UnknownVariant(c.current.tag, VariantNames(variants)))
        case Some(i) => r == Ok(i) && de.Snapshot() == c.(state := DeserialisingValue)
    {
      de.state := DeserialisingKey;
      var name := de.DeserializeStr();
      var i := KeyIndex(VariantNames(variants), name.value);
      if i.None? {
        return Err(UnknownVariant(name.value, VariantNames(variants)));
      }
      de.state := DeserialisingValue;
      return Ok(i.value);
    }

    /** `unit_variant`: nothing to consume. */
    method UnitVariant()
      ensures unchanged(de)
    {
    }

    /** `newtype_variant_seed`: the payload is decoded from the same current line. */
    method NewtypeVariant(shape: Shape) returns (r: Result<Value>)
      requires Progresses(de.config.parse)
      modifies de
      decreases Measure(de.Snapshot()), shape, 4
      ensures Agrees(r, Decode(de.config, old(de.Snapshot()), shape), de.Snapshot())
    {
      r := de.Deserialize(shape);
    }
  }

  /**
   * `from_str`: build the decoder, decode one value and refuse unparsed
   * input; the result is exactly what `Decoder.FromStr` specifies.
   */
  method DecodeDocument(cfg: Config, input: string, shape: Shape) returns (r: Result<Value>)
    requires Progresses(cfg.parse)
    ensures r == FromStr(cfg, input, shape)
  {
    var created := Deserializer.FromStr(input, cfg);
    if created.Err? {
      return Err(created.error);
    }
    var de := created.value;
    var t := de.Deserialize(shape);
    if t.Err? {
      return Err(t.error);
    }
    if de.remainingInput == [] {
      return Ok(t.value);
    }
    return Err(TrailingCharacters);
  }
}
