/**
 * The decoder's error taxonomy (src/gedcom_data_format/error.rs): a closed
 * set of cases, the `custom` constructors serde calls for free-form messages,
 * the text each case displays, and the conversion from a line-parser failure.
 */
module Errors {

  datatype Error =
    | Message(msg: string)
    | InvalidGedcomLine
    | ExpectedGedcomLineWithValue
    | ExpectedMap
    | ExpectedMapEnd
    | TrailingCharacters

  datatype Result<+T> = Ok(value: T) | Err(error: Error)

  /** `de::Error::custom`: a free-form message from the data-binding side. */
  function DeCustom(msg: string): (e: Error)
    ensures e.Message? && e.msg == msg
  {
    Message(msg)
  }

  /** `ser::Error::custom`: the serialising side builds the same case. */
  function SerCustom(msg: string): (e: Error)
    ensures e == DeCustom(msg)
  {
    Message(msg)
  }

  /** The `Display` text of each case. */
  function Display(e: Error): (s: string)
    ensures e.Message? ==> s == e.msg
    ensures !e.Message? ==> |s| > 0
  {
    match e
    case Message(msg) => msg
    case InvalidGedcomLine => "Invalid Gedcom line"
    case ExpectedGedcomLineWithValue => "Expected Gedcom Line with value"
    case ExpectedMap => "Expected map"
    case ExpectedMapEnd => "Expected map to end (next level should be current level - 1)"
    case TrailingCharacters => "Trailing characters were left"
  }

  /** `From<nom::Err<..>>`: every line-parser failure, wherever it stood, becomes `InvalidGedcomLine`. */
  function FromLineError(at: string): (e: Error)
    ensures e == InvalidGedcomLine
  {
    InvalidGedcomLine
  }

  /** A custom message displays as exactly the text it was built from. */
  lemma DisplayCustom(msg: string)
    ensures Display(DeCustom(msg)) == msg
    ensures Display(SerCustom(msg)) == msg
  {
  }

  /** The five fixed cases display five different texts. */
  lemma FixedDisplaysDistinct(a: Error, b: Error)
    requires !a.Message? && !b.Message? && a != b
    ensures Display(a) != Display(b)
  {
    assert |Display(a)| != |Display(b)|;
  }
}
