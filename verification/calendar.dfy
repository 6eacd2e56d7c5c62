/**
 * The value types of the date and time primitives (src/gedcom_entities/dates.rs,
 * src/gedcom_entities/time_value.rs): a month, an exact date, a Gregorian date
 * and a time of day.  Days, years and time components are kept unbounded;
 * the parsers state the ranges they produce.
 */
module Calendar {

  import opened Options

  datatype Month =
    | January | February | March | April | May | June
    | July | August | September | October | November | December

  /** The months in calendar order, the order the parsers try them in. */
  const Months: seq<Month> :=
    [January, February, March, April, May, June, July, August, September, October, November, December]

  /** The upper-case three-letter code of a month. */
  function MonthCode(m: Month): (code: string)
    ensures |code| == 3
  {
    match m
    case January => "JAN"
    case February => "FEB"
    case March => "MAR"
    case April => "APR"
    case May => "MAY"
    case June => "JUN"
    case July => "JUL"
    case August => "AUG"
    case September => "SEP"
    case October => "OCT"
    case November => "NOV"
    case December => "DEC"
  }

  /** `DateExact { day: u8, month, year: i16 }` */
  datatype DateExact = DateExact(day: nat, month: Month, year: nat)

  /** `DateGreg { day: u8, month, year: i16 }` */
  datatype DateGreg = DateGreg(day: nat, month: Month, year: nat)

  /** `TimeValue { hours: u8, minutes: u8, seconds: Option<u8> }` */
  datatype TimeValue = TimeValue(hours: nat, minutes: nat, seconds: Option<nat>)
}
