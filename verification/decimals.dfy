/**
 * Decimal digits and the conversion of a digit string to an unsigned integer
 * (src/parsers/utilities/decimals.rs): `is_decimal_digit` is `char::is_digit(10)`
 * and `from_decimal` is `u8::from_str_radix(_, 10)`.
 */
module Decimals {

  import opened Scan

  /** `char::is_digit(10)`: exactly the ASCII digits. */
  predicate IsDecimalDigit(c: char)
  {
    '0' <= c <= '9'
  }

  predicate AllDigits(s: string)
  {
    forall i :: 0 <= i < |s| ==> IsDecimalDigit(s[i])
  }

  function DigitValue(c: char): (d: nat)
    requires IsDecimalDigit(c)
    ensures d <= 9
  {
    (c as int) - ('0' as int)
  }

  function Pow10(n: nat): (p: nat)
    ensures p >= 1
  {
    if n == 0 then 1 else 10 * Pow10(n - 1)
  }

  /** The positional base-10 value of a digit string: the reference the conversions are checked against. */
  function DecimalValue(s: string): (v: nat)
    requires AllDigits(s)
    ensures v < Pow10(|s|)
  {
    if s == [] then 0 else DecimalValue(s[..|s| - 1]) * 10 + DigitValue(s[|s| - 1])
  }

  function DigitChar(d: nat): (c: char)
    requires d <= 9
    ensures IsDecimalDigit(c) && DigitValue(c) == d
  {
    ('0' as int + d) as char
  }

  /** The shortest decimal text of `n`: the inverse of `DecimalValue`. */
  function DecimalText(n: nat): (s: string)
    ensures s != [] && AllDigits(s) && DecimalValue(s) == n
    ensures n < 10 ==> |s| == 1
    ensures 10 <= n < 100 ==> |s| == 2
    ensures 100 <= n < 1000 ==> |s| == 3
    ensures 1000 <= n < 10000 ==> |s| == 4
  {
    if n < 10 then [DigitChar(n)]
    else
      var s := DecimalText(n / 10) + [DigitChar(n % 10)];
      assert s[..|s| - 1] == DecimalText(n / 10);
      s
  }

  /** The error kinds of Rust's `ParseIntError` that an unsigned conversion can produce. */
  datatype IntErrorKind = Empty | InvalidDigit | PosOverflow

  datatype IntResult = Parsed(n: nat) | IntError(kind: IntErrorKind)

  /**
   * `from_str_radix(s, 10)` for an unsigned integer type whose largest value is
   * `max`: an optional leading `+`, then digits read left to right, failing on
   * the first non-digit or as soon as the running value exceeds `max`.
   */
  function FromStrRadix10(s: string, max: nat): (r: IntResult)
    ensures s == [] ==> r == IntError(Empty)
    ensures s != [] && AllDigits(s) ==>
      r == if DecimalValue(s) <= max then Parsed(DecimalValue(s)) else IntError(PosOverflow)
    ensures r.Parsed? ==> r.n <= max
  {
    if s == [] then IntError(Empty)
    else if (s[0] == '+' || s[0] == '-') && |s| == 1 then IntError(InvalidDigit)
    else
      var digits := if s[0] == '+' then s[1..] else s;
      AccumulateFromStart(digits, max);
      Accumulate(digits, 0, max)
  }

  /** The digit loop of `from_str_radix`, with the value read so far in `acc`. */
  function Accumulate(ds: string, acc: nat, max: nat): (r: IntResult)
    requires acc <= max
    ensures r.Parsed? ==> r.n <= max
  {
    if ds == [] then Parsed(acc)
    else if !IsDecimalDigit(ds[0]) then IntError(InvalidDigit)
    else if acc * 10 + DigitValue(ds[0]) > max then IntError(PosOverflow)
    else Accumulate(ds[1..], acc * 10 + DigitValue(ds[0]), max)
  }

  /** `from_decimal`: a digit string as a `u8`. */
  function FromDecimal(s: string): (r: IntResult)
    ensures s == [] ==> r == IntError(Empty)
    ensures s != [] && AllDigits(s) && DecimalValue(s) <= 255 ==> r == Parsed(DecimalValue(s))
    ensures s != [] && AllDigits(s) && DecimalValue(s) > 255 ==> r == IntError(PosOverflow)
    ensures 1 <= |s| <= 2 && AllDigits(s) ==> r.Parsed? && r.n < 100
  {
    assert 1 <= |s| <= 2 ==> Pow10(|s|) <= 100;
    FromStrRadix10(s, 255)
  }

  /**
   * `map_res(take_while_m_n(1, 2, is_decimal_digit), from_decimal)`, the reader of levels, days,
   * hours, minutes and seconds: one or two leading digits and their value.  The conversion cannot
   * fail on two digits, so the parser fails only when no digit leads.
   */
  function ParseOneOrTwoDigits(s: string): (r: ParseResult<nat>)
    ensures r.Done? <==> s != [] && IsDecimalDigit(s[0])
    ensures r.Done? ==> r.value < 100 && |s| - 2 <= |r.rest| < |s| && IsSuffix(r.rest, s)
    ensures r.Done? ==> AllDigits(s[..|s| - |r.rest|]) && r.value == DecimalValue(s[..|s| - |r.rest|])
    ensures r.Done? && |r.rest| > |s| - 2 && r.rest != [] ==> !IsDecimalDigit(r.rest[0])
    ensures r.Fail? ==> r.at == s
  {
    match TakeWhileMN(s, 1, 2, IsDecimalDigit)
    case Fail(at) => Fail(at)
    case Done(rest, digits) =>
      assert digits == s[..|s| - |rest|];
      var n := FromDecimal(digits);
      if n.Parsed? then Done(rest, n.n) else Fail(s)
  }

  /** The decimal text of a number below 100, followed by a non-digit or by the end, is read back as that number. */
  lemma OneOrTwoDigitsOn(n: nat, rest: string)
    requires n < 100 && (rest == [] || !IsDecimalDigit(rest[0]))
    ensures ParseOneOrTwoDigits(DecimalText(n) + rest) == Done(rest, n)
  {
    TakeWhileMNOn(DecimalText(n), rest, 1, 2, IsDecimalDigit);
  }

  lemma AccumulateFromStart(ds: string, max: nat)
    ensures AllDigits(ds) ==>
      Accumulate(ds, 0, max) == if DecimalValue(ds) <= max then Parsed(DecimalValue(ds)) else IntError(PosOverflow)
  {
    if AllDigits(ds) {
      AccumulateValue([], ds, max);
      assert [] + ds == ds;
    }
  }

  /** Reading the digits `ds` after a prefix `p` has been read yields the value of `p + ds`, or overflow exactly when that value is too large. */
  lemma {:induction false} AccumulateValue(p: string, ds: string, max: nat)
    requires AllDigits(p) && AllDigits(ds) && DecimalValue(p) <= max
    ensures AllDigits(p + ds)
    ensures Accumulate(ds, DecimalValue(p), max)
      == if DecimalValue(p + ds) <= max then Parsed(DecimalValue(p + ds)) else IntError(PosOverflow)
    decreases |ds|
  {
    assert AllDigits(p + ds) by {
      forall i | 0 <= i < |p + ds| ensures IsDecimalDigit((p + ds)[i]) {
        if i >= |p| { assert (p + ds)[i] == ds[i - |p|]; }
      }
    }
    if ds == [] {
      assert p + ds == p;
    } else {
      var p' := p + [ds[0]];
      assert p'[..|p'| - 1] == p;
      assert AllDigits(p');
      assert DecimalValue(p') == DecimalValue(p) * 10 + DigitValue(ds[0]);
      assert p + ds == p' + ds[1..];
      if DecimalValue(p') > max {
        PrefixBound(p', ds[1..]);
      } else {
        AccumulateValue(p', ds[1..], max);
      }
    }
  }

  /** Appending digits never makes a value smaller. */
  lemma {:induction false} PrefixBound(p: string, q: string)
    requires AllDigits(p) && AllDigits(q)
    ensures AllDigits(p + q) && DecimalValue(p + q) >= DecimalValue(p)
    decreases |q|
  {
    assert AllDigits(p + q) by {
      forall i | 0 <= i < |p + q| ensures IsDecimalDigit((p + q)[i]) {
        if i >= |p| { assert (p + q)[i] == q[i - |p|]; }
      }
    }
    if q == [] {
      assert p + q == p;
    } else {
      var q' := q[..|q| - 1];
      assert (p + q)[..|p + q| - 1] == p + q';
      PrefixBound(p, q');
    }
  }
}
