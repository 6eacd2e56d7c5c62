/**
 * The handful of text-scanning primitives the GEDCOM parsers are built from,
 * written as plain functions over strings: `tag`, `take_while_m_n`,
 * `take_while1`, `take_till1` and `take_till` over complete input.  A parser
 * returns the unconsumed rest of its input together with what it recognised,
 * or fails at the input where the failing primitive stood.
 */
module Scan {

  datatype ParseResult<+T> = Done(rest: string, value: T) | Fail(at: string)

  /** `b` is what is left of `a` after a prefix has been consumed. */
  predicate IsSuffix(b: string, a: string)
  {
    |b| <= |a| && a[|a| - |b|..] == b
  }

  /** `s` consists of `head` followed by `rest`. */
  predicate Splits(s: string, head: string, rest: string)
  {
    |s| == |head| + |rest| && head == s[..|head|] && rest == s[|head|..]
  }

  lemma SuffixTransitive(c: string, b: string, a: string)
    requires IsSuffix(c, b) && IsSuffix(b, a)
    ensures IsSuffix(c, a)
  {
    assert a[|a| - |c|..] == a[|a| - |b|..][|b| - |c|..];
  }

  /** The number of leading characters of `s` that satisfy `p`, counting at most `n`. */
  function PrefixLength(s: string, n: nat, p: char -> bool): (k: nat)
    ensures k <= n && k <= |s|
    ensures forall i :: 0 <= i < k ==> p(s[i])
    ensures k < n && k < |s| ==> !p(s[k])
  {
    if n == 0 || s == [] || !p(s[0]) then 0 else 1 + PrefixLength(s[1..], n - 1, p)
  }

  /** `take_while_m_n(m, n, p)`: the longest prefix of at most `n` characters satisfying `p`, failing when it is shorter than `m`. */
  function TakeWhileMN(s: string, m: nat, n: nat, p: char -> bool): (r: ParseResult<string>)
    requires m <= n
    ensures r.Done? <==> m <= |s| && forall i :: 0 <= i < m ==> p(s[i])
    ensures r.Done? ==> m <= |r.value| <= n && Splits(s, r.value, r.rest)
    ensures r.Done? ==> forall i :: 0 <= i < |r.value| ==> p(r.value[i])
    ensures r.Done? && |r.value| < n && r.rest != [] ==> !p(r.rest[0])
    ensures r.Fail? ==> r.at == s
  {
    var k := PrefixLength(s, n, p);
    if k < m then
      assert !(m <= |s| && forall i :: 0 <= i < m ==> p(s[i])) by {
        if m <= |s| { assert !p(s[k]); }
      }
      Fail(s)
    else
      Done(s[k..], s[..k])
  }

  /** `take_while1(p)`: the longest non-empty prefix satisfying `p`. */
  function TakeWhile1(s: string, p: char -> bool): (r: ParseResult<string>)
    ensures r.Done? <==> s != [] && p(s[0])
    ensures r.Done? ==> |r.value| >= 1 && Splits(s, r.value, r.rest)
    ensures r.Done? ==> forall i :: 0 <= i < |r.value| ==> p(r.value[i])
    ensures r.Done? && r.rest != [] ==> !p(r.rest[0])
    ensures r.Fail? ==> r.at == s
  {
    var k := PrefixLength(s, |s|, p);
    if k == 0 then Fail(s)
    else
      Done(s[k..], s[..k])
  }

  /** `take_till1(p)`: the longest non-empty prefix containing no character satisfying `p`. */
  function TakeTill1(s: string, p: char -> bool): (r: ParseResult<string>)
    ensures r.Done? <==> s != [] && !p(s[0])
    ensures r.Done? ==> |r.value| >= 1 && Splits(s, r.value, r.rest)
    ensures r.Done? ==> forall i :: 0 <= i < |r.value| ==> !p(r.value[i])
    ensures r.Done? && r.rest != [] ==> p(r.rest[0])
    ensures r.Fail? ==> r.at == s
  {
    TakeWhile1(s, c => !p(c))
  }

  /** `take_till(p)`: the longest (possibly empty) prefix containing no character satisfying `p`; it never fails. */
  function TakeTill(s: string, p: char -> bool): (r: ParseResult<string>)
    ensures r.Done? && Splits(s, r.value, r.rest)
    ensures forall i :: 0 <= i < |r.value| ==> !p(r.value[i])
    ensures r.rest != [] ==> p(r.rest[0])
  {
    TakeWhileMN(s, 0, |s|, c => !p(c))
  }

  /** `tag(t)`: the literal text `t`. */
  function Literal(s: string, t: string): (r: ParseResult<string>)
    ensures r.Done? <==> t <= s
    ensures r.Done? ==> r.value == t && Splits(s, t, r.rest)
    ensures r.Fail? ==> r.at == s
  {
    if t <= s then
      Done(s[|t|..], t)
    else Fail(s)
  }

  // ----- the primitives on input built from known parts -----

  /** The concatenation `a + b` splits back into `a` and `b`. */
  lemma SplitsConcat(a: string, b: string)
    ensures Splits(a + b, a, b)
  {
  }

  /** A prefix `a` of acceptable characters, cut off by an unacceptable one, by the end or by the bound `n`, is exactly what `take_while_m_n` takes. */
  lemma TakeWhileMNOn(a: string, b: string, m: nat, n: nat, p: char -> bool)
    requires m <= |a| <= n
    requires forall i :: 0 <= i < |a| ==> p(a[i])
    requires |a| == n || b == [] || !p(b[0])
    ensures TakeWhileMN(a + b, m, n, p) == Done(b, a)
  {
    var s := a + b;
    SplitsConcat(a, b);
    assert forall i :: 0 <= i < m ==> p(s[i]) by {
      forall i | 0 <= i < m ensures p(s[i]) { assert s[i] == a[i]; }
    }
  }

  /** The same for `take_while1`. */
  lemma TakeWhile1On(a: string, b: string, p: char -> bool)
    requires |a| >= 1
    requires forall i :: 0 <= i < |a| ==> p(a[i])
    requires b == [] || !p(b[0])
    ensures TakeWhile1(a + b, p) == Done(b, a)
  {
    var s := a + b;
    SplitsConcat(a, b);
    assert s[0] == a[0];
  }

  /** The same for `take_till1`. */
  lemma TakeTill1On(a: string, b: string, p: char -> bool)
    requires |a| >= 1
    requires forall i :: 0 <= i < |a| ==> !p(a[i])
    requires b == [] || p(b[0])
    ensures TakeTill1(a + b, p) == Done(b, a)
  {
    TakeWhile1On(a, b, c => !p(c));
  }

  /** `tag(t)` on input that starts with `t` consumes exactly `t`. */
  lemma LiteralOn(t: string, b: string)
    ensures Literal(t + b, t) == Done(b, t)
  {
    SplitsConcat(t, b);
    assert t <= t + b;
  }
}
