/** The parts of JavaScript number semantics that the receipt code relies on:
    `parseInt(s, 10)`, NaN, and truthiness of numbers. */
module JsNumbers {

  /** A JavaScript number as produced by `parseInt`: an integer or NaN. */
  datatype JsNumber = Int(value: int) | NaN

  /** JavaScript truthiness of a number: 0 and NaN are falsy. */
  predicate Truthy(n: JsNumber) {
    n.Int? && n.value != 0
  }

  predicate IsDigit(c: char) {
    '0' <= c <= '9'
  }

  /** The value of a digit character (0 for any other character, which
      callers never pass). */
  function DigitValue(c: char): nat {
    if IsDigit(c) then (c as int) - ('0' as int) else 0
  }

  function DigitChar(d: nat): (c: char)
    requires d < 10
    ensures IsDigit(c) && DigitValue(c) == d
  {
    ((('0' as int) + d) as char)
  }

  /** Length of the longest prefix of `s` made of decimal digits. */
  function LeadingDigits(s: string): (n: nat)
    ensures n <= |s|
  {
    if s == [] || !IsDigit(s[0]) then 0 else 1 + LeadingDigits(s[1..])
  }

  /** `LeadingDigits` measures the longest all-digit prefix. */
  lemma {:induction false} LeadingDigitsMaximal(s: string)
    ensures AllDigits(s[..LeadingDigits(s)])
    ensures LeadingDigits(s) < |s| ==> !IsDigit(s[LeadingDigits(s)])
  {
    if s != [] && IsDigit(s[0]) {
      LeadingDigitsMaximal(s[1..]);
      var n := LeadingDigits(s[1..]);
      assert s[..n + 1] == [s[0]] + s[1..][..n];
    }
  }

  predicate AllDigits(s: string) {
    forall i :: 0 <= i < |s| ==> IsDigit(s[i])
  }

  /** The value of a string of decimal digits, most significant first. */
  function DigitsValue(ds: string): nat {
    if ds == [] then 0 else DigitsValue(ds[..|ds| - 1]) * 10 + DigitValue(ds[|ds| - 1])
  }

  /** `parseInt(s, 10)`: an optional sign followed by the longest run of
      digits; NaN when there is no digit. Leading white space, which
      `parseInt` skips, is not modelled. */
  function ParseInt(s: string): (n: JsNumber)
    ensures n.Int? <==> (|s| > 0 && IsDigit(s[0]))
                        || (|s| > 1 && (s[0] == '-' || s[0] == '+') && IsDigit(s[1]))
    ensures n.Int? && n.value < 0 ==> s[0] == '-'
  {
    var negative := |s| > 0 && s[0] == '-';
    var body := if |s| > 0 && (s[0] == '-' || s[0] == '+') then s[1..] else s;
    var n := LeadingDigits(body);
    if n == 0 then NaN
    else
      var v: int := DigitsValue(body[..n]);
      Int(if negative then -v else v)
  }

  /** The decimal rendering of a non-negative integer (what `String(n)` gives). */
  function DecimalString(n: nat): (s: string)
    ensures |s| > 0
  {
    if n < 10 then [DigitChar(n)] else DecimalString(n / 10) + [DigitChar(n % 10)]
  }

  lemma {:induction false} DecimalStringDigits(n: nat)
    ensures AllDigits(DecimalString(n))
    ensures DigitsValue(DecimalString(n)) == n
  {
    if n >= 10 {
      DecimalStringDigits(n / 10);
      var s := DecimalString(n);
      assert s[..|s| - 1] == DecimalString(n / 10);
    }
  }

  lemma {:induction false} LeadingDigitsOfDigits(ds: string, rest: string)
    requires AllDigits(ds)
    requires rest == [] || !IsDigit(rest[0])
    ensures LeadingDigits(ds + rest) == |ds|
  {
    if ds != [] {
      assert (ds + rest)[1..] == ds[1..] + rest;
      LeadingDigitsOfDigits(ds[1..], rest);
    }
  }

  /** `parseInt` reads back a decimal rendering, ignoring any text after it
      that does not start with a digit. */
  lemma ParseIntDecimal(n: nat, rest: string)
    requires rest == [] || !IsDigit(rest[0])
    ensures ParseInt(DecimalString(n) + rest) == Int(n)
    ensures ParseInt("-" + DecimalString(n) + rest) == Int(-(n as int))
  {
    var ds := DecimalString(n);
    DecimalStringDigits(n);
    LeadingDigitsOfDigits(ds, rest);
    assert (ds + rest)[..|ds|] == ds;
    assert ("-" + ds + rest)[1..] == ds + rest;
  }

  /** `parseInt` reads back a bare decimal rendering. */
  lemma ParseIntOfDecimal(n: nat)
    ensures ParseInt(DecimalString(n)) == Int(n)
  {
    ParseIntDecimal(n, "");
    assert DecimalString(n) + "" == DecimalString(n);
  }

  lemma ParseIntEmptyIsNaN()
    ensures ParseInt("") == NaN
    ensures ParseInt("-") == NaN
  {
  }
}
