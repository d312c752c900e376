/** Decimal rendering of unsigned integers, as Rust's `{}` formatting writes
    them (no sign, no leading zeros, "0" for zero), together with the parser
    that inverts it. */
module Decimal {
  import opened Wrappers

  predicate IsDigit(c: char) {
    '0' <= c <= '9'
  }

  predicate AllDigits(s: string) {
    forall k :: 0 <= k < |s| ==> IsDigit(s[k])
  }

  /** The canonical shape `{}` produces: at least one digit and no leading zero
      unless the number is zero itself. */
  predicate Canonical(s: string) {
    |s| > 0 && AllDigits(s) && (s[0] == '0' ==> |s| == 1)
  }

  function DigitChar(d: nat): (c: char)
    requires d < 10
    ensures IsDigit(c)
    ensures DigitValue(c) == d
  {
    ('0' as int + d) as char
  }

  function DigitValue(c: char): nat
    requires IsDigit(c)
  {
    c as int - '0' as int
  }

  /** The text `format!("{}", n)` writes for `n`. */
  function ToDecimal(n: nat): (s: string)
    ensures Canonical(s)
    ensures s == "0" <==> n == 0
    decreases n
  {
    if n < 10 then [DigitChar(n)] else ToDecimal(n / 10) + [DigitChar(n % 10)]
  }

  /** The number a string of digits denotes, most significant digit first. */
  function DigitsValue(s: string): nat
    requires AllDigits(s)
  {
    if |s| == 0 then 0 else DigitsValue(s[..|s| - 1]) * 10 + DigitValue(s[|s| - 1])
  }

  /** Reads back a number written by `ToDecimal`; anything that `{}` could not
      have produced is rejected. */
  function ParseDecimal(s: string): (r: Option<nat>)
    ensures r.Some? <==> Canonical(s)
  {
    if Canonical(s) then Some(DigitsValue(s)) else None
  }

  lemma {:induction false} DigitsValueOfToDecimal(n: nat)
    ensures DigitsValue(ToDecimal(n)) == n
    decreases n
  {
    if n >= 10 {
      var s := ToDecimal(n);
      assert s[..|s| - 1] == ToDecimal(n / 10);
      DigitsValueOfToDecimal(n / 10);
    }
  }

  /** Parsing what `{}` wrote gives the number back. */
  lemma DecimalRoundTrip(n: nat)
    ensures ParseDecimal(ToDecimal(n)) == Some(n)
  {
    DigitsValueOfToDecimal(n);
  }

  /** A digit string of value at least ten has a non-zero leading part. */
  lemma {:induction false} LeadingPartValue(s: string)
    requires Canonical(s) && |s| >= 2
    ensures DigitsValue(s[..|s| - 1]) >= 1
    decreases |s|
  {
    var p := s[..|s| - 1];
    assert p[0] == s[0] != '0';
    if |p| == 1 {
      assert DigitsValue(p) == DigitsValue(p[..0]) * 10 + DigitValue(p[0]);
    } else {
      assert Canonical(p);
      LeadingPartValue(p);
      assert p[..|p| - 1] == s[..|s| - 2];
    }
  }

  /** Conversely, every canonical digit string is what `{}` writes for its
      value, so the rendering is onto the canonical strings and one-to-one. */
  lemma {:induction false} ToDecimalOfParse(s: string)
    requires Canonical(s)
    ensures ToDecimal(DigitsValue(s)) == s
    decreases |s|
  {
    var n := DigitsValue(s);
    if |s| == 1 {
      assert DigitsValue(s[..0]) == 0;
      assert n == DigitValue(s[0]) < 10;
    } else {
      var p := s[..|s| - 1];
      LeadingPartValue(s);
      assert Canonical(p);
      ToDecimalOfParse(p);
      assert n >= 10;
      assert n / 10 == DigitsValue(p);
      assert DigitChar(n % 10) == s[|s| - 1];
      assert s == p + [s[|s| - 1]];
    }
  }

  /** Distinct numbers are written differently. */
  lemma ToDecimalInjective(a: nat, b: nat)
    requires ToDecimal(a) == ToDecimal(b)
    ensures a == b
  {
    DecimalRoundTrip(a);
    DecimalRoundTrip(b);
  }
}
