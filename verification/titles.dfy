/**
 Bookmark titles. Each bookmark the merge adds is titled `Page_<n>`, with `<n>` the
 running bookmark counter written in decimal (Rust's `format!("Page_{}", n)`).
 */
module Titles {

  predicate IsDigit(c: char) {
    '0' <= c <= '9'
  }

  function DigitChar(d: nat): (c: char)
    requires d < 10
    ensures IsDigit(c)
  {
    (('0' as int) + d) as char
  }

  function DigitValue(c: char): (d: nat)
    requires IsDigit(c)
    ensures d < 10
  {
    (c as int) - ('0' as int)
  }

  /** The decimal rendering of a natural number, without leading zeros. */
  function Decimal(n: nat): (s: string)
    ensures |s| >= 1
    ensures forall i :: 0 <= i < |s| ==> IsDigit(s[i])
    ensures |s| > 1 ==> s[0] != '0'
  {
    if n < 10 then [DigitChar(n)] else Decimal(n / 10) + [DigitChar(n % 10)]
  }

  /** Reading a string of decimal digits back as a number. */
  function ParseDecimal(s: string): nat
    requires forall i :: 0 <= i < |s| ==> IsDigit(s[i])
  {
    if s == [] then 0 else ParseDecimal(s[..|s| - 1]) * 10 + DigitValue(s[|s| - 1])
  }

  /** Parsing the rendering gives the number back. */
  lemma {:induction false} DecimalRoundTrip(n: nat)
    ensures ParseDecimal(Decimal(n)) == n
  {
    var s := Decimal(n);
    if n >= 10 {
      DecimalRoundTrip(n / 10);
      assert s[..|s| - 1] == Decimal(n / 10);
    }
  }

  /** The title of the `n`-th bookmark. */
  function PageTitle(n: nat): (t: string)
    ensures |t| > 5 && t[..5] == "Page_"
  {
    "Page_" + Decimal(n)
  }

  /** Distinct counters give distinct titles. */
  lemma PageTitleInjective(a: nat, b: nat)
    requires PageTitle(a) == PageTitle(b)
    ensures a == b
  {
    assert Decimal(a) == PageTitle(a)[5..];
    assert Decimal(b) == PageTitle(b)[5..];
    DecimalRoundTrip(a);
    DecimalRoundTrip(b);
  }
}
