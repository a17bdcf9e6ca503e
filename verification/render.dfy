/** Rendering a balance held in cents the way BigDecimal.toString renders a
    scale-2 value ("10.00", "0.21", "-3.50"), and reading such text back. */
module Render {
  import opened Results

  predicate IsDigit(ch: char)
  {
    '0' <= ch <= '9'
  }

  predicate AllDigits(s: string)
  {
    forall i :: 0 <= i < |s| ==> IsDigit(s[i])
  }

  function DigitChar(d: nat): (ch: char)
    requires d < 10
    ensures IsDigit(ch)
  {
    ('0' as int + d) as char
  }

  function DigitValue(ch: char): nat
    requires IsDigit(ch)
  {
    ch as int - '0' as int
  }

  /** The decimal digits of n, most significant first, without leading
      zeros ("0" for zero). */
  function NatDigits(n: nat): (r: string)
    ensures |r| >= 1 && AllDigits(r)
    ensures |r| > 1 ==> r[0] != '0'
  {
    if n < 10 then [DigitChar(n)] else NatDigits(n / 10) + [DigitChar(n % 10)]
  }

  /** The number a string of decimal digits denotes. */
  function DigitsValue(s: string): nat
    requires AllDigits(s)
  {
    if s == [] then 0 else DigitsValue(s[..|s| - 1]) * 10 + DigitValue(s[|s| - 1])
  }

  lemma {:induction false} DigitsRoundTrip(n: nat)
    ensures DigitsValue(NatDigits(n)) == n
  {
    if n >= 10 {
      var s := NatDigits(n);
      assert s[..|s| - 1] == NatDigits(n / 10);
      DigitsRoundTrip(n / 10);
    }
  }

  /** A balance of c cents as BigDecimal.toString prints it at scale 2:
      an optional minus sign, the whole units, a point and exactly two
      fraction digits. The whole units carry no leading zero. */
  function FormatCents(c: int): (r: string)
    ensures |r| >= 4 && r[|r| - 3] == '.' && IsDigit(r[|r| - 2]) && IsDigit(r[|r| - 1])
    ensures (r[0] == '-') <==> c < 0
    ensures var u := r[(if c < 0 then 1 else 0)..|r| - 3];
            |u| >= 1 && AllDigits(u) && (|u| > 1 ==> u[0] != '0')
  {
    var m := if c < 0 then -c else c;
    var r := (if c < 0 then "-" else "") + NatDigits(m / 100) + "." + [DigitChar(m / 10 % 10), DigitChar(m % 10)];
    assert r[(if c < 0 then 1 else 0)..|r| - 3] == NatDigits(m / 100);
    r
  }

  /** Reads "[-]digits.dd" back as a number of cents. */
  function ParseCents(s: string): Option<int>
  {
    if |s| < 4 || s[|s| - 3] != '.' || !IsDigit(s[|s| - 2]) || !IsDigit(s[|s| - 1]) then None
    else
      var negative := s[0] == '-';
      var units := if negative then s[1..|s| - 3] else s[..|s| - 3];
      if units == [] || !AllDigits(units) then None
      else
        var m := DigitsValue(units) * 100 + DigitValue(s[|s| - 2]) * 10 + DigitValue(s[|s| - 1]);
        Some(if negative then -m else m)
  }

  /** The rendered text denotes exactly the balance it was made from. */
  lemma FormatParseRoundTrip(c: int)
    ensures ParseCents(FormatCents(c)) == Some(c)
  {
    var m := if c < 0 then -c else c;
    var r := FormatCents(c);
    var units := NatDigits(m / 100);
    if c < 0 {
      assert r[1..|r| - 3] == units;
    } else {
      assert r[..|r| - 3] == units;
    }
    DigitsRoundTrip(m / 100);
  }

  lemma FormatExamples()
    ensures FormatCents(1000) == "10.00"
    ensures FormatCents(21) == "0.21"
    ensures FormatCents(0) == "0.00"
  {
    assert NatDigits(10) == "10";
  }
}
