/**
 * Decimal text, as the snapshot store uses it: Python's `int(...)` on a
 * file-name prefix and `str(...)` on the selected key.
 */
module Decimal {
  import opened Wrappers

  predicate IsDigit(c: char) {
    '0' <= c <= '9'
  }

  predicate AllDigits(s: string) {
    forall i :: 0 <= i < |s| ==> IsDigit(s[i])
  }

  function DigitChar(d: nat): (c: char)
    requires d < 10
    ensures IsDigit(c)
  {
    ('0' as int + d) as char
  }

  function DigitValue(c: char): (d: nat)
    requires IsDigit(c)
    ensures d < 10 && DigitChar(d) == c
  {
    c as int - '0' as int
  }

  function Pow10(k: nat): (r: nat)
    ensures r > 0
  {
    if k == 0 then 1 else 10 * Pow10(k - 1)
  }

  /** The shortest decimal spelling of n (no leading zero unless n is 0). */
  function NatDigits(n: nat): (s: string)
    ensures |s| > 0 && AllDigits(s)
    ensures n >= 10 ==> s[0] != '0'
    decreases n
  {
    if n < 10 then [DigitChar(n)] else NatDigits(n / 10) + [DigitChar(n % 10)]
  }

  /** The value of a string of decimal digits, most significant first. */
  function ParseDigits(s: string): (n: nat)
    requires AllDigits(s)
    ensures n < Pow10(|s|)
  {
    if |s| == 0 then 0 else ParseDigits(s[..|s| - 1]) * 10 + DigitValue(s[|s| - 1])
  }

  /** A leading zero does not change the value of a digit string. */
  lemma {:induction false} LeadingZero(s: string)
    requires AllDigits(s)
    ensures AllDigits("0" + s) && ParseDigits("0" + s) == ParseDigits(s)
    decreases |s|
  {
    var z := "0" + s;
    if |s| == 0 {
      assert z[..0] == "";
    } else {
      assert z[..|z| - 1] == "0" + s[..|s| - 1];
      LeadingZero(s[..|s| - 1]);
    }
  }

  /**
   * Python's `int(s)` on a base-10 string: an optional sign followed by at
   * least one digit; anything else is None (Python raises ValueError).
   */
  function ParseInt(s: string): (r: Option<int>)
    ensures r.Some? <==> (|s| > 0 && AllDigits(s)) || (|s| > 1 && (s[0] == '-' || s[0] == '+') && AllDigits(s[1..]))
    ensures r.Some? && |s| > 0 && AllDigits(s) ==> r.value >= 0
  {
    if |s| > 0 && AllDigits(s) then Some(ParseDigits(s))
    else if |s| > 1 && s[0] == '-' && AllDigits(s[1..]) then Some(0 - ParseDigits(s[1..]) as int)
    else if |s| > 1 && s[0] == '+' && AllDigits(s[1..]) then Some(ParseDigits(s[1..]))
    else None
  }

  /**
   * Python's `str(n)` for an int: a minus sign for a negative n, then the
   * digits; never a '.', so a key spelled this way ends before the extension.
   */
  function IntToString(n: int): (s: string)
    ensures |s| > 0 && '.' !in s
    ensures n >= 0 <==> AllDigits(s)
    ensures n < 0 ==> s[0] == '-' && AllDigits(s[1..])
  {
    if n < 0 then
      var s := "-" + NatDigits(-n);
      assert !IsDigit(s[0]) && s[1..] == NatDigits(-n);
      s
    else NatDigits(n)
  }

  lemma {:induction false} DigitsRoundTrip(n: nat)
    ensures ParseDigits(NatDigits(n)) == n
    decreases n
  {
    if n >= 10 {
      var s := NatDigits(n);
      assert s[..|s| - 1] == NatDigits(n / 10);
      DigitsRoundTrip(n / 10);
    }
  }

  /** Reading back what `str` wrote gives the same int. */
  lemma IntRoundTrip(n: int)
    ensures ParseInt(IntToString(n)) == Some(n)
  {
    if n < 0 {
      var s := IntToString(n);
      assert s[1..] == NatDigits(-n);
      DigitsRoundTrip(-n);
    } else {
      DigitsRoundTrip(n);
    }
  }

  /** n written with exactly `width` digits, zero-padded on the left (strftime's fields). */
  function Pad(n: nat, width: nat): (s: string)
    requires n < Pow10(width)
    ensures |s| == width && AllDigits(s)
  {
    if width == 0 then "" else Pad(n / 10, width - 1) + [DigitChar(n % 10)]
  }

  /** The digits of a * 10^k + b are the digits of a followed by b padded to k places. */
  lemma {:induction false} DigitsOfShifted(a: nat, b: nat, k: nat)
    requires a > 0 && b < Pow10(k)
    ensures NatDigits(a * Pow10(k) + b) == NatDigits(a) + Pad(b, k)
    decreases k
  {
    if k > 0 {
      var x := a * Pow10(k - 1);
      ShiftSplit(a, k);
      DivModTen(x, b);
      DigitsOfShifted(a, b / 10, k - 1);
      assert NatDigits(x * 10 + b) == NatDigits(x + b / 10) + [DigitChar(b % 10)];
    }
  }

  lemma ShiftSplit(a: nat, k: nat)
    requires a > 0 && k > 0
    ensures a * Pow10(k) == (a * Pow10(k - 1)) * 10
    ensures a * Pow10(k - 1) >= 1
  {
    assert Pow10(k) == 10 * Pow10(k - 1);
  }

  lemma DivModTen(x: nat, b: nat)
    requires x >= 1
    ensures (x * 10 + b) / 10 == x + b / 10
    ensures (x * 10 + b) % 10 == b % 10
    ensures x * 10 + b >= 10
  {
  }

  /** A number with exactly `width` significant digits is its own padding. */
  lemma {:induction false} PadFullWidth(n: nat, width: nat)
    requires width > 0 && Pow10(width - 1) <= n < Pow10(width)
    ensures NatDigits(n) == Pad(n, width)
    decreases width
  {
    if width > 1 {
      PadFullWidth(n / 10, width - 1);
    }
  }
}
