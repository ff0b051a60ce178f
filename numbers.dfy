/** Decimal numerals: `n.toString()` for natural numbers and `parseInt(s, 10)`. */
module Numbers {
  import opened Wrappers
  import opened Strings

  predicate IsDigit(c: char) {
    '0' <= c <= '9'
  }

  predicate AllDigits(s: string) {
    forall i :: 0 <= i < |s| ==> IsDigit(s[i])
  }

  function DigitChar(d: nat): char
    requires d < 10
  {
    ('0' as int + d) as char
  }

  function DigitValue(c: char): nat
    requires IsDigit(c)
  {
    c as int - '0' as int
  }

  /** `n.toString()` for a natural number: its base-10 numeral without leading zeros. */
  function Decimal(n: nat): (r: string)
    ensures |r| >= 1 && AllDigits(r)
  {
    if n < 10 then [DigitChar(n)] else Decimal(n / 10) + [DigitChar(n % 10)]
  }

  /** The number an all-digit string denotes in base 10. */
  function DigitsValue(s: string): nat
    requires AllDigits(s)
  {
    if s == [] then 0 else DigitsValue(s[..|s| - 1]) * 10 + DigitValue(s[|s| - 1])
  }

  /** The longest prefix of `s` made of digits. */
  function LeadingDigits(s: string): (r: string)
    ensures r <= s && AllDigits(r)
    ensures |r| == |s| || !IsDigit(s[|r|])
    decreases |s|
  {
    if s != [] && IsDigit(s[0]) then [s[0]] + LeadingDigits(s[1..]) else []
  }

  /** `parseInt(s, 10)`: leading white space, an optional sign, then as many digits as
      there are; `None` stands for NaN (no digit where one is needed). */
  function ParseInt(s: string): (r: Option<int>)
    ensures s != [] && AllDigits(s) ==> r == Some(DigitsValue(s))
  {
    DigitsParseWhole(s);
    var t := TrimStart(s);
    var negative := t != [] && t[0] == '-';
    var body := if t != [] && (t[0] == '-' || t[0] == '+') then t[1..] else t;
    var digits := LeadingDigits(body);
    var magnitude: int := if digits == [] then 0 else DigitsValue(digits);
    if digits == [] then None else Some(if negative then -magnitude else magnitude)
  }

  lemma {:induction false} DecimalValue(n: nat)
    ensures DigitsValue(Decimal(n)) == n
  {
    if n >= 10 {
      DecimalValue(n / 10);
      var d := Decimal(n);
      assert d[..|d| - 1] == Decimal(n / 10);
    }
  }

  lemma {:induction false} LeadingDigitsOfDigits(s: string)
    requires AllDigits(s)
    ensures LeadingDigits(s) == s
    decreases |s|
  {
    if s != [] {
      LeadingDigitsOfDigits(s[1..]);
    }
  }

  /** A plain run of digits has no white space or sign to skip, and is all digits. */
  lemma DigitsParseWhole(s: string)
    ensures s != [] && AllDigits(s) ==> TrimStart(s) == s && s[0] != '-' && s[0] != '+' && LeadingDigits(s) == s
  {
    if s != [] && AllDigits(s) {
      DigitStartsBody(s);
      LeadingDigitsOfDigits(s);
    }
  }

  /** A string starting with a digit has no white space or sign to skip. */
  lemma DigitStartsBody(s: string)
    requires s != [] && IsDigit(s[0])
    ensures TrimStart(s) == s && s[0] != '-' && s[0] != '+'
  {
    assert !IsSpace(s[0]);
  }

  /** `parseInt` reads back what `toString` wrote. */
  lemma ParseIntDecimal(n: nat)
    ensures ParseInt(Decimal(n)) == Some(n)
  {
    DecimalValue(n);
  }

  /** Distinct numbers have distinct numerals. */
  lemma DecimalInjective(m: nat, n: nat)
    ensures Decimal(m) == Decimal(n) ==> m == n
  {
    ParseIntDecimal(m);
    ParseIntDecimal(n);
  }
}
