/**
 * The two conversions the handlers apply to raw form fields: Python's
 * `str.isnumeric()` followed by `int()` (deposit and buy), and a bare `int()`
 * (sell). Only ASCII digits and an optional ASCII sign are modelled.
 */
module Forms {
  import opened Wrappers

  predicate IsDigit(c: char) {
    '0' <= c <= '9'
  }

  predicate AllDigits(s: string) {
    forall i :: 0 <= i < |s| ==> IsDigit(s[i])
  }

  /** `s.isnumeric()`: at least one character, and every character a digit. */
  predicate IsNumeric(s: string) {
    |s| > 0 && AllDigits(s)
  }

  /** What `isnumeric()` accepts of the strings a form can send: digit strings, leading zeros
      included; never the empty field, a sign, a decimal point or surrounding blanks. */
  lemma IsNumericCases()
    ensures IsNumeric("10") && IsNumeric("0") && IsNumeric("00")
    ensures !IsNumeric("") && !IsNumeric("-5") && !IsNumeric("+5") && !IsNumeric("2.5") && !IsNumeric(" 5")
  {
    assert !IsDigit("-5"[0]) && !IsDigit("+5"[0]) && !IsDigit("2.5"[1]) && !IsDigit(" 5"[0]);
  }

  function DigitValue(c: char): (d: nat)
    requires IsDigit(c)
    ensures d < 10
  {
    c as int - '0' as int
  }

  function DigitChar(d: nat): (c: char)
    requires d < 10
    ensures IsDigit(c) && DigitValue(c) == d
  {
    ('0' as int + d) as char
  }

  /** `int(s)` for a string of decimal digits; leading zeros are allowed. */
  function DecimalValue(s: string): nat
    requires AllDigits(s)
  {
    if s == [] then 0
    else 10 * DecimalValue(s[..|s| - 1]) + DigitValue(s[|s| - 1])
  }

  /** The decimal rendering of `n` (no leading zeros); the inverse of DecimalValue. */
  function Digits(n: nat): (s: string)
    ensures IsNumeric(s)
    decreases n
  {
    if n < 10 then [DigitChar(n)] else Digits(n / 10) + [DigitChar(n % 10)]
  }

  /** `int(s)` on a form string: an optional `+` or `-` followed by decimal digits;
      anything else raises, which is `None` here. */
  function ParseInt(s: string): (r: Option<int>)
    ensures r.Some? <==> IsNumeric(s) || (|s| >= 2 && (s[0] == '+' || s[0] == '-') && IsNumeric(s[1..]))
    ensures r.Some? ==> s != ""
    ensures IsNumeric(s) ==> r == Some(DecimalValue(s))
    ensures |s| >= 2 && s[0] == '+' && IsNumeric(s[1..]) ==> r == Some(DecimalValue(s[1..]))
    ensures |s| >= 2 && s[0] == '-' && IsNumeric(s[1..]) ==> r == Some(0 - DecimalValue(s[1..]) as int)
  {
    if IsNumeric(s) then Some(DecimalValue(s))
    else if |s| >= 2 && s[0] == '+' && IsNumeric(s[1..]) then Some(DecimalValue(s[1..]))
    else if |s| >= 2 && s[0] == '-' && IsNumeric(s[1..]) then Some(0 - DecimalValue(s[1..]) as int)
    else None
  }

  /** Reading back a rendered number gives the number. */
  lemma {:induction false} DigitsRoundTrip(n: nat)
    ensures DecimalValue(Digits(n)) == n
    decreases n
  {
    if n >= 10 {
      var s := Digits(n);
      DigitsRoundTrip(n / 10);
      assert s[..|s| - 1] == Digits(n / 10);
    }
  }

  /** A digit string is worth zero exactly when every digit is `0`: so `"00"`, `"000"`, …
      all read as 0 even though only the exact string `"0"` is compared against. */
  lemma {:induction false} DecimalValueZero(s: string)
    requires AllDigits(s)
    ensures DecimalValue(s) == 0 <==> forall i :: 0 <= i < |s| ==> s[i] == '0'
  {
    if s != [] {
      var init := s[..|s| - 1];
      DecimalValueZero(init);
      assert forall i :: 0 <= i < |init| ==> init[i] == s[i];
    }
  }
}
