/** Decimal text of integers: Python's `str(n)` for n >= 0, `int(c)` for one digit
    character, and `int(s)` restricted to an optional sign followed by ASCII digits. */
module Decimal {
  import opened Wrappers

  predicate IsDigit(c: char) {
    '0' <= c <= '9'
  }

  predicate AllDigits(s: string) {
    forall i :: 0 <= i < |s| ==> IsDigit(s[i])
  }

  /** `b ** e` on naturals. */
  function Pow(b: nat, e: nat): (r: nat)
    ensures b >= 1 ==> r >= 1
  {
    if e == 0 then 1 else b * Pow(b, e - 1)
  }

  /** `int(c)` for a decimal digit character. */
  function DigitValue(c: char): (d: nat)
    requires IsDigit(c)
    ensures d < 10
  {
    c as int - '0' as int
  }

  /** The character that `str` prints for a single digit. */
  function DigitChar(d: nat): (c: char)
    requires d < 10
    ensures IsDigit(c) && DigitValue(c) == d
  {
    ('0' as int + d) as char
  }

  /** `str(n)` for a non-negative integer: its decimal digits, most significant
      first, without leading zeros ("0" for zero). */
  function Str(n: nat): (s: string)
    ensures |s| >= 1 && AllDigits(s)
    ensures s[0] == '0' ==> n == 0
  {
    if n < 10 then [DigitChar(n)] else Str(n / 10) + [DigitChar(n % 10)]
  }

  /** The value of a string of digits read left to right, as `int(s)` does. */
  function DigitsValue(s: string): (v: nat)
    requires AllDigits(s)
    ensures v < Pow(10, |s|)
  {
    if s == [] then 0 else DigitsValue(s[..|s| - 1]) * 10 + DigitValue(s[|s| - 1])
  }

  /** CPython's default limit on the number of digits `int` converts from decimal
      text (`sys.int_info.default_max_str_digits`); longer text raises ValueError. */
  const MaxStrDigits: nat := 4300

  /** The text after an optional leading `+` or `-`. */
  function Unsigned(s: string): string {
    if |s| > 0 && (s[0] == '-' || s[0] == '+') then s[1..] else s
  }

  /** `int(s)` on the inputs made of an optional `+` or `-` followed by ASCII digits:
      it succeeds exactly when at least one and at most MaxStrDigits digits follow
      the sign, and then its magnitude is the value of those digits (leading zeros
      allowed) and its sign is that of the text. Other strings are rejected, as
      `int` raises ValueError. */
  function ParseInt(s: string): (r: Option<int>)
    ensures r.Some? <==> 1 <= |Unsigned(s)| <= MaxStrDigits && AllDigits(Unsigned(s))
    ensures r.Some? ==> (if r.value < 0 then -r.value else r.value) == DigitsValue(Unsigned(s))
    ensures r.Some? && r.value < 0 ==> s[0] == '-'
    ensures r.Some? && s[0] == '-' ==> r.value <= 0
  {
    var digits := Unsigned(s);
    if digits == [] || |digits| > MaxStrDigits || !AllDigits(digits) then
      None
    else
      var v: int := DigitsValue(digits);
      Some(if s[0] == '-' then -v else v)
  }

  /** A number of ten or more prints as the text of its leading digits followed by
      its last digit. */
  lemma StrSnoc(n: nat)
    requires n >= 10
    ensures Str(n)[..|Str(n)| - 1] == Str(n / 10)
    ensures Str(n)[|Str(n)| - 1] == DigitChar(n % 10)
  {
    assert Str(n) == Str(n / 10) + [DigitChar(n % 10)];
  }

  /** Reading back what `str` prints gives the number: `int(str(n)) == n`. */
  lemma {:induction false} DigitsValueOfStr(n: nat)
    ensures DigitsValue(Str(n)) == n
  {
    if n >= 10 {
      StrSnoc(n);
      DigitsValueOfStr(n / 10);
    }
  }

  /** A digit string without a leading zero denotes a positive number. */
  lemma {:induction false} LeadingDigitPositive(s: string)
    requires |s| >= 1 && AllDigits(s) && s[0] != '0'
    ensures DigitsValue(s) >= 1
  {
    if |s| > 1 {
      LeadingDigitPositive(s[..|s| - 1]);
    }
  }

  /** The other direction of the round trip: a digit string without leading zeros
      is exactly what `str` prints for its value. */
  lemma {:induction false} StrOfDigitsValue(s: string)
    requires |s| >= 1 && AllDigits(s) && (s[0] == '0' ==> |s| == 1)
    ensures Str(DigitsValue(s)) == s
  {
    var last := s[|s| - 1];
    if |s| == 1 {
      assert DigitChar(DigitValue(last)) == last;
    } else {
      var init := s[..|s| - 1];
      LeadingDigitPositive(init);
      StrOfDigitsValue(init);
      var v := DigitsValue(s);
      assert v / 10 == DigitsValue(init) && v % 10 == DigitValue(last);
      assert DigitChar(DigitValue(last)) == last;
      assert s == init + [last];
    }
  }

  /** `str(n)` has as many characters as n has decimal digits:
      10^(len-1) <= n < 10^len for n >= 1. */
  lemma {:induction false} StrLength(n: nat)
    ensures n >= 1 ==> Pow(10, |Str(n)| - 1) <= n
    ensures n < Pow(10, |Str(n)|)
  {
    DigitsValueOfStr(n);
    if n >= 10 {
      StrLength(n / 10);
    }
  }

  /** `int` accepts what `str` prints, with or without a sign in front, as long as
      it is within the digit limit. */
  lemma ParseIntOfStr(n: nat)
    requires |Str(n)| <= MaxStrDigits
    ensures ParseInt(Str(n)) == Some(n)
    ensures ParseInt("+" + Str(n)) == Some(n)
    ensures ParseInt("-" + Str(n)) == Some(-(n as int))
  {
    DigitsValueOfStr(n);
    assert ("+" + Str(n))[1..] == Str(n);
    assert ("-" + Str(n))[1..] == Str(n);
  }

  /** A character that is neither a digit nor a leading sign makes `int` fail. */
  lemma ParseIntRejects(s: string, i: nat)
    requires i < |s| && !IsDigit(s[i])
    requires i == 0 ==> s[i] != '-' && s[i] != '+'
    ensures ParseInt(s) == None
  {
    if i > 0 && (s[0] == '-' || s[0] == '+') {
      assert !IsDigit(s[1..][i - 1]);
    }
  }

  /** The converse of ParseIntOfStr: text that `int` accepts and whose digits carry
      no leading zero is `str` of the magnitude, behind an optional sign. */
  lemma ParseIntCanonical(s: string)
    requires ParseInt(s).Some?
    requires Unsigned(s)[0] == '0' ==> |Unsigned(s)| == 1
    ensures var v := ParseInt(s).value;
            Unsigned(s) == Str(if v < 0 then -v else v)
  {
    StrOfDigitsValue(Unsigned(s));
  }

  /** Leading zeros are accepted, and minus zero is zero. */
  lemma ParseIntLeadingZeros()
    ensures ParseInt("007") == Some(7)
    ensures ParseInt("+0012") == Some(12)
    ensures ParseInt("-0") == Some(0)
  {
    assert "007"[..2] == "00" && "00"[..1] == "0" && "0"[..0] == [];
    assert DigitsValue("007") == 7;
    assert Unsigned("+0012") == "0012";
    assert "0012"[..3] == "001" && "001"[..2] == "00";
    assert DigitsValue("0012") == 12;
    assert Unsigned("-0") == "0";
  }
}
