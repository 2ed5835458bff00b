/** Decimal printing and parsing of 64-bit integers. */
module Decimals {
  import opened Envelopes

  const INT_MIN: int := -0x8000_0000_0000_0000
  const INT_MAX: int := 0x7FFF_FFFF_FFFF_FFFF

  predicate IsInt(n: int) {
    INT_MIN <= n <= INT_MAX
  }

  predicate IsDigit(c: char) {
    '0' <= c <= '9'
  }

  predicate AllDigits(s: string) {
    forall i | 0 <= i < |s| :: IsDigit(s[i])
  }

  function DigitValue(c: char): nat
    requires IsDigit(c)
  {
    c as int - '0' as int
  }

  /** The decimal digits of a natural number, most significant first. */
  function Digits(n: nat): (s: string)
    ensures s != "" && AllDigits(s)
  {
    if n < 10 then ["0123456789"[n]] else Digits(n / 10) + ["0123456789"[n % 10]]
  }

  function Value(s: string): nat
    requires AllDigits(s)
  {
    if s == "" then 0 else Value(s[..|s| - 1]) * 10 + DigitValue(s[|s| - 1])
  }

  function Itoa(n: int): string {
    if n < 0 then "-" + Digits(-n) else Digits(n)
  }

  /** An optional sign and at least one digit, within the range of a 64-bit integer. */
  function Atoi(s: string): Option<int> {
    var signed := s != "" && (s[0] == '-' || s[0] == '+');
    var digits := if signed then s[1..] else s;
    if digits == "" || !AllDigits(digits) then None
    else
      var v: int := Value(digits);
      var n := if signed && s[0] == '-' then -v else v;
      if IsInt(n) then Some(n) else None
  }

  lemma {:induction false} ValueOfDigits(n: nat)
    ensures Value(Digits(n)) == n
  {
    if n >= 10 {
      ValueOfDigits(n / 10);
      var s := Digits(n);
      assert s[..|s| - 1] == Digits(n / 10);
    } else {
      assert Digits(n)[..0] == "";
    }
  }

  lemma AtoiOfDigits(digits: string)
    requires digits != "" && AllDigits(digits)
    ensures Atoi(digits) == Atoi("+" + digits) == if IsInt(Value(digits)) then Some(Value(digits)) else None
    ensures Atoi("-" + digits) == if IsInt(0 - Value(digits)) then Some(0 - Value(digits)) else None
  {
    assert IsDigit(digits[0]);
    assert ("+" + digits)[1..] == digits && ("-" + digits)[1..] == digits;
  }

  /** A printed integer parses exactly within 64 bits, and then back to itself. */
  lemma PrintedParsesIff(n: int)
    ensures Atoi(Itoa(n)) == if -0x8000_0000_0000_0000 <= n < 0x8000_0000_0000_0000 then Some(n) else None
  {
    ValueOfDigits(if n < 0 then -n else n);
    AtoiOfDigits(Digits(if n < 0 then -n else n));
  }

  /** What is printed parses back. */
  lemma AtoiItoa(n: int)
    requires IsInt(n)
    ensures Atoi(Itoa(n)) == Some(n)
  {
    PrintedParsesIff(n);
  }

  /** `s` is a sign or none, and digits for `n`. */
  ghost predicate Writes(s: string, digits: string, n: int) {
    && digits != "" && AllDigits(digits)
    && if s == "-" + digits then n == 0 - Value(digits) else (s == digits || s == "+" + digits) && n == Value(digits)
  }

  /** What parses: digits, with a sign or without, for a number within 64 bits. */
  lemma ParsesIff(s: string, n: int)
    ensures Atoi(s) == Some(n) <==>
            -0x8000_0000_0000_0000 <= n < 0x8000_0000_0000_0000 && exists digits :: Writes(s, digits, n)
  {
    if Atoi(s) == Some(n) {
      var signed := s != "" && (s[0] == '-' || s[0] == '+');
      var digits := if signed then s[1..] else s;
      assert signed ==> s == [s[0]] + digits;
      assert IsDigit(digits[0]);
      assert Writes(s, digits, n);
    }
    if exists digits :: Writes(s, digits, n) {
      var digits :| Writes(s, digits, n);
      AtoiOfDigits(digits);
    }
  }

  lemma {:induction false} DigitsLead(n: nat)
    ensures Digits(n)[0] == '0' <==> n == 0
  {
    if n >= 10 {
      DigitsLead(n / 10);
    }
  }

  /** A minus sign marks the negative numbers, and only zero is printed with a leading zero. */
  lemma ItoaSign(n: int)
    ensures Itoa(n) != "" && (Itoa(n)[0] == '-' <==> n < 0) && (Itoa(n)[0] == '0' <==> n == 0)
  {
    DigitsLead(if n < 0 then -n else n);
    assert IsDigit(Digits(if n < 0 then -n else n)[0]);
  }

  /** Printed numbers consist of digits, after a minus sign for negative ones. */
  lemma ItoaShape(n: int)
    ensures Itoa(n) != ""
    ensures forall i | 0 <= i < |Itoa(n)| :: IsDigit(Itoa(n)[i]) || (i == 0 && Itoa(n)[i] == '-')
    ensures |Itoa(n)| > 1 || IsDigit(Itoa(n)[0])
  {
  }

  lemma DigitsInjective(m: nat, n: nat)
    requires Digits(m) == Digits(n)
    ensures m == n
  {
    ValueOfDigits(m);
    ValueOfDigits(n);
  }
}
