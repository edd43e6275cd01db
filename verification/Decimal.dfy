/** Options, and the decimal conversions the server borrows from the C++ library. */
module Base {
  datatype Option<+T> = None | Some(value: T)

  lemma Assoc(a: string, b: string, c: string)
    ensures (a + b) + c == a + (b + c)
  {}
}

/**
 The number conversions every wire format of the server goes through: `std::to_string` and
 `std::format` (IntText), `std::from_chars` (FromChars) and `std::stoull` (Stoull).
 */
module Decimal {
  import opened Base

  const INT32_MAX: int := 0x7fff_ffff
  const INT64_MAX: int := 0x7fff_ffff_ffff_ffff
  const UINT64_MAX: int := 0xffff_ffff_ffff_ffff

  predicate IsDigit(c: char) {
    '0' <= c <= '9'
  }

  predicate AllDigits(s: string) {
    forall i :: 0 <= i < |s| ==> IsDigit(s[i])
  }

  function DigitChar(d: nat): (c: char)
    requires d < 10
    ensures IsDigit(c) && DigitValue(c) == d
  {
    ('0' as int + d) as char
  }

  function DigitValue(c: char): (d: nat)
    ensures d < 10
  {
    if IsDigit(c) then c as int - '0' as int else 0
  }

  function NatText(n: nat): (s: string)
    ensures |s| > 0
  {
    if n < 10 then [DigitChar(n)] else NatText(n / 10) + [DigitChar(n % 10)]
  }

  /** The number a string of digits denotes. */
  function NatValue(s: string): nat {
    if s == [] then 0 else NatValue(s[..|s| - 1]) * 10 + DigitValue(s[|s| - 1])
  }

  /** `std::to_string` and `{}` formatting of an integer. */
  function IntText(n: int): (s: string)
    ensures |s| > 0
  {
    if n < 0 then ['-'] + NatText(-n) else NatText(n)
  }

  /** Reading a printed number back gives the number. */
  lemma {:induction false} NatTextRoundTrip(n: nat)
    ensures NatValue(NatText(n)) == n
    ensures AllDigits(NatText(n))
  {
    if n >= 10 {
      NatTextRoundTrip(n / 10);
      assert NatText(n)[..|NatText(n)| - 1] == NatText(n / 10);
    } else {
      assert NatText(n)[..0] == [];
    }
  }

  /** Length of the longest prefix of digits. */
  function DigitSpan(s: string): (n: nat)
    ensures n <= |s|
  {
    if s == [] || !IsDigit(s[0]) then 0 else 1 + DigitSpan(s[1..])
  }

  lemma {:induction false} DigitSpanOf(digits: string, rest: string)
    requires AllDigits(digits)
    requires rest == [] || !IsDigit(rest[0])
    ensures DigitSpan(digits + rest) == |digits|
  {
    if digits == [] {
      assert digits + rest == rest;
    } else {
      assert (digits + rest)[1..] == digits[1..] + rest;
      DigitSpanOf(digits[1..], rest);
    }
  }

  datatype Scanned = Scanned(value: int, used: nat)

  /** The number written by the longest run of digits at the front of `s`. */
  function ScanDigits(s: string): (r: Option<Scanned>)
    ensures r.Some? ==> 0 <= r.value.value && 0 < r.value.used <= |s|
  {
    var span := DigitSpan(s);
    if span == 0 then None else Some(Scanned(NatValue(s[..span]), span))
  }

  lemma ScanDigitsOf(n: nat, rest: string)
    requires rest == [] || !IsDigit(rest[0])
    ensures ScanDigits(NatText(n) + rest) == Some(Scanned(n, |NatText(n)|))
    ensures IsDigit((NatText(n) + rest)[0])
  {
    NatTextRoundTrip(n);
    DigitSpanOf(NatText(n), rest);
    assert (NatText(n) + rest)[..|NatText(n)|] == NatText(n);
  }

  /**
   `std::from_chars` for a type whose range is [low, high]: an optional minus sign when the type is
   signed, then the longest run of digits. No digits, or a value out of range, is an error.
   Characters after the digits are left alone; `used` counts the characters read.
   */
  function FromChars(s: string, low: int, high: int): (r: Option<Scanned>)
    ensures r.Some? ==> low <= r.value.value <= high && 0 < r.value.used <= |s|
  {
    var minus := low < 0 && s != [] && s[0] == '-';
    match ScanDigits(if minus then s[1..] else s)
    case None => None
    case Some(digits) =>
      var value := if minus then -digits.value else digits.value;
      if low <= value <= high then Some(Scanned(value, if minus then digits.used + 1 else digits.used)) else None
  }

  lemma FromCharsOfNegative(n: nat, rest: string, low: int, high: int)
    requires low <= 0 - n <= high && n > 0
    requires rest == [] || !IsDigit(rest[0])
    ensures FromChars(['-'] + NatText(n) + rest, low, high) == Some(Scanned(0 - n, 1 + |NatText(n)|))
  {
    ScanDigitsOf(n, rest);
    assert (['-'] + NatText(n) + rest)[1..] == NatText(n) + rest;
  }

  lemma FromCharsOfNat(n: nat, rest: string, low: int, high: int)
    requires low <= n <= high
    requires rest == [] || !IsDigit(rest[0])
    ensures FromChars(NatText(n) + rest, low, high) == Some(Scanned(n, |NatText(n)|))
  {
    ScanDigitsOf(n, rest);
    assert (NatText(n) + rest)[0] != '-';
  }

  /** A printed number followed by anything but a digit is read back whole. */
  lemma FromCharsOfIntText(n: int, rest: string, low: int, high: int)
    requires low <= n <= high && low <= 0
    requires rest == [] || !IsDigit(rest[0])
    ensures FromChars(IntText(n) + rest, low, high) == Some(Scanned(n, |IntText(n)|))
  {
    if n < 0 {
      FromCharsOfNegative(-n, rest, low, high);
    } else {
      FromCharsOfNat(n, rest, low, high);
    }
  }

  predicate IsSpace(c: char) {
    c == ' ' || '\t' <= c <= '\r'
  }

  function SkipSpaces(s: string): string {
    if s != [] && IsSpace(s[0]) then SkipSpaces(s[1..]) else s
  }

  /**
   `std::stoull`: leading white space, an optional sign, then digits; the rest is ignored. A minus
   sign negates modulo 2^64. `None` is the exception thrown on no digits or on a value over 2^64 - 1.
   */
  function Stoull(text: string): (r: Option<nat>)
    ensures r.Some? ==> r.value <= UINT64_MAX
  {
    var s := SkipSpaces(text);
    var signed := s != [] && (s[0] == '-' || s[0] == '+');
    match ScanDigits(if signed then s[1..] else s)
    case None => None
    case Some(digits) =>
      if digits.value > UINT64_MAX then None
      else if signed && s[0] == '-' && digits.value > 0 then Some(UINT64_MAX + 1 - digits.value)
      else Some(digits.value)
  }

  lemma StoullOfNatText(n: nat, rest: string)
    requires n <= UINT64_MAX
    requires rest == [] || !IsDigit(rest[0])
    ensures Stoull(NatText(n) + rest) == Some(n)
  {
    ScanDigitsOf(n, rest);
  }

  /** `static_cast<long long>` of an unsigned 64-bit value. */
  function AsSigned64(u: nat): (n: int)
    requires u <= UINT64_MAX
    ensures n < 0 <==> u > INT64_MAX
    ensures n >= 0 ==> n == u
  {
    if u <= INT64_MAX then u else u - (UINT64_MAX + 1)
  }
}
