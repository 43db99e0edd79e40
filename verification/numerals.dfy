/**
 Decimal text for amounts, PINs and passwords. Both ledgers write numbers into their
 record stores and read them back (`str(...)`/`float(...)` in Python, `<<`/`>>` in
 C++); here a number is an integer written as an optional `-` followed by decimal
 digits without leading zeros, and the parser accepts an optional `-` followed by
 one or more digits. Python writes its `float` amounts with a `.0` after the digits
 of a whole number, and `float()` reads that text back too.
 */
module Numerals {
  import opened Wrappers
  import opened Text

  function DigitChar(d: nat): (c: char)
    requires d < 10
    ensures IsDigit(c)
  {
    ('0' as int + d) as char
  }

  function DigitValue(c: char): (d: nat)
    requires IsDigit(c)
    ensures d < 10 && DigitChar(d) == c
  {
    (c as int) - ('0' as int)
  }

  /** The value of a string of digits, most significant first. */
  function DigitsValue(s: string): nat
    requires forall i :: 0 <= i < |s| ==> IsDigit(s[i])
  {
    if |s| == 0 then 0 else DigitsValue(s[..|s| - 1]) * 10 + DigitValue(s[|s| - 1])
  }

  /** Decimal text of a natural number. */
  function NatToText(n: nat): (s: string)
    ensures IsDigits(s)
    decreases n
  {
    if n < 10 then [DigitChar(n)] else NatToText(n / 10) + [DigitChar(n % 10)]
  }

  /** Decimal text of an integer: a `-` in front of a negative one. */
  function IntToText(n: int): (s: string)
    ensures |s| > 0
    ensures forall i :: 0 < i < |s| ==> IsDigit(s[i])
    ensures IsDigit(s[0]) || (s[0] == '-' && |s| > 1)
  {
    if n < 0 then "-" + NatToText(-n) else NatToText(n)
  }

  function ParseNat(s: string): (r: Option<nat>)
    ensures r.Some? <==> IsDigits(s)
  {
    if IsDigits(s) then Some(DigitsValue(s)) else None
  }

  function ParseInt(s: string): (r: Option<int>)
    ensures r.Some? <==> IsDigits(s) || (|s| > 1 && s[0] == '-' && IsDigits(s[1..]))
  {
    if |s| > 0 && s[0] == '-' then
      match ParseNat(s[1..])
      case Some(v) => Some(0 - v as int)
      case None => None
    else ParseNat(s)
  }

  lemma {:induction false} NatRoundTrip(n: nat)
    ensures DigitsValue(NatToText(n)) == n
    decreases n
  {
    if n >= 10 {
      NatRoundTrip(n / 10);
      var s := NatToText(n);
      assert s[..|s| - 1] == NatToText(n / 10);
    }
  }

  /** Reading back the text of any integer gives that integer. */
  lemma IntRoundTrip(n: int)
    ensures ParseInt(IntToText(n)) == Some(n)
  {
    if n < 0 {
      NatRoundTrip(-n);
      assert IntToText(n)[1..] == NatToText(-n);
    } else {
      NatRoundTrip(n);
    }
  }

  /** The text of a number is one field of a comma record and one word of a whitespace record. */
  lemma IntTextIsPlain(n: int)
    ensures ',' !in IntToText(n) && '\n' !in IntToText(n)
    ensures IsWord(IntToText(n))
  {
    var s := IntToText(n);
    assert forall i :: 0 <= i < |s| ==> IsDigit(s[i]) || s[i] == '-';
  }

  /** `str()` of a whole-number `float` below 10^16: the integer's digits, then `.0`. */
  function WholeFloatText(n: int): (s: string)
    ensures |s| >= 3 && s[|s| - 2..] == ".0" && s[..|s| - 2] == IntToText(n)
  {
    IntToText(n) + ".0"
  }

  /**
   `float()` on the text of a whole number: integer text, with or without a `.0`
   after it. Plain integer text reads as `ParseInt` reads it.
   */
  function ParseWholeFloat(s: string): (r: Option<int>)
    ensures r.Some? <==> ParseInt(s).Some? || (|s| >= 2 && s[|s| - 2..] == ".0" && ParseInt(s[..|s| - 2]).Some?)
    ensures ParseInt(s).Some? ==> r == ParseInt(s)
  {
    if |s| >= 2 && s[|s| - 2..] == ".0" then
      assert s[|s| - 2] == '.' && !IsDigit(s[|s| - 2]);
      ParseInt(s[..|s| - 2])
    else ParseInt(s)
  }

  /** Reading back the `float` text of any whole number gives that number. */
  lemma WholeFloatRoundTrip(n: int)
    ensures ParseWholeFloat(WholeFloatText(n)) == Some(n)
  {
    IntRoundTrip(n);
  }

  /** The `float` text of a number is one field of a comma record and ends in a digit. */
  lemma WholeFloatTextIsPlain(n: int)
    ensures ',' !in WholeFloatText(n) && '\n' !in WholeFloatText(n)
    ensures var s := WholeFloatText(n); IsDigit(s[|s| - 1])
  {
    IntTextIsPlain(n);
    var s := WholeFloatText(n);
    assert forall i :: 0 <= i < |s| ==> i < |s| - 2 || s[i] == '.' || s[i] == '0';
  }
}
