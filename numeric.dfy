/** Decimal text of natural numbers: Rust's `Display` for unsigned integers
    (and for integral floats, see the page links) and `str::parse` for the
    unsigned integer types. */
module Numeric {
  import opened Basics

  /** 2^32: `u32` values lie below it. */
  const U32_LIMIT: nat := 0x1_0000_0000
  /** 2^64: `usize` values on the 64-bit targets the service runs on. */
  const USIZE_LIMIT: nat := 0x1_0000_0000_0000_0000

  predicate IsDigit(c: char)
  {
    '0' <= c <= '9'
  }

  predicate AllDigits(s: string)
  {
    forall i :: 0 <= i < |s| ==> IsDigit(s[i])
  }

  function DigitChar(d: nat): (c: char)
    requires d < 10
    ensures IsDigit(c) && c as int - '0' as int == d
  {
    (d + '0' as int) as char
  }

  /** The number a string of decimal digits denotes (leading zeros allowed). */
  function Value(s: string): nat
    requires AllDigits(s)
  {
    if s == [] then 0 else Value(s[..|s| - 1]) * 10 + (s[|s| - 1] as int - '0' as int)
  }

  /** The shortest decimal text of `n`: no sign, no leading zero. */
  function Decimal(n: nat): (r: string)
    ensures |r| >= 1 && AllDigits(r)
  {
    if n < 10 then [DigitChar(n)] else Decimal(n / 10) + [DigitChar(n % 10)]
  }

  /** `s.parse::<uN>()` with `limit` = 2^N: an optional leading `+`, then one
      or more ASCII digits whose value is below `limit`; anything else
      (the empty string, a lone sign, a `-`, a non-digit, an overflow) fails. */
  function ParseUnsigned(s: string, limit: nat): (r: Option<nat>)
    ensures r.Some? ==> r.value < limit
  {
    if |s| == 0 then None
    else
      var digits := if s[0] == '+' then s[1..] else s;
      if |digits| == 0 || !AllDigits(digits) then None
      else if Value(digits) < limit then Some(Value(digits))
      else None
  }

  lemma {:induction false} DecimalValue(n: nat)
    ensures Value(Decimal(n)) == n
  {
    if n >= 10 {
      var d := Decimal(n);
      assert d[..|d| - 1] == Decimal(n / 10);
      DecimalValue(n / 10);
    }
  }

  /** Printing a number and parsing it back gives the number. */
  lemma ParseDecimal(n: nat, limit: nat)
    requires n < limit
    ensures ParseUnsigned(Decimal(n), limit) == Some(n)
  {
    DecimalValue(n);
  }

  /** Different numbers have different decimal texts. */
  lemma DecimalInjective(m: nat, n: nat)
    requires Decimal(m) == Decimal(n)
    ensures m == n
  {
    DecimalValue(m);
    DecimalValue(n);
  }

  /** A parsed value is exactly the value of the digits after an optional `+`. */
  lemma ParseMeaning(s: string, limit: nat)
    ensures ParseUnsigned(s, limit).Some? <==>
      (exists k :: 0 <= k <= 1 && k < |s| && (k == 1 ==> s[0] == '+') &&
         AllDigits(s[k..]) && Value(s[k..]) < limit)
  {
    if ParseUnsigned(s, limit).Some? {
      var k := if s[0] == '+' then 1 else 0;
      assert 0 <= k <= 1 && k < |s| && AllDigits(s[k..]) && Value(s[k..]) < limit;
    }
    if exists k :: 0 <= k <= 1 && k < |s| && (k == 1 ==> s[0] == '+') && AllDigits(s[k..]) && Value(s[k..]) < limit {
      var k :| 0 <= k <= 1 && k < |s| && (k == 1 ==> s[0] == '+') && AllDigits(s[k..]) && Value(s[k..]) < limit;
      if k == 0 {
        assert s[0] != '+' by { assert IsDigit(s[0..][0]); }
        assert s[0..] == s;
      }
    }
  }
}
