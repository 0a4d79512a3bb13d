/**
 * Decimal rendering of integers, as Python's `str(int)` and JavaScript's
 * `Number.prototype.toString()` produce it for whole numbers, and the
 * matching parser (Python's `int(s)` restricted to plain digit strings).
 */
module Decimal {
  import opened Wrappers

  predicate IsDigit(c: char) {
    '0' <= c <= '9'
  }

  predicate AllDigits(s: string) {
    forall i :: 0 <= i < |s| ==> IsDigit(s[i])
  }

  function DigitChar(d: nat): (c: char)
    requires d < 10
    ensures IsDigit(c) && c as int - '0' as int == d
  {
    ('0' as int + d) as char
  }

  /** Shortest decimal form of `n`: no sign and no leading zero. */
  function NatToString(n: nat): (s: string)
    ensures |s| >= 1 && AllDigits(s)
    ensures s[0] == '0' <==> n == 0
  {
    if n < 10 then [DigitChar(n)] else NatToString(n / 10) + [DigitChar(n % 10)]
  }

  /** `str(i)` / `i.toString()` for a whole number: a leading '-' for negatives. */
  function IntToString(i: int): (s: string)
    ensures |s| >= 1
    ensures (s[0] == '-') <==> i < 0
  {
    if i < 0 then "-" + NatToString(-i) else NatToString(i)
  }

  /** The value of a string of decimal digits, most significant first. */
  function DigitsValue(s: string): nat
    requires AllDigits(s)
  {
    if s == [] then 0 else DigitsValue(s[..|s| - 1]) * 10 + (s[|s| - 1] as int - '0' as int)
  }

  /** Parses a non-empty digit string; anything else is rejected. */
  function ParseNat(s: string): (r: Option<nat>)
    ensures r.Some? <==> |s| >= 1 && AllDigits(s)
  {
    if |s| >= 1 && AllDigits(s) then Some(DigitsValue(s)) else None
  }

  lemma {:induction false} DigitsValueOfNatToString(n: nat)
    ensures DigitsValue(NatToString(n)) == n
  {
    if n >= 10 {
      var s := NatToString(n / 10) + [DigitChar(n % 10)];
      assert s[..|s| - 1] == NatToString(n / 10);
      DigitsValueOfNatToString(n / 10);
    }
  }

  /** Parsing the rendering of a number gives the number back. */
  lemma ParseNatToString(n: nat)
    ensures ParseNat(NatToString(n)) == Some(n)
  {
    DigitsValueOfNatToString(n);
  }

  /** Distinct numbers have distinct renderings. */
  lemma NatToStringInjective(a: nat, b: nat)
    ensures NatToString(a) == NatToString(b) ==> a == b
  {
    ParseNatToString(a);
    ParseNatToString(b);
  }

  /** `int(s)` for a sign and digits: an optional '+' or '-' followed by a non-empty digit string. */
  function ParseInt(s: string): (r: Option<int>)
    ensures r.Some? <==> |s| >= 1 && (AllDigits(s) || ((s[0] == '-' || s[0] == '+') && |s| >= 2 && AllDigits(s[1..])))
  {
    if |s| >= 1 && (s[0] == '-' || s[0] == '+') then
      match ParseNat(s[1..])
      case Some(n) => Some(if s[0] == '-' then 0 - n as int else n as int)
      case None => None
    else
      match ParseNat(s)
      case Some(n) => Some(n)
      case None => None
  }

  /** Parsing the rendering of a whole number gives the number back. */
  lemma ParseIntToString(i: int)
    ensures ParseInt(IntToString(i)) == Some(i)
  {
    if i < 0 {
      assert IntToString(i)[1..] == NatToString(-i);
      ParseNatToString(-i);
    } else {
      ParseNatToString(i);
    }
  }
}
