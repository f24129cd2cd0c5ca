/**
 * Decimal integer text as the Go standard library and Redis handle it:
 * `strconv.ParseInt(s, 10, 64)` and `strconv.Atoi` (identical on a 64-bit
 * platform), `strconv.FormatInt(n, 10)` (how go-redis sends an int64 and how
 * Redis prints a counter), and Redis's own stricter integer reader used by
 * INCRBY, which accepts only the canonical form.
 */
module Decimal {
  import opened Base

  const Int64Min: int := -0x8000_0000_0000_0000
  const Int64Max: int := 0x7FFF_FFFF_FFFF_FFFF

  /** Go's `int64` (and `int` on a 64-bit platform). */
  predicate IsInt64(n: int)
  {
    Int64Min <= n <= Int64Max
  }

  predicate IsDigit(c: char)
  {
    '0' <= c <= '9'
  }

  predicate AllDigits(s: string)
  {
    forall i :: 0 <= i < |s| ==> IsDigit(s[i])
  }

  function DigitValue(c: char): nat
    requires IsDigit(c)
  {
    (c as int) - ('0' as int)
  }

  function DigitChar(d: nat): (c: char)
    requires d < 10
    ensures IsDigit(c) && DigitValue(c) == d
  {
    (('0' as int) + d) as char
  }

  /** The value of a string of decimal digits, most significant first. */
  function DigitsValue(s: string): nat
    requires AllDigits(s)
  {
    if |s| == 0 then 0 else DigitsValue(s[..|s| - 1]) * 10 + DigitValue(s[|s| - 1])
  }

  /**
   * `strconv.ParseInt(s, 10, 64)`: an optional `+` or `-`, then one or more
   * decimal digits (no underscores in base 10), and the value must fit in an
   * int64; anything else is a syntax or range error (None).
   */
  function ParseInt(s: string): (r: Option<int>)
    ensures r.Some? ==> IsInt64(r.value)
    ensures r.Some? ==> |s| > 0 && (IsDigit(s[0]) || s[0] == '+' || s[0] == '-')
  {
    if |s| == 0 then None
    else
      var body := if s[0] == '+' || s[0] == '-' then s[1..] else s;
      if |body| == 0 || !AllDigits(body) then None
      else
        var v: int := if s[0] == '-' then 0 - DigitsValue(body) as int else DigitsValue(body);
        if IsInt64(v) then Some(v) else None
  }

  /** `strconv.Atoi` on a 64-bit platform accepts and rejects exactly what `ParseInt(s, 10, 64)` does. */
  function Atoi(s: string): Option<int>
  {
    ParseInt(s)
  }

  /** Digits of a natural number, most significant first. */
  function NatDigits(n: nat): string
  {
    if n < 10 then [DigitChar(n)] else NatDigits(n / 10) + [DigitChar(n % 10)]
  }

  /** `NatDigits` is the canonical decimal form: digits only, no leading zero, and worth `n`. */
  lemma {:induction false} NatDigitsSpec(n: nat)
    ensures var s := NatDigits(n);
      && |s| > 0 && AllDigits(s)
      && DigitsValue(s) == n
      && (n > 0 ==> s[0] != '0')
      && (n == 0 ==> s == "0")
  {
    if n >= 10 {
      NatDigitsSpec(n / 10);
      var p := NatDigits(n / 10);
      var s := p + [DigitChar(n % 10)];
      assert s[..|s| - 1] == p;
      assert s[0] == p[0];
    }
  }

  /** `strconv.FormatInt(n, 10)`. */
  function FormatInt(n: int): (s: string)
  {
    if n < 0 then "-" + NatDigits(0 - n) else NatDigits(n)
  }

  /** Formatting then parsing gives back every int64: the partner of ParseInt and FormatInt. */
  lemma {:induction false} ParseFormat(n: int)
    requires IsInt64(n)
    ensures ParseInt(FormatInt(n)) == Some(n)
  {
    var s := FormatInt(n);
    var d := NatDigits(if n < 0 then -n else n);
    NatDigitsSpec(if n < 0 then -n else n);
    if n < 0 {
      assert s[0] == '-' && s[1..] == d;
    } else {
      assert s == d && s[0] != '+' && s[0] != '-';
    }
  }

  /** Two int64 values format differently. */
  lemma FormatInjective(a: int, b: int)
    requires IsInt64(a) && IsInt64(b) && FormatInt(a) == FormatInt(b)
    ensures a == b
  {
    ParseFormat(a);
    ParseFormat(b);
  }

  /**
   * Redis reads a stored value as an integer (INCRBY) only when it is the
   * canonical decimal form of a 64-bit integer: no `+`, no leading zeros,
   * no `-0`.
   */
  function RedisInteger(v: string): (r: Option<int>)
    ensures r.Some? ==> IsInt64(r.value) && FormatInt(r.value) == v
  {
    match ParseInt(v)
    case Some(n) => if FormatInt(n) == v then Some(n) else None
    case None => None
  }

  lemma RedisIntegerFormat(n: int)
    requires IsInt64(n)
    ensures RedisInteger(FormatInt(n)) == Some(n)
  {
    ParseFormat(n);
  }
}
