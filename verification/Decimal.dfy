/** Decimal rendering of integers (`%d`, `strconv.FormatInt`) and the parser that page
    cursors go through (`strconv.ParseInt` in base 10, 64 bits). */
module Decimal {
  import opened Wrappers

  const MAX_INT64: int := 0x7FFF_FFFF_FFFF_FFFF
  const MIN_INT64: int := -0x8000_0000_0000_0000

  predicate IsInt64(n: int) {
    MIN_INT64 <= n <= MAX_INT64
  }

  predicate IsDigit(c: char) {
    '0' <= c <= '9'
  }

  function DigitChar(d: nat): char
    requires d < 10
  {
    '0' + d as char
  }

  function DigitValue(c: char): nat
    requires IsDigit(c)
  {
    (c - '0') as nat
  }

  function FormatNat(n: nat): (s: string)
    ensures |s| > 0
    ensures forall i :: 0 <= i < |s| ==> IsDigit(s[i])
  {
    if n < 10 then [DigitChar(n)] else FormatNat(n / 10) + [DigitChar(n % 10)]
  }

  function FormatInt(n: int): string {
    if n < 0 then "-" + FormatNat(-n) else FormatNat(n)
  }

  function ParseNat(s: string): Option<nat> {
    if s == [] || !IsDigit(s[|s| - 1]) then None
    else if |s| == 1 then Some(DigitValue(s[0]))
    else match ParseNat(s[..|s| - 1])
         case None => None
         case Some(v) => Some(10 * v + DigitValue(s[|s| - 1]))
  }

  /** An optional sign, then digits; a value outside 64 bits is an error. */
  function ParseInt(s: string): Option<int> {
    if s == [] then None
    else if s[0] == '-' then InRange(ParseNat(s[1..]), true)
    else if s[0] == '+' then InRange(ParseNat(s[1..]), false)
    else InRange(ParseNat(s), false)
  }

  function InRange(magnitude: Option<nat>, negative: bool): Option<int> {
    if magnitude.None? then None
    else
      var n := if negative then 0 - magnitude.value else magnitude.value;
      if IsInt64(n) then Some(n) else None
  }

  lemma {:induction false} ParseFormatNat(n: nat)
    ensures ParseNat(FormatNat(n)) == Some(n)
  {
    if n >= 10 {
      ParseFormatNat(n / 10);
      var s := FormatNat(n);
      assert s[..|s| - 1] == FormatNat(n / 10);
    }
  }

  /** A cursor printed by the server is read back as the same timestamp. */
  lemma ParseFormatInt(n: int)
    requires IsInt64(n)
    ensures ParseInt(FormatInt(n)) == Some(n)
  {
    if n < 0 {
      ParseFormatNat(-n);
      assert FormatInt(n)[1..] == FormatNat(-n);
    } else {
      ParseFormatNat(n);
    }
  }

  lemma FormatIntInjective(m: int, n: int)
    requires FormatInt(m) == FormatInt(n)
    ensures m == n
  {
    var s, t := FormatInt(m), FormatInt(n);
    if m < 0 {
      assert n < 0 by {
        assert s[0] == '-';
      }
      assert s[1..] == FormatNat(-m) && t[1..] == FormatNat(-n);
      ParseFormatNat(-m);
      ParseFormatNat(-n);
    } else {
      assert n >= 0 by {
        assert IsDigit(s[0]);
      }
      ParseFormatNat(m);
      ParseFormatNat(n);
    }
  }

  lemma FormatIntHasNoColon(n: int)
    ensures ':' !in FormatInt(n)
    ensures FormatInt(n) != ""
  {
  }
}
