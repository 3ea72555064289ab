/**
 Base-10 text of integers as Go's `strconv` and `%d` produce and read it:
 `FormatNat`/`FormatInt` (`strconv.Itoa`, `%d`), `ParseUint`
 (`strconv.ParseUint(s, 10, bitSize)`) and `Atoi` (`strconv.Atoi`, 64-bit).
 */
module Decimal {
  import opened Wrappers

  predicate IsDigit(ch: char)
  {
    '0' <= ch <= '9'
  }

  predicate AllDigits(s: string)
  {
    forall i :: 0 <= i < |s| ==> IsDigit(s[i])
  }

  function DigitChar(d: nat): (ch: char)
    requires d < 10
    ensures IsDigit(ch) && ch as int - '0' as int == d
  {
    ('0' as int + d) as char
  }

  /** The number a digit string denotes, most significant digit first. */
  function Value(s: string): nat
    requires AllDigits(s)
  {
    if |s| == 0 then 0 else Value(s[..|s| - 1]) * 10 + (s[|s| - 1] as int - '0' as int)
  }

  /** Decimal text of a non-negative number: digits only, no leading zero. */
  function FormatNat(n: nat): (r: string)
    ensures |r| >= 1 && AllDigits(r)
    ensures Value(r) == n
    ensures |r| > 1 ==> r[0] != '0'
  {
    if n < 10 then [DigitChar(n)]
    else
      var p := FormatNat(n / 10);
      var r := p + [DigitChar(n % 10)];
      assert r[..|r| - 1] == p;
      r
  }

  /** `strconv.Itoa(n)`, equivalently `fmt.Sprintf("%d", n)`. */
  function FormatInt(n: int): (r: string)
    ensures |r| >= 1
    ensures n < 0 <==> r[0] == '-'
    ensures n >= 0 ==> AllDigits(r)
    ensures n < 0 ==> AllDigits(r[1..]) && |r| >= 2
  {
    if n >= 0 then FormatNat(n) else "-" + FormatNat(-n)
  }

  /** Distinct numbers have distinct decimal text. */
  lemma FormatIntInjective(a: int, b: int)
    requires FormatInt(a) == FormatInt(b)
    ensures a == b
  {
    if a >= 0 && b >= 0 {
      assert Value(FormatNat(a)) == Value(FormatNat(b));
    } else if a < 0 && b < 0 {
      assert FormatInt(a)[1..] == FormatNat(-a);
      assert FormatInt(b)[1..] == FormatNat(-b);
    }
  }

  function Pow2(n: nat): (r: nat)
    ensures r >= 1
  {
    if n == 0 then 1 else 2 * Pow2(n - 1)
  }

  const MaxInt64: int := 0x7FFF_FFFF_FFFF_FFFF
  const MinInt64: int := -0x8000_0000_0000_0000

  /** Go's `int` on a 64-bit platform. */
  type Int64 = x: int | MinInt64 <= x <= MaxInt64

  /**
   `strconv.ParseUint(s, 10, bitSize)`: a non-empty run of decimal digits
   (no sign, no underscore) whose value fits in `bitSize` bits, where a
   bit size of 0 means 64 and one above 64 is refused.
   */
  function ParseUint(s: string, bitSize: nat): (r: Option<nat>)
    ensures r.Some? ==> |s| > 0 && bitSize <= 64
    ensures r.Some? ==> r.value < Pow2(if bitSize == 0 then 64 else bitSize)
    ensures |s| == 0 || bitSize > 64 ==> r == None
  {
    var bits := if bitSize == 0 then 64 else bitSize;
    if |s| == 0 || bitSize > 64 || !AllDigits(s) then None
    else if Value(s) < Pow2(bits) then Some(Value(s))
    else None
  }

  /** Reading back the text `FormatNat` writes gives the number. */
  lemma ParseUintFormat(n: nat, bitSize: nat)
    requires 0 < bitSize <= 64 && n < Pow2(bitSize)
    ensures ParseUint(FormatNat(n), bitSize) == Some(n)
  {
  }

  /**
   `strconv.Atoi(s)` on a 64-bit platform: an optional `+` or `-`, then at
   least one decimal digit, and a value within the 64-bit signed range.
   */
  function Atoi(s: string): (r: Option<int>)
    ensures r.Some? ==> MinInt64 <= r.value <= MaxInt64
    ensures r.Some? ==> |s| > 0 && (IsDigit(s[0]) || s[0] == '+' || s[0] == '-')
    ensures r.Some? && r.value < 0 ==> s[0] == '-'
  {
    if |s| == 0 then None
    else
      var digits := if s[0] == '-' || s[0] == '+' then s[1..] else s;
      if |digits| == 0 || !AllDigits(digits) then None
      else
        var v: int := if s[0] == '-' then -(Value(digits) as int) else Value(digits);
        if MinInt64 <= v <= MaxInt64 then Some(v) else None
  }

  /** `Atoi` reads back every 64-bit number from its `Itoa` text. */
  lemma AtoiFormatInt(n: int)
    requires MinInt64 <= n <= MaxInt64
    ensures Atoi(FormatInt(n)) == Some(n)
  {
    if n < 0 {
      assert FormatInt(n)[1..] == FormatNat(-n);
    }
  }
}
