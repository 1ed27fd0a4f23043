/**
 * Decimal text for the "Max objects" field: Go's strconv.Atoi on a 64-bit
 * platform and the "%d" formatting that fills the field initially.
 */
module Decimal {
  import opened Optional

  const MaxInt64: int := 0x7FFF_FFFF_FFFF_FFFF
  const MinInt64: int := -0x8000_0000_0000_0000

  predicate IsDigit(c: char)
  {
    '0' <= c <= '9'
  }

  predicate AllDigits(s: string)
  {
    forall i :: 0 <= i < |s| ==> IsDigit(s[i])
  }

  /** The value of a run of decimal digits, most significant first. */
  function DigitsValue(s: string): nat
    requires AllDigits(s)
  {
    if |s| == 0 then 0
    else 10 * DigitsValue(s[..|s| - 1]) + (s[|s| - 1] as int - '0' as int)
  }

  /**
   * strconv.Atoi: an optional '+' or '-', then one or more decimal digits
   * (no spaces, no underscores, no base prefix); a value outside int64 is an error.
   */
  function Atoi(s: string): (r: Option<int>)
    ensures r.Some? ==> MinInt64 <= r.value <= MaxInt64
    ensures r.Some? ==> |s| > 0 && (IsDigit(s[0]) || s[0] == '+' || s[0] == '-')
    ensures |s| > 0 && IsDigit(s[0]) && AllDigits(s) && DigitsValue(s) <= MaxInt64 ==> r == Some(DigitsValue(s))
  {
    var signed := |s| > 0 && (s[0] == '+' || s[0] == '-');
    var digits := if signed then s[1..] else s;
    if |digits| == 0 || !AllDigits(digits) then None
    else
      var magnitude: int := DigitsValue(digits);
      var v := if signed && s[0] == '-' then -magnitude else magnitude;
      if MinInt64 <= v <= MaxInt64 then Some(v) else None
  }

  /** fmt.Sprintf("%d", n) for a non-negative n. */
  function FormatDecimal(n: nat): (s: string)
    ensures |s| >= 1 && AllDigits(s)
  {
    if n < 10 then ['0' + n as char]
    else FormatDecimal(n / 10) + ['0' + (n % 10) as char]
  }

  /** Formatting then reading the digits back gives the number. */
  lemma {:induction false} DigitsValueOfFormat(n: nat)
    ensures DigitsValue(FormatDecimal(n)) == n
  {
    var s := FormatDecimal(n);
    if n >= 10 {
      DigitsValueOfFormat(n / 10);
      assert s[..|s| - 1] == FormatDecimal(n / 10);
    }
  }

  /** Atoi reads back what "%d" wrote, for every non-negative int64. */
  lemma AtoiFormat(n: nat)
    requires n <= MaxInt64
    ensures Atoi(FormatDecimal(n)) == Some(n)
  {
    DigitsValueOfFormat(n);
  }
}
