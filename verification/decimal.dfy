/**
 * Base-10 integer text as the Go standard library's `strconv` package writes
 * and reads it: `FormatInt(x, 10)` / `Itoa` and `ParseInt(s, 10, 64)` / `Atoi`
 * (on a 64-bit platform, where `int` is 64 bits wide).
 */
module Decimal {
  import opened Wrappers

  const MinInt64: int := -0x8000_0000_0000_0000
  const MaxInt64: int := 0x7fff_ffff_ffff_ffff

  /** The range of Go's `int64` (and of `int` on a 64-bit platform). */
  predicate IsInt64(x: int) {
    MinInt64 <= x <= MaxInt64
  }

  predicate IsDigit(c: char) {
    '0' <= c <= '9'
  }

  predicate AllDigits(s: string) {
    forall i :: 0 <= i < |s| ==> IsDigit(s[i])
  }

  function DigitChar(d: nat): (c: char)
    requires d < 10
    ensures IsDigit(c)
  {
    (('0' as int) + d) as char
  }

  function DigitValue(c: char): (d: nat)
    requires IsDigit(c)
    ensures d < 10 && DigitChar(d) == c
  {
    (c as int) - ('0' as int)
  }

  /** Decimal digits of `n`, most significant first, with no leading zero. */
  function NatDigits(n: nat): (s: string)
    ensures |s| >= 1 && AllDigits(s)
    ensures n >= 10 ==> s[0] != '0'
    decreases n
  {
    if n < 10 then [DigitChar(n)] else NatDigits(n / 10) + [DigitChar(n % 10)]
  }

  /** The value of a string of decimal digits (leading zeros allowed). */
  function DigitsValue(s: string): nat
    requires AllDigits(s)
  {
    if s == [] then 0 else DigitsValue(s[..|s| - 1]) * 10 + DigitValue(s[|s| - 1])
  }

  lemma {:induction false} DigitsValueOfNatDigits(n: nat)
    ensures DigitsValue(NatDigits(n)) == n
    decreases n
  {
    if n >= 10 {
      var s := NatDigits(n);
      assert s[..|s| - 1] == NatDigits(n / 10);
      DigitsValueOfNatDigits(n / 10);
    }
  }

  /** `strconv.FormatInt(x, 10)`, also `strconv.Itoa` and `fmt`'s `%v` of an integer. */
  function FormatInt(x: int): (s: string)
  {
    if x < 0 then "-" + NatDigits(-x) else NatDigits(x)
  }

  /**
   * `strconv.ParseInt(s, 10, 64)`: an optional '+' or '-' sign followed by at
   * least one decimal digit and nothing else (no underscores, no spaces), whose
   * value fits in an int64. `None` stands for the syntax and range errors.
   */
  function ParseInt64(s: string): (r: Option<int>)
    ensures r.Some? ==> IsInt64(r.value)
    ensures r.Some? ==> s != "" && (s[0] == '-' || s[0] == '+' || IsDigit(s[0]))
  {
    if s == "" then None
    else
      var negative := s[0] == '-';
      var digits := if s[0] == '-' || s[0] == '+' then s[1..] else s;
      if digits == [] || !AllDigits(digits) then None
      else
        var v: int := DigitsValue(digits);
        if negative then
          (if v <= -MinInt64 then Some(-v) else None)
        else
          (if v <= MaxInt64 then Some(v) else None)
  }

  /** `ParseInt64` reads the digits of a value in int64 range back as that value. */
  lemma ParseNatDigits(n: nat)
    requires n <= MaxInt64
    ensures ParseInt64(NatDigits(n)) == Some(n)
  {
    var d := NatDigits(n);
    assert d[0] != '-' && d[0] != '+';
    DigitsValueOfNatDigits(n);
  }

  /** `ParseInt64` reads '-' and the digits of `n` back as `-n`, down to the int64 minimum. */
  lemma ParseNegatedDigits(n: nat)
    requires n <= -MinInt64
    ensures ParseInt64("-" + NatDigits(n)) == Some(-(n as int))
  {
    var s := "-" + NatDigits(n);
    assert s[0] == '-' && s[1..] == NatDigits(n);
    DigitsValueOfNatDigits(n);
  }

  /** Formatting an int64 and parsing the text back gives the same number. */
  lemma ParseFormatRoundTrip(x: int)
    requires IsInt64(x)
    ensures ParseInt64(FormatInt(x)) == Some(x)
  {
    if x < 0 {
      ParseNegatedDigits(-x);
    } else {
      ParseNatDigits(x);
    }
  }

  /** Distinct integers have distinct decimal texts. */
  lemma FormatIntInjective(x: int, y: int)
    requires FormatInt(x) == FormatInt(y)
    ensures x == y
  {
    var dx := NatDigits(if x < 0 then -x else x);
    var dy := NatDigits(if y < 0 then -y else y);
    assert FormatInt(x) == (if x < 0 then "-" + dx else dx);
    assert FormatInt(y) == (if y < 0 then "-" + dy else dy);
    assert (x < 0) == (FormatInt(x)[0] == '-');
    assert (y < 0) == (FormatInt(y)[0] == '-');
    if x < 0 {
      assert dx == FormatInt(x)[1..] == dy;
    } else {
      assert dx == dy;
    }
    DigitsValueOfNatDigits(if x < 0 then -x else x);
    DigitsValueOfNatDigits(if y < 0 then -y else y);
  }

  /** Decimal text never contains a backquote (used by `params.Error`'s format). */
  lemma FormatIntHasNoBackquote(x: int)
    ensures '`' !in FormatInt(x)
  {
    var s := FormatInt(x);
    var d := NatDigits(if x < 0 then -x else x);
    assert forall i :: 0 <= i < |d| ==> d[i] != '`';
    if x < 0 {
      assert s == "-" + d;
    }
  }
}
