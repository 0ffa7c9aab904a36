/** Decimal formatting and parsing of Java `int`s (32-bit two's complement). */
module JavaIntegers {
  import opened Wrappers

  const INT_MIN: int := -0x8000_0000
  const INT_MAX: int := 0x7FFF_FFFF
  const UINT_MAX: int := 0xFFFF_FFFF

  predicate IsInt(n: int) {
    INT_MIN <= n <= INT_MAX
  }

  /** Reduces `n` to the `int` with the same low 32 bits, as Java arithmetic does. */
  function Wrap32(n: int): (r: int)
    ensures IsInt(r)
    ensures IsInt(n) ==> r == n
  {
    (n - INT_MIN) % 0x1_0000_0000 + INT_MIN
  }

  predicate IsDigit(c: char) {
    '0' <= c <= '9'
  }

  predicate AllDigits(s: string) {
    forall i :: 0 <= i < |s| ==> IsDigit(s[i])
  }

  /** The value of a string of decimal digits, most significant first. */
  function DigitsValue(s: string): nat
    requires AllDigits(s)
  {
    if |s| == 0 then 0
    else DigitsValue(s[..|s| - 1]) * 10 + (s[|s| - 1] as int - '0' as int)
  }

  /** The decimal digits of `n`, without leading zeros. */
  function NatToString(n: nat): (r: string)
    ensures |r| > 0 && AllDigits(r)
  {
    (if n < 10 then "" else NatToString(n / 10)) + [(('0' as int) + n % 10) as char]
  }

  /** `Integer.toString(n)` */
  function IntToString(n: int): string {
    if n < 0 then "-" + NatToString(-n) else NatToString(n)
  }

  /**
   * `Integer.parseInt(s)`: an optional sign followed by at least one decimal digit,
   * whose value fits in an `int`; anything else throws NumberFormatException.
   */
  function ParseInt(s: string): (r: Result<int>)
    ensures r.Ok? ==> IsInt(r.value)
  {
    if |s| == 0 then Err(NumberFormat)
    else
      var negative := s[0] == '-';
      var digits := if s[0] == '-' || s[0] == '+' then s[1..] else s;
      if |digits| == 0 || !AllDigits(digits) then Err(NumberFormat)
      else
        var v: int := if negative then -(DigitsValue(digits) as int) else DigitsValue(digits);
        if IsInt(v) then Ok(v) else Err(NumberFormat)
  }

  /**
   * `Integer.parseUnsignedInt(s)`: an optional '+' followed by at least one digit whose
   * value is at most 2^32 - 1, returned as the `int` with the same 32 bits.
   */
  function ParseUnsignedInt(s: string): (r: Result<int>)
    ensures r.Ok? ==> IsInt(r.value)
  {
    if |s| == 0 || s[0] == '-' then Err(NumberFormat)
    else
      var digits := if s[0] == '+' then s[1..] else s;
      if |digits| == 0 || !AllDigits(digits) then Err(NumberFormat)
      else
        var v := DigitsValue(digits);
        if v <= UINT_MAX then Ok(Wrap32(v)) else Err(NumberFormat)
  }

  lemma {:induction false} DigitsValueOfNatToString(n: nat)
    ensures DigitsValue(NatToString(n)) == n
  {
    var r := NatToString(n);
    assert r[..|r| - 1] == if n < 10 then "" else NatToString(n / 10);
    if n >= 10 {
      DigitsValueOfNatToString(n / 10);
    }
  }

  /** Formatting a non-negative `int` and parsing it back gives the same value. */
  lemma ParseIntOfNatToString(n: nat)
    requires n <= INT_MAX
    ensures ParseInt(NatToString(n)) == Ok(n)
  {
    DigitsValueOfNatToString(n);
    var r := NatToString(n);
    assert r[0] != '-' && r[0] != '+' by { assert IsDigit(r[0]); }
  }

  /** Formatting an `int` and parsing it back gives the same value. */
  lemma ParseIntOfIntToString(n: int)
    requires IsInt(n)
    ensures ParseInt(IntToString(n)) == Ok(n)
  {
    if n < 0 {
      DigitsValueOfNatToString(-n);
      var s := IntToString(n);
      assert s[1..] == NatToString(-n);
    } else {
      ParseIntOfNatToString(n);
    }
  }
}
