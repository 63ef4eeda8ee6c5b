/**
 * Decimal conversion as Go's `strconv.Atoi` and `strconv.Itoa` perform it
 * (also `fmt.Sprintf("%d", n)`), over unbounded integers.
 */
module Strconv {
  import opened Wrappers

  predicate IsDigit(c: char) {
    '0' <= c <= '9'
  }

  predicate AllDigits(s: string) {
    forall i :: 0 <= i < |s| ==> IsDigit(s[i])
  }

  /** The value of a string of decimal digits, most significant first. */
  function DigitsValue(ds: string): nat
    requires AllDigits(ds)
  {
    if |ds| == 0 then 0
    else DigitsValue(ds[..|ds| - 1]) * 10 + (ds[|ds| - 1] as int - '0' as int)
  }

  /**
   * `strconv.Atoi`: an optional `+` or `-` sign followed by at least one
   * decimal digit; anything else (the empty string included) is a syntax
   * error, here `None`.
   */
  function Atoi(s: string): (r: Option<int>)
    ensures |s| == 0 ==> r == None
    ensures r.Some? <==>
      |s| > 0 && var d := if s[0] == '-' || s[0] == '+' then s[1..] else s; |d| > 0 && AllDigits(d)
    ensures AllDigits(s) && |s| > 0 ==> r == Some(DigitsValue(s))
    ensures r.Some? && s[0] == '+' ==> r.value == DigitsValue(s[1..])
    ensures r.Some? && s[0] == '-' ==> r.value == -(DigitsValue(s[1..]) as int)
  {
    if |s| == 0 then None
    else
      var digits := if s[0] == '-' || s[0] == '+' then s[1..] else s;
      if |digits| == 0 || !AllDigits(digits) then None
      else if s[0] == '-' then Some(-(DigitsValue(digits) as int))
      else Some(DigitsValue(digits))
  }

  /** `n, _ := strconv.Atoi(s)`: a syntax error yields 0. */
  function AtoiOrZero(s: string): int {
    Atoi(s).GetOr(0)
  }

  function DigitChar(d: nat): (c: char)
    requires d < 10
    ensures IsDigit(c) && c as int - '0' as int == d
  {
    ('0' as int + d) as char
  }

  /** Decimal digits of `n` without leading zeros. */
  function NatDigits(n: nat): (ds: string)
    ensures |ds| > 0 && AllDigits(ds)
    ensures DigitsValue(ds) == n
  {
    if n < 10 then [DigitChar(n)]
    else
      var ds := NatDigits(n / 10) + [DigitChar(n % 10)];
      assert ds[..|ds| - 1] == NatDigits(n / 10);
      ds
  }

  /** `strconv.Itoa`: `-` for negative numbers, then the digits. */
  function Itoa(n: int): (s: string)
    ensures |s| > 0
    ensures n >= 0 ==> AllDigits(s)
    ensures n < 0 ==> s[0] == '-' && AllDigits(s[1..])
  {
    if n < 0 then "-" + NatDigits(-n) else NatDigits(n)
  }

  /** Every integer printed by `Itoa` is read back by `Atoi` unchanged. */
  lemma AtoiItoa(n: int)
    ensures Atoi(Itoa(n)) == Some(n)
  {
    var s := Itoa(n);
    if n < 0 {
      assert s[1..] == NatDigits(-n);
    } else {
      assert s == NatDigits(n);
    }
  }

  /** Leading zeros and a `+` sign do not change the value `Atoi` reads. */
  lemma {:induction false} AtoiLeadingZero(ds: string)
    requires |ds| > 0 && AllDigits(ds)
    ensures Atoi("0" + ds) == Atoi(ds)
    ensures Atoi("+" + ds) == Atoi(ds)
  {
    ZeroPrefixValue(ds);
    assert ("+" + ds)[1..] == ds;
  }

  lemma {:induction false} ZeroPrefixValue(ds: string)
    requires AllDigits(ds)
    ensures AllDigits("0" + ds) && DigitsValue("0" + ds) == DigitsValue(ds)
    decreases |ds|
  {
    var z := "0" + ds;
    assert AllDigits(z);
    if |ds| > 0 {
      assert z[..|z| - 1] == "0" + ds[..|ds| - 1];
      ZeroPrefixValue(ds[..|ds| - 1]);
    }
  }
}
