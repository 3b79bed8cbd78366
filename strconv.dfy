/** The parts of Go's `strconv` package the service relies on: `strconv.Atoi` (on a 64-bit
    platform, where `int` is 64 bits wide) and `strconv.ParseInt(s, 10, 64)` accept exactly
    the same strings, an optional `+` or `-` followed by one or more decimal digits whose
    value fits in 64 bits; `Itoa` stands for the decimal formatting of `%d` and
    `strconv.Itoa`. */
module Strconv {
  import opened Wrappers

  const MinInt64: int := -0x8000_0000_0000_0000
  const MaxInt64: int := 0x7FFF_FFFF_FFFF_FFFF

  predicate InInt64(n: int) {
    MinInt64 <= n <= MaxInt64
  }

  predicate IsDigit(c: char) {
    '0' <= c <= '9'
  }

  predicate AllDigits(s: string) {
    forall i :: 0 <= i < |s| ==> IsDigit(s[i])
  }

  /** The value of a run of decimal digits, most significant digit first. */
  function DigitsValue(s: string): nat
    requires AllDigits(s)
  {
    if s == [] then 0
    else DigitsValue(s[..|s| - 1]) * 10 + (s[|s| - 1] as int - '0' as int)
  }

  /** The shortest decimal spelling of a natural number. */
  function NatToDigits(n: nat): (s: string)
    ensures |s| > 0 && AllDigits(s)
  {
    if n < 10 then [('0' as int + n) as char]
    else NatToDigits(n / 10) + [('0' as int + n % 10) as char]
  }

  /** `strconv.Itoa(n)` and `fmt.Sprintf("%d", n)`. */
  function Itoa(n: int): (s: string)
    ensures |s| > 0
    ensures n >= 0 ==> AllDigits(s)
    ensures n < 0 ==> s[0] == '-' && AllDigits(s[1..])
    ensures n >= 0 ==> s == NatToDigits(n)
    ensures n < 0 ==> s == "-" + NatToDigits(-n) && |s| > 1
  {
    if n < 0 then "-" + NatToDigits(-n) else NatToDigits(n)
  }

  /** `strconv.ParseInt(s, 10, 64)`, and `strconv.Atoi(s)` on a 64-bit platform: `None`
      stands for a non-nil error (syntax error or value out of range). */
  function ParseInt(s: string): (r: Option<int>)
    ensures r.Some? ==> InInt64(r.value)
    ensures r.Some? ==> |s| > 0 && AllDigits(if s[0] == '-' || s[0] == '+' then s[1..] else s)
    ensures r.Some? ==>
      var digits := if s[0] == '-' || s[0] == '+' then s[1..] else s;
      && |digits| > 0
      && r.value == (if s[0] == '-' then -(DigitsValue(digits) as int) else DigitsValue(digits) as int)
    ensures
      (&& |s| > 0
       && var digits := if s[0] == '-' || s[0] == '+' then s[1..] else s;
       && |digits| > 0 && AllDigits(digits)
       && InInt64(if s[0] == '-' then -(DigitsValue(digits) as int) else DigitsValue(digits) as int))
      ==> r.Some?
  {
    if s == [] then None
    else
      var digits := if s[0] == '-' || s[0] == '+' then s[1..] else s;
      if digits == [] || !AllDigits(digits) then None
      else
        var v: int := if s[0] == '-' then -(DigitsValue(digits) as int) else DigitsValue(digits);
        if InInt64(v) then Some(v) else None
  }

  lemma {:induction false} DigitsValueOfNatToDigits(n: nat)
    ensures DigitsValue(NatToDigits(n)) == n
  {
    var s := NatToDigits(n);
    if n >= 10 {
      DigitsValueOfNatToDigits(n / 10);
      assert s[..|s| - 1] == NatToDigits(n / 10);
    }
  }

  /** Formatting a 64-bit integer in decimal and parsing it back gives the same integer:
      every value `Itoa` can produce for such an integer is one `ParseInt` accepts. */
  lemma ParseIntOfItoa(n: int)
    requires InInt64(n)
    ensures ParseInt(Itoa(n)) == Some(n)
  {
    var s := Itoa(n);
    if n < 0 {
      DigitsValueOfNatToDigits(-n);
      assert s[1..] == NatToDigits(-n);
    } else {
      DigitsValueOfNatToDigits(n);
      assert !IsDigit('-') && !IsDigit('+');
    }
  }

  /** A string holding a character that is neither a digit nor a leading sign is rejected. */
  lemma ParseIntRejectsNonDigit(s: string, i: int)
    requires 0 <= i < |s| && !IsDigit(s[i])
    requires i > 0 || (s[0] != '-' && s[0] != '+')
    ensures ParseInt(s) == None
  {
  }

  /** The decimal spellings of the integers just outside the 64-bit range are rejected. */
  lemma ParseIntRejectsOutOfRange()
    ensures ParseInt(Itoa(MaxInt64 + 1)) == None
    ensures ParseInt(Itoa(MinInt64 - 1)) == None
  {
    DigitsValueOfNatToDigits(MaxInt64 + 1);
    DigitsValueOfNatToDigits(-(MinInt64 - 1));
    var s := Itoa(MinInt64 - 1);
    assert s[1..] == NatToDigits(-(MinInt64 - 1));
  }
}
