/**
 * Go's 64-bit `int` as the generator uses it: the wrap-around of `+`,
 * strconv.Atoi with its error ignored (main.go:77) and the decimal
 * rendering fmt.Fprintln gives an int (main.go:145).
 */
module Decimal {

  const Two64: int := 0x1_0000_0000_0000_0000
  const MinInt64: int := -0x8000_0000_0000_0000
  const MaxInt64: int := 0x7FFF_FFFF_FFFF_FFFF

  predicate InInt64(x: int) {
    MinInt64 <= x <= MaxInt64
  }

  /** The int64 that Go's wrapping arithmetic yields for the mathematical value `x`. */
  function Int64(x: int): (r: int)
    ensures InInt64(r)
    ensures InInt64(x) ==> r == x
    ensures (x - r) % Two64 == 0
  {
    var m := (x - MinInt64) % Two64;
    assert x - (m + MinInt64) == Two64 * ((x - MinInt64) / Two64);
    m + MinInt64
  }

  predicate IsDigit(c: char) {
    '0' <= c <= '9'
  }

  predicate AllDigits(s: string) {
    forall k :: 0 <= k < |s| ==> IsDigit(s[k])
  }

  /** The value of a string of decimal digits, most significant first. */
  function DigitsValue(ds: string): nat
    requires AllDigits(ds)
  {
    if ds == [] then 0 else DigitsValue(ds[..|ds| - 1]) * 10 + (ds[|ds| - 1] as int - '0' as int)
  }

  /** The base-10 syntax strconv.Atoi accepts: an optional sign, then at least one digit. */
  predicate IsDecimal(s: string) {
    var ds := if s != [] && (s[0] == '+' || s[0] == '-') then s[1..] else s;
    ds != [] && AllDigits(ds)
  }

  /** An out-of-range value becomes the int64 bound on its side, as strconv reports with ErrRange. */
  function Clamp(x: int): (r: int)
    ensures InInt64(r)
    ensures InInt64(x) ==> r == x
    ensures x < MinInt64 ==> r == MinInt64
    ensures MaxInt64 < x ==> r == MaxInt64
  {
    if x < MinInt64 then MinInt64 else if MaxInt64 < x then MaxInt64 else x
  }

  /**
   * strconv.Atoi with its error thrown away: the signed value of a
   * well-formed number, bounded to int64, and 0 for anything else.
   */
  function Atoi(s: string): (n: int)
    ensures InInt64(n)
    ensures !IsDecimal(s) ==> n == 0
    ensures IsDecimal(s) && s[0] != '-' ==> 0 <= n
    ensures IsDecimal(s) && s[0] == '-' ==> n <= 0
  {
    if !IsDecimal(s) then 0
    else if s[0] == '-' then Clamp(0 - DigitsValue(s[1..]) as int)
    else if s[0] == '+' then Clamp(DigitsValue(s[1..]))
    else Clamp(DigitsValue(s))
  }

  /**
   * The value strconv.Atoi gives a run of digits: the digits' value,
   * bounded to int64, the same after a '+' and negated after a '-'.
   */
  lemma AtoiDigits(ds: string)
    requires ds != [] && AllDigits(ds)
    ensures Atoi(ds) == Clamp(DigitsValue(ds))
    ensures Atoi("+" + ds) == Atoi(ds)
    ensures Atoi("-" + ds) == Clamp(0 - DigitsValue(ds))
  {
    SignThenDigits("+", ds);
    SignThenDigits("-", ds);
  }

  lemma SignThenDigits(sign: string, ds: string)
    requires sign == "+" || sign == "-"
    requires ds != [] && AllDigits(ds)
    ensures IsDecimal(sign + ds) && (sign + ds)[0] == sign[0] && (sign + ds)[1..] == ds
  {
    assert (sign + ds)[1..] == ds;
  }

  /** A leading zero adds nothing to the value of a digit string. */
  lemma {:induction false} LeadingZero(ds: string)
    requires AllDigits(ds)
    ensures AllDigits("0" + ds) && DigitsValue("0" + ds) == DigitsValue(ds)
    decreases |ds|
  {
    var zs := "0" + ds;
    if ds != [] {
      assert zs[..|zs| - 1] == "0" + ds[..|ds| - 1];
      LeadingZero(ds[..|ds| - 1]);
    } else {
      assert zs[..|zs| - 1] == [];
    }
  }

  /** strconv.Atoi reads `0012` and `+12` as 12: leading zeros and a '+' do not change the value. */
  lemma AtoiLeadingZero(ds: string)
    requires ds != [] && AllDigits(ds)
    ensures Atoi("0" + ds) == Atoi(ds)
    ensures Atoi("+0" + ds) == Atoi(ds)
    ensures Atoi("-0" + ds) == Atoi("-" + ds)
  {
    LeadingZero(ds);
    ZeroPadded(ds, "0" + ds);
    SignedZero(ds);
  }

  /** Digits with zeros in front read as the digits, also after either sign. */
  lemma ZeroPadded(ds: string, zs: string)
    requires ds != [] && AllDigits(ds) && zs != [] && AllDigits(zs) && DigitsValue(zs) == DigitsValue(ds)
    ensures Atoi(zs) == Atoi(ds) && Atoi("+" + zs) == Atoi(ds) && Atoi("-" + zs) == Atoi("-" + ds)
  {
    AtoiDigits(ds);
    AtoiDigits(zs);
  }

  lemma SignedZero(ds: string)
    ensures "+0" + ds == "+" + ("0" + ds) && "-0" + ds == "-" + ("0" + ds)
  {
    assert "+0" == "+" + "0";
    assert "-0" == "-" + "0";
  }

  function Digit(d: nat): (c: char)
    requires d < 10
    ensures IsDigit(c) && c as int - '0' as int == d
  {
    ('0' as int + d) as char
  }

  /** The decimal digits of `n`, most significant first, with no leading zero. */
  function NatDigits(n: nat): (s: string)
    ensures s != [] && AllDigits(s)
    ensures DigitsValue(s) == n
    ensures s[0] == '0' ==> n == 0 && |s| == 1
  {
    if n < 10 then [Digit(n)]
    else
      var s := NatDigits(n / 10) + [Digit(n % 10)];
      assert s[..|s| - 1] == NatDigits(n / 10);
      s
  }

  /** How fmt prints an int: '-' before the digits of a negative value. */
  function Itoa(n: int): (s: string)
    ensures s != [] && (s[0] == '-' <==> n < 0)
    ensures forall k :: 0 <= k < |s| ==> IsDigit(s[k]) || (k == 0 && s[k] == '-')
  {
    if n < 0 then "-" + NatDigits(-n) else NatDigits(n)
  }

  /** Reading back what Itoa printed gives the same int, for every int64. */
  lemma AtoiItoa(n: int)
    requires InInt64(n)
    ensures Atoi(Itoa(n)) == n
  {
    var s := Itoa(n);
    if n < 0 {
      assert s[1..] == NatDigits(-n);
    }
  }
}
