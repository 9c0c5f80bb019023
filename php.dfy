/**
 * The parts of PHP 8's value semantics that the extension's decisions depend on:
 * scalars, truthiness (`if ($x)`, `!$x`, `empty($x)`), loose comparison against a
 * string (`==`, `in_array` without the strict flag), integer numeric strings,
 * decimal printing of integers and of whole floats, `(int)` casts of strings and `trim`.
 *
 * Floats are not modelled as PHP values: only the printing of a whole non-negative
 * float (precision 14) is, and `(int)` reads a numeric prefix with fraction and
 * exponent at its exact decimal value. Loose comparison counts a numeric string as
 * numeric only in its integer form.
 */
module Php {
  import opened Wrappers

  /** A PHP scalar as read from a quote item field, an item option or a decoded body. */
  datatype Scalar = Null | Bool(b: bool) | Int(i: int) | Str(s: string)

  /** PHP's conversion to bool: null, false, 0, "" and "0" are false. */
  predicate Truthy(v: Scalar) {
    match v
    case Null => false
    case Bool(b) => b
    case Int(i) => i != 0
    case Str(s) => TruthyString(s)
  }

  predicate TruthyString(s: string) {
    s != "" && s != "0"
  }

  /** Truthiness of a nullable string (`?string`). */
  predicate TruthyOpt(s: Option<string>) {
    s.Some? && TruthyString(s.value)
  }

  // ---------------------------------------------------------------------------
  // Decimal digits

  predicate IsDigit(c: char) {
    '0' <= c <= '9'
  }

  predicate AllDigits(s: string) {
    forall k :: 0 <= k < |s| ==> IsDigit(s[k])
  }

  function DigitChar(d: nat): (c: char)
    requires d < 10
    ensures IsDigit(c) && c as int - '0' as int == d
  {
    ('0' as int + d) as char
  }

  /** The value of a string of decimal digits, read from the left. */
  function DigitsValue(s: string): nat
    requires AllDigits(s)
  {
    if s == [] then 0
    else DigitsValue(s[..|s| - 1]) * 10 + (s[|s| - 1] as int - '0' as int)
  }

  /** The shortest decimal representation of n, as PHP prints an int. */
  function NatToDecimal(n: nat): string
    decreases n
  {
    if n < 10 then [DigitChar(n)] else NatToDecimal(n / 10) + [DigitChar(n % 10)]
  }

  /** PHP's `(string)$i` for an int. */
  function IntToDecimal(i: int): string {
    if i < 0 then "-" + NatToDecimal(-i) else NatToDecimal(i)
  }

  lemma {:induction false} NatToDecimalShape(n: nat)
    ensures |NatToDecimal(n)| > 0 && AllDigits(NatToDecimal(n))
    ensures n > 0 ==> NatToDecimal(n)[0] != '0'
    decreases n
  {
    if n >= 10 {
      NatToDecimalShape(n / 10);
      var r := NatToDecimal(n / 10) + [DigitChar(n % 10)];
      assert r == NatToDecimal(n);
      assert r[0] == NatToDecimal(n / 10)[0];
    }
  }

  /** Reading back the printed digits gives the number again. */
  lemma {:induction false} DecimalRoundTrip(n: nat)
    ensures AllDigits(NatToDecimal(n)) && DigitsValue(NatToDecimal(n)) == n
    decreases n
  {
    NatToDecimalShape(n);
    if n >= 10 {
      DecimalRoundTrip(n / 10);
      var r := NatToDecimal(n);
      assert r[..|r| - 1] == NatToDecimal(n / 10);
      assert r[|r| - 1] == DigitChar(n % 10);
    }
  }

  /** Distinct numbers print differently. */
  lemma NatToDecimalInjective(m: nat, n: nat)
    requires NatToDecimal(m) == NatToDecimal(n)
    ensures m == n
  {
    DecimalRoundTrip(m);
    DecimalRoundTrip(n);
  }

  // ---------------------------------------------------------------------------
  // Integer numeric strings (PHP 8: optional leading and trailing whitespace,
  // an optional sign, one or more digits)

  /** The whitespace PHP allows around a numeric string: space, \t, \n, \r, \v, \f. */
  predicate IsNumericSpace(c: char) {
    c == ' ' || c == '\t' || c == '\n' || c == '\r' || c as int == 11 || c as int == 12
  }

  function TrimNumericSpace(s: string): (r: string)
    ensures |r| <= |s|
    decreases |s|
  {
    if |s| > 0 && IsNumericSpace(s[0]) then TrimNumericSpace(s[1..])
    else if |s| > 0 && IsNumericSpace(s[|s| - 1]) then TrimNumericSpace(s[..|s| - 1])
    else s
  }

  /** The value of s when PHP treats s as an integer numeric string, otherwise None. */
  function IntegerNumericValue(s: string): (r: Option<int>)
  {
    var t := TrimNumericSpace(s);
    if |t| > 0 && (t[0] == '+' || t[0] == '-') then
      var d := t[1..];
      if |d| > 0 && AllDigits(d) then
        Some(if t[0] == '-' then -(DigitsValue(d) as int) else DigitsValue(d))
      else None
    else if |t| > 0 && AllDigits(t) then Some(DigitsValue(t))
    else None
  }

  /** A printed int is an integer numeric string with its own value. */
  lemma PrintedIntIsNumeric(i: int)
    ensures IntegerNumericValue(IntToDecimal(i)) == Some(i)
  {
    var n: nat := if i < 0 then -i else i;
    DecimalRoundTrip(n);
    NatToDecimalShape(n);
    var p := NatToDecimal(n);
    assert !IsNumericSpace(p[0]) && !IsNumericSpace(p[|p| - 1]);
    if i < 0 {
      var s := "-" + p;
      assert s[0] == '-' && s[|s| - 1] == p[|p| - 1];
      assert TrimNumericSpace(s) == s;
      assert s[1..] == p;
    } else {
      assert TrimNumericSpace(p) == p;
    }
  }

  /**
   * PHP 8 loose comparison `$v == $t` of a scalar with a string. Two numeric
   * strings, or an int and a numeric string, compare as numbers; null equals only
   * ""; a bool compares with the string's truthiness; otherwise strings compare
   * as strings and an int compares as its decimal string.
   */
  predicate LooseEqualsString(v: Scalar, t: string) {
    match v
    case Null => t == ""
    case Bool(b) => b == TruthyString(t)
    case Int(i) =>
      (match IntegerNumericValue(t)
       case Some(n) => n == i
       case None => IntToDecimal(i) == t)
    case Str(s) =>
      if IntegerNumericValue(s).Some? && IntegerNumericValue(t).Some? then
        IntegerNumericValue(s) == IntegerNumericValue(t)
      else s == t
  }

  /** Loose comparison with "1" accepts the int 1, the string "1", numeric variants such as "01", and true. */
  lemma LooseOneAccepts()
    ensures LooseEqualsString(Int(1), "1") && LooseEqualsString(Str("1"), "1")
    ensures LooseEqualsString(Str("01"), "1") && LooseEqualsString(Str(" 1"), "1")
    ensures LooseEqualsString(Bool(true), "1")
    ensures !LooseEqualsString(Null, "1") && !LooseEqualsString(Int(0), "1")
    ensures !LooseEqualsString(Str("0"), "1") && !LooseEqualsString(Str("yes"), "1")
  {
    OneNumericValues();
    OtherNumericValues();
  }

  /** "1", "01" and " 1" are integer numeric strings of value 1. */
  lemma {:induction false} OneNumericValues()
    ensures IntegerNumericValue("1") == Some(1) && IntegerNumericValue("01") == Some(1)
    ensures IntegerNumericValue(" 1") == Some(1)
  {
    assert TrimNumericSpace(" 1") == "1";
  }

  /** "0" is the integer numeric string of value 0 and "yes" is not numeric. */
  lemma {:induction false} OtherNumericValues()
    ensures IntegerNumericValue("0") == Some(0) && IntegerNumericValue("yes") == None
  {
    assert "yes"[0] == 'y';
  }

  /** A string is always loosely equal to itself. */
  lemma LooseEqualsReflexive(s: string)
    ensures LooseEqualsString(Str(s), s)
  {
  }

  /** `in_array($v, $list)` without the strict flag. */
  predicate LooseInArray(v: Scalar, list: seq<string>) {
    exists k :: 0 <= k < |list| && LooseEqualsString(v, list[k])
  }

  // ---------------------------------------------------------------------------
  // `(string)` of a float holding a whole number, under PHP's default `precision`
  // of 14: up to 14 digits print as an integer; from 10^14 on the value is rounded
  // to 14 significant digits, trailing zeros are dropped and it prints as a
  // mantissa and an exponent, "1.0E+14", "1.2345678901235E+17"

  function Pow10(e: nat): (r: nat)
    ensures r >= 1
  {
    if e == 0 then 1 else 10 * Pow10(e - 1)
  }

  lemma {:induction false} Pow10Add(a: nat, b: nat)
    ensures Pow10(a + b) == Pow10(a) * Pow10(b)
    decreases a
  {
    if a > 0 {
      Pow10Add(a - 1, b);
      assert Pow10(a + b) == 10 * Pow10(a - 1 + b);
    }
  }

  lemma {:induction false} Pow10Split(n: nat, a: nat)
    requires a <= n
    ensures Pow10(n) == Pow10(a) * Pow10(n - a)
  {
    Pow10Add(a, n - a);
  }

  lemma {:induction false} Pow10Monotone(a: nat, b: nat)
    requires a <= b
    ensures Pow10(a) <= Pow10(b)
    decreases b
  {
    if a < b {
      Pow10Monotone(a, b - 1);
    }
  }

  /** 10^13, the smallest 14-digit number, and 10^14, the first whole float printed with an exponent. */
  const Ten13: nat := 10000000000000
  const Ten14: nat := 100000000000000

  lemma TenPowers()
    ensures Pow10(13) == Ten13 && Pow10(14) == Ten14
  {
  }

  lemma {:induction false} Pow10Shift(n: nat)
    requires n >= 14
    ensures Pow10(n) == Ten14 * Pow10(n - 14)
  {
    Pow10Split(n, 14);
    TenPowers();
  }

  lemma {:induction false} Pow10Times(k: nat)
    ensures Pow10(13 + k) == Ten13 * Pow10(k) && Pow10(14 + k) == Ten14 * Pow10(k)
  {
    Pow10Add(13, k);
    Pow10Add(14, k);
    TenPowers();
  }

  /** The number of decimal digits of d. */
  function DigitCount(d: nat): (n: nat)
    ensures n >= 1
  {
    if d < 10 then 1 else 1 + DigitCount(d / 10)
  }

  /** A number of n digits lies in [10^(n-1), 10^n). */
  lemma {:induction false} DigitCountBounds(d: nat)
    ensures d < Pow10(DigitCount(d))
    ensures d > 0 ==> Pow10(DigitCount(d) - 1) <= d
    decreases d
  {
    if d >= 10 {
      DigitCountBounds(d / 10);
      var k := DigitCount(d / 10);
      assert Pow10(k + 1) == 10 * Pow10(k);
      assert Pow10(k) == 10 * Pow10(k - 1);
    }
  }

  /** A number in [10^(n-1), 10^n) has n digits. */
  lemma {:induction false} DigitCountFromBounds(d: nat, n: nat)
    requires n >= 1 && Pow10(n - 1) <= d < Pow10(n)
    ensures DigitCount(d) == n
  {
    DigitCountBounds(d);
    var len := DigitCount(d);
    if len < n {
      Pow10Monotone(len, n - 1);
      assert false;
    }
    if len > n {
      Pow10Monotone(n, len - 1);
      assert false;
    }
  }

  /** A number in [10^(13+k), 10^(14+k)) has 14 + k digits. */
  lemma {:induction false} DigitCountOf(d: nat, k: nat)
    requires Pow10(13 + k) <= d < Pow10(14 + k)
    ensures DigitCount(d) == 14 + k
  {
    DigitCountFromBounds(d, 14 + k);
  }

  /** A number from 10^14 on has 15 or more digits; p = 10^(digits - 14) cuts it after its 14th. */
  lemma {:induction false} WideDecimal(d: nat)
    requires d >= Ten14
    ensures DigitCount(d) >= 15
    ensures var p := Pow10(DigitCount(d) - 14); Ten13 * p <= d < Ten14 * p
  {
    DigitCountBounds(d);
    var n := DigitCount(d);
    if n <= 14 {
      Pow10Monotone(n, 14);
      Pow10Shift(14);
    }
    Pow10Shift(n);
    assert Pow10(n) == 10 * Pow10(n - 1);
  }

  lemma {:induction false} DivBounds(d: nat, p: nat, lo: nat, hi: nat)
    requires p > 0 && lo * p <= d < hi * p
    ensures lo <= d / p < hi
  {
    var q := d / p;
    assert d == q * p + d % p;
    if q < lo {
      MulMonotone(q + 1, lo, p);
      assert false;
    }
    if q >= hi {
      MulMonotone(hi, q, p);
      assert false;
    }
  }

  lemma {:induction false} MulMonotone(a: nat, b: nat, p: nat)
    requires a <= b
    ensures a * p <= b * p
  {
    assert b * p == a * p + (b - a) * p;
  }

  /** d / p rounded to nearest, a tie going to the even quotient. */
  function RoundHalfEven(d: nat, p: nat): (m: nat)
    requires p > 0
    ensures d / p <= m <= d / p + 1
  {
    var q := d / p;
    var rem := d % p;
    if 2 * rem > p || (2 * rem == p && q % 2 == 1) then q + 1 else q
  }

  /** The rounded multiple of p lies within p/2 of d. */
  lemma {:induction false} NearestMultiple(d: nat, p: nat)
    requires p > 0
    ensures var v := RoundHalfEven(d, p) * p;
      2 * (if d >= v then d - v else v - d) <= p
  {
    var q := d / p;
    var rem := d % p;
    assert d == q * p + rem;
    assert (q + 1) * p == q * p + p;
  }

  /**
   * The 14 significant digits `m` and decimal exponent `x` of a whole number from
   * 10^14 on: rounded to nearest, a tie going to the even last digit, with a carry
   * out of 99999999999999 raising the exponent.
   */
  function Significand(d: nat): (r: (nat, nat))
    requires d >= Ten14
    ensures Ten13 <= r.0 < Ten14 && r.1 >= 14
  {
    WideDecimal(d);
    var n := DigitCount(d);
    var p := Pow10(n - 14);
    DivBounds(d, p, Ten13, Ten14);
    var m := RoundHalfEven(d, p);
    if m == Ten14 then (Ten13, n) else (m, n - 1)
  }

  /** The rounded value m * 10^(x-13) lies within half a unit of the last kept digit of d. */
  lemma {:induction false} SignificandRounds(d: nat)
    requires d >= Ten14
    ensures var r := Significand(d);
      var v := r.0 * Pow10(r.1 - 13);
      2 * (if d >= v then d - v else v - d) <= Pow10(r.1 - 13)
  {
    WideDecimal(d);
    var n := DigitCount(d);
    var p := Pow10(n - 14);
    NearestMultiple(d, p);
    var m := RoundHalfEven(d, p);
    var r := Significand(d);
    if m == Ten14 {
      CarryUnit(n, p);
      assert r == (Ten13, n);
      assert r.0 * Pow10(r.1 - 13) == m * p;
    } else {
      assert r == (m, n - 1);
      assert r.1 - 13 == n - 14;
    }
  }

  /** After a carry the unit is ten times larger, and 10^13 new units are 10^14 old ones. */
  lemma {:induction false} CarryUnit(n: nat, p: nat)
    requires n >= 15 && p == Pow10(n - 14)
    ensures Pow10(n - 13) == 10 * p && Ten13 * Pow10(n - 13) == Ten14 * p
  {
    assert Pow10(n - 13) == 10 * Pow10(n - 14);
  }

  function StripZeros(m: nat): (r: nat)
    requires m > 0
    ensures r > 0 && r % 10 != 0
  {
    if m % 10 == 0 then StripZeros(m / 10) else m
  }

  /** PHP's `(string)` of a float whose value is the whole number d. */
  function WholeFloatToString(d: nat): (s: string)
  {
    if d < Ten14 then NatToDecimal(d)
    else ExponentForm(Significand(d).0, Significand(d).1)
  }

  /** PHP's `(string)` of a float whose value is the whole number i: as the int prints below 10^14 in magnitude. */
  function WholeFloatText(i: int): (s: string)
    ensures -(Ten14 as int) < i < Ten14 ==> s == IntToDecimal(i)
  {
    if i < 0 then "-" + WholeFloatToString(-i) else WholeFloatToString(i)
  }

  /** "m.antissaE+x": the significand m without its trailing zeros, a point after its first digit, ".0" when only one is left. */
  function ExponentForm(m: nat, x: nat): (s: string)
    requires m > 0
  {
    var t := NatToDecimal(StripZeros(m));
    NatToDecimalShape(StripZeros(m));
    [t[0]] + "." + (if |t| == 1 then "0" else t[1..]) + "E+" + NatToDecimal(x)
  }

  /** The printed text ends as d's digits do below 10^14, and as the exponent's from there on. */
  lemma {:induction false} WholeFloatEnding(d: nat)
    requires d >= 10
    ensures var s := WholeFloatToString(d);
      var e := if d < Ten14 then NatToDecimal(d) else NatToDecimal(Significand(d).1);
      |s| >= 2 && |e| >= 2 && s[|s| - 2..] == e[|e| - 2..]
  {
    TwoDigitsAtLeast(d);
    if d >= Ten14 {
      TwoDigitsAtLeast(Significand(d).1);
    }
  }

  lemma {:induction false} TwoDigitsAtLeast(n: nat)
    requires n >= 10
    ensures |NatToDecimal(n)| >= 2
  {
    NatToDecimalShape(n / 10);
  }

  lemma {:induction false} LastDigit(n: nat)
    ensures var s := NatToDecimal(n); |s| >= 1 && s[|s| - 1] == DigitChar(n % 10)
  {
  }

  /** The last two printed digits of a number from 10 on are its remainder modulo 100. */
  lemma {:induction false} DecimalLastTwo(n: nat)
    requires n >= 10
    ensures var s := NatToDecimal(n);
      |s| >= 2 && AllDigits(s[|s| - 2..]) && DigitsValue(s[|s| - 2..]) == n % 100
  {
    var s := NatToDecimal(n);
    var head := NatToDecimal(n / 10);
    LastDigit(n / 10);
    var len := |head|;
    assert s == head + [DigitChar(n % 10)];
    assert |s| == len + 1;
    var tens := DigitChar((n / 10) % 10);
    var ones := DigitChar(n % 10);
    assert s[len - 1] == tens && s[len] == ones;
    var tail := s[|s| - 2..];
    assert tail == [tens, ones];
    TwoDigitsValue(tens, ones);
    ModHundred(n);
  }

  lemma {:induction false} ModHundred(n: nat)
    ensures n % 100 == ((n / 10) % 10) * 10 + n % 10
  {
    var q := n / 10;
    var r := n % 10;
    var a := q / 10;
    var b := q % 10;
    assert n == 100 * a + (10 * b + r);
  }

  lemma {:induction false} TwoDigitsValue(a: char, b: char)
    requires IsDigit(a) && IsDigit(b)
    ensures DigitsValue([a, b]) == (a as int - '0' as int) * 10 + (b as int - '0' as int)
  {
    assert [a, b][..1] == [a];
    assert [a][..0] == [];
    assert DigitsValue([a]) == a as int - '0' as int;
  }

  /** Below 10^14 a whole float prints as an integer. */
  lemma WholeFloatPlain()
    ensures WholeFloatToString(1015) == "1015"
  {
  }

  /** 10^k from 10^14 on prints as "1.0E+k": one digit, ".0" after it, the exponent unpadded. */
  lemma {:induction false} WholeFloatPower(k: nat)
    requires k >= 14
    ensures WholeFloatToString(Pow10(k)) == "1" + "." + "0" + "E+" + NatToDecimal(k)
  {
    PowerSignificand(k);
    WholeFloatOf(Pow10(k), Ten13, k);
    ExponentFormOne(k);
  }

  /** 10^k - 1 from 10^15 on rounds up and prints as 10^k does: the carry raises the exponent. */
  lemma {:induction false} WholeFloatCarry(k: nat)
    requires k >= 15
    ensures WholeFloatToString(Pow10(k) - 1) == WholeFloatToString(Pow10(k))
  {
    SignificandCarry(k);
    WholeFloatOf(Pow10(k) - 1, Ten13, k);
    PowerSignificand(k);
    WholeFloatOf(Pow10(k), Ten13, k);
  }

  /** A whole number exactly half way between two 14-digit significands prints as the one with the even last digit. */
  lemma {:induction false} WholeFloatTie(m: nat, k: nat)
    requires Ten13 <= m && m + 1 < Ten14 && k >= 1
    ensures WholeFloatToString(m * Pow10(k) + 5 * Pow10(k - 1))
      == WholeFloatToString((if m % 2 == 0 then m else m + 1) * Pow10(k))
  {
    var m' := if m % 2 == 0 then m else m + 1;
    SignificandTie(m, k);
    WholeFloatOf(m * Pow10(k) + 5 * Pow10(k - 1), m', 13 + k);
    SignificandExact(m', k);
    WholeFloatOf(m' * Pow10(k), m', 13 + k);
  }

  /** The text of a whole number from 10^14 on is the exponent form of its significand. */
  lemma {:induction false} WholeFloatOf(d: nat, m: nat, x: nat)
    requires d >= Ten14 && m > 0 && Significand(d) == (m, x)
    ensures WholeFloatToString(d) == ExponentForm(m, x)
  {
  }

  /** 10^k has significand 10^13 and exponent k. */
  lemma {:induction false} PowerSignificand(k: nat)
    requires k >= 14
    ensures Pow10(k) >= Ten14 && Significand(Pow10(k)) == (Ten13, k)
  {
    Pow10Split(k, 13);
    TenPowers();
    SignificandExact(Ten13, k - 13);
  }

  /** Trailing zeros of the significand do not show: a * 10^j prints as a. */
  lemma {:induction false} ExponentFormStrip(a: nat, j: nat, x: nat)
    requires a > 0 && a % 10 != 0
    ensures a * Pow10(j) > 0 && ExponentForm(a * Pow10(j), x) == ExponentForm(a, x)
  {
    StripPow10(a, j);
    StripPow10(a, 0);
    assert a * Pow10(0) == a;
  }

  lemma {:induction false} ExponentFormOne(x: nat)
    ensures ExponentForm(Ten13, x) == "1" + "." + "0" + "E+" + NatToDecimal(x)
  {
    StripPow10(1, 13);
    TenPowers();
    assert StripZeros(Ten13) == 1;
    var t := NatToDecimal(1);
    assert t == "1";
    assert [t[0]] == "1";
  }

  /** The significand and exponent of a d of 14 + k digits, from its quotient and remainder by 10^k. */
  lemma {:induction false} SignificandFrom(d: nat, k: nat, q: nat, rem: nat)
    requires k >= 1 && Pow10(13 + k) <= d < Pow10(14 + k)
    requires rem < Pow10(k) && d == q * Pow10(k) + rem
    ensures d >= Ten14
    ensures var p := Pow10(k);
      var m := if 2 * rem > p || (2 * rem == p && q % 2 == 1) then q + 1 else q;
      Significand(d) == if m == Ten14 then (Ten13, 14 + k) else (m, 13 + k)
  {
    var p := Pow10(k);
    Pow10Times(k);
    assert p == 10 * Pow10(k - 1);
    DigitCountOf(d, k);
    assert DigitCount(d) - 14 == k;
    QuotientOf(d, q, rem, p);
    var m := if 2 * rem > p || (2 * rem == p && q % 2 == 1) then q + 1 else q;
    assert RoundHalfEven(d, p) == m;
  }

  /** m * 10^k + r, for a 14-digit m and r < 10^k, has 14 + k digits. */
  lemma {:induction false} ScaledBounds(m: nat, r: nat, k: nat)
    requires Ten13 <= m < Ten14 && r < Pow10(k)
    ensures Pow10(13 + k) <= m * Pow10(k) + r < Pow10(14 + k)
  {
    var p := Pow10(k);
    Pow10Times(k);
    MulMonotone(Ten13, m, p);
    MulMonotone(m + 1, Ten14, p);
    assert (m + 1) * p == m * p + p;
  }

  /** Fourteen significant digits followed only by zeros print exactly, without rounding. */
  lemma {:induction false} SignificandExact(m: nat, k: nat)
    requires Ten13 <= m < Ten14 && k >= 1
    ensures m * Pow10(k) >= Ten14 && Significand(m * Pow10(k)) == (m, 13 + k)
  {
    ScaledBounds(m, 0, k);
    SignificandFrom(m * Pow10(k), k, m, 0);
  }

  /** All nines from the 15th digit on round up into a carry: 10^k - 1 has significand 10^13 and exponent k. */
  lemma {:induction false} SignificandCarry(k: nat)
    requires k >= 15
    ensures Pow10(k) - 1 >= Ten14 && Significand(Pow10(k) - 1) == (Ten13, k)
  {
    var j := k - 14;
    var p := Pow10(j);
    Pow10Times(j);
    assert 14 + j == k;
    assert Pow10(13 + j) == Pow10(k - 1);
    assert Pow10(k) == 10 * Pow10(k - 1);
    Pow10Monotone(1, j);
    assert Pow10(1) == 10;
    assert (Ten14 - 1) * p == Ten14 * p - p;
    SignificandFrom(Pow10(k) - 1, j, Ten14 - 1, p - 1);
  }

  /** Exactly half a unit past m goes to the even one of m and m + 1. */
  lemma {:induction false} SignificandTie(m: nat, k: nat)
    requires Ten13 <= m && m + 1 < Ten14 && k >= 1
    ensures var d := m * Pow10(k) + 5 * Pow10(k - 1);
      d >= Ten14 && Significand(d) == (if m % 2 == 0 then m else m + 1, 13 + k)
  {
    var r := 5 * Pow10(k - 1);
    assert Pow10(k) == 10 * Pow10(k - 1);
    ScaledBounds(m, r, k);
    SignificandFrom(m * Pow10(k) + r, k, m, r);
  }

  lemma {:induction false} StripPow10(a: nat, k: nat)
    requires a > 0 && a % 10 != 0
    ensures StripZeros(a * Pow10(k)) == a
  {
    if k > 0 {
      var b := a * Pow10(k - 1);
      assert a * Pow10(k) == 10 * b;
      assert (10 * b) % 10 == 0 && (10 * b) / 10 == b;
      StripPow10(a, k - 1);
    }
  }

  // ---------------------------------------------------------------------------
  // `(int)` cast of a string (PHP 8): after leading whitespace, the longest
  // numeric prefix (a sign, digits, a point and more digits, an exponent) is read;
  // a string without one reads as 0. A prefix that does not fit a 64-bit int, or
  // that has a point or an exponent, is a float, which the cast truncates toward
  // zero, caps at the 64-bit range and reads as 0 when infinite.

  function LeadingDigits(s: string): (r: string)
    ensures AllDigits(r) && |r| <= |s| && r == s[..|r|]
    ensures |r| < |s| ==> !IsDigit(s[|r|])
  {
    if |s| > 0 && IsDigit(s[0]) then [s[0]] + LeadingDigits(s[1..]) else []
  }

  function SkipLeadingSpace(s: string): (r: string)
    ensures |r| <= |s|
  {
    if |s| > 0 && IsNumericSpace(s[0]) then SkipLeadingSpace(s[1..]) else s
  }

  const IntMax: int := 9223372036854775807
  const IntMin: int := -9223372036854775808

  /**
   * 2^1024 - 2^970, halfway between the largest double and 2^1024: a decimal
   * string of at least this magnitude reads as an infinite float.
   */
  const InfinityBound: int := 179769313486231580793728971405303415079934132710037826936173778980444968292764750946649017977587207096330286416692887910946555547851940402630657488671505820681908902000708383676273854845817711531764475730270069855571366959622842914819860834936475292719074168444365510704342711559699508093042880177904174497792

  /** `e` or `E`, an optional sign and at least one digit at the head of s: the exponent it writes. */
  function ExponentPrefix(s: string): Option<int> {
    if |s| >= 2 && (s[0] == 'e' || s[0] == 'E') then
      var digits := LeadingDigits(if s[1] == '+' || s[1] == '-' then s[2..] else s[1..]);
      if digits == [] then None
      else if s[1] == '-' then Some(-(DigitsValue(digits) as int))
      else Some(DigitsValue(digits))
    else None
  }

  /** An exact decimal value, num / 10^scale. */
  datatype Decimal = Decimal(num: int, scale: nat)

  function Negated(x: Decimal): Decimal {
    Decimal(-x.num, x.scale)
  }

  /** m * 10^e, exactly. */
  function Scaled(m: nat, e: int): Decimal {
    if e >= 0 then Decimal(m * Pow10(e), 0) else Decimal(m, -e)
  }

  lemma {:induction false} AllDigitsConcat(a: string, b: string)
    requires AllDigits(a) && AllDigits(b)
    ensures AllDigits(a + b)
  {
    assert forall k :: 0 <= k < |a + b| ==> (a + b)[k] == if k < |a| then a[k] else b[k - |a|];
  }

  /**
   * The digits of a mantissa at the head of u: those before a point, those after
   * it, and the text that follows them.
   */
  function SplitMantissa(u: string): (r: (string, string, string))
    ensures AllDigits(r.0) && AllDigits(r.1)
  {
    var whole := LeadingDigits(u);
    var rest := u[|whole|..];
    if |rest| > 0 && rest[0] == '.' then
      var fraction := LeadingDigits(rest[1..]);
      (whole, fraction, rest[1 + |fraction|..])
    else (whole, [], rest)
  }

  /** The exact value of an unsigned number at the head of u: a digit on at least one side of the point, then an optional exponent. */
  function UnsignedValue(u: string): Option<Decimal> {
    var r := SplitMantissa(u);
    if r.0 == [] && r.1 == [] then None
    else
      AllDigitsConcat(r.0, r.1);
      Some(Scaled(DigitsValue(r.0 + r.1), ExponentPrefix(r.2).GetOr(0) - |r.1|))
  }

  /** The exact value of the numeric prefix of s after leading whitespace and an optional sign, None when there is none. */
  function NumericPrefixValue(s: string): Option<Decimal> {
    var t := SkipLeadingSpace(s);
    if |t| > 0 && t[0] == '-' then
      (match UnsignedValue(t[1..]) case None => None case Some(v) => Some(Negated(v)))
    else if |t| > 0 && t[0] == '+' then UnsignedValue(t[1..])
    else UnsignedValue(t)
  }

  /**
   * PHP's capped float-to-int conversion of a numeric string's value x: 0 when the
   * float is infinite, the nearest 64-bit bound outside the range, otherwise x
   * truncated toward zero.
   */
  function DecimalToIntCap(x: Decimal): (r: int)
    ensures IntMin <= r <= IntMax
  {
    CapQuotient(x.num, Pow10(x.scale))
  }

  /**
   * num / den capped as `(int)` caps a float: the magnitude's quotient q decides
   * infinity (q >= InfinityBound exactly when |num| >= InfinityBound * den) and the caps.
   */
  function CapQuotient(num: int, den: nat): (r: int)
    requires den > 0
    ensures IntMin <= r <= IntMax
  {
    var q := (if num >= 0 then num else -num) / den;
    if q >= InfinityBound then 0
    else if num >= 0 then (if q > IntMax then IntMax else q)
    else if q > -IntMin then IntMin
    else -q
  }

  /** Truncation toward zero inside the 64-bit range, the nearest bound outside it, 0 for an infinite float. */
  lemma {:induction false} CapQuotientMeaning(num: int, den: nat)
    requires den > 0
    ensures var r := CapQuotient(num, den);
      (0 <= num < (IntMax + 1) * den ==> r * den <= num < (r + 1) * den)
      && (IntMin * den <= num < 0 ==> (r - 1) * den < num <= r * den)
      && ((IntMax + 1) * den <= num < InfinityBound * den ==> r == IntMax)
      && (-InfinityBound * den < num < IntMin * den ==> r == IntMin)
      && (num >= InfinityBound * den || num <= -InfinityBound * den ==> r == 0)
  {
    if num >= 0 {
      var q := num / den;
      assert num == q * den + num % den;
      QuotientCompare(num, den, q, IntMax + 1);
      QuotientCompare(num, den, q, InfinityBound);
    } else {
      NegativeCap(num, den);
    }
  }

  lemma {:induction false} NegativeCap(num: int, den: nat)
    requires den > 0 && num < 0
    ensures var r := CapQuotient(num, den);
      (IntMin * den <= num ==> (r - 1) * den < num <= r * den)
      && (-InfinityBound * den < num < IntMin * den ==> r == IntMin)
      && (num <= -InfinityBound * den ==> r == 0)
  {
    var a: nat := -num;
    var q := a / den;
    assert a == q * den + a % den;
    QuotientCompare(a, den, q, -IntMin);
    QuotientCompare(a, den, q, InfinityBound);
    if q <= -IntMin {
      assert CapQuotient(num, den) == -q;
      assert (-q - 1) * den == -((q + 1) * den);
      assert -q * den == -(q * den);
    }
  }

  /** With a == q * den + a % den, q reaches the integer b exactly when a reaches b * den. */
  lemma {:induction false} QuotientCompare(a: nat, den: nat, q: int, b: int)
    requires den > 0 && a == q * den + a % den
    ensures q >= b <==> a >= b * den
    ensures q * den <= a < (q + 1) * den
  {
    assert (q + 1) * den == q * den + den;
    if q >= b {
      MulMonotoneInt(b, q, den);
    } else {
      MulMonotoneInt(q + 1, b, den);
    }
  }

  /** PHP's `(int)$value` for a nullable config string. */
  function IntCast(v: Option<string>): int {
    match v
    case None => 0
    case Some(s) =>
      match NumericPrefixValue(s)
      case None => 0
      case Some(x) => DecimalToIntCap(x)
  }

  /**
   * `(int)` undoes the printing of a non-negative int up to PHP_INT_MAX and caps a
   * larger one, and reads null and non-numbers as 0.
   */
  lemma {:induction false} IntCastOfPrinted(n: nat)
    ensures n <= IntMax ==> IntCast(Some(NatToDecimal(n))) == n
    ensures IntMax < n < InfinityBound ==> IntCast(Some(NatToDecimal(n))) == IntMax
    ensures IntCast(None) == 0 && IntCast(Some("")) == 0 && IntCast(Some("abc")) == 0
  {
    NatToDecimalShape(n);
    DecimalRoundTrip(n);
    PrefixOfDigits(NatToDecimal(n));
    IntCastOfNonNumbers();
  }

  /** null, the empty string and a string without a numeric prefix all read as 0. */
  lemma {:induction false} IntCastOfNonNumbers()
    ensures IntCast(None) == 0 && IntCast(Some("")) == 0 && IntCast(Some("abc")) == 0
  {
    assert "abc"[0] == 'a';
    assert NumericPrefixValue("abc") == None;
  }

  /** A string of digits is read whole, as its own value. */
  lemma {:induction false} PrefixOfDigits(p: string)
    requires |p| > 0 && AllDigits(p)
    ensures NumericPrefixValue(p) == Some(Decimal(DigitsValue(p), 0))
  {
    assert SkipLeadingSpace(p) == p;
    LeadingDigitsOfDigits(p);
    assert SplitMantissa(p) == (p, [], []);
    assert p + [] == p;
  }

  /** The digits at the head of a + b are a, when b does not go on with a digit. */
  lemma {:induction false} LeadingDigitsConcat(a: string, b: string)
    requires AllDigits(a) && (b == [] || !IsDigit(b[0]))
    ensures LeadingDigits(a + b) == a
    decreases |a|
  {
    if |a| > 0 {
      assert (a + b)[1..] == a[1..] + b;
      LeadingDigitsConcat(a[1..], b);
    } else {
      assert a + b == b;
    }
  }

  /** Digits followed by neither a digit nor a point form an integer mantissa. */
  lemma {:induction false} SplitInteger(whole: string, after: string)
    requires AllDigits(whole) && (after == [] || (!IsDigit(after[0]) && after[0] != '.'))
    ensures SplitMantissa(whole + after) == (whole, [], after)
  {
    LeadingDigitsConcat(whole, after);
    assert (whole + after)[|whole|..] == after;
  }

  /** Digits, a point and digits, followed by no further digit, form a decimal mantissa. */
  lemma {:induction false} SplitDecimal(whole: string, fraction: string, after: string)
    requires AllDigits(whole) && AllDigits(fraction) && (after == [] || !IsDigit(after[0]))
    ensures SplitMantissa(whole + "." + fraction + after) == (whole, fraction, after)
  {
    var u := whole + "." + fraction + after;
    assert u == whole + ("." + fraction + after);
    LeadingDigitsConcat(whole, "." + fraction + after);
    assert u[|whole|..] == "." + fraction + after;
    LeadingDigitsConcat(fraction, after);
    assert u[|whole|..][1..] == fraction + after;
    assert (fraction + after)[|fraction|..] == after;
  }

  /** Text that starts with a digit or a point is read unsigned, and a '-' before it negates the value. */
  lemma {:induction false} UnsignedPrefix(s: string)
    requires |s| > 0 && (IsDigit(s[0]) || s[0] == '.')
    ensures NumericPrefixValue(s) == UnsignedValue(s)
    ensures NumericPrefixValue("-" + s) == match UnsignedValue(s) case None => None case Some(v) => Some(Negated(v))
  {
    assert SkipLeadingSpace(s) == s;
    assert SkipLeadingSpace("-" + s) == "-" + s;
    assert ("-" + s)[1..] == s;
  }

  /** Reading digits a then b is reading a, shifted by the length of b, plus b. */
  lemma {:induction false} DigitsValueConcat(a: string, b: string)
    requires AllDigits(a) && AllDigits(b)
    ensures AllDigits(a + b) && DigitsValue(a + b) == DigitsValue(a) * Pow10(|b|) + DigitsValue(b)
    ensures DigitsValue(b) < Pow10(|b|)
    decreases |b|
  {
    AllDigitsConcat(a, b);
    if b == [] {
      assert a + b == a;
    } else {
      var b' := b[..|b| - 1];
      assert (a + b)[..|a + b| - 1] == a + b';
      assert (a + b)[|a + b| - 1] == b[|b| - 1];
      DigitsValueConcat(a, b');
      var x := DigitsValue(a);
      var y := DigitsValue(b');
      var pw := Pow10(|b'|);
      var d := b[|b| - 1] as int - '0' as int;
      assert DigitsValue(a + b) == DigitsValue(a + b') * 10 + d;
      assert DigitsValue(b) == y * 10 + d;
      assert Pow10(|b|) == 10 * pw;
      ShiftDigit(x, y, pw, d);
    }
  }

  lemma {:induction false} ShiftDigit(x: nat, y: nat, pw: nat, d: nat)
    requires y < pw && d < 10
    ensures (x * pw + y) * 10 + d == x * (10 * pw) + (y * 10 + d)
    ensures y * 10 + d < 10 * pw
  {
  }

  /** Leading whitespace does not change what `(int)` reads. */
  lemma {:induction false} IntCastSkipsSpace(c: char, s: string)
    requires IsNumericSpace(c)
    ensures IntCast(Some([c] + s)) == IntCast(Some(s))
  {
    assert ([c] + s)[1..] == s;
    assert SkipLeadingSpace([c] + s) == SkipLeadingSpace(s);
    assert NumericPrefixValue([c] + s) == NumericPrefixValue(s);
  }

  /** The integer at the head of the text is read, whatever non-numeric text follows it. */
  lemma {:induction false} IntCastTrailing(n: nat, t: string)
    requires n <= IntMax
    requires t == [] || (!IsDigit(t[0]) && t[0] != '.' && t[0] != 'e' && t[0] != 'E')
    ensures IntCast(Some(NatToDecimal(n) + t)) == n
  {
    var p := NatToDecimal(n);
    PrintedIntegerValue(n, t);
    CapOfDigits(n, []);
    assert p + [] == p;
    IntCastOfValue(p + t, Decimal(DigitsValue(p), 0), n);
  }

  /** The digits of n followed by text that cannot go on with a number read as n's digits. */
  lemma {:induction false} PrintedIntegerValue(n: nat, t: string)
    requires t == [] || (!IsDigit(t[0]) && t[0] != '.' && t[0] != 'e' && t[0] != 'E')
    ensures AllDigits(NatToDecimal(n))
    ensures NumericPrefixValue(NatToDecimal(n) + t) == Some(Decimal(DigitsValue(NatToDecimal(n)), 0))
  {
    var p := NatToDecimal(n);
    NatToDecimalShape(n);
    IntegerDigitsValue(p, t);
    UnsignedPrefix(p + t);
  }

  /** A run of digits that nothing numeric follows reads as those digits with no exponent. */
  lemma {:induction false} IntegerDigitsValue(p: string, t: string)
    requires |p| > 0 && AllDigits(p)
    requires t == [] || (!IsDigit(t[0]) && t[0] != '.' && t[0] != 'e' && t[0] != 'E')
    ensures UnsignedValue(p + t) == Some(Decimal(DigitsValue(p), 0))
  {
    assert DigitsValue(p) * Pow10(0) == DigitsValue(p);
    SplitInteger(p, t);
    assert p + [] == p;
  }

  /** digits "." digits reads as the digits read together, over 10 to the number after the point. */
  lemma {:induction false} UnsignedDecimalValue(whole: string, fraction: string)
    requires AllDigits(whole) && AllDigits(fraction) && |whole| + |fraction| > 0
    ensures AllDigits(whole + fraction)
    ensures UnsignedValue(whole + "." + fraction) == Some(Decimal(DigitsValue(whole + fraction), |fraction|))
  {
    var u := whole + "." + fraction;
    assert u + [] == u;
    SplitDecimal(whole, fraction, []);
    AllDigitsConcat(whole, fraction);
  }

  /** A decimal form is truncated toward zero: w.f reads as w and -w.f as -w. */
  lemma {:induction false} IntCastTruncates(w: nat, f: string)
    requires w <= IntMax && AllDigits(f)
    ensures IntCast(Some(NatToDecimal(w) + "." + f)) == w
    ensures IntCast(Some("-" + (NatToDecimal(w) + "." + f))) == -(w as int)
  {
    var p := NatToDecimal(w);
    var u := p + "." + f;
    PrintedDecimalValue(w, f);
    var x := Decimal(DigitsValue(p + f), |f|);
    CapOfDigits(w, f);
    IntCastOfValue(u, x, w);
    IntCastOfValue("-" + u, Negated(x), -(w as int));
  }

  /** The text w.f, and -w.f, read as the digits of w and f together over 10^|f|. */
  lemma {:induction false} PrintedDecimalValue(w: nat, f: string)
    requires AllDigits(f)
    ensures AllDigits(NatToDecimal(w) + f)
    ensures var x := Decimal(DigitsValue(NatToDecimal(w) + f), |f|);
      NumericPrefixValue(NatToDecimal(w) + "." + f) == Some(x)
      && NumericPrefixValue("-" + (NatToDecimal(w) + "." + f)) == Some(Negated(x))
  {
    var p := NatToDecimal(w);
    var u := p + "." + f;
    NatToDecimalShape(w);
    AllDigitsConcat(p, f);
    UnsignedDecimalValue(p, f);
    assert u[0] == p[0];
    UnsignedPrefix(u);
  }

  /** The digits of w followed by f, over 10^|f|, truncate to w, and their negation to -w. */
  lemma {:induction false} CapOfDigits(w: nat, f: string)
    requires w <= IntMax && AllDigits(f)
    ensures AllDigits(NatToDecimal(w) + f)
    ensures var x := Decimal(DigitsValue(NatToDecimal(w) + f), |f|);
      DecimalToIntCap(x) == w && DecimalToIntCap(Negated(x)) == -(w as int)
  {
    var p := NatToDecimal(w);
    NatToDecimalShape(w);
    DecimalRoundTrip(w);
    DigitsValueConcat(p, f);
    CapOfSplit(w, DigitsValue(f), |f|);
  }

  lemma {:induction false} DigitsValueBound(f: string)
    requires AllDigits(f)
    ensures DigitsValue(f) < Pow10(|f|)
  {
    assert [] + f == f;
    DigitsValueConcat([], f);
  }

  /** `(int)` of text whose numeric prefix has value x is x capped. */
  lemma {:induction false} IntCastOfValue(s: string, x: Decimal, n: int)
    requires NumericPrefixValue(s) == Some(x) && DecimalToIntCap(x) == n
    ensures IntCast(Some(s)) == n
  {
  }

  /** w * 10^k + r with r < 10^k, over 10^k, truncates to w, and its negation to -w. */
  lemma {:induction false} CapOfSplit(w: nat, r: nat, k: nat)
    requires w <= IntMax && r < Pow10(k)
    ensures DecimalToIntCap(Decimal(w * Pow10(k) + r, k)) == w
    ensures DecimalToIntCap(Negated(Decimal(w * Pow10(k) + r, k))) == -(w as int)
  {
    CapQuotientOfSplit(w, r, Pow10(k));
  }

  lemma {:induction false} CapQuotientOfSplit(w: nat, r: nat, den: nat)
    requires w <= IntMax && r < den
    ensures CapQuotient(w * den + r, den) == w
    ensures CapQuotient(-(w * den + r), den) == -(w as int)
  {
    DivOfSplit(w, r, den);
  }

  /** d == w * den + r with 0 <= r < den divides into quotient w and remainder r. */
  lemma {:induction false} QuotientOf(d: nat, w: nat, r: nat, den: nat)
    requires r < den && d == w * den + r
    ensures d / den == w && d % den == r
  {
    DivOfSplit(w, r, den);
  }

  /** (w * den + r) / den == w when 0 <= r < den. */
  lemma {:induction false} DivOfSplit(w: nat, r: nat, den: nat)
    requires r < den
    ensures (w * den + r) / den == w
  {
    var num := w * den + r;
    var q := num / den;
    assert num == q * den + num % den;
    QuotientUnique(q, w, den, num);
  }

  /** Only one q has q * den <= num < (q + 1) * den. */
  lemma {:induction false} QuotientUnique(a: int, b: int, den: nat, num: int)
    requires den > 0
    requires a * den <= num < (a + 1) * den && b * den <= num < (b + 1) * den
    ensures a == b
  {
    if a < b {
      assert (a + 1) * den <= b * den by { MulMonotoneInt(a + 1, b, den); }
      assert false;
    }
    if b < a {
      assert (b + 1) * den <= a * den by { MulMonotoneInt(b + 1, a, den); }
      assert false;
    }
  }

  lemma {:induction false} MulMonotoneInt(a: int, b: int, p: nat)
    requires a <= b
    ensures a * p <= b * p
  {
    assert b * p == a * p + (b - a) * p;
  }

  /** An exponent form scales by its power of ten: "me" reads as m * 10^e within the 64-bit range. */
  lemma {:induction false} IntCastExponent(m: nat, e: nat)
    requires m * Pow10(e) <= IntMax
    ensures IntCast(Some(NatToDecimal(m) + "e" + NatToDecimal(e))) == m * Pow10(e)
  {
    PrintedExponentValue(m, e);
    CapOfScaled(m, e);
    IntCastOfValue(NatToDecimal(m) + "e" + NatToDecimal(e), Scaled(m, e), m * Pow10(e));
  }

  /** The text m "e" e reads as m * 10^e. */
  lemma {:induction false} PrintedExponentValue(m: nat, e: nat)
    ensures NumericPrefixValue(NatToDecimal(m) + "e" + NatToDecimal(e)) == Some(Scaled(m, e))
  {
    var p := NatToDecimal(m);
    var q := NatToDecimal(e);
    NatToDecimalShape(m);
    DecimalRoundTrip(m);
    NatToDecimalShape(e);
    DecimalRoundTrip(e);
    UnsignedExponentValue(p, q);
    assert p + "e" + q == p + ("e" + q);
    UnsignedPrefix(p + ("e" + q));
  }

  /** Digits, "e" and digits read as the first digits times 10 to the second. */
  lemma {:induction false} UnsignedExponentValue(p: string, q: string)
    requires |p| > 0 && AllDigits(p) && |q| > 0 && AllDigits(q)
    ensures UnsignedValue(p + ("e" + q)) == Some(Scaled(DigitsValue(p), DigitsValue(q)))
  {
    ExponentOfDigits(q);
    SplitInteger(p, "e" + q);
    assert p + [] == p;
  }

  lemma {:induction false} ExponentOfDigits(q: string)
    requires |q| > 0 && AllDigits(q)
    ensures ExponentPrefix("e" + q) == Some(DigitsValue(q) as int)
  {
    assert ("e" + q)[1..] == q;
    LeadingDigitsOfDigits(q);
  }

  lemma {:induction false} CapOfScaled(m: nat, e: nat)
    requires m * Pow10(e) <= IntMax
    ensures DecimalToIntCap(Scaled(m, e)) == m * Pow10(e)
  {
    var v: nat := m * Pow10(e);
    CapOfSplit(v, 0, 0);
  }

  lemma {:induction false} LeadingDigitsOfDigits(s: string)
    requires AllDigits(s)
    ensures LeadingDigits(s) == s
  {
    if |s| > 0 {
      LeadingDigitsOfDigits(s[1..]);
    }
  }

  // ---------------------------------------------------------------------------
  // trim(): strips " \t\n\r\0\x0B" from both ends

  predicate IsTrimChar(c: char) {
    c == ' ' || c == '\t' || c == '\n' || c == '\r' || c == '\0' || c as int == 11
  }

  function Trim(s: string): (r: string)
    ensures |r| <= |s|
    ensures |r| > 0 ==> !IsTrimChar(r[0]) && !IsTrimChar(r[|r| - 1])
    ensures forall k :: 0 <= k < |s| && !IsTrimChar(s[k]) ==> |r| > 0
    decreases |s|
  {
    if |s| > 0 && IsTrimChar(s[0]) then Trim(s[1..])
    else if |s| > 0 && IsTrimChar(s[|s| - 1]) then Trim(s[..|s| - 1])
    else s
  }
}
