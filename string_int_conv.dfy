/** Conversions between decimal text and Go's `int64`: parsing is total
    (any rejected text gives 0) and formatting is plain base 10. */
module StringIntConv {
  import opened Basics

  predicate IsDigit(c: char) {
    '0' <= c <= '9'
  }

  predicate AllDigits(s: string) {
    forall i :: 0 <= i < |s| ==> IsDigit(s[i])
  }

  function DigitValue(c: char): (d: nat)
    requires IsDigit(c)
    ensures d < 10
  {
    c as int - '0' as int
  }

  function DigitChar(d: nat): (c: char)
    requires d < 10
    ensures IsDigit(c) && DigitValue(c) == d
  {
    ('0' as int + d) as char
  }

  /** The number a digit string denotes, most significant digit first. */
  function DigitsValue(s: string): nat
    requires AllDigits(s)
  {
    if s == [] then 0 else DigitsValue(s[..|s| - 1]) * 10 + DigitValue(s[|s| - 1])
  }

  /** A digit string without superfluous leading zeros. */
  predicate Canonical(s: string) {
    |s| >= 1 && AllDigits(s) && (s[0] != '0' || |s| == 1)
  }

  /** The text after an optional leading `+` or `-`. */
  function Unsigned(s: string): (d: string)
    ensures |d| <= |s| && d == s[|s| - |d|..]
    ensures |d| < |s| <==> s != [] && (s[0] == '+' || s[0] == '-')
  {
    if s != [] && (s[0] == '+' || s[0] == '-') then s[1..] else s
  }

  /** The number that signed decimal text denotes. */
  function SignedValue(s: string): int
    requires AllDigits(Unsigned(s))
  {
    if s != [] && s[0] == '-' then -(DigitsValue(Unsigned(s)) as int) else DigitsValue(Unsigned(s))
  }

  /** Go's `strconv.ParseInt(s, 10, 64)`: an optional `+` or `-`, then at
      least one decimal digit (no underscores, no base prefix), and the
      value must lie in the int64 range. `None` is the error result. */
  function ParseInt(s: string): (r: Option<Int64>)
    ensures r.Some? <==>
      Unsigned(s) != [] && AllDigits(Unsigned(s)) && MinInt64 <= SignedValue(s) <= MaxInt64
    ensures r.Some? ==> r.value == SignedValue(s)
  {
    if s == [] then None
    else
      var negative := s[0] == '-';
      var digits := if s[0] == '+' || s[0] == '-' then s[1..] else s;
      if digits == [] || !AllDigits(digits) then None
      else
        var v: int := if negative then -(DigitsValue(digits) as int) else DigitsValue(digits);
        if MinInt64 <= v <= MaxInt64 then Some(v) else None
  }

  /** `ConvertStrToInt64`: the parsed value, or 0 when parsing fails. */
  function ConvertStrToInt64(s: string): (n: Int64)
    ensures ParseInt(s).Some? ==> n == ParseInt(s).value
    ensures ParseInt(s).None? ==> n == 0
  {
    match ParseInt(s)
    case Some(v) => v
    case None => 0
  }

  /** The canonical decimal digits of a natural number. */
  function NatToDigits(n: nat): (s: string)
    ensures Canonical(s)
    ensures DigitsValue(s) == n
  {
    if n < 10 then [DigitChar(n)]
    else
      var init := NatToDigits(n / 10);
      var s := init + [DigitChar(n % 10)];
      assert s[..|s| - 1] == init;
      s
  }

  /** `ConvertInt64ToStr` (Go's `strconv.FormatInt(n, 10)`): the canonical
      digits of |n|, preceded by `-` exactly when n is negative. */
  function ConvertInt64ToStr(n: Int64): (s: string)
    ensures |s| >= 1
    ensures s[0] == '-' <==> n < 0
    ensures var digits := if n < 0 then s[1..] else s;
      Canonical(digits) && DigitsValue(digits) == if n < 0 then -(n as int) else n
  {
    if n < 0 then
      var s := "-" + NatToDigits(-(n as int));
      assert s[1..] == NatToDigits(-(n as int));
      s
    else NatToDigits(n)
  }

  // ---------------------------------------------------------------------
  // Properties

  /** Parsing never fails outright: rejected text yields 0. */
  lemma RejectedTextYieldsZero(s: string)
    requires ParseInt(s) == None
    ensures ConvertStrToInt64(s) == 0
  {
  }

  /** Digits, optionally signed, denoting an int64 parse to that value;
      leading zeros are accepted. */
  lemma ValidTextYieldsValue(digits: string)
    requires digits != [] && AllDigits(digits)
    ensures DigitsValue(digits) <= MaxInt64 ==>
      ConvertStrToInt64(digits) == DigitsValue(digits) &&
      ConvertStrToInt64("+" + digits) == DigitsValue(digits)
    ensures DigitsValue(digits) <= -MinInt64 ==>
      ConvertStrToInt64("-" + digits) == -(DigitsValue(digits) as int)
  {
    assert ("+" + digits)[1..] == digits;
    assert ("-" + digits)[1..] == digits;
  }

  /** Digits denoting a number outside the int64 range are rejected. */
  lemma OutOfRangeYieldsZero(digits: string)
    requires digits != [] && AllDigits(digits)
    requires DigitsValue(digits) > MaxInt64
    ensures ConvertStrToInt64(digits) == 0
    ensures DigitsValue(digits) > -MinInt64 ==> ConvertStrToInt64("-" + digits) == 0
  {
    assert ("-" + digits)[1..] == digits;
  }

  /** Conversely, a non-zero result comes only from well-formed text: an
      optional sign, then a non-empty digit string denoting the result. */
  lemma NonZeroMeansSignedDigits(s: string)
    requires ConvertStrToInt64(s) != 0
    ensures Unsigned(s) != [] && AllDigits(Unsigned(s))
    ensures ConvertStrToInt64(s) == SignedValue(s)
  {
  }

  /** Formatting then parsing gives back every int64. */
  lemma RoundTrip(n: Int64)
    ensures ParseInt(ConvertInt64ToStr(n)) == Some(n)
    ensures ConvertStrToInt64(ConvertInt64ToStr(n)) == n
  {
  }

  /** A canonical digit string with a non-zero leading digit denotes a
      positive number. */
  lemma {:induction false} LeadingDigitPositive(s: string)
    requires Canonical(s) && s[0] != '0'
    ensures DigitsValue(s) >= 1
  {
    if |s| > 1 {
      var init := s[..|s| - 1];
      assert init[0] == s[0];
      LeadingDigitPositive(init);
    }
  }

  /** Canonical digits are exactly the digits the formatter produces for
      the number they denote. */
  lemma {:induction false} CanonicalDigitsUnique(s: string)
    requires Canonical(s)
    ensures NatToDigits(DigitsValue(s)) == s
  {
    var n := DigitsValue(s);
    if |s| == 1 {
      assert s == [DigitChar(DigitValue(s[0]))];
    } else {
      var init := s[..|s| - 1];
      var d := DigitValue(s[|s| - 1]);
      assert init[0] == s[0];
      LeadingDigitPositive(init);
      CanonicalDigitsUnique(init);
      var v := DigitsValue(init);
      assert n == v * 10 + d;
      assert n / 10 == v && n % 10 == d;
      assert DigitChar(d) == s[|s| - 1];
      assert s == init + [s[|s| - 1]];
    }
  }

  /** Parsing then formatting gives back every canonical decimal text: an
      optional `-` (not before a lone 0) and digits without leading
      zeros, denoting an int64. */
  lemma CanonicalTextRoundTrip(negative: bool, digits: string)
    requires Canonical(digits)
    requires negative ==> digits != "0" && DigitsValue(digits) <= -MinInt64
    requires !negative ==> DigitsValue(digits) <= MaxInt64
    ensures var s := if negative then "-" + digits else digits;
      ConvertInt64ToStr(ConvertStrToInt64(s)) == s
  {
    CanonicalDigitsUnique(digits);
    ValidTextYieldsValue(digits);
    if negative {
      assert digits[0] != '0';
      LeadingDigitPositive(digits);
    }
  }

  /** Malformed text, and a sign alone, give 0. */
  lemma RejectedExamples()
    ensures ConvertStrToInt64("") == 0
    ensures ConvertStrToInt64("-") == 0
    ensures ConvertStrToInt64("12a") == 0
  {
    assert Unsigned("-") == [];
    assert !IsDigit("12a"[2]);
  }

  /** A plus sign and leading zeros are accepted. */
  lemma PlusSignExample()
    ensures ConvertStrToInt64("+007") == 7
  {
    var d := "007";
    assert DigitsValue(d) == 7 by {
      assert d[..2] == "00" && "00"[..1] == "0" && "0"[..0] == [];
    }
    ValidTextYieldsValue(d);
    assert "+" + d == "+007";
  }

  /** A minus sign gives the negative value. */
  lemma MinusSignExample()
    ensures ConvertStrToInt64("-15") == -15
  {
    var d := "15";
    assert DigitsValue(d) == 15 by {
      assert d[..1] == "1" && "1"[..0] == [];
    }
    ValidTextYieldsValue(d);
    assert "-" + d == "-15";
  }

  /** Formatting of a negative number and of zero. */
  lemma FormatExamples()
    ensures ConvertInt64ToStr(-15) == "-15"
    ensures ConvertInt64ToStr(0) == "0"
  {
  }
}
