/**
 * Java's 32-bit `int` and its decimal text: `Integer.toString(int)` and
 * `Integer.parseInt(String)` (the parser behind `new Integer(String)`).
 * Only the ASCII digits '0'..'9' are modelled as digits.
 */
module JavaInt {
  import opened Wrappers

  const INT_MIN: int := -0x8000_0000
  const INT_MAX: int := 0x7FFF_FFFF

  /** The values of a Java `int` (and of a non-null `Integer`). */
  type Int32 = x: int | INT_MIN <= x <= INT_MAX

  /** `NumberFormatException`, with the text that could not be parsed. */
  datatype NumberFormatError = NumberFormatError(input: string)

  predicate IsDigit(c: char) { '0' <= c <= '9' }

  predicate IsSign(c: char) { c == '-' || c == '+' }

  predicate AllDigits(s: string) { forall i :: 0 <= i < |s| ==> IsDigit(s[i]) }

  function DigitValue(c: char): (d: nat)
    requires IsDigit(c)
    ensures d < 10
  {
    c as int - '0' as int
  }

  function DigitChar(d: nat): (c: char)
    requires d < 10
    ensures IsDigit(c) && DigitValue(c) == d
  {
    ('0' as int + d) as char
  }

  /** The number a non-empty or empty string of decimal digits denotes, most significant digit first. */
  function DigitsValue(s: string): nat
    requires AllDigits(s)
    decreases |s|
  {
    if s == [] then 0 else DigitsValue(s[..|s| - 1]) * 10 + DigitValue(s[|s| - 1])
  }

  /** The decimal digits of `n`, with no leading zero. */
  function NaturalText(n: nat): (s: string)
    ensures s != [] && AllDigits(s)
    ensures s[0] == '0' <==> n == 0
    ensures n == 0 ==> s == "0"
    decreases n
  {
    if n < 10 then [DigitChar(n)] else NaturalText(n / 10) + [DigitChar(n % 10)]
  }

  /**
   * The canonical decimal form of an integer: an optional '-', then digits
   * without a leading zero, and never "-0".
   */
  predicate IsCanonical(s: string) {
    var digits := if s != [] && s[0] == '-' then s[1..] else s;
    && digits != []
    && AllDigits(digits)
    && (digits[0] == '0' ==> |digits| == 1)
    && !(s[0] == '-' && digits == "0")
  }

  /** `Integer.toString(n)`: the digits of |n|, preceded by '-' when n is negative. */
  function ToString(n: Int32): (s: string)
    ensures IsCanonical(s)
    ensures s[0] == '-' <==> n < 0
  {
    if n < 0 then "-" + NaturalText(-(n as int)) else NaturalText(n)
  }

  /**
   * `Integer.parseInt(s, 10)`: an optional sign, then one or more digits
   * (leading zeros allowed); the denoted number must fit in an `int`.
   * Anything else throws `NumberFormatException`.
   */
  function Parse(s: string): (r: Result<Int32, NumberFormatError>)
    ensures s == [] ==> r.Failure?
    ensures (exists i :: 0 < i < |s| && !IsDigit(s[i])) ==> r.Failure?
    ensures s != [] && !IsDigit(s[0]) && !IsSign(s[0]) ==> r.Failure?
    ensures |s| == 1 && IsSign(s[0]) ==> r.Failure?
    ensures r.Success? && r.value < 0 ==> s[0] == '-'
    ensures r.Failure? ==> r.error == NumberFormatError(s)
  {
    if s == [] then Failure(NumberFormatError(s))
    else
      var digits := if IsSign(s[0]) then s[1..] else s;
      if digits == [] || !AllDigits(digits) then Failure(NumberFormatError(s))
      else
        var magnitude: int := DigitsValue(digits);
        var value: int := if s[0] == '-' then -magnitude else magnitude;
        if INT_MIN <= value <= INT_MAX then Success(value) else Failure(NumberFormatError(s))
  }

  /** Reading back the digits of `n` gives `n`. */
  lemma {:induction false} DigitsValueOfNaturalText(n: nat)
    ensures DigitsValue(NaturalText(n)) == n
    decreases n
  {
    var s := NaturalText(n);
    if n < 10 {
      assert s[..|s| - 1] == [];
    } else {
      DigitsValueOfNaturalText(n / 10);
      assert s[..|s| - 1] == NaturalText(n / 10);
    }
  }

  /** Printing the value of a digit string without a leading zero gives that string back. */
  lemma {:induction false} NaturalTextOfDigitsValue(s: string)
    requires s != [] && AllDigits(s)
    requires s[0] == '0' ==> |s| == 1
    ensures NaturalText(DigitsValue(s)) == s
    decreases |s|
  {
    var last := s[|s| - 1];
    var prefix := s[..|s| - 1];
    if |s| == 1 {
      assert prefix == [];
      assert DigitChar(DigitValue(last)) == last;
    } else {
      assert prefix[0] == s[0];
      NaturalTextOfDigitsValue(prefix);
      assert DigitsValue(prefix) != 0;
      var v := DigitsValue(s);
      assert v / 10 == DigitsValue(prefix) && v % 10 == DigitValue(last);
      assert DigitChar(DigitValue(last)) == last;
      assert s == prefix + [last];
    }
  }

  /** Round trip: `Integer.parseInt(Integer.toString(n)) == n` for every `int` n. */
  lemma {:induction false} ParseToString(n: Int32)
    ensures Parse(ToString(n)) == Success(n)
  {
    var s := ToString(n);
    if n < 0 {
      var m: nat := -(n as int);
      DigitsValueOfNaturalText(m);
      assert s == "-" + NaturalText(m);
      assert s[1..] == NaturalText(m);
      assert IsSign(s[0]);
    } else {
      DigitsValueOfNaturalText(n);
      assert s == NaturalText(n);
      assert IsDigit(s[0]) && !IsSign(s[0]);
    }
  }

  /** The other direction: a canonical numeral that parses is exactly the printed form of its value. */
  lemma ToStringOfParse(s: string)
    requires IsCanonical(s) && Parse(s).Success?
    ensures ToString(Parse(s).value) == s
  {
    if s[0] == '-' {
      ToStringOfParseNegative(s);
    } else {
      ToStringOfParseNonNegative(s);
    }
  }

  lemma ToStringOfParseNegative(s: string)
    requires IsCanonical(s) && s[0] == '-' && Parse(s).Success?
    ensures ToString(Parse(s).value) == s
  {
    var magnitude := NegativeCanonicalMagnitude(s);
    ParseNegativeValue(s);
    var n := Parse(s).value;
    assert n < 0 && -(n as int) == magnitude;
    assert ToString(n) == "-" + NaturalText(magnitude);
    assert "-" + s[1..] == s;
  }

  /** A '-' followed by digits that parses denotes minus the value of those digits. */
  lemma ParseNegativeValue(s: string)
    requires s != [] && s[0] == '-' && Parse(s).Success?
    ensures Parse(s).value == -(DigitsValue(s[1..]) as int)
  {
    assert IsSign(s[0]);
  }

  /** The digits after the '-' of a canonical negative numeral print back as themselves and denote a positive number. */
  lemma NegativeCanonicalMagnitude(s: string) returns (magnitude: nat)
    requires IsCanonical(s) && s[0] == '-'
    ensures AllDigits(s[1..]) && magnitude == DigitsValue(s[1..])
    ensures magnitude > 0 && NaturalText(magnitude) == s[1..]
  {
    var digits := s[1..];
    NaturalTextOfDigitsValue(digits);
    magnitude := DigitsValue(digits);
  }

  lemma ToStringOfParseNonNegative(s: string)
    requires IsCanonical(s) && s[0] != '-' && Parse(s).Success?
    ensures ToString(Parse(s).value) == s
  {
    assert IsDigit(s[0]) && !IsSign(s[0]);
    NaturalTextOfDigitsValue(s);
    assert Parse(s).value == DigitsValue(s);
  }

  /** Text that is not a numeral, such as "abc", throws instead of defaulting to zero. */
  lemma NonNumeralFails()
    ensures Parse("abc") == Failure(NumberFormatError("abc"))
    ensures Parse("") == Failure(NumberFormatError(""))
    ensures Parse("-") == Failure(NumberFormatError("-"))
  {
  }
  /** A sign alone throws. */
  lemma LoneSignFails()
    ensures Parse("+").Failure? && Parse("-").Failure?
  {
  }

  /** Leading zeros are accepted. */
  lemma LeadingZerosAccepted()
    ensures Parse("007") == Success(7)
  {
    assert "007"[..2] == "00" && "00"[..1] == "0" && "0"[..0] == [];
  }

  /** A '+' is accepted. */
  lemma PlusAccepted()
    ensures Parse("+5") == Success(5)
  {
    assert "+5"[1..] == "5" && "5"[..0] == [];
  }

  /** "-0" is zero. */
  lemma MinusZeroAccepted()
    ensures Parse("-0") == Success(0)
  {
    assert "-0"[1..] == "0" && "0"[..0] == [];
  }

  /** The digits of 2^31. */
  lemma TwoToThe31Text()
    ensures NaturalText(2147483648) == "2147483648"
  {
    assert NaturalText(21) == "21";
    assert NaturalText(214) == "214";
    assert NaturalText(2147) == "2147";
    assert NaturalText(21474) == "21474";
    assert NaturalText(214748) == "214748";
    assert NaturalText(2147483) == "2147483";
    assert NaturalText(21474836) == "21474836";
    assert NaturalText(214748364) == "214748364";
  }

  /** The digit string of 2^31 is all digits and denotes 2^31. */
  lemma TwoToThe31Digits()
    ensures AllDigits("2147483648") && DigitsValue("2147483648") == 2147483648
  {
    TwoToThe31Text();
    DigitsValueOfNaturalText(2147483648);
  }

  /** One past the largest `int` throws. */
  lemma OnePastMaxFails()
    ensures Parse("2147483648").Failure?
  {
    TwoToThe31Digits();
  }

  /** One past the largest `int` throws with a '+' too. */
  lemma SignedOnePastMaxFails()
    ensures Parse("+2147483648").Failure?
  {
    TwoToThe31Digits();
    assert "+2147483648"[1..] == "2147483648";
  }

  /** The smallest `int` parses. */
  lemma MinParses()
    ensures Parse("-2147483648") == Success(INT_MIN)
  {
    TwoToThe31Digits();
    assert "-2147483648"[1..] == "2147483648";
  }

  function Abs(n: int): nat { if n < 0 then -n else n }

  /** The length of the sign `parseInt` accepts in front of the digits: 1 for '-' or '+', else 0. */
  function SignLength(s: string): (k: nat)
    ensures k <= |s|
    ensures k == 1 <==> s != [] && IsSign(s[0])
  {
    if s != [] && IsSign(s[0]) then 1 else 0
  }

  /** A digit string with its leading zeros dropped, keeping at least one digit. */
  function Significant(digits: string): (r: string)
    requires digits != [] && AllDigits(digits)
    ensures r != [] && AllDigits(r)
    ensures r[0] == '0' ==> |r| == 1
    decreases |digits|
  {
    if |digits| > 1 && digits[0] == '0' then Significant(digits[1..]) else digits
  }

  /** `Significant` keeps a suffix of the digits and drops only '0's. */
  lemma {:induction false} SignificantDropsZeros(digits: string)
    requires digits != [] && AllDigits(digits)
    ensures var r := Significant(digits);
            && |r| <= |digits| && r == digits[|digits| - |r|..]
            && forall i :: 0 <= i < |digits| - |r| ==> digits[i] == '0'
    decreases |digits|
  {
    if |digits| > 1 && digits[0] == '0' {
      SignificantDropsZeros(digits[1..]);
    }
  }

  /**
   * `s` is a numeral for `n` in the sense of `parseInt`: an optional sign,
   * then the digits that `Integer.toString` prints for |n|, with any number of
   * '0's in front; a '-' exactly for a negative n, or in front of zero.
   */
  predicate NumeralOf(s: string, n: int) {
    var digits := s[SignLength(s)..];
    && digits != []
    && AllDigits(digits)
    && Significant(digits) == NaturalText(Abs(n))
    && (n < 0 ==> s[0] == '-')
    && (n > 0 ==> s[0] != '-')
  }

  /** A leading zero does not change the value of a digit string. */
  lemma {:induction false} DigitsValueLeadingZero(tail: string)
    requires AllDigits(tail)
    ensures AllDigits("0" + tail) && DigitsValue("0" + tail) == DigitsValue(tail)
    decreases |tail|
  {
    var s := "0" + tail;
    if tail == [] {
      assert s[..|s| - 1] == [];
    } else {
      var prefix := tail[..|tail| - 1];
      DigitsValueLeadingZero(prefix);
      assert s[..|s| - 1] == "0" + prefix;
      assert s[|s| - 1] == tail[|tail| - 1];
    }
  }

  /** Dropping the leading zeros keeps the value. */
  lemma {:induction false} DigitsValueOfSignificant(digits: string)
    requires digits != [] && AllDigits(digits)
    ensures DigitsValue(Significant(digits)) == DigitsValue(digits)
    decreases |digits|
  {
    if |digits| > 1 && digits[0] == '0' {
      var rest := digits[1..];
      assert Significant(digits) == Significant(rest);
      DigitsValueOfSignificant(rest);
      DigitsValueLeadingZero(rest);
      assert digits == "0" + rest;
    }
  }

  /** Whatever `parseInt` accepts is a numeral for the value it returns. */
  lemma {:induction false} ParseSound(s: string, n: Int32)
    requires Parse(s) == Success(n)
    ensures NumeralOf(s, n)
  {
    var digits := s[SignLength(s)..];
    assert digits == if IsSign(s[0]) then s[1..] else s;
    var magnitude: int := DigitsValue(digits);
    assert n == if s[0] == '-' then -magnitude else magnitude;
    assert Abs(n) == magnitude;
    DigitsValueOfSignificant(digits);
    NaturalTextOfDigitsValue(Significant(digits));
  }

  /** Every numeral for an `int` value is accepted, with that value. */
  lemma {:induction false} ParseComplete(s: string, n: Int32)
    requires NumeralOf(s, n)
    ensures Parse(s) == Success(n)
  {
    var digits := s[SignLength(s)..];
    assert digits == if IsSign(s[0]) then s[1..] else s;
    NumeralMagnitude(s, n);
    var magnitude: int := DigitsValue(digits);
    assert n == if s[0] == '-' then -magnitude else magnitude;
  }

  /** The digits of a numeral for `n` denote |n|. */
  lemma NumeralMagnitude(s: string, n: Int32)
    requires NumeralOf(s, n)
    ensures DigitsValue(s[SignLength(s)..]) == Abs(n)
  {
    var digits := s[SignLength(s)..];
    DigitsValueOfSignificant(digits);
    DigitsValueOfNaturalText(Abs(n));
  }

  /**
   * `parseInt` characterised on every input: it returns `n` exactly when the
   * text is a numeral for `n`. Since `n` ranges over `int`, a numeral whose
   * value lies outside the `int` range is never accepted.
   */
  lemma ParseNumeralOf(s: string, n: Int32)
    ensures Parse(s) == Success(n) <==> NumeralOf(s, n)
  {
    if Parse(s) == Success(n) { ParseSound(s, n); }
    if NumeralOf(s, n) { ParseComplete(s, n); }
  }

  /** Digits after an optional sign whose signed value lies outside the `int` range throw. */
  lemma ParseOutOfRange(s: string)
    requires SignLength(s) < |s| && AllDigits(s[SignLength(s)..])
    requires var v: int := DigitsValue(s[SignLength(s)..]);
             var signed := if s[0] == '-' then -v else v;
             signed < INT_MIN || INT_MAX < signed
    ensures Parse(s).Failure?
  {
    var digits := s[SignLength(s)..];
    assert digits == if IsSign(s[0]) then s[1..] else s;
  }
}
