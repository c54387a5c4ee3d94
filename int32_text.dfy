/** The decimal text form of a 32-bit signed integer: the parsing that
    `int.Parse` and `int.TryParse` perform and the rendering that
    `int.ToString` performs, restricted to an optional sign and ASCII digits. */
module Int32Text {
  import opened Wrappers
  import opened Exceptions

  const MinInt32: int := -0x8000_0000
  const MaxInt32: int := 0x7FFF_FFFF

  predicate InInt32(n: int) {
    MinInt32 <= n <= MaxInt32
  }

  /** C#'s `int`. */
  type Int32 = n: int | InInt32(n)

  predicate IsDigit(c: char) {
    '0' <= c <= '9'
  }

  predicate IsSign(c: char) {
    c == '-' || c == '+'
  }

  predicate AllDigits(s: string) {
    forall i :: 0 <= i < |s| ==> IsDigit(s[i])
  }

  function DigitValue(c: char): (d: nat)
    requires IsDigit(c)
    ensures d < 10
  {
    c as int - '0' as int
  }

  function DigitChar(d: nat): (c: char)
    requires d < 10
    ensures IsDigit(c) && DigitValue(c) == d
  {
    ('0' as int + d) as char
  }

  /** The value of a string of decimal digits, most significant first. */
  function DigitsValue(s: string): nat
    requires AllDigits(s)
  {
    if |s| == 0 then 0 else DigitsValue(s[..|s| - 1]) * 10 + DigitValue(s[|s| - 1])
  }

  /** The shortest decimal digit string of `n` (no leading zeros). */
  function NatDigits(n: nat): (s: string)
    ensures |s| > 0 && AllDigits(s)
    ensures |s| > 1 ==> s[0] != '0'
  {
    if n < 10 then [DigitChar(n)] else NatDigits(n / 10) + [DigitChar(n % 10)]
  }

  /** `int.ToString()`: a minus sign for negative values, then the digits,
      with no leading zero. */
  function FormatInt32(n: int): (s: string)
    ensures |s| > 0
    ensures n >= 0 <==> IsDigit(s[0])
    ensures var d := if n < 0 then s[1..] else s;
      |d| > 0 && AllDigits(d) && (|d| > 1 ==> d[0] != '0')
  {
    if n < 0 then "-" + NatDigits(-n) else NatDigits(n)
  }

  /** `int.Parse(s)` for a non-null string: an optional sign followed by at
      least one digit is accepted when its value fits in 32 bits; any other
      text raises FormatException and an out-of-range value raises
      OverflowException. */
  function ParseInt32(s: string): (r: Result<int, Exception>)
    ensures r.Success? ==> InInt32(r.value)
    ensures r.Failure? ==> r.error == Format || r.error == Overflow
    ensures |s| == 0 || (|s| == 1 && IsSign(s[0])) ==> r == Failure(Format)
  {
    if |s| == 0 then Failure(Format)
    else
      var negative := s[0] == '-';
      var digits := if IsSign(s[0]) then s[1..] else s;
      if |digits| == 0 || !AllDigits(digits) then Failure(Format)
      else
        var magnitude: int := DigitsValue(digits);
        var n := if negative then -magnitude else magnitude;
        if InInt32(n) then Success(n) else Failure(Overflow)
  }

  lemma {:induction false} DigitsValueOfNatDigits(n: nat)
    ensures DigitsValue(NatDigits(n)) == n
  {
    if n >= 10 {
      var s := NatDigits(n);
      assert s[..|s| - 1] == NatDigits(n / 10);
      DigitsValueOfNatDigits(n / 10);
    }
  }

  /** Rendering an integer and parsing it back gives the integer again. */
  lemma ParseFormatRoundTrip(n: int)
    requires InInt32(n)
    ensures ParseInt32(FormatInt32(n)) == Success(n)
  {
    if n < 0 {
      ParseLiteral("-", "", n);
      assert "-" + "" + NatDigits(Abs(n)) == FormatInt32(n);
    } else {
      ParseLiteral("", "", n);
      assert "" + "" + NatDigits(Abs(n)) == FormatInt32(n);
    }
  }

  /** Any character that is neither a digit nor a leading sign makes the
      text unparsable, whatever else it contains. */
  lemma NonDigitIsFormatError(s: string, i: nat)
    requires i < |s| && !IsDigit(s[i])
    requires i == 0 ==> !IsSign(s[0])
    ensures ParseInt32(s) == Failure(Format)
  {
    if i > 0 && IsSign(s[0]) {
      assert s[1..][i - 1] == s[i];
    }
  }

  predicate AllZeros(s: string) {
    forall i :: 0 <= i < |s| ==> s[i] == '0'
  }

  function Abs(n: int): nat {
    if n < 0 then -n else n
  }

  /** The shape of an integer literal for `n`: a sign ("" or "+" when `n`
      is not negative, "-" when it is not positive), any number of leading
      zeros, then the digits of `n` without leading zeros. */
  predicate IsLiteral(sign: string, zeros: string, n: int) {
    && (((sign == "" || sign == "+") && n >= 0) || (sign == "-" && n <= 0))
    && AllZeros(zeros)
  }

  /** Leading zeros do not change the value of a digit string. */
  lemma {:induction false} LeadingZerosValue(zeros: string, t: string)
    requires AllZeros(zeros) && AllDigits(t)
    ensures AllDigits(zeros + t) && DigitsValue(zeros + t) == DigitsValue(t)
  {
    if |t| == 0 {
      assert zeros + t == zeros;
      ZerosValue(zeros);
    } else {
      var last := |t| - 1;
      assert (zeros + t)[..|zeros + t| - 1] == zeros + t[..last];
      LeadingZerosValue(zeros, t[..last]);
    }
  }

  lemma {:induction false} ZerosValue(zeros: string)
    requires AllZeros(zeros)
    ensures AllDigits(zeros) && DigitsValue(zeros) == 0
  {
    if |zeros| > 0 {
      ZerosValue(zeros[..|zeros| - 1]);
    }
  }

  /** A digit string that does not start with '0' has a positive value. */
  lemma {:induction false} NonZeroLeadValue(d: string)
    requires |d| > 0 && AllDigits(d) && d[0] != '0'
    ensures DigitsValue(d) > 0
  {
    if |d| > 1 {
      NonZeroLeadValue(d[..|d| - 1]);
    }
  }

  /** A digit string without leading zeros is the rendering of its value. */
  lemma {:induction false} CanonicalDigits(d: string)
    requires |d| > 0 && AllDigits(d) && (|d| == 1 || d[0] != '0')
    ensures NatDigits(DigitsValue(d)) == d
  {
    if |d| > 1 {
      var init := d[..|d| - 1];
      CanonicalDigits(init);
      NonZeroLeadValue(init);
      var v := DigitsValue(d);
      assert v / 10 == DigitsValue(init) && v % 10 == DigitValue(d[|d| - 1]);
      assert d == init + [d[|d| - 1]];
    }
  }

  /** Every non-empty digit string is some leading zeros followed by the
      rendering of its value. */
  lemma {:induction false} SplitLeadingZeros(d: string) returns (zeros: string)
    requires |d| > 0 && AllDigits(d)
    ensures AllZeros(zeros) && d == zeros + NatDigits(DigitsValue(d))
  {
    if |d| == 1 || d[0] != '0' {
      CanonicalDigits(d);
      zeros := "";
      assert d == zeros + d;
    } else {
      var rest := SplitLeadingZeros(d[1..]);
      LeadingZerosValue("0", d[1..]);
      assert d == "0" + d[1..];
      zeros := "0" + rest;
      assert d == zeros + NatDigits(DigitsValue(d[1..]));
    }
  }

  /** Every literal parses: to its value when that fits in 32 bits, and to
      OverflowException otherwise. Signs and leading zeros are accepted,
      so "+7" and "007" give 7 and "-0" gives 0. */
  lemma ParseLiteral(sign: string, zeros: string, n: int)
    requires IsLiteral(sign, zeros, n)
    ensures ParseInt32(sign + zeros + NatDigits(Abs(n)))
            == if InInt32(n) then Success(n) else Failure(Overflow)
  {
    var text := sign + zeros + NatDigits(Abs(n));
    var digits := zeros + NatDigits(Abs(n));
    LeadingZerosValue(zeros, NatDigits(Abs(n)));
    DigitsValueOfNatDigits(Abs(n));
    if sign == "" {
      assert text == digits;
      assert IsDigit(text[0]);
    } else {
      assert text == sign + digits && text[1..] == digits;
    }
  }

  /** A text that is not a format error is a sign ("" , "+" or "-")
      followed by a non-empty run of digits. */
  lemma SignAndDigits(s: string) returns (sign: string, digits: string)
    requires ParseInt32(s) != Failure(Format)
    ensures sign == "" || sign == "+" || sign == "-"
    ensures s == sign + digits && |digits| > 0 && AllDigits(digits)
  {
    if IsSign(s[0]) {
      sign, digits := s[..1], s[1..];
    } else {
      sign, digits := "", s;
    }
  }

  /** Conversely, every text that is not a format error is a literal. */
  lemma {:induction false} ParseAcceptsOnlyLiterals(s: string)
    requires ParseInt32(s) != Failure(Format)
    ensures exists sign, zeros, n ::
      && IsLiteral(sign, zeros, n)
      && s == sign + zeros + NatDigits(Abs(n))
      && ParseInt32(s) == if InInt32(n) then Success(n) else Failure(Overflow)
  {
    var sign, digits := SignAndDigits(s);
    var v: int := DigitsValue(digits);
    var n := if sign == "-" then -v else v;
    var zeros := SplitLeadingZeros(digits);
    assert Abs(n) == v && IsLiteral(sign, zeros, n);
    assert s == sign + zeros + NatDigits(Abs(n));
    LiteralWitness(s, sign, zeros, n);
  }

  lemma LiteralWitness(s: string, sign: string, zeros: string, n: int)
    requires IsLiteral(sign, zeros, n) && s == sign + zeros + NatDigits(Abs(n))
    ensures exists sign, zeros, n ::
      && IsLiteral(sign, zeros, n)
      && s == sign + zeros + NatDigits(Abs(n))
      && ParseInt32(s) == if InInt32(n) then Success(n) else Failure(Overflow)
  {
    ParseLiteral(sign, zeros, n);
  }

  /** An integer outside the 32-bit range, written out, overflows rather
      than being rejected as malformed. */
  lemma FormatOutOfRangeOverflows(n: int)
    requires !InInt32(n)
    ensures ParseInt32(FormatInt32(n)) == Failure(Overflow)
  {
    if n < 0 {
      ParseLiteral("-", "", n);
      assert "-" + "" + NatDigits(Abs(n)) == FormatInt32(n);
    } else {
      ParseLiteral("", "", n);
      assert "" + "" + NatDigits(Abs(n)) == FormatInt32(n);
    }
  }
}
