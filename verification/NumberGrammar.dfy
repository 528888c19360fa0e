/** Number literals are read by the grammar of section 6 of RFC 8259, and mean what they say. */
module NumberGrammar {
  import opened Common
  import opened NumberText
  import Numbers

  predicate AllDigits(s: string) {
    s != [] && forall i :: 0 <= i < |s| ==> IsDigit(s[i])
  }

  predicate IsInt(s: string) {
    AllDigits(s) && (s[0] == '0' ==> |s| == 1)
  }

  predicate IsFrac(s: string) {
    s == "" || (s[0] == '.' && AllDigits(s[1..]))
  }

  predicate IsExp(s: string) {
    s == "" ||
    ((s[0] == 'e' || s[0] == 'E') && (AllDigits(s[1..]) || (|s| > 1 && (s[1] == '+' || s[1] == '-') && AllDigits(s[2..]))))
  }

  /** minus? int frac? exp?, the optional parts being empty when left out. */
  ghost predicate IsLiteral(s: string, minus: bool, whole: string, frac: string, exp: string) {
    && s == (if minus then "-" else "") + whole + frac + exp
    && IsInt(whole) && IsFrac(frac) && IsExp(exp)
  }

  function FracValue(frac: string): real
    requires IsFrac(frac)
  {
    if frac == "" then 0.0 else Numbers.Unshift10(DigitsValue(frac[1..]) as real, |frac| - 1)
  }

  /** The digits in base ten, shifted by the exponent, with its sign. */
  function ValueOf(minus: bool, whole: string, frac: string, exp: string): real
    requires IsInt(whole) && IsFrac(frac) && IsExp(exp)
  {
    var x := DigitsValue(whole) as real + FracValue(frac);
    var y :=
      if exp == "" then x
      else if exp[1] == '-' then Numbers.Unshift10(x, DigitsValue(exp[2..]))
      else if exp[1] == '+' then Numbers.Shift10(x, DigitsValue(exp[2..]))
      else Numbers.Shift10(x, DigitsValue(exp[1..]));
    if minus then -y else y
  }

  lemma {:induction false} RunStops(digits: string, rest: string)
    requires forall i :: 0 <= i < |digits| ==> IsDigit(digits[i])
    requires rest == [] || !IsDigit(rest[0])
    ensures DigitRun(digits + rest) == |digits|
    decreases |digits|
  {
    if digits == [] {
      assert digits + rest == rest;
    } else {
      assert (digits + rest)[1..] == digits[1..] + rest;
      RunStops(digits[1..], rest);
    }
  }

  lemma ExponentReads(x: real, exp: string)
    requires IsExp(exp)
    ensures ParseExponent(x, exp) == Some(
      if exp == "" then x
      else if exp[1] == '-' then Numbers.Unshift10(x, DigitsValue(exp[2..]))
      else if exp[1] == '+' then Numbers.Shift10(x, DigitsValue(exp[2..]))
      else Numbers.Shift10(x, DigitsValue(exp[1..])))
  {
    if exp != "" {
      var signed := |exp| > 1 && (exp[1] == '+' || exp[1] == '-');
      var digits := if signed then exp[2..] else exp[1..];
      assert AllDigits(digits);
      assert digits + [] == digits;
      RunStops(digits, []);
    }
  }

  lemma FractionReads(whole: real, frac: string, exp: string)
    requires IsFrac(frac) && IsExp(exp)
    ensures ParseFraction(whole, frac + exp) == ParseExponent(whole + FracValue(frac), exp)
  {
    if frac == "" {
      assert frac + exp == exp;
      NoFractionReads(whole, exp);
    } else {
      FractionSplits(frac, exp);
      SplitReads(whole, frac, exp, frac + exp);
    }
  }

  lemma SplitReads(whole: real, frac: string, exp: string, s: string)
    requires IsFrac(frac) && frac != "" && s != [] && s[0] == '.' && DigitRun(s[1..]) == |frac| - 1 > 0
    requires s[1..][..|frac| - 1] == frac[1..] && s[1..][|frac| - 1..] == exp
    ensures ParseFraction(whole, s) == ParseExponent(whole + FracValue(frac), exp)
  {
    hide ParseExponent, DigitsValue, Numbers.Unshift10, DigitRun, IsFrac;
  }

  lemma NoFractionReads(whole: real, exp: string)
    requires IsExp(exp)
    ensures ParseFraction(whole, exp) == ParseExponent(whole + 0.0, exp)
  {
    hide ParseExponent;
    assert whole + 0.0 == whole;
  }

  lemma FractionSplits(frac: string, exp: string)
    requires IsFrac(frac) && frac != "" && IsExp(exp)
    ensures
      var s := frac + exp;
      && s[0] == '.' && DigitRun(s[1..]) == |frac| - 1 > 0
      && s[1..][..|frac| - 1] == frac[1..] && s[1..][|frac| - 1..] == exp
  {
    var s := frac + exp;
    assert s[1..] == frac[1..] + exp;
    RunStops(frac[1..], exp);
  }

  lemma UnsignedReads(whole: string, frac: string, exp: string)
    requires IsInt(whole) && IsFrac(frac) && IsExp(exp)
    ensures ParseUnsigned(whole + frac + exp) == Some(ValueOf(false, whole, frac, exp))
  {
    hide ParseExponent, ParseFraction, DigitsValue, FracValue;
    var rest := frac + exp;
    var s := whole + frac + exp;
    assert s == whole + rest;
    RunStops(whole, rest);
    assert s[..|whole|] == whole && s[|whole|..] == rest;
    FractionReads(DigitsValue(whole) as real, frac, exp);
    ExponentReads(DigitsValue(whole) as real + FracValue(frac), exp);
  }

  /** A literal reads as the number it says. */
  lemma LiteralReads(s: string, minus: bool, whole: string, frac: string, exp: string)
    requires IsLiteral(s, minus, whole, frac, exp)
    ensures Parse(s) == Some(ValueOf(minus, whole, frac, exp))
  {
    hide ParseUnsigned, DigitsValue;
    UnsignedReads(whole, frac, exp);
    var unsigned := whole + frac + exp;
    if minus {
      assert s == ['-'] + unsigned;
    } else {
      assert s == unsigned;
      assert IsDigit(s[0]);
    }
  }

  lemma ExponentIsRead(x: real, s: string)
    requires ParseExponent(x, s).Some?
    ensures IsExp(s)
  {
    if s != [] {
      var signed := |s| > 1 && (s[1] == '+' || s[1] == '-');
      var digits := if signed then s[2..] else s[1..];
      assert AllDigits(digits);
    }
  }

  lemma FractionIsRead(whole: real, s: string) returns (frac: string, exp: string)
    requires ParseFraction(whole, s).Some?
    ensures s == frac + exp && IsFrac(frac) && IsExp(exp)
  {
    hide ParseExponent, DigitsValue, Numbers.Unshift10, IsExp;
    if s == [] || s[0] != '.' {
      ExponentIsRead(whole, s);
      frac, exp := "", s;
    } else {
      var n := DigitRun(s[1..]);
      ExponentIsRead(whole + Numbers.Unshift10(DigitsValue(s[1..][..n]) as real, n), s[1..][n..]);
      frac, exp := s[..n + 1], s[1..][n..];
      CutAt(s, n);
    }
  }

  lemma CutAt(s: string, n: nat)
    requires s != [] && s[0] == '.' && n == DigitRun(s[1..]) > 0
    ensures s == s[..n + 1] + s[1..][n..] && IsFrac(s[..n + 1])
  {
    assert s[..n + 1][1..] == s[1..][..n];
  }

  lemma UnsignedIsRead(s: string) returns (whole: string, frac: string, exp: string)
    requires ParseUnsigned(s).Some?
    ensures s == whole + frac + exp && IsInt(whole) && IsFrac(frac) && IsExp(exp)
  {
    hide ParseFraction, DigitsValue, IsFrac, IsExp;
    var n := DigitRun(s);
    whole := s[..n];
    assert IsInt(whole);
    frac, exp := FractionIsRead(DigitsValue(whole) as real, s[n..]);
    Rejoined(s, n, frac, exp);
  }

  lemma Rejoined(s: string, n: nat, frac: string, exp: string)
    requires n <= |s| && s[n..] == frac + exp
    ensures s == s[..n] + frac + exp
  {
    assert s == s[..n] + s[n..];
  }

  ghost predicate IsSpelled(s: string) {
    exists minus, whole, frac, exp :: IsLiteral(s, minus, whole, frac, exp)
  }

  /** And nothing else is read as a number. */
  lemma OnlyLiteralsRead(s: string)
    ensures Parse(s).Some? <==> IsSpelled(s)
  {
    hide Parse, IsLiteral;
    if Parse(s).Some? {
      SpelledOut(s);
    } else if IsSpelled(s) {
      var minus, whole, frac, exp :| IsLiteral(s, minus, whole, frac, exp);
      LiteralReads(s, minus, whole, frac, exp);
    }
  }

  lemma SpelledOut(s: string)
    requires Parse(s).Some?
    ensures IsSpelled(s)
  {
    hide ParseUnsigned, IsInt, IsFrac, IsExp;
    if s != [] && s[0] == '-' {
      var whole, frac, exp := UnsignedIsRead(s[1..]);
      assert s == "-" + whole + frac + exp;
      assert IsLiteral(s, true, whole, frac, exp);
    } else {
      var whole, frac, exp := UnsignedIsRead(s);
      assert s == "" + whole + frac + exp;
      assert IsLiteral(s, false, whole, frac, exp);
    }
  }
}
