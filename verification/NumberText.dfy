/** Number literals: the grammar of section 6 of RFC 8259, and the real a literal denotes. */
module NumberText {
  import opened Common
  import Numbers

  predicate IsDigit(c: char) {
    '0' <= c <= '9'
  }

  /** How many leading characters are digits. */
  function DigitRun(s: string): (n: nat)
    ensures n <= |s|
    ensures forall i :: 0 <= i < n ==> IsDigit(s[i])
    ensures n < |s| ==> !IsDigit(s[n])
  {
    if s != [] && IsDigit(s[0]) then 1 + DigitRun(s[1..]) else 0
  }

  function DigitsValue(s: string): (n: nat)
    requires forall i :: 0 <= i < |s| ==> IsDigit(s[i])
  {
    if s == [] then 0
    else
      assert IsDigit(s[|s| - 1]);
      DigitsValue(s[..|s| - 1]) * 10 + (s[|s| - 1] - '0') as nat
  }

  /** minus? int frac? exp? */
  function Parse(s: string): (r: Option<real>) {
    if s != [] && s[0] == '-' then
      match ParseUnsigned(s[1..]) { case Some(x) => Some(-x) case None => None }
    else ParseUnsigned(s)
  }

  function ParseUnsigned(s: string): (r: Option<real>) {
    var n := DigitRun(s);
    if n == 0 || (s[0] == '0' && n > 1) then None
    else ParseFraction(DigitsValue(s[..n]) as real, s[n..])
  }

  function ParseFraction(whole: real, s: string): (r: Option<real>) {
    if s == [] || s[0] != '.' then ParseExponent(whole, s)
    else
      var n := DigitRun(s[1..]);
      if n == 0 then None
      else ParseExponent(whole + Numbers.Unshift10(DigitsValue(s[1..][..n]) as real, n), s[1..][n..])
  }

  function ParseExponent(x: real, s: string): (r: Option<real>) {
    if s == [] then Some(x)
    else if s[0] != 'e' && s[0] != 'E' then None
    else
      var signed := |s| > 1 && (s[1] == '+' || s[1] == '-');
      var digits := if signed then s[2..] else s[1..];
      if digits == [] || DigitRun(digits) != |digits| then None
      else
        var e := DigitsValue(digits);
        Some(if signed && s[1] == '-' then Numbers.Unshift10(x, e) else Numbers.Shift10(x, e))
  }
}
