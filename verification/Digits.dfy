/** Decimal numerals: printing integers and reading the digits at the front of a text. */
module Digits {
  import opened Wrappers

  predicate IsDigit(c: char) { '0' <= c <= '9' }

  function DigitOf(d: nat): char
    requires d < 10
  {
    '0' + d as char
  }

  function ValueOf(c: char): (d: nat)
    requires IsDigit(c)
    ensures d < 10
  {
    (c - '0') as nat
  }

  predicate AllDigits(s: string) {
    forall i :: 0 <= i < |s| ==> IsDigit(s[i])
  }

  /** The shortest numeral of `n`. */
  function NatText(n: nat): (s: string)
    ensures |s| >= 1 && AllDigits(s)
    ensures s[0] == '0' ==> n == 0 && s == "0"
  {
    if n < 10 then [DigitOf(n)] else NatText(n / 10) + [DigitOf(n % 10)]
  }

  function IntText(x: int): string {
    if x < 0 then "-" + NatText(-x) else NatText(x)
  }

  function NatValue(s: string): nat
    requires AllDigits(s)
  {
    if s == "" then 0 else 10 * NatValue(s[..|s| - 1]) + ValueOf(s[|s| - 1])
  }

  lemma {:induction false} NatTextValue(n: nat)
    ensures NatValue(NatText(n)) == n
  {
    var s := NatText(n);
    if n >= 10 {
      NatTextValue(n / 10);
      assert s[..|s| - 1] == NatText(n / 10);
    } else {
      assert s[..0] == "";
    }
  }

  lemma LastDigitOfText(init: string, c: char)
    requires AllDigits(init) && IsDigit(c) && NatValue(init) >= 1
    ensures NatText(NatValue(init + [c])) == NatText(NatValue(init)) + [c]
  {
    var v, d := NatValue(init), ValueOf(c);
    assert (init + [c])[..|init|] == init;
    assert NatValue(init + [c]) == 10 * v + d;
    assert (10 * v + d) / 10 == v && (10 * v + d) % 10 == d;
    assert DigitOf(d) == c;
    hide NatValue;
  }

  /** Numerals without leading zeros are determined by their value. */
  lemma {:induction false} NumeralIsText(s: string)
    requires AllDigits(s) && |s| >= 1 && (s[0] == '0' ==> s == "0")
    ensures NatText(NatValue(s)) == s
  {
    var init := s[..|s| - 1];
    if |s| == 1 {
      assert init == "";
    } else {
      NumeralIsText(init);
      NumeralPositive(init);
      LastDigitOfText(init, s[|s| - 1]);
      hide NatText, NatValue;
      assert s == init + [s[|s| - 1]];
    }
  }

  lemma {:induction false} NumeralPositive(s: string)
    requires AllDigits(s) && |s| >= 1 && s[0] != '0'
    ensures NatValue(s) >= 1
  {
    if |s| > 1 { NumeralPositive(s[..|s| - 1]); }
  }

  lemma {:induction false} LeadingZero(s: string)
    requires AllDigits(s)
    ensures NatValue("0" + s) == NatValue(s)
  {
    if s == "" {
      assert ("0" + s)[..0] == "";
    } else {
      LeadingZero(s[..|s| - 1]);
      assert ("0" + s)[..|s|] == "0" + s[..|s| - 1];
    }
  }

  lemma TrailingZero(s: string)
    requires AllDigits(s)
    ensures NatValue(s + "0") == 10 * NatValue(s)
  {
    assert (s + "0")[..|s|] == s;
  }

  function DigitPrefix(s: string): (n: nat)
    ensures n <= |s| && AllDigits(s[..n]) && (n < |s| ==> !IsDigit(s[n]))
  {
    if s == "" || !IsDigit(s[0]) then 0
    else
      var n := DigitPrefix(s[1..]);
      assert forall i :: 0 < i < 1 + n ==> s[i] == s[1..][..n][i - 1];
      1 + n
  }

  /** The number at the front of `s`, if there is a digit there. */
  function LeadingNat(s: string): Option<nat> {
    var n := DigitPrefix(s);
    if n == 0 then None else Some(NatValue(s[..n]))
  }

  predicate NoDigitFirst(s: string) { s == "" || !IsDigit(s[0]) }

  lemma {:induction false} PrefixOfNumeral(s: string, rest: string)
    requires AllDigits(s) && NoDigitFirst(rest)
    ensures DigitPrefix(s + rest) == |s|
  {
    if s == "" {
      assert s + rest == rest;
    } else {
      assert (s + rest)[1..] == s[1..] + rest;
      PrefixOfNumeral(s[1..], rest);
    }
  }

  /** Printing a number and reading it back, whatever non-digit text follows. */
  lemma LeadingNatOfText(n: nat, rest: string)
    requires NoDigitFirst(rest)
    ensures LeadingNat(NatText(n) + rest) == Some(n)
  {
    var s := NatText(n);
    PrefixOfNumeral(s, rest);
    assert (s + rest)[..|s|] == s;
    NatTextValue(n);
  }

  /** An optional minus sign and digits; anything after them is not looked at. */
  function LeadingInt(s: string): Option<int> {
    if s != "" && s[0] == '-' then
      match LeadingNat(s[1..])
      case None => None
      case Some(n) => var m: int := n; Some(-m)
    else
      match LeadingNat(s)
      case None => None
      case Some(n) => Some(n)
  }

  lemma LeadingIntOfText(x: int, rest: string)
    requires NoDigitFirst(rest)
    ensures LeadingInt(IntText(x) + rest) == Some(x)
  {
    hide NatText, LeadingNat;
    if x < 0 {
      assert (IntText(x) + rest)[1..] == NatText(-x) + rest;
      LeadingNatOfText(-x, rest);
    } else {
      assert (IntText(x) + rest)[0] == NatText(x)[0];
      LeadingNatOfText(x, rest);
    }
  }
}
