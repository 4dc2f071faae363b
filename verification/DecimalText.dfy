/**
  The gateway's text form of a decimal: printing `units * 10^-scale` without floating
  point, and parsing such text back.
 */
module DecimalText {
  import opened Digits
  import opened Texts
  import opened Wrappers
  import DM = DecimalMath

  /** A decimal as it arrives or is sent; `units` is `None` where JavaScript has NaN. */
  datatype Proto = Proto(units: Option<int>, scale: int)

  function Abs(x: int): nat { if x < 0 then -x else x }

  /** Left padding with zeros until there is a digit before the fraction. */
  function Pad(digits: string, scale: nat): (r: string)
    ensures |r| > scale && |r| >= |digits|
    decreases scale + 1 - |digits|
  {
    if |digits| <= scale then Pad("0" + digits, scale) else digits
  }

  function StripTrailing(s: string): (r: string)
    ensures r <= s && (r == "" || r[|r| - 1] != '0')
  {
    if s != "" && s[|s| - 1] == '0' then StripTrailing(s[..|s| - 1]) else s
  }

  function StripLeading(s: string): (r: string)
    ensures |r| <= |s| && r == s[|s| - |r|..] && (r == "" || r[0] != '0')
  {
    if s != "" && s[0] == '0' then StripLeading(s[1..]) else s
  }

  /** Whole part and trimmed fraction of the padded digits. */
  function WholePart(units: int, scale: nat): string {
    var p := Pad(NatText(Abs(units)), scale);
    p[..|p| - scale]
  }

  function FractionPart(units: int, scale: nat): string {
    var p := Pad(NatText(Abs(units)), scale);
    StripTrailing(p[|p| - scale..])
  }

  function Sign(units: int): string { if units < 0 then "-" else "" }

  function Joined(sign: string, whole: string, fraction: string): string {
    sign + whole + if fraction == "" then "" else "." + fraction
  }

  function Print(units: int, scale: int): string {
    if scale <= 0 then IntText(units)
    else Joined(Sign(units), WholePart(units, scale), FractionPart(units, scale))
  }

  method DecimalToString(d: Option<Proto>) returns (s: string)
    ensures s == if d.None? || d.value.units.None? then "0"
                 else Print(d.value.units.value, d.value.scale)
  {
    hide NatText, IntText, Pad, StripTrailing, Joined;
    if d.None? || d.value.units.None? {
      return "0";
    }
    ghost var value := d.value.units.value;
    var units, scale := IntText(d.value.units.value), d.value.scale;
    if scale <= 0 {
      return units;
    }
    SignOfText(value);
    var neg := units[0] == '-';
    var digits := if neg then units[1..] else units;
    digits := PadLoop(digits, scale);
    var whole := digits[..|digits| - scale];
    var fraction := StripTrailing(digits[|digits| - scale..]);
    assert whole == WholePart(value, scale) && fraction == FractionPart(value, scale);
    JoinedText(value, whole, fraction);
    hide WholePart, FractionPart;
    s := if fraction != "" then whole + "." + fraction else whole;
    s := if neg then "-" + s else s;
  }

  lemma JoinedText(units: int, whole: string, fraction: string)
    ensures var s := if fraction != "" then whole + "." + fraction else whole;
            Joined(Sign(units), whole, fraction) == if units < 0 then "-" + s else s
  {
  }

  lemma SignOfText(x: int)
    ensures IntText(x) != "" && (IntText(x)[0] == '-' <==> x < 0)
    ensures (if x < 0 then IntText(x)[1..] else IntText(x)) == NatText(Abs(x))
  {
    hide NatText;
    if x < 0 { assert IntText(x)[1..] == NatText(-x); }
  }

  method PadLoop(start: string, scale: nat) returns (digits: string)
    ensures digits == Pad(start, scale)
  {
    digits := start;
    while |digits| <= scale
      invariant Pad(digits, scale) == Pad(start, scale)
      decreases scale + 1 - |digits|
    {
      digits := "0" + digits;
    }
  }

  // --------------------------------------------------------------- parsing

  predicate IsSpace(c: char) {
    var n := c as int;
    9 <= n <= 13 || n == 0x20 || n == 0xA0 || n == 0x1680 || 0x2000 <= n <= 0x200A
    || n == 0x2028 || n == 0x2029 || n == 0x202F || n == 0x205F || n == 0x3000 || n == 0xFEFF
  }

  function TrimLeft(s: string): string {
    if s != "" && IsSpace(s[0]) then TrimLeft(s[1..]) else s
  }

  function TrimRight(s: string): string {
    if s != "" && IsSpace(s[|s| - 1]) then TrimRight(s[..|s| - 1]) else s
  }

  /** JavaScript's `parseInt(s, 10)`. */
  function ParseInt(s: string): Option<int> {
    var t := TrimLeft(s);
    if t != "" && t[0] == '+' then LeadingInt(if t[1..] != "" && t[1] == '-' then "" else t[1..])
    else LeadingInt(t)
  }

  /** The text before the first point, and the text between it and the next. */
  function Halves(body: string): (string, string) {
    var dot := IndexOf(body, '.');
    var rest := if dot < |body| then body[dot + 1..] else "";
    (body[..dot], rest[..IndexOf(rest, '.')])
  }

  function ReadUnits(digits: string): Option<int> {
    var stripped := StripLeading(digits);
    ParseInt(if stripped == "" then "0" else stripped)
  }

  function Negated(neg: bool, units: Option<int>): Option<int> {
    match units
    case None => None
    case Some(u) => Some(if neg then -u else u)
  }

  function ReadSigned(neg: bool, body: string): Proto {
    var (whole, tail) := Halves(body);
    var fraction := StripTrailing(tail);
    Proto(Negated(neg, ReadUnits(whole + fraction)), |fraction|)
  }

  function NumToDecimal(v: string): Proto {
    var s := TrimRight(TrimLeft(v));
    if s == "" then Proto(Some(0), 0)
    else if s[0] == '-' then ReadSigned(true, s[1..])
    else ReadSigned(false, s)
  }

  // ---------------------------------------------------------------- proofs

  lemma {:induction false} PadDigits(digits: string, scale: nat)
    requires AllDigits(digits)
    ensures AllDigits(Pad(digits, scale))
    ensures NatValue(Pad(digits, scale)) == NatValue(digits)
    ensures |digits| > scale ==> Pad(digits, scale) == digits
    ensures |digits| <= scale ==> |Pad(digits, scale)| == scale + 1 && Pad(digits, scale)[0] == '0'
    decreases scale + 1 - |digits|
  {
    if |digits| <= scale {
      LeadingZero(digits);
      PadDigits("0" + digits, scale);
    }
  }

  /** What trailing zeros are worth. */
  lemma {:induction false} StripTrailingValue(head: string, s: string)
    requires AllDigits(head) && AllDigits(s)
    ensures AllDigits(StripTrailing(s))
    ensures var r := StripTrailing(s);
            NatValue(head + s) == NatValue(head + r) * DM.Pow10(|s| - |r|)
  {
    if s != "" && s[|s| - 1] == '0' {
      var init := s[..|s| - 1];
      StripTrailingValue(head, init);
      assert head + s == (head + init) + "0";
      TrailingZero(head + init);
      DM.Tenfold(NatValue(head + StripTrailing(init)), DM.Pow10(|init| - |StripTrailing(init)|));
    } else {
      assert DM.Pow10(0) == 1;
    }
  }

  lemma {:induction false} StripLeadingValue(s: string)
    requires AllDigits(s)
    ensures AllDigits(StripLeading(s)) && NatValue(StripLeading(s)) == NatValue(s)
  {
    if s != "" && s[0] == '0' {
      StripLeadingValue(s[1..]);
      LeadingZero(s[1..]);
      assert s == "0" + s[1..];
    }
  }

  /** Padding undoes the removal of leading zeros. */
  lemma {:induction false} PadSuffix(s: string, scale: nat, k: nat)
    requires |s| == scale + 1 && |StripLeading(s)| <= k <= |s|
    ensures Pad(s[|s| - k..], scale) == s
    decreases |s| - k
  {
    if k < |s| {
      ZerosBefore(s, |s| - k - 1);
      assert "0" + s[|s| - k..] == s[|s| - k - 1..];
      PadSuffix(s, scale, k + 1);
    } else {
      assert s[0..] == s;
    }
  }

  lemma {:induction false} ZerosBefore(s: string, i: nat)
    requires i < |s| - |StripLeading(s)|
    ensures s[i] == '0'
  {
    if i > 0 { ZerosBefore(s[1..], i - 1); }
  }

  lemma DigitOrMinusIsNoSpace(c: char)
    requires IsDigit(c) || c == '-'
    ensures !IsSpace(c)
  {
  }

  lemma NoSpaceTrim(s: string)
    requires s != "" && !IsSpace(s[0]) && !IsSpace(s[|s| - 1])
    ensures TrimRight(TrimLeft(s)) == s
  {
    hide IsSpace;
  }

  /** The two parts of a printed number: digits only, no idle zero at either end. */
  ghost predicate Parts(whole: string, fraction: string) {
    && AllDigits(whole) && AllDigits(fraction)
    && whole != "" && (whole[0] == '0' ==> whole == "0")
    && (fraction != "" ==> fraction[|fraction| - 1] != '0')
  }

  function Body(whole: string, fraction: string): string {
    whole + if fraction == "" then "" else "." + fraction
  }

  lemma HalvesOfBody(whole: string, fraction: string)
    requires AllDigits(whole) && AllDigits(fraction)
    ensures Halves(Body(whole, fraction)) == (whole, fraction)
  {
    var tail := if fraction == "" then "" else "." + fraction;
    var body := whole + tail;
    FirstIndex(whole, tail, '.');
    FirstIndex(fraction, "", '.');
    assert fraction + "" == fraction;
    hide IndexOf;
    assert body[..|whole|] == whole;
    if fraction != "" { assert body[|whole| + 1..] == fraction; }
    assert fraction[..|fraction|] == fraction;
  }

  lemma TrimJoined(neg: bool, whole: string, fraction: string)
    requires Parts(whole, fraction)
    ensures var s := Joined(if neg then "-" else "", whole, fraction);
            TrimRight(TrimLeft(s)) == s
  {
    var s := Joined(if neg then "-" else "", whole, fraction);
    var last := if fraction == "" then whole[|whole| - 1] else fraction[|fraction| - 1];
    assert IsDigit(last) && s[|s| - 1] == last;
    DigitOrMinusIsNoSpace(s[0]);
    DigitOrMinusIsNoSpace(last);
    NoSpaceTrim(s);
  }

  /** Reading back a sign, a whole part and a fraction. */
  lemma ParseJoined(neg: bool, whole: string, fraction: string)
    requires Parts(whole, fraction)
    ensures var value: int := NatValue(whole + fraction);
            NumToDecimal(Joined(if neg then "-" else "", whole, fraction))
            == Proto(Some(if neg then -value else value), |fraction|)
  {
    hide IsSpace, TrimLeft, TrimRight, ReadSigned, NatValue;
    var s := Joined(if neg then "-" else "", whole, fraction);
    TrimJoined(neg, whole, fraction);
    ReadBody(neg, whole, fraction);
    var body := Body(whole, fraction);
    if neg {
      assert s == "-" + body && s[1..] == body;
    } else {
      assert s == body && body[0] == whole[0];
    }
  }

  lemma ReadBody(neg: bool, whole: string, fraction: string)
    requires Parts(whole, fraction)
    ensures var value: int := NatValue(whole + fraction);
            ReadSigned(neg, Body(whole, fraction)) == Proto(Some(if neg then -value else value), |fraction|)
  {
    hide Halves, ReadUnits, NatValue;
    HalvesOfBody(whole, fraction);
    assert StripTrailing(fraction) == fraction;
    ReadDigits(whole + fraction);
  }

  lemma ReadDigits(digits: string)
    requires AllDigits(digits)
    ensures ReadUnits(digits) == Some(NatValue(digits))
  {
    hide NatValue, ParseInt, StripLeading;
    var stripped := StripLeading(digits);
    StripLeadingValue(digits);
    var text := if stripped == "" then ['0'] else stripped;
    if stripped == "" { ZeroText(stripped); }
    ParseIntDigits(text);
  }

  lemma ZeroText(s: string)
    requires s == ""
    ensures NatValue(['0']) == NatValue(s)
  {
    LeadingZero(s);
    assert "0" + s == ['0'];
  }

  lemma ParseIntDigits(text: string)
    requires AllDigits(text) && text != ""
    ensures ParseInt(text) == Some(NatValue(text))
  {
    DigitOrMinusIsNoSpace(text[0]);
    hide IsSpace, NatValue, DigitPrefix;
    PrefixOfNumeral(text, "");
    assert text + "" == text && text[..|text|] == text;
  }

  lemma PrintedParts(units: int, scale: nat)
    ensures Parts(WholePart(units, scale), FractionPart(units, scale))
    ensures var f := FractionPart(units, scale);
            && |f| <= scale
            && NatValue(WholePart(units, scale) + f) * DM.Pow10(scale - |f|) == Abs(units)
  {
    hide NatText, NatValue, Pad, StripTrailing;
    var digits := NatText(Abs(units));
    var p := Pad(digits, scale);
    var whole, tail := p[..|p| - scale], p[|p| - scale..];
    PadDigits(digits, scale);
    assert p == whole + tail;
    StripTrailingValue(whole, tail);
    NatTextValue(Abs(units));
    PaddedWhole(digits, scale);
  }

  lemma PaddedWhole(digits: string, scale: nat)
    requires AllDigits(digits) && digits != "" && (digits[0] == '0' ==> digits == "0")
    ensures var p := Pad(digits, scale);
            var whole := p[..|p| - scale]; whole != "" && (whole[0] == '0' ==> whole == "0")
  {
    hide NatValue, Pad;
    PadDigits(digits, scale);
  }

  lemma PrintIsJoined(units: int, scale: nat)
    ensures Print(units, scale) == Joined(Sign(units), WholePart(units, scale), FractionPart(units, scale))
  {
    if scale == 0 {
      PadDigits(NatText(Abs(units)), 0);
    }
  }

  /**
    The printed text in decimal notation: a minus sign for negative amounts only, digits
    without a superfluous leading zero, and behind a point the rest without trailing zeros;
    all digits together, with those zeros put back, are the amount.
   */
  lemma PrintMeans(units: int, scale: nat) returns (whole: string, fraction: string)
    ensures Print(units, scale)
         == (if units < 0 then "-" else "") + whole + (if fraction == "" then "" else "." + fraction)
    ensures AllDigits(whole) && AllDigits(fraction) && whole != "" && |fraction| <= scale
    ensures whole[0] == '0' ==> whole == "0"
    ensures fraction != "" ==> fraction[|fraction| - 1] != '0'
    ensures NatValue(whole + fraction) * DM.Pow10(scale - |fraction|) == if units < 0 then -units else units
  {
    whole, fraction := WholePart(units, scale), FractionPart(units, scale);
    PrintedParts(units, scale);
    PrintIsJoined(units, scale);
    hide Print, WholePart, FractionPart, NatValue;
  }

  lemma {:induction false} LastDigit(s: string)
    requires AllDigits(s) && s != "" && s[|s| - 1] != '0'
    ensures NatValue(s) % 10 != 0
  {
    assert ValueOf(s[|s| - 1]) != 0;
  }

  lemma ParsedParts(units: int, scale: nat)
    ensures Parts(WholePart(units, scale), FractionPart(units, scale))
    ensures var fraction := FractionPart(units, scale);
            var value: int := NatValue(WholePart(units, scale) + fraction);
            NumToDecimal(Print(units, scale))
            == Proto(Some(if units < 0 then -value else value), |fraction|)
  {
    PrintedParts(units, scale);
    PrintIsJoined(units, scale);
    hide Print, WholePart, FractionPart, NatValue, NumToDecimal, Joined;
    ParseJoined(units < 0, WholePart(units, scale), FractionPart(units, scale));
  }

  /** In lowest terms: no zero could be dropped from the fraction. */
  predicate Canonical(units: int, scale: nat) {
    scale == 0 || units % 10 != 0
  }

  /**
    Printing and parsing keeps the number, in lowest terms: the parsed decimal is the
    canonical one of equal value.
   */
  lemma ParsePrinted(units: int, scale: nat) returns (u: int, s: nat)
    ensures NumToDecimal(Print(units, scale)) == Proto(Some(u), s)
    ensures s <= scale && units == u * DM.Pow10(scale - s)
    ensures Canonical(u, s)
  {
    hide Print, NumToDecimal, WholePart, FractionPart, NatValue, Canonical;
    var whole, fraction := WholePart(units, scale), FractionPart(units, scale);
    PrintedParts(units, scale);
    ParsedParts(units, scale);
    var value: int := NatValue(whole + fraction);
    s := |fraction|;
    u := if units < 0 then -value else value;
    NegateProduct(value, DM.Pow10(scale - s));
    CanonicalParts(whole, fraction, u);
  }

  lemma CanonicalParts(whole: string, fraction: string, u: int)
    requires Parts(whole, fraction) && Abs(u) == NatValue(whole + fraction)
    ensures Canonical(u, |fraction|)
  {
    if fraction != "" { LastDigit(whole + fraction); }
  }

  lemma NegateProduct(x: int, p: int)
    ensures -x * p == -(x * p)
    ensures x % 10 != 0 ==> -x % 10 != 0
  {
  }

  /** A decimal already in lowest terms survives the round trip unchanged. */
  lemma CanonicalSurvives(units: int, scale: nat)
    ensures NumToDecimal(Print(units, scale)) == Proto(Some(units), scale) <==> Canonical(units, scale)
  {
    hide Print, NumToDecimal;
    var u, s := ParsePrinted(units, scale);
    if s < scale { MultipleOfTen(u, scale - s); }
    assert DM.Pow10(0) == 1;
  }

  lemma MultipleOfTen(u: int, k: nat)
    requires k > 0
    ensures u * DM.Pow10(k) % 10 == 0
  {
    var p := DM.Pow10(k - 1);
    DM.Tenfold(u, p);
    assert DM.Pow10(k) == 10 * p;
    TenTimes(u * p);
  }

  lemma TenTimes(x: int)
    ensures 10 * x % 10 == 0
  {
  }

  /** Parsing is a left inverse of printing up to value, so a second trip changes nothing. */
  lemma PrintParsedAgain(units: int, scale: nat, u: int, s: nat)
    requires NumToDecimal(Print(units, scale)) == Proto(Some(u), s)
    ensures Print(u, s) == Print(units, scale)
  {
    var whole, fraction := WholePart(units, scale), FractionPart(units, scale);
    PrintedParts(units, scale);
    PrintIsJoined(units, scale);
    ParsedParts(units, scale);
    PrintIsJoined(u, s);
    SignKept(units, scale, u, s);
    hide Print, Joined, NumToDecimal, WholePart, FractionPart, NatValue;
    PartsOfValue(whole, fraction, u);
  }

  lemma PartsOfValue(whole: string, fraction: string, u: int)
    requires Parts(whole, fraction) && Abs(u) == NatValue(whole + fraction)
    ensures WholePart(u, |fraction|) == whole && FractionPart(u, |fraction|) == fraction
  {
    PadOfValue(whole, fraction);
    hide NatText, NatValue, Pad;
    var p := whole + fraction;
    assert p[..|p| - |fraction|] == whole && p[|p| - |fraction|..] == fraction;
    assert StripTrailing(fraction) == fraction;
  }

  lemma SignKept(units: int, scale: nat, u: int, s: nat)
    requires NumToDecimal(Print(units, scale)) == Proto(Some(u), s)
    ensures units < 0 <==> u < 0
  {
    hide Print, NumToDecimal;
    var u', s' := ParsePrinted(units, scale);
    DM.OrderLifts(u, 0, DM.Pow10(scale - s'));
  }

  /** The numeral of the joined digits, padded, is the joined digits again. */
  lemma PadOfValue(whole: string, fraction: string)
    requires Parts(whole, fraction)
    ensures Pad(NatText(NatValue(whole + fraction)), |fraction|) == whole + fraction
  {
    hide NatValue, NatText, Pad, StripLeading;
    var p := whole + fraction;
    var stripped := StripLeading(p);
    StripLeadingValue(p);
    if stripped == "" {
      ZerosBefore(p, |p| - 1);
      assert fraction == "";
      assert p == whole;
      NumeralIsText(p);
      PadDigits(p, 0);
    } else {
      NumeralIsText(stripped);
      if whole == "0" {
        assert p[|p| - |stripped|..] == stripped;
        PadSuffix(p, |fraction|, |stripped|);
      } else {
        NoLeadingZero(p);
        PadDigits(p, |fraction|);
      }
    }
  }

  lemma NoLeadingZero(s: string)
    requires s != "" && s[0] != '0'
    ensures StripLeading(s) == s
  {
  }
}
