/**
  The session configuration snapshot: JSON escaping (JSON strings, section 7 of RFC 8259),
  the fixed layout of the document, and why equal documents mean equal snapshots.
  A `char` stands for one byte.
 */
module ConfigSnapshot {
  import opened Digits
  import opened Texts
  import opened Wrappers
  import DM = DecimalMath

  // -------------------------------------------------------------- escaping

  const HEX: string := "0123456789abcdef"

  function HexPair(n: nat): (h: string)
    requires n < 0x100
    ensures |h| == 2
  {
    [HEX[n / 16], HEX[n % 16]]
  }

  function EscapeChar(c: char): (e: string)
    ensures |e| >= 1
  {
    if c == '\"' then "\\\""
    else if c == '\\' then "\\\\"
    else if c == 8 as char then "\\b"
    else if c == 12 as char then "\\f"
    else if c == '\n' then "\\n"
    else if c == '\r' then "\\r"
    else if c == '\t' then "\\t"
    else if c < 0x20 as char then "\\u00" + HexPair(c as int)
    else [c]
  }

  function Escape(s: string): string {
    if s == "" then "" else EscapeChar(s[0]) + Escape(s[1..])
  }

  method JsonEscape(input: string) returns (out: string)
    ensures out == Escape(input)
  {
    hide EscapeChar;
    out := "";
    for i := 0 to |input|
      invariant out + Escape(input[i..]) == Escape(input)
    {
      assert input[i..][1..] == input[i + 1..];
      assert out + (EscapeChar(input[i]) + Escape(input[i + 1..]))
          == out + EscapeChar(input[i]) + Escape(input[i + 1..]);
      out := out + EscapeChar(input[i]);
    }
  }

  /** An expansion is the character itself, or starts with the only backslash that can. */
  lemma EscapeShape(c: char)
    ensures var e := EscapeChar(c);
            || (e == [c] && c != '\"' && c != '\\')
            || (&& |e| >= 2 && e[0] == '\\' && (e[|e| - 1] == '\"' <==> c == '\"')
                && (forall i :: 0 <= i < |e| - 1 ==> e[i] != '\"'))
  {
  }

  lemma HexDigitsDiffer(i: nat, j: nat)
    requires i < 16 && j < 16 && HEX[i] == HEX[j]
    ensures i == j
  {
  }

  lemma HexPairInjective(m: nat, n: nat)
    requires m < 0x100 && n < 0x100 && HexPair(m) == HexPair(n)
    ensures m == n
  {
    hide HEX;
    var x, y := HexPair(m), HexPair(n);
    assert x[0] == y[0] && x[1] == y[1];
    HexDigitsDiffer(m / 16, n / 16);
    HexDigitsDiffer(m % 16, n % 16);
  }

  lemma SixLetters(c: char)
    requires |EscapeChar(c)| > 2
    ensures c < 0x20 as char && EscapeChar(c)[4..] == HexPair(c as int) && EscapeChar(c)[1] == 'u'
  {
    hide HexPair;
  }

  /** Expansions form a prefix code. */
  lemma EscapePrefixFree(c: char, d: char, x: string, y: string)
    requires EscapeChar(c) + x == EscapeChar(d) + y
    ensures c == d && x == y
  {
    var e, f := EscapeChar(c), EscapeChar(d);
    var s := e + x;
    assert s[0] == e[0] && s[0] == f[0];
    if |e| > 1 && |f| > 1 { assert s[1] == e[1] && s[1] == f[1]; }
    if |e| > 2 { SixLetters(c); }
    if |f| > 2 { SixLetters(d); }
    if |e| > 2 && |f| > 2 {
      assert s[4..6] == e[4..] && s[4..6] == f[4..];
      HexPairInjective(c as int, d as int);
    } else {
      ShortExpansions(c, d);
    }
    assert x == s[|e|..] && y == s[|f|..];
  }

  lemma ShortExpansions(c: char, d: char)
    requires |EscapeChar(c)| <= 2 || |EscapeChar(d)| <= 2
    requires EscapeChar(c)[0] == EscapeChar(d)[0]
    requires |EscapeChar(c)| > 1 && |EscapeChar(d)| > 1 ==> EscapeChar(c)[1] == EscapeChar(d)[1]
    ensures c == d
  {
    hide HexPair;
  }

  /** A quote inside an escaped text always follows a backslash. */
  lemma {:induction false} QuoteFollowsBackslash(s: string, i: nat)
    requires i < |Escape(s)| && Escape(s)[i] == '\"'
    ensures i > 0 && Escape(s)[i - 1] == '\\'
  {
    var e := EscapeChar(s[0]);
    EscapeShape(s[0]);
    if i >= |e| {
      QuoteFollowsBackslash(s[1..], i - |e|);
    } else {
      assert e[i] == '\"';
      QuoteExpansion(s[0], i);
    }
  }

  lemma QuoteExpansion(c: char, i: nat)
    requires i < |EscapeChar(c)| && EscapeChar(c)[i] == '\"'
    ensures c == '\"' && i == 1 && EscapeChar(c)[0] == '\\'
  {
  }

  /** The closing quote of a string literal is where everyone finds it. */
  lemma {:induction false} LiteralOnce(s: string, t: string, x: string, y: string)
    requires Escape(s) + "\"" + x == Escape(t) + "\"" + y
    ensures s == t && x == y
  {
    if s == "" || t == "" {
      LiteralEnds(s, t, x, y);
    } else {
      hide Escape, EscapeChar;
      var p, q := Escape(s[1..]) + "\"" + x, Escape(t[1..]) + "\"" + y;
      LiteralStep(s, x);
      LiteralStep(t, y);
      EscapePrefixFree(s[0], t[0], p, q);
      LiteralOnce(s[1..], t[1..], x, y);
      assert s == [s[0]] + s[1..] && t == [t[0]] + t[1..];
    }
  }

  lemma LiteralStep(s: string, x: string)
    requires s != ""
    ensures Escape(s) + "\"" + x == EscapeChar(s[0]) + (Escape(s[1..]) + "\"" + x)
  {
    var e, tail := EscapeChar(s[0]), Escape(s[1..]);
    assert Escape(s) == e + tail;
    hide Escape, EscapeChar;
    Regroup(e, tail, "\"");
    Regroup(e, tail + "\"", x);
  }

  lemma LiteralEnds(s: string, t: string, x: string, y: string)
    requires Escape(s) + "\"" + x == Escape(t) + "\"" + y
    requires s == "" || t == ""
    ensures s == t && x == y
  {
    var left, right := Escape(s) + "\"" + x, Escape(t) + "\"" + y;
    FirstIsQuote(s, x);
    FirstIsQuote(t, y);
    assert x == left[1..] && y == right[1..];
  }

  lemma FirstIsQuote(s: string, x: string)
    ensures (Escape(s) + "\"" + x)[0] == '\"' <==> s == ""
  {
    if s != "" {
      EscapeShape(s[0]);
      assert (Escape(s) + "\"" + x)[0] == EscapeChar(s[0])[0];
    }
  }

  // ---------------------------------------------------------------- layout

  /** Punctuation and numbers up to a string literal, and the text of that literal. */
  datatype Item = Item(gap: string, text: string)

  function Literal(item: Item): string {
    item.gap + "\"" + Escape(item.text) + "\""
  }

  /** The document: literals with the punctuation before them, and a last piece of punctuation. */
  function Render(items: seq<Item>, tail: string): string {
    if items == [] then tail else Literal(items[0]) + Render(items[1..], tail)
  }

  lemma {:induction false} RenderAppend(xs: seq<Item>, ys: seq<Item>, tail: string)
    ensures Render(xs + ys, tail) == Render(xs, Render(ys, tail))
  {
    if xs == [] {
      assert xs + ys == ys;
    } else {
      assert (xs + ys)[1..] == xs[1..] + ys;
      RenderAppend(xs[1..], ys, tail);
    }
  }

  lemma {:induction false} RenderTail(xs: seq<Item>, a: string, b: string)
    ensures Render(xs, a + b) == Render(xs, a) + b
  {
    if xs != [] {
      RenderTail(xs[1..], a, b);
    }
  }

  ghost predicate QuoteFree(items: seq<Item>) {
    forall i :: 0 <= i < |items| ==> '\"' !in items[i].gap
  }

  /** The layout can be read only one way. */
  lemma {:induction false} RenderInjective(xs: seq<Item>, ys: seq<Item>, a: string, b: string)
    requires |xs| == |ys| && QuoteFree(xs) && QuoteFree(ys)
    requires Render(xs, a) == Render(ys, b)
    ensures xs == ys && a == b
  {
    if xs != [] {
      var x, y := xs[0], ys[0];
      var p, q := Render(xs[1..], a), Render(ys[1..], b);
      assert Literal(x) + p == Literal(y) + q;
      hide Render, Literal;
      ItemOnce(x, y, p, q);
      RenderInjective(xs[1..], ys[1..], a, b);
      assert xs == [x] + xs[1..] && ys == [y] + ys[1..];
    }
  }

  lemma ItemOnce(x: Item, y: Item, p: string, q: string)
    requires '\"' !in x.gap && '\"' !in y.gap && Literal(x) + p == Literal(y) + q
    ensures x == y && p == q
  {
    hide Escape;
    var u, v := Escape(x.text) + "\"" + p, Escape(y.text) + "\"" + q;
    assert Literal(x) + p == x.gap + "\"" + u;
    assert Literal(y) + q == y.gap + "\"" + v;
    CutOnce(x.gap, u, y.gap, v, '\"');
    LiteralOnce(x.text, y.text, p, q);
  }

  // -------------------------------------------------------------- snapshot

  type Version = x: int | 0 <= x < 0x1_0000_0000

  datatype Section = Section(id: string, version: Version, body: string, inlineOverride: bool)

  /** What printed numbers are made of: digits, signs, point, exponent, and the letters of inf and nan. */
  predicate NumberChar(c: char) {
    || '0' <= c <= '9' || c == '-' || c == '+' || c == '.'
    || c == 'e' || c == 'i' || c == 'n' || c == 'f' || c == 'a'
  }

  /** A printed tolerance; the printing of a floating-point number is not modelled. */
  predicate NumberToken(s: string)
    ensures NumberToken(s) ==> s != "" && '\"' !in s && ',' !in s && '}' !in s && ':' !in s && s[0] > ' '
  {
    s != "" && forall i :: 0 <= i < |s| ==> NumberChar(s[i])
  }

  type Token = s: string | NumberToken(s) witness "0"

  datatype Snapshot = Snapshot(
    solverConfig: Section, riskLimits: Section, feeModel: Section, rewardConfig: Section,
    randomSeed: DM.Int64, tolerance: Token, avgisRule: string, decisionPriceSource: string)

  const SCHEMA_VERSION: nat := 1

  function BoolText(b: bool): string { if b then "true" else "false" }

  function SectionItems(gap: string, key: string, s: Section): seq<Item> {
    [Item(gap, key),
     Item(":{", "id"), Item(":", s.id),
     Item(",", "version"), Item(":" + NatText(s.version) + ",", "inline_override"),
     Item(":" + BoolText(s.inlineOverride) + ",", "body_json"), Item(":", s.body)]
  }

  function HeadItems(): seq<Item> { [Item("{", "snapshot_version")] }

  function TailItems(s: Snapshot): seq<Item> {
    [Item("},", "random_seed"),
     Item(":" + IntText(s.randomSeed) + ",", "tolerance"),
     Item(":" + s.tolerance + ",", "avgis_rule"), Item(":", s.avgisRule),
     Item(",", "decision_price_source"), Item(":", s.decisionPriceSource)]
  }

  function Items(s: Snapshot): seq<Item> {
    HeadItems()
    + SectionItems(":" + NatText(SCHEMA_VERSION) + ",", "solver_config", s.solverConfig)
    + SectionItems("},", "risk_limits", s.riskLimits)
    + SectionItems("},", "fee_model", s.feeModel)
    + SectionItems("},", "reward_config", s.rewardConfig)
    + TailItems(s)
  }

  /** The document stored with the session. */
  function SnapshotText(s: Snapshot): string { Render(Items(s), "}") }

  method AppendItems(start: string, items: seq<Item>) returns (out: string)
    ensures out == start + Render(items, "")
  {
    hide Render, Escape;
    out := start;
    assert items[0..] == items;
    for i := 0 to |items|
      invariant out + Render(items[i..], "") == start + Render(items, "")
    {
      RenderStep(items, i);
      var text := JsonEscape(items[i].text);
      Regroup(out, Literal(items[i]), Render(items[i + 1..], ""));
      out := out + (items[i].gap + "\"" + text + "\"");
    }
    RenderNothing(items[|items|..]);
  }

  lemma RenderNothing(items: seq<Item>)
    requires items == []
    ensures Render(items, "") == ""
  {
  }

  lemma RenderStep(items: seq<Item>, i: nat)
    requires i < |items|
    ensures Render(items[i..], "") == Literal(items[i]) + Render(items[i + 1..], "")
  {
    assert items[i..][1..] == items[i + 1..];
  }

  method SerializeSnapshot(s: Snapshot) returns (out: string)
    ensures out == SnapshotText(s)
  {
    hide Render, SectionItems, TailItems, NatText;
    var a := HeadItems();
    var b := SectionItems(":" + NatText(SCHEMA_VERSION) + ",", "solver_config", s.solverConfig);
    var c := SectionItems("},", "risk_limits", s.riskLimits);
    var d := SectionItems("},", "fee_model", s.feeModel);
    var e := SectionItems("},", "reward_config", s.rewardConfig);
    var f := TailItems(s);
    out := AppendItems("", a);
    ghost var done := a;
    out := AppendItems(out, b);
    RenderJoin(done, b);
    done := done + b;
    out := AppendItems(out, c);
    RenderJoin(done, c);
    done := done + c;
    out := AppendItems(out, d);
    RenderJoin(done, d);
    done := done + d;
    out := AppendItems(out, e);
    RenderJoin(done, e);
    done := done + e;
    out := AppendItems(out, f);
    RenderJoin(done, f);
    done := done + f;
    RenderTail(done, "", "}");
    assert "" + "}" == "}";
    out := out + "}";
  }

  lemma RenderJoin(xs: seq<Item>, ys: seq<Item>)
    ensures Render(xs + ys, "") == Render(xs, "") + Render(ys, "")
  {
    RenderAppend(xs, ys, "");
    RenderTail(xs, "", Render(ys, ""));
    assert "" + Render(ys, "") == Render(ys, "");
  }

  lemma NumeralsQuoteFree(x: int)
    ensures '\"' !in IntText(x) && ',' !in IntText(x) && '}' !in IntText(x) && ':' !in IntText(x)
    ensures x >= 0 ==> IntText(x) == NatText(x)
  {
    hide NatText;
  }

  lemma SectionQuoteFree(gap: string, key: string, s: Section)
    requires '\"' !in gap
    ensures QuoteFree(SectionItems(gap, key, s))
  {
    hide NatText;
    NumeralsQuoteFree(s.version);
  }

  lemma ItemsQuoteFree(s: Snapshot)
    ensures QuoteFree(Items(s)) && |Items(s)| == 35
  {
    hide NatText, IntText;
    NumeralsQuoteFree(s.randomSeed);
    NumeralsQuoteFree(SCHEMA_VERSION);
    assert NumberToken(s.tolerance);
    SectionQuoteFree(":" + NatText(SCHEMA_VERSION) + ",", "solver_config", s.solverConfig);
    SectionQuoteFree("},", "risk_limits", s.riskLimits);
    SectionQuoteFree("},", "fee_model", s.feeModel);
    SectionQuoteFree("},", "reward_config", s.rewardConfig);
    assert QuoteFree(TailItems(s));
  }

  lemma WrappedOnce(a: string, b: string)
    requires ":" + a + "," == ":" + b + ","
    ensures a == b
  {
    var s := ":" + a + ",";
    assert a == s[1..|s| - 1] && b == s[1..|s| - 1];
  }

  lemma NumeralOnce(x: int, y: int)
    requires IntText(x) == IntText(y)
    ensures x == y
  {
    hide NatText;
    LeadingIntOfText(x, "");
    LeadingIntOfText(y, "");
  }

  lemma SectionOnce(gap: string, key: string, s: Section, t: Section)
    requires SectionItems(gap, key, s) == SectionItems(gap, key, t)
    ensures s == t
  {
    hide NatText;
    var xs, ys := SectionItems(gap, key, s), SectionItems(gap, key, t);
    assert xs[2] == ys[2] && xs[4] == ys[4] && xs[5] == ys[5] && xs[6] == ys[6];
    WrappedOnce(NatText(s.version), NatText(t.version));
    WrappedOnce(BoolText(s.inlineOverride), BoolText(t.inlineOverride));
    NumeralsQuoteFree(s.version);
    NumeralsQuoteFree(t.version);
    NumeralOnce(s.version, t.version);
  }

  lemma TailOnce(s: Snapshot, t: Snapshot)
    requires TailItems(s) == TailItems(t)
    ensures s.randomSeed == t.randomSeed && s.tolerance == t.tolerance
    ensures s.avgisRule == t.avgisRule && s.decisionPriceSource == t.decisionPriceSource
  {
    hide IntText;
    var xs, ys := TailItems(s), TailItems(t);
    assert xs[1] == ys[1] && xs[2] == ys[2] && xs[3] == ys[3] && xs[5] == ys[5];
    WrappedOnce(IntText(s.randomSeed), IntText(t.randomSeed));
    WrappedOnce(s.tolerance, t.tolerance);
    NumeralOnce(s.randomSeed, t.randomSeed);
  }

  /**
    Two snapshots with the same document are the same snapshot: whatever the ids and
    bodies contain, no text can pass for another field.
   */
  lemma SnapshotTextInjective(s: Snapshot, t: Snapshot)
    requires SnapshotText(s) == SnapshotText(t)
    ensures s == t
  {
    ItemsQuoteFree(s);
    ItemsQuoteFree(t);
    hide Render, QuoteFree, SectionItems, TailItems, NatText;
    RenderInjective(Items(s), Items(t), "}", "}");
    var xs, ys := Items(s), Items(t);
    SectionLengths(s);
    SectionLengths(t);
    assert xs[1..8] == ys[1..8] && xs[8..15] == ys[8..15] && xs[15..22] == ys[15..22];
    assert xs[22..29] == ys[22..29] && xs[29..] == ys[29..];
    SectionOnce(":" + NatText(SCHEMA_VERSION) + ",", "solver_config", s.solverConfig, t.solverConfig);
    SectionOnce("},", "risk_limits", s.riskLimits, t.riskLimits);
    SectionOnce("},", "fee_model", s.feeModel, t.feeModel);
    SectionOnce("},", "reward_config", s.rewardConfig, t.rewardConfig);
    TailOnce(s, t);
  }

  lemma SectionLengths(s: Snapshot)
    ensures var xs := Items(s);
            && |xs| == 35
            && xs[1..8] == SectionItems(":" + NatText(SCHEMA_VERSION) + ",", "solver_config", s.solverConfig)
            && xs[8..15] == SectionItems("},", "risk_limits", s.riskLimits)
            && xs[15..22] == SectionItems("},", "fee_model", s.feeModel)
            && xs[22..29] == SectionItems("},", "reward_config", s.rewardConfig)
            && xs[29..] == TailItems(s)
  {
    hide NatText;
    var xs := Items(s);
    var b := SectionItems(":" + NatText(SCHEMA_VERSION) + ",", "solver_config", s.solverConfig);
    var c := SectionItems("},", "risk_limits", s.riskLimits);
    var d := SectionItems("},", "fee_model", s.feeModel);
    var e := SectionItems("},", "reward_config", s.rewardConfig);
    var f := TailItems(s);
    assert |b| == 7 && |c| == 7 && |d| == 7 && |e| == 7 && |f| == 6;
    hide SectionItems, TailItems;
    assert xs == HeadItems() + b + c + d + e + f;
  }
}
