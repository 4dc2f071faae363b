/**
  Reading the stored snapshot as JSON (RFC 8259): objects, strings with their escapes,
  booleans and numbers, by the meanings the standard gives them, with members found by name.

  Only what a snapshot holds is read: no arrays, no null, no white space between tokens. A
  number is kept as its token, so that "inf" and "nan", which JSON does not have but a
  printed tolerance can be, are kept too.
 */
module JsonReading {
  import opened ConfigSnapshot
  import opened Digits
  import opened Wrappers

  datatype Json = Str(text: string) | Num(token: string) | Bool(value: bool) | Obj(members: Members)
  datatype Members = Empty | More(name: string, value: Json, rest: Members)

  // --------------------------------------------------------------- strings

  /** The character a two-letter escape stands for (section 7). */
  function Unescaped(c: char): Option<char> {
    if c == '\"' then Some('\"')
    else if c == '\\' then Some('\\')
    else if c == '/' then Some('/')
    else if c == 'b' then Some(8 as char)
    else if c == 'f' then Some(12 as char)
    else if c == 'n' then Some(10 as char)
    else if c == 'r' then Some(13 as char)
    else if c == 't' then Some(9 as char)
    else None
  }

  function HexValue(c: char): Option<nat> {
    if '0' <= c <= '9' then Some((c - '0') as nat)
    else if 'a' <= c <= 'f' then Some(10 + (c - 'a') as nat)
    else if 'A' <= c <= 'F' then Some(10 + (c - 'A') as nat)
    else None
  }

  /** Four hexadecimal digits; a code past 127 is more than one byte and is not read here. */
  function CodePoint(s: string): Option<char>
    requires |s| == 4
  {
    var a, b, c, d := HexValue(s[0]), HexValue(s[1]), HexValue(s[2]), HexValue(s[3]);
    if a.None? || b.None? || c.None? || d.None? then None
    else
      var code := 4096 * a.value + 256 * b.value + 16 * c.value + d.value;
      if code < 128 then Some(code as char) else None
  }

  function Prepend(c: char, r: Option<(string, string)>): Option<(string, string)> {
    match r
    case None => None
    case Some(p) => Some(([c] + p.0, p.1))
  }

  /** The text of a string whose opening quote has been read, and what follows its closing quote. */
  function ReadString(s: string): (r: Option<(string, string)>)
    ensures r.Some? ==> |r.value.1| < |s|
    decreases |s|
  {
    if s == "" then None
    else if s[0] == '\"' then Some(("", s[1..]))
    else if s[0] < ' ' then None
    else if s[0] != '\\' then Prepend(s[0], ReadString(s[1..]))
    else if |s| < 2 then None
    else if s[1] == 'u' then
      if |s| < 6 then None
      else
        match CodePoint(s[2..6])
        case None => None
        case Some(c) => Prepend(c, ReadString(s[6..]))
    else
      match Unescaped(s[1])
      case None => None
      case Some(c) => Prepend(c, ReadString(s[2..]))
  }

  // ---------------------------------------------------------------- values

  /** Where a bare word ends. */
  function WordEnd(s: string): (n: nat)
    ensures n <= |s|
  {
    if s == "" || s[0] == ',' || s[0] == '}' then 0 else 1 + WordEnd(s[1..])
  }

  function ReadWord(word: string): Option<Json> {
    if word == "true" then Some(Bool(true))
    else if word == "false" then Some(Bool(false))
    else if NumberToken(word) then Some(Num(word))
    else None
  }

  /** A value, and what follows it. */
  function ReadValue(s: string): (r: Option<(Json, string)>)
    ensures r.Some? ==> |r.value.1| < |s|
    decreases |s|
  {
    if s == "" then None
    else if s[0] == '\"' then
      match ReadString(s[1..])
      case None => None
      case Some(p) => Some((Str(p.0), p.1))
    else if s[0] == '{' then
      if |s| > 1 && s[1] == '}' then Some((Obj(Empty), s[2..]))
      else
        match ReadMembers(s[1..])
        case None => None
        case Some(p) => Some((Obj(p.0), p.1))
    else
      var n := WordEnd(s);
      match ReadWord(s[..n])
      case None => None
      case Some(v) => if n == 0 then None else Some((v, s[n..]))
  }

  /** Members up to the closing brace, and what follows it. */
  function ReadMembers(s: string): (r: Option<(Members, string)>)
    ensures r.Some? ==> |r.value.1| < |s|
    decreases |s|
  {
    if s == "" || s[0] != '\"' then None
    else
      match ReadString(s[1..])
      case None => None
      case Some(name) =>
        if name.1 == "" || name.1[0] != ':' then None
        else
          match ReadValue(name.1[1..])
          case None => None
          case Some(v) =>
            if v.1 == "" then None
            else if v.1[0] == '}' then Some((More(name.0, v.0, Empty), v.1[1..]))
            else if v.1[0] != ',' then None
            else
              match ReadMembers(v.1[1..])
              case None => None
              case Some(more) => Some((More(name.0, v.0, more.0), more.1))
  }

  /** A whole text as one value. */
  function ReadDocument(s: string): Option<Json> {
    match ReadValue(s)
    case None => None
    case Some(p) => if p.1 == "" then Some(p.0) else None
  }

  // ---------------------------------------------------------------- lookup

  function Find(ms: Members, name: string): Option<Json> {
    match ms
    case Empty => None
    case More(n, v, rest) => if n == name then Some(v) else Find(rest, name)
  }

  function Member(j: Json, name: string): Option<Json> {
    if j.Obj? then Find(j.members, name) else None
  }

  function TextAt(j: Json, name: string): Option<string> {
    match Member(j, name)
    case Some(Str(t)) => Some(t)
    case _ => None
  }

  function BoolAt(j: Json, name: string): Option<bool> {
    match Member(j, name)
    case Some(Bool(b)) => Some(b)
    case _ => None
  }

  function TokenAt(j: Json, name: string): Option<string> {
    match Member(j, name)
    case Some(Num(t)) => Some(t)
    case _ => None
  }

  function IntegerAt(j: Json, name: string): Option<int> {
    match TokenAt(j, name)
    case None => None
    case Some(t) => IntegerOf(t)
  }

  function DecimalDigit(c: char): Option<nat> {
    if c == '0' then Some(0) else if c == '1' then Some(1) else if c == '2' then Some(2)
    else if c == '3' then Some(3) else if c == '4' then Some(4) else if c == '5' then Some(5)
    else if c == '6' then Some(6) else if c == '7' then Some(7) else if c == '8' then Some(8)
    else if c == '9' then Some(9) else None
  }

  /** The number a string of decimal digits stands for. */
  function DigitsValue(s: string): Option<nat> {
    if s == "" then Some(0)
    else
      match (DigitsValue(s[..|s| - 1]), DecimalDigit(s[|s| - 1]))
      case (Some(v), Some(d)) => Some(10 * v + d)
      case _ => None
  }

  function IntegerOf(token: string): Option<int> {
    if token == "" || token == "-" then None
    else
      match DigitsValue(if token[0] == '-' then token[1..] else token)
      case None => None
      case Some(n) => Some(if token[0] == '-' then 0 - n else n)
  }

  // --------------------------------------------------------------- writing

  function Quoted(t: string, more: string): string { "\"" + Escape(t) + "\"" + more }

  function WordText(b: bool): string { if b then "true" else "false" }

  /** A value's text, in front of what follows it. */
  function Put(j: Json, more: string): string {
    match j
    case Str(t) => Quoted(t, more)
    case Num(token) => token + more
    case Bool(b) => WordText(b) + more
    case Obj(ms) => "{" + (if ms.Empty? then "}" + more else PutMembers(ms, more))
  }

  function PutMembers(ms: Members, more: string): string
    requires ms.More?
  {
    Quoted(ms.name, ":" + Put(ms.value, if ms.rest.Empty? then "}" + more else "," + PutMembers(ms.rest, more)))
  }

  /** Every number in the value is a token. */
  predicate Printable(j: Json) {
    match j
    case Str(_) => true
    case Num(token) => NumberToken(token)
    case Bool(_) => true
    case Obj(ms) => PrintableMembers(ms)
  }

  predicate PrintableMembers(ms: Members) {
    ms.Empty? || (Printable(ms.value) && PrintableMembers(ms.rest))
  }

  // ---------------------------------------------------- reading what is written

  lemma HexRead(n: nat)
    requires n < 16
    ensures HexValue(HEX[n]) == Some(n)
  {
  }

  /** An expansion is read as the character it stands for. */
  lemma EscapeRead(c: char, more: string)
    ensures ReadString(EscapeChar(c) + more) == Prepend(c, ReadString(more))
  {
    var e := EscapeChar(c);
    var s := e + more;
    assert s[|e|..] == more;
    if |e| > 2 {
      ControlRead(c, more);
    } else if |e| == 2 {
      assert s[0] == '\\' && s[1] == e[1];
      assert Unescaped(e[1]) == Some(c);
    } else {
      assert s[0] == c && s[1..] == more;
    }
  }

  lemma ControlRead(c: char, more: string)
    requires |EscapeChar(c)| > 2
    ensures ReadString(EscapeChar(c) + more) == Prepend(c, ReadString(more))
  {
    var e := EscapeChar(c);
    SixLetters(c);
    HexRead(c as int / 16);
    HexRead(c as int % 16);
    hide HexValue, HEX;
    var s := e + more;
    assert e[4..] == HexPair(c as int);
    assert e[4] == e[4..][0] && e[5] == e[4..][1];
    assert s[0] == '\\' && s[1] == 'u' && s[2..6] == e[2..6] && s[6..] == more;
    assert HexValue('0') == Some(0) by { HexRead(0); }
    assert CodePoint(s[2..6]) == Some(c);
  }

  lemma {:induction false} StringRead(t: string, more: string)
    ensures ReadString(Escape(t) + "\"" + more) == Some((t, more))
  {
    if t == "" {
      StringEnd(t, more);
    } else {
      LiteralStep(t, more);
      hide EscapeChar, Escape, ReadString;
      EscapeRead(t[0], Escape(t[1..]) + "\"" + more);
      StringRead(t[1..], more);
      assert t == [t[0]] + t[1..];
    }
  }

  lemma StringEnd(t: string, more: string)
    requires t == ""
    ensures ReadString(Escape(t) + "\"" + more) == Some((t, more))
  {
    var s := Escape(t) + "\"" + more;
    assert s[0] == '\"' && s[1..] == more;
  }

  lemma QuotedTail(t: string, more: string)
    ensures Quoted(t, more) != "" && Quoted(t, more)[0] == '\"'
    ensures Quoted(t, more)[1..] == Escape(t) + "\"" + more
  {
    hide Escape;
  }

  lemma {:induction false} WordEnds(word: string, more: string)
    requires ',' !in word && '}' !in word && more != "" && (more[0] == ',' || more[0] == '}')
    ensures WordEnd(word + more) == |word|
  {
    if word == "" {
      assert word + more == more;
    } else {
      assert (word + more)[1..] == word[1..] + more;
      WordEnds(word[1..], more);
    }
  }

  predicate Ends(more: string) { more != "" && (more[0] == ',' || more[0] == '}') }

  lemma WordRead(word: string, v: Json, more: string)
    requires ReadWord(word) == Some(v) && Ends(more)
    ensures ReadValue(word + more) == Some((v, more))
  {
    assert ',' !in word && '}' !in word && word != "" && word[0] != '\"' && word[0] != '{';
    var s := word + more;
    WordEnds(word, more);
    assert s[0] == word[0] && s[..|word|] == word && s[|word|..] == more;
    hide ReadWord, WordEnd, ReadString, ReadMembers;
  }

  lemma TextRead(t: string, more: string)
    ensures ReadValue(Quoted(t, more)) == Some((Str(t), more))
  {
    QuotedTail(t, more);
    StringRead(t, more);
    hide Escape, ReadString, ReadMembers, WordEnd, ReadWord, Quoted;
  }

  /** Reading what is written gives the value back, and what followed it. */
  lemma {:induction false} ValueRead(j: Json, more: string)
    requires Printable(j) && (j.Num? || j.Bool? ==> Ends(more))
    ensures ReadValue(Put(j, more)) == Some((j, more))
    decreases j
  {
    match j
    case Str(t) => TextRead(t, more);
    case Num(token) => NumberRead(token, more);
    case Bool(b) => WordRead(WordText(b), j, more);
    case Obj(ms) =>
      if ms.More? {
        MembersRead(ms, more);
        ObjectRead(ms, more);
      } else {
        NoMembersRead(ms, more);
      }
  }

  lemma NumberRead(token: string, more: string)
    requires NumberToken(token) && Ends(more)
    ensures ReadValue(token + more) == Some((Num(token), more))
  {
    assert !NumberToken("true") by { assert !NumberChar("true"[0]); }
    assert !NumberToken("false") by { assert !NumberChar("false"[2]); }
    WordRead(token, Num(token), more);
  }

  lemma NoMembersRead(ms: Members, more: string)
    requires ms.Empty?
    ensures ReadValue(Put(Obj(ms), more)) == Some((Obj(ms), more))
  {
    var s := Put(Obj(ms), more);
    assert s[0] == '{' && s[1] == '}' && s[2..] == more;
  }

  lemma ObjectRead(ms: Members, more: string)
    requires ms.More? && ReadMembers(PutMembers(ms, more)) == Some((ms, more))
    ensures ReadValue(Put(Obj(ms), more)) == Some((Obj(ms), more))
  {
    var s := Put(Obj(ms), more);
    QuotedTail(ms.name, ":" + Put(ms.value, if ms.rest.Empty? then "}" + more else "," + PutMembers(ms.rest, more)));
    hide Quoted, ReadMembers, ReadString;
    var inner := PutMembers(ms, more);
    assert s[1..] == inner && s[0] == '{' && s[1] == inner[0];
  }

  lemma {:induction false} MembersRead(ms: Members, more: string)
    requires ms.More? && PrintableMembers(ms)
    ensures ReadMembers(PutMembers(ms, more)) == Some((ms, more))
    decreases ms
  {
    var after := if ms.rest.Empty? then "}" + more else "," + PutMembers(ms.rest, more);
    ValueRead(ms.value, after);
    if ms.rest.More? { MembersRead(ms.rest, more); }
    MemberRead(ms, after);
    MembersStep(ms, after, more);
  }

  lemma MemberRead(ms: Members, after: string)
    requires ms.More?
    ensures var s := Quoted(ms.name, ":" + Put(ms.value, after));
            s != "" && s[0] == '\"' && ReadString(s[1..]) == Some((ms.name, ":" + Put(ms.value, after)))
  {
    QuotedTail(ms.name, ":" + Put(ms.value, after));
    StringRead(ms.name, ":" + Put(ms.value, after));
    hide Quoted, Put, ReadString;
  }

  lemma MembersStep(ms: Members, after: string, more: string)
    requires ms.More? && after == if ms.rest.Empty? then "}" + more else "," + PutMembers(ms.rest, more)
    requires ReadValue(Put(ms.value, after)) == Some((ms.value, after))
    requires ms.rest.More? ==> ReadMembers(PutMembers(ms.rest, more)) == Some((ms.rest, more))
    requires var s := Quoted(ms.name, ":" + Put(ms.value, after));
             s != "" && s[0] == '\"' && ReadString(s[1..]) == Some((ms.name, ":" + Put(ms.value, after)))
    ensures ReadMembers(PutMembers(ms, more)) == Some((ms, more))
  {
    hide Quoted, Put, ReadString, ReadValue;
    var tail := ":" + Put(ms.value, after);
    assert tail[0] == ':' && tail[1..] == Put(ms.value, after);
    assert after[1..] == if ms.rest.Empty? then more else PutMembers(ms.rest, more);
    if ms.rest.Empty? { assert ms == More(ms.name, ms.value, Empty); }
  }

  // --------------------------------------------------------------- numbers

  lemma DigitRead(d: nat)
    requires d < 10
    ensures DecimalDigit(DigitOf(d)) == Some(d)
  {
  }

  lemma {:induction false} NaturalRead(n: nat)
    ensures DigitsValue(NatText(n)) == Some(n)
  {
    var s := NatText(n);
    DigitRead(n % 10);
    hide DecimalDigit, DigitOf;
    if n < 10 {
      assert s[..|s| - 1] == "";
      assert DigitsValue(s[..|s| - 1]) == Some(0);
    } else {
      NaturalRead(n / 10);
      assert s[..|s| - 1] == NatText(n / 10);
    }
  }

  /** The integer a printed integer's token stands for is that integer. */
  lemma IntegerRead(x: int)
    ensures NumberToken(IntText(x)) && IntegerOf(IntText(x)) == Some(x)
  {
    var s := IntText(x);
    NaturalRead(if x < 0 then -x else x);
    hide NatText, DigitsValue;
    if x < 0 { assert s[1..] == NatText(-x); }
  }

  // -------------------------------------------------------------- snapshot

  function SectionJson(s: Section): Json {
    Obj(More("id", Str(s.id),
        More("version", Num(NatText(s.version)),
        More("inline_override", Bool(s.inlineOverride),
        More("body_json", Str(s.body), Empty)))))
  }

  function SnapshotJson(s: Snapshot): Json {
    Obj(More("snapshot_version", Num(NatText(1)),
        More("solver_config", SectionJson(s.solverConfig),
        More("risk_limits", SectionJson(s.riskLimits),
        More("fee_model", SectionJson(s.feeModel),
        More("reward_config", SectionJson(s.rewardConfig),
        More("random_seed", Num(IntText(s.randomSeed)),
        More("tolerance", Num(s.tolerance),
        More("avgis_rule", Str(s.avgisRule),
        More("decision_price_source", Str(s.decisionPriceSource), Empty))))))))))
  }

  /** What a document says about a section: its members, by name. */
  ghost predicate SaysSection(doc: Json, key: string, s: Section) {
    var j := Member(doc, key);
    && j.Some?
    && TextAt(j.value, "id") == Some(s.id)
    && IntegerAt(j.value, "version") == Some(s.version)
    && BoolAt(j.value, "inline_override") == Some(s.inlineOverride)
    && TextAt(j.value, "body_json") == Some(s.body)
  }

  /** A document says everything the snapshot holds. */
  ghost predicate Says(doc: Json, s: Snapshot) {
    && IntegerAt(doc, "snapshot_version") == Some(1)
    && SaysSection(doc, "solver_config", s.solverConfig)
    && SaysSection(doc, "risk_limits", s.riskLimits)
    && SaysSection(doc, "fee_model", s.feeModel)
    && SaysSection(doc, "reward_config", s.rewardConfig)
    && IntegerAt(doc, "random_seed") == Some(s.randomSeed)
    && TokenAt(doc, "tolerance") == Some(s.tolerance)
    && TextAt(doc, "avgis_rule") == Some(s.avgisRule)
    && TextAt(doc, "decision_price_source") == Some(s.decisionPriceSource)
  }

  lemma RenderOnto(items: seq<Item>, more: string)
    requires items != []
    ensures Render(items, more) == items[0].gap + Quoted(items[0].text, Render(items[1..], more))
  {
    hide Escape;
    var g, e, r := items[0].gap, Escape(items[0].text), Render(items[1..], more);
    assert g + "\"" + e + "\"" + r == g + ("\"" + e + "\"" + r);
  }

  /** A number or a word between the punctuation of two members. */
  lemma Between(word: string, more: string)
    ensures ":" + word + "," + more == ":" + (word + ("," + more))
  {
  }

  function VersionOn(s: Section, more: string): string {
    ":" + NatText(s.version) + "," + Quoted("inline_override", FlagOn(s, more))
  }

  function FlagOn(s: Section, more: string): string {
    ":" + BoolText(s.inlineOverride) + "," + Quoted("body_json", ":" + Quoted(s.body, "}" + more))
  }

  lemma LastItems(gap: string, key: string, s: Section, more: string)
    ensures Render(SectionItems(gap, key, s)[4..], "}" + more)
         == ":" + NatText(s.version) + "," + Quoted("inline_override", FlagOn(s, more))
  {
    var xs := SectionItems(gap, key, s)[4..];
    var end := "}" + more;
    assert Render(xs[3..], end) == end;
    hide NatText, Render, Quoted;
    RenderOnto(xs[2..], end);
    RenderOnto(xs[1..], end);
    RenderOnto(xs, end);
  }

  /** One section's part of the document is its object's text. */
  lemma SectionWritten(gap: string, key: string, s: Section, more: string)
    ensures Render(SectionItems(gap, key, s), "}" + more)
         == gap + Quoted(key, ":" + Put(SectionJson(s), more))
  {
    var xs := SectionItems(gap, key, s);
    LastItems(gap, key, s, more);
    SectionPut(s, more);
    var end := "}" + more;
    hide NatText, Render, Quoted, Put, FlagOn, BoolText;
    RenderOnto(xs[3..], end);
    RenderOnto(xs[2..], end);
    RenderOnto(xs[1..], end);
    RenderOnto(xs, end);
  }

  lemma SectionPut(s: Section, more: string)
    ensures ":{" + Quoted("id", ":" + Quoted(s.id, "," + Quoted("version", VersionOn(s, more))))
         == ":" + Put(SectionJson(s), more)
  {
    hide NatText, Quoted;
    var body := More("body_json", Str(s.body), Empty);
    var flag := More("inline_override", Bool(s.inlineOverride), body);
    var version := More("version", Num(NatText(s.version)), flag);
    var bodyText := ":" + Quoted(s.body, "}" + more);
    assert PutMembers(body, more) == Quoted("body_json", bodyText);
    Between(BoolText(s.inlineOverride), Quoted("body_json", bodyText));
    assert PutMembers(flag, more) == Quoted("inline_override", FlagOn(s, more));
    Between(NatText(s.version), Quoted("inline_override", FlagOn(s, more)));
    assert PutMembers(version, more) == Quoted("version", VersionOn(s, more));
    var inner := Quoted("id", ":" + Quoted(s.id, "," + Quoted("version", VersionOn(s, more))));
    assert PutMembers(SectionJson(s).members, more) == inner;
    assert ":{" + inner == ":" + ("{" + inner);
  }

  /** The members after the sections. */
  function RuleMembers(s: Snapshot): Members {
    More("avgis_rule", Str(s.avgisRule), More("decision_price_source", Str(s.decisionPriceSource), Empty))
  }

  function LastMembers(s: Snapshot): Members {
    More("random_seed", Num(IntText(s.randomSeed)), More("tolerance", Num(s.tolerance), RuleMembers(s)))
  }

  lemma RulesWritten(s: Snapshot, more: string)
    ensures Render(TailItems(s)[2..], "}" + more) == ":" + s.tolerance + "," + PutMembers(RuleMembers(s), more)
  {
    var xs := TailItems(s)[2..];
    var end := "}" + more;
    assert Render(xs[4..], end) == end;
    hide IntText, Render, Quoted;
    RenderOnto(xs[3..], end);
    RenderOnto(xs[2..], end);
    RenderOnto(xs[1..], end);
    RenderOnto(xs, end);
    RulesPut(s, more);
  }

  lemma RulesPut(s: Snapshot, more: string)
    ensures PutMembers(RuleMembers(s), more)
         == Quoted("avgis_rule", ":" + Quoted(s.avgisRule,
              "," + Quoted("decision_price_source", ":" + Quoted(s.decisionPriceSource, "}" + more))))
  {
    hide Quoted;
    var source := More("decision_price_source", Str(s.decisionPriceSource), Empty);
    assert PutMembers(source, more) == Quoted("decision_price_source", ":" + Quoted(s.decisionPriceSource, "}" + more));
  }

  lemma LastPut(s: Snapshot, more: string)
    ensures PutMembers(LastMembers(s), more)
         == Quoted("random_seed", ":" + IntText(s.randomSeed) + ","
              + Quoted("tolerance", ":" + s.tolerance + "," + PutMembers(RuleMembers(s), more)))
  {
    hide Quoted, IntText;
    var rules := PutMembers(RuleMembers(s), more);
    var tolerance := More("tolerance", Num(s.tolerance), RuleMembers(s));
    Between(s.tolerance, rules);
    assert PutMembers(tolerance, more) == Quoted("tolerance", ":" + s.tolerance + "," + rules);
    Between(IntText(s.randomSeed), PutMembers(tolerance, more));
  }

  lemma TailWritten(s: Snapshot, more: string)
    ensures Render(TailItems(s), "}" + more) == "}" + ("," + PutMembers(LastMembers(s), more))
  {
    var xs := TailItems(s);
    RulesWritten(s, more);
    LastPut(s, more);
    var end := "}" + more;
    hide IntText, Render, Quoted, PutMembers;
    RenderOnto(xs[1..], end);
    RenderOnto(xs, end);
    var inner := PutMembers(LastMembers(s), more);
    assert "}," + inner == "}" + ("," + inner);
  }

  /** A section in front of members already written. */
  lemma SectionThen(gap: string, key: string, s: Section, ys: seq<Item>, end: string, next: Members, more: string)
    requires next.More? && Render(ys, end) == "}" + ("," + PutMembers(next, more))
    ensures Render(SectionItems(gap, key, s) + ys, end) == gap + PutMembers(More(key, SectionJson(s), next), more)
  {
    hide Render, Quoted, SectionItems, SectionJson;
    RenderAppend(SectionItems(gap, key, s), ys, end);
    SectionWritten(gap, key, s, "," + PutMembers(next, more));
  }

  lemma Comma(text: string)
    ensures "}," + text == "}" + ("," + text)
  {
  }

  function RewardMembers(s: Snapshot): Members { More("reward_config", SectionJson(s.rewardConfig), LastMembers(s)) }

  function FeeMembers(s: Snapshot): Members { More("fee_model", SectionJson(s.feeModel), RewardMembers(s)) }

  function RiskMembers(s: Snapshot): Members { More("risk_limits", SectionJson(s.riskLimits), FeeMembers(s)) }

  function SolverMembers(s: Snapshot): Members { More("solver_config", SectionJson(s.solverConfig), RiskMembers(s)) }

  function LastItemsOf(s: Snapshot): seq<Item> {
    SectionItems("},", "fee_model", s.feeModel)
    + (SectionItems("},", "reward_config", s.rewardConfig) + TailItems(s))
  }

  lemma LastSectionsWritten(s: Snapshot, more: string)
    ensures Render(LastItemsOf(s), "}" + more) == "}" + ("," + PutMembers(FeeMembers(s), more))
  {
    hide Render, SectionItems, SectionJson, TailItems, PutMembers, LastMembers;
    var end := "}" + more;
    TailWritten(s, more);
    LastIsMore(s);
    SectionThen("},", "reward_config", s.rewardConfig, TailItems(s), end, LastMembers(s), more);
    var ys := SectionItems("},", "reward_config", s.rewardConfig) + TailItems(s);
    Comma(PutMembers(RewardMembers(s), more));
    SectionThen("},", "fee_model", s.feeModel, ys, end, RewardMembers(s), more);
    Comma(PutMembers(FeeMembers(s), more));
  }

  lemma LastIsMore(s: Snapshot)
    ensures LastMembers(s).More?
  {
  }

  lemma SectionsWritten(s: Snapshot, more: string)
    ensures Render(SectionItems(":" + NatText(1) + ",", "solver_config", s.solverConfig)
                   + (SectionItems("},", "risk_limits", s.riskLimits) + LastItemsOf(s)), "}" + more)
         == ":" + NatText(1) + "," + PutMembers(SolverMembers(s), more)
  {
    hide Render, SectionItems, SectionJson, PutMembers, LastItemsOf, NatText;
    var end := "}" + more;
    LastSectionsWritten(s, more);
    SectionThen("},", "risk_limits", s.riskLimits, LastItemsOf(s), end, FeeMembers(s), more);
    var ys := SectionItems("},", "risk_limits", s.riskLimits) + LastItemsOf(s);
    Comma(PutMembers(RiskMembers(s), more));
    SectionThen(":" + NatText(1) + ",", "solver_config", s.solverConfig, ys, end, RiskMembers(s), more);
  }

  lemma ItemsGrouped(s: Snapshot)
    ensures Items(s) == HeadItems()
                      + (SectionItems(":" + NatText(1) + ",", "solver_config", s.solverConfig)
                         + (SectionItems("},", "risk_limits", s.riskLimits) + LastItemsOf(s)))
  {
    hide NatText, SectionItems, TailItems;
  }

  /** The stored document is the text of this object. */
  lemma SnapshotWritten(s: Snapshot, more: string)
    ensures Render(Items(s), "}" + more) == Put(SnapshotJson(s), more)
  {
    var rest := SectionItems(":" + NatText(1) + ",", "solver_config", s.solverConfig)
                + (SectionItems("},", "risk_limits", s.riskLimits) + LastItemsOf(s));
    ItemsGrouped(s);
    SectionsWritten(s, more);
    hide NatText, SectionItems, LastItemsOf, Items, Quoted, SectionJson;
    var items := HeadItems() + rest;
    assert items[1..] == rest;
    RenderOnto(items, "}" + more);
    SnapshotPut(s, more);
  }

  lemma VersionPut(next: Members, more: string)
    requires next.More?
    ensures PutMembers(More("snapshot_version", Num(NatText(1)), next), more)
         == Quoted("snapshot_version", ":" + NatText(1) + "," + PutMembers(next, more))
  {
    hide NatText, Quoted;
    Between(NatText(1), PutMembers(next, more));
  }

  lemma SnapshotPut(s: Snapshot, more: string)
    ensures Put(SnapshotJson(s), more)
         == "{" + Quoted("snapshot_version", ":" + NatText(1) + "," + PutMembers(SolverMembers(s), more))
  {
    SnapshotMembers(s);
    var next := SolverMembers(s);
    VersionPut(next, more);
    hide NatText, Quoted, SnapshotJson, SolverMembers;
  }

  lemma PrintableMore(name: string, v: Json, rest: Members)
    requires Printable(v) && PrintableMembers(rest)
    ensures PrintableMembers(More(name, v, rest)) && Printable(Obj(More(name, v, rest)))
  {
  }

  lemma NoMembersPrintable(ms: Members)
    requires ms.Empty?
    ensures PrintableMembers(ms)
  {
  }

  lemma SectionPrintable(s: Section)
    ensures Printable(SectionJson(s))
  {
    NumeralsQuoteFree(s.version);
    IntegerRead(s.version);
    WordsPrintable(s.id, NatText(s.version), s.inlineOverride);
    WordsPrintable(s.body, NatText(s.version), s.inlineOverride);
    NoMembersPrintable(Empty);
    hide NatText, IntText, NumberToken, Printable, PrintableMembers;
    var body := More("body_json", Str(s.body), Empty);
    PrintableMore("body_json", Str(s.body), Empty);
    var flag := More("inline_override", Bool(s.inlineOverride), body);
    PrintableMore("inline_override", Bool(s.inlineOverride), body);
    PrintableMore("version", Num(NatText(s.version)), flag);
    PrintableMore("id", Str(s.id), More("version", Num(NatText(s.version)), flag));
  }

  lemma WordsPrintable(t: string, token: string, b: bool)
    requires NumberToken(token)
    ensures Printable(Str(t)) && Printable(Num(token)) && Printable(Bool(b))
  {
  }

  lemma LastPrintable(s: Snapshot)
    ensures PrintableMembers(LastMembers(s))
  {
    IntegerRead(s.randomSeed);
    WordsPrintable(s.avgisRule, IntText(s.randomSeed), true);
    WordsPrintable(s.decisionPriceSource, s.tolerance, true);
    NoMembersPrintable(Empty);
    hide IntText, NumberToken, Printable, PrintableMembers;
    PrintableMore("decision_price_source", Str(s.decisionPriceSource), Empty);
    PrintableMore("avgis_rule", Str(s.avgisRule), RuleMembers(s).rest);
    PrintableMore("tolerance", Num(s.tolerance), RuleMembers(s));
    PrintableMore("random_seed", Num(IntText(s.randomSeed)), LastMembers(s).rest);
  }

  lemma SnapshotPrintable(s: Snapshot)
    ensures Printable(SnapshotJson(s))
  {
    NumeralsQuoteFree(1);
    IntegerRead(1);
    WordsPrintable("", NatText(1), true);
    SnapshotMembers(s);
    LastPrintable(s);
    hide NatText, IntText, NumberToken, Printable, PrintableMembers, SectionJson, LastMembers, SnapshotJson;
    SectionPrintable(s.solverConfig);
    SectionPrintable(s.riskLimits);
    SectionPrintable(s.feeModel);
    SectionPrintable(s.rewardConfig);
    PrintableMore("reward_config", SectionJson(s.rewardConfig), LastMembers(s));
    PrintableMore("fee_model", SectionJson(s.feeModel), RewardMembers(s));
    PrintableMore("risk_limits", SectionJson(s.riskLimits), FeeMembers(s));
    PrintableMore("solver_config", SectionJson(s.solverConfig), RiskMembers(s));
    PrintableMore("snapshot_version", Num(NatText(1)), SolverMembers(s));
  }

  lemma SnapshotMembers(s: Snapshot)
    ensures SnapshotJson(s) == Obj(More("snapshot_version", Num(NatText(1)), SolverMembers(s)))
  {
    hide NatText, IntText;
  }

  lemma FindHere(name: string, v: Json, rest: Members)
    ensures Find(More(name, v, rest), name) == Some(v)
  {
  }

  /** A member is still found behind one of another name. */
  lemma FindBehind(name: string, v: Json, rest: Members, key: string)
    requires name != key
    ensures Find(More(name, v, rest), key) == Find(rest, key)
  {
  }

  lemma SectionSays(doc: Json, key: string, s: Section)
    requires Member(doc, key) == Some(SectionJson(s))
    ensures SaysSection(doc, key, s)
  {
    NumeralsQuoteFree(s.version);
    IntegerRead(s.version);
    hide NatText, IntText, IntegerOf, Find;
    var body := More("body_json", Str(s.body), Empty);
    var flag := More("inline_override", Bool(s.inlineOverride), body);
    var version := More("version", Num(NatText(s.version)), flag);
    FindHere("id", Str(s.id), version);
    FindHere("version", Num(NatText(s.version)), flag);
    FindHere("inline_override", Bool(s.inlineOverride), body);
    FindHere("body_json", Str(s.body), Empty);
    FindBehind("id", Str(s.id), version, "version");
    FindBehind("id", Str(s.id), version, "inline_override");
    FindBehind("id", Str(s.id), version, "body_json");
    FindBehind("version", Num(NatText(s.version)), flag, "inline_override");
    FindBehind("version", Num(NatText(s.version)), flag, "body_json");
    FindBehind("inline_override", Bool(s.inlineOverride), body, "body_json");
  }

  /** A key that is none of the first five members' is looked for in the last ones. */
  lemma BehindSections(s: Snapshot, key: string)
    requires key != "snapshot_version" && key != "solver_config" && key != "risk_limits"
    requires key != "fee_model" && key != "reward_config"
    ensures Member(SnapshotJson(s), key) == Find(LastMembers(s), key)
  {
    SnapshotMembers(s);
    hide NatText, SectionJson, LastMembers, SnapshotJson, Find;
    FindBehind("snapshot_version", Num(NatText(1)), SolverMembers(s), key);
    FindBehind("solver_config", SectionJson(s.solverConfig), RiskMembers(s), key);
    FindBehind("risk_limits", SectionJson(s.riskLimits), FeeMembers(s), key);
    FindBehind("fee_model", SectionJson(s.feeModel), RewardMembers(s), key);
    FindBehind("reward_config", SectionJson(s.rewardConfig), LastMembers(s), key);
  }

  lemma SectionsFound(s: Snapshot)
    ensures var doc := SnapshotJson(s);
            && Member(doc, "snapshot_version") == Some(Num(NatText(1)))
            && Member(doc, "solver_config") == Some(SectionJson(s.solverConfig))
            && Member(doc, "risk_limits") == Some(SectionJson(s.riskLimits))
            && Member(doc, "fee_model") == Some(SectionJson(s.feeModel))
            && Member(doc, "reward_config") == Some(SectionJson(s.rewardConfig))
  {
    SnapshotMembers(s);
    hide NatText, SectionJson, LastMembers, SnapshotJson, Find;
    var version, solver, risk := Num(NatText(1)), SectionJson(s.solverConfig), SectionJson(s.riskLimits);
    var fee, reward := SectionJson(s.feeModel), SectionJson(s.rewardConfig);
    FindHere("snapshot_version", version, SolverMembers(s));
    FindHere("solver_config", solver, RiskMembers(s));
    FindHere("risk_limits", risk, FeeMembers(s));
    FindHere("fee_model", fee, RewardMembers(s));
    FindHere("reward_config", reward, LastMembers(s));
    FindBehind("snapshot_version", version, SolverMembers(s), "solver_config");
    FindBehind("snapshot_version", version, SolverMembers(s), "risk_limits");
    FindBehind("snapshot_version", version, SolverMembers(s), "fee_model");
    FindBehind("snapshot_version", version, SolverMembers(s), "reward_config");
    FindBehind("solver_config", solver, RiskMembers(s), "risk_limits");
    FindBehind("solver_config", solver, RiskMembers(s), "fee_model");
    FindBehind("solver_config", solver, RiskMembers(s), "reward_config");
    FindBehind("risk_limits", risk, FeeMembers(s), "fee_model");
    FindBehind("risk_limits", risk, FeeMembers(s), "reward_config");
    FindBehind("fee_model", fee, RewardMembers(s), "reward_config");
  }

  lemma LastFound(s: Snapshot)
    ensures var doc := SnapshotJson(s);
            && Member(doc, "random_seed") == Some(Num(IntText(s.randomSeed)))
            && Member(doc, "tolerance") == Some(Num(s.tolerance))
            && Member(doc, "avgis_rule") == Some(Str(s.avgisRule))
            && Member(doc, "decision_price_source") == Some(Str(s.decisionPriceSource))
  {
    BehindSections(s, "random_seed");
    BehindSections(s, "tolerance");
    BehindSections(s, "avgis_rule");
    BehindSections(s, "decision_price_source");
    hide IntText, SnapshotJson, Find, Member;
    var seed, tolerance := Num(IntText(s.randomSeed)), Num(s.tolerance);
    var rule, source := Str(s.avgisRule), Str(s.decisionPriceSource);
    var rules := RuleMembers(s);
    FindHere("random_seed", seed, LastMembers(s).rest);
    FindHere("tolerance", tolerance, rules);
    FindHere("avgis_rule", rule, rules.rest);
    FindHere("decision_price_source", source, Empty);
    FindBehind("random_seed", seed, LastMembers(s).rest, "tolerance");
    FindBehind("random_seed", seed, LastMembers(s).rest, "avgis_rule");
    FindBehind("random_seed", seed, LastMembers(s).rest, "decision_price_source");
    FindBehind("tolerance", tolerance, rules, "avgis_rule");
    FindBehind("tolerance", tolerance, rules, "decision_price_source");
    FindBehind("avgis_rule", rule, rules.rest, "decision_price_source");
  }

  lemma SnapshotSays(s: Snapshot)
    ensures Says(SnapshotJson(s), s)
  {
    NumeralsQuoteFree(1);
    IntegerRead(1);
    IntegerRead(s.randomSeed);
    SectionsFound(s);
    LastFound(s);
    hide NatText, IntText, IntegerOf, SectionJson, SaysSection, SnapshotJson, Member;
    var doc := SnapshotJson(s);
    SectionSays(doc, "solver_config", s.solverConfig);
    SectionSays(doc, "risk_limits", s.riskLimits);
    SectionSays(doc, "fee_model", s.feeModel);
    SectionSays(doc, "reward_config", s.rewardConfig);
  }

  /**
    The stored document is one JSON object, and read as JSON it says everything the snapshot
    holds: under each key the id, version, flag and body of that section, and the schema
    version, seed, tolerance and rules.
   */
  lemma SnapshotDecoded(s: Snapshot)
    ensures var doc := ReadDocument(SnapshotText(s)); doc.Some? && Says(doc.value, s)
  {
    hide Render, Put, Printable, ReadValue, Says, SnapshotJson, Items;
    var more := "";
    assert "}" + more == "}";
    SnapshotWritten(s, more);
    SnapshotPrintable(s);
    SnapshotIsObject(s);
    ValueRead(SnapshotJson(s), more);
    SnapshotSays(s);
  }

  lemma SnapshotIsObject(s: Snapshot)
    ensures SnapshotJson(s).Obj?
  {
  }
}
