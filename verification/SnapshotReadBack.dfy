/**
  Reading a snapshot document back with the determinism checker's scanner: what it
  returns for every snapshot, and when that is what was written.
 */
module SnapshotReadBack {
  import opened ConfigSnapshot
  import opened DeterminismScanner
  import opened Digits
  import opened Texts
  import opened Wrappers
  import DM = DecimalMath

  const SEED_KEY: string := "random_seed"
  const VERSION_KEY: string := "snapshot_version"
  const TOLERANCE_KEY: string := "tolerance"

  predicate IsName(s: string) {
    s != "" && forall i :: 0 <= i < |s| ==> 'a' <= s[i] <= 'z' || s[i] == '_'
  }

  lemma NameIsPlain(s: string)
    requires IsName(s)
    ensures PlainKey(s) && Escape(s) == s
    ensures '\"' !in s && ':' !in s
  {
    forall i | 0 <= i < |s| ensures EscapeChar(s[i]) == [s[i]] && s[i] != ':' {
      LetterIsPlain(s[i]);
    }
    hide EscapeChar;
    EscapePlain(s);
    PlainKeyHasNo(s);
  }

  lemma LetterIsPlain(c: char)
    requires 'a' <= c <= 'z' || c == '_'
    ensures EscapeChar(c) == [c]
  {
  }

  /** A name other than the key never looks like the key. */
  lemma OtherName(text: string, key: string)
    requires IsName(text) && text != key
    ensures !Hit(text, key)
  {
    if EndsWith(text, "\"" + key) { QuoteBefore(text, key); }
  }

  lemma QuoteBefore(text: string, key: string)
    requires EndsWith(text, "\"" + key)
    ensures text[|text| - |key| - 1] == '\"'
  {
    assert text[|text| - |key| - 1..][0] == ("\"" + key)[0];
  }

  // ------------------------------------------------------ reading a value

  /** A value behind a colon, ended by a comma or a brace. */
  lemma ValueBehindColon(prefix: string, value: string, more: string)
    requires ':' !in prefix && value != "" && !IsSpace(value[0])
    requires forall c :: c in value ==> !EndsValue(c)
    requires more != "" && EndsValue(more[0])
    ensures ValueText(prefix + (":" + (value + more))) == Some(value)
  {
    var s := prefix + (":" + (value + more));
    FirstIndex(prefix, ":" + (value + more), ':');
    assert s[|prefix| + 1..] == value + more;
    UpToEndOf(value, more);
  }

  lemma {:induction false} UpToEndOf(value: string, more: string)
    requires forall c :: c in value ==> !EndsValue(c)
    requires more != "" && EndsValue(more[0])
    ensures UpToEnd(value + more) == value
  {
    if value == "" {
      assert value + more == more;
    } else {
      assert (value + more)[1..] == value[1..] + more;
      assert value[0] in value;
      UpToEndOf(value[1..], more);
      assert value == [value[0]] + value[1..];
    }
  }

  lemma BraceIsNoNumber(v: string)
    requires v != "" && v[0] == '{'
    ensures Stoll(v) == None
  {
  }

  /** An object behind the colon is read from its brace on. */
  lemma ObjectBehindColon(prefix: string, more: string)
    requires ':' !in prefix
    ensures var v := ValueText(prefix + (":{" + more)); v.Some? && v.value != "" && v.value[0] == '{'
  {
    var s := prefix + (":{" + more);
    Regroup(":", "{", more);
    FirstIndex(prefix, ":{" + more, ':');
    assert s[|prefix| + 1..] == "{" + more;
    hide IndexOf;
  }

  lemma NumberIsRead(x: int)
    requires DM.FitsInt64(x)
    ensures Stoll(IntText(x)) == Some(x)
    ensures IntText(x) != "" && !IsSpace(IntText(x)[0])
    ensures forall c :: c in IntText(x) ==> !EndsValue(c)
  {
    NumeralsQuoteFree(x);
    hide NatText;
    var s := IntText(x);
    assert s[0] == '-' || IsDigit(s[0]);
    LeadingIntOfText(x, "");
    assert s + "" == s;
  }

  /** What follows a numeral field: the colon, the number, and the next literal. */
  lemma NumberBehindLiteral(prefix: string, x: int, more: string)
    requires ':' !in prefix && DM.FitsInt64(x)
    ensures ValueText(prefix + (":" + IntText(x) + "," + more)) == Some(IntText(x))
  {
    NumberIsRead(x);
    hide IntText, Stoll, ValueText;
    ValueBehindColon(prefix, IntText(x), "," + more);
    Regroup(":", IntText(x), "," + more);
    Regroup(":" + IntText(x), ",", more);
  }

  /** `key` literal, then a field whose gap is a colon, a number and a comma. */
  lemma NumberAfterItem(first: Item, second: Item, items: seq<Item>, tail: string, x: int)
    requires IsName(first.text) && ':' !in first.gap && DM.FitsInt64(x)
    requires second.gap == ":" + IntText(x) + ","
    ensures ValueText(Render([first, second] + items, tail)) == Some(IntText(x))
  {
    NameIsPlain(first.text);
    var lead := Literal(first);
    assert ':' !in lead by { assert lead == first.gap + "\"" + first.text + "\""; }
    var more := TextAfterGap(second, items, tail, IntText(x));
    RenderTwo(first, second, items, tail);
    hide Render, Literal, IntText, ValueText, Stoll;
    NumberBehindLiteral(lead, x, more);
  }

  lemma RenderTwo(first: Item, second: Item, items: seq<Item>, tail: string)
    ensures Render([first, second] + items, tail) == Literal(first) + Render([second] + items, tail)
  {
    assert ([first, second] + items)[1..] == [second] + items;
  }

  lemma TextAfterGap(second: Item, items: seq<Item>, tail: string, t: string) returns (more: string)
    requires second.gap == ":" + t + ","
    ensures Render([second] + items, tail) == ":" + t + "," + more
  {
    more := "\"" + Escape(second.text) + "\"" + Render(items, tail);
    assert ([second] + items)[1..] == items;
    hide Escape;
    var g, e := second.gap, Escape(second.text);
    Regroup(g, "\"", e);
    Regroup(g, "\"" + e, "\"");
    Regroup(g, "\"" + e + "\"", Render(items, tail));
  }

  // ------------------------------------------------- scanning the document

  lemma {:induction false} AfterHitAppend(xs: seq<Item>, ys: seq<Item>, key: string)
    ensures AfterHit(xs + ys, key)
         == match AfterHit(xs, key)
            case None => AfterHit(ys, key)
            case Some(more) => Some(more + ys)
  {
    if xs == [] {
      assert xs + ys == ys;
    } else {
      hide Hit;
      assert (xs + ys)[1..] == xs[1..] + ys;
      AfterHitAppend(xs[1..], ys, key);
    }
  }

  predicate SectionName(key: string) {
    key == "solver_config" || key == "risk_limits" || key == "fee_model" || key == "reward_config"
  }

  /** A key no literal of a section's own layout is equal to. */
  predicate ForeignKey(key: string) {
    IsName(key) && !SectionName(key) && key != "id" && key != "version"
    && key != "inline_override" && key != "body_json"
  }

  function AfterId(s: Section): seq<Item> {
    [Item(",", "version"), Item(":" + NatText(s.version) + ",", "inline_override"),
     Item(":" + BoolText(s.inlineOverride) + ",", "body_json"), Item(":", s.body)]
  }

  lemma LayoutNames()
    ensures IsName("id") && IsName("version") && IsName("inline_override") && IsName("body_json")
    ensures IsName("solver_config") && IsName("risk_limits")
    ensures IsName("fee_model") && IsName("reward_config")
  {
  }

  /** Within a section only the stored id and body can stop the scanner. */
  lemma SectionScan(gap: string, name: string, s: Section, key: string)
    requires ForeignKey(key) && SectionName(name)
    ensures AfterHit(SectionItems(gap, name, s), key)
         == if Hit(s.id, key) then Some(AfterId(s)) else if Hit(s.body, key) then Some([]) else None
  {
    LayoutNames();
    OtherName(name, key);
    OtherName("id", key);
    OtherName("version", key);
    OtherName("inline_override", key);
    OtherName("body_json", key);
    hide Hit, NatText, IsName;
    var xs := SectionItems(gap, name, s);
    AfterHitStep(xs, key);
    AfterHitStep(xs[1..], key);
    AfterHitStep(xs[2..], key);
    AfterHitStep(xs[3..], key);
    AfterHitStep(xs[4..], key);
    AfterHitStep(xs[5..], key);
    AfterHitStep(xs[6..], key);
    assert xs[3..] == AfterId(s) && xs[7..] == [];
  }

  lemma AfterHitStep(xs: seq<Item>, key: string)
    requires xs != []
    ensures AfterHit(xs, key) == if Hit(xs[0].text, key) then Some(xs[1..]) else AfterHit(xs[1..], key)
    ensures forall n :: 1 <= n <= |xs| ==> xs[1..][n - 1..] == xs[n..]
  {
  }

  // -------------------------------------------------------- what is read

  /** What a parser makes of the text found, if any is. */
  function Parsed<V>(text: Option<string>, parse: string -> Option<V>): Option<V> {
    if text.None? then None else parse(text.value)
  }

  /** The scanner with any number parser: `std::stoll` for the seed, `std::stod` for the tolerance. */
  function ReadWith<V>(json: string, key: string, parse: string -> Option<V>): Option<V> {
    Parsed(ReadValue(json, key), parse)
  }

  /** No number starts with a brace. */
  ghost predicate RejectsObjects<V>(parse: string -> Option<V>) {
    forall v: string :: v != "" && v[0] == '{' ==> parse(v).None?
  }

  lemma StollIsSuchAParser()
    ensures RejectsObjects(Stoll)
  {
    forall v: string | v != "" && v[0] == '{' ensures Stoll(v).None? { BraceIsNoNumber(v); }
  }

  /** The value read from the items left after the key. */
  function ReadItems<V>(items: seq<Item>, parse: string -> Option<V>): Option<V> {
    Parsed(ValueText(Render(items, "}")), parse)
  }

  predicate Punctuated(items: seq<Item>) {
    forall i :: 0 <= i < |items| ==>
      items[i].gap != "" && items[i].gap[0] in {'{', '}', ':', ','}
  }

  lemma ItemsPunctuated(s: Snapshot)
    ensures Punctuated(Items(s))
  {
    hide NatText, IntText;
    SectionPunctuated(":" + NatText(SCHEMA_VERSION) + ",", "solver_config", s.solverConfig);
    SectionPunctuated("},", "risk_limits", s.riskLimits);
    SectionPunctuated("},", "fee_model", s.feeModel);
    SectionPunctuated("},", "reward_config", s.rewardConfig);
    assert Punctuated(HeadItems()) && Punctuated(TailItems(s));
    hide SectionItems, TailItems, HeadItems;
  }

  lemma SectionPunctuated(gap: string, key: string, s: Section)
    requires gap != "" && gap[0] in {'{', '}', ':', ','}
    ensures Punctuated(SectionItems(gap, key, s))
  {
    hide NatText;
  }

  /** The scanner over a snapshot document, for any key made of letters and underscores. */
  lemma ScanSnapshot(s: Snapshot, key: string)
    requires IsName(key)
    ensures After(SnapshotText(s), Quoted(key))
         == match AfterHit(Items(s), key)
            case None => None
            case Some(more) => Some(Render(more, "}"))
  {
    NameIsPlain(key);
    ItemsQuoteFree(s);
    ItemsPunctuated(s);
    hide Items, Hit, PlainKey, Escape;
    var items := Items(s);
    forall i | 0 <= i < |items| ensures '\"' !in items[i].gap && items[i].gap != key {
      assert items[i].gap[0] in {'{', '}', ':', ','};
    }
    ScannerStopsAtHit(items, "}", key);
  }

  /** After an id that looks like the key the scanner reads that section's version. */
  lemma ReadAfterId<V>(s: Section, more: seq<Item>, parse: string -> Option<V>)
    ensures ReadItems(AfterId(s) + more, parse) == parse(NatText(s.version))
  {
    hide NatText, ValueText, Render, IsName;
    LayoutNames();
    NumeralsQuoteFree(s.version);
    var xs := AfterId(s) + more;
    assert xs == [xs[0], xs[1]] + xs[2..];
    NumberAfterItem(xs[0], xs[1], xs[2..], "}", s.version);
  }

  /** After a body that looks like the key, the next section's brace is no number. */
  lemma ReadAtSection<V>(name: string, s: Section, more: seq<Item>, parse: string -> Option<V>)
    requires SectionName(name) && RejectsObjects(parse)
    ensures ReadItems(SectionItems("},", name, s) + more, parse) == None
  {
    LayoutNames();
    var xs := SectionItems("},", name, s) + more;
    var ys := xs[2..];
    assert xs == [Item("},", name), Item(":{", "id")] + ys by { hide NatText; }
    hide SectionItems;
    ObjectAfterItem(Item("},", name), Item(":{", "id"), ys);
  }

  lemma ObjectAfterItem(first: Item, second: Item, items: seq<Item>)
    requires IsName(first.text) && ':' !in first.gap && second.gap == ":{"
    ensures var v := ValueText(Render([first, second] + items, "}")); v.Some? && v.value != "" && v.value[0] == '{'
  {
    NameIsPlain(first.text);
    var lead := Literal(first);
    assert ':' !in lead by { assert lead == first.gap + "\"" + first.text + "\""; }
    RenderTwo(first, second, items, "}");
    var more := "\"" + (Escape(second.text) + "\"" + Render(items, "}"));
    assert ([second] + items)[1..] == items;
    RenderOpens([second] + items, "}");
    hide Literal, Escape, ValueText, Render;
    ObjectBehindColon(lead, more);
  }

  /** At the seed's own literal, or right behind it. */
  lemma ReadAtTail<V>(s: Snapshot, parse: string -> Option<V>)
    ensures ReadItems(TailItems(s), parse) == parse(IntText(s.randomSeed))
    ensures ReadItems(TailItems(s)[1..], parse) == parse(IntText(s.randomSeed))
  {
    hide IntText, ValueText, Render;
    var xs := TailItems(s);
    assert IsName("random_seed");
    assert xs == [xs[0], xs[1]] + xs[2..];
    NumberAfterItem(xs[0], xs[1], xs[2..], "}", s.randomSeed);
    assert xs[1..] == [xs[1]] + xs[2..];
    var more := TextAfterGap(xs[1], xs[2..], "}", IntText(s.randomSeed));
    NumberBehindLiteral("", s.randomSeed, more);
    assert "" + (":" + IntText(s.randomSeed) + "," + more) == ":" + IntText(s.randomSeed) + "," + more;
  }

  /** The keys behind the sections, and the text each of them is written with. */
  predicate TailKey(key: string) { key == SEED_KEY || key == TOLERANCE_KEY }

  function OwnText(s: Snapshot, key: string): string {
    if key == SEED_KEY then IntText(s.randomSeed) else s.tolerance
  }

  /** What one section makes of the scan: a version, whatever follows its body, or nothing yet. */
  function SectionSeen<V>(s: Section, key: string, parse: string -> Option<V>, afterBody: Option<V>, next: Option<V>)
    : Option<V>
  {
    if Hit(s.id, key) then parse(NatText(s.version)) else if Hit(s.body, key) then afterBody else next
  }

  function RewardSeen<V>(s: Snapshot, key: string, parse: string -> Option<V>): Option<V> {
    SectionSeen(s.rewardConfig, key, parse, parse(IntText(s.randomSeed)), parse(OwnText(s, key)))
  }

  function FeeSeen<V>(s: Snapshot, key: string, parse: string -> Option<V>): Option<V> {
    SectionSeen(s.feeModel, key, parse, None, RewardSeen(s, key, parse))
  }

  function RiskSeen<V>(s: Snapshot, key: string, parse: string -> Option<V>): Option<V> {
    SectionSeen(s.riskLimits, key, parse, None, FeeSeen(s, key, parse))
  }

  /** What is read for a key, from the first section on. */
  function KeySeen<V>(s: Snapshot, key: string, parse: string -> Option<V>): Option<V> {
    SectionSeen(s.solverConfig, key, parse, None, RiskSeen(s, key, parse))
  }

  lemma SeedKeyIsForeign()
    ensures ForeignKey(SEED_KEY) && SEED_KEY != VERSION_KEY && IsName(VERSION_KEY)
    ensures ForeignKey(TOLERANCE_KEY) && TOLERANCE_KEY != VERSION_KEY && TOLERANCE_KEY != SEED_KEY
  {
  }

  /** The value read by a scan of these items. */
  function Scanned<V>(items: seq<Item>, key: string, parse: string -> Option<V>): Option<V> {
    match AfterHit(items, key)
    case None => None
    case Some(more) => ReadItems(more, parse)
  }

  lemma SectionRead<V>(name: string, s: Section, more: seq<Item>, gap: string, key: string, parse: string -> Option<V>)
    requires SectionName(name) && TailKey(key)
    ensures Scanned(SectionItems(gap, name, s) + more, key, parse)
         == SectionSeen(s, key, parse, ReadItems(more, parse), Scanned(more, key, parse))
  {
    SeedKeyIsForeign();
    hide ForeignKey, SectionName, Hit, ReadItems, SectionItems, AfterHit, NatText;
    SectionScan(gap, name, s, key);
    AfterHitAppend(SectionItems(gap, name, s), more, key);
    ReadAfterId(s, more, parse);
    assert [] + more == more;
  }

  // The document's items from each section on.
  function FromReward(s: Snapshot): seq<Item> {
    SectionItems("},", "reward_config", s.rewardConfig) + TailItems(s)
  }

  function FromFee(s: Snapshot): seq<Item> {
    SectionItems("},", "fee_model", s.feeModel) + FromReward(s)
  }

  function FromRisk(s: Snapshot): seq<Item> {
    SectionItems("},", "risk_limits", s.riskLimits) + FromFee(s)
  }

  function FirstGap(): string { ":" + NatText(SCHEMA_VERSION) + "," }

  function FromSolver(s: Snapshot): seq<Item> {
    SectionItems(FirstGap(), "solver_config", s.solverConfig) + FromRisk(s)
  }

  lemma ItemsNested(s: Snapshot)
    ensures Items(s) == HeadItems() + FromSolver(s)
  {
    hide SectionItems, TailItems, HeadItems, NatText;
  }

  lemma TailRead<V>(s: Snapshot, key: string, parse: string -> Option<V>)
    requires TailKey(key)
    ensures Scanned(TailItems(s), key, parse) == parse(OwnText(s, key))
  {
    TailScan(s);
    ReadAtTail(s, parse);
    ToleranceBehind(s);
    hide TailItems, AfterHit, ValueText, Render, IntText;
  }

  lemma FromRewardRead<V>(s: Snapshot, key: string, parse: string -> Option<V>)
    requires TailKey(key)
    ensures Scanned(FromReward(s), key, parse) == RewardSeen(s, key, parse)
  {
    NamesOfSections();
    TailRead(s, key, parse);
    ReadAtTail(s, parse);
    SectionRead("reward_config", s.rewardConfig, TailItems(s), "},", key, parse);
    hide SectionItems, TailItems, Scanned, ReadItems, SectionSeen, OwnText, IntText;
  }

  lemma FromFeeRead<V>(s: Snapshot, key: string, parse: string -> Option<V>)
    requires TailKey(key) && RejectsObjects(parse)
    ensures Scanned(FromFee(s), key, parse) == FeeSeen(s, key, parse)
  {
    NamesOfSections();
    FromRewardRead(s, key, parse);
    ReadAtSection("reward_config", s.rewardConfig, TailItems(s), parse);
    SectionRead("fee_model", s.feeModel, FromReward(s), "},", key, parse);
    hide SectionItems, TailItems, Scanned, ReadItems, SectionSeen, RewardSeen;
  }

  lemma FromRiskRead<V>(s: Snapshot, key: string, parse: string -> Option<V>)
    requires TailKey(key) && RejectsObjects(parse)
    ensures Scanned(FromRisk(s), key, parse) == RiskSeen(s, key, parse)
  {
    NamesOfSections();
    FromFeeRead(s, key, parse);
    ReadAtSection("fee_model", s.feeModel, FromReward(s), parse);
    SectionRead("risk_limits", s.riskLimits, FromFee(s), "},", key, parse);
    hide SectionItems, FromReward, Scanned, ReadItems, SectionSeen, FeeSeen;
  }

  lemma FromSolverRead<V>(s: Snapshot, key: string, parse: string -> Option<V>)
    requires TailKey(key) && RejectsObjects(parse)
    ensures Scanned(FromSolver(s), key, parse) == KeySeen(s, key, parse)
  {
    NamesOfSections();
    FromRiskRead(s, key, parse);
    ReadAtSection("risk_limits", s.riskLimits, FromFee(s), parse);
    SectionRead("solver_config", s.solverConfig, FromRisk(s), FirstGap(), key, parse);
    hide SectionItems, FromFee, FirstGap, Scanned, ReadItems, SectionSeen, RiskSeen;
  }

  /**
    What the checker reads for the seed or the tolerance, for every snapshot: usually its own
    text, but the version of the first section whose id looks like the key, and nothing after
    such a body, except the last body, which is followed by the seed.
   */
  lemma KeyRead<V>(s: Snapshot, key: string, parse: string -> Option<V>)
    requires TailKey(key) && RejectsObjects(parse)
    ensures ReadWith(SnapshotText(s), key, parse) == KeySeen(s, key, parse)
  {
    SeedKeyIsForeign();
    ScanSnapshot(s, key);
    ItemsNested(s);
    HeadScan(FromSolver(s));
    FromSolverRead(s, key, parse);
    hide Items, HeadItems, FromSolver, AfterHit, SnapshotText, KeySeen, After, ValueText, Render;
  }

  lemma NumeralParsed(x: DM.Int64)
    ensures Stoll(IntText(x)) == Some(x)
  {
    assert DM.FitsInt64(x);
    NumberIsRead(x);
  }

  /** The same with numbers instead of numerals, for the seed. */
  function SeedFrom(s: Section, afterBody: Option<DM.Int64>, next: Option<DM.Int64>): Option<DM.Int64> {
    if Hit(s.id, SEED_KEY) then Some(s.version) else if Hit(s.body, SEED_KEY) then afterBody else next
  }

  function SeedSeen(s: Snapshot): Option<DM.Int64> {
    SeedFrom(s.solverConfig, None,
      SeedFrom(s.riskLimits, None,
        SeedFrom(s.feeModel, None,
          SeedFrom(s.rewardConfig, Some(s.randomSeed), Some(s.randomSeed)))))
  }

  lemma SectionSeed(s: Section, afterBody: Option<DM.Int64>, next: Option<DM.Int64>)
    ensures SectionSeen(s, SEED_KEY, Stoll, afterBody, next) == SeedFrom(s, afterBody, next)
  {
    NumeralParsed(s.version);
    hide Hit, Stoll, SEED_KEY;
  }

  lemma KeySeenIsSeedSeen(s: Snapshot)
    ensures KeySeen(s, SEED_KEY, Stoll) == SeedSeen(s)
  {
    NumeralParsed(s.randomSeed);
    hide SEED_KEY, Stoll, SectionSeen, SeedFrom, IntText;
    var seed := Some(s.randomSeed);
    SectionSeed(s.rewardConfig, seed, seed);
    SectionSeed(s.feeModel, None, RewardSeen(s, SEED_KEY, Stoll));
    SectionSeed(s.riskLimits, None, FeeSeen(s, SEED_KEY, Stoll));
    SectionSeed(s.solverConfig, None, RiskSeen(s, SEED_KEY, Stoll));
  }

  lemma ReadIntIs(json: string, key: string)
    ensures ReadInt(json, key) == ReadWith(json, key, Stoll)
  {
    hide Stoll, ReadValue;
  }

  lemma SeedRead(s: Snapshot)
    ensures ReadInt(SnapshotText(s), SEED_KEY) == SeedSeen(s)
  {
    hide SEED_KEY, SnapshotText, SeedSeen, KeySeen, ReadInt, ReadWith, RejectsObjects, Stoll;
    StollIsSuchAParser();
    ReadIntIs(SnapshotText(s), SEED_KEY);
    KeyRead(s, SEED_KEY, Stoll);
    KeySeenIsSeedSeen(s);
  }

  lemma HeadScan(more: seq<Item>)
    ensures AfterHit(HeadItems() + more, SEED_KEY) == AfterHit(more, SEED_KEY)
    ensures AfterHit(HeadItems() + more, TOLERANCE_KEY) == AfterHit(more, TOLERANCE_KEY)
    ensures AfterHit(HeadItems() + more, VERSION_KEY) == Some(more)
  {
    SeedKeyIsForeign();
    OtherName(VERSION_KEY, SEED_KEY);
    OtherName(VERSION_KEY, TOLERANCE_KEY);
    assert (HeadItems() + more)[1..] == more;
  }

  lemma TailScan(s: Snapshot)
    ensures AfterHit(TailItems(s), SEED_KEY) == Some(TailItems(s)[1..])
    ensures AfterHit(TailItems(s), TOLERANCE_KEY) == Some(TailItems(s)[2..])
  {
    SeedKeyIsForeign();
    OtherName(SEED_KEY, TOLERANCE_KEY);
    hide IntText;
    assert TailItems(s)[1..][1..] == TailItems(s)[2..];
  }

  /** Neither the id nor the body of the section looks like the key. */
  predicate Clean(s: Section, key: string) { !Hit(s.id, key) && !Hit(s.body, key) }

  predicate AllClean(s: Snapshot, key: string) {
    Clean(s.solverConfig, key) && Clean(s.riskLimits, key) && Clean(s.feeModel, key)
    && Clean(s.rewardConfig, key)
  }

  /** Whatever else the sections contain, a clean snapshot gives its seed back. */
  lemma SeedReadBack(s: Snapshot)
    requires AllClean(s, SEED_KEY)
    ensures ReadInt(SnapshotText(s), SEED_KEY) == Some(s.randomSeed)
  {
    SeedRead(s);
  }

  /** A section met by the scan keeps the seed only by having the same number as its version. */
  predicate KeepsSeed(s: Section, seed: DM.Int64) { Hit(s.id, SEED_KEY) && s.version == seed }

  /**
    For every snapshot: the first section that is not clean decides, by its version or not at
    all; only the last section's body may look like the key.
   */
  lemma SeedReadBackIff(s: Snapshot)
    ensures ReadInt(SnapshotText(s), SEED_KEY) == Some(s.randomSeed)
       <==> if !Clean(s.solverConfig, SEED_KEY) then KeepsSeed(s.solverConfig, s.randomSeed)
            else if !Clean(s.riskLimits, SEED_KEY) then KeepsSeed(s.riskLimits, s.randomSeed)
            else if !Clean(s.feeModel, SEED_KEY) then KeepsSeed(s.feeModel, s.randomSeed)
            else Hit(s.rewardConfig.id, SEED_KEY) ==> s.rewardConfig.version == s.randomSeed
  {
    SeedRead(s);
    hide Hit, ReadInt, SnapshotText;
  }

  /** A solver configuration stored under the id `random_seed` hides the seed 42 behind its version. */
  lemma SeedMisread(body: string)
    ensures var plain := Section("", 0, "", true);
            var s := Snapshot(Section(SEED_KEY, 7, body, false), plain, plain, plain, 42, "0", "", "");
            ReadInt(SnapshotText(s), SEED_KEY) == Some(7)
  {
    var plain := Section("", 0, "", true);
    SeedRead(Snapshot(Section(SEED_KEY, 7, body, false), plain, plain, plain, 42, "0", "", ""));
  }

  /** The schema version is the first literal, so nothing can hide it. */
  lemma VersionReadBack(s: Snapshot)
    ensures ReadInt(SnapshotText(s), VERSION_KEY) == Some(SCHEMA_VERSION)
  {
    SeedKeyIsForeign();
    ScanSnapshot(s, VERSION_KEY);
    ItemsNested(s);
    HeadScan(FromSolver(s));
    ReadAfterHead(s);
    hide Items, HeadItems, FromSolver, AfterHit, SnapshotText, After;
  }

  lemma ReadAfterHead(s: Snapshot)
    ensures ReadItems(FromSolver(s), Stoll) == Some(SCHEMA_VERSION)
  {
    hide IntText, Stoll, ValueText, Render, FromRisk;
    var xs := FromSolver(s);
    assert xs[0] == SectionItems(FirstGap(), "solver_config", s.solverConfig)[0] by { hide NatText; }
    assert xs[0].gap == FirstGap();
    SchemaNumeral();
    hide NatText, SectionItems, FromSolver, FirstGap;
    assert xs == [xs[0]] + xs[1..];
    var more := TextAfterGap(xs[0], xs[1..], "}", IntText(SCHEMA_VERSION));
    NumberBehindLiteral("", SCHEMA_VERSION, more);
    NumeralParsed(SCHEMA_VERSION);
    assert "" + (":" + IntText(SCHEMA_VERSION) + "," + more) == ":" + IntText(SCHEMA_VERSION) + "," + more;
  }

  lemma SchemaNumeral()
    ensures FirstGap() == ":" + IntText(SCHEMA_VERSION) + ","
  {
  }

  /** A clean snapshot gives its tolerance back: it is parsed from the text that was printed. */
  lemma ToleranceReadBack<V>(s: Snapshot, parse: string -> Option<V>)
    requires AllClean(s, TOLERANCE_KEY) && RejectsObjects(parse)
    ensures ReadWith(SnapshotText(s), TOLERANCE_KEY, parse) == parse(s.tolerance)
  {
    KeyRead(s, TOLERANCE_KEY, parse);
    SeedKeyIsForeign();
    hide Hit, SnapshotText, ReadWith, NatText, IntText, RejectsObjects, ForeignKey, IsName, SEED_KEY, TOLERANCE_KEY,
         VERSION_KEY;
  }

  /** A section met by the scan keeps a value only if its version reads as the same one. */
  ghost predicate KeepsValue<V>(s: Section, key: string, own: Option<V>, parse: string -> Option<V>) {
    Hit(s.id, key) && parse(NatText(s.version)) == own
  }

  /** The first section that is not clean decides; the last body lets the seed be read. */
  ghost predicate KeyKept<V>(s: Snapshot, key: string, own: Option<V>, parse: string -> Option<V>) {
    if !Clean(s.solverConfig, key) then KeepsValue(s.solverConfig, key, own, parse)
    else if !Clean(s.riskLimits, key) then KeepsValue(s.riskLimits, key, own, parse)
    else if !Clean(s.feeModel, key) then KeepsValue(s.feeModel, key, own, parse)
    else if Hit(s.rewardConfig.id, key) then KeepsValue(s.rewardConfig, key, own, parse)
    else Hit(s.rewardConfig.body, key) ==> parse(IntText(s.randomSeed)) == own
  }

  lemma KeySeenIff<V>(s: Snapshot, key: string, parse: string -> Option<V>)
    requires parse(OwnText(s, key)).Some?
    ensures var own := parse(OwnText(s, key)); (KeySeen(s, key, parse) == own <==> KeyKept(s, key, own, parse))
  {
    hide Hit, NatText, IntText, OwnText;
  }

  /** For every snapshot whose tolerance can be parsed: exactly when that is what is read. */
  lemma ToleranceReadBackIff<V>(s: Snapshot, parse: string -> Option<V>)
    requires RejectsObjects(parse) && parse(s.tolerance).Some?
    ensures var own := parse(s.tolerance);
            (ReadWith(SnapshotText(s), TOLERANCE_KEY, parse) == own <==> KeyKept(s, TOLERANCE_KEY, own, parse))
  {
    KeyRead(s, TOLERANCE_KEY, parse);
    SeedKeyIsForeign();
    hide SnapshotText, ReadWith, RejectsObjects, ForeignKey, IsName, SEED_KEY, TOLERANCE_KEY, VERSION_KEY,
         KeySeen, KeyKept;
    assert OwnText(s, TOLERANCE_KEY) == s.tolerance;
    KeySeenIff(s, TOLERANCE_KEY, parse);
  }

  lemma ToleranceBehind(s: Snapshot)
    ensures ValueText(Render(TailItems(s)[2..], "}")) == Some(s.tolerance)
  {
    hide IntText;
    var xs := TailItems(s)[2..];
    assert xs[0].gap == ":" + s.tolerance + ",";
    assert xs == [xs[0]] + xs[1..];
    assert NumberToken(s.tolerance);
    hide TailItems, NumberToken, ValueText, Render;
    var more := TextAfterGap(xs[0], xs[1..], "}", s.tolerance);
    TokenBehindColon(s.tolerance, more);
  }

  lemma TokenBehindColon(t: string, more: string)
    requires NumberToken(t)
    ensures ValueText(":" + t + "," + more) == Some(t)
  {
    TokenIsValue(t);
    hide NumberToken, ValueText;
    ValueBehindColon("", t, "," + more);
    Regroup(":", t, "," + more);
    Regroup(":" + t, ",", more);
    assert "" + (":" + (t + ("," + more))) == ":" + (t + ("," + more));
  }

  lemma TokenIsValue(t: string)
    requires NumberToken(t)
    ensures t != "" && !IsSpace(t[0]) && forall c :: c in t ==> !EndsValue(c)
  {
  }

  lemma NamesOfSections()
    ensures SectionName("solver_config") && SectionName("risk_limits")
    ensures SectionName("fee_model") && SectionName("reward_config")
  {
  }
}
