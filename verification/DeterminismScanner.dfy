/**
  The determinism checker's substring scanner over snapshot documents: which literal it
  stops at, for every document of that layout, and exactly when it reads the right number.
 */
module DeterminismScanner {
  import opened ConfigSnapshot
  import opened Digits
  import opened Texts
  import opened Wrappers
  import DM = DecimalMath

  // --------------------------------------------------------------- scanning

  /** `std::string::find`: the first position where `needle` starts. */
  function Find(s: string, needle: string): (k: Option<nat>)
    ensures k.Some? ==> k.value + |needle| <= |s| && s[k.value..k.value + |needle|] == needle
  {
    if needle <= s then Some(0)
    else if s == "" then None
    else
      match Find(s[1..], needle)
      case None => None
      case Some(k) => assert s[1..][k..k + |needle|] == s[k + 1..k + 1 + |needle|]; Some(k + 1)
  }

  /** What follows the first occurrence of `needle`. */
  function After(s: string, needle: string): Option<string> {
    match Find(s, needle)
    case None => None
    case Some(k) => Some(s[k + |needle|..])
  }

  predicate IsSpace(c: char) { c == ' ' || 9 as char <= c <= 13 as char }

  function SkipSpace(s: string): string {
    if s != "" && IsSpace(s[0]) then SkipSpace(s[1..]) else s
  }

  predicate EndsValue(c: char) { c == ',' || c == '}' }

  function UpToEnd(s: string): string {
    if s == "" || EndsValue(s[0]) then "" else [s[0]] + UpToEnd(s[1..])
  }

  /** The text of the value after a key: behind the next colon, up to a comma or brace. */
  function ValueText(rest: string): Option<string> {
    var colon := IndexOf(rest, ':');
    if colon == |rest| then None else Some(UpToEnd(SkipSpace(rest[colon + 1..])))
  }

  /** `std::stoll`; a failed or out-of-range conversion is caught and becomes `None`. */
  function Stoll(s: string): Option<DM.Int64> {
    var t := SkipSpace(s);
    var u := if t != "" && t[0] == '+' && !(|t| > 1 && t[1] == '-') then t[1..] else t;
    match LeadingInt(u)
    case None => None
    case Some(x) => if DM.FitsInt64(x) then Some(x) else None
  }

  function Quoted(key: string): string { "\"" + key + "\"" }

  function ReadValue(json: string, key: string): Option<string> {
    match After(json, Quoted(key))
    case None => None
    case Some(rest) => ValueText(rest)
  }

  function ReadInt(json: string, key: string): Option<DM.Int64> {
    match ReadValue(json, key)
    case None => None
    case Some(text) => Stoll(text)
  }

  method ExtractJsonInt(json: string, key: string) returns (r: Option<DM.Int64>)
    ensures r == ReadInt(json, key)
  {
    var needle := Quoted(key);
    var found := Find(json, needle);
    if found.None? {
      return None;
    }
    hide Find, Stoll, UpToEnd, SkipSpace, Quoted, IndexOf;
    var pos := found.value + |needle|;
    ghost var rest := json[pos..];
    var colon := IndexOf(json[pos..], ':');
    if colon == |json| - pos {
      return None;
    }
    pos := pos + colon + 1;
    assert json[pos..] == rest[colon + 1..];
    pos := SkipSpacesFrom(json, pos);
    var end := ValueEnd(json, pos);
    assert After(json, needle) == Some(rest);
    assert ValueText(rest) == Some(json[pos..end]);
    r := Stoll(json[pos..end]);
  }

  method SkipSpacesFrom(json: string, start: nat) returns (pos: nat)
    requires start <= |json|
    ensures start <= pos <= |json| && json[pos..] == SkipSpace(json[start..])
  {
    pos := start;
    while pos < |json| && IsSpace(json[pos])
      invariant start <= pos <= |json|
      invariant SkipSpace(json[pos..]) == SkipSpace(json[start..])
    {
      assert json[pos..][1..] == json[pos + 1..];
      pos := pos + 1;
    }
  }

  method ValueEnd(json: string, pos: nat) returns (end: nat)
    requires pos <= |json|
    ensures pos <= end <= |json| && json[pos..end] == UpToEnd(json[pos..])
  {
    end := pos;
    while end < |json| && json[end] != ',' && json[end] != '}'
      invariant pos <= end <= |json|
      invariant json[pos..end] + UpToEnd(json[end..]) == UpToEnd(json[pos..])
    {
      assert json[end..][1..] == json[end + 1..];
      assert json[pos..end + 1] == json[pos..end] + [json[end]];
      Regroup(json[pos..end], [json[end]], UpToEnd(json[end + 1..]));
      end := end + 1;
    }
    assert json[pos..end] + "" == json[pos..end];
  }

  // ------------------------------------------ characters against literals

  /** Keys the checker looks for: no character that escaping would touch. */
  predicate PlainKey(key: string) {
    key != "" && forall i :: 0 <= i < |key| ==> EscapeChar(key[i]) == [key[i]]
  }

  predicate EndsWith(s: string, t: string) {
    |t| <= |s| && s[|s| - |t|..] == t
  }

  /** The literal looks like the key to a substring search. */
  predicate Hit(text: string, key: string) {
    text == key || EndsWith(text, "\"" + key)
  }

  /** The same, seen on the escaped characters between the quotes. */
  predicate EscapedHit(e: string, key: string) {
    EndsWith(e, key) && (|e| == |key| || e[|e| - |key| - 1] == '\"')
  }

  lemma {:induction false} EscapeConcat(s: string, t: string)
    ensures Escape(s + t) == Escape(s) + Escape(t)
  {
    if s == "" {
      assert s + t == t;
    } else {
      hide EscapeChar;
      assert (s + t)[1..] == s[1..] + t;
      EscapeConcat(s[1..], t);
      Regroup(EscapeChar(s[0]), Escape(s[1..]), Escape(t));
    }
  }

  lemma {:induction false} EscapePlain(key: string)
    requires forall i :: 0 <= i < |key| ==> EscapeChar(key[i]) == [key[i]]
    ensures Escape(key) == key
  {
    if key != "" {
      hide EscapeChar;
      EscapePlain(key[1..]);
      assert key == [key[0]] + key[1..];
    }
  }

  /** Escaping never makes a plain text out of anything but itself. */
  lemma {:induction false} UnescapedPlain(s: string, key: string)
    requires Escape(s) == key && '\\' !in key
    ensures s == key
  {
    if s != "" {
      EscapeShape(s[0]);
      var e := EscapeChar(s[0]);
      hide EscapeChar;
      assert key[0] == e[0] && e == [s[0]];
      assert key[1..] == Escape(s[1..]);
      UnescapedPlain(s[1..], key[1..]);
      assert s == [s[0]] + s[1..];
    }
  }

  lemma PlainKeyHasNo(key: string)
    requires PlainKey(key)
    ensures '\"' !in key && '\\' !in key
  {
    forall i | 0 <= i < |key| ensures key[i] != '\"' && key[i] != '\\' {
      EscapeShape(key[i]);
    }
  }

  lemma HitIsEscapedHit(text: string, key: string)
    requires PlainKey(key) && Hit(text, key)
    ensures EscapedHit(Escape(text), key)
  {
    EscapePlain(key);
    hide Escape;
    if text != key {
      var n := |text| - |key| - 1;
      var head, tail := text[..n], "\"" + key;
      assert text == head + tail;
      EscapeConcat(head, tail);
      EscapeConcat("\"", key);
      EscapedQuote("\"");
      SuffixHit(Escape(head), key);
    }
  }

  lemma EscapedQuote(s: string)
    requires s == "\""
    ensures Escape(s) == "\\\""
  {
    assert s[1..] == "";
  }

  lemma SuffixHit(head: string, key: string)
    ensures EscapedHit(head + ("\\\"" + key), key)
  {
    var e := head + ("\\\"" + key);
    assert e[|e| - |key|..] == key;
    assert e[|e| - |key| - 1] == '\"';
  }

  lemma {:induction false} EscapedHitIsHit(text: string, key: string)
    requires PlainKey(key) && EscapedHit(Escape(text), key)
    ensures Hit(text, key)
    decreases |text|
  {
    var all := Escape(text);
    if |all| == |key| {
      assert all[|all| - |key|..] == all;
      UnescapedPlain(text, key);
    } else {
      var e, rest := EscapeChar(text[0]), Escape(text[1..]);
      PlainKeyHasNo(key);
      EscapeShape(text[0]);
      hide Escape, EscapeChar, Hit;
      HitShape(e, rest, key);
      if |rest| > |key| {
        EscapedHitIsHit(text[1..], key);
        HitExtends(text, key, rest);
      } else {
        UnescapedPlain(text[1..], key);
        QuotedKeyHit(text, key);
      }
    }
  }

  /** A hit at the end of `e + rest` is one of `rest`, or `e` is the quote before it. */
  lemma HitShape(e: string, rest: string, key: string)
    requires |e| >= 1 && '\"' !in key && '\\' !in key
    requires EscapedHit(e + rest, key) && |e + rest| > |key|
    requires e[0] == '\\' || (|e| == 1 && e[0] != '\"')
    requires |e| >= 2 ==> forall i :: 0 <= i < |e| - 1 ==> e[i] != '\"'
    ensures |rest| >= |key|
    ensures |rest| > |key| ==> EscapedHit(rest, key)
    ensures |rest| == |key| ==> rest == key && e[|e| - 1] == '\"'
  {
    var all := e + rest;
    KeyFitsRest(e, rest, key);
    assert rest[|rest| - |key|..] == all[|all| - |key|..];
    if |rest| > |key| { assert rest[|rest| - |key| - 1] == all[|all| - |key| - 1]; }
  }

  lemma QuotedKeyHit(text: string, key: string)
    requires text != "" && text[0] == '\"' && text[1..] == key
    ensures Hit(text, key)
  {
    assert text == "\"" + key;
  }

  lemma HitExtends(text: string, key: string, rest: string)
    requires text != "" && rest == Escape(text[1..]) && Hit(text[1..], key) && |rest| > |key|
    requires PlainKey(key)
    ensures Hit(text, key)
  {
    EscapePlain(key);
    hide Escape, EscapeChar;
    if text[1..] != key {
      var n := |text| - |key| - 1;
      assert text[n..] == text[1..][n - 1..];
    }
  }

  /** A key with a quote before it cannot start inside an expansion. */
  lemma KeyFitsRest(e: string, rest: string, key: string)
    requires '\\' !in key && |key| < |e + rest|
    requires EndsWith(e + rest, key) && (e + rest)[|e + rest| - |key| - 1] == '\"'
    requires |e| >= 1 && (|e| == 1 || (e[0] == '\\' && forall i :: 0 <= i < |e| - 1 ==> e[i] != '\"'))
    ensures |key| <= |rest|
  {
    var p := |e + rest| - |key| - 1;
    assert (e + rest)[p] == if p < |e| then e[p] else rest[p - |e|];
  }

  // ------------------------------------------------- matches in a document

  ghost predicate MatchAt(s: string, needle: string, p: nat) {
    p + |needle| <= |s| && s[p..p + |needle|] == needle
  }

  lemma {:induction false} FindSkips(s: string, needle: string, n: nat)
    requires n <= |s| && forall p :: 0 <= p < n ==> !MatchAt(s, needle, p)
    ensures After(s, needle) == After(s[n..], needle)
  {
    if n == 0 {
      assert s[0..] == s;
    } else {
      assert !(needle <= s) by {
        if needle <= s { assert s[0..0 + |needle|] == needle; assert MatchAt(s, needle, 0); }
      }
      forall p | 0 <= p < n - 1 ensures !MatchAt(s[1..], needle, p) {
        if MatchAt(s[1..], needle, p) {
          assert s[1..][p..p + |needle|] == s[p + 1..p + 1 + |needle|];
          assert MatchAt(s, needle, p + 1);
        }
      }
      FindSkips(s[1..], needle, n - 1);
      assert s[1..][n - 1..] == s[n..];
      AfterTail(s, needle);
    }
  }

  lemma AfterTail(s: string, needle: string)
    requires s != "" && !(needle <= s)
    ensures After(s, needle) == After(s[1..], needle)
  {
    var k := Find(s[1..], needle);
    if k.Some? { assert s[1..][k.value + |needle|..] == s[k.value + 1 + |needle|..]; }
  }

  /** The key between quotes at `p`. */
  ghost predicate KeyBetweenQuotes(s: string, key: string, p: nat) {
    && p + |key| + 1 < |s|
    && s[p] == '\"' && s[p + |key| + 1] == '\"'
    && s[p + 1..p + 1 + |key|] == key
  }

  lemma MatchShape(s: string, key: string, p: nat)
    requires MatchAt(s, Quoted(key), p)
    ensures KeyBetweenQuotes(s, key, p)
  {
    var needle := Quoted(key);
    var m := s[p..p + |needle|];
    assert m[0] == s[p] && m[|key| + 1] == s[p + |key| + 1];
    forall i | 0 <= i < |key| ensures s[p + 1..p + 1 + |key|][i] == key[i] {
      assert m[i + 1] == s[p + 1 + i] && needle[i + 1] == key[i];
    }
  }

  /** The characters of a literal whose opening quote is at `g` and whose inside is `e`. */
  ghost predicate LiteralIn(s: string, g: nat, e: string) {
    && g + |e| + 1 < |s|
    && (forall i :: 0 <= i < g ==> s[i] != '\"')
    && s[g] == '\"' && s[g + 1 + |e|] == '\"'
    && s[g + 1..g + 1 + |e|] == e
    && (forall i :: g < i < g + 1 + |e| && s[i] == '\"' ==> i > g + 1 && s[i - 1] == '\\')
  }

  lemma LiteralCharacters(item: Item, rest: string)
    requires '\"' !in item.gap
    ensures |Literal(item)| == |item.gap| + |Escape(item.text)| + 2
    ensures LiteralIn(Literal(item) + rest, |item.gap|, Escape(item.text))
  {
    var e, g, s := Escape(item.text), |item.gap|, Literal(item) + rest;
    hide Escape;
    forall i | 0 <= i < g ensures s[i] != '\"' { assert s[i] == item.gap[i]; }
    assert s[g + 1..g + 1 + |e|] == e;
    forall i | g < i < g + 1 + |e| && s[i] == '\"' ensures i > g + 1 && s[i - 1] == '\\' {
      assert s[i] == e[i - g - 1];
      QuoteFollowsBackslash(item.text, i - g - 1);
      assert s[i - 1] == e[i - g - 2];
    }
  }

  /** Within one literal the only possible match ends at its closing quote. */
  lemma MatchEndsAtClose(item: Item, rest: string, key: string, p: nat)
    requires PlainKey(key) && '\"' !in item.gap
    requires p < |Literal(item)| - 1 && MatchAt(Literal(item) + rest, Quoted(key), p)
    ensures EscapedHit(Escape(item.text), key) && p + |key| + 2 == |Literal(item)|
  {
    var s := Literal(item) + rest;
    PlainKeyHasNo(key);
    MatchShape(s, key, p);
    LiteralCharacters(item, rest);
    hide Escape, Literal, MatchAt, Quoted, EscapedHit, KeyBetweenQuotes, LiteralIn;
    QuotesCoincide(s, |item.gap|, Escape(item.text), key, p);
  }

  lemma QuotesCoincide(s: string, g: nat, e: string, key: string, p: nat)
    requires key != "" && '\"' !in key && '\\' !in key && p < g + 1 + |e|
    requires LiteralIn(s, g, e) && KeyBetweenQuotes(s, key, p)
    ensures p + |key| == g + |e| && EscapedHit(e, key)
  {
    var close, q := g + 1 + |e|, p + |key| + 1;
    forall i | p < i < q ensures s[i] != '\"' && s[i] != '\\' {
      assert s[p + 1..q][i - p - 1] in key;
    }
    CloseIsNext(s, g, close, p, q);
    assert e[|e| - |key|..] == s[p + 1..q];
    if p > g { assert e[p - g - 1] == s[p]; }
  }

  /** Between quotes at `p` and `q` with neither quote nor backslash inside, `q` closes the literal. */
  lemma CloseIsNext(s: string, g: nat, close: nat, p: nat, q: nat)
    requires g < close < |s| && p < close && p + 2 <= q < |s|
    requires s[p] == '\"' && s[q] == '\"' && s[close] == '\"'
    requires forall i :: 0 <= i < g ==> s[i] != '\"'
    requires forall i :: p < i < q ==> s[i] != '\"' && s[i] != '\\'
    requires forall i :: g < i < close && s[i] == '\"' ==> i > g + 1 && s[i - 1] == '\\'
    ensures p >= g && q == close
  {
    var c := s[q - 1];
  }

  /** The next quoted thing after `rest` starts is the key. */
  predicate OpensWithKey(rest: string, key: string) {
    IndexOf(rest, '\"') < |rest| && rest[..IndexOf(rest, '\"')] == key
  }

  /** A match at a closing quote takes the punctuation behind it for the key. */
  lemma MatchAtClose(lead: string, rest: string, key: string, p: nat)
    requires p < |lead| && p == |lead| - 1 && PlainKey(key)
    requires MatchAt(lead + rest, Quoted(key), p)
    ensures OpensWithKey(rest, key)
  {
    var s := lead + rest;
    PlainKeyHasNo(key);
    MatchShape(s, key, p);
    hide MatchAt, Quoted, PlainKey;
    assert rest[|key|] == s[p + |key| + 1];
    assert rest[..|key|] == s[p + 1..p + 1 + |key|];
    var more := "\"" + rest[|key| + 1..];
    assert rest == key + more;
    FirstIndex(key, more, '\"');
  }

  // ------------------------------------------------ what the scanner finds

  /** The items after the first literal that looks like the key. */
  function AfterHit(items: seq<Item>, key: string): Option<seq<Item>> {
    if items == [] then None
    else if Hit(items[0].text, key) then Some(items[1..])
    else AfterHit(items[1..], key)
  }

  /** Punctuation is never taken for the key, and holds no quote. */
  ghost predicate Scannable(items: seq<Item>, tail: string, key: string) {
    && (forall i :: 0 <= i < |items| ==> '\"' !in items[i].gap && items[i].gap != key)
    && '\"' !in tail
  }

  lemma RestOpens(items: seq<Item>, tail: string, key: string)
    requires Scannable(items, tail, key)
    ensures !OpensWithKey(Render(items, tail), key)
  {
    if items != [] {
      var x := items[0];
      var more := Escape(x.text) + "\"" + Render(items[1..], tail);
      RenderOpens(items, tail);
      hide Render, Escape;
      OpensWithGap(x.gap, "\"" + more, key);
    } else {
      hide IndexOf;
    }
  }

  lemma RenderOpens(items: seq<Item>, tail: string)
    requires items != []
    ensures var x := items[0];
            Render(items, tail)
            == x.gap + ("\"" + (Escape(x.text) + "\"" + Render(items[1..], tail)))
  {
    var x, rest := items[0], Render(items[1..], tail);
    var gap, e := x.gap, Escape(x.text);
    assert Render(items, tail) == gap + "\"" + e + "\"" + rest;
    hide Render, Escape;
    Regroup(gap, "\"", e);
    Regroup(gap, "\"" + e, "\"");
    Regroup(gap, "\"" + e + "\"", rest);
    Regroup("\"", e, "\"");
    Regroup("\"", e + "\"", rest);
  }

  lemma OpensWithGap(gap: string, more: string, key: string)
    requires '\"' !in gap && more != "" && more[0] == '\"' && gap != key
    ensures !OpensWithKey(gap + more, key)
  {
    FirstIndex(gap, more, '\"');
    assert (gap + more)[..|gap|] == gap;
  }

  /**
    The character scan agrees with a scan over the document's literals: it stops behind
    the first literal that is the key, or ends in a quote and the key, and nowhere else.
   */
  lemma {:induction false} ScannerStopsAtHit(items: seq<Item>, tail: string, key: string)
    requires PlainKey(key) && Scannable(items, tail, key)
    ensures After(Render(items, tail), Quoted(key))
         == match AfterHit(items, key)
            case None => None
            case Some(more) => Some(Render(more, tail))
  {
    if items == [] {
      NoQuoteNoMatch(tail, key);
    } else {
      var x, rest := items[0], Render(items[1..], tail);
      var lead := Literal(x);
      RestOpens(items[1..], tail, key);
      if Hit(x.text, key) {
        HitIsEscapedHit(x.text, key);
        hide Render;
        StopsInside(x, rest, key);
      } else {
        if EscapedHit(Escape(x.text), key) { EscapedHitIsHit(x.text, key); }
        ScannerStopsAtHit(items[1..], tail, key);
        hide Render, Hit, EscapedHit;
        PassesOver(x, rest, key);
      }
    }
  }

  lemma FoundHasQuote(s: string, key: string)
    requires Find(s, Quoted(key)).Some?
    ensures '\"' in s
  {
    var k := Find(s, Quoted(key)).value;
    assert s[k..k + |Quoted(key)|][0] == s[k];
  }

  lemma NoQuoteNoMatch(s: string, key: string)
    requires '\"' !in s
    ensures After(s, Quoted(key)) == None
  {
    if Find(s, Quoted(key)).Some? { FoundHasQuote(s, key); }
  }

  lemma PassesOver(x: Item, rest: string, key: string)
    requires PlainKey(key) && '\"' !in x.gap && !EscapedHit(Escape(x.text), key)
    requires !OpensWithKey(rest, key)
    ensures After(Literal(x) + rest, Quoted(key)) == After(rest, Quoted(key))
  {
    hide EscapedHit, PlainKey, After, OpensWithKey;
    var lead := Literal(x);
    var s := lead + rest;
    forall p | 0 <= p < |lead| ensures !MatchAt(s, Quoted(key), p) {
      if p == |lead| - 1 {
        if MatchAt(s, Quoted(key), p) { MatchAtClose(lead, rest, key, p); }
      } else if MatchAt(s, Quoted(key), p) {
        MatchEndsAtClose(x, rest, key, p);
      }
    }
    FindSkips(s, Quoted(key), |lead|);
    assert s[|lead|..] == rest;
  }

  lemma StopsInside(x: Item, rest: string, key: string)
    requires PlainKey(key) && '\"' !in x.gap && EscapedHit(Escape(x.text), key)
    ensures After(Literal(x) + rest, Quoted(key)) == Some(rest)
  {
    var lead, e, needle := Literal(x), Escape(x.text), Quoted(key);
    var s := lead + rest;
    var p := |lead| - |key| - 2;
    LiteralEndsWithKey(x, key);
    hide EscapedHit, PlainKey, Literal, Quoted;
    assert lead == lead[..p] + needle;
    Regroup(lead[..p], needle, rest);
    assert s[p..] == needle + rest;
    forall i | 0 <= i < p ensures !MatchAt(s, needle, i) {
      if MatchAt(s, needle, i) { MatchEndsAtClose(x, rest, key, i); }
    }
    FindSkips(s, needle, p);
    FindAtOnce(needle, rest);
  }

  lemma LiteralEndsWithKey(x: Item, key: string)
    requires EscapedHit(Escape(x.text), key)
    ensures |Literal(x)| >= |key| + 2 && |Quoted(key)| == |key| + 2
    ensures Literal(x)[|Literal(x)| - |key| - 2..] == Quoted(key)
  {
    hide Escape;
    var e, lead := Escape(x.text), Literal(x);
    var p := |lead| - |key| - 2;
    assert lead[p] == '\"' by {
      if |e| > |key| { assert lead[p] == e[|e| - |key| - 1]; }
    }
    assert lead[p + 1..|lead| - 1] == e[|e| - |key|..];
    assert lead[p..] == [lead[p]] + lead[p + 1..|lead| - 1] + [lead[|lead| - 1]];
  }

  lemma FindAtOnce(needle: string, rest: string)
    ensures After(needle + rest, needle) == Some(rest)
  {
    assert needle <= needle + rest;
    assert (needle + rest)[|needle|..] == rest;
  }
}
