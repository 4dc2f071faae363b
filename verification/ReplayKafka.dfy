/**
  The line format of replay commands and results: one `key=value` per line, values
  escaped, parsed back into a field map.  A `char` stands for one byte.
 */
module ReplayKafka {
  import opened Digits
  import opened Texts
  import opened Wrappers
  import DM = DecimalMath

  // -------------------------------------------------------------- escaping

  function EscapeChar(c: char): string {
    if c == '\\' then "\\\\"
    else if c == '\n' then "\\n"
    else if c == '\r' then "\\r"
    else if c == '=' then "\\="
    else [c]
  }

  function Escape(s: string): string {
    if s == "" then "" else EscapeChar(s[0]) + Escape(s[1..])
  }

  /** The character a backslash pair stands for, if it is one of the four. */
  function Unpair(c: char): Option<char> {
    if c == '\\' then Some('\\')
    else if c == 'n' then Some('\n')
    else if c == 'r' then Some('\r')
    else if c == '=' then Some('=')
    else None
  }

  function Unescape(s: string): string {
    if s == "" then ""
    else if s[0] == '\\' && |s| > 1 && Unpair(s[1]).Some? then [Unpair(s[1]).value] + Unescape(s[2..])
    else [s[0]] + Unescape(s[1..])
  }

  method EscapeField(input: string) returns (out: string)
    ensures out == Escape(input)
  {
    out := "";
    for i := 0 to |input|
      invariant out + Escape(input[i..]) == Escape(input)
    {
      assert input[i..][1..] == input[i + 1..];
      assert out + (EscapeChar(input[i]) + Escape(input[i + 1..]))
          == out + EscapeChar(input[i]) + Escape(input[i + 1..]);
      match input[i] {
        case '\\' => out := out + "\\\\";
        case '\n' => out := out + "\\n";
        case '\r' => out := out + "\\r";
        case '=' => out := out + "\\=";
        case ch => out := out + [ch];
      }
    }
  }

  method UnescapeField(input: string) returns (out: string)
    ensures out == Unescape(input)
  {
    hide Unescape, Unpair;
    out := "";
    var i := 0;
    while i < |input|
      invariant 0 <= i <= |input|
      invariant out + Unescape(input[i..]) == Unescape(input)
    {
      var ch := input[i];
      UnescapeFrom(input, i);
      if ch == '\\' && i + 1 < |input| {
        var plain := Unpair(input[i + 1]);
        if plain.Some? {
          Regroup(out, [plain.value], Unescape(input[i + 2..]));
          out := out + [plain.value];
          i := i + 2;
          continue;
        }
      }
      Regroup(out, [ch], Unescape(input[i + 1..]));
      out := out + [ch];
      i := i + 1;
    }
    assert input[i..] == "";
    UnescapeNothing(input[i..]);
  }

  lemma UnescapeNothing(s: string)
    requires s == ""
    ensures Unescape(s) == ""
  {
  }

  lemma UnescapeFrom(input: string, i: nat)
    requires i < |input|
    ensures Unescape(input[i..])
         == if input[i] == '\\' && i + 1 < |input| && Unpair(input[i + 1]).Some?
            then [Unpair(input[i + 1]).value] + Unescape(input[i + 2..])
            else [input[i]] + Unescape(input[i + 1..])
  {
    hide Unpair;
    var s := input[i..];
    assert s[1..] == input[i + 1..];
    if i + 1 < |input| { assert s[1] == input[i + 1] && s[2..] == input[i + 2..]; }
  }

  lemma UnescapeStep(c: char, tail: string)
    ensures Unescape(EscapeChar(c) + tail) == [c] + Unescape(tail)
  {
    var e := EscapeChar(c);
    var t := e + tail;
    assert t[0] == e[0] && t[|e|..] == tail;
    if |e| == 2 { assert t[1] == e[1] && Unpair(e[1]) == Some(c); }
  }

  /** Unescaping undoes escaping, for every text. */
  lemma {:induction false} UnescapeEscape(s: string)
    ensures Unescape(Escape(s)) == s
  {
    if s != "" {
      hide Unescape;
      UnescapeEscape(s[1..]);
      UnescapeStep(s[0], Escape(s[1..]));
      assert s == [s[0]] + s[1..];
    } else {
      assert Escape(s) == s;
    }
  }

  /** An escaped value holds no line break. */
  lemma {:induction false} EscapedIsOneLine(s: string)
    ensures '\n' !in Escape(s) && '\r' !in Escape(s)
  {
    if s != "" { EscapedIsOneLine(s[1..]); }
  }

  lemma {:induction false} UnescapePlain(s: string)
    requires '\\' !in s
    ensures Unescape(s) == s
  {
    if s != "" {
      assert s[0] in s && forall c :: c in s[1..] ==> c in s;
      UnescapePlain(s[1..]);
      assert s == [s[0]] + s[1..];
    }
  }

  // ----------------------------------------------------------------- lines

  /** The first equals sign, from `i`, that does not follow a backslash; or the length. */
  function SplitAt(line: string, i: nat): (k: nat)
    requires i <= |line|
    ensures i <= k <= |line| && (k < |line| ==> line[k] == '=')
    decreases |line| - i
  {
    if i == |line| then i
    else if line[i] == '=' && (i == 0 || line[i - 1] != '\\') then i
    else SplitAt(line, i + 1)
  }

  function AddLine(fields: map<string, string>, line: string): map<string, string> {
    var split := SplitAt(line, 0);
    if split == |line| then fields else fields[line[..split] := Unescape(line[split + 1..])]
  }

  function AddLines(fields: map<string, string>, payload: string): map<string, string>
    decreases |payload|
  {
    if payload == "" then fields
    else
      var n := IndexOf(payload, '\n');
      AddLines(AddLine(fields, payload[..n]), if n < |payload| then payload[n + 1..] else "")
  }

  method FindSplit(line: string) returns (split: nat)
    ensures split == SplitAt(line, 0)
  {
    split := |line|;
    for i := 0 to |line|
      invariant split == |line| && SplitAt(line, i) == SplitAt(line, 0)
    {
      if line[i] == '=' && (i == 0 || line[i - 1] != '\\') {
        split := i;
        break;
      }
    }
  }

  method ParseKeyValuePayload(payload: string) returns (fields: map<string, string>)
    ensures fields == AddLines(map[], payload)
  {
    hide SplitAt, Unescape;
    fields := map[];
    var rest := payload;
    while rest != ""
      invariant AddLines(fields, rest) == AddLines(map[], payload)
      decreases |rest|
    {
      var n := IndexOf(rest, '\n');
      var line := rest[..n];
      rest := if n < |rest| then rest[n + 1..] else "";
      if line == "" {
        continue;
      }
      var split := FindSplit(line);
      if split == |line| {
        continue;
      }
      var value := UnescapeField(line[split + 1..]);
      fields := fields[line[..split] := value];
    }
  }

  /** A key as the serializers write them. */
  predicate PlainKey(key: string) {
    key != "" && '=' !in key && '\\' !in key && '\n' !in key
  }

  lemma {:induction false} SplitAfterKey(key: string, value: string, i: nat)
    requires PlainKey(key) && i <= |key|
    ensures SplitAt(key + "=" + value, i) == |key|
    decreases |key| - i
  {
    var line := key + "=" + value;
    if i < |key| {
      assert line[i] == key[i];
      SplitAfterKey(key, value, i + 1);
    } else {
      assert line[|key| - 1] == key[|key| - 1];
    }
  }

  datatype Field = Field(key: string, text: string)

  function Render(fields: seq<Field>): string {
    if fields == [] then "" else fields[0].key + "=" + fields[0].text + "\n" + Render(fields[1..])
  }

  function Assign(m: map<string, string>, fields: seq<Field>): map<string, string>
    decreases |fields|
  {
    if fields == [] then m else Assign(m[fields[0].key := Unescape(fields[0].text)], fields[1..])
  }

  ghost predicate Printable(fields: seq<Field>) {
    forall i :: 0 <= i < |fields| ==> PlainKey(fields[i].key) && '\n' !in fields[i].text
  }

  /** Parsing rendered lines performs exactly the assignments they list. */
  lemma {:induction false} ParseRendered(m: map<string, string>, fields: seq<Field>)
    requires Printable(fields)
    ensures AddLines(m, Render(fields)) == Assign(m, fields)
    decreases |fields|
  {
    if fields != [] {
      var f := fields[0];
      var line, rest := f.key + "=" + f.text, Render(fields[1..]);
      assert Render(fields) == line + ("\n" + rest);
      FirstIndex(line, "\n" + rest, '\n');
      assert (line + ("\n" + rest))[..|line|] == line;
      assert (line + ("\n" + rest))[|line| + 1..] == rest;
      SplitAfterKey(f.key, f.text, 0);
      assert line[..|f.key|] == f.key && line[|f.key| + 1..] == f.text;
      ParseRendered(AddLine(m, line), fields[1..]);
    }
  }

  ghost predicate DistinctKeys(fields: seq<Field>) {
    forall i, j :: 0 <= i < j < |fields| ==> fields[i].key != fields[j].key
  }

  lemma {:induction false} AssignKeepsOthers(m: map<string, string>, fields: seq<Field>, key: string)
    requires forall i :: 0 <= i < |fields| ==> fields[i].key != key
    ensures key in Assign(m, fields) <==> key in m
    ensures key in m ==> Assign(m, fields)[key] == m[key]
    decreases |fields|
  {
    if fields != [] {
      AssignKeepsOthers(m[fields[0].key := Unescape(fields[0].text)], fields[1..], key);
    }
  }

  lemma {:induction false} AssignLookup(m: map<string, string>, fields: seq<Field>, i: nat)
    requires DistinctKeys(fields) && i < |fields|
    ensures fields[i].key in Assign(m, fields)
    ensures Assign(m, fields)[fields[i].key] == Unescape(fields[i].text)
    decreases |fields|
  {
    var m' := m[fields[0].key := Unescape(fields[0].text)];
    if i == 0 {
      AssignKeepsOthers(m', fields[1..], fields[0].key);
    } else {
      AssignLookup(m', fields[1..], i - 1);
    }
  }

  /** Every field written can be looked up again with its own value. */
  lemma LookupRendered(fields: seq<Field>, i: nat)
    requires Printable(fields) && DistinctKeys(fields) && i < |fields|
    ensures var m := AddLines(map[], Render(fields));
            fields[i].key in m && m[fields[i].key] == Unescape(fields[i].text)
  {
    ParseRendered(map[], fields);
    AssignLookup(map[], fields, i);
  }

  // ------------------------------------------------------- values on a line

  function TextField(key: string, value: string): Field { Field(key, Escape(value)) }

  function IntField(key: string, value: int): Field { Field(key, IntText(value)) }

  function BoolField(key: string, value: bool): Field { Field(key, if value then "1" else "0") }

  /** `from_chars` into a 64-bit integer: unreadable or out of range leaves the zero. */
  function ParseInt64(s: string): DM.Int64 {
    match LeadingInt(s)
    case Some(x) => if DM.FitsInt64(x) then x else 0
    case None => 0
  }

  type Uint32 = x: int | 0 <= x < 0x1_0000_0000

  function ParseUint32(s: string): Uint32 {
    match LeadingNat(s)
    case Some(x) => if x < 0x1_0000_0000 then x else 0
    case None => 0
  }

  predicate ParseBool(s: string) { s == "1" || s == "true" || s == "TRUE" }

  lemma TextBack(key: string, value: string)
    ensures '\n' !in TextField(key, value).text
    ensures Unescape(TextField(key, value).text) == value
  {
    EscapedIsOneLine(value);
    UnescapeEscape(value);
  }

  lemma IntTextPlain(x: int)
    ensures '\\' !in IntText(x) && '\n' !in IntText(x)
  {
    hide NatText;
  }

  lemma IntBack(key: string, x: int)
    ensures '\n' !in IntField(key, x).text
    ensures var s := Unescape(IntField(key, x).text);
            && (DM.FitsInt64(x) ==> ParseInt64(s) == x)
            && (0 <= x < 0x1_0000_0000 ==> ParseUint32(s) == x)
  {
    hide NatText;
    IntTextPlain(x);
    UnescapePlain(IntText(x));
    LeadingIntOfText(x, "");
    assert IntText(x) + "" == IntText(x);
    if x >= 0 { LeadingNatOfText(x, ""); }
  }

  lemma BoolBack(key: string, b: bool)
    ensures '\n' !in BoolField(key, b).text
    ensures ParseBool(Unescape(BoolField(key, b).text)) == b
  {
    UnescapePlain(BoolField(key, b).text);
  }

  function Get(m: map<string, string>, key: string, default: string): string {
    if key in m then m[key] else default
  }

  // --------------------------------------------------------------- commands

  datatype CommandType = Start | Cancel | Retry | UnknownCommand

  function CommandTypeText(t: CommandType): string {
    match t
    case Start => "start"
    case Cancel => "cancel"
    case Retry => "retry"
    case UnknownCommand => "unknown"
  }

  function CommandTypeOf(s: string): CommandType {
    if s == "start" then Start
    else if s == "cancel" then Cancel
    else if s == "retry" then Retry
    else UnknownCommand
  }

  datatype Command = Command(
    commandId: string, sessionId: string, commandType: CommandType,
    requestedBy: string, createdAtMs: DM.Int64, payloadJson: string)

  function CommandFields(m: Command): seq<Field> {
    [IntField("version", 1),
     TextField("message_type", "replay_command"),
     TextField("command_id", m.commandId),
     TextField("session_id", m.sessionId),
     TextField("command_type", CommandTypeText(m.commandType)),
     TextField("requested_by", m.requestedBy),
     IntField("created_at_ms", m.createdAtMs),
     TextField("payload_json", m.payloadJson)]
  }

  function SerializeCommand(m: Command): string { Render(CommandFields(m)) }

  function ParseCommand(payload: string): Option<Command> {
    var m := AddLines(map[], payload);
    if "message_type" !in m || m["message_type"] != "replay_command" then None
    else
      Some(Command(
        Get(m, "command_id", ""), Get(m, "session_id", ""),
        CommandTypeOf(Get(m, "command_type", "")), Get(m, "requested_by", ""),
        if "created_at_ms" in m then ParseInt64(m["created_at_ms"]) else 0,
        Get(m, "payload_json", "")))
  }

  /** Enough of a key to tell the keys of a message apart: its length and first two characters. */
  function Tag(key: string): (nat, char, char) {
    if |key| < 2 then (0, ' ', ' ') else (|key|, key[0], key[1])
  }

  ghost predicate Plain(keys: seq<string>) {
    forall i :: 0 <= i < |keys| ==> AllKeyChars(keys[i])
  }

  ghost predicate Distinct(keys: seq<string>) {
    forall i, j :: 0 <= i < j < |keys| ==> keys[i] != keys[j]
  }

  predicate AllKeyChars(key: string) {
    forall i :: 0 <= i < |key| ==> 'a' <= key[i] <= 'z' || key[i] == '_'
  }

  const COMMAND_KEYS: seq<string> :=
    ["version", "message_type", "command_id", "session_id",
     "command_type", "requested_by", "created_at_ms", "payload_json"]

  lemma CommandKeys()
    ensures Plain(COMMAND_KEYS) && Distinct(COMMAND_KEYS)
  {
    forall i | 0 <= i < |COMMAND_KEYS| ensures AllKeyChars(COMMAND_KEYS[i]) {}
    forall i, j | 0 <= i < j < |COMMAND_KEYS| ensures COMMAND_KEYS[i] != COMMAND_KEYS[j] {
      assert Tag(COMMAND_KEYS[i]) != Tag(COMMAND_KEYS[j]);
    }
  }

  function Keys(fields: seq<Field>): (keys: seq<string>)
    ensures |keys| == |fields| && forall i :: 0 <= i < |fields| ==> keys[i] == fields[i].key
  {
    seq(|fields|, i requires 0 <= i < |fields| => fields[i].key)
  }

  lemma WellFormed(fields: seq<Field>)
    requires Plain(Keys(fields)) && Distinct(Keys(fields))
    requires forall i :: 0 <= i < |fields| ==> fields[i].key != "" && '\n' !in fields[i].text
    ensures Printable(fields) && DistinctKeys(fields)
  {
    forall i | 0 <= i < |fields| ensures PlainKey(fields[i].key) {
      assert AllKeyChars(Keys(fields)[i]);
    }
    assert forall i, j :: 0 <= i < j < |fields| ==> Keys(fields)[i] != Keys(fields)[j];
  }

  lemma CommandFieldsWellFormed(m: Command)
    ensures Printable(CommandFields(m)) && DistinctKeys(CommandFields(m))
  {
    hide Escape, NatText, IntText, PlainKey, AllKeyChars, Distinct;
    CommandKeys();
    assert Keys(CommandFields(m)) == COMMAND_KEYS;
    IntTextPlain(1);
    IntTextPlain(m.createdAtMs);
    EscapedIsOneLine("replay_command");
    EscapedIsOneLine(m.commandId);
    EscapedIsOneLine(m.sessionId);
    EscapedIsOneLine(CommandTypeText(m.commandType));
    EscapedIsOneLine(m.requestedBy);
    EscapedIsOneLine(m.payloadJson);
    WellFormed(CommandFields(m));
  }

  lemma LookupText(fields: seq<Field>, i: nat, key: string, value: string)
    requires Printable(fields) && DistinctKeys(fields)
    requires i < |fields| && fields[i] == TextField(key, value)
    ensures Get(AddLines(map[], Render(fields)), key, "") == value
    ensures key in AddLines(map[], Render(fields))
  {
    LookupRendered(fields, i);
    TextBack(key, value);
  }

  lemma LookupInt(fields: seq<Field>, i: nat, key: string, x: int)
    requires Printable(fields) && DistinctKeys(fields)
    requires i < |fields| && fields[i] == IntField(key, x)
    ensures var m := AddLines(map[], Render(fields));
            && key in m
            && (DM.FitsInt64(x) ==> ParseInt64(m[key]) == x)
            && (0 <= x < 0x1_0000_0000 ==> ParseUint32(m[key]) == x)
  {
    LookupRendered(fields, i);
    IntBack(key, x);
  }

  lemma LookupBool(fields: seq<Field>, i: nat, key: string, b: bool)
    requires Printable(fields) && DistinctKeys(fields)
    requires i < |fields| && fields[i] == BoolField(key, b)
    ensures var m := AddLines(map[], Render(fields)); key in m && ParseBool(m[key]) == b
  {
    LookupRendered(fields, i);
    BoolBack(key, b);
  }

  /** Every command survives the wire: any bytes in its texts, any 64-bit time. */
  lemma CommandRoundTrip(m: Command)
    ensures ParseCommand(SerializeCommand(m)) == Some(m)
  {
    hide AddLines, Render, TextField, IntField, ParseInt64;
    var f := CommandFields(m);
    CommandFieldsWellFormed(m);
    LookupText(f, 1, "message_type", "replay_command");
    LookupText(f, 2, "command_id", m.commandId);
    LookupText(f, 3, "session_id", m.sessionId);
    LookupText(f, 4, "command_type", CommandTypeText(m.commandType));
    LookupText(f, 5, "requested_by", m.requestedBy);
    LookupInt(f, 6, "created_at_ms", m.createdAtMs);
    LookupText(f, 7, "payload_json", m.payloadJson);
  }

  // ---------------------------------------------------------------- results

  datatype ResultKind = Progress | Lifecycle | UnknownResult

  function ResultKindText(k: ResultKind): string {
    match k
    case Progress => "progress"
    case Lifecycle => "lifecycle"
    case UnknownResult => "unknown"
  }

  function ResultKindOf(s: string): ResultKind {
    if s == "progress" then Progress
    else if s == "lifecycle" then Lifecycle
    else UnknownResult
  }

  /** A printed floating-point number; how it is printed and read is not modelled. */
  predicate NumberToken(s: string) { '\\' !in s && '\n' !in s }

  datatype Result = Result(
    kind: ResultKind, sessionId: string, publishedAtMs: DM.Int64,
    batchSeq: Uint32, totalBatches: Uint32, status: string, hasSummary: bool,
    processedBatches: Uint32, failedBatches: Uint32, totalFillEvents: Uint32, partial: bool,
    totalPnl: string, avgPnl: string, avgIs: string, sharpe: string, avgFillRate: string,
    avgSolveTimeMs: string, maxDrawdown: string, stdPnl: string, avgVwap: string,
    avgisRule: string, decisionPriceSource: string, noRequestedVolume: bool,
    errorDetails: string, errorCode: string)

  function Numbers(m: Result): seq<string> {
    [m.totalPnl, m.avgPnl, m.avgIs, m.sharpe, m.avgFillRate, m.avgSolveTimeMs,
     m.maxDrawdown, m.stdPnl, m.avgVwap]
  }

  const RESULT_KEYS: seq<string> :=
    ["version", "message_type", "kind", "session_id", "published_at_ms", "batch_seq",
     "total_batches", "status", "has_summary", "processed_batches", "failed_batches",
     "total_fill_events", "partial", "total_pnl", "avg_pnl", "avg_is", "sharpe",
     "avg_fill_rate", "avg_solve_time_ms", "max_drawdown", "std_pnl", "avg_vwap",
     "avgis_rule", "decision_price_source", "no_requested_volume", "error_details", "error_code"]

  function ResultFields(m: Result): seq<Field> {
    [IntField("version", 1),
     TextField("message_type", "replay_result"),
     TextField("kind", ResultKindText(m.kind)),
     TextField("session_id", m.sessionId),
     IntField("published_at_ms", m.publishedAtMs),
     IntField("batch_seq", m.batchSeq),
     IntField("total_batches", m.totalBatches),
     TextField("status", m.status),
     BoolField("has_summary", m.hasSummary),
     IntField("processed_batches", m.processedBatches),
     IntField("failed_batches", m.failedBatches),
     IntField("total_fill_events", m.totalFillEvents),
     BoolField("partial", m.partial),
     Field("total_pnl", m.totalPnl),
     Field("avg_pnl", m.avgPnl),
     Field("avg_is", m.avgIs),
     Field("sharpe", m.sharpe),
     Field("avg_fill_rate", m.avgFillRate),
     Field("avg_solve_time_ms", m.avgSolveTimeMs),
     Field("max_drawdown", m.maxDrawdown),
     Field("std_pnl", m.stdPnl),
     Field("avg_vwap", m.avgVwap),
     TextField("avgis_rule", m.avgisRule),
     TextField("decision_price_source", m.decisionPriceSource),
     BoolField("no_requested_volume", m.noRequestedVolume),
     TextField("error_details", m.errorDetails),
     TextField("error_code", m.errorCode)]
  }

  function SerializeResult(m: Result): string { Render(ResultFields(m)) }

  function GetInt64(m: map<string, string>, key: string): DM.Int64 {
    if key in m then ParseInt64(m[key]) else 0
  }

  function GetUint32(m: map<string, string>, key: string): Uint32 {
    if key in m then ParseUint32(m[key]) else 0
  }

  predicate GetBool(m: map<string, string>, key: string) { key in m && ParseBool(m[key]) }

  function ParseResult(payload: string): Option<Result> {
    var m := AddLines(map[], payload);
    if "message_type" !in m || m["message_type"] != "replay_result" then None
    else
      Some(Result(
        ResultKindOf(Get(m, "kind", "")), Get(m, "session_id", ""), GetInt64(m, "published_at_ms"),
        GetUint32(m, "batch_seq"), GetUint32(m, "total_batches"), Get(m, "status", ""),
        GetBool(m, "has_summary"), GetUint32(m, "processed_batches"), GetUint32(m, "failed_batches"),
        GetUint32(m, "total_fill_events"), GetBool(m, "partial"),
        Get(m, "total_pnl", "0"), Get(m, "avg_pnl", "0"), Get(m, "avg_is", "0"),
        Get(m, "sharpe", "0"), Get(m, "avg_fill_rate", "0"), Get(m, "avg_solve_time_ms", "0"),
        Get(m, "max_drawdown", "0"), Get(m, "std_pnl", "0"), Get(m, "avg_vwap", "0"),
        Get(m, "avgis_rule", "volume_weighted"),
        Get(m, "decision_price_source", "marketdata_mid_with_clearprice_fallback"),
        GetBool(m, "no_requested_volume"), Get(m, "error_details", ""), Get(m, "error_code", "")))
  }

  lemma FirstKeysPlain(i: nat)
    requires i < 9
    ensures AllKeyChars(RESULT_KEYS[i])
  {
  }

  lemma MiddleKeysPlain(i: nat)
    requires 9 <= i < 18
    ensures AllKeyChars(RESULT_KEYS[i])
  {
  }

  lemma LastKeysPlain(i: nat)
    requires 18 <= i < |RESULT_KEYS|
    ensures AllKeyChars(RESULT_KEYS[i])
  {
  }

  lemma ResultKeysDiffer(i: nat, j: nat)
    requires i < j < |RESULT_KEYS|
    ensures Tag(RESULT_KEYS[i]) != Tag(RESULT_KEYS[j])
  {
  }

  lemma ResultKeys()
    ensures Plain(RESULT_KEYS) && Distinct(RESULT_KEYS)
  {
    hide AllKeyChars, Tag;
    forall i | 0 <= i < |RESULT_KEYS| ensures AllKeyChars(RESULT_KEYS[i]) {
      if i < 9 { FirstKeysPlain(i); } else if i < 18 { MiddleKeysPlain(i); } else { LastKeysPlain(i); }
    }
    forall i, j | 0 <= i < j < |RESULT_KEYS| ensures RESULT_KEYS[i] != RESULT_KEYS[j] {
      ResultKeysDiffer(i, j);
    }
  }

  lemma ResultFieldsWellFormed(m: Result)
    requires forall i :: 0 <= i < |Numbers(m)| ==> NumberToken(Numbers(m)[i])
    ensures Printable(ResultFields(m)) && DistinctKeys(ResultFields(m))
  {
    hide Escape, IntText, PlainKey, Distinct, Plain;
    ResultKeys();
    var f := ResultFields(m);
    assert Keys(f) == RESULT_KEYS;
    ResultTextsOneLine(m);
    WellFormed(f);
  }

  lemma ResultTextsOneLine(m: Result)
    requires forall i :: 0 <= i < |Numbers(m)| ==> NumberToken(Numbers(m)[i])
    ensures forall i :: 0 <= i < |ResultFields(m)| ==>
              ResultFields(m)[i].key != "" && '\n' !in ResultFields(m)[i].text
  {
    hide Escape, IntText;
    var n := Numbers(m);
    assert NumberToken(n[0]) && NumberToken(n[1]) && NumberToken(n[2]) && NumberToken(n[3]);
    assert NumberToken(n[4]) && NumberToken(n[5]) && NumberToken(n[6]) && NumberToken(n[7]);
    assert NumberToken(n[8]);
    forall s: string ensures '\n' !in Escape(s) { EscapedIsOneLine(s); }
    forall x ensures '\n' !in IntText(x) { IntTextPlain(x); }
  }

  /** Where the nine floating-point fields start. */
  const FIRST_NUMBER: nat := 13

  lemma NumberFieldAt(m: Result, i: nat)
    requires i < |Numbers(m)|
    ensures FIRST_NUMBER + i < |ResultFields(m)| && FIRST_NUMBER + i < |RESULT_KEYS|
    ensures ResultFields(m)[FIRST_NUMBER + i] == Field(RESULT_KEYS[FIRST_NUMBER + i], Numbers(m)[i])
  {
    hide TextField, IntField, BoolField;
  }

  lemma LookupNumber(fields: seq<Field>, i: nat, key: string, token: string)
    requires Printable(fields) && DistinctKeys(fields) && NumberToken(token)
    requires i < |fields| && fields[i] == Field(key, token)
    ensures Get(AddLines(map[], Render(fields)), key, "0") == token
  {
    LookupRendered(fields, i);
    UnescapePlain(token);
  }

  lemma GetPresent(m: map<string, string>, key: string, a: string, b: string)
    requires key in m
    ensures Get(m, key, a) == Get(m, key, b)
  {
  }

  /** The field map a consumer of result `m` gets. */
  function Received(m: Result): map<string, string> { AddLines(map[], SerializeResult(m)) }

  lemma ReceivedTexts(m: Result)
    requires forall i :: 0 <= i < |Numbers(m)| ==> NumberToken(Numbers(m)[i])
    ensures var p := Received(m);
            && "message_type" in p && p["message_type"] == "replay_result"
            && Get(p, "kind", "") == ResultKindText(m.kind)
            && Get(p, "session_id", "") == m.sessionId
            && Get(p, "status", "") == m.status
            && Get(p, "avgis_rule", "volume_weighted") == m.avgisRule
  {
    hide AddLines, Render, TextField, IntField, BoolField, ParseInt64, ParseUint32, ParseBool, Get,
         NumberToken;
    var f := ResultFields(m);
    ResultFieldsWellFormed(m);
    LookupText(f, 1, "message_type", "replay_result");
    LookupText(f, 2, "kind", ResultKindText(m.kind));
    LookupText(f, 3, "session_id", m.sessionId);
    LookupText(f, 7, "status", m.status);
    LookupText(f, 22, "avgis_rule", m.avgisRule);
    GetPresent(Received(m), "avgis_rule", "", "volume_weighted");
    GetIs(Received(m), "message_type");
  }

  lemma ReceivedDetails(m: Result)
    requires forall i :: 0 <= i < |Numbers(m)| ==> NumberToken(Numbers(m)[i])
    ensures var p := Received(m);
            && Get(p, "decision_price_source", "marketdata_mid_with_clearprice_fallback")
               == m.decisionPriceSource
            && Get(p, "error_details", "") == m.errorDetails
            && Get(p, "error_code", "") == m.errorCode
  {
    hide AddLines, Render, TextField, IntField, BoolField, ParseInt64, ParseUint32, ParseBool, Get,
         NumberToken;
    var f := ResultFields(m);
    ResultFieldsWellFormed(m);
    LookupText(f, 23, "decision_price_source", m.decisionPriceSource);
    LookupText(f, 25, "error_details", m.errorDetails);
    LookupText(f, 26, "error_code", m.errorCode);
    GetPresent(Received(m), "decision_price_source", "", "marketdata_mid_with_clearprice_fallback");
  }

  lemma ReceivedCounts(m: Result)
    requires forall i :: 0 <= i < |Numbers(m)| ==> NumberToken(Numbers(m)[i])
    ensures var p := Received(m);
            && GetInt64(p, "published_at_ms") == m.publishedAtMs
            && GetUint32(p, "batch_seq") == m.batchSeq
            && GetUint32(p, "total_batches") == m.totalBatches
            && GetUint32(p, "processed_batches") == m.processedBatches
            && GetUint32(p, "failed_batches") == m.failedBatches
            && GetUint32(p, "total_fill_events") == m.totalFillEvents
  {
    hide AddLines, Render, TextField, IntField, BoolField, ParseInt64, ParseUint32, ParseBool, Get,
         NumberToken;
    var f := ResultFields(m);
    ResultFieldsWellFormed(m);
    LookupInt(f, 4, "published_at_ms", m.publishedAtMs);
    LookupInt(f, 5, "batch_seq", m.batchSeq);
    LookupInt(f, 6, "total_batches", m.totalBatches);
    LookupInt(f, 9, "processed_batches", m.processedBatches);
    LookupInt(f, 10, "failed_batches", m.failedBatches);
    LookupInt(f, 11, "total_fill_events", m.totalFillEvents);
  }

  lemma ReceivedFlags(m: Result)
    requires forall i :: 0 <= i < |Numbers(m)| ==> NumberToken(Numbers(m)[i])
    ensures var p := Received(m);
            && GetBool(p, "has_summary") == m.hasSummary
            && GetBool(p, "partial") == m.partial
            && GetBool(p, "no_requested_volume") == m.noRequestedVolume
  {
    hide AddLines, Render, TextField, IntField, BoolField, ParseInt64, ParseUint32, ParseBool, Get,
         NumberToken;
    var f := ResultFields(m);
    ResultFieldsWellFormed(m);
    LookupBool(f, 8, "has_summary", m.hasSummary);
    LookupBool(f, 12, "partial", m.partial);
    LookupBool(f, 24, "no_requested_volume", m.noRequestedVolume);
  }

  lemma NumberReceived(m: Result, i: nat)
    requires forall k :: 0 <= k < |Numbers(m)| ==> NumberToken(Numbers(m)[k])
    requires i < |Numbers(m)|
    ensures FIRST_NUMBER + i < |RESULT_KEYS|
    ensures Get(Received(m), RESULT_KEYS[FIRST_NUMBER + i], "0") == Numbers(m)[i]
  {
    ResultFieldsWellFormed(m);
    NumberFieldAt(m, i);
    hide ResultFields, Numbers, RESULT_KEYS, Printable, DistinctKeys, AddLines, Render, Get, NumberToken;
    LookupNumber(ResultFields(m), FIRST_NUMBER + i, RESULT_KEYS[FIRST_NUMBER + i], Numbers(m)[i]);
  }

  lemma ReceivedNumbers(m: Result)
    requires forall i :: 0 <= i < |Numbers(m)| ==> NumberToken(Numbers(m)[i])
    ensures var p := Received(m);
            && Get(p, "total_pnl", "0") == m.totalPnl
            && Get(p, "avg_pnl", "0") == m.avgPnl
            && Get(p, "avg_is", "0") == m.avgIs
            && Get(p, "sharpe", "0") == m.sharpe
            && Get(p, "avg_fill_rate", "0") == m.avgFillRate
            && Get(p, "avg_solve_time_ms", "0") == m.avgSolveTimeMs
            && Get(p, "max_drawdown", "0") == m.maxDrawdown
            && Get(p, "std_pnl", "0") == m.stdPnl
            && Get(p, "avg_vwap", "0") == m.avgVwap
  {
    hide Received, Get, NumberToken;
    NumberReceived(m, 0);
    NumberReceived(m, 1);
    NumberReceived(m, 2);
    NumberReceived(m, 3);
    NumberReceived(m, 4);
    NumberReceived(m, 5);
    NumberReceived(m, 6);
    NumberReceived(m, 7);
    NumberReceived(m, 8);
  }

  /** Every result survives too, its floating-point numbers as the texts they were printed to. */
  lemma ResultRoundTrip(m: Result)
    requires forall i :: 0 <= i < |Numbers(m)| ==> NumberToken(Numbers(m)[i])
    ensures ParseResult(SerializeResult(m)) == Some(m)
  {
    hide SerializeResult, AddLines, Get, GetInt64, GetUint32, GetBool, NumberToken;
    ReceivedTexts(m);
    ReceivedDetails(m);
    ReceivedCounts(m);
    ReceivedFlags(m);
    ReceivedNumbers(m);
  }

  lemma GetIs(m: map<string, string>, key: string)
    requires key in m
    ensures Get(m, key, "") == m[key]
  {
  }

  lemma NotAResult(payload: string)
    requires var p := AddLines(map[], payload); "message_type" in p && p["message_type"] != "replay_result"
    ensures ParseResult(payload) == None
  {
    hide AddLines, Get, GetInt64, GetUint32, GetBool;
  }

  lemma NotACommand(payload: string)
    requires var p := AddLines(map[], payload); "message_type" in p && p["message_type"] != "replay_command"
    ensures ParseCommand(payload) == None
  {
    hide AddLines, Get, ParseInt64;
  }

  lemma CommandMessageType(c: Command)
    ensures var p := AddLines(map[], SerializeCommand(c));
            "message_type" in p && p["message_type"] == "replay_command"
  {
    CommandFieldsWellFormed(c);
    hide AddLines, Render, Printable, DistinctKeys, TextField, IntField, Get, Escape;
    LookupText(CommandFields(c), 1, "message_type", "replay_command");
    GetIs(AddLines(map[], SerializeCommand(c)), "message_type");
  }

  lemma ResultMessageType(r: Result)
    requires forall i :: 0 <= i < |Numbers(r)| ==> NumberToken(Numbers(r)[i])
    ensures var p := AddLines(map[], SerializeResult(r));
            "message_type" in p && p["message_type"] == "replay_result"
  {
    hide AddLines, SerializeResult, Get, NumberToken, Numbers;
    ReceivedTexts(r);
  }

  /** Neither parser accepts the other's messages. */
  lemma KindsNeverConfused(c: Command, r: Result)
    requires forall i :: 0 <= i < |Numbers(r)| ==> NumberToken(Numbers(r)[i])
    ensures ParseResult(SerializeCommand(c)) == None
    ensures ParseCommand(SerializeResult(r)) == None
  {
    hide AddLines, SerializeCommand, SerializeResult, ParseResult, ParseCommand, NumberToken;
    CommandMessageType(c);
    ResultMessageType(r);
    NotAResult(SerializeCommand(c));
    NotACommand(SerializeResult(r));
  }
}
