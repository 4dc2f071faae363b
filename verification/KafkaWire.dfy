/**
  The wire text of replay messages, written out line by line, and the escapes as a table.
 */
module KafkaWire {
  import opened Digits
  import opened ReplayKafka
  import opened Texts
  import opened Wrappers

  // -------------------------------------------------------------- escaping

  /** Escaping goes piece by piece. */
  lemma {:induction false} EscapeAppend(a: string, b: string)
    ensures Escape(a + b) == Escape(a) + Escape(b)
  {
    if a == "" {
      assert a + b == b;
      assert Escape(a) + Escape(b) == Escape(b);
    } else {
      assert (a + b)[1..] == a[1..] + b;
      EscapeAppend(a[1..], b);
      hide EscapeChar;
      Regroup(EscapeChar(a[0]), Escape(a[1..]), Escape(b));
    }
  }

  lemma EscapeOne(c: char)
    ensures Escape([c]) == EscapeChar(c)
  {
    assert [c][1..] == "";
  }

  /** The four characters that are escaped, and all that are not. */
  lemma EscapeTable(c: char)
    ensures Escape("\\") == "\\\\" && Escape("\n") == "\\n" && Escape("\r") == "\\r" && Escape("=") == "\\="
    ensures c != '\\' && c != '\n' && c != '\r' && c != '=' ==> Escape([c]) == [c]
  {
    EscapeOne('\\');
    EscapeOne('\n');
    EscapeOne('\r');
    EscapeOne('=');
    EscapeOne(c);
    hide Escape;
  }

  /** A backslash before anything but its four letters, or at the end, is kept as it is. */
  lemma MalformedKept(c: char, rest: string)
    requires c != '\\' && c != 'n' && c != 'r' && c != '='
    ensures Unescape("\\" + [c] + rest) == "\\" + [c] + Unescape(rest)
    ensures Unescape("\\") == "\\"
  {
    var s := "\\" + [c] + rest;
    assert s[0] == '\\' && s[1] == c && s[1..][0] == c && s[1..][1..] == rest;
    assert Unescape(s) == ['\\'] + Unescape(s[1..]);
    assert Unescape(s[1..]) == [c] + Unescape(rest);
    assert "\\"[1..] == "";
  }

  /** The texts of a flag that mean yes. */
  lemma FlagTexts(s: string)
    ensures ParseBool(s) <==> s in {"1", "true", "TRUE"}
  {
  }

  // ----------------------------------------------------------------- lines

  /** Lines of a key, an equals sign and a text. */
  function Joined(lines: seq<(string, string)>): string {
    if lines == [] then "" else lines[0].0 + "=" + lines[0].1 + "\n" + Joined(lines[1..])
  }

  lemma {:induction false} RenderIsLines(fields: seq<Field>, lines: seq<(string, string)>)
    requires |fields| == |lines|
    requires forall i :: 0 <= i < |fields| ==> lines[i] == (fields[i].key, fields[i].text)
    ensures Render(fields) == Joined(lines)
  {
    if fields != [] {
      RenderIsLines(fields[1..], lines[1..]);
    }
  }

  lemma OneIsOne()
    ensures IntText(1) == "1"
  {
  }

  lemma {:induction false} PlainEscapes(s: string)
    requires '\\' !in s && '\n' !in s && '\r' !in s && '=' !in s
    ensures Escape(s) == s
  {
    if s != "" {
      var c := s[0];
      assert EscapeChar(c) == [c];
      PlainEscapes(s[1..]);
      assert s == [c] + s[1..];
      hide EscapeChar;
    } else {
      assert Escape(s) == s;
    }
  }

  function CommandWord(t: CommandType): string {
    match t case Start => "start" case Cancel => "cancel" case Retry => "retry" case UnknownCommand => "unknown"
  }

  function KindWord(k: ResultKind): string {
    match k case Progress => "progress" case Lifecycle => "lifecycle" case UnknownResult => "unknown"
  }

  lemma MessageTypesPlain()
    ensures Escape("replay_command") == "replay_command" && Escape("replay_result") == "replay_result"
  {
    hide Escape;
    PlainEscapes("replay_command");
    PlainEscapes("replay_result");
  }

  /** A command on the wire. */
  lemma CommandWire(m: Command)
    ensures SerializeCommand(m) == Joined([
              ("version", "1"),
              ("message_type", "replay_command"),
              ("command_id", Escape(m.commandId)),
              ("session_id", Escape(m.sessionId)),
              ("command_type", CommandWord(m.commandType)),
              ("requested_by", Escape(m.requestedBy)),
              ("created_at_ms", IntText(m.createdAtMs)),
              ("payload_json", Escape(m.payloadJson))])
  {
    OneIsOne();
    MessageTypesPlain();
    CommandTypesPlain(m.commandType);
    hide CommandTypeText, CommandWord, Escape, IntText, Render, Joined;
    var lines := [
      ("version", "1"), ("message_type", "replay_command"), ("command_id", Escape(m.commandId)),
      ("session_id", Escape(m.sessionId)), ("command_type", CommandWord(m.commandType)),
      ("requested_by", Escape(m.requestedBy)), ("created_at_ms", IntText(m.createdAtMs)),
      ("payload_json", Escape(m.payloadJson))];
    RenderIsLines(CommandFields(m), lines);
  }

  lemma CommandTypesPlain(t: CommandType)
    ensures Escape(CommandTypeText(t)) == CommandTypeText(t) == CommandWord(t)
  {
    hide Escape;
    PlainEscapes(CommandTypeText(t));
  }

  lemma ResultKindsPlain(k: ResultKind)
    ensures Escape(ResultKindText(k)) == ResultKindText(k) == KindWord(k)
  {
    hide Escape;
    PlainEscapes(ResultKindText(k));
  }

  /** A result's lines before its figures. */
  function HeadLines(m: Result): seq<(string, string)> {
    [("version", "1"),
     ("message_type", "replay_result"),
     ("kind", KindWord(m.kind)),
     ("session_id", Escape(m.sessionId)),
     ("published_at_ms", IntText(m.publishedAtMs)),
     ("batch_seq", IntText(m.batchSeq)),
     ("total_batches", IntText(m.totalBatches)),
     ("status", Escape(m.status)),
     ("has_summary", if m.hasSummary then "1" else "0"),
     ("processed_batches", IntText(m.processedBatches)),
     ("failed_batches", IntText(m.failedBatches)),
     ("total_fill_events", IntText(m.totalFillEvents)),
     ("partial", if m.partial then "1" else "0")]
  }

  function FigureLines(m: Result): seq<(string, string)> {
    [("total_pnl", m.totalPnl),
     ("avg_pnl", m.avgPnl),
     ("avg_is", m.avgIs),
     ("sharpe", m.sharpe),
     ("avg_fill_rate", m.avgFillRate),
     ("avg_solve_time_ms", m.avgSolveTimeMs),
     ("max_drawdown", m.maxDrawdown),
     ("std_pnl", m.stdPnl),
     ("avg_vwap", m.avgVwap)]
  }

  function LastLines(m: Result): seq<(string, string)> {
    [("avgis_rule", Escape(m.avgisRule)),
     ("decision_price_source", Escape(m.decisionPriceSource)),
     ("no_requested_volume", if m.noRequestedVolume then "1" else "0"),
     ("error_details", Escape(m.errorDetails)),
     ("error_code", Escape(m.errorCode))]
  }

  lemma HeadWire(m: Result, i: nat)
    requires i < 13
    ensures HeadLines(m)[i] == (ResultFields(m)[i].key, ResultFields(m)[i].text)
  {
    OneIsOne();
    MessageTypesPlain();
    ResultKindsPlain(m.kind);
    hide Escape, IntText, ResultKindText, KindWord;
  }

  lemma FigureWire(m: Result, i: nat)
    requires i < 9
    ensures FigureLines(m)[i] == (ResultFields(m)[13 + i].key, ResultFields(m)[13 + i].text)
  {
    hide Escape, IntText;
  }

  lemma LastWire(m: Result, i: nat)
    requires i < 5
    ensures LastLines(m)[i] == (ResultFields(m)[22 + i].key, ResultFields(m)[22 + i].text)
  {
    hide Escape, IntText;
  }

  lemma LineCounts(m: Result)
    ensures |ResultFields(m)| == 27 && |HeadLines(m)| == 13 && |FigureLines(m)| == 9 && |LastLines(m)| == 5
  {
    hide Escape, IntText;
  }

  /** A result on the wire. */
  lemma ResultWire(m: Result)
    ensures SerializeResult(m) == Joined(HeadLines(m) + FigureLines(m) + LastLines(m))
  {
    hide ResultFields, HeadLines, FigureLines, LastLines, Render, Joined, Escape, IntText;
    LineCounts(m);
    var lines := HeadLines(m) + FigureLines(m) + LastLines(m);
    forall i | 0 <= i < 27 ensures lines[i] == (ResultFields(m)[i].key, ResultFields(m)[i].text) {
      if i < 13 { HeadWire(m, i); } else if i < 22 { FigureWire(m, i - 13); } else { LastWire(m, i - 22); }
    }
    RenderIsLines(ResultFields(m), lines);
  }

  // --------------------------------------------------------------- reading

  lemma {:induction false} SplitFrom(line: string, i: nat)
    requires i <= |line|
    ensures var k := SplitAt(line, i);
            && (forall j :: i <= j < k && line[j] == '=' ==> j > 0 && line[j - 1] == '\\')
            && (k < |line| && k > 0 ==> line[k - 1] != '\\')
    decreases |line| - i
  {
    if i < |line| { SplitFrom(line, i + 1); }
  }

  /**
    A line is a key up to the first equals sign that does not follow a backslash, and the
    escaped value behind it; a line without one says nothing.
   */
  lemma LineMeans(m: map<string, string>, line: string, k: nat)
    ensures IsSplit(line, k) ==> AddLine(m, line) == m[line[..k] := Unescape(line[k + 1..])]
    ensures (forall j :: !IsSplit(line, j)) ==> AddLine(m, line) == m
  {
    hide Unescape;
    SplitFrom(line, 0);
    var split := SplitAt(line, 0);
    if split < |line| { assert IsSplit(line, split); }
  }

  /** Position `k` holds the first equals sign that does not follow a backslash. */
  ghost predicate IsSplit(line: string, k: int) {
    && 0 <= k < |line| && line[k] == '=' && (k > 0 ==> line[k - 1] != '\\')
    && forall j :: 0 <= j < k && line[j] == '=' ==> j > 0 && line[j - 1] == '\\'
  }

  /** Lines are read from the first to the last. */
  lemma LineByLine(m: map<string, string>, line: string, rest: string)
    requires '\n' !in line
    ensures AddLines(m, line + "\n" + rest) == AddLines(AddLine(m, line), rest)
  {
    hide AddLine;
    var payload := line + "\n" + rest;
    assert payload == line + ("\n" + rest);
    FirstIndex(line, "\n" + rest, '\n');
    hide IndexOf;
    assert payload[..|line|] == line && payload[|line| + 1..] == rest;
  }

  /** The last line needs no line break. */
  lemma LastLine(m: map<string, string>, line: string, end: string)
    requires '\n' !in line && end == ""
    ensures AddLines(m, line) == AddLine(m, line)
  {
    hide AddLine;
    FirstIndex(line, end, '\n');
    assert line + end == line && line[..|line|] == line;
    hide IndexOf;
    assert AddLines(AddLine(m, line), end) == AddLine(m, line);
    if line == "" { EmptyLine(m, line); }
  }

  lemma EmptyLine(m: map<string, string>, line: string)
    requires line == ""
    ensures AddLine(m, line) == m
  {
  }

  /** Integers are read back within their width, and are zero beyond it. */
  lemma IntegersRead(x: int)
    ensures ParseInt64(IntText(x)) == if -9223372036854775808 <= x <= 9223372036854775807 then x else 0
    ensures ParseUint32(IntText(x)) == if 0 <= x <= 4294967295 then x else 0
  {
    hide NatText;
    LeadingIntOfText(x, "");
    assert IntText(x) + "" == IntText(x);
    if x >= 0 { LeadingNatOfText(x, ""); } else { assert IntText(x)[0] == '-'; }
  }

  // ---------------------------------------------------------- absent fields

  /** A payload of one line gives one field. */
  lemma OneLineRead(key: string, value: string)
    requires PlainKey(key) && '\\' !in value && '\n' !in value
    ensures AddLines(map[], Joined([(key, value)])) == map[key := value]
  {
    var fields := [Field(key, value)];
    RenderIsLines(fields, [(key, value)]);
    ParseRendered(map[], fields);
    UnescapePlain(value);
    assert fields[1..] == [];
    hide Unescape, AddLines, Render;
  }

  /** A lone message type carries no other field. */
  lemma OtherAbsent(value: string, key: string)
    requires Tag(key) != (12, 'm', 'e')
    ensures key !in map["message_type" := value] && Get(map["message_type" := value], key, "") == ""
  {
  }

  lemma OthersAbsent(value: string)
    ensures var m := map["message_type" := value];
            && Get(m, "command_id", "") == Get(m, "session_id", "") == Get(m, "command_type", "") == ""
            && Get(m, "requested_by", "") == Get(m, "payload_json", "") == "" && "created_at_ms" !in m
  {
    hide Get;
    OtherAbsent(value, "command_id");
    OtherAbsent(value, "session_id");
    OtherAbsent(value, "command_type");
    OtherAbsent(value, "requested_by");
    OtherAbsent(value, "created_at_ms");
    OtherAbsent(value, "payload_json");
  }

  /** Fields a command lacks are empty, and its time zero. */
  lemma BareCommand()
    ensures ParseCommand(Joined([("message_type", "replay_command")]))
         == Some(Command("", "", UnknownCommand, "", 0, ""))
  {
    TypeLineRead();
    hide Joined, AddLines, Tag, Get;
    OthersAbsent("replay_command");
  }

  lemma TypeLineRead()
    ensures AddLines(map[], Joined([("message_type", "replay_command")])) == map["message_type" := "replay_command"]
  {
    hide AddLines, Joined;
    OneLineRead("message_type", "replay_command");
  }
}
