/** Which records the cleaner takes for alerts, errors, compactions and tool calls, stated on their fields. */
module RolloutRecords {
  import opened Prelude
  import opened Text
  import opened TextFacts
  import opened Json
  import opened Rollout
  import RE = RolloutErrors
  import RR = RolloutRetention
  import MF = MessageFormat
  import MT = MessageTheorems
  import MD = MessageDiagnosis
  import MV = MessageValidity
  import MR = MessageRepairs

  // ---- Fields ----

  /** What stands under the keys of the path, one inside the other. */
  function At(value: Value, path: seq<string>): Option<Value>
    decreases |path|
  {
    if path == [] then Some(value)
    else if value.Object? && path[0] in value.fields then At(value.fields[path[0]], path[1..])
    else None
  }

  predicate Says(value: Value, path: seq<string>, text: string) {
    At(value, path) == Some(String(text))
  }

  lemma AtOne(value: Value, key: string)
    ensures At(value, [key]) == Get(value, key)
    ensures forall text: string :: Says(value, [key], text) <==> StringAt(value, key) == Some(text)
  {
    assert [key][1..] == [];
  }

  lemma AtBelow(value: Value, key: string, path: seq<string>)
    ensures At(value, [key] + path) == match Get(value, key) case None => None case Some(field) => At(field, path)
  {
    assert ([key] + path)[1..] == path;
  }

  lemma AtTwo(value: Value, first: string, second: string)
    ensures At(value, [first, second]) == GetIn(Get(value, first), second)
  {
    AtBelow(value, first, [second]);
    assert [first] + [second] == [first, second];
    if Get(value, first).Some? {
      AtOne(Get(value, first).value, second);
    }
  }

  lemma AtThree(value: Value, first: string, second: string, third: string)
    ensures At(value, [first, second, third]) == GetIn(GetIn(Get(value, first), second), third)
  {
    AtBelow(value, first, [second, third]);
    assert [first] + [second, third] == [first, second, third];
    if Get(value, first).Some? {
      AtTwo(Get(value, first).value, second, third);
    }
  }

  lemma AtFour(value: Value, first: string, second: string, third: string, fourth: string)
    ensures At(value, [first, second, third, fourth]) == GetIn(GetIn(GetIn(Get(value, first), second), third), fourth)
  {
    AtBelow(value, first, [second, third, fourth]);
    assert [first] + [second, third, fourth] == [first, second, third, fourth];
    if Get(value, first).Some? {
      AtThree(Get(value, first).value, second, third, fourth);
    }
  }

  // ---- Events ----

  predicate Event(value: Value, kind: string) {
    Says(value, ["type"], "event_msg") && Says(value, ["payload", "type"], kind)
  }

  lemma EventIff(value: Value, kind: string)
    ensures IsEvent(value, kind) <==> Event(value, kind)
  {
    AtOne(value, "type");
    AtTwo(value, "payload", "type");
  }

  lemma CompactedIff(value: Value)
    ensures IsCompacted(value) <==> Says(value, ["type"], "compacted")
    ensures IsSessionMeta(value) <==> Says(value, ["type"], "session_meta")
  {
    AtOne(value, "type");
  }

  // ---- Token counts ----

  /** A number stands there that is written as a whole one of at most 64 bits. */
  ghost predicate Reports(value: Value, path: seq<string>, n: nat) {
    match At(value, path)
    case Some(Number(literal)) => Numeral(literal, n)
    case _ => false
  }

  ghost predicate ReportsOver(value: Value, path: seq<string>, trigger: nat) {
    exists n: nat :: n >= trigger && Reports(value, path, n)
  }

  /** One of the four token fields reports the trigger or more; a trigger of zero needs none. */
  ghost predicate Over(value: Value, trigger: nat) {
    || trigger == 0
    || ReportsOver(value, ["payload", "info", "last_token_usage", "input_tokens"], trigger)
    || ReportsOver(value, ["payload", "info", "last_token_usage", "total_tokens"], trigger)
    || ReportsOver(value, ["payload", "info", "total_token_usage", "input_tokens"], trigger)
    || ReportsOver(value, ["payload", "info", "total_token_usage", "total_tokens"], trigger)
  }

  lemma ReadIff(value: Value, path: seq<string>, trigger: nat)
    ensures AsU64(At(value, path)) >= trigger <==> trigger == 0 || ReportsOver(value, path, trigger)
  {
    hide ParseUnsigned;
    hide Numeral;
    var there := At(value, path);
    if there.Some? && there.value.Number? {
      var literal := there.value.literal;
      forall n: nat ensures ParseUnsigned(literal, U64_MAX) == Some(n) <==> Numeral(literal, n) {
        ParseIffNumeral(literal, n);
      }
      if ParseUnsigned(literal, U64_MAX).Some? {
        assert Reports(value, path, ParseUnsigned(literal, U64_MAX).value);
      }
    }
  }

  lemma OverIff(value: Value, trigger: nat)
    ensures ObservedTokens(Get(value, "payload")) >= trigger <==> Over(value, trigger)
  {
    hide ReportsOver;
    hide AsU64;
    hide At;
    AtFour(value, "payload", "info", "last_token_usage", "input_tokens");
    AtFour(value, "payload", "info", "last_token_usage", "total_tokens");
    AtFour(value, "payload", "info", "total_token_usage", "input_tokens");
    AtFour(value, "payload", "info", "total_token_usage", "total_tokens");
    ReadIff(value, ["payload", "info", "last_token_usage", "input_tokens"], trigger);
    ReadIff(value, ["payload", "info", "last_token_usage", "total_tokens"], trigger);
    ReadIff(value, ["payload", "info", "total_token_usage", "input_tokens"], trigger);
    ReadIff(value, ["payload", "info", "total_token_usage", "total_tokens"], trigger);
  }

  // ---- Errors ----

  /** The text there holds the words, in any letter case. */
  ghost predicate SaysIn(value: Value, path: seq<string>, words: string) {
    match At(value, path)
    case Some(String(text)) => Contains(ToLower(text), words)
    case _ => false
  }

  ghost predicate ContextError(value: Value) {
    var message := ["payload", "error", "message"];
    || SaysIn(value, ["payload", "error", "codex_error_info"], "context_window_exceeded")
    || SaysIn(value, message, "context window") || SaysIn(value, message, "exceeds the context") || SaysIn(value, message, "input exceeds")
    || (SaysIn(value, message, "image_url") && (SaysIn(value, message, "invalid format") || SaysIn(value, message, "valid url")))
  }

  lemma SaysInIff(value: Value, path: seq<string>, words: string)
    requires words != ""
    ensures SaysIn(value, path, words) <==> Mentions(LowerOrEmpty(At(value, path)), words)
  {
    RE.MentionsIff(LowerOrEmpty(At(value, path)), words);
  }

  lemma RecoverableIff(value: Value)
    ensures IsRecoverableTaskError(value) <==> Event(value, "task_complete") && ContextError(value)
  {
    hide SaysIn;
    hide Mentions;
    hide LowerOrEmpty;
    hide At;
    EventIff(value, "task_complete");
    hide Event;
    hide IsEvent;
    var message := ["payload", "error", "message"];
    AtThree(value, "payload", "error", "codex_error_info");
    AtThree(value, "payload", "error", "message");
    SaysInIff(value, ["payload", "error", "codex_error_info"], "context_window_exceeded");
    SaysInIff(value, message, "context window");
    SaysInIff(value, message, "exceeds the context");
    SaysInIff(value, message, "input exceeds");
    SaysInIff(value, message, "image_url");
    SaysInIff(value, message, "invalid format");
    SaysInIff(value, message, "valid url");
  }

  ghost predicate Alert(value: Value, trigger: nat) {
    (Event(value, "token_count") && Over(value, trigger)) || (Event(value, "task_complete") && ContextError(value))
  }

  /** An alert is a token count at the trigger or a task that ended in a context-window error. */
  lemma AlertIff(value: Value, trigger: nat)
    ensures IsAlert(value, trigger) <==> Alert(value, trigger)
  {
    hide Over;
    hide ContextError;
    hide IsEvent;
    hide Event;
    EventIff(value, "token_count");
    OverIff(value, trigger);
    RecoverableIff(value);
  }

  ghost predicate UnknownError(value: Value) {
    var error := At(value, ["payload", "error"]);
    Event(value, "task_complete") && error.Some? && error != Some(Null) && !ContextError(value)
  }

  /** An unknown error is a task that ended in any other error. */
  lemma UnknownIff(value: Value)
    ensures IsUnknownError(value) <==> UnknownError(value)
  {
    hide ContextError;
    EventIff(value, "task_complete");
    AtTwo(value, "payload", "error");
    RecoverableIff(value);
  }

  // ---- Tool calls ----

  /** The text, or its first characters and three dots. */
  predicate Shortened(text: string, max: nat, short: string) {
    if |text| <= max then short == text
    else |short| == max + 3 && short[..max] == text[..max] && short[max] == '.' && short[max + 1] == '.' && short[max + 2] == '.'
  }

  lemma ShortenedIff(text: string, max: nat, short: string)
    ensures Shortened(text, max, short) <==> short == PreviewOf(text, max)
  {
    if |text| > max && Shortened(text, max, short) {
      assert short == short[..max] + short[max..] && short[max..] == "...";
    }
  }

  /** The arguments name a path, as an object or as its text. */
  predicate NamesPath(arguments: Value, path: string, codec: Codec) {
    || (arguments.Object? && Says(arguments, ["path"], path))
    || (arguments.String? && codec.parse(arguments.text).Some? && Says(codec.parse(arguments.text).value, ["path"], path))
  }

  /** The preview is the shortened text of the arguments, and only viewing an image has an image path. */
  ghost predicate ArgumentsShown(arguments: Option<Value>, call: ToolCall, codec: Codec) {
    match arguments
    case None => call.argumentsPreview == None && call.imagePath == None
    case Some(value) =>
      && call.argumentsPreview.Some?
      && Shortened(if value.String? then value.text else codec.write(value), 400, call.argumentsPreview.value)
      && (call.imagePath.Some? ==> call.name == "view_image" && NamesPath(value, call.imagePath.value, codec))
      && (call.imagePath.None? && call.name == "view_image" ==> forall path: string :: !NamesPath(value, path, codec))
  }

  ghost predicate CallNamed(value: Value, id: string, call: ToolCall, codec: Codec) {
    && Says(value, ["payload", "type"], "function_call") && Says(value, ["payload", "call_id"], id)
    && Says(value, ["payload", "name"], call.name) && ArgumentsShown(At(value, ["payload", "arguments"]), call, codec)
  }

  lemma NamesPathIff(arguments: Value, codec: Codec)
    ensures forall path: string :: NamesPath(arguments, path, codec) <==> ArgumentPath(arguments, codec) == Some(path)
  {
    match arguments
    case String(text) =>
      if codec.parse(text).Some? {
        AtOne(codec.parse(text).value, "path");
      }
    case Object(_) => AtOne(arguments, "path");
    case _ =>
  }

  /** A record is taken for a tool call exactly when it is one with that id, and its name and arguments are kept. */
  lemma ToolCallIff(value: Value, id: string, call: ToolCall, codec: Codec)
    ensures ToolCallOf(value, codec) == Some((id, call)) <==> CallNamed(value, id, call, codec)
  {
    hide At;
    hide NamesPath;
    hide PreviewOf;
    hide Shortened;
    hide ArgumentPath;
    AtTwo(value, "payload", "type");
    AtTwo(value, "payload", "call_id");
    AtTwo(value, "payload", "name");
    AtTwo(value, "payload", "arguments");
    var arguments := At(value, ["payload", "arguments"]);
    if arguments.Some? {
      var text := if arguments.value.String? then arguments.value.text else codec.write(arguments.value);
      NamesPathIff(arguments.value, codec);
      if call.argumentsPreview.Some? {
        ShortenedIff(text, 400, call.argumentsPreview.value);
      }
      ShortenedIff(text, 400, PreviewOf(text, 400));
    }
  }

  ghost predicate NoCall(value: Value, id: string, codec: Codec) {
    forall call: ToolCall :: !CallNamed(value, id, call, codec)
  }

  /** A tool output finds the last call with its id. */
  lemma {:induction false} LastCallCounts(records: seq<Record>, codec: Codec, id: string)
    ensures var calls := ToolCallsOf(records, codec);
            if id in calls then
              exists i :: 0 <= i < |records| && CallNamed(records[i].value, id, calls[id], codec)
                && forall k :: i < k < |records| ==> NoCall(records[k].value, id, codec)
            else forall k :: 0 <= k < |records| ==> NoCall(records[k].value, id, codec)
  {
    hide CallNamed;
    hide ToolCallOf;
    if records != [] {
      var n := |records| - 1;
      var value, before := records[n].value, ToolCallsOf(records[..n], codec);
      LastCallCounts(records[..n], codec, id);
      forall call: ToolCall ensures ToolCallOf(value, codec) == Some((id, call)) <==> CallNamed(value, id, call, codec) {
        ToolCallIff(value, id, call, codec);
      }
      if ToolCallOf(value, codec).Some? && ToolCallOf(value, codec).value.0 == id {
        assert CallNamed(records[n].value, id, ToolCallsOf(records, codec)[id], codec);
      } else {
        assert NoCall(value, id, codec);
        if id in before {
          var i :| 0 <= i < n && CallNamed(records[..n][i].value, id, before[id], codec)
                   && forall k :: i < k < n ==> NoCall(records[..n][k].value, id, codec);
          assert forall k :: i < k < n ==> records[..n][k] == records[k];
          assert CallNamed(records[i].value, id, ToolCallsOf(records, codec)[id], codec);
        } else {
          assert forall k :: 0 <= k < n ==> records[..n][k] == records[k];
        }
      }
    }
  }

  // ---- When repairs apply ----

  ghost predicate AllFixable(records: seq<Record>, codec: Codec) {
    forall i :: 0 <= i < |records| ==> MR.Fixable(records[i].value, codec)
  }

  ghost predicate AllValid(records: seq<Record>) {
    forall i :: 0 <= i < |records| ==> MV.ValidRecord(records[i].value)
  }

  /** The setting is on, there is an unknown error, something can be repaired and nothing cannot, and both kinds of support
      are there. */
  ghost predicate Repairable(records: seq<Record>, config: Config, codec: Codec) {
    && config.preview && config.probeSupports && config.captureSupports
    && (exists i :: 0 <= i < |records| && UnknownError(records[i].value))
    && AllFixable(records, codec) && !AllValid(records)
  }

  lemma {:induction false} NothingOpenIff(values: seq<Value>, codec: Codec)
    ensures MT.Unrepaired(MD.AllIssues(values, codec)) == [] <==> forall i :: 0 <= i < |values| ==> MR.Fixable(values[i], codec)
  {
    hide MF.DiagnoseRecord;
    hide MR.Fixable;
    if values != [] {
      var n := |values| - 1;
      var last := MF.DiagnoseRecord(values[n], n, codec).issues;
      NothingOpenIff(values[..n], codec);
      assert forall i :: 0 <= i < n ==> values[..n][i] == values[i];
      MT.UnrepairedConcat(MD.AllIssues(values[..n], codec), last);
      MR.RepairedIffFixable(values[n], n, codec);
    }
  }

  /** A fixable record stays as it is exactly when it is valid. */
  lemma StaysIffValid(value: Value, r: nat, codec: Codec)
    requires MR.Fixable(value, codec)
    ensures MF.DiagnoseRecord(value, r, codec).value == value <==> MV.ValidRecord(value)
  {
    hide MF.DiagnoseRecord;
    hide MR.Fixable;
    hide MV.ValidRecord;
    MR.RepairedIffFixable(value, r, codec);
    MV.RepairedToValid(value, r, codec);
  }

  lemma SomethingIsRepaired(records: seq<Record>, codec: Codec)
    requires AllFixable(records, codec)
    ensures MD.Rewritten(Values(records), codec) != Values(records) <==> !AllValid(records)
  {
    hide MF.DiagnoseRecord;
    hide MR.Fixable;
    hide MV.ValidRecord;
    var values := Values(records);
    forall i | 0 <= i < |values| ensures MD.Rewritten(values, codec)[i] == values[i] <==> MV.ValidRecord(records[i].value) {
      StaysIffValid(values[i], i, codec);
    }
  }

  lemma RepairsIff(records: seq<Record>, config: Config, codec: Codec)
    ensures RepairsApply(records, config, codec) <==> Repairable(records, config, codec)
  {
    hide MF.DiagnoseRecord;
    hide MR.Fixable;
    hide MV.ValidRecord;
    hide IsUnknownError;
    hide UnknownError;
    hide AllValid;
    var values := Values(records);
    NothingOpenIff(values, codec);
    assert AllFixable(records, codec) <==> forall i :: 0 <= i < |values| ==> MR.Fixable(values[i], codec);
    forall i | 0 <= i < |records| ensures IsUnknownError(records[i].value) <==> UnknownError(records[i].value) {
      UnknownIff(records[i].value);
    }
    if AllFixable(records, codec) {
      SomethingIsRepaired(records, codec);
    }
    hide AllFixable;
    hide MD.Rewritten;
    hide MD.AllIssues;
  }

  // ---- Which records are kept ----

  /** The last compaction is behind record i, and an alert behind that. */
  ghost predicate Obsolete(records: seq<Record>, trigger: nat, i: nat)
    requires i < |records|
  {
    exists c, a :: i < c < a < |records| && Says(records[c].value, ["type"], "compacted") && Alert(records[a].value, trigger)
                   && forall k :: c < k < |records| ==> !Says(records[k].value, ["type"], "compacted")
  }

  lemma ObsoleteIff(records: seq<Record>, trigger: nat, i: nat)
    requires i < |records|
    ensures RR.FoldsAway(records, trigger, i) <==> !Says(records[i].value, ["type"], "session_meta") && Obsolete(records, trigger, i)
  {
    hide IsAlert;
    hide Alert;
    hide IsCompacted;
    hide IsSessionMeta;
    hide Says;
    CompactedIff(records[i].value);
    forall k | 0 <= k < |records|
      ensures IsCompacted(records[k].value) <==> Says(records[k].value, ["type"], "compacted")
      ensures IsAlert(records[k].value, trigger) <==> Alert(records[k].value, trigger)
    {
      CompactedIff(records[k].value);
      AlertIff(records[k].value, trigger);
    }
  }

  /** A record goes exactly when it is obsolete and no session metadata, an alert, or, with repairs, an unknown error. */
  lemma DroppedIff(records: seq<Record>, config: Config, codec: Codec, i: nat)
    requires i < |records|
    ensures var (value, fate) := (records[i].value, FateOf(i, records[i], PlanFor(records, config, codec), config, codec));
            && (fate.Folded? <==> !Says(value, ["type"], "session_meta") && Obsolete(records, config.trigger, i))
            && (fate.DroppedAlert? <==> !fate.Folded? && Alert(value, config.trigger))
            && (fate.DroppedUnknown? <==> !fate.Folded? && !fate.DroppedAlert? && Repairable(records, config, codec) && UnknownError(value))
  {
    hide IsAlert;
    hide Alert;
    hide IsUnknownError;
    hide UnknownError;
    hide Obsolete;
    hide Rewrite;
    hide Says;
    hide RR.FoldsAway;
    hide RepairsApply;
    hide Repairable;
    RepairsIff(records, config, codec);
    RR.FoldExactly(records, config.trigger, i);
    ObsoleteIff(records, config.trigger, i);
    AlertIff(records[i].value, config.trigger);
    UnknownIff(records[i].value);
  }

  // ---- Lines ----

  function Concat(pieces: seq<string>): string {
    if pieces == [] then "" else Concat(pieces[..|pieces| - 1]) + pieces[|pieces| - 1]
  }

  function WithoutLineFeed(piece: string): string {
    if piece != "" && piece[|piece| - 1] as int == 10 then piece[..|piece| - 1] else piece
  }

  /** The lines that hold something. */
  ghost function Nonblank(pieces: seq<string>): seq<string> {
    if pieces == [] then []
    else
      var before, last := Nonblank(pieces[..|pieces| - 1]), pieces[|pieces| - 1];
      if Blank(WithoutLineFeed(last)) then before else before + [last]
  }

  ghost predicate Unreadable(piece: string, codec: Codec) {
    !Blank(WithoutLineFeed(piece)) && codec.parse(WithoutLineFeed(piece)).None?
  }

  predicate ReadFrom(record: Record, piece: string, codec: Codec) {
    record.line + record.newline == piece && record.line == WithoutLineFeed(piece) && codec.parse(record.line) == Some(record.value)
  }

  ghost predicate AllRead(records: seq<Record>, pieces: seq<string>, codec: Codec) {
    |records| == |pieces| && forall i :: 0 <= i < |records| ==> ReadFrom(records[i], pieces[i], codec)
  }

  /** The pieces with something in them are read one by one, or the first one that is not JSON is named by its number. */
  lemma {:induction false} PiecesAreRead(pieces: seq<string>, codec: Codec)
    ensures match ParsePieces(pieces, codec)
            case Ok(records) =>
              AllRead(records, Nonblank(pieces), codec) && forall k :: 0 <= k < |pieces| ==> !Unreadable(pieces[k], codec)
            case Err(line) =>
              && 0 < line <= |pieces| && Unreadable(pieces[line - 1], codec)
              && forall k :: 0 <= k < line - 1 ==> !Unreadable(pieces[k], codec)
  {
    hide Trim;
    hide Blank;
    if pieces != [] {
      var n := |pieces| - 1;
      PiecesAreRead(pieces[..n], codec);
      assert forall k :: 0 <= k < n ==> pieces[..n][k] == pieces[k];
      TrimEmptyIff(WithoutLineFeed(pieces[n]));
      assert SplitNewline(pieces[n]).0 == WithoutLineFeed(pieces[n]);
      assert SplitNewline(pieces[n]).0 + SplitNewline(pieces[n]).1 == pieces[n];
    }
  }

  lemma {:induction false} ConcatCons(piece: string, pieces: seq<string>)
    ensures Concat([piece] + pieces) == piece + Concat(pieces)
  {
    if pieces == [] {
      assert [piece][..0] == [];
    } else {
      var n := |pieces| - 1;
      assert ([piece] + pieces)[..n + 1] == [piece] + pieces[..n];
      ConcatCons(piece, pieces[..n]);
    }
  }

  /** The pieces are the lines of the text: together they are the text, and each but the last ends in its only line feed. */
  lemma {:induction false} PiecesAreLines(text: string)
    ensures Concat(SplitInclusive(text)) == text && RR.GoodPieces(SplitInclusive(text))
    decreases |text|
  {
    RR.PiecesAreGood(text);
    if text != "" {
      match FindWhere(text, c => c == '\n')
      case None =>
        assert SplitInclusive(text) == [text];
        ConcatCons(text, []);
        assert [text] + [] == [text];
      case Some(i) =>
        PiecesAreLines(text[i + 1..]);
        ConcatCons(text[..i + 1], SplitInclusive(text[i + 1..]));
        assert text == text[..i + 1] + text[i + 1..];
    }
  }
}
