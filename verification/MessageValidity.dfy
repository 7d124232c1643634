/** What a valid record is, stated without reference to the normaliser, and what every repair keeps. */
module MessageValidity {
  import opened Prelude
  import opened Text
  import opened Json
  import opened MessageFormat
  import opened MessageTheorems

  // ---- Valid records ----

  predicate HasText(value: Value, key: string) {
    StringAt(value, key).Some?
  }

  predicate ValidItem(item: Value, expected: string) {
    item.Object? &&
    match StringAt(item, "type")
    case None => false
    case Some(t) =>
      || (t == expected && HasText(item, "text"))
      || (t == "input_image" && expected == "input_text" && HasText(item, "image_url"))
      || (t == "refusal" && expected == "output_text" && HasText(item, "refusal"))
  }

  predicate ValidContent(content: Value, expected: string) {
    content.Array? && content.items != [] && forall i :: 0 <= i < |content.items| ==> ValidItem(content.items[i], expected)
  }

  predicate ValidMessage(message: Value) {
    && StringAt(message, "type") == Some("message")
    && HasText(message, "role") && IsRole(StringAt(message, "role").value)
    && Get(message, "content").Some?
    && ValidContent(Get(message, "content").value, TextType(StringAt(message, "role").value))
  }

  predicate ValidHistory(history: Value) {
    history.Array? && history.items != [] && forall i :: 0 <= i < |history.items| ==> ValidMessage(history.items[i])
  }

  predicate ValidCompacted(record: Value) {
    match Get(record, "payload")
    case Some(Object(fields)) =>
      && HasText(Object(fields), "message")
      && Get(Object(fields), "replacement_history").Some?
      && ValidHistory(Get(Object(fields), "replacement_history").value)
    case _ => false
  }

  predicate NonemptyText(value: Value, key: string) {
    HasText(value, key) && StringAt(value, key).value != ""
  }

  predicate ValidFunctionCall(payload: Value) {
    NonemptyText(payload, "call_id") && NonemptyText(payload, "name") && HasText(payload, "arguments")
  }

  predicate ValidToolOutput(payload: Value) {
    NonemptyText(payload, "call_id") &&
    (HasText(payload, "output") || (Get(payload, "output").Some? && ValidContent(Get(payload, "output").value, "input_text")))
  }

  predicate ListOrAbsent(payload: Value, field: string) {
    Get(payload, field).Some? ==> Get(payload, field).value.Array?
  }

  predicate ValidUserMessage(record: Value) {
    && Get(record, "payload").Some?
    && HasText(Get(record, "payload").value, "message")
    && forall i :: 0 <= i < |LISTS| ==> ListOrAbsent(Get(record, "payload").value, LISTS[i])
  }

  predicate ValidRecord(record: Value) {
    match CheckOf(record)
    case Compacted => ValidCompacted(record)
    case BareResponse => false
    case Message => ValidMessage(record.fields["payload"])
    case FunctionCall => ValidFunctionCall(record.fields["payload"])
    case ToolOutput => ValidToolOutput(record.fields["payload"])
    case UserMessage => ValidUserMessage(record)
    case Unchecked => true
  }

  lemma ItemValid(item: Value, r: nat, path: string, expected: string)
    requires IsTextType(expected)
    ensures NormalizeItem(item, r, path, expected).issues == [] <==> ValidItem(item, expected)
  {
  }

  lemma {:induction false} EachSilent(items: seq<Value>, fix: Fix)
    ensures Each(items, fix).issues == [] <==> forall i :: 0 <= i < |items| ==> fix(i, items[i]).issues == []
  {
    if items != [] {
      var n := |items| - 1;
      EachSilent(items[..n], fix);
      assert forall i :: 0 <= i < n ==> items[..n][i] == items[i];
      assert fix(n, items[n]).issues != [] ==> Each(items, fix).issues != [];
    }
  }

  lemma ContentValid(content: Value, r: nat, path: string, expected: string)
    requires IsTextType(expected)
    ensures NormalizeContent(content, r, path, expected).issues == [] <==> ValidContent(content, expected)
  {
    hide NormalizeItem;
    hide ValidItem;
    if content.Array? {
      EachSilent(content.items, ItemFix(r, path, expected));
      forall i | 0 <= i < |content.items|
        ensures ItemFix(r, path, expected)(i, content.items[i]).issues == [] <==> ValidItem(content.items[i], expected)
      {
        ItemValid(content.items[i], r, Indexed(path, i), expected);
      }
    }
  }

  lemma MessageValid(message: Value, r: nat, path: string)
    ensures DiagnoseMessage(message, r, path).issues == [] <==> ValidMessage(message)
  {
    hide NormalizeContent;
    hide ValidContent;
    if Get(message, "content").Some? && HasText(message, "role") {
      ContentValid(message.fields["content"], r, path + ".content", TextType(StringAt(message, "role").value));
    }
  }

  lemma HistoryValid(history: Value, r: nat, codec: Codec)
    ensures DiagnoseHistory(history, r, codec).issues == [] <==> ValidHistory(history)
  {
    hide DiagnoseMessage;
    hide ValidMessage;
    if history.Array? {
      EachSilent(history.items, MessageFix(r));
      forall i | 0 <= i < |history.items|
        ensures MessageFix(r)(i, history.items[i]).issues == [] <==> ValidMessage(history.items[i])
      {
        MessageValid(history.items[i], r, Indexed(HISTORY, i));
      }
    }
  }

  lemma TextValid(payload: Value, r: nat)
    requires payload.Object?
    ensures DiagnoseText(payload, r).issues == [] <==> HasText(payload, "message")
    ensures HasText(payload, "message") ==> DiagnoseText(payload, r).value == payload
  {
  }

  lemma CompactedValid(record: Value, r: nat, codec: Codec)
    requires record.Object?
    ensures DiagnoseCompacted(record, r, codec).issues == [] <==> ValidCompacted(record)
  {
    hide DiagnoseHistory;
    hide ValidHistory;
    hide DiagnoseText;
    match Get(record, "payload")
    case Some(Object(fields)) =>
      var payload := Object(fields);
      TextValid(payload, r);
      TextGood(payload, r);
      if Get(payload, "replacement_history").Some? {
        HistoryValid(fields["replacement_history"], r, codec);
      }
      var first := DiagnoseText(payload, r);
      assert first.issues != [] ==> first.issues + DiagnoseHistoryOf(first.value, r, codec).issues != [];
    case _ =>
  }

  lemma {:induction false} ListsValid(payload: Value, fields: seq<string>, r: nat)
    requires payload.Object? && AllDifferent(fields)
    ensures var o := DiagnoseLists(payload, fields, r);
            o.issues == [] <==> forall i :: 0 <= i < |fields| ==> ListOrAbsent(payload, fields[i])
  {
    if fields != [] {
      var n := |fields| - 1;
      var before := DiagnoseLists(payload, fields[..n], r);
      ListsValid(payload, fields[..n], r);
      ListsKeepOthers(payload, fields[..n], r);
      assert forall i :: 0 <= i < n ==> fields[..n][i] == fields[i];
      assert fields[n] !in fields[..n];
      assert Get(before.value, fields[n]) == Get(payload, fields[n]);
    }
  }

  lemma UserMessageValid(record: Value, r: nat)
    requires CheckOf(record).UserMessage?
    ensures DiagnoseUserMessage(record, r).issues == [] <==> ValidUserMessage(record)
  {
    hide DiagnoseText;
    hide DiagnoseLists;
    var payload := record.fields["payload"];
    var first := DiagnoseText(payload, r);
    TextValid(payload, r);
    TextGood(payload, r);
    ListsValid(first.value, LISTS, r);
    forall i | 0 <= i < |LISTS| ensures ListOrAbsent(first.value, LISTS[i]) == ListOrAbsent(payload, LISTS[i]) {
      assert Get(first.value, LISTS[i]) == Get(payload, LISTS[i]);
    }
  }

  lemma FunctionCallValid(payload: Value, r: nat, codec: Codec)
    requires payload.Object?
    ensures DiagnoseFunctionCall(payload, r, codec).issues == [] <==> ValidFunctionCall(payload)
  {
  }

  lemma ToolOutputValid(payload: Value, r: nat, codec: Codec)
    requires payload.Object?
    ensures DiagnoseToolOutput(payload, r, codec).issues == [] <==> ValidToolOutput(payload)
  {
    hide NormalizeContent;
    if Get(payload, "output").Some? {
      ContentValid(payload.fields["output"], r, "payload.output", "input_text");
    }
  }

  /** No issue is reported exactly for the valid records. */
  lemma SilentIffValid(record: Value, r: nat, codec: Codec)
    ensures DiagnoseRecord(record, r, codec).issues == [] <==> ValidRecord(record)
  {
    hide DiagnoseMessage;
    hide DiagnoseFunctionCall;
    hide DiagnoseToolOutput;
    hide DiagnoseUserMessage;
    hide DiagnoseCompacted;
    hide ValidMessage;
    hide ValidFunctionCall;
    hide ValidToolOutput;
    hide ValidUserMessage;
    hide ValidCompacted;
    match CheckOf(record)
    case Compacted => CompactedValid(record, r, codec);
    case BareResponse =>
    case Message => MessageValid(record.fields["payload"], r, "payload");
    case FunctionCall => FunctionCallValid(record.fields["payload"], r, codec);
    case ToolOutput => ToolOutputValid(record.fields["payload"], r, codec);
    case UserMessage => UserMessageValid(record, r);
    case Unchecked =>
  }

  /** The rewritten record is valid exactly when every issue was repaired; a valid record is never changed. */
  lemma RepairedToValid(record: Value, r: nat, codec: Codec)
    ensures var o := DiagnoseRecord(record, r, codec);
            && (Unrepaired(o.issues) == [] <==> ValidRecord(o.value))
            && (ValidRecord(record) ==> o.value == record)
  {
    var o := DiagnoseRecord(record, r, codec);
    RecordGood(record, r, codec);
    SilentIffValid(o.value, r, codec);
    SilentIffValid(record, r, codec);
  }

  // ---- What every repair keeps ----

  /** How an item reads: its text (bare, or `text`, or else `content`) beside its other fields; images, refusals and
      everything unreadable as they stand. */
  datatype Piece = Words(text: Option<string>, others: Fields) | AsIs(item: Value)

  function PieceOf(item: Value): Piece {
    match item
    case String(text) => Words(Some(text), map[])
    case Object(fields) =>
      if StringAt(item, "type") == Some("input_image") || StringAt(item, "type") == Some("refusal") then AsIs(item)
      else if HasText(item, "text") then Words(StringAt(item, "text"), fields - {"type", "text"})
      else if HasText(item, "content") then Words(StringAt(item, "content"), fields - {"type", "text", "content"})
      else Words(None, fields - {"type"})
    case _ => AsIs(item)
  }

  function Pieces(items: seq<Value>): seq<Piece> {
    seq(|items|, i requires 0 <= i < |items| => PieceOf(items[i]))
  }

  datatype Content = Listed(pieces: seq<Piece>) | NotListed(content: Value)

  function ContentOf(content: Value): Content {
    match content
    case Array(items) => Listed(Pieces(items))
    case String(_) => Listed([PieceOf(content)])
    case Object(_) => Listed([PieceOf(content)])
    case _ => NotListed(content)
  }

  /** A message: its content in order, beside every field but `type` (the role among them). */
  datatype Reading = Said(content: Option<Content>, others: Fields) | NoMessage(value: Value)

  function ReadingOf(message: Value): Reading {
    if !message.Object? then NoMessage(message)
    else
      match Get(message, "content")
      case None => Said(None, message.fields - {"type"})
      case Some(content) => Said(Some(ContentOf(content)), message.fields - {"type", "content"})
  }

  function Readings(messages: seq<Value>): seq<Reading> {
    seq(|messages|, i requires 0 <= i < |messages| => ReadingOf(messages[i]))
  }

  lemma RetypeKeeps(item: Value, r: nat, path: string, expected: string, actual: Option<Value>)
    requires item.Object? && IsTextType(expected)
    requires StringAt(item, "type") != Some("input_image") && StringAt(item, "type") != Some("refusal")
    ensures PieceOf(Retype(item, r, path, expected, actual).value) == PieceOf(item)
  {
    TextKeeps(With(item, "type", String(expected)), r, path);
    var typed := item.fields["type" := String(expected)];
    assert typed - {"type"} == item.fields - {"type"};
    assert typed - {"type", "text"} == item.fields - {"type", "text"};
    assert typed - {"type", "text", "content"} == item.fields - {"type", "text", "content"};
  }

  lemma TextKeeps(item: Value, r: nat, path: string)
    requires item.Object?
    requires StringAt(item, "type") != Some("input_image") && StringAt(item, "type") != Some("refusal")
    ensures PieceOf(FixText(item, r, path).value) == PieceOf(item)
  {
    if !HasText(item, "text") && HasText(item, "content") {
      var fixed := (item.fields - {"content"})["text" := String(StringAt(item, "content").value)];
      assert FixText(item, r, path).value == Object(fixed);
      assert fixed - {"type", "text"} == item.fields - {"type", "text", "content"};
    }
  }

  lemma ItemKeeps(item: Value, r: nat, path: string, expected: string)
    requires IsTextType(expected)
    ensures PieceOf(NormalizeItem(item, r, path, expected).value) == PieceOf(item)
  {
    hide Retype;
    hide FixText;
    match item
    case Object(_) =>
      if StringAt(item, "type") != Some("input_image") && StringAt(item, "type") != Some("refusal") {
        RetypeKeeps(item, r, path, expected, None);
        RetypeKeeps(item, r, path, expected, Get(item, "type"));
        TextKeeps(item, r, path);
      }
    case String(text) => TextItemReads(expected, text);
    case _ =>
  }

  lemma TextItemReads(expected: string, text: string)
    requires IsTextType(expected)
    ensures PieceOf(TextItem(expected, text)) == PieceOf(String(text))
  {
    var item := TextItem(expected, text);
    assert item.fields - {"type", "text"} == map[];
  }

  lemma PiecesSnoc(items: seq<Value>, item: Value)
    ensures Pieces(items + [item]) == Pieces(items) + [PieceOf(item)]
  {
    hide PieceOf;
  }

  lemma {:induction false} EachItemKeeps(items: seq<Value>, r: nat, path: string, expected: string)
    requires IsTextType(expected)
    ensures Pieces(Each(items, ItemFix(r, path, expected)).values) == Pieces(items)
  {
    hide NormalizeItem;
    hide PieceOf;
    if items != [] {
      var n := |items| - 1;
      var before, last := Each(items[..n], ItemFix(r, path, expected)).values, NormalizeItem(items[n], r, Indexed(path, n), expected).value;
      EachItemKeeps(items[..n], r, path, expected);
      ItemKeeps(items[n], r, Indexed(path, n), expected);
      assert Each(items, ItemFix(r, path, expected)).values == before + [last];
      hide Each;
      PiecesSnoc(before, last);
      PiecesSnoc(items[..n], items[n]);
      assert items == items[..n] + [items[n]];
    }
  }

  lemma ContentKeeps(content: Value, r: nat, path: string, expected: string)
    requires IsTextType(expected)
    ensures ContentOf(NormalizeContent(content, r, path, expected).value) == ContentOf(content)
  {
    hide PieceOf;
    match content
    case Array(items) => EachItemKeeps(items, r, path, expected);
    case String(text) =>
      EachItemKeeps([TextItem(expected, text)], r, path, expected);
      TextItemReads(expected, text);
      assert Pieces([TextItem(expected, text)]) == [PieceOf(content)];
    case Object(_) =>
      EachItemKeeps([content], r, path, expected);
      assert Pieces([content]) == [PieceOf(content)];
    case _ =>
  }

  lemma MessageKeeps(message: Value, r: nat, path: string)
    ensures ReadingOf(DiagnoseMessage(message, r, path).value) == ReadingOf(message)
  {
    hide NormalizeContent;
    hide ContentOf;
    if message.Object? {
      var typed := With(message, "type", String("message"));
      assert typed.fields - {"type"} == message.fields - {"type"};
      assert typed.fields - {"type", "content"} == message.fields - {"type", "content"};
      if HasText(message, "role") && Get(message, "content").Some? {
        var content, expected := message.fields["content"], TextType(StringAt(message, "role").value);
        ContentKeeps(content, r, path + ".content", expected);
        var fixed := NormalizeContent(content, r, path + ".content", expected).value;
        assert message.fields["content" := fixed] - {"type", "content"} == message.fields - {"type", "content"};
        assert typed.fields["content" := fixed] - {"type", "content"} == message.fields - {"type", "content"};
      }
    }
  }

  lemma ReadingsSnoc(messages: seq<Value>, message: Value)
    ensures Readings(messages + [message]) == Readings(messages) + [ReadingOf(message)]
  {
    hide ReadingOf;
  }

  lemma {:induction false} EachMessageKeeps(messages: seq<Value>, r: nat)
    ensures Readings(Each(messages, MessageFix(r)).values) == Readings(messages)
  {
    hide DiagnoseMessage;
    hide ReadingOf;
    if messages != [] {
      var n := |messages| - 1;
      var before, last := Each(messages[..n], MessageFix(r)).values, DiagnoseMessage(messages[n], r, Indexed(HISTORY, n)).value;
      EachMessageKeeps(messages[..n], r);
      MessageKeeps(messages[n], r, Indexed(HISTORY, n));
      assert Each(messages, MessageFix(r)).values == before + [last];
      hide Each;
      ReadingsSnoc(before, last);
      ReadingsSnoc(messages[..n], messages[n]);
      assert messages == messages[..n] + [messages[n]];
    }
  }

  function HistoryReading(history: Value, codec: Codec): Option<seq<Reading>> {
    match HistoryMessages(history, codec)
    case None => None
    case Some(messages) => Some(Readings(messages))
  }

  lemma HistoryKeeps(history: Value, r: nat, codec: Codec)
    ensures HistoryReading(DiagnoseHistory(history, r, codec).value, codec) == HistoryReading(history, codec)
  {
    match HistoryMessages(history, codec)
    case None =>
    case Some(messages) => EachMessageKeeps(messages, r);
  }

  /** How a tool output reads: its text, its typed content, or the JSON value it stands for. */
  datatype Answer = Plain(text: string) | Typed(content: Content)

  function AnswerOf(output: Value, codec: Codec): Answer {
    if output.String? then Plain(output.text)
    else if output.Array? || Get(output, "type").Some? || Get(output, "text").Some? then Typed(ContentOf(output))
    else Plain(codec.write(output))
  }

  lemma OutputKeeps(output: Value, r: nat, codec: Codec)
    ensures AnswerOf(NormalizeOutput(output, r, codec).value, codec) == AnswerOf(output, codec)
  {
    hide NormalizeContent;
    ContentKeeps(output, r, "payload.output", "input_text");
    ContentGood(output, r, "payload.output", "input_text");
  }

  /** The JSON text that the arguments of a call stand for. */
  function ArgumentsText(arguments: Value, codec: Codec): string {
    if arguments.String? then arguments.text else codec.write(arguments)
  }

  /** What a record says: the flattened text, the messages of its history or of its own, the arguments of its call, its
      output, and everything else. A record without a conversation says itself. */
  datatype Talk =
    | Compaction(text: Option<string>, history: Option<Option<seq<Reading>>>, others: Fields, frame: Fields)
    | Turn(reading: Reading, frame: Fields)
    | Call(arguments: Option<string>, others: Fields, frame: Fields)
    | Answered(answer: Option<Answer>, others: Fields, frame: Fields)
    | Spoken(text: Option<string>, others: Fields, frame: Fields)
    | Itself(record: Value)

  function FlatMessage(payload: Value): Option<string> {
    match Get(payload, "message")
    case None => None
    case Some(message) => FlattenText(message)
  }

  function TalkOf(record: Value, codec: Codec): Talk {
    match CheckOf(record)
    case Compacted =>
      (match Get(record, "payload")
       case Some(Object(fields)) =>
         var history := Get(Object(fields), "replacement_history");
         Compaction(FlatMessage(Object(fields)),
           if history.None? then None else Some(HistoryReading(history.value, codec)),
           fields - {"message", "replacement_history"}, record.fields - {"payload"})
       case _ => Itself(record))
    case Message => Turn(ReadingOf(record.fields["payload"]), record.fields - {"payload"})
    case FunctionCall =>
      var payload := record.fields["payload"];
      var arguments := Get(payload, "arguments");
      Call(if arguments.None? then None else Some(ArgumentsText(arguments.value, codec)),
        payload.fields - {"arguments"}, record.fields - {"payload"})
    case ToolOutput =>
      var payload := record.fields["payload"];
      var output := Get(payload, "output");
      Answered(if output.None? then None else Some(AnswerOf(output.value, codec)), payload.fields - {"output"}, record.fields - {"payload"})
    case UserMessage =>
      var payload := record.fields["payload"];
      Spoken(FlatMessage(payload), payload.fields - {"message", "images", "local_images", "text_elements"}, record.fields - {"payload"})
    case _ => Itself(record)
  }

  lemma FlatKeeps(payload: Value, r: nat)
    requires payload.Object?
    ensures FlatMessage(DiagnoseText(payload, r).value) == FlatMessage(payload)
  {
  }

  lemma CompactedPayloadKeeps(payload: Value, r: nat, codec: Codec)
    requires payload.Object?
    ensures DiagnoseText(payload, r).value.Object?
    ensures var fixed := DiagnoseHistoryOf(DiagnoseText(payload, r).value, r, codec).value;
            && fixed.Object? && FlatMessage(fixed) == FlatMessage(payload)
            && (Get(fixed, "replacement_history").Some? <==> Get(payload, "replacement_history").Some?)
            && (Get(payload, "replacement_history").Some? ==>
                  HistoryReading(fixed.fields["replacement_history"], codec) == HistoryReading(payload.fields["replacement_history"], codec))
            && fixed.fields - {"message", "replacement_history"} == payload.fields - {"message", "replacement_history"}
  {
    hide FlattenText;
    hide DiagnoseHistory;
    hide DiagnoseText;
    hide HistoryReading;
    FlatKeeps(payload, r);
    TextGood(payload, r);
    var first := DiagnoseText(payload, r).value;
    var second := DiagnoseHistoryOf(first, r, codec).value;
    HistoryOfGood(first, r, codec);
    if Get(payload, "replacement_history").Some? {
      HistoryKeeps(payload.fields["replacement_history"], r, codec);
    }
    SameBeside(payload, first, {"message", "replacement_history"});
    SameBeside(first, second, {"message", "replacement_history"});
  }

  lemma CompactedKeeps(record: Value, r: nat, codec: Codec)
    requires CheckOf(record).Compacted?
    ensures TalkOf(DiagnoseRecord(record, r, codec).value, codec) == TalkOf(record, codec)
  {
    hide FlatMessage;
    hide DiagnoseHistoryOf;
    hide DiagnoseText;
    hide HistoryReading;
    RecordGood(record, r, codec);
    match Get(record, "payload")
    case Some(Object(fields)) =>
      CompactedPayloadKeeps(Object(fields), r, codec);
      var fixed := DiagnoseHistoryOf(DiagnoseText(Object(fields), r).value, r, codec).value;
      assert record.fields["payload" := fixed] - {"payload"} == record.fields - {"payload"};
    case _ =>
  }

  /** Objects that agree on every key outside a set are equal once those keys are removed. */
  lemma SameBeside(a: Value, b: Value, keys: set<string>)
    requires a.Object? && b.Object? && forall key :: key !in keys ==> Get(a, key) == Get(b, key)
    ensures a.fields - keys == b.fields - keys
  {
    forall key ensures key in a.fields - keys <==> key in b.fields - keys {
      assert Get(a, key).Some? <==> key in a.fields;
      assert Get(b, key).Some? <==> key in b.fields;
    }
    forall key | key in a.fields - keys ensures (a.fields - keys)[key] == (b.fields - keys)[key] {
      assert Get(a, key) == Some(a.fields[key]);
      assert Get(b, key) == Some(b.fields[key]);
    }
  }

  lemma UserMessageKeeps(record: Value, r: nat, codec: Codec)
    requires CheckOf(record).UserMessage?
    ensures TalkOf(DiagnoseRecord(record, r, codec).value, codec) == TalkOf(record, codec)
  {
    hide FlattenText;
    hide DiagnoseText;
    hide DiagnoseLists;
    RecordGood(record, r, codec);
    var payload := record.fields["payload"];
    var keys := {"message", "images", "local_images", "text_elements"};
    FlatKeeps(payload, r);
    TextGood(payload, r);
    var first := DiagnoseText(payload, r).value;
    ListsKeepOthers(first, LISTS, r);
    var second := DiagnoseLists(first, LISTS, r).value;
    SameBeside(payload, first, keys);
    SameBeside(first, second, keys);
    assert record.fields["payload" := second] - {"payload"} == record.fields - {"payload"};
  }

  lemma CallKeeps(record: Value, r: nat, codec: Codec)
    requires CheckOf(record).FunctionCall?
    ensures TalkOf(DiagnoseRecord(record, r, codec).value, codec) == TalkOf(record, codec)
  {
    var payload := record.fields["payload"];
    var fixed := DiagnoseFunctionCall(payload, r, codec).value;
    RecordGood(record, r, codec);
    SameBeside(payload, fixed, {"arguments"});
    assert record.fields["payload" := fixed] - {"payload"} == record.fields - {"payload"};
  }

  lemma ToolOutputKeeps(record: Value, r: nat, codec: Codec)
    requires CheckOf(record).ToolOutput?
    ensures TalkOf(DiagnoseRecord(record, r, codec).value, codec) == TalkOf(record, codec)
  {
    hide NormalizeOutput;
    hide AnswerOf;
    var payload := record.fields["payload"];
    var fixed := DiagnoseToolOutput(payload, r, codec).value;
    RecordGood(record, r, codec);
    if Get(payload, "output").Some? {
      OutputKeeps(payload.fields["output"], r, codec);
    }
    SameBeside(payload, fixed, {"output"});
    assert record.fields["payload" := fixed] - {"payload"} == record.fields - {"payload"};
  }

  lemma MessageRecordKeeps(record: Value, r: nat, codec: Codec)
    requires CheckOf(record).Message?
    ensures TalkOf(DiagnoseRecord(record, r, codec).value, codec) == TalkOf(record, codec)
  {
    hide DiagnoseMessage;
    hide ReadingOf;
    RecordGood(record, r, codec);
    MessageKeeps(record.fields["payload"], r, "payload");
    var fixed := DiagnoseMessage(record.fields["payload"], r, "payload").value;
    assert record.fields["payload" := fixed] - {"payload"} == record.fields - {"payload"};
  }

  /** Whatever is repaired, a record keeps its conversation: roles, the number and order of messages, every text, image and
      refusal in order, the flattened text, the arguments of calls, the outputs, and every field beside the repaired ones. */
  lemma RepairsKeepTheConversation(record: Value, r: nat, codec: Codec)
    ensures TalkOf(DiagnoseRecord(record, r, codec).value, codec) == TalkOf(record, codec)
  {
    hide TalkOf;
    match CheckOf(record)
    case Compacted => CompactedKeeps(record, r, codec);
    case UserMessage => UserMessageKeeps(record, r, codec);
    case Message => MessageRecordKeeps(record, r, codec);
    case FunctionCall => CallKeeps(record, r, codec);
    case ToolOutput => ToolOutputKeeps(record, r, codec);
    case BareResponse =>
    case Unchecked =>
  }

  /** Repaired arguments are text; it parses to the value they replaced if and only if the codec reads that value back. */
  lemma ArgumentsKeep(record: Value, r: nat, codec: Codec)
    requires CheckOf(record).FunctionCall? && Get(record.fields["payload"], "arguments").Some?
    requires !record.fields["payload"].fields["arguments"].String?
    ensures var before, after := record.fields["payload"].fields["arguments"], Get(DiagnoseRecord(record, r, codec).value, "payload");
            && after.Some? && HasText(after.value, "arguments")
            && (codec.parse(StringAt(after.value, "arguments").value) == Some(before) <==> codec.parse(codec.write(before)) == Some(before))
  {
    CallKeeps(record, r, codec);
  }
}
