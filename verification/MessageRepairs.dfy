/** Which records can be repaired, stated on the record alone: everything is repaired exactly in those. */
module MessageRepairs {
  import opened Prelude
  import opened Text
  import opened Json
  import opened MessageFormat
  import opened MessageTheorems
  import opened MessageTexts

  predicate HasString(value: Value, key: string) {
    value.Object? && key in value.fields && value.fields[key].String?
  }

  /** A bare string, or an object with a string `text`, or with a known type and what that type needs. */
  predicate FixableItem(item: Value, expected: string) {
    || item.String?
    || (item.Object? &&
        if !HasString(item, "type") then HasString(item, "text")
        else
          match item.fields["type"].text
          case "text" => HasString(item, "text") || HasString(item, "content")
          case "input_text" => HasString(item, "text") || HasString(item, "content")
          case "output_text" => HasString(item, "text") || HasString(item, "content")
          case "input_image" => expected == "input_text" && HasString(item, "image_url")
          case "refusal" => expected == "output_text" && HasString(item, "refusal")
          case _ => false)
  }

  /** A non-empty list of fixable items, or a single one on its own. */
  predicate FixableContent(content: Value, expected: string) {
    match content
    case Array(items) => items != [] && forall i :: 0 <= i < |items| ==> FixableItem(items[i], expected)
    case _ => FixableItem(content, expected)
  }

  /** A message with one of the four roles and fixable content; its type may be missing or no text. */
  predicate FixableMessage(message: Value) {
    && message.Object? && (HasString(message, "type") ==> message.fields["type"].text == "message")
    && HasString(message, "role") && message.fields["role"].text in {"assistant", "user", "developer", "system"}
    && "content" in message.fields
    && FixableContent(message.fields["content"], if message.fields["role"].text == "assistant" then "output_text" else "input_text")
  }

  /** A non-empty list of fixable messages, a single one, or either of them as JSON text. */
  predicate FixableHistory(history: Value, codec: Codec) {
    match history
    case Array(messages) => FixableMessages(messages)
    case Object(_) => FixableMessage(history)
    case String(encoded) =>
      (match codec.parse(encoded)
       case Some(Array(messages)) => FixableMessages(messages)
       case Some(Object(fields)) => FixableMessage(Object(fields))
       case _ => false)
    case _ => false
  }

  predicate FixableMessages(messages: seq<Value>) {
    messages != [] && forall i :: 0 <= i < |messages| ==> FixableMessage(messages[i])
  }

  /** The payload's `message` reads as texts. */
  ghost predicate Readable(payload: Value) {
    payload.Object? && "message" in payload.fields && exists texts :: Reads(payload.fields["message"], texts)
  }

  predicate NamedBy(payload: Value, key: string) {
    HasString(payload, key) && payload.fields[key].text != ""
  }

  /** Text, or anything that can be written as text, or fixable content where content is meant. */
  predicate FixableOutput(output: Value) {
    && (output.Array? ==> FixableContent(output, "input_text"))
    && (output.Object? && ("type" in output.fields || "text" in output.fields) ==> FixableContent(output, "input_text"))
  }

  predicate ListNullOrAbsent(payload: Value, key: string) {
    payload.Object? && (key in payload.fields ==> payload.fields[key].Array? || payload.fields[key].Null?)
  }

  /** The string type of a value, or the empty string. */
  function TypeOf(value: Value): string {
    if HasString(value, "type") then value.fields["type"].text else ""
  }

  ghost predicate FixableCompacted(record: Value, codec: Codec) {
    && record.Object? && "payload" in record.fields && Readable(record.fields["payload"])
    && "replacement_history" in record.fields["payload"].fields
    && FixableHistory(record.fields["payload"].fields["replacement_history"], codec)
  }

  predicate FixableCall(payload: Value) {
    NamedBy(payload, "call_id") && NamedBy(payload, "name") && "arguments" in payload.fields
  }

  predicate FixableToolOutput(payload: Value) {
    NamedBy(payload, "call_id") && "output" in payload.fields && FixableOutput(payload.fields["output"])
  }

  ghost predicate FixableUserMessage(payload: Value) {
    Readable(payload) && ListNullOrAbsent(payload, "images") && ListNullOrAbsent(payload, "local_images") && ListNullOrAbsent(payload, "text_elements")
  }

  /** By the type of the record and of its payload; records of any other type have nothing to be repaired. */
  ghost predicate Fixable(record: Value, codec: Codec) {
    if TypeOf(record) == "compacted" then FixableCompacted(record, codec)
    else if TypeOf(record) == "response_item" then
      "payload" in record.fields &&
      match TypeOf(record.fields["payload"])
      case "message" => FixableMessage(record.fields["payload"])
      case "function_call" => FixableCall(record.fields["payload"])
      case "function_call_output" => FixableToolOutput(record.fields["payload"])
      case "custom_tool_call_output" => FixableToolOutput(record.fields["payload"])
      case _ => true
    else if TypeOf(record) == "event_msg" && "payload" in record.fields && TypeOf(record.fields["payload"]) == "user_message" then
      FixableUserMessage(record.fields["payload"])
    else true
  }

  /** Nothing is left open. */
  predicate Closed(issues: seq<Issue>) {
    Unrepaired(issues) == []
  }

  lemma ClosedConcat(a: seq<Issue>, b: seq<Issue>)
    ensures Closed(a + b) <==> Closed(a) && Closed(b)
  {
    UnrepairedConcat(a, b);
  }

  lemma ClosedOne(issue: Issue)
    ensures Closed([issue]) <==> issue.repaired
  {
    SingleIssue(issue);
  }

  lemma TextFixable(item: Value, r: nat, path: string)
    requires item.Object?
    ensures Closed(FixText(item, r, path).issues) <==> HasString(item, "text") || HasString(item, "content")
  {
    var o := FixText(item, r, path);
    if o.issues != [] {
      ClosedOne(o.issues[0]);
    }
  }

  lemma RetypeFixable(item: Value, r: nat, path: string, expected: string, actual: Option<Value>)
    requires item.Object?
    ensures Closed(Retype(item, r, path, expected, actual).issues) <==> HasString(item, "text") || HasString(item, "content")
  {
    var typed := With(item, "type", String(expected));
    var fixed := FixText(typed, r, path);
    var first := Issue(r, path + ".type", expected, Kind(actual), true);
    TextFixable(typed, r, path);
    ClosedOne(first);
    ClosedConcat([first], fixed.issues);
  }

  lemma ItemFixable(item: Value, r: nat, path: string, expected: string)
    requires IsTextType(expected)
    ensures Closed(NormalizeItem(item, r, path, expected).issues) <==> FixableItem(item, expected)
  {
    hide Retype;
    hide FixText;
    hide Closed;
    var o := NormalizeItem(item, r, path, expected);
    if |o.issues| == 1 {
      ClosedOne(o.issues[0]);
    }
    assert Closed([]) by {
      NothingOpen();
    }
    if item.Object? {
      RetypeFixable(item, r, path, expected, None);
      RetypeFixable(item, r, path, expected, Get(item, "type"));
      TextFixable(item, r, path);
    }
  }

  lemma NothingOpen()
    ensures Closed([])
  {
  }

  lemma {:induction false} EachFixable(items: seq<Value>, fix: Fix)
    ensures Closed(Each(items, fix).issues) <==> forall i :: 0 <= i < |items| ==> Closed(fix(i, items[i]).issues)
  {
    if items != [] {
      var n := |items| - 1;
      EachFixable(items[..n], fix);
      hide Closed;
      ClosedConcat(Each(items[..n], fix).issues, fix(n, items[n]).issues);
      assert forall i :: 0 <= i < n ==> items[..n][i] == items[i];
    }
  }

  lemma ItemsFixable(items: seq<Value>, r: nat, path: string, expected: string)
    requires IsTextType(expected)
    ensures Closed(NormalizeItems(Array(items), r, path, expected).issues) <==>
              items != [] && forall i :: 0 <= i < |items| ==> FixableItem(items[i], expected)
  {
    hide FixableItem;
    hide NormalizeItem;
    EachFixable(items, ItemFix(r, path, expected));
    forall i | 0 <= i < |items|
      ensures Closed(ItemFix(r, path, expected)(i, items[i]).issues) <==> FixableItem(items[i], expected)
    {
      ItemFixable(items[i], r, Indexed(path, i), expected);
    }
    if items == [] {
      ClosedOne(NormalizeItems(Array(items), r, path, expected).issues[0]);
    }
  }

  lemma ContentFixable(content: Value, r: nat, path: string, expected: string)
    requires IsTextType(expected)
    ensures Closed(NormalizeContent(content, r, path, expected).issues) <==> FixableContent(content, expected)
  {
    hide NormalizeItems;
    hide Closed;
    var o := NormalizeContent(content, r, path, expected);
    match content
    case Array(items) => ItemsFixable(items, r, path, expected);
    case String(text) =>
      var item := TextItem(expected, text);
      ItemsFixable([item], r, path, expected);
      assert FixableItem([item][0], expected);
      ClosedOne(o.issues[0]);
      ClosedConcat([o.issues[0]], NormalizeItems(Array([item]), r, path, expected).issues);
    case Object(_) =>
      hide FixableItem;
      ItemsFixable([content], r, path, expected);
      assert (forall i :: 0 <= i < 1 ==> FixableItem([content][i], expected)) <==> FixableItem([content][0], expected);
      ClosedOne(o.issues[0]);
      ClosedConcat([o.issues[0]], NormalizeItems(Array([content]), r, path, expected).issues);
    case _ => ClosedOne(o.issues[0]);
  }

  lemma TypedFixable(message: Value, r: nat, path: string)
    requires message.Object?
    ensures Closed(DiagnoseTyped(message, r, path).issues) <==>
              && HasString(message, "role") && message.fields["role"].text in {"assistant", "user", "developer", "system"}
              && "content" in message.fields
              && FixableContent(message.fields["content"], if message.fields["role"].text == "assistant" then "output_text" else "input_text")
  {
    hide NormalizeContent;
    hide FixableContent;
    hide Closed;
    var o := DiagnoseTyped(message, r, path);
    if HasString(message, "role") && "content" in message.fields {
      ContentFixable(message.fields["content"], r, path + ".content", TextType(message.fields["role"].text));
    }
    if |o.issues| == 1 {
      ClosedOne(o.issues[0]);
    }
  }

  lemma MessageFixable(message: Value, r: nat, path: string)
    ensures Closed(DiagnoseMessage(message, r, path).issues) <==> FixableMessage(message)
  {
    hide DiagnoseTyped;
    hide FixableContent;
    hide Closed;
    var o := DiagnoseMessage(message, r, path);
    if message.Object? {
      var typed := With(message, "type", String("message"));
      TypedFixable(message, r, path);
      TypedFixable(typed, r, path);
      var first := Issue(r, path + ".type", "message", Kind(Get(message, "type")), true);
      ClosedOne(first);
      ClosedConcat([first], DiagnoseTyped(typed, r, path).issues);
    }
    if |o.issues| == 1 {
      ClosedOne(o.issues[0]);
    }
  }

  lemma MessagesFixable(messages: seq<Value>, r: nat)
    ensures Closed(DiagnoseMessages(messages, r).issues) <==> FixableMessages(messages)
  {
    hide DiagnoseMessage;
    hide FixableMessage;
    EachFixable(messages, MessageFix(r));
    forall i | 0 <= i < |messages| ensures Closed(MessageFix(r)(i, messages[i]).issues) <==> FixableMessage(messages[i]) {
      MessageFixable(messages[i], r, Indexed(HISTORY, i));
    }
    if messages == [] {
      ClosedOne(DiagnoseMessages(messages, r).issues[0]);
    }
  }

  lemma HistoryFixable(history: Value, r: nat, codec: Codec)
    ensures Closed(DiagnoseHistory(history, r, codec).issues) <==> FixableHistory(history, codec)
  {
    hide DiagnoseMessages;
    hide FixableMessage;
    hide Closed;
    var o := DiagnoseHistory(history, r, codec);
    match HistoryMessages(history, codec)
    case None => ClosedOne(o.issues[0]);
    case Some(messages) =>
      MessagesFixable(messages, r);
      if !history.Array? {
        ClosedOne(o.issues[0]);
        ClosedConcat([o.issues[0]], DiagnoseMessages(messages, r).issues);
      }
      assert |messages| == 1 ==> (FixableMessages(messages) <==> FixableMessage(messages[0]));
  }

  lemma PayloadTextFixable(payload: Value, r: nat)
    requires payload.Object?
    ensures Closed(DiagnoseText(payload, r).issues) <==> Readable(payload)
  {
    hide Reads;
    hide FlattenText;
    var o := DiagnoseText(payload, r);
    TextSettled(payload, r);
    if |o.issues| == 1 {
      ClosedOne(o.issues[0]);
    }
    if Get(payload, "message").Some? {
      FlattenedReads(payload.fields["message"]);
      if payload.fields["message"].String? {
        StringReads(payload.fields["message"]);
      }
    }
  }

  lemma StringReads(message: Value)
    requires message.String?
    ensures Reads(message, [message.text])
  {
  }

  lemma NameFixable(payload: Value, key: string, r: nat)
    requires payload.Object?
    ensures Closed(RequireNonempty(payload, key, r).issues) <==> NamedBy(payload, key)
  {
    var o := RequireNonempty(payload, key, r);
    if o.issues != [] {
      ClosedOne(o.issues[0]);
    }
  }

  lemma CallFixable(payload: Value, r: nat, codec: Codec)
    requires payload.Object?
    ensures Closed(DiagnoseFunctionCall(payload, r, codec).issues) <==> FixableCall(payload)
  {
    hide RequireNonempty;
    hide Closed;
    var arguments := DiagnoseArguments(payload, r, codec);
    NameFixable(payload, "call_id", r);
    NameFixable(payload, "name", r);
    NothingOpen();
    if arguments.issues != [] {
      ClosedOne(arguments.issues[0]);
    }
    ClosedConcat(RequireNonempty(payload, "name", r).issues, arguments.issues);
    ClosedConcat(RequireNonempty(payload, "call_id", r).issues, RequireNonempty(payload, "name", r).issues + arguments.issues);
  }

  lemma OutputFixable(output: Value, r: nat, codec: Codec)
    ensures Closed(NormalizeOutput(output, r, codec).issues) <==> FixableOutput(output)
  {
    hide NormalizeContent;
    hide FixableContent;
    hide Closed;
    var o := NormalizeOutput(output, r, codec);
    ContentFixable(output, r, "payload.output", "input_text");
    NothingOpen();
    if |o.issues| == 1 {
      ClosedOne(o.issues[0]);
    }
  }

  lemma ToolOutputFixable(payload: Value, r: nat, codec: Codec)
    requires payload.Object?
    ensures Closed(DiagnoseToolOutput(payload, r, codec).issues) <==> FixableToolOutput(payload)
  {
    hide RequireNonempty;
    hide NormalizeOutput;
    hide FixableOutput;
    hide Closed;
    var id, o := RequireNonempty(payload, "call_id", r), DiagnoseToolOutput(payload, r, codec);
    NameFixable(payload, "call_id", r);
    if "output" in payload.fields {
      OutputFixable(payload.fields["output"], r, codec);
      ClosedConcat(id.issues, NormalizeOutput(payload.fields["output"], r, codec).issues);
    } else {
      var missing := Issue(r, "payload.output", "string or typed content array", Kind(None), false);
      ClosedOne(missing);
      ClosedConcat(id.issues, [missing]);
    }
  }

  lemma ListFixable(payload: Value, key: string, r: nat)
    requires payload.Object?
    ensures Closed(DiagnoseList(payload, key, r).issues) <==> ListNullOrAbsent(payload, key)
  {
    var o := DiagnoseList(payload, key, r);
    if o.issues != [] {
      ClosedOne(o.issues[0]);
    }
  }

  lemma {:induction false} ListsFixable(payload: Value, keys: seq<string>, r: nat)
    requires payload.Object? && AllDifferent(keys)
    ensures Closed(DiagnoseLists(payload, keys, r).issues) <==> forall i :: 0 <= i < |keys| ==> ListNullOrAbsent(payload, keys[i])
  {
    if keys != [] {
      var n := |keys| - 1;
      var before := DiagnoseLists(payload, keys[..n], r);
      ListsFixable(payload, keys[..n], r);
      ListsKeepOthers(payload, keys[..n], r);
      ListFixable(before.value, keys[n], r);
      hide Closed;
      ClosedConcat(before.issues, DiagnoseList(before.value, keys[n], r).issues);
      assert forall i :: 0 <= i < n ==> keys[..n][i] == keys[i];
      assert keys[n] !in keys[..n];
      assert Get(before.value, keys[n]) == Get(payload, keys[n]);
    }
  }

  lemma UserMessageFixable(record: Value, r: nat, codec: Codec)
    requires CheckOf(record).UserMessage?
    ensures Closed(DiagnoseUserMessage(record, r).issues) <==> FixableUserMessage(record.fields["payload"])
  {
    hide DiagnoseText;
    hide DiagnoseLists;
    hide Readable;
    hide Closed;
    var payload := record.fields["payload"];
    var first := DiagnoseText(payload, r);
    PayloadTextFixable(payload, r);
    TextGood(payload, r);
    ListsFixable(first.value, LISTS, r);
    ClosedConcat(first.issues, DiagnoseLists(first.value, LISTS, r).issues);
    assert LISTS[0] == "images" && LISTS[1] == "local_images" && LISTS[2] == "text_elements" && |LISTS| == 3;
    forall i | 0 <= i < |LISTS| ensures ListNullOrAbsent(first.value, LISTS[i]) == ListNullOrAbsent(payload, LISTS[i]) {
      assert Get(first.value, LISTS[i]) == Get(payload, LISTS[i]);
    }
  }

  lemma CompactedFixable(record: Value, r: nat, codec: Codec)
    requires CheckOf(record).Compacted?
    ensures Closed(DiagnoseCompacted(record, r, codec).issues) <==> FixableCompacted(record, codec)
  {
    hide DiagnoseText;
    hide DiagnoseHistory;
    hide FixableHistory;
    hide Closed;
    hide Reads;
    var o := DiagnoseCompacted(record, r, codec);
    match Get(record, "payload")
    case Some(Object(fields)) =>
      var payload := Object(fields);
      var first := DiagnoseText(payload, r);
      PayloadTextFixable(payload, r);
      TextGood(payload, r);
      var second := DiagnoseHistoryOf(first.value, r, codec);
      assert Get(first.value, "replacement_history") == Get(payload, "replacement_history");
      if Get(payload, "replacement_history").Some? {
        HistoryFixable(fields["replacement_history"], r, codec);
      } else {
        ClosedOne(second.issues[0]);
      }
      ClosedConcat(first.issues, second.issues);
    case _ => ClosedOne(o.issues[0]);
  }

  /** Everything wrong with a record is repaired if and only if the record is fixable. */
  lemma RepairedIffFixable(record: Value, r: nat, codec: Codec)
    ensures Unrepaired(DiagnoseRecord(record, r, codec).issues) == [] <==> Fixable(record, codec)
  {
    hide DiagnoseMessage;
    hide DiagnoseFunctionCall;
    hide DiagnoseToolOutput;
    hide DiagnoseUserMessage;
    hide DiagnoseCompacted;
    hide FixableMessage;
    hide FixableCall;
    hide FixableToolOutput;
    hide FixableUserMessage;
    hide FixableCompacted;
    match CheckOf(record)
    case Compacted => CompactedFixable(record, r, codec);
    case BareResponse => ClosedOne(DiagnoseRecord(record, r, codec).issues[0]);
    case Message => MessageFixable(record.fields["payload"], r, "payload");
    case FunctionCall => CallFixable(record.fields["payload"], r, codec);
    case ToolOutput => ToolOutputFixable(record.fields["payload"], r, codec);
    case UserMessage => UserMessageFixable(record, r, codec);
    case Unchecked =>
  }
}
