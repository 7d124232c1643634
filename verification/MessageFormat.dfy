/** What the message-envelope normaliser does to one record: the rewritten value and the issues reported, in order. */
module MessageFormat {
  import opened Prelude
  import opened Text
  import opened Json
  import opened Joining

  datatype Issue = Issue(recordIndex: nat, path: string, expected: string, actual: string, repaired: bool)

  datatype Outcome = Outcome(value: Value, issues: seq<Issue>)

  function Indexed(path: string, index: nat): string {
    path + "[" + Decimal(index) + "]"
  }

  // ---- Content items ----

  function TextItem(itemType: string, text: string): Value {
    Object(map["type" := String(itemType), "text" := String(text)])
  }

  predicate OtherTextType(itemType: string, expected: string) {
    || itemType == "text"
    || (itemType == "input_text" && expected == "output_text")
    || (itemType == "output_text" && expected == "input_text")
  }

  /** The check of `text`, with `content` as a stand-in. */
  function FixText(item: Value, r: nat, path: string): Outcome
    requires item.Object?
  {
    var actual := Kind(Get(item, "text"));
    if StringAt(item, "text").Some? then Outcome(item, [])
    else
      match StringAt(item, "content")
      case Some(text) =>
        Outcome(With(Without(item, "content"), "text", String(text)), [Issue(r, path + ".text", "string", actual, true)])
      case None => Outcome(item, [Issue(r, path + ".text", "string", actual, false)])
  }

  function Require(ok: bool, item: Value, r: nat, path: string, expected: string, actual: Option<Value>): Outcome {
    Outcome(item, if ok then [] else [Issue(r, path, expected, Kind(actual), false)])
  }

  function Retype(item: Value, r: nat, path: string, expected: string, actual: Option<Value>): Outcome
    requires item.Object?
  {
    var fixed := FixText(With(item, "type", String(expected)), r, path);
    Outcome(fixed.value, [Issue(r, path + ".type", expected, Kind(actual), true)] + fixed.issues)
  }

  function NormalizeObject(item: Value, r: nat, path: string, expected: string): Outcome
    requires item.Object?
  {
    var itemType := Get(item, "type");
    match AsString(itemType)
    case None =>
      if StringAt(item, "text").Some? then Retype(item, r, path, expected, None)
      else Require(false, item, r, path + ".type", expected, itemType)
    case Some(t) =>
      if OtherTextType(t, expected) then Retype(item, r, path, expected, itemType)
      else if t == "input_image" && expected == "input_text" then
        Require(StringAt(item, "image_url").Some?, item, r, path + ".image_url", "string", Get(item, "image_url"))
      else if t == "refusal" && expected == "output_text" then
        Require(StringAt(item, "refusal").Some?, item, r, path + ".refusal", "string", Get(item, "refusal"))
      else if t == expected then FixText(item, r, path)
      else Require(false, item, r, path + ".type", expected, itemType)
  }

  function NormalizeItem(item: Value, r: nat, path: string, expected: string): Outcome {
    match item
    case String(text) => Outcome(TextItem(expected, text), [Issue(r, path, "typed content object", "string", true)])
    case Object(_) => NormalizeObject(item, r, path, expected)
    case _ => Require(false, item, r, path, "typed content object", Some(item))
  }

  // ---- Lists: every element in order, issues in the same order ----

  type Fix = (nat, Value) -> Outcome

  datatype Outcomes = Outcomes(values: seq<Value>, issues: seq<Issue>)

  function Each(items: seq<Value>, fix: Fix): (r: Outcomes)
    ensures |r.values| == |items|
  {
    if items == [] then Outcomes([], [])
    else
      var n := |items| - 1;
      var before, last := Each(items[..n], fix), fix(n, items[n]);
      Outcomes(before.values + [last.value], before.issues + last.issues)
  }

  function ItemFix(r: nat, path: string, expected: string): Fix {
    (i: nat, item: Value) => NormalizeItem(item, r, Indexed(path, i), expected)
  }

  // ---- Content ----

  const CONTENT := "non-empty content array"

  function NormalizeItems(content: Value, r: nat, path: string, expected: string): Outcome
    requires content.Array?
  {
    if content.items == [] then Require(false, content, r, path, CONTENT, Some(content))
    else
      var fixed := Each(content.items, ItemFix(r, path, expected));
      Outcome(Array(fixed.values), fixed.issues)
  }

  function Prefix(issue: Issue, rest: Outcome): Outcome {
    Outcome(rest.value, [issue] + rest.issues)
  }

  function NormalizeContent(content: Value, r: nat, path: string, expected: string): Outcome {
    var repaired := Issue(r, path, CONTENT, Kind(Some(content)), true);
    match content
    case Array(_) => NormalizeItems(content, r, path, expected)
    case String(text) => Prefix(repaired, NormalizeItems(Array([TextItem(expected, text)]), r, path, expected))
    case Object(_) => Prefix(repaired, NormalizeItems(Array([content]), r, path, expected))
    case _ => Require(false, content, r, path, CONTENT, Some(content))
  }

  // ---- Messages ----

  predicate IsRole(role: string) {
    role == "assistant" || role == "user" || role == "developer" || role == "system"
  }

  function TextType(role: string): string {
    if role == "assistant" then "output_text" else "input_text"
  }

  function Inside(value: Value, key: string, inner: Outcome): Outcome
    requires value.Object?
  {
    Outcome(With(value, key, inner.value), inner.issues)
  }

  /** A message whose type is already right. */
  function DiagnoseTyped(message: Value, r: nat, path: string): Outcome
    requires message.Object?
  {
    var role := StringAt(message, "role");
    if role.None? || !IsRole(role.value) then
      Require(false, message, r, path + ".role", "assistant, user, developer, or system", Get(message, "role"))
    else
      match Get(message, "content")
      case None => Require(false, message, r, path + ".content", CONTENT, None)
      case Some(content) => Inside(message, "content", NormalizeContent(content, r, path + ".content", TextType(role.value)))
  }

  function DiagnoseMessage(message: Value, r: nat, path: string): Outcome {
    if !message.Object? then Require(false, message, r, path, "message object", Some(message))
    else
      var messageType := Get(message, "type");
      if AsString(messageType) == Some("message") then DiagnoseTyped(message, r, path)
      else if AsString(messageType).None? && Get(message, "role").Some? && Get(message, "content").Some? then
        Prefix(Issue(r, path + ".type", "message", Kind(messageType), true),
          DiagnoseTyped(With(message, "type", String("message")), r, path))
      else Require(false, message, r, path + ".type", "message", messageType)
  }

  // ---- Compacted records ----

  function Texts(items: seq<Value>): Option<seq<string>> {
    if items == [] then Some([])
    else
      var n := |items| - 1;
      match Texts(items[..n])
      case None => None
      case Some(before) =>
        if items[n].String? then Some(before + [items[n].text])
        else
          match StringAt(items[n], "text")
          case None => None
          case Some(text) => Some(before + [text])
  }

  function FlattenText(value: Value): Option<string> {
    match value
    case String(text) => Some(text)
    case Array(items) =>
      (match Texts(items)
       case None => None
       case Some(texts) => if texts == [] then None else Some(Joined(texts, "\n")))
    case Object(_) => StringAt(value, "text")
    case _ => None
  }

  /** `message` of a compacted or user-message payload, given its value if present. */
  function DiagnoseText(payload: Value, r: nat): Outcome
    requires payload.Object?
  {
    match Get(payload, "message")
    case None => Require(false, payload, r, "payload.message", "string", None)
    case Some(message) =>
      if message.String? then Outcome(payload, [])
      else
        match FlattenText(message)
        case None => Require(false, payload, r, "payload.message", "string", Some(message))
        case Some(text) =>
          Outcome(With(payload, "message", String(text)), [Issue(r, "payload.message", "string", Kind(Some(message)), true)])
  }

  const HISTORY := "payload.replacement_history"

  /** The messages a history stands for: an array, an object on its own, or either of them as JSON text. */
  function HistoryMessages(history: Value, codec: Codec): Option<seq<Value>> {
    match history
    case Array(messages) => Some(messages)
    case Object(_) => Some([history])
    case String(encoded) =>
      (match codec.parse(encoded)
       case Some(Array(messages)) => Some(messages)
       case Some(Object(fields)) => Some([Object(fields)])
       case _ => None)
    case _ => None
  }

  function MessageFix(r: nat): Fix {
    (i: nat, message: Value) => DiagnoseMessage(message, r, Indexed(HISTORY, i))
  }

  function DiagnoseMessages(messages: seq<Value>, r: nat): Outcome {
    if messages == [] then
      Require(false, Array([]), r, HISTORY, "non-empty array of message objects", Some(Array([])))
    else
      var fixed := Each(messages, MessageFix(r));
      Outcome(Array(fixed.values), fixed.issues)
  }

  function DiagnoseHistory(history: Value, r: nat, codec: Codec): Outcome {
    var expected := "array of message objects";
    match HistoryMessages(history, codec)
    case None => Require(false, history, r, HISTORY, expected, Some(history))
    case Some(messages) =>
      if history.Array? then DiagnoseMessages(messages, r)
      else Prefix(Issue(r, HISTORY, expected, Kind(Some(history)), true), DiagnoseMessages(messages, r))
  }

  function Then(first: Outcome, second: Outcome): Outcome {
    Outcome(second.value, first.issues + second.issues)
  }

  function DiagnoseHistoryOf(payload: Value, r: nat, codec: Codec): Outcome
    requires payload.Object?
  {
    match Get(payload, "replacement_history")
    case None => Require(false, payload, r, HISTORY, "array of message objects", None)
    case Some(history) => Inside(payload, "replacement_history", DiagnoseHistory(history, r, codec))
  }

  function DiagnoseCompacted(record: Value, r: nat, codec: Codec): Outcome
    requires record.Object?
  {
    match Get(record, "payload")
    case Some(Object(fields)) =>
      var first := DiagnoseText(Object(fields), r);
      Inside(record, "payload", Then(first, DiagnoseHistoryOf(first.value, r, codec)))
    case payload => Require(false, record, r, "payload", "object", payload)
  }

  // ---- Other records ----

  function RequireNonempty(payload: Value, key: string, r: nat): Outcome {
    Require(StringAt(payload, key).Some? && StringAt(payload, key).value != "", payload, r, "payload." + key, "non-empty string", Get(payload, key))
  }

  function DiagnoseArguments(payload: Value, r: nat, codec: Codec): Outcome
    requires payload.Object?
  {
    var expected := "JSON encoded as a string";
    match Get(payload, "arguments")
    case None => Require(false, payload, r, "payload.arguments", expected, None)
    case Some(arguments) =>
      if arguments.String? then Outcome(payload, [])
      else Outcome(With(payload, "arguments", String(codec.write(arguments))),
                   [Issue(r, "payload.arguments", expected, Kind(Some(arguments)), true)])
  }

  function DiagnoseFunctionCall(payload: Value, r: nat, codec: Codec): Outcome
    requires payload.Object?
  {
    Then(RequireNonempty(payload, "call_id", r), Then(RequireNonempty(payload, "name", r), DiagnoseArguments(payload, r, codec)))
  }

  function NormalizeOutput(output: Value, r: nat, codec: Codec): Outcome {
    match output
    case String(_) => Outcome(output, [])
    case Array(_) => NormalizeContent(output, r, "payload.output", "input_text")
    case _ =>
      if Get(output, "type").Some? || Get(output, "text").Some? then NormalizeContent(output, r, "payload.output", "input_text")
      else Outcome(String(codec.write(output)), [Issue(r, "payload.output", "string or typed content array", Kind(Some(output)), true)])
  }

  function DiagnoseToolOutput(payload: Value, r: nat, codec: Codec): Outcome
    requires payload.Object?
  {
    var id := RequireNonempty(payload, "call_id", r);
    match Get(payload, "output")
    case None => Then(id, Require(false, payload, r, "payload.output", "string or typed content array", None))
    case Some(output) => Then(id, Inside(payload, "output", NormalizeOutput(output, r, codec)))
  }

  const LISTS: seq<string> := ["images", "local_images", "text_elements"]

  function DiagnoseList(payload: Value, field: string, r: nat): Outcome
    requires payload.Object?
  {
    match Get(payload, field)
    case None => Outcome(payload, [])
    case Some(list) =>
      var path := "payload." + field;
      if list.Array? then Outcome(payload, [])
      else if list.Null? then Outcome(With(payload, field, Array([])), [Issue(r, path, "array", "null", true)])
      else Require(false, payload, r, path, "array", Some(list))
  }

  function DiagnoseLists(payload: Value, fields: seq<string>, r: nat): (o: Outcome)
    requires payload.Object?
    ensures o.value.Object?
  {
    if fields == [] then Outcome(payload, [])
    else
      var n := |fields| - 1;
      var before := DiagnoseLists(payload, fields[..n], r);
      Then(before, DiagnoseList(before.value, fields[n], r))
  }

  function DiagnoseUserMessage(record: Value, r: nat): Outcome
    requires record.Object?
  {
    match Get(record, "payload")
    case Some(Object(fields)) =>
      var first := DiagnoseText(Object(fields), r);
      Inside(record, "payload", Then(first, DiagnoseLists(first.value, LISTS, r)))
    case _ => Outcome(record, [])
  }

  /** Which check a record gets. */
  datatype Check = Compacted | BareResponse | Message | FunctionCall | ToolOutput | UserMessage | Unchecked

  function CheckOf(record: Value): Check {
    match StringAt(record, "type")
    case Some("compacted") => Compacted
    case Some("response_item") =>
      (match Get(record, "payload")
       case None => BareResponse
       case Some(payload) =>
         match StringAt(payload, "type")
         case Some("message") => Message
         case Some("function_call") => FunctionCall
         case Some("function_call_output") => ToolOutput
         case Some("custom_tool_call_output") => ToolOutput
         case _ => Unchecked)
    case Some("event_msg") =>
      if Get(record, "payload").Some? && StringAt(Get(record, "payload").value, "type") == Some("user_message") then UserMessage
      else Unchecked
    case _ => Unchecked
  }

  function DiagnoseRecord(record: Value, r: nat, codec: Codec): Outcome {
    match CheckOf(record)
    case Compacted => DiagnoseCompacted(record, r, codec)
    case BareResponse => Require(false, record, r, "payload", "object", None)
    case Message => Inside(record, "payload", DiagnoseMessage(record.fields["payload"], r, "payload"))
    case FunctionCall => Inside(record, "payload", DiagnoseFunctionCall(record.fields["payload"], r, codec))
    case ToolOutput => Inside(record, "payload", DiagnoseToolOutput(record.fields["payload"], r, codec))
    case UserMessage => DiagnoseUserMessage(record, r)
    case Unchecked => Outcome(record, [])
  }
}
