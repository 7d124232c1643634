/** Where the reported issues are: every path leads to the value it speaks of, and the issues come record by record. */
module MessagePlaces {
  import opened Prelude
  import opened Text
  import opened Json
  import opened MessageFormat
  import opened MessageTheorems
  import MV = MessageValidity
  import MD = MessageDiagnosis
  import MR = MessageRepairs

  // ---- Paths ----

  /** The steps as a path: fields behind dots, elements in brackets. */
  function PathText(steps: seq<Step>): string {
    if steps == [] then ""
    else
      var before := PathText(steps[..|steps| - 1]);
      match steps[|steps| - 1]
      case Key(name) => if before == "" then name else before + "." + name
      case Index(i) => before + "[" + Decimal(i) + "]"
  }

  /** The elements of a list, of the list that a text encodes, or the one element that an object stands for. */
  function Entries(value: Value, codec: Codec): seq<Value> {
    match value
    case Array(items) => items
    case Object(_) => [value]
    case String(text) =>
      (match codec.parse(text)
       case Some(Array(items)) => items
       case Some(Object(fields)) => [Object(fields)]
       case _ => [])
    case _ => []
  }

  /** What stands at the end of the steps, if anything. */
  function Look(value: Value, steps: seq<Step>, codec: Codec): Option<Value> {
    if steps == [] then Some(value)
    else
      match Look(value, steps[..|steps| - 1], codec)
      case None => None
      case Some(there) =>
        match steps[|steps| - 1]
        case Key(name) => if there.Object? && name in there.fields then Some(there.fields[name]) else None
        case Index(i) => if i < |Entries(there, codec)| then Some(Entries(there, codec)[i]) else None
  }

  predicate KindOf(value: Option<Value>, kind: string) {
    match value
    case None => kind == "missing"
    case Some(v) =>
      kind == if v.Null? then "null" else if v.Bool? then "boolean" else if v.Number? then "number"
              else if v.String? then "string" else if v.Array? then "array" else "object"
  }

  /** What is expected at the end of a step. */
  predicate Expects(step: Step, expected: string) {
    match step
    case Index(_) => expected == "typed content object" || expected == "message object"
    case Key(name) =>
      match name
      case "type" => expected == "message" || expected == "input_text" || expected == "output_text"
      case "role" => expected == "assistant, user, developer, or system"
      case "content" => expected == "non-empty content array"
      case "payload" => expected == "object"
      case "replacement_history" => expected == "array of message objects" || expected == "non-empty array of message objects"
      case "call_id" => expected == "non-empty string"
      case "name" => expected == "non-empty string"
      case "arguments" => expected == "JSON encoded as a string"
      case "output" => expected == "string or typed content array" || expected == "non-empty content array"
      case "images" => expected == "array"
      case "local_images" => expected == "array"
      case "text_elements" => expected == "array"
      case _ => (name == "text" || name == "image_url" || name == "refusal" || name == "message") && expected == "string"
  }

  /** The value is a text that encodes the empty list. */
  predicate EncodesNothing(value: Option<Value>, codec: Codec) {
    value.Some? && value.value.String? && codec.parse(value.value.text) == Some(Array([]))
  }

  /** The issue is about the value at the end of the steps. A type that is no text is reported as missing where it is
      replaced, and a text that encodes the empty list is reported as that list once it is decoded. */
  predicate Located(issue: Issue, record: Value, r: nat, codec: Codec, steps: seq<Step>) {
    && issue.recordIndex == r && steps != [] && issue.path == PathText(steps) && Expects(steps[|steps| - 1], issue.expected)
    && var there := Look(record, steps, codec);
    || KindOf(there, issue.actual)
    || (issue.repaired && steps[|steps| - 1] == Key("type") && issue.actual == "missing" && there.Some? && !there.value.String?)
    || (!issue.repaired && steps[|steps| - 1] == Key("replacement_history") && issue.actual == "array" && EncodesNothing(there, codec))
  }

  lemma HistoryExpects()
    ensures Expects(Key("replacement_history"), "array of message objects")
    ensures Expects(Key("replacement_history"), "non-empty array of message objects")
  {
  }

  lemma ListsExpect()
    ensures forall i :: 0 <= i < |LISTS| ==> Expects(Key(LISTS[i]), "array")
  {
    assert Expects(Key("images"), "array") && Expects(Key("local_images"), "array") && Expects(Key("text_elements"), "array");
  }

  ghost predicate HasPlace(issue: Issue, record: Value, r: nat, codec: Codec) {
    exists steps :: Located(issue, record, r, codec, steps)
  }

  ghost predicate AllLocated(issues: seq<Issue>, record: Value, r: nat, codec: Codec) {
    forall i :: 0 <= i < |issues| ==> HasPlace(issues[i], record, r, codec)
  }

  lemma KindIs(value: Option<Value>)
    ensures KindOf(value, Kind(value))
  {
  }

  lemma Further(record: Value, codec: Codec, steps: seq<Step>, step: Step)
    ensures PathText(steps + [step]) ==
      match step
      case Key(name) => if PathText(steps) == "" then name else PathText(steps) + "." + name
      case Index(i) => Indexed(PathText(steps), i)
    ensures Look(record, steps, codec).Some? ==>
      Look(record, steps + [step], codec) ==
        match step
        case Key(name) => Get(Look(record, steps, codec).value, name)
        case Index(i) =>
          var entries := Entries(Look(record, steps, codec).value, codec);
          if i < |entries| then Some(entries[i]) else None
  {
    assert (steps + [step])[..|steps|] == steps;
  }

  lemma LocatedConcat(a: seq<Issue>, b: seq<Issue>, record: Value, r: nat, codec: Codec)
    requires AllLocated(a, record, r, codec) && AllLocated(b, record, r, codec)
    ensures AllLocated(a + b, record, r, codec)
  {
    hide HasPlace;
  }

  lemma OneLocated(issue: Issue, record: Value, r: nat, codec: Codec, steps: seq<Step>)
    requires Located(issue, record, r, codec, steps)
    ensures AllLocated([issue], record, r, codec)
  {
    hide Located;
    assert HasPlace(issue, record, r, codec);
  }

  lemma NoneLocated(record: Value, r: nat, codec: Codec)
    ensures AllLocated([], record, r, codec)
  {
  }

  predicate Standing(record: Value, codec: Codec, steps: seq<Step>, value: Value) {
    Look(record, steps, codec) == Some(value) && steps != [] && PathText(steps) != ""
  }

  /** An issue about a field of the value at the end of the steps. */
  lemma FieldLocated(
    expected: string, actual: Option<Value>, repaired: bool, name: string, dotted: string, value: Value,
    record: Value, r: nat, codec: Codec, steps: seq<Step>)
    requires Standing(record, codec, steps, value) && dotted == "." + name
    requires Get(value, name) == actual && Expects(Key(name), expected)
    ensures AllLocated([Issue(r, PathText(steps) + dotted, expected, Kind(actual), repaired)], record, r, codec)
  {
    hide Expects;
    var path := PathText(steps);
    assert path + "." + name == path + dotted;
    Further(record, codec, steps, Key(name));
    hide Look;
    hide PathText;
    KindIs(actual);
    hide Kind;
    hide KindOf;
    hide Expects;
    OneLocated(Issue(r, path + dotted, expected, Kind(actual), repaired), record, r, codec, steps + [Key(name)]);
  }

  /** An issue about the value at the end of the steps. */
  lemma HereLocated(expected: string, value: Value, repaired: bool, record: Value, r: nat, codec: Codec, steps: seq<Step>)
    requires Look(record, steps, codec) == Some(value) && steps != [] && Expects(steps[|steps| - 1], expected)
    ensures AllLocated([Issue(r, PathText(steps), expected, Kind(Some(value)), repaired)], record, r, codec)
  {
    KindIs(Some(value));
    hide Kind;
    hide KindOf;
    hide Expects;
    OneLocated(Issue(r, PathText(steps), expected, Kind(Some(value)), repaired), record, r, codec, steps);
  }

  // ---- Items ----

  lemma TextLocated(item: Value, seen: Value, record: Value, r: nat, codec: Codec, steps: seq<Step>)
    requires item.Object? && Standing(record, codec, steps, seen) && Get(item, "text") == Get(seen, "text")
    ensures AllLocated(FixText(item, r, PathText(steps)).issues, record, r, codec)
  {
    NoneLocated(record, r, codec);
    FieldLocated("string", Get(item, "text"), true, "text", ".text", seen, record, r, codec, steps);
    FieldLocated("string", Get(item, "text"), false, "text", ".text", seen, record, r, codec, steps);
    hide AllLocated;
    hide Look;
    hide PathText;
    hide Kind;
  }

  lemma UntypedLocated(item: Value, expected: string, record: Value, r: nat, codec: Codec, steps: seq<Step>)
    requires item.Object? && Standing(record, codec, steps, item) && IsTextType(expected) && StringAt(item, "type").None?
    ensures AllLocated([Issue(r, PathText(steps) + ".type", expected, "missing", true)], record, r, codec)
  {
    var path := PathText(steps);
    assert "." + "type" == ".type" && path + "." + "type" == path + ".type";
    Further(record, codec, steps, Key("type"));
    if Get(item, "type") == None {
      FieldLocated(expected, None, true, "type", ".type", item, record, r, codec, steps);
    } else {
      OneLocated(Issue(r, path + ".type", expected, "missing", true), record, r, codec, steps + [Key("type")]);
    }
  }

  lemma RetypeLocated(item: Value, expected: string, actual: Option<Value>, record: Value, r: nat, codec: Codec, steps: seq<Step>)
    requires item.Object? && Standing(record, codec, steps, item) && IsTextType(expected)
    requires actual == Get(item, "type") || (actual == None && StringAt(item, "type").None?)
    ensures AllLocated(Retype(item, r, PathText(steps), expected, actual).issues, record, r, codec)
  {
    var first := Issue(r, PathText(steps) + ".type", expected, Kind(actual), true);
    if actual == Get(item, "type") {
      FieldLocated(expected, actual, true, "type", ".type", item, record, r, codec, steps);
    } else {
      UntypedLocated(item, expected, record, r, codec, steps);
    }
    TextLocated(With(item, "type", String(expected)), item, record, r, codec, steps);
    hide AllLocated;
    hide FixText;
    LocatedConcat([first], FixText(With(item, "type", String(expected)), r, PathText(steps)).issues, record, r, codec);
  }

  lemma ObjectLocated(item: Value, expected: string, record: Value, r: nat, codec: Codec, steps: seq<Step>)
    requires item.Object? && Standing(record, codec, steps, item) && IsTextType(expected)
    ensures AllLocated(NormalizeObject(item, r, PathText(steps), expected).issues, record, r, codec)
  {
    var itemType := Get(item, "type");
    NoneLocated(record, r, codec);
    RetypeLocated(item, expected, itemType, record, r, codec, steps);
    if AsString(itemType).None? {
      RetypeLocated(item, expected, None, record, r, codec, steps);
    }
    TextLocated(item, item, record, r, codec, steps);
    FieldLocated(expected, itemType, false, "type", ".type", item, record, r, codec, steps);
    FieldLocated("string", Get(item, "image_url"), false, "image_url", ".image_url", item, record, r, codec, steps);
    FieldLocated("string", Get(item, "refusal"), false, "refusal", ".refusal", item, record, r, codec, steps);
    hide AllLocated;
    hide Retype;
    hide FixText;
    hide Look;
    hide PathText;
    hide Kind;
  }

  lemma ItemLocated(item: Value, expected: string, record: Value, r: nat, codec: Codec, steps: seq<Step>)
    requires Standing(record, codec, steps, item) && steps[|steps| - 1].Index? && IsTextType(expected)
    ensures AllLocated(NormalizeItem(item, r, PathText(steps), expected).issues, record, r, codec)
  {
    HereLocated("typed content object", item, true, record, r, codec, steps);
    HereLocated("typed content object", item, false, record, r, codec, steps);
    if item.Object? {
      ObjectLocated(item, expected, record, r, codec, steps);
    }
    hide AllLocated;
    hide NormalizeObject;
    hide Look;
    hide PathText;
  }

  // ---- Lists ----

  lemma {:induction false} EachLocated(items: seq<Value>, fix: Fix, record: Value, r: nat, codec: Codec)
    requires forall i :: 0 <= i < |items| ==> AllLocated(fix(i, items[i]).issues, record, r, codec)
    ensures AllLocated(Each(items, fix).issues, record, r, codec)
  {
    hide AllLocated;
    if items == [] {
      NoneLocated(record, r, codec);
    } else {
      var n := |items| - 1;
      EachLocated(items[..n], fix, record, r, codec);
      LocatedConcat(Each(items[..n], fix).issues, fix(n, items[n]).issues, record, r, codec);
    }
  }

  lemma ElementStands(container: Value, i: nat, record: Value, codec: Codec, steps: seq<Step>)
    requires Standing(record, codec, steps, container) && i < |Entries(container, codec)|
    ensures Standing(record, codec, steps + [Index(i)], Entries(container, codec)[i])
    ensures PathText(steps + [Index(i)]) == Indexed(PathText(steps), i)
    ensures (steps + [Index(i)])[|steps + [Index(i)]| - 1].Index?
  {
    Further(record, codec, steps, Index(i));
  }

  lemma ItemsLocated(container: Value, items: seq<Value>, expected: string, record: Value, r: nat, codec: Codec, steps: seq<Step>)
    requires Standing(record, codec, steps, container) && Entries(container, codec) == items && IsTextType(expected)
    ensures AllLocated(Each(items, ItemFix(r, PathText(steps), expected)).issues, record, r, codec)
  {
    hide AllLocated;
    hide NormalizeItem;
    forall i | 0 <= i < |items| ensures AllLocated(ItemFix(r, PathText(steps), expected)(i, items[i]).issues, record, r, codec) {
      ElementStands(container, i, record, codec, steps);
      ItemLocated(items[i], expected, record, r, codec, steps + [Index(i)]);
    }
    EachLocated(items, ItemFix(r, PathText(steps), expected), record, r, codec);
  }

  // ---- Content ----

  /** The list itself, or what stands for one, is checked item by item. */
  lemma ListLocated(container: Value, items: seq<Value>, expected: string, record: Value, r: nat, codec: Codec, steps: seq<Step>)
    requires Standing(record, codec, steps, container) && Entries(container, codec) == items && IsTextType(expected)
    requires items == [] ==> container == Array([])
    requires Expects(steps[|steps| - 1], "non-empty content array")
    ensures AllLocated(NormalizeItems(Array(items), r, PathText(steps), expected).issues, record, r, codec)
  {
    HereLocated("non-empty content array", container, false, record, r, codec, steps);
    ItemsLocated(container, items, expected, record, r, codec, steps);
    hide AllLocated;
    hide NormalizeItem;
    hide Each;
    hide Look;
    hide PathText;
    hide Kind;
  }

  lemma PrefixLocated(first: Issue, rest: Outcome, record: Value, r: nat, codec: Codec)
    requires AllLocated([first], record, r, codec) && AllLocated(rest.issues, record, r, codec)
    ensures AllLocated(Prefix(first, rest).issues, record, r, codec)
  {
    LocatedConcat([first], rest.issues, record, r, codec);
  }

  lemma ContentLocated(content: Value, expected: string, record: Value, r: nat, codec: Codec, steps: seq<Step>)
    requires Standing(record, codec, steps, content) && IsTextType(expected)
    requires Expects(steps[|steps| - 1], "non-empty content array")
    ensures AllLocated(NormalizeContent(content, r, PathText(steps), expected).issues, record, r, codec)
  {
    var path := PathText(steps);
    var first := Issue(r, path, "non-empty content array", Kind(Some(content)), true);
    if content.Array? {
      ListLocated(content, content.items, expected, record, r, codec, steps);
    } else if content.Object? {
      HereLocated("non-empty content array", content, true, record, r, codec, steps);
      ListLocated(content, [content], expected, record, r, codec, steps);
      PrefixLocated(first, NormalizeItems(Array([content]), r, path, expected), record, r, codec);
    } else if content.String? {
      HereLocated("non-empty content array", content, true, record, r, codec, steps);
      NoneLocated(record, r, codec);
      WrappedTextIsSilent(content.text, r, path, expected);
      PrefixLocated(first, NormalizeItems(Array([TextItem(expected, content.text)]), r, path, expected), record, r, codec);
    } else {
      HereLocated("non-empty content array", content, false, record, r, codec, steps);
    }
    hide NormalizeItems;
    hide AllLocated;
    hide Look;
    hide PathText;
    hide Kind;
    hide Expects;
    hide Prefix;
    hide TextItem;
  }

  lemma WrappedTextIsSilent(text: string, r: nat, path: string, expected: string)
    requires IsTextType(expected)
    ensures NormalizeItems(Array([TextItem(expected, text)]), r, path, expected).issues == []
  {
    var item := TextItem(expected, text);
    MV.ItemValid(item, r, Indexed(path, 0), expected);
    hide NormalizeItem;
    assert [item][..0] == [];
    assert Each([], ItemFix(r, path, expected)).issues == [];
    assert Each([item], ItemFix(r, path, expected)).issues == ItemFix(r, path, expected)(0, item).issues;
  }

  // ---- Messages ----

  lemma FieldStands(value: Value, name: string, record: Value, codec: Codec, steps: seq<Step>)
    requires Standing(record, codec, steps, value) && Get(value, name).Some?
    ensures Standing(record, codec, steps + [Key(name)], Get(value, name).value)
    ensures forall dotted: string :: dotted == "." + name ==> PathText(steps + [Key(name)]) == PathText(steps) + dotted
    ensures (steps + [Key(name)])[|steps + [Key(name)]| - 1] == Key(name)
  {
    Further(record, codec, steps, Key(name));
  }

  lemma TypedLocated(message: Value, seen: Value, record: Value, r: nat, codec: Codec, steps: seq<Step>)
    requires message.Object? && Standing(record, codec, steps, seen)
    requires Get(message, "role") == Get(seen, "role") && Get(message, "content") == Get(seen, "content")
    ensures AllLocated(DiagnoseTyped(message, r, PathText(steps)).issues, record, r, codec)
  {
    FieldLocated("assistant, user, developer, or system", Get(message, "role"), false, "role", ".role", seen, record, r, codec, steps);
    FieldLocated("non-empty content array", Get(message, "content"), false, "content", ".content", seen, record, r, codec, steps);
    hide AllLocated;
    hide NormalizeContent;
    if Get(message, "content").Some? && StringAt(message, "role").Some? {
      FieldStands(seen, "content", record, codec, steps);
      assert PathText(steps + [Key("content")]) == PathText(steps) + ".content";
      ContentLocated(Get(message, "content").value, TextType(StringAt(message, "role").value), record, r, codec, steps + [Key("content")]);
    }
    hide Look;
    hide PathText;
    hide Kind;
  }

  lemma UntypedMessageLocated(message: Value, record: Value, r: nat, codec: Codec, steps: seq<Step>)
    requires Standing(record, codec, steps, message) && message.Object?
    ensures AllLocated(
              Prefix(Issue(r, PathText(steps) + ".type", "message", Kind(Get(message, "type")), true),
                DiagnoseTyped(With(message, "type", String("message")), r, PathText(steps))).issues, record, r, codec)
  {
    var typed := With(message, "type", String("message"));
    var first := Issue(r, PathText(steps) + ".type", "message", Kind(Get(message, "type")), true);
    TypedLocated(typed, message, record, r, codec, steps);
    FieldLocated("message", Get(message, "type"), true, "type", ".type", message, record, r, codec, steps);
    hide AllLocated;
    hide DiagnoseTyped;
    LocatedConcat([first], DiagnoseTyped(typed, r, PathText(steps)).issues, record, r, codec);
  }

  predicate Untyped(message: Value) {
    StringAt(message, "type").None? && Get(message, "role").Some? && Get(message, "content").Some?
  }

  lemma MessageCases(message: Value, r: nat, path: string)
    ensures DiagnoseMessage(message, r, path).issues ==
      if !message.Object? then [Issue(r, path, "message object", Kind(Some(message)), false)]
      else if StringAt(message, "type") == Some("message") then DiagnoseTyped(message, r, path).issues
      else if Untyped(message) then
        Prefix(Issue(r, path + ".type", "message", Kind(Get(message, "type")), true),
          DiagnoseTyped(With(message, "type", String("message")), r, path)).issues
      else [Issue(r, path + ".type", "message", Kind(Get(message, "type")), false)]
  {
    hide DiagnoseTyped;
    hide Kind;
  }

  lemma MessageLocated(message: Value, record: Value, r: nat, codec: Codec, steps: seq<Step>)
    requires Standing(record, codec, steps, message)
    requires message.Object? || Expects(steps[|steps| - 1], "message object")
    ensures AllLocated(DiagnoseMessage(message, r, PathText(steps)).issues, record, r, codec)
  {
    hide DiagnoseMessage;
    hide DiagnoseTyped;
    hide AllLocated;
    hide Look;
    hide PathText;
    hide Kind;
    MessageCases(message, r, PathText(steps));
    if !message.Object? {
      HereLocated("message object", message, false, record, r, codec, steps);
    } else if StringAt(message, "type") == Some("message") {
      TypedLocated(message, message, record, r, codec, steps);
    } else if Untyped(message) {
      UntypedMessageLocated(message, record, r, codec, steps);
    } else {
      FieldLocated("message", Get(message, "type"), false, "type", ".type", message, record, r, codec, steps);
    }
  }

  // ---- Payloads ----

  const PAYLOAD: seq<Step> := [Key("payload")]

  lemma PayloadStands(record: Value, codec: Codec)
    requires Get(record, "payload").Some?
    ensures Standing(record, codec, PAYLOAD, record.fields["payload"]) && PathText(PAYLOAD) == "payload"
  {
    Further(record, codec, [], Key("payload"));
    assert [] + [Key("payload")] == PAYLOAD;
    assert Look(record, [], codec) == Some(record);
  }

  lemma PayloadIssue(name: string, path: string, expected: string, actual: Option<Value>, repaired: bool, record: Value, r: nat, codec: Codec)
    requires Get(record, "payload").Some? && Get(record.fields["payload"], name) == actual && Expects(Key(name), expected)
    requires path == "payload." + name
    ensures AllLocated([Issue(r, path, expected, Kind(actual), repaired)], record, r, codec)
  {
    hide Kind;
    hide Expects;
    PayloadStands(record, codec);
    assert path == "payload" + ("." + name);
    FieldLocated(expected, actual, repaired, name, "." + name, record.fields["payload"], record, r, codec, PAYLOAD);
  }

  lemma PayloadField(name: string, path: string, record: Value, codec: Codec)
    requires Get(record, "payload").Some? && Get(record.fields["payload"], name).Some? && path == "payload." + name
    ensures Standing(record, codec, PAYLOAD + [Key(name)], record.fields["payload"].fields[name]) && PathText(PAYLOAD + [Key(name)]) == path
    ensures (PAYLOAD + [Key(name)])[|PAYLOAD + [Key(name)]| - 1] == Key(name)
  {
    PayloadStands(record, codec);
    assert path == "payload" + ("." + name);
    FieldStands(record.fields["payload"], name, record, codec, PAYLOAD);
  }

  lemma MessageTextLocated(payload: Value, record: Value, r: nat, codec: Codec)
    requires Get(record, "payload") == Some(payload) && payload.Object?
    ensures AllLocated(DiagnoseText(payload, r).issues, record, r, codec)
  {
    NoneLocated(record, r, codec);
    assert "payload." + "message" == "payload.message";
    PayloadIssue("message", "payload.message", "string", Get(payload, "message"), true, record, r, codec);
    PayloadIssue("message", "payload.message", "string", Get(payload, "message"), false, record, r, codec);
    hide AllLocated;
    hide FlattenText;
    hide Kind;
  }

  lemma HistoryEntries(history: Value, codec: Codec)
    ensures HistoryMessages(history, codec).Some? ==> HistoryMessages(history, codec).value == Entries(history, codec)
  {
  }

  lemma MessagesLocated(history: Value, messages: seq<Value>, record: Value, r: nat, codec: Codec, steps: seq<Step>)
    requires Standing(record, codec, steps, history) && PathText(steps) == HISTORY && Entries(history, codec) == messages
    ensures AllLocated(Each(messages, MessageFix(r)).issues, record, r, codec)
  {
    hide AllLocated;
    hide DiagnoseMessage;
    forall i | 0 <= i < |messages| ensures AllLocated(MessageFix(r)(i, messages[i]).issues, record, r, codec) {
      ElementStands(history, i, record, codec, steps);
      MessageLocated(messages[i], record, r, codec, steps + [Index(i)]);
    }
    EachLocated(messages, MessageFix(r), record, r, codec);
  }

  /** An empty list is reported as one, also when a text encodes it. */
  lemma EmptyHistory(history: Value, messages: seq<Value>, r: nat)
    ensures messages == [] ==>
              DiagnoseMessages(messages, r).issues == [Issue(r, HISTORY, "non-empty array of message objects", "array", false)]
    ensures messages != [] ==> DiagnoseMessages(messages, r).issues == Each(messages, MessageFix(r)).issues
  {
  }

  const EMPTY_EXPECTED := "non-empty array of message objects"

  lemma EmptyHistoryLocated(history: Value, record: Value, r: nat, codec: Codec, steps: seq<Step>)
    requires Standing(record, codec, steps, history) && PathText(steps) == HISTORY && steps[|steps| - 1] == Key("replacement_history")
    requires history == Array([]) || (history.String? && codec.parse(history.text) == Some(Array([])))
    ensures AllLocated([Issue(r, HISTORY, EMPTY_EXPECTED, "array", false)], record, r, codec)
  {
    HistoryExpects();
    hide Expects;
    hide Look;
    hide PathText;
    var issue := Issue(r, HISTORY, EMPTY_EXPECTED, "array", false);
    if history.String? {
      assert EncodesNothing(Some(history), codec);
      assert issue.recordIndex == r && issue.path == PathText(steps);
    }
    OneLocated(issue, record, r, codec, steps);
  }

  lemma DecodedMessagesLocated(history: Value, messages: seq<Value>, record: Value, r: nat, codec: Codec, steps: seq<Step>)
    requires Standing(record, codec, steps, history) && PathText(steps) == HISTORY && steps[|steps| - 1] == Key("replacement_history")
    requires HistoryMessages(history, codec) == Some(messages)
    ensures AllLocated(DiagnoseMessages(messages, r).issues, record, r, codec)
  {
    HistoryEntries(history, codec);
    EmptyHistory(history, messages, r);
    if messages == [] {
      EmptyHistoryLocated(history, record, r, codec, steps);
    } else {
      MessagesLocated(history, messages, record, r, codec, steps);
    }
  }

  lemma HistoryLocated(history: Value, record: Value, r: nat, codec: Codec, steps: seq<Step>)
    requires Standing(record, codec, steps, history) && PathText(steps) == HISTORY && steps[|steps| - 1] == Key("replacement_history")
    ensures AllLocated(DiagnoseHistory(history, r, codec).issues, record, r, codec)
  {
    HistoryExpects();
    hide AllLocated;
    hide DiagnoseMessages;
    hide HistoryMessages;
    hide Look;
    hide PathText;
    hide Kind;
    hide Expects;
    var first := Issue(r, HISTORY, "array of message objects", Kind(Some(history)), true);
    if HistoryMessages(history, codec).None? {
      HereLocated("array of message objects", history, false, record, r, codec, steps);
    } else {
      var messages := HistoryMessages(history, codec).value;
      DecodedMessagesLocated(history, messages, record, r, codec, steps);
      if !history.Array? {
        HereLocated("array of message objects", history, true, record, r, codec, steps);
        PrefixLocated(first, DiagnoseMessages(messages, r), record, r, codec);
      }
    }
  }

  lemma HistoryPath()
    ensures HISTORY == "payload." + "replacement_history"
  {
  }

  lemma HistoryOfLocated(payload: Value, seen: Value, record: Value, r: nat, codec: Codec)
    requires Get(record, "payload") == Some(seen) && payload.Object?
    requires Get(payload, "replacement_history") == Get(seen, "replacement_history")
    ensures AllLocated(DiagnoseHistoryOf(payload, r, codec).issues, record, r, codec)
  {
    HistoryPath();
    HistoryExpects();
    hide Expects;
    hide Kind;
    hide Look;
    hide PathText;
    hide DiagnoseHistory;
    hide AllLocated;
    match Get(payload, "replacement_history")
    case None =>
      PayloadIssue("replacement_history", HISTORY, "array of message objects", None, false, record, r, codec);
    case Some(history) =>
      PayloadField("replacement_history", HISTORY, record, codec);
      HistoryLocated(history, record, r, codec, PAYLOAD + [Key("replacement_history")]);
  }

  lemma PayloadItselfLocated(actual: Option<Value>, record: Value, r: nat, codec: Codec)
    requires Get(record, "payload") == actual
    ensures AllLocated([Issue(r, "payload", "object", Kind(actual), false)], record, r, codec)
  {
    var issue := Issue(r, "payload", "object", Kind(actual), false);
    Further(record, codec, [], Key("payload"));
    assert [] + [Key("payload")] == PAYLOAD;
    assert Look(record, [], codec) == Some(record);
    KindIs(actual);
    hide Kind;
    hide KindOf;
    OneLocated(issue, record, r, codec, PAYLOAD);
  }

  lemma CompactedLocated(record: Value, r: nat, codec: Codec)
    requires record.Object?
    ensures AllLocated(DiagnoseCompacted(record, r, codec).issues, record, r, codec)
  {
    match Get(record, "payload")
    case Some(Object(fields)) =>
      var payload := Object(fields);
      var first := DiagnoseText(payload, r);
      TextGood(payload, r);
      MessageTextLocated(payload, record, r, codec);
      HistoryOfLocated(first.value, payload, record, r, codec);
      hide AllLocated;
      hide DiagnoseText;
      hide DiagnoseHistoryOf;
      LocatedConcat(first.issues, DiagnoseHistoryOf(first.value, r, codec).issues, record, r, codec);
    case payload => PayloadItselfLocated(payload, record, r, codec);
  }

  lemma RequiredLocated(key: string, path: string, payload: Value, record: Value, r: nat, codec: Codec)
    requires Get(record, "payload") == Some(payload) && path == "payload." + key && Expects(Key(key), "non-empty string")
    ensures AllLocated(RequireNonempty(payload, key, r).issues, record, r, codec)
  {
    NoneLocated(record, r, codec);
    PayloadIssue(key, path, "non-empty string", Get(payload, key), false, record, r, codec);
    hide AllLocated;
    hide Kind;
  }

  lemma ArgumentsLocated(payload: Value, record: Value, r: nat, codec: Codec)
    requires Get(record, "payload") == Some(payload) && payload.Object?
    ensures AllLocated(DiagnoseArguments(payload, r, codec).issues, record, r, codec)
  {
    NoneLocated(record, r, codec);
    assert "payload." + "arguments" == "payload.arguments";
    PayloadIssue("arguments", "payload.arguments", "JSON encoded as a string", Get(payload, "arguments"), true, record, r, codec);
    PayloadIssue("arguments", "payload.arguments", "JSON encoded as a string", Get(payload, "arguments"), false, record, r, codec);
    hide AllLocated;
    hide Kind;
  }

  lemma CallLocated(payload: Value, record: Value, r: nat, codec: Codec)
    requires Get(record, "payload") == Some(payload) && payload.Object?
    ensures AllLocated(DiagnoseFunctionCall(payload, r, codec).issues, record, r, codec)
  {
    assert "payload." + "call_id" == "payload.call_id" && "payload." + "name" == "payload.name";
    RequiredLocated("call_id", "payload.call_id", payload, record, r, codec);
    RequiredLocated("name", "payload.name", payload, record, r, codec);
    ArgumentsLocated(payload, record, r, codec);
    hide AllLocated;
    hide RequireNonempty;
    hide DiagnoseArguments;
    LocatedConcat(RequireNonempty(payload, "name", r).issues, DiagnoseArguments(payload, r, codec).issues, record, r, codec);
    LocatedConcat(RequireNonempty(payload, "call_id", r).issues,
      RequireNonempty(payload, "name", r).issues + DiagnoseArguments(payload, r, codec).issues, record, r, codec);
  }

  lemma OutputLocated(output: Value, record: Value, r: nat, codec: Codec)
    requires Get(record, "payload").Some? && Get(record.fields["payload"], "output") == Some(output)
    ensures AllLocated(NormalizeOutput(output, r, codec).issues, record, r, codec)
  {
    assert "payload." + "output" == "payload.output";
    NoneLocated(record, r, codec);
    PayloadIssue("output", "payload.output", "string or typed content array", Some(output), true, record, r, codec);
    PayloadField("output", "payload.output", record, codec);
    ContentLocated(output, "input_text", record, r, codec, PAYLOAD + [Key("output")]);
    hide AllLocated;
    hide NormalizeContent;
    hide Kind;
  }

  lemma ToolOutputLocated(payload: Value, record: Value, r: nat, codec: Codec)
    requires Get(record, "payload") == Some(payload) && payload.Object?
    ensures AllLocated(DiagnoseToolOutput(payload, r, codec).issues, record, r, codec)
  {
    assert "payload." + "call_id" == "payload.call_id" && "payload." + "output" == "payload.output";
    var id := RequireNonempty(payload, "call_id", r).issues;
    RequiredLocated("call_id", "payload.call_id", payload, record, r, codec);
    match Get(payload, "output")
    case None =>
      PayloadIssue("output", "payload.output", "string or typed content array", None, false, record, r, codec);
      LocatedConcat(id, [Issue(r, "payload.output", "string or typed content array", Kind(None), false)], record, r, codec);
    case Some(output) =>
      OutputLocated(output, record, r, codec);
      hide AllLocated;
      hide NormalizeOutput;
      hide RequireNonempty;
      LocatedConcat(id, NormalizeOutput(output, r, codec).issues, record, r, codec);
  }

  lemma ListIssueLocated(payload: Value, seen: Value, field: string, path: string, record: Value, r: nat, codec: Codec)
    requires Get(record, "payload") == Some(seen) && payload.Object? && Get(payload, field) == Get(seen, field)
    requires path == "payload." + field && Expects(Key(field), "array")
    ensures AllLocated(DiagnoseList(payload, field, r).issues, record, r, codec)
  {
    NoneLocated(record, r, codec);
    PayloadIssue(field, path, "array", Get(payload, field), true, record, r, codec);
    PayloadIssue(field, path, "array", Get(payload, field), false, record, r, codec);
    hide AllLocated;
  }

  lemma {:induction false} ListsLocated(payload: Value, seen: Value, fields: seq<string>, record: Value, r: nat, codec: Codec)
    requires Get(record, "payload") == Some(seen) && payload.Object? && AllDifferent(fields)
    requires forall i :: 0 <= i < |fields| ==> Expects(Key(fields[i]), "array") && Get(payload, fields[i]) == Get(seen, fields[i])
    ensures AllLocated(DiagnoseLists(payload, fields, r).issues, record, r, codec)
  {
    hide AllLocated;
    hide DiagnoseList;
    hide Expects;
    if fields == [] {
      NoneLocated(record, r, codec);
    } else {
      var n := |fields| - 1;
      var before := DiagnoseLists(payload, fields[..n], r);
      ListsLocated(payload, seen, fields[..n], record, r, codec);
      ListsKeepOthers(payload, fields[..n], r);
      assert fields[n] !in fields[..n];
      ListIssueLocated(before.value, seen, fields[n], "payload." + fields[n], record, r, codec);
      LocatedConcat(before.issues, DiagnoseList(before.value, fields[n], r).issues, record, r, codec);
    }
  }

  lemma UserMessageLocated(record: Value, r: nat, codec: Codec)
    requires record.Object?
    ensures AllLocated(DiagnoseUserMessage(record, r).issues, record, r, codec)
  {
    match Get(record, "payload")
    case Some(Object(fields)) =>
      var payload := Object(fields);
      var first := DiagnoseText(payload, r);
      TextGood(payload, r);
      MessageTextLocated(payload, record, r, codec);
      ListsExpect();
      hide Expects;
      hide AllLocated;
      hide DiagnoseText;
      hide DiagnoseLists;
      ListsLocated(first.value, payload, LISTS, record, r, codec);
      LocatedConcat(first.issues, DiagnoseLists(first.value, LISTS, r).issues, record, r, codec);
    case _ => NoneLocated(record, r, codec);
  }

  /** Every issue reported for a record carries the record's number, and a path to the value it speaks of, whose kind it names. */
  lemma IssuesAreLocated(record: Value, r: nat, codec: Codec)
    ensures AllLocated(DiagnoseRecord(record, r, codec).issues, record, r, codec)
  {
    hide AllLocated;
    hide DiagnoseCompacted;
    hide DiagnoseMessage;
    hide DiagnoseFunctionCall;
    hide DiagnoseToolOutput;
    hide DiagnoseUserMessage;
    match CheckOf(record)
    case Compacted => CompactedLocated(record, r, codec);
    case BareResponse => PayloadItselfLocated(None, record, r, codec);
    case Message =>
      PayloadStands(record, codec);
      MessageLocated(record.fields["payload"], record, r, codec, PAYLOAD);
    case FunctionCall => CallLocated(record.fields["payload"], record, r, codec);
    case ToolOutput => ToolOutputLocated(record.fields["payload"], record, r, codec);
    case UserMessage => UserMessageLocated(record, r, codec);
    case Unchecked => NoneLocated(record, r, codec);
  }

  // ---- All records ----

  function OfRecord(issues: seq<Issue>, r: nat): seq<Issue> {
    if issues == [] then []
    else
      var before, last := OfRecord(issues[..|issues| - 1], r), issues[|issues| - 1];
      if last.recordIndex == r then before + [last] else before
  }

  predicate AllOf(issues: seq<Issue>, r: nat) {
    forall i :: 0 <= i < |issues| ==> issues[i].recordIndex == r
  }

  lemma {:induction false} OfRecordConcat(a: seq<Issue>, b: seq<Issue>, n: nat, r: nat)
    requires AllOf(b, n)
    ensures OfRecord(a + b, r) == OfRecord(a, r) + if n == r then b else []
  {
    if b == [] {
      assert a + b == a;
    } else {
      var last := b[|b| - 1];
      assert (a + b)[..|a + b| - 1] == a + b[..|b| - 1];
      OfRecordConcat(a, b[..|b| - 1], n, r);
    }
  }

  lemma LocatedAreOf(issues: seq<Issue>, record: Value, r: nat, codec: Codec)
    requires AllLocated(issues, record, r, codec)
    ensures AllOf(issues, r)
  {
    forall i | 0 <= i < |issues| ensures issues[i].recordIndex == r {
      var steps :| Located(issues[i], record, r, codec, steps);
    }
  }

  /** The issues come in the order of their records, and those of each record are the ones its own diagnosis reports. */
  lemma {:induction false} IssuesByRecord(records: seq<Value>, codec: Codec, r: nat)
    ensures var issues := MD.AllIssues(records, codec);
            && (forall i, j :: 0 <= i < j < |issues| ==> issues[i].recordIndex <= issues[j].recordIndex)
            && (forall i :: 0 <= i < |issues| ==> issues[i].recordIndex < |records|)
            && OfRecord(issues, r) == if r < |records| then DiagnoseRecord(records[r], r, codec).issues else []
  {
    hide DiagnoseRecord;
    if records != [] {
      var n := |records| - 1;
      IssuesByRecord(records[..n], codec, r);
      IssuesAreLocated(records[n], n, codec);
      LocatedAreOf(DiagnoseRecord(records[n], n, codec).issues, records[n], n, codec);
      OfRecordConcat(MD.AllIssues(records[..n], codec), DiagnoseRecord(records[n], n, codec).issues, n, r);
    }
  }

  // ---- Which records are checked ----

  /** By the type of the record and of its payload. */
  predicate Checked(record: Value) {
    var kind := MR.TypeOf(record);
    || kind == "compacted"
    || (kind == "response_item" &&
          ("payload" !in record.fields ||
           MR.TypeOf(record.fields["payload"]) in {"message", "function_call", "function_call_output", "custom_tool_call_output"}))
    || (kind == "event_msg" && "payload" in record.fields && MR.TypeOf(record.fields["payload"]) == "user_message")
  }

  lemma CheckedIff(record: Value)
    ensures CheckOf(record).Unchecked? <==> !Checked(record)
  {
  }

  ghost function CheckedRecords(records: seq<Value>): set<nat> {
    set i: nat | i < |records| && Checked(records[i])
  }

  /** The number reported is that of the records checked. */
  lemma {:induction false} CheckedAreCounted(records: seq<Value>)
    ensures MD.CheckedCount(records) == |CheckedRecords(records)|
  {
    hide CheckOf;
    hide Checked;
    if records != [] {
      var n := |records| - 1;
      CheckedAreCounted(records[..n]);
      CheckedIff(records[n]);
      assert CheckedRecords(records[..n]) == CheckedRecords(records) - {n};
    }
  }

  // ---- Lists and histories ----

  /** The lists of a user message: null becomes the empty list, and nothing else changes. */
  lemma {:induction false} ListsAreSettled(payload: Value, fields: seq<string>, r: nat, key: string)
    requires payload.Object? && AllDifferent(fields)
    ensures Get(DiagnoseLists(payload, fields, r).value, key) ==
              if key in fields && Get(payload, key) == Some(Null) then Some(Array([])) else Get(payload, key)
  {
    if fields != [] {
      var n := |fields| - 1;
      ListsAreSettled(payload, fields[..n], r, key);
      ListsAreSettled(payload, fields[..n], r, fields[n]);
      assert fields == fields[..n] + [fields[n]];
      assert fields[n] !in fields[..n];
    }
  }

  /** A history stands for the messages listed in it, for the one it is, or for those its text encodes. */
  lemma HistoryStandsFor(history: Value, codec: Codec)
    ensures history.Array? ==> HistoryMessages(history, codec) == Some(history.items)
    ensures history.Object? ==> HistoryMessages(history, codec) == Some([history])
    ensures history.String? && codec.parse(history.text).Some? && (codec.parse(history.text).value.Array? || codec.parse(history.text).value.Object?) ==>
              HistoryMessages(history, codec) == HistoryMessages(codec.parse(history.text).value, codec)
    ensures HistoryMessages(history, codec).Some? <==>
              || history.Array? || history.Object?
              || (history.String? && codec.parse(history.text).Some?
                  && (codec.parse(history.text).value.Array? || codec.parse(history.text).value.Object?))
  {
  }
}
