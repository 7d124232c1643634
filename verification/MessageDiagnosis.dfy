/** The diagnosis as it is run: one object collects issues and rewritten records while each value is rewritten step by step. */
module MessageDiagnosis {
  import opened Prelude
  import opened Text
  import opened Json
  import opened Joining
  import opened MessageFormat
  import opened MessageTheorems

  function AllIssues(records: seq<Value>, codec: Codec): seq<Issue> {
    if records == [] then []
    else
      var n := |records| - 1;
      AllIssues(records[..n], codec) + DiagnoseRecord(records[n], n, codec).issues
  }

  function CheckedCount(records: seq<Value>): nat {
    if records == [] then 0
    else CheckedCount(records[..|records| - 1]) + if CheckOf(records[|records| - 1]).Unchecked? then 0 else 1
  }

  /** The records after every rewritten one has been put in place. */
  function Rewritten(records: seq<Value>, codec: Codec): seq<Value> {
    seq(|records|, r requires 0 <= r < |records| => DiagnoseRecord(records[r], r, codec).value)
  }

  /** Diagnosing a rewritten file again rewrites nothing and reports exactly the issues left open, in order. */
  lemma {:induction false} DiagnosisIsProjection(records: seq<Value>, codec: Codec)
    ensures AllIssues(Rewritten(records, codec), codec) == Unrepaired(AllIssues(records, codec))
    ensures Rewritten(Rewritten(records, codec), codec) == Rewritten(records, codec)
    ensures CheckedCount(Rewritten(records, codec)) == CheckedCount(records)
  {
    hide DiagnoseRecord;
    hide CheckOf;
    var after := Rewritten(records, codec);
    forall r | 0 <= r < |records| ensures Rewritten(after, codec)[r] == after[r] {
      RecordGood(records[r], r, codec);
    }
    if records != [] {
      var n := |records| - 1;
      DiagnosisIsProjection(records[..n], codec);
      assert after[..n] == Rewritten(records[..n], codec);
      RecordGood(records[n], n, codec);
      UnrepairedConcat(AllIssues(records[..n], codec), DiagnoseRecord(records[n], n, codec).issues);
    }
  }

  /** The texts joined by line feeds, or None; the loop stops at the first item without text. */
  method FlattenedText(value: Value) returns (r: Option<string>)
    ensures r == FlattenText(value)
  {
    match value {
      case String(text) => return Some(text);
      case Array(items) =>
        var texts: seq<string> := [];
        for i := 0 to |items|
          invariant Texts(items[..i]) == Some(texts)
        {
          assert items[..i + 1][..i] == items[..i];
          var text := if items[i].String? then Some(items[i].text) else StringAt(items[i], "text");
          if text.None? {
            StopsAt(items, i + 1);
            return None;
          }
          texts := texts + [text.value];
        }
        assert items[..|items|] == items;
        return if texts == [] then None else Some(Joined(texts, "\n"));
      case Object(_) => return StringAt(value, "text");
      case _ => return None;
    }
  }

  lemma {:induction false} StopsAt(items: seq<Value>, i: nat)
    requires i <= |items| && Texts(items[..i]).None?
    ensures Texts(items).None?
    decreases |items| - i
  {
    if i == |items| {
      assert items[..i] == items;
    } else {
      assert items[..i + 1][..i] == items[..i];
      StopsAt(items, i + 1);
    }
  }

  lemma EachStep(items: seq<Value>, fix: Fix, i: nat)
    requires i < |items|
    ensures var before, after := Each(items[..i], fix), Each(items[..i + 1], fix);
            && after.values == before.values + [fix(i, items[i]).value]
            && after.issues == before.issues + fix(i, items[i]).issues
  {
    assert items[..i + 1][..i] == items[..i];
  }

  lemma NoneYet(items: seq<Value>, fix: Fix)
    ensures Each(items[..0], fix) == Outcomes([], [])
  {
  }

  class Diagnosis {
    var checkedRecords: nat
    var issues: seq<Issue>
    var repairedValues: map<nat, Value>

    constructor ()
      ensures checkedRecords == 0 && issues == [] && repairedValues == map[]
    {
      checkedRecords, issues, repairedValues := 0, [], map[];
    }

    method Push(r: nat, path: string, expected: string, actual: Option<Value>, repaired: bool)
      modifies this`issues
      ensures issues == old(issues) + [Issue(r, path, expected, Kind(actual), repaired)]
    {
      issues := issues + [Issue(r, path, expected, Kind(actual), repaired)];
    }

    method NormalizeContentItem(item: Value, r: nat, path: string, expected: string) returns (after: Value)
      modifies this`issues
      ensures after == NormalizeItem(item, r, path, expected).value
      ensures issues == old(issues) + NormalizeItem(item, r, path, expected).issues
    {
      after := item;
      if item.String? {
        Push(r, path, "typed content object", Some(item), true);
        return TextItem(expected, item.text);
      }
      if !item.Object? {
        Push(r, path, "typed content object", Some(item), false);
        return;
      }
      var itemType := StringAt(item, "type");
      if (itemType.None? && StringAt(item, "text").Some?) || (itemType.Some? && OtherTextType(itemType.value, expected)) {
        Push(r, path + ".type", expected, if itemType.None? then None else Get(item, "type"), true);
        after := With(item, "type", String(expected));
      } else if itemType == Some("input_image") && expected == "input_text" {
        if StringAt(item, "image_url").None? {
          Push(r, path + ".image_url", "string", Get(item, "image_url"), false);
        }
        return;
      } else if itemType == Some("refusal") && expected == "output_text" {
        if StringAt(item, "refusal").None? {
          Push(r, path + ".refusal", "string", Get(item, "refusal"), false);
        }
        return;
      } else if itemType != Some(expected) {
        Push(r, path + ".type", expected, Get(item, "type"), false);
        return;
      }
      if StringAt(after, "text").None? {
        var text := StringAt(after, "content");
        Push(r, path + ".text", "string", Get(after, "text"), text.Some?);
        if text.Some? {
          after := With(Without(after, "content"), "text", String(text.value));
        }
      }
    }

    method NormalizeContentItems(items: seq<Value>, r: nat, path: string, expected: string) returns (fixed: seq<Value>)
      modifies this`issues
      ensures fixed == Each(items, ItemFix(r, path, expected)).values
      ensures issues == old(issues) + Each(items, ItemFix(r, path, expected)).issues
    {
      hide NormalizeItem;
      hide Each;
      fixed := [];
      NoneYet(items, ItemFix(r, path, expected));
      for i := 0 to |items|
        invariant fixed == Each(items[..i], ItemFix(r, path, expected)).values
        invariant issues == old(issues) + Each(items[..i], ItemFix(r, path, expected)).issues
      {
        EachStep(items, ItemFix(r, path, expected), i);
        var item := NormalizeContentItem(items[i], r, Indexed(path, i), expected);
        fixed := fixed + [item];
      }
      assert items[..|items|] == items;
    }

    method NormalizeContentContainer(content: Value, r: nat, path: string, expected: string) returns (after: Value)
      modifies this`issues
      ensures after == NormalizeContent(content, r, path, expected).value
      ensures issues == old(issues) + NormalizeContent(content, r, path, expected).issues
    {
      after := content;
      if !content.Array? {
        var repaired := content.String? || content.Object?;
        Push(r, path, CONTENT, Some(content), repaired);
        if !repaired {
          return;
        }
        after := Array([if content.String? then TextItem(expected, content.text) else content]);
      }
      if after.items == [] {
        Push(r, path, CONTENT, Some(after), false);
        return;
      }
      var fixed := NormalizeContentItems(after.items, r, path, expected);
      after := Array(fixed);
    }

    method DiagnoseMessageAt(message: Value, r: nat, path: string) returns (after: Value)
      modifies this`issues
      ensures after == DiagnoseMessage(message, r, path).value
      ensures issues == old(issues) + DiagnoseMessage(message, r, path).issues
    {
      after := message;
      if !message.Object? {
        Push(r, path, "message object", Some(message), false);
        return;
      }
      var messageType := StringAt(message, "type");
      if messageType != Some("message") {
        var bare := messageType.None? && Get(message, "role").Some? && Get(message, "content").Some?;
        Push(r, path + ".type", "message", Get(message, "type"), bare);
        if !bare {
          return;
        }
        after := With(message, "type", String("message"));
      }
      var role := StringAt(after, "role");
      if role.None? || !IsRole(role.value) {
        Push(r, path + ".role", "assistant, user, developer, or system", Get(after, "role"), false);
        return;
      }
      var content := Get(after, "content");
      if content.None? {
        Push(r, path + ".content", CONTENT, None, false);
        return;
      }
      var fixed := NormalizeContentContainer(content.value, r, path + ".content", TextType(role.value));
      after := With(after, "content", fixed);
    }

    method DiagnoseMessageText(payload: Value, r: nat) returns (after: Value)
      requires payload.Object?
      modifies this`issues
      ensures after == DiagnoseText(payload, r).value
      ensures issues == old(issues) + DiagnoseText(payload, r).issues
    {
      after := payload;
      var message := Get(payload, "message");
      if message.None? {
        Push(r, "payload.message", "string", None, false);
      } else if !message.value.String? {
        var replacement := FlattenedText(message.value);
        Push(r, "payload.message", "string", message, replacement.Some?);
        if replacement.Some? {
          after := With(payload, "message", String(replacement.value));
        }
      }
    }

    method NormalizeHistoryContainer(history: Value, r: nat, codec: Codec) returns (after: Value)
      modifies this`issues
      ensures match HistoryMessages(history, codec)
              case Some(messages) => after == Array(messages)
              case None => after == history && !history.Array?
      ensures issues == old(issues) + if history.Array? then [] else
                [Issue(r, HISTORY, "array of message objects", Kind(Some(history)), HistoryMessages(history, codec).Some?)]
    {
      after := history;
      if history.Array? {
        return;
      }
      var replacement := None;
      if history.Object? {
        replacement := Some(Array([history]));
      } else if history.String? {
        var parsed := codec.parse(history.text);
        if parsed.Some? && parsed.value.Array? {
          replacement := parsed;
        } else if parsed.Some? && parsed.value.Object? {
          replacement := Some(Array([parsed.value]));
        }
      }
      Push(r, HISTORY, "array of message objects", Some(history), replacement.Some?);
      if replacement.Some? {
        after := replacement.value;
      }
    }

    method DiagnoseEachMessage(messages: seq<Value>, r: nat) returns (fixed: seq<Value>)
      modifies this`issues
      ensures fixed == Each(messages, MessageFix(r)).values
      ensures issues == old(issues) + Each(messages, MessageFix(r)).issues
    {
      hide DiagnoseMessage;
      hide Each;
      fixed := [];
      NoneYet(messages, MessageFix(r));
      for i := 0 to |messages|
        invariant fixed == Each(messages[..i], MessageFix(r)).values
        invariant issues == old(issues) + Each(messages[..i], MessageFix(r)).issues
      {
        EachStep(messages, MessageFix(r), i);
        var message := DiagnoseMessageAt(messages[i], r, Indexed(HISTORY, i));
        fixed := fixed + [message];
      }
      assert messages[..|messages|] == messages;
    }

    method DiagnoseHistoryAt(history: Value, r: nat, codec: Codec) returns (after: Value)
      modifies this`issues
      ensures after == DiagnoseHistory(history, r, codec).value
      ensures issues == old(issues) + DiagnoseHistory(history, r, codec).issues
    {
      hide Each;
      hide MessageFix;
      after := NormalizeHistoryContainer(history, r, codec);
      if !after.Array? {
        return;
      }
      if after.items == [] {
        Push(r, HISTORY, "non-empty array of message objects", Some(after), false);
        return;
      }
      var fixed := DiagnoseEachMessage(after.items, r);
      after := Array(fixed);
    }

    method DiagnoseCompactedRecord(record: Value, r: nat, codec: Codec) returns (after: Value)
      requires record.Object?
      modifies this`issues
      ensures after == DiagnoseCompacted(record, r, codec).value
      ensures issues == old(issues) + DiagnoseCompacted(record, r, codec).issues
    {
      hide DiagnoseText;
      hide DiagnoseHistory;
      after := record;
      var payload := Get(record, "payload");
      if payload.None? || !payload.value.Object? {
        Push(r, "payload", "object", payload, false);
        return;
      }
      var fixed := DiagnoseMessageText(payload.value, r);
      var history := Get(fixed, "replacement_history");
      if history.None? {
        Push(r, HISTORY, "array of message objects", None, false);
      } else {
        var repaired := DiagnoseHistoryAt(history.value, r, codec);
        fixed := With(fixed, "replacement_history", repaired);
      }
      after := With(record, "payload", fixed);
    }

    method RequireNonemptyString(payload: Value, key: string, r: nat)
      modifies this`issues
      ensures issues == old(issues) + RequireNonempty(payload, key, r).issues
    {
      var text := StringAt(payload, key);
      if text.None? || text.value == "" {
        Push(r, "payload." + key, "non-empty string", Get(payload, key), false);
      }
    }

    method DiagnoseFunctionCallPayload(payload: Value, r: nat, codec: Codec) returns (after: Value)
      requires payload.Object?
      modifies this`issues
      ensures after == DiagnoseFunctionCall(payload, r, codec).value
      ensures issues == old(issues) + DiagnoseFunctionCall(payload, r, codec).issues
    {
      after := payload;
      RequireNonemptyString(payload, "call_id", r);
      RequireNonemptyString(payload, "name", r);
      var arguments := Get(payload, "arguments");
      if arguments.None? {
        Push(r, "payload.arguments", "JSON encoded as a string", None, false);
      } else if !arguments.value.String? {
        Push(r, "payload.arguments", "JSON encoded as a string", arguments, true);
        after := With(payload, "arguments", String(codec.write(arguments.value)));
      }
    }

    method DiagnoseToolOutputPayload(payload: Value, r: nat, codec: Codec) returns (after: Value)
      requires payload.Object?
      modifies this`issues
      ensures after == DiagnoseToolOutput(payload, r, codec).value
      ensures issues == old(issues) + DiagnoseToolOutput(payload, r, codec).issues
    {
      after := payload;
      RequireNonemptyString(payload, "call_id", r);
      var output := Get(payload, "output");
      if output.None? {
        Push(r, "payload.output", "string or typed content array", None, false);
        return;
      }
      var fixed := output.value;
      if output.value.String? {
      } else if output.value.Array? || Get(output.value, "type").Some? || Get(output.value, "text").Some? {
        fixed := NormalizeContentContainer(output.value, r, "payload.output", "input_text");
      } else {
        Push(r, "payload.output", "string or typed content array", output, true);
        fixed := String(codec.write(output.value));
      }
      WithSame(payload, "output");
      after := With(payload, "output", fixed);
    }

    method DiagnoseUserMessageRecord(record: Value, r: nat) returns (after: Value)
      requires record.Object?
      modifies this`issues
      ensures after == DiagnoseUserMessage(record, r).value
      ensures issues == old(issues) + DiagnoseUserMessage(record, r).issues
    {
      after := record;
      var payload := Get(record, "payload");
      if payload.None? || !payload.value.Object? {
        return;
      }
      var text := DiagnoseMessageText(payload.value, r);
      var fixed := text;
      ghost var start := issues;
      for i := 0 to |LISTS|
        invariant fixed.Object?
        invariant Outcome(fixed, issues) == Then(Outcome(text, start), DiagnoseLists(text, LISTS[..i], r))
      {
        assert LISTS[..i + 1][..i] == LISTS[..i];
        var list := Get(fixed, LISTS[i]);
        if list.Some? && !list.value.Array? {
          Push(r, "payload." + LISTS[i], "array", list, list.value.Null?);
          if list.value.Null? {
            fixed := With(fixed, LISTS[i], Array([]));
          }
        }
      }
      assert LISTS[..|LISTS|] == LISTS;
      after := With(record, "payload", fixed);
    }

    method DiagnoseOne(record: Value, r: nat, codec: Codec) returns (after: Value, checked: bool)
      modifies this`issues
      ensures after == DiagnoseRecord(record, r, codec).value && checked == !CheckOf(record).Unchecked?
      ensures issues == old(issues) + DiagnoseRecord(record, r, codec).issues
    {
      after, checked := record, true;
      match CheckOf(record) {
        case Compacted => after := DiagnoseCompactedRecord(record, r, codec);
        case BareResponse => Push(r, "payload", "object", None, false);
        case Message =>
          var fixed := DiagnoseMessageAt(record.fields["payload"], r, "payload");
          after := With(record, "payload", fixed);
        case FunctionCall =>
          var fixed := DiagnoseFunctionCallPayload(record.fields["payload"], r, codec);
          after := With(record, "payload", fixed);
        case ToolOutput =>
          var fixed := DiagnoseToolOutputPayload(record.fields["payload"], r, codec);
          after := With(record, "payload", fixed);
        case UserMessage => after := DiagnoseUserMessageRecord(record, r);
        case Unchecked => checked := false;
      }
    }

    /** The changed records among the first n, with their new values. */
    ghost predicate HoldsChanges(records: seq<Value>, codec: Codec, n: nat)
      requires n <= |records|
      reads this
    {
      forall r: nat ::
        && (r in repairedValues <==> r < n && DiagnoseRecord(records[r], r, codec).value != records[r])
        && (r in repairedValues ==> repairedValues[r] == DiagnoseRecord(records[r], r, codec).value)
    }

    method DiagnoseNext(record: Value, r: nat, codec: Codec)
      modifies this
      ensures issues == old(issues) + DiagnoseRecord(record, r, codec).issues
      ensures checkedRecords == old(checkedRecords) + if CheckOf(record).Unchecked? then 0 else 1
      ensures repairedValues == if DiagnoseRecord(record, r, codec).value != record
                                then old(repairedValues)[r := DiagnoseRecord(record, r, codec).value]
                                else old(repairedValues)
    {
      hide DiagnoseRecord;
      hide CheckOf;
      var start := |issues|;
      var value, checked := DiagnoseOne(record, r, codec);
      if checked {
        checkedRecords := checkedRecords + 1;
      }
      assert issues[start..] == DiagnoseRecord(record, r, codec).issues;
      ChangedIffRepaired(record, r, codec);
      if value != record && AnyRepaired(issues[start..]) {
        repairedValues := repairedValues[r := value];
      }
    }

    /** A fresh diagnosis run over all records: every issue in order, and exactly the changed records are kept. */
    method DiagnoseRecords(records: seq<Value>, codec: Codec)
      requires checkedRecords == 0 && issues == [] && repairedValues == map[]
      modifies this
      ensures issues == AllIssues(records, codec) && checkedRecords == CheckedCount(records)
      ensures HoldsChanges(records, codec, |records|)
    {
      hide DiagnoseRecord;
      hide CheckOf;
      for i := 0 to |records|
        invariant issues == AllIssues(records[..i], codec) && checkedRecords == CheckedCount(records[..i])
        invariant HoldsChanges(records, codec, i)
      {
        assert records[..i + 1][..i] == records[..i];
        DiagnoseNext(records[i], i, codec);
      }
      assert records[..|records|] == records;
    }
  }
}
