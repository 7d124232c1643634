/** The normaliser is a projection onto the valid records, and changes a record exactly when it reports a repair. */
module MessageTheorems {
  import opened Prelude
  import opened Text
  import opened Json
  import opened MessageFormat

  function Unrepaired(issues: seq<Issue>): seq<Issue> {
    if issues == [] then []
    else
      var n := |issues| - 1;
      Unrepaired(issues[..n]) + if issues[n].repaired then [] else [issues[n]]
  }

  predicate AnyRepaired(issues: seq<Issue>) {
    exists i :: 0 <= i < |issues| && issues[i].repaired
  }

  lemma {:induction false} UnrepairedConcat(a: seq<Issue>, b: seq<Issue>)
    ensures Unrepaired(a + b) == Unrepaired(a) + Unrepaired(b)
  {
    if b == [] {
      assert a + b == a;
    } else {
      var n := |b| - 1;
      assert (a + b)[..|a + b| - 1] == a + b[..n];
      UnrepairedConcat(a, b[..n]);
    }
  }

  lemma AnyRepairedConcat(a: seq<Issue>, b: seq<Issue>)
    ensures AnyRepaired(a + b) <==> AnyRepaired(a) || AnyRepaired(b)
  {
    if AnyRepaired(a) {
      var i :| 0 <= i < |a| && a[i].repaired;
      assert (a + b)[i].repaired;
    }
    if AnyRepaired(b) {
      var i :| 0 <= i < |b| && b[i].repaired;
      assert (a + b)[|a| + i].repaired;
    }
  }

  lemma {:induction false} NothingRepaired(issues: seq<Issue>)
    ensures Unrepaired(issues) == issues <==> !AnyRepaired(issues)
    ensures |Unrepaired(issues)| <= |issues|
  {
    if issues != [] {
      var n := |issues| - 1;
      NothingRepaired(issues[..n]);
      assert issues == issues[..n] + [issues[n]];
      AnyRepairedConcat(issues[..n], [issues[n]]);
      assert [issues[n]][0] == issues[n];
    }
  }

  /** A check that gave o for value gives again on the rewritten value: the same value, and the issues left open. */
  ghost predicate Good(value: Value, o: Outcome, again: Outcome) {
    && again == Outcome(o.value, Unrepaired(o.issues))
    && (!AnyRepaired(o.issues) ==> o.value == value)
  }

  lemma SingleIssue(issue: Issue)
    ensures Unrepaired([issue]) == if issue.repaired then [] else [issue]
    ensures AnyRepaired([issue]) == issue.repaired
  {
    assert [issue][..0] == [];
    assert [issue][0] == issue;
  }

  lemma PrefixIssues(issue: Issue, rest: seq<Issue>)
    ensures Unrepaired([issue] + rest) == (if issue.repaired then [] else [issue]) + Unrepaired(rest)
    ensures issue.repaired ==> AnyRepaired([issue] + rest)
  {
    SingleIssue(issue);
    UnrepairedConcat([issue], rest);
    AnyRepairedConcat([issue], rest);
  }

  // ---- Items ----

  predicate IsTextType(expected: string) {
    expected == "input_text" || expected == "output_text"
  }

  lemma TextFix(item: Value, r: nat, path: string)
    requires item.Object?
    ensures Good(item, FixText(item, r, path), FixText(FixText(item, r, path).value, r, path))
    ensures Get(FixText(item, r, path).value, "type") == Get(item, "type")
  {
    var o := FixText(item, r, path);
    if o.issues != [] {
      SingleIssue(o.issues[0]);
    }
  }

  lemma RetypeFix(item: Value, r: nat, path: string, expected: string, actual: Option<Value>)
    requires item.Object? && IsTextType(expected)
    ensures var o := Retype(item, r, path, expected, actual);
            Good(item, o, NormalizeObject(o.value, r, path, expected)) && o.value.Object?
  {
    var typed := With(item, "type", String(expected));
    TextFix(typed, r, path);
    var fixed := FixText(typed, r, path);
    PrefixIssues(Issue(r, path + ".type", expected, Kind(actual), true), fixed.issues);
  }

  lemma TextFixIsObject(item: Value, r: nat, path: string)
    requires item.Object?
    ensures FixText(item, r, path).value.Object?
  {
  }

  lemma ObjectFix(item: Value, r: nat, path: string, expected: string)
    requires item.Object? && IsTextType(expected)
    ensures var o := NormalizeObject(item, r, path, expected);
            o.value.Object? && Good(item, o, NormalizeObject(o.value, r, path, expected))
  {
    hide FixText;
    hide Retype;
    TextFix(item, r, path);
    RetypeFix(item, r, path, expected, None);
    RetypeFix(item, r, path, expected, Get(item, "type"));
    var o := NormalizeObject(item, r, path, expected);
    if o.issues != [] {
      SingleIssue(o.issues[0]);
    }
    TextFixIsObject(item, r, path);
  }

  lemma TextItemIsFixed(r: nat, path: string, expected: string, text: string)
    requires IsTextType(expected)
    ensures NormalizeObject(TextItem(expected, text), r, path, expected) == Outcome(TextItem(expected, text), [])
  {
    var item := TextItem(expected, text);
    assert StringAt(item, "type") == Some(expected) && StringAt(item, "text") == Some(text);
    assert !OtherTextType(expected, expected);
  }

  lemma ItemGood(item: Value, r: nat, path: string, expected: string)
    requires IsTextType(expected)
    ensures var o := NormalizeItem(item, r, path, expected);
            Good(item, o, NormalizeItem(o.value, r, path, expected))
  {
    hide NormalizeObject;
    match item
    case Object(_) => ObjectFix(item, r, path, expected);
    case String(text) =>
      SingleIssue(Issue(r, path, "typed content object", "string", true));
      TextItemIsFixed(r, path, expected, text);
    case _ => SingleIssue(Issue(r, path, "typed content object", Kind(Some(item)), false));
  }

  // ---- Lists ----

  ghost predicate GoodFix(fix: Fix) {
    forall i: nat, item: Value :: Good(item, fix(i, item), fix(i, fix(i, item).value))
  }

  lemma {:induction false} EachGood(items: seq<Value>, fix: Fix)
    requires GoodFix(fix)
    ensures var o := Each(items, fix);
            && Each(o.values, fix) == Outcomes(o.values, Unrepaired(o.issues))
            && (!AnyRepaired(o.issues) ==> o.values == items)
  {
    if items != [] {
      var n := |items| - 1;
      var before, last := Each(items[..n], fix), fix(n, items[n]);
      EachGood(items[..n], fix);
      assert Each(items, fix).values[..n] == before.values;
      assert Good(items[n], last, fix(n, last.value));
      UnrepairedConcat(before.issues, last.issues);
      AnyRepairedConcat(before.issues, last.issues);
      assert items == items[..n] + [items[n]];
    }
  }

  lemma ItemFixGood(r: nat, path: string, expected: string)
    requires IsTextType(expected)
    ensures GoodFix(ItemFix(r, path, expected))
  {
    forall i: nat, item: Value
      ensures var fix := ItemFix(r, path, expected); Good(item, fix(i, item), fix(i, fix(i, item).value))
    {
      ItemGood(item, r, Indexed(path, i), expected);
    }
  }

  // ---- Content ----

  lemma ItemsGood(content: Value, r: nat, path: string, expected: string)
    requires content.Array? && IsTextType(expected)
    ensures var o := NormalizeItems(content, r, path, expected);
            o.value.Array? && Good(content, o, NormalizeItems(o.value, r, path, expected))
  {
    if content.items == [] {
      SingleIssue(NormalizeItems(content, r, path, expected).issues[0]);
    } else {
      ItemFixGood(r, path, expected);
      EachGood(content.items, ItemFix(r, path, expected));
    }
  }

  lemma ContentGood(content: Value, r: nat, path: string, expected: string)
    requires IsTextType(expected)
    ensures var o := NormalizeContent(content, r, path, expected);
            && Good(content, o, NormalizeContent(o.value, r, path, expected))
            && (o.value.Array? || o.value == content)
  {
    hide NormalizeItems;
    hide TextItem;
    var repaired := Issue(r, path, CONTENT, Kind(Some(content)), true);
    match content
    case Array(_) => ItemsGood(content, r, path, expected);
    case String(text) =>
      var inner := Array([TextItem(expected, text)]);
      ItemsGood(inner, r, path, expected);
      PrefixIssues(repaired, NormalizeItems(inner, r, path, expected).issues);
    case Object(_) =>
      ItemsGood(Array([content]), r, path, expected);
      PrefixIssues(repaired, NormalizeItems(Array([content]), r, path, expected).issues);
    case _ => SingleIssue(Issue(r, path, CONTENT, Kind(Some(content)), false));
  }

  // ---- Messages ----

  lemma WithSame(value: Value, key: string)
    requires value.Object? && key in value.fields
    ensures With(value, key, value.fields[key]) == value
  {
    assert value.fields[key := value.fields[key]] == value.fields;
  }

  lemma InsideGood(value: Value, key: string, inner: Value, o: Outcome, again: Outcome)
    requires value.Object? && Get(value, key) == Some(inner) && Good(inner, o, again)
    ensures Get(With(value, key, o.value), key) == Some(o.value)
    ensures Good(value, Inside(value, key, o), Inside(With(value, key, o.value), key, again))
  {
    WithSame(value, key);
    WithSame(With(value, key, o.value), key);
  }

  lemma TypedGood(message: Value, r: nat, path: string)
    requires message.Object?
    ensures var o := DiagnoseTyped(message, r, path);
            && o.value.Object? && Get(o.value, "type") == Get(message, "type")
            && Good(message, o, DiagnoseTyped(o.value, r, path))
  {
    hide NormalizeContent;
    var role, o := StringAt(message, "role"), DiagnoseTyped(message, r, path);
    if role.Some? && IsRole(role.value) && Get(message, "content").Some? {
      var content := message.fields["content"];
      ContentGood(content, r, path + ".content", TextType(role.value));
      var inner := NormalizeContent(content, r, path + ".content", TextType(role.value));
      InsideGood(message, "content", content, inner, NormalizeContent(inner.value, r, path + ".content", TextType(role.value)));
    } else {
      SingleIssue(o.issues[0]);
    }
  }

  lemma MessageGood(message: Value, r: nat, path: string)
    ensures var o := DiagnoseMessage(message, r, path);
            Good(message, o, DiagnoseMessage(o.value, r, path))
  {
    hide DiagnoseTyped;
    var o := DiagnoseMessage(message, r, path);
    if message.Object? {
      var typed := With(message, "type", String("message"));
      TypedGood(message, r, path);
      TypedGood(typed, r, path);
      PrefixIssues(Issue(r, path + ".type", "message", Kind(Get(message, "type")), true), DiagnoseTyped(typed, r, path).issues);
    }
    if o.issues != [] {
      SingleIssue(o.issues[0]);
    }
  }

  lemma MessageFixGood(r: nat)
    ensures GoodFix(MessageFix(r))
  {
    forall i: nat, message: Value
      ensures var fix := MessageFix(r); Good(message, fix(i, message), fix(i, fix(i, message).value))
    {
      MessageGood(message, r, Indexed(HISTORY, i));
    }
  }

  // ---- Compacted records ----

  lemma TextGood(payload: Value, r: nat)
    requires payload.Object?
    ensures var o := DiagnoseText(payload, r);
            o.value.Object? && Good(payload, o, DiagnoseText(o.value, r))
    ensures forall key :: key != "message" ==> Get(DiagnoseText(payload, r).value, key) == Get(payload, key)
  {
    hide FlattenText;
    var o := DiagnoseText(payload, r);
    if o.issues != [] {
      SingleIssue(o.issues[0]);
    }
  }

  lemma MessagesGood(messages: seq<Value>, r: nat)
    ensures var o := DiagnoseMessages(messages, r);
            && o.value.Array? && DiagnoseMessages(o.value.items, r) == Outcome(o.value, Unrepaired(o.issues))
            && (!AnyRepaired(o.issues) ==> o.value == Array(messages))
  {
    if messages == [] {
      SingleIssue(DiagnoseMessages(messages, r).issues[0]);
    } else {
      MessageFixGood(r);
      EachGood(messages, MessageFix(r));
    }
  }

  lemma HistoryGood(history: Value, r: nat, codec: Codec)
    ensures var o := DiagnoseHistory(history, r, codec);
            Good(history, o, DiagnoseHistory(o.value, r, codec))
  {
    hide DiagnoseMessages;
    match HistoryMessages(history, codec)
    case None => SingleIssue(DiagnoseHistory(history, r, codec).issues[0]);
    case Some(messages) =>
      MessagesGood(messages, r);
      PrefixIssues(Issue(r, HISTORY, "array of message objects", Kind(Some(history)), true), DiagnoseMessages(messages, r).issues);
  }

  lemma HistoryOfGood(payload: Value, r: nat, codec: Codec)
    requires payload.Object?
    ensures var o := DiagnoseHistoryOf(payload, r, codec);
            o.value.Object? && Good(payload, o, DiagnoseHistoryOf(o.value, r, codec))
    ensures Get(DiagnoseHistoryOf(payload, r, codec).value, "message") == Get(payload, "message")
  {
    hide DiagnoseHistory;
    match Get(payload, "replacement_history")
    case None => SingleIssue(DiagnoseHistoryOf(payload, r, codec).issues[0]);
    case Some(history) =>
      HistoryGood(history, r, codec);
      var inner := DiagnoseHistory(history, r, codec);
      InsideGood(payload, "replacement_history", history, inner, DiagnoseHistory(inner.value, r, codec));
  }

  lemma ThenIssues(a: seq<Issue>, b: seq<Issue>)
    ensures Unrepaired(a + b) == Unrepaired(a) + Unrepaired(b)
    ensures AnyRepaired(a + b) <==> AnyRepaired(a) || AnyRepaired(b)
  {
    UnrepairedConcat(a, b);
    AnyRepairedConcat(a, b);
  }

  /** The text check does not read what the history check rewrites, and the other way round. */
  lemma TextThenHistory(payload: Value, r: nat, codec: Codec)
    requires payload.Object?
    ensures var first := DiagnoseText(payload, r);
            var second := DiagnoseHistoryOf(first.value, r, codec);
            var again := DiagnoseText(second.value, r);
            && second.value.Object? && again == Outcome(second.value, Unrepaired(first.issues))
            && DiagnoseHistoryOf(second.value, r, codec) == Outcome(second.value, Unrepaired(second.issues))
            && (!AnyRepaired(first.issues) && !AnyRepaired(second.issues) ==> second.value == payload)
  {
    hide DiagnoseHistoryOf;
    hide FlattenText;
    TextGood(payload, r);
    var first := DiagnoseText(payload, r);
    HistoryOfGood(first.value, r, codec);
    TextReadsMessage(first.value, DiagnoseHistoryOf(first.value, r, codec).value, r);
  }

  /** A text check that changes nothing gives the same issues on any payload with the same message. */
  lemma TextReadsMessage(a: Value, b: Value, r: nat)
    requires a.Object? && b.Object? && Get(a, "message") == Get(b, "message") && DiagnoseText(a, r).value == a
    ensures DiagnoseText(b, r).issues == DiagnoseText(a, r).issues
    ensures DiagnoseText(b, r).value == b
  {
    hide FlattenText;
    if Get(a, "message").Some? && DiagnoseText(a, r).issues != [] && !a.fields["message"].String? {
      assert StringAt(DiagnoseText(a, r).value, "message").None?;
    }
  }

  lemma CompactedPayloadGood(payload: Value, r: nat, codec: Codec)
    requires payload.Object?
    ensures var first := DiagnoseText(payload, r);
            && first.value.Object?
            && var second := DiagnoseHistoryOf(first.value, r, codec);
            && second.value.Object?
            && var again := Outcome(second.value, Unrepaired(first.issues + second.issues));
            && Good(payload, Then(first, second), again)
            && DiagnoseText(second.value, r).value == second.value
            && Then(DiagnoseText(second.value, r), DiagnoseHistoryOf(second.value, r, codec)) == again
  {
    hide DiagnoseText;
    hide DiagnoseHistoryOf;
    var first := DiagnoseText(payload, r);
    TextGood(payload, r);
    var second := DiagnoseHistoryOf(first.value, r, codec);
    TextThenHistory(payload, r, codec);
    ThenIssues(first.issues, second.issues);
  }

  lemma CompactedGood(record: Value, r: nat, codec: Codec)
    requires record.Object?
    ensures var o := DiagnoseCompacted(record, r, codec);
            && o.value.Object? && Good(record, o, DiagnoseCompacted(o.value, r, codec))
            && Get(o.value, "type") == Get(record, "type")
  {
    hide DiagnoseText;
    hide DiagnoseHistoryOf;
    match Get(record, "payload")
    case Some(Object(fields)) =>
      var payload := Object(fields);
      CompactedPayloadGood(payload, r, codec);
      var first := DiagnoseText(payload, r);
      var second := DiagnoseHistoryOf(first.value, r, codec);
      var again := Outcome(second.value, Unrepaired(first.issues + second.issues));
      InsideGood(record, "payload", payload, Then(first, second), again);
      hide Good;
      assert DiagnoseCompacted(record, r, codec) == Inside(record, "payload", Then(first, second));
      assert DiagnoseCompacted(With(record, "payload", second.value), r, codec) == Inside(With(record, "payload", second.value), "payload", again);
    case _ => SingleIssue(DiagnoseCompacted(record, r, codec).issues[0]);
  }

  // ---- Other records ----

  lemma RequireGood(payload: Value, key: string, r: nat)
    ensures var o := RequireNonempty(payload, key, r);
            o.value == payload && Unrepaired(o.issues) == o.issues && !AnyRepaired(o.issues)
  {
    var o := RequireNonempty(payload, key, r);
    if o.issues != [] {
      SingleIssue(o.issues[0]);
    }
  }

  /** Changing another field leaves a required string as it was. */
  lemma RequireElsewhere(a: Value, b: Value, key: string, r: nat)
    requires Get(a, key) == Get(b, key)
    ensures RequireNonempty(a, key, r).issues == RequireNonempty(b, key, r).issues
  {
  }

  lemma ArgumentsGood(payload: Value, r: nat, codec: Codec)
    requires payload.Object?
    ensures var o := DiagnoseArguments(payload, r, codec);
            o.value.Object? && Good(payload, o, DiagnoseArguments(o.value, r, codec))
    ensures forall key :: key != "arguments" ==> Get(DiagnoseArguments(payload, r, codec).value, key) == Get(payload, key)
  {
    var o := DiagnoseArguments(payload, r, codec);
    if o.issues != [] {
      SingleIssue(o.issues[0]);
    }
  }

  lemma FunctionCallGood(payload: Value, r: nat, codec: Codec)
    requires payload.Object?
    ensures var o := DiagnoseFunctionCall(payload, r, codec);
            && o.value.Object? && Good(payload, o, DiagnoseFunctionCall(o.value, r, codec))
            && Get(o.value, "type") == Get(payload, "type")
  {
    hide DiagnoseArguments;
    hide RequireNonempty;
    ArgumentsGood(payload, r, codec);
    var fixed := DiagnoseArguments(payload, r, codec);
    var id, name := RequireNonempty(payload, "call_id", r), RequireNonempty(payload, "name", r);
    RequireGood(payload, "call_id", r);
    RequireGood(payload, "name", r);
    RequireGood(fixed.value, "call_id", r);
    RequireGood(fixed.value, "name", r);
    RequireElsewhere(payload, fixed.value, "call_id", r);
    RequireElsewhere(payload, fixed.value, "name", r);
    ThenIssues(name.issues, fixed.issues);
    ThenIssues(id.issues, name.issues + fixed.issues);
  }

  lemma OutputGood(output: Value, r: nat, codec: Codec)
    ensures var o := NormalizeOutput(output, r, codec);
            Good(output, o, NormalizeOutput(o.value, r, codec))
  {
    hide NormalizeContent;
    ContentGood(output, r, "payload.output", "input_text");
    var o := NormalizeOutput(output, r, codec);
    if o.issues != [] {
      SingleIssue(o.issues[0]);
    }
  }

  lemma ToolOutputGood(payload: Value, r: nat, codec: Codec)
    requires payload.Object?
    ensures var o := DiagnoseToolOutput(payload, r, codec);
            && o.value.Object? && Good(payload, o, DiagnoseToolOutput(o.value, r, codec))
            && Get(o.value, "type") == Get(payload, "type")
  {
    hide NormalizeOutput;
    hide RequireNonempty;
    var id := RequireNonempty(payload, "call_id", r);
    RequireGood(payload, "call_id", r);
    match Get(payload, "output")
    case None =>
      var missing := Issue(r, "payload.output", "string or typed content array", "missing", false);
      SingleIssue(missing);
      ThenIssues(id.issues, [missing]);
    case Some(output) =>
      var inner := NormalizeOutput(output, r, codec);
      OutputGood(output, r, codec);
      InsideGood(payload, "output", output, inner, NormalizeOutput(inner.value, r, codec));
      var fixed := With(payload, "output", inner.value);
      RequireGood(fixed, "call_id", r);
      RequireElsewhere(payload, fixed, "call_id", r);
      ThenIssues(id.issues, inner.issues);
  }

  lemma ListGood(payload: Value, field: string, r: nat)
    requires payload.Object?
    ensures var o := DiagnoseList(payload, field, r);
            && o.value.Object? && Good(payload, o, DiagnoseList(o.value, field, r))
    ensures forall key :: key != field ==> Get(DiagnoseList(payload, field, r).value, key) == Get(payload, key)
  {
    var o := DiagnoseList(payload, field, r);
    if o.issues != [] {
      SingleIssue(o.issues[0]);
    }
  }

  predicate AllDifferent(fields: seq<string>) {
    forall i, j :: 0 <= i < j < |fields| ==> fields[i] != fields[j]
  }

  /** What the list checks say about a payload depends on those fields alone. */
  lemma {:induction false} ListsReadFields(a: Value, b: Value, fields: seq<string>, r: nat)
    requires a.Object? && b.Object? && DiagnoseLists(a, fields, r).value == a
    requires forall i :: 0 <= i < |fields| ==> Get(a, fields[i]) == Get(b, fields[i])
    requires AllDifferent(fields)
    ensures DiagnoseLists(b, fields, r) == Outcome(b, DiagnoseLists(a, fields, r).issues)
  {
    if fields != [] {
      var n := |fields| - 1;
      ListsKeepOthers(a, fields[..n], r);
      var before := DiagnoseLists(a, fields[..n], r);
      ListUndone(a, before.value, fields, r);
      ListsReadFields(a, b, fields[..n], r);
    }
  }

  lemma {:induction false} ListsKeepOthers(payload: Value, fields: seq<string>, r: nat)
    requires payload.Object?
    ensures forall key :: key !in fields ==> Get(DiagnoseLists(payload, fields, r).value, key) == Get(payload, key)
  {
    if fields != [] {
      var n := |fields| - 1;
      ListsKeepOthers(payload, fields[..n], r);
      ListGood(DiagnoseLists(payload, fields[..n], r).value, fields[n], r);
    }
  }

  /** When all list checks together change nothing, the earlier ones change nothing. */
  lemma ListUndone(payload: Value, before: Value, fields: seq<string>, r: nat)
    requires payload.Object? && fields != [] && AllDifferent(fields)
    requires before == DiagnoseLists(payload, fields[..|fields| - 1], r).value && before.Object?
    requires DiagnoseList(before, fields[|fields| - 1], r).value == payload
    ensures before == payload
  {
    var last := fields[|fields| - 1];
    ListsKeepOthers(payload, fields[..|fields| - 1], r);
    ListGood(before, last, r);
    assert last !in fields[..|fields| - 1];
    assert Get(before, last) == Get(payload, last);
    forall key ensures Get(before, key) == Get(payload, key) {
    }
    SameFields(before, payload);
  }

  lemma SameFields(a: Value, b: Value)
    requires a.Object? && b.Object? && forall key :: Get(a, key) == Get(b, key)
    ensures a == b
  {
    assert forall key :: key in a.fields <==> Get(a, key).Some?;
    assert forall key :: key in b.fields <==> Get(b, key).Some?;
    assert forall key :: key in a.fields ==> Get(a, key) == Some(a.fields[key]);
    assert forall key :: key in b.fields ==> Get(b, key) == Some(b.fields[key]);
    assert a.fields == b.fields;
  }

  lemma {:induction false} ListsGood(payload: Value, fields: seq<string>, r: nat)
    requires payload.Object? && AllDifferent(fields)
    ensures var o := DiagnoseLists(payload, fields, r);
            Good(payload, o, DiagnoseLists(o.value, fields, r))
  {
    if fields != [] {
      var n := |fields| - 1;
      var before := DiagnoseLists(payload, fields[..n], r);
      ListsGood(payload, fields[..n], r);
      ListGood(before.value, fields[n], r);
      var after := DiagnoseList(before.value, fields[n], r);
      forall i | 0 <= i < n ensures Get(before.value, fields[..n][i]) == Get(after.value, fields[..n][i]) {
        assert fields[..n][i] == fields[i] != fields[n];
      }
      ListsReadFields(before.value, after.value, fields[..n], r);
      ThenIssues(before.issues, after.issues);
    }
  }

  lemma TextThenLists(payload: Value, r: nat)
    requires payload.Object?
    ensures var first := DiagnoseText(payload, r);
            var second := DiagnoseLists(first.value, LISTS, r);
            && second.value.Object? && DiagnoseText(second.value, r) == Outcome(second.value, Unrepaired(first.issues))
            && DiagnoseLists(second.value, LISTS, r) == Outcome(second.value, Unrepaired(second.issues))
            && (!AnyRepaired(first.issues) && !AnyRepaired(second.issues) ==> second.value == payload)
            && Get(second.value, "type") == Get(payload, "type")
  {
    hide DiagnoseText;
    hide DiagnoseLists;
    var first := DiagnoseText(payload, r);
    TextGood(payload, r);
    ListsGood(first.value, LISTS, r);
    ListsKeepOthers(first.value, LISTS, r);
    TextReadsMessage(first.value, DiagnoseLists(first.value, LISTS, r).value, r);
  }

  lemma UserMessageGood(record: Value, r: nat)
    requires record.Object?
    ensures var o := DiagnoseUserMessage(record, r);
            && o.value.Object? && Good(record, o, DiagnoseUserMessage(o.value, r))
            && Get(o.value, "type") == Get(record, "type")
            && (Get(record, "payload").Some? ==>
                  Get(o.value, "payload").Some?
                  && Get(Get(o.value, "payload").value, "type") == Get(Get(record, "payload").value, "type"))
  {
    hide DiagnoseText;
    hide DiagnoseLists;
    match Get(record, "payload")
    case Some(Object(fields)) =>
      var payload := Object(fields);
      var first := DiagnoseText(payload, r);
      TextGood(payload, r);
      var second := DiagnoseLists(first.value, LISTS, r);
      TextThenLists(payload, r);
      ThenIssues(first.issues, second.issues);
      InsideGood(record, "payload", payload, Then(first, second), Outcome(second.value, Unrepaired(first.issues + second.issues)));
    case _ =>
  }

  // ---- Whole records ----

  lemma KeepsType(message: Value, r: nat)
    requires StringAt(message, "type") == Some("message")
    ensures StringAt(DiagnoseMessage(message, r, "payload").value, "type") == Some("message")
  {
    TypedGood(message, r, "payload");
  }

  /** Diagnosing a rewritten record changes nothing more and reports exactly the issues left open, in order;
      a record is left alone when nothing was repaired. */
  lemma RecordGood(record: Value, r: nat, codec: Codec)
    ensures var o := DiagnoseRecord(record, r, codec);
            Good(record, o, DiagnoseRecord(o.value, r, codec))
    ensures CheckOf(DiagnoseRecord(record, r, codec).value) == CheckOf(record)
  {
    hide DiagnoseMessage;
    hide DiagnoseFunctionCall;
    hide DiagnoseToolOutput;
    hide DiagnoseUserMessage;
    hide DiagnoseCompacted;
    match CheckOf(record)
    case Compacted => CompactedGood(record, r, codec);
    case BareResponse => SingleIssue(DiagnoseRecord(record, r, codec).issues[0]);
    case Message =>
      var payload := record.fields["payload"];
      MessageGood(payload, r, "payload");
      KeepsType(payload, r);
      var inner := DiagnoseMessage(payload, r, "payload");
      InsideGood(record, "payload", payload, inner, DiagnoseMessage(inner.value, r, "payload"));
    case FunctionCall =>
      var payload := record.fields["payload"];
      FunctionCallGood(payload, r, codec);
      var inner := DiagnoseFunctionCall(payload, r, codec);
      InsideGood(record, "payload", payload, inner, DiagnoseFunctionCall(inner.value, r, codec));
    case ToolOutput =>
      var payload := record.fields["payload"];
      ToolOutputGood(payload, r, codec);
      var inner := DiagnoseToolOutput(payload, r, codec);
      InsideGood(record, "payload", payload, inner, DiagnoseToolOutput(inner.value, r, codec));
    case UserMessage => UserMessageGood(record, r);
    case Unchecked =>
  }

  /** A record is changed exactly when an issue was reported as repaired. */
  lemma ChangedIffRepaired(record: Value, r: nat, codec: Codec)
    ensures DiagnoseRecord(record, r, codec).value != record <==> AnyRepaired(DiagnoseRecord(record, r, codec).issues)
  {
    var o := DiagnoseRecord(record, r, codec);
    RecordGood(record, r, codec);
    NothingRepaired(o.issues);
  }
}
