/** What a repaired `message` text is, stated on positions of the text: the texts of its items in order, one line each. */
module MessageTexts {
  import opened Prelude
  import opened Json
  import opened Joining
  import opened MessageFormat
  import opened MessageTheorems

  /** The item is a string, or an object whose `text` is that string. */
  predicate Says(item: Value, text: string) {
    item == String(text) || (item.Object? && "text" in item.fields && item.fields["text"] == String(text))
  }

  /** The texts that a message stands for: of a string itself, of an object its `text`, of a list those of all its items. */
  ghost predicate Reads(message: Value, texts: seq<string>) {
    match message
    case Array(items) => items != [] && |texts| == |items| && forall i :: 0 <= i < |items| ==> Says(items[i], texts[i])
    case _ => |texts| == 1 && Says(message, texts[0])
  }

  /** s is made of the texts in order, a line each. */
  ghost predicate Lines(s: string, texts: seq<string>) {
    texts != [] && Separated(s, texts, "\n")
  }

  lemma {:induction false} TextsAre(items: seq<Value>, texts: seq<string>)
    ensures Texts(items) == Some(texts) <==> |texts| == |items| && forall i :: 0 <= i < |items| ==> Says(items[i], texts[i])
  {
    if items != [] {
      var n := |items| - 1;
      if texts != [] {
        TextsAre(items[..n], texts[..|texts| - 1]);
        assert texts == texts[..|texts| - 1] + [texts[|texts| - 1]];
      }
    }
  }

  lemma JoinedLines(texts: seq<string>)
    requires texts != []
    ensures Lines(Joined(texts, "\n"), texts)
  {
    JoinedIsSeparated(texts, "\n");
  }

  lemma OneLine(text: string)
    ensures Lines(text, [text])
  {
    OneSeparated(text, "\n");
  }

  /** A message is flattened exactly when it reads as texts, and then into their lines. */
  lemma FlattenedReads(message: Value)
    ensures FlattenText(message).Some? <==> exists texts :: Reads(message, texts)
    ensures FlattenText(message).Some? ==> exists texts :: Reads(message, texts) && Lines(FlattenText(message).value, texts)
  {
    hide Lines;
    match message
    case Array(items) =>
      if Texts(items).Some? {
        var texts := Texts(items).value;
        TextsAre(items, texts);
        if texts != [] {
          JoinedLines(texts);
          assert Reads(message, texts);
        }
      }
      forall texts | Reads(message, texts) ensures FlattenText(message).Some? {
        TextsAre(items, texts);
      }
    case String(text) =>
      OneLine(text);
      assert Reads(message, [text]);
    case Object(_) =>
      if StringAt(message, "text").Some? {
        var text := StringAt(message, "text").value;
        OneLine(text);
        assert Reads(message, [text]);
      }
    case _ =>
  }

  /** A message reads in one way only. */
  lemma ReadsAreUnique(message: Value, a: seq<string>, b: seq<string>)
    requires Reads(message, a) && Reads(message, b)
    ensures a == b
  {
    if message.Array? {
      TextsAre(message.items, a);
      TextsAre(message.items, b);
    }
  }

  /** What happens to the `message` of a payload: text stays; what reads as texts becomes their lines, and that is a repair;
      anything else is left with an open issue, as is a missing one. No other field is touched. */
  ghost predicate MessageSettled(before: Value, after: Value, issues: seq<Issue>) {
    && after.Object? && (forall key :: key != "message" ==> Get(after, key) == Get(before, key))
    && match Get(before, "message")
       case None => after == before && |issues| == 1 && !issues[0].repaired
       case Some(message) =>
         if message.String? then after == before && issues == []
         else if exists texts :: Reads(message, texts) then
           && (exists texts, s :: Reads(message, texts) && Lines(s, texts) && Get(after, "message") == Some(String(s)))
           && |issues| == 1 && issues[0].repaired
         else after == before && |issues| == 1 && !issues[0].repaired
  }

  lemma TextSettled(payload: Value, r: nat)
    requires payload.Object?
    ensures MessageSettled(payload, DiagnoseText(payload, r).value, DiagnoseText(payload, r).issues)
  {
    hide FlattenText;
    hide Reads;
    hide Lines;
    if Get(payload, "message").Some? {
      FlattenedReads(Get(payload, "message").value);
    }
  }

  /** The same of whole records, as they are diagnosed: compacted records and user messages. */
  lemma RecordMessageSettled(record: Value, r: nat, codec: Codec)
    requires CheckOf(record).UserMessage? || (CheckOf(record).Compacted? && Get(record, "payload").Some? && Get(record, "payload").value.Object?)
    ensures var before, after := record.fields["payload"], Get(DiagnoseRecord(record, r, codec).value, "payload");
            && after.Some?
            && exists text: Value, issues ::
                 && MessageSettled(before, text, issues) && Get(after.value, "message") == Get(text, "message")
                 && issues <= DiagnoseRecord(record, r, codec).issues
  {
    hide MessageSettled;
    hide DiagnoseText;
    hide DiagnoseLists;
    hide DiagnoseHistory;
    var payload := record.fields["payload"];
    TextSettled(payload, r);
    TextGood(payload, r);
    var first := DiagnoseText(payload, r);
    if CheckOf(record).UserMessage? {
      ListsKeepOthers(first.value, LISTS, r);
      assert first.issues <= first.issues + DiagnoseLists(first.value, LISTS, r).issues;
    } else {
      HistoryOfGood(first.value, r, codec);
      assert first.issues <= first.issues + DiagnoseHistoryOf(first.value, r, codec).issues;
    }
  }

  /** Two texts, one bare and one typed, become two lines. */
  lemma TwoLines(r: nat)
    ensures var payload := Object(map["message" := Array([String("first"), Object(map["text" := String("second")])])]);
            DiagnoseText(payload, r).value == Object(map["message" := String("first" + "\n" + "second")])
  {
    var items := [String("first"), Object(map["text" := String("second")])];
    var payload := Object(map["message" := Array(items)]);
    TextsAre(items, ["first", "second"]);
    assert ["first", "second"][..1] == ["first"];
    assert Joined(["first", "second"], "\n") == "first" + "\n" + "second";
    assert payload.fields["message" := String("first" + "\n" + "second")] == map["message" := String("first" + "\n" + "second")];
  }
}
