/** Cleaning reaches a fixed point in one pass. */
module RolloutFixpoint {
  import opened Prelude
  import opened Text
  import opened Json
  import opened DataUri
  import opened Rollout
  import opened RolloutRetention
  import opened RolloutErrors
  import MF = MessageFormat

  // ---- Words survive scrubbing only unchanged ----

  lemma SafeThreadHasNoMarker(thread: string)
    requires SafeThread(thread)
    ensures !Contains(thread, MARKER)
  {
    NoColonNoMarker(thread);
  }

  lemma MarkerIff(text: string)
    ensures HasMarker(text) <==> Contains(text, MARKER)
    ensures HasMarker(text) <==> Scrub(text, "", "").Some?
  {
    NoSpansIffNoMarker(text);
    if Contains(text, MARKER) {
      var i: nat :| MatchAt(text, MARKER, i);
    }
  }

  lemma ReplacedHead(text: string, spans: seq<(nat, nat)>, thread: string, path: string) returns (tail: string)
    requires Laid(text, 0, spans) && spans != []
    ensures Replaced(text, 0, spans, thread, path) == text[..spans[0].0] + (['['] + tail)
  {
    hide Note;
    var rest := Replaced(text, spans[0].1, spans[1..], thread, path);
    tail := Note(thread, path, text[spans[0].0..spans[0].1]) + "]" + rest;
    assert text[0..spans[0].0] == text[..spans[0].0];
  }

  /** Scrubbed text keeps what comes before the first URI and continues with a bracket. */
  lemma ScrubShape(text: string, thread: string, path: string)
    requires HasMarker(text)
    ensures Scrub(text, thread, path).Some?
    ensures var start := Find(text, MARKER, 0).value;
            && start < |ScrubText(text, thread, path)|
            && ScrubText(text, thread, path)[..start] == text[..start]
            && ScrubText(text, thread, path)[start] == '['
  {
    hide Replaced;
    hide SpanEnd;
    SpansAreLaid(text, 0);
    SpansStep(text, 0);
    var tail := ReplacedHead(text, Spans(text, 0), thread, path);
  }

  lemma WordSurvives(text: string, word: string, thread: string, path: string)
    requires ScrubText(text, thread, path) == word && '[' !in word
    ensures text == word
  {
    hide Scrub;
    hide ScrubText;
    if HasMarker(text) {
      ScrubShape(text, thread, path);
    } else {
      NotScrubbed(text, thread, path);
    }
  }

  lemma NotScrubbed(text: string, thread: string, path: string)
    requires !HasMarker(text)
    ensures ScrubText(text, thread, path) == text
  {
    NoSpansIffNoMarker(text);
  }

  lemma PrefixSurvives(text: string, tail: string, thread: string, path: string)
    requires "[" + tail <= ScrubText(text, thread, path) && '[' !in tail && !(MARKER <= text)
    ensures "[" + tail <= text
  {
    hide Scrub;
    hide ScrubText;
    if HasMarker(text) {
      ScrubShape(text, thread, path);
      var start, scrubbed := Find(text, MARKER, 0).value, ScrubText(text, thread, path);
      assert start > 0 by {
        assert MatchAt(text, MARKER, start);
      }
      forall k | 1 <= k <= |tail| ensures scrubbed[k] != '[' {
        assert scrubbed[k] == ("[" + tail)[k] == tail[k - 1];
      }
      assert |tail| < start;
      assert text[..|tail| + 1] == scrubbed[..|tail| + 1];
    } else {
      NotScrubbed(text, thread, path);
    }
  }

  lemma PrefixesHoldNoBracket()
    ensures '[' !in GUARDIAN_PREFIX && '[' !in JANITOR_PREFIX
  {
    assert '[' !in GUARDIAN_PREFIX;
    assert '[' !in JANITOR_PREFIX;
  }

  lemma StaysNoPlaceholder(url: string, thread: string, path: string)
    requires !IsImagePlaceholder(url) && !(MARKER <= url)
    ensures !IsImagePlaceholder(ScrubText(url, thread, path))
  {
    hide ScrubText;
    PrefixesHoldNoBracket();
    if "[" + GUARDIAN_PREFIX <= ScrubText(url, thread, path) {
      PrefixSurvives(url, GUARDIAN_PREFIX, thread, path);
    }
    if "[" + JANITOR_PREFIX <= ScrubText(url, thread, path) {
      PrefixSurvives(url, JANITOR_PREFIX, thread, path);
    }
  }

  // ---- Scrubbed values hold nothing more to scrub ----

  /** No media type, and no placeholder taken over as it stands, brings in a further marker. */
  ghost predicate Tame(value: Value) {
    match value
    case String(text) => !MimeMarker(UrisIn(text))
    case Array(items) => forall i :: 0 <= i < |items| ==> Tame(items[i])
    case Object(fields) =>
      if HoldsImage(value) then TameUrl(StringAt(value, "image_url").value)
      else PassedOver(value) || forall key :: key in fields ==> Tame(fields[key])
    case _ => true
  }

  ghost predicate TameUrl(url: string) {
    if MARKER <= url then !Contains(Mime(url), MARKER) else !HasMarker(url)
  }

  ghost predicate Plain(config: Config) {
    SafeThread(config.thread) && config.publish.None? && config.summarize.None? && !config.preview
  }

  lemma TextQuiet(text: string, path: string, config: Config)
    requires Plain(config) && !MimeMarker(UrisIn(text)) && !Contains(path, MARKER)
    ensures !HasMarker(ScrubText(text, config.thread, path))
  {
    hide MimeMarker;
    hide UrisIn;
    SafeThreadHasNoMarker(config.thread);
    MarkerIff(text);
    if HasMarker(text) {
      ScrubShape(text, config.thread, path);
      ScrubMarker(text, config.thread, path);
    } else {
      NotScrubbed(text, config.thread, path);
    }
    MarkerIff(ScrubText(text, config.thread, path));
  }

  lemma TameUrlMeans(url: string)
    requires TameUrl(url)
    ensures MARKER <= url ==> !Contains(Mime(url), MARKER)
    ensures !(MARKER <= url) ==> !HasMarker(url)
  {
  }

  lemma ImageQuiet(url: string, path: string, config: Config)
    requires Plain(config) && TameUrl(url) && !Contains(path, MARKER)
    ensures !HasMarker(ImageText(config, path, url))
    ensures !Touches(MF.TextItem("input_text", ImageText(config, path, url)))
  {
    hide Contains;
    hide Note;
    hide TameUrl;
    var text := ImageText(config, path, url);
    TameUrlMeans(url);
    if MARKER <= url {
      SafeThreadHasNoMarker(config.thread);
      NoteMarker(config.thread, path, url);
      var note := Note(config.thread, path, url);
      assert text == "" + ['['] + (note + [']'] + "");
      Delimited("", '[', note + [']'] + "");
      Delimited(note, ']', "");
      NoColonNoMarker("");
      MarkerIff(text);
    }
    NoColonNoMarker("input_text");
    MarkerIff("input_text");
  }

  lemma MarkerFirst(text: string)
    ensures MARKER <= text ==> HasMarker(text)
  {
    if MARKER <= text {
      assert MatchAt(text, MARKER, 0);
    }
  }

  lemma StringBack(value: Value, path: string, config: Config)
    requires ScrubValue(value, path, config).String?
    ensures value.String? && ScrubValue(value, path, config).text == ScrubText(value.text, config.thread, path)
  {
  }

  lemma UnheldStays(value: Value, path: string, config: Config)
    requires value.Object? && !HoldsImage(value) && !PassedOver(value)
    ensures !HoldsImage(ScrubValue(value, path, config))
    requires StringAt(value, "image_url").Some? ==> !HasMarker(ScrubText(StringAt(value, "image_url").value, config.thread, path))
  {
    hide IsImagePlaceholder;
    hide ScrubText;
    var after := ScrubValue(value, path, config);
    if StringAt(value, "image_url").Some? {
      var url := StringAt(value, "image_url").value;
      var scrubbed := ScrubText(url, config.thread, path);
      MarkerFirst(scrubbed);
      if StringAt(value, "type") == Some("input_image") {
        StaysNoPlaceholder(url, config.thread, path);
      }
    }
    if IsImageItem(after) {
      StringBack(value.fields["type"], path, config);
      WordSurvives(StringAt(value, "type").value, "input_image", config.thread, path);
    }
    if StringAt(after, "image_url").Some? {
      StringBack(value.fields["image_url"], path, config);
    }
  }

  lemma {:induction false} ScrubbedIsQuiet(value: Value, path: string, config: Config)
    requires Plain(config) && Tame(value) && !Contains(path, MARKER)
    ensures !Touches(ScrubValue(value, path, config))
  {
    hide Contains;
    hide ImageText;
    hide ScrubText;
    hide Plain;
    match value
    case String(text) => TextQuiet(text, path, config);
    case Array(items) =>
      forall i | 0 <= i < |items| ensures !Touches(ScrubValue(items[i], path, config)) {
        ScrubbedIsQuiet(items[i], path, config);
      }
    case Object(fields) =>
      if HoldsImage(value) {
        ImageQuiet(StringAt(value, "image_url").value, path, config);
      } else if !PassedOver(value) {
        forall key | key in fields ensures !Touches(ScrubValue(fields[key], path, config)) {
          ScrubbedIsQuiet(fields[key], path, config);
        }
        if StringAt(value, "image_url").Some? {
          TextQuiet(StringAt(value, "image_url").value, path, config);
        }
        UnheldStays(value, path, config);
      }
    case _ =>
  }

  lemma {:induction false} QuietIsTame(value: Value)
    requires !Touches(value)
    ensures Tame(value)
  {
    match value
    case String(text) => MarkerIff(text);
    case Array(items) =>
      forall i | 0 <= i < |items| ensures Tame(items[i]) {
        QuietIsTame(items[i]);
      }
    case Object(fields) =>
      if !PassedOver(value) {
        forall key | key in fields ensures Tame(fields[key]) {
          QuietIsTame(fields[key]);
        }
      }
    case _ =>
  }

  // ---- Scrubbing creates no event, count or error ----

  /** after is what scrubbing may leave of before: nothing, the same value, or its scrubbed form. */
  ghost predicate Reduced(before: Option<Value>, after: Option<Value>, config: Config) {
    after.None? ||
    (before.Some? && (after.value == before.value || after.value == ScrubValue(before.value, UNKNOWN_PATH, config)))
  }

  lemma ReducedGet(before: Option<Value>, after: Option<Value>, key: string, config: Config)
    requires Reduced(before, after, config) && key != "type" && key != "text"
    ensures Reduced(GetIn(before, key), GetIn(after, key), config)
  {
    hide ScrubText;
    hide ImageText;
  }

  lemma ReducedString(before: Option<Value>, after: Option<Value>, config: Config)
    requires Reduced(before, after, config) && AsString(after).Some?
    ensures AsString(before).Some?
    ensures AsString(after) == AsString(before) || AsString(after) == Some(ScrubText(AsString(before).value, config.thread, UNKNOWN_PATH))
  {
    hide ScrubText;
    if after.value != before.value {
      StringBack(before.value, UNKNOWN_PATH, config);
    }
  }

  lemma ReducedWord(before: Option<Value>, after: Option<Value>, word: string, config: Config)
    requires Reduced(before, after, config) && AsString(GetIn(after, "type")) == Some(word)
    requires '[' !in word && word != "input_text"
    ensures AsString(GetIn(before, "type")) == Some(word)
  {
    hide ScrubText;
    hide ImageText;
    if after.value != before.value {
      assert Get(after.value, "type") == Some(ScrubValue(before.value.fields["type"], UNKNOWN_PATH, config));
      StringBack(before.value.fields["type"], UNKNOWN_PATH, config);
      WordSurvives(before.value.fields["type"].text, word, config.thread, UNKNOWN_PATH);
    }
  }

  lemma ReducedCount(before: Option<Value>, after: Option<Value>, config: Config)
    requires Reduced(before, after, config)
    ensures AsU64(after) <= AsU64(before)
  {
    hide ScrubText;
    hide ImageText;
  }

  lemma ReducedUsage(before: Option<Value>, after: Option<Value>, config: Config)
    requires Reduced(before, after, config)
    ensures UsageTokens(after) <= UsageTokens(before)
  {
    hide AsU64;
    ReducedGet(before, after, "input_tokens", config);
    ReducedGet(before, after, "total_tokens", config);
    ReducedCount(GetIn(before, "input_tokens"), GetIn(after, "input_tokens"), config);
    ReducedCount(GetIn(before, "total_tokens"), GetIn(after, "total_tokens"), config);
  }

  lemma ReducedTokens(before: Option<Value>, after: Option<Value>, config: Config)
    requires Reduced(before, after, config)
    ensures ObservedTokens(after) <= ObservedTokens(before)
  {
    hide UsageTokens;
    ReducedGet(before, after, "info", config);
    var a, b := GetIn(before, "info"), GetIn(after, "info");
    ReducedGet(a, b, "last_token_usage", config);
    ReducedGet(a, b, "total_token_usage", config);
    ReducedUsage(GetIn(a, "last_token_usage"), GetIn(b, "last_token_usage"), config);
    ReducedUsage(GetIn(a, "total_token_usage"), GetIn(b, "total_token_usage"), config);
  }

  lemma ReducedEvent(value: Value, payloadType: string, config: Config)
    requires IsEvent(ScrubValue(value, UNKNOWN_PATH, config), payloadType)
    requires '[' !in payloadType && payloadType != "input_text"
    ensures IsEvent(value, payloadType)
    ensures Reduced(Get(value, "payload"), Get(ScrubValue(value, UNKNOWN_PATH, config), "payload"), config)
  {
    hide ScrubText;
    hide ImageText;
    var after := ScrubValue(value, UNKNOWN_PATH, config);
    ReducedWord(Some(value), Some(after), "event_msg", config);
    ReducedGet(Some(value), Some(after), "payload", config);
    ReducedWord(Get(value, "payload"), Get(after, "payload"), payloadType, config);
  }

  lemma LowerMention(before: Option<Value>, after: Option<Value>, needle: string, config: Config)
    requires Reduced(before, after, config) && SafeThread(config.thread) && Unplaced(needle) && needle != ""
    requires Mentions(LowerOrEmpty(after), needle)
    ensures Mentions(LowerOrEmpty(before), needle)
  {
    hide ScrubText;
    hide ScrubValue;
    hide ToLower;
    hide Unplaced;
    if AsString(after).Some? {
      ReducedString(before, after, config);
      if AsString(after) != AsString(before) {
        ScrubbedMention(AsString(before).value, config.thread, needle);
      }
    }
  }

  lemma ScrubMakesNoError(value: Value, config: Config)
    requires SafeThread(config.thread) && IsRecoverableTaskError(ScrubValue(value, UNKNOWN_PATH, config))
    ensures IsRecoverableTaskError(value)
  {
    hide Mentions;
    hide ScrubValue;
    hide Reduced;
    hide Unplaced;
    hide LowerOrEmpty;
    var after := ScrubValue(value, UNKNOWN_PATH, config);
    ReducedEvent(value, "task_complete", config);
    ReducedGet(Get(value, "payload"), Get(after, "payload"), "error", config);
    var a, b := GetIn(Get(value, "payload"), "error"), GetIn(Get(after, "payload"), "error");
    ReducedGet(a, b, "codex_error_info", config);
    ReducedGet(a, b, "message", config);
    var info, message := GetIn(a, "codex_error_info"), GetIn(a, "message");
    var lowInfo, lowMessage := GetIn(b, "codex_error_info"), GetIn(b, "message");
    ErrorTextsAreUnplaced();
    if Mentions(LowerOrEmpty(lowInfo), "context_window_exceeded") {
      LowerMention(info, lowInfo, "context_window_exceeded", config);
    }
    if Mentions(LowerOrEmpty(lowMessage), "context window") {
      LowerMention(message, lowMessage, "context window", config);
    }
    if Mentions(LowerOrEmpty(lowMessage), "exceeds the context") {
      LowerMention(message, lowMessage, "exceeds the context", config);
    }
    if Mentions(LowerOrEmpty(lowMessage), "input exceeds") {
      LowerMention(message, lowMessage, "input exceeds", config);
    }
    if Mentions(LowerOrEmpty(lowMessage), "image_url") {
      LowerMention(message, lowMessage, "image_url", config);
    }
    if Mentions(LowerOrEmpty(lowMessage), "invalid format") {
      LowerMention(message, lowMessage, "invalid format", config);
    }
    if Mentions(LowerOrEmpty(lowMessage), "valid url") {
      LowerMention(message, lowMessage, "valid url", config);
    }
  }

  lemma ScrubMakesNoAlert(value: Value, trigger: nat, config: Config)
    requires SafeThread(config.thread) && IsAlert(ScrubValue(value, UNKNOWN_PATH, config), trigger)
    ensures IsAlert(value, trigger)
  {
    hide ScrubValue;
    hide IsRecoverableTaskError;
    hide ObservedTokens;
    hide Reduced;
    var after := ScrubValue(value, UNKNOWN_PATH, config);
    if IsHighTokenCount(after, trigger) {
      ReducedEvent(value, "token_count", config);
      ReducedTokens(Get(value, "payload"), Get(after, "payload"), config);
    } else {
      ScrubMakesNoError(value, config);
    }
  }

  // ---- A rewritten record has nothing left to do ----

  function GoalTokens(value: Value): nat {
    AsU64(GetIn(GetIn(Get(value, "payload"), "goal"), "tokensUsed"))
  }

  predicate GoalQuiet(value: Value, trigger: nat) {
    IsEvent(value, "thread_goal_updated") ==> GoalTokens(value) < trigger
  }

  predicate NoItems(list: Option<Value>) {
    list.Some? && list.value.Array? ==> list.value.items == []
  }

  predicate UserQuiet(value: Value) {
    IsEvent(value, "user_message") ==> NoItems(GetIn(Get(value, "payload"), "images")) && NoItems(GetIn(Get(value, "payload"), "local_images"))
  }

  predicate Settled(value: Value, trigger: nat) {
    !IsAlert(value, trigger) && GoalQuiet(value, trigger) && UserQuiet(value)
  }

  /** A tool output is none of the events. */
  lemma OutputIsSettled(value: Value, trigger: nat)
    requires ToolOutput(value).Some?
    ensures Settled(value, trigger)
  {
    hide ObservedTokens;
  }

  lemma OutputStaysOutput(value: Value, output: Value)
    requires ToolOutput(value).Some?
    ensures ToolOutput(WithToolOutput(value, output)) == Some(output)
  {
  }

  lemma GoalStep(value: Value, config: Config)
    requires !IsAlert(value, config.trigger) && config.recovery < config.trigger && config.recovery <= U64_MAX
    ensures var after := NormalizeGoal(value, config).0;
            !IsAlert(after, config.trigger) && GoalQuiet(after, config.trigger)
  {
    hide ObservedTokens;
    hide ParseUnsigned;
    hide Mentions;
    ParseDecimal(config.recovery, U64_MAX);
  }

  lemma UserStep(value: Value, config: Config, codec: Codec)
    requires !IsAlert(value, config.trigger) && GoalQuiet(value, config.trigger)
    ensures Settled(ScrubUserImages(value, config, codec).0, config.trigger)
  {
    hide ObservedTokens;
    hide FieldPlaceholders;
    hide IsRecoverableTaskError;
    hide GoalQuiet;
    hide Annotated;
    hide Emptied;
    hide IsAlert;
    if IsEvent(value, "user_message") {
      var payload := value.fields["payload"];
      NoPlaceholdersNoItems(payload, "images", config, codec);
      NoPlaceholdersNoItems(payload, "local_images", config, codec);
      var emptied := Emptied(Emptied(payload, "images"), "local_images");
      EmptiedFields(payload);
      var placeholders := FieldPlaceholders(payload, "images", config, codec) + FieldPlaceholders(payload, "local_images", config, codec);
      AnnotatedFields(With(emptied, "image_placeholders", Array(placeholders)), |placeholders|);
      UserIsNoAlert(ScrubUserImages(value, config, codec).0, config.trigger);
    }
  }

  lemma UserIsNoAlert(value: Value, trigger: nat)
    requires IsEvent(value, "user_message")
    ensures !IsAlert(value, trigger) && GoalQuiet(value, trigger)
  {
  }

  lemma NoPlaceholdersNoItems(payload: Value, field: string, config: Config, codec: Codec)
    ensures FieldPlaceholders(payload, field, config, codec) == [] <==> NoItems(Get(payload, field))
  {
  }

  lemma EmptiedFields(payload: Value)
    requires payload.Object?
    ensures var emptied := Emptied(Emptied(payload, "images"), "local_images");
            && Get(emptied, "type") == Get(payload, "type")
            && NoItems(Get(emptied, "images")) && NoItems(Get(emptied, "local_images"))
  {
  }

  lemma AnnotatedFields(payload: Value, count: nat)
    requires payload.Object?
    ensures forall key :: key != "message" ==> Get(Annotated(payload, count), key) == Get(payload, key)
  {
    hide NoteText;
    hide Mentions;
  }

  lemma ReducedNoItems(before: Option<Value>, after: Option<Value>, config: Config)
    requires Reduced(before, after, config) && NoItems(before)
    ensures NoItems(after)
  {
    hide ScrubText;
    hide ImageText;
  }

  lemma ScrubStep(value: Value, config: Config)
    requires SafeThread(config.thread) && Settled(value, config.trigger)
    ensures Settled(ScrubValue(value, UNKNOWN_PATH, config), config.trigger)
  {
    hide ScrubValue;
    hide Reduced;
    hide AsU64;
    var after := ScrubValue(value, UNKNOWN_PATH, config);
    var a, b := Get(value, "payload"), Get(after, "payload");
    if IsAlert(after, config.trigger) {
      ScrubMakesNoAlert(value, config.trigger, config);
    }
    if IsEvent(after, "thread_goal_updated") {
      ReducedEvent(value, "thread_goal_updated", config);
      ReducedGet(a, b, "goal", config);
      ReducedGet(GetIn(a, "goal"), GetIn(b, "goal"), "tokensUsed", config);
      ReducedCount(GetIn(GetIn(a, "goal"), "tokensUsed"), GetIn(GetIn(b, "goal"), "tokensUsed"), config);
    }
    if IsEvent(after, "user_message") {
      ReducedEvent(value, "user_message", config);
      ReducedGet(a, b, "images", config);
      ReducedGet(a, b, "local_images", config);
      ReducedNoItems(GetIn(a, "images"), GetIn(b, "images"), config);
      ReducedNoItems(GetIn(a, "local_images"), GetIn(b, "local_images"), config);
    }
  }

  // ---- Notices ----

  /** No tool name, argument preview or image path brings in a marker. */
  ghost predicate CallsTame(calls: ToolCalls) {
    forall id :: id in calls ==> CallTame(calls[id])
  }

  ghost predicate CallTame(call: ToolCall) {
    && !Contains(call.name, MARKER)
    && (call.argumentsPreview.Some? ==> !Contains(call.argumentsPreview.value, MARKER))
    && (call.imagePath.Some? ==> !Contains(call.imagePath.value, MARKER))
  }

  lemma WordsQuiet()
    ensures !Contains("unknown-tool", MARKER) && !Contains("unknown arguments", MARKER) && !Contains(UNKNOWN_PATH, MARKER)
    ensures !Contains("ool:", MARKER) && !Contains("rguments:", MARKER) && !Contains("", MARKER)
  {
    NoColonNoMarker("unknown-tool");
    NoColonNoMarker("unknown arguments");
    NoColonNoMarker(UNKNOWN_PATH);
    NoColonNoMarker("ool:");
    NoColonNoMarker("rguments:");
    NoColonNoMarker("");
  }

  lemma NoticeHasNoColon()
    ensures ':' !in NOTICE_HEAD && ':' !in TOO_LARGE && ':' !in NOTICE_TAIL
  {
    HeadHasNoColon();
    TooLargeHasNoColon();
    ClosingHasNoColon();
  }

  lemma HeadHasNoColon()
    ensures ':' !in NOTICE_HEAD
  {
    assert ':' !in "Large tool output pruned " && ':' !in "by context-guardian because " && ':' !in "the original tool result was ";
  }

  lemma TooLargeHasNoColon()
    ensures ':' !in TOO_LARGE
  {
    assert ':' !in " bytes and could exceed " && ':' !in "the model context window. ";
  }

  lemma ClosingHasNoColon()
    ensures ':' !in NOTICE_TAIL
  {
    assert ':' !in " Re-run the command or " && ':' !in "inspect the referenced file ";
    assert ':' !in "manually if the full output " && ':' !in "is needed.";
  }

  /** A notice in the pieces that delimit its variable parts. */
  lemma NoticePieces(head: string, name: string, arguments: string, tail: string)
    ensures head + "Tool: " + name + ". Arguments: " + arguments + ("." + tail) ==
      head + ['T'] + ("ool:" + [' '] + (name + ['.'] + ("" + [' '] + ("" + ['A'] + ("rguments:" + [' '] + (arguments + ['.'] + tail))))))
  {
    assert "Tool: " == ['T'] + "ool:" + [' '];
    assert ". Arguments: " == ['.'] + "" + [' '] + "" + ['A'] + "rguments:" + [' '];
  }

  lemma NoticeQuiet(call: ToolCall, length: nat)
    requires CallTame(call)
    ensures !HasMarker(Notice(call, length))
  {
    hide Contains;
    WordsQuiet();
    var six := ToolArguments(call) + ['.'] + NOTICE_TAIL;
    var five := "rguments:" + [' '] + six;
    var four := "" + ['A'] + five;
    var three := "" + [' '] + four;
    var two := ToolName(call) + ['.'] + three;
    var one := "ool:" + [' '] + two;
    var head := NOTICE_HEAD + Decimal(length) + TOO_LARGE;
    NoticePieces(head, ToolName(call), ToolArguments(call), NOTICE_TAIL);
    NoticeHasNoColon();
    assert ':' !in head by {
      assert ':' !in Decimal(length);
    }
    NoColonNoMarker(head);
    NoColonNoMarker(NOTICE_TAIL);
    Delimited(ToolArguments(call), '.', NOTICE_TAIL);
    Delimited("rguments:", ' ', six);
    Delimited("", 'A', five);
    Delimited("", ' ', four);
    Delimited(ToolName(call), '.', three);
    Delimited("ool:", ' ', two);
    Delimited(head, 'T', one);
    MarkerIff(Notice(call, length));
  }

  // ---- One record ----

  /** The value just before inline images are scrubbed. */
  function Unattached(value: Value, estimated: nat, config: Config, codec: Codec): Value {
    ScrubUserImages(NormalizeGoal(NormalizeTokenCount(value, estimated, config.trigger).0, config).0, config, codec).0
  }

  /** What a kept record must bring for one pass to be enough: no media type with a further marker where images are
      scrubbed, and, when its output is replaced, a notice shorter than the threshold. */
  ghost predicate Calm(value: Value, estimated: nat, calls: ToolCalls, config: Config, codec: Codec) {
    var before := Unattached(value, estimated, config, codec);
    var (after, counts) := Rewrite(value, estimated, calls, config, codec);
    && Tame(before) && (ToolOutput(before).Some? ==> Tame(ToolOutput(before).value))
    && (counts.largeOutputs > 0 && ToolOutput(after).Some? ==> EncodedLength(ToolOutput(after).value, codec) < config.threshold)
  }

  lemma OutputKeepsFlags(value: Value, output: Value)
    requires ToolOutput(value).Some?
    ensures HoldsImage(WithToolOutput(value, output)) == HoldsImage(value)
    ensures PassedOver(WithToolOutput(value, output)) == PassedOver(value)
    ensures !IsImageItem(value.fields["payload"]) && !IsImageItem(With(value.fields["payload"], "output", output))
  {
  }

  lemma TameWithOutput(value: Value, output: Value)
    requires ToolOutput(value).Some? && Tame(value) && Tame(output)
    ensures Tame(WithToolOutput(value, output))
  {
    OutputKeepsFlags(value, output);
    hide HoldsImage;
    hide TameUrl;
    var payload := value.fields["payload"];
    var fixed := With(payload, "output", output);
    if !HoldsImage(value) && !PassedOver(value) {
      assert Tame(payload);
      assert !HoldsImage(payload) && !HoldsImage(fixed) by {
        ImagesAreItems(payload);
        ImagesAreItems(fixed);
      }
      assert Tame(fixed);
    } else {
      assert HoldsImage(value) ==> StringAt(WithToolOutput(value, output), "image_url") == StringAt(value, "image_url");
    }
  }

  lemma ImagesAreItems(value: Value)
    ensures HoldsImage(value) || PassedOver(value) ==> IsImageItem(value)
  {
  }

  lemma QuietWithOutput(value: Value, output: Value)
    requires ToolOutput(value).Some? && !Touches(value) && !Touches(output)
    ensures !Touches(WithToolOutput(value, output))
  {
    OutputKeepsFlags(value, output);
    hide HoldsImage;
    var payload := value.fields["payload"];
    var fixed := With(payload, "output", output);
    ImagesAreItems(payload);
    ImagesAreItems(fixed);
    if !PassedOver(value) {
      assert !Touches(payload);
      assert !Touches(fixed);
    }
  }

  /** Scrubbing the whole record leaves an output that is already quiet as it is. */
  lemma OutputThroughScrub(value: Value, config: Config)
    requires ToolOutput(ScrubValue(value, UNKNOWN_PATH, config)).Some?
    requires ToolOutput(value).Some? ==> !Touches(ToolOutput(value).value)
    ensures ToolOutput(value) == ToolOutput(ScrubValue(value, UNKNOWN_PATH, config))
  {
    hide ScrubText;
    hide ImageText;
    var after := ScrubValue(value, UNKNOWN_PATH, config);
    var a, b := Get(value, "payload"), Get(after, "payload");
    ReducedGet(Some(value), Some(after), "payload", config);
    ReducedWord(a, b, "function_call_output", config);
    if after != value && b.value != a.value {
      assert ToolOutput(value).Some?;
      UntouchedStays(ToolOutput(value).value, UNKNOWN_PATH, config);
    }
  }

  /** The images step and the whole-record step leave nothing to scrub, in the record or in its output. */
  lemma ScrubbedRecord(value: Value, calls: ToolCalls, config: Config)
    requires Plain(config) && CallsTame(calls) && Tame(value) && (ToolOutput(value).Some? ==> Tame(ToolOutput(value).value))
    ensures var scrubbed := ScrubValue(PruneInlineImages(value, calls, config).0, UNKNOWN_PATH, config);
            !Touches(scrubbed) && (ToolOutput(scrubbed).Some? ==> !Touches(ToolOutput(scrubbed).value))
  {
    hide ScrubValue;
    hide Touches;
    hide Contains;
    hide Tame;
    WordsQuiet();
    var shown := PruneInlineImages(value, calls, config).0;
    if ToolOutput(value).Some? {
      var output, path := ToolOutput(value).value, ImagePathFor(value, calls);
      ScrubbedIsQuiet(output, path, config);
      QuietIsTame(ScrubValue(output, path, config));
      TameWithOutput(value, ScrubValue(output, path, config));
      OutputStaysOutput(value, ScrubValue(output, path, config));
    }
    ScrubbedIsQuiet(shown, UNKNOWN_PATH, config);
    if ToolOutput(ScrubValue(shown, UNKNOWN_PATH, config)).Some? {
      OutputThroughScrub(shown, config);
    }
  }

  /** What makes a second pass leave a value alone. */
  ghost predicate Finished(value: Value, config: Config, codec: Codec) {
    && Settled(value, config.trigger) && !Touches(value)
    && (ToolOutput(value).Some? ==>
          && !Touches(ToolOutput(value).value)
          && (HasInlineImage(ToolOutput(value).value) || EncodedLength(ToolOutput(value).value, codec) < config.threshold))
  }

  lemma FinishedIsFixed(value: Value, estimated: nat, calls: ToolCalls, config: Config, codec: Codec)
    requires Finished(value, config, codec)
    ensures Rewrite(value, estimated, calls, config, codec) == (value, NO_COUNTS)
  {
    hide Touches;
    hide ScrubValue;
    hide ObservedTokens;
    hide IsRecoverableTaskError;
    hide HasInlineImage;
    assert NormalizeTokenCount(value, estimated, config.trigger) == (value, false);
    assert NormalizeGoal(value, config) == (value, false);
    NoUserImages(value, config, codec);
    if ToolOutput(value).Some? {
      UntouchedStays(ToolOutput(value).value, ImagePathFor(value, calls), config);
      SameOutput(value);
    }
    UntouchedStays(value, UNKNOWN_PATH, config);
  }

  lemma NoUserImages(value: Value, config: Config, codec: Codec)
    requires UserQuiet(value)
    ensures ScrubUserImages(value, config, codec) == (value, 0)
  {
    if IsEvent(value, "user_message") {
      var payload := value.fields["payload"];
      assert FieldPlaceholders(payload, "images", config, codec) == [];
      assert FieldPlaceholders(payload, "local_images", config, codec) == [];
    }
  }

  lemma PruneLeavesFinished(value: Value, calls: ToolCalls, config: Config, codec: Codec)
    requires Plain(config) && CallsTame(calls) && Settled(value, config.trigger) && !Touches(value)
    requires ToolOutput(value).Some? ==> !Touches(ToolOutput(value).value)
    requires var (after, pruned) := PruneLargeOutput(value, calls, config, codec);
             pruned && ToolOutput(after).Some? ==> EncodedLength(ToolOutput(after).value, codec) < config.threshold
    ensures Finished(PruneLargeOutput(value, calls, config, codec).0, config, codec)
  {
    hide Touches;
    hide HasInlineImage;
    hide Notice;
    hide Settled;
    hide Contains;
    var (after, pruned) := PruneLargeOutput(value, calls, config, codec);
    if pruned {
      var call, length := CallFor(value, calls), EncodedLength(ToolOutput(value).value, codec);
      WordsQuiet();
      NoticeQuiet(call, length);
      QuietString(Notice(call, length));
      QuietWithOutput(value, String(Notice(call, length)));
      OutputStaysOutput(value, String(Notice(call, length)));
      OutputIsSettled(after, config.trigger);
    }
  }

  lemma QuietString(text: string)
    requires !HasMarker(text)
    ensures !Touches(String(text))
  {
  }

  /** The rewritten value of a kept record is left alone by any later pass. */
  lemma RewriteFinishes(value: Value, estimated: nat, calls: ToolCalls, config: Config, codec: Codec)
    requires Plain(config) && CallsTame(calls) && config.recovery < config.trigger && config.recovery <= U64_MAX
    requires !IsAlert(value, config.trigger) && Calm(value, estimated, calls, config, codec)
    ensures Finished(Rewrite(value, estimated, calls, config, codec).0, config, codec)
  {
    hide IsAlert;
    hide Tame;
    hide Touches;
    hide ScrubValue;
    hide PruneLargeOutput;
    hide PruneInlineImages;
    hide ScrubUserImages;
    hide NormalizeGoal;
    hide GoalQuiet;
    hide UserQuiet;
    hide Finished;
    assert !IsHighTokenCount(value, config.trigger) by {
      NotAlert(value, config.trigger);
    }
    GoalStep(value, config);
    var goaled := NormalizeGoal(value, config).0;
    UserStep(goaled, config, codec);
    var unattached := ScrubUserImages(goaled, config, codec).0;
    var shown := PruneInlineImages(unattached, calls, config).0;
    InlineStep(unattached, calls, config);
    ScrubStep(shown, config);
    ScrubbedRecord(unattached, calls, config);
    PruneLeavesFinished(ScrubValue(shown, UNKNOWN_PATH, config), calls, config, codec);
  }

  lemma NotAlert(value: Value, trigger: nat)
    requires !IsAlert(value, trigger)
    ensures !IsHighTokenCount(value, trigger)
  {
  }

  lemma InlineStep(value: Value, calls: ToolCalls, config: Config)
    requires Settled(value, config.trigger)
    ensures Settled(PruneInlineImages(value, calls, config).0, config.trigger)
  {
    hide Settled;
    hide ScrubValue;
    hide Touches;
    if ToolOutput(value).Some? {
      var output := ScrubValue(ToolOutput(value).value, ImagePathFor(value, calls), config);
      OutputStaysOutput(value, output);
      OutputIsSettled(WithToolOutput(value, output), config.trigger);
    }
  }

  // ---- The whole file ----

  /** What a file must bring for one pass to be enough. */
  ghost predicate CalmFile(records: seq<Record>, config: Config, codec: Codec) {
    var plan := PlanFor(records, config, codec);
    && CallsTame(plan.analysis.toolCalls)
    && forall i :: 0 <= i < |records| && FateOf(i, records[i], plan, config, codec).Kept? ==>
         Calm(records[i].value, plan.estimated, plan.analysis.toolCalls, config, codec)
  }

  lemma NoRepairs(records: seq<Record>, config: Config, codec: Codec)
    requires Plain(config)
    ensures !PlanFor(records, config, codec).repairs
  {
  }

  lemma FateFinishes(records: seq<Record>, config: Config, codec: Codec, i: nat)
    requires i < |records| && Plain(config) && config.recovery < config.trigger && config.recovery <= U64_MAX
    requires CalmFile(records, config, codec) && FateOf(i, records[i], PlanFor(records, config, codec), config, codec).Kept?
    ensures Finished(FateOf(i, records[i], PlanFor(records, config, codec), config, codec).value, config, codec)
  {
    hide Rewrite;
    hide Calm;
    hide Finished;
    hide IsAlert;
    hide CallsTame;
    NoRepairs(records, config, codec);
    var plan := PlanFor(records, config, codec);
    RewriteFinishes(records[i].value, plan.estimated, plan.analysis.toolCalls, config, codec);
  }

  ghost predicate AllFinished(records: seq<Record>, config: Config, codec: Codec) {
    forall k :: 0 <= k < |records| ==> Finished(records[k].value, config, codec)
  }

  lemma NoneFinished(config: Config, codec: Codec)
    ensures AllFinished([], config, codec)
  {
  }

  lemma FinishedSnoc(records: seq<Record>, record: Record, config: Config, codec: Codec)
    requires AllFinished(records, config, codec) && Finished(record.value, config, codec)
    ensures AllFinished(records + [record], config, codec)
  {
    hide Finished;
  }

  lemma {:induction false} KeptFinish(records: seq<Record>, config: Config, codec: Codec, n: nat)
    requires n <= |records| && Plain(config) && config.recovery < config.trigger && config.recovery <= U64_MAX
    requires CalmFile(records, config, codec)
    ensures var kept := KeptRecords(records, PlanFor(records, config, codec), config, codec, n);
            AllFinished(kept, config, codec)
  {
    hide FateOf;
    hide AllFinished;
    hide CalmFile;
    hide PlanFor;
    if n == 0 {
      NoneFinished(config, codec);
    } else {
      KeptFinish(records, config, codec, n - 1);
      if FateOf(n - 1, records[n - 1], PlanFor(records, config, codec), config, codec).Kept? {
        var fate := FateOf(n - 1, records[n - 1], PlanFor(records, config, codec), config, codec);
        var before := KeptRecords(records, PlanFor(records, config, codec), config, codec, n - 1);
        var image := Image(records[n - 1], fate.value, codec);
        FateFinishes(records, config, codec, n - 1);
        FinishedSnoc(before, image, config, codec);
      }
    }
  }

  lemma FinishedIsKept(records: seq<Record>, config: Config, codec: Codec, i: nat)
    requires i < |records| && Plain(config)
    requires AllFinished(records, config, codec)
    ensures FateOf(i, records[i], PlanFor(records, config, codec), config, codec) == Kept(records[i].value, NO_COUNTS)
  {
    hide Rewrite;
    hide IsAlert;
    hide Touches;
    hide HasInlineImage;
    NoRepairs(records, config, codec);
    assert forall k :: 0 <= k < |records| ==> !IsAlert(records[k].value, config.trigger);
    assert FoldStart(records, config.trigger).None?;
    var plan := PlanFor(records, config, codec);
    FinishedIsFixed(records[i].value, plan.estimated, plan.analysis.toolCalls, config, codec);
  }

  lemma {:induction false} FinishedFileIsQuiet(records: seq<Record>, config: Config, codec: Codec, n: nat)
    requires n <= |records| && Plain(config)
    requires AllFinished(records, config, codec)
    ensures !StatsAfter(records, PlanFor(records, config, codec), config, codec, n).Changed()
  {
    hide FateOf;
    hide Finished;
    hide PlanFor;
    if n == 0 {
      NoRepairs(records, config, codec);
    } else {
      FinishedFileIsQuiet(records, config, codec, n - 1);
      FinishedIsKept(records, config, codec, n - 1);
    }
  }

  /** The contents after a pass: what was written, or the file as it was. */
  function After(contents: string, cleaned: Cleaned): string {
    if cleaned.written.Some? then cleaned.written.value else contents
  }

  /** One pass is enough: cleaning the result again reports no change and writes nothing. */
  lemma CleaningReachesAFixedPoint(contents: string, config: Config, codec: Codec)
    requires Plain(config) && config.recovery < config.trigger && config.recovery <= U64_MAX
    requires ParseRecords(contents, codec).Ok? && CalmFile(ParseRecords(contents, codec).value, config, codec)
    requires var records := ParseRecords(contents, codec).value;
             WritesAreRead(records, PlanFor(records, config, codec), config, codec, |records|)
    ensures var first := Clean(contents, config, codec);
            && first.Ok?
            && Clean(After(contents, first.value), config, codec).Ok?
            && !Clean(After(contents, first.value), config, codec).value.stats.Changed()
            && Clean(After(contents, first.value), config, codec).value.written.None?
  {
    hide CalmFile;
    hide PlanFor;
    hide StatsAfter;
    hide Output;
    hide WritesAreRead;
    var first := Clean(contents, config, codec).value;
    if first.stats.Changed() {
      var records := ParseRecords(contents, codec).value;
      var kept := KeptRecords(records, PlanFor(records, config, codec), config, codec, |records|);
      OutputReparses(contents, config, codec);
      KeptFinish(records, config, codec, |records|);
      FinishedFileIsQuiet(kept, config, codec, |kept|);
    }
  }
}
