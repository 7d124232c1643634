/** What each rewriting step of the cleaner does to a record, stated on the record's fields. */
module RolloutSteps {
  import opened Prelude
  import opened Text
  import opened Json
  import opened TextFacts
  import opened DataUri
  import opened Rollout
  import opened RolloutRecords
  import opened RolloutScrub
  import Utf8
  import MF = MessageFormat
  import MV = MessageValidity
  import MR = MessageRepairs
  import RR = RolloutRetention
  import RF = RolloutFixpoint

  // ---- Token goals ----

  /** A goal update whose goal is an object with at least trigger tokens used. */
  ghost predicate GoalOver(value: Value, trigger: nat) {
    var goal := At(value, ["payload", "goal"]);
    && Event(value, "thread_goal_updated") && goal.Some? && goal.value.Object?
    && (trigger == 0 || ReportsOver(value, ["payload", "goal", "tokensUsed"], trigger))
  }

  /** Both are objects that agree on every other key. */
  ghost predicate SameBut(before: Value, after: Value, key: string) {
    && before.Object? && after.Object? && key in after.fields
    && forall other :: other != key ==>
         (other in after.fields <==> other in before.fields) && (other in before.fields ==> after.fields[other] == before.fields[other])
  }

  /** The goal's tokens read the recovery value; every other key of the goal, of the payload and of the record is as it was. */
  ghost predicate GoalReset(before: Value, after: Value, recovery: nat) {
    && SameBut(before, after, "payload")
    && "payload" in before.fields && SameBut(before.fields["payload"], after.fields["payload"], "goal")
    && "goal" in before.fields["payload"].fields
    && var (goal, reset) := (before.fields["payload"].fields["goal"], after.fields["payload"].fields["goal"]);
    && SameBut(goal, reset, "tokensUsed") && reset.fields["tokensUsed"] == Number(Decimal(recovery))
  }

  lemma GoalOverIff(value: Value, config: Config)
    ensures NormalizeGoal(value, config).1 <==> GoalOver(value, config.trigger)
    ensures GoalOver(value, config.trigger) ==>
              && value.Object? && "payload" in value.fields && value.fields["payload"].Object?
              && "goal" in value.fields["payload"].fields && value.fields["payload"].fields["goal"].Object?
  {
    hide AsU64;
    hide At;
    hide ReportsOver;
    EventIff(value, "thread_goal_updated");
    hide Event;
    AtTwo(value, "payload", "goal");
    AtThree(value, "payload", "goal", "tokensUsed");
    ReadIff(value, ["payload", "goal", "tokensUsed"], config.trigger);
  }

  /** The goal step acts exactly on goals over the trigger, and resets their count and nothing else. */
  lemma GoalIsReset(value: Value, config: Config)
    ensures NormalizeGoal(value, config).1 <==> GoalOver(value, config.trigger)
    ensures !NormalizeGoal(value, config).1 ==> NormalizeGoal(value, config).0 == value
    ensures NormalizeGoal(value, config).1 ==> GoalReset(value, NormalizeGoal(value, config).0, config.recovery)
  {
    GoalOverIff(value, config);
    hide AsU64;
    hide Decimal;
    hide GoalOver;
  }

  // ---- Records without attachments or tool output ----

  /** A record that is no user message and no tool output is only scrubbed, once its count or goal is reset. */
  lemma OthersAreScrubbed(value: Value, estimated: nat, calls: ToolCalls, config: Config, codec: Codec)
    requires !IsHighTokenCount(value, config.trigger) && !IsEvent(value, "user_message") && ToolOutput(value).None?
    ensures Rewrite(value, estimated, calls, config, codec).0 == ScrubValue(NormalizeGoal(value, config).0, "unknown image path", config)
  {
    hide ScrubValue;
    hide Touches;
    hide AsU64;
    var goaled := NormalizeGoal(value, config).0;
    assert StringAt(goaled, "type") == StringAt(value, "type");
    assert AsString(GetIn(Get(goaled, "payload"), "type")) == AsString(GetIn(Get(value, "payload"), "type"));
    assert ToolOutput(goaled).None?;
    assert !IsEvent(goaled, "user_message");
    ScrubbedIsNoOutput(goaled, config);
  }

  /** Scrubbing makes no tool output of a record that is none: the type of its payload would have to be one already. */
  lemma ScrubbedIsNoOutput(value: Value, config: Config)
    requires ToolOutput(value).None?
    ensures ToolOutput(ScrubValue(value, UNKNOWN_PATH, config)).None?
  {
    hide ScrubValue;
    if ToolOutput(ScrubValue(value, UNKNOWN_PATH, config)).Some? {
      RF.OutputThroughScrub(value, config);
    }
  }

  lemma GoalIsUnchecked(value: Value, trigger: nat)
    requires GoalOver(value, trigger)
    ensures MF.CheckOf(value).Unchecked? && !IsEvent(value, "token_count") && !IsEvent(value, "user_message") && ToolOutput(value).None?
  {
    EventIff(value, "thread_goal_updated");
    assert "thread_goal_updated" != "user_message" && "thread_goal_updated" != "token_count";
    assert "thread_goal_updated" != "function_call_output";
  }

  /** A kept goal over the trigger is written with its count reset and all else as it was, unless it holds an inline image. */
  lemma KeptGoalIsReset(index: nat, record: Record, plan: Plan, config: Config, codec: Codec)
    requires FateOf(index, record, plan, config, codec).Kept? && GoalOver(record.value, config.trigger)
    requires !Touches(NormalizeGoal(record.value, config).0)
    ensures GoalReset(record.value, FateOf(index, record, plan, config, codec).value, config.recovery)
    ensures FateOf(index, record, plan, config, codec).counts.goals == 1
  {
    hide AsU64;
    hide ScrubValue;
    hide Touches;
    GoalIsUnchecked(record.value, config.trigger);
    hide GoalOver;
    GoalIsReset(record.value, config);
    OthersAreScrubbed(record.value, plan.estimated, plan.analysis.toolCalls, config, codec);
    RR.UntouchedStays(NormalizeGoal(record.value, config).0, UNKNOWN_PATH, config);
  }

  // ---- Token counts ----

  /** The usage reads the estimate for input and total, and zero for everything else. */
  predicate UsageReset(usage: Value, estimated: nat) {
    && usage.Object?
    && usage.fields.Keys == {"input_tokens", "cached_input_tokens", "cache_write_input_tokens", "output_tokens", "reasoning_output_tokens", "total_tokens"}
    && usage.fields["input_tokens"] == Number(Decimal(estimated)) && usage.fields["total_tokens"] == Number(Decimal(estimated))
    && usage.fields["cached_input_tokens"] == Number(Decimal(0)) && usage.fields["cache_write_input_tokens"] == Number(Decimal(0))
    && usage.fields["output_tokens"] == Number(Decimal(0)) && usage.fields["reasoning_output_tokens"] == Number(Decimal(0))
  }

  ghost predicate TokenCountReset(before: Value, after: Value, estimated: nat) {
    && SameBut(before, after, "payload")
    && "payload" in before.fields && SameBut(before.fields["payload"], after.fields["payload"], "info")
    && "info" in before.fields["payload"].fields
    && var (info, reset) := (before.fields["payload"].fields["info"], after.fields["payload"].fields["info"]);
    && SameBut(info, reset, "total_token_usage") && UsageReset(reset.fields["total_token_usage"], estimated)
  }

  ghost predicate CountOver(value: Value, trigger: nat) {
    var info := At(value, ["payload", "info"]);
    Event(value, "token_count") && Over(value, trigger) && info.Some? && info.value.Object?
  }

  lemma CountOverIff(value: Value, estimated: nat, trigger: nat)
    ensures NormalizeTokenCount(value, estimated, trigger).1 <==> CountOver(value, trigger)
    ensures CountOver(value, trigger) ==>
              && value.Object? && "payload" in value.fields && value.fields["payload"].Object?
              && "info" in value.fields["payload"].fields && value.fields["payload"].fields["info"].Object?
  {
    hide ObservedTokens;
    hide At;
    hide Over;
    EventIff(value, "token_count");
    hide Event;
    OverIff(value, trigger);
    AtTwo(value, "payload", "info");
  }

  /** The token-count step acts exactly on counts over the trigger, and replaces their total usage and nothing else. */
  lemma TokenCountIsReset(value: Value, estimated: nat, trigger: nat)
    ensures NormalizeTokenCount(value, estimated, trigger).1 <==> CountOver(value, trigger)
    ensures !NormalizeTokenCount(value, estimated, trigger).1 ==> NormalizeTokenCount(value, estimated, trigger).0 == value
    ensures NormalizeTokenCount(value, estimated, trigger).1 ==>
              TokenCountReset(value, NormalizeTokenCount(value, estimated, trigger).0, estimated)
  {
    CountOverIff(value, estimated, trigger);
    hide CountOver;
    hide IsHighTokenCount;
    hide Decimal;
  }

  function TotalBytes(records: seq<Record>): nat {
    if records == [] then 0 else |Utf8.Encode(records[0].line)| + TotalBytes(records[1..])
  }

  /** A quarter of the bytes of all lines, at least one, and at most the recovery value. */
  lemma {:induction false} EstimateIs(records: seq<Record>, recovery: nat)
    ensures var (e, bytes) := (EstimatedTokens(records, recovery), TotalBytes(records));
            && e <= recovery && (e < recovery ==> (if bytes < 4 then e == 1 else 4 * e <= bytes < 4 * e + 4))
            && (recovery > 0 ==> e > 0) && 4 * e <= 4 + bytes
  {
    BytesAre(records);
  }

  lemma {:induction false} BytesAre(records: seq<Record>)
    ensures LineBytes(records) == TotalBytes(records)
  {
    if records != [] {
      ByteLengthIsEncoded(records[0].line);
      BytesAre(records[1..]);
    }
  }

  // ---- Tool outputs ----

  predicate OutputAt(value: Value, output: Value) {
    Says(value, ["payload", "type"], "function_call_output") && At(value, ["payload", "output"]) == Some(output)
  }

  /** The call a record names, or a fixed word. */
  function CallKey(value: Value): string {
    match At(value, ["payload", "call_id"])
    case Some(String(id)) => id
    case _ => "unknown-call"
  }

  lemma OutputIff(value: Value, output: Value)
    ensures ToolOutput(value) == Some(output) <==> OutputAt(value, output)
    ensures ToolOutput(value).Some? ==> CallId(value) == CallKey(value)
  {
    AtTwo(value, "payload", "type");
    AtTwo(value, "payload", "output");
    AtTwo(value, "payload", "call_id");
  }

  /** The output is the new one; every other key of the payload and of the record is as it was. */
  ghost predicate OutputReplaced(before: Value, after: Value, output: Value) {
    && SameBut(before, after, "payload")
    && "payload" in before.fields && SameBut(before.fields["payload"], after.fields["payload"], "output")
    && after.fields["payload"].fields["output"] == output
  }

  lemma ReplacingOutput(value: Value, output: Value)
    requires ToolOutput(value).Some?
    ensures OutputReplaced(value, WithToolOutput(value, output), output)
  {
  }

  /** The path of the image that the call viewed, or a fixed phrase. */
  predicate ViewedPath(value: Value, calls: ToolCalls, path: string) {
    if CallKey(value) in calls && calls[CallKey(value)].imagePath.Some? then path == calls[CallKey(value)].imagePath.value
    else path == "unknown image path"
  }

  /** The image step acts exactly on tool outputs with something to scrub, names the viewed image, and replaces nothing
      but the output. */
  lemma OutputImagesArePruned(value: Value, calls: ToolCalls, config: Config, output: Value, path: string)
    requires OutputAt(value, output) && ViewedPath(value, calls, path)
    ensures OutputReplaced(value, PruneInlineImages(value, calls, config).0, ScrubValue(output, path, config))
    ensures PruneInlineImages(value, calls, config).1 <==> exists steps :: MarkedAt(output, steps)
  {
    hide ScrubValue;
    hide Touches;
    hide MarkedAt;
    OutputIff(value, output);
    hide At;
    TouchesIff(output);
    ReplacingOutput(value, ScrubValue(output, path, config));
  }

  lemma OnlyOutputsArePruned(value: Value, calls: ToolCalls, config: Config, codec: Codec)
    requires forall output: Value :: !OutputAt(value, output)
    ensures PruneInlineImages(value, calls, config) == (value, false)
    ensures PruneLargeOutput(value, calls, config, codec) == (value, false)
  {
    if ToolOutput(value).Some? {
      OutputIff(value, ToolOutput(value).value);
    }
  }

  /** The output's own text when it is a string, and its JSON text otherwise. */
  predicate OutputText(output: Value, codec: Codec, text: string) {
    text == if output.String? then output.text else codec.write(output)
  }

  /** The call with the record's id, or one without name and arguments. */
  predicate CalledBy(value: Value, calls: ToolCalls, call: ToolCall) {
    call == if CallKey(value) in calls then calls[CallKey(value)] else ToolCall("", None, None)
  }

  /** The name and the arguments of the call, or words that stand for them. */
  predicate CallWords(call: ToolCall, name: string, arguments: string) {
    && name == (if call.name == "" then "unknown-tool" else call.name)
    && arguments == (if call.argumentsPreview.Some? then call.argumentsPreview.value else "unknown arguments")
  }

  /** The summary of the text, when there is a summarizer and it gives one, and a notice otherwise. */
  ghost predicate LargeText(text: string, length: nat, call: ToolCall, config: Config, result: string) {
    exists name, arguments :: CallWords(call, name, arguments) &&
      match if config.summarize.Some? then config.summarize.value(text, call) else None
      case Some(summary) =>
        result == "Large tool output summarized by context-guardian via CC Switch because the original tool result was " + Decimal(length)
          + (" bytes and could exceed " + "the model context window. ") + "Tool: " + name + ". Arguments: " + arguments
          + ".\n\nSummary:\n" + summary
      case None =>
        result == "Large tool output pruned " + "by context-guardian because " + "the original tool result was " + Decimal(length)
          + (" bytes and could exceed " + "the model context window. ") + "Tool: " + name + ". Arguments: " + arguments
          + ("." + (" Re-run the command or " + "inspect the referenced file " + "manually if the full output " + "is needed."))
  }

  lemma LargeTextIs(text: string, length: nat, call: ToolCall, config: Config)
    ensures LargeText(text, length, call, config,
              match if config.summarize.Some? then config.summarize.value(text, call) else None
              case Some(summary) => Summarized(call, length, summary)
              case None => Notice(call, length))
  {
    hide Decimal;
    assert CallWords(call, ToolName(call), ToolArguments(call));
  }

  ghost predicate LargeOutput(output: Value, config: Config, codec: Codec) {
    |Utf8.Encode(codec.write(output))| >= config.threshold && forall steps :: !ImageTextAt(output, steps)
  }

  /** The size step acts exactly on tool outputs without inline images whose encoding reaches the threshold, and replaces
      them by a text that names the call and the size. */
  lemma LargeOutputsAreReplaced(value: Value, calls: ToolCalls, config: Config, codec: Codec, output: Value, text: string, call: ToolCall)
    requires OutputAt(value, output) && OutputText(output, codec, text) && CalledBy(value, calls, call)
    ensures var (after, large) := PruneLargeOutput(value, calls, config, codec);
            && (large <==> LargeOutput(output, config, codec)) && (!large ==> after == value)
            && (large ==> exists result :: LargeText(text, |Utf8.Encode(codec.write(output))|, call, config, result)
                                             && OutputReplaced(value, after, String(result)))
  {
    hide HasInlineImage;
    hide ByteLength;
    hide ImageTextAt;
    hide LargeText;
    hide Notice;
    hide Summarized;
    hide WithToolOutput;
    hide OutputReplaced;
    OutputIff(value, output);
    hide OutputAt;
    hide CallKey;
    HasInlineImageIff(output);
    ByteLengthIsEncoded(codec.write(output));
    LargeTextIs(text, ByteLength(codec.write(output)), call, config);
    var result := PruneLargeOutput(value, calls, config, codec);
    if result.1 {
      var summary := if config.summarize.Some? then config.summarize.value(text, call) else None;
      var length := EncodedLength(output, codec);
      ReplacingOutput(value, String(if summary.Some? then Summarized(call, length, summary.value) else Notice(call, length)));
    }
  }

  // ---- Attachments ----

  /** A placeholder names the thread, the field and the size, and begins as the attachment does. */
  lemma PlaceholderIs(field: string, item: Value, config: Config, codec: Codec, short: string)
    requires Shortened(if item.String? then item.text else codec.write(item), 300, short)
    ensures UserImagePlaceholder(field, item, config, codec) ==
              String("[context-guardian:user-image-placeholder thread=" + config.thread + " field=" + field
                + " estimated_removed_bytes=" + Decimal(config.referenceBytes(item)) + " original=" + short + "]")
  {
    hide Decimal;
    ShortenedIff(if item.String? then item.text else codec.write(item), 300, short);
    hide PreviewOf;
  }

  /** The message gets the note behind it, unless it speaks of the placeholders already; any other message becomes the note. */
  lemma NoteIs(payload: Value, count: nat)
    requires payload.Object?
    ensures var note := "[context-guardian removed " + Decimal(count)
                        + " image attachment(s) from this historical user message. The image references are preserved in "
                        + "payload.image_placeholders" + " so future context rebuilds do not inline large image bodies.]";
            var noted := Annotated(payload, count);
            && SameBut(payload, With(noted, "message", Null), "message") && noted.Object? && "message" in noted.fields
            && match Get(payload, "message")
               case Some(String(message)) =>
                 noted.fields["message"] ==
                   String(if Mentions(message, "payload.image_placeholders") then message else message + ("\n\n" + note))
               case _ => noted.fields["message"] == String(note)
  {
    hide Mentions;
    hide Decimal;
    hide Trim;
    var core := "[context-guardian removed " + Decimal(count) + NOTE_BODY + PLACEHOLDERS_FIELD + NOTE_END;
    assert core[0] == '[' && core[|core| - 1] == ']';
    RR.TrimBreaks(core);
  }

  /** Attachments are counted in user messages only, those of both fields. */
  lemma AttachmentsAreCounted(value: Value, config: Config, codec: Codec)
    ensures !Event(value, "user_message") ==> ScrubUserImages(value, config, codec) == (value, 0)
    ensures Event(value, "user_message") && value.Object? && "payload" in value.fields ==>
              ScrubUserImages(value, config, codec).1 ==
                |RR.ItemsAt(value.fields["payload"], "images")| + |RR.ItemsAt(value.fields["payload"], "local_images")|
  {
    hide UserImagePlaceholder;
    hide Annotated;
    EventIff(value, "user_message");
  }

  // ---- All steps in turn ----

  lemma QuietUnlessEvent(value: Value, estimated: nat, config: Config, codec: Codec)
    ensures !IsEvent(value, "token_count") ==> NormalizeTokenCount(value, estimated, config.trigger) == (value, false)
    ensures !IsEvent(value, "thread_goal_updated") ==> NormalizeGoal(value, config) == (value, false)
    ensures !IsEvent(value, "user_message") ==> ScrubUserImages(value, config, codec) == (value, 0)
  {
  }

  /** A user message first has its attachments replaced, and then its inline images. */
  lemma UserMessagesAreRewritten(value: Value, estimated: nat, calls: ToolCalls, config: Config, codec: Codec)
    requires Event(value, "user_message")
    ensures var (unattached, count) := ScrubUserImages(value, config, codec);
            && Rewrite(value, estimated, calls, config, codec).0 == ScrubValue(unattached, "unknown image path", config)
            && Rewrite(value, estimated, calls, config, codec).1 == Counts(0, 0, count, One(Touches(unattached)), 0)
  {
    EventIff(value, "user_message");
    assert "user_message" != "token_count" && "user_message" != "thread_goal_updated" && "user_message" != "function_call_output";
    QuietUnlessEvent(value, estimated, config, codec);
    var unattached := ScrubUserImages(value, config, codec).0;
    UnattachedIsNoOutput(value, config, codec);
    hide ScrubUserImages;
    hide ScrubValue;
    hide Touches;
    hide NormalizeTokenCount;
    hide NormalizeGoal;
    ScrubbedIsNoOutput(unattached, config);
  }

  lemma UnattachedIsNoOutput(value: Value, config: Config, codec: Codec)
    requires IsEvent(value, "user_message")
    ensures ToolOutput(ScrubUserImages(value, config, codec).0).None?
  {
    hide UserImagePlaceholder;
    hide NoteText;
    hide Mentions;
    hide Trim;
    assert "user_message" != "function_call_output";
  }

  lemma RewriteWhenQuiet(value: Value, estimated: nat, calls: ToolCalls, config: Config, codec: Codec)
    requires NormalizeTokenCount(value, estimated, config.trigger) == (value, false) && NormalizeGoal(value, config) == (value, false)
    requires ScrubUserImages(value, config, codec) == (value, 0)
    ensures var (pruned, images) := PruneInlineImages(value, calls, config);
            var (small, large) := PruneLargeOutput(ScrubValue(pruned, "unknown image path", config), calls, config, codec);
            Rewrite(value, estimated, calls, config, codec) == (small, Counts(0, 0, 0, One(images) + One(Touches(pruned)), One(large)))
  {
    hide ScrubUserImages;
    hide PruneInlineImages;
    hide PruneLargeOutput;
    hide ScrubValue;
    hide Touches;
    hide NormalizeTokenCount;
    hide NormalizeGoal;
  }

  /** A tool output has its images replaced under the path its call viewed, then the record any others, and then it is
      replaced as a whole if it is still large. */
  lemma OutputsAreRewritten(value: Value, estimated: nat, calls: ToolCalls, config: Config, codec: Codec, output: Value)
    requires OutputAt(value, output)
    ensures var (pruned, images) := PruneInlineImages(value, calls, config);
            var (small, large) := PruneLargeOutput(ScrubValue(pruned, "unknown image path", config), calls, config, codec);
            Rewrite(value, estimated, calls, config, codec) == (small, Counts(0, 0, 0, One(images) + One(Touches(pruned)), One(large)))
  {
    hide Rewrite;
    hide At;
    OutputIff(value, output);
    assert "function_call_output" != "token_count" && "function_call_output" != "thread_goal_updated";
    assert "function_call_output" != "user_message";
    QuietUnlessEvent(value, estimated, config, codec);
    RewriteWhenQuiet(value, estimated, calls, config, codec);
  }

  /** A kept record is rewritten from its repaired form when repairs apply, and from its own otherwise. */
  lemma KeptIsRewritten(records: seq<Record>, config: Config, codec: Codec, i: nat)
    requires i < |records| && FateOf(i, records[i], PlanFor(records, config, codec), config, codec).Kept?
    ensures var fate := FateOf(i, records[i], PlanFor(records, config, codec), config, codec);
            var from := if Repairable(records, config, codec) then MF.DiagnoseRecord(records[i].value, i, codec).value else records[i].value;
            (fate.value, fate.counts) ==
              Rewrite(from, EstimatedTokens(records, config.recovery), ToolCallsOf(records, codec), config, codec)
  {
    hide Rewrite;
    hide MF.DiagnoseRecord;
    hide IsAlert;
    hide IsUnknownError;
    hide EstimatedTokens;
    hide FoldStart;
    hide RepairsApply;
    hide Repairable;
    RepairsIff(records, config, codec);
  }

  // ---- Totals ----

  const FOLDED: Fate -> bool := (f: Fate) => f.Folded?
  const ALERTS: Fate -> bool := (f: Fate) => f.DroppedAlert?
  const UNKNOWNS: Fate -> bool := (f: Fate) => f.DroppedUnknown?
  const TOKEN_COUNTS: Counts -> nat := (c: Counts) => c.tokenCounts
  const GOALS: Counts -> nat := (c: Counts) => c.goals
  const USER_IMAGES: Counts -> nat := (c: Counts) => c.userImages
  const IMAGES: Counts -> nat := (c: Counts) => c.images
  const LARGE_OUTPUTS: Counts -> nat := (c: Counts) => c.largeOutputs

  ghost function FatesBefore(records: seq<Record>, plan: Plan, config: Config, codec: Codec, n: nat): (fates: seq<Fate>)
    requires n <= |records|
    ensures |fates| == n
    ensures forall i :: 0 <= i < n ==> fates[i] == FateOf(i, records[i], plan, config, codec)
  {
    seq(n, i requires 0 <= i < n => FateOf(i, records[i], plan, config, codec))
  }

  ghost function Where(fates: seq<Fate>, p: Fate -> bool): set<nat> {
    set i: nat | i < |fates| && p(fates[i])
  }

  ghost function Sum(fates: seq<Fate>, of: Counts -> nat): nat {
    if fates == [] then 0
    else
      var last := fates[|fates| - 1];
      Sum(fates[..|fates| - 1], of) + if last.Kept? then of(last.counts) else 0
  }

  ghost predicate Tallied(fates: seq<Fate>, stats: Stats) {
    && stats.folded == |Where(fates, FOLDED)| && stats.alerts == |Where(fates, ALERTS)|
    && stats.unknown == |Where(fates, UNKNOWNS)|
    && stats.counts.tokenCounts == Sum(fates, TOKEN_COUNTS) && stats.counts.goals == Sum(fates, GOALS)
    && stats.counts.userImages == Sum(fates, USER_IMAGES) && stats.counts.images == Sum(fates, IMAGES)
    && stats.counts.largeOutputs == Sum(fates, LARGE_OUTPUTS)
  }

  lemma WhereSnoc(fates: seq<Fate>, fate: Fate, p: Fate -> bool)
    ensures |Where(fates + [fate], p)| == |Where(fates, p)| + if p(fate) then 1 else 0
  {
    var all, n := fates + [fate], |fates|;
    if p(fate) {
      assert Where(all, p) == Where(fates, p) + {n};
    } else {
      assert Where(all, p) == Where(fates, p);
    }
  }

  lemma SumSnoc(fates: seq<Fate>, fate: Fate, of: Counts -> nat)
    ensures Sum(fates + [fate], of) == Sum(fates, of) + if fate.Kept? then of(fate.counts) else 0
  {
    assert (fates + [fate])[..|fates|] == fates;
  }

  lemma TallySnoc(fates: seq<Fate>, stats: Stats, fate: Fate)
    requires Tallied(fates, stats)
    ensures Tallied(fates + [fate], AddFate(stats, fate))
  {
    hide Where;
    hide Sum;
    WhereSnoc(fates, fate, FOLDED);
    WhereSnoc(fates, fate, ALERTS);
    WhereSnoc(fates, fate, UNKNOWNS);
    SumSnoc(fates, fate, TOKEN_COUNTS);
    SumSnoc(fates, fate, GOALS);
    SumSnoc(fates, fate, USER_IMAGES);
    SumSnoc(fates, fate, IMAGES);
    SumSnoc(fates, fate, LARGE_OUTPUTS);
  }

  /** The statistics count the folded and dropped records, and add up what was counted for the kept ones. */
  lemma {:induction false} StatsAreTotals(records: seq<Record>, plan: Plan, config: Config, codec: Codec, n: nat)
    requires n <= |records|
    ensures Tallied(FatesBefore(records, plan, config, codec, n), StatsAfter(records, plan, config, codec, n))
    ensures StatsAfter(records, plan, config, codec, n).repaired == FirstStats(records, plan, codec).repaired
  {
    hide FateOf;
    if n > 0 {
      StatsAreTotals(records, plan, config, codec, n - 1);
      hide Tallied;
      var before, fate := FatesBefore(records, plan, config, codec, n - 1), FateOf(n - 1, records[n - 1], plan, config, codec);
      TallySnoc(before, StatsAfter(records, plan, config, codec, n - 1), fate);
      assert FatesBefore(records, plan, config, codec, n) == before + [fate];
    }
  }

  ghost function Invalid(records: seq<Record>, n: nat): set<nat> {
    set i: nat | i < n && i < |records| && !MV.ValidRecord(records[i].value)
  }

  lemma InvalidSnoc(records: seq<Record>, n: nat)
    requires n < |records|
    ensures |Invalid(records, n + 1)| == |Invalid(records, n)| + if MV.ValidRecord(records[n].value) then 0 else 1
  {
    hide MV.ValidRecord;
    if MV.ValidRecord(records[n].value) {
      assert Invalid(records, n + 1) == Invalid(records, n);
    } else {
      assert Invalid(records, n + 1) == Invalid(records, n) + {n};
    }
  }

  lemma {:induction false} ChangedAreInvalid(records: seq<Record>, codec: Codec, n: nat)
    requires n <= |records| && AllFixable(records, codec)
    ensures ChangedRecords(Values(records), codec, n) == |Invalid(records, n)|
  {
    hide MF.DiagnoseRecord;
    hide MV.ValidRecord;
    hide MR.Fixable;
    if n > 0 {
      ChangedAreInvalid(records, codec, n - 1);
      StaysIffValid(records[n - 1].value, n - 1, codec);
      InvalidSnoc(records, n - 1);
      hide Invalid;
    }
  }

  /** The repaired records counted are the invalid ones, when repairs apply. */
  lemma RepairedAreCounted(records: seq<Record>, config: Config, codec: Codec)
    ensures FirstStats(records, PlanFor(records, config, codec), codec).repaired ==
              if Repairable(records, config, codec) then |Invalid(records, |records|)| else 0
  {
    hide RepairsApply;
    hide MF.DiagnoseRecord;
    hide MV.ValidRecord;
    hide AllFixable;
    hide UnknownError;
    hide AllValid;
    RepairsIff(records, config, codec);
    if Repairable(records, config, codec) {
      ChangedAreInvalid(records, codec, |records|);
    }
  }
}
