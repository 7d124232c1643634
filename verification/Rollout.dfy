/** Cleaning a rollout file: which records are kept, how each kept value is rewritten, and the text written back. */
module Rollout {
  import opened Prelude
  import opened Text
  import opened Json
  import opened DataUri
  import MF = MessageFormat
  import MT = MessageTheorems
  import MD = MessageDiagnosis

  const U64_MAX: nat := 0xFFFF_FFFF_FFFF_FFFF

  datatype Record = Record(line: string, newline: string, value: Value)

  datatype ToolCall = ToolCall(name: string, imagePath: Option<string>, argumentsPreview: Option<string>)

  type ToolCalls = map<string, ToolCall>

  /** Settings, and what the environment answers: whether probe and capture support a repair, the size of an image
      reference, a published link for an image, a summary of a large output. */
  datatype Config = Config(
    thread: string, trigger: nat, recovery: nat, threshold: nat,
    preview: bool, probeSupports: bool, captureSupports: bool,
    referenceBytes: Value -> nat,
    publish: Option<string -> Option<string>>,
    summarize: Option<(string, ToolCall) -> Option<string>>)

  /** A thread id: letters of hexadecimal digits and hyphens. */
  predicate SafeThread(thread: string) {
    thread != "" && |thread| <= 80 && forall i :: 0 <= i < |thread| ==> IsHexDigit(thread[i]) || thread[i] == '-'
  }

  // ---- Lines ----

  function SplitInclusive(text: string): seq<string>
    decreases |text|
  {
    if text == "" then []
    else
      match FindWhere(text, c => c == '\n')
      case None => [text]
      case Some(i) => [text[..i + 1]] + SplitInclusive(text[i + 1..])
  }

  function SplitNewline(raw: string): (string, string) {
    if raw != "" && raw[|raw| - 1] == '\n' then (raw[..|raw| - 1], "\n") else (raw, "")
  }

  predicate IsBlank(line: string) {
    Trim(line) == ""
  }

  /** The records of the pieces, or the number of the first line that is not JSON. */
  function ParsePieces(pieces: seq<string>, codec: Codec): Result<seq<Record>, nat> {
    if pieces == [] then Ok([])
    else
      var n := |pieces| - 1;
      match ParsePieces(pieces[..n], codec)
      case Err(line) => Err(line)
      case Ok(before) =>
        var (line, newline) := SplitNewline(pieces[n]);
        if IsBlank(line) then Ok(before)
        else
          match codec.parse(line)
          case None => Err(n + 1)
          case Some(value) => Ok(before + [Record(line, newline, value)])
  }

  function ParseRecords(contents: string, codec: Codec): Result<seq<Record>, nat> {
    ParsePieces(SplitInclusive(contents), codec)
  }

  // ---- Alerts ----

  function AsU64(value: Option<Value>): nat {
    match value
    case Some(Number(literal)) => (match ParseUnsigned(literal, U64_MAX) case Some(n) => n case None => 0)
    case _ => 0
  }

  function Max(a: nat, b: nat): nat {
    if a < b then b else a
  }

  function GetIn(value: Option<Value>, key: string): Option<Value> {
    match value
    case None => None
    case Some(v) => Get(v, key)
  }

  function UsageTokens(usage: Option<Value>): nat {
    Max(AsU64(GetIn(usage, "input_tokens")), AsU64(GetIn(usage, "total_tokens")))
  }

  function ObservedTokens(payload: Option<Value>): nat {
    var info := GetIn(payload, "info");
    Max(UsageTokens(GetIn(info, "last_token_usage")), UsageTokens(GetIn(info, "total_token_usage")))
  }

  predicate IsEvent(value: Value, payloadType: string) {
    StringAt(value, "type") == Some("event_msg") && AsString(GetIn(Get(value, "payload"), "type")) == Some(payloadType)
  }

  predicate IsHighTokenCount(value: Value, trigger: nat) {
    IsEvent(value, "token_count") && ObservedTokens(Get(value, "payload")) >= trigger
  }

  function LowerOrEmpty(value: Option<Value>): string {
    match AsString(value)
    case None => ""
    case Some(text) => ToLower(text)
  }

  predicate IsRecoverableTaskError(value: Value) {
    IsEvent(value, "task_complete") &&
    var error := GetIn(Get(value, "payload"), "error");
    var info, message := LowerOrEmpty(GetIn(error, "codex_error_info")), LowerOrEmpty(GetIn(error, "message"));
    || Mentions(info, "context_window_exceeded")
    || Mentions(message, "context window")
    || Mentions(message, "exceeds the context")
    || Mentions(message, "input exceeds")
    || (Mentions(message, "image_url") && (Mentions(message, "invalid format") || Mentions(message, "valid url")))
  }

  predicate IsTaskError(value: Value) {
    IsEvent(value, "task_complete") &&
    var error := GetIn(Get(value, "payload"), "error");
    error.Some? && !error.value.Null?
  }

  predicate IsAlert(value: Value, trigger: nat) {
    IsHighTokenCount(value, trigger) || IsRecoverableTaskError(value)
  }

  predicate IsUnknownError(value: Value) {
    IsTaskError(value) && !IsRecoverableTaskError(value)
  }

  predicate IsCompacted(value: Value) {
    StringAt(value, "type") == Some("compacted")
  }

  predicate IsSessionMeta(value: Value) {
    StringAt(value, "type") == Some("session_meta")
  }

  // ---- Analysis ----

  function PreviewOf(text: string, max: nat): string {
    if |text| > max then text[..max] + "..." else text
  }

  function ArgumentPath(arguments: Value, codec: Codec): Option<string> {
    match arguments
    case String(text) => (match codec.parse(text) case None => None case Some(value) => StringAt(value, "path"))
    case Object(_) => StringAt(arguments, "path")
    case _ => None
  }

  function ToolCallOf(value: Value, codec: Codec): Option<(string, ToolCall)> {
    var payload := Get(value, "payload");
    if AsString(GetIn(payload, "type")) != Some("function_call") then None
    else
      var id, name := AsString(GetIn(payload, "call_id")), AsString(GetIn(payload, "name"));
      if id.None? || name.None? then None
      else
        match GetIn(payload, "arguments")
        case None => Some((id.value, ToolCall(name.value, None, None)))
        case Some(arguments) =>
          var text := if arguments.String? then arguments.text else codec.write(arguments);
          var path := if name.value == "view_image" then ArgumentPath(arguments, codec) else None;
          Some((id.value, ToolCall(name.value, path, Some(PreviewOf(text, 400)))))
  }

  function AddToolCall(calls: ToolCalls, value: Value, codec: Codec): ToolCalls {
    match ToolCallOf(value, codec)
    case None => calls
    case Some((id, call)) => calls[id := call]
  }

  function ToolCallsOf(records: seq<Record>, codec: Codec): ToolCalls {
    if records == [] then map[]
    else AddToolCall(ToolCallsOf(records[..|records| - 1], codec), records[|records| - 1].value, codec)
  }

  function LastCompacted(records: seq<Record>): (r: Option<nat>)
    ensures r.Some? ==> r.value < |records| && IsCompacted(records[r.value].value)
    ensures forall i :: 0 <= i < |records| && (r.Some? ==> r.value < i) ==> !IsCompacted(records[i].value)
  {
    if records == [] then None
    else if IsCompacted(records[|records| - 1].value) then Some(|records| - 1)
    else LastCompacted(records[..|records| - 1])
  }

  /** The first alert at or after start. */
  function FirstAlert(records: seq<Record>, trigger: nat, start: nat): (r: Option<nat>)
    requires start <= |records|
    ensures r.Some? ==> start <= r.value < |records| && IsAlert(records[r.value].value, trigger)
    ensures forall i :: start <= i < |records| && (r.Some? ==> i < r.value) ==> !IsAlert(records[i].value, trigger)
    decreases |records| - start
  {
    if start == |records| then None
    else if IsAlert(records[start].value, trigger) then Some(start)
    else FirstAlert(records, trigger, start + 1)
  }

  /** Everything before the last compaction is folded when an alert follows it. */
  function FoldStart(records: seq<Record>, trigger: nat): Option<nat> {
    match LastCompacted(records)
    case None => None
    case Some(compacted) =>
      var alert := FirstAlert(records, trigger, compacted);
      if alert.Some? && compacted > 0 && alert.value > compacted then Some(compacted) else None
  }

  datatype Analysis = Analysis(toolCalls: ToolCalls, foldStart: Option<nat>)

  method AnalyzeRecords(records: seq<Record>, trigger: nat, codec: Codec) returns (a: Analysis)
    ensures a == Analysis(ToolCallsOf(records, codec), FoldStart(records, trigger))
  {
    hide AddToolCall;
    hide IsAlert;
    hide IsCompacted;
    var calls: ToolCalls, compacted: Option<nat> := map[], None;
    for i := 0 to |records|
      invariant calls == ToolCallsOf(records[..i], codec) && compacted == LastCompacted(records[..i])
    {
      assert records[..i + 1][..i] == records[..i];
      if IsCompacted(records[i].value) {
        compacted := Some(i);
      }
      calls := AddToolCall(calls, records[i].value, codec);
    }
    assert records[..|records|] == records;
    var start: nat := if compacted.Some? then compacted.value else 0;
    var alert: Option<nat> := None;
    var j := start;
    while j < |records| && alert.None?
      invariant start <= j <= |records|
      invariant FirstAlert(records, trigger, start) == if alert.Some? then alert else FirstAlert(records, trigger, j)
    {
      if IsAlert(records[j].value, trigger) {
        alert := Some(j);
      }
      j := j + 1;
    }
    a := Analysis(calls, if compacted.Some? && alert.Some? && compacted.value > 0 && alert.value > compacted.value then compacted else None);
  }

  predicate ShouldFold(index: nat, record: Record, foldStart: Option<nat>) {
    foldStart.Some? && index < foldStart.value && !IsSessionMeta(record.value)
  }

  // ---- Inline images in values ----

  predicate HasMarker(text: string) {
    Find(text, MARKER, 0).Some?
  }

  const GUARDIAN_PREFIX := "context-guardian:inline-image-placeholder "
  const JANITOR_PREFIX := "codex-context-janitor:inline-image-placeholder "

  predicate IsImagePlaceholder(text: string) {
    "[" + GUARDIAN_PREFIX <= text || "[" + JANITOR_PREFIX <= text
  }

  function PublishedPlaceholder(thread: string, path: string, uri: string, url: string): string {
    "[context-guardian:published-image-reference thread=" + thread + " mime=" + Mime(uri) + " removed_bytes="
    + Decimal(ByteLength(uri)) + " original_file=" + path + " url=" + url + "]"
  }

  function ImageText(config: Config, path: string, url: string): string {
    if MARKER <= url then
      var link := if config.publish.Some? then config.publish.value(url) else None;
      if link.Some? then PublishedPlaceholder(config.thread, path, url, link.value) else Placeholder(config.thread, path, url)
    else url
  }

  predicate IsImageItem(value: Value) {
    StringAt(value, "type") == Some("input_image")
  }

  /** An image item whose URL is inline or already a placeholder. */
  predicate HoldsImage(value: Value) {
    IsImageItem(value) && StringAt(value, "image_url").Some?
    && (MARKER <= StringAt(value, "image_url").value || IsImagePlaceholder(StringAt(value, "image_url").value))
  }

  /** An image item without a URL is passed over, contents and all. */
  predicate PassedOver(value: Value) {
    IsImageItem(value) && StringAt(value, "image_url").None?
  }

  function ScrubText(text: string, thread: string, path: string): string {
    match Scrub(text, thread, path)
    case None => text
    case Some((scrubbed, _)) => scrubbed
  }

  function ScrubValue(value: Value, path: string, config: Config): Value {
    match value
    case String(text) => String(ScrubText(text, config.thread, path))
    case Array(items) => Array(seq(|items|, i requires 0 <= i < |items| => ScrubValue(items[i], path, config)))
    case Object(fields) =>
      if HoldsImage(value) then MF.TextItem("input_text", ImageText(config, path, StringAt(value, "image_url").value))
      else if PassedOver(value) then value
      else Object(map key | key in fields :: ScrubValue(fields[key], path, config))
    case _ => value
  }

  /** Whether scrubbing removes anything. */
  predicate Touches(value: Value) {
    match value
    case String(text) => HasMarker(text)
    case Array(items) => exists i :: 0 <= i < |items| && Touches(items[i])
    case Object(fields) =>
      HoldsImage(value) || (!PassedOver(value) && exists key :: key in fields && Touches(fields[key]))
    case _ => false
  }

  /** Whether any string at any depth holds an inline image. */
  predicate HasInlineImage(value: Value) {
    match value
    case String(text) => HasMarker(text)
    case Array(items) => exists i :: 0 <= i < |items| && HasInlineImage(items[i])
    case Object(fields) => exists key :: key in fields && HasInlineImage(fields[key])
    case _ => false
  }

  // ---- The rewriting steps ----

  function WithPayload(value: Value, payload: Value): Value
    requires value.Object?
  {
    With(value, "payload", payload)
  }

  function EstimatedTokens(records: seq<Record>, recovery: nat): nat {
    var quarter := Max(LineBytes(records) / 4, 1);
    if quarter < recovery then quarter else recovery
  }

  function LineBytes(records: seq<Record>): nat {
    if records == [] then 0 else ByteLength(records[0].line) + LineBytes(records[1..])
  }

  function Count(n: nat): Value {
    Number(Decimal(n))
  }

  function NormalizeTokenCount(value: Value, estimated: nat, trigger: nat): (Value, bool) {
    if !IsHighTokenCount(value, trigger) then (value, false)
    else
      var payload := value.fields["payload"];
      match Get(payload, "info")
      case Some(Object(info)) =>
        var usage := Object(map["input_tokens" := Count(estimated), "cached_input_tokens" := Count(0), "cache_write_input_tokens" := Count(0),
                                "output_tokens" := Count(0), "reasoning_output_tokens" := Count(0), "total_tokens" := Count(estimated)]);
        (WithPayload(value, With(payload, "info", Object(info["total_token_usage" := usage]))), true)
      case _ => (value, false)
  }

  function NormalizeGoal(value: Value, config: Config): (Value, bool) {
    if !IsEvent(value, "thread_goal_updated") then (value, false)
    else
      var payload := value.fields["payload"];
      match Get(payload, "goal")
      case Some(Object(goal)) =>
        if AsU64(Get(Object(goal), "tokensUsed")) < config.trigger then (value, false)
        else (WithPayload(value, With(payload, "goal", Object(goal["tokensUsed" := Count(config.recovery)]))), true)
      case _ => (value, false)
  }

  function UserImagePlaceholder(field: string, item: Value, config: Config, codec: Codec): Value {
    var reference := PreviewOf(if item.String? then item.text else codec.write(item), 300);
    String("[context-guardian:user-image-placeholder thread=" + config.thread + " field=" + field + " estimated_removed_bytes="
      + Decimal(config.referenceBytes(item)) + " original=" + reference + "]")
  }

  function FieldPlaceholders(payload: Value, field: string, config: Config, codec: Codec): seq<Value> {
    match Get(payload, field)
    case Some(Array(items)) => seq(|items|, i requires 0 <= i < |items| => UserImagePlaceholder(field, items[i], config, codec))
    case _ => []
  }

  function Emptied(payload: Value, field: string): (r: Value)
    requires payload.Object?
    ensures r.Object?
  {
    match Get(payload, field)
    case Some(Array(items)) => With(payload, field, Array([]))
    case _ => payload
  }

  const PLACEHOLDERS_FIELD := "payload.image_placeholders"

  const NOTE_BODY := " image attachment(s) from this historical user message. The image references are preserved in "
  const NOTE_END := " so future context rebuilds do not inline large image bodies.]"

  function NoteText(count: nat): string {
    "\n\n" + ("[context-guardian removed " + Decimal(count) + NOTE_BODY + PLACEHOLDERS_FIELD + NOTE_END)
  }

  function Annotated(payload: Value, count: nat): Value
    requires payload.Object?
  {
    match Get(payload, "message")
    case Some(String(message)) =>
      if Mentions(message, PLACEHOLDERS_FIELD) then payload else With(payload, "message", String(message + NoteText(count)))
    case _ => With(payload, "message", String(Trim(NoteText(count))))
  }

  function ScrubUserImages(value: Value, config: Config, codec: Codec): (Value, nat) {
    if !IsEvent(value, "user_message") then (value, 0)
    else
      var payload := value.fields["payload"];
      var placeholders := FieldPlaceholders(payload, "images", config, codec) + FieldPlaceholders(payload, "local_images", config, codec);
      if placeholders == [] then (value, 0)
      else
        var emptied := Emptied(Emptied(payload, "images"), "local_images");
        (WithPayload(value, Annotated(With(emptied, "image_placeholders", Array(placeholders)), |placeholders|)), |placeholders|)
  }

  /** The output of a tool call record, if the record is one. */
  function ToolOutput(value: Value): Option<Value> {
    match Get(value, "payload")
    case Some(Object(payload)) =>
      if StringAt(Object(payload), "type") == Some("function_call_output") then Get(Object(payload), "output") else None
    case _ => None
  }

  function WithToolOutput(value: Value, output: Value): Value
    requires ToolOutput(value).Some?
  {
    WithPayload(value, With(value.fields["payload"], "output", output))
  }

  function CallId(value: Value): string
    requires ToolOutput(value).Some?
  {
    match StringAt(value.fields["payload"], "call_id")
    case Some(id) => id
    case None => "unknown-call"
  }

  const UNKNOWN_PATH := "unknown image path"

  function ImagePathFor(value: Value, calls: ToolCalls): string
    requires ToolOutput(value).Some?
  {
    if CallId(value) in calls && calls[CallId(value)].imagePath.Some? then calls[CallId(value)].imagePath.value else UNKNOWN_PATH
  }

  function PruneInlineImages(value: Value, calls: ToolCalls, config: Config): (Value, bool) {
    match ToolOutput(value)
    case None => (value, false)
    case Some(output) =>
      (WithToolOutput(value, ScrubValue(output, ImagePathFor(value, calls), config)), Touches(output))
  }

  function Nonempty(text: string, fallback: string): string {
    if text == "" then fallback else text
  }

  function ToolName(call: ToolCall): string {
    Nonempty(call.name, "unknown-tool")
  }

  function ToolArguments(call: ToolCall): string {
    if call.argumentsPreview.Some? then call.argumentsPreview.value else "unknown arguments"
  }

  const NOTICE_HEAD := "Large tool output pruned " + "by context-guardian because " + "the original tool result was "
  const TOO_LARGE := " bytes and could exceed " + "the model context window. "
  const NOTICE_TAIL := " Re-run the command or " + "inspect the referenced file " + "manually if the full output " + "is needed."

  function Notice(call: ToolCall, length: nat): string {
    NOTICE_HEAD + Decimal(length) + TOO_LARGE + "Tool: " + ToolName(call) + ". Arguments: " + ToolArguments(call) + ("." + NOTICE_TAIL)
  }

  function Summarized(call: ToolCall, length: nat, summary: string): string {
    "Large tool output summarized by context-guardian via CC Switch because the original tool result was " + Decimal(length) + TOO_LARGE
    + "Tool: " + ToolName(call) + ". Arguments: " + ToolArguments(call) + ".\n\nSummary:\n" + summary
  }

  function CallFor(value: Value, calls: ToolCalls): ToolCall
    requires ToolOutput(value).Some?
  {
    if CallId(value) in calls then calls[CallId(value)] else ToolCall("", None, None)
  }

  function EncodedLength(value: Value, codec: Codec): nat {
    ByteLength(codec.write(value))
  }

  function PruneLargeOutput(value: Value, calls: ToolCalls, config: Config, codec: Codec): (Value, bool) {
    match ToolOutput(value)
    case None => (value, false)
    case Some(output) =>
      var length := EncodedLength(output, codec);
      if HasInlineImage(output) || length < config.threshold then (value, false)
      else
        var call := CallFor(value, calls);
        var text := if output.String? then output.text else codec.write(output);
        var summary := if config.summarize.Some? then config.summarize.value(text, call) else None;
        (WithToolOutput(value, String(if summary.Some? then Summarized(call, length, summary.value) else Notice(call, length))), true)
  }

  /** What was counted for one kept record. */
  datatype Counts = Counts(tokenCounts: nat, goals: nat, userImages: nat, images: nat, largeOutputs: nat)

  const NO_COUNTS := Counts(0, 0, 0, 0, 0)

  function One(b: bool): nat {
    if b then 1 else 0
  }

  function Rewrite(value: Value, estimated: nat, calls: ToolCalls, config: Config, codec: Codec): (Value, Counts) {
    var (counted, tokenCount) := NormalizeTokenCount(value, estimated, config.trigger);
    var (goaled, goal) := NormalizeGoal(counted, config);
    var (unattached, userImages) := ScrubUserImages(goaled, config, codec);
    var (shown, pruned) := PruneInlineImages(unattached, calls, config);
    var scrubbed := ScrubValue(shown, UNKNOWN_PATH, config);
    var (small, large) := PruneLargeOutput(scrubbed, calls, config, codec);
    (small, Counts(One(tokenCount), One(goal), userImages, One(pruned) + One(Touches(shown)), One(large)))
  }

  // ---- The whole file ----

  function Values(records: seq<Record>): (r: seq<Value>)
    ensures |r| == |records| && forall i :: 0 <= i < |r| ==> r[i] == records[i].value
  {
    seq(|records|, i requires 0 <= i < |records| => records[i].value)
  }

  predicate AnyUnknownError(records: seq<Record>) {
    exists i :: 0 <= i < |records| && IsUnknownError(records[i].value)
  }

  /** Message repairs are applied when unknown errors are there, something is repaired, nothing is left open, and the
      environment supports it. */
  predicate RepairsApply(records: seq<Record>, config: Config, codec: Codec) {
    var values := Values(records);
    && config.preview && AnyUnknownError(records)
    && MD.Rewritten(values, codec) != values
    && MT.Unrepaired(MD.AllIssues(values, codec)) == []
    && config.probeSupports && config.captureSupports
  }

  datatype Plan = Plan(analysis: Analysis, repairs: bool, estimated: nat)

  function PlanFor(records: seq<Record>, config: Config, codec: Codec): Plan {
    Plan(Analysis(ToolCallsOf(records, codec), FoldStart(records, config.trigger)),
         RepairsApply(records, config, codec), EstimatedTokens(records, config.recovery))
  }

  datatype Fate = Folded | DroppedAlert | DroppedUnknown | Kept(value: Value, counts: Counts)

  function FateOf(index: nat, record: Record, plan: Plan, config: Config, codec: Codec): Fate {
    if ShouldFold(index, record, plan.analysis.foldStart) then Folded
    else if IsAlert(record.value, config.trigger) then DroppedAlert
    else if plan.repairs && IsUnknownError(record.value) then DroppedUnknown
    else
      var value := if plan.repairs then MF.DiagnoseRecord(record.value, index, codec).value else record.value;
      var (rewritten, counts) := Rewrite(value, plan.estimated, plan.analysis.toolCalls, config, codec);
      Kept(rewritten, counts)
  }

  /** The text written for a record: nothing, its own line, or its new value. */
  function Written(record: Record, fate: Fate, codec: Codec): string {
    match fate
    case Kept(value, _) => (if value == record.value then record.line else codec.write(value)) + record.newline
    case _ => ""
  }

  function Output(records: seq<Record>, plan: Plan, config: Config, codec: Codec, n: nat): string
    requires n <= |records|
  {
    if n == 0 then ""
    else Output(records, plan, config, codec, n - 1)
         + Written(records[n - 1], FateOf(n - 1, records[n - 1], plan, config, codec), codec)
  }

  datatype Stats = Stats(counts: Counts, folded: nat, alerts: nat, unknown: nat, repaired: nat) {

    predicate Changed() {
      counts != NO_COUNTS || folded > 0 || alerts > 0 || unknown > 0 || repaired > 0
    }
  }

  function AddCounts(a: Counts, b: Counts): Counts {
    Counts(a.tokenCounts + b.tokenCounts, a.goals + b.goals, a.userImages + b.userImages, a.images + b.images, a.largeOutputs + b.largeOutputs)
  }

  function AddFate(stats: Stats, fate: Fate): Stats {
    match fate
    case Folded => stats.(folded := stats.folded + 1)
    case DroppedAlert => stats.(alerts := stats.alerts + 1)
    case DroppedUnknown => stats.(unknown := stats.unknown + 1)
    case Kept(_, counts) => stats.(counts := AddCounts(stats.counts, counts))
  }

  function ChangedRecords(values: seq<Value>, codec: Codec, n: nat): nat
    requires n <= |values|
  {
    if n == 0 then 0
    else ChangedRecords(values, codec, n - 1) + One(MF.DiagnoseRecord(values[n - 1], n - 1, codec).value != values[n - 1])
  }

  function FirstStats(records: seq<Record>, plan: Plan, codec: Codec): Stats {
    Stats(NO_COUNTS, 0, 0, 0, if plan.repairs then ChangedRecords(Values(records), codec, |records|) else 0)
  }

  function StatsAfter(records: seq<Record>, plan: Plan, config: Config, codec: Codec, n: nat): Stats
    requires n <= |records|
  {
    if n == 0 then FirstStats(records, plan, codec)
    else AddFate(StatsAfter(records, plan, config, codec, n - 1), FateOf(n - 1, records[n - 1], plan, config, codec))
  }

  /** The statistics, and the new contents; the file is left alone when nothing changed. */
  datatype Cleaned = Cleaned(stats: Stats, written: Option<string>)

  function Clean(contents: string, config: Config, codec: Codec): Result<Cleaned, nat> {
    match ParseRecords(contents, codec)
    case Err(line) => Err(line)
    case Ok(records) =>
      var plan := PlanFor(records, config, codec);
      var stats := StatsAfter(records, plan, config, codec, |records|);
      Ok(Cleaned(stats, if stats.Changed() then Some(Output(records, plan, config, codec, |records|)) else None))
  }

  method CleanRollout(contents: string, config: Config, codec: Codec) returns (r: Result<Cleaned, nat>)
    ensures r == Clean(contents, config, codec)
  {
    var parsed := ParseRecords(contents, codec);
    if parsed.Err? {
      return Err(parsed.error);
    }
    var records := parsed.value;
    var analysis := AnalyzeRecords(records, config.trigger, codec);
    var plan := Plan(analysis, RepairsApply(records, config, codec), EstimatedTokens(records, config.recovery));
    var stats, output := FirstStats(records, plan, codec), "";
    for i := 0 to |records|
      invariant stats == StatsAfter(records, plan, config, codec, i)
      invariant output == Output(records, plan, config, codec, i)
    {
      hide FateOf;
      var fate := FateOf(i, records[i], plan, config, codec);
      stats := AddFate(stats, fate);
      output := output + Written(records[i], fate, codec);
    }
    return Ok(Cleaned(stats, if stats.Changed() then Some(output) else None));
  }
}
