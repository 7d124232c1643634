/** What cleaning keeps: lines round-trip, the kept records come out in order, and nothing changes without being counted. */
module RolloutRetention {
  import opened Prelude
  import opened Text
  import opened Json
  import opened DataUri
  import opened Rollout
  import MF = MessageFormat
  import MT = MessageTheorems
  import MD = MessageDiagnosis

  // ---- Reading and writing lines ----

  /** The text form of this value is read back, fills one line and is not blank. */
  predicate OnOneLine(codec: Codec, value: Value) {
    codec.parse(codec.write(value)) == Some(value) && PlainLine(codec.write(value))
  }

  predicate PlainLine(line: string) {
    '\n' !in line && !IsBlank(line)
  }

  predicate GoodRecord(record: Record, codec: Codec) {
    PlainLine(record.line) && codec.parse(record.line) == Some(record.value) && (record.newline == "\n" || record.newline == "")
  }

  /** Records as a file holds them: only the last line may lack its line feed. */
  predicate GoodRecords(records: seq<Record>, codec: Codec) {
    && (forall i :: 0 <= i < |records| ==> GoodRecord(records[i], codec))
    && (forall i :: 0 <= i < |records| - 1 ==> records[i].newline == "\n")
  }

  function TextOf(records: seq<Record>): string {
    if records == [] then "" else records[0].line + records[0].newline + TextOf(records[1..])
  }

  lemma FirstLine(line: string, rest: string)
    requires '\n' !in line
    ensures SplitInclusive(line + "\n" + rest) == [line + "\n"] + SplitInclusive(rest)
    ensures line != "" ==> SplitInclusive(line) == [line]
  {
    var text := line + "\n" + rest;
    var i := FindWhere(text, c => c == '\n');
    assert text[|line|] == '\n';
    forall k | 0 <= k < |line| ensures text[k] != '\n' {
      assert line[k] in line;
    }
    assert text[..|line| + 1] == line + "\n" && text[|line| + 1..] == rest;
  }

  lemma ParseSnoc(pieces: seq<string>, piece: string, codec: Codec)
    ensures ParsePieces(pieces + [piece], codec) ==
              match ParsePieces(pieces, codec)
              case Err(line) => Err(line)
              case Ok(before) =>
                var (line, newline) := SplitNewline(piece);
                if IsBlank(line) then Ok(before)
                else match codec.parse(line)
                     case None => Err(|pieces| + 1)
                     case Some(value) => Ok(before + [Record(line, newline, value)])
  {
    assert (pieces + [piece])[..|pieces|] == pieces;
  }

  lemma ParseFrontStep(piece: string, init: seq<string>, last: string, codec: Codec)
    requires ParsePieces([piece], codec).Ok?
    requires ParsePieces(init, codec).Ok? ==>
               ParsePieces([piece] + init, codec) == Ok(ParsePieces([piece], codec).value + ParsePieces(init, codec).value)
    ensures ParsePieces(init + [last], codec).Ok? ==>
              ParsePieces([piece] + init + [last], codec) == Ok(ParsePieces([piece], codec).value + ParsePieces(init + [last], codec).value)
  {
    ParseSnoc(init, last, codec);
    ParseSnoc([piece] + init, last, codec);
    hide ParsePieces;
    hide SplitNewline;
    hide IsBlank;
    if ParsePieces(init + [last], codec).Ok? {
      var head, before := ParsePieces([piece], codec).value, ParsePieces(init, codec).value;
      var (line, newline) := SplitNewline(last);
      if !IsBlank(line) {
        var record := Record(line, newline, codec.parse(line).value);
        assert head + (before + [record]) == (head + before) + [record];
      }
    }
  }

  lemma {:induction false} ParseFront(piece: string, pieces: seq<string>, codec: Codec)
    requires ParsePieces([piece], codec).Ok?
    ensures ParsePieces(pieces, codec).Ok? ==>
              ParsePieces([piece] + pieces, codec) == Ok(ParsePieces([piece], codec).value + ParsePieces(pieces, codec).value)
  {
    if pieces == [] {
      var head := ParsePieces([piece], codec).value;
      assert [piece] + pieces == [piece] && head + [] == head;
    } else {
      hide ParsePieces;
      var n := |pieces| - 1;
      ParseFront(piece, pieces[..n], codec);
      ParseFrontStep(piece, pieces[..n], pieces[n], codec);
      assert pieces[..n] + [pieces[n]] == pieces && [piece] + pieces[..n] + [pieces[n]] == [piece] + pieces;
    }
  }

  lemma ParseOne(record: Record, codec: Codec)
    requires GoodRecord(record, codec)
    ensures ParsePieces([record.line + record.newline], codec) == Ok([record])
  {
    var raw := record.line + record.newline;
    assert ParsePieces([raw][..0], codec) == Ok([]);
    if record.newline == "\n" {
      assert raw[..|raw| - 1] == record.line;
    } else {
      assert raw == record.line;
      assert raw != "" ==> raw[|raw| - 1] in raw;
    }
    assert SplitNewline(raw) == (record.line, record.newline);
    assert [] + [record] == [record];
  }

  lemma NotEmpty(line: string)
    requires PlainLine(line)
    ensures line != ""
  {
    assert Trim("") == "";
  }

  lemma LineFeedOrLast(records: seq<Record>, codec: Codec)
    requires GoodRecords(records, codec) && records != []
    ensures records[0].newline == "\n" || (records[0].newline == "" && records[1..] == [])
    ensures GoodRecords(records[1..], codec)
  {
  }

  /** Written records are read back exactly. */
  lemma {:induction false} ParseWritten(records: seq<Record>, codec: Codec)
    requires GoodRecords(records, codec)
    ensures ParseRecords(TextOf(records), codec) == Ok(records)
  {
    if records != [] {
      var record, rest := records[0], records[1..];
      hide ParsePieces;
      hide PlainLine;
      hide SplitNewline;
      assert PlainLine(record.line) && '\n' !in record.line by {
        LineIsPlain(record, codec);
      }
      NotEmpty(record.line);
      ParseOne(record, codec);
      LineFeedOrLast(records, codec);
      hide GoodRecord;
      if record.newline == "\n" {
        ParseWritten(rest, codec);
        FirstLine(record.line, TextOf(rest));
        ParseFront(record.line + "\n", SplitInclusive(TextOf(rest)), codec);
        assert records == [record] + rest;
      } else {
        assert rest == [] && TextOf(records) == record.line;
        assert record.line + record.newline == record.line;
        FirstLine(record.line, "");
        assert records == [record];
      }
    } else {
      assert SplitInclusive("") == [];
    }
  }

  lemma LineIsPlain(record: Record, codec: Codec)
    requires GoodRecord(record, codec)
    ensures PlainLine(record.line) && '\n' !in record.line
  {
  }

  predicate GoodPieces(pieces: seq<string>) {
    && (forall i :: 0 <= i < |pieces| ==> pieces[i] != "" && '\n' !in pieces[i][..|pieces[i]| - 1])
    && (forall i :: 0 <= i < |pieces| - 1 ==> pieces[i][|pieces[i]| - 1] == '\n')
  }

  lemma {:induction false} PiecesAreGood(text: string)
    ensures GoodPieces(SplitInclusive(text))
    ensures text != "" ==> SplitInclusive(text) != []
    decreases |text|
  {
    if text != "" {
      match FindWhere(text, c => c == '\n')
      case None =>
      case Some(i) =>
        PiecesAreGood(text[i + 1..]);
        assert text[..i + 1][..i] == text[..i];
        GoodCons(text[..i + 1], SplitInclusive(text[i + 1..]));
    }
  }

  lemma GoodCons(piece: string, rest: seq<string>)
    requires piece != "" && piece[|piece| - 1] == '\n' && '\n' !in piece[..|piece| - 1] && GoodPieces(rest)
    ensures GoodPieces([piece] + rest)
  {
    var all := [piece] + rest;
    assert forall k :: 0 < k < |all| ==> all[k] == rest[k - 1];
  }

  lemma GoodPiece(piece: string, value: Value, codec: Codec)
    requires piece != "" && '\n' !in piece[..|piece| - 1]
    requires !IsBlank(SplitNewline(piece).0) && codec.parse(SplitNewline(piece).0) == Some(value)
    ensures GoodRecord(Record(SplitNewline(piece).0, SplitNewline(piece).1, value), codec)
    ensures piece[|piece| - 1] == '\n' ==> SplitNewline(piece).1 == "\n"
  {
    assert piece == piece[..|piece| - 1] + [piece[|piece| - 1]];
  }

  predicate EndInLineFeed(pieces: seq<string>) {
    forall i :: 0 <= i < |pieces| ==> pieces[i] != "" && pieces[i][|pieces[i]| - 1] == '\n'
  }

  predicate HaveLineFeed(records: seq<Record>) {
    forall i :: 0 <= i < |records| ==> records[i].newline == "\n"
  }

  lemma GoodSnoc(records: seq<Record>, record: Record, codec: Codec)
    requires GoodRecords(records, codec) && HaveLineFeed(records) && GoodRecord(record, codec)
    ensures GoodRecords(records + [record], codec)
    ensures record.newline == "\n" ==> HaveLineFeed(records + [record])
  {
    hide GoodRecord;
  }

  /** Whatever is parsed, only the record of the very last piece can lack a line feed. */
  lemma {:induction false} ParsedAreGood(pieces: seq<string>, codec: Codec)
    requires GoodPieces(pieces) && ParsePieces(pieces, codec).Ok?
    ensures GoodRecords(ParsePieces(pieces, codec).value, codec)
    ensures EndInLineFeed(pieces) ==> HaveLineFeed(ParsePieces(pieces, codec).value)
  {
    hide GoodRecord;
    if pieces != [] {
      var n := |pieces| - 1;
      ParsedAreGood(pieces[..n], codec);
      ParseSnoc(pieces[..n], pieces[n], codec);
      assert pieces[..n] + [pieces[n]] == pieces;
      hide ParsePieces;
      hide GoodRecords;
      hide HaveLineFeed;
      var (line, newline) := SplitNewline(pieces[n]);
      hide SplitNewline;
      if !IsBlank(line) {
        GoodPiece(pieces[n], codec.parse(line).value, codec);
        GoodSnoc(ParsePieces(pieces[..n], codec).value, Record(line, newline, codec.parse(line).value), codec);
      }
    }
  }

  lemma ParsedRecordsAreGood(contents: string, codec: Codec)
    requires ParseRecords(contents, codec).Ok?
    ensures GoodRecords(ParseRecords(contents, codec).value, codec)
  {
    PiecesAreGood(contents);
    ParsedAreGood(SplitInclusive(contents), codec);
  }

  // ---- The records that come out ----

  function Image(record: Record, value: Value, codec: Codec): Record {
    Record(if value == record.value then record.line else codec.write(value), record.newline, value)
  }

  /** The images of the kept records, in order. */
  function KeptRecords(records: seq<Record>, plan: Plan, config: Config, codec: Codec, n: nat): seq<Record>
    requires n <= |records|
  {
    if n == 0 then []
    else
      var before := KeptRecords(records, plan, config, codec, n - 1);
      match FateOf(n - 1, records[n - 1], plan, config, codec)
      case Kept(value, _) => before + [Image(records[n - 1], value, codec)]
      case _ => before
  }

  lemma {:induction false} TextOfSnoc(records: seq<Record>, record: Record)
    ensures TextOf(records + [record]) == TextOf(records) + record.line + record.newline
  {
    if records == [] {
      assert [record][1..] == [];
    } else {
      assert (records + [record])[1..] == records[1..] + [record];
      TextOfSnoc(records[1..], record);
    }
  }

  lemma {:induction false} OutputIsKept(records: seq<Record>, plan: Plan, config: Config, codec: Codec, n: nat)
    requires n <= |records|
    ensures Output(records, plan, config, codec, n) == TextOf(KeptRecords(records, plan, config, codec, n))
  {
    hide FateOf;
    if n > 0 {
      OutputIsKept(records, plan, config, codec, n - 1);
      var fate := FateOf(n - 1, records[n - 1], plan, config, codec);
      if fate.Kept? {
        TextOfSnoc(KeptRecords(records, plan, config, codec, n - 1), Image(records[n - 1], fate.value, codec));
      }
    }
  }

  /** The codec reads back every value that was changed before it was written. Nothing is asked of any other value, nor
      of numbers, depths or texts that do not occur. */
  ghost predicate WritesAreRead(records: seq<Record>, plan: Plan, config: Config, codec: Codec, n: nat)
    requires n <= |records|
  {
    forall i :: 0 <= i < n ==> WriteIsRead(i, records[i], plan, config, codec)
  }

  predicate WriteIsRead(i: nat, record: Record, plan: Plan, config: Config, codec: Codec) {
    var fate := FateOf(i, record, plan, config, codec);
    fate.Kept? && fate.value != record.value ==> OnOneLine(codec, fate.value)
  }

  lemma GoodImage(i: nat, record: Record, plan: Plan, config: Config, codec: Codec)
    requires GoodRecord(record, codec) && FateOf(i, record, plan, config, codec).Kept?
    ensures GoodRecord(Image(record, FateOf(i, record, plan, config, codec).value, codec), codec) <==>
              WriteIsRead(i, record, plan, config, codec)
  {
    hide FateOf;
  }

  lemma {:induction false} KeptAreGood(records: seq<Record>, plan: Plan, config: Config, codec: Codec, n: nat)
    requires n <= |records| && GoodRecords(records, codec)
    ensures AllGood(KeptRecords(records, plan, config, codec, n), codec) <==> WritesAreRead(records, plan, config, codec, n)
    ensures n < |records| ==>
              forall i :: 0 <= i < |KeptRecords(records, plan, config, codec, n)| ==> KeptRecords(records, plan, config, codec, n)[i].newline == "\n"
  {
    hide FateOf;
    hide WriteIsRead;
    hide GoodRecord;
    if n > 0 {
      KeptAreGood(records, plan, config, codec, n - 1);
      var fate := FateOf(n - 1, records[n - 1], plan, config, codec);
      var before := KeptRecords(records, plan, config, codec, n - 1);
      if fate.Kept? {
        GoodImage(n - 1, records[n - 1], plan, config, codec);
        AllGoodSnoc(before, Image(records[n - 1], fate.value, codec), codec);
      } else {
        DroppedIsNotWritten(n - 1, records[n - 1], plan, config, codec);
      }
      assert WritesAreRead(records, plan, config, codec, n) <==>
               WritesAreRead(records, plan, config, codec, n - 1) && WriteIsRead(n - 1, records[n - 1], plan, config, codec);
    }
  }

  predicate AllGood(records: seq<Record>, codec: Codec) {
    forall i :: 0 <= i < |records| ==> GoodRecord(records[i], codec)
  }

  lemma AllGoodSnoc(records: seq<Record>, record: Record, codec: Codec)
    ensures AllGood(records + [record], codec) <==> AllGood(records, codec) && GoodRecord(record, codec)
  {
    hide GoodRecord;
    var all := records + [record];
    assert all[|records|] == record;
    assert forall i :: 0 <= i < |records| ==> all[i] == records[i];
  }

  lemma DroppedIsNotWritten(i: nat, record: Record, plan: Plan, config: Config, codec: Codec)
    requires !FateOf(i, record, plan, config, codec).Kept?
    ensures WriteIsRead(i, record, plan, config, codec)
  {
  }

  /** The text written back parses again to exactly the images of the kept records in their order, if and only if the codec
      reads back every changed value. */
  lemma OutputReparses(contents: string, config: Config, codec: Codec)
    requires ParseRecords(contents, codec).Ok?
    ensures var records := ParseRecords(contents, codec).value;
            var plan := PlanFor(records, config, codec);
            ParseRecords(Output(records, plan, config, codec, |records|), codec) ==
              Ok(KeptRecords(records, plan, config, codec, |records|))
            <==> WritesAreRead(records, plan, config, codec, |records|)
  {
    hide FateOf;
    hide WriteIsRead;
    var records := ParseRecords(contents, codec).value;
    var plan := PlanFor(records, config, codec);
    var kept := KeptRecords(records, plan, config, codec, |records|);
    ParsedRecordsAreGood(contents, codec);
    OutputIsKept(records, plan, config, codec, |records|);
    KeptAreGood(records, plan, config, codec, |records|);
    KeptNewlines(records, plan, config, codec, |records|);
    if WritesAreRead(records, plan, config, codec, |records|) {
      ParseWritten(kept, codec);
    } else if ParseRecords(Output(records, plan, config, codec, |records|), codec) == Ok(kept) {
      ParsedRecordsAreGood(Output(records, plan, config, codec, |records|), codec);
      assert false;
    }
  }

  lemma KeptNewlines(records: seq<Record>, plan: Plan, config: Config, codec: Codec, n: nat)
    requires n <= |records| && GoodRecords(records, codec)
    ensures AllGood(KeptRecords(records, plan, config, codec, n), codec) ==> GoodRecords(KeptRecords(records, plan, config, codec, n), codec)
  {
    hide FateOf;
    hide GoodRecord;
    if n > 0 {
      KeptAreGood(records, plan, config, codec, n - 1);
    }
  }

  // ---- Which records are kept ----

  predicate IsDropped(records: seq<Record>, config: Config, codec: Codec, i: nat)
    requires i < |records|
  {
    || ShouldFold(i, records[i], FoldStart(records, config.trigger))
    || IsAlert(records[i].value, config.trigger)
    || (RepairsApply(records, config, codec) && IsUnknownError(records[i].value))
  }

  /** Session metadata and the last compaction always come through. */
  lemma SessionAndCompactionSurvive(records: seq<Record>, config: Config, codec: Codec, i: nat)
    requires i < |records| && (IsSessionMeta(records[i].value) || LastCompacted(records) == Some(i))
    ensures FateOf(i, records[i], PlanFor(records, config, codec), config, codec).Kept?
  {
    hide Rewrite;
    hide RepairsApply;
  }

  /** Everything from the last compaction on survives unless it is an alert or a repaired-away error; before it, only
      what an alert behind the compaction has made obsolete goes. */
  lemma KeptExactly(records: seq<Record>, config: Config, codec: Codec, i: nat)
    requires i < |records|
    ensures FateOf(i, records[i], PlanFor(records, config, codec), config, codec).Kept? <==> !IsDropped(records, config, codec, i)
    ensures ShouldFold(i, records[i], FoldStart(records, config.trigger)) <==> FoldsAway(records, config.trigger, i)
  {
    hide IsAlert;
    hide IsCompacted;
    hide Rewrite;
    hide FoldsAway;
    FoldExactly(records, config.trigger, i);
  }

  /** The last compaction is behind record i, and an alert behind that; session metadata is never folded. */
  ghost predicate FoldsAway(records: seq<Record>, trigger: nat, i: nat)
    requires i < |records|
  {
    && !IsSessionMeta(records[i].value)
    && exists c, a :: i < c < a < |records| && IsCompacted(records[c].value) && IsAlert(records[a].value, trigger)
                      && forall k :: c < k < |records| ==> !IsCompacted(records[k].value)
  }

  lemma FoldExactly(records: seq<Record>, trigger: nat, i: nat)
    requires i < |records|
    ensures ShouldFold(i, records[i], FoldStart(records, trigger)) <==> FoldsAway(records, trigger, i)
  {
    hide IsAlert;
    hide IsCompacted;
    var compacted := LastCompacted(records);
    if ShouldFold(i, records[i], FoldStart(records, trigger)) {
      var c, a := compacted.value, FirstAlert(records, trigger, compacted.value).value;
      assert i < c < a < |records| && IsCompacted(records[c].value) && IsAlert(records[a].value, trigger);
    }
    if c, a :| i < c < a < |records| && IsCompacted(records[c].value) && IsAlert(records[a].value, trigger)
               && forall k :: c < k < |records| ==> !IsCompacted(records[k].value) {
      assert compacted == Some(c);
      CompactionIsNoAlert(records[c].value, trigger);
    }
  }

  lemma CompactionIsNoAlert(value: Value, trigger: nat)
    requires IsCompacted(value)
    ensures !IsAlert(value, trigger)
  {
  }

  // ---- Nothing changes without being counted ----

  lemma {:induction false} UntouchedStays(value: Value, path: string, config: Config)
    requires !Touches(value)
    ensures ScrubValue(value, path, config) == value
  {
    match value
    case String(text) =>
      NoSpansIffNoMarker(text);
    case Array(items) =>
      forall i | 0 <= i < |items| ensures ScrubValue(items[i], path, config) == items[i] {
        UntouchedStays(items[i], path, config);
      }
      assert seq(|items|, i requires 0 <= i < |items| => ScrubValue(items[i], path, config)) == items;
    case Object(fields) =>
      if !PassedOver(value) {
        forall key | key in fields ensures ScrubValue(fields[key], path, config) == fields[key] {
          UntouchedStays(fields[key], path, config);
        }
        assert (map key | key in fields :: ScrubValue(fields[key], path, config)) == fields;
      }
    case _ =>
  }

  lemma SameOutput(value: Value)
    requires ToolOutput(value).Some?
    ensures WithToolOutput(value, ToolOutput(value).value) == value
  {
    MT.WithSame(value.fields["payload"], "output");
    MT.WithSame(value, "payload");
  }

  lemma UncountedIsUnchanged(value: Value, estimated: nat, calls: ToolCalls, config: Config, codec: Codec)
    requires Rewrite(value, estimated, calls, config, codec).1 == NO_COUNTS
    ensures Rewrite(value, estimated, calls, config, codec).0 == value
  {
    hide NormalizeTokenCount;
    hide NormalizeGoal;
    hide ScrubUserImages;
    hide Touches;
    hide ScrubValue;
    QuietSteps(value, estimated, config, codec);
    var goaled := value;
    if ToolOutput(goaled).Some? {
      var output := ToolOutput(goaled).value;
      if !Touches(output) {
        UntouchedStays(output, ImagePathFor(goaled, calls), config);
      }
      SameOutput(goaled);
    }
    var shown := PruneInlineImages(goaled, calls, config).0;
    if !Touches(shown) {
      UntouchedStays(shown, UNKNOWN_PATH, config);
    }
  }

  lemma QuietSteps(value: Value, estimated: nat, config: Config, codec: Codec)
    ensures !NormalizeTokenCount(value, estimated, config.trigger).1 ==> NormalizeTokenCount(value, estimated, config.trigger).0 == value
    ensures !NormalizeGoal(value, config).1 ==> NormalizeGoal(value, config).0 == value
    ensures ScrubUserImages(value, config, codec).1 == 0 ==> ScrubUserImages(value, config, codec).0 == value
  {
  }

  lemma {:induction false} NoChangedRecords(values: seq<Value>, codec: Codec, n: nat)
    requires n <= |values| && ChangedRecords(values, codec, n) == 0
    ensures forall i :: 0 <= i < n ==> MF.DiagnoseRecord(values[i], i, codec).value == values[i]
  {
    hide MF.DiagnoseRecord;
    if n > 0 {
      NoChangedRecords(values, codec, n - 1);
    }
  }

  lemma AddingShows(stats: Stats, fate: Fate)
    requires !AddFate(stats, fate).Changed()
    ensures !stats.Changed() && fate.Kept? && fate.counts == NO_COUNTS
  {
  }

  lemma {:induction false} StatsGrow(records: seq<Record>, plan: Plan, config: Config, codec: Codec, n: nat, i: nat)
    requires i < n <= |records| && !StatsAfter(records, plan, config, codec, n).Changed()
    ensures !StatsAfter(records, plan, config, codec, i).Changed()
    ensures var fate := FateOf(i, records[i], plan, config, codec); fate.Kept? && fate.counts == NO_COUNTS
    decreases n
  {
    hide FateOf;
    hide AddFate;
    hide Stats.Changed;
    var fate := FateOf(n - 1, records[n - 1], plan, config, codec);
    AddingShows(StatsAfter(records, plan, config, codec, n - 1), fate);
    if i < n - 1 {
      StatsGrow(records, plan, config, codec, n - 1, i);
    }
  }

  lemma NoRepairsUncounted(records: seq<Record>, config: Config, codec: Codec)
    requires !StatsAfter(records, PlanFor(records, config, codec), config, codec, 0).Changed()
    ensures !PlanFor(records, config, codec).repairs
  {
    var values := Values(records);
    if ChangedRecords(values, codec, |values|) == 0 {
      NoChangedRecords(values, codec, |values|);
      assert MD.Rewritten(values, codec) == values;
    }
  }

  /** When the statistics report no change, no record was dropped and no value altered. */
  lemma NoChangeNoAlteration(records: seq<Record>, config: Config, codec: Codec, i: nat)
    requires i < |records|
    requires !StatsAfter(records, PlanFor(records, config, codec), config, codec, |records|).Changed()
    ensures FateOf(i, records[i], PlanFor(records, config, codec), config, codec) == Kept(records[i].value, NO_COUNTS)
  {
    hide Rewrite;
    var plan := PlanFor(records, config, codec);
    StatsGrow(records, plan, config, codec, |records|, i);
    StatsGrow(records, plan, config, codec, |records|, 0);
    NoRepairsUncounted(records, config, codec);
    UncountedIsUnchanged(records[i].value, plan.estimated, plan.analysis.toolCalls, config, codec);
  }

  /** A repair makes no token-count event out of anything else. */
  lemma RepairMakesNoTokenCount(value: Value, r: nat, codec: Codec, trigger: nat)
    requires IsHighTokenCount(MF.DiagnoseRecord(value, r, codec).value, trigger)
    ensures IsHighTokenCount(value, trigger)
  {
    hide ObservedTokens;
    MT.RecordGood(value, r, codec);
    assert MF.CheckOf(MF.DiagnoseRecord(value, r, codec).value).Unchecked?;
  }

  /** Token-count events at the trigger are dropped before they could be normalised, so that step never acts. */
  lemma TokenCountsAreNeverNormalized(records: seq<Record>, config: Config, codec: Codec, i: nat)
    requires i < |records| && FateOf(i, records[i], PlanFor(records, config, codec), config, codec).Kept?
    ensures FateOf(i, records[i], PlanFor(records, config, codec), config, codec).counts.tokenCounts == 0
  {
    hide IsHighTokenCount;
    hide IsRecoverableTaskError;
    hide MF.DiagnoseRecord;
    hide RepairsApply;
    hide ScrubValue;
    hide Touches;
    hide ScrubUserImages;
    hide PruneInlineImages;
    hide PruneLargeOutput;
    hide NormalizeGoal;
    var repaired := MF.DiagnoseRecord(records[i].value, i, codec).value;
    if IsHighTokenCount(repaired, config.trigger) {
      RepairMakesNoTokenCount(records[i].value, i, codec, config.trigger);
    }
  }

  // ---- Attached images ----

  function ItemsAt(payload: Value, field: string): seq<Value> {
    match Get(payload, field)
    case Some(Array(items)) => items
    case _ => []
  }

  lemma MentionsInside(before: string, part: string, after: string)
    ensures Mentions(before + part + after, part)
  {
    assert MatchAt(before + part + after, part, |before|);
  }

  lemma TrimBreaks(core: string)
    requires core != [] && !IsWhitespace(core[0]) && !IsWhitespace(core[|core| - 1])
    ensures Trim("\n\n" + core) == core
  {
    assert ("\n\n" + core)[1..] == "\n" + core;
    assert ("\n" + core)[1..] == core;
    assert TrimStart("\n" + core) == core;
  }

  lemma NoteShape(count: nat) returns (before: string, after: string)
    ensures NoteText(count) == "\n\n" + (before + PLACEHOLDERS_FIELD + after)
    ensures before != [] && before[0] == '[' && after != [] && after[|after| - 1] == ']'
  {
    before := "[context-guardian removed " + Decimal(count) + NOTE_BODY;
    after := NOTE_END;
  }

  lemma NoteMentionsField(message: string, count: nat)
    ensures Mentions(Trim(NoteText(count)), PLACEHOLDERS_FIELD)
    ensures Mentions(message + NoteText(count), PLACEHOLDERS_FIELD)
  {
    hide *;
    var before, after := NoteShape(count);
    ShapeMentions(message, before, PLACEHOLDERS_FIELD, after);
  }

  lemma ShapeMentions(message: string, before: string, part: string, after: string)
    requires before != [] && before[0] == '[' && after != [] && after[|after| - 1] == ']'
    ensures Mentions(Trim("\n\n" + (before + part + after)), part)
    ensures Mentions(message + ("\n\n" + (before + part + after)), part)
  {
    hide Mentions;
    hide Trim;
    TrimBreaks(before + part + after);
    MentionsInside(before, part, after);
    MentionsInside(message + "\n\n" + before, part, after);
    assert message + ("\n\n" + (before + part + after)) == (message + "\n\n" + before) + part + after;
  }

  /** The message still begins as it did, and points to the placeholders. */
  lemma NoteIsAdded(payload: Value, count: nat)
    requires payload.Object?
    ensures var noted := Annotated(payload, count);
            && noted.Object? && StringAt(noted, "message").Some? && Mentions(StringAt(noted, "message").value, PLACEHOLDERS_FIELD)
            && (StringAt(payload, "message").Some? ==> StringAt(payload, "message").value <= StringAt(noted, "message").value)
            && (forall key :: key != "message" ==> Get(noted, key) == Get(payload, key))
  {
    hide NoteText;
    hide Mentions;
    match StringAt(payload, "message")
    case Some(message) => NoteMentionsField(message, count);
    case None => NoteMentionsField("", count);
  }

  /** One placeholder for each attachment, in order, the images before the local ones. */
  ghost predicate StandFor(placeholders: seq<Value>, images: seq<Value>, local: seq<Value>, config: Config, codec: Codec) {
    && |placeholders| == |images| + |local|
    && (forall i :: 0 <= i < |images| ==> placeholders[i] == UserImagePlaceholder("images", images[i], config, codec))
    && (forall i :: 0 <= i < |local| ==> placeholders[|images| + i] == UserImagePlaceholder("local_images", local[i], config, codec))
  }

  lemma PlaceholdersStandFor(p: Value, config: Config, codec: Codec)
    ensures var placeholders := FieldPlaceholders(p, "images", config, codec) + FieldPlaceholders(p, "local_images", config, codec);
            StandFor(placeholders, ItemsAt(p, "images"), ItemsAt(p, "local_images"), config, codec)
  {
    hide UserImagePlaceholder;
  }

  /** What the user message's payload becomes when it has attachments. */
  ghost predicate AttachmentsReplaced(p: Value, p': Value, config: Config, codec: Codec) {
    && p.Object? && p'.Object? && Get(p', "image_placeholders").Some?
    && ItemsAt(p', "images") == [] && ItemsAt(p', "local_images") == []
    && StandFor(ItemsAt(p', "image_placeholders"), ItemsAt(p, "images"), ItemsAt(p, "local_images"), config, codec)
    && StringAt(p', "message").Some? && Mentions(StringAt(p', "message").value, PLACEHOLDERS_FIELD)
    && (StringAt(p, "message").Some? ==> StringAt(p, "message").value <= StringAt(p', "message").value)
    && (forall key :: key !in {"images", "local_images", "image_placeholders", "message"} ==> Get(p', key) == Get(p, key))
  }

  lemma BothEmptied(p: Value, placeholders: seq<Value>)
    requires p.Object?
    ensures var r := With(Emptied(Emptied(p, "images"), "local_images"), "image_placeholders", Array(placeholders));
            && r.Object? && Get(r, "image_placeholders") == Some(Array(placeholders))
            && ItemsAt(r, "images") == [] && ItemsAt(r, "local_images") == []
            && (forall key :: key !in {"images", "local_images", "image_placeholders"} ==> Get(r, key) == Get(p, key))
  {
  }

  /** The placeholders of both fields, in order, in place of the attachments. */
  lemma PayloadReplaced(p: Value, config: Config, codec: Codec)
    requires p.Object?
    ensures var placeholders := FieldPlaceholders(p, "images", config, codec) + FieldPlaceholders(p, "local_images", config, codec);
            var emptied := Emptied(Emptied(p, "images"), "local_images");
            && AttachmentsReplaced(p, Annotated(With(emptied, "image_placeholders", Array(placeholders)), |placeholders|), config, codec)
            && |placeholders| == |ItemsAt(p, "images")| + |ItemsAt(p, "local_images")|
  {
    hide Annotated;
    hide Mentions;
    hide Emptied;
    hide FieldPlaceholders;
    var placeholders := FieldPlaceholders(p, "images", config, codec) + FieldPlaceholders(p, "local_images", config, codec);
    PlaceholdersStandFor(p, config, codec);
    assert |placeholders| == |ItemsAt(p, "images")| + |ItemsAt(p, "local_images")|;
    hide StandFor;
    BothEmptied(p, placeholders);
    NoteIsAdded(With(Emptied(Emptied(p, "images"), "local_images"), "image_placeholders", Array(placeholders)), |placeholders|);
  }

  /** Every attachment of a user message is replaced, in order, by one placeholder in `image_placeholders`;
      the message is kept and points there, nothing else of the record changes, and a second pass finds nothing. */
  lemma AttachmentsArePreserved(value: Value, config: Config, codec: Codec)
    requires ScrubUserImages(value, config, codec).1 > 0
    ensures var (after, count) := ScrubUserImages(value, config, codec);
            && IsEvent(value, "user_message") && after == WithPayload(value, after.fields["payload"])
            && AttachmentsReplaced(value.fields["payload"], after.fields["payload"], config, codec)
            && count == |ItemsAt(value.fields["payload"], "images")| + |ItemsAt(value.fields["payload"], "local_images")|
            && ScrubUserImages(after, config, codec) == (after, 0)
  {
    var p := value.fields["payload"];
    PayloadReplaced(p, config, codec);
    hide AttachmentsReplaced;
    hide Annotated;
    hide FieldPlaceholders;
    var after := ScrubUserImages(value, config, codec).0;
    assert AttachmentsReplaced(p, after.fields["payload"], config, codec);
    SecondPassFindsNothing(value, p, after.fields["payload"], config, codec);
  }

  lemma SecondPassFindsNothing(value: Value, p: Value, p': Value, config: Config, codec: Codec)
    requires IsEvent(value, "user_message") && value.fields["payload"] == p && AttachmentsReplaced(p, p', config, codec)
    ensures ScrubUserImages(WithPayload(value, p'), config, codec) == (WithPayload(value, p'), 0)
  {
    hide UserImagePlaceholder;
    hide Mentions;
    assert Get(p', "type") == Get(p, "type");
  }

  /** A user message without attachments is left alone. */
  lemma NothingAttached(value: Value, config: Config, codec: Codec)
    requires IsEvent(value, "user_message")
    ensures ScrubUserImages(value, config, codec).1 == 0 <==>
              ItemsAt(value.fields["payload"], "images") == [] && ItemsAt(value.fields["payload"], "local_images") == []
  {
  }
}
