/** Cutting a large text into chunks for a summariser, and reducing the summaries in rounds. */
module Chunking {
  import opened Prelude
  import opened Text
  import opened Joining
  import opened Rollout

  const MAX_REDUCE_ROUNDS: nat := 4

  function CharTokens(c: char): nat {
    if c < '\U{80}' then 1 else 2
  }

  function Tokens(text: string): nat {
    if text == "" then 0 else Tokens(text[..|text| - 1]) + CharTokens(text[|text| - 1])
  }

  /** At least one token, even for nothing. */
  function EstimateTokens(text: string): nat {
    Max(Tokens(text), 1)
  }

  lemma {:induction false} TokensConcat(a: string, b: string)
    ensures Tokens(a + b) == Tokens(a) + Tokens(b)
  {
    if b == "" {
      assert a + b == a;
    } else {
      assert (a + b)[..|a + b| - 1] == a + b[..|b| - 1];
      TokensConcat(a, b[..|b| - 1]);
    }
  }

  /** The positions of characters beyond ASCII. */
  function Wide(text: string): set<int> {
    set i | 0 <= i < |text| && text[i] >= '\U{80}'
  }

  /** An estimate counts every character once, and those beyond ASCII once more; it is never below one. */
  lemma {:induction false} TokensCount(text: string)
    ensures Tokens(text) == |text| + |Wide(text)|
    ensures EstimateTokens(text) == if text == "" then 1 else |text| + |Wide(text)|
  {
    if text == "" {
      assert Wide(text) == {};
    } else {
      var n := |text| - 1;
      TokensCount(text[..n]);
      assert Wide(text) == Wide(text[..n]) + if text[n] >= '\U{80}' then {n} else {};
    }
  }

  lemma {:induction false} TokensBounds(text: string)
    ensures |text| <= Tokens(text) <= 2 * |text|
  {
    if text != "" {
      TokensBounds(text[..|text| - 1]);
    }
  }

  function Concat(chunks: seq<string>): string {
    if chunks == [] then "" else Concat(chunks[..|chunks| - 1]) + chunks[|chunks| - 1]
  }

  lemma {:induction false} ConcatAppend(a: seq<string>, b: seq<string>)
    ensures Concat(a + b) == Concat(a) + Concat(b)
  {
    if b == [] {
      assert a + b == a;
    } else {
      assert (a + b)[..|a + b| - 1] == a + b[..|b| - 1];
      ConcatAppend(a, b[..|b| - 1]);
    }
  }

  lemma ConcatOne(chunks: seq<string>, chunk: string)
    ensures Concat(chunks + [chunk]) == Concat(chunks) + chunk
  {
    assert (chunks + [chunk])[..|chunks|] == chunks;
  }

  /** No chunk is empty, and each is within the target. */
  predicate Sized(chunks: seq<string>, target: nat) {
    forall i :: 0 <= i < |chunks| ==> chunks[i] != "" && Tokens(chunks[i]) <= target
  }

  predicate Full(chunk: string, target: nat) {
    Tokens(chunk) + 1 >= target
  }

  // ---- One long line ----

  lemma AddChar(text: string, c: char)
    ensures Tokens(text + [c]) == Tokens(text) + CharTokens(c)
    ensures Tokens("") == 0
  {
    assert (text + [c])[..|text|] == text;
  }

  predicate AllNonempty(chunks: seq<string>) {
    forall i :: 0 <= i < |chunks| ==> chunks[i] != ""
  }

  predicate AllFull(pieces: seq<string>, target: nat) {
    forall i :: 0 <= i < |pieces| ==> Full(pieces[i], target)
  }

  /** The loop between two characters: text is what was read so far. */
  predicate Cutting(text: string, pieces: seq<string>, current: string, target: nat) {
    && Concat(pieces) + current == text && AllNonempty(pieces) && AllFull(pieces, target)
    && (target >= 2 ==> Sized(pieces, target) && Tokens(current) <= target)
    && (text != "" ==> current != "")
  }

  lemma CutHere(text: string, pieces: seq<string>, current: string, target: nat, c: char)
    requires Cutting(text, pieces, current, target) && current != "" && Tokens(current) + CharTokens(c) > target
    ensures Cutting(text + [c], pieces + [current], [c], target)
  {
    hide Concat;
    hide Tokens;
    ConcatOne(pieces, current);
    AddChar("", c);
    assert "" + [c] == [c];
  }

  lemma KeepGoing(text: string, pieces: seq<string>, current: string, target: nat, c: char)
    requires Cutting(text, pieces, current, target) && (current == "" || Tokens(current) + CharTokens(c) <= target)
    ensures Cutting(text + [c], pieces, current + [c], target)
  {
    hide Concat;
    hide Tokens;
    hide AllFull;
    hide Sized;
    AddChar(current, c);
    assert Concat(pieces) + (current + [c]) == Concat(pieces) + current + [c];
  }

  lemma CutBegins(target: nat)
    ensures Cutting("", [], "", target) && Tokens("") == 0
  {
  }

  /** What is known of the pieces once the pending one is pushed. */
  predicate Cut(text: string, pieces: seq<string>, target: nat) {
    && Concat(pieces) == text && AllNonempty(pieces) && (target >= 2 ==> Sized(pieces, target))
    && forall i :: 0 <= i < |pieces| - 1 ==> Full(pieces[i], target)
  }

  lemma CutEnds(text: string, pieces: seq<string>, current: string, target: nat)
    requires Cutting(text, pieces, current, target)
    ensures Cut(text, if current == "" then pieces else pieces + [current], target)
  {
    hide Concat;
    hide Tokens;
    ConcatOne(pieces, current);
    assert Concat(pieces) + "" == Concat(pieces);
  }

  /** Cuts a text before every character that no longer fits: every piece but the last is full. */
  method SplitLongPiece(input: string, target: nat) returns (pieces: seq<string>)
    ensures Cut(input, pieces, target)
  {
    hide Cutting;
    hide Cut;
    hide Tokens;
    pieces := [];
    var current, tokens := "", 0;
    CutBegins(target);
    for i := 0 to |input|
      invariant Cutting(input[..i], pieces, current, target) && tokens == Tokens(current)
    {
      var c := input[i];
      assert input[..i + 1] == input[..i] + [c];
      AddChar("", c);
      AddChar(current, c);
      if current != "" && tokens + CharTokens(c) > target {
        CutHere(input[..i], pieces, current, target, c);
        pieces := pieces + [current];
        current, tokens := "", 0;
        assert current + [c] == [c];
      } else {
        KeepGoing(input[..i], pieces, current, target, c);
      }
      current := current + [c];
      tokens := tokens + CharTokens(c);
    }
    assert input[..|input|] == input;
    CutEnds(input, pieces, current, target);
    if current != "" {
      pieces := pieces + [current];
    }
  }

  // ---- Whole texts ----

  /** Any three neighbours hold at least the target less one. */
  predicate Dense(chunks: seq<string>, target: nat) {
    forall i :: 0 <= i < |chunks| - 2 ==> DenseAt(chunks, target, i)
  }

  predicate DenseAt(chunks: seq<string>, target: nat, i: nat)
    requires i + 2 < |chunks|
  {
    Tokens(chunks[i]) + Tokens(chunks[i + 1]) + Tokens(chunks[i + 2]) + 1 >= target
  }

  /** The state between two lines: either the last chunk ends a long line and follows a full one, or it and the pending
      text together exceed the target. */
  predicate Pending(chunks: seq<string>, current: string, target: nat) {
    chunks != [] ==>
      || (|chunks| >= 2 && Full(chunks[|chunks| - 2], target))
      || (current != "" && Tokens(chunks[|chunks| - 1]) + Tokens(current) > target)
  }

  lemma PushPending(chunks: seq<string>, current: string, target: nat)
    requires Dense(chunks, target) && Pending(chunks, current, target)
    ensures Dense(chunks + [current], target)
  {
    hide Tokens;
    var after := chunks + [current];
    forall i | 0 <= i < |after| - 2 ensures DenseAt(after, target, i) {
      if i == |after| - 3 {
        assert after[i] == chunks[|chunks| - 2] && after[i + 1] == chunks[|chunks| - 1] && after[i + 2] == current;
      } else {
        assert DenseAt(chunks, target, i);
      }
    }
  }

  lemma PushPieces(chunks: seq<string>, pieces: seq<string>, target: nat)
    requires Dense(chunks, target) && |pieces| >= 2
    requires forall i :: 0 <= i < |pieces| - 1 ==> Full(pieces[i], target)
    ensures Dense(chunks + pieces, target)
  {
    hide Tokens;
    var after, n := chunks + pieces, |chunks|;
    forall i | 0 <= i < |after| - 2 ensures DenseAt(after, target, i) {
      if i + 2 < n {
        assert DenseAt(chunks, target, i);
      } else {
        var k := if i < n then n else i;
        assert k < n + |pieces| - 1 && Full(pieces[k - n], target) && after[k] == pieces[k - n];
      }
    }
  }

  lemma LongLineHasPieces(line: string, pieces: seq<string>, target: nat)
    requires Concat(pieces) == line && Tokens(line) > target && Sized(pieces, target)
    ensures |pieces| >= 2
  {
    SingleConcat(pieces);
  }

  lemma SingleConcat(pieces: seq<string>)
    ensures |pieces| == 1 ==> Concat(pieces) == pieces[0]
    ensures pieces == [] ==> Concat(pieces) == ""
  {
    if |pieces| == 1 {
      assert pieces[..0] == [];
      assert Concat(pieces) == "" + pieces[0] == pieces[0];
    }
  }

  /** The chunks are the text, none is empty or over the target, and any three in a row are dense. */
  predicate GoodChunks(input: string, chunks: seq<string>, target: nat) {
    Concat(chunks) == input && Sized(chunks, target) && Dense(chunks, target)
  }

  /** The loop between two lines: text is what was read so far. */
  predicate Open(text: string, chunks: seq<string>, current: string, limit: nat) {
    && Concat(chunks) + current == text && AllNonempty(chunks)
    && (limit >= 2 ==> Sized(chunks, limit) && Tokens(current) <= limit && Dense(chunks, limit) && Pending(chunks, current, limit))
  }

  predicate Closed(text: string, chunks: seq<string>, limit: nat) {
    Concat(chunks) == text && AllNonempty(chunks) && (limit >= 2 ==> Sized(chunks, limit) && Dense(chunks, limit))
  }

  lemma Flush(text: string, chunks: seq<string>, current: string, limit: nat)
    requires Open(text, chunks, current, limit) && current != ""
    ensures Closed(text, chunks + [current], limit)
  {
    hide Concat;
    hide Tokens;
    hide Dense;
    hide Pending;
    ConcatOne(chunks, current);
    if limit >= 2 {
      PushPending(chunks, current, limit);
    }
  }

  lemma StartLine(text: string, chunks: seq<string>, pushed: string, line: string, limit: nat)
    requires Closed(text, chunks + [pushed], limit) && line != ""
    requires Tokens(line) <= limit && Tokens(pushed) + Tokens(line) > limit
    ensures Open(text + line, chunks + [pushed], line, limit)
  {
    hide Concat;
    hide Tokens;
    hide Dense;
    hide Sized;
    assert (chunks + [pushed])[|chunks|] == pushed;
  }

  lemma LongLine(text: string, chunks: seq<string>, line: string, pieces: seq<string>, limit: nat)
    requires Closed(text, chunks, limit) && Cut(line, pieces, limit) && Tokens(line) > limit
    ensures Open(text + line, chunks + pieces, "", limit)
  {
    hide Concat;
    hide Tokens;
    hide Dense;
    ConcatAppend(chunks, pieces);
    AddChar("", ' ');
    if limit >= 2 {
      LongLineHasPieces(line, pieces, limit);
      PushPieces(chunks, pieces, limit);
      assert Full(pieces[|pieces| - 2], limit);
      assert (chunks + pieces)[|chunks + pieces| - 2] == pieces[|pieces| - 2];
    }
    assert text + line + "" == text + line;
  }

  lemma AppendLine(text: string, chunks: seq<string>, current: string, line: string, limit: nat)
    requires Open(text, chunks, current, limit) && Tokens(current) + Tokens(line) <= limit && line != ""
    ensures Open(text + line, chunks, current + line, limit)
  {
    hide Concat;
    hide Tokens;
    hide Dense;
    hide Sized;
    TokensConcat(current, line);
    assert Concat(chunks) + (current + line) == Concat(chunks) + current + line;
  }

  lemma NothingPending(text: string, chunks: seq<string>, limit: nat)
    requires Open(text, chunks, "", limit)
    ensures Closed(text, chunks, limit)
  {
    assert Concat(chunks) + "" == Concat(chunks);
  }

  lemma NextLine(lines: seq<string>, i: nat)
    requires i < |lines|
    ensures Concat(lines[..i + 1]) == Concat(lines[..i]) + lines[i]
  {
    assert lines[..i + 1][..i] == lines[..i];
  }

  /** One turn of the loop. */
  method AddLine(chunks: seq<string>, current: string, currentTokens: nat, line: string, limit: nat, ghost text: string)
    returns (after: seq<string>, pending: string, pendingTokens: nat)
    requires Open(text, chunks, current, limit) && currentTokens == Tokens(current) && line != ""
    ensures Open(text + line, after, pending, limit) && pendingTokens == Tokens(pending)
  {
    hide Open;
    hide Closed;
    hide Cut;
    hide Tokens;
    TokensBounds(line);
    AddChar("", ' ');
    var lineTokens := EstimateTokens(line);
    if current != "" && currentTokens + lineTokens > limit {
      Flush(text, chunks, current, limit);
      after := chunks + [current];
      if lineTokens > limit {
        var pieces := SplitLongPiece(line, limit);
        LongLine(text, after, line, pieces, limit);
        return after + pieces, "", 0;
      }
      StartLine(text, chunks, current, line, limit);
      return after, line, lineTokens;
    }
    if lineTokens > limit {
      NothingPending(text, chunks, limit);
      var pieces := SplitLongPiece(line, limit);
      LongLine(text, chunks, line, pieces, limit);
      return chunks + pieces, "", 0;
    }
    AppendLine(text, chunks, current, line, limit);
    TokensConcat(current, line);
    return chunks, current + line, currentTokens + lineTokens;
  }

  lemma OpenBegins(limit: nat)
    ensures Open("", [], "", limit) && Tokens("") == 0 && Concat([]) == ""
  {
  }

  method ChunkByEstimatedTokens(input: string, target: nat) returns (chunks: seq<string>)
    ensures Concat(chunks) == input && AllNonempty(chunks)
    ensures target >= 2 ==> GoodChunks(input, chunks, target)
  {
    hide Open;
    hide SplitInclusive;
    hide Tokens;
    hide Concat;
    hide Dense;
    var limit := Max(target, 1);
    var lines := SplitInclusive(input);
    LinesConcat(input);
    chunks := [];
    var current, currentTokens := "", 0;
    OpenBegins(limit);
    assert lines[..0] == [];
    for i := 0 to |lines|
      invariant Open(Concat(lines[..i]), chunks, current, limit) && currentTokens == Tokens(current)
    {
      NextLine(lines, i);
      chunks, current, currentTokens := AddLine(chunks, current, currentTokens, lines[i], limit, Concat(lines[..i]));
    }
    assert lines[..|lines|] == lines;
    if current != "" {
      Flush(input, chunks, current, limit);
      chunks := chunks + [current];
    } else {
      NothingPending(input, chunks, limit);
    }
  }

  lemma {:induction false} LinesConcat(text: string)
    ensures Concat(SplitInclusive(text)) == text && forall i :: 0 <= i < |SplitInclusive(text)| ==> SplitInclusive(text)[i] != ""
    decreases |text|
  {
    if text != "" {
      match FindWhere(text, c => c == '\n')
      case None => SingleConcat([text]);
      case Some(i) =>
        hide Concat;
        var first, rest := text[..i + 1], SplitInclusive(text[i + 1..]);
        LinesConcat(text[i + 1..]);
        ConcatAppend([first], rest);
        SingleConcat([first]);
        assert text == first + text[i + 1..];
    }
  }

  lemma {:induction false} ChunkTokens(chunks: seq<string>, i: nat)
    requires i <= |chunks|
    ensures Tokens(Concat(chunks)) == Tokens(Concat(chunks[..i])) + Tokens(Concat(chunks[i..]))
  {
    ConcatAppend(chunks[..i], chunks[i..]);
    assert chunks == chunks[..i] + chunks[i..];
    TokensConcat(Concat(chunks[..i]), Concat(chunks[i..]));
  }

  lemma ThreeTokens(a: string, b: string, c: string)
    ensures Tokens(Concat([a, b, c])) == Tokens(a) + Tokens(b) + Tokens(c)
  {
    assert [a, b, c] == [a, b] + [c] && [a, b] == [a] + [b] && [a][..0] == [];
    ConcatOne([a, b], c);
    ConcatOne([a], b);
    assert Concat([a]) == "" + a == a;
    TokensConcat(a + b, c);
    TokensConcat(a, b);
  }

  lemma DenseTail(chunks: seq<string>, target: nat)
    requires |chunks| >= 3 && Dense(chunks, target)
    ensures Dense(chunks[3..], target)
    ensures Tokens(chunks[0]) + Tokens(chunks[1]) + Tokens(chunks[2]) + 1 >= target
  {
    hide Tokens;
    assert DenseAt(chunks, target, 0);
    forall i | 0 <= i < |chunks[3..]| - 2 ensures DenseAt(chunks[3..], target, i) {
      assert DenseAt(chunks, target, i + 3);
    }
  }

  /** A text is cut into no more chunks than three for each full share of its tokens, and two more. */
  lemma {:induction false} ChunkCount(chunks: seq<string>, target: nat)
    requires target >= 2 && Dense(chunks, target)
    ensures (|chunks| / 3) * (target - 1) <= Tokens(Concat(chunks))
    decreases |chunks|
  {
    hide Dense;
    if |chunks| >= 3 {
      DenseTail(chunks, target);
      var rest := chunks[3..];
      ChunkCount(rest, target);
      ChunkTokens(chunks, 3);
      assert chunks[..3] == [chunks[0], chunks[1], chunks[2]];
      ThreeTokens(chunks[0], chunks[1], chunks[2]);
      assert |rest| / 3 == |chunks| / 3 - 1;
      Distribute(|chunks| / 3 - 1, target - 1);
    }
  }

  lemma Distribute(n: nat, k: nat)
    ensures (n + 1) * k == n * k + k
  {
  }

  // ---- Reducing in rounds ----

  datatype Task = Reduce(round: nat, index: nat, count: nat, part: string) | Combine(chunks: nat, joined: string)

  type Summarizer = Task -> Option<string>

  /** The summary of every part of one round, or None when the summariser fails on one. */
  method SummarizeAll(parts: seq<string>, round: nat, summarize: Summarizer) returns (r: Option<seq<string>>)
    ensures r.Some? ==> |r.value| == |parts| && forall i :: 0 <= i < |parts| ==> Some(r.value[i]) == summarize(Reduce(round, i + 1, |parts|, parts[i]))
    ensures r.None? <==> exists i :: 0 <= i < |parts| && summarize(Reduce(round, i + 1, |parts|, parts[i])).None?
  {
    var summaries: seq<string> := [];
    for i := 0 to |parts|
      invariant |summaries| == i
      invariant forall k :: 0 <= k < i ==> Some(summaries[k]) == summarize(Reduce(round, k + 1, |parts|, parts[k]))
    {
      var summary := summarize(Reduce(round, i + 1, |parts|, parts[i]));
      if summary.None? {
        return None;
      }
      summaries := summaries + [summary.value];
    }
    return Some(summaries);
  }

  const SUMMARY_SEPARATOR := "\n\n--- next chunk summary ---\n\n"

  /** The parts need no further round. */
  predicate Fits(parts: seq<string>, target: nat) {
    |parts| <= 1 && EstimateTokens(if parts == [] then "" else parts[0]) <= target
  }

  ghost predicate AreSummaries(parts: seq<string>, summaries: seq<string>, round: nat, summarize: Summarizer) {
    && |summaries| == |parts|
    && forall i :: 0 <= i < |parts| ==> Some(summaries[i]) == summarize(Reduce(round, i + 1, |parts|, parts[i]))
  }

  /** One round: every part is summarised, and the summaries joined and cut again. */
  ghost predicate Reduces(parts: seq<string>, next: seq<string>, round: nat, target: nat, summarize: Summarizer) {
    exists summaries :: AreSummaries(parts, summaries, round, summarize) && GoodChunks(Joined(summaries, "\n\n--- next chunk summary ---\n\n"), next, target)
  }

  /** The parts of every round: the cut text, then what each round makes of the one before, as long as they do not fit. */
  ghost predicate Levels(text: string, target: nat, levels: seq<seq<string>>, summarize: Summarizer) {
    && levels != [] && GoodChunks(text, levels[0], target)
    && forall k :: 0 <= k < |levels| - 1 ==> !Fits(levels[k], target) && Reduces(levels[k], levels[k + 1], k + 1, target, summarize)
  }

  predicate SummaryFails(parts: seq<string>, round: nat, summarize: Summarizer) {
    exists i :: 0 <= i < |parts| && summarize(Reduce(round, i + 1, |parts|, parts[i])).None?
  }

  /** Summarises a text in at most four rounds, whatever the summariser returns. The result is the combination of the
      first parts that fit in one, or their text when combining fails; the joined parts of the fourth round when none
      fit; and nothing when the text is empty or a part cannot be summarised. */
  method MapReduceSummary(original: string, chunkTarget: nat, summarize: Summarizer)
    returns (r: Option<string>, rounds: nat, ghost levels: seq<seq<string>>)
    ensures rounds <= 4 && |levels| == rounds + 1
    ensures Levels(original, Max(chunkTarget, 8000), levels, summarize)
    ensures original == "" <==> levels[0] == []
    ensures var target, last := Max(chunkTarget, 8000), levels[rounds];
            if original == "" then r.None? && rounds == 0
            else if Fits(last, target) then
              r == Some(match summarize(Combine(|levels[0]|, Joined(last, "\n\n")))
                        case Some(summary) => summary
                        case None => Joined(last, "\n\n"))
            else if rounds == 4 then r == Some(Joined(last, "\n\n"))
            else r.None? && SummaryFails(last, rounds + 1, summarize)
  {
    hide Joined;
    hide GoodChunks;
    hide Tokens;
    var target := Max(chunkTarget, 8000);
    var parts := ChunkByEstimatedTokens(original, target);
    rounds := 0;
    levels := [parts];
    if parts == [] {
      return None, 0, levels;
    }
    var chunks := |parts|;
    while |parts| > 1 || EstimateTokens(if parts == [] then "" else parts[0]) > target
      invariant rounds <= MAX_REDUCE_ROUNDS && |levels| == rounds + 1 && parts == levels[rounds]
      invariant Levels(original, target, levels, summarize)
      invariant |levels[0]| == chunks && original != "" && levels[0] != []
      decreases MAX_REDUCE_ROUNDS - rounds
    {
      if rounds >= MAX_REDUCE_ROUNDS {
        return Some(Joined(parts, "\n\n")), rounds, levels;
      }
      var summaries := SummarizeAll(parts, rounds + 1, summarize);
      if summaries.None? {
        return None, rounds, levels;
      }
      assert AreSummaries(parts, summaries.value, rounds + 1, summarize);
      parts := ChunkByEstimatedTokens(Joined(summaries.value, SUMMARY_SEPARATOR), target);
      levels := levels + [parts];
      rounds := rounds + 1;
    }
    var joined := Joined(parts, "\n\n");
    var summary := summarize(Combine(chunks, joined));
    r := if summary.Some? then summary else Some(joined);
  }
}
