/** Inline `data:image` URIs in text: where they are, and their replacement by placeholders. */
module DataUri {
  import opened Prelude
  import opened Text
  import opened TextFacts
  import Utf8

  const MARKER := "data:image"

  predicate Ends(c: char) {
    c == '"' || c == '\'' || IsWhitespace(c) || c == ')' || c == ']'
  }

  function CharBytes(c: char): nat {
    if c < '\U{80}' then 1 else if c < '\U{800}' then 2 else if c < '\U{10000}' then 3 else 4
  }

  /** The length of s in UTF-8. */
  function ByteLength(s: string): nat {
    if s == "" then 0 else CharBytes(s[0]) + ByteLength(s[1..])
  }

  lemma {:induction false} ByteLengthConcat(a: string, b: string)
    ensures ByteLength(a + b) == ByteLength(a) + ByteLength(b)
  {
    if a == "" {
      assert a + b == b;
    } else {
      assert (a + b)[1..] == a[1..] + b;
      ByteLengthConcat(a[1..], b);
    }
  }

  /** The length is that of the encoding. */
  lemma {:induction false} ByteLengthIsEncoded(s: string)
    ensures ByteLength(s) == |Utf8.Encode(s)|
  {
    if s != "" {
      ByteLengthIsEncoded(s[1..]);
    }
  }

  /** The first position at or after i that ends a URI. */
  function SpanEnd(text: string, i: nat): (end: nat)
    requires i <= |text|
    ensures i <= end <= |text|
    ensures forall j :: i <= j < end ==> !Ends(text[j])
    ensures end < |text| ==> Ends(text[end])
    decreases |text| - i
  {
    if i == |text| || Ends(text[i]) then i else SpanEnd(text, i + 1)
  }

  lemma MarkerEndsNowhere(text: string, start: nat)
    requires MatchAt(text, MARKER, start)
    ensures SpanEnd(text, start) >= start + |MARKER|
  {
    forall k | 0 <= k < |MARKER| ensures text[start + k] == MARKER[k] && !Ends(text[start + k]) {
      assert text[start..start + |MARKER|][k] == text[start + k];
    }
  }

  function Spans(text: string, offset: nat): (spans: seq<(nat, nat)>)
    requires offset <= |text|
    decreases |text| - offset
  {
    match Find(text, MARKER, offset)
    case None => []
    case Some(start) =>
      MarkerEndsNowhere(text, start);
      var end := SpanEnd(text, start);
      [(start, end)] + Spans(text, end)
  }

  /** In order and in bounds from cursor on. */
  predicate Laid(text: string, cursor: nat, spans: seq<(nat, nat)>)
    requires cursor <= |text|
    decreases |spans|
  {
    spans != [] ==>
      && cursor <= spans[0].0 < spans[0].1 <= |text|
      && Laid(text, spans[0].1, spans[1..])
  }

  lemma {:induction false} SpansAreLaid(text: string, offset: nat)
    requires offset <= |text|
    ensures Laid(text, offset, Spans(text, offset))
    decreases |text| - offset
  {
    match Find(text, MARKER, offset)
    case None =>
    case Some(start) =>
      MarkerEndsNowhere(text, start);
      SpansAreLaid(text, SpanEnd(text, start));
      assert Spans(text, offset)[1..] == Spans(text, SpanEnd(text, start));
  }

  lemma SpansStop(text: string, offset: nat)
    requires offset <= |text| && Find(text, MARKER, offset).None?
    ensures Spans(text, offset) == []
  {
  }

  lemma SpansStep(text: string, offset: nat)
    requires offset <= |text| && Find(text, MARKER, offset).Some?
    ensures var start := Find(text, MARKER, offset).value;
            && start + |MARKER| <= SpanEnd(text, start)
            && Spans(text, offset) == [(start, SpanEnd(text, start))] + Spans(text, SpanEnd(text, start))
  {
    MarkerEndsNowhere(text, Find(text, MARKER, offset).value);
  }

  method DataImageSpans(text: string) returns (spans: seq<(nat, nat)>)
    ensures spans == Spans(text, 0)
  {
    hide Spans;
    hide MatchAt;
    hide SpanEnd;
    spans := [];
    var offset: nat := 0;
    while true
      invariant offset <= |text| && Spans(text, 0) == spans + Spans(text, offset)
      decreases |text| - offset
    {
      var start := Find(text, MARKER, offset);
      if start.None? {
        SpansStop(text, offset);
        return;
      }
      SpansStep(text, offset);
      var end := SpanEnd(text, start.value);
      spans := spans + [(start.value, end)];
      offset := if end > start.value + |MARKER| then end else start.value + |MARKER|;
    }
  }

  // ---- Which spans ----

  ghost predicate InSpan(spans: seq<(nat, nat)>, j: nat) {
    exists i :: 0 <= i < |spans| && spans[i].0 <= j < spans[i].1
  }

  /** A quote, an apostrophe, a closing parenthesis or bracket, or white space. */
  predicate ClosesUri(c: char) {
    c as int == 34 || c as int == 39 || c as int == 41 || c as int == 93 || BlankPoint(c as int)
  }

  /** In bounds, beginning with a marker, running to the first end character or the end of the text. */
  ghost predicate IsSpan(text: string, span: (nat, nat)) {
    && MatchAt(text, "data:image", span.0) && span.0 <= span.1 <= |text|
    && (forall j :: span.0 <= j < span.1 ==> !ClosesUri(text[j]))
    && (span.1 < |text| ==> ClosesUri(text[span.1]))
  }

  lemma IsSpanIff(text: string, start: nat, end: nat)
    ensures IsSpan(text, (start, end)) <==> MatchAt(text, MARKER, start) && end == SpanEnd(text, start)
  {
    hide IsWhitespace;
    hide BlankPoint;
    forall c: char ensures ClosesUri(c) <==> Ends(c) {
      WhitespaceIff(c);
    }
    hide ClosesUri;
    hide Ends;
    if MatchAt(text, MARKER, start) && start <= end <= |text| && end < SpanEnd(text, start) {
      assert !Ends(text[end]);
    }
  }

  ghost predicate Covered(text: string, offset: nat, spans: seq<(nat, nat)>) {
    forall j: nat :: offset <= j && MatchAt(text, "data:image", j) ==> InSpan(spans, j)
  }

  /** Every span is one, they are sorted and disjoint, and every marker of the text lies in one of them. */
  ghost predicate AreSpans(text: string, offset: nat, spans: seq<(nat, nat)>) {
    && (forall i :: 0 <= i < |spans| ==> offset <= spans[i].0 && IsSpan(text, spans[i]))
    && (forall i, j :: 0 <= i < j < |spans| ==> spans[i].1 <= spans[j].0)
    && Covered(text, offset, spans)
  }

  lemma CoveredCons(text: string, offset: nat, head: (nat, nat), rest: seq<(nat, nat)>)
    requires offset <= head.0 <= head.1 && Covered(text, head.1, rest)
    requires forall j: nat :: offset <= j < head.0 ==> !MatchAt(text, MARKER, j)
    ensures Covered(text, offset, [head] + rest)
  {
    var spans := [head] + rest;
    forall j: nat | offset <= j && MatchAt(text, MARKER, j) ensures InSpan(spans, j) {
      if j < head.1 {
        assert spans[0].0 <= j < spans[0].1;
      } else {
        var i :| 0 <= i < |rest| && rest[i].0 <= j < rest[i].1;
        assert spans[i + 1] == rest[i];
      }
    }
  }

  lemma AreSpansCons(text: string, offset: nat, head: (nat, nat), rest: seq<(nat, nat)>)
    requires offset <= head.0 <= head.1 && IsSpan(text, head) && AreSpans(text, head.1, rest)
    requires forall j: nat :: offset <= j < head.0 ==> !MatchAt(text, MARKER, j)
    ensures AreSpans(text, offset, [head] + rest)
  {
    hide IsSpan;
    CoveredCons(text, offset, head, rest);
  }

  lemma {:induction false} SpansAreSpans(text: string, offset: nat)
    requires offset <= |text|
    ensures AreSpans(text, offset, Spans(text, offset))
    decreases |text| - offset
  {
    if Find(text, MARKER, offset).Some? {
      hide SpanEnd;
      hide AreSpans;
      hide IsSpan;
      var start := Find(text, MARKER, offset).value;
      SpansStep(text, offset);
      var end := SpanEnd(text, start);
      SpansAreSpans(text, end);
      IsSpanIff(text, start, end);
      AreSpansCons(text, offset, (start, end), Spans(text, end));
    }
  }

  lemma CoveredTail(text: string, spans: seq<(nat, nat)>, offset: nat)
    requires spans != [] && Covered(text, offset, spans) && offset <= spans[0].1
    ensures Covered(text, spans[0].1, spans[1..])
  {
    var rest := spans[1..];
    forall j: nat | spans[0].1 <= j && MatchAt(text, MARKER, j) ensures InSpan(rest, j) {
      var i :| 0 <= i < |spans| && spans[i].0 <= j < spans[i].1;
      assert rest[i - 1] == spans[i];
    }
  }

  lemma FirstIsLeast(spans: seq<(nat, nat)>, j: nat)
    requires InSpan(spans, j)
    requires spans != [] ==> spans[0].0 <= spans[0].1
    requires forall i :: 0 < i < |spans| ==> spans[0].1 <= spans[i].0
    ensures spans != [] && spans[0].0 <= j
  {
  }

  lemma FirstSpan(text: string, offset: nat, spans: seq<(nat, nat)>)
    requires offset <= |text| && AreSpans(text, offset, spans)
    ensures spans == [] <==> Find(text, MARKER, offset).None?
    ensures spans != [] ==> Find(text, MARKER, offset) == Some(spans[0].0) && spans[0].0 <= spans[0].1
  {
    hide SpanEnd;
    hide InSpan;
    var first := Find(text, MARKER, offset);
    if spans != [] {
      IsSpanIff(text, spans[0].0, spans[0].1);
      MarkerEndsNowhere(text, spans[0].0);
    }
    if first.Some? {
      assert InSpan(spans, first.value);
      FirstIsLeast(spans, first.value);
    }
  }

  lemma RestAreSpans(text: string, offset: nat, spans: seq<(nat, nat)>)
    requires AreSpans(text, offset, spans) && spans != [] && offset <= spans[0].1
    ensures AreSpans(text, spans[0].1, spans[1..])
  {
    hide IsSpan;
    hide SpanEnd;
    var rest := spans[1..];
    CoveredTail(text, spans, offset);
    hide Covered;
    forall i | 0 <= i < |rest| ensures spans[0].1 <= rest[i].0 && IsSpan(text, rest[i]) {
      assert rest[i] == spans[i + 1];
    }
  }

  /** Nothing else satisfies that description. */
  lemma {:induction false} SpansAreUnique(text: string, offset: nat, spans: seq<(nat, nat)>)
    requires offset <= |text| && AreSpans(text, offset, spans)
    ensures spans == Spans(text, offset)
    decreases |text| - offset
  {
    hide SpanEnd;
    hide Covered;
    FirstSpan(text, offset, spans);
    if spans != [] {
      SpansStep(text, offset);
      RestAreSpans(text, offset, spans);
      IsSpanIff(text, spans[0].0, spans[0].1);
      SpansAreUnique(text, spans[0].1, spans[1..]);
      assert spans == [spans[0]] + spans[1..];
    }
  }

  lemma NoSpansIffNoMarker(text: string)
    ensures Spans(text, 0) == [] <==> !Contains(text, MARKER)
  {
    if Contains(text, MARKER) {
      var i: nat :| MatchAt(text, MARKER, i);
    }
  }

  // ---- Replacement ----

  function Mime(uri: string): string {
    if !("data:" <= uri) then "image/*"
    else
      var rest := uri[5..];
      var parts := if SplitOnce(rest, ';').Some? then SplitOnce(rest, ';') else SplitOnce(rest, ',');
      match parts
      case Some((mime, _)) => if "image/" <= mime then mime else "image/*"
      case None => "image/*"
  }

  predicate NamesBefore(uri: string, mime: string, rest: string) {
    || (uri == "data:" + mime + (";" + rest) && ';' !in mime)
    || (uri == "data:" + mime + ("," + rest) && ',' !in mime && ';' !in uri)
  }

  /** The type a URI names: the text up to its first semicolon, or else up to its first comma. */
  ghost predicate Names(uri: string, mime: string) {
    exists rest :: NamesBefore(uri, mime, rest)
  }

  lemma NamedMime(uri: string, mime: string, rest: string)
    requires NamesBefore(uri, mime, rest)
    ensures Mime(uri) == if "image/" <= mime then mime else "image/*"
  {
    var tail := uri[5..];
    if uri == "data:" + mime + (";" + rest) && ';' !in mime {
      assert tail == mime + [';'] + rest;
      SplitOnceJoin(mime, ';', rest);
    } else {
      assert tail == mime + [','] + rest;
      assert ';' !in tail;
      SplitOnceJoin(mime, ',', rest);
    }
  }

  lemma MimeNamed(uri: string) returns (mime: string)
    ensures Mime(uri) != "image/*" ==> Names(uri, mime)
  {
    hide SplitOnce;
    mime := "";
    if "data:" <= uri {
      var rest := uri[5..];
      assert uri == "data:" + rest;
      match SplitOnce(rest, ';')
      case Some((before, tail)) =>
        mime := before;
        assert uri == "data:" + mime + (";" + tail);
        assert NamesBefore(uri, mime, tail);
      case None =>
        if SplitOnce(rest, ',').Some? {
          mime := SplitOnce(rest, ',').value.0;
          var tail := SplitOnce(rest, ',').value.1;
          assert uri == "data:" + mime + ("," + tail);
          assert ';' !in "data:";
          assert NamesBefore(uri, mime, tail);
        }
    }
  }

  /** The media type is the named one when it is an image type, and otherwise any image. */
  lemma MimeIsNamed(uri: string)
    ensures forall mime: string :: Names(uri, mime) ==> Mime(uri) == if "image/" <= mime then mime else "image/*"
    ensures (forall mime: string :: !Names(uri, mime)) ==> Mime(uri) == "image/*"
  {
    hide Mime;
    hide NamesBefore;
    forall mime: string | Names(uri, mime) ensures Mime(uri) == if "image/" <= mime then mime else "image/*" {
      var rest :| NamesBefore(uri, mime, rest);
      NamedMime(uri, mime, rest);
    }
    var mime := MimeNamed(uri);
  }

  /** A placeholder without its brackets. */
  function Note(thread: string, path: string, uri: string): string {
    "context-guardian" + ":inline-image-placeholder" + " thread=" + (thread + (" mime=" + (Mime(uri) + (" removed_bytes="
    + (Decimal(ByteLength(uri)) + (" original_file=" + path))))))
  }

  function Placeholder(thread: string, path: string, uri: string): string {
    "[" + Note(thread, path, uri) + "]"
  }

  lemma PlaceholderText(thread: string, path: string, uri: string)
    ensures Placeholder(thread, path, uri) ==
              "[" + ("context-guardian" + ":inline-image-placeholder" + " thread=") + thread + " mime=" + Mime(uri) + " removed_bytes="
              + Decimal(ByteLength(uri)) + " original_file=" + path + "]"
  {
    var mime, size := Mime(uri), Decimal(ByteLength(uri));
    hide Mime;
    hide Decimal;
    hide ByteLength;
    PlaceholderPieces("context-guardian" + ":inline-image-placeholder" + " thread=", thread, mime, size, path);
  }

  lemma PlaceholderPieces(head: string, thread: string, mime: string, size: string, path: string)
    ensures "[" + (head + (thread + (" mime=" + (mime + (" removed_bytes=" + (size + (" original_file=" + path))))))) + "]"
         == "[" + head + thread + " mime=" + mime + " removed_bytes=" + size + " original_file=" + path + "]"
  {
  }

  function Replaced(text: string, cursor: nat, spans: seq<(nat, nat)>, thread: string, path: string): string
    requires cursor <= |text| && Laid(text, cursor, spans)
    decreases |spans|
  {
    if spans == [] then text[cursor..]
    else
      var (start, end) := spans[0];
      text[cursor..start] + Placeholder(thread, path, text[start..end]) + Replaced(text, end, spans[1..], thread, path)
  }

  /** The bytes of all spans together. */
  function SpanBytes(text: string, cursor: nat, spans: seq<(nat, nat)>): nat
    requires cursor <= |text| && Laid(text, cursor, spans)
    decreases |spans|
  {
    if spans == [] then 0 else ByteLength(text[spans[0].0..spans[0].1]) + SpanBytes(text, spans[0].1, spans[1..])
  }

  function Scrub(text: string, thread: string, path: string): Option<(string, nat)> {
    SpansAreLaid(text, 0);
    var spans := Spans(text, 0);
    if spans == [] then None else Some((Replaced(text, 0, spans, thread, path), SpanBytes(text, 0, spans)))
  }

  lemma SpanStep(text: string, cursor: nat, spans: seq<(nat, nat)>, i: nat, thread: string, path: string)
    requires cursor <= |text| && i < |spans| && Laid(text, cursor, spans[i..])
    ensures cursor <= spans[i].0 < spans[i].1 <= |text| && Laid(text, spans[i].1, spans[i + 1..])
    ensures Replaced(text, cursor, spans[i..], thread, path) ==
              text[cursor..spans[i].0] + Placeholder(thread, path, text[spans[i].0..spans[i].1])
              + Replaced(text, spans[i].1, spans[i + 1..], thread, path)
    ensures SpanBytes(text, cursor, spans[i..]) ==
              ByteLength(text[spans[i].0..spans[i].1]) + SpanBytes(text, spans[i].1, spans[i + 1..])
  {
    assert spans[i..][0] == spans[i] && spans[i..][1..] == spans[i + 1..];
  }

  /** The state of the replacement loop: what is written and counted so far, and the spans still to come. */
  ghost predicate Written(text: string, cursor: nat, rest: seq<(nat, nat)>, scrubbed: string, removed: nat, thread: string, path: string)
  {
    && cursor <= |text| && Laid(text, cursor, rest)
    && Scrub(text, thread, path) == Some((scrubbed + Replaced(text, cursor, rest, thread, path), removed + SpanBytes(text, cursor, rest)))
  }

  lemma WrittenStep(text: string, cursor: nat, spans: seq<(nat, nat)>, i: nat, scrubbed: string, removed: nat, thread: string, path: string)
    requires i < |spans| && Written(text, cursor, spans[i..], scrubbed, removed, thread, path)
    ensures var (start, end) := spans[i];
            && cursor <= start <= end <= |text|
            && Written(text, end, spans[i + 1..], scrubbed + text[cursor..start] + Placeholder(thread, path, text[start..end]),
                       removed + ByteLength(text[start..end]), thread, path)
  {
    hide Placeholder;
    hide ByteLength;
    hide Scrub;
    hide Replaced;
    hide SpanBytes;
    hide Laid;
    SpanStep(text, cursor, spans, i, thread, path);
    var (start, end) := spans[i];
    var gap, holder := text[cursor..start], Placeholder(thread, path, text[start..end]);
    var tail := Replaced(text, end, spans[i + 1..], thread, path);
    assert scrubbed + (gap + holder + tail) == scrubbed + gap + holder + tail;
  }

  lemma WrittenEnds(text: string, cursor: nat, scrubbed: string, removed: nat, thread: string, path: string)
    requires Written(text, cursor, [], scrubbed, removed, thread, path)
    ensures cursor <= |text| && Scrub(text, thread, path) == Some((scrubbed + text[cursor..], removed))
  {
    hide Scrub;
  }

  lemma WrittenBegins(text: string, thread: string, path: string)
    requires Spans(text, 0) != []
    ensures Written(text, 0, Spans(text, 0), "", 0, thread, path)
  {
    SpansAreLaid(text, 0);
    var all := Replaced(text, 0, Spans(text, 0), thread, path);
    assert "" + all == all;
  }

  lemma NothingToScrub(text: string, thread: string, path: string)
    requires Spans(text, 0) == []
    ensures Scrub(text, thread, path) == None
  {
  }

  method ScrubDataImageText(text: string, thread: string, path: string) returns (r: Option<(string, nat)>)
    ensures r == Scrub(text, thread, path)
  {
    hide Written;
    hide Scrub;
    hide Spans;
    var spans := DataImageSpans(text);
    if spans == [] {
      NothingToScrub(text, thread, path);
      return None;
    }
    var scrubbed: string, cursor: nat, removed: nat := "", 0, 0;
    WrittenBegins(text, thread, path);
    assert spans[0..] == spans;
    for i := 0 to |spans|
      invariant Written(text, cursor, spans[i..], scrubbed, removed, thread, path)
    {
      hide Placeholder;
      hide ByteLength;
      WrittenStep(text, cursor, spans, i, scrubbed, removed, thread, path);
      var (start, end) := spans[i];
      var uri := text[start..end];
      scrubbed := scrubbed + text[cursor..start] + Placeholder(thread, path, uri);
      removed := removed + ByteLength(uri);
      cursor := end;
    }
    assert spans[|spans|..] == [];
    WrittenEnds(text, cursor, scrubbed, removed, thread, path);
    return Some((scrubbed + text[cursor..], removed));
  }

  /** Pieces and inserts in turn, beginning and ending with a piece. */
  function Weave(gaps: seq<string>, inserts: seq<string>): string
    requires |gaps| == |inserts| + 1
  {
    if inserts == [] then gaps[0] else gaps[0] + inserts[0] + Weave(gaps[1..], inserts[1..])
  }

  function Gaps(text: string, cursor: nat, spans: seq<(nat, nat)>): (r: seq<string>)
    requires cursor <= |text| && Laid(text, cursor, spans)
    ensures |r| == |spans| + 1
    decreases |spans|
  {
    if spans == [] then [text[cursor..]]
    else [text[cursor..spans[0].0]] + Gaps(text, spans[0].1, spans[1..])
  }

  function Uris(text: string, cursor: nat, spans: seq<(nat, nat)>): (r: seq<string>)
    requires cursor <= |text| && Laid(text, cursor, spans)
    ensures |r| == |spans|
    decreases |spans|
  {
    if spans == [] then [] else [text[spans[0].0..spans[0].1]] + Uris(text, spans[0].1, spans[1..])
  }

  function UrisIn(text: string): seq<string> {
    SpansAreLaid(text, 0);
    Uris(text, 0, Spans(text, 0))
  }

  function Placeholders(uris: seq<string>, thread: string, path: string): (r: seq<string>)
    ensures |r| == |uris|
  {
    seq(|uris|, i requires 0 <= i < |uris| => Placeholder(thread, path, uris[i]))
  }

  function TotalBytes(pieces: seq<string>): nat {
    if pieces == [] then 0 else ByteLength(pieces[0]) + TotalBytes(pieces[1..])
  }

  /** The text is its gaps woven with the URIs, the result is the same gaps woven with their placeholders, and the count
      is the total length of the URIs. */
  lemma {:induction false} ScrubKeepsGaps(text: string, cursor: nat, spans: seq<(nat, nat)>, thread: string, path: string)
    requires cursor <= |text| && Laid(text, cursor, spans)
    ensures text[cursor..] == Weave(Gaps(text, cursor, spans), Uris(text, cursor, spans))
    ensures Replaced(text, cursor, spans, thread, path) ==
              Weave(Gaps(text, cursor, spans), Placeholders(Uris(text, cursor, spans), thread, path))
    ensures SpanBytes(text, cursor, spans) == TotalBytes(Uris(text, cursor, spans))
    decreases |spans|
  {
    hide Placeholder;
    if spans == [] {
      assert Uris(text, cursor, spans) == [];
    } else {
      var (start, end) := spans[0];
      var gaps, uris := Gaps(text, end, spans[1..]), Uris(text, end, spans[1..]);
      var uri, gap := text[start..end], text[cursor..start];
      ScrubKeepsGaps(text, end, spans[1..], thread, path);
      WeaveCons(gap, uri, gaps, uris);
      assert Placeholders([uri] + uris, thread, path) == [Placeholder(thread, path, uri)] + Placeholders(uris, thread, path);
      WeaveCons(gap, Placeholder(thread, path, uri), gaps, Placeholders(uris, thread, path));
      assert text[cursor..] == gap + uri + text[end..];
    }
  }

  lemma WeaveCons(gap: string, insert: string, gaps: seq<string>, inserts: seq<string>)
    requires |gaps| == |inserts| + 1
    ensures Weave([gap] + gaps, [insert] + inserts) == gap + insert + Weave(gaps, inserts)
  {
    assert ([gap] + gaps)[1..] == gaps && ([insert] + inserts)[1..] == inserts;
  }

  // ---- When a marker is left ----

  /** No marker reaches across a character it does not hold. */
  lemma Delimited(a: string, c: char, b: string)
    requires c !in MARKER
    ensures Contains(a + [c] + b, MARKER) <==> Contains(a, MARKER) || Contains(b, MARKER)
  {
    DelimitedBy(a, c, b, MARKER);
  }

  lemma NoColonNoMarker(s: string)
    requires ':' !in s || |s| < |MARKER|
    ensures !Contains(s, MARKER)
  {
    forall i: nat ensures !MatchAt(s, MARKER, i) {
      if i + |MARKER| <= |s| {
        assert s[i..i + |MARKER|][4] == s[i + 4] && s[i + 4] in s;
      }
    }
  }

  /** The literal pieces of a note, cut at characters that no marker holds. */
  lemma NoteWords()
    ensures "context-guardian" == "context-guardia" + ['n']
    ensures ":inline-image-placeholder" == ":i" + ['n'] + "line-image-placeholder"
    ensures " thread=" == "" + [' '] + ("thread" + ['='] + "")
    ensures " mime=" == "" + [' '] + ("mime" + ['='] + "")
    ensures " removed_bytes=" == "" + [' '] + ("removed_bytes" + ['='] + "")
    ensures " original_file=" == "" + [' '] + ("original_file" + ['='] + "")
  {
  }

  /** A word without marker that ends in '=' adds none. */
  lemma Labelled(word: string, rest: string)
    requires !Contains(word, MARKER)
    ensures Contains(word + ['='] + "" + rest, MARKER) <==> Contains(rest, MARKER)
  {
    Delimited(word, '=', rest);
    assert word + ['='] + "" + rest == word + ['='] + rest;
  }

  /** A value followed by a label that starts with a space. */
  lemma Listed(value: string, word: string, rest: string)
    requires !Contains(word, MARKER)
    ensures Contains(value + ("" + [' '] + (word + ['='] + "") + rest), MARKER) <==> Contains(value, MARKER) || Contains(rest, MARKER)
  {
    Labelled(word, rest);
    Delimited(value, ' ', word + ['='] + "" + rest);
    assert value + ("" + [' '] + (word + ['='] + "") + rest) == value + [' '] + (word + ['='] + "" + rest);
  }

  lemma Headed(rest: string)
    ensures Contains("context-guardian" + ":inline-image-placeholder" + " thread=" + rest, MARKER) <==> Contains(rest, MARKER)
  {
    hide Contains;
    NoteWords();
    var words, tail := "line-image-placeholder", " thread=" + rest;
    NoColonNoMarker("context-guardia");
    NoColonNoMarker(":i");
    NoColonNoMarker(words);
    NoColonNoMarker("thread");
    Listed(words, "thread", rest);
    Delimited(":i", 'n', words + tail);
    Delimited("context-guardia", 'n', ":i" + ['n'] + (words + tail));
    assert "context-guardian" + ":inline-image-placeholder" + " thread=" + rest
        == "context-guardia" + ['n'] + (":i" + ['n'] + (words + tail));
  }

  lemma NoteMarker(thread: string, path: string, uri: string)
    ensures Contains(Note(thread, path, uri), MARKER) <==>
              Contains(thread, MARKER) || Contains(Mime(uri), MARKER) || Contains(path, MARKER)
  {
    hide Contains;
    hide Mime;
    hide Decimal;
    NoteWords();
    var mime, size := Mime(uri), Decimal(ByteLength(uri));
    NoColonNoMarker("mime");
    NoColonNoMarker("removed_bytes");
    NoColonNoMarker("original_file");
    assert ':' !in size;
    NoColonNoMarker(size);
    var file := " original_file=" + path;
    var bytes := " removed_bytes=" + (size + file);
    var kind := " mime=" + (mime + bytes);
    Listed(size, "original_file", path);
    Listed(mime, "removed_bytes", size + file);
    Listed(thread, "mime", mime + bytes);
    Headed(thread + kind);
  }

  ghost predicate MimeMarker(uris: seq<string>) {
    exists i :: 0 <= i < |uris| && Contains(Mime(uris[i]), MARKER)
  }

  lemma GapHasNoMarker(text: string, cursor: nat, end: nat)
    requires cursor <= end <= |text|
    requires forall j: nat :: cursor <= j < end ==> !MatchAt(text, MARKER, j)
    ensures !Contains(text[cursor..end], MARKER)
  {
    forall i: nat ensures !MatchAt(text[cursor..end], MARKER, i) {
      if i + |MARKER| <= end - cursor {
        SliceOfSlice(text, cursor, end, i, i + |MARKER|);
        assert !MatchAt(text, MARKER, cursor + i);
      }
    }
  }

  /** One gap, one placeholder, and the rest. */
  lemma PieceMarker(gap: string, thread: string, path: string, uri: string, rest: string)
    requires !Contains(gap, MARKER)
    ensures Contains(gap + Placeholder(thread, path, uri) + rest, MARKER) <==>
              Contains(thread, MARKER) || Contains(Mime(uri), MARKER) || Contains(path, MARKER) || Contains(rest, MARKER)
  {
    hide Contains;
    hide Note;
    var note := Note(thread, path, uri);
    NoteMarker(thread, path, uri);
    assert gap + Placeholder(thread, path, uri) + rest == gap + ['['] + (note + [']'] + rest);
    Delimited(gap, '[', note + [']'] + rest);
    Delimited(note, ']', rest);
  }

  lemma {:induction false} ReplacedMarker(text: string, cursor: nat, thread: string, path: string)
    requires cursor <= |text| && Laid(text, cursor, Spans(text, cursor))
    ensures var spans := Spans(text, cursor);
            Contains(Replaced(text, cursor, spans, thread, path), MARKER) <==>
              spans != [] && (Contains(thread, MARKER) || Contains(path, MARKER) || MimeMarker(Uris(text, cursor, spans)))
    decreases |text| - cursor
  {
    hide Placeholder;
    hide Contains;
    hide Mime;
    hide SpanEnd;
    hide MatchAt;
    match Find(text, MARKER, cursor)
    case None =>
      GapHasNoMarker(text, cursor, |text|);
      assert text[cursor..|text|] == text[cursor..];
    case Some(start) =>
      SpansStep(text, cursor);
      var end, spans := SpanEnd(text, start), Spans(text, cursor);
      var uri, rest := text[start..end], Spans(text, end);
      assert spans[1..] == rest;
      GapHasNoMarker(text, cursor, start);
      PieceMarker(text[cursor..start], thread, path, uri, Replaced(text, end, rest, thread, path));
      ReplacedMarker(text, end, thread, path);
      MimeMarkerStep(uri, Uris(text, end, rest));
  }

  lemma MimeMarkerStep(uri: string, rest: seq<string>)
    ensures MimeMarker([uri] + rest) <==> Contains(Mime(uri), MARKER) || MimeMarker(rest)
  {
    var all := [uri] + rest;
    assert all[0] == uri;
    assert forall i :: 0 <= i < |rest| ==> rest[i] == all[i + 1];
    assert forall i :: 0 < i < |all| ==> all[i] == rest[i - 1];
  }

  /** The result holds `data:image` exactly when the thread, the image path or the media type of some span brings it in. */
  lemma ScrubMarker(text: string, thread: string, path: string)
    requires Scrub(text, thread, path).Some?
    ensures Contains(Scrub(text, thread, path).value.0, MARKER) <==>
              Contains(thread, MARKER) || Contains(path, MARKER) || MimeMarker(UrisIn(text))
  {
    SpansAreLaid(text, 0);
    ReplacedMarker(text, 0, thread, path);
  }

  /** A span that holds one marker only has a media type without one. */
  lemma SingleMarkerMime(uri: string)
    requires MatchAt(uri, MARKER, 0) && forall j: nat :: j > 0 ==> !MatchAt(uri, MARKER, j)
    ensures !Contains(Mime(uri), MARKER)
  {
    var mime := Mime(uri);
    if mime == "image/*" {
      NoColonNoMarker(mime);
    } else {
      assert |mime| <= |uri| - 5 && mime == uri[5..][..|mime|];
      forall j: nat ensures !MatchAt(mime, MARKER, j) {
        if MatchAt(mime, MARKER, j) {
          assert mime[j..j + |MARKER|] == uri[j + 5..j + 5 + |MARKER|];
          assert MatchAt(uri, MARKER, j + 5);
        }
      }
    }
  }

  /** Without such a further marker, a scrubbed text is left alone by a second scrub. */
  lemma ScrubOnce(text: string, thread: string, path: string)
    requires Scrub(text, thread, path).Some?
    requires !Contains(thread, MARKER) && !Contains(path, MARKER)
    requires !MimeMarker(UrisIn(text))
    ensures Scrub(Scrub(text, thread, path).value.0, thread, path).None?
  {
    ScrubMarker(text, thread, path);
    NoSpansIffNoMarker(Scrub(text, thread, path).value.0);
  }

  // ---- Why the condition is needed ----

  /** A data URI whose media type holds a second marker. */
  function Doubled(tail: string): string {
    MARKER + ("/" + MARKER + [';'] + tail)
  }

  lemma DoubledMime(tail: string)
    ensures Mime(Doubled(tail)) == "image/" + MARKER && Contains(Mime(Doubled(tail)), MARKER)
  {
    hide Contains;
    var mime := "image/" + MARKER;
    assert ';' !in mime;
    assert Doubled(tail)[..5] == "data:" && Doubled(tail)[5..] == mime + [';'] + tail;
    SplitOnceJoin(mime, ';', tail);
    assert mime[6..16] == MARKER;
    ContainedHere(mime, 6);
  }

  lemma DoubledIsOneSpan(tail: string)
    requires forall i :: 0 <= i < |tail| ==> !Ends(tail[i])
    ensures Spans(Doubled(tail), 0) == [(0, |Doubled(tail)|)] && UrisIn(Doubled(tail)) == [Doubled(tail)]
  {
    var text := Doubled(tail);
    assert MatchAt(text, MARKER, 0);
    MarkerLetters();
    var head := MARKER + "/" + MARKER + [';'];
    assert text == head + tail;
    assert forall i :: 0 <= i < |head| ==> !Ends(head[i]);
    assert forall i :: 0 <= i < |text| ==> !Ends(text[i]);
    SpansStep(text, 0);
    assert SpanEnd(text, 0) == |text|;
    assert Spans(text, |text|) == [];
    assert text[0..|text|] == text;
    SpansAreLaid(text, 0);
  }

  lemma MarkerLetters()
    ensures forall i :: 0 <= i < |MARKER| ==> !Ends(MARKER[i])
  {
  }

  /** Scrubbing such a URI leaves the marker in the result, so a second scrub scrubs again. */
  lemma SecondMarkerComesBack(tail: string, thread: string, path: string)
    requires forall i :: 0 <= i < |tail| ==> !Ends(tail[i])
    ensures var first := Scrub(Doubled(tail), thread, path);
            first.Some? && Contains(first.value.0, MARKER) && Scrub(first.value.0, thread, path).Some?
  {
    hide Contains;
    hide Mime;
    DoubledIsOneSpan(tail);
    DoubledMime(tail);
    hide Doubled;
    assert MimeMarker(UrisIn(Doubled(tail))) by {
      assert Contains(Mime(UrisIn(Doubled(tail))[0]), MARKER);
    }
    ScrubMarker(Doubled(tail), thread, path);
    NoSpansIffNoMarker(Scrub(Doubled(tail), thread, path).value.0);
  }

  lemma ContainedHere(s: string, i: nat)
    requires MatchAt(s, MARKER, i)
    ensures Contains(s, MARKER)
  {
  }
}
