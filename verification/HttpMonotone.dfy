/** Extraction is monotone: more captured bytes never take back or change a message already extracted. */
module HttpMonotone {
  import opened Prelude
  import opened Text
  import opened Utf8
  import opened Reassembly
  import opened Http

  /** A later view of the same capture: the bytes go on and every new mark is at or past the old end. */
  ghost predicate Extends(longer: ByteStream, shorter: ByteStream) {
    && shorter.bytes <= longer.bytes
    && shorter.marks <= longer.marks
    && (shorter.bytes != [] ==> shorter.marks != [])
    && forall i :: |shorter.marks| <= i < |longer.marks| ==> longer.marks[i].0 >= |shorter.bytes|
  }

  // ---- Later segments extend a reassembled stream ----

  lemma AppendExtends(stream: ByteStream, base: Sequence, g: Segment)
    requires stream.bytes != [] ==> stream.marks != []
    ensures Extends(Append(stream, base, g), stream)
  {
  }

  lemma ExtendsTransitive(a: ByteStream, b: ByteStream, c: ByteStream)
    requires Extends(b, a) && Extends(c, b)
    ensures Extends(c, a)
  {
    assert forall i :: 0 <= i < |b.marks| ==> c.marks[i] == b.marks[i];
  }

  lemma {:induction false} AppendAllExtends(sorted: seq<Segment>, base: Sequence, n: nat)
    requires n <= |sorted|
    ensures Extends(AppendAll(sorted, base), AppendAll(sorted[..n], base))
  {
    if n == |sorted| {
      assert sorted[..n] == sorted;
      NonemptyHasMark(sorted, base);
    } else {
      var init := sorted[..|sorted| - 1];
      AppendAllExtends(init, base, n);
      assert init[..n] == sorted[..n];
      NonemptyHasMark(init, base);
      AppendExtends(AppendAll(init, base), base, sorted[|sorted| - 1]);
      ExtendsTransitive(AppendAll(sorted[..n], base), AppendAll(init, base), AppendAll(sorted, base));
    }
  }

  lemma {:induction false} NonemptyHasMark(sorted: seq<Segment>, base: Sequence)
    ensures AppendAll(sorted, base).bytes != [] ==> AppendAll(sorted, base).marks != []
  {
    if sorted != [] {
      NonemptyHasMark(sorted[..|sorted| - 1], base);
    }
  }

  lemma {:induction false} SortBehind(a: seq<Segment>, b: seq<Segment>)
    requires forall x <- a, y <- b :: x.sequence <= y.sequence
    ensures Sort(a + b) == Sort(a) + Sort(b)
  {
    if b == [] {
      assert a + b == a;
    } else {
      var init := b[..|b| - 1];
      assert (a + b)[..|a + b| - 1] == a + init;
      SortBehind(a, init);
      SortMembers(a);
      InsertBehind(Sort(a), Sort(init), b[|b| - 1]);
    }
  }

  /** Capturing more segments, none of them numbered below an earlier one, extends the stream. */
  lemma LaterSegmentsExtend(captured: seq<Segment>, later: seq<Segment>)
    requires forall x <- captured, y <- later :: x.sequence <= y.sequence
    ensures Extends(Reassembled(captured + later), Reassembled(captured))
  {
    SortBehind(captured, later);
    SortMembers(captured);
    if captured != [] {
      var sorted := Sort(captured + later);
      assert sorted[..|captured|] == Sort(captured);
      AppendAllExtends(sorted, sorted[0].sequence, |captured|);
    }
  }

  // ---- Stability of each parser ----

  lemma MatchStable<T>(a: seq<T>, b: seq<T>, pattern: seq<T>, i: nat)
    requires a <= b && i + |pattern| <= |a|
    ensures MatchAt(a, pattern, i) == MatchAt(b, pattern, i)
  {
    assert a[i..i + |pattern|] == b[i..i + |pattern|];
  }

  lemma FindStable<T>(a: seq<T>, b: seq<T>, pattern: seq<T>, start: nat)
    requires a <= b && start <= |a| && Find(a, pattern, start).Some?
    ensures Find(b, pattern, start) == Find(a, pattern, start)
  {
    var i := Find(a, pattern, start).value;
    var there := Find(b, pattern, start);
    MatchStable(a, b, pattern, i);
    if there.Some? && there.value < i {
      MatchStable(a, b, pattern, there.value);
    }
  }

  /** No pattern that straddles the old end comes before a match inside it: it would hold a space too early. */
  lemma StraddlerHoldsSpace(a: seq<Byte>, b: seq<Byte>, p: string, i: nat, q: string, j: nat)
    requires a <= b && EndsInItsOnlySpace(p) && EndsInItsOnlySpace(q)
    requires MatchAt(a, Ascii(p), i) && j < i && MatchAt(b, Ascii(q), j)
    ensures MatchAt(a, Ascii(q), j)
  {
    var space := i + |p| - 1;
    MatchedElement(a, Ascii(p), i, |p| - 1);
    assert b[space] == 32;
    if space - j < |q| {
      MatchedElement(b, Ascii(q), j, space - j);
      assert q[space - j] == ' ';
    }
    MatchStable(a, b, Ascii(q), j);
  }

  lemma AnyMatchStable(a: seq<Byte>, b: seq<Byte>, patterns: seq<string>, i: nat, j: nat)
    requires a <= b && AllAscii(patterns)
    requires forall k :: 0 <= k < |patterns| ==> EndsInItsOnlySpace(patterns[k])
    requires AnyMatch(a, patterns, i) && j <= i
    ensures AnyMatch(a, patterns, j) == AnyMatch(b, patterns, j)
  {
    var k :| 0 <= k < |patterns| && MatchAt(a, Ascii(patterns[k]), i);
    if AnyMatch(a, patterns, j) {
      var m :| 0 <= m < |patterns| && MatchAt(a, Ascii(patterns[m]), j);
      MatchStable(a, b, Ascii(patterns[m]), j);
    } else if AnyMatch(b, patterns, j) {
      var m :| 0 <= m < |patterns| && MatchAt(b, Ascii(patterns[m]), j);
      StraddlerHoldsSpace(a, b, patterns[k], i, patterns[m], j);
    }
  }

  lemma FindStartStable(a: seq<Byte>, b: seq<Byte>, patterns: seq<string>, offset: nat)
    requires a <= b && offset <= |a| && AllAscii(patterns)
    requires forall k :: 0 <= k < |patterns| ==> EndsInItsOnlySpace(patterns[k])
    requires FindStart(a, patterns, offset).Some?
    ensures FindStart(b, patterns, offset) == FindStart(a, patterns, offset)
  {
    var i := FindStart(a, patterns, offset).value;
    var there := FindStart(b, patterns, offset);
    AnyMatchStable(a, b, patterns, i, i);
    if there.Some? && there.value < i {
      AnyMatchStable(a, b, patterns, i, there.value);
    }
  }

  lemma AfterSizeStable(a: seq<Byte>, b: seq<Byte>, room: nat, data: nat, size: nat)
    requires a <= b && data <= |a| && AfterSize(a, room, data, size) != Incomplete
    ensures AfterSize(b, room, data, size) == AfterSize(a, room, data, size)
  {
    if size == 0 {
      FindStable(a, b, CRLF, data);
    } else if size <= room {
      assert a[data + size..data + size + 2] == b[data + size..data + size + 2];
      assert a[data..data + size] == b[data..data + size];
    }
  }

  lemma AfterLineStable(a: seq<Byte>, b: seq<Byte>, room: nat, data: nat, size: Result<nat, Error>)
    requires a <= b && data <= |a| && AfterLine(a, room, data, size) != Incomplete
    ensures AfterLine(b, room, data, size) == AfterLine(a, room, data, size)
  {
    if size.Ok? {
      AfterSizeStable(a, b, room, data, size.value);
    }
  }

  lemma ReadChunkStable(a: seq<Byte>, b: seq<Byte>, room: nat, offset: nat)
    requires a <= b && offset <= |a| && ReadChunk(a, room, offset) != Incomplete
    ensures ReadChunk(b, room, offset) == ReadChunk(a, room, offset)
  {
    hide ChunkSize;
    hide AfterLine;
    FindStable(a, b, CRLF, offset);
    var lineEnd := Find(a, CRLF, offset).value;
    var size := ChunkSize(a[offset..lineEnd]);
    assert a[offset..lineEnd] == b[offset..lineEnd];
    AfterLineStable(a, b, room, lineEnd + 2, size);
  }

  /** A finished or failed chunked body is not affected by bytes after it. */
  lemma {:induction false} DechunkStable(a: seq<Byte>, b: seq<Byte>, max: nat, offset: nat, decoded: seq<Byte>)
    requires a <= b && offset <= |a| && Dechunk(a, max, offset, decoded) != Ok(None)
    ensures Dechunk(b, max, offset, decoded) == Dechunk(a, max, offset, decoded)
    decreases |a| - offset
  {
    ReadChunkStable(a, b, Room(max, |decoded|), offset);
    match ReadChunk(a, Room(max, |decoded|), offset)
    case Data(data, next) => DechunkStable(a, b, max, next, decoded + data);
    case _ =>
  }

  lemma ReadBodyStable(a: seq<Byte>, b: seq<Byte>, headers: Headers, max: nat, start: nat)
    requires a <= b && start <= |a| && ReadBody(a, headers, max, start) != NeedsMore
    ensures ReadBody(b, headers, max, start) == ReadBody(a, headers, max, start)
  {
    if IsChunked(headers) {
      DechunkStable(a[start..], b[start..], max, 0, []);
    } else if ContentLength(headers) <= max {
      var end := start + ContentLength(headers);
      assert a[start..end] == b[start..end];
    }
  }

  lemma {:induction false} LastAtOrBeforeStable(a: seq<(nat, nat)>, b: seq<(nat, nat)>, offset: nat)
    requires a <= b && forall i :: |a| <= i < |b| ==> b[i].0 > offset
    ensures LastAtOrBefore(b, offset) == LastAtOrBefore(a, offset)
  {
    if |a| < |b| {
      LastAtOrBeforeStable(a, b[..|b| - 1], offset);
    } else {
      assert a == b;
    }
  }

  lemma TimestampStable(shorter: ByteStream, longer: ByteStream, offset: nat)
    requires Extends(longer, shorter) && offset < |shorter.bytes|
    ensures longer.TimestampFor(offset) == shorter.TimestampFor(offset)
  {
    LastAtOrBeforeStable(shorter.marks, longer.marks, offset);
  }

  lemma ReadAfterStable(shorter: ByteStream, longer: ByteStream, max: nat, inflate: Inflate, start: nat, headerEnd: nat, text: string)
    requires Extends(longer, shorter) && start <= headerEnd <= |shorter.bytes| - 4
    requires ReadAfter(shorter, max, inflate, start, headerEnd, text) != Stop
    ensures ReadAfter(longer, max, inflate, start, headerEnd, text) == ReadAfter(shorter, max, inflate, start, headerEnd, text)
  {
    hide ReadBody;
    hide DecodeContent;
    hide AddHeaders;
    hide SplitLines;
    TimestampStable(shorter, longer, start);
    ReadBodyStable(shorter.bytes, longer.bytes, AddHeaders(map[], SplitLines(text)[1..]), max, headerEnd + 4);
  }

  lemma ReadFromStable(shorter: ByteStream, longer: ByteStream, max: nat, inflate: Inflate, start: nat)
    requires Extends(longer, shorter) && start <= |shorter.bytes|
    requires ReadFrom(shorter, max, inflate, start) != Stop
    ensures ReadFrom(longer, max, inflate, start) == ReadFrom(shorter, max, inflate, start)
  {
    FindStable(shorter.bytes, longer.bytes, HEADER_END, start);
    var headerEnd := Find(shorter.bytes, HEADER_END, start).value;
    assert shorter.bytes[start..headerEnd] == longer.bytes[start..headerEnd];
    var text := Decode(shorter.bytes[start..headerEnd]);
    if text.Some? {
      ReadAfterStable(shorter, longer, max, inflate, start, headerEnd, text.value);
    }
  }

  lemma ReadMessageStable(shorter: ByteStream, longer: ByteStream, response: bool, max: nat, inflate: Inflate, offset: nat)
    requires Extends(longer, shorter) && offset <= |shorter.bytes|
    requires ReadMessage(shorter, response, max, inflate, offset) != Stop
    ensures ReadMessage(longer, response, max, inflate, offset) == ReadMessage(shorter, response, max, inflate, offset)
  {
    PatternsEndInTheirOnlySpace(response);
    FindStartStable(shorter.bytes, longer.bytes, Patterns(response), offset);
    ReadFromStable(shorter, longer, max, inflate, FindStart(shorter.bytes, Patterns(response), offset).value);
  }

  /** What the longer stream must give, by what the shorter one gave. */
  predicate Continues(shorter: Result<seq<HttpMessage>, Error>, longer: Result<seq<HttpMessage>, Error>) {
    match shorter
    case Err(e) => longer == Err(e)
    case Ok(messages) => longer.Ok? ==> messages <= longer.value
  }

  /** The messages of the shorter stream come first and unchanged in the longer one, and an error stays. */
  lemma {:induction false} ExtractIsMonotone(
    shorter: ByteStream, longer: ByteStream, response: bool, max: nat, inflate: Inflate, offset: nat)
    requires Extends(longer, shorter) && offset <= |shorter.bytes|
    ensures Continues(Extract(shorter, response, max, inflate, offset), Extract(longer, response, max, inflate, offset))
    decreases |shorter.bytes| - offset
  {
    if offset < |shorter.bytes| {
      var turn := ReadMessage(shorter, response, max, inflate, offset);
      if turn != Stop {
        ReadMessageStable(shorter, longer, response, max, inflate, offset);
      }
      if turn.Found? {
        ExtractIsMonotone(shorter, longer, response, max, inflate, turn.next);
      }
    }
  }
}
