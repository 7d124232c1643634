/** The chunked transfer coding without trailers (section 7.1 of RFC 9112), rendered and decoded. */
module Chunks {
  import opened Prelude
  import opened Text
  import opened TextFacts
  import opened Utf8
  import opened Reassembly
  import opened Http
  import opened HttpFields
  import opened HttpMonotone

  /** A chunk-size line: hexadecimal digits, at most a plus sign and blanks around them, then any extension. */
  datatype SizeLine = SizeLine(pre: string, sign: string, digits: string, post: string, extension: string) {

    function Size(): string {
      sign + digits
    }

    function Text(): string {
      pre + Size() + post + extension
    }

    predicate Spells(n: nat) {
      && Blank(pre) && (sign == "" || sign == "+") && digits != "" && IsHexText(digits) && Blank(post)
      && HexNumber(digits) == n && (extension == "" || extension[0] == ';')
    }

    predicate Printable() {
      IsAscii(Text()) && '\r' !in Text()
    }
  }

  datatype DataChunk = DataChunk(line: SizeLine, data: seq<Byte>)

  predicate RightChunk(chunk: DataChunk) {
    chunk.data != [] && chunk.line.Spells(|chunk.data|) && chunk.line.Printable()
  }

  predicate AllRight(chunks: seq<DataChunk>) {
    forall i :: 0 <= i < |chunks| ==> RightChunk(chunks[i])
  }

  predicate ValidChunks(chunks: seq<DataChunk>, last: SizeLine) {
    && last.Spells(0) && last.Printable()
    && AllRight(chunks)
  }

  function Payload(chunks: seq<DataChunk>): seq<Byte> {
    if chunks == [] then [] else chunks[0].data + Payload(chunks[1..])
  }

  /** One rendered chunk. */
  function ChunkBytes(chunk: DataChunk): seq<Byte>
    requires IsAscii(chunk.line.Text())
  {
    Ascii(chunk.line.Text()) + CRLF + chunk.data + CRLF
  }

  function DataBytes(chunks: seq<DataChunk>): seq<Byte>
    requires AllRight(chunks)
  {
    if chunks == [] then [] else ChunkBytes(chunks[0]) + DataBytes(chunks[1..])
  }

  /** The last chunk, and the first line behind it. */
  function LastBytes(last: SizeLine, line: string): seq<Byte>
    requires last.Printable() && IsAscii(line)
  {
    Ascii(last.Text()) + CRLF + (Ascii(line) + CRLF)
  }

  function RenderUpTo(chunks: seq<DataChunk>, last: SizeLine, line: string): seq<Byte>
    requires ValidChunks(chunks, last) && IsAscii(line)
  {
    DataBytes(chunks) + LastBytes(last, line)
  }

  /** A body without trailers: the line behind the last chunk is empty. */
  function RenderChunks(chunks: seq<DataChunk>, last: SizeLine): (r: seq<Byte>)
    requires ValidChunks(chunks, last)
  {
    RenderUpTo(chunks, last, "")
  }

  lemma MatchParts<T>(s: seq<T>, a: seq<T>, b: seq<T>, i: nat)
    requires MatchAt(s, a + b, i)
    ensures MatchAt(s, a, i) && MatchAt(s, b, i + |a|)
  {
    var piece := s[i..i + |a + b|];
    assert s[i..i + |a|] == piece[..|a|] == a;
    assert s[i + |a|..i + |a| + |b|] == piece[|a|..] == b;
  }

  /** A line end is found right behind text that holds no carriage return. */
  lemma LineEndFound(bytes: seq<Byte>, text: string, start: nat)
    requires IsAscii(text) && '\r' !in text
    requires MatchAt(bytes, Ascii(text) + CRLF, start)
    ensures Find(bytes, CRLF, start) == Some(start + |text|)
    ensures bytes[start..start + |text|] == Ascii(text)
  {
    MatchParts(bytes, Ascii(text), CRLF, start);
    forall j | start <= j < start + |text| ensures !MatchAt(bytes, CRLF, j) {
      MatchedElement(bytes, Ascii(text), start, j - start);
      assert text[j - start] in text;
    }
  }

  lemma HexDigitIsPlain(s: string, c: char)
    requires IsHexText(s) && !IsHexDigit(c)
    ensures c !in s
  {
  }

  lemma SizeIsFirstPart(line: SizeLine, n: nat)
    requires line.Spells(n)
    ensures Split(line.Text(), ';')[0] == line.pre + line.Size() + line.post
  {
    var part := line.pre + line.Size() + line.post;
    HexDigitIsPlain(line.digits, ';');
    assert ';' !in part;
    if line.extension == "" {
      assert line.Text() == part;
      SplitNone(part, ';');
    } else {
      assert line.Text() == part + [';'] + line.extension[1..];
      SplitJoin(part, ';', line.extension[1..]);
    }
  }

  lemma SizeParsed(line: SizeLine, n: nat)
    requires line.Spells(n) && n <= USIZE_MAX
    ensures ParseHex(Trim(line.pre + line.Size() + line.post)) == Some(n)
  {
    hide HexNumber;
    var size := line.Size();
    assert IsHexDigit(line.digits[0]) && IsHexDigit(line.digits[|line.digits| - 1]);
    assert size[|size| - 1] == line.digits[|line.digits| - 1] && (size[0] == '+' || size[0] == line.digits[0]);
    TrimBlank(line.pre, size, line.post);
    assert line.sign == "+" ==> size[1..] == line.digits;
    assert line.sign == "" ==> size == line.digits;
  }

  lemma SizeSpelled(text: string, n: nat) returns (line: SizeLine)
    requires ParseHex(Trim(Split(text, ';')[0])) == Some(n)
    ensures line.Text() == text && line.Spells(n)
  {
    hide HexNumber;
    var first := Split(text, ';')[0];
    FirstPieceBegins(text, ';');
    var pre, post := TrimParts(first);
    var size := Trim(first);
    assert text == first + text[|first|..];
    if size[0] == '+' {
      line := SizeLine(pre, "+", size[1..], post, text[|first|..]);
      assert line.Size() == size;
    } else {
      line := SizeLine(pre, "", size, post, text[|first|..]);
      assert line.Size() == size;
    }
  }

  /** The decoder reads a size from a line exactly when the line spells it, within a machine word. */
  lemma SizeReadIff(bytes: seq<Byte>, n: nat)
    ensures ChunkSize(bytes) == Ok(n) <==>
              n <= 18446744073709551615 && exists line: SizeLine :: Decode(bytes) == Some(line.Text()) && line.Spells(n)
    ensures ChunkSize(bytes) == Err(ChunkSizeNotText) <==> Decode(bytes) == None
    ensures ChunkSize(bytes).Err? ==> ChunkSize(bytes).error == ChunkSizeNotText || ChunkSize(bytes).error == InvalidChunkSize
  {
    hide SizeLine.Spells;
    hide SizeLine.Text;
    hide Split;
    hide Trim;
    if ChunkSize(bytes) == Ok(n) {
      var line := SizeSpelled(Decode(bytes).value, n);
    }
    if n <= USIZE_MAX {
      forall line: SizeLine | Decode(bytes) == Some(line.Text()) && line.Spells(n) ensures ChunkSize(bytes) == Ok(n) {
        SizeIsFirstPart(line, n);
        SizeParsed(line, n);
      }
    }
  }

  lemma SizeRead(line: SizeLine, n: nat)
    requires line.Spells(n) && line.Printable() && n <= USIZE_MAX
    ensures ChunkSize(Ascii(line.Text())) == Ok(n)
  {
    hide SizeLine.Spells;
    hide SizeLine.Text;
    DecodeAscii(line.Text());
    SizeReadIff(Ascii(line.Text()), n);
  }

  lemma AfterSizeRead(bytes: seq<Byte>, room: nat, data: nat, payload: seq<Byte>)
    requires payload != [] && |payload| <= room
    requires MatchAt(bytes, payload, data) && MatchAt(bytes, CRLF, data + |payload|)
    ensures AfterSize(bytes, room, data, |payload|) == Data(payload, data + |payload| + 2)
  {
  }

  lemma ChunkParts(bytes: seq<Byte>, offset: nat, chunk: DataChunk)
    requires IsAscii(chunk.line.Text()) && MatchAt(bytes, ChunkBytes(chunk), offset)
    ensures MatchAt(bytes, Ascii(chunk.line.Text()) + CRLF, offset)
    ensures MatchAt(bytes, chunk.data, offset + |chunk.line.Text()| + 2)
    ensures MatchAt(bytes, CRLF, offset + |chunk.line.Text()| + 2 + |chunk.data|)
    ensures offset + |ChunkBytes(chunk)| == offset + |chunk.line.Text()| + 2 + |chunk.data| + 2 <= |bytes|
  {
    MatchParts(bytes, Ascii(chunk.line.Text()) + CRLF + chunk.data, CRLF, offset);
    MatchParts(bytes, Ascii(chunk.line.Text()) + CRLF, chunk.data, offset);
  }

  lemma ChunkRead(bytes: seq<Byte>, room: nat, offset: nat, chunk: DataChunk)
    requires RightChunk(chunk) && |chunk.data| <= room && |chunk.data| <= USIZE_MAX
    requires MatchAt(bytes, ChunkBytes(chunk), offset)
    ensures ReadChunk(bytes, room, offset) == Data(chunk.data, offset + |ChunkBytes(chunk)|)
  {
    hide ChunkBytes;
    hide ChunkSize;
    hide AfterSize;
    hide Find;
    hide MatchAt;
    hide SizeLine.Spells;
    hide SizeLine.Text;
    var text, n := chunk.line.Text(), |chunk.data|;
    ChunkParts(bytes, offset, chunk);
    LineEndFound(bytes, text, offset);
    SizeRead(chunk.line, n);
    AfterSizeRead(bytes, room, offset + |text| + 2, chunk.data);
  }

  lemma LastRead(bytes: seq<Byte>, room: nat, offset: nat, last: SizeLine, line: string)
    requires last.Spells(0) && last.Printable() && IsAscii(line) && '\r' !in line
    requires MatchAt(bytes, LastBytes(last, line), offset)
    ensures ReadChunk(bytes, room, offset) == Last(offset + |last.Text()| + 2 + |line| + 2)
  {
    hide ChunkSize;
    hide Find;
    hide SizeLine.Text;
    MatchParts(bytes, Ascii(last.Text()) + CRLF, Ascii(line) + CRLF, offset);
    LineEndFound(bytes, last.Text(), offset);
    LineEndFound(bytes, line, offset + |last.Text()| + 2);
    SizeRead(last, 0);
  }

  lemma DechunkOne(bytes: seq<Byte>, max: nat, offset: nat, decoded: seq<Byte>, chunk: DataChunk)
    requires RightChunk(chunk) && |decoded| + |chunk.data| <= max <= USIZE_MAX
    requires MatchAt(bytes, ChunkBytes(chunk), offset)
    ensures Dechunk(bytes, max, offset, decoded) == Dechunk(bytes, max, offset + |ChunkBytes(chunk)|, decoded + chunk.data)
  {
    hide ReadChunk;
    ChunkRead(bytes, Room(max, |decoded|), offset, chunk);
  }

  lemma DechunkLast(bytes: seq<Byte>, max: nat, offset: nat, decoded: seq<Byte>, last: SizeLine, line: string)
    requires last.Spells(0) && last.Printable() && IsAscii(line) && '\r' !in line
    requires MatchAt(bytes, LastBytes(last, line), offset)
    ensures Dechunk(bytes, max, offset, decoded) == Ok(Some((decoded, offset + |last.Text()| + 2 + |line| + 2)))
  {
    hide ReadChunk;
    LastRead(bytes, Room(max, |decoded|), offset, last, line);
  }

  lemma Placed(front: seq<Byte>, middle: seq<Byte>, tail: seq<Byte>)
    ensures MatchAt(front + middle + tail, front, 0) && MatchAt(front + middle + tail, middle, |front|)
  {
    var whole := front + middle + tail;
    assert whole[0..|front|] == front;
    assert whole[|front|..|front| + |middle|] == middle;
  }

  /** The decoder goes past chunks that fit the limit and keeps their data. */
  lemma {:induction false} DechunkPast(bytes: seq<Byte>, max: nat, offset: nat, decoded: seq<Byte>, chunks: seq<DataChunk>)
    requires AllRight(chunks) && |decoded| + |Payload(chunks)| <= max <= USIZE_MAX
    requires MatchAt(bytes, DataBytes(chunks), offset)
    ensures offset + |DataBytes(chunks)| <= |bytes|
    ensures Dechunk(bytes, max, offset, decoded) == Dechunk(bytes, max, offset + |DataBytes(chunks)|, decoded + Payload(chunks))
    decreases |chunks|
  {
    hide Dechunk;
    hide ChunkBytes;
    if chunks == [] {
      assert decoded + Payload(chunks) == decoded;
    } else {
      var first := chunks[0];
      assert RightChunk(first);
      hide SizeLine.Spells;
      hide SizeLine.Text;
      MatchParts(bytes, ChunkBytes(first), DataBytes(chunks[1..]), offset);
      DechunkOne(bytes, max, offset, decoded, first);
      DechunkPast(bytes, max, offset + |ChunkBytes(first)|, decoded + first.data, chunks[1..]);
      assert decoded + first.data + Payload(chunks[1..]) == decoded + Payload(chunks);
    }
  }

  lemma DecodedUpTo(chunks: seq<DataChunk>, last: SizeLine, line: string, tail: seq<Byte>, max: nat)
    requires ValidChunks(chunks, last) && IsAscii(line) && '\r' !in line && |Payload(chunks)| <= max <= USIZE_MAX
    ensures Dechunk(RenderUpTo(chunks, last, line) + tail, max, 0, []) == Ok(Some((Payload(chunks), |RenderUpTo(chunks, last, line)|)))
  {
    hide Dechunk;
    hide SizeLine.Text;
    hide SizeLine.Spells;
    var front, end := DataBytes(chunks), LastBytes(last, line);
    var bytes := front + end + tail;
    hide DataBytes;
    Placed(front, end, tail);
    assert [] + Payload(chunks) == Payload(chunks);
    DechunkPast(bytes, max, 0, [], chunks);
    DechunkLast(bytes, max, |front|, Payload(chunks), last, line);
  }

  /** Decoding gives back the concatenated data and the exact encoded length, whatever bytes follow. */
  lemma ChunksRoundTrip(chunks: seq<DataChunk>, last: SizeLine, tail: seq<Byte>, max: nat)
    requires ValidChunks(chunks, last) && |Payload(chunks)| <= max <= USIZE_MAX
    ensures Dechunk(RenderChunks(chunks, last) + tail, max, 0, []) == Ok(Some((Payload(chunks), |RenderChunks(chunks, last)|)))
  {
    DecodedUpTo(chunks, last, "", tail, max);
  }

  // ---- Bodies that are refused ----

  lemma TooLargeAt(bytes: seq<Byte>, max: nat, offset: nat, decoded: seq<Byte>, line: SizeLine, n: nat)
    requires line.Spells(n) && line.Printable() && 0 < n <= USIZE_MAX && |decoded| + n > max >= |decoded|
    requires MatchAt(bytes, Ascii(line.Text()) + CRLF, offset)
    ensures Dechunk(bytes, max, offset, decoded) == Err(BodyTooLarge)
  {
    hide ChunkSize;
    hide Find;
    hide SizeLine.Spells;
    hide SizeLine.Text;
    LineEndFound(bytes, line.Text(), offset);
    SizeRead(line, n);
    MatchParts(bytes, Ascii(line.Text()), CRLF, offset);
  }

  lemma {:induction false} TooLargeAmong(bytes: seq<Byte>, max: nat, offset: nat, decoded: seq<Byte>, chunks: seq<DataChunk>)
    requires AllRight(chunks) && |decoded| <= max < |decoded| + |Payload(chunks)| && max <= USIZE_MAX
    requires MatchAt(bytes, DataBytes(chunks), offset) && |bytes| <= USIZE_MAX
    ensures Dechunk(bytes, max, offset, decoded) == Err(BodyTooLarge)
    decreases |chunks|
  {
    hide Dechunk;
    hide SizeLine.Text;
    hide SizeLine.Spells;
    var first := chunks[0];
    assert RightChunk(first);
    MatchParts(bytes, ChunkBytes(first), DataBytes(chunks[1..]), offset);
    ChunkParts(bytes, offset, first);
    hide ChunkBytes;
    if |decoded| + |first.data| > max {
      TooLargeAt(bytes, max, offset, decoded, first.line, |first.data|);
    } else {
      DechunkOne(bytes, max, offset, decoded, first);
      TooLargeAmong(bytes, max, offset + |ChunkBytes(first)|, decoded + first.data, chunks[1..]);
    }
  }

  /** A body whose data exceeds the limit is refused, whatever its chunks and whatever follows. */
  lemma OverLimit(chunks: seq<DataChunk>, last: SizeLine, tail: seq<Byte>, max: nat)
    requires ValidChunks(chunks, last) && max < |Payload(chunks)|
    requires max <= USIZE_MAX && |RenderChunks(chunks, last) + tail| <= USIZE_MAX
    ensures Dechunk(RenderChunks(chunks, last) + tail, max, 0, []) == Err(BodyTooLarge)
  {
    var bytes := RenderChunks(chunks, last) + tail;
    assert bytes[0..|DataBytes(chunks)|] == DataBytes(chunks);
    TooLargeAmong(bytes, max, 0, [], chunks);
  }

  /** What can be wrong behind right chunks: a line that is no size, or data without its line end. */
  datatype Flaw = BadSize(line: seq<Byte>) | BadEnd(chunk: DataChunk, end: seq<Byte>) {

    ghost predicate Valid() {
      match this
      case BadSize(line) => 13 !in line && forall sized: SizeLine, n: nat ::
        n <= 18446744073709551615 && sized.Spells(n) ==> Decode(line) != Some(sized.Text())
      case BadEnd(chunk, end) => RightChunk(chunk) && |end| == 2 && end != [13, 10]
    }

    function Data(): seq<Byte> {
      match this
      case BadSize(_) => []
      case BadEnd(chunk, _) => chunk.data
    }

    function Bytes(): seq<Byte>
      requires BadEnd? ==> IsAscii(chunk.line.Text())
    {
      match this
      case BadSize(line) => line + [13, 10]
      case BadEnd(chunk, end) => Ascii(chunk.line.Text()) + CRLF + (chunk.data + end)
    }

    function Error(): Error {
      match this
      case BadSize(line) => if Decode(line).None? then ChunkSizeNotText else InvalidChunkSize
      case BadEnd(_, _) => MissingTerminator
    }
  }

  lemma BadSizeRead(bytes: seq<Byte>, max: nat, offset: nat, decoded: seq<Byte>, flaw: Flaw)
    requires flaw.BadSize? && flaw.Valid() && MatchAt(bytes, flaw.Bytes(), offset)
    ensures Dechunk(bytes, max, offset, decoded) == Err(flaw.Error())
  {
    hide ChunkSize;
    hide Find;
    hide SizeLine.Spells;
    hide SizeLine.Text;
    var line := flaw.line;
    MatchParts(bytes, line, CRLF, offset);
    forall j | offset <= j < offset + |line| ensures !MatchAt(bytes, CRLF, j) {
      MatchedElement(bytes, line, offset, j - offset);
      assert line[j - offset] in line;
    }
    forall n: nat ensures ChunkSize(line) != Ok(n) {
      SizeReadIff(line, n);
    }
    SizeReadIff(line, 0);
  }

  lemma UnendedRead(bytes: seq<Byte>, room: nat, data: nat, payload: seq<Byte>, end: seq<Byte>)
    requires payload != [] && |payload| <= room && |end| == 2 && end != [13, 10]
    requires MatchAt(bytes, payload, data) && MatchAt(bytes, end, data + |payload|)
    ensures AfterSize(bytes, room, data, |payload|) == Broken(MissingTerminator)
  {
  }

  lemma BadEndChunk(bytes: seq<Byte>, room: nat, offset: nat, chunk: DataChunk, end: seq<Byte>)
    requires RightChunk(chunk) && |end| == 2 && end != [13, 10] && |chunk.data| <= room && |chunk.data| <= USIZE_MAX
    requires MatchAt(bytes, Ascii(chunk.line.Text()) + CRLF + (chunk.data + end), offset)
    ensures ReadChunk(bytes, room, offset) == Broken(MissingTerminator)
  {
    hide ChunkSize;
    hide AfterSize;
    hide Find;
    hide SizeLine.Spells;
    hide SizeLine.Text;
    var text, data := chunk.line.Text(), chunk.data;
    MatchParts(bytes, Ascii(text) + CRLF, data + end, offset);
    MatchParts(bytes, data, end, offset + |text| + 2);
    LineEndFound(bytes, text, offset);
    SizeRead(chunk.line, |data|);
    hide MatchAt;
    UnendedRead(bytes, room, offset + |text| + 2, data, end);
  }

  lemma BadEndRead(bytes: seq<Byte>, max: nat, offset: nat, decoded: seq<Byte>, flaw: Flaw)
    requires flaw.BadEnd? && flaw.Valid() && MatchAt(bytes, flaw.Bytes(), offset)
    requires |decoded| + |flaw.Data()| <= max <= USIZE_MAX
    ensures Dechunk(bytes, max, offset, decoded) == Err(flaw.Error())
  {
    hide ReadChunk;
    hide SizeLine.Text;
    BadEndChunk(bytes, Room(max, |decoded|), offset, flaw.chunk, flaw.end);
  }

  lemma FlawRead(bytes: seq<Byte>, max: nat, offset: nat, decoded: seq<Byte>, flaw: Flaw)
    requires flaw.Valid() && MatchAt(bytes, flaw.Bytes(), offset)
    requires |decoded| <= max <= USIZE_MAX && |bytes| <= USIZE_MAX
    ensures Dechunk(bytes, max, offset, decoded) == Err(if |decoded + flaw.Data()| > max then BodyTooLarge else flaw.Error())
  {
    hide Dechunk;
    hide SizeLine.Text;
    hide SizeLine.Spells;
    if flaw.BadSize? {
      BadSizeRead(bytes, max, offset, decoded, flaw);
    } else if |decoded + flaw.Data()| <= max {
      BadEndRead(bytes, max, offset, decoded, flaw);
    } else {
      MatchParts(bytes, Ascii(flaw.chunk.line.Text()) + CRLF, flaw.chunk.data + flaw.end, offset);
      TooLargeAt(bytes, max, offset, decoded, flaw.chunk.line, |flaw.chunk.data|);
    }
  }

  lemma BrokenAt(bytes: seq<Byte>, chunks: seq<DataChunk>, flaw: Flaw, max: nat)
    requires AllRight(chunks) && flaw.Valid() && max <= USIZE_MAX && |bytes| <= USIZE_MAX
    requires MatchAt(bytes, DataBytes(chunks), 0) && MatchAt(bytes, flaw.Bytes(), |DataBytes(chunks)|)
    ensures Dechunk(bytes, max, 0, []) == Err(if |Payload(chunks) + flaw.Data()| > max then BodyTooLarge else flaw.Error())
  {
    hide Dechunk;
    hide SizeLine.Text;
    hide SizeLine.Spells;
    hide DataBytes;
    hide MatchAt;
    hide Flaw.Bytes;
    hide Flaw.Valid;
    var payload := Payload(chunks);
    hide Payload;
    assert [] + payload == payload;
    if |payload| > max {
      TooLargeAmong(bytes, max, 0, [], chunks);
    } else {
      DechunkPast(bytes, max, 0, [], chunks);
      FlawRead(bytes, max, |DataBytes(chunks)|, payload, flaw);
    }
  }

  /** A body that goes wrong behind any chunks is refused for what is wrong, unless it exceeds the limit before. */
  lemma BrokenBody(chunks: seq<DataChunk>, flaw: Flaw, tail: seq<Byte>, max: nat)
    requires AllRight(chunks) && flaw.Valid() && max <= USIZE_MAX
    requires |DataBytes(chunks) + flaw.Bytes() + tail| <= USIZE_MAX
    ensures Dechunk(DataBytes(chunks) + flaw.Bytes() + tail, max, 0, []) ==
              Err(if |Payload(chunks) + flaw.Data()| > max then BodyTooLarge else flaw.Error())
  {
    hide Dechunk;
    hide SizeLine.Text;
    hide SizeLine.Spells;
    hide Payload;
    Placed(DataBytes(chunks), flaw.Bytes(), tail);
    BrokenAt(DataBytes(chunks) + flaw.Bytes() + tail, chunks, flaw, max);
  }

  // ---- Trailers ----

  /** A trailer section: its lines, and the empty line that ends it. */
  function TrailerBytes(trailers: seq<string>): seq<Byte>
    requires forall i :: 0 <= i < |trailers| ==> IsAscii(trailers[i])
  {
    if trailers == [] then CRLF else Ascii(trailers[0]) + CRLF + TrailerBytes(trailers[1..])
  }

  /** A body with trailers. */
  function RenderTrailed(chunks: seq<DataChunk>, last: SizeLine, trailers: seq<string>): seq<Byte>
    requires ValidChunks(chunks, last) && forall i :: 0 <= i < |trailers| ==> IsAscii(trailers[i])
  {
    if trailers == [] then RenderChunks(chunks, last) else RenderUpTo(chunks, last, trailers[0]) + TrailerBytes(trailers[1..])
  }

  /** The decoder reads one line behind the last chunk: the data is right with any trailers, but the body is consumed to
      its end exactly when there are none. */
  lemma WholeBodyIffNoTrailers(chunks: seq<DataChunk>, last: SizeLine, trailers: seq<string>, tail: seq<Byte>, max: nat)
    requires ValidChunks(chunks, last) && |Payload(chunks)| <= max <= USIZE_MAX
    requires forall i :: 0 <= i < |trailers| ==> IsAscii(trailers[i]) && '\r' !in trailers[i]
    ensures var r := Dechunk(RenderTrailed(chunks, last, trailers) + tail, max, 0, []);
            && r.Ok? && r.value.Some? && r.value.value.0 == Payload(chunks)
            && (r.value.value.1 == |RenderTrailed(chunks, last, trailers)| <==> trailers == [])
  {
    if trailers == [] {
      ChunksRoundTrip(chunks, last, tail, max);
    } else {
      var front, rest := RenderUpTo(chunks, last, trailers[0]), TrailerBytes(trailers[1..]);
      DecodedUpTo(chunks, last, trailers[0], rest + tail, max);
      assert front + rest + tail == front + (rest + tail);
    }
  }

  /** Every strict prefix of an encoding asks for more bytes. */
  lemma ChunkPrefixIsIncomplete(chunks: seq<DataChunk>, last: SizeLine, k: nat, max: nat)
    requires ValidChunks(chunks, last) && |Payload(chunks)| <= max <= USIZE_MAX
    requires k < |RenderChunks(chunks, last)|
    ensures Dechunk(RenderChunks(chunks, last)[..k], max, 0, []) == Ok(None)
  {
    var rendered := RenderChunks(chunks, last);
    var cut := Dechunk(rendered[..k], max, 0, []);
    ChunksRoundTrip(chunks, last, [], max);
    assert rendered + [] == rendered;
    if cut != Ok(None) {
      DechunkStable(rendered[..k], rendered, max, 0, []);
      DechunkStaysInside(rendered[..k], max, 0, []);
    }
  }

  function Hexadecimal(n: nat): (s: string)
    ensures s != "" && IsHexText(s)
  {
    if n < 16 then [HexChar(n)] else Hexadecimal(n / 16) + [HexChar(n % 16)]
  }

  /** Every size has a spelling. */
  lemma {:induction false} HexRoundTrip(n: nat)
    ensures HexNumber(Hexadecimal(n)) == n
  {
    if n >= 16 {
      HexRoundTrip(n / 16);
      assert Hexadecimal(n)[..|Hexadecimal(n)| - 1] == Hexadecimal(n / 16);
    }
  }

  lemma HexTextIsPlain(s: string)
    requires IsHexText(s)
    ensures IsAscii(s) && '\r' !in s
  {
  }

  function PlainSize(n: nat): SizeLine {
    SizeLine("", "", Hexadecimal(n), "", "")
  }

  lemma PlainSpells(n: nat)
    ensures PlainSize(n).Spells(n) && PlainSize(n).Printable()
  {
    HexRoundTrip(n);
    HexTextIsPlain(Hexadecimal(n));
    assert PlainSize(n).Text() == Hexadecimal(n);
  }

  /** The data as plain chunks, each behind its size in hexadecimal digits. */
  function PlainChunks(pieces: seq<seq<Byte>>): (r: seq<DataChunk>)
    ensures |r| == |pieces| && forall i :: 0 <= i < |r| ==> r[i] == DataChunk(PlainSize(|pieces[i]|), pieces[i])
  {
    seq(|pieces|, i requires 0 <= i < |pieces| => DataChunk(PlainSize(|pieces[i]|), pieces[i]))
  }

  function Joined(pieces: seq<seq<Byte>>): seq<Byte> {
    if pieces == [] then [] else pieces[0] + Joined(pieces[1..])
  }

  lemma {:induction false} PlainPayload(pieces: seq<seq<Byte>>)
    ensures Payload(PlainChunks(pieces)) == Joined(pieces)
  {
    if pieces != [] {
      PlainPayload(pieces[1..]);
      assert PlainChunks(pieces)[1..] == PlainChunks(pieces[1..]);
    }
  }

  /** Any non-empty pieces of data can be written as chunks, and are read back joined. */
  lemma AnyDataRoundTrips(pieces: seq<seq<Byte>>, tail: seq<Byte>, max: nat)
    requires forall i :: 0 <= i < |pieces| ==> pieces[i] != []
    requires |Joined(pieces)| <= max <= USIZE_MAX
    ensures var last := PlainSize(0);
            && ValidChunks(PlainChunks(pieces), last)
            && Dechunk(RenderChunks(PlainChunks(pieces), last) + tail, max, 0, []) ==
                 Ok(Some((Joined(pieces), |RenderChunks(PlainChunks(pieces), last)|)))
  {
    var last := PlainSize(0);
    forall n: nat ensures PlainSize(n).Spells(n) && PlainSize(n).Printable() {
      PlainSpells(n);
    }
    PlainPayload(pieces);
    ChunksRoundTrip(PlainChunks(pieces), last, tail, max);
  }

  /** The empty body with one trailer: the decoder stops two bytes early, so that the empty line behind the trailer is
      left to be read as the start of the next message. */
  lemma TrailerLeavesALine(max: nat)
    requires max <= USIZE_MAX
    ensures var body := Ascii("0") + CRLF + (Ascii("X: y") + CRLF) + CRLF;
            |body| == 11 && Dechunk(body, max, 0, []) == Ok(Some(([], 9)))
  {
    var last := SizeLine("", "", "0", "", "");
    assert last.Text() == "0";
    assert HexNumber("0") == 0;
    assert ValidChunks([], last);
    DecodedUpTo([], last, "X: y", CRLF, max);
    hide Dechunk;
    assert RenderUpTo([], last, "X: y") + CRLF == Ascii("0") + CRLF + (Ascii("X: y") + CRLF) + CRLF;
  }
}
