/** Pipelined HTTP/1.1 messages, rendered (sections 6.3 and 7.1 of RFC 9112) and extracted again. */
module HttpRoundTrip {
  import opened Prelude
  import opened Text
  import opened TextFacts
  import opened Utf8
  import opened Reassembly
  import opened Http
  import opened HttpFields
  import opened HttpMonotone
  import opened Chunks

  datatype Framing =
    | Plain(body: seq<Byte>)
    | Chunked(chunks: seq<DataChunk>, last: SizeLine)
    | Flawed(chunks: seq<DataChunk>, flaw: Flaw)

  /** A message as a peer sends it: bytes of no message in front, and header lines before and after the ones the decoder
      reads. */
  datatype Outgoing = Outgoing(
    noise: seq<Byte>, startLine: string, before: seq<string>, contentType: Option<string>, contentEncoding: Option<string>,
    transferEncoding: Option<string>, contentLength: Option<string>, after: seq<string>, framing: Framing) {

    function Encoded(): seq<Byte> {
      match framing
      case Plain(body) => body
      case Chunked(chunks, _) => Payload(chunks)
      case Flawed(chunks, flaw) => Payload(chunks) + flaw.Data()
    }

    function Known(): seq<string> {
      Present("Content-Type", contentType) + Present("Content-Encoding", contentEncoding)
      + Present("Transfer-Encoding", transferEncoding) + Present("Content-Length", contentLength)
    }

    function Lines(): seq<string> {
      before + Known() + after
    }

    ghost predicate Gzipped() {
      contentEncoding.Some? && Lists(ToLower(contentEncoding.value), "gzip")
    }

    ghost predicate InChunks() {
      transferEncoding.Some? && Lists(ToLower(transferEncoding.value), "chunked")
    }

    /** The body is what the header fields announce. */
    ghost predicate Framed() {
      match framing
      case Plain(body) => !InChunks() && Announces(contentLength, |body|)
      case Chunked(chunks, last) => InChunks() && ValidChunks(chunks, last)
      case Flawed(chunks, flaw) => InChunks() && AllRight(chunks) && flaw.Valid()
    }

    /** What any message needs to be rendered at all. */
    ghost predicate Sendable() {
      && PlainLine(startLine) && AllHarmless(before) && AllHarmless(after)
      && PlainField(contentType) && PlainField(contentEncoding) && PlainField(transferEncoding) && PlainField(contentLength)
      && Framed()
    }

    predicate Refused(max: nat) {
      |Encoded()| > max || framing.Flawed?
    }

    /** Why the decoder gives up on the body, if it does. */
    ghost function Fault(max: nat, inflate: Inflate): Option<Error> {
      if |Encoded()| > max then Some(BodyTooLarge)
      else if framing.Flawed? then Some(framing.flaw.Error())
      else if !Gzipped() then None
      else
        match inflate(Encoded(), max + 1)
        case None => Some(BadContentCoding)
        case Some(output) => if |output| > max then Some(BodyTooLarge) else None
    }

    /** The message begins at its start line, and not before. */
    ghost predicate Starts(response: bool) {
      && Begins(response, startLine) && IsAscii(startLine)
      && forall j: nat :: j < |noise| ==> !StartsAt(response, noise + Ascii(startLine), j)
    }

    /** What the decoder supports: the message starts like one, and nothing is wrong with the body. */
    ghost predicate Supported(response: bool, max: nat, inflate: Inflate) {
      Starts(response) && max <= USIZE_MAX && Fault(max, inflate).None?
    }

    ghost function Body(max: nat, inflate: Inflate): seq<Byte> {
      if !Gzipped() then Encoded()
      else match inflate(Encoded(), max + 1) case Some(output) => output case None => []
    }

    /** What the decoder should report. */
    ghost function Expected(max: nat, inflate: Inflate, timestampMs: nat): HttpMessage {
      HttpMessage(timestampMs, startLine, KnownHeaders(), Body(max, inflate), |Encoded()|)
    }

    function KnownHeaders(): Headers {
      With(With(With(With(map[], "content-type", contentType), "content-encoding", contentEncoding),
        "transfer-encoding", transferEncoding), "content-length", contentLength)
    }

    ghost function BodyBytes(): seq<Byte>
      requires Sendable()
    {
      match framing
      case Plain(body) => body
      case Chunked(chunks, last) => RenderChunks(chunks, last)
      case Flawed(chunks, flaw) => DataBytes(chunks) + flaw.Bytes()
    }
  }

  function Present(name: string, field: Option<string>): seq<string> {
    match field
    case None => []
    case Some(value) => [Field(name, value)]
  }

  function With(headers: Headers, key: string, field: Option<string>): Headers {
    match field
    case None => headers
    case Some(value) => headers[key := ToLower(value)]
  }

  predicate PlainField(field: Option<string>) {
    field.Some? ==> PlainValue(field.value)
  }

  function Field(name: string, value: string): string {
    name + ": " + value
  }

  predicate PlainLine(line: string) {
    line != "" && IsAscii(line) && '\r' !in line
  }

  /** A field value without surrounding whitespace. */
  predicate PlainValue(value: string) {
    && IsAscii(value) && '\r' !in value
    && (value != "" ==> !IsWhitespace(value[0]) && !IsWhitespace(value[|value| - 1]))
  }

  /** A line that is none of the fields the decoder reads. */
  predicate Harmless(line: string) {
    PlainLine(line) && match SplitOnce(line, ':') case None => true case Some((name, _)) => !Tracked(ToLower(Trim(name)))
  }

  predicate AllHarmless(lines: seq<string>) {
    forall i :: 0 <= i < |lines| ==> Harmless(lines[i])
  }

  predicate AllPlain(lines: seq<string>) {
    forall i :: 0 <= i < |lines| ==> PlainLine(lines[i])
  }

  function Join(lines: seq<string>): string
    requires lines != []
  {
    if |lines| == 1 then lines[0] else lines[0] + "\r\n" + Join(lines[1..])
  }

  // ---- The header section ----

  lemma {:induction false} JoinIsAscii(lines: seq<string>)
    requires lines != [] && AllPlain(lines)
    ensures IsAscii(Join(lines))
  {
    if |lines| > 1 {
      JoinIsAscii(lines[1..]);
    }
  }

  lemma {:induction false} SplitJoined(lines: seq<string>)
    requires lines != [] && AllPlain(lines)
    ensures SplitLines(Join(lines)) == lines
  {
    var text := Join(lines);
    if |lines| == 1 {
      forall j: nat ensures !MatchAt(text, "\r\n", j) {
        if j + 2 <= |text| {
          assert text[j..j + 2][0] == text[j];
        }
      }
    } else {
      var first := lines[0];
      SplitJoined(lines[1..]);
      assert text[|first|..|first| + 2] == "\r\n";
      assert MatchAt(text, "\r\n", |first|);
      forall j | 0 <= j < |first| ensures !MatchAt(text, "\r\n", j) {
        assert text[j] == first[j] && first[j] in first;
        assert j + 2 <= |text| ==> text[j..j + 2][0] == text[j];
      }
      assert text[..|first|] == first && text[|first| + 2..] == Join(lines[1..]);
    }
  }

  /** Behind every carriage return comes one more character and then something else than a carriage return. */
  predicate NoEmptyLine(text: string) {
    forall j :: 0 <= j < |text| && text[j] == '\r' ==> j + 2 < |text| && text[j + 2] != '\r'
  }

  lemma {:induction false} JoinHasNoEmptyLine(lines: seq<string>)
    requires lines != [] && AllPlain(lines)
    ensures NoEmptyLine(Join(lines)) && Join(lines) != "" && Join(lines)[0] != '\r'
  {
    var text, first := Join(lines), lines[0];
    assert forall i :: 0 <= i < |first| ==> first[i] in first;
    if |lines| > 1 {
      var rest := Join(lines[1..]);
      JoinHasNoEmptyLine(lines[1..]);
      assert text == first + "\r\n" + rest;
      forall j | 0 <= j < |text| && text[j] == '\r' ensures j + 2 < |text| && text[j + 2] != '\r' {
        assert j >= |first|;
        if j > |first| {
          assert text[j] == rest[j - |first| - 2] && text[j + 2] == rest[j - |first|];
        }
      }
    }
  }

  lemma HeaderEndFound(bytes: seq<Byte>, text: string, start: nat)
    requires IsAscii(text) && NoEmptyLine(text) && MatchAt(bytes, Ascii(text) + HEADER_END, start)
    ensures Find(bytes, HEADER_END, start) == Some(start + |text|)
    ensures bytes[start..start + |text|] == Ascii(text)
  {
    MatchParts(bytes, Ascii(text), HEADER_END, start);
    forall j | start <= j < start + |text| ensures !MatchAt(bytes, HEADER_END, j) {
      MatchedElement(bytes, Ascii(text), start, j - start);
      if text[j - start] == '\r' {
        MatchedElement(bytes, Ascii(text), start, j + 2 - start);
      }
      assert j + 4 <= |bytes| ==> bytes[j..j + 4][0] == bytes[j] && bytes[j..j + 4][2] == bytes[j + 2];
    }
  }

  // ---- The fields the decoder reads ----

  lemma FieldAdded(headers: Headers, name: string, value: string)
    requires ':' !in name && PlainValue(value)
    requires name != "" && !IsWhitespace(name[0]) && !IsWhitespace(name[|name| - 1])
    ensures AddHeader(headers, Field(name, value)) ==
              if Tracked(ToLower(name)) then headers[ToLower(name) := ToLower(value)] else headers
  {
    assert Field(name, value) == name + [':'] + ([' '] + value);
    SplitOnceJoin(name, ':', [' '] + value);
    TrimNone(name);
    TrimNone(value);
    assert ([' '] + value)[1..] == value;
    if value != "" {
      assert TrimStart([' '] + value) == value;
    }
  }

  lemma {:induction false} HarmlessAdd(headers: Headers, lines: seq<string>)
    requires AllHarmless(lines)
    ensures AddHeaders(headers, lines) == headers
    decreases |lines|
  {
    if lines != [] {
      HarmlessAdd(headers, lines[1..]);
    }
  }

  lemma {:induction false} AddHeadersConcat(headers: Headers, a: seq<string>, b: seq<string>)
    ensures AddHeaders(headers, a + b) == AddHeaders(AddHeaders(headers, a), b)
    decreases |a|
  {
    if a == [] {
      assert a + b == b;
    } else {
      assert (a + b)[1..] == a[1..] + b;
      AddHeadersConcat(AddHeader(headers, a[0]), a[1..], b);
    }
  }

  lemma LowerNames()
    ensures ToLower("Content-Type") == "content-type"
    ensures ToLower("Content-Encoding") == "content-encoding"
    ensures ToLower("Content-Length") == "content-length"
    ensures ToLower("Transfer-Encoding") == "transfer-encoding"
  {
  }

  lemma OneMoreField(headers: Headers, lines: seq<string>, line: string)
    ensures AddHeaders(headers, lines + [line]) == AddHeader(AddHeaders(headers, lines), line)
  {
    AddHeadersConcat(headers, lines, [line]);
    assert AddHeaders(AddHeader(AddHeaders(headers, lines), line), [line][1..]) == AddHeader(AddHeaders(headers, lines), line);
  }

  lemma PresentAdded(lines: seq<string>, headers: Headers, name: string, field: Option<string>)
    requires AddHeaders(map[], lines) == headers && PlainField(field)
    requires ':' !in name && name != "" && !IsWhitespace(name[0]) && !IsWhitespace(name[|name| - 1]) && Tracked(ToLower(name))
    ensures AddHeaders(map[], lines + Present(name, field)) == With(headers, ToLower(name), field)
  {
    hide ToLower;
    hide AddHeader;
    hide AddHeaders;
    hide Field;
    match field {
      case None =>
        assert lines + Present(name, field) == lines;
      case Some(value) =>
        OneMoreField(map[], lines, Field(name, value));
        FieldAdded(headers, name, value);
    }
  }

  lemma NoLines()
    ensures AddHeaders(map[], []) == map[]
  {
  }

  lemma KnownAdded(m: Outgoing)
    requires PlainField(m.contentType) && PlainField(m.contentEncoding)
    requires PlainField(m.transferEncoding) && PlainField(m.contentLength)
    ensures AddHeaders(map[], m.Known()) == m.KnownHeaders()
  {
    hide AddHeaders;
    hide With;
    hide Present;
    hide PlainField;
    LowerNames();
    hide ToLower;
    NoLines();
    PresentAdded([], map[], "Content-Type", m.contentType);
    var one := With(map[], "content-type", m.contentType);
    assert [] + Present("Content-Type", m.contentType) == Present("Content-Type", m.contentType);
    var lines := Present("Content-Type", m.contentType);
    PresentAdded(lines, one, "Content-Encoding", m.contentEncoding);
    var two := With(one, "content-encoding", m.contentEncoding);
    lines := lines + Present("Content-Encoding", m.contentEncoding);
    PresentAdded(lines, two, "Transfer-Encoding", m.transferEncoding);
    var three := With(two, "transfer-encoding", m.transferEncoding);
    lines := lines + Present("Transfer-Encoding", m.transferEncoding);
    PresentAdded(lines, three, "Content-Length", m.contentLength);
  }

  lemma HeadersRead(m: Outgoing)
    requires m.Sendable()
    ensures AddHeaders(map[], m.Lines()) == m.KnownHeaders()
  {
    AddHeadersConcat(map[], m.before + m.Known(), m.after);
    AddHeadersConcat(map[], m.before, m.Known());
    HarmlessAdd(map[], m.before);
    KnownAdded(m);
    HarmlessAdd(m.KnownHeaders(), m.after);
  }

  predicate NamedParts(line: string, name: string, value: string, key: string, text: string) {
    line == key + ":" + text && ':' !in key && ToLower(Trim(key)) == name && ToLower(Trim(text)) == value
  }

  /** The line is a field of this name, in any letter case, with this value in lower case, blanks aside. */
  ghost predicate FieldLine(line: string, name: string, value: string) {
    exists key, text :: NamedParts(line, name, value, key, text)
  }

  ghost predicate NoField(line: string, name: string) {
    forall value: string :: !FieldLine(line, name, value)
  }

  predicate OneOfFour(name: string) {
    name == "content-length" || name == "transfer-encoding" || name == "content-encoding" || name == "content-type"
  }

  lemma LineAdds(headers: Headers, line: string, name: string)
    requires OneOfFour(name)
    ensures NoField(line, name) ==> (name in AddHeader(headers, line) <==> name in headers)
                                     && (name in headers ==> AddHeader(headers, line)[name] == headers[name])
    ensures !NoField(line, name) ==> name in AddHeader(headers, line) && FieldLine(line, name, AddHeader(headers, line)[name])
    ensures forall key :: key in AddHeader(headers, line) ==> key in headers || OneOfFour(key)
  {
    hide ToLower;
    hide Trim;
    match SplitOnce(line, ':')
    case None =>
      forall value: string, k, t ensures !NamedParts(line, name, value, k, t) {
        assert ':' in ":" && (line == k + ":" + t ==> ':' in line);
      }
    case Some((key, text)) =>
      forall value: string, k, t | NamedParts(line, name, value, k, t) ensures k == key && t == text {
        assert line == k + [':'] + t;
        SplitOnceJoin(k, ':', t);
      }
      assert line == key + ":" + text;
      assert NamedParts(line, ToLower(Trim(key)), ToLower(Trim(text)), key, text);
      assert FieldLine(line, ToLower(Trim(key)), ToLower(Trim(text)));
      assert ToLower(Trim(key)) == name ==> !NoField(line, name);
  }

  /** Of the four fields the decoder keeps, whatever the lines, the last one of each name counts. */
  lemma {:induction false} LastFieldCounts(lines: seq<string>, name: string)
    requires OneOfFour(name)
    ensures var headers := AddHeaders(map[], lines);
            && (forall key :: key in headers ==> OneOfFour(key))
            && if name in headers then
                 exists i :: 0 <= i < |lines| && FieldLine(lines[i], name, headers[name]) && forall k :: i < k < |lines| ==> NoField(lines[k], name)
               else forall k :: 0 <= k < |lines| ==> NoField(lines[k], name)
  {
    hide AddHeader;
    hide FieldLine;
    hide NoField;
    if lines != [] {
      var n := |lines| - 1;
      LastFieldCounts(lines[..n], name);
      OneMoreField(map[], lines[..n], lines[n]);
      assert lines == lines[..n] + [lines[n]];
      var before := AddHeaders(map[], lines[..n]);
      hide AddHeaders;
      LineAdds(before, lines[n], name);
      if NoField(lines[n], name) && name in before {
        var i :| 0 <= i < n && FieldLine(lines[..n][i], name, before[name]) && forall k :: i < k < n ==> NoField(lines[..n][k], name);
        assert forall k :: i < k < n ==> lines[..n][k] == lines[k];
        assert FieldLine(lines[i], name, before[name]);
      } else if NoField(lines[n], name) {
        assert forall k :: 0 <= k < n ==> lines[..n][k] == lines[k];
      }
    }
  }

  lemma KeysApart(m: Outgoing)
    ensures Holds(m.KnownHeaders(), "content-encoding", m.contentEncoding)
    ensures Holds(m.KnownHeaders(), "transfer-encoding", m.transferEncoding)
    ensures Holds(m.KnownHeaders(), "content-length", m.contentLength)
  {
    hide ToLower;
  }

  predicate Holds(headers: Headers, key: string, field: Option<string>) {
    match field
    case None => key !in headers
    case Some(value) => key in headers && headers[key] == ToLower(value)
  }

  lemma HeadersMean(m: Outgoing)
    requires m.Framed()
    ensures IsChunked(m.KnownHeaders()) == m.InChunks()
    ensures m.framing.Plain? ==> ContentLength(m.KnownHeaders()) == |m.framing.body|
    ensures ("content-encoding" in m.KnownHeaders() && ListsToken(m.KnownHeaders()["content-encoding"], "gzip")) == m.Gzipped()
  {
    hide ListsToken;
    hide Lists;
    hide ContentLength;
    hide ToLower;
    hide Announces;
    KeysApart(m);
    hide Outgoing.KnownHeaders;
    var headers := m.KnownHeaders();
    if m.transferEncoding.Some? {
      ListsTokenIff(headers["transfer-encoding"], "chunked");
    }
    if m.contentEncoding.Some? {
      ListsTokenIff(headers["content-encoding"], "gzip");
    }
    if m.framing.Plain? {
      LengthIff(headers, m.contentLength, |m.framing.body|);
    }
  }

  // ---- One message ----

  lemma FieldIsPlain(name: string, value: string)
    requires PlainLine(name) && PlainValue(value)
    ensures PlainLine(Field(name, value))
  {
  }

  lemma NamesArePlain()
    ensures PlainLine("Content-Type") && PlainLine("Content-Encoding")
    ensures PlainLine("Transfer-Encoding") && PlainLine("Content-Length")
  {
  }

  lemma PresentIsPlain(name: string, field: Option<string>)
    requires PlainLine(name) && PlainField(field)
    ensures AllPlain(Present(name, field))
  {
    hide Field;
    hide PlainLine;
    if field.Some? {
      FieldIsPlain(name, field.value);
    }
  }

  lemma KnownArePlain(m: Outgoing)
    requires m.Sendable()
    ensures AllPlain(m.Known())
  {
    NamesArePlain();
    hide PlainLine;
    hide Present;
    hide PlainField;
    PresentIsPlain("Content-Type", m.contentType);
    PresentIsPlain("Content-Encoding", m.contentEncoding);
    PresentIsPlain("Transfer-Encoding", m.transferEncoding);
    PresentIsPlain("Content-Length", m.contentLength);
  }

  lemma LinesArePlain(m: Outgoing)
    requires m.Sendable()
    ensures AllPlain([m.startLine] + m.Lines())
  {
    KnownArePlain(m);
  }

  /** What ReadBody makes of the body. */
  ghost function BodyRead(m: Outgoing, max: nat): Body
    requires m.Sendable()
  {
    if |m.Encoded()| > max then BadBody(BodyTooLarge)
    else
      match m.framing
      case Flawed(_, flaw) => BadBody(flaw.Error())
      case _ => Encoded(m.Encoded(), |m.BodyBytes()|)
  }

  lemma ChunkedBodyIsRead(m: Outgoing, tail: seq<Byte>, max: nat)
    requires m.Sendable() && !m.framing.Plain? && max <= USIZE_MAX
    requires m.Refused(max) ==> |m.BodyBytes() + tail| <= USIZE_MAX
    ensures Dechunk(m.BodyBytes() + tail, max, 0, []) ==
      match BodyRead(m, max)
      case NeedsMore => Ok(None)
      case BadBody(e) => Err(e)
      case Encoded(bytes, consumed) => Ok(Some((bytes, consumed)))
  {
    hide Dechunk;
    hide Payload;
    hide DataBytes;
    hide Flaw.Bytes;
    match m.framing {
      case Chunked(chunks, last) =>
        if |Payload(chunks)| > max {
          OverLimit(chunks, last, tail, max);
        } else {
          ChunksRoundTrip(chunks, last, tail, max);
        }
      case Flawed(chunks, flaw) =>
        BrokenBody(chunks, flaw, tail, max);
    }
  }

  lemma BodyIsRead(m: Outgoing, bytes: seq<Byte>, max: nat, start: nat)
    requires m.Sendable() && max <= USIZE_MAX && (m.Refused(max) ==> |bytes| <= USIZE_MAX)
    requires MatchAt(bytes, m.BodyBytes(), start)
    ensures ReadBody(bytes, m.KnownHeaders(), max, start) == BodyRead(m, max)
  {
    hide Dechunk;
    hide IsChunked;
    hide ContentLength;
    hide Outgoing.KnownHeaders;
    HeadersMean(m);
    if !m.framing.Plain? {
      var tail := bytes[start + |m.BodyBytes()|..];
      assert bytes[start..] == m.BodyBytes() + tail;
      hide Outgoing.BodyBytes;
      ChunkedBodyIsRead(m, tail, max);
    }
  }

  lemma ContentRead(m: Outgoing, max: nat, inflate: Inflate)
    requires m.Framed() && |m.Encoded()| <= max && !m.framing.Flawed?
    ensures DecodeContent(m.Encoded(), m.KnownHeaders(), max, inflate) ==
              match m.Fault(max, inflate)
              case None => Ok(m.Body(max, inflate))
              case Some(e) => Err(e)
  {
    hide ListsToken;
    hide Lists;
    HeadersMean(m);
    hide Outgoing.KnownHeaders;
  }

  lemma AnyMatchLater(bytes: seq<Byte>, patterns: seq<string>, offset: nat, j: nat)
    requires AllAscii(patterns) && offset <= |bytes|
    ensures AnyMatch(bytes[offset..], patterns, j) <==> AnyMatch(bytes, patterns, offset + j)
  {
    forall k | 0 <= k < |patterns|
      ensures MatchAt(bytes[offset..], Ascii(patterns[k]), j) <==> MatchAt(bytes, Ascii(patterns[k]), offset + j)
    {
      var n := |patterns[k]|;
      assert j + n <= |bytes[offset..]| ==> bytes[offset..][j..j + n] == bytes[offset + j..offset + j + n];
    }
  }

  lemma StartsHere(response: bool, m: Outgoing)
    requires m.Starts(response)
    ensures StartsAt(response, m.noise + Ascii(m.startLine), |m.noise|)
  {
    var front, at := m.noise + Ascii(m.startLine), |m.noise|;
    assert front[at..at + |m.startLine|] == Ascii(m.startLine);
    assert StandsAt(front, m.startLine, at);
  }

  lemma OnlyHere(bytes: seq<Byte>, response: bool, m: Outgoing, offset: nat, j: nat)
    requires m.Starts(response) && MatchAt(bytes, m.noise + Ascii(m.startLine), offset) && j <= |m.noise|
    requires AllAscii(Patterns(response))
    ensures AnyMatch(bytes, Patterns(response), offset + j) <==> j == |m.noise|
  {
    var front := m.noise + Ascii(m.startLine);
    assert front <= bytes[offset..];
    PatternsEndInTheirOnlySpace(response);
    StartsHere(response, m);
    hide AnyMatch;
    hide Begins;
    hide StartsAt;
    hide Patterns;
    StartsIff(response, front, |m.noise|);
    StartsIff(response, front, j);
    AnyMatchStable(front, bytes[offset..], Patterns(response), |m.noise|, j);
    AnyMatchLater(bytes, Patterns(response), offset, j);
  }

  lemma StartFound(bytes: seq<Byte>, response: bool, m: Outgoing, offset: nat)
    requires m.Starts(response) && MatchAt(bytes, m.noise + Ascii(m.startLine), offset)
    requires AllAscii(Patterns(response))
    ensures FindStart(bytes, Patterns(response), offset) == Some(offset + |m.noise|)
  {
    hide AnyMatch;
    hide FindStart;
    hide Patterns;
    hide Outgoing.Starts;
    OnlyHere(bytes, response, m, offset, |m.noise|);
    var r := FindStart(bytes, Patterns(response), offset);
    if r.Some? && r.value < offset + |m.noise| {
      OnlyHere(bytes, response, m, offset, r.value - offset);
    }
  }

  lemma StartLineFirst(lines: seq<string>)
    requires lines != [] && AllPlain(lines)
    ensures IsAscii(Join(lines)) && |lines[0]| <= |Join(lines)| && Ascii(Join(lines)) == Ascii(lines[0]) + Ascii(Join(lines))[|lines[0]|..]
  {
    JoinIsAscii(lines);
  }

  lemma HeadRead(bytes: seq<Byte>, lines: seq<string>, start: nat)
    requires lines != [] && AllPlain(lines) && IsAscii(Join(lines))
    requires MatchAt(bytes, Ascii(Join(lines)) + HEADER_END, start)
    ensures Find(bytes, HEADER_END, start) == Some(start + |Join(lines)|)
    ensures Decode(bytes[start..start + |Join(lines)|]) == Some(Join(lines))
    ensures SplitLines(Join(lines)) == lines
  {
    JoinHasNoEmptyLine(lines);
    HeaderEndFound(bytes, Join(lines), start);
    DecodeAscii(Join(lines));
    SplitJoined(lines);
  }

  /** The turn of the message loop on a rendered message. */
  ghost function TurnOn(stream: ByteStream, max: nat, inflate: Inflate, m: Outgoing, start: nat, next: nat): Turn {
    match m.Fault(max, inflate)
    case None => Found(m.Expected(max, inflate, stream.TimestampFor(start)), next)
    case Some(e) => Fail(e)
  }

  lemma AfterHeadRead(stream: ByteStream, max: nat, inflate: Inflate, m: Outgoing, start: nat, headerEnd: nat, text: string)
    requires m.Sendable() && max <= USIZE_MAX && (m.Refused(max) ==> |stream.bytes| <= USIZE_MAX)
    requires start <= headerEnd <= |stream.bytes| - 4 && SplitLines(text) == [m.startLine] + m.Lines()
    requires MatchAt(stream.bytes, m.BodyBytes(), headerEnd + 4)
    ensures ReadAfter(stream, max, inflate, start, headerEnd, text) ==
              TurnOn(stream, max, inflate, m, start, headerEnd + 4 + |m.BodyBytes()|)
  {
    hide ReadBody;
    hide DecodeContent;
    hide SplitLines;
    hide AddHeaders;
    hide Outgoing.Gzipped;
    hide Outgoing.Body;
    hide Outgoing.Lines;
    hide Outgoing.Encoded;
    hide Outgoing.BodyBytes;
    hide Outgoing.KnownHeaders;
    assert SplitLines(text)[1..] == m.Lines();
    HeadersRead(m);
    BodyIsRead(m, stream.bytes, max, headerEnd + 4);
    if |m.Encoded()| <= max && !m.framing.Flawed? {
      ContentRead(m, max, inflate);
    }
  }

  ghost function Head(m: Outgoing): (head: string)
    requires m.Sendable()
    ensures IsAscii(head)
  {
    LinesArePlain(m);
    JoinIsAscii([m.startLine] + m.Lines());
    Join([m.startLine] + m.Lines())
  }

  ghost function Message(m: Outgoing): seq<Byte>
    requires m.Sendable()
  {
    Ascii(Head(m)) + [13, 10, 13, 10] + m.BodyBytes()
  }

  ghost function Render(m: Outgoing): seq<Byte>
    requires m.Sendable()
  {
    m.noise + Message(m)
  }

  lemma RenderedParts(m: Outgoing, bytes: seq<Byte>, offset: nat)
    requires m.Sendable() && MatchAt(bytes, Message(m), offset)
    ensures IsAscii(m.startLine) && MatchAt(bytes, Ascii(m.startLine), offset)
    ensures MatchAt(bytes, Ascii(Head(m)) + HEADER_END, offset)
    ensures MatchAt(bytes, m.BodyBytes(), offset + |Head(m)| + 4)
    ensures |Message(m)| == |Head(m)| + 4 + |m.BodyBytes()| && offset + |Message(m)| <= |bytes|
  {
    hide Join;
    LinesArePlain(m);
    StartLineFirst([m.startLine] + m.Lines());
    MatchParts(bytes, Ascii(Head(m)) + HEADER_END, m.BodyBytes(), offset);
    MatchParts(bytes, Ascii(Head(m)), HEADER_END, offset);
    MatchParts(bytes, Ascii(m.startLine), Ascii(Head(m))[|m.startLine|..], offset);
  }

  lemma MatchJoin<T>(s: seq<T>, a: seq<T>, b: seq<T>, i: nat)
    requires MatchAt(s, a, i) && MatchAt(s, b, i + |a|)
    ensures MatchAt(s, a + b, i)
  {
    assert s[i..i + |a + b|] == s[i..i + |a|] + s[i + |a|..i + |a| + |b|];
  }

  lemma NoiseFirst(m: Outgoing, bytes: seq<Byte>, offset: nat)
    requires m.Sendable() && MatchAt(bytes, Render(m), offset)
    ensures MatchAt(bytes, Message(m), offset + |m.noise|) && |Render(m)| == |m.noise| + |Message(m)|
    ensures IsAscii(m.startLine) && MatchAt(bytes, m.noise + Ascii(m.startLine), offset)
  {
    hide Message;
    hide Head;
    hide Outgoing.Sendable;
    var at, text := offset + |m.noise|, m.startLine;
    MatchParts(bytes, m.noise, Message(m), offset);
    RenderedParts(m, bytes, at);
    MatchJoin(bytes, m.noise, Ascii(text), offset);
  }

  lemma HeadOf(m: Outgoing, bytes: seq<Byte>, start: nat)
    requires m.Sendable() && MatchAt(bytes, Ascii(Head(m)) + HEADER_END, start)
    ensures Find(bytes, HEADER_END, start) == Some(start + |Head(m)|)
    ensures Decode(bytes[start..start + |Head(m)|]) == Some(Head(m))
    ensures SplitLines(Head(m)) == [m.startLine] + m.Lines()
  {
    hide Find;
    hide Decode;
    hide SplitLines;
    LinesArePlain(m);
    HeadRead(bytes, [m.startLine] + m.Lines(), start);
  }

  lemma FromRead(stream: ByteStream, max: nat, inflate: Inflate, start: nat, headerEnd: nat, text: string)
    requires start <= |stream.bytes| && Find(stream.bytes, HEADER_END, start) == Some(headerEnd)
    requires Decode(stream.bytes[start..headerEnd]) == Some(text)
    ensures ReadFrom(stream, max, inflate, start) == ReadAfter(stream, max, inflate, start, headerEnd, text)
  {
  }

  lemma TurnRead(stream: ByteStream, response: bool, max: nat, inflate: Inflate, offset: nat, m: Outgoing)
    requires m.Sendable() && m.Starts(response) && max <= USIZE_MAX
    requires m.Refused(max) ==> |stream.bytes| <= USIZE_MAX
    requires MatchAt(stream.bytes, Render(m), offset)
    ensures ReadMessage(stream, response, max, inflate, offset) ==
              TurnOn(stream, max, inflate, m, offset + |m.noise|, offset + |Render(m)|)
  {
    hide FindStart;
    hide Patterns;
    hide Decode;
    hide SplitLines;
    hide Outgoing.Starts;
    hide Outgoing.Fault;
    hide MatchAt;
    hide TurnOn;
    hide Outgoing.Lines;
    hide Outgoing.BodyBytes;
    hide Outgoing.Sendable;
    hide ReadFrom;
    hide ReadAfter;
    hide Find;
    hide Head;
    hide Render;
    hide Message;
    var start := offset + |m.noise|;
    NoiseFirst(m, stream.bytes, offset);
    RenderedParts(m, stream.bytes, start);
    HeadOf(m, stream.bytes, start);
    PatternsEndInTheirOnlySpace(response);
    StartFound(stream.bytes, response, m, offset);
    FromRead(stream, max, inflate, start, start + |Head(m)|, Head(m));
    AfterHeadRead(stream, max, inflate, m, start, start + |Head(m)|, Head(m));
  }

  lemma MessageRead(stream: ByteStream, response: bool, max: nat, inflate: Inflate, offset: nat, m: Outgoing)
    requires m.Sendable() && m.Supported(response, max, inflate)
    requires MatchAt(stream.bytes, Render(m), offset)
    ensures ReadMessage(stream, response, max, inflate, offset) ==
              Found(m.Expected(max, inflate, stream.TimestampFor(offset + |m.noise|)), offset + |Render(m)|)
  {
    hide ReadMessage;
    hide Render;
    hide Outgoing.Expected;
    hide Outgoing.Sendable;
    TurnRead(stream, response, max, inflate, offset, m);
  }

  // ---- Any number of messages ----

  ghost predicate AllSupported(ms: seq<Outgoing>, response: bool, max: nat, inflate: Inflate) {
    forall i :: 0 <= i < |ms| ==> ms[i].Sendable() && ms[i].Supported(response, max, inflate)
  }

  ghost function RenderAll(ms: seq<Outgoing>, response: bool, max: nat, inflate: Inflate): seq<Byte>
    requires AllSupported(ms, response, max, inflate)
  {
    if ms == [] then [] else Render(ms[0]) + RenderAll(ms[1..], response, max, inflate)
  }

  /** The messages that were sent, each with the capture time of its first byte. */
  ghost function ExpectedAll(stream: ByteStream, ms: seq<Outgoing>, response: bool, max: nat, inflate: Inflate, offset: nat): seq<HttpMessage>
    requires AllSupported(ms, response, max, inflate)
  {
    if ms == [] then []
    else [ms[0].Expected(max, inflate, stream.TimestampFor(offset + |ms[0].noise|))]
         + ExpectedAll(stream, ms[1..], response, max, inflate, offset + |Render(ms[0])|)
  }

  lemma ExtractOne(stream: ByteStream, response: bool, max: nat, inflate: Inflate, offset: nat, m: Outgoing)
    requires m.Sendable() && m.Supported(response, max, inflate)
    requires MatchAt(stream.bytes, Render(m), offset)
    ensures offset + |Render(m)| <= |stream.bytes|
    ensures Extract(stream, response, max, inflate, offset) ==
              Prepend([m.Expected(max, inflate, stream.TimestampFor(offset + |m.noise|))], Extract(stream, response, max, inflate, offset + |Render(m)|))
  {
    hide ReadMessage;
    hide Render;
    MessageRead(stream, response, max, inflate, offset, m);
  }

  /** Extraction reads rendered messages one after another and then continues with what follows them. */
  lemma {:induction false} ExtractRendered(stream: ByteStream, response: bool, max: nat, inflate: Inflate, offset: nat, ms: seq<Outgoing>)
    requires AllSupported(ms, response, max, inflate)
    requires MatchAt(stream.bytes, RenderAll(ms, response, max, inflate), offset)
    ensures Extract(stream, response, max, inflate, offset) ==
              Prepend(ExpectedAll(stream, ms, response, max, inflate, offset),
                Extract(stream, response, max, inflate, offset + |RenderAll(ms, response, max, inflate)|))
    decreases |ms|
  {
    hide Extract;
    hide Render;
    hide Outgoing.Expected;
    hide Outgoing.Supported;
    hide Outgoing.Sendable;
    var end := offset + |RenderAll(ms, response, max, inflate)|;
    var tail := Extract(stream, response, max, inflate, end);
    if ms == [] {
      assert tail.Ok? ==> [] + tail.value == tail.value;
    } else {
      MatchParts(stream.bytes, Render(ms[0]), RenderAll(ms[1..], response, max, inflate), offset);
      ExtractOne(stream, response, max, inflate, offset, ms[0]);
      var next := offset + |Render(ms[0])|;
      ExtractRendered(stream, response, max, inflate, next, ms[1..]);
      PrependTwice([ms[0].Expected(max, inflate, stream.TimestampFor(offset + |ms[0].noise|))],
        ExpectedAll(stream, ms[1..], response, max, inflate, next), tail);
    }
  }

  lemma QuietEnd(stream: ByteStream, response: bool, max: nat, inflate: Inflate, offset: nat)
    requires offset <= |stream.bytes| && forall j: nat :: !StartsAt(response, stream.bytes[offset..], j)
    ensures Extract(stream, response, max, inflate, offset) == Ok([])
  {
    hide StartsAt;
    hide AnyMatch;
    hide FindStart;
    hide Patterns;
    PatternsEndInTheirOnlySpace(response);
    var found := FindStart(stream.bytes, Patterns(response), offset);
    if found.Some? {
      StartsIff(response, stream.bytes[offset..], found.value - offset);
      AnyMatchLater(stream.bytes, Patterns(response), offset, found.value - offset);
    }
  }

  /** Rendering any list of messages and extracting them gives back exactly that list, whatever bytes of no message stand
      between and behind them. */
  lemma RoundTrip(stream: ByteStream, response: bool, max: nat, inflate: Inflate, ms: seq<Outgoing>, rest: seq<Byte>)
    requires AllSupported(ms, response, max, inflate) && stream.bytes == RenderAll(ms, response, max, inflate) + rest
    requires forall j: nat :: !StartsAt(response, rest, j)
    ensures Extract(stream, response, max, inflate, 0) == Ok(ExpectedAll(stream, ms, response, max, inflate, 0))
  {
    hide Outgoing.Supported;
    hide Outgoing.Sendable;
    hide Outgoing.Expected;
    hide AllSupported;
    hide Render;
    hide ReadMessage;
    var sent := RenderAll(ms, response, max, inflate);
    assert stream.bytes[0..|sent|] == sent && stream.bytes[|sent|..] == rest;
    ExtractRendered(stream, response, max, inflate, 0, ms);
    QuietEnd(stream, response, max, inflate, |sent|);
    var all := ExpectedAll(stream, ms, response, max, inflate, 0);
    assert all + [] == all;
  }

  /** A header section that is no text ends the extraction with that error. */
  lemma HeaderMustBeText(
    stream: ByteStream, response: bool, max: nat, inflate: Inflate, ms: seq<Outgoing>, head: seq<Byte>, rest: seq<Byte>)
    requires AllSupported(ms, response, max, inflate) && StartsAt(response, head, 0)
    requires stream.bytes == RenderAll(ms, response, max, inflate) + (head + [13, 10, 13, 10]) + rest
    requires Decode(head) == None && forall j: nat :: j < |head| ==> !MatchAt(head + [13, 10, 13, 10], [13, 10, 13, 10], j)
    ensures Extract(stream, response, max, inflate, 0) == Err(HeaderNotText)
  {
    hide Outgoing.Supported;
    hide Outgoing.Sendable;
    hide Outgoing.Expected;
    hide AllSupported;
    hide Render;
    hide ReadMessage;
    var sent := RenderAll(ms, response, max, inflate);
    Placed(sent, head + HEADER_END, rest);
    ExtractRendered(stream, response, max, inflate, 0, ms);
    UnreadableHead(stream, response, max, inflate, |sent|, head);
  }

  lemma HeadEndsHere(bytes: seq<Byte>, head: seq<Byte>, offset: nat)
    requires MatchAt(bytes, head + HEADER_END, offset)
    requires forall j: nat :: j < |head| ==> !MatchAt(head + HEADER_END, HEADER_END, j)
    ensures Find(bytes, HEADER_END, offset) == Some(offset + |head|) && bytes[offset..offset + |head|] == head
  {
    MatchParts(bytes, head, HEADER_END, offset);
    forall j | offset <= j < offset + |head| ensures !MatchAt(bytes, HEADER_END, j) {
      SliceOfSlice(bytes, offset, offset + |head| + 4, j - offset, j - offset + 4);
      assert !MatchAt(head + HEADER_END, HEADER_END, j - offset);
    }
  }

  lemma HeadStartsHere(bytes: seq<Byte>, response: bool, head: seq<Byte>, offset: nat)
    requires StartsAt(response, head, 0) && MatchAt(bytes, head, offset) && AllAscii(Patterns(response))
    ensures FindStart(bytes, Patterns(response), offset) == Some(offset)
  {
    hide StartsAt;
    hide AnyMatch;
    hide FindStart;
    hide Patterns;
    PatternsEndInTheirOnlySpace(response);
    assert head <= bytes[offset..];
    StartsIff(response, head, 0);
    AnyMatchStable(head, bytes[offset..], Patterns(response), 0, 0);
    AnyMatchLater(bytes, Patterns(response), offset, 0);
  }

  lemma UnreadableHead(stream: ByteStream, response: bool, max: nat, inflate: Inflate, offset: nat, head: seq<Byte>)
    requires StartsAt(response, head, 0) && MatchAt(stream.bytes, head + HEADER_END, offset)
    requires Decode(head) == None && forall j: nat :: j < |head| ==> !MatchAt(head + HEADER_END, HEADER_END, j)
    ensures offset < |stream.bytes| && ReadMessage(stream, response, max, inflate, offset) == Fail(HeaderNotText)
  {
    hide StartsAt;
    hide FindStart;
    hide Patterns;
    hide Decode;
    hide ReadAfter;
    hide Find;
    PatternsEndInTheirOnlySpace(response);
    HeadEndsHere(stream.bytes, head, offset);
    MatchParts(stream.bytes, head, HEADER_END, offset);
    HeadStartsHere(stream.bytes, response, head, offset);
  }

  /** Behind any messages, the first one whose body is at fault decides the outcome, whatever follows it. */
  lemma FirstFault(stream: ByteStream, response: bool, max: nat, inflate: Inflate, ms: seq<Outgoing>, m: Outgoing, rest: seq<Byte>)
    requires AllSupported(ms, response, max, inflate) && m.Sendable() && m.Starts(response)
    requires max <= USIZE_MAX && m.Fault(max, inflate).Some?
    requires stream.bytes == RenderAll(ms, response, max, inflate) + Render(m) + rest && |stream.bytes| <= USIZE_MAX
    ensures Extract(stream, response, max, inflate, 0) == Err(m.Fault(max, inflate).value)
  {
    hide Render;
    hide ReadMessage;
    hide Outgoing.Sendable;
    hide Outgoing.Fault;
    hide AllSupported;
    hide Outgoing.Starts;
    var sent := RenderAll(ms, response, max, inflate);
    Placed(sent, Render(m), rest);
    NoiseFirst(m, stream.bytes, |sent|);
    RenderedParts(m, stream.bytes, |sent| + |m.noise|);
    TurnRead(stream, response, max, inflate, |sent|, m);
    ExtractRendered(stream, response, max, inflate, 0, ms);
  }

  /** What is left of a cut message gives no message. */
  lemma CutMessageStops(stream: ByteStream, response: bool, max: nat, inflate: Inflate, sent: seq<Byte>, m: Outgoing, k: nat)
    requires m.Sendable() && m.Supported(response, max, inflate) && k < |Render(m)|
    requires stream.bytes == sent + Render(m)[..k] && (stream.bytes != [] ==> stream.marks != [])
    ensures ReadMessage(stream, response, max, inflate, |sent|) == Stop
  {
    hide Render;
    hide ReadMessage;
    hide Outgoing.Expected;
    hide Outgoing.Supported;
    var whole := ByteStream(sent + Render(m), stream.marks);
    assert whole.bytes[|sent|..|sent| + |Render(m)|] == Render(m);
    MessageRead(whole, response, max, inflate, |sent|, m);
    assert Render(m)[..k] <= Render(m);
    if ReadMessage(stream, response, max, inflate, |sent|) != Stop {
      ReadMessageStable(stream, whole, response, max, inflate, |sent|);
    }
  }

  /** A capture that stops inside a message gives exactly the messages before it. */
  lemma CutCapture(stream: ByteStream, response: bool, max: nat, inflate: Inflate, ms: seq<Outgoing>, m: Outgoing, k: nat)
    requires AllSupported(ms, response, max, inflate) && m.Sendable() && m.Supported(response, max, inflate)
    requires k < |Render(m)| && stream.bytes == RenderAll(ms, response, max, inflate) + Render(m)[..k]
    requires stream.bytes != [] ==> stream.marks != []
    ensures Extract(stream, response, max, inflate, 0) == Ok(ExpectedAll(stream, ms, response, max, inflate, 0))
  {
    hide Render;
    hide ReadMessage;
    hide Outgoing.Supported;
    hide Outgoing.Sendable;
    hide AllSupported;
    var sent := RenderAll(ms, response, max, inflate);
    CutMessageStops(stream, response, max, inflate, sent, m, k);
    assert stream.bytes[0..|sent|] == sent;
    ExtractRendered(stream, response, max, inflate, 0, ms);
    var all := ExpectedAll(stream, ms, response, max, inflate, 0);
    assert all + [] == all;
  }
}
