/** Extraction of HTTP/1.1 messages from a captured byte stream (sections 6.3 and 7.1 of RFC 9112). */
module Http {
  import opened Prelude
  import opened Text
  import opened Reassembly
  import opened Utf8

  const USIZE_MAX: nat := 0xFFFF_FFFF_FFFF_FFFF

  const CRLF: seq<Byte> := [13, 10]
  const HEADER_END: seq<Byte> := [13, 10, 13, 10]

  datatype Error =
    | HeaderNotText | BodyTooLarge | ChunkSizeNotText | InvalidChunkSize | MissingTerminator | BadContentCoding

  type Headers = map<string, string>

  datatype HttpMessage = HttpMessage(
    timestampMs: nat, startLine: string, headers: Headers, body: seq<Byte>, encodedBodyBytes: nat)

  const REQUEST_PATTERNS: seq<string> := ["POST ", "PUT ", "PATCH ", "GET ", "DELETE "]
  const RESPONSE_PATTERNS: seq<string> := ["HTTP/1.1 ", "HTTP/1.0 "]

  function Patterns(response: bool): seq<string> {
    if response then RESPONSE_PATTERNS else REQUEST_PATTERNS
  }

  /** A pattern is text that ends in its only space. */
  predicate EndsInItsOnlySpace(pattern: string) {
    && IsAscii(pattern) && pattern != [] && pattern[|pattern| - 1] == ' '
    && forall i :: 0 <= i < |pattern| - 1 ==> pattern[i] != ' '
  }

  predicate AllAscii(patterns: seq<string>) {
    forall k :: 0 <= k < |patterns| ==> IsAscii(patterns[k])
  }

  lemma PatternsEndInTheirOnlySpace(response: bool)
    ensures forall k :: 0 <= k < |Patterns(response)| ==> EndsInItsOnlySpace(Patterns(response)[k])
    ensures AllAscii(Patterns(response))
  {
  }

  predicate AnyMatch(bytes: seq<Byte>, patterns: seq<string>, i: nat)
    requires AllAscii(patterns)
  {
    exists k :: 0 <= k < |patterns| && MatchAt(bytes, Ascii(patterns[k]), i)
  }

  lemma AnyMatchStep(bytes: seq<Byte>, patterns: seq<string>, i: nat)
    requires AllAscii(patterns) && patterns != []
    ensures AnyMatch(bytes, patterns, i) == (MatchAt(bytes, Ascii(patterns[0]), i) || AnyMatch(bytes, patterns[1..], i))
  {
    forall k | 0 < k < |patterns| ensures patterns[k] == patterns[1..][k - 1] {
    }
  }

  /** The least start of any of the patterns at or after offset. */
  function FindStart(bytes: seq<Byte>, patterns: seq<string>, offset: nat): (r: Option<nat>)
    requires offset <= |bytes| && AllAscii(patterns)
    ensures r.Some? ==> offset <= r.value <= |bytes| && AnyMatch(bytes, patterns, r.value)
    ensures forall j :: offset <= j && (r.Some? ==> j < r.value) ==> !AnyMatch(bytes, patterns, j)
  {
    if patterns == [] then None
    else
      var here := Find(bytes, Ascii(patterns[0]), offset);
      var rest := FindStart(bytes, patterns[1..], offset);
      var r := if here.None? then rest
               else if rest.None? || here.value <= rest.value then here
               else rest;
      assert forall j: nat ::
        AnyMatch(bytes, patterns, j) == (MatchAt(bytes, Ascii(patterns[0]), j) || AnyMatch(bytes, patterns[1..], j)) by {
        forall j: nat { AnyMatchStep(bytes, patterns, j); }
      }
      r
  }

  /** Pieces between occurrences of a line end. */
  function SplitLines(s: string): (r: seq<string>)
    ensures |r| > 0
    decreases |s|
  {
    match Find(s, "\r\n", 0)
    case None => [s]
    case Some(i) => [s[..i]] + SplitLines(s[i + 2..])
  }

  predicate Tracked(name: string) {
    name == "content-length" || name == "transfer-encoding" || name == "content-encoding" || name == "content-type"
  }

  function AddHeader(headers: Headers, line: string): Headers {
    match SplitOnce(line, ':')
    case None => headers
    case Some((name, value)) =>
      if Tracked(ToLower(Trim(name))) then headers[ToLower(Trim(name)) := ToLower(Trim(value))] else headers
  }

  function AddHeaders(headers: Headers, lines: seq<string>): Headers
    decreases |lines|
  {
    if lines == [] then headers else AddHeaders(AddHeader(headers, lines[0]), lines[1..])
  }

  predicate ListsToken(value: string, token: string) {
    exists part <- Split(value, ',') :: Trim(part) == token
  }

  predicate IsChunked(headers: Headers) {
    "transfer-encoding" in headers && ListsToken(headers["transfer-encoding"], "chunked")
  }

  function ContentLength(headers: Headers): nat {
    if "content-length" in headers then
      match ParseUnsigned(headers["content-length"], USIZE_MAX)
      case None => 0
      case Some(n) => n
    else 0
  }

  predicate IsHexText(s: string) {
    forall i :: 0 <= i < |s| ==> IsHexDigit(s[i])
  }

  function HexNumber(s: string): nat
    requires IsHexText(s)
  {
    if s == [] then 0 else HexNumber(s[..|s| - 1]) * 16 + HexValue(s[|s| - 1])
  }

  /** usize::from_str_radix with radix 16. */
  function ParseHex(s: string): Option<nat> {
    var digits := if s != [] && s[0] == '+' then s[1..] else s;
    if digits != [] && IsHexText(digits) && HexNumber(digits) <= USIZE_MAX
    then Some(HexNumber(digits)) else None
  }

  datatype Chunk = Incomplete | Broken(error: Error) | Last(end: nat) | Data(bytes: seq<Byte>, next: nat)

  /** What follows a chunk-size line that ends just before data. */
  function AfterSize(bytes: seq<Byte>, room: nat, data: nat, size: nat): (r: Chunk)
    requires data <= |bytes|
    ensures r.Data? ==> data < r.next <= |bytes| && |r.bytes| <= room && r.bytes != []
    ensures r.Last? ==> data < r.end <= |bytes|
  {
    if size == 0 then
      match Find(bytes, CRLF, data)
      case None => Incomplete
      case Some(trailerEnd) => Last(trailerEnd + 2)
    else if size > room then Broken(BodyTooLarge)
    else if |bytes| < data + size + 2 then Incomplete
    else if bytes[data + size..data + size + 2] != CRLF then Broken(MissingTerminator)
    else Data(bytes[data..data + size], data + size + 2)
  }

  function AfterLine(bytes: seq<Byte>, room: nat, data: nat, size: Result<nat, Error>): (r: Chunk)
    requires data <= |bytes|
    ensures r.Data? ==> data < r.next <= |bytes| && |r.bytes| <= room && r.bytes != []
    ensures r.Last? ==> data < r.end <= |bytes|
  {
    match size
    case Err(e) => Broken(e)
    case Ok(n) => AfterSize(bytes, room, data, n)
  }

  function ChunkSize(line: seq<Byte>): Result<nat, Error> {
    match Decode(line)
    case None => Err(ChunkSizeNotText)
    case Some(text) =>
      match ParseHex(Trim(Split(text, ';')[0]))
      case None => Err(InvalidChunkSize)
      case Some(size) => Ok(size)
  }

  /** One turn of the chunk loop. */
  function ReadChunk(bytes: seq<Byte>, room: nat, offset: nat): (r: Chunk)
    requires offset <= |bytes|
    ensures r.Data? ==> offset < r.next <= |bytes| && |r.bytes| <= room && r.bytes != []
    ensures r.Last? ==> offset < r.end <= |bytes|
  {
    match Find(bytes, CRLF, offset)
    case None => Incomplete
    case Some(lineEnd) =>
      AfterLine(bytes, room, lineEnd + 2, ChunkSize(bytes[offset..lineEnd]))
  }

  function Room(max: nat, used: nat): nat {
    if max < used then 0 else max - used
  }

  /** The rest of a chunked body: Ok(None) when more bytes are needed. */
  function Dechunk(bytes: seq<Byte>, max: nat, offset: nat, decoded: seq<Byte>): Result<Option<(seq<Byte>, nat)>, Error>
    requires offset <= |bytes|
    decreases |bytes| - offset
  {
    match ReadChunk(bytes, Room(max, |decoded|), offset)
    case Incomplete => Ok(None)
    case Broken(e) => Err(e)
    case Last(end) => Ok(Some((decoded, end)))
    case Data(data, next) => Dechunk(bytes, max, next, decoded + data)
  }

  method DecodeChunked(bytes: seq<Byte>, max: nat) returns (r: Result<Option<(seq<Byte>, nat)>, Error>)
    ensures r == Dechunk(bytes, max, 0, [])
  {
    var decoded: seq<Byte> := [];
    var offset: nat := 0;
    while true
      invariant 0 <= offset <= |bytes| && Dechunk(bytes, max, offset, decoded) == Dechunk(bytes, max, 0, [])
      decreases |bytes| - offset
    {
      var turn := ReadChunk(bytes, Room(max, |decoded|), offset);
      match turn {
        case Incomplete => return Ok(None);
        case Broken(e) => return Err(e);
        case Last(end) => return Ok(Some((decoded, end)));
        case Data(data, next) =>
          decoded := decoded + data;
          offset := next;
      }
    }
  }

  /** Decompression as a given function: at most the stated number of bytes, or None for corrupt input. */
  type Inflate = (seq<Byte>, nat) -> Option<seq<Byte>>

  function DecodeContent(bytes: seq<Byte>, headers: Headers, max: nat, inflate: Inflate): Result<seq<Byte>, Error> {
    if !("content-encoding" in headers && ListsToken(headers["content-encoding"], "gzip")) then Ok(bytes)
    else
      match inflate(bytes, max + 1)
      case None => Err(BadContentCoding)
      case Some(output) => if |output| > max then Err(BodyTooLarge) else Ok(output)
  }

  datatype Body = NeedsMore | BadBody(error: Error) | Encoded(bytes: seq<Byte>, consumed: nat)

  function ReadBody(bytes: seq<Byte>, headers: Headers, max: nat, start: nat): (r: Body)
    requires start <= |bytes|
    ensures r.Encoded? ==> start + r.consumed <= |bytes|
  {
    if IsChunked(headers) then
      match Dechunk(bytes[start..], max, 0, [])
      case Err(e) => BadBody(e)
      case Ok(None) => NeedsMore
      case Ok(Some((decoded, consumed))) =>
        DechunkStaysInside(bytes[start..], max, 0, []);
        Encoded(decoded, consumed)
    else
      var length := ContentLength(headers);
      if length > max then BadBody(BodyTooLarge)
      else if |bytes| - start < length then NeedsMore
      else Encoded(bytes[start..start + length], length)
  }

  lemma {:induction false} DechunkStaysInside(bytes: seq<Byte>, max: nat, offset: nat, decoded: seq<Byte>)
    requires offset <= |bytes|
    ensures var r := Dechunk(bytes, max, offset, decoded);
            r.Ok? && r.value.Some? ==> offset < r.value.value.1 <= |bytes|
    decreases |bytes| - offset
  {
    match ReadChunk(bytes, Room(max, |decoded|), offset)
    case Data(data, next) => DechunkStaysInside(bytes, max, next, decoded + data);
    case _ =>
  }

  datatype Turn = Stop | Fail(error: Error) | Found(message: HttpMessage, next: nat)

  /** The message whose header section spans start..headerEnd. */
  function ReadAfter(stream: ByteStream, max: nat, inflate: Inflate, start: nat, headerEnd: nat, text: string): (r: Turn)
    requires start <= headerEnd <= |stream.bytes| - 4
    ensures r.Found? ==> headerEnd < r.next <= |stream.bytes|
  {
    var lines := SplitLines(text);
    var headers := AddHeaders(map[], lines[1..]);
    match ReadBody(stream.bytes, headers, max, headerEnd + 4)
    case NeedsMore => Stop
    case BadBody(e) => Fail(e)
    case Encoded(encoded, consumed) =>
      match DecodeContent(encoded, headers, max, inflate)
      case Err(e) => Fail(e)
      case Ok(body) =>
        Found(HttpMessage(stream.TimestampFor(start), lines[0], headers, body, |encoded|), headerEnd + 4 + consumed)
  }

  /** The message that starts at start. */
  function ReadFrom(stream: ByteStream, max: nat, inflate: Inflate, start: nat): (r: Turn)
    requires start <= |stream.bytes|
    ensures r.Found? ==> start < r.next <= |stream.bytes|
  {
    match Find(stream.bytes, HEADER_END, start)
    case None => Stop
    case Some(headerEnd) =>
      match Decode(stream.bytes[start..headerEnd])
      case None => Fail(HeaderNotText)
      case Some(text) => ReadAfter(stream, max, inflate, start, headerEnd, text)
  }

  /** One turn of the message loop. */
  function ReadMessage(stream: ByteStream, response: bool, max: nat, inflate: Inflate, offset: nat): (r: Turn)
    requires offset <= |stream.bytes|
    ensures r.Found? ==> offset < r.next <= |stream.bytes|
  {
    PatternsEndInTheirOnlySpace(response);
    match FindStart(stream.bytes, Patterns(response), offset)
    case None => Stop
    case Some(start) => ReadFrom(stream, max, inflate, start)
  }

  function Prepend(messages: seq<HttpMessage>, r: Result<seq<HttpMessage>, Error>): Result<seq<HttpMessage>, Error> {
    match r
    case Err(e) => Err(e)
    case Ok(rest) => Ok(messages + rest)
  }

  lemma PrependTwice(a: seq<HttpMessage>, b: seq<HttpMessage>, r: Result<seq<HttpMessage>, Error>)
    ensures Prepend(a, Prepend(b, r)) == Prepend(a + b, r)
  {
    if r.Ok? {
      assert a + (b + r.value) == a + b + r.value;
    }
  }

  function Extract(stream: ByteStream, response: bool, max: nat, inflate: Inflate, offset: nat): Result<seq<HttpMessage>, Error>
    requires offset <= |stream.bytes|
    decreases |stream.bytes| - offset
  {
    if offset == |stream.bytes| then Ok([])
    else
      match ReadMessage(stream, response, max, inflate, offset)
      case Stop => Ok([])
      case Fail(e) => Err(e)
      case Found(message, next) => Prepend([message], Extract(stream, response, max, inflate, next))
  }

  method ParseHttpMessages(stream: ByteStream, response: bool, max: nat, inflate: Inflate)
    returns (r: Result<seq<HttpMessage>, Error>)
    ensures r == Extract(stream, response, max, inflate, 0)
  {
    var messages: seq<HttpMessage> := [];
    var offset: nat := 0;
    ghost var all := Extract(stream, response, max, inflate, 0);
    assert all.Ok? ==> [] + all.value == all.value;
    while offset < |stream.bytes|
      invariant offset <= |stream.bytes|
      invariant Extract(stream, response, max, inflate, 0) == Prepend(messages, Extract(stream, response, max, inflate, offset))
    {
      var turn := ReadMessage(stream, response, max, inflate, offset);
      match turn {
        case Stop => break;
        case Fail(e) => return Err(e);
        case Found(message, next) =>
          PrependTwice(messages, [message], Extract(stream, response, max, inflate, next));
          messages := messages + [message];
          offset := next;
      }
    }
    assert messages + [] == messages;
    r := Ok(messages);
  }
}
