/** A published image's URL: printed by the publisher, passed on by the relay, parsed and served by the gateway. */
module SignedUrl {
  import opened Prelude
  import opened Text
  import opened RelayLib
  import opened DataUri

  const U64_MAX: nat := 0xFFFF_FFFF_FFFF_FFFF
  const MAX_IMAGE_BYTES: nat := 20 * 1024 * 1024

  /** SHA-256 and HMAC-SHA-256 as given functions. */
  datatype Crypto = Crypto(hash: seq<Byte> -> seq<Byte>, mac: (seq<Byte>, string) -> seq<Byte>)

  /** Digests and codes are 32 bytes. */
  ghost predicate Sound(crypto: Crypto) {
    && (forall bytes: seq<Byte> :: |crypto.hash(bytes)| == 32)
    && (forall key: seq<Byte>, message: string :: |crypto.mac(key, message)| == 32)
  }

  /** No cached file has the digest of bytes but bytes itself. Digests do collide somewhere; what is asked is that they
      do not among these contents. */
  predicate NoCollision(crypto: Crypto, files: map<string, seq<Byte>>, bytes: seq<Byte>) {
    forall name :: name in files && crypto.hash(files[name]) == crypto.hash(bytes) ==> files[name] == bytes
  }

  // ---- Hexadecimal text ----

  function HexEncode(bytes: seq<Byte>): (s: string)
    ensures |s| == 2 * |bytes| && forall i :: 0 <= i < |s| ==> IsHexDigit(s[i])
  {
    if bytes == [] then "" else [HexChar(bytes[0] / 16), HexChar(bytes[0] % 16)] + HexEncode(bytes[1..])
  }

  function HexDecode(s: string): Option<seq<Byte>> {
    if s == "" then Some([])
    else if |s| == 1 || !IsHexDigit(s[0]) || !IsHexDigit(s[1]) then None
    else
      match HexDecode(s[2..])
      case None => None
      case Some(rest) => Some([HexValue(s[0]) * 16 + HexValue(s[1])] + rest)
  }

  lemma {:induction false} HexRoundTrip(bytes: seq<Byte>)
    ensures HexDecode(HexEncode(bytes)) == Some(bytes)
  {
    if bytes != [] {
      assert HexEncode(bytes)[2..] == HexEncode(bytes[1..]);
      HexRoundTrip(bytes[1..]);
      assert bytes == [bytes[0]] + bytes[1..];
    }
  }

  lemma HexInjective(a: seq<Byte>, b: seq<Byte>)
    requires HexEncode(a) == HexEncode(b)
    ensures a == b
  {
    HexRoundTrip(a);
    HexRoundTrip(b);
  }

  // ---- The publisher ----

  function ExtensionForMime(mime: string): (extension: string)
    ensures ImageExtension(extension)
  {
    if mime == "image/jpeg" then "jpg"
    else if mime == "image/webp" then "webp"
    else if mime == "image/gif" then "gif"
    else "png"
  }

  function FileName(crypto: Crypto, bytes: seq<Byte>, extension: string): string {
    HexEncode(crypto.hash(bytes)) + "." + extension
  }

  function SignedText(filename: string, expires: nat): string {
    filename + "\n" + Decimal(expires)
  }

  function Signature(crypto: Crypto, key: seq<Byte>, filename: string, expires: nat): string {
    HexEncode(crypto.mac(key, SignedText(filename, expires)))
  }

  function SaturatingAdd(a: nat, b: nat): nat {
    if a + b > U64_MAX then U64_MAX else a + b
  }

  function TrimSlashes(url: string): string {
    if url != "" && url[|url| - 1] == '/' then TrimSlashes(url[..|url| - 1]) else url
  }

  /** Every cached file is named after the digest of its bytes. */
  ghost predicate Addressed(crypto: Crypto, files: map<string, seq<Byte>>) {
    forall name :: name in files ==> exists extension :: '.' !in extension && name == FileName(crypto, files[name], extension)
  }

  /** The cache after publishing: a file that is already there is left as it is. */
  function Cached(files: map<string, seq<Byte>>, filename: string, bytes: seq<Byte>): (after: map<string, seq<Byte>>)
    ensures filename in after && after - {filename} == files - {filename}
    ensures after[filename] == bytes <==> (filename in files ==> files[filename] == bytes)
    ensures filename in files ==> after[filename] == files[filename]
  {
    if filename in files then files else files[filename := bytes]
  }

  class ImagePublisher {
    const crypto: Crypto
    const baseUrl: string
    const key: seq<Byte>
    const ttl: nat
    var files: map<string, seq<Byte>>

    /** An unusable setting is reported instead. */
    static method New(crypto: Crypto, baseUrl: string, key: seq<Byte>, ttl: nat, files: map<string, seq<Byte>>)
      returns (r: Result<ImagePublisher, string>)
      ensures r.Ok? <==> "https://" <= baseUrl && 1 <= ttl <= 86400 && |key| >= 32
      ensures r.Ok? ==> fresh(r.value) && r.value.files == files && r.value.key == key && r.value.ttl == ttl
                        && r.value.crypto == crypto && r.value.baseUrl == TrimSlashes(baseUrl)
    {
      if !("https://" <= baseUrl) {
        return Err("--image-base-url must use https://");
      }
      if !(1 <= ttl <= 86400) {
        return Err("--image-url-ttl-seconds must be between 1 and 86400");
      }
      if |key| < 32 {
        return Err("image signing key must contain at least 32 bytes");
      }
      var publisher := new ImagePublisher(crypto, TrimSlashes(baseUrl), key, ttl, files);
      return Ok(publisher);
    }

    constructor (crypto: Crypto, baseUrl: string, key: seq<Byte>, ttl: nat, files: map<string, seq<Byte>>)
      ensures this.crypto == crypto && this.baseUrl == baseUrl && this.key == key && this.ttl == ttl && this.files == files
    {
      this.crypto, this.baseUrl, this.key, this.ttl, this.files := crypto, baseUrl, key, ttl, files;
    }

    /** The file under the printed name holds the published bytes afterwards if and only if the name was free or already
        held them; no other file changes, and the URL is printed in any case. */
    method PublishBytes(bytes: seq<Byte>, extension: string, now: nat) returns (url: string)
      modifies this`files
      ensures files == Cached(old(files), FileName(crypto, bytes, extension), bytes)
      ensures var name := FileName(crypto, bytes, extension);
              && name in files && files - {name} == old(files) - {name}
              && (files[name] == bytes <==> (name in old(files) ==> old(files)[name] == bytes))
      ensures url == PublishedUrl(crypto, key, baseUrl, FileName(crypto, bytes, extension),
                       if now + ttl < 18446744073709551615 then now + ttl else 18446744073709551615)
    {
      hide FileName;
      hide Signature;
      hide Decimal;
      var filename := FileName(crypto, bytes, extension);
      if filename !in files {
        files := files[filename := bytes];
      }
      var expires := SaturatingAdd(now, ttl);
      var signature := Signature(crypto, key, filename, expires);
      url := baseUrl + "/image/" + filename + "?expires=" + Decimal(expires) + "&sig=" + signature;
      assert url == baseUrl + ImagePath(filename, Decimal(expires), signature);
    }
  }

  function PublishedUrl(crypto: Crypto, key: seq<Byte>, baseUrl: string, filename: string, expires: nat): string {
    baseUrl + ImagePath(filename, Decimal(expires), Signature(crypto, key, filename, expires))
  }

  lemma ExtensionHasNoDot(extension: string)
    requires ImageExtension(extension)
    ensures '.' !in extension
  {
  }

  lemma NameParts(crypto: Crypto, bytes: seq<Byte>, extension: string)
    ensures SplitOnce(FileName(crypto, bytes, extension), '.') == Some((HexEncode(crypto.hash(bytes)), extension))
  {
    var digest := HexEncode(crypto.hash(bytes));
    assert '.' !in digest;
    assert FileName(crypto, bytes, extension) == digest + ['.'] + extension;
    SplitOnceJoin(digest, '.', extension);
  }

  /** Publishing keeps every file named after its own digest. */
  lemma AddressedStays(crypto: Crypto, files: map<string, seq<Byte>>, bytes: seq<Byte>, extension: string)
    requires Addressed(crypto, files) && ImageExtension(extension)
    ensures Addressed(crypto, Cached(files, FileName(crypto, bytes, extension), bytes))
  {
    hide FileName;
    var filename := FileName(crypto, bytes, extension);
    var after := Cached(files, filename, bytes);
    ExtensionHasNoDot(extension);
    forall name | name in after ensures exists e :: '.' !in e && name == FileName(crypto, after[name], e) {
      if name in files {
        assert after[name] == files[name];
      } else {
        assert '.' !in extension && name == FileName(crypto, after[name], extension);
      }
    }
  }

  /** In a cache of files named after their digests, and without a collision, the printed name holds the published bytes
      whatever was there before. */
  lemma AddressedHolds(crypto: Crypto, files: map<string, seq<Byte>>, bytes: seq<Byte>, extension: string)
    requires Addressed(crypto, files) && NoCollision(crypto, files, bytes)
    ensures Cached(files, FileName(crypto, bytes, extension), bytes)[FileName(crypto, bytes, extension)] == bytes
  {
    var name := FileName(crypto, bytes, extension);
    if name in files {
      var e :| '.' !in e && name == FileName(crypto, files[name], e);
      NameParts(crypto, bytes, extension);
      NameParts(crypto, files[name], e);
      HexInjective(crypto.hash(bytes), crypto.hash(files[name]));
    }
  }

  // ---- The gateway ----

  datatype Response = Response(status: nat, contentType: string, body: seq<Byte>, headOnly: bool)

  const MAX_REQUEST_BYTES: nat := 16 * 1024
  const REQUEST_END: seq<Byte> := [13, 10, 13, 10]

  function Received(chunks: seq<seq<Byte>>): seq<Byte> {
    if chunks == [] then [] else Received(chunks[..|chunks| - 1]) + chunks[|chunks| - 1]
  }

  predicate Complete(buffer: seq<Byte>) {
    Find(buffer, REQUEST_END, 0).Some?
  }

  lemma CompleteIff(buffer: seq<Byte>)
    ensures Complete(buffer) <==> Contains(buffer, [13, 10, 13, 10])
  {
    if Contains(buffer, [13, 10, 13, 10]) {
      var i: nat :| MatchAt(buffer, [13, 10, 13, 10], i);
    }
  }

  /** Reads chunk after chunk until an empty line is in the buffer, the peer stops, or too much came without one. */
  method ReadRequest(chunks: seq<seq<Byte>>) returns (buffer: seq<Byte>, tooLarge: bool, n: nat)
    ensures n <= |chunks| && buffer == Received(chunks[..n])
    ensures forall k :: 0 <= k < n ==> !Contains(Received(chunks[..k]), [13, 10, 13, 10]) && |Received(chunks[..k])| < 16384
    ensures tooLarge <==> !Contains(buffer, [13, 10, 13, 10]) && |buffer| >= 16384
    ensures Contains(buffer, [13, 10, 13, 10]) || tooLarge || n == |chunks|
  {
    hide Contains;
    buffer, tooLarge, n := [], false, 0;
    CompleteIff(buffer);
    while !Complete(buffer)
      invariant n <= |chunks| && buffer == Received(chunks[..n]) && !tooLarge
      invariant Complete(buffer) <==> Contains(buffer, [13, 10, 13, 10])
      invariant forall k :: 0 <= k < n ==> !Contains(Received(chunks[..k]), [13, 10, 13, 10]) && |Received(chunks[..k])| < 16384
      decreases |chunks| - n
    {
      if |buffer| >= MAX_REQUEST_BYTES {
        tooLarge := true;
        return;
      }
      if n == |chunks| {
        return;
      }
      assert chunks[..n + 1][..n] == chunks[..n];
      buffer := buffer + chunks[n];
      n := n + 1;
      CompleteIff(buffer);
    }
  }

  /** The first line of a request, or None for an empty one. */
  function FirstLine(request: string): Option<string> {
    if request == "" then None
    else
      match FindWhere(request, c => c == '\n')
      case None => Some(request)
      case Some(i) => Some(if i > 0 && request[i - 1] == '\r' then request[..i - 1] else request[..i])
  }

  /** The next word of a text and what follows it; the word is empty at the end. */
  function NextWord(text: string): (string, string) {
    var rest := TrimStart(text);
    match FindWhere(rest, c => IsWhitespace(c))
    case None => (rest, "")
    case Some(i) => (rest[..i], rest[i..])
  }

  function QueryValue(query: string, key: string): Option<string> {
    FirstValue(Split(query, '&'), key)
  }

  function FirstValue(parts: seq<string>, key: string): Option<string> {
    if parts == [] then None
    else
      match SplitOnce(parts[0], '=')
      case Some((name, value)) => if name == key then Some(value) else FirstValue(parts[1..], key)
      case None => FirstValue(parts[1..], key)
  }

  predicate Verify(crypto: Crypto, key: seq<Byte>, filename: string, expires: nat, signature: string) {
    HexDecode(signature) == Some(crypto.mac(key, SignedText(filename, expires)))
  }

  function ContentType(filename: string): string {
    if EndsWith(filename, ".jpg") then "image/jpeg"
    else if EndsWith(filename, ".webp") then "image/webp"
    else if EndsWith(filename, ".gif") then "image/gif"
    else "image/png"
  }

  function Refuse(status: nat): Response {
    Response(status, "text/plain", [], false)
  }

  /** What a target asks for: a file name, an expiry and a signature, or the refusal. */
  function ParseTarget(target: string): Result<(string, nat, string), Response> {
    match SplitOnce(target, '?')
    case None => Err(Refuse(403))
    case Some((path, query)) =>
      if !("/image/" <= path) then Err(Refuse(404))
      else
        var filename := path[|"/image/"|..];
        if !ImageName(filename) then Err(Refuse(400))
        else
          var expires := match QueryValue(query, "expires") case None => None case Some(value) => ParseUnsigned(value, U64_MAX);
          var signature := QueryValue(query, "sig");
          if expires.None? || signature.None? then Err(Refuse(403))
          else Ok((filename, expires.value, signature.value))
  }

  /** None when the named file cannot be read. */
  function Serve(crypto: Crypto, key: seq<Byte>, files: map<string, seq<Byte>>, now: nat, target: string, headOnly: bool): Option<Response> {
    match ParseTarget(target)
    case Err(refusal) => Some(refusal)
    case Ok((filename, expires, signature)) =>
      if expires < now || !Verify(crypto, key, filename, expires, signature) then Some(Refuse(403))
      else if filename !in files then None
      else if |files[filename]| > MAX_IMAGE_BYTES then Some(Refuse(413))
      else Some(Response(200, ContentType(filename), files[filename], headOnly))
  }

  function Handle(crypto: Crypto, key: seq<Byte>, files: map<string, seq<Byte>>, now: nat, request: string): Option<Response> {
    match FirstLine(request)
    case None => Some(Refuse(400))
    case Some(line) =>
      var (verb, rest) := NextWord(line);
      var (target, _) := NextWord(rest);
      if verb != "GET" && verb != "HEAD" then Some(Refuse(405))
      else Serve(crypto, key, files, now, target, verb == "HEAD")
  }

  // ---- From the publisher through the relay to the gateway ----

  lemma {:induction false} DecimalLength(n: nat, k: nat, bound: nat)
    requires k > 0 && n < bound && bound == Power(k)
    ensures |Decimal(n)| <= k
    decreases k
  {
    if n >= 10 {
      assert Power(k) == 10 * Power(k - 1);
      DecimalLength(n / 10, k - 1, Power(k - 1));
    }
  }

  function Power(k: nat): nat {
    if k == 0 then 1 else 10 * Power(k - 1)
  }

  lemma U64HasTwentyDigits()
    ensures U64_MAX < Power(20)
  {
    assert Power(5) == 100000;
    assert Power(10) == 100000 * Power(5);
    assert Power(15) == 100000 * Power(10);
    assert Power(20) == 100000 * Power(15);
  }

  lemma PublishedName(crypto: Crypto, bytes: seq<Byte>, extension: string)
    requires Sound(crypto) && ImageExtension(extension)
    ensures ImageName(FileName(crypto, bytes, extension))
    ensures '?' !in FileName(crypto, bytes, extension)
    ensures forall c :: c in FileName(crypto, bytes, extension) ==> !IsWhitespace(c)
  {
    NameParts(crypto, bytes, extension);
    var digest := HexEncode(crypto.hash(bytes));
    assert AllHex(digest);
    assert '?' !in digest && '?' !in extension;
    assert forall c :: c in extension ==> !IsWhitespace(c);
  }

  lemma SignatureShape(crypto: Crypto, key: seq<Byte>, filename: string, expires: nat)
    requires Sound(crypto)
    ensures var s := Signature(crypto, key, filename, expires);
            && |s| == 64 && AllHex(s) && '&' !in s && (forall c :: c in s ==> !IsWhitespace(c))
            && HexDecode(s) == Some(crypto.mac(key, SignedText(filename, expires)))
  {
    HexRoundTrip(crypto.mac(key, SignedText(filename, expires)));
  }

  lemma PathAccepted(filename: string, expires: string, sig: string)
    requires ImageName(filename) && '?' !in filename
    ensures ValidImagePath(ImagePath(filename, expires, sig))
  {
    hide ImageName;
    var query := "expires=" + expires + "&sig=" + sig;
    var path := ImagePath(filename, expires, sig);
    assert path == "/image/" + (filename + ['?'] + query);
    assert path[|"/image/"|..] == filename + ['?'] + query;
    SplitJoin(filename, '?', query);
  }

  /** The relay accepts the printed path for every tenant, and rebuilds it character by character. */
  lemma RelayAccepts(crypto: Crypto, key: seq<Byte>, bytes: seq<Byte>, extension: string, expires: nat, tenantId: string)
    requires Sound(crypto) && ImageExtension(extension) && expires <= U64_MAX && ValidTenantId(tenantId)
    ensures var filename := FileName(crypto, bytes, extension);
            ImageRequestOk(tenantId, filename, Some(Decimal(expires)), Some(Signature(crypto, key, filename, expires)))
  {
    hide ImageName;
    hide FileName;
    hide Signature;
    hide Sound;
    hide ValidImagePath;
    hide ImagePath;
    hide Decimal;
    var filename := FileName(crypto, bytes, extension);
    var sig := Signature(crypto, key, filename, expires);
    PublishedName(crypto, bytes, extension);
    SignatureShape(crypto, key, filename, expires);
    U64HasTwentyDigits();
    DecimalLength(expires, 20, Power(20));
    PathAccepted(filename, Decimal(expires), sig);
  }

  lemma QueryRead(expires: string, sig: string)
    requires (forall c :: c in expires ==> IsDigit(c)) && '&' !in sig
    ensures QueryValue("expires=" + expires + "&sig=" + sig, "expires") == Some(expires)
    ensures QueryValue("expires=" + expires + "&sig=" + sig, "sig") == Some(sig)
  {
    var first, second := "expires" + ['='] + expires, "sig" + ['='] + sig;
    assert "expires=" + expires + "&sig=" + sig == first + ['&'] + second;
    assert '&' !in "expires" && '&' !in expires && '&' !in second;
    SplitJoin(first, '&', second);
    SplitNone(second, '&');
    SplitOnceJoin("expires", '=', expires);
    SplitOnceJoin("sig", '=', sig);
    assert FirstValue([second], "sig") == Some(sig);
    assert [first, second][1..] == [second];
  }

  lemma TargetParsed(filename: string, expires: nat, sig: string)
    requires ImageName(filename) && '?' !in filename && expires <= U64_MAX && '&' !in sig
    ensures ParseTarget(ImagePath(filename, Decimal(expires), sig)) == Ok((filename, expires, sig))
  {
    hide ImageName;
    var path, query := "/image/" + filename, "expires=" + Decimal(expires) + "&sig=" + sig;
    assert ImagePath(filename, Decimal(expires), sig) == path + ['?'] + query;
    assert '?' !in "/image/";
    SplitOnceJoin(path, '?', query);
    assert path[|"/image/"|..] == filename;
    QueryRead(Decimal(expires), sig);
    ParseDecimal(expires, U64_MAX);
  }

  predicate NoSpaces(word: string) {
    forall i :: 0 <= i < |word| ==> !IsWhitespace(word[i])
  }

  lemma WordRead(word: string, rest: string)
    requires word != "" && NoSpaces(word)
    ensures NextWord(word + [' '] + rest) == (word, [' '] + rest)
    ensures NextWord([' '] + word + [' '] + rest) == (word, [' '] + rest)
  {
    var text := word + [' '] + rest;
    assert text[0] == word[0];
    assert TrimStart(text) == text;
    assert ([' '] + word + [' '] + rest)[1..] == text;
    assert TrimStart([' '] + word + [' '] + rest) == TrimStart(text);
    var i := FindWhere(text, c => IsWhitespace(c));
    assert IsWhitespace(text[|word|]);
    assert i.Some?;
    assert forall j :: 0 <= j < |word| ==> text[j] == word[j];
    assert i.value == |word|;
    assert text[..|word|] == word && text[|word|..] == [' '] + rest;
  }

  /** The first line of a request for target, however it goes on. */
  function GetRequest(verb: string, target: string, headers: string): string {
    verb + " " + target + " HTTP/1.1\r\n" + headers
  }

  lemma LineRead(verb: string, target: string, headers: string)
    requires NoSpaces(verb) && NoSpaces(target)
    ensures FirstLine(GetRequest(verb, target, headers)) == Some(verb + " " + target + " HTTP/1.1")
  {
    var line := verb + " " + target + " HTTP/1.1";
    var request := GetRequest(verb, target, headers);
    assert request == line + "\r\n" + headers;
    var tail := " HTTP/1.1";
    assert '\n' !in tail;
    forall j | 0 <= j <= |line| ensures request[j] != '\n' {
      if j < |verb| {
        assert request[j] == verb[j];
      } else if |verb| < j <= |verb| + |target| {
        assert request[j] == target[j - |verb| - 1];
      } else if |verb| + |target| < j < |line| {
        assert request[j] == tail[j - |verb| - 1 - |target|];
      }
    }
    assert request[|line| + 1] == '\n';
    var i := FindWhere(request, c => c == '\n');
    assert i == Some(|line| + 1);
    assert request[|line|] == '\r';
    assert request[..|line|] == line;
  }

  lemma PathHasNoSpaces(filename: string, expires: string, sig: string)
    requires (forall c :: c in filename ==> !IsWhitespace(c)) && (forall c :: c in expires ==> IsDigit(c))
    requires forall c :: c in sig ==> !IsWhitespace(c)
    ensures NoSpaces(ImagePath(filename, expires, sig)) && ImagePath(filename, expires, sig) != ""
  {
    var path := ImagePath(filename, expires, sig);
    assert forall c :: c in "/image/" ==> !IsWhitespace(c);
    assert forall c :: c in "?expires=" ==> !IsWhitespace(c);
    assert forall c :: c in "&sig=" ==> !IsWhitespace(c);
    forall i | 0 <= i < |path| ensures !IsWhitespace(path[i]) {
      assert path[i] in path;
    }
  }

  /** Under the printed URL the gateway serves exactly what its file holds while it has not expired, and refuses it after. */
  lemma GatewayServes(
    crypto: Crypto, key: seq<Byte>, files: map<string, seq<Byte>>, bytes: seq<Byte>, extension: string, expires: nat, now: nat, verb: string, headers: string)
    requires Sound(crypto) && ImageExtension(extension) && expires <= U64_MAX && (verb == "GET" || verb == "HEAD")
    requires FileName(crypto, bytes, extension) in files
    ensures var filename := FileName(crypto, bytes, extension);
            var target := ImagePath(filename, Decimal(expires), Signature(crypto, key, filename, expires));
            Handle(crypto, key, files, now, GetRequest(verb, target, headers)) ==
              Some(if expires < now then Refuse(403)
                   else if |files[filename]| > MAX_IMAGE_BYTES then Refuse(413)
                   else Response(200, ContentType(filename), files[filename], verb == "HEAD"))
  {
    hide ImageName;
    hide ParseTarget;
    hide FirstLine;
    hide NextWord;
    hide ImagePath;
    hide FileName;
    hide Sound;
    hide Signature;
    hide HexDecode;
    var filename := FileName(crypto, bytes, extension);
    var sig := Signature(crypto, key, filename, expires);
    var target := ImagePath(filename, Decimal(expires), sig);
    PublishedName(crypto, bytes, extension);
    SignatureShape(crypto, key, filename, expires);
    TargetParsed(filename, expires, sig);
    PathHasNoSpaces(filename, Decimal(expires), sig);
    LineRead(verb, target, headers);
    var tail := "HTTP/1.1";
    assert verb + " " + target + " HTTP/1.1" == verb + [' '] + (target + [' '] + tail);
    assert [' '] + (target + [' '] + tail) == [' '] + target + [' '] + tail;
    WordRead(verb, target + [' '] + tail);
    WordRead(target, tail);
  }

  /** After publishing into any cache at all, the gateway serves the published image under the printed URL if and only if
      its name was free or already held it. */
  lemma PublishedIsServedIff(
    crypto: Crypto, key: seq<Byte>, files: map<string, seq<Byte>>, bytes: seq<Byte>, extension: string, expires: nat, now: nat, verb: string, headers: string)
    requires Sound(crypto) && ImageExtension(extension) && now <= expires <= U64_MAX && (verb == "GET" || verb == "HEAD")
    requires |bytes| <= MAX_IMAGE_BYTES
    ensures var filename := FileName(crypto, bytes, extension);
            var target := ImagePath(filename, Decimal(expires), Signature(crypto, key, filename, expires));
            Handle(crypto, key, Cached(files, filename, bytes), now, GetRequest(verb, target, headers)) ==
              Some(Response(200, ContentType(filename), bytes, verb == "HEAD"))
            <==> (filename in files ==> files[filename] == bytes)
  {
    hide Handle;
    hide FileName;
    hide Signature;
    hide ImagePath;
    hide ContentType;
    hide Sound;
    var filename := FileName(crypto, bytes, extension);
    GatewayServes(crypto, key, Cached(files, filename, bytes), bytes, extension, expires, now, verb, headers);
  }

  /** A file left cut short by an interrupted write stays cut through later publishing, and is what the gateway serves. */
  lemma CutFileIsServed(
    crypto: Crypto, key: seq<Byte>, bytes: seq<Byte>, k: nat, extension: string, expires: nat, now: nat, headers: string)
    requires Sound(crypto) && ImageExtension(extension) && now <= expires <= U64_MAX && k < |bytes| <= MAX_IMAGE_BYTES
    ensures var filename := FileName(crypto, bytes, extension);
            var target := ImagePath(filename, Decimal(expires), Signature(crypto, key, filename, expires));
            Handle(crypto, key, Cached(map[filename := bytes[..k]], filename, bytes), now, GetRequest("GET", target, headers)) ==
              Some(Response(200, ContentType(filename), bytes[..k], false))
  {
    hide Handle;
    hide FileName;
    hide Signature;
    hide ImagePath;
    hide ContentType;
    hide Sound;
    var filename := FileName(crypto, bytes, extension);
    GatewayServes(crypto, key, Cached(map[filename := bytes[..k]], filename, bytes), bytes, extension, expires, now, "GET", headers);
  }

  /** The content type served names an image and fits the extension. */
  lemma ContentTypeFits(crypto: Crypto, bytes: seq<Byte>, extension: string)
    requires ImageExtension(extension)
    ensures ExtensionForMime(ContentType(FileName(crypto, bytes, extension))) == extension
    ensures "image/" <= ContentType(FileName(crypto, bytes, extension))
  {
    hide ExtensionForMime;
    var filename := FileName(crypto, bytes, extension);
    assert EndsWith(filename, "." + extension) by {
      var digest := HexEncode(crypto.hash(bytes));
      assert filename == digest + ("." + extension);
      assert filename[|digest|..] == "." + extension;
    }
    SuffixDecides(filename, extension);
    MimeOfExtension();
  }

  lemma MimeOfExtension()
    ensures ExtensionForMime("image/jpeg") == "jpg" && ExtensionForMime("image/webp") == "webp"
    ensures ExtensionForMime("image/gif") == "gif" && ExtensionForMime("image/png") == "png"
  {
  }

  lemma SuffixDecides(filename: string, extension: string)
    requires ImageExtension(extension) && EndsWith(filename, "." + extension)
    ensures EndsWith(filename, ".jpg") <==> extension == "jpg"
    ensures EndsWith(filename, ".webp") <==> extension == "webp"
    ensures EndsWith(filename, ".gif") <==> extension == "gif"
  {
    hide EndsWith;
    assert ".jpg" == "." + "jpg" && ".webp" == "." + "webp" && ".gif" == "." + "gif";
    if EndsWith(filename, ".jpg") {
      SameExtension(filename, extension, "jpg");
    }
    if EndsWith(filename, ".webp") {
      SameExtension(filename, extension, "webp");
    }
    if EndsWith(filename, ".gif") {
      SameExtension(filename, extension, "gif");
    }
  }

  lemma SameExtension(filename: string, a: string, b: string)
    requires ImageExtension(a) && ImageExtension(b) && EndsWith(filename, "." + a) && EndsWith(filename, "." + b)
    ensures a == b
  {
    var last, before := filename[|filename| - 1], filename[|filename| - 2];
    assert last == a[|a| - 1] == b[|b| - 1] && before == a[|a| - 2] == b[|b| - 2];
  }

  /** The verb and the target of a request. */
  function Asked(request: string): Option<(string, string)> {
    match FirstLine(request)
    case None => None
    case Some(line) =>
      var (verb, rest) := NextWord(line);
      Some((verb, NextWord(rest).0))
  }

  /** The name, expiry and signature that a request presents. */
  function Presented(request: string): Option<(string, nat, string)> {
    match Asked(request)
    case None => None
    case Some((verb, target)) =>
      match ParseTarget(target)
      case Err(_) => None
      case Ok(parts) => Some(parts)
  }

  predicate Served(crypto: Crypto, key: seq<Byte>, files: map<string, seq<Byte>>, now: nat, request: string) {
    var response := Handle(crypto, key, files, now, request);
    response.Some? && response.value.status == 200
  }

  /** Whatever the request, something is served exactly for a well-formed GET or HEAD with a code over its own name and expiry,
      not after that expiry, for a cached file within the limit; and it is that file. */
  lemma ServedIsSigned(crypto: Crypto, key: seq<Byte>, files: map<string, seq<Byte>>, now: nat, request: string)
    ensures Served(crypto, key, files, now, request) <==>
              && Asked(request).Some? && (Asked(request).value.0 == "GET" || Asked(request).value.0 == "HEAD")
              && Presented(request).Some?
              && var (filename, expires, signature) := Presented(request).value;
              && now <= expires && HexDecode(signature) == Some(crypto.mac(key, SignedText(filename, expires)))
              && filename in files && |files[filename]| <= MAX_IMAGE_BYTES
    ensures Served(crypto, key, files, now, request) ==>
              Handle(crypto, key, files, now, request).value.body == files[Presented(request).value.0]
  {
    hide FirstLine;
    hide NextWord;
    RefusalsAreNotServed(request);
  }

  lemma RefusalsAreNotServed(request: string)
    ensures Asked(request).Some? && ParseTarget(Asked(request).value.1).Err? ==> ParseTarget(Asked(request).value.1).error.status != 200
  {
  }

  /** The signed text determines the name and the expiry. */
  lemma SignedTextBinds(a: string, m: nat, b: string, n: nat)
    requires '\n' !in a && '\n' !in b && SignedText(a, m) == SignedText(b, n)
    ensures a == b && m == n
  {
    assert SignedText(a, m) == a + ['\n'] + Decimal(m) && SignedText(b, n) == b + ['\n'] + Decimal(n);
    SplitOnceJoin(a, '\n', Decimal(m));
    SplitOnceJoin(b, '\n', Decimal(n));
    DecimalRoundTrip(m);
    DecimalRoundTrip(n);
  }

  lemma ImageNameHasNoBreak(filename: string)
    requires ImageName(filename)
    ensures '\n' !in filename
  {
    var (digest, extension) := SplitOnce(filename, '.').value;
    assert filename == digest + ['.'] + extension;
    assert '\n' !in extension && AllHex(digest);
    forall i | 0 <= i < |filename| ensures filename[i] != '\n' {
      if i < |digest| {
        assert filename[i] == digest[i] && digest[i] in digest;
      } else if i > |digest| {
        assert filename[i] == extension[i - |digest| - 1];
        assert extension[i - |digest| - 1] in extension;
      }
    }
  }

  /** A code issued for one name and one expiry serves nothing else: a request that presents it is served only with that
      name and expiry, not after it, unless the code is also that of the request's own text. */
  lemma CodeServesOnlyItsOwn(
    crypto: Crypto, key: seq<Byte>, files: map<string, seq<Byte>>, now: nat, request: string, filename: string, expires: nat)
    requires Served(crypto, key, files, now, request) && ImageName(filename)
    requires Presented(request).Some? && HexDecode(Presented(request).value.2) == Some(crypto.mac(key, SignedText(filename, expires)))
    requires var (name, expiry, _) := Presented(request).value;
             crypto.mac(key, SignedText(name, expiry)) == crypto.mac(key, SignedText(filename, expires)) ==>
               SignedText(name, expiry) == SignedText(filename, expires)
    ensures Presented(request).value.0 == filename && Presented(request).value.1 == expires
    ensures now <= expires && filename in files && Handle(crypto, key, files, now, request).value.body == files[filename]
  {
    hide Handle;
    hide Presented;
    hide ImageName;
    hide SignedText;
    ServedIsSigned(crypto, key, files, now, request);
    var (name, expiry, _) := Presented(request).value;
    PresentedName(request);
    ImageNameHasNoBreak(name);
    ImageNameHasNoBreak(filename);
    SignedTextBinds(name, expiry, filename, expires);
  }

  lemma PresentedName(request: string)
    requires Presented(request).Some?
    ensures ImageName(Presented(request).value.0)
  {
    hide Asked;
    hide ImageName;
  }

  // ---- The way back ----

  /** What a client reports for a gateway response, unless the image is too large. */
  function ClientResult(response: Response): Option<Response> {
    if |response.body| > MAX_IMAGE_BYTES then None else Some(response)
  }

  /** What the relay finally answers: the image, or nothing that tells it from a missing one. */
  function RelayAnswer(result: Response): Option<(string, seq<Byte>)> {
    if |result.body| > MAX_IMAGE_BYTES || result.status != 200 || !("image/" <= result.contentType) then None
    else Some((result.contentType, result.body))
  }

  /** From publishing to the reader: the relay accepts the URL, the gateway serves it, and the relay answers with the bytes. */
  lemma PublishedImageArrives(
    crypto: Crypto, key: seq<Byte>, files: map<string, seq<Byte>>, bytes: seq<Byte>, extension: string, expires: nat, now: nat, tenantId: string, headers: string)
    requires Sound(crypto) && ImageExtension(extension) && expires <= U64_MAX && ValidTenantId(tenantId) && now <= expires
    requires FileName(crypto, bytes, extension) in files && files[FileName(crypto, bytes, extension)] == bytes && |bytes| <= MAX_IMAGE_BYTES
    ensures var filename := FileName(crypto, bytes, extension);
            var sig := Signature(crypto, key, filename, expires);
            && ImageRequestOk(tenantId, filename, Some(Decimal(expires)), Some(sig))
            && var served := Handle(crypto, key, files, now, GetRequest("GET", ImagePath(filename, Decimal(expires), sig), headers));
            && served.Some? && ClientResult(served.value).Some?
            && RelayAnswer(ClientResult(served.value).value) == Some((ContentType(filename), bytes))
  {
    hide Handle;
    hide ImageRequestOk;
    hide ContentType;
    RelayAccepts(crypto, key, bytes, extension, expires, tenantId);
    GatewayServes(crypto, key, files, bytes, extension, expires, now, "GET", headers);
    ContentTypeFits(crypto, bytes, extension);
  }

  // ---- The hypotheses can be met ----

  /** Digests that tell contents of different lengths below 256 apart. */
  function ByLength(): Crypto {
    Crypto((bytes: seq<Byte>) => [(|bytes| % 256) as Byte] + seq(31, _ => 0), (key: seq<Byte>, message: string) => seq(32, _ => 0))
  }

  /** A cache of two published images that meets everything asked above of one. */
  lemma HypothesesAreMet()
    ensures var crypto, first, second := ByLength(), [1], [1, 2];
            var one := Cached(map[], FileName(crypto, first, "png"), first);
            var files := Cached(one, FileName(crypto, second, "jpg"), second);
            && Sound(crypto) && Addressed(crypto, files) && NoCollision(crypto, files, first) && NoCollision(crypto, files, second)
            && FileName(crypto, first, "png") in files && files[FileName(crypto, first, "png")] == first
            && FileName(crypto, second, "jpg") in files && files[FileName(crypto, second, "jpg")] == second
  {
    var crypto, first, second := ByLength(), [1], [1, 2];
    hide FileName;
    assert crypto.hash(first)[0] == 1 && crypto.hash(second)[0] == 2;
    var one := Cached(map[], FileName(crypto, first, "png"), first);
    AddressedStays(crypto, map[], first, "png");
    AddressedStays(crypto, one, second, "jpg");
    assert NoCollision(crypto, one, second);
    AddressedHolds(crypto, one, second, "jpg");
  }
}
