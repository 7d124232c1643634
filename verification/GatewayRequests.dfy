/** Image names, paths and requests in terms of their characters, and the answer to each request. */
module GatewayRequests {
  import opened Prelude
  import opened Text
  import opened TextFacts
  import opened Joining
  import opened RelayLib
  import opened SignedUrl

  // ---- Names and paths ----

  predicate NamedBy(name: string, digest: string, extension: string) {
    && name == digest + ("." + extension) && HexText(digest, 64)
    && (extension == "png" || extension == "jpg" || extension == "webp" || extension == "gif")
  }

  /** 64 hexadecimal digits, a dot, and one of four extensions. */
  ghost predicate NamesImage(name: string) {
    exists digest, extension :: NamedBy(name, digest, extension)
  }

  lemma ImageNameIff(name: string)
    ensures ImageName(name) <==> NamesImage(name)
    ensures NamesImage(name) ==> '?' !in name
  {
    if ImageName(name) {
      var (digest, extension) := SplitOnce(name, '.').value;
      HexTextIff(digest, 64);
      assert name == digest + ("." + extension);
      assert NamedBy(name, digest, extension);
    }
    if NamesImage(name) {
      var digest, extension :| NamedBy(name, digest, extension);
      HexTextIff(digest, 64);
      assert name == digest + ['.'] + extension;
      SplitOnceJoin(digest, '.', extension);
      assert '?' !in digest && '?' !in extension;
    }
  }

  predicate PathTo(path: string, name: string, rest: string) {
    path == "/image/" + (name + rest) && (rest == "" || rest[0] == '?')
  }

  /** A path is taken for an image's exactly when it is `/image/`, an image name, and at most a query. */
  lemma ImagePathIff(path: string)
    ensures ValidImagePath(path) <==> exists name, rest :: NamesImage(name) && PathTo(path, name, rest)
  {
    hide ImageName;
    hide NamesImage;
    if ValidImagePath(path) {
      var tail := path[|"/image/"|..];
      var name := Split(tail, '?')[0];
      FirstPieceBegins(tail, '?');
      ImageNameIff(name);
      assert PathTo(path, name, tail[|name|..]);
    }
    if name, rest :| NamesImage(name) && PathTo(path, name, rest) {
      ImageNameIff(name);
      assert path[|"/image/"|..] == name + rest;
      if rest == "" {
        assert name + rest == name;
        SplitNone(name, '?');
      } else {
        assert name + rest == name + ['?'] + rest[1..];
        SplitJoin(name, '?', rest[1..]);
      }
    }
  }

  /** The relay asks for an id, a name, at most twenty digits of expiry and 64 hexadecimal digits of signature. */
  lemma ImageRequestIff(tenantId: string, name: string, expires: Option<string>, sig: Option<string>)
    ensures ImageRequestOk(tenantId, name, expires, sig) <==>
              && HexText(tenantId, 32) && expires.Some? && sig.Some? && HexText(sig.value, 64)
              && |expires.value| <= 20 && AllDigits(expires.value)
              && exists image, rest :: NamesImage(image) && PathTo("/image/" + name + "?expires=" + expires.value + "&sig=" + sig.value, image, rest)
  {
    hide NamesImage;
    hide PathTo;
    hide ValidImagePath;
    HexTextIff(tenantId, 32);
    if expires.Some? && sig.Some? {
      HexTextIff(sig.value, 64);
      DigitsIff(expires.value);
      ImagePathIff(ImagePath(name, expires.value, sig.value));
    }
  }

  lemma DigitsIff(s: string)
    ensures (forall c <- s :: IsDigit(c)) <==> AllDigits(s)
  {
    if forall c <- s :: IsDigit(c) {
      forall i | 0 <= i < |s| ensures IsDigit(s[i]) {
        assert s[i] in s;
      }
    }
  }

  // ---- Hexadecimal codes ----

  /** Two digits for each byte, the high one first. */
  predicate Spells(s: string, bytes: seq<Byte>) {
    && HexText(s, 2 * |bytes|)
    && forall i :: 0 <= i < |bytes| ==> IsHexDigit(s[2 * i]) && IsHexDigit(s[2 * i + 1])
                                        && bytes[i] == HexValue(s[2 * i]) * 16 + HexValue(s[2 * i + 1])
  }

  lemma SpellsStep(s: string, bytes: seq<Byte>)
    requires |s| >= 2 && bytes != []
    ensures Spells(s, bytes) <==>
              IsHexDigit(s[0]) && IsHexDigit(s[1]) && bytes[0] == HexValue(s[0]) * 16 + HexValue(s[1]) && Spells(s[2..], bytes[1..])
  {
    hide HexValue;
    if Spells(s, bytes) {
      assert forall i :: 0 <= i < |s| - 2 ==> s[2..][i] == s[i + 2];
      forall i | 0 <= i < |bytes[1..]|
        ensures IsHexDigit(s[2..][2 * i]) && IsHexDigit(s[2..][2 * i + 1])
        ensures bytes[1..][i] == HexValue(s[2..][2 * i]) * 16 + HexValue(s[2..][2 * i + 1])
      {
        assert bytes[1..][i] == bytes[i + 1] && s[2..][2 * i] == s[2 * (i + 1)] && s[2..][2 * i + 1] == s[2 * (i + 1) + 1];
      }
      assert IsHexDigit(s[2 * 0]) && IsHexDigit(s[2 * 0 + 1]);
    }
    if IsHexDigit(s[0]) && IsHexDigit(s[1]) && bytes[0] == HexValue(s[0]) * 16 + HexValue(s[1]) && Spells(s[2..], bytes[1..]) {
      assert forall i :: 2 <= i < |s| ==> s[i] == s[2..][i - 2];
      forall i | 0 <= i < |bytes|
        ensures IsHexDigit(s[2 * i]) && IsHexDigit(s[2 * i + 1]) && bytes[i] == HexValue(s[2 * i]) * 16 + HexValue(s[2 * i + 1])
      {
        if i > 0 {
          assert bytes[i] == bytes[1..][i - 1] && s[2 * i] == s[2..][2 * (i - 1)] && s[2 * i + 1] == s[2..][2 * (i - 1) + 1];
        }
      }
    }
  }

  /** A code is decoded to the bytes it spells, and refused when it spells none. */
  lemma {:induction false} HexDecodeIff(s: string, bytes: seq<Byte>)
    ensures HexDecode(s) == Some(bytes) <==> Spells(s, bytes)
    decreases |s|
  {
    hide HexValue;
    if |s| >= 2 && bytes != [] {
      HexDecodeIff(s[2..], bytes[1..]);
      SpellsStep(s, bytes);
      assert bytes == [bytes[0]] + bytes[1..];
      if HexDecode(s) == Some(bytes) {
        assert HexDecode(s[2..]) == Some(bytes[1..]);
      }
    }
  }

  /** What is printed is the code in lower case. */
  lemma {:induction false} HexEncodeIs(bytes: seq<Byte>)
    ensures Spells(HexEncode(bytes), bytes) && ToLower(HexEncode(bytes)) == HexEncode(bytes)
  {
    HexRoundTrip(bytes);
    HexDecodeIff(HexEncode(bytes), bytes);
    HexIsLower(bytes);
  }

  lemma {:induction false} HexIsLower(bytes: seq<Byte>)
    ensures forall i :: 0 <= i < |HexEncode(bytes)| ==> !('A' <= HexEncode(bytes)[i] <= 'Z')
  {
    if bytes != [] {
      HexIsLower(bytes[1..]);
      var s, rest := HexEncode(bytes), HexEncode(bytes[1..]);
      assert forall i :: 2 <= i < |s| ==> s[i] == rest[i - 2];
    }
  }

  // ---- The publisher's settings ----

  /** The origin printed is the given one without the slashes at its end. */
  lemma {:induction false} TrimSlashesIs(url: string) returns (slashes: string)
    ensures url == TrimSlashes(url) + slashes && (forall i :: 0 <= i < |slashes| ==> slashes[i] == '/')
    ensures TrimSlashes(url) != "" ==> TrimSlashes(url)[|TrimSlashes(url)| - 1] != '/'
  {
    slashes := "";
    if url != "" && url[|url| - 1] == '/' {
      slashes := TrimSlashesIs(url[..|url| - 1]);
      assert url == url[..|url| - 1] + "/";
      slashes := slashes + "/";
    }
  }

  lemma ExtensionIs(mime: string)
    ensures ExtensionForMime(mime) == "jpg" <==> mime == "image/jpeg"
    ensures ExtensionForMime(mime) == "webp" <==> mime == "image/webp"
    ensures ExtensionForMime(mime) == "gif" <==> mime == "image/gif"
    ensures ExtensionForMime(mime) == "png" <==> mime != "image/jpeg" && mime != "image/webp" && mime != "image/gif"
  {
  }

  // ---- Requests ----

  predicate LineThen(request: string, line: string, rest: string) {
    || request == line + "\r\n" + rest
    || (request == line + "\n" + rest && (line == "" || line[|line| - 1] != '\r'))
  }

  /** The line up to the first line feed, without the carriage return before it; without a line feed, everything. */
  ghost predicate StartsWithLine(request: string, line: string) {
    && '\n' !in line
    && ((exists rest :: LineThen(request, line, rest)) || (request == line && line != ""))
  }

  lemma LineIsFirst(request: string, line: string, rest: string)
    requires '\n' !in line && LineThen(request, line, rest)
    ensures FirstLine(request) == Some(line)
  {
    var end := if request == line + "\r\n" + rest then |line| + 1 else |line|;
    assert request[end] == '\n';
    forall j | 0 <= j < end ensures request[j] != '\n' {
      if j < |line| {
        assert request[j] == line[j] && line[j] in line;
      }
    }
    var i := FindWhere(request, c => c == '\n');
    assert i == Some(end);
    assert request[..|line|] == line;
  }

  lemma FirstLineIff(request: string, line: string)
    ensures FirstLine(request) == Some(line) <==> StartsWithLine(request, line)
    ensures FirstLine(request) == None <==> request == ""
  {
    if StartsWithLine(request, line) {
      if rest :| LineThen(request, line, rest) {
        LineIsFirst(request, line, rest);
      } else {
        assert FindWhere(request, c => c == '\n').None?;
      }
    }
    if FirstLine(request) == Some(line) {
      match FindWhere(request, c => c == '\n')
      case None =>
      case Some(i) =>
        var rest := request[i + 1..];
        assert request == request[..i] + "\n" + rest;
        assert i > 0 ==> request[..i] == request[..i - 1] + [request[i - 1]];
        assert LineThen(request, line, rest);
    }
  }

  /** The next word: blanks, the word, and then a blank or the end; no word when only blanks are left. */
  ghost predicate WordThen(text: string, word: string, rest: string) {
    && (exists pre :: text == pre + (word + rest) && Blank(pre)) && NoSpaces(word)
    && (rest == "" || BlankPoint(rest[0] as int)) && (word == "" ==> rest == "")
  }

  lemma NextWordIs(text: string)
    ensures WordThen(text, NextWord(text).0, NextWord(text).1)
  {
    var pre := TrimStartParts(text);
    var rest := TrimStart(text);
    match FindWhere(rest, c => IsWhitespace(c))
    case None =>
      assert rest == rest + "";
      assert text == pre + (rest + "");
    case Some(i) =>
      WhitespaceIff(rest[i]);
      assert rest == rest[..i] + rest[i..];
      assert text == pre + (rest[..i] + rest[i..]);
  }

  lemma WordIsNext(text: string, word: string, rest: string)
    requires WordThen(text, word, rest)
    ensures NextWord(text) == (word, rest)
  {
    var pre :| text == pre + (word + rest) && Blank(pre);
    if word == "" {
      assert text == pre;
      TrimAll(text);
    } else {
      TrimStartBlank(pre, word + rest);
      var all := word + rest;
      forall j | 0 <= j < |word| ensures !IsWhitespace(all[j]) {
        assert all[j] == word[j];
      }
      if rest != "" {
        WhitespaceIff(rest[0]);
        assert all[|word|] == rest[0];
      }
      var i := FindWhere(all, c => IsWhitespace(c));
      assert i == if rest == "" then None else Some(|word|);
      assert TrimStart(text) == all;
      assert rest == "" ==> all == word;
      assert rest != "" ==> all[..|word|] == word && all[|word|..] == rest;
    }
  }

  lemma {:induction false} TrimAll(s: string)
    requires Blank(s)
    ensures TrimStart(s) == ""
  {
    if s != "" {
      WhitespaceIff(s[0]);
      TrimAll(s[1..]);
    }
  }

  lemma NextWordIff(text: string, word: string, rest: string)
    ensures NextWord(text) == (word, rest) <==> WordThen(text, word, rest)
  {
    NextWordIs(text);
    if WordThen(text, word, rest) {
      WordIsNext(text, word, rest);
    }
  }

  /** The first of the parameters joined by `&` that is the key's, and its value. */
  ghost predicate Parameter(parts: seq<string>, k: nat, key: string, value: string) {
    && k < |parts| && parts[k] == key + ("=" + value)
    && forall j :: 0 <= j < k ==> !(key + "=" <= parts[j])
  }

  ghost predicate Queried(query: string, key: string, value: string) {
    exists parts: seq<string>, k: nat ::
      parts != [] && WithoutAny(parts, '&') && Joined(parts, "&") == query && Parameter(parts, k, key, value)
  }

  lemma PartNamed(part: string, key: string)
    requires '=' !in key
    ensures key + "=" <= part <==> SplitOnce(part, '=').Some? && SplitOnce(part, '=').value.0 == key
    ensures key + "=" <= part ==> SplitOnce(part, '=') == Some((key, part[|key| + 1..])) && part == key + ("=" + part[|key| + 1..])
  {
    if key + "=" <= part {
      assert part == key + ['='] + part[|key| + 1..];
      SplitOnceJoin(key, '=', part[|key| + 1..]);
    }
  }

  lemma {:induction false} FirstValueIff(parts: seq<string>, key: string, value: string)
    requires '=' !in key
    ensures FirstValue(parts, key) == Some(value) <==> exists k: nat :: Parameter(parts, k, key, value)
  {
    if parts != [] {
      PartNamed(parts[0], key);
      FirstValueIff(parts[1..], key, value);
      if key + "=" <= parts[0] {
        if parts[0] == key + ("=" + value) {
          assert Parameter(parts, 0, key, value);
          assert parts[0][|key| + 1..] == value;
        }
        if k: nat :| Parameter(parts, k, key, value) {
          assert k == 0;
        }
      } else {
        if k: nat :| Parameter(parts[1..], k, key, value) {
          assert Parameter(parts, k + 1, key, value);
        }
        if k: nat :| Parameter(parts, k, key, value) {
          assert k > 0;
          assert Parameter(parts[1..], k - 1, key, value);
        }
      }
    }
  }

  lemma QueryIff(query: string, key: string, value: string)
    requires '=' !in key
    ensures QueryValue(query, key) == Some(value) <==> Queried(query, key, value)
  {
    hide Parameter;
    hide Split;
    var parts := Split(query, '&');
    SplitIff(query, '&', parts);
    FirstValueIff(parts, key, value);
    if Queried(query, key, value) {
      var others, k: nat :|
        others != [] && WithoutAny(others, '&') && Joined(others, "&") == query && Parameter(others, k, key, value);
      SplitIff(query, '&', others);
    }
  }

  // ---- Answers ----

  predicate Divided(target: string, path: string, query: string) {
    target == path + ("?" + query) && '?' !in path
  }

  /** Name, expiry and signature as the target spells them. */
  ghost predicate Asks(target: string, name: string, expires: nat, signature: string) {
    exists query, value ::
      && Divided(target, "/image/" + name, query) && NamesImage(name)
      && Queried(query, "expires", value) && Numeral(value, expires) && Queried(query, "sig", signature)
  }

  /** Why a target asks for nothing: no query, another path, no image name, or no expiry or signature. */
  ghost predicate AsksNothing(target: string, status: nat) {
    || ('?' !in target && status == 403)
    || (exists path, query :: Divided(target, path, query) && !("/image/" <= path) && status == 404)
    || (exists name, query :: Divided(target, "/image/" + name, query) && !NamesImage(name) && status == 400)
    || (exists name, query :: Divided(target, "/image/" + name, query) && NamesImage(name) && status == 403
          && ((forall value, n: nat :: Queried(query, "expires", value) ==> !Numeral(value, n)) || forall sig: string :: !Queried(query, "sig", sig)))
  }

  lemma DividedIff(target: string, path: string, query: string)
    ensures SplitOnce(target, '?') == Some((path, query)) <==> Divided(target, path, query)
  {
    if Divided(target, path, query) {
      assert target == path + ['?'] + query;
      SplitOnceJoin(path, '?', query);
    }
    if SplitOnce(target, '?') == Some((path, query)) {
      assert target == path + ("?" + query);
    }
  }

  /** The expiry that a query gives, if it gives one. */
  function ExpiryIn(query: string): Option<nat> {
    match QueryValue(query, "expires") case None => None case Some(value) => ParseUnsigned(value, U64_MAX)
  }

  lemma ExpiryIff(query: string, n: nat)
    ensures ExpiryIn(query) == Some(n) <==> exists value :: Queried(query, "expires", value) && Numeral(value, n)
  {
    hide Queried;
    hide Numeral;
    hide ParseUnsigned;
    hide QueryValue;
    assert '=' !in "expires";
    forall value: string ensures QueryValue(query, "expires") == Some(value) <==> Queried(query, "expires", value) {
      QueryIff(query, "expires", value);
    }
    forall value: string ensures ParseUnsigned(value, U64_MAX) == Some(n) <==> Numeral(value, n) {
      ParseIffNumeral(value, n);
    }
  }

  lemma TargetOk(target: string, name: string, expires: nat, signature: string)
    requires ParseTarget(target) == Ok((name, expires, signature))
    ensures Asks(target, name, expires, signature)
  {
    hide Queried;
    hide Numeral;
    hide ParseUnsigned;
    hide QueryValue;
    hide NamesImage;
    hide ImageName;
    var (path, query) := SplitOnce(target, '?').value;
    DividedIff(target, path, query);
    assert path == "/image/" + name;
    ImageNameIff(name);
    ExpiryIff(query, expires);
    QueryIff(query, "sig", signature);
  }

  lemma NameRefused(target: string, name: string, query: string)
    requires Divided(target, "/image/" + name, query) && NamesImage(name)
    requires ExpiryIn(query) == None || QueryValue(query, "sig") == None
    ensures AsksNothing(target, 403)
  {
    hide Queried;
    hide Numeral;
    hide ExpiryIn;
    hide QueryValue;
    hide NamesImage;
    hide Divided;
    forall value, n: nat | Queried(query, "expires", value) && Numeral(value, n) ensures ExpiryIn(query) == Some(n) {
      ExpiryIff(query, n);
    }
    forall sig: string ensures QueryValue(query, "sig") == Some(sig) <==> Queried(query, "sig", sig) {
      QueryIff(query, "sig", sig);
    }
  }

  lemma TargetRefused(target: string)
    requires ParseTarget(target).Err?
    ensures ParseTarget(target).error == Response(ParseTarget(target).error.status, "text/plain", [], false)
    ensures AsksNothing(target, ParseTarget(target).error.status)
  {
    hide Queried;
    hide Numeral;
    hide ParseUnsigned;
    hide QueryValue;
    hide NamesImage;
    hide ImageName;
    match SplitOnce(target, '?')
    case None =>
    case Some((path, query)) =>
      DividedIff(target, path, query);
      if "/image/" <= path {
        var name := path[|"/image/"|..];
        assert path == "/image/" + name;
        ImageNameIff(name);
        if NamesImage(name) {
          assert ExpiryIn(query) == None || QueryValue(query, "sig") == None;
          NameRefused(target, name, query);
        }
      }
  }

  /** The type that goes with the extension. */
  predicate TypeOf(name: string, contentType: string) {
    && (EndsIn(name, ".png") ==> contentType == "image/png") && (EndsIn(name, ".jpg") ==> contentType == "image/jpeg")
    && (EndsIn(name, ".webp") ==> contentType == "image/webp") && (EndsIn(name, ".gif") ==> contentType == "image/gif")
  }

  predicate EndsIn(name: string, suffix: string) {
    |name| >= |suffix| && name[|name| - |suffix|..] == suffix
  }

  lemma TypeIs(name: string)
    ensures TypeOf(name, ContentType(name))
  {
    if EndsIn(name, ".png") {
      assert name[|name| - 1] == 'g' && name[|name| - 2] == 'n';
    }
    if EndsIn(name, ".webp") {
      assert name[|name| - 1] == 'p';
    }
    if EndsIn(name, ".gif") {
      assert name[|name| - 1] == 'f';
    }
  }

  predicate Refusal(answer: Option<Response>, status: nat) {
    answer == Some(Response(status, "text/plain", [], false))
  }

  /** What is answered to a request for a named image: refused after its expiry or without its code, no answer for a file
      that is not there, refused above twenty mebibytes, and otherwise the file. */
  ghost predicate AnswersImage(
    crypto: Crypto, key: seq<Byte>, files: map<string, seq<Byte>>, now: nat, name: string, expires: nat, signature: string,
    headOnly: bool, answer: Option<Response>)
  {
    if expires < now || !Spells(signature, crypto.mac(key, name + "\n" + Decimal(expires))) then Refusal(answer, 403)
    else if name !in files then answer == None
    else if |files[name]| > 20971520 then Refusal(answer, 413)
    else answer.Some? && answer.value.status == 200 && TypeOf(name, answer.value.contentType)
         && answer.value.body == files[name] && answer.value.headOnly == headOnly
  }

  ghost predicate AnswersTarget(
    crypto: Crypto, key: seq<Byte>, files: map<string, seq<Byte>>, now: nat, target: string, headOnly: bool, answer: Option<Response>)
  {
    || (exists status :: AsksNothing(target, status) && Refusal(answer, status))
    || (exists name, expires, signature ::
          Asks(target, name, expires, signature) && AnswersImage(crypto, key, files, now, name, expires, signature, headOnly, answer))
  }

  /** The first line's first word is the verb and its second the target. */
  ghost predicate Begins(request: string, verb: string, target: string) {
    exists line, rest, more ::
      StartsWithLine(request, line) && WordThen(line, verb, rest) && WordThen(rest, target, more)
  }

  ghost predicate Answers(
    crypto: Crypto, key: seq<Byte>, files: map<string, seq<Byte>>, now: nat, request: string, answer: Option<Response>)
  {
    || (request == "" && Refusal(answer, 400))
    || (exists verb, target :: Begins(request, verb, target) &&
          if verb != "GET" && verb != "HEAD" then Refusal(answer, 405)
          else AnswersTarget(crypto, key, files, now, target, verb == "HEAD", answer))
  }

  lemma ServeAnswers(crypto: Crypto, key: seq<Byte>, files: map<string, seq<Byte>>, now: nat, target: string, headOnly: bool)
    ensures AnswersTarget(crypto, key, files, now, target, headOnly, Serve(crypto, key, files, now, target, headOnly))
  {
    hide ParseTarget;
    hide HexDecode;
    hide Spells;
    hide TypeOf;
    hide ContentType;
    hide AsksNothing;
    hide Asks;
    match ParseTarget(target)
    case Err(refusal) =>
      TargetRefused(target);
    case Ok((name, expires, signature)) =>
      TargetOk(target, name, expires, signature);
      HexDecodeIff(signature, crypto.mac(key, SignedText(name, expires)));
      TypeIs(name);
      assert AnswersImage(crypto, key, files, now, name, expires, signature, headOnly, Serve(crypto, key, files, now, target, headOnly));
  }

  /** Every request gets the answer stated, whatever its text. */
  lemma HandleAnswers(crypto: Crypto, key: seq<Byte>, files: map<string, seq<Byte>>, now: nat, request: string)
    ensures Answers(crypto, key, files, now, request, Handle(crypto, key, files, now, request))
  {
    hide FirstLine;
    hide NextWord;
    hide StartsWithLine;
    hide WordThen;
    hide Serve;
    hide AnswersTarget;
    match FirstLine(request)
    case None => FirstLineIff(request, "");
    case Some(line) =>
      FirstLineIff(request, line);
      var (verb, rest) := NextWord(line);
      var (target, more) := NextWord(rest);
      NextWordIs(line);
      NextWordIs(rest);
      assert Begins(request, verb, target);
      ServeAnswers(crypto, key, files, now, target, verb == "HEAD");
  }

  // ---- The way back ----

  /** A client passes on everything but an image above twenty mebibytes, and the relay shows images and nothing else. */
  lemma OnlyImagesAreShown(result: Response, contentType: string, body: seq<Byte>)
    ensures ClientResult(result) == if |result.body| <= 20971520 then Some(result) else None
    ensures RelayAnswer(result) == Some((contentType, body)) <==>
              && result.status == 200 && |body| <= 20971520 && "image/" <= contentType
              && result.contentType == contentType && result.body == body
  {
  }
}
