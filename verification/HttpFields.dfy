/** What a start line, a list of codings, and a length field say, in terms of their characters (RFC 9110 and RFC 9112). */
module HttpFields {
  import opened Prelude
  import opened Text
  import opened TextFacts
  import opened Utf8
  import opened Reassembly
  import opened Http

  // ---- Start lines ----

  predicate Begins(response: bool, line: string) {
    if response then "HTTP/1.1 " <= line || "HTTP/1.0 " <= line
    else "POST " <= line || "PUT " <= line || "PATCH " <= line || "GET " <= line || "DELETE " <= line
  }

  /** The patterns searched for are exactly the beginnings of start lines. */
  lemma BeginsIff(response: bool, line: string)
    ensures (exists k :: 0 <= k < |Patterns(response)| && Patterns(response)[k] <= line) <==> Begins(response, line)
  {
    var patterns := Patterns(response);
    if response {
      assert Begins(true, line) <==> patterns[0] <= line || patterns[1] <= line;
    } else {
      assert Begins(false, line) <==>
        patterns[0] <= line || patterns[1] <= line || patterns[2] <= line || patterns[3] <= line || patterns[4] <= line;
    }
  }

  predicate StandsAt(bytes: seq<Byte>, line: string, j: nat) {
    IsAscii(line) && MatchAt(bytes, Ascii(line), j)
  }

  /** The beginning of a start line stands at j. */
  ghost predicate StartsAt(response: bool, bytes: seq<Byte>, j: nat) {
    exists line: string :: Begins(response, line) && StandsAt(bytes, line, j)
  }

  lemma PrefixStands(bytes: seq<Byte>, pattern: string, line: string, j: nat)
    requires StandsAt(bytes, line, j) && pattern <= line
    ensures StandsAt(bytes, pattern, j)
  {
    assert bytes[j..j + |pattern|] == bytes[j..j + |line|][..|pattern|] == Ascii(pattern);
  }

  lemma StartsIff(response: bool, bytes: seq<Byte>, j: nat)
    ensures AllAscii(Patterns(response))
    ensures AnyMatch(bytes, Patterns(response), j) <==> StartsAt(response, bytes, j)
  {
    PatternsEndInTheirOnlySpace(response);
    var patterns := Patterns(response);
    hide Patterns;
    hide Begins;
    hide MatchAt;
    if AnyMatch(bytes, patterns, j) {
      var k :| 0 <= k < |patterns| && MatchAt(bytes, Ascii(patterns[k]), j);
      BeginsIff(response, patterns[k]);
      assert StandsAt(bytes, patterns[k], j);
    }
    if StartsAt(response, bytes, j) {
      var line :| Begins(response, line) && StandsAt(bytes, line, j);
      BeginsIff(response, line);
      var k :| 0 <= k < |patterns| && patterns[k] <= line;
      PrefixStands(bytes, patterns[k], line, j);
    }
  }

  /** A search finds the first beginning of a start line at or after offset. */
  lemma FirstStart(response: bool, bytes: seq<Byte>, offset: nat)
    requires offset <= |bytes|
    ensures AllAscii(Patterns(response))
    ensures match FindStart(bytes, Patterns(response), offset)
            case None => forall j: nat :: offset <= j ==> !StartsAt(response, bytes, j)
            case Some(start) => offset <= start && StartsAt(response, bytes, start)
                                && forall j: nat :: offset <= j < start ==> !StartsAt(response, bytes, j)
  {
    PatternsEndInTheirOnlySpace(response);
    hide FindStart;
    hide Patterns;
    hide StartsAt;
    hide AnyMatch;
    forall j: nat ensures AnyMatch(bytes, Patterns(response), j) <==> StartsAt(response, bytes, j) {
      StartsIff(response, bytes, j);
    }
    var r := FindStart(bytes, Patterns(response), offset);
  }

  // ---- Lists of codings ----

  predicate Bare(token: string) {
    token != "" && ',' !in token && !IsWhitespace(token[0]) && !IsWhitespace(token[|token| - 1])
  }

  predicate ListedBetween(value: string, token: string, front: string, pre: string, post: string, back: string) {
    && value == front + (pre + token + post) + back && Blank(pre) && Blank(post)
    && (front == "" || front[|front| - 1] == ',') && (back == "" || back[0] == ',')
  }

  /** One member of the comma-separated list is the token, with nothing but blanks around it. */
  ghost predicate Lists(value: string, token: string) {
    exists front, pre, post, back :: ListedBetween(value, token, front, pre, post, back)
  }

  predicate PieceBetween(s: string, part: string, front: string, back: string) {
    && s == front + part + back && ',' !in part
    && (front == "" || front[|front| - 1] == ',') && (back == "" || back[0] == ',')
  }

  lemma PieceBehind(c: char, s: string, part: string, front: string, back: string)
    requires PieceBetween(s, part, front, back) && (c == ',' || front != "")
    ensures PieceBetween([c] + s, part, [c] + front, back)
  {
    assert [c] + s == [c] + front + part + back;
  }

  lemma PieceGrows(c: char, s: string, part: string, back: string)
    requires PieceBetween(s, part, "", back) && c != ','
    ensures PieceBetween([c] + s, [c] + part, "", back)
  {
    assert [c] + s == "" + ([c] + part) + back;
  }

  lemma {:induction false} PieceStands(s: string, k: nat) returns (front: string, back: string)
    requires k < |Split(s, ',')|
    ensures PieceBetween(s, Split(s, ',')[k], front, back)
    ensures k == 0 <==> front == ""
  {
    if s == [] {
      return "", "";
    }
    assert s == [s[0]] + s[1..];
    var there := if s[0] == ',' then k - 1 else k;
    if there < 0 {
      return "", s;
    }
    front, back := PieceStands(s[1..], there);
    var part := Split(s[1..], ',')[there];
    hide PieceBetween;
    if front == "" && s[0] != ',' {
      PieceGrows(s[0], s[1..], part, back);
    } else {
      PieceBehind(s[0], s[1..], part, front, back);
      front := [s[0]] + front;
    }
  }

  lemma {:induction false} PieceListed(s: string, part: string, front: string, back: string)
    requires PieceBetween(s, part, front, back)
    ensures part in Split(s, ',')
    decreases |front|
  {
    if front == "" {
      if back == "" {
        assert s == part;
        SplitNone(part, ',');
      } else {
        assert s == part + [','] + back[1..];
        SplitJoin(part, ',', back[1..]);
      }
      assert Split(s, ',')[0] == part;
    } else if s[0] == ',' {
      assert s[1..] == front[1..] + part + back;
      PieceListed(s[1..], part, front[1..], back);
      var rest := Split(s[1..], ',');
      var k :| 0 <= k < |rest| && rest[k] == part;
      assert Split(s, ',')[k + 1] == part;
    } else {
      assert s[1..] == front[1..] + part + back && s[0] == front[0] && |front| > 1;
      BehindFirst(s[1..], part, front[1..], back);
    }
  }

  /** A piece that does not stand first is still a piece when one more character stands in front of all. */
  lemma {:induction false} BehindFirst(s: string, part: string, front: string, back: string)
    requires PieceBetween(s, part, front, back) && front != ""
    ensures exists k :: 0 < k < |Split(s, ',')| && Split(s, ',')[k] == part
    decreases |front|
  {
    var rest := Split(s[1..], ',');
    assert s[1..] == front[1..] + part + back && s[0] == front[0];
    if s[0] == ',' {
      PieceListed(s[1..], part, front[1..], back);
      var k :| 0 <= k < |rest| && rest[k] == part;
      assert Split(s, ',')[k + 1] == part;
    } else {
      BehindFirst(s[1..], part, front[1..], back);
      var k :| 0 < k < |rest| && rest[k] == part;
      assert Split(s, ',')[k] == part;
    }
  }

  /** The decoder finds a coding in a field value exactly when the value lists it. */
  lemma ListsTokenIff(value: string, token: string)
    requires Bare(token)
    ensures ListsToken(value, token) <==> Lists(value, token)
  {
    hide Split;
    hide Trim;
    if ListsToken(value, token) {
      var parts := Split(value, ',');
      var part :| part in parts && Trim(part) == token;
      var k :| 0 <= k < |parts| && parts[k] == part;
      var front, back := PieceStands(value, k);
      var pre, post := TrimParts(part);
      assert ListedBetween(value, token, front, pre, post, back);
    }
    if Lists(value, token) {
      var front, pre, post, back :| ListedBetween(value, token, front, pre, post, back);
      PieceListed(value, pre + token + post, front, back);
      TrimBlank(pre, token, post);
    }
  }

  // ---- Lengths ----

  /** The body length a message announces: none when the field is missing or is not a numeral. */
  ghost predicate Announces(field: Option<string>, n: nat) {
    match field
    case None => n == 0
    case Some(value) => Numeral(value, n) || (n == 0 && forall m: nat :: !Numeral(value, m))
  }

  function Lowered(field: Option<string>): Option<string> {
    match field
    case None => None
    case Some(value) => Some(ToLower(value))
  }

  /** The decoder takes a body to be as long as the length field announces, in any letter case. */
  lemma LengthIff(headers: Headers, field: Option<string>, n: nat)
    requires Announces(field, n)
    requires match Lowered(field) case None => "content-length" !in headers
             case Some(value) => "content-length" in headers && headers["content-length"] == value
    ensures ContentLength(headers) == n
  {
    hide ParseUnsigned;
    hide Numeral;
    if field.Some? {
      var lower := ToLower(field.value);
      forall m: nat ensures Numeral(lower, m) <==> ParseUnsigned(lower, USIZE_MAX) == Some(m) {
        ParseIffNumeral(lower, m);
      }
      forall m: nat ensures Numeral(lower, m) <==> Numeral(field.value, m) {
        NumeralLower(field.value, m);
      }
    }
  }
}
