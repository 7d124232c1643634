/** Searching, splitting and number printing on sequences and strings, as the Rust standard library defines them. */
module Text {
  import opened Prelude

  predicate MatchAt<T(==)>(s: seq<T>, pattern: seq<T>, i: nat) {
    i + |pattern| <= |s| && s[i..i + |pattern|] == pattern
  }

  /** The first match of pattern at or after start. */
  function Find<T(==)>(s: seq<T>, pattern: seq<T>, start: nat): (r: Option<nat>)
    requires start <= |s|
    ensures r.Some? ==> start <= r.value && MatchAt(s, pattern, r.value)
    ensures r.Some? ==> forall j :: start <= j < r.value ==> !MatchAt(s, pattern, j)
    ensures r.None? ==> forall j :: start <= j ==> !MatchAt(s, pattern, j)
    decreases |s| - start
  {
    if MatchAt(s, pattern, start) then Some(start)
    else if start == |s| then None
    else Find(s, pattern, start + 1)
  }

  predicate Mentions(text: string, part: string) {
    Find(text, part, 0).Some?
  }

  predicate EndsWith(s: string, suffix: string) {
    |suffix| <= |s| && s[|s| - |suffix|..] == suffix
  }

  ghost predicate Contains<T>(s: seq<T>, pattern: seq<T>) {
    exists i: nat :: MatchAt(s, pattern, i)
  }

  lemma MatchedElement<T>(s: seq<T>, pattern: seq<T>, i: nat, k: nat)
    requires MatchAt(s, pattern, i) && k < |pattern|
    ensures s[i + k] == pattern[k]
  {
    assert s[i..i + |pattern|][k] == s[i + k];
  }

  lemma SliceOfSlice<T>(s: seq<T>, a: nat, b: nat, i: nat, j: nat)
    requires a <= b <= |s| && i <= j <= b - a
    ensures s[a..b][i..j] == s[a + i..a + j]
  {
    forall k | 0 <= k < j - i ensures s[a..b][i..j][k] == s[a + i..a + j][k] {
      assert s[a..b][i + k] == s[a + i + k];
    }
  }

  lemma ContainedInPart<T>(whole: seq<T>, from: nat, to: nat, pattern: seq<T>)
    requires from <= to <= |whole| && Contains(whole[from..to], pattern)
    ensures Contains(whole, pattern)
  {
    var part := whole[from..to];
    var i: nat :| MatchAt(part, pattern, i);
    SliceOfSlice(whole, from, to, i, i + |pattern|);
    assert MatchAt(whole, pattern, from + i);
  }

  /** A match crosses no element that the pattern does not hold. */
  lemma DelimitedBy<T>(a: seq<T>, c: T, b: seq<T>, pattern: seq<T>)
    requires c !in pattern && pattern != []
    ensures Contains(a + [c] + b, pattern) <==> Contains(a, pattern) || Contains(b, pattern)
  {
    var whole := a + [c] + b;
    assert whole[0..|a|] == a && whole[|a| + 1..|whole|] == b;
    if Contains(a, pattern) {
      ContainedInPart(whole, 0, |a|, pattern);
    }
    if Contains(b, pattern) {
      ContainedInPart(whole, |a| + 1, |whole|, pattern);
    }
    if Contains(whole, pattern) {
      var i: nat :| MatchAt(whole, pattern, i);
      if i + |pattern| <= |a| {
        SliceOfSlice(whole, 0, |a|, i, i + |pattern|);
        assert MatchAt(a, pattern, i);
      } else if i > |a| {
        var k: nat := i - |a| - 1;
        SliceOfSlice(whole, |a| + 1, |whole|, k, k + |pattern|);
        assert MatchAt(b, pattern, k);
      } else {
        MatchedElement(whole, pattern, i, |a| - i);
      }
    }
  }

  /** The first position of an element that satisfies p. */
  function FindWhere<T>(s: seq<T>, p: T -> bool): (r: Option<nat>)
    ensures r.Some? ==> r.value < |s| && p(s[r.value]) && forall j :: 0 <= j < r.value ==> !p(s[j])
    ensures r.None? ==> forall j :: 0 <= j < |s| ==> !p(s[j])
  {
    if s == [] then None
    else if p(s[0]) then Some(0)
    else
      match FindWhere(s[1..], p)
      case None => None
      case Some(i) => Some(i + 1)
  }

  /** The pieces of s between occurrences of one separator element; never empty. */
  function Split<T(==)>(s: seq<T>, separator: T): (r: seq<seq<T>>)
    ensures |r| > 0
  {
    if s == [] then [[]]
    else
      var rest := Split(s[1..], separator);
      if s[0] == separator then [[]] + rest else [[s[0]] + rest[0]] + rest[1..]
  }

  function SplitOnce<T(==)>(s: seq<T>, separator: T): (r: Option<(seq<T>, seq<T>)>)
    ensures r.Some? ==> s == r.value.0 + [separator] + r.value.1 && separator !in r.value.0
    ensures r.None? ==> separator !in s
  {
    if s == [] then None
    else if s[0] == separator then Some(([], s[1..]))
    else
      match SplitOnce(s[1..], separator)
      case None => None
      case Some((a, b)) => Some(([s[0]] + a, b))
  }

  lemma {:induction false} SplitOnceJoin<T>(a: seq<T>, separator: T, b: seq<T>)
    requires separator !in a
    ensures SplitOnce(a + [separator] + b, separator) == Some((a, b))
  {
    var s := a + [separator] + b;
    if a == [] {
      assert s[1..] == b;
    } else {
      assert s[1..] == a[1..] + [separator] + b && s[0] == a[0];
      SplitOnceJoin(a[1..], separator, b);
      assert [a[0]] + a[1..] == a;
    }
  }

  lemma {:induction false} SplitNone<T>(s: seq<T>, separator: T)
    requires separator !in s
    ensures Split(s, separator) == [s]
  {
    if s != [] {
      SplitNone(s[1..], separator);
      assert [s[0]] + s[1..] == s;
    }
  }

  lemma {:induction false} SplitJoin<T>(a: seq<T>, separator: T, b: seq<T>)
    requires separator !in a
    ensures Split(a + [separator] + b, separator) == [a] + Split(b, separator)
  {
    var s := a + [separator] + b;
    if a == [] {
      assert s[1..] == b;
    } else {
      assert s[1..] == a[1..] + [separator] + b && s[0] == a[0];
      SplitJoin(a[1..], separator, b);
      assert [a[0]] + a[1..] == a;
    }
  }

  predicate IsDigit(c: char) {
    '0' <= c <= '9'
  }

  predicate IsHexDigit(c: char) {
    '0' <= c <= '9' || 'a' <= c <= 'f' || 'A' <= c <= 'F'
  }

  function HexValue(c: char): (d: nat)
    requires IsHexDigit(c)
    ensures d < 16
  {
    if '0' <= c <= '9' then (c - '0') as int
    else if 'a' <= c <= 'f' then (c - 'a') as int + 10
    else (c - 'A') as int + 10
  }

  /** The lower-case hexadecimal digit. */
  function HexChar(d: nat): (c: char)
    requires d < 16
    ensures IsHexDigit(c) && HexValue(c) == d
  {
    if d < 10 then '0' + (d as char) else 'a' + ((d - 10) as char)
  }

  function DigitValue(c: char): (d: nat)
    requires IsDigit(c)
    ensures d < 10
  {
    (c - '0') as int
  }

  function DigitChar(d: nat): (c: char)
    requires d < 10
    ensures IsDigit(c) && DigitValue(c) == d
  {
    '0' + (d as char)
  }

  /** Decimal digits of n without leading zeros, as integer formatting prints them. */
  function Decimal(n: nat): (s: string)
    ensures s != [] && forall c <- s :: IsDigit(c)
  {
    if n < 10 then [DigitChar(n)] else Decimal(n / 10) + [DigitChar(n % 10)]
  }

  function DecimalValue(s: string): (n: nat)
    requires forall c <- s :: IsDigit(c)
  {
    if s == [] then 0 else DecimalValue(s[..|s| - 1]) * 10 + DigitValue(s[|s| - 1])
  }

  lemma {:induction false} DecimalRoundTrip(n: nat)
    ensures DecimalValue(Decimal(n)) == n
  {
    if n >= 10 {
      DecimalRoundTrip(n / 10);
      assert Decimal(n)[..|Decimal(n)| - 1] == Decimal(n / 10);
    }
  }

  /** Unsigned integer parsing: an optional plus sign, then at least one digit, at most max. */
  function ParseUnsigned(s: string, max: nat): (r: Option<nat>)
  {
    var digits := if s != [] && s[0] == '+' then s[1..] else s;
    if digits != [] && (forall c <- digits :: IsDigit(c)) && DecimalValue(digits) <= max
    then Some(DecimalValue(digits)) else None
  }

  lemma ParseDecimal(n: nat, max: nat)
    requires n <= max
    ensures ParseUnsigned(Decimal(n), max) == Some(n)
  {
    DecimalRoundTrip(n);
    assert IsDigit(Decimal(n)[0]);
  }

  function ToLowerChar(c: char): char {
    if 'A' <= c <= 'Z' then c - 'A' + 'a' else c
  }

  function ToLower(s: string): (r: string)
    ensures |r| == |s| && forall i :: 0 <= i < |s| ==> r[i] == ToLowerChar(s[i])
  {
    seq(|s|, i requires 0 <= i < |s| => ToLowerChar(s[i]))
  }

  /** Unicode White_Space. */
  predicate IsWhitespace(c: char) {
    '\t' <= c <= '\r' || c == ' ' || c == '\U{85}' || c == '\U{A0}' || c == '\U{1680}'
    || '\U{2000}' <= c <= '\U{200A}' || c == '\U{2028}' || c == '\U{2029}' || c == '\U{202F}'
    || c == '\U{205F}' || c == '\U{3000}'
  }

  function TrimStart(s: string): string {
    if s != [] && IsWhitespace(s[0]) then TrimStart(s[1..]) else s
  }

  function TrimEnd(s: string): string {
    if s != [] && IsWhitespace(s[|s| - 1]) then TrimEnd(s[..|s| - 1]) else s
  }

  function Trim(s: string): string {
    TrimEnd(TrimStart(s))
  }

  lemma TrimNone(s: string)
    requires s != [] ==> !IsWhitespace(s[0]) && !IsWhitespace(s[|s| - 1])
    ensures Trim(s) == s
  {
  }
}
