/** Decimal numerals, letter case and white space, in terms of their characters. */
module TextFacts {
  import opened Prelude
  import opened Text
  import opened Joining

  predicate AllDigits(s: string) {
    forall i :: 0 <= i < |s| ==> '0' <= s[i] <= '9'
  }

  predicate Spelled(value: string, sign: string, digits: string, n: nat) {
    && value == sign + digits && (sign == "" || sign == "+")
    && digits != "" && AllDigits(digits) && DecimalValue(digits) == n
  }

  /** The value is n in decimal digits, with at most a plus sign in front, and n fits a machine word. */
  ghost predicate Numeral(value: string, n: nat) {
    n <= 18446744073709551615 && exists sign, digits :: Spelled(value, sign, digits, n)
  }

  lemma ParseIffNumeral(value: string, n: nat)
    ensures ParseUnsigned(value, 18446744073709551615) == Some(n) <==> Numeral(value, n)
  {
    hide DecimalValue;
    var digits := if value != [] && value[0] == '+' then value[1..] else value;
    if ParseUnsigned(value, 18446744073709551615) == Some(n) {
      var sign := if value != [] && value[0] == '+' then "+" else "";
      assert value == sign + digits;
      assert AllDigits(digits) by {
        forall i | 0 <= i < |digits| ensures '0' <= digits[i] <= '9' {
          assert digits[i] in digits && IsDigit(digits[i]);
        }
      }
      assert Spelled(value, sign, digits, n);
    }
    if Numeral(value, n) {
      var sign, spelled :| Spelled(value, sign, spelled, n);
      assert value[0] == '+' <==> sign == "+";
      assert digits == spelled;
    }
  }

  lemma SpelledLower(value: string, sign: string, digits: string, n: nat)
    ensures Spelled(ToLower(value), sign, digits, n) <==> Spelled(value, sign, digits, n)
  {
    hide DecimalValue;
    var whole, lower := sign + digits, ToLower(value);
    if lower == whole || value == whole {
      if AllDigits(digits) && (sign == "" || sign == "+") {
        assert forall i :: 0 <= i < |whole| ==> whole[i] == '+' || '0' <= whole[i] <= '9';
        assert forall i :: 0 <= i < |value| ==> lower[i] == ToLowerChar(value[i]);
        assert forall i :: 0 <= i < |value| ==> lower[i] == value[i];
        assert lower == value;
      }
    }
  }

  lemma NumeralLower(value: string, n: nat)
    ensures Numeral(ToLower(value), n) <==> Numeral(value, n)
  {
    hide Spelled;
    forall sign, digits ensures Spelled(ToLower(value), sign, digits, n) <==> Spelled(value, sign, digits, n) {
      SpelledLower(value, sign, digits, n);
    }
  }

  /** Lowering moves the characters 65 to 90 by 32 and leaves every other character. */
  lemma LowerCounterparts(s: string, i: nat)
    requires i < |s|
    ensures ToLower(s)[i] as int == if 65 <= s[i] as int <= 90 then s[i] as int + 32 else s[i] as int
  {
  }

  /** The code points of Unicode White_Space. */
  predicate BlankPoint(n: int) {
    9 <= n <= 13 || n == 32 || n == 133 || n == 160 || n == 5760 || 8192 <= n <= 8202
    || n == 8232 || n == 8233 || n == 8239 || n == 8287 || n == 12288
  }

  lemma WhitespaceIff(c: char)
    ensures IsWhitespace(c) <==> BlankPoint(c as int)
  {
  }

  predicate Blank(s: string) {
    forall i :: 0 <= i < |s| ==> BlankPoint(s[i] as int)
  }

  lemma {:induction false} TrimStartParts(s: string) returns (pre: string)
    ensures s == pre + TrimStart(s) && Blank(pre)
    ensures TrimStart(s) != "" ==> !IsWhitespace(TrimStart(s)[0])
  {
    pre := "";
    if s != [] && IsWhitespace(s[0]) {
      WhitespaceIff(s[0]);
      pre := TrimStartParts(s[1..]);
      pre := [s[0]] + pre;
    }
  }

  lemma {:induction false} TrimEndParts(s: string) returns (post: string)
    ensures s == TrimEnd(s) + post && Blank(post)
  {
    post := "";
    if s != [] && IsWhitespace(s[|s| - 1]) {
      WhitespaceIff(s[|s| - 1]);
      post := TrimEndParts(s[..|s| - 1]);
      assert s == s[..|s| - 1] + [s[|s| - 1]];
      post := post + [s[|s| - 1]];
    }
  }

  lemma {:induction false} TrimStartBlank(pre: string, s: string)
    requires Blank(pre) && s != "" && !IsWhitespace(s[0])
    ensures TrimStart(pre + s) == s
  {
    if pre == "" {
      assert pre + s == s;
    } else {
      assert (pre + s)[1..] == pre[1..] + s;
      WhitespaceIff(pre[0]);
      TrimStartBlank(pre[1..], s);
    }
  }

  lemma {:induction false} TrimEndBlank(s: string, post: string)
    requires Blank(post) && s != "" && !IsWhitespace(s[|s| - 1])
    ensures TrimEnd(s + post) == s
  {
    if post == "" {
      assert s + post == s;
    } else {
      assert (s + post)[..|s + post| - 1] == s + post[..|post| - 1];
      WhitespaceIff(post[|post| - 1]);
      TrimEndBlank(s, post[..|post| - 1]);
    }
  }

  lemma TrimBlank(pre: string, s: string, post: string)
    requires Blank(pre) && Blank(post) && s != "" && !IsWhitespace(s[0]) && !IsWhitespace(s[|s| - 1])
    ensures Trim(pre + s + post) == s
  {
    assert pre + s + post == pre + (s + post);
    TrimStartBlank(pre, s + post);
    TrimEndBlank(s, post);
  }

  lemma TrimParts(s: string) returns (pre: string, post: string)
    ensures s == pre + Trim(s) + post && Blank(pre) && Blank(post)
  {
    pre := TrimStartParts(s);
    post := TrimEndParts(TrimStart(s));
  }

  lemma {:induction false} TrimEndKeeps(s: string)
    requires s != "" && !IsWhitespace(s[0])
    ensures TrimEnd(s) != ""
  {
    if IsWhitespace(s[|s| - 1]) {
      TrimEndKeeps(s[..|s| - 1]);
    }
  }

  lemma TrimEmptyIff(s: string)
    ensures Trim(s) == "" <==> Blank(s)
  {
    var pre := TrimStartParts(s);
    if TrimStart(s) != "" {
      TrimEndKeeps(TrimStart(s));
      WhitespaceIff(TrimStart(s)[0]);
      assert s[|pre|] == TrimStart(s)[0];
    }
  }

  /** A hexadecimal digit in either letter case, by its code point. */
  lemma HexDigitIff(c: char, d: nat)
    ensures IsHexDigit(c) && HexValue(c) == d <==>
              (d < 10 && c as int == 48 + d) || (10 <= d < 16 && (c as int == 87 + d || c as int == 55 + d))
  {
  }

  // ---- Pieces between separators ----

  predicate WithoutAny(pieces: seq<string>, separator: char) {
    forall k :: 0 <= k < |pieces| ==> separator !in pieces[k]
  }

  lemma {:induction false} FirstPieceBegins(s: string, separator: char)
    ensures var first := Split(s, separator)[0]; first <= s && (s[|first|..] == "" || s[|first|..][0] == separator)
  {
    if s != [] && s[0] != separator {
      FirstPieceBegins(s[1..], separator);
      assert s == [s[0]] + s[1..];
      assert Split(s, separator)[0] == [s[0]] + Split(s[1..], separator)[0];
    }
  }

  lemma {:induction false} JoinedCons(piece: string, pieces: seq<string>, separator: string)
    requires pieces != []
    ensures Joined([piece] + pieces, separator) == piece + separator + Joined(pieces, separator)
  {
    var all, n := [piece] + pieces, |pieces|;
    if n == 1 {
      assert all[..1] == [piece];
    } else {
      assert all[..n] == [piece] + pieces[..n - 1];
      JoinedCons(piece, pieces[..n - 1], separator);
    }
  }

  lemma {:induction false} SplitJoins(s: string, separator: char)
    ensures Joined(Split(s, separator), [separator]) == s && WithoutAny(Split(s, separator), separator)
  {
    if s != "" {
      var rest := Split(s[1..], separator);
      SplitJoins(s[1..], separator);
      assert s == [s[0]] + s[1..];
      if s[0] == separator {
        JoinedCons("", rest, [separator]);
      } else if |rest| == 1 {
        assert rest[1..] == [];
      } else {
        JoinedCons(rest[0], rest[1..], [separator]);
        JoinedCons([s[0]] + rest[0], rest[1..], [separator]);
        assert [rest[0]] + rest[1..] == rest;
      }
    }
  }

  lemma {:induction false} JoinedSplits(pieces: seq<string>, separator: char)
    requires pieces != [] && WithoutAny(pieces, separator)
    ensures Split(Joined(pieces, [separator]), separator) == pieces
  {
    var rest := pieces[1..];
    if rest == [] {
      SplitNone(pieces[0], separator);
    } else {
      JoinedSplits(rest, separator);
      JoinedCons(pieces[0], rest, [separator]);
      assert [pieces[0]] + rest == pieces;
      SplitJoin(pieces[0], separator, Joined(rest, [separator]));
    }
  }

  /** Splitting gives the one list of pieces without the separator that joins to the text. */
  lemma SplitIff(s: string, separator: char, pieces: seq<string>)
    ensures Split(s, separator) == pieces <==>
              pieces != [] && WithoutAny(pieces, separator) && Joined(pieces, [separator]) == s
  {
    SplitJoins(s, separator);
    if pieces != [] && WithoutAny(pieces, separator) {
      JoinedSplits(pieces, separator);
    }
  }
}
