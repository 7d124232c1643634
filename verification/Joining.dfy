/** Texts joined by a separator, and where each of them stands in the result. */
module Joining {

  function Joined(texts: seq<string>, separator: string): string {
    if texts == [] then ""
    else if |texts| == 1 then texts[0]
    else Joined(texts[..|texts| - 1], separator) + separator + texts[|texts| - 1]
  }

  /** Where text k begins when every text before it takes its length and that of the separator. */
  function Offset(texts: seq<string>, gap: nat, k: nat): nat
    requires k <= |texts|
  {
    if k == 0 then 0 else Offset(texts, gap, k - 1) + |texts[k - 1]| + gap
  }

  predicate PartAt(s: string, part: string, at: nat) {
    at + |part| <= |s| && s[at..at + |part|] == part
  }

  ghost predicate AllParts(s: string, texts: seq<string>, gap: nat) {
    forall k :: 0 <= k < |texts| ==> PartAt(s, texts[k], Offset(texts, gap, k))
  }

  ghost predicate AllBreaks(s: string, texts: seq<string>, separator: string) {
    forall k :: 0 <= k < |texts| - 1 ==> PartAt(s, separator, Offset(texts, |separator|, k) + |texts[k]|)
  }

  /** s is made of the texts in order, each whole at its offset, with the separator between neighbours and nothing else. */
  ghost predicate Separated(s: string, texts: seq<string>, separator: string) {
    && (texts == [] ==> s == "")
    && (texts != [] ==> |s| + |separator| == Offset(texts, |separator|, |texts|))
    && AllParts(s, texts, |separator|) && AllBreaks(s, texts, separator)
  }

  lemma {:induction false} SameOffset(texts: seq<string>, text: string, gap: nat, k: nat)
    requires k <= |texts|
    ensures Offset(texts + [text], gap, k) == Offset(texts, gap, k)
  {
    if k > 0 {
      SameOffset(texts, text, gap, k - 1);
    }
  }

  lemma PartStays(s: string, separator: string, text: string, part: string, at: nat)
    ensures PartAt(s, part, at) ==> PartAt(s + separator + text, part, at)
  {
    if PartAt(s, part, at) {
      assert (s + separator + text)[at..at + |part|] == s[at..at + |part|];
    }
  }

  lemma LastParts(s: string, separator: string, text: string)
    ensures PartAt(s + separator + text, separator, |s|)
    ensures PartAt(s + separator + text, text, |s| + |separator|)
  {
    var whole := s + separator + text;
    assert whole[|s|..|s| + |separator|] == separator;
    assert whole[|s| + |separator|..|s| + |separator| + |text|] == text;
  }

  lemma LastEnd(s: string, texts: seq<string>, gap: nat)
    requires texts != [] && |s| + gap == Offset(texts, gap, |texts|)
    ensures Offset(texts, gap, |texts| - 1) + |texts[|texts| - 1]| == |s|
  {
  }

  lemma PartSnoc(s: string, texts: seq<string>, separator: string, text: string, k: nat)
    requires |s| + |separator| == Offset(texts, |separator|, |texts|) && k <= |texts|
    requires k < |texts| ==> PartAt(s, texts[k], Offset(texts, |separator|, k))
    ensures PartAt(s + separator + text, (texts + [text])[k], Offset(texts + [text], |separator|, k))
  {
    SameOffset(texts, text, |separator|, k);
    LastParts(s, separator, text);
    hide PartAt;
    hide Offset;
    if k < |texts| {
      PartStays(s, separator, text, texts[k], Offset(texts, |separator|, k));
    }
  }

  lemma BreakSnoc(s: string, texts: seq<string>, separator: string, text: string, k: nat)
    requires k < |texts| && |s| + |separator| == Offset(texts, |separator|, |texts|)
    requires k < |texts| - 1 ==> PartAt(s, separator, Offset(texts, |separator|, k) + |texts[k]|)
    ensures PartAt(s + separator + text, separator, Offset(texts + [text], |separator|, k) + |texts[k]|)
  {
    hide PartAt;
    hide Offset;
    LastEnd(s, texts, |separator|);
    SameOffset(texts, text, |separator|, k);
    LastParts(s, separator, text);
    PartStays(s, separator, text, separator, Offset(texts, |separator|, k) + |texts[k]|);
  }

  lemma PartsSnoc(s: string, texts: seq<string>, separator: string, text: string)
    requires |s| + |separator| == Offset(texts, |separator|, |texts|) && AllParts(s, texts, |separator|)
    ensures AllParts(s + separator + text, texts + [text], |separator|)
  {
    hide PartAt;
    hide Offset;
    forall k | 0 <= k < |texts + [text]| ensures PartAt(s + separator + text, (texts + [text])[k], Offset(texts + [text], |separator|, k)) {
      PartSnoc(s, texts, separator, text, k);
    }
  }

  lemma BreaksSnoc(s: string, texts: seq<string>, separator: string, text: string)
    requires |s| + |separator| == Offset(texts, |separator|, |texts|) && AllBreaks(s, texts, separator)
    ensures AllBreaks(s + separator + text, texts + [text], separator)
  {
    hide PartAt;
    hide Offset;
    forall k | 0 <= k < |texts + [text]| - 1
      ensures PartAt(s + separator + text, separator, Offset(texts + [text], |separator|, k) + |(texts + [text])[k]|)
    {
      BreakSnoc(s, texts, separator, text, k);
    }
  }

  lemma SeparatedSnoc(s: string, texts: seq<string>, separator: string, text: string)
    requires Separated(s, texts, separator) && texts != []
    ensures Separated(s + separator + text, texts + [text], separator)
  {
    hide AllParts;
    hide AllBreaks;
    SameOffset(texts, text, |separator|, |texts|);
    PartsSnoc(s, texts, separator, text);
    BreaksSnoc(s, texts, separator, text);
  }

  lemma OneSeparated(text: string, separator: string)
    ensures Separated(text, [text], separator)
  {
    assert Offset([text], |separator|, 1) == Offset([text], |separator|, 0) + |text| + |separator|;
    assert text[0..|text|] == text;
  }

  /** Joining puts every text in, whole and in order, with exactly the separator between neighbours. */
  lemma {:induction false} JoinedIsSeparated(texts: seq<string>, separator: string)
    ensures Separated(Joined(texts, separator), texts, separator)
  {
    hide Offset;
    if |texts| == 1 {
      OneSeparated(texts[0], separator);
      assert texts == [texts[0]];
    } else if texts != [] {
      var n := |texts| - 1;
      JoinedIsSeparated(texts[..n], separator);
      hide Separated;
      SeparatedSnoc(Joined(texts[..n], separator), texts[..n], separator, texts[n]);
      assert texts[..n] + [texts[n]] == texts;
    }
  }
}
