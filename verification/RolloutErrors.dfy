/** Scrubbing inline images never makes a text look like a context-window error. */
module RolloutErrors {
  import opened Prelude
  import opened Text
  import opened DataUri
  import opened Rollout

  lemma MissingChar(text: string, needle: string, c: char)
    requires c in needle && c !in text
    ensures !Contains(text, needle)
  {
    var k :| 0 <= k < |needle| && needle[k] == c;
    forall i: nat ensures !MatchAt(text, needle, i) {
      if i + |needle| <= |text| {
        assert text[i..i + |needle|][k] == text[i + k];
        assert text[i + k] in text;
      }
    }
  }

  lemma MentionsIff(text: string, needle: string)
    ensures Mentions(text, needle) <==> Contains(text, needle)
  {
    if Contains(text, needle) {
      var i: nat :| MatchAt(text, needle, i);
    }
  }

  lemma LowerConcat(a: string, b: string)
    ensures ToLower(a + b) == ToLower(a) + ToLower(b)
  {
  }

  /** The needle holds a character that the piece does not. */
  predicate Foreign(needle: string, piece: string) {
    exists k :: 0 <= k < |needle| && needle[k] !in piece
  }

  lemma ForeignIsNotThere(piece: string, needle: string)
    requires Foreign(needle, piece)
    ensures !Contains(piece, needle)
  {
    var k :| 0 <= k < |needle| && needle[k] !in piece;
    MissingChar(piece, needle, needle[k]);
  }

  const NOTE_HEAD := "context-guardian" + ":inline-image-placeholder" + " thread"
  const SIZE_CHARS := "0123456789" + " original_file"
  const THREAD_CHARS := "0123456789" + "abcdef-"

  /** Every space is followed by something that the word behind a media type does not begin with. */
  predicate SpacesLeadElsewhere(needle: string) {
    forall k :: 0 <= k < |needle| && needle[k] == ' ' ==> k + 1 < |needle| && needle[k + 1] != 'r'
  }

  /** What keeps a needle from matching inside a placeholder, or across its edges. */
  predicate Unplaced(needle: string) {
    && '[' !in needle && ']' !in needle && '=' !in needle
    && Foreign(needle, NOTE_HEAD)
    && Foreign(needle, THREAD_CHARS + " mime")
    && Foreign(needle, SIZE_CHARS)
    && Foreign(needle, UNKNOWN_PATH)
    && Foreign(needle, "image/*")
    && Foreign(needle, "removed_bytes")
    && SpacesLeadElsewhere(needle)
  }

  lemma MiddleChars()
    ensures var b := ":inline-image-placeholder"; '_' !in b && 's' !in b && 'v' !in b && 'w' !in b
  {
  }

  lemma HeadChars()
    ensures '_' !in NOTE_HEAD && 's' !in NOTE_HEAD && 'v' !in NOTE_HEAD && 'w' !in NOTE_HEAD
  {
    var a, c := "context-guardian", " thread";
    assert '_' !in a && 's' !in a && 'v' !in a && 'w' !in a;
    MiddleChars();
    assert '_' !in c && 's' !in c && 'v' !in c && 'w' !in c;
  }

  lemma ThreadPieceChars()
    ensures 'g' !in THREAD_CHARS + " mime" && 'o' !in THREAD_CHARS + " mime" && 'v' !in THREAD_CHARS + " mime" && 'x' !in THREAD_CHARS + " mime"
  {
  }

  lemma SizePieceChars()
    ensures 'c' !in SIZE_CHARS && 'm' !in SIZE_CHARS && 'v' !in SIZE_CHARS && 'x' !in SIZE_CHARS
  {
  }

  lemma PathPieceChars()
    ensures '_' !in UNKNOWN_PATH && 'c' !in UNKNOWN_PATH && 'v' !in UNKNOWN_PATH && 'x' !in UNKNOWN_PATH
  {
  }

  lemma DefaultMimeChars()
    ensures '_' !in "image/*" && 'c' !in "image/*" && 'v' !in "image/*" && 'x' !in "image/*"
  {
  }

  lemma RemovedPieceChars()
    ensures 'c' !in "removed_bytes" && 'f' !in "removed_bytes" && 'i' !in "removed_bytes" && 'l' !in "removed_bytes" && 'x' !in "removed_bytes"
  {
  }

  /** Letters, underscores and spaces only, every space leading elsewhere. */
  predicate PlainNeedle(needle: string) {
    (forall k :: 0 <= k < |needle| ==> 'a' <= needle[k] <= 'z' || needle[k] == '_' || needle[k] == ' ') && SpacesLeadElsewhere(needle)
  }

  lemma PlainContextNeedles()
    ensures PlainNeedle("context_window_exceeded") && PlainNeedle("context window")
    ensures PlainNeedle("exceeds the context")
  {
  }

  lemma PlainOtherNeedles()
    ensures PlainNeedle("input exceeds") && PlainNeedle("image_url")
    ensures PlainNeedle("invalid format") && PlainNeedle("valid url")
  {
  }

  lemma NoBracketIn(needle: string)
    requires PlainNeedle(needle)
    ensures '[' !in needle && ']' !in needle && '=' !in needle && SpacesLeadElsewhere(needle)
  {
  }

  lemma IsForeign(needle: string, c: char, piece: string)
    requires c in needle && c !in piece
    ensures Foreign(needle, piece)
  {
    var k :| 0 <= k < |needle| && needle[k] == c;
    assert needle[k] !in piece;
  }

  /** One character of the needle is foreign to each piece of a note. */
  lemma UnplacedBy(needle: string, head: char, thread: char, size: char, path: char, mime: char, bytes: char)
    requires PlainNeedle(needle)
    requires head in needle && thread in needle && size in needle && path in needle && mime in needle && bytes in needle
    requires head !in NOTE_HEAD && thread !in THREAD_CHARS + " mime" && size !in SIZE_CHARS
    requires path !in UNKNOWN_PATH && mime !in "image/*" && bytes !in "removed_bytes"
    ensures Unplaced(needle)
  {
    hide Foreign;
    NoBracketIn(needle);
    IsForeign(needle, head, NOTE_HEAD);
    IsForeign(needle, thread, THREAD_CHARS + " mime");
    IsForeign(needle, size, SIZE_CHARS);
    IsForeign(needle, path, UNKNOWN_PATH);
    IsForeign(needle, mime, "image/*");
    IsForeign(needle, bytes, "removed_bytes");
  }

  lemma NeedleChars()
    ensures '_' in "context_window_exceeded" && 'o' in "context_window_exceeded" && 'c' in "context_window_exceeded"
    ensures 'w' in "context window" && 'o' in "context window" && 'c' in "context window"
    ensures 's' in "exceeds the context" && 'x' in "exceeds the context" && 'c' in "exceeds the context"
    ensures 's' in "input exceeds" && 'x' in "input exceeds"
  {
    assert "context_window_exceeded"[0] == 'c' && "context_window_exceeded"[1] == 'o' && "context_window_exceeded"[7] == '_';
    assert "context window"[0] == 'c' && "context window"[1] == 'o' && "context window"[8] == 'w';
    assert "exceeds the context"[1] == 'x' && "exceeds the context"[2] == 'c' && "exceeds the context"[6] == 's';
    assert "input exceeds"[7] == 'x' && "input exceeds"[12] == 's';
  }

  lemma FormatNeedleChars()
    ensures '_' in "image_url" && 'g' in "image_url" && 'm' in "image_url" && 'i' in "image_url"
    ensures 'v' in "invalid format" && 'f' in "invalid format"
    ensures 'v' in "valid url" && 'l' in "valid url"
  {
    assert "image_url"[0] == 'i' && "image_url"[1] == 'm' && "image_url"[3] == 'g' && "image_url"[5] == '_';
    assert "invalid format"[2] == 'v' && "invalid format"[8] == 'f';
    assert "valid url"[0] == 'v' && "valid url"[2] == 'l';
  }

  /** No text that marks a context-window error can arise in a placeholder. */
  lemma ErrorTextsAreUnplaced()
    ensures Unplaced("context_window_exceeded") && Unplaced("context window") && Unplaced("exceeds the context")
    ensures Unplaced("input exceeds") && Unplaced("image_url") && Unplaced("invalid format") && Unplaced("valid url")
  {
    hide Unplaced;
    hide PlainNeedle;
    HeadChars();
    ThreadPieceChars();
    SizePieceChars();
    PathPieceChars();
    DefaultMimeChars();
    RemovedPieceChars();
    PlainContextNeedles();
    PlainOtherNeedles();
    NeedleChars();
    FormatNeedleChars();
    UnplacedBy("context_window_exceeded", '_', 'o', 'c', 'c', 'c', 'c');
    UnplacedBy("context window", 'w', 'o', 'c', 'c', 'c', 'c');
    UnplacedBy("exceeds the context", 's', 'x', 'x', 'c', 'x', 'x');
    UnplacedBy("input exceeds", 's', 'x', 'x', 'x', 'x', 'x');
    UnplacedBy("image_url", '_', 'g', 'm', '_', '_', 'i');
    UnplacedBy("invalid format", 'v', 'v', 'v', 'v', 'v', 'f');
    UnplacedBy("valid url", 'v', 'v', 'v', 'v', 'v', 'l');
  }

  lemma LowerThread(thread: string)
    requires SafeThread(thread)
    ensures forall c :: c in ToLower(thread) + " mime" ==> c in THREAD_CHARS + " mime"
  {
    forall c | c in ToLower(thread) ensures c in THREAD_CHARS {
      var i :| 0 <= i < |thread| && ToLower(thread)[i] == c;
      HexIsThreadChar(ToLowerChar(thread[i]));
    }
  }

  lemma HexIsThreadChar(c: char)
    requires '0' <= c <= '9' || 'a' <= c <= 'f' || c == '-'
    ensures c in THREAD_CHARS
  {
    if '0' <= c <= '9' {
      DigitIsListed(c);
    } else {
      assert c == 'a' || c == 'b' || c == 'c' || c == 'd' || c == 'e' || c == 'f' || c == '-';
      assert c in "abcdef-";
    }
  }

  lemma DigitIsListed(c: char)
    requires IsDigit(c)
    ensures c in "0123456789"
  {
    assert c == '0' || c == '1' || c == '2' || c == '3' || c == '4' || c == '5' || c == '6' || c == '7' || c == '8' || c == '9';
  }

  lemma ForeignSubset(needle: string, piece: string, chars: string)
    requires Foreign(needle, chars) && forall c :: c in piece ==> c in chars
    ensures !Contains(piece, needle)
  {
    var k :| 0 <= k < |needle| && needle[k] !in chars;
    MissingChar(piece, needle, needle[k]);
  }

  lemma OnlySpace(a: string, b: string, j: nat)
    requires ' ' !in a && ' ' !in b && j < |a| + 1 + |b| && (a + [' '] + b)[j] == ' '
    ensures j == |a|
  {
    var whole := a + [' '] + b;
    forall i | 0 <= i < |whole| && i != |a| ensures whole[i] != ' ' {
      if i < |a| {
        assert a[i] in a;
      } else {
        assert b[i - |a| - 1] in b;
      }
    }
  }

  lemma MimePiece(mime: string, needle: string)
    requires Unplaced(needle) && needle != "" && ' ' !in mime && Contains(mime + [' '] + "removed_bytes", needle)
    ensures Contains(mime, needle)
  {
    hide Foreign;
    ForeignIsNotThere("removed_bytes", needle);
    if ' ' !in needle {
      DelimitedBy(mime, ' ', "removed_bytes", needle);
    } else {
      var whole := mime + [' '] + "removed_bytes";
      var i: nat :| MatchAt(whole, needle, i);
      var k :| 0 <= k < |needle| && needle[k] == ' ';
      MatchedElement(whole, needle, i, k);
      OnlySpace(mime, "removed_bytes", i + k);
      MatchedElement(whole, needle, i, k + 1);
    }
  }

  /** The lower-case note of a placeholder, in the pieces that its equals signs make. */
  function LowNote(thread: string, mime: string, size: string): string {
    NOTE_HEAD + ['='] + (ToLower(thread) + " mime" + ['='] + (mime + [' '] + "removed_bytes" + ['=']
    + (size + " original_file" + ['='] + UNKNOWN_PATH)))
  }

  lemma NoteNeedle(thread: string, mime: string, size: string, needle: string)
    requires SafeThread(thread) && Unplaced(needle) && ' ' !in mime && needle != ""
    requires forall c :: c in size ==> IsDigit(c)
    requires Contains(LowNote(thread, mime, size), needle)
    ensures Contains(mime, needle)
  {
    hide Contains;
    hide Foreign;
    hide SafeThread;
    var file := size + " original_file" + ['='] + UNKNOWN_PATH;
    var bytes := mime + [' '] + "removed_bytes" + ['='] + file;
    var kind := ToLower(thread) + " mime" + ['='] + bytes;
    DelimitedBy(NOTE_HEAD, '=', kind, needle);
    DelimitedBy(ToLower(thread) + " mime", '=', bytes, needle);
    DelimitedBy(mime + [' '] + "removed_bytes", '=', file, needle);
    DelimitedBy(size + " original_file", '=', UNKNOWN_PATH, needle);
    ForeignIsNotThere(NOTE_HEAD, needle);
    ForeignIsNotThere(UNKNOWN_PATH, needle);
    LowerThread(thread);
    ForeignSubset(needle, ToLower(thread) + " mime", THREAD_CHARS + " mime");
    DigitChars(size);
    ForeignSubset(needle, size + " original_file", SIZE_CHARS);
    MimePiece(mime, needle);
  }

  lemma DigitChars(size: string)
    requires forall c :: c in size ==> IsDigit(c)
    ensures forall c :: c in size + " original_file" ==> c in SIZE_CHARS
  {
    forall c: char | IsDigit(c) ensures c in "0123456789" {
      DigitIsListed(c);
    }
  }

  lemma Regroup(head: string, thread: string, kind: string, mime: string, space: string, removed: string, size: string, file: string, path: string, e: string)
    ensures (head + e) + (thread + ((kind + e) + (mime + ((space + removed + e) + (size + ((file + e) + path))))))
         == head + e + (thread + kind + e + (mime + space + removed + e + (size + file + e + path)))
  {
    assert size + ((file + e) + path) == size + file + e + path;
    var last := size + file + e + path;
    assert mime + ((space + removed + e) + last) == mime + space + removed + e + last;
    var more := mime + space + removed + e + last;
    assert thread + ((kind + e) + more) == thread + kind + e + more;
  }

  lemma LowerNote(thread: string, uri: string)
    ensures ToLower(Note(thread, UNKNOWN_PATH, uri)) == LowNote(thread, ToLower(Mime(uri)), Decimal(ByteLength(uri)))
  {
    hide Mime;
    hide Decimal;
    hide ToLower;
    hide ByteLength;
    var mime, size := Mime(uri), Decimal(ByteLength(uri));
    var file := " original_file=" + UNKNOWN_PATH;
    var bytes := " removed_bytes=" + (size + file);
    var kind := " mime=" + (mime + bytes);
    LowerHead();
    LowerWords();
    LowerDigits(size);
    LowerConcat("context-guardian" + ":inline-image-placeholder" + " thread=", thread + kind);
    LowerConcat(thread, kind);
    LowerConcat(" mime=", mime + bytes);
    LowerConcat(mime, bytes);
    LowerConcat(" removed_bytes=", size + file);
    LowerConcat(size, file);
    LowerConcat(" original_file=", UNKNOWN_PATH);
    Regroup(NOTE_HEAD, ToLower(thread), " mime", ToLower(mime), [' '], "removed_bytes", size, " original_file", UNKNOWN_PATH, ['=']);
  }

  lemma LowerDigits(size: string)
    requires forall c :: c in size ==> IsDigit(c)
    ensures ToLower(size) == size
  {
    assert forall i :: 0 <= i < |size| ==> size[i] in size;
  }

  lemma LowerHead()
    ensures ToLower("context-guardian" + ":inline-image-placeholder" + " thread=") == NOTE_HEAD + ['=']
  {
  }

  lemma LowerWords()
    ensures ToLower(" mime=") == " mime" + ['=']
    ensures ToLower(" removed_bytes=") == [' '] + "removed_bytes" + ['=']
    ensures ToLower(" original_file=") == " original_file" + ['=']
    ensures ToLower(UNKNOWN_PATH) == UNKNOWN_PATH
  {
  }

  /** A media type is a default or a part of its URI. */
  lemma MimeIsPart(uri: string, needle: string)
    requires Unplaced(needle) && Contains(ToLower(Mime(uri)), needle)
    ensures Contains(ToLower(uri), needle)
  {
    hide Contains;
    hide Foreign;
    var mime := Mime(uri);
    ForeignIsNotThere("image/*", needle);
    assert ToLower("image/*") == "image/*";
    if mime != "image/*" {
      assert 5 + |mime| <= |uri| && mime == uri[5..5 + |mime|];
      assert ToLower(uri)[5..5 + |mime|] == ToLower(mime);
      ContainedInPart(ToLower(uri), 5, 5 + |mime|, needle);
    }
  }

  lemma MimeHasNoSpace(uri: string)
    requires ' ' !in uri
    ensures ' ' !in ToLower(Mime(uri))
  {
    var mime := Mime(uri);
    if mime != "image/*" {
      assert 5 + |mime| <= |uri| && mime == uri[5..5 + |mime|];
    }
    forall i | 0 <= i < |mime| ensures ToLower(mime)[i] != ' ' {
      assert mime[i] in mime;
    }
  }

  lemma SpanHasNoSpace(text: string, start: nat)
    requires start <= |text|
    ensures ' ' !in text[start..SpanEnd(text, start)]
  {
  }

  lemma PieceNeedle(gap: string, thread: string, uri: string, rest: string, needle: string)
    requires SafeThread(thread) && Unplaced(needle) && needle != "" && ' ' !in uri
    requires Contains(ToLower(gap + Placeholder(thread, UNKNOWN_PATH, uri) + rest), needle)
    ensures Contains(ToLower(gap), needle) || Contains(ToLower(uri), needle) || Contains(ToLower(rest), needle)
  {
    hide Contains;
    hide Note;
    hide Foreign;
    hide SafeThread;
    hide LowNote;
    var note := Note(thread, UNKNOWN_PATH, uri);
    var low := ToLower(note);
    assert ToLower(gap + Placeholder(thread, UNKNOWN_PATH, uri) + rest) == ToLower(gap) + ['['] + (low + [']'] + ToLower(rest));
    DelimitedBy(ToLower(gap), '[', low + [']'] + ToLower(rest), needle);
    DelimitedBy(low, ']', ToLower(rest), needle);
    if Contains(low, needle) {
      LowerNote(thread, uri);
      MimeHasNoSpace(uri);
      NoteNeedle(thread, ToLower(Mime(uri)), Decimal(ByteLength(uri)), needle);
      MimeIsPart(uri, needle);
    }
  }

  lemma LowerPart(text: string, from: nat, to: nat, needle: string)
    requires from <= to <= |text| && Contains(ToLower(text[from..to]), needle)
    ensures Contains(ToLower(text), needle)
  {
    hide Contains;
    assert ToLower(text)[from..to] == ToLower(text[from..to]);
    ContainedInPart(ToLower(text), from, to, needle);
  }

  lemma {:induction false} ReplacedNeedle(text: string, cursor: nat, thread: string, needle: string)
    requires SafeThread(thread) && Unplaced(needle) && needle != ""
    requires cursor <= |text| && Laid(text, cursor, Spans(text, cursor))
    requires Contains(ToLower(Replaced(text, cursor, Spans(text, cursor), thread, UNKNOWN_PATH)), needle)
    ensures Contains(ToLower(text), needle)
    decreases |text| - cursor
  {
    hide Placeholder;
    hide Contains;
    hide SpanEnd;
    hide Unplaced;
    hide SafeThread;
    hide ToLower;
    match Find(text, MARKER, cursor)
    case None =>
      assert text[cursor..|text|] == text[cursor..];
      LowerPart(text, cursor, |text|, needle);
    case Some(start) =>
      SpansStep(text, cursor);
      var end, spans := SpanEnd(text, start), Spans(text, cursor);
      var uri, rest := text[start..end], Replaced(text, end, Spans(text, end), thread, UNKNOWN_PATH);
      assert spans[1..] == Spans(text, end);
      SpanHasNoSpace(text, start);
      PieceNeedle(text[cursor..start], thread, uri, rest, needle);
      if Contains(ToLower(text[cursor..start]), needle) {
        LowerPart(text, cursor, start, needle);
      } else if Contains(ToLower(uri), needle) {
        LowerPart(text, start, end, needle);
      } else {
        ReplacedNeedle(text, end, thread, needle);
      }
  }

  /** A needle found in scrubbed text was in the text before. */
  lemma ScrubbedMention(text: string, thread: string, needle: string)
    requires SafeThread(thread) && Unplaced(needle) && needle != ""
    requires Mentions(ToLower(ScrubText(text, thread, UNKNOWN_PATH)), needle)
    ensures Mentions(ToLower(text), needle)
  {
    hide Mentions;
    hide Contains;
    hide Unplaced;
    hide SafeThread;
    MentionsIff(ToLower(ScrubText(text, thread, UNKNOWN_PATH)), needle);
    MentionsIff(ToLower(text), needle);
    SpansAreLaid(text, 0);
    if Scrub(text, thread, UNKNOWN_PATH).Some? {
      ReplacedNeedle(text, 0, thread, needle);
    }
  }
}
