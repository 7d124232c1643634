/** TCP reassembly of captured segments (section 3.4 of RFC 9293): sort by raw sequence number, then
    append every segment that reaches past the bytes collected so far. */
module Reassembly {
  import opened Prelude

  const TWO32: int := 0x1_0000_0000

  type Sequence = n: int | 0 <= n < TWO32

  datatype Segment = Segment(sequence: Sequence, timestampMs: nat, bytes: seq<Byte>)

  /** marks: where each appended piece starts, and the capture time of the segment it came from. */
  datatype ByteStream = ByteStream(bytes: seq<Byte>, marks: seq<(nat, nat)>) {

    /** The time of the last mark at or before offset, else of the first mark, else 0. */
    function TimestampFor(offset: nat): nat {
      match LastAtOrBefore(marks, offset)
      case Some(t) => t
      case None => if marks == [] then 0 else marks[0].1
    }
  }

  function LastAtOrBefore(marks: seq<(nat, nat)>, offset: nat): Option<nat> {
    if marks == [] then None
    else if marks[|marks| - 1].0 <= offset then Some(marks[|marks| - 1].1)
    else LastAtOrBefore(marks[..|marks| - 1], offset)
  }

  /** Stable insertion: equal sequence numbers keep their order of arrival. */
  function Insert(sorted: seq<Segment>, g: Segment): seq<Segment> {
    if sorted == [] || sorted[|sorted| - 1].sequence <= g.sequence then sorted + [g]
    else Insert(sorted[..|sorted| - 1], g) + [sorted[|sorted| - 1]]
  }

  function Sort(segments: seq<Segment>): seq<Segment> {
    if segments == [] then [] else Insert(Sort(segments[..|segments| - 1]), segments[|segments| - 1])
  }

  predicate Ordered(segments: seq<Segment>) {
    forall i, j :: 0 <= i < j < |segments| ==> segments[i].sequence <= segments[j].sequence
  }

  /** The arrivals with one sequence number, in order. */
  function WithSequence(segments: seq<Segment>, n: Sequence): seq<Segment> {
    if segments == [] then []
    else
      var rest := WithSequence(segments[..|segments| - 1], n);
      if segments[|segments| - 1].sequence == n then rest + [segments[|segments| - 1]] else rest
  }

  lemma {:induction false} InsertIsPermutation(sorted: seq<Segment>, g: Segment)
    ensures multiset(Insert(sorted, g)) == multiset(sorted) + multiset{g}
  {
    if sorted != [] && sorted[|sorted| - 1].sequence > g.sequence {
      InsertIsPermutation(sorted[..|sorted| - 1], g);
      assert sorted == sorted[..|sorted| - 1] + [sorted[|sorted| - 1]];
    }
  }

  lemma {:induction false} InsertKeepsOrder(sorted: seq<Segment>, g: Segment)
    requires Ordered(sorted)
    ensures Ordered(Insert(sorted, g))
  {
    if sorted != [] && sorted[|sorted| - 1].sequence > g.sequence {
      var init, last := sorted[..|sorted| - 1], sorted[|sorted| - 1];
      InsertKeepsOrder(init, g);
      InsertIsPermutation(init, g);
      forall i | 0 <= i < |Insert(init, g)| ensures Insert(init, g)[i].sequence <= last.sequence {
        assert Insert(init, g)[i] in multiset(Insert(init, g));
        assert Insert(init, g)[i] in init || Insert(init, g)[i] == g;
      }
    }
  }

  lemma {:induction false} InsertIsStable(sorted: seq<Segment>, g: Segment, n: Sequence)
    requires Ordered(sorted)
    ensures WithSequence(Insert(sorted, g), n) == WithSequence(sorted, n) + if g.sequence == n then [g] else []
  {
    var out := Insert(sorted, g);
    if sorted == [] || sorted[|sorted| - 1].sequence <= g.sequence {
      assert out[..|out| - 1] == sorted;
    } else {
      InsertIsStable(sorted[..|sorted| - 1], g, n);
      assert out[..|out| - 1] == Insert(sorted[..|sorted| - 1], g);
    }
  }

  lemma {:induction false} SortIsPermutation(segments: seq<Segment>)
    ensures multiset(Sort(segments)) == multiset(segments)
  {
    if segments != [] {
      var init, last := segments[..|segments| - 1], segments[|segments| - 1];
      SortIsPermutation(init);
      InsertIsPermutation(Sort(init), last);
      assert segments == init + [last];
    }
  }

  lemma {:induction false} SortIsOrdered(segments: seq<Segment>)
    ensures Ordered(Sort(segments))
  {
    if segments != [] {
      SortIsOrdered(segments[..|segments| - 1]);
      InsertKeepsOrder(Sort(segments[..|segments| - 1]), segments[|segments| - 1]);
    }
  }

  /** Equal sequence numbers keep their order of arrival. */
  lemma {:induction false} SortIsStable(segments: seq<Segment>, n: Sequence)
    ensures WithSequence(Sort(segments), n) == WithSequence(segments, n)
  {
    if segments != [] {
      SortIsStable(segments[..|segments| - 1], n);
      SortIsOrdered(segments[..|segments| - 1]);
      InsertIsStable(Sort(segments[..|segments| - 1]), segments[|segments| - 1], n);
    }
  }

  lemma SortMembers(segments: seq<Segment>)
    ensures |Sort(segments)| == |segments|
    ensures forall g :: g in Sort(segments) <==> g in segments
  {
    SortIsPermutation(segments);
    assert |multiset(Sort(segments))| == |multiset(segments)|;
    forall g ensures g in Sort(segments) <==> g in segments {
      assert g in multiset(Sort(segments)) <==> g in multiset(segments);
    }
  }

  function WrappingSub(a: Sequence, b: Sequence): Sequence {
    (a - b) % TWO32
  }

  /** One turn of the loop, for a segment that starts at offset start of the stream. */
  function AppendAt(stream: ByteStream, start: nat, g: Segment): ByteStream {
    if start > |stream.bytes| then stream
    else
      var overlap := |stream.bytes| - start;
      if overlap >= |g.bytes| then stream
      else ByteStream(stream.bytes + g.bytes[overlap..], stream.marks + [(|stream.bytes|, g.timestampMs)])
  }

  function Append(stream: ByteStream, base: Sequence, g: Segment): ByteStream {
    AppendAt(stream, WrappingSub(g.sequence, base), g)
  }

  function AppendAll(sorted: seq<Segment>, base: Sequence): ByteStream {
    if sorted == [] then ByteStream([], [])
    else Append(AppendAll(sorted[..|sorted| - 1], base), base, sorted[|sorted| - 1])
  }

  function Reassembled(segments: seq<Segment>): ByteStream {
    var sorted := Sort(segments);
    if sorted == [] then ByteStream([], []) else AppendAll(sorted, sorted[0].sequence)
  }

  lemma AppendAllStep(sorted: seq<Segment>, base: Sequence, i: nat)
    requires i < |sorted|
    ensures AppendAll(sorted[..i + 1], base) == Append(AppendAll(sorted[..i], base), base, sorted[i])
  {
    assert sorted[..i + 1][..i] == sorted[..i];
  }

  method Reassemble(segments: seq<Segment>) returns (stream: ByteStream)
    ensures stream == Reassembled(segments)
  {
    var sorted := Sort(segments);
    if sorted == [] {
      return ByteStream([], []);
    }
    var base := sorted[0].sequence;
    var bytes: seq<Byte>, marks: seq<(nat, nat)> := [], [];
    for i := 0 to |sorted|
      invariant ByteStream(bytes, marks) == AppendAll(sorted[..i], base)
    {
      AppendAllStep(sorted, base, i);
      var start := WrappingSub(sorted[i].sequence, base);
      if start > |bytes| {
        continue;
      }
      var overlap := |bytes| - start;
      if overlap >= |sorted[i].bytes| {
        continue;
      }
      marks := marks + [(|bytes|, sorted[i].timestampMs)];
      bytes := bytes + sorted[i].bytes[overlap..];
    }
    assert sorted[..|sorted|] == sorted;
    stream := ByteStream(bytes, marks);
  }

  /** The sequence number of position p of the byte stream whose first byte has number isn. */
  function At(isn: Sequence, p: nat): Sequence {
    (isn + p) % TWO32
  }

  /** The position that g's sequence number stands for in the given epoch of the sequence space. */
  function Position(isn: Sequence, epoch: nat, g: Segment): int {
    epoch * TWO32 + g.sequence - isn
  }

  predicate Covers(isn: Sequence, epoch: nat, g: Segment, p: nat) {
    Position(isn, epoch, g) <= p < Position(isn, epoch, g) + |g.bytes|
  }

  ghost predicate Covered(isn: Sequence, epoch: nat, segments: seq<Segment>, p: nat) {
    exists i :: 0 <= i < |segments| && Covers(isn, epoch, segments[i], p)
  }

  /** g is the slice of text at the position its sequence number stands for. */
  predicate Slice(text: seq<Byte>, isn: Sequence, epoch: nat, g: Segment) {
    var p := Position(isn, epoch, g);
    0 <= p && p + |g.bytes| <= |text| && g.bytes == text[p..p + |g.bytes|]
  }

  predicate Slices(text: seq<Byte>, isn: Sequence, epoch: nat, segments: seq<Segment>) {
    forall i :: 0 <= i < |segments| ==> Slice(text, isn, epoch, segments[i])
  }

  /** bytes is the maximal gap-free run of covered positions that starts at lo. */
  ghost predicate MaximalRun(text: seq<Byte>, isn: Sequence, epoch: nat, segments: seq<Segment>, lo: nat, bytes: seq<Byte>) {
    var hi := lo + |bytes|;
    && hi <= |text| && bytes == text[lo..hi]
    && (forall p: nat :: lo <= p < hi ==> Covered(isn, epoch, segments, p))
    && !Covered(isn, epoch, segments, hi)
  }

  /** The first of the sorted segments to cover p. */
  function Supplier(isn: Sequence, epoch: nat, sorted: seq<Segment>, p: nat): (k: nat)
    requires Covered(isn, epoch, sorted, p)
    ensures k < |sorted| && Covers(isn, epoch, sorted[k], p)
    ensures forall j :: 0 <= j < k ==> !Covers(isn, epoch, sorted[j], p)
  {
    if Covers(isn, epoch, sorted[0], p) then 0
    else
      assert Covered(isn, epoch, sorted[1..], p) by {
        var i :| 0 <= i < |sorted| && Covers(isn, epoch, sorted[i], p);
        assert sorted[1..][i - 1] == sorted[i];
      }
      1 + Supplier(isn, epoch, sorted[1..], p)
  }

  predicate MarksOk(stream: ByteStream) {
    && (stream.bytes != [] ==> stream.marks != [] && stream.marks[0].0 == 0)
    && (forall i, j :: 0 <= i < j < |stream.marks| ==> stream.marks[i].0 < stream.marks[j].0)
    && (forall i :: 0 <= i < |stream.marks| ==> stream.marks[i].0 < |stream.bytes|)
  }

  /** Position p was supplied by the first of the first n sorted segments that covers it. */
  ghost predicate SuppliedBy(isn: Sequence, epoch: nat, sorted: seq<Segment>, n: nat, p: nat, time: nat)
    requires n <= |sorted|
  {
    exists k :: 0 <= k < n && Covers(isn, epoch, sorted[k], p) && time == sorted[k].timestampMs
                && forall j :: 0 <= j < k ==> !Covers(isn, epoch, sorted[j], p)
  }

  /** What holds after the first n sorted segments. */
  ghost predicate Progress(text: seq<Byte>, isn: Sequence, epoch: nat, sorted: seq<Segment>, n: nat, lo: nat, stream: ByteStream)
    requires n <= |sorted|
  {
    var hi := lo + |stream.bytes|;
    && hi <= |text| && stream.bytes == text[lo..hi] && MarksOk(stream)
    && (forall k :: 0 <= k < n ==> Position(isn, epoch, sorted[k]) + |sorted[k].bytes| <= hi || Position(isn, epoch, sorted[k]) > hi)
    && (forall i :: 0 <= i < |stream.bytes| ==> SuppliedBy(isn, epoch, sorted, n, lo + i, stream.TimestampFor(i)))
  }

  lemma LastAtOrBeforeSnoc(marks: seq<(nat, nat)>, at: nat, t: nat, offset: nat)
    ensures LastAtOrBefore(marks + [(at, t)], offset) == if at <= offset then Some(t) else LastAtOrBefore(marks, offset)
  {
    assert (marks + [(at, t)])[..|marks|] == marks;
  }

  lemma {:induction false} AtOrBeforeExists(marks: seq<(nat, nat)>, offset: nat)
    requires marks != [] && marks[0].0 == 0
    ensures LastAtOrBefore(marks, offset).Some?
  {
    if marks[|marks| - 1].0 > offset {
      AtOrBeforeExists(marks[..|marks| - 1], offset);
    }
  }

  lemma AppendTimes(stream: ByteStream, base: Sequence, g: Segment, offset: nat)
    requires MarksOk(stream) && Append(stream, base, g) != stream && offset < |Append(stream, base, g).bytes|
    ensures Append(stream, base, g).TimestampFor(offset) ==
              if offset < |stream.bytes| then stream.TimestampFor(offset) else g.timestampMs
  {
    LastAtOrBeforeSnoc(stream.marks, |stream.bytes|, g.timestampMs, offset);
    if offset < |stream.bytes| {
      AtOrBeforeExists(stream.marks, offset);
    }
  }

  lemma AppendSupplies(text: seq<Byte>, isn: Sequence, epoch: nat, sorted: seq<Segment>, n: nat, stream: ByteStream, i: nat)
    requires n < |sorted| && Ordered(sorted) && Slices(text, isn, epoch, sorted)
    requires Position(isn, epoch, sorted[0]) >= 0
    requires Progress(text, isn, epoch, sorted, n, Position(isn, epoch, sorted[0]), stream)
    requires i < |Append(stream, sorted[0].sequence, sorted[n]).bytes|
    ensures SuppliedBy(isn, epoch, sorted, n + 1, Position(isn, epoch, sorted[0]) + i,
                       Append(stream, sorted[0].sequence, sorted[n]).TimestampFor(i))
  {
    var lo: nat := Position(isn, epoch, sorted[0]);
    var g, after := sorted[n], Append(stream, sorted[0].sequence, sorted[n]);
    if after != stream {
      AppendTimes(stream, sorted[0].sequence, g, i);
    }
    if i < |stream.bytes| {
      assert SuppliedBy(isn, epoch, sorted, n, lo + i, stream.TimestampFor(i));
    } else {
      assert sorted[0].sequence <= g.sequence;
      forall j | 0 <= j < n ensures !Covers(isn, epoch, sorted[j], lo + i) {
        assert sorted[j].sequence <= g.sequence;
      }
      assert Covers(isn, epoch, sorted[n], lo + i);
    }
  }

  lemma SliceOverlap(text: seq<Byte>, lo: nat, hi: nat, from: nat, to: nat)
    requires lo <= from <= hi <= to <= |text|
    ensures text[lo..hi] + text[from..to][hi - from..] == text[lo..to]
  {
  }

  lemma AppendAtBytes(text: seq<Byte>, lo: nat, start: nat, g: Segment, stream: ByteStream)
    requires lo + start + |g.bytes| <= |text| && g.bytes == text[lo + start..lo + start + |g.bytes|] && MarksOk(stream)
    requires lo + |stream.bytes| <= |text| && stream.bytes == text[lo..lo + |stream.bytes|]
    ensures var after := AppendAt(stream, start, g);
            && MarksOk(after) && lo + |after.bytes| <= |text| && after.bytes == text[lo..lo + |after.bytes|]
            && |after.bytes| == (if start <= |stream.bytes| < start + |g.bytes| then start + |g.bytes| else |stream.bytes|)
  {
    hide ByteStream.TimestampFor;
    if start <= |stream.bytes| < start + |g.bytes| {
      SliceOverlap(text, lo, lo + |stream.bytes|, lo + start, lo + start + |g.bytes|);
    }
  }

  lemma AppendProgress(text: seq<Byte>, isn: Sequence, epoch: nat, sorted: seq<Segment>, n: nat, stream: ByteStream)
    requires n < |sorted| && Ordered(sorted) && Slices(text, isn, epoch, sorted)
    requires Position(isn, epoch, sorted[0]) >= 0
    requires Progress(text, isn, epoch, sorted, n, Position(isn, epoch, sorted[0]), stream)
    ensures Progress(text, isn, epoch, sorted, n + 1, Position(isn, epoch, sorted[0]),
                     Append(stream, sorted[0].sequence, sorted[n]))
  {
    hide ByteStream.TimestampFor;
    hide AppendAt;
    hide SuppliedBy;
    var lo: nat := Position(isn, epoch, sorted[0]);
    var g, after := sorted[n], Append(stream, sorted[0].sequence, sorted[n]);
    assert sorted[0].sequence <= g.sequence;
    assert Slice(text, isn, epoch, g) && WrappingSub(g.sequence, sorted[0].sequence) == Position(isn, epoch, g) - lo;
    AppendAtBytes(text, lo, Position(isn, epoch, g) - lo, g, stream);
    forall i | 0 <= i < |after.bytes|
      ensures SuppliedBy(isn, epoch, sorted, n + 1, lo + i, after.TimestampFor(i))
    {
      AppendSupplies(text, isn, epoch, sorted, n, stream, i);
    }
    forall k | 0 <= k < n + 1
      ensures Position(isn, epoch, sorted[k]) + |sorted[k].bytes| <= lo + |after.bytes| || Position(isn, epoch, sorted[k]) > lo + |after.bytes|
    {
      if k < n {
        assert sorted[k].sequence <= g.sequence;
      }
    }
  }

  lemma {:induction false} AllProgress(text: seq<Byte>, isn: Sequence, epoch: nat, sorted: seq<Segment>, n: nat)
    requires 0 < |sorted| && n <= |sorted| && Ordered(sorted) && Slices(text, isn, epoch, sorted)
    ensures Progress(text, isn, epoch, sorted, n, Position(isn, epoch, sorted[0]), AppendAll(sorted[..n], sorted[0].sequence))
  {
    assert Slice(text, isn, epoch, sorted[0]);
    if n > 0 {
      AllProgress(text, isn, epoch, sorted, n - 1);
      AppendProgress(text, isn, epoch, sorted, n - 1, AppendAll(sorted[..n - 1], sorted[0].sequence));
      assert sorted[..n][..n - 1] == sorted[..n - 1];
    }
  }

  lemma SortedSlices(text: seq<Byte>, isn: Sequence, epoch: nat, segments: seq<Segment>)
    requires segments != [] && Slices(text, isn, epoch, segments)
    ensures var sorted := Sort(segments);
            && sorted != [] && Ordered(sorted) && Slices(text, isn, epoch, sorted) && sorted[0] in segments
            && (forall g <- segments :: Position(isn, epoch, sorted[0]) <= Position(isn, epoch, g))
            && (forall p: nat :: Covered(isn, epoch, sorted, p) <==> Covered(isn, epoch, segments, p))
  {
    var sorted := Sort(segments);
    SortIsOrdered(segments);
    SortMembers(segments);
    forall i | 0 <= i < |sorted| ensures Slice(text, isn, epoch, sorted[i]) {
      assert sorted[i] in segments;
    }
    forall g <- segments ensures sorted[0].sequence <= g.sequence {
      assert g in sorted;
    }
    forall p: nat ensures Covered(isn, epoch, sorted, p) <==> Covered(isn, epoch, segments, p) {
      SameCover(isn, epoch, sorted, segments, p);
      SameCover(isn, epoch, segments, sorted, p);
    }
  }

  lemma SupplierTime(isn: Sequence, epoch: nat, sorted: seq<Segment>, p: nat, time: nat)
    requires SuppliedBy(isn, epoch, sorted, |sorted|, p, time)
    ensures Covered(isn, epoch, sorted, p) && time == sorted[Supplier(isn, epoch, sorted, p)].timestampMs
  {
    var k :| 0 <= k < |sorted| && Covers(isn, epoch, sorted[k], p) && time == sorted[k].timestampMs
      && forall j :: 0 <= j < k ==> !Covers(isn, epoch, sorted[j], p);
    assert Supplier(isn, epoch, sorted, p) == k;
  }

  lemma ProgressIsMaximal(text: seq<Byte>, isn: Sequence, epoch: nat, sorted: seq<Segment>, lo: nat, stream: ByteStream)
    requires Progress(text, isn, epoch, sorted, |sorted|, lo, stream)
    ensures MaximalRun(text, isn, epoch, sorted, lo, stream.bytes)
    ensures TimesOfSuppliers(isn, epoch, sorted, lo, stream)
  {
    forall i | 0 <= i < |stream.bytes|
      ensures Covered(isn, epoch, sorted, lo + i) && stream.TimestampFor(i) == sorted[Supplier(isn, epoch, sorted, lo + i)].timestampMs
    {
      SupplierTime(isn, epoch, sorted, lo + i, stream.TimestampFor(i));
    }
    forall p: nat | lo <= p < lo + |stream.bytes| ensures Covered(isn, epoch, sorted, p) {
      var i := p - lo;
      SupplierTime(isn, epoch, sorted, lo + i, stream.TimestampFor(i));
    }
  }

  /** Each byte's time is that of the first segment, by number and then arrival, that covers it. */
  ghost predicate TimesOfSuppliers(isn: Sequence, epoch: nat, sorted: seq<Segment>, lo: nat, stream: ByteStream) {
    forall i :: 0 <= i < |stream.bytes| ==>
      Covered(isn, epoch, sorted, lo + i) && stream.TimestampFor(i) == sorted[Supplier(isn, epoch, sorted, lo + i)].timestampMs
  }

  /** For slices of one stream within one epoch, in any order, duplicated or overlapping: the output is the
      maximal gap-free run from the lowest captured position; marks start at 0 and strictly increase; each
      byte has the time of the segment that supplied it. */
  lemma ReassemblyIsMaximalRun(text: seq<Byte>, isn: Sequence, epoch: nat, segments: seq<Segment>, m: nat)
    requires Slices(text, isn, epoch, segments)
    requires m < |segments| && forall g <- segments :: Position(isn, epoch, segments[m]) <= Position(isn, epoch, g)
    ensures Position(isn, epoch, segments[m]) >= 0
    ensures MaximalRun(text, isn, epoch, segments, Position(isn, epoch, segments[m]), Reassembled(segments).bytes)
    ensures MarksOk(Reassembled(segments))
    ensures TimesOfSuppliers(isn, epoch, Sort(segments), Position(isn, epoch, segments[m]), Reassembled(segments))
  {
    hide AppendAll;
    hide Sort;
    hide SuppliedBy;
    var sorted, stream := Sort(segments), Reassembled(segments);
    SortedSlices(text, isn, epoch, segments);
    assert Slice(text, isn, epoch, segments[m]);
    var lo: nat := Position(isn, epoch, segments[m]);
    assert Position(isn, epoch, sorted[0]) == lo;
    AllProgress(text, isn, epoch, sorted, |sorted|);
    assert sorted[..|sorted|] == sorted;
    ProgressIsMaximal(text, isn, epoch, sorted, lo, stream);
    SameRun(text, isn, epoch, sorted, segments, lo, stream.bytes);
  }

  lemma SameRun(text: seq<Byte>, isn: Sequence, epoch: nat, a: seq<Segment>, b: seq<Segment>, lo: nat, bytes: seq<Byte>)
    requires MaximalRun(text, isn, epoch, a, lo, bytes)
    requires forall p: nat :: Covered(isn, epoch, a, p) <==> Covered(isn, epoch, b, p)
    ensures MaximalRun(text, isn, epoch, b, lo, bytes)
  {
  }

  lemma SameCover(isn: Sequence, epoch: nat, a: seq<Segment>, b: seq<Segment>, p: nat)
    requires forall g <- a :: g in b
    ensures Covered(isn, epoch, a, p) ==> Covered(isn, epoch, b, p)
  {
    if Covered(isn, epoch, a, p) {
      var i :| 0 <= i < |a| && Covers(isn, epoch, a[i], p);
      assert a[i] in b;
    }
  }

  /** Positions of captured pieces of a stream, whatever their epochs. */
  ghost predicate Capture(text: seq<Byte>, isn: Sequence, segments: seq<Segment>, positions: seq<nat>) {
    && |positions| == |segments|
    && forall i :: 0 <= i < |segments| ==>
         && segments[i].bytes != [] && positions[i] + |segments[i].bytes| <= |text|
         && segments[i].bytes == text[positions[i]..positions[i] + |segments[i].bytes|]
         && segments[i].sequence == At(isn, positions[i])
  }

  function Epoch(isn: Sequence, p: nat): nat {
    (isn + p) / TWO32
  }

  /** The numbers that wrapped: they lie below the initial one. */
  predicate Wrapped(isn: Sequence, g: Segment) {
    g.sequence < isn
  }

  /** The capture holds pieces from both sides of the wrap. */
  predicate Wraps(isn: Sequence, segments: seq<Segment>) {
    exists i, j :: 0 <= i < |segments| && 0 <= j < |segments| && Wrapped(isn, segments[i]) && !Wrapped(isn, segments[j])
  }

  /** In a stream of at most 2^32 bytes, a number has wrapped or it has not. */
  lemma NumbersByEpoch(isn: Sequence, p: nat)
    requires p < TWO32
    ensures Epoch(isn, p) == 0 ==> At(isn, p) == isn + p
    ensures Epoch(isn, p) != 0 ==> Epoch(isn, p) == 1 && At(isn, p) == isn + p - TWO32 < isn
    ensures At(isn, p) < isn <==> Epoch(isn, p) == 1
  {
  }

  lemma CaptureNumber(text: seq<Byte>, isn: Sequence, segments: seq<Segment>, positions: seq<nat>, i: nat)
    requires Capture(text, isn, segments, positions) && |text| <= TWO32 && i < |segments|
    ensures positions[i] < TWO32
    ensures var epoch := if Wrapped(isn, segments[i]) then 1 else 0;
            Position(isn, epoch, segments[i]) == positions[i] && Slice(text, isn, epoch, segments[i])
  {
    NumbersByEpoch(isn, positions[i]);
  }

  // ---- Sorting keeps the wrapped numbers in front ----

  function Below(isn: Sequence, segments: seq<Segment>): (r: seq<Segment>)
    ensures forall g <- r :: g in segments && Wrapped(isn, g)
    ensures forall g <- segments :: Wrapped(isn, g) ==> g in r
  {
    if segments == [] then []
    else
      var rest := Below(isn, segments[..|segments| - 1]);
      if Wrapped(isn, segments[|segments| - 1]) then rest + [segments[|segments| - 1]] else rest
  }

  function NotBelow(isn: Sequence, segments: seq<Segment>): (r: seq<Segment>)
    ensures forall g <- r :: g in segments && !Wrapped(isn, g)
    ensures forall g <- segments :: !Wrapped(isn, g) ==> g in r
  {
    if segments == [] then []
    else
      var rest := NotBelow(isn, segments[..|segments| - 1]);
      if Wrapped(isn, segments[|segments| - 1]) then rest else rest + [segments[|segments| - 1]]
  }

  lemma {:induction false} InsertInFront(a: seq<Segment>, b: seq<Segment>, g: Segment)
    requires forall h <- b :: g.sequence < h.sequence
    ensures Insert(a + b, g) == Insert(a, g) + b
  {
    if b == [] {
      assert a + b == a;
    } else {
      assert (a + b)[..|a + b| - 1] == a + b[..|b| - 1];
      InsertInFront(a, b[..|b| - 1], g);
    }
  }

  lemma {:induction false} InsertBehind(a: seq<Segment>, b: seq<Segment>, g: Segment)
    requires forall h <- a :: h.sequence <= g.sequence
    ensures Insert(a + b, g) == a + Insert(b, g)
  {
    if b == [] {
      assert a + b == a;
    } else {
      assert (a + b)[..|a + b| - 1] == a + b[..|b| - 1];
      InsertBehind(a, b[..|b| - 1], g);
    }
  }

  lemma {:induction false} SortSplits(isn: Sequence, segments: seq<Segment>)
    ensures Sort(segments) == Sort(Below(isn, segments)) + Sort(NotBelow(isn, segments))
  {
    if segments != [] {
      var init, g := segments[..|segments| - 1], segments[|segments| - 1];
      var a, b := Sort(Below(isn, init)), Sort(NotBelow(isn, init));
      SortSplits(isn, init);
      SortMembers(Below(isn, init));
      SortMembers(NotBelow(isn, init));
      if Wrapped(isn, g) {
        InsertInFront(a, b, g);
        assert Below(isn, segments)[..|Below(isn, segments)| - 1] == Below(isn, init);
      } else {
        InsertBehind(a, b, g);
        assert NotBelow(isn, segments)[..|NotBelow(isn, segments)| - 1] == NotBelow(isn, init);
      }
    }
  }

  lemma {:induction false} AllAppendNothing(front: seq<Segment>, rest: seq<Segment>, base: Sequence)
    requires forall g <- rest :: WrappingSub(g.sequence, base) > |AppendAll(front, base).bytes|
    ensures AppendAll(front + rest, base) == AppendAll(front, base)
  {
    if rest == [] {
      assert front + rest == front;
    } else {
      var n := |rest| - 1;
      assert (front + rest)[..|front + rest| - 1] == front + rest[..n];
      AllAppendNothing(front, rest[..n], base);
      assert rest[n] in rest;
    }
  }

  /** The pieces of one side of the wrap are slices of one epoch. */
  lemma SideIsSlices(text: seq<Byte>, isn: Sequence, segments: seq<Segment>, positions: seq<nat>, side: seq<Segment>, epoch: nat)
    requires Capture(text, isn, segments, positions) && |text| <= TWO32
    requires forall g <- side :: g in segments && epoch == if Wrapped(isn, g) then 1 else 0
    ensures Slices(text, isn, epoch, side)
  {
    forall k | 0 <= k < |side| ensures Slice(text, isn, epoch, side[k]) {
      assert side[k] in side;
      var i :| 0 <= i < |segments| && segments[i] == side[k];
      CaptureNumber(text, isn, segments, positions, i);
    }
  }

  /** What reassembly makes of a capture whose earliest piece is m, from a stream of less than 2^32 bytes. Without a wrap,
      the maximal gap-free run from that piece. With one, exactly what it would make of the wrapped pieces alone: every
      piece before the wrap is lost. */
  lemma ReassemblyOfCapture(text: seq<Byte>, isn: Sequence, segments: seq<Segment>, positions: seq<nat>, m: nat)
    requires Capture(text, isn, segments, positions) && |text| < TWO32
    requires m < |segments| && forall i :: 0 <= i < |segments| ==> positions[m] <= positions[i]
    ensures !Wraps(isn, segments) ==>
              MaximalRun(text, isn, if Wrapped(isn, segments[m]) then 1 else 0, segments, positions[m], Reassembled(segments).bytes)
    ensures Wraps(isn, segments) ==> Reassembled(segments) == Reassembled(Below(isn, segments))
  {
    if Wraps(isn, segments) {
      WrapLosesTheFront(text, isn, segments, positions);
    } else {
      var epoch := if Wrapped(isn, segments[m]) then 1 else 0;
      SideIsSlices(text, isn, segments, positions, segments, epoch);
      forall g <- segments ensures Position(isn, epoch, segments[m]) <= Position(isn, epoch, g) {
        var i :| 0 <= i < |segments| && segments[i] == g;
        CaptureNumber(text, isn, segments, positions, i);
        CaptureNumber(text, isn, segments, positions, m);
      }
      CaptureNumber(text, isn, segments, positions, m);
      ReassemblyIsMaximalRun(text, isn, epoch, segments, m);
    }
  }

  lemma WrapLosesTheFront(text: seq<Byte>, isn: Sequence, segments: seq<Segment>, positions: seq<nat>)
    requires Capture(text, isn, segments, positions) && |text| < TWO32 && Wraps(isn, segments)
    ensures Reassembled(segments) == Reassembled(Below(isn, segments))
  {
    var late, early := Below(isn, segments), NotBelow(isn, segments);
    var a, b := Sort(late), Sort(early);
    SortSplits(isn, segments);
    SortMembers(late);
    SortMembers(early);
    LeastNumber(late);
    SideIsSlices(text, isn, segments, positions, late, 1);
    var k :| 0 <= k < |late| && late[k].sequence == a[0].sequence;
    forall g <- late ensures Position(isn, 1, late[k]) <= Position(isn, 1, g) {
      var n :| 0 <= n < |late| && late[n] == g;
    }
    ReassemblyIsMaximalRun(text, isn, 1, late, k);
    forall g <- b ensures WrappingSub(g.sequence, a[0].sequence) > |AppendAll(a, a[0].sequence).bytes| {
      assert g in early;
      TooFarAhead(text, isn, g, late[k], |Reassembled(late).bytes|);
    }
    AllAppendNothing(a, b, a[0].sequence);
  }

  lemma TooFarAhead(text: seq<Byte>, isn: Sequence, early: Segment, late: Segment, length: nat)
    requires !Wrapped(isn, early) && Wrapped(isn, late) && |text| < TWO32
    requires Position(isn, 1, late) >= 0 && Position(isn, 1, late) + length <= |text|
    ensures WrappingSub(early.sequence, late.sequence) > length
  {
  }

  lemma SecondIsBelow(isn: Sequence, a: Segment, b: Segment)
    requires !Wrapped(isn, a) && Wrapped(isn, b)
    ensures Below(isn, [a, b]) == [b]
  {
    assert [a, b][..1] == [a] && [a][..0] == [];
    assert Below(isn, [a]) == [];
  }

  lemma OneSegment(g: Segment)
    ensures Reassembled([g]).bytes == g.bytes
  {
    assert [g][..0] == [];
    assert Sort([g]) == [g];
    assert AppendAll([g], g.sequence) == Append(ByteStream([], []), g.sequence, g);
  }

  /** Two bytes captured across the wrap: the first is lost. */
  lemma WrappingCaptureLosesItsFirstByte()
    ensures var capture := [Segment(TWO32 - 1, 1, [97]), Segment(0, 2, [98])];
            && Capture([97, 98], TWO32 - 1, capture, [0, 1])
            && Reassembled(capture).bytes == [98]
  {
    var first, second := Segment(TWO32 - 1, 1, [97]), Segment(0, 2, [98]);
    var capture := [first, second];
    assert Capture([97, 98], TWO32 - 1, capture, [0, 1]) by {
      assert At(TWO32 - 1, 0) == TWO32 - 1 && At(TWO32 - 1, 1) == 0;
    }
    assert Wraps(TWO32 - 1, capture) by {
      assert Wrapped(TWO32 - 1, capture[1]) && !Wrapped(TWO32 - 1, capture[0]);
    }
    SecondIsBelow(TWO32 - 1, first, second);
    OneSegment(second);
    hide Reassembled;
    hide Below;
    WrapLosesTheFront([97, 98], TWO32 - 1, capture, [0, 1]);
  }

  /** Exactly when reassembly starts at the earliest captured byte: for a stream of at most 2^32 bytes, the lowest
      number is that of the earliest position if and only if the capture does not hold pieces from both sides of a wrap. */
  lemma StartsAtEarliestIffNoWrap(text: seq<Byte>, isn: Sequence, segments: seq<Segment>, positions: seq<nat>, m: nat)
    requires Capture(text, isn, segments, positions) && |text| <= TWO32
    requires m < |segments| && forall i :: 0 <= i < |segments| ==> positions[m] <= positions[i]
    ensures Sort(segments) != []
    ensures Sort(segments)[0].sequence == segments[m].sequence <==> !Wraps(isn, segments)
  {
    var least := Sort(segments)[0].sequence;
    LeastNumber(segments);
    assert least <= segments[m].sequence;
    forall i | 0 <= i < |segments|
      ensures positions[i] == segments[i].sequence - isn + if Wrapped(isn, segments[i]) then TWO32 else 0
    {
      CaptureNumber(text, isn, segments, positions, i);
    }
    if Wraps(isn, segments) {
      var i, j :| 0 <= i < |segments| && 0 <= j < |segments| && Wrapped(isn, segments[i]) && !Wrapped(isn, segments[j]);
      assert !Wrapped(isn, segments[m]);
    } else {
      var b :| 0 <= b < |segments| && segments[b].sequence == least;
      assert Wrapped(isn, segments[b]) == Wrapped(isn, segments[m]);
    }
  }

  lemma LeastNumber(segments: seq<Segment>)
    requires segments != []
    ensures Sort(segments) != [] && Sort(segments)[0] in segments
    ensures exists b :: 0 <= b < |segments| && segments[b].sequence == Sort(segments)[0].sequence
    ensures forall i :: 0 <= i < |segments| ==> Sort(segments)[0].sequence <= segments[i].sequence
  {
    SortIsOrdered(segments);
    SortMembers(segments);
    assert Sort(segments)[0] in segments;
    var b :| 0 <= b < |segments| && segments[b] == Sort(segments)[0];
    forall i | 0 <= i < |segments| ensures Sort(segments)[0].sequence <= segments[i].sequence {
      assert segments[i] in Sort(segments);
    }
  }
}
