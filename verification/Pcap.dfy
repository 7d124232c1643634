/** Records of a capture file: a 24-byte header, then packets, in either byte order and either time resolution. */
module Pcap {
  import opened Prelude

  type Word = n: int | 0 <= n < 0x1_0000_0000

  datatype Error = HeaderIncomplete | UnsupportedMagic | PacketHeaderIncomplete | PacketDataIncomplete

  datatype Packet = Packet(timestampMs: nat, bytes: seq<Byte>)

  /** Byte order and time resolution. */
  datatype Format = Format(littleEndian: bool, nanos: bool)

  /** Four bytes, the least significant first. */
  function Value(b0: int, b1: int, b2: int, b3: int): int {
    b0 + (b1 + (b2 + b3 * 256) * 256) * 256
  }

  function ReadWord(f: Format, b: seq<Byte>): (n: Word)
    requires |b| == 4
  {
    if f.littleEndian then Value(b[0], b[1], b[2], b[3]) else Value(b[3], b[2], b[1], b[0])
  }

  function WriteWord(f: Format, n: Word): (b: seq<Byte>)
    ensures |b| == 4
  {
    var m1 := n / 256;
    var m2 := m1 / 256;
    var b0, b1, b2, b3 := n % 256, m1 % 256, m2 % 256, m2 / 256;
    if f.littleEndian then [b0, b1, b2, b3] else [b3, b2, b1, b0]
  }

  lemma WordRoundTrip(f: Format, n: Word)
    ensures ReadWord(f, WriteWord(f, n)) == n
  {
    var m1 := n / 256;
    var m2 := m1 / 256;
    assert n == n % 256 + m1 * 256;
    assert m1 == m1 % 256 + m2 * 256;
    assert m2 == m2 % 256 + m2 / 256 * 256;
    assert Value(n % 256, m1 % 256, m2 % 256, m2 / 256) == n;
  }

  function Magic(f: Format): seq<Byte> {
    match f
    case Format(true, false) => [0xd4, 0xc3, 0xb2, 0xa1]
    case Format(false, false) => [0xa1, 0xb2, 0xc3, 0xd4]
    case Format(true, true) => [0x4d, 0x3c, 0xb2, 0xa1]
    case Format(false, true) => [0xa1, 0xb2, 0x3c, 0x4d]
  }

  function FormatOf(magic: seq<Byte>): Option<Format> {
    if magic == [0xd4, 0xc3, 0xb2, 0xa1] then Some(Format(true, false))
    else if magic == [0xa1, 0xb2, 0xc3, 0xd4] then Some(Format(false, false))
    else if magic == [0x4d, 0x3c, 0xb2, 0xa1] then Some(Format(true, true))
    else if magic == [0xa1, 0xb2, 0x3c, 0x4d] then Some(Format(false, true))
    else None
  }

  function Millis(f: Format, seconds: nat, fraction: nat): nat {
    seconds * 1000 + if f.nanos then fraction / 1_000_000 else fraction / 1000
  }

  datatype Turn = Bad(error: Error) | Good(packet: Packet, next: nat)

  /** One packet at offset. */
  function ReadPacket(f: Format, bytes: seq<Byte>, offset: nat): (r: Turn)
    requires offset <= |bytes|
    ensures r.Good? ==> offset + 16 <= r.next <= |bytes|
  {
    if |bytes| - offset < 16 then Bad(PacketHeaderIncomplete)
    else
      var seconds, fraction := ReadWord(f, bytes[offset..offset + 4]), ReadWord(f, bytes[offset + 4..offset + 8]);
      var included, data := ReadWord(f, bytes[offset + 8..offset + 12]), offset + 16;
      if included > |bytes| - data then Bad(PacketDataIncomplete)
      else Good(Packet(Millis(f, seconds, fraction), bytes[data..data + included]), data + included)
  }

  function Prepend(packets: seq<Packet>, r: Result<seq<Packet>, Error>): Result<seq<Packet>, Error> {
    match r
    case Err(e) => Err(e)
    case Ok(rest) => Ok(packets + rest)
  }

  function ReadPackets(f: Format, bytes: seq<Byte>, offset: nat): Result<seq<Packet>, Error>
    requires offset <= |bytes|
    decreases |bytes| - offset
  {
    if offset == |bytes| then Ok([])
    else
      match ReadPacket(f, bytes, offset)
      case Bad(e) => Err(e)
      case Good(packet, next) => Prepend([packet], ReadPackets(f, bytes, next))
  }

  /** The packets and the link type. */
  function Parse(bytes: seq<Byte>): Result<(seq<Packet>, Word), Error> {
    if |bytes| < 24 then Err(HeaderIncomplete)
    else
      match FormatOf(bytes[..4])
      case None => Err(UnsupportedMagic)
      case Some(f) =>
        match ReadPackets(f, bytes, 24)
        case Err(e) => Err(e)
        case Ok(packets) => Ok((packets, ReadWord(f, bytes[20..24])))
  }

  method ParsePcap(bytes: seq<Byte>) returns (r: Result<(seq<Packet>, Word), Error>)
    ensures r == Parse(bytes)
  {
    if |bytes| < 24 {
      return Err(HeaderIncomplete);
    }
    var format := FormatOf(bytes[..4]);
    if format.None? {
      return Err(UnsupportedMagic);
    }
    var f, packets, offset := format.value, [], 24;
    ghost var all := ReadPackets(f, bytes, 24);
    assert all.Ok? ==> [] + all.value == all.value;
    while offset < |bytes|
      invariant 24 <= offset <= |bytes| && all == Prepend(packets, ReadPackets(f, bytes, offset))
    {
      hide ReadPacket;
      var turn := ReadPacket(f, bytes, offset);
      match turn {
        case Bad(e) => return Err(e);
        case Good(packet, next) =>
          PrependTwice(packets, [packet], ReadPackets(f, bytes, next));
          packets := packets + [packet];
          offset := next;
      }
    }
    assert packets + [] == packets;
    return Ok((packets, ReadWord(f, bytes[20..24])));
  }

  lemma PrependTwice(a: seq<Packet>, b: seq<Packet>, r: Result<seq<Packet>, Error>)
    ensures Prepend(a, Prepend(b, r)) == Prepend(a + b, r)
  {
    if r.Ok? {
      assert a + (b + r.value) == a + b + r.value;
    }
  }

  // ---- Written captures ----

  /** A packet as a capture program writes it; the original length plays no part. */
  datatype Captured = Captured(seconds: Word, fraction: Word, originalLength: Word, bytes: seq<Byte>) {

    predicate Valid() {
      |bytes| < 0x1_0000_0000
    }

    function Render(f: Format): seq<Byte>
      requires Valid()
    {
      WriteWord(f, seconds) + WriteWord(f, fraction) + WriteWord(f, |bytes|) + WriteWord(f, originalLength) + bytes
    }

    function Read(f: Format): Packet {
      Packet(Millis(f, seconds, fraction), bytes)
    }
  }

  predicate AllValid(packets: seq<Captured>) {
    forall i :: 0 <= i < |packets| ==> packets[i].Valid()
  }

  function RenderAll(f: Format, packets: seq<Captured>): seq<Byte>
    requires AllValid(packets)
  {
    if packets == [] then [] else packets[0].Render(f) + RenderAll(f, packets[1..])
  }

  function ReadAll(f: Format, packets: seq<Captured>): seq<Packet> {
    seq(|packets|, i requires 0 <= i < |packets| => packets[i].Read(f))
  }

  /** Version, time zone, accuracy and snapshot length, then the link type. */
  function RenderFile(f: Format, skipped: seq<Byte>, linkType: Word, packets: seq<Captured>): seq<Byte>
    requires |skipped| == 16 && AllValid(packets)
  {
    Magic(f) + skipped + WriteWord(f, linkType) + RenderAll(f, packets)
  }

  lemma PacketRead(f: Format, bytes: seq<Byte>, offset: nat, p: Captured, rest: seq<Byte>)
    requires offset <= |bytes| && p.Valid() && bytes[offset..] == p.Render(f) + rest
    ensures ReadPacket(f, bytes, offset) == Good(p.Read(f), offset + |p.Render(f)|)
    ensures bytes[offset + |p.Render(f)|..] == rest
  {
    hide ReadWord;
    hide WriteWord;
    var tail := bytes[offset..];
    assert bytes[offset..offset + 4] == tail[..4] == WriteWord(f, p.seconds);
    assert bytes[offset + 4..offset + 8] == tail[4..8] == WriteWord(f, p.fraction);
    assert bytes[offset + 8..offset + 12] == tail[8..12] == WriteWord(f, |p.bytes|);
    assert bytes[offset + 16..offset + 16 + |p.bytes|] == tail[16..16 + |p.bytes|] == p.bytes;
    assert bytes[offset + |p.Render(f)|..] == tail[|p.Render(f)|..] == rest;
    WordRoundTrip(f, p.seconds);
    WordRoundTrip(f, p.fraction);
    WordRoundTrip(f, |p.bytes|);
  }

  lemma {:induction false} PacketsRead(f: Format, bytes: seq<Byte>, offset: nat, packets: seq<Captured>, rest: seq<Byte>)
    requires offset <= |bytes| && AllValid(packets) && bytes[offset..] == RenderAll(f, packets) + rest
    ensures offset + |RenderAll(f, packets)| <= |bytes| && bytes[offset + |RenderAll(f, packets)|..] == rest
    ensures ReadPackets(f, bytes, offset) == Prepend(ReadAll(f, packets), ReadPackets(f, bytes, offset + |RenderAll(f, packets)|))
    decreases |packets|
  {
    hide ReadPacket;
    hide Captured.Render;
    var end := offset + |RenderAll(f, packets)|;
    if packets == [] {
      assert RenderAll(f, packets) + rest == rest;
      var r := ReadPackets(f, bytes, offset);
      assert ReadAll(f, packets) == [];
      assert r.Ok? ==> [] + r.value == r.value;
    } else {
      var p, more := packets[0], packets[1..];
      assert RenderAll(f, packets) + rest == p.Render(f) + (RenderAll(f, more) + rest);
      PacketRead(f, bytes, offset, p, RenderAll(f, more) + rest);
      PacketsRead(f, bytes, offset + |p.Render(f)|, more, rest);
      PrependTwice([p.Read(f)], ReadAll(f, more), ReadPackets(f, bytes, end));
      assert [p.Read(f)] + ReadAll(f, more) == ReadAll(f, packets);
    }
  }

  lemma HeaderRead(f: Format, skipped: seq<Byte>, linkType: Word, body: seq<Byte>)
    requires |skipped| == 16
    ensures var bytes := Magic(f) + skipped + WriteWord(f, linkType) + body;
            && |bytes| >= 24 && FormatOf(bytes[..4]) == Some(f) && ReadWord(f, bytes[20..24]) == linkType && bytes[24..] == body
  {
    var bytes := Magic(f) + skipped + WriteWord(f, linkType) + body;
    assert bytes[..4] == Magic(f);
    assert bytes[20..24] == WriteWord(f, linkType);
    WordRoundTrip(f, linkType);
  }

  /** A written capture is read back: every packet with its time in milliseconds, and the link type. */
  lemma CaptureRoundTrip(f: Format, skipped: seq<Byte>, linkType: Word, packets: seq<Captured>)
    requires |skipped| == 16 && AllValid(packets)
    ensures Parse(RenderFile(f, skipped, linkType, packets)) == Ok((ReadAll(f, packets), linkType))
  {
    hide FormatOf;
    hide Magic;
    var body := RenderAll(f, packets);
    var bytes := RenderFile(f, skipped, linkType, packets);
    HeaderRead(f, skipped, linkType, body);
    assert body + [] == body;
    PacketsRead(f, bytes, 24, packets, []);
    assert ReadAll(f, packets) + [] == ReadAll(f, packets);
  }

  /** A file cut inside a packet is refused: no packet is ever read from half its bytes. */
  lemma CutFileIsRefused(f: Format, skipped: seq<Byte>, linkType: Word, packets: seq<Captured>, p: Captured, k: nat)
    requires |skipped| == 16 && AllValid(packets) && p.Valid() && 0 < k < |p.Render(f)|
    ensures var body := RenderAll(f, packets) + p.Render(f)[..k];
            var r := Parse(Magic(f) + skipped + WriteWord(f, linkType) + body);
            r == Err(if k < 16 then PacketHeaderIncomplete else PacketDataIncomplete)
  {
    hide FormatOf;
    hide Magic;
    hide ReadPacket;
    var cut := p.Render(f)[..k];
    var body := RenderAll(f, packets) + cut;
    var bytes := Magic(f) + skipped + WriteWord(f, linkType) + body;
    HeaderRead(f, skipped, linkType, body);
    PacketsRead(f, bytes, 24, packets, cut);
    CutPacket(f, bytes, 24 + |RenderAll(f, packets)|, p, k);
  }

  lemma CutPacket(f: Format, bytes: seq<Byte>, offset: nat, p: Captured, k: nat)
    requires p.Valid() && 0 < k < |p.Render(f)| && offset <= |bytes| && bytes[offset..] == p.Render(f)[..k]
    ensures ReadPacket(f, bytes, offset) == Bad(if k < 16 then PacketHeaderIncomplete else PacketDataIncomplete)
  {
    hide ReadWord;
    hide WriteWord;
    assert |bytes| - offset == k;
    if k >= 16 {
      var whole := p.Render(f);
      assert whole[8..12] == WriteWord(f, |p.bytes|);
      assert bytes[offset + 8..offset + 12] == bytes[offset..][8..12] == whole[..k][8..12] == whole[8..12];
      WordRoundTrip(f, |p.bytes|);
    }
  }

  // ---- Instants ----

  /** A packet with the instant it was captured at: seconds, milliseconds, and what is left of a millisecond, counted in
      microseconds or nanoseconds. */
  datatype Stamped = Stamped(seconds: Word, millis: nat, rest: nat, originalLength: Word, bytes: seq<Byte>) {

    /** The rest is less than a millisecond, and the fraction fits its field. */
    predicate Valid(f: Format) {
      && |bytes| < 0x1_0000_0000
      && (f.nanos ==> rest < 1_000_000 && millis * 1_000_000 + rest < 0x1_0000_0000)
      && (!f.nanos ==> rest < 1000 && millis * 1000 + rest < 0x1_0000_0000)
    }

    /** As a capture program writes it, in microseconds or nanoseconds. */
    function Written(f: Format): Captured
      requires Valid(f)
    {
      Captured(seconds, if f.nanos then millis * 1_000_000 + rest else millis * 1000 + rest, originalLength, bytes)
    }
  }

  predicate AllStamped(f: Format, packets: seq<Stamped>) {
    forall i :: 0 <= i < |packets| ==> packets[i].Valid(f)
  }

  function AllWritten(f: Format, packets: seq<Stamped>): (r: seq<Captured>)
    requires AllStamped(f, packets)
    ensures |r| == |packets| && forall i :: 0 <= i < |r| ==> r[i] == packets[i].Written(f)
  {
    seq(|packets|, i requires 0 <= i < |packets| => packets[i].Written(f))
  }

  lemma InstantRead(f: Format, p: Stamped)
    requires p.Valid(f)
    ensures p.Written(f).Read(f) == Packet(p.seconds * 1000 + p.millis, p.bytes)
  {
    if f.nanos {
      assert (p.millis * 1_000_000 + p.rest) / 1_000_000 == p.millis;
    } else {
      assert (p.millis * 1000 + p.rest) / 1000 == p.millis;
    }
  }

  /** In all four formats a captured packet is read with its instant in milliseconds and its own bytes. */
  lemma InstantsAreRead(f: Format, skipped: seq<Byte>, linkType: Word, packets: seq<Stamped>)
    requires |skipped| == 16 && AllStamped(f, packets)
    ensures var r := Parse(RenderFile(f, skipped, linkType, AllWritten(f, packets)));
            && r.Ok? && r.value.1 == linkType && |r.value.0| == |packets|
            && forall i :: 0 <= i < |packets| ==> r.value.0[i] == Packet(packets[i].seconds * 1000 + packets[i].millis, packets[i].bytes)
  {
    hide Parse;
    CaptureRoundTrip(f, skipped, linkType, AllWritten(f, packets));
    forall i | 0 <= i < |packets|
      ensures ReadAll(f, AllWritten(f, packets))[i] == Packet(packets[i].seconds * 1000 + packets[i].millis, packets[i].bytes)
    {
      InstantRead(f, packets[i]);
    }
  }

  lemma PacketBytes()
    ensures Captured(1_700_000_000, 250_000, 2, [7, 8]).Render(Format(true, false)) ==
              [0, 241, 83, 101] + [144, 208, 3, 0] + [2, 0, 0, 0] + [2, 0, 0, 0] + [7, 8]
    ensures WriteWord(Format(true, false), 1) == [1, 0, 0, 0]
  {
  }

  lemma OnePacket(f: Format, p: Captured)
    requires p.Valid()
    ensures RenderAll(f, [p]) == p.Render(f)
  {
    assert [p][1..] == [];
  }

  /** A microsecond capture, little end first, as it stands in the file: one packet of two bytes at 1700000000.250 s. */
  lemma MicrosecondFile()
    ensures Parse([0xd4, 0xc3, 0xb2, 0xa1] + ([2, 0, 4, 0] + [0, 0, 0, 0] + [0, 0, 0, 0] + [255, 255, 0, 0]) + [1, 0, 0, 0]
                  + ([0, 241, 83, 101] + [144, 208, 3, 0] + [2, 0, 0, 0] + [2, 0, 0, 0] + [7, 8])) ==
              Ok(([Packet(1_700_000_000_250, [7, 8])], 1))
  {
    var f := Format(true, false);
    var p := Captured(1_700_000_000, 250_000, 2, [7, 8]);
    PacketBytes();
    OnePacket(f, p);
    assert ReadAll(f, [p]) == [Packet(1_700_000_000_250, [7, 8])];
    hide WriteWord;
    hide Captured.Render;
    hide RenderAll;
    hide ReadAll;
    hide Parse;
    CaptureRoundTrip(f, [2, 0, 4, 0] + [0, 0, 0, 0] + [0, 0, 0, 0] + [255, 255, 0, 0], 1, [p]);
  }
}
