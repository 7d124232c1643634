/** UTF-8 decoding as in section 4 of RFC 3629, enough to say which header bytes are text. */
module Utf8 {
  import opened Prelude
  import opened Reassembly

  predicate Tail(b: Byte) {
    0x80 <= b < 0xC0
  }

  function Two(a: Byte, b: Byte): Option<char> {
    if 0xC2 <= a < 0xE0 && Tail(b) then Some(((a - 0xC0) * 64 + (b - 0x80)) as char) else None
  }

  function Three(a: Byte, b: Byte, c: Byte): Option<char> {
    if 0xE0 <= a < 0xF0 && Tail(b) && Tail(c) && (a == 0xE0 ==> b >= 0xA0) && (a == 0xED ==> b < 0xA0)
    then Some(((a - 0xE0) * 4096 + (b - 0x80) * 64 + (c - 0x80)) as char) else None
  }

  function Four(a: Byte, b: Byte, c: Byte, d: Byte): Option<char> {
    if 0xF0 <= a < 0xF5 && Tail(b) && Tail(c) && Tail(d) && (a == 0xF0 ==> b >= 0x90) && (a == 0xF4 ==> b < 0x90)
    then Some(((a - 0xF0) * 262144 + (b - 0x80) * 4096 + (c - 0x80) * 64 + (d - 0x80)) as char) else None
  }

  function Cons(c: char, rest: Option<string>): Option<string> {
    match rest
    case None => None
    case Some(s) => Some([c] + s)
  }

  function Decode(bytes: seq<Byte>): Option<string> {
    if bytes == [] then Some("")
    else if bytes[0] < 0x80 then Cons(bytes[0] as char, Decode(bytes[1..]))
    else if |bytes| >= 2 && Two(bytes[0], bytes[1]).Some? then Cons(Two(bytes[0], bytes[1]).value, Decode(bytes[2..]))
    else if |bytes| >= 3 && Three(bytes[0], bytes[1], bytes[2]).Some? then
      Cons(Three(bytes[0], bytes[1], bytes[2]).value, Decode(bytes[3..]))
    else if |bytes| >= 4 && Four(bytes[0], bytes[1], bytes[2], bytes[3]).Some? then
      Cons(Four(bytes[0], bytes[1], bytes[2], bytes[3]).value, Decode(bytes[4..]))
    else None
  }

  predicate IsAscii(s: string) {
    forall i :: 0 <= i < |s| ==> s[i] < '\U{80}'
  }

  function Ascii(s: string): (r: seq<Byte>)
    requires IsAscii(s)
    ensures |r| == |s| && forall i :: 0 <= i < |s| ==> r[i] == s[i] as int
  {
    seq(|s|, i requires 0 <= i < |s| => s[i] as int)
  }

  lemma {:induction false} DecodeAscii(s: string)
    requires IsAscii(s)
    ensures Decode(Ascii(s)) == Some(s)
  {
    if s != [] {
      assert Ascii(s)[1..] == Ascii(s[1..]);
      DecodeAscii(s[1..]);
      assert s == [s[0]] + s[1..];
    }
  }

  // ---- The encoding (section 3 of RFC 3629) ----

  function EncodeChar(c: char): seq<Byte> {
    var n := c as int;
    var m := n / 64;
    var k := m / 64;
    if n < 0x80 then [n]
    else if n < 0x800 then [0xC0 + m, 0x80 + n % 64]
    else if n < 0x10000 then [0xE0 + k, 0x80 + m % 64, 0x80 + n % 64]
    else [0xF0 + k / 64, 0x80 + k % 64, 0x80 + m % 64, 0x80 + n % 64]
  }

  function Encode(s: string): seq<Byte> {
    if s == "" then [] else EncodeChar(s[0]) + Encode(s[1..])
  }

  lemma Digit(n: nat, high: nat, low: nat)
    requires n == high * 64 + low && low < 64
    ensures n / 64 == high && n % 64 == low
  {
  }

  lemma TwoRead(c: char, a: Byte, b: Byte)
    ensures Two(a, b) == Some(c) <==> 0x80 <= c as int < 0x800 && EncodeChar(c) == [a, b]
  {
  }

  lemma ThreeRead(c: char, a: Byte, b: Byte, d: Byte)
    ensures Three(a, b, d) == Some(c) <==> 0x800 <= c as int < 0x10000 && EncodeChar(c) == [a, b, d]
  {
    if Three(a, b, d) == Some(c) {
      Digit(c as int, (a - 0xE0) * 64 + (b - 0x80), d - 0x80);
      Digit((a - 0xE0) * 64 + (b - 0x80), a - 0xE0, b - 0x80);
    }
  }

  lemma FourFrom(c: char, a: Byte, b: Byte, d: Byte, e: Byte)
    requires Four(a, b, d, e) == Some(c)
    ensures 0x10000 <= c as int && EncodeChar(c) == [a, b, d, e]
  {
    var k := (a - 0xF0) * 64 + (b - 0x80);
    var m := k * 64 + (d - 0x80);
    assert c as int == m * 64 + (e - 0x80);
    Digit(c as int, m, e - 0x80);
    Digit(m, k, d - 0x80);
    Digit(k, a - 0xF0, b - 0x80);
  }

  lemma FourTo(c: char)
    requires 0x10000 <= c as int
    ensures var r := EncodeChar(c); |r| == 4 && Four(r[0], r[1], r[2], r[3]) == Some(c)
  {
    var n := c as int;
    var m := n / 64;
    var k := m / 64;
    assert n == m * 64 + n % 64 && m == k * 64 + m % 64 && k == k / 64 * 64 + k % 64;
    assert 16 <= k < 272;
  }

  lemma FourRead(c: char, a: Byte, b: Byte, d: Byte, e: Byte)
    ensures Four(a, b, d, e) == Some(c) <==> 0x10000 <= c as int && EncodeChar(c) == [a, b, d, e]
  {
    hide Four;
    hide EncodeChar;
    if Four(a, b, d, e) == Some(c) {
      FourFrom(c, a, b, d, e);
    }
    if 0x10000 <= c as int {
      FourTo(c);
    }
  }

  lemma DecodeFirst(c: char, rest: seq<Byte>)
    ensures Decode(EncodeChar(c) + rest) == Cons(c, Decode(rest))
  {
    var bytes := EncodeChar(c) + rest;
    hide Two;
    hide Three;
    hide Four;
    if c as int < 0x80 {
      assert bytes[1..] == rest;
    } else if c as int < 0x800 {
      TwoRead(c, bytes[0], bytes[1]);
      assert EncodeChar(c) == [bytes[0], bytes[1]] && bytes[2..] == rest;
    } else if c as int < 0x10000 {
      assert EncodeChar(c) == [bytes[0], bytes[1], bytes[2]] && bytes[3..] == rest;
      ThreeRead(c, bytes[0], bytes[1], bytes[2]);
      NotTwo(bytes[0], bytes[1]);
    } else {
      assert EncodeChar(c) == [bytes[0], bytes[1], bytes[2], bytes[3]] && bytes[4..] == rest;
      FourRead(c, bytes[0], bytes[1], bytes[2], bytes[3]);
      NotTwo(bytes[0], bytes[1]);
      NotThree(bytes[0], bytes[1], bytes[2]);
    }
  }

  lemma NotTwo(a: Byte, b: Byte)
    requires a >= 0xE0
    ensures Two(a, b) == None
  {
  }

  lemma NotThree(a: Byte, b: Byte, c: Byte)
    requires a >= 0xF0
    ensures Three(a, b, c) == None
  {
  }

  /** Decoding accepts exactly the encodings, and gives back what was encoded. */
  lemma {:induction false} DecodeIff(bytes: seq<Byte>, s: string)
    ensures Decode(bytes) == Some(s) <==> bytes == Encode(s)
    decreases |bytes| + |s|
  {
    if bytes == Encode(s) && s != "" {
      DecodeFirst(s[0], Encode(s[1..]));
      DecodeIff(Encode(s[1..]), s[1..]);
      assert s == [s[0]] + s[1..];
    }
    if Decode(bytes) == Some(s) && bytes != [] {
      var n := |EncodeChar(s[0])|;
      FirstDecoded(bytes, s);
      DecodeIff(bytes[n..], s[1..]);
      assert bytes == bytes[..n] + bytes[n..];
    }
  }

  lemma FirstDecoded(bytes: seq<Byte>, s: string)
    requires bytes != [] && Decode(bytes) == Some(s)
    ensures s != "" && EncodeChar(s[0]) <= bytes && Decode(bytes[|EncodeChar(s[0])|..]) == Some(s[1..])
  {
    hide Two;
    hide Three;
    hide Four;
    if bytes[0] < 0x80 {
      assert bytes[..1] == [bytes[0]] == EncodeChar(s[0]);
    } else if |bytes| >= 2 && Two(bytes[0], bytes[1]).Some? {
      TwoRead(s[0], bytes[0], bytes[1]);
      assert bytes[..2] == [bytes[0], bytes[1]];
    } else if |bytes| >= 3 && Three(bytes[0], bytes[1], bytes[2]).Some? {
      ThreeRead(s[0], bytes[0], bytes[1], bytes[2]);
      assert bytes[..3] == [bytes[0], bytes[1], bytes[2]];
    } else {
      FourRead(s[0], bytes[0], bytes[1], bytes[2], bytes[3]);
      assert bytes[..4] == [bytes[0], bytes[1], bytes[2], bytes[3]];
    }
  }
}
