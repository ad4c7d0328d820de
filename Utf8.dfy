/** UTF-8 as defined by RFC 3629: the encoder `TextEncoder` applies to a
    string, and the strict decoder that `decodeURIComponent` applies to a
    run of percent-escaped octets (it throws URIError on any ill-formed
    sequence: a stray continuation byte, an overlong form, a surrogate or a
    value above U+10FFFF). */
module Utf8 {
  import opened Wrappers
  import opened Bytes

  predicate IsContinuation(b: byte) {
    0x80 <= b < 0xC0
  }

  /** The octets of one character, one to four of them by the size of its code point. */
  function EncodeChar(c: char): (b: seq<byte>)
    ensures 1 <= |b| <= 4
  {
    var cp := c as int;
    if cp < 0x80 then [cp]
    else if cp < 0x800 then [0xC0 + cp / 64, 0x80 + cp % 64]
    else if cp < 0x10000 then [0xE0 + cp / 4096, 0x80 + (cp / 64) % 64, 0x80 + cp % 64]
    else [0xF0 + cp / 262144, 0x80 + (cp / 4096) % 64, 0x80 + (cp / 64) % 64, 0x80 + cp % 64]
  }

  function Encode(s: string): (b: seq<byte>)
    ensures |s| <= |b| <= 4 * |s|
  {
    if |s| == 0 then [] else EncodeChar(s[0]) + Encode(s[1..])
  }

  /** The first character of `b` and the number of octets it takes, when `b`
      starts with a well-formed sequence (the table of section 4 of RFC 3629). */
  function DecodeFirst(b: seq<byte>): (r: Option<(char, nat)>)
    requires |b| >= 1
    ensures r.Some? ==> 1 <= r.value.1 <= |b| && r.value.1 <= 4
  {
    var b0 := b[0] as int;
    if b0 < 0x80 then Some((b0 as char, 1))
    else if 0xC2 <= b0 <= 0xDF then
      if |b| >= 2 && IsContinuation(b[1]) then
        Some((((b0 - 0xC0) * 64 + (b[1] as int - 0x80)) as char, 2))
      else None
    else if 0xE0 <= b0 <= 0xEF then
      var lo := if b0 == 0xE0 then 0xA0 else 0x80;
      var hi := if b0 == 0xED then 0x9F else 0xBF;
      if |b| >= 3 && lo <= b[1] <= hi && IsContinuation(b[2]) then
        Some((((b0 - 0xE0) * 4096 + (b[1] as int - 0x80) * 64 + (b[2] as int - 0x80)) as char, 3))
      else None
    else if 0xF0 <= b0 <= 0xF4 then
      var lo := if b0 == 0xF0 then 0x90 else 0x80;
      var hi := if b0 == 0xF4 then 0x8F else 0xBF;
      if |b| >= 4 && lo <= b[1] <= hi && IsContinuation(b[2]) && IsContinuation(b[3]) then
        Some((((b0 - 0xF0) * 262144 + (b[1] as int - 0x80) * 4096 + (b[2] as int - 0x80) * 64 + (b[3] as int - 0x80)) as char, 4))
      else None
    else None
  }

  /** Strict decoding: `None` as soon as an ill-formed sequence is met. */
  function Decode(b: seq<byte>): (r: Option<string>)
    ensures b == [] ==> r == Some("")
    ensures r.Some? ==> |r.value| <= |b|
    decreases |b|
  {
    if |b| == 0 then Some("")
    else
      match DecodeFirst(b)
      case None => None
      case Some((c, k)) =>
        match Decode(b[k..])
        case None => None
        case Some(rest) => Some([c] + rest)
  }

  /** The octets of a character decode to that character and nothing else. */
  lemma DecodeChar(c: char, rest: seq<byte>)
    ensures DecodeFirst(EncodeChar(c) + rest) == Some((c, |EncodeChar(c)|))
  {
    var cp := c as int;
    if cp < 0x80 {
    } else if cp < 0x800 {
      Decode2(cp, EncodeChar(c) + rest);
    } else if cp < 0x10000 {
      Decode3(cp, EncodeChar(c) + rest);
    } else {
      Decode4(cp, EncodeChar(c) + rest);
    }
  }

  lemma Decode2(cp: int, b: seq<int>)
    requires 0x80 <= cp < 0x800 && |b| >= 2
    requires b[0] == 0xC0 + cp / 64 && b[1] == 0x80 + cp % 64
    ensures (b[0] - 0xC0) * 64 + (b[1] - 0x80) == cp
  {
  }

  lemma Decode3(cp: int, b: seq<int>)
    requires 0x800 <= cp < 0x10000 && |b| >= 3
    requires b[0] == 0xE0 + cp / 4096 && b[1] == 0x80 + (cp / 64) % 64 && b[2] == 0x80 + cp % 64
    ensures (b[0] - 0xE0) * 4096 + (b[1] - 0x80) * 64 + (b[2] - 0x80) == cp
    ensures (cp < 0x1000 ==> b[0] == 0xE0 && b[1] >= 0xA0) && (0xD800 > cp >= 0xD000 ==> b[0] == 0xED && b[1] <= 0x9F)
  {
  }

  lemma Decode4(cp: int, b: seq<int>)
    requires 0x10000 <= cp < 0x110000 && |b| >= 4
    requires b[0] == 0xF0 + cp / 262144 && b[1] == 0x80 + (cp / 4096) % 64
    requires b[2] == 0x80 + (cp / 64) % 64 && b[3] == 0x80 + cp % 64
    ensures (b[0] - 0xF0) * 262144 + (b[1] - 0x80) * 4096 + (b[2] - 0x80) * 64 + (b[3] - 0x80) == cp
    ensures (cp < 0x40000 ==> b[0] == 0xF0 && b[1] >= 0x90) && (cp >= 0x100000 ==> b[0] == 0xF4 && b[1] <= 0x8F)
  {
    var q1 := cp / 64;
    var q2 := q1 / 64;
    var q3 := q2 / 64;
    assert q2 == cp / 4096;
    assert q3 == cp / 262144;
    assert cp == 64 * q1 + cp % 64;
    assert q1 == 64 * q2 + q1 % 64;
    assert q2 == 64 * q3 + q2 % 64;
  }

  /** Decoding undoes encoding (section 3 of RFC 3629). */
  lemma {:induction false} DecodeEncode(s: string)
    ensures Decode(Encode(s)) == Some(s)
    decreases |s|
  {
    if |s| > 0 {
      var e := EncodeChar(s[0]);
      var b := Encode(s);
      assert b == e + Encode(s[1..]);
      DecodeChar(s[0], Encode(s[1..]));
      assert b[|e|..] == Encode(s[1..]);
      DecodeEncode(s[1..]);
      assert [s[0]] + s[1..] == s;
    }
  }
}
