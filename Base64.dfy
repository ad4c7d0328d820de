/** The base 64 encoding of section 4 of RFC 4648 as the browser's `btoa`
    produces it, and the forgiving decoder behind `atob` (the HTML
    standard's "forgiving-base64 decode"): ASCII whitespace is ignored, one
    or two trailing '=' are dropped when the length is a multiple of four,
    a length of 1 modulo 4 or a character outside the alphabet fails, and
    the leftover bits of a final partial group are discarded. */
module Base64 {
  import opened Wrappers
  import opened Bytes
  import Text

  /** The value 0-63 written as its character of the standard alphabet. */
  function SextetChar(v: nat): (c: char)
    requires v < 64
    ensures IsBase64Char(c) && SextetValue(c) == v
  {
    if v < 26 then (v + 'A' as int) as char
    else if v < 52 then (v - 26 + 'a' as int) as char
    else if v < 62 then (v - 52 + '0' as int) as char
    else if v == 62 then '+'
    else '/'
  }

  predicate IsBase64Char(c: char) {
    'A' <= c <= 'Z' || 'a' <= c <= 'z' || '0' <= c <= '9' || c == '+' || c == '/'
  }

  function SextetValue(c: char): (v: nat)
    requires IsBase64Char(c)
    ensures v < 64
  {
    if 'A' <= c <= 'Z' then c as int - 'A' as int
    else if 'a' <= c <= 'z' then c as int - 'a' as int + 26
    else if '0' <= c <= '9' then c as int - '0' as int + 52
    else if c == '+' then 62
    else 63
  }

  predicate AllBase64(s: string) {
    forall i :: 0 <= i < |s| ==> IsBase64Char(s[i])
  }

  // ---------------------------------------------------------------- encoding

  /** The four characters of a full 3-byte group. */
  function Quad(b0: byte, b1: byte, b2: byte): (s: string)
    ensures |s| == 4 && AllBase64(s)
  {
    [SextetChar(b0 / 4), SextetChar((b0 % 4) * 16 + b1 / 16),
     SextetChar((b1 % 16) * 4 + b2 / 64), SextetChar(b2 % 64)]
  }

  /** The unpadded encoding: each 3-byte group becomes four characters, a final
      group of one or two bytes becomes two or three characters. */
  function Encode(b: seq<byte>): (s: string)
    ensures AllBase64(s)
    decreases |b|
  {
    if |b| == 0 then ""
    else if |b| == 1 then Quad(b[0], 0, 0)[..2]
    else if |b| == 2 then Quad(b[0], b[1], 0)[..3]
    else Quad(b[0], b[1], b[2]) + Encode(b[3..])
  }

  /** Four characters per full group, and one more than the bytes of a partial one. */
  lemma {:induction false} EncodeLength(b: seq<byte>)
    ensures |Encode(b)| == 4 * (|b| / 3) + (if |b| % 3 == 0 then 0 else |b| % 3 + 1)
    ensures |Encode(b)| == (4 * |b| + 2) / 3
    decreases |b|
  {
    if |b| >= 3 {
      EncodeLength(b[3..]);
    }
  }

  /** The '=' characters that complete the last group to four characters. */
  function Padding(n: nat): (p: string)
    ensures |p| <= 2 && Text.Free(p, '+') && Text.Free(p, '/')
    ensures forall i :: 0 <= i < |p| ==> p[i] == '='
  {
    if n % 3 == 1 then "==" else if n % 3 == 2 then "=" else ""
  }

  /** The base64url encoding of section 5 of RFC 4648 without its padding:
      '-' and '_' stand for '+' and '/'. */
  function UrlEncode(b: seq<byte>): (s: string)
    ensures |s| == |Encode(b)|
    ensures Text.Free(s, '+') && Text.Free(s, '/') && Text.Free(s, '=') && Text.Free(s, '.')
  {
    Text.ReplaceAll(Text.ReplaceAll(Encode(b), '+', '-'), '/', '_')
  }

  /** Mapping the url alphabet back gives the standard encoding. */
  lemma UrlAlphabetBack(b: seq<byte>)
    ensures Text.ReplaceAll(Text.ReplaceAll(UrlEncode(b), '-', '+'), '_', '/') == Encode(b)
  {
    var e := Encode(b);
    var back := Text.ReplaceAll(Text.ReplaceAll(UrlEncode(b), '-', '+'), '_', '/');
    assert |back| == |e|;
    forall i | 0 <= i < |e| ensures back[i] == e[i] {
      assert IsBase64Char(e[i]);
    }
  }

  /** `btoa(s)`: fails (InvalidCharacterError) on a character above 0xFF. */
  function Btoa(s: string): (r: Option<string>)
    ensures r.Some? <==> IsBinary(s)
    ensures r.Some? ==> |r.value| % 4 == 0
  {
    if IsBinary(s) then PaddingCompletes(BinaryBytes(s)); Some(Encode(BinaryBytes(s)) + Padding(|s|)) else None
  }

  // ---------------------------------------------------------------- decoding

  predicate IsAsciiWhitespace(c: char) {
    c == '\t' || c == '\n' || c == '\U{000C}' || c == '\r' || c == ' '
  }

  function StripWhitespace(s: string): (r: string)
    ensures |r| <= |s|
    ensures (forall i :: 0 <= i < |s| ==> !IsAsciiWhitespace(s[i])) ==> r == s
  {
    if |s| == 0 then ""
    else if IsAsciiWhitespace(s[0]) then StripWhitespace(s[1..])
    else [s[0]] + StripWhitespace(s[1..])
  }

  /** With a length that is a multiple of four, one or two trailing '=' are dropped. */
  function DropPadding(t: string): string {
    if |t| % 4 == 0 && |t| >= 2 && t[|t| - 2..] == "==" then t[..|t| - 2]
    else if |t| % 4 == 0 && |t| >= 1 && t[|t| - 1] == '=' then t[..|t| - 1]
    else t
  }

  /** Decoding of alphabet characters, group by group; the bits left over in a
      final group of two or three characters are discarded. */
  function DecodeGroups(u: string): (b: seq<byte>)
    requires AllBase64(u) && |u| % 4 != 1
    decreases |u|
  {
    if |u| == 0 then []
    else if |u| == 2 then [SextetValue(u[0]) * 4 + SextetValue(u[1]) / 16]
    else if |u| == 3 then
      [SextetValue(u[0]) * 4 + SextetValue(u[1]) / 16,
       (SextetValue(u[1]) % 16) * 16 + SextetValue(u[2]) / 4]
    else
      [SextetValue(u[0]) * 4 + SextetValue(u[1]) / 16,
       (SextetValue(u[1]) % 16) * 16 + SextetValue(u[2]) / 4,
       (SextetValue(u[2]) % 4) * 64 + SextetValue(u[3])] + DecodeGroups(u[4..])
  }

  /** `atob(s)` as bytes; `None` is the InvalidCharacterError it throws. */
  function Atob(s: string): (r: Option<seq<byte>>)
    ensures r.Some? <==> (var u := DropPadding(StripWhitespace(s)); |u| % 4 != 1 && AllBase64(u))
  {
    var u := DropPadding(StripWhitespace(s));
    if |u| % 4 == 1 || !AllBase64(u) then None else Some(DecodeGroups(u))
  }

  // ---------------------------------------------------------------- round trip

  lemma Group3(b0: byte, b1: byte, b2: byte)
    ensures var q := Quad(b0, b1, b2);
      && SextetValue(q[0]) * 4 + SextetValue(q[1]) / 16 == b0
      && (SextetValue(q[1]) % 16) * 16 + SextetValue(q[2]) / 4 == b1
      && (SextetValue(q[2]) % 4) * 64 + SextetValue(q[3]) == b2
  {
  }

  lemma DecodeQuad(b0: byte, b1: byte, b2: byte, rest: string)
    requires AllBase64(rest) && |rest| % 4 != 1
    ensures AllBase64(Quad(b0, b1, b2) + rest) && |Quad(b0, b1, b2) + rest| % 4 != 1
    ensures DecodeGroups(Quad(b0, b1, b2) + rest) == [b0, b1, b2] + DecodeGroups(rest)
  {
    var u := Quad(b0, b1, b2) + rest;
    assert u[4..] == rest;
    Group3(b0, b1, b2);
  }

  /** Decoding the groups of an encoding gives back the bytes. */
  lemma {:induction false} DecodeEncode(b: seq<byte>)
    ensures |Encode(b)| % 4 != 1
    ensures DecodeGroups(Encode(b)) == b
    decreases |b|
  {
    if |b| >= 3 {
      var rest := Encode(b[3..]);
      assert Encode(b) == Quad(b[0], b[1], b[2]) + rest;
      DecodeEncode(b[3..]);
      DecodeQuad(b[0], b[1], b[2], rest);
      assert b == [b[0], b[1], b[2]] + b[3..];
    } else if |b| == 2 {
      DecodeTail2(b[0], b[1]);
    } else if |b| == 1 {
      DecodeTail1(b[0]);
    }
  }

  lemma DecodeTail1(b0: byte)
    ensures DecodeGroups(Quad(b0, 0, 0)[..2]) == [b0]
  {
    Group3(b0, 0, 0);
  }

  lemma DecodeTail2(b0: byte, b1: byte)
    ensures DecodeGroups(Quad(b0, b1, 0)[..3]) == [b0, b1]
  {
    Group3(b0, b1, 0);
  }

  lemma NoWhitespace(s: string)
    requires AllBase64(s)
    ensures forall i :: 0 <= i < |s| ==> !IsAsciiWhitespace(s[i])
  {
  }

  /** The padding completes the unpadded encoding to a multiple of four characters. */
  lemma PaddingCompletes(b: seq<byte>)
    ensures |Encode(b) + Padding(|b|)| % 4 == 0
  {
    EncodeLength(b);
    GroupArithmetic(|b|, |Encode(b)|, |Padding(|b|)|);
  }

  /** A length of 4q plus that of a partial group, plus its padding, is a multiple of four. */
  lemma GroupArithmetic(n: nat, e: int, p: int)
    requires e == 4 * (n / 3) + (if n % 3 == 0 then 0 else n % 3 + 1)
    requires p == (if n % 3 == 1 then 2 else if n % 3 == 2 then 1 else 0)
    ensures (e + p) % 4 == 0
  {
    var k := n / 3 + (if n % 3 == 0 then 0 else 1);
    assert e + p == 4 * k;
  }

  lemma DropAddedPadding(e: string, p: string)
    requires |e + p| % 4 == 0 && |p| <= 2
    requires AllBase64(e) && forall i :: 0 <= i < |p| ==> p[i] == '='
    ensures DropPadding(e + p) == e
  {
    var t := e + p;
    if |p| == 2 {
      assert t[|t| - 2..] == p;
      assert t[..|t| - 2] == e;
    } else if |p| == 1 {
      assert |e| >= 1;
      assert t[|t| - 2..] != "==" by { assert t[|t| - 2] == e[|e| - 1]; }
      assert t[..|t| - 1] == e;
    } else {
      assert t == e;
      if |t| >= 1 { assert t[|t| - 1] == e[|e| - 1]; }
    }
  }

  /** `btoa` of the binary string of some bytes is their padded encoding. */
  lemma BtoaBinary(b: seq<byte>)
    ensures Btoa(BinaryString(b)) == Some(Encode(b) + Padding(|b|))
  {
    BinaryRoundTrip(b);
  }

  /** `atob` undoes `btoa` on every binary string. */
  lemma AtobBtoa(b: seq<byte>)
    ensures Atob(Encode(b) + Padding(|b|)) == Some(b)
  {
    var e := Encode(b);
    var p := Padding(|b|);
    NoWhitespace(e);
    assert forall i :: 0 <= i < |e + p| ==> !IsAsciiWhitespace((e + p)[i]) by {
      forall i | 0 <= i < |e + p| ensures !IsAsciiWhitespace((e + p)[i]) {
        if i < |e| { assert (e + p)[i] == e[i]; } else { assert (e + p)[i] == p[i - |e|]; }
      }
    }
    assert StripWhitespace(e + p) == e + p;
    PaddingCompletes(b);
    DropAddedPadding(e, p);
    DecodeEncode(b);
  }
}
