/** Bytes, and the "binary strings" (one character per byte, code points
    0-255) that `String.fromCharCode`, `btoa` and `atob` exchange. */
module Bytes {

  type byte = x: int | 0 <= x < 256

  /** A string whose every character is a byte value, as `atob` returns and `btoa` accepts. */
  predicate IsBinary(s: string) {
    forall i :: 0 <= i < |s| ==> (s[i] as int) < 256
  }

  /** The binary string of `b`: character i is `String.fromCharCode(b[i])`. */
  function BinaryString(b: seq<byte>): (s: string)
    ensures |s| == |b| && IsBinary(s)
    ensures forall i :: 0 <= i < |b| ==> s[i] as int == b[i]
  {
    seq(|b|, i requires 0 <= i < |b| => b[i] as char)
  }

  /** The bytes of a binary string: `c.charCodeAt(0)` for each character. */
  function BinaryBytes(s: string): (b: seq<byte>)
    requires IsBinary(s)
    ensures |b| == |s|
    ensures forall i :: 0 <= i < |s| ==> b[i] == s[i] as int
  {
    seq(|s|, i requires 0 <= i < |s| => s[i] as int)
  }

  lemma BinaryRoundTrip(b: seq<byte>)
    ensures BinaryBytes(BinaryString(b)) == b
  {
  }
}
