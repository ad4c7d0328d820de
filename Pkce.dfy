/** The PKCE helpers that `authService.ts` and `oidcService.ts` both carry:
    the random code verifier over the unreserved characters of section 4.1
    of RFC 7636, and the unpadded base64url encoding of the S256 challenge
    of section 4.2. The random bytes are a parameter, and SHA-256 is the
    function parameter `sha256`. */
module Pkce {
  import opened Wrappers
  import opened Bytes
  import opened Text
  import Base64
  import Utf8

  const Upper := "ABCDEFGHIJKLMNOPQRSTUVWXYZ"
  const Lower := "abcdefghijklmnopqrstuvwxyz"
  const Digits := "0123456789"

  /** The verifier charset `ABC…Zabc…z0…9-._~`, written in its four runs. */
  const Charset := Upper + Lower + Digits + "-._~"

  /** The length of the code verifier the login flow generates. */
  const VerifierLength := 128

  /** `unreserved` of RFC 3986: ALPHA / DIGIT / "-" / "." / "_" / "~". */
  predicate IsUnreserved(c: char) {
    'A' <= c <= 'Z' || 'a' <= c <= 'z' || '0' <= c <= '9' || c == '-' || c == '.' || c == '_' || c == '~'
  }

  /** The character at position v of the charset, computed. */
  function CharsetChar(v: nat): (c: char)
    requires v < 66
    ensures IsUnreserved(c)
  {
    if v < 26 then (v + 'A' as int) as char
    else if v < 52 then (v - 26 + 'a' as int) as char
    else if v < 62 then (v - 52 + '0' as int) as char
    else if v == 62 then '-'
    else if v == 63 then '.'
    else if v == 64 then '_'
    else '~'
  }

  lemma CharsetAt(v: nat)
    requires v < 66
    ensures |Charset| == 66 && Charset[v] == CharsetChar(v)
  {
    if v < 26 { assert Charset[v] == Upper[v]; }
    else if v < 52 { assert Charset[v] == Lower[v - 26]; }
    else if v < 62 { assert Charset[v] == Digits[v - 52]; }
  }

  lemma CharsetLayout()
    ensures |Charset| == 66
    ensures forall v :: 0 <= v < 66 ==> Charset[v] == CharsetChar(v)
  {
    forall v | 0 <= v < 66 ensures Charset[v] == CharsetChar(v) {
      CharsetAt(v);
    }
  }

  /** The charset is exactly the unreserved set, each character once. */
  lemma CharsetIsUnreserved()
    ensures |Charset| == 66
    ensures forall i :: 0 <= i < |Charset| ==> IsUnreserved(Charset[i])
    ensures forall c :: IsUnreserved(c) <==> c in Charset
    ensures forall i, j :: 0 <= i < j < |Charset| ==> Charset[i] != Charset[j]
  {
    CharsetLayout();
    forall c | IsUnreserved(c) ensures c in Charset {
      var v := if 'A' <= c <= 'Z' then c as int - 'A' as int
        else if 'a' <= c <= 'z' then c as int - 'a' as int + 26
        else if '0' <= c <= '9' then c as int - '0' as int + 52
        else if c == '-' then 62 else if c == '.' then 63 else if c == '_' then 64 else 65;
      assert Charset[v] == c;
    }
  }

  /** `generateRandomString(n)` given the n random bytes: byte i picks `charset[b mod 66]`. */
  function GenerateRandomString(randomValues: seq<byte>): (s: string)
    ensures |s| == |randomValues|
    ensures forall i :: 0 <= i < |s| ==> IsUnreserved(s[i]) && s[i] == Charset[randomValues[i] % 66]
  {
    CharsetLayout();
    seq(|randomValues|, i requires 0 <= i < |randomValues| => Charset[randomValues[i] % |Charset|])
  }

  /** Every verifier character can be produced: the byte v < 66 yields the v-th charset character. */
  lemma EveryCharsetCharReachable(randomValues: seq<byte>, i: nat)
    requires i < |randomValues| && randomValues[i] < 66
    ensures GenerateRandomString(randomValues)[i] == CharsetChar(randomValues[i])
  {
    var v := randomValues[i];
    assert v % 66 == v;
    CharsetAt(v);
  }

  // ---------------------------------------------------------------- base64url

  lemma {:induction false} ReplaceAllAppend(x: string, y: string, a: char, b: char)
    ensures ReplaceAll(x + y, a, b) == ReplaceAll(x, a, b) + ReplaceAll(y, a, b)
  {
    var l := ReplaceAll(x + y, a, b);
    var r := ReplaceAll(x, a, b) + ReplaceAll(y, a, b);
    assert |l| == |r|;
    forall i | 0 <= i < |l| ensures l[i] == r[i] {
      if i < |x| { assert (x + y)[i] == x[i]; } else { assert (x + y)[i] == y[i - |x|]; }
    }
  }

  lemma {:induction false} RemoveAllOnly(s: string, c: char)
    requires forall i :: 0 <= i < |s| ==> s[i] == c
    ensures RemoveAll(s, c) == ""
    decreases |s|
  {
    if |s| > 0 {
      RemoveAllOnly(s[..|s| - 1], c);
    }
  }

  /** Mapping the alphabet and removing every '=' from `btoa`'s output is the
      unpadded base64url encoding of section 5 of RFC 4648. */
  lemma UrlFromPadded(b: seq<byte>)
    ensures RemoveAll(ReplaceAll(ReplaceAll(Base64.Encode(b) + Base64.Padding(|b|), '+', '-'), '/', '_'), '=')
         == Base64.UrlEncode(b)
  {
    var e := Base64.Encode(b);
    var p := Base64.Padding(|b|);
    ReplaceAllAppend(e, p, '+', '-');
    assert ReplaceAll(p, '+', '-') == p by { assert Free(p, '+'); }
    ReplaceAllAppend(ReplaceAll(e, '+', '-'), p, '/', '_');
    assert ReplaceAll(p, '/', '_') == p by { assert Free(p, '/'); }
    var u := Base64.UrlEncode(b);
    RemoveAllAppend(u, p, '=');
    RemoveAllFree(u, '=');
    RemoveAllOnly(p, '=');
  }

  /** `base64URLEncode(buffer)`: the bytes as a binary string, `btoa`, then the
      url alphabet with the padding removed. */
  method Base64UrlEncode(bytes: seq<byte>) returns (s: string)
    ensures s == Base64.UrlEncode(bytes)
    ensures Free(s, '+') && Free(s, '/') && Free(s, '=')
    ensures |s| == (4 * |bytes| + 2) / 3
  {
    var binary := "";
    var i := 0;
    while i < |bytes|
      invariant 0 <= i <= |bytes|
      invariant binary == BinaryString(bytes[..i])
    {
      binary := binary + [bytes[i] as char];
      i := i + 1;
    }
    assert bytes[..|bytes|] == bytes;
    Base64.BtoaBinary(bytes);
    var encoded := Base64.Btoa(binary).value;
    s := RemoveAll(ReplaceAll(ReplaceAll(encoded, '+', '-'), '/', '_'), '=');
    UrlFromPadded(bytes);
    Base64.EncodeLength(bytes);
  }

  /** A SHA-256 digest of 32 bytes gives a 43-character challenge. */
  lemma DigestChallengeLength(digest: seq<byte>)
    requires |digest| == 32
    ensures |Base64.UrlEncode(digest)| == 43
  {
    Base64.EncodeLength(digest);
  }

  /** `generatePKCEChallenge()`: a 128-character verifier from the random bytes
      and the base64url encoding of the SHA-256 of its UTF-8 octets. */
  method GeneratePkceChallenge(randomValues: seq<byte>, sha256: seq<byte> -> seq<byte>)
    returns (verifier: string, challenge: string)
    requires |randomValues| == VerifierLength
    ensures verifier == GenerateRandomString(randomValues)
    ensures |verifier| == 128 && forall i :: 0 <= i < |verifier| ==> IsUnreserved(verifier[i])
    ensures challenge == Base64.UrlEncode(sha256(Utf8.Encode(verifier)))
    ensures Free(challenge, '+') && Free(challenge, '/') && Free(challenge, '=')
  {
    verifier := GenerateRandomString(randomValues);
    var hash := sha256(Utf8.Encode(verifier));
    challenge := Base64UrlEncode(hash);
  }
}
