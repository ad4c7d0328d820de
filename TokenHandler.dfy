/** JWT handling without signature verification: the three-segment compact
    form of section 7.1 of RFC 7515 / section 7.2 of RFC 7519, base64url
    decoding of the payload segment (section 5 of RFC 4648) followed by
    UTF-8 decoding, and the expiry test with a clock-skew buffer.
    `JSON.parse` is the parameter `parse`; the clock is the parameter `now`. */
module TokenHandler {
  import opened Wrappers
  import opened Text
  import opened Json
  import Bytes
  import Base64
  import Utf8

  datatype TokenErrorCode = InvalidFormat | DecodeError | ParseError

  /** `TokenValidationError(message, code)`. */
  datatype TokenValidationError = TokenValidationError(message: string, code: TokenErrorCode)

  /** The `code` string the source attaches to each kind. */
  function CodeName(c: TokenErrorCode): string {
    match c
    case InvalidFormat => "INVALID_FORMAT"
    case DecodeError => "DECODE_ERROR"
    case ParseError => "PARSE_ERROR"
  }

  const DecodeFailure := TokenValidationError("Failed to decode base64URL string", DecodeError)
  const FormatFailure := TokenValidationError("Invalid JWT format: token must have 3 parts", InvalidFormat)
  const ParseFailure := TokenValidationError("Failed to parse JWT payload", ParseError)

  /** The default clock-skew buffer of `isTokenExpired`, in minutes. */
  const DefaultBufferMinutes := 5

  // ---------------------------------------------------------------- base64url decoding

  /** `str.replace(/-/g, '+').replace(/_/g, '/')`. */
  function ToStandardAlphabet(s: string): (r: string)
    ensures |r| == |s| && Free(r, '-') && Free(r, '_')
  {
    ReplaceAll(ReplaceAll(s, '-', '+'), '_', '/')
  }

  /** Restores the padding: with a length of k modulo 4, k != 0, `4 - k` '=' are appended. */
  function RestorePadding(s: string): (r: string)
    ensures |r| % 4 == 0 && |s| <= |r| <= |s| + 3
    ensures r[..|s|] == s && forall i :: |s| <= i < |r| ==> r[i] == '='
    ensures |s| % 4 == 0 ==> r == s
  {
    var padding := |s| % 4;
    if padding != 0 then
      var r := s + Repeat('=', 4 - padding);
      assert |r| == 4 * (|s| / 4 + 1);
      r
    else s
  }

  /** `base64URLDecode(str)`: `atob` of the restored base64 text, whose bytes are
      then escaped as `%xx` and given to `decodeURIComponent`, which is strict
      UTF-8 decoding of those bytes. Either step failing is `DECODE_ERROR`. */
  function Base64UrlDecode(str: string): (r: Result<string, TokenValidationError>)
    ensures r.Failure? ==> r.error == DecodeFailure
  {
    match Base64.Atob(RestorePadding(ToStandardAlphabet(str)))
    case None => Failure(DecodeFailure)
    case Some(bytes) =>
      match Utf8.Decode(bytes)
      case None => Failure(DecodeFailure)
      case Some(text) => Success(text)
  }

  lemma RestoredPadding(b: seq<Bytes.byte>)
    ensures RestorePadding(Base64.Encode(b)) == Base64.Encode(b) + Base64.Padding(|b|)
  {
    Base64.EncodeLength(b);
    PadGroup(Base64.Encode(b), |b| / 3, |b| % 3);
  }

  /** An encoding of 3q + k bytes is restored with the padding of k leftover bytes. */
  lemma PadGroup(e: string, q: nat, k: nat)
    requires k < 3 && |e| == 4 * q + (if k == 0 then 0 else k + 1)
    ensures RestorePadding(e) == e + (if k == 1 then "==" else if k == 2 then "=" else "")
  {
    var c := if k == 0 then 0 else k + 1;
    QuadRemainder(q, c);
    if k == 1 {
      assert Repeat('=', 2) == "==";
    } else if k == 2 {
      assert Repeat('=', 1) == "=";
    }
  }

  lemma QuadRemainder(q: nat, c: nat)
    requires c < 4
    ensures (4 * q + c) % 4 == c
  {
  }

  /** Decoding the unpadded base64url encoding of a string's UTF-8 octets gives the string back. */
  lemma Base64UrlRoundTrip(text: string)
    ensures Base64UrlDecode(Base64.UrlEncode(Utf8.Encode(text))) == Success(text)
  {
    var b := Utf8.Encode(text);
    Base64.UrlAlphabetBack(b);
    RestoredPadding(b);
    Base64.AtobBtoa(b);
    Utf8.DecodeEncode(text);
  }

  // ---------------------------------------------------------------- structure

  /** A segment of the compact form: non-empty and free of '.'. */
  predicate IsSegment(s: string) {
    |s| > 0 && Free(s, '.')
  }

  /** `t` is `header.payload.signature` with these three segments. */
  predicate Compact(t: string, header: string, payload: string, signature: string) {
    IsSegment(header) && IsSegment(payload) && IsSegment(signature)
    && t == header + "." + payload + "." + signature
  }

  /** `validateTokenStructure(token)`: a non-empty token whose '.'-split has three non-empty parts.
      (The `typeof token !== 'string'` test has no counterpart: the argument is a string.) */
  function ValidateTokenStructure(token: string): (ok: bool)
    ensures ok ==> |token| >= 5
  {
    token != "" && var parts := Split(token, '.');
    if |parts| == 3 && forall k :: 0 <= k < |parts| ==> |parts[k]| > 0 then
      JoinSplit(token, '.');
      assert parts[1..][1..] == [parts[2]];
      assert |Join(parts[1..], '.')| == |parts[1]| + 1 + |parts[2]|;
      true
    else false
  }

  lemma CompactSplit(h: string, p: string, s: string)
    requires IsSegment(h) && IsSegment(p) && IsSegment(s)
    ensures Split(h + "." + p + "." + s, '.') == [h, p, s]
  {
    assert Join([h, p, s], '.') == h + "." + p + "." + s by {
      assert Join([h, p, s][1..], '.') == p + "." + s by {
        assert [h, p, s][1..][1..] == [s];
      }
    }
    SplitJoin([h, p, s], '.');
  }

  /** The structure check holds exactly of the compact forms. */
  lemma StructureIsCompact(t: string)
    ensures ValidateTokenStructure(t) <==> exists h, p, s :: Compact(t, h, p, s)
  {
    if ValidateTokenStructure(t) {
      var parts := Split(t, '.');
      SplitPartsFree(t, '.');
      JoinSplit(t, '.');
      assert parts[1..][1..] == [parts[2]];
      assert Join(parts[1..], '.') == parts[1] + "." + parts[2];
      assert Join(parts, '.') == parts[0] + "." + parts[1] + "." + parts[2];
      assert Compact(t, parts[0], parts[1], parts[2]);
    }
    if exists h, p, s :: Compact(t, h, p, s) {
      var h, p, s :| Compact(t, h, p, s);
      CompactSplit(h, p, s);
    }
  }

  // ---------------------------------------------------------------- decoding

  /** `decodeJWT(token)`: the format is checked before anything is decoded; the
      payload segment's decoding error is rethrown unchanged; a parse failure
      becomes `PARSE_ERROR`. The result is whatever `JSON.parse` produced. */
  function DecodeJwt(token: string, parse: string -> Option<Json>): (r: Result<Json, TokenValidationError>)
    ensures r.Failure? && r.error.code == InvalidFormat <==> !ValidateTokenStructure(token)
    ensures !ValidateTokenStructure(token) ==> r == Failure(FormatFailure)
    ensures r.Failure? && r.error.code == DecodeError <==>
      ValidateTokenStructure(token) && Base64UrlDecode(Split(token, '.')[1]).Failure?
    ensures r.Failure? ==> r.error in {FormatFailure, DecodeFailure, ParseFailure}
  {
    if !ValidateTokenStructure(token) then Failure(FormatFailure)
    else DecodePayload(Split(token, '.')[1], parse)
  }

  /** The decoding and parsing of the payload segment, once the format is checked. */
  function DecodePayload(payload: string, parse: string -> Option<Json>): (r: Result<Json, TokenValidationError>)
    ensures r.Failure? ==> r.error in {DecodeFailure, ParseFailure}
    ensures r.Failure? && r.error.code == DecodeError <==> Base64UrlDecode(payload).Failure?
  {
    match Base64UrlDecode(payload)
    case Failure(e) => Failure(e)
    case Success(text) =>
      match parse(text)
      case None => Failure(ParseFailure)
      case Some(v) => Success(v)
  }

  /** A compact token decodes as its payload segment does. */
  lemma DecodeCompact(h: string, p: string, s: string, parse: string -> Option<Json>)
    requires IsSegment(h) && IsSegment(p) && IsSegment(s)
    ensures DecodeJwt(h + "." + p + "." + s, parse) == DecodePayload(p, parse)
  {
    CompactSplit(h, p, s);
    var t := h + "." + p + "." + s;
    assert ValidateTokenStructure(t);
  }

  /** `extractClaims`: an alias of `decodeJWT`. */
  function ExtractClaims(token: string, parse: string -> Option<Json>): (r: Result<Json, TokenValidationError>)
    ensures r == DecodeJwt(token, parse)
  {
    DecodeJwt(token, parse)
  }

  /** Only the middle segment is read: header and signature do not matter. */
  lemma OnlyPayloadMatters(h1: string, s1: string, h2: string, s2: string, p: string, parse: string -> Option<Json>)
    requires IsSegment(h1) && IsSegment(s1) && IsSegment(h2) && IsSegment(s2) && IsSegment(p)
    ensures DecodeJwt(h1 + "." + p + "." + s1, parse) == DecodeJwt(h2 + "." + p + "." + s2, parse)
  {
    DecodeCompact(h1, p, s1, parse);
    DecodeCompact(h2, p, s2, parse);
  }

  /** A token whose payload segment is the base64url encoding of some text
      decodes to exactly what parsing that text gives. */
  lemma DecodeEncodedPayload(h: string, text: string, s: string, parse: string -> Option<Json>)
    requires IsSegment(h) && IsSegment(s) && text != ""
    ensures DecodeJwt(h + "." + Base64.UrlEncode(Utf8.Encode(text)) + "." + s, parse)
         == if parse(text).Some? then Success(parse(text).value) else Failure(ParseFailure)
  {
    var p := Base64.UrlEncode(Utf8.Encode(text));
    EncodedPayloadIsSegment(text);
    DecodeCompact(h, p, s, parse);
    Base64UrlRoundTrip(text);
  }

  /** The base64url encoding of a non-empty text is a segment. */
  lemma EncodedPayloadIsSegment(text: string)
    requires text != ""
    ensures IsSegment(Base64.UrlEncode(Utf8.Encode(text)))
  {
    Base64.EncodeLength(Utf8.Encode(text));
  }

  // ---------------------------------------------------------------- expiry

  /** `isTokenExpired(token, bufferMinutes)` with a string (to decode) or an already decoded payload. */
  datatype TokenInput = Encoded(token: string) | Decoded(payload: Json)

  /** The expiry rule on a payload: a missing or falsy `exp` counts as expired;
      otherwise `exp` is converted to a number and the token is expired once
      `now >= exp * 1000 - bufferMinutes * 60000`, an `exp` that converts to
      NaN never comparing as expired. `null.exp` throws inside the `try`, which
      is expired too, as is every non-object `exp` lookup. */
  function PayloadExpired(payload: Json, bufferMinutes: int, now: int): (expired: bool)
    ensures !TruthyOpt(Member(payload, "exp")) ==> expired
    ensures Member(payload, "exp") == Some(Num(0)) ==> expired
    ensures forall e :: e != 0 && Member(payload, "exp") == Some(Num(e)) ==>
      (expired <==> now >= e * 1000 - bufferMinutes * 60 * 1000)
    ensures TruthyOpt(Member(payload, "exp")) && ToNumber(Member(payload, "exp").value).None? ==> !expired
  {
    var exp := Member(payload, "exp");
    if !TruthyOpt(exp) then true
    else
      match ToNumber(exp.value)
      case None => false
      case Some(e) => now >= e * 1000 - bufferMinutes * 60 * 1000
  }

  function IsTokenExpired(token: TokenInput, bufferMinutes: int, now: int, parse: string -> Option<Json>): (expired: bool)
    ensures token.Encoded? && DecodeJwt(token.token, parse).Failure? ==> expired
    ensures token.Encoded? && DecodeJwt(token.token, parse).Success? ==>
      expired == PayloadExpired(DecodeJwt(token.token, parse).value, bufferMinutes, now)
    ensures token.Decoded? ==> expired == PayloadExpired(token.payload, bufferMinutes, now)
  {
    match token
    case Encoded(t) =>
      (match DecodeJwt(t, parse)
       case Failure(_) => true
       case Success(p) => PayloadExpired(p, bufferMinutes, now))
    case Decoded(p) => PayloadExpired(p, bufferMinutes, now)
  }

  /** An `exp` written as numeric text, `"1700000000"` say, is converted: the
      token is expired exactly when the number it spells says so. */
  lemma NumericTextExp(payload: Json, e: int, bufferMinutes: int, now: int)
    requires Member(payload, "exp") == Some(Str(Text.IntToDecimal(e)))
    ensures PayloadExpired(payload, bufferMinutes, now) <==> now >= e * 1000 - bufferMinutes * 60 * 1000
  {
    Text.IntDecimalShape(e);
    NumericTextConverts(e);
  }

  /** An `exp` given as a one-element array `[e]` counts as the number `e`. */
  lemma SingletonArrayExp(payload: Json, e: int, bufferMinutes: int, now: int)
    requires Member(payload, "exp") == Some(Arr([Num(e)]))
    ensures PayloadExpired(payload, bufferMinutes, now) <==> now >= e * 1000 - bufferMinutes * 60 * 1000
  {
    NumericTextConverts(e);
  }

  /** A token once expired stays expired. */
  lemma ExpiredStaysExpired(token: TokenInput, bufferMinutes: int, now: int, later: int, parse: string -> Option<Json>)
    requires now <= later && IsTokenExpired(token, bufferMinutes, now, parse)
    ensures IsTokenExpired(token, bufferMinutes, later, parse)
  {
  }

  /** A larger buffer never turns an expired token into a live one. */
  lemma LargerBufferStaysExpired(token: TokenInput, buffer: int, larger: int, now: int, parse: string -> Option<Json>)
    requires buffer <= larger && IsTokenExpired(token, buffer, now, parse)
    ensures IsTokenExpired(token, larger, now, parse)
  {
    if token.Decoded? || DecodeJwt(token.token, parse).Success? {
      var p := if token.Decoded? then token.payload else DecodeJwt(token.token, parse).value;
      var exp := Member(p, "exp");
      if TruthyOpt(exp) && ToNumber(exp.value).Some? {
        assert larger * 60 * 1000 >= buffer * 60 * 1000;
      }
    }
  }
}
