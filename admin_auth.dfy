/** The admin token middleware: base64url text (section 5 of RFC 4648) made
    from standard base64 (section 4) by dropping the padding and swapping
    two characters, the two-part `payload.signature` token, its check
    (shape, signature, age) and the `Bearer` header. HMAC-SHA256, UTF-8 and
    JSON are given as functions the caller supplies. */
module AdminAuth {

  import opened Js
  import opened Text

  type Byte = x: int | 0 <= x < 256

  // ---------------------------------------------------------------------
  // Standard base64, as `Buffer.toString("base64")` writes it

  /** The standard base64 alphabet. */
  predicate IsB64Char(c: char) {
    ('A' <= c <= 'Z') || ('a' <= c <= 'z') || ('0' <= c <= '9') || c == '+' || c == '/'
  }

  predicate AllB64(s: string) {
    forall i :: 0 <= i < |s| ==> IsB64Char(s[i])
  }

  /** The character for a 6-bit value. */
  function B64Char(v: int): (c: char)
    requires 0 <= v < 64
    ensures IsB64Char(c)
  {
    if v < 26 then ('A' as int + v) as char
    else if v < 52 then ('a' as int + v - 26) as char
    else if v < 62 then ('0' as int + v - 52) as char
    else if v == 62 then '+'
    else '/'
  }

  /** The standard base64 text of some bytes: four characters for every
      three bytes, the last group padded with `=`. */
  function Base64(b: seq<Byte>): (r: string)
    ensures |r| == 4 * ((|b| + 2) / 3)
    decreases |b|
  {
    if |b| == 0 then ""
    else if |b| == 1 then [B64Char(b[0] / 4), B64Char(b[0] % 4 * 16), '=', '=']
    else if |b| == 2 then [B64Char(b[0] / 4), B64Char(b[0] % 4 * 16 + b[1] / 16), B64Char(b[1] % 16 * 4), '=']
    else
      assert (|b| + 2) / 3 == (|b[3..]| + 2) / 3 + 1;
      [B64Char(b[0] / 4), B64Char(b[0] % 4 * 16 + b[1] / 16), B64Char(b[1] % 16 * 4 + b[2] / 64), B64Char(b[2] % 64)]
      + Base64(b[3..])
  }

  /** How many `=` end the text (at most two are counted). */
  function PadLen(s: string): (n: nat)
    ensures n <= 2 && n <= |s|
  {
    if |s| >= 2 && s[|s| - 2] == '=' && s[|s| - 1] == '=' then 2
    else if |s| >= 1 && s[|s| - 1] == '=' then 1
    else 0
  }

  /** Well-formed padded standard base64: whole groups of four, alphabet
      characters followed by at most two `=`. */
  predicate PaddedB64(s: string) {
    |s| % 4 == 0 && AllB64(s[..|s| - PadLen(s)])
  }

  lemma PaddedPrefix(q: string, rest: string)
    requires |q| == 4 && AllB64(q) && PaddedB64(rest)
    ensures PaddedB64(q + rest)
  {
    var s := q + rest;
    if rest == [] {
      assert s == q;
      assert !IsB64Char('=');
      assert PadLen(s) == 0 by { assert s[3] == q[3]; }
    } else {
      assert s[|s| - 1] == rest[|rest| - 1] && s[|s| - 2] == rest[|rest| - 2];
      assert PadLen(s) == PadLen(rest);
      assert s[..|s| - PadLen(s)] == q + rest[..|rest| - PadLen(rest)];
    }
  }

  /** What `Buffer` writes is well-formed padded base64. */
  lemma {:induction false} Base64Padded(b: seq<Byte>)
    ensures PaddedB64(Base64(b))
    decreases |b|
  {
    var r := Base64(b);
    assert !IsB64Char('=');
    if |b| == 1 {
      assert PadLen(r) == 2 && r[..2] == [r[0], r[1]];
    } else if |b| == 2 {
      assert PadLen(r) == 1 && r[..3] == [r[0], r[1], r[2]];
    } else if |b| >= 3 {
      Base64Padded(b[3..]);
      PaddedPrefix(r[..4], Base64(b[3..]));
      assert r == r[..4] + Base64(b[3..]);
    }
  }

  // ---------------------------------------------------------------------
  // The base64url transforms

  /** The URL-safe alphabet. */
  predicate IsUrlChar(c: char) {
    ('A' <= c <= 'Z') || ('a' <= c <= 'z') || ('0' <= c <= '9') || c == '-' || c == '_'
  }

  /** `b64urlEncode` after the bytes are in base64: drop every `=`, then `+`
      becomes `-` and `/` becomes `_`. */
  function UrlFromStd(s: string): (r: string)
    ensures '=' !in r && '+' !in r && '/' !in r
  {
    ReplaceAll(ReplaceAll(RemoveAll(s, '='), '+', '-'), '/', '_')
  }

  /** From well-formed base64 only URL-safe characters come out; in
      particular no `.`, the token's separator. */
  lemma UrlFromStdAlphabet(s: string)
    requires PaddedB64(s)
    ensures forall i :: 0 <= i < |UrlFromStd(s)| ==> IsUrlChar(UrlFromStd(s)[i])
    ensures '.' !in UrlFromStd(s)
  {
    var body := s[..|s| - PadLen(s)];
    StripPadding(s);
    assert RemoveAll(s, '=') == body;
  }

  /** Removing the `=` of well-formed base64 leaves the characters before
      the padding. */
  lemma StripPadding(s: string)
    requires PaddedB64(s)
    ensures RemoveAll(s, '=') == s[..|s| - PadLen(s)]
  {
    var n := |s| - PadLen(s);
    assert s == s[..n] + s[n..];
    RemoveAllAppend(s[..n], s[n..], '=');
    assert !IsB64Char('=');
    RemoveAllAbsent(s[..n], '=');
    RemoveAllAbsent(s[n..], '=');
  }

  /** The padding `b64urlDecode` adds back: enough `=` to reach a multiple
      of four. */
  function Pad(n: nat): (r: string)
    ensures (n + |r|) % 4 == 0
  {
    if n % 4 == 0 then "" else Repeat('=', 4 - n % 4)
  }

  /** `b64urlDecode` before the bytes are read: `-` becomes `+`, `_` becomes
      `/`, and the padding is added back. */
  function StdFromUrl(u: string): (r: string)
    ensures |r| % 4 == 0
  {
    ReplaceAll(ReplaceAll(u, '-', '+'), '_', '/') + Pad(|u|)
  }

  /** On alphabet characters the two character swaps undo each other. */
  lemma SwapBack(body: string)
    requires AllB64(body)
    ensures ReplaceAll(ReplaceAll(ReplaceAll(ReplaceAll(body, '+', '-'), '/', '_'), '-', '+'), '_', '/') == body
  {
    var x := ReplaceAll(ReplaceAll(ReplaceAll(ReplaceAll(body, '+', '-'), '/', '_'), '-', '+'), '_', '/');
    assert forall i :: 0 <= i < |body| ==> x[i] == body[i];
  }

  /** The padding added back is the padding that was removed. */
  lemma PadRestores(s: string)
    requires PaddedB64(s)
    ensures Pad(|s| - PadLen(s)) == s[|s| - PadLen(s)..]
  {
    var n := |s|;
    var p := PadLen(s);
    if p == 1 {
      assert (n - 1) % 4 == 3;
      assert s[n - 1..] == ['='];
    } else if p == 2 {
      assert (n - 2) % 4 == 2;
      assert s[n - 2..] == ['=', '='];
    }
  }

  /** The decoder's character mapping and padding undo the encoder's, for
      every well-formed padded base64 text. */
  lemma UrlRoundTrip(s: string)
    requires PaddedB64(s)
    ensures StdFromUrl(UrlFromStd(s)) == s
  {
    var p := PadLen(s);
    var body := s[..|s| - p];
    StripPadding(s);
    SwapBack(body);
    PadRestores(s);
    assert |UrlFromStd(s)| == |body|;
    assert s == body + s[|s| - p..];
  }

  // ---------------------------------------------------------------------
  // Tokens

  /** HMAC-SHA256 of `data` under `secret`, as digest bytes. */
  type Hmac = (string, string) -> seq<Byte>

  /** `ADMIN_TOKEN_SECRET || "dev_secret_change_me"`. */
  function Secret(env: Option<string>): string {
    OrElse(env, "dev_secret_change_me")
  }

  /** `sign`: the base64url text of the digest, which holds only URL-safe
      characters and so never the token's `.` separator. */
  function Sign(hmac: Hmac, secret: string, data: string): (r: string)
    ensures forall i :: 0 <= i < |r| ==> IsUrlChar(r[i])
    ensures '.' !in r
  {
    Base64Padded(hmac(secret, data));
    UrlFromStdAlphabet(Base64(hmac(secret, data)));
    UrlFromStd(Base64(hmac(secret, data)))
  }

  /** Two parts without a `.`, joined by one, split back into those parts. */
  lemma TokenParts(payloadB64: string, sig: string)
    requires '.' !in payloadB64 && '.' !in sig
    ensures Split(payloadB64 + "." + sig, '.') == [payloadB64, sig]
  {
    assert payloadB64 + "." + sig == payloadB64 + ['.'] + sig;
    SplitPrefix(payloadB64, sig, '.');
    SplitWithout(sig, '.');
  }

  /** `createAdminToken`: `payload.signature`, where `payloadJson` is the
      UTF-8 bytes of `JSON.stringify({ user, iat })`. The token splits at
      `.` into exactly the payload part and the signature part. */
  function CreateToken(hmac: Hmac, secretEnv: Option<string>, payloadJson: seq<Byte>): (r: string)
    ensures var payloadB64 := UrlFromStd(Base64(payloadJson));
      Split(r, '.') == [payloadB64, Sign(hmac, Secret(secretEnv), payloadB64)]
  {
    var payloadB64 := UrlFromStd(Base64(payloadJson));
    Base64Padded(payloadJson);
    UrlFromStdAlphabet(Base64(payloadJson));
    TokenParts(payloadB64, Sign(hmac, Secret(secretEnv), payloadB64));
    payloadB64 + "." + Sign(hmac, Secret(secretEnv), payloadB64)
  }

  /** The payload the token carries, as far as the check reads it. `iat` is
      what `payload.iat` gives in the subtraction: NaN when it is missing
      or not numeric. */
  datatype Payload = Payload(user: string, iat: Number)

  /** Seven days in milliseconds, the default maximum age. */
  const DefaultMaxAgeMs: int := 7 * 24 * 60 * 60 * 1000

  /** `Number(ADMIN_TOKEN_MAXAGE_MS || 604800000)`: `None` when the setting
      is unset or empty, otherwise what `Number` makes of it. */
  function MaxAge(env: Option<Number>): Number {
    match env
    case None => Finite(DefaultMaxAgeMs as real)
    case Some(n) => n
  }

  /** `now - iat` on JavaScript numbers. */
  function Age(nowMs: int, iat: Number): Number {
    match iat
    case Finite(x) => Finite(nowMs as real - x)
    case NaN => NaN
    case PosInf => NegInf
    case NegInf => PosInf
  }

  /** `a > b` on JavaScript numbers: false whenever NaN is involved. */
  predicate Greater(a: Number, b: Number) {
    match (a, b)
    case (NaN, _) => false
    case (_, NaN) => false
    case (PosInf, PosInf) => false
    case (PosInf, _) => true
    case (NegInf, _) => false
    case (Finite(_), PosInf) => false
    case (Finite(_), NegInf) => true
    case (Finite(x), Finite(y)) => x > y
  }

  /** `Date.now() - payload.iat > maxAgeMs`. */
  function Expired(nowMs: int, iat: Number, maxAge: Number): (r: bool)
    ensures iat == NaN || maxAge == NaN ==> !r
    ensures iat.Finite? && maxAge.Finite? ==> (r <==> nowMs as real - iat.x > maxAge.x)
  {
    Greater(Age(nowMs, iat), maxAge)
  }

  /** `verifyAdminToken`: two parts, a matching signature, a payload that
      decodes and parses, and an age within the limit; otherwise null.
      `decode` stands for `JSON.parse` of the UTF-8 text of the bytes the
      standard base64 text holds, None when any of it throws. */
  function VerifyToken(hmac: Hmac, secretEnv: Option<string>, token: string, decode: string -> Option<Payload>,
                       maxAgeEnv: Option<Number>, nowMs: int): (r: Option<Payload>)
    ensures |Split(token, '.')| != 2 ==> r.None?
    ensures r.Some? ==>
      var parts := Split(token, '.');
      && parts[1] == Sign(hmac, Secret(secretEnv), parts[0])
      && decode(StdFromUrl(parts[0])) == Some(r.value)
      && !Expired(nowMs, r.value.iat, MaxAge(maxAgeEnv))
  {
    var parts := Split(token, '.');
    if |parts| != 2 then None
    else if parts[1] != Sign(hmac, Secret(secretEnv), parts[0]) then None
    else match decode(StdFromUrl(parts[0]))
      case None => None
      case Some(p) => if Expired(nowMs, p.iat, MaxAge(maxAgeEnv)) then None else Some(p)
  }

  /** A token the server created verifies under the same secret, giving back
      its payload, for as long as it is not older than the maximum age; a
      signature made with another secret's digest is refused. */
  lemma CreatedTokenVerifies(hmac: Hmac, secretEnv: Option<string>, payloadJson: seq<Byte>, decode: string -> Option<Payload>,
                             p: Payload, maxAgeEnv: Option<Number>, nowMs: int)
    requires decode(Base64(payloadJson)) == Some(p)
    ensures var token := CreateToken(hmac, secretEnv, payloadJson);
      VerifyToken(hmac, secretEnv, token, decode, maxAgeEnv, nowMs)
        == (if Expired(nowMs, p.iat, MaxAge(maxAgeEnv)) then None else Some(p))
  {
    Base64Padded(payloadJson);
    UrlRoundTrip(Base64(payloadJson));
  }

  /** Expiry is strict: a token exactly the maximum age old is accepted, one
      millisecond older is not; a NaN age or limit (missing `iat`, or a
      non-numeric setting) never expires. */
  lemma ExpiryBoundary(iat: int, maxAge: int, extra: int)
    ensures !Expired(iat + maxAge, Finite(iat as real), Finite(maxAge as real))
    ensures extra > 0 ==> Expired(iat + maxAge + extra, Finite(iat as real), Finite(maxAge as real))
    ensures !Expired(iat + extra, NaN, Finite(maxAge as real))
    ensures !Expired(iat + extra, Finite(iat as real), NaN)
  {
  }

  // ---------------------------------------------------------------------
  // The `Authorization` header

  /** `hdr.startsWith("Bearer ") ? hdr.slice(7) : ""`. */
  function ExtractBearer(hdr: string): (r: string)
    ensures StartsWith(hdr, "Bearer ") ==> hdr == "Bearer " + r
    ensures !StartsWith(hdr, "Bearer ") ==> r == ""
  {
    if StartsWith(hdr, "Bearer ") then hdr[7..] else ""
  }

  /** `requireAdmin`: the payload of a valid bearer token, or None for the
      401 reply; an absent header reads as "". */
  function RequireAdmin(hmac: Hmac, secretEnv: Option<string>, header: Option<string>, decode: string -> Option<Payload>,
                        maxAgeEnv: Option<Number>, nowMs: int): (r: Option<Payload>)
    ensures ExtractBearer(OrElse(header, "")) == "" ==> r.None?
    ensures r.Some? ==> r == VerifyToken(hmac, secretEnv, ExtractBearer(header.value), decode, maxAgeEnv, nowMs)
  {
    var token := ExtractBearer(OrElse(header, ""));
    if token == "" then None else VerifyToken(hmac, secretEnv, token, decode, maxAgeEnv, nowMs)
  }

  /** A header `Bearer <token>` for a token the server created is let
      through with the token's payload while the token is fresh. */
  lemma BearerOfCreatedToken(hmac: Hmac, secretEnv: Option<string>, payloadJson: seq<Byte>, decode: string -> Option<Payload>,
                             p: Payload, maxAgeEnv: Option<Number>, nowMs: int)
    requires decode(Base64(payloadJson)) == Some(p)
    requires !Expired(nowMs, p.iat, MaxAge(maxAgeEnv))
    ensures RequireAdmin(hmac, secretEnv, Some("Bearer " + CreateToken(hmac, secretEnv, payloadJson)), decode, maxAgeEnv, nowMs)
      == Some(p)
  {
    var token := CreateToken(hmac, secretEnv, payloadJson);
    var hdr := "Bearer " + token;
    assert StartsWith(hdr, "Bearer ");
    assert hdr[7..] == token;
    CreatedTokenVerifies(hmac, secretEnv, payloadJson, decode, p, maxAgeEnv, nowMs);
  }
}
