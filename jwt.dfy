/**
 * `makeJWT` of both App Store Connect scripts: a JWS Compact Serialization
 * (RFC 7515, section 7.1) of an ES256 header and the RFC 7519 claims the API asks for.
 * JSON.stringify and the ECDSA P-256 signer are collaborators passed in as functions.
 */
module Jwt {
  import opened Bytes
  import opened Wrappers
  import Base64Url

  /** The lifetime of a token in seconds: `exp = iat + 1200`. */
  const Lifetime: int := 1200
  const Audience: string := "appstoreconnect-v1"
  const Algorithm: string := "ES256"
  const TokenType: string := "JWT"

  /** Identifiers read from the credentials file. */
  datatype Credentials = Credentials(keyId: string, issuerId: string)

  /** `{ alg, kid, typ }` */
  datatype Header = Header(alg: string, kid: string, typ: string)

  /** `{ iss, iat, exp, aud }` */
  datatype Claims = Claims(iss: string, iat: int, exp: int, aud: string)

  /**
   * What `makeJWT` calls but this model does not define: JSON.stringify of the header
   * and of the claims, and the ES256 signature (raw r||s) of the signing input under the private key.
   */
  datatype Signer = Signer(headerJson: Header -> string, claimsJson: Claims -> string, sign: seq<byte> -> seq<byte>)

  function MakeHeader(cred: Credentials): (h: Header)
    ensures h.alg == "ES256" && h.typ == "JWT" && h.kid == cred.keyId
  {
    Header(Algorithm, cred.keyId, TokenType)
  }

  /** The claims minted at `nowMs` milliseconds since the epoch (`Date.now()`). */
  function MakeClaims(cred: Credentials, nowMs: int): (p: Claims)
    ensures p.iat * 1000 <= nowMs < (p.iat + 1) * 1000
    ensures p.exp == p.iat + 1200
    ensures p.iss == cred.issuerId && p.aud == "appstoreconnect-v1"
  {
    var now := nowMs / 1000;   // Math.floor(Date.now() / 1000); Dafny's division by a positive constant floors
    Claims(cred.issuerId, now, now + Lifetime, Audience)
  }

  /** The first two segments, `headerEnc.payloadEnc`, which are signed. */
  function SigningInput(cred: Credentials, nowMs: int, s: Signer): string
  {
    Base64Url.Encode(Utf8(s.headerJson(MakeHeader(cred)))) + "." + Base64Url.Encode(Utf8(s.claimsJson(MakeClaims(cred, nowMs))))
  }

  /** The token: `msg + "." + base64url(signature(msg))`. */
  function MakeJwt(cred: Credentials, nowMs: int, s: Signer): string
  {
    var msg := SigningInput(cred, nowMs, s);
    msg + "." + Base64Url.Encode(s.sign(Utf8(msg)))
  }

  // ---------------------------------------------------------------------------
  // Reading a token back

  /** `s.split(sep)` for a one-character separator. */
  function Split(s: string, sep: char): (parts: seq<string>)
    ensures |parts| >= 1
    ensures forall i :: 0 <= i < |parts| ==> sep !in parts[i]
  {
    if s == [] then [[]]
    else
      var rest := Split(s[1..], sep);
      if s[0] == sep then [[]] + rest else [[s[0]] + rest[0]] + rest[1..]
  }

  /** The number of occurrences of `c` in `s`. */
  function Count(s: string, c: char): nat
  {
    if s == [] then 0 else (if s[0] == c then 1 else 0) + Count(s[1..], c)
  }

  /** The three decoded segments of a compact token, if it has exactly three that all decode. */
  function DecodeToken(t: string): Option<(seq<byte>, seq<byte>, seq<byte>)>
  {
    var parts := Split(t, '.');
    if |parts| != 3 then None
    else
      var h :- Base64Url.UrlDecode(parts[0]);
      var p :- Base64Url.UrlDecode(parts[1]);
      var g :- Base64Url.UrlDecode(parts[2]);
      Some((h, p, g))
  }

  // ---------------------------------------------------------------------------
  // Properties

  lemma {:induction false} SplitNoSep(a: string, sep: char)
    requires sep !in a
    ensures Split(a, sep) == [a]
  {
    if a != [] {
      SplitNoSep(a[1..], sep);
      assert [a[0]] + a[1..] == a;
    }
  }

  lemma {:induction false} SplitCons(a: string, sep: char, b: string)
    requires sep !in a
    ensures Split(a + [sep] + b, sep) == [a] + Split(b, sep)
  {
    if a == [] {
      assert a + [sep] + b == [sep] + b;
      assert ([sep] + b)[1..] == b;
    } else {
      assert (a + [sep] + b)[1..] == a[1..] + [sep] + b;
      SplitCons(a[1..], sep, b);
      assert [a[0]] + a[1..] == a;
    }
  }

  lemma {:induction false} CountAppend(s: string, t: string, c: char)
    ensures Count(s + t, c) == Count(s, c) + Count(t, c)
  {
    if s == [] {
      assert s + t == t;
    } else {
      assert (s + t)[1..] == s[1..] + t;
      CountAppend(s[1..], t, c);
    }
  }

  lemma {:induction false} CountAbsent(s: string, c: char)
    requires c !in s
    ensures Count(s, c) == 0
  {
    if s != [] {
      CountAbsent(s[1..], c);
    }
  }

  /** Three dot-free segments joined by dots split back into themselves. */
  lemma JoinThree(h: string, p: string, g: string)
    requires '.' !in h && '.' !in p && '.' !in g
    ensures Count(h + "." + p + "." + g, '.') == 2
    ensures Split(h + "." + p + "." + g, '.') == [h, p, g]
  {
    var t := h + "." + p + "." + g;
    assert t == h + ['.'] + (p + ['.'] + g);
    SplitCons(h, '.', p + ['.'] + g);
    SplitCons(p, '.', g);
    SplitNoSep(g, '.');
    CountAppend(h + ['.'], p + ['.'] + g, '.');
    CountAppend(h, ['.'], '.');
    CountAppend(p + ['.'], g, '.');
    CountAppend(p, ['.'], '.');
    CountAbsent(h, '.');
    CountAbsent(p, '.');
    CountAbsent(g, '.');
    assert Count(['.'], '.') == 1 by { assert ['.'][1..] == []; }
  }

  /**
   * The token is `header.payload.signature`: exactly two dots, and the three dot-separated
   * segments are the base64url forms of the header JSON, the claims JSON and the signature
   * of the first two segments.
   */
  lemma TokenSegments(cred: Credentials, nowMs: int, s: Signer)
    ensures var t := MakeJwt(cred, nowMs, s);
            var msg := SigningInput(cred, nowMs, s);
            && Count(t, '.') == 2
            && Split(t, '.') == [Base64Url.Encode(Utf8(s.headerJson(MakeHeader(cred)))),
                                 Base64Url.Encode(Utf8(s.claimsJson(MakeClaims(cred, nowMs)))),
                                 Base64Url.Encode(s.sign(Utf8(msg)))]
  {
    var msg := SigningInput(cred, nowMs, s);
    Base64Url.EncodeAlphabet(Utf8(s.headerJson(MakeHeader(cred))));
    Base64Url.EncodeAlphabet(Utf8(s.claimsJson(MakeClaims(cred, nowMs))));
    Base64Url.EncodeAlphabet(s.sign(Utf8(msg)));
    JoinThree(Base64Url.Encode(Utf8(s.headerJson(MakeHeader(cred)))),
              Base64Url.Encode(Utf8(s.claimsJson(MakeClaims(cred, nowMs)))),
              Base64Url.Encode(s.sign(Utf8(msg))));
  }

  /**
   * Reading the token back yields the header bytes, the claims bytes and the signature
   * over the ASCII bytes of `header.payload`.
   */
  lemma DecodeMakeJwt(cred: Credentials, nowMs: int, s: Signer)
    ensures DecodeToken(MakeJwt(cred, nowMs, s))
         == Some((Utf8(s.headerJson(MakeHeader(cred))),
                  Utf8(s.claimsJson(MakeClaims(cred, nowMs))),
                  s.sign(Utf8(SigningInput(cred, nowMs, s)))))
  {
    TokenSegments(cred, nowMs, s);
    Base64Url.DecodeEncode(Utf8(s.headerJson(MakeHeader(cred))));
    Base64Url.DecodeEncode(Utf8(s.claimsJson(MakeClaims(cred, nowMs))));
    Base64Url.DecodeEncode(s.sign(Utf8(SigningInput(cred, nowMs, s))));
  }

  /** The signing input is ASCII, so the signer sees exactly one byte per character of it. */
  lemma SigningInputAscii(cred: Credentials, nowMs: int, s: Signer)
    ensures var msg := SigningInput(cred, nowMs, s);
            |Utf8(msg)| == |msg| && forall i :: 0 <= i < |msg| ==> Utf8(msg)[i] == msg[i] as int
  {
    var h := Base64Url.Encode(Utf8(s.headerJson(MakeHeader(cred))));
    var p := Base64Url.Encode(Utf8(s.claimsJson(MakeClaims(cred, nowMs))));
    Base64Url.EncodeAlphabet(Utf8(s.headerJson(MakeHeader(cred))));
    Base64Url.EncodeAlphabet(Utf8(s.claimsJson(MakeClaims(cred, nowMs))));
    var msg := h + "." + p;
    forall i | 0 <= i < |msg| ensures IsAscii(msg[i]) {
      if i < |h| {
        assert msg[i] == h[i];
      } else if i > |h| {
        assert msg[i] == p[i - |h| - 1];
      }
    }
    Utf8OfAscii(msg);
  }
}
