/** The token engine: building a signed three-segment token from claims bytes and
    a key, and parsing and validating a presented token (signature first, then
    not-before, then expiry). HMAC-SHA256, the JSON library and timestamp parsing
    are foreign code and are passed in as `Externals`; the current time is a
    parameter. */
module JwtToken {
  import opened Prelude
  import opened Strings
  import opened Base64
  import opened JwtHeader
  import opened JwtClaims

  /** The layout `nbf` and `exp` are parsed with (RFC 3339 in Go's notation). */
  const Rfc3339: string := "2006-01-02T15:04:05Z07:00"

  /** The foreign code the engine calls.
      `hmac(key, message)`: HMAC-SHA256 over the bytes of the two strings;
      `json`: the JSON library;
      `parseTime(layout, text)`: the Unix seconds of a timestamp, or a parse error. */
  datatype Externals = Externals(
    hmac: (string, string) -> seq<byte>,
    json: JsonCodec,
    parseTime: (string, string) -> Result<int, string>)

  /** The two readings of the clock, in Unix seconds: `notBeforeValid` and
      `expValid` each call `time.Now()` themselves, so they may see different
      seconds. */
  datatype Clock = Clock(nbfNow: int, expNow: int)

  /** The errors the engine returns, one per distinct error site. */
  datatype Error =
    | WrongSegmentCount               // the token must consist of three elements
    | IncorrectClaimsSegment          // the claims segment is not valid base 64
    | ClaimsFormat(cause: ClaimsError)  // the decoded claims are not a JSON object
    | BadClaims(cause: ClaimsError)   // `NewToken`'s input is not a JSON object
    | HeaderMarshal(detail: string)
    | ClaimsMarshal(detail: string)
    | SignatureNotValid
    | NotBeforeFormat(detail: string)
    | NotYetValid
    | ExpiryFormat(detail: string)
    | Expired

  /** The outcome of a check: `(true, nil)`, `(false, err)`, or a run-time panic
      (a time claim that is not a JSON string). */
  datatype Check = Pass | Fail(error: Error) | Panic

  /** `encodeSection`: base 64 with the URL-safe alphabet, no padding. */
  function EncodeSection(b: seq<byte>): (s: string)
    ensures '.' !in s
    ensures forall i :: 0 <= i < |s| ==> ValueOf(Url, s[i]).Some?
  {
    assert ValueOf(Url, '.').None?;
    Encode(Url, b)
  }

  /** `decodeSection`: base 64 with the STANDARD alphabet, no padding. */
  function DecodeSection(s: string): (r: Option<seq<byte>>)
    ensures r.Some? ==> '-' !in s && '_' !in s
  {
    Decode(Std, s)
  }

  /** The decoder `decodeSection` is evidently meant to be: the URL-safe
      alphabet that `encodeSection` writes. */
  function DecodeSectionUrl(s: string): (r: Option<seq<byte>>)
    ensures r.Some? ==> '+' !in s && '/' !in s
  {
    Decode(Url, s)
  }

  /** The signature segment over the first two segments: the URL-safe encoding of
      the MAC of `seg0 + "." + seg1` under `key`. */
  function Signature(x: Externals, key: string, seg0: string, seg1: string): (s: string)
    ensures '.' !in s
    ensures DecodeSectionUrl(s) == Some(x.hmac(key, seg0 + "." + seg1))
  {
    DecodeEncode(Url, x.hmac(key, seg0 + "." + seg1));
    EncodeSection(x.hmac(key, seg0 + "." + seg1))
  }

  /** `signatureValid`: the presented third segment must equal the recomputed
      signature exactly. */
  function SignatureValid(x: Externals, key: string, hashes: seq<string>): (r: Check)
    requires |hashes| >= 3
    ensures r == Pass <==> hashes[2] == Signature(x, key, hashes[0], hashes[1])
    ensures r != Pass ==> r == Fail(SignatureNotValid)
  {
    if Signature(x, key, hashes[0], hashes[1]) == hashes[2] then Pass else Fail(SignatureNotValid)
  }

  /** `notBeforeValid`: an absent `nbf` passes; a present one must be a string
      that parses, and whose Unix seconds are strictly before `now`. */
  function NotBeforeValid(x: Externals, claims: Claims, layout: string, now: int): (r: Check)
    ensures "nbf" !in claims.Keys() ==> r == Pass
    ensures r == Panic <==> "nbf" in claims.Keys() && !claims.Get("nbf").value.JString?
    ensures r.Fail? ==> r.error == NotYetValid || r.error.NotBeforeFormat?
    ensures claims.Get("nbf").Some? && claims.Get("nbf").value.JString? ==>
      match x.parseTime(layout, claims.Get("nbf").value.str)
      case Failure(detail) => r == Fail(NotBeforeFormat(detail))
      case Success(t) => (r == Fail(NotYetValid) <==> t >= now) && (r == Pass <==> t < now)
  {
    match claims.Get("nbf")
    case None => Pass
    case Some(v) =>
      if !v.JString? then Panic
      else
        match x.parseTime(layout, v.str)
        case Failure(detail) => Fail(NotBeforeFormat(detail))
        case Success(t) => if t >= now then Fail(NotYetValid) else Pass
  }

  /** `expValid`: an absent `exp` passes; a present one must be a string that
      parses, and whose Unix seconds are not before `now`. */
  function ExpValid(x: Externals, claims: Claims, layout: string, now: int): (r: Check)
    ensures "exp" !in claims.Keys() ==> r == Pass
    ensures r == Panic <==> "exp" in claims.Keys() && !claims.Get("exp").value.JString?
    ensures r.Fail? ==> r.error == Expired || r.error.ExpiryFormat?
    ensures claims.Get("exp").Some? && claims.Get("exp").value.JString? ==>
      match x.parseTime(layout, claims.Get("exp").value.str)
      case Failure(detail) => r == Fail(ExpiryFormat(detail))
      case Success(t) => (r == Fail(Expired) <==> t < now) && (r == Pass <==> t >= now)
  {
    match claims.Get("exp")
    case None => Pass
    case Some(v) =>
      if !v.JString? then Panic
      else
        match x.parseTime(layout, v.str)
        case Failure(detail) => Fail(ExpiryFormat(detail))
        case Success(t) => if t < now then Fail(Expired) else Pass
  }

  /** `isValid`: signature, then not-before, then expiry; the first check that
      does not pass decides, and the later ones are not consulted. */
  function IsValid(x: Externals, key: string, claims: Claims, hashes: seq<string>, layout: string, clock: Clock): (r: Check)
    requires |hashes| >= 3
    ensures r == Pass <==>
      && SignatureValid(x, key, hashes) == Pass
      && NotBeforeValid(x, claims, layout, clock.nbfNow) == Pass
      && ExpValid(x, claims, layout, clock.expNow) == Pass
    ensures SignatureValid(x, key, hashes) != Pass ==> r == Fail(SignatureNotValid)
    ensures SignatureValid(x, key, hashes) == Pass && NotBeforeValid(x, claims, layout, clock.nbfNow) != Pass ==>
      r == NotBeforeValid(x, claims, layout, clock.nbfNow)
    ensures SignatureValid(x, key, hashes) == Pass && NotBeforeValid(x, claims, layout, clock.nbfNow) == Pass ==>
      r == ExpValid(x, claims, layout, clock.expNow)
  {
    var sig := SignatureValid(x, key, hashes);
    if sig != Pass then sig
    else
      var nbf := NotBeforeValid(x, claims, layout, clock.nbfNow);
      if nbf != Pass then nbf
      else ExpValid(x, claims, layout, clock.expNow)
  }

  /** What `parseToken` puts in the token it returns (the key is set afterwards). */
  datatype Parsed = Parsed(header: Header, claims: Claims, hashes: seq<string>, layout: string)

  /** `parseToken`: split on `.`, demand exactly three parts (empty ones are
      fine), decode and parse only the claims segment; the header is the default
      one and segment 0 is never read. */
  function ParseToken(json: JsonCodec, token: string): (r: Result<Parsed, Error>)
    ensures r == Failure(WrongSegmentCount) <==> Count(token, '.') != 2
    ensures r.Success? ==>
      && r.value.header == NewHeader()
      && r.value.layout == Rfc3339
      && |r.value.hashes| == 3
      && Join(r.value.hashes, '.') == token
      && (forall i :: 0 <= i < 3 ==> '.' !in r.value.hashes[i])
    ensures r.Success? ==>
      && DecodeSection(r.value.hashes[1]).Some?
      && NewClaims(json, DecodeSection(r.value.hashes[1]).value) == Success(r.value.claims)
    ensures Count(token, '.') == 2 ==>
      var h := Split(token, '.');
      && |h| == 3
      && (DecodeSection(h[1]).None? ==> r == Failure(IncorrectClaimsSegment))
      && (DecodeSection(h[1]).Some? && NewClaims(json, DecodeSection(h[1]).value).Failure? ==>
            r == Failure(ClaimsFormat(NewClaims(json, DecodeSection(h[1]).value).error)))
      && (DecodeSection(h[1]).Some? && NewClaims(json, DecodeSection(h[1]).value).Success? ==> r.Success?)
  {
    var hashes := Split(token, '.');
    SplitLength(token, '.');
    JoinSplit(token, '.');
    SplitPartsClean(token, '.');
    if |hashes| != 3 then Failure(WrongSegmentCount)
    else
      match DecodeSection(hashes[1])
      case None => Failure(IncorrectClaimsSegment)
      case Some(data) =>
        match NewClaims(json, data)
        case Failure(e) => Failure(ClaimsFormat(e))
        case Success(claims) => Success(Parsed(NewHeader(), claims, hashes, Rfc3339))
  }

  /** `ValidateToken`'s verdict: parse, set the key, run `isValid`. */
  function Validate(x: Externals, token: string, key: string, clock: Clock): (r: Check)
    ensures r == Fail(WrongSegmentCount) <==> Count(token, '.') != 2
    ensures ParseToken(x.json, token).Failure? ==> r == Fail(ParseToken(x.json, token).error)
    ensures ParseToken(x.json, token).Success? ==>
      var p := ParseToken(x.json, token).value;
      r == IsValid(x, key, p.claims, p.hashes, p.layout, clock)
  {
    match ParseToken(x.json, token)
    case Failure(e) => Fail(e)
    case Success(p) => IsValid(x, key, p.claims, p.hashes, p.layout, clock)
  }

  /** What `makeHashes` leaves in `hashes` when it succeeds: the header segment,
      the claims segment, and the signature over the two. */
  function BuildSegments(x: Externals, header: Header, claims: Claims, key: string): (r: Result<seq<string>, Error>)
    ensures r.Success? <==> x.json.marshalStruct(header.JsonFields()).Success? && x.json.marshal(claims.ToJson()).Success?
    ensures r.Success? ==>
      && |r.value| == 3
      && r.value[0] == EncodeSection(x.json.marshalStruct(header.JsonFields()).value)
      && r.value[1] == EncodeSection(x.json.marshal(claims.ToJson()).value)
    ensures r.Success? ==>
      && |r.value| == 3
      && (forall i :: 0 <= i < 3 ==> '.' !in r.value[i])
      && SignatureValid(x, key, r.value) == Pass
  {
    match x.json.marshalStruct(header.JsonFields())
    case Failure(detail) => Failure(HeaderMarshal(detail))
    case Success(jh) =>
      match x.json.marshal(claims.ToJson())
      case Failure(detail) => Failure(ClaimsMarshal(detail))
      case Success(jc) =>
        var seg0, seg1 := EncodeSection(jh), EncodeSection(jc);
        Success([seg0, seg1, Signature(x, key, seg0, seg1)])
  }

  /** `NewToken`'s result: parse the claims, build the segments under the
      default header, join them with dots. */
  function BuildToken(x: Externals, data: seq<byte>, key: string): (r: Result<string, Error>)
    ensures r.Success? ==> Count(r.value, '.') == 2
    ensures NewClaims(x.json, data).Failure? ==> r == Failure(BadClaims(NewClaims(x.json, data).error))
    ensures NewClaims(x.json, data).Success? ==>
      var b := BuildSegments(x, NewHeader(), NewClaims(x.json, data).value, key);
      && (b.Failure? ==> r == Failure(b.error))
      && (b.Success? ==> r == Success(Join(b.value, '.')))
  {
    match NewClaims(x.json, data)
    case Failure(e) => Failure(BadClaims(e))
    case Success(claims) =>
      match BuildSegments(x, NewHeader(), claims, key)
      case Failure(e) => Failure(e)
      case Success(hashes) =>
        BuiltTokenSplits(hashes);
        Success(Join(hashes, '.'))
  }

  /** Three dot-free segments joined by dots split back into exactly themselves. */
  lemma BuiltTokenSplits(hashes: seq<string>)
    requires |hashes| == 3 && forall i :: 0 <= i < 3 ==> '.' !in hashes[i]
    ensures Split(Join(hashes, '.'), '.') == hashes
    ensures Count(Join(hashes, '.'), '.') == 2
  {
    assert hashes == [hashes[0], hashes[1], hashes[2]];
    assert '.' !in hashes[0] && '.' !in hashes[1] && '.' !in hashes[2];
    SplitJoinThree(hashes[0], hashes[1], hashes[2], '.');
    SplitLength(Join(hashes, '.'), '.');
  }

  /** The token object: header and claims, the key of the operation in progress,
      the three segments and the timestamp layout. */
  class Token {
    var header: Header
    var claims: Claims
    var key: string
    var hashes: seq<string>
    var layout: string

    constructor (header: Header, claims: Claims, key: string, hashes: seq<string>, layout: string)
      ensures this.header == header && this.claims == claims && this.key == key
      ensures this.hashes == hashes && this.layout == layout
    {
      this.header := header;
      this.claims := claims;
      this.key := key;
      this.hashes := hashes;
      this.layout := layout;
    }

    /** `makeHashes`: clear the segments, then append the header segment, the
        claims segment and the signature segment. On a marshalling error it
        stops, leaving the segments appended so far. */
    method MakeHashes(x: Externals) returns (err: Option<Error>)
      modifies this`hashes
      ensures var built := BuildSegments(x, header, claims, key);
        && (err.None? <==> built.Success?)
        && (built.Success? ==> hashes == built.value)
        && (built.Failure? ==> err == Some(built.error))
      ensures x.json.marshalStruct(header.JsonFields()).Failure? ==> hashes == []
      ensures x.json.marshalStruct(header.JsonFields()).Success? && x.json.marshal(claims.ToJson()).Failure? ==>
        hashes == [EncodeSection(x.json.marshalStruct(header.JsonFields()).value)]
      ensures err.None? ==> |hashes| == 3 && SignatureValid(x, key, hashes) == Pass
    {
      hashes := [];
      var jh := x.json.marshalStruct(header.JsonFields());
      if jh.Failure? {
        return Some(HeaderMarshal(jh.error));
      }
      hashes := hashes + [EncodeSection(jh.value)];
      var jc := x.json.marshal(claims.ToJson());
      if jc.Failure? {
        return Some(ClaimsMarshal(jc.error));
      }
      hashes := hashes + [EncodeSection(jc.value)];
      var mac := x.hmac(key, hashes[0] + "." + hashes[1]);
      hashes := hashes + [EncodeSection(mac)];
      return None;
    }
  }

  /** `NewToken`: build a token string from claims bytes and a key. */
  method NewToken(x: Externals, data: seq<byte>, key: string) returns (r: Result<string, Error>)
    ensures r == BuildToken(x, data, key)
  {
    var claims := NewClaims(x.json, data);
    if claims.Failure? {
      return Failure(BadClaims(claims.error));
    }
    var t := new Token(NewHeader(), claims.value, key, [], "");
    var err := t.MakeHashes(x);
    if err.Some? {
      return Failure(err.value);
    }
    var h := t.hashes;
    assert Join(h, '.') == h[0] + "." + h[1] + "." + h[2] by {
      assert |h| == 3 && h[1..][1..] == [h[2]];
      assert Join(h[1..], '.') == h[1] + "." + h[2];
      assert Join(h, '.') == h[0] + "." + Join(h[1..], '.');
    }
    return Success(h[0] + "." + h[1] + "." + h[2]);
  }

  /** `ValidateToken`: parse the token, give it the key, run the checks. */
  method ValidateToken(x: Externals, token: string, key: string, clock: Clock) returns (r: Check)
    ensures r == Validate(x, token, key, clock)
  {
    var parsed := ParseToken(x.json, token);
    if parsed.Failure? {
      return Fail(parsed.error);
    }
    var p := parsed.value;
    var t := new Token(p.header, p.claims, "", p.hashes, p.layout);
    t.key := key;
    r := IsValid(x, t.key, t.claims, t.hashes, t.layout, clock);
  }
}
