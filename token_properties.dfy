/** Properties that relate several operations of the token engine: the section
    codecs, building and validating, the key and the time window. */
module JwtTokenProperties {
  import opened Prelude
  import opened Strings
  import opened Base64
  import opened JwtHeader
  import opened JwtClaims
  import opened JwtToken

  /** `decodeSection(encodeSection(b))` gives `b` back exactly when the encoded
      text holds neither `-` nor `_`; otherwise decoding fails. */
  lemma SectionRoundTrip(b: seq<byte>)
    ensures DecodeSection(EncodeSection(b)) == Some(b) <==> '-' !in EncodeSection(b) && '_' !in EncodeSection(b)
    ensures DecodeSection(EncodeSection(b)).None? <==> '-' in EncodeSection(b) || '_' in EncodeSection(b)
  {
    StdDecodeOfUrlEncode(b);
  }

  /** A concrete input: the three bytes of the text `??>` encode to `Pz8-`, which
      the section decoder rejects. */
  lemma SectionRoundTripFails()
    ensures EncodeSection([63, 63, 62]) == "Pz8-"
    ensures DecodeSection(EncodeSection([63, 63, 62])).None?
  {
  }

  /** With the URL-safe decoder every section comes back. */
  lemma SectionRoundTripUrl(b: seq<byte>)
    ensures DecodeSectionUrl(EncodeSection(b)) == Some(b)
  {
    DecodeEncode(Url, b);
  }

  /** A built token is its three segments joined by dots, and splitting it gives
      those segments back. */
  lemma BuiltTokenSegments(x: Externals, data: seq<byte>, key: string, claims: Claims, segments: seq<string>)
    requires NewClaims(x.json, data) == Success(claims)
    requires BuildSegments(x, NewHeader(), claims, key) == Success(segments)
    ensures BuildToken(x, data, key) == Success(Join(segments, '.'))
    ensures Split(Join(segments, '.'), '.') == segments
  {
    BuiltTokenSplits(segments);
  }

  /** When the claims segment of a built token holds `-` or `_`, validation fails
      on the claims segment for every key and every time. */
  lemma BuiltTokenWithUrlCharactersRejected(
    x: Externals, data: seq<byte>, key: string, claims: Claims, segments: seq<string>,
    anyKey: string, clock: Clock)
    requires NewClaims(x.json, data) == Success(claims)
    requires BuildSegments(x, NewHeader(), claims, key) == Success(segments)
    requires '-' in segments[1] || '_' in segments[1]
    ensures Validate(x, Join(segments, '.'), anyKey, clock) == Fail(IncorrectClaimsSegment)
  {
    BuiltTokenSplits(segments);
    var jc := x.json.marshal(claims.ToJson()).value;
    SectionRoundTrip(jc);
  }

  /** Round trip of the engine: a built token whose claims segment is free of `-`
      and `_`, under a JSON library that reads back what it writes, passes the
      signature check with the same key, so only the time claims decide. */
  lemma BuildThenValidate(x: Externals, data: seq<byte>, key: string, claims: Claims, segments: seq<string>, clock: Clock)
    requires NewClaims(x.json, data) == Success(claims)
    requires BuildSegments(x, NewHeader(), claims, key) == Success(segments)
    requires '-' !in segments[1] && '_' !in segments[1]
    requires x.json.unmarshal(x.json.marshal(claims.ToJson()).value) == Success(claims.ToJson())
    ensures var checked := Validate(x, Join(segments, '.'), key, clock);
      var nbf := NotBeforeValid(x, claims, Rfc3339, clock.nbfNow);
      && (nbf != Pass ==> checked == nbf)
      && (nbf == Pass ==> checked == ExpValid(x, claims, Rfc3339, clock.expNow))
    ensures "nbf" !in claims.Keys() && "exp" !in claims.Keys() ==> Validate(x, Join(segments, '.'), key, clock) == Pass
  {
    BuiltTokenSplits(segments);
    var jc := x.json.marshal(claims.ToJson()).value;
    SectionRoundTrip(jc);
    assert DecodeSection(segments[1]) == Some(jc);
    assert NewClaims(x.json, jc) == Success(claims) by {
      if claims.Entries? {
        assert map[] + claims.entries == claims.entries;
      }
    }
    var parsed := ParseToken(x.json, Join(segments, '.'));
    assert parsed.Success? && parsed.value.hashes == segments && parsed.value.claims == claims;
  }

  /** Key sensitivity: a token built with one key fails the signature check under
      a key whose MAC of the same two segments differs. */
  lemma OtherKeyRejected(x: Externals, claims: Claims, segments: seq<string>, key: string, other: string, clock: Clock)
    requires BuildSegments(x, NewHeader(), claims, key) == Success(segments)
    requires ParseToken(x.json, Join(segments, '.')).Success?
    requires x.hmac(key, segments[0] + "." + segments[1]) != x.hmac(other, segments[0] + "." + segments[1])
    ensures Validate(x, Join(segments, '.'), other, clock) == Fail(SignatureNotValid)
  {
    BuiltTokenSplits(segments);
    EncodeInjective(Url, x.hmac(key, segments[0] + "." + segments[1]), x.hmac(other, segments[0] + "." + segments[1]));
  }

  /** An accepted token has exactly three segments, carries the signature of its
      first two under the key, and its time claims, when present, are strings
      that parse and bracket the clock: not-before strictly before the first
      reading, expiry at or after the second. */
  lemma AcceptedTokenIsSigned(x: Externals, token: string, key: string, clock: Clock)
    requires Validate(x, token, key, clock) == Pass
    ensures Count(token, '.') == 2
    ensures var h := Split(token, '.'); |h| == 3 && h[2] == Signature(x, key, h[0], h[1])
    ensures ParseToken(x.json, token).Success?
    ensures var c := ParseToken(x.json, token).value.claims;
      c.Get("nbf").Some? ==>
        && c.Get("nbf").value.JString?
        && x.parseTime(Rfc3339, c.Get("nbf").value.str).Success?
        && x.parseTime(Rfc3339, c.Get("nbf").value.str).value < clock.nbfNow
    ensures var c := ParseToken(x.json, token).value.claims;
      c.Get("exp").Some? ==>
        && c.Get("exp").value.JString?
        && x.parseTime(Rfc3339, c.Get("exp").value.str).Success?
        && x.parseTime(Rfc3339, c.Get("exp").value.str).value >= clock.expNow
  {
  }

  /** The validity window: with a good signature and both time claims parsed,
      the token passes exactly when not-before < first reading and second
      reading <= expiry; equality with the not-before time is rejected, equality
      with the expiry time accepted. With one reading for both this is
      nbf < now <= exp. */
  lemma ValidityWindow(
    x: Externals, key: string, claims: Claims, hashes: seq<string>, clock: Clock,
    nbfText: string, nbf: int, expText: string, exp: int)
    requires |hashes| >= 3 && SignatureValid(x, key, hashes) == Pass
    requires claims.Get("nbf") == Some(JString(nbfText)) && x.parseTime(Rfc3339, nbfText) == Success(nbf)
    requires claims.Get("exp") == Some(JString(expText)) && x.parseTime(Rfc3339, expText) == Success(exp)
    ensures IsValid(x, key, claims, hashes, Rfc3339, clock) == Pass <==> nbf < clock.nbfNow && clock.expNow <= exp
    ensures nbf >= clock.nbfNow ==> IsValid(x, key, claims, hashes, Rfc3339, clock) == Fail(NotYetValid)
    ensures nbf < clock.nbfNow && exp < clock.expNow ==> IsValid(x, key, claims, hashes, Rfc3339, clock) == Fail(Expired)
  {
  }

  /** Segment 0 is never interpreted: two tokens that differ only in their header
      segment parse to the same header and claims, or fail alike. */
  lemma HeaderSegmentIgnored(json: JsonCodec, seg0: string, other0: string, seg1: string, seg2: string)
    requires '.' !in seg0 && '.' !in other0 && '.' !in seg1 && '.' !in seg2
    ensures var r := ParseToken(json, Join([seg0, seg1, seg2], '.'));
      var s := ParseToken(json, Join([other0, seg1, seg2], '.'));
      && (r.Success? <==> s.Success?)
      && (r.Success? ==> r.value.header == s.value.header && r.value.claims == s.value.claims)
      && (r.Failure? ==> r.error == s.error)
  {
    SplitJoinThree(seg0, seg1, seg2, '.');
    SplitJoinThree(other0, seg1, seg2, '.');
  }

  /** Empty segments are not rejected by the segment count: `..` has three. */
  lemma EmptySegmentsCounted(json: JsonCodec)
    ensures ParseToken(json, "..") != Failure(WrongSegmentCount)
    ensures Split("..", '.') == ["", "", ""]
  {
  }
}
