# A verified model of a compact signed-token engine (JWT with HS256)

This project models, in Dafny, the engine of a small Go package for JSON Web
Tokens (RFC 7519) in the JWS compact serialisation (section 7.1 of RFC 7515)
signed with HMAC-SHA256 (section 3.2 of RFC 7518):

- **Build path.** `NewToken` parses the claims bytes into a `Claims` map and pairs them with the constant
  `Header` (HS256 / JWT). `makeHashes` then resets the token's segment list and appends three segments:
  the header JSON in URL-safe base 64, the claims JSON the same way, and the MAC of
  `segment0 + "." + segment1`, also URL-safe. The result is the three segments joined by dots.
- **Parse path.** `parseToken` splits the string on `.` and demands exactly three parts. Empty parts are allowed.
  It decodes only the claims segment, parses it as a JSON object or `null` (a nil map), and keeps the three parts verbatim.
  The header is always the default one, and segment 0 is never read.
- **Validation.** `isValid` runs three checks and stops at the first failure:
  - the signature: the recomputed MAC must equal segment 2 exactly;
  - not-before: a parsed `nbf` fails when it is `>=` the current time;
  - expiry: a parsed `exp` fails when it is `<` the current time, read again.

  A missing time claim passes its check.

Modules (one per source file, plus the library pieces they rest on):

| file | module | models |
|---|---|---|
| prelude.dfy | `Prelude` | bytes, `Option`, `Result` |
| strings.dfy | `Strings` | `strings.Split` on one character and the `"%s.%s.%s"` join |
| base64.dfy | `Base64` | unpadded base 64 (RFC 4648 sections 4 and 5) as Go's `RawStdEncoding` / `RawURLEncoding` do it |
| header.dfy | `JwtHeader` | header.go |
| claims.dfy | `JwtClaims` | claims.go, JSON values |
| token.dfy | `JwtToken` | token.go: errors, the checks, parse, build, the `Token` class, `NewToken`, `ValidateToken` |
| token_properties.dfy | `JwtTokenProperties` | lemmas relating build, parse and validation |

Foreign code is passed in as the `Externals` record and is never given a body:
- HMAC-SHA256: `hmac(key, message)`;
- the JSON library: `unmarshal`, `marshal`, `marshalStruct`;
- `time.Parse` with the token's layout, reduced to Unix seconds: `parseTime(layout, text)`.

Every lemma holds for all choices of these. The clock is a parameter `Clock` holding two readings in Unix seconds.
One is the reading the not-before check takes and one is the reading the expiry check takes, because each calls `time.Now()` itself.

Go's unchecked type assertion `nbf.(string)` / `exp.(string)` panics when the claim is not a JSON string.
It is modelled as the explicit outcome `Check.Panic`; no error is invented for it.

Points worth noting about the code:
- empty segments are accepted;
- the claims segment is decoded with the standard alphabet, not the URL-safe one (see Findings);
- validation panics on a non-string `nbf` or `exp`.

## Model

| member | source | states |
|---|---|---|
| `Strings.Split` | token.go:54 | `strings.Split` on one character always yields at least one part (count, cleanliness and verbatim parts are the lemmas below) |
| `Strings.Join` | token.go:38 | one part joins to itself; three parts join to `p0 + "." + p1 + "." + p2`, the `"%s.%s.%s"` format |
| `Strings.SplitLength` | token.go:54-55 | `strings.Split` yields one more part than there are dots, so the three-part test means exactly two dots |
| `Strings.SplitPartsClean` | token.go:54 | no part of a split contains the separator |
| `Strings.JoinSplit` | token.go:54 | the split parts are verbatim: joined with dots they give the token back |
| `Strings.SplitAround` | token.go:54 | a dot splits a string into the parts before it followed by the parts after it |
| `Strings.SplitJoinThree` | token.go:38 | three dot-free parts joined with two dots split back into exactly those parts |
| `Base64.ValueOf` | token.go:163 | the decoder's table is the inverse of the alphabet: a character decodes to v exactly when v encodes to it |
| `Base64.Encode` | token.go:158 | every character of an encoding belongs to the alphabet |
| `Base64.RemoveNewlines` | token.go:163 | the decoder drops carriage returns and line feeds, and keeps every other character as often as it occurs |
| `Base64.RemoveNewlinesAppend` | token.go:163 | the filter distributes over concatenation, so the kept characters stay in order |
| `Base64.DecodeQuanta` | token.go:163 | decoding succeeds only on text made entirely of alphabet characters |
| `Base64.Decode` | token.go:163 | `DecodeString` succeeds only when every character is a newline or in the alphabet, and yields `6n / 8` bytes for `n` non-newline characters |
| `Base64.DecodeQuantaLength` | token.go:163 | decoding `n` newline-free characters yields `6n / 8` bytes, Go's unpadded `DecodedLen` |
| `Base64.DecodeEncode` | token.go:157-164 | decoding with an alphabet undoes encoding with the same alphabet, for every byte string |
| `Base64.EncodeInjective` | token.go:158 | different byte strings encode to different text |
| `Base64.UrlWithoutSpecialsIsStd` | token.go:157-164 | a URL-safe encoding free of `-` and `_` equals the standard encoding of the same bytes |
| `Base64.StdDecodeOfUrlEncode` | token.go:157-164 | standard-alphabet decoding of a URL-safe encoding returns the bytes iff the text holds no `-` and no `_`, and fails otherwise |
| `Base64.EncodeLength` | token.go:158 | unpadded output length is (8n + 5) / 6 characters for n bytes |
| `JwtHeader.NewHeader` | header.go:4-10 | the header is always alg HS256, typ JWT, so any two results are equal |
| `JwtHeader.Header.JsonFields` | header.go:13-16 | the header serialises as the two members `alg` then `typ`, carrying the field values |
| `JwtClaims.Claims.Get` | token.go:111 | a comma-ok lookup finds a value exactly for the keys present (a nil map has none) |
| `JwtClaims.Claims.ToJson` | token.go:145 | a nil claims map serialises as `null`, any other as the object of its entries |
| `JwtClaims.ClaimsError.Message` | claims.go:13 | the error text is `incorrect claims data: ` followed by the JSON library's message |
| `JwtClaims.NewClaims` | claims.go:10-16 | succeeds iff the bytes parse as a JSON object or `null`; the claims then are exactly the decoded document, with no keys but the decoded ones |
| `JwtToken.EncodeSection` | token.go:157-159 | a section never contains `.`, and consists of URL-safe alphabet characters only |
| `JwtToken.DecodeSection` | token.go:162-164 | a section that decodes contains neither `-` nor `_` |
| `JwtToken.DecodeSectionUrl` | token.go:162-164 | the URL-safe decoder refuses `+` and `/` |
| `JwtToken.Signature` | token.go:100-102 | the signature segment is dot-free and decodes, with the URL-safe alphabet, to the MAC of `seg0 + "." + seg1` under the key |
| `JwtToken.SignatureValid` | token.go:99-107 | passes iff segment 2 equals the URL-safe encoding of the MAC of `segment0 + "." + segment1`; otherwise fails with "signature not valid" |
| `JwtToken.NotBeforeValid` | token.go:110-121 | absent `nbf` passes; a non-string panics; a string that does not parse gives the format error; a parsed time t fails as "not yet valid" iff t >= now and passes iff t < now |
| `JwtToken.ExpValid` | token.go:124-135 | absent `exp` passes; a non-string panics; a string that does not parse gives the format error; a parsed time t fails as "expired" iff t < now and passes iff t >= now |
| `JwtToken.IsValid` | token.go:85-96 | passes iff all three checks pass; the first check that does not pass gives the outcome: the signature's, else the not-before check's, else the expiry check's |
| `JwtToken.ParseToken` | token.go:53-73 | fails with the segment-count error iff the token does not hold exactly two dots; with two dots, a segment 1 that does not decode gives the claims-segment error, claims that do not parse give the claims-format error carrying the cause, and otherwise it succeeds; on success the header is the default, the layout is RFC 3339, the three parts rejoin to the token, and the claims are those decoded from segment 1 |
| `JwtToken.Validate` | token.go:43-50 | a token without exactly two dots is refused with the segment-count error; any parse error is returned as the verdict; a parsed token gets `isValid`'s verdict on its claims and segments |
| `JwtToken.BuildSegments` | token.go:138-154 | succeeds iff both marshal calls succeed; then segment 0 is the URL-safe encoding of the header JSON, segment 1 that of the claims JSON, all three are dot-free, and they pass the signature check with the key they were built with |
| `JwtToken.BuildToken` | token.go:26-40 | a claims error is returned wrapped as the bad-claims error; a marshal error from building the segments is returned as is; otherwise the token is the segments joined with dots, and holds exactly two dots |
| `JwtToken.BuiltTokenSplits` | token.go:38 | splitting a built token gives back its three segments |
| `JwtToken.Token.constructor` | token.go:64-69 | the token holds the given header, claims, key, segments and layout |
| `JwtToken.Token.MakeHashes` | token.go:138-154 | clears the segments, then leaves the header, claims and signature segments; a marshalling error leaves what was appended before it |
| `JwtToken.NewToken` | token.go:26-40 | returns the token string `BuildToken` specifies, or the first error |
| `JwtToken.ValidateToken` | token.go:43-50 | sets the key on the parsed token and returns the verdict `Validate` specifies |
| `JwtTokenProperties.SectionRoundTrip` | token.go:157-164 | `decodeSection(encodeSection(b)) == b` iff the encoded text has no `-` and no `_`; otherwise decoding fails |
| `JwtTokenProperties.SectionRoundTripFails` | token.go:162-164 | the bytes `??>` encode to `Pz8-`, which `decodeSection` rejects |
| `JwtTokenProperties.SectionRoundTripUrl` | token.go:157-159 | with the URL-safe decoder every section round-trips |
| `JwtTokenProperties.BuiltTokenSegments` | token.go:26-40 | `NewToken`'s string is its segments joined with dots, and splitting it returns them |
| `JwtTokenProperties.BuiltTokenWithUrlCharactersRejected` | token.go:58-59 | a built token whose claims segment holds `-` or `_` is refused on the claims segment, under any key and at any time |
| `JwtTokenProperties.BuildThenValidate` | token.go:43-50 | if the built claims segment holds no `-` and no `_`, and the JSON library reads back the claims it wrote, a built token validated with the same key passes the signature check, so only the time claims decide; with neither `nbf` nor `exp` it is valid |
| `JwtTokenProperties.OtherKeyRejected` | token.go:99-107 | a built token that parses, validated under a key whose MAC of the first two segments differs from the building key's, fails with "signature not valid" |
| `JwtTokenProperties.AcceptedTokenIsSigned` | token.go:85-135 | an accepted token has three segments and carries the MAC of the first two under the key; a present `nbf` is a string parsing to a time before the first clock reading, a present `exp` one parsing to a time at or after the second |
| `JwtTokenProperties.ValidityWindow` | token.go:110-135 | with a signature that passes and both times present as strings that parse, the token is valid iff nbf < first reading and second reading <= exp; nbf equal to its reading is rejected, exp equal to its reading accepted |
| `JwtTokenProperties.HeaderSegmentIgnored` | token.go:58-69 | tokens differing only in segment 0 parse to the same header and claims, or fail with the same error |
| `JwtTokenProperties.EmptySegmentsCounted` | token.go:54-57 | `..` splits into three empty parts and passes the segment-count test |

## Findings

| source | as written | input that shows it | evidently intended | confidence | as-written member | corrected member |
|---|---|---|---|---|---|---|
| token.go:162-164 | `decodeSection` decodes with the standard alphabet, while `encodeSection` (token.go:157-159) encodes with the URL-safe one | the bytes `??>` encode to `Pz8-`, which the decoder rejects; any token whose claims JSON encodes with `-` or `_` never validates (`BuiltTokenWithUrlCharactersRejected`) | decode with the URL-safe alphabet, so that every built token parses | not executed; high | `JwtTokenProperties.SectionRoundTripFails` (on `JwtToken.DecodeSection`) | `JwtTokenProperties.SectionRoundTripUrl` (on `JwtToken.DecodeSectionUrl`) |

The engine model (`ParseToken`, `Validate`) keeps the decoder as written, since it models the code.
`BuildThenValidate` therefore carries the hypothesis that the claims segment is free of `-` and `_`.
With `DecodeSectionUrl` that hypothesis is discharged for every claims segment by `SectionRoundTripUrl`.

## Left out

- `LoadToken` (token.go:17-23): reading a cookie from an HTTP request is I/O; the model starts from the token string.
- HMAC-SHA256 (token.go:100-102, 150-152) is the uninterpreted `Externals.hmac`, applied to the key and message strings.
  The string-to-bytes conversion belongs to it.
- The JSON library (claims.go:12, token.go:140, 145) is `Externals.json`.
  - Neither the JSON grammar nor the library's key order is modelled.
  - Numbers are reals rather than 64-bit floats.
  - The `null` → nil map and wrong-shape → type error behaviour of unmarshalling into a map is modelled in `NewClaims`.
- `time.Parse` with the layout (token.go:112, 126) is `Externals.parseTime`, giving Unix seconds.
- `time.Now()` (token.go:115, 129) is read twice, once per time check; the two readings are the two fields of the `Clock` parameter, with no order assumed between them.
- Error texts: the kinds are modelled, and `NewClaims`' message with its prefix. Other message strings are not modelled.
  The base 64 decoder's error offset is not modelled.
- `ParseToken`: returns the token's fields as a value. The `Token` object is allocated by `ValidateToken`, which then sets its key.
  No caller can observe the difference.
- `Token.header` and `Token.claims` are held through `*Header` and `*Claims` references to records that are never mutated; the model holds them as values.
