/** The claims payload: a string-keyed map of arbitrary JSON values, built by
    unmarshalling a JSON document with a foreign JSON library. */
module JwtClaims {
  import opened Prelude

  /** A JSON value as the JSON library decodes it into an `interface{}`. Numbers
      are kept as reals; the library uses 64-bit floating point. */
  datatype Json =
    | JNull
    | JBool(b: bool)
    | JNumber(n: real)
    | JString(str: string)
    | JArray(items: seq<Json>)
    | JObject(members: map<string, Json>)

  /** The foreign JSON library, reduced to the three calls the engine makes.
      `unmarshal` parses a whole document (or reports a syntax error);
      `marshal` serialises a value (a map with its keys in the library's order);
      `marshalStruct` serialises a struct from its members in declaration order. */
  datatype JsonCodec = JsonCodec(
    unmarshal: seq<byte> -> Result<Json, string>,
    marshal: Json -> Result<seq<byte>, string>,
    marshalStruct: seq<(string, string)> -> Result<seq<byte>, string>)

  /** A Go `Claims` map value: either the nil map (what unmarshalling `null` leaves
      behind) or a map with entries. A nil map reads as empty but marshals as
      `null`. */
  datatype Claims = Nil | Entries(entries: map<string, Json>)
  {
    /** The keys present. */
    function Keys(): set<string>
    {
      if Nil? then {} else entries.Keys
    }

    /** `claims[key]` with the comma-ok form: `None` when the key is absent. */
    function Get(key: string): (r: Option<Json>)
      ensures r.Some? <==> key in Keys()
      ensures r.Some? ==> Entries? && r.value == entries[key]
    {
      if Entries? && key in entries then Some(entries[key]) else None
    }

    /** The JSON value the map is marshalled from. */
    function ToJson(): (j: Json)
      ensures j == JNull <==> Nil?
      ensures Entries? ==> j == JObject(entries)
    {
      if Nil? then JNull else JObject(entries)
    }
  }

  /** The error `NewClaims` returns; its text carries the library's own message. */
  datatype ClaimsError = IncorrectClaimsData(detail: string)
  {
    const Prefix: string := "incorrect claims data: "

    function Message(): (m: string)
      ensures |m| >= |Prefix| && m[..|Prefix|] == Prefix
      ensures m[|Prefix|..] == detail
    {
      Prefix + detail
    }
  }

  /** The word the JSON library uses for a value's kind in a type mismatch. */
  function KindName(j: Json): string
  {
    match j
    case JNull => "null"
    case JBool(_) => "bool"
    case JNumber(_) => "number"
    case JString(_) => "string"
    case JArray(_) => "array"
    case JObject(_) => "object"
  }

  /** `NewClaims`: unmarshal `data` into a freshly made empty map. A JSON object
      fills the map with its members, `null` leaves the map nil, anything else
      (a syntax error, an array, a scalar) is an error. */
  function NewClaims(codec: JsonCodec, data: seq<byte>): (r: Result<Claims, ClaimsError>)
    ensures r.Success? <==>
      codec.unmarshal(data).Success? && (codec.unmarshal(data).value.JObject? || codec.unmarshal(data).value == JNull)
    ensures r.Success? ==> r.value.ToJson() == codec.unmarshal(data).value
    ensures r.Success? && codec.unmarshal(data).value.JObject? ==>
      r.value.Keys() == codec.unmarshal(data).value.members.Keys
  {
    var empty: map<string, Json> := map[];
    match codec.unmarshal(data)
    case Failure(detail) => Failure(IncorrectClaimsData(detail))
    case Success(JNull) => Success(Nil)
    case Success(JObject(members)) => Success(Entries(empty + members))
    case Success(other) =>
      Failure(IncorrectClaimsData("json: cannot unmarshal " + KindName(other) + " into Go value of type jwt.Claims"))
  }
}
