/** The token header: a fixed record naming the signing algorithm and the token
    type. */
module JwtHeader {

  /** `Header`: two string fields, serialised under the JSON names `alg` and `typ`. */
  datatype Header = Header(alg: string, typ: string)
  {
    /** The JSON members a struct encoder emits for the header, in the order the
        fields are declared: the `alg` member first, then `typ`. */
    function JsonFields(): (fields: seq<(string, string)>)
      ensures |fields| == 2
      ensures fields[0] == ("alg", alg) && fields[1] == ("typ", typ)
    {
      [("alg", alg), ("typ", typ)]
    }
  }

  /** `NewHeader`: the only header the engine ever builds, HS256 and JWT. It takes
      no input, so every header it returns is the same record. */
  function NewHeader(): (h: Header)
    ensures h.alg == "HS256"
    ensures h.typ == "JWT"
    ensures h.JsonFields() == [("alg", "HS256"), ("typ", "JWT")]
  {
    Header("HS256", "JWT")
  }
}
