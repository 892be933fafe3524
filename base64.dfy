/** Base 64 without padding, as Go's `base64.RawStdEncoding` and
    `base64.RawURLEncoding` implement it: the alphabets of sections 4 and 5 of
    RFC 4648, no `=` padding, and a lenient decoder that skips carriage returns
    and line feeds and ignores the unused low bits of a final partial quantum. */
module Base64 {
  import opened Prelude

  /** Table 1 of RFC 4648 (`+` and `/`) or table 2, the URL- and filename-safe
      alphabet (`-` and `_`). */
  datatype Alphabet = Std | Url

  /** The character that encodes the 6-bit value `v`. */
  function CharOf(a: Alphabet, v: int): char
    requires 0 <= v < 64
  {
    if v < 26 then ('A' as int + v) as char
    else if v < 52 then ('a' as int + (v - 26)) as char
    else if v < 62 then ('0' as int + (v - 52)) as char
    else if v == 62 then (if a == Std then '+' else '-')
    else (if a == Std then '/' else '_')
  }

  /** The decoder's table: the 6-bit value a character stands for, if any.
      It is the inverse of `CharOf`. */
  function ValueOf(a: Alphabet, c: char): (r: Option<int>)
    ensures r.Some? ==> 0 <= r.value < 64 && CharOf(a, r.value) == c
    ensures forall v :: 0 <= v < 64 && CharOf(a, v) == c ==> r == Some(v)
  {
    if 'A' <= c <= 'Z' then Some(c as int - 'A' as int)
    else if 'a' <= c <= 'z' then Some(c as int - 'a' as int + 26)
    else if '0' <= c <= '9' then Some(c as int - '0' as int + 52)
    else if c == (if a == Std then '+' else '-') then Some(62)
    else if c == (if a == Std then '/' else '_') then Some(63)
    else None
  }

  /** Every character of an encoding belongs to the alphabet. */
  ghost predicate InAlphabet(a: Alphabet, s: string)
  {
    forall i :: 0 <= i < |s| ==> ValueOf(a, s[i]).Some?
  }

  /** Encoding without padding: each 3-byte group becomes 4 characters, a final
      group of 1 or 2 bytes becomes 2 or 3 characters. */
  function Encode(a: Alphabet, b: seq<byte>): (s: string)
    ensures InAlphabet(a, s)
    decreases |b|
  {
    if |b| == 0 then ""
    else if |b| == 1 then
      [CharOf(a, b[0] / 4), CharOf(a, b[0] % 4 * 16)]
    else if |b| == 2 then
      [CharOf(a, b[0] / 4), CharOf(a, b[0] % 4 * 16 + b[1] / 16), CharOf(a, b[1] % 16 * 4)]
    else
      [CharOf(a, b[0] / 4), CharOf(a, b[0] % 4 * 16 + b[1] / 16),
       CharOf(a, b[1] % 16 * 4 + b[2] / 64), CharOf(a, b[2] % 64)] + Encode(a, b[3..])
  }

  /** The decoder ignores `'\r'` and `'\n'` wherever they appear. */
  function RemoveNewlines(s: string): (t: string)
    ensures '\r' !in t && '\n' !in t
    ensures forall c :: c in t <==> c in s && c != '\r' && c != '\n'
    ensures forall c :: c != '\r' && c != '\n' ==> multiset(t)[c] == multiset(s)[c]
  {
    if |s| == 0 then ""
    else
      assert s == [s[0]] + s[1..];
      if s[0] == '\r' || s[0] == '\n' then RemoveNewlines(s[1..])
      else [s[0]] + RemoveNewlines(s[1..])
  }

  /** Decoding of newline-free text, 4 characters at a time: a final group of 2 or
      3 characters yields 1 or 2 bytes, a final group of 1 character or any
      character outside the alphabet is an error. */
  function DecodeQuanta(a: Alphabet, s: string): (r: Option<seq<byte>>)
    ensures r.Some? ==> InAlphabet(a, s)
    decreases |s|
  {
    if |s| == 0 then Some([])
    else if |s| == 1 || ValueOf(a, s[0]).None? || ValueOf(a, s[1]).None? then None
    else
      var v0, v1 := ValueOf(a, s[0]).value, ValueOf(a, s[1]).value;
      if |s| == 2 then Some([v0 * 4 + v1 / 16])
      else if ValueOf(a, s[2]).None? then None
      else
        var v2 := ValueOf(a, s[2]).value;
        if |s| == 3 then Some([v0 * 4 + v1 / 16, v1 % 16 * 16 + v2 / 4])
        else if ValueOf(a, s[3]).None? then None
        else
          var v3 := ValueOf(a, s[3]).value;
          match DecodeQuanta(a, s[4..])
          case None => None
          case Some(rest) => Some([v0 * 4 + v1 / 16, v1 % 16 * 16 + v2 / 4, v2 % 4 * 64 + v3] + rest)
  }

  /** `DecodeString` of the encoding with alphabet `a`: on success every
      character is a newline or in the alphabet, and the bytes number
      `6 * n / 8` for the `n` characters that are not newlines. */
  function Decode(a: Alphabet, s: string): (r: Option<seq<byte>>)
    ensures r.Some? ==> forall i :: 0 <= i < |s| ==> s[i] == '\r' || s[i] == '\n' || ValueOf(a, s[i]).Some?
    ensures r.Some? ==> |r.value| == |RemoveNewlines(s)| * 6 / 8
  {
    var t := RemoveNewlines(s);
    var r := DecodeQuanta(a, t);
    if r.Some? then
      DecodeQuantaLength(a, t);
      assert forall i :: 0 <= i < |s| ==> s[i] == '\r' || s[i] == '\n' || ValueOf(a, s[i]).Some? by {
        forall i | 0 <= i < |s| && s[i] != '\r' && s[i] != '\n'
          ensures ValueOf(a, s[i]).Some?
        {
          assert s[i] in t;
          var j :| 0 <= j < |t| && t[j] == s[i];
        }
      }
      r
    else r
  }

  /** Decoded length: `6 * n / 8` bytes for `n` characters (Go's `DecodedLen`
      without padding). */
  lemma {:induction false} DecodeQuantaLength(a: Alphabet, s: string)
    requires DecodeQuanta(a, s).Some?
    ensures |DecodeQuanta(a, s).value| == |s| * 6 / 8
    decreases |s|
  {
    if |s| > 4 {
      DecodeQuantaLength(a, s[4..]);
    }
  }

  /** The filter works character by character: it distributes over
      concatenation, so order is kept. */
  lemma {:induction false} RemoveNewlinesAppend(u: string, v: string)
    ensures RemoveNewlines(u + v) == RemoveNewlines(u) + RemoveNewlines(v)
  {
    if |u| > 0 {
      assert (u + v)[0] == u[0];
      assert (u + v)[1..] == u[1..] + v;
      RemoveNewlinesAppend(u[1..], v);
      if u[0] != '\r' && u[0] != '\n' {
        assert RemoveNewlines(u + v) == [u[0]] + RemoveNewlines(u[1..] + v);
      }
    } else {
      assert u + v == v;
    }
  }

  /** Text already free of newlines is left alone by the decoder's filter. */
  lemma {:induction false} RemoveNewlinesIdentity(s: string)
    requires '\r' !in s && '\n' !in s
    ensures RemoveNewlines(s) == s
  {
    if |s| > 0 {
      assert s == [s[0]] + s[1..];
      RemoveNewlinesIdentity(s[1..]);
    }
  }

  /** The arithmetic of one quantum: the four 6-bit values cut from three bytes
      give those three bytes back. */
  lemma QuantumArithmetic(x: byte, y: byte, z: byte)
    ensures var v0, v1, v2, v3 := x / 4, x % 4 * 16 + y / 16, y % 16 * 4 + z / 64, z % 64;
      && v0 * 4 + v1 / 16 == x
      && v1 % 16 * 16 + v2 / 4 == y
      && v2 % 4 * 64 + v3 == z
  {
  }

  lemma DecodeQuantaEncodeOne(a: Alphabet, x: byte)
    ensures DecodeQuanta(a, Encode(a, [x])) == Some([x])
  {
  }

  lemma DecodeQuantaEncodeTwo(a: Alphabet, x: byte, y: byte)
    ensures DecodeQuanta(a, Encode(a, [x, y])) == Some([x, y])
  {
  }

  /** One full quantum of four characters in front of decodable text. */
  lemma DecodeQuantaCons(a: Alphabet, s: string, v0: int, v1: int, v2: int, v3: int, rest: seq<byte>)
    requires |s| >= 4
    requires ValueOf(a, s[0]) == Some(v0) && ValueOf(a, s[1]) == Some(v1)
    requires ValueOf(a, s[2]) == Some(v2) && ValueOf(a, s[3]) == Some(v3)
    requires DecodeQuanta(a, s[4..]) == Some(rest)
    ensures DecodeQuanta(a, s) == Some([v0 * 4 + v1 / 16, v1 % 16 * 16 + v2 / 4, v2 % 4 * 64 + v3] + rest)
  {
  }

  /** A full quantum decodes back to its three bytes, in front of whatever
      the rest of the encoding decodes to. */
  lemma DecodeQuantaEncodeStep(a: Alphabet, b: seq<byte>)
    requires |b| >= 3
    requires DecodeQuanta(a, Encode(a, b[3..])) == Some(b[3..])
    ensures DecodeQuanta(a, Encode(a, b)) == Some(b)
  {
    var s := Encode(a, b);
    var v0, v1 := b[0] / 4, b[0] % 4 * 16 + b[1] / 16;
    var v2, v3 := b[1] % 16 * 4 + b[2] / 64, b[2] % 64;
    assert s == [CharOf(a, v0), CharOf(a, v1), CharOf(a, v2), CharOf(a, v3)] + Encode(a, b[3..]);
    assert s[4..] == Encode(a, b[3..]);
    assert ValueOf(a, s[0]) == Some(v0);
    assert ValueOf(a, s[1]) == Some(v1);
    assert ValueOf(a, s[2]) == Some(v2);
    assert ValueOf(a, s[3]) == Some(v3);
    QuantumArithmetic(b[0], b[1], b[2]);
    DecodeQuantaCons(a, s, v0, v1, v2, v3, b[3..]);
    assert b == [b[0], b[1], b[2]] + b[3..];
  }

  /** Decoding undoes encoding with the same alphabet. */
  lemma {:induction false} DecodeQuantaEncode(a: Alphabet, b: seq<byte>)
    ensures DecodeQuanta(a, Encode(a, b)) == Some(b)
    decreases |b|
  {
    if |b| == 1 {
      assert b == [b[0]];
      DecodeQuantaEncodeOne(a, b[0]);
    } else if |b| == 2 {
      assert b == [b[0], b[1]];
      DecodeQuantaEncodeTwo(a, b[0], b[1]);
    } else if |b| >= 3 {
      DecodeQuantaEncode(a, b[3..]);
      DecodeQuantaEncodeStep(a, b);
    }
  }

  /** Round trip of one alphabet: `Decode(a, Encode(a, b)) == b` for every `b`. */
  lemma DecodeEncode(a: Alphabet, b: seq<byte>)
    ensures Decode(a, Encode(a, b)) == Some(b)
  {
    var s := Encode(a, b);
    assert ValueOf(a, '\r').None? && ValueOf(a, '\n').None?;
    RemoveNewlinesIdentity(s);
    DecodeQuantaEncode(a, b);
  }

  /** Encoding is injective: different bytes give different text. */
  lemma EncodeInjective(a: Alphabet, b1: seq<byte>, b2: seq<byte>)
    ensures Encode(a, b1) == Encode(a, b2) ==> b1 == b2
  {
    DecodeEncode(a, b1);
    DecodeEncode(a, b2);
  }

  /** The two alphabets differ only in the characters for 62 and 63: a URL-safe
      encoding free of `-` and `_` is also the standard encoding of the same bytes. */
  lemma {:induction false} UrlWithoutSpecialsIsStd(b: seq<byte>)
    requires '-' !in Encode(Url, b) && '_' !in Encode(Url, b)
    ensures Encode(Url, b) == Encode(Std, b)
    decreases |b|
  {
    var u := Encode(Url, b);
    forall i | 0 <= i < |u| && i < 4
      ensures ValueOf(Url, u[i]).value < 62
    {
      assert u[i] != '-' && u[i] != '_';
    }
    if |b| >= 3 {
      assert u[4..] == Encode(Url, b[3..]);
      assert '-' !in u[4..] && '_' !in u[4..] by {
        forall i | 0 <= i < |u[4..]| ensures u[4..][i] != '-' && u[4..][i] != '_' {
          assert u[4..][i] == u[i + 4];
        }
      }
      UrlWithoutSpecialsIsStd(b[3..]);
    }
  }

  /** Decoding with the standard alphabet what was encoded with the URL-safe one
      gives the bytes back exactly when the text holds neither `-` nor `_`;
      otherwise it is an error. */
  lemma StdDecodeOfUrlEncode(b: seq<byte>)
    ensures var s := Encode(Url, b);
      && (Decode(Std, s) == Some(b) <==> '-' !in s && '_' !in s)
      && (Decode(Std, s).None? <==> '-' in s || '_' in s)
  {
    var s := Encode(Url, b);
    assert '\r' !in s && '\n' !in s by {
      assert ValueOf(Url, '\r').None? && ValueOf(Url, '\n').None?;
    }
    RemoveNewlinesIdentity(s);
    if '-' !in s && '_' !in s {
      UrlWithoutSpecialsIsStd(b);
      DecodeEncode(Std, b);
    } else {
      var i :| 0 <= i < |s| && (s[i] == '-' || s[i] == '_');
      assert ValueOf(Std, s[i]).None?;
    }
  }

  /** The length of an unpadded encoding: `(8 * n + 5) / 6` characters for
      `n` bytes. */
  lemma {:induction false} EncodeLength(a: Alphabet, b: seq<byte>)
    ensures |Encode(a, b)| == (8 * |b| + 5) / 6
    decreases |b|
  {
    if |b| >= 3 {
      EncodeLength(a, b[3..]);
    }
  }
}
