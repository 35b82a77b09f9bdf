/**
 * The binary helpers of lib/main.js. `coerceToBase64` renders bytes in the
 * padded alphabet of section 4 of RFC 4648 (Node's `Buffer.toString("base64")`).
 * `coerceToArrayBuffer` first translates the URL-safe alphabet of section 5
 * (`-` to `+`, `_` to `/`) and then decodes as Node's `Buffer.from(s, "base64")`
 * does on an ASCII string: characters outside the alphabet are skipped,
 * decoding stops at the first `=`, and a trailing group of two or three
 * characters yields one or two bytes. The decoder never fails. Strings with
 * wider characters are not modelled; the component decodes only strings it
 * wrote itself.
 */
module Base64 {
  import opened Values

  /** The value of one alphabet character. */
  type Sextet = x: int | 0 <= x < 64

  /** The character of a value in the standard alphabet (RFC 4648, section 4, Table 1). */
  function CharOf(v: Sextet): char {
    if v < 26 then (65 + v) as char        // 'A' .. 'Z'
    else if v < 52 then (71 + v) as char   // 'a' .. 'z'
    else if v < 62 then (v - 4) as char    // '0' .. '9'
    else if v == 62 then '+'
    else '/'
  }

  /** The character of a value in the URL-safe alphabet (RFC 4648, section 5, Table 2). */
  function UrlCharOf(v: Sextet): char {
    if v == 62 then '-' else if v == 63 then '_' else CharOf(v)
  }

  /** The value of a standard-alphabet character; `None` for every other character. */
  function ValueOf(c: char): Option<Sextet> {
    if 'A' <= c <= 'Z' then Some(c as int - 65)
    else if 'a' <= c <= 'z' then Some(c as int - 71)
    else if '0' <= c <= '9' then Some(c as int + 4)
    else if c == '+' then Some(62)
    else if c == '/' then Some(63)
    else None
  }

  /** Splits bytes into 6-bit groups, three bytes to four groups; a final one or two bytes give two or three groups. */
  function EncodeSextets(b: seq<byte>): (v: seq<Sextet>)
    ensures |v| == (4 * |b| + 2) / 3
  {
    if |b| == 0 then []
    else if |b| == 1 then [b[0] / 4, (b[0] % 4) * 16]
    else if |b| == 2 then [b[0] / 4, (b[0] % 4) * 16 + b[1] / 16, (b[1] % 16) * 4]
    else
      [b[0] / 4, (b[0] % 4) * 16 + b[1] / 16, (b[1] % 16) * 4 + b[2] / 64, b[2] % 64]
      + EncodeSextets(b[3..])
  }

  /** Joins 6-bit groups back into bytes; the inverse grouping of EncodeSextets. */
  function DecodeSextets(v: seq<Sextet>): (b: seq<byte>)
    ensures |b| == 3 * (|v| / 4) + (if |v| % 4 == 3 then 2 else if |v| % 4 == 2 then 1 else 0)
  {
    if |v| < 2 then []
    else
      var x0: int, x1: int := v[0], v[1];
      if |v| == 2 then [x0 * 4 + x1 / 16]
      else
        var x2: int := v[2];
        if |v| == 3 then [x0 * 4 + x1 / 16, (x1 % 16) * 16 + x2 / 4]
        else
          var x3: int := v[3];
          [x0 * 4 + x1 / 16, (x1 % 16) * 16 + x2 / 4, (x2 % 4) * 64 + x3]
          + DecodeSextets(v[4..])
  }

  function Render(v: seq<Sextet>): (s: string)
    ensures |s| == |v|
    ensures forall i :: 0 <= i < |v| ==> s[i] == CharOf(v[i])
  {
    if |v| == 0 then "" else [CharOf(v[0])] + Render(v[1..])
  }

  function RenderUrl(v: seq<Sextet>): (s: string)
    ensures |s| == |v|
    ensures forall i :: 0 <= i < |v| ==> s[i] == UrlCharOf(v[i])
  {
    if |v| == 0 then "" else [UrlCharOf(v[0])] + RenderUrl(v[1..])
  }

  /** The `=` characters that complete the last 4-character group of n encoded bytes. */
  function Padding(n: nat): string {
    if n % 3 == 1 then "==" else if n % 3 == 2 then "=" else ""
  }

  /** Padded base64 of section 4 of RFC 4648. */
  function Encode(b: seq<byte>): (s: string)
    ensures |s| == 4 * ((|b| + 2) / 3)
  {
    Render(EncodeSextets(b)) + Padding(|b|)
  }

  /** Unpadded base64url of section 5 of RFC 4648, the form WebAuthn clients send. */
  function EncodeUrlUnpadded(b: seq<byte>): (s: string)
    ensures |s| == (4 * |b| + 2) / 3
  {
    RenderUrl(EncodeSextets(b))
  }

  /** The alphabet values of s up to its first `=`, skipping every character outside the alphabet. */
  function Sextets(s: string): seq<Sextet> {
    if |s| == 0 || s[0] == '=' then []
    else match ValueOf(s[0])
      case Some(x) => [x] + Sextets(s[1..])
      case None => Sextets(s[1..])
  }

  /** Node's `Buffer.from(s, "base64")` on a string without `-` or `_` (which Node would read as 62 and 63). */
  function Decode(s: string): seq<byte> {
    DecodeSextets(Sextets(s))
  }

  function StandardChar(c: char): char {
    if c == '-' then '+' else if c == '_' then '/' else c
  }

  /** `s.replace(/-/g, "+").replace(/_/g, "/")` */
  function FromUrlSafe(s: string): (r: string)
    ensures |r| == |s|
    ensures forall i :: 0 <= i < |s| ==> r[i] == StandardChar(s[i])
  {
    if |s| == 0 then "" else [StandardChar(s[0])] + FromUrlSafe(s[1..])
  }

  /** `coerceToBase64` applied to binary data. */
  function CoerceToBase64(b: seq<byte>): string {
    Encode(b)
  }

  /** `coerceToArrayBuffer` applied to a string. */
  function CoerceToArrayBuffer(s: string): seq<byte> {
    Decode(FromUrlSafe(s))
  }

  lemma ValueOfCharOf(v: Sextet)
    ensures ValueOf(CharOf(v)) == Some(v)
    ensures CharOf(v) != '=' && CharOf(v) != '-' && CharOf(v) != '_'
  {
  }

  /** Reading back rendered groups, followed by any padding, gives the groups. */
  lemma {:induction false} SextetsOfRender(v: seq<Sextet>, pad: string)
    requires forall i :: 0 <= i < |pad| ==> pad[i] == '='
    ensures Sextets(Render(v) + pad) == v
  {
    if |v| == 0 {
      assert Render(v) + pad == pad;
    } else {
      var s := Render(v) + pad;
      ValueOfCharOf(v[0]);
      assert s[0] == CharOf(v[0]);
      assert s[1..] == Render(v[1..]) + pad;
      SextetsOfRender(v[1..], pad);
    }
  }

  /** One full group: three bytes survive the split into four sextets and the join. */
  lemma GroupRoundTrip(b0: byte, b1: byte, b2: byte)
    ensures var s1 := (b0 % 4) * 16 + b1 / 16;
            var s2 := (b1 % 16) * 4 + b2 / 64;
            && (b0 / 4) * 4 + s1 / 16 == b0
            && (s1 % 16) * 16 + s2 / 4 == b1
            && (s2 % 4) * 64 + b2 % 64 == b2
  {
    var s1 := (b0 % 4) * 16 + b1 / 16;
    var s2 := (b1 % 16) * 4 + b2 / 64;
    assert s1 / 16 == b0 % 4 && s1 % 16 == b1 / 16;
    assert s2 / 4 == b1 % 16 && s2 % 4 == b2 / 64;
  }

  lemma {:induction false} DecodeEncodeSextets(b: seq<byte>)
    ensures DecodeSextets(EncodeSextets(b)) == b
  {
    if |b| == 0 {
    } else if |b| == 1 {
      GroupRoundTrip(b[0], 0, 0);
    } else if |b| == 2 {
      GroupRoundTrip(b[0], b[1], 0);
    } else {
      var v := EncodeSextets(b);
      assert v[4..] == EncodeSextets(b[3..]);
      GroupRoundTrip(b[0], b[1], b[2]);
      DecodeEncodeSextets(b[3..]);
      assert b == b[..3] + b[3..];
    }
  }

  /** Round trip of section 4 of RFC 4648: decoding the encoding gives the bytes back. */
  lemma DecodeEncode(b: seq<byte>)
    ensures Decode(Encode(b)) == b
  {
    SextetsOfRender(EncodeSextets(b), Padding(|b|));
    DecodeEncodeSextets(b);
  }

  /** A string without URL-safe characters passes the translation unchanged. */
  lemma FromUrlSafeIdentity(s: string)
    requires forall i :: 0 <= i < |s| ==> s[i] != '-' && s[i] != '_'
    ensures FromUrlSafe(s) == s
  {
  }

  /** The component's round trip: `coerceToArrayBuffer(coerceToBase64(b))` is b. */
  lemma CoerceRoundTrip(b: seq<byte>)
    ensures CoerceToArrayBuffer(CoerceToBase64(b)) == b
  {
    var s := Encode(b);
    forall i | 0 <= i < |s|
      ensures s[i] != '-' && s[i] != '_'
    {
      if i < |EncodeSextets(b)| {
        ValueOfCharOf(EncodeSextets(b)[i]);
      }
    }
    FromUrlSafeIdentity(s);
    DecodeEncode(b);
  }

  /** The decoder also accepts the unpadded URL-safe form of section 5 of RFC 4648. */
  lemma UrlSafeRoundTrip(b: seq<byte>)
    ensures CoerceToArrayBuffer(EncodeUrlUnpadded(b)) == b
  {
    var v := EncodeSextets(b);
    assert FromUrlSafe(RenderUrl(v)) == Render(v);
    SextetsOfRender(v, "");
    assert Render(v) + "" == Render(v);
    DecodeEncodeSextets(b);
  }

  /** Distinct byte strings have distinct encodings, so stored credential IDs identify credentials. */
  lemma EncodeInjective(a: seq<byte>, b: seq<byte>)
    requires CoerceToBase64(a) == CoerceToBase64(b)
    ensures a == b
  {
    DecodeEncode(a);
    DecodeEncode(b);
  }

  /** The lengths of the session values: a 64-byte challenge gives 88 characters, a 16-byte user ID 24. */
  lemma SessionValueLengths(challenge: seq<byte>, userId: seq<byte>)
    requires |challenge| == 64 && |userId| == 16
    ensures |CoerceToBase64(challenge)| == 88 && |CoerceToBase64(userId)| == 24
  {
  }
}
