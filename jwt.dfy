/** `ParseJWTWithoutVerifying`: the payload of a JWS Compact Serialization (section 7.1 of
    RFC 7515: `header.payload.signature`) is decoded from unpadded base64url and handed to a
    JSON decoder. The signature is never inspected. The JSON decoding itself is a parameter. */
module Jwt {
  import opened Wrappers
  import opened Strings
  import opened Base64Url

  datatype JwtError = NotJWT | BadPayloadEncoding | BadPayloadJSON

  /** The message of each error (the wrapped causes are not modelled). */
  function ErrorText(e: JwtError): string
  {
    match e
    case NotJWT => "expected JWT"
    case BadPayloadEncoding => "cannot decode JWT payload"
    case BadPayloadJSON => "cannot parse JWT payload"
  }

  function ParseJWTWithoutVerifying<T>(jwt: string, unmarshal: seq<Byte> -> Option<T>): Result<T, JwtError>
  {
    var parts := Split(jwt, '.');
    if |parts| != 3 then Err(NotJWT)
    else match DecodeString(parts[1])
      case None => Err(BadPayloadEncoding)
      case Some(payload) =>
        match unmarshal(payload)
        case None => Err(BadPayloadJSON)
        case Some(out) => Ok(out)
  }

  /** The token is rejected as "expected JWT" exactly when it does not hold two dots. */
  lemma NotJWTIffNotThreeParts<T>(jwt: string, unmarshal: seq<Byte> -> Option<T>)
    ensures ParseJWTWithoutVerifying(jwt, unmarshal) == Err(NotJWT) <==> Count(jwt, '.') != 2
  {
  }

  /** For a token made of three dot-free parts, only the middle part is decoded; header and
      signature play no part in the outcome. */
  lemma ParseThreeParts<T>(header: string, payload: string, signature: string, unmarshal: seq<Byte> -> Option<T>)
    requires '.' !in header && '.' !in payload && '.' !in signature
    ensures ParseJWTWithoutVerifying(header + "." + payload + "." + signature, unmarshal) ==
      match DecodeString(payload)
      case None => Err(BadPayloadEncoding)
      case Some(p) => if unmarshal(p).Some? then Ok(unmarshal(p).value) else Err(BadPayloadJSON)
  {
    var parts := [header, payload, signature];
    assert Join(parts, '.') == header + "." + payload + "." + signature by {
      assert Join(parts[2..], '.') == signature;
      assert Join(parts[1..], '.') == payload + "." + signature;
    }
    SplitJoin(parts, '.');
  }

  /** Any signature (forged or absent) yields the same result. */
  lemma SignatureNeverInspected<T>(header: string, payload: string, sig1: string, sig2: string, unmarshal: seq<Byte> -> Option<T>)
    requires '.' !in header && '.' !in payload && '.' !in sig1 && '.' !in sig2
    ensures ParseJWTWithoutVerifying(header + "." + payload + "." + sig1, unmarshal) ==
            ParseJWTWithoutVerifying(header + "." + payload + "." + sig2, unmarshal)
  {
    ParseThreeParts(header, payload, sig1, unmarshal);
    ParseThreeParts(header, payload, sig2, unmarshal);
  }

  /** A token whose middle part is the base64url encoding of a payload yields exactly what the
      JSON decoder makes of that payload. */
  lemma ParseEncodedPayload<T>(header: string, payload: seq<Byte>, signature: string, unmarshal: seq<Byte> -> Option<T>)
    requires '.' !in header && '.' !in signature
    ensures ParseJWTWithoutVerifying(header + "." + Encode(payload) + "." + signature, unmarshal) ==
      if unmarshal(payload).Some? then Ok(unmarshal(payload).value) else Err(BadPayloadJSON)
  {
    var e := Encode(payload);
    ParseThreeParts(header, e, signature, unmarshal);
    DecodeEncode(payload);
  }
}
