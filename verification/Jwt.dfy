/** The token codec of utility/auth/jwt.go: the JWS compact form (sections 3.1 and 7.1 of RFC 7515). */
module Jwt {
  import opened Text
  import opened Base64Url

  /** The JSON codec for the claims, the encoded header, and the keyed digest. */
  datatype Env<!Claims> = Env(
    header: Bytes, marshal: Claims -> Option<Bytes>, unmarshal: Bytes -> Option<Claims>, mac: (Bytes, string) -> Bytes)

  datatype DecodeError = BadFormat | BadSignature | BadPayload | BadClaims

  datatype DecodeResult<Claims> = Accepted(claims: Claims) | Rejected(error: DecodeError)

  function SigningInput(header: string, payload: string): string {
    header + "." + payload
  }

  function Signature<Claims>(env: Env<Claims>, secret: Bytes, input: string): string {
    Encode(env.mac(secret, input))
  }

  function EncodeJwt<Claims>(env: Env<Claims>, claims: Claims, secret: Bytes): Option<string> {
    match env.marshal(claims)
    case None => None
    case Some(json) =>
      var input := SigningInput(Encode(env.header), Encode(json));
      Some(input + "." + Signature(env, secret, input))
  }

  function DecodeJwt<Claims>(env: Env<Claims>, token: string, secret: Bytes): DecodeResult<Claims> {
    var parts := Split(token, '.');
    if |parts| != 3 then Rejected(BadFormat)
    else if parts[2] != Signature(env, secret, SigningInput(parts[0], parts[1])) then Rejected(BadSignature)
    else
      match Decode(parts[1])
      case None => Rejected(BadPayload)
      case Some(json) =>
        match env.unmarshal(json)
        case None => Rejected(BadClaims)
        case Some(claims) => Accepted(claims)
  }

  /** The JSON codec reads what it wrote. */
  ghost predicate JsonRoundTrips<Claims(!new)>(env: Env<Claims>) {
    forall c: Claims :: env.marshal(c).Some? ==> env.unmarshal(env.marshal(c).value) == Some(c)
  }

  predicate NoDot(s: string) {
    '.' !in s
  }

  function Token(header: string, payload: string, signature: string): string {
    header + "." + payload + "." + signature
  }

  /** Splitting takes a token apart into the three parts it was made of. */
  lemma TokenParts(header: string, payload: string, signature: string)
    requires NoDot(header) && NoDot(payload) && NoDot(signature)
    ensures Split(Token(header, payload, signature), '.') == [header, payload, signature]
  {
    var parts := [header, payload, signature];
    assert parts[1..] == [payload, signature] && parts[1..][1..] == [signature];
    assert Join(parts[1..][1..], ".") == signature;
    assert Join(parts[1..], ".") == payload + "." + signature;
    assert Join(parts, ".") == header + "." + (payload + "." + signature);
    assert Token(header, payload, signature) == Join(parts, ".");
    SplitJoin(parts, '.');
  }

  lemma PartsToken(token: string)
    requires |Split(token, '.')| == 3
    ensures var p := Split(token, '.');
            token == Token(p[0], p[1], p[2]) && NoDot(p[0]) && NoDot(p[1]) && NoDot(p[2])
  {
    var p := Split(token, '.');
    JoinSplit(token, '.');
    assert p == [p[0], p[1], p[2]];
    assert p[1..] == [p[1], p[2]] && p[1..][1..] == [p[2]];
    assert Join(p[1..][1..], ".") == p[2];
    assert Join(p[1..], ".") == p[1] + "." + p[2];
    assert Join(p, ".") == p[0] + "." + (p[1] + "." + p[2]);
  }

  /** A token with this payload and a signature over it. */
  ghost predicate Signed<Claims>(env: Env<Claims>, token: string, secret: Bytes, header: string, payload: string) {
    && NoDot(header) && NoDot(payload)
    && token == Token(header, payload, Signature(env, secret, SigningInput(header, payload)))
  }

  lemma SignatureHasNoDot<Claims>(env: Env<Claims>, secret: Bytes, input: string)
    ensures NoDot(Signature(env, secret, input))
  {
    EncodingShape(env.mac(secret, input));
  }

  /** The payload decodes to the claims. */
  ghost predicate Carries<Claims(!new)>(env: Env<Claims>, payload: string, claims: Claims) {
    Decode(payload).Some? && env.unmarshal(Decode(payload).value) == Some(claims)
  }

  lemma AcceptedIsSigned<Claims(!new)>(env: Env<Claims>, token: string, secret: Bytes, claims: Claims)
    returns (header: string, payload: string)
    requires DecodeJwt(env, token, secret) == Accepted(claims)
    ensures Signed(env, token, secret, header, payload) && Carries(env, payload, claims)
  {
    PartsToken(token);
    header, payload := Split(token, '.')[0], Split(token, '.')[1];
  }

  lemma SignedIsAccepted<Claims(!new)>(
      env: Env<Claims>, token: string, secret: Bytes, claims: Claims, header: string, payload: string)
    requires Signed(env, token, secret, header, payload) && Carries(env, payload, claims)
    ensures DecodeJwt(env, token, secret) == Accepted(claims)
  {
    var input := SigningInput(header, payload);
    SignatureHasNoDot(env, secret, input);
    TokenParts(header, payload, Signature(env, secret, input));
  }

  /**
   * A token is accepted with these claims exactly when it consists of a header, a payload
   * that decodes to the claims, and the signature the secret gives to both.
   */
  lemma AcceptedExactly<Claims(!new)>(env: Env<Claims>, token: string, secret: Bytes, claims: Claims)
    ensures DecodeJwt(env, token, secret) == Accepted(claims) <==>
            exists header, payload :: Signed(env, token, secret, header, payload) && Carries(env, payload, claims)
  {
    if DecodeJwt(env, token, secret) == Accepted(claims) {
      var header, payload := AcceptedIsSigned(env, token, secret, claims);
    }
    if header, payload :| Signed(env, token, secret, header, payload) && Carries(env, payload, claims) {
      SignedIsAccepted(env, token, secret, claims, header, payload);
    }
  }

  /** Issued tokens carry the payload the claims encode to. */
  lemma IssuedIsSigned<Claims(!new)>(env: Env<Claims>, claims: Claims, secret: Bytes)
    requires env.marshal(claims).Some?
    ensures EncodeJwt(env, claims, secret).Some?
    ensures Signed(env, EncodeJwt(env, claims, secret).value, secret, Encode(env.header), Encode(env.marshal(claims).value))
  {
    EncodingShape(env.header);
    EncodingShape(env.marshal(claims).value);
  }

  /** Every token decodes, under the secret that made it, to the claims it was made for. */
  lemma TokenRoundTrip<Claims(!new)>(env: Env<Claims>, claims: Claims, secret: Bytes)
    requires JsonRoundTrips(env) && env.marshal(claims).Some?
    ensures EncodeJwt(env, claims, secret).Some?
    ensures DecodeJwt(env, EncodeJwt(env, claims, secret).value, secret) == Accepted(claims)
  {
    var json := env.marshal(claims).value;
    IssuedIsSigned(env, claims, secret);
    RoundTrip(json);
    SignedIsAccepted(env, EncodeJwt(env, claims, secret).value, secret, claims, Encode(env.header), Encode(json));
  }

  /** Another secret accepts an issued token exactly when its digest of the signing input is the same. */
  lemma OtherSecretExactly<Claims(!new)>(env: Env<Claims>, claims: Claims, secret: Bytes, other: Bytes)
    requires JsonRoundTrips(env) && env.marshal(claims).Some? && EncodeJwt(env, claims, secret).Some?
    ensures var token := EncodeJwt(env, claims, secret).value;
            var input := SigningInput(Encode(env.header), Encode(env.marshal(claims).value));
            DecodeJwt(env, token, other).Accepted? <==> env.mac(other, input) == env.mac(secret, input)
  {
    var h, p := Encode(env.header), Encode(env.marshal(claims).value);
    var input := SigningInput(h, p);
    var token := EncodeJwt(env, claims, secret).value;
    EncodingShape(env.header);
    EncodingShape(env.marshal(claims).value);
    SignatureHasNoDot(env, secret, input);
    TokenParts(h, p, Signature(env, secret, input));
    RoundTrip(env.marshal(claims).value);
    if Signature(env, other, input) == Signature(env, secret, input) {
      EncodeInjective(env.mac(other, input), env.mac(secret, input));
    }
  }
}
