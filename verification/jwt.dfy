/** Session tokens of `src/auth/jwt.py`: the signed claims, the expiry rule on decoding,
    and the sliding refresh. The JWT library (signing key and algorithm included) is a
    pair of functions; the clock is the parameter `now`, in seconds. */
module Jwt {
  import opened Common

  /** `TOKEN_TTL`: two hours, in seconds. */
  const TokenTtl: int := 60 * 60 * 2

  /** The claims of a token. A decoded token may lack `user_id` or `user_address`;
      a token without `expires` fails to decode (the lookup raises inside the `try`). */
  datatype Claims = Claims(userId: Option<string>, userAddress: Option<string>, expires: real)

  /** `jwt.encode` and `jwt.decode` with the configured secret and algorithm; `decode`
      gives None when it raises. */
  datatype Codec = Codec(encode: Claims -> string, decode: string -> Option<Claims>)

  /** The library gives back the claims it signed. */
  ghost predicate RoundTrips(codec: Codec) {
    forall claims :: codec.decode(codec.encode(claims)) == Some(claims)
  }

  /** The payload `sign_jwt` signs: the user's id and address and an expiry `TOKEN_TTL`
      seconds after `now`. */
  function SignedClaims(userId: string, userAddress: string, now: real): (claims: Claims)
    ensures claims.userId == Some(userId) && claims.userAddress == Some(userAddress)
    ensures claims.expires - now == 7200.0
  {
    Claims(Some(userId), Some(userAddress), now + TokenTtl as real)
  }

  /** `sign_jwt`. */
  function SignJwt(userId: string, userAddress: string, now: real, codec: Codec): string {
    codec.encode(SignedClaims(userId, userAddress, now))
  }

  /** What `decode_jwt` returns: None for an expired token, `{}` when decoding raises,
      else the claims. */
  datatype Decoded = Expired | Undecodable | Live(claims: Claims)

  function DecodeJwt(token: string, now: real, codec: Codec): (decoded: Decoded)
    ensures decoded.Live? <==> codec.decode(token).Some? && codec.decode(token).value.expires >= now
    ensures decoded.Expired? <==> codec.decode(token).Some? && codec.decode(token).value.expires < now
    ensures decoded.Undecodable? <==> codec.decode(token).None?
    ensures decoded.Live? ==> decoded.claims == codec.decode(token).value
  {
    match codec.decode(token)
    case None => Undecodable
    case Some(claims) => if claims.expires >= now then Live(claims) else Expired
  }

  /** `update_token_if_needed`: None unless the token decodes and is live; a new token
      for the same user when less than half the TTL is left; else the token itself.
      Reading a missing `user_id` or `user_address` raises. */
  function UpdateTokenIfNeeded(token: string, now: real, codec: Codec): (updated: Result<Option<string>>)
    ensures !DecodeJwt(token, now, codec).Live? ==> updated == Ok(None)
    ensures updated.Err? ==> DecodeJwt(token, now, codec).Live?
  {
    match DecodeJwt(token, now, codec)
    case Live(claims) =>
      if claims.expires - now < TokenTtl as real / 2.0 then
        if claims.userId.None? || claims.userAddress.None? then Err(Malformed)
        else Ok(Some(SignJwt(claims.userId.value, claims.userAddress.value, now, codec)))
      else Ok(Some(token))
    case _ => Ok(None)
  }

  /** A live token is reissued exactly when less than an hour of it is left, and then for
      the same user; otherwise it is returned unchanged. */
  lemma RefreshExactlyNearExpiry(token: string, now: real, codec: Codec)
    requires DecodeJwt(token, now, codec).Live?
    ensures var claims := DecodeJwt(token, now, codec).claims;
            && (claims.expires - now >= 3600.0 ==> UpdateTokenIfNeeded(token, now, codec) == Ok(Some(token)))
            && (claims.expires - now < 3600.0 && claims.userId.Some? && claims.userAddress.Some? ==>
                  UpdateTokenIfNeeded(token, now, codec)
                  == Ok(Some(SignJwt(claims.userId.value, claims.userAddress.value, now, codec))))
  {
  }

  /** A reissued token carries the same user and a full TTL from now. */
  lemma {:induction false} ReissuedTokenKeepsUser(token: string, now: real, codec: Codec)
    requires RoundTrips(codec)
    requires DecodeJwt(token, now, codec).Live?
    requires var claims := DecodeJwt(token, now, codec).claims;
             claims.expires - now < 3600.0 && claims.userId.Some? && claims.userAddress.Some?
    ensures UpdateTokenIfNeeded(token, now, codec).Ok? && UpdateTokenIfNeeded(token, now, codec).value.Some?
    ensures var claims := codec.decode(token).value;
            var renewed := codec.decode(UpdateTokenIfNeeded(token, now, codec).value.value);
            && renewed.Some?
            && renewed.value.userId == claims.userId
            && renewed.value.userAddress == claims.userAddress
            && renewed.value.expires == now + 7200.0
  {
    var claims := DecodeJwt(token, now, codec).claims;
    var signed := SignedClaims(claims.userId.value, claims.userAddress.value, now);
    assert codec.decode(codec.encode(signed)) == Some(signed);
  }

  /** The life of a token signed at `signedAt`: kept during its first hour, reissued
      during its second, refused afterwards. */
  lemma {:induction false} TokenLifecycle(userId: string, userAddress: string, signedAt: real, now: real, codec: Codec)
    requires RoundTrips(codec)
    ensures var token := SignJwt(userId, userAddress, signedAt, codec);
            var updated := UpdateTokenIfNeeded(token, now, codec);
            && (now <= signedAt + 3600.0 ==> updated == Ok(Some(token)))
            && (signedAt + 3600.0 < now <= signedAt + 7200.0 ==>
                  updated == Ok(Some(SignJwt(userId, userAddress, now, codec))))
            && (now > signedAt + 7200.0 ==> updated == Ok(None))
  {
    var claims := SignedClaims(userId, userAddress, signedAt);
    assert codec.decode(codec.encode(claims)) == Some(claims);
  }
}
