/**
 * The token collaborators: `create_access_token` (in `core.security`,
 * which is not part of this model) and PyJWT's `jwt.decode`. Both enter
 * the model as the fields of a `TokenCodec` value. Signature checking,
 * structural checks and expiry are all folded into `decode` returning
 * `None`, which stands for `InvalidTokenError`.
 */
module Tokens {
  import opened Wrappers
  import opened Config

  /** A decoded JWT payload: claim names to claim values. */
  type Payload = map<string, string>

  datatype TokenCodec = TokenCodec(
    issue: (Payload, int) -> string,                      // claims and lifetime in minutes to a signed token
    decode: (string, string, seq<string>) -> Option<Payload>)  // token, key and accepted algorithms to its payload

  /** The decoded payload exists and holds every claim of `claims` with its value. */
  predicate Carries(decoded: Option<Payload>, claims: Payload)
  {
    decoded.Some? && forall k :: k in claims ==> k in decoded.value && decoded.value[k] == claims[k]
  }

  /**
   * What the flow relies on of the collaborators: the configured lifetime
   * is positive, and a token just issued by `login` (claims `{"sub": email}`
   * over that lifetime) decodes, under the configured key and algorithm, to
   * a payload carrying that subject (possibly with more claims, such as
   * `exp`).
   */
  ghost predicate IssuedTokensDecode(codec: TokenCodec, settings: Settings)
  {
    && settings.accessTokenExpireMinutes > 0
    && forall email: string ::
         Carries(codec.decode(codec.issue(map["sub" := email], settings.accessTokenExpireMinutes),
                              settings.secretKey, [settings.algorithm]),
                 map["sub" := email])
  }

  /**
   * An issuer that applies the lifetime as given, together with a decoder
   * that enforces expiry: a token issued with a lifetime of zero minutes or
   * less is already expired and fails to decode. (An issuer that treats a
   * zero lifetime as "use the default" does not meet this.)
   */
  ghost predicate RejectsExpired(codec: TokenCodec, settings: Settings)
  {
    forall claims: Payload, minutes: int ::
      minutes <= 0 ==> codec.decode(codec.issue(claims, minutes), settings.secretKey, [settings.algorithm]).None?
  }

  /**
   * A toy codec whose tokens spell out their subject, and which treats a
   * token issued with a non-positive lifetime as expired. It shows that the
   * two assumptions above can hold together.
   */
  function ExampleCodec(): TokenCodec
  {
    TokenCodec(
      (claims: Payload, minutes: int) => if minutes > 0 && "sub" in claims then "v" + claims["sub"] else "",
      (token: string, key: string, algorithms: seq<string>) =>
        if |token| > 0 && token[0] == 'v' then Some(map["sub" := token[1..]]) else None)
  }

  lemma ExampleCodecMeetsAssumptions(settings: Settings)
    requires settings.accessTokenExpireMinutes > 0
    ensures IssuedTokensDecode(ExampleCodec(), settings)
    ensures RejectsExpired(ExampleCodec(), settings)
  {
  }
}
