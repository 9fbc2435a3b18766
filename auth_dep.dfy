/**
 * `get_current_user` (app/dependencies/auth_dep.py): a bearer token to the
 * user it names, or the one credentials error. Decoding, the `sub` claim
 * and the directory lookup are tried in turn; each failure gives the same
 * 401 response. Being a function, the resolution cannot change the table.
 */
module AuthDep {
  import opened Wrappers
  import opened Models
  import opened Config
  import opened Tokens
  import opened Http
  import opened UsersService

  const CredentialsException := HttpError(Unauthorized, "Could not validate credentials", BearerChallenge)

  /** `jwt.decode(token, settings.SECRET_KEY, algorithms=[settings.ALGORITHM])`. */
  function DecodeWithSettings(token: string, settings: Settings, codec: TokenCodec): Option<Payload>
  {
    codec.decode(token, settings.secretKey, [settings.algorithm])
  }

  function GetCurrentUser(token: string, settings: Settings, codec: TokenCodec, service: UserService): (r: Result<User, HttpError>)
    reads service
    ensures DecodeWithSettings(token, settings, codec).None? ==> r == Err(CredentialsException)
    ensures var d := DecodeWithSettings(token, settings, codec);
            d.Some? && "sub" !in d.value ==> r == Err(CredentialsException)
    ensures var d := DecodeWithSettings(token, settings, codec);
            d.Some? && "sub" in d.value && d.value["sub"] !in service.users ==> r == Err(CredentialsException)
    ensures r.Err? ==> r.error == CredentialsException
    ensures r.Ok? ==> var d := DecodeWithSettings(token, settings, codec);
                      d.Some? && "sub" in d.value && d.value["sub"] in service.users
                      && r.value == service.users[d.value["sub"]]
  {
    match DecodeWithSettings(token, settings, codec)
    case None => Err(CredentialsException)
    case Some(payload) =>
      if "sub" !in payload then Err(CredentialsException)
      else
        var email := payload["sub"];
        match service.GetUserByEmail(email)
        case None => Err(CredentialsException)
        case Some(user) => Ok(user)
  }

  /** The user a token resolves to is the one whose email is the token's subject. */
  lemma ResolvedUserIsSubject(token: string, settings: Settings, codec: TokenCodec, service: UserService)
    requires service.Valid()
    requires GetCurrentUser(token, settings, codec, service).Ok?
    ensures var d := DecodeWithSettings(token, settings, codec);
            d.Some? && "sub" in d.value
            && GetCurrentUser(token, settings, codec, service).value.email == d.value["sub"]
  {
  }

  /**
   * A token issued by `login` resolves to the user who logged in, provided
   * the collaborators decode what they issue.
   */
  lemma LoginThenResolve(service: UserService, form: LoginForm, settings: Settings, codec: TokenCodec)
    requires service.Valid()
    requires IssuedTokensDecode(codec, settings)
    requires TimedeltaMinutesFit(settings.accessTokenExpireMinutes)
    requires form.username in service.users
    ensures service.Login(form, settings, codec).Ok?
    ensures GetCurrentUser(service.Login(form, settings, codec).value.accessToken, settings, codec, service)
         == Ok(service.users[form.username])
  {
  }

  /**
   * With a lifetime of zero minutes or less, applied as given by the issuer,
   * every token `login` issues is already expired: a decoder that enforces
   * expiry rejects it, so it never resolves, even for a user on file.
   */
  lemma NonPositiveLifetimeNeverResolves(service: UserService, form: LoginForm,
                                          settings: Settings, codec: TokenCodec)
    requires RejectsExpired(codec, settings)
    requires settings.accessTokenExpireMinutes <= 0
    requires TimedeltaMinutesFit(settings.accessTokenExpireMinutes)
    requires form.username in service.users
    ensures service.Login(form, settings, codec).Ok?
    ensures GetCurrentUser(service.Login(form, settings, codec).value.accessToken, settings, codec, service)
         == Err(CredentialsException)
  {
  }
}
