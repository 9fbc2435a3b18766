/**
 * The three endpoints used in sequence, as tests/test_api.py drives them:
 * register (validate the body, then `create_user`), log in with the same
 * email and password, and resolve the issued token.
 */
module AuthFlow {
  import opened Wrappers
  import opened Models
  import opened Schemas
  import opened Config
  import opened Tokens
  import opened Http
  import opened UsersService
  import opened AuthDep

  /**
   * Register, log in, resolve. A registration the body validation or
   * `create_user` rejects ends the flow there (`login` and `me` are then
   * `None`) and leaves the table as it was. A successful one files exactly
   * the new row under the registered email. The login then succeeds iff
   * the lifetime fits a `timedelta` (otherwise the flow ends with its
   * overflow), and the token it issues resolves to exactly that row.
   */
  method RegisterLoginResolve(service: UserService, body: UserRegister,
                              hash: string -> string, settings: Settings, codec: TokenCodec)
    returns (created: Result<User, CreateError>, login: Option<Result<Token, HttpError>>,
             me: Option<Result<User, HttpError>>)
    requires service.Valid()
    requires IssuedTokensDecode(codec, settings)
    modifies service
    ensures service.Valid()
    ensures ValidateRegistration(body, hash).Err? ==>
              created == Err(BodyRejected(ValidateRegistration(body, hash).error))
    ensures ValidateRegistration(body, hash).Ok? ==>
              created == CreateUserOutcome(old(service.users), old(service.nextId), ValidateRegistration(body, hash).value)
    ensures created.Ok? ==> && body.email !in old(service.users)
                            && service.users == old(service.users)[body.email := created.value]
                            && service.nextId == old(service.nextId) + 1
                            && created.value.email == body.email
                            && created.value.password == hash(body.password)
    ensures created.Ok? ==> && login.Some?
                            && (login.value.Ok? <==> TimedeltaMinutesFit(settings.accessTokenExpireMinutes))
                            && (login.value.Err? ==> login.value.error == LifetimeOverflow && me.None?)
                            && (login.value.Ok? ==> login.value.value.tokenType == "Bearer"
                                                    && me == Some(Ok(created.value)))
    ensures created.Err? ==> && login.None? && me.None?
                             && service.users == old(service.users) && service.nextId == old(service.nextId)
  {
    login, me := None, None;
    var registration := ValidateRegistration(body, hash);
    if registration.Err? {
      created := Err(BodyRejected(registration.error));
      return;
    }
    created := service.CreateUser(registration.value);
    if created.Err? {
      return;
    }
    var form := LoginForm(body.email, body.password);
    var token := service.Login(form, settings, codec);
    login := Some(token);
    if token.Err? {
      return;
    }
    LoginThenResolve(service, form, settings, codec);
    me := Some(GetCurrentUser(token.value.accessToken, settings, codec, service));
  }

  /**
   * The registration of tests/test_api.py on the test fixture's freshly
   * created, empty table: registration and login both succeed, and `/me`
   * answers with the registered email. The hashed password must fit its
   * column and pass `SUserAddDB`'s minimum length, and the configured
   * lifetime must fit a `timedelta`.
   */
  method FullAuthFlow(hash: string -> string, settings: Settings, codec: TokenCodec)
    returns (created: Result<User, CreateError>, login: Option<Result<Token, HttpError>>,
             me: Option<Result<User, HttpError>>)
    requires PasswordMinLength <= |hash("password")| <= PasswordColumnLength
    requires IssuedTokensDecode(codec, settings)
    requires TimedeltaMinutesFit(settings.accessTokenExpireMinutes)
    ensures created.Ok? && created.value.email == "user@example.com" && created.value.role == Patient
    ensures login.Some? && login.value.Ok?
    ensures me.Some? && me.value.Ok? && me.value.value.email == "user@example.com"
  {
    var service := new UserService(map[], 1);
    var body := UserRegister("user@example.com", "Test", "Testov", "patient", "password", "password");
    assert RegisterFieldErrors(body) == {};
    var registered := body.(password := hash("password"));
    assert ToAddDb(registered).Ok?;
    created, login, me := RegisterLoginResolve(service, body, hash, settings, codec);
  }
}
