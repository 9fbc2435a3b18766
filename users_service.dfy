/**
 * `UserService` (app/services/users_service.py) over the `users` table.
 * The table, reached in the source through a database session and a
 * repository, is the service's `users` field: a map from email to row,
 * with `nextId` the primary key the next inserted row receives.
 */
module UsersService {
  import opened Wrappers
  import opened Models
  import opened Schemas
  import opened Config
  import opened Tokens
  import opened Http

  datatype CreateError =
    | BodyRejected(cause: ValidationError)  // the request body failed `SUserRegister`; `create_user` never ran
    | UserAlreadyExists                     // `UserAlreadyExistsException`
    | Invalid(cause: ValidationError)       // `SUserAddDB` rejected the values
    | Rejected(reason: StorageError)        // the insert itself failed

  /** `OAuth2PasswordRequestForm`: the email travels as `username`. */
  datatype LoginForm = LoginForm(username: string, password: string)

  /** `SToken`. */
  datatype Token = Token(accessToken: string, tokenType: string)

  const IncorrectCredentials := HttpError(Unauthorized, "Incorrect username or password", BearerChallenge)

  /** The `OverflowError` of `timedelta`, which no handler catches. */
  const LifetimeOverflow := HttpError(InternalServerError, "Internal Server Error", map[])

  /** `timedelta` holds at most 999999999 days either way. */
  const TimedeltaMaxDays := 999_999_999
  const MinutesPerDay := 1440

  /**
   * `timedelta(minutes=m)` exists: the whole days of `m` minutes, rounded
   * down, lie within the type's range (Dafny's `/` by a positive divisor
   * rounds down, as Python's normalisation does).
   */
  predicate TimedeltaMinutesFit(m: int)
  {
    -TimedeltaMaxDays <= m / MinutesPerDay <= TimedeltaMaxDays
  }

  /** The lifetimes `timedelta(minutes=...)` accepts, as plain bounds. */
  lemma TimedeltaMinutesRange(m: int)
    ensures TimedeltaMinutesFit(m) <==> -1_439_999_998_560 <= m <= 1_439_999_999_999
  {
  }

  /** What `create_user` does to a table, as a function of the table before it. */
  function CreateUserOutcome(users: map<string, User>, nextId: int, data: UserRegister): (r: Result<User, CreateError>)
    ensures data.email in users ==> r == Err(UserAlreadyExists)
    ensures r.Ok? <==> data.email !in users && ToAddDb(data).Ok? && Insert(users, nextId, ToAddDb(data).value).Ok?
    ensures r.Ok? ==> r.value.id == nextId && r.value.email == data.email
                      && r.value.firstName == data.firstName && r.value.lastName == data.lastName
                      && r.value.password == data.password && RoleName(r.value.role) == data.role
  {
    if data.email in users then Err(UserAlreadyExists)
    else match ToAddDb(data)
      case Err(e) => Err(Invalid(e))
      case Ok(values) =>
        match Insert(users, nextId, values)
        case Err(e) => Err(Rejected(e))
        case Ok(user) => Ok(user)
  }

  class UserService {
    var users: map<string, User>
    var nextId: int

    ghost predicate Valid()
      reads this
    {
      DirectoryInvariant(users, nextId)
    }

    /** A service over the rows the database already holds. */
    constructor (users0: map<string, User>, nextId0: int)
      requires DirectoryInvariant(users0, nextId0)
      ensures Valid() && users == users0 && nextId == nextId0
    {
      users := users0;
      nextId := nextId0;
    }

    /** `get_user_by_email`: the row filed under `email`, or none; it never raises. */
    function GetUserByEmail(email: string): (r: Option<User>)
      reads this
      ensures r.Some? <==> email in users
      ensures r.Some? ==> r.value == users[email]
      ensures Valid() && r.Some? ==> r.value.email == email
    {
      if email in users then Some(users[email]) else None
    }

    /** The storage layer's insert (`users_repo.add`), with the constraints the table declares. */
    method Add(values: UserValues) returns (r: Result<User, StorageError>)
      requires Valid()
      modifies this
      ensures Valid()
      ensures r == Insert(old(users), old(nextId), values)
      ensures users == if r.Ok? then old(users)[values.email := r.value] else old(users)
      ensures nextId == if r.Ok? then old(nextId) + 1 else old(nextId)
    {
      r := Insert(users, nextId, values);
      if r.Ok? {
        InsertKeepsInvariant(users, nextId, values);
        users := users[values.email := r.value];
        nextId := nextId + 1;
      }
    }

    /**
     * `create_user`: check for the email, then drop `confirm_password` and
     * insert. A duplicate leaves the table as it was; a success adds exactly
     * the one row filed under the new email.
     */
    method CreateUser(data: UserRegister) returns (r: Result<User, CreateError>)
      requires Valid()
      modifies this
      ensures Valid()
      ensures r == CreateUserOutcome(old(users), old(nextId), data)
      ensures old(data.email in users) ==> r == Err(UserAlreadyExists) && users == old(users) && nextId == old(nextId)
      ensures r.Ok? ==> data.email !in old(users) && users == old(users)[data.email := r.value]
                        && users.Keys == old(users.Keys) + {data.email}
      ensures r.Err? ==> users == old(users)
      ensures nextId == if r.Ok? then old(nextId) + 1 else old(nextId)
    {
      var existing := GetUserByEmail(data.email);
      if existing.Some? {
        return Err(UserAlreadyExists);
      }
      var values := ToAddDb(data);
      if values.Err? {
        return Err(Invalid(values.error));
      }
      var added := Add(values.value);
      if added.Err? {
        return Err(Rejected(added.error));
      }
      r := Ok(added.value);
    }

    /**
     * `login`: a token whose `sub` is the user's email when the email is
     * on file, 401 otherwise. The submitted password is never looked at.
     * Building the lifetime's `timedelta` comes after the lookup and fails
     * for a lifetime outside its range.
     */
    function Login(form: LoginForm, settings: Settings, codec: TokenCodec): (r: Result<Token, HttpError>)
      reads this
      ensures r.Ok? <==> form.username in users && TimedeltaMinutesFit(settings.accessTokenExpireMinutes)
      ensures form.username !in users ==> r == Err(IncorrectCredentials)
      ensures form.username in users && !TimedeltaMinutesFit(settings.accessTokenExpireMinutes)
              ==> r == Err(LifetimeOverflow)
      ensures r.Ok? ==> r.value.tokenType == "Bearer"
                        && r.value.accessToken == codec.issue(map["sub" := users[form.username].email],
                                                              settings.accessTokenExpireMinutes)
    {
      match GetUserByEmail(form.username)
      case None => Err(IncorrectCredentials)
      case Some(user) =>
        var minutes := settings.accessTokenExpireMinutes;
        if !TimedeltaMinutesFit(minutes) then Err(LifetimeOverflow)
        else Ok(Token(codec.issue(map["sub" := user.email], minutes), "Bearer"))
    }
  }

  /** Whether and how `login` succeeds does not depend on the password. */
  lemma LoginIgnoresPassword(service: UserService, email: string, password1: string, password2: string,
                             settings: Settings, codec: TokenCodec)
    ensures service.Login(LoginForm(email, password1), settings, codec)
         == service.Login(LoginForm(email, password2), settings, codec)
  {
  }
}
