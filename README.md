# AuthService authentication core, modelled in Dafny

This project models the authentication core of a small FastAPI service:
a `users` table keyed by email, registration (`create_user`), login
(`login`), resolving a bearer token to the current user
(`get_current_user`), the request schemas that validate registrations,
and the settings from which the database URLs are built.

Modules, one per source file or collaborator:

- `Models` (models.dfy): `RoleEnum`, the `User` row with its default role,
  the column widths, the table invariant, and the storage insert.
- `Schemas` (schemas.dfy): the field length bounds of `SUserRegister`,
  `SUserAddDB` and `SUserAuth`, and `check_password`.
- `Config` (config.dfy): `Settings`, the two URL builders,
  `get_auth_data`, and a parser for the URLs they build.
- `Text` (text.dfy): Python's `str(int)`, its inverse, and a split helper.
- `Tokens` (tokens.dfy): the token issuer and `jwt.decode`, as fields of a
  `TokenCodec` value.
- `Http` (http.dfy): the error response the core raises.
- `UsersService` (users_service.dfy): the `UserService` class. Its `users`
  field is the table and `nextId` is the next primary key.
- `AuthDep` (auth_dep.dfy): `get_current_user`.
- `AuthFlow` (auth_flow.dfy): register, log in, then resolve, as in
  tests/test_api.py.

Collaborators that are not part of this model enter as parameters:

- The password hasher `utils.get_password_hash` is a parameter `hash: string -> string`.
- `core.security.create_access_token` and `jwt.decode` are the two fields of `Tokens.TokenCodec`.
  A decode that fails for any reason (bad signature, malformed token, expired) is `None`.
- The module-level `settings` object is passed explicitly as a `Settings` value.
- The end-to-end properties assume `Tokens.IssuedTokensDecode`.
  It says that the configured lifetime is positive, and that a token `login` just issued for `{"sub": email}` decodes under the configured key and algorithm to a payload carrying that subject.
  `Tokens.ExampleCodecMeetsAssumptions` exhibits a codec that meets it and also rejects expired tokens (`Tokens.RejectsExpired`).
- `ACCESS_TOKEN_EXPIRE_MINUTES` is declared as any integer, but `login` turns it into a `timedelta`, which overflows outside -1439999998560..1439999999999 minutes. `login` then fails with an uncaught `OverflowError`, a 500, after the user lookup (`UsersService.TimedeltaMinutesRange`, `UsersService.UserService.Login`).
- Whether a lifetime of zero or less gives dead tokens depends on `create_access_token`, which is not part of this model. An issuer that applies the lifetime as given, with a decoder that enforces expiry (`Tokens.RejectsExpired`), yields tokens that never resolve (`AuthDep.NonPositiveLifetimeNeverResolves`). An issuer that treats a zero `timedelta` (falsy in Python) as "use the default" would instead give a live token at lifetime 0.

Facts about the code that the model keeps:

- `login` checks only that the email is on file. It never reads the submitted password and never calls a verify step.
- The claims `login` passes to the issuer are `{"sub": email}` only. There is no role claim. Whatever else the issuer adds (such as `exp` for the lifetime it is handed) is up to `create_access_token`.
- `get_db_url_async` and `get_auth_data` read the module-level `settings`, not `self`.

## Model

| member | source | states |
|---|---|---|
| `Models.RoleFromName` | app/models/users.py:8-14 | exactly the three names `patient`, `doctor`, `admin` are roles; an accepted name is the role's own name |
| `Models.RoleName` | app/models/users.py:12-14 | every role is stored under one of the three names `patient`, `doctor`, `admin` |
| `Models.RoleNameRoundTrip` | app/models/users.py:8-14 | every role is recovered from its name |
| `Models.RoleDefaultsToPatient` | app/models/users.py:25 | a row built without a role has role `patient` |
| `Models.DirectoryInvariant` | app/models/users.py:20-24 | the table's invariant: each row is filed under its own email (unique), fits the column widths, and has a primary key below the counter that no other row shares |
| `Models.EmailIsUnique` | app/models/users.py:23 | under the table invariant, two rows with the same email are the same row |
| `Models.Insert` | app/models/users.py:20-25 | an insert succeeds iff the email is new, the role name is an enum value and every value fits its column (50, 50, 100, 255); the row gets the next key and the given values |
| `Models.InsertKeepsInvariant` | app/models/users.py:20-25 | a successful insert keeps emails unique, rows within their columns and primary keys distinct |
| `Schemas.RegisterFieldErrors` | app/schemas/users_schema.py:14-21 | a name fails iff its length is outside 3..50; a password or confirmation fails iff its length is outside 5..50 |
| `Schemas.CheckPassword` | app/schemas/users_schema.py:23-28 | unequal password and confirmation fail; equal ones give the record with the password replaced by its hash, the confirmation still the plaintext, and other fields unchanged |
| `Schemas.ValidateRegistration` | app/schemas/users_schema.py:19-28 | success iff every field constraint holds and the passwords match; field errors are all reported, and the mismatch is reported only once no field fails |
| `Schemas.RejectionIgnoresHash` | app/schemas/users_schema.py:25-26 | a rejected registration is the same whatever the hasher, so no hash is computed for it |
| `Schemas.ValidatedPasswordIsHashOfConfirmation` | app/schemas/users_schema.py:27-28 | after validation the password is the hash of the confirmation, which keeps the plaintext |
| `Schemas.AddDbFieldErrors` | app/schemas/users_schema.py:31-32 | the names keep their 3..50 bounds; the password needs at least 5 characters and has no upper bound |
| `Schemas.ToAddDb` | app/services/users_service.py:30-34 | dropping `confirm_password` copies every other field verbatim, the hashed password included, and fails iff `SUserAddDB` rejects it |
| `Schemas.ValidateAuth` | app/schemas/users_schema.py:35-36 | `SUserAuth` accepts iff the password length is within 5..50 |
| `Config.UrlTail` | app/core/config.py:45-47 | the tail both URL builders share begins with the user and `:` and ends with `/` and the database name |
| `Config.GetDbUrl` | app/core/config.py:35-48 | the URL is `postgresql://` followed by `user:password@host:port/db` from the receiver |
| `Config.GetDbUrlAsync` | app/core/config.py:21-33 | the URL is `postgresql+asyncpg://` followed by the same tail as `get_db_url` of the module-level settings |
| `Config.UrlsDifferOnlyInScheme` | app/core/config.py:30-48 | when the receiver is the module-level settings, the two URLs differ only in the scheme |
| `Config.DbUrlRoundTrip` | app/core/config.py:44-48 | parsing a built URL recovers user, password, host, port and database when the user and host hold no `:` and the password no `@` |
| `Config.GetDbUrlRoundTrip` | app/core/config.py:30-48 | both builders' URLs parse back to the connection parameters they were built from, the async one to the module-level settings' |
| `Config.GetAuthData` | app/core/config.py:50-58 | the map has exactly the keys `secret_key` and `algorithm`, bound to the module-level secret and algorithm |
| `Config.DefaultTokenLifetime` | app/core/config.py:14 | the token lifetime defaults to 30 minutes |
| `Text.IntToDecimal` | app/core/config.py:47 | Python's `str` of the port: non-empty, with no `/`, and all digits iff the port is non-negative |
| `Text.NatDecimalRoundTrip` | app/core/config.py:47 | the digits written for a non-negative port read back to that port |
| `Text.IntDecimalRoundTrip` | app/core/config.py:47 | `str` of any integer port, sign included, reads back to that port |
| `UsersService.CreateUserOutcome` | app/services/users_service.py:24-35 | a known email gives `UserAlreadyExists`; success iff the email is new and the values pass `SUserAddDB` and the insert; the new row holds the submitted fields, the password not hashed again |
| `UsersService.UserService.constructor` | app/services/users_service.py:15-22 | a service attaches to the rows the database already holds, which keep the table invariant |
| `UsersService.UserService.GetUserByEmail` | app/services/users_service.py:37-46 | the row filed under the email, or none, and never an error; under the invariant the row's email is the one asked for |
| `UsersService.UserService.Add` | app/services/users_service.py:34 | the insert's outcome is `Models.Insert`; on success exactly the new row is added and the key counter advances, otherwise nothing changes |
| `UsersService.UserService.CreateUser` | app/services/users_service.py:24-35 | a duplicate email fails and leaves the table unchanged; a success adds exactly one key, the new email, and changes no other row; any failure leaves the table unchanged; the key counter advances by one exactly on success |
| `UsersService.TimedeltaMinutesFit` | app/services/users_service.py:57 | `timedelta(minutes=m)` exists iff the whole days of `m` minutes, rounded down, lie within ±999999999 |
| `UsersService.TimedeltaMinutesRange` | app/services/users_service.py:57 | `timedelta(minutes=m)` exists iff -1439999998560 <= m <= 1439999999999 |
| `UsersService.UserService.Login` | app/services/users_service.py:48-61 | success iff the email is on file and the lifetime fits a `timedelta`; an unknown email is 401 "Incorrect username or password" with `WWW-Authenticate: Bearer`; a known email with an out-of-range lifetime is the 500 of the overflow; success issues the token for `{"sub": email}` over the configured minutes, with type `Bearer` |
| `UsersService.LoginIgnoresPassword` | app/services/users_service.py:48-61 | two logins with the same email and different passwords give the same result |
| `AuthDep.DecodeWithSettings` | app/dependencies/auth_dep.py:51 | the token is decoded with the configured secret key and a one-element list holding the configured algorithm |
| `AuthDep.GetCurrentUser` | app/dependencies/auth_dep.py:45-67 | a failed decode, a missing `sub` and an unknown email each give the 401 "Could not validate credentials" with `WWW-Authenticate: Bearer`; every failure is that error; a success is exactly the row filed under `sub` |
| `AuthDep.ResolvedUserIsSubject` | app/dependencies/auth_dep.py:61-67 | under the table invariant, the resolved user's email is the token's subject |
| `AuthDep.LoginThenResolve` | app/dependencies/auth_dep.py:50-67 | for an email on file, the token `login` issues resolves to that email's row |
| `AuthDep.NonPositiveLifetimeNeverResolves` | app/dependencies/auth_dep.py:50-59 | with a lifetime of zero minutes or less (within `timedelta`'s range), an issuer that applies it as given and a decoder that enforces expiry, `login` still succeeds but its token gives the 401 credentials error |
| `AuthFlow.RegisterLoginResolve` | tests/test_api.py:16-38 | a body that fails `SUserRegister` is rejected before `create_user`; otherwise registration is `create_user`'s outcome on the validated body; on success the table gains exactly the new row under the registered email, with the hashed password; the login then succeeds, with type `Bearer`, iff the lifetime fits a `timedelta` (else the flow ends with the overflow), and `/me` is exactly the created row; a failed registration ends the flow and leaves the table and key counter unchanged |
| `AuthFlow.FullAuthFlow` | tests/test_api.py:5-38 | on the fixture's freshly created, empty table, with a lifetime that fits a `timedelta`, the test's registration succeeds with role `patient`, the login succeeds, and `/me` returns a user with email `user@example.com` |

## Left out

- Password hashing is the parameter `hash`; `utils.get_password_hash` is not part of this model, and no verify step exists in the source.
- Token issuing and decoding are the parameters of `Tokens.TokenCodec`. Signature checking, expiry and clocks are folded into a decode returning `None`.
- Email syntax (`EmailStr`) is not checked. An email is an opaque string, matched by exact string equality.
- `UsersService.UserService.Login`: `SEmailModel(email=form_data.username)` raises a validation error (a 500, not a 401) for a username that is not an email; the model answers 401. The address normalisation `EmailStr` applies (a lowercased domain) is also not modelled, so `user@EXAMPLE.com` fails to log in here where the source succeeds.
- `UsersService.UserService.Login`: the `OverflowError` of `timedelta` is represented by the server's response to an uncaught exception (status 500, detail "Internal Server Error", no headers); the exception object itself is not modelled.
- `UsersService.UserService.Login`: the token issuer `create_access_token` is modelled as never failing, so an exception raised inside it is not represented. For example, an issuer of the usual form computes the current time plus the lifetime, which overflows `datetime` for lifetimes past the year 9999 (about 4.19e9 minutes from now). The model's login still succeeds there for every lifetime that fits a `timedelta`.
- `UsersService.UserService.CreateUser`: emails are compared exactly, so `a@B.com` and `a@b.com` are two rows here, while the source's normalised lookup reports `UserAlreadyExists` for the second.
- `UsersService.UserService.GetUserByEmail`: the validation error `SEmailModel(email=...)` raises for malformed syntax is not modelled, and the lookup matches the exact string rather than the normalised address.
- `AuthDep.GetCurrentUser`: a correctly signed token whose `sub` is not a valid email address makes `get_user_by_email` raise a validation error outside the `try` block, which surfaces as a 500. The model answers with the credentials 401 instead, because emails are opaque strings here.
- `UsersService.UserService.Add`: `nextId` models the serial primary key, but it advances only on a successful insert; in PostgreSQL a failed insert still uses up a sequence value.
- The role name is converted to a `Role` by name lookup on insert. The storage library's own conversion rules beyond that are not modelled.
- The storage insert (`users_repo.add`, from a base repository that is not part of this model) is modelled from the table's declared constraints. The database's own error types, sessions, commits and `async`/`await` are left out.
- The check-then-insert race in `create_user` between concurrent requests is a concurrency concern and is not modelled.
- Loading settings from environment files is I/O and is not modelled.
- The log calls in `get_current_user` have no behaviour to verify.
- Routing, dependency injection, response projections (app/main.py, app/api/auth_api.py) and the test fixtures are not modelled. The end-to-end test is modelled only through `AuthFlow`.
- The decoded payload maps claim names to strings. A non-string `sub` claim is not represented.
- `AuthDep.LoginThenResolve`, `AuthFlow.RegisterLoginResolve` and `AuthFlow.FullAuthFlow` assume that an issued token decodes at once to its claims (`Tokens.IssuedTokensDecode`). This stands for the collaborators' correctness, which is not part of this model.
