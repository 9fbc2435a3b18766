/**
 * Request and storage schemas (app/schemas/users_schema.py): the length
 * bounds each field carries, the password/confirmation check that runs
 * after them and replaces the password by its hash, and the re-validation
 * a registration undergoes when it becomes the columns of a new row.
 * Email syntax (`EmailStr`) is not checked: an email is an opaque string.
 * The password hasher is not part of this model; it enters as the
 * parameter `hash`.
 */
module Schemas {
  import opened Wrappers
  import opened Models

  const NameMinLength := 3
  const NameMaxLength := 50
  const PasswordMinLength := 5
  const PasswordMaxLength := 50

  predicate NameLengthOk(s: string) { NameMinLength <= |s| <= NameMaxLength }
  predicate PasswordLengthOk(s: string) { PasswordMinLength <= |s| <= PasswordMaxLength }

  /** The fields whose constraints can fail. */
  datatype Field = FirstName | LastName | Password | ConfirmPassword

  datatype ValidationError =
    | FieldErrors(fields: set<Field>)   // every field whose constraint failed
    | PasswordsDiffer                   // "the passwords do not match"

  /** `SUserRegister`, both as submitted and after validation. */
  datatype UserRegister = UserRegister(
    email: string,
    firstName: string,
    lastName: string,
    role: string,
    password: string,
    confirmPassword: string)

  /** The fields of a registration that fail their `Field(...)` constraints. */
  function RegisterFieldErrors(u: UserRegister): (errs: set<Field>)
    ensures FirstName in errs <==> !NameLengthOk(u.firstName)
    ensures LastName in errs <==> !NameLengthOk(u.lastName)
    ensures Password in errs <==> !PasswordLengthOk(u.password)
    ensures ConfirmPassword in errs <==> !PasswordLengthOk(u.confirmPassword)
  {
    (if NameLengthOk(u.firstName) then {} else {FirstName})
    + (if NameLengthOk(u.lastName) then {} else {LastName})
    + (if PasswordLengthOk(u.password) then {} else {Password})
    + (if PasswordLengthOk(u.confirmPassword) then {} else {ConfirmPassword})
  }

  /**
   * `SUserRegister.check_password`: a mismatch fails; a match replaces the
   * password by its hash and leaves the plaintext in `confirmPassword`.
   */
  function CheckPassword(u: UserRegister, hash: string -> string): (r: Result<UserRegister, ValidationError>)
    ensures r.Ok? <==> u.password == u.confirmPassword
    ensures r.Err? ==> r.error == PasswordsDiffer
    ensures r.Ok? ==> r.value.password == hash(u.confirmPassword) && r.value.confirmPassword == u.password
                      && r.value.email == u.email && r.value.firstName == u.firstName
                      && r.value.lastName == u.lastName && r.value.role == u.role
  {
    if u.password != u.confirmPassword then Err(PasswordsDiffer)
    else Ok(u.(password := hash(u.password)))
  }

  /**
   * Building an `SUserRegister` from a request body: the field constraints
   * first, all of them reported together; the `mode="after"` validator only
   * once they have all passed.
   */
  function ValidateRegistration(u: UserRegister, hash: string -> string): (r: Result<UserRegister, ValidationError>)
    ensures r.Ok? <==> RegisterFieldErrors(u) == {} && u.password == u.confirmPassword
    ensures RegisterFieldErrors(u) != {} ==> r == Err(FieldErrors(RegisterFieldErrors(u)))
    ensures r == Err(PasswordsDiffer) <==> RegisterFieldErrors(u) == {} && u.password != u.confirmPassword
    ensures r.Ok? ==> r.value == u.(password := hash(u.password))
  {
    var errs := RegisterFieldErrors(u);
    if errs != {} then Err(FieldErrors(errs)) else CheckPassword(u, hash)
  }

  /** A rejected registration does not depend on the hasher: no hash is computed for it. */
  lemma RejectionIgnoresHash(u: UserRegister, hash1: string -> string, hash2: string -> string)
    requires ValidateRegistration(u, hash1).Err?
    ensures ValidateRegistration(u, hash2) == ValidateRegistration(u, hash1)
  {
  }

  /** After validation the stored password is the hash of the confirmation, which still holds the plaintext. */
  lemma ValidatedPasswordIsHashOfConfirmation(u: UserRegister, hash: string -> string)
    requires ValidateRegistration(u, hash).Ok?
    ensures var v := ValidateRegistration(u, hash).value;
            v.password == hash(v.confirmPassword) && v.confirmPassword == u.confirmPassword
            && PasswordLengthOk(v.confirmPassword) && NameLengthOk(v.firstName) && NameLengthOk(v.lastName)
  {
  }

  /** The fields of an `SUserAddDB` that fail: the names as before, a password of at least five characters. */
  function AddDbFieldErrors(v: UserValues): (errs: set<Field>)
    ensures FirstName in errs <==> !NameLengthOk(v.firstName)
    ensures LastName in errs <==> !NameLengthOk(v.lastName)
    ensures Password in errs <==> |v.password| < PasswordMinLength
    ensures ConfirmPassword !in errs
  {
    (if NameLengthOk(v.firstName) then {} else {FirstName})
    + (if NameLengthOk(v.lastName) then {} else {LastName})
    + (if |v.password| >= PasswordMinLength then {} else {Password})
  }

  /**
   * `SUserAddDB(**user_data_dict)` after `model_dump()` and
   * `pop('confirm_password')`: every other field is copied verbatim, the
   * already hashed password included, and validated again.
   */
  function ToAddDb(u: UserRegister): (r: Result<UserValues, ValidationError>)
    ensures r.Ok? <==> NameLengthOk(u.firstName) && NameLengthOk(u.lastName) && |u.password| >= PasswordMinLength
    ensures r.Err? ==> r.error.FieldErrors? && r.error.fields != {}
    ensures r.Ok? ==> r.value.email == u.email && r.value.firstName == u.firstName
                      && r.value.lastName == u.lastName && r.value.role == u.role
                      && r.value.password == u.password
  {
    var v := UserValues(u.email, u.firstName, u.lastName, u.role, u.password);
    var errs := AddDbFieldErrors(v);
    if errs != {} then Err(FieldErrors(errs)) else Ok(v)
  }

  /** `SUserAuth`: an email and a password of five to fifty characters. */
  datatype UserAuth = UserAuth(email: string, password: string)

  function ValidateAuth(u: UserAuth): (r: Result<UserAuth, ValidationError>)
    ensures r.Ok? <==> PasswordLengthOk(u.password)
    ensures r.Ok? ==> r.value == u
    ensures r.Err? ==> r.error == FieldErrors({Password})
  {
    if PasswordLengthOk(u.password) then Ok(u) else Err(FieldErrors({Password}))
  }
}
