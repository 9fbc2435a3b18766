/**
 * The `users` table (app/models/users.py): the role enumeration, the user
 * record, the column length caps, and the invariant the directory of users
 * keeps. The directory is a map keyed by email, the column the table
 * declares unique.
 */
module Models {
  import opened Wrappers

  /** `RoleEnum`: exactly three roles. */
  datatype Role = Patient | Doctor | Admin

  const DefaultRole: Role := Patient

  /** The value each role is stored and named by. */
  function RoleName(r: Role): (name: string)
    ensures name in {"patient", "doctor", "admin"}
  {
    match r
    case Patient => "patient"
    case Doctor => "doctor"
    case Admin => "admin"
  }

  /** Accepting a role by its name, as the enum column does on insert. */
  function RoleFromName(name: string): (r: Option<Role>)
    ensures r.Some? <==> name in {"patient", "doctor", "admin"}
    ensures r.Some? ==> RoleName(r.value) == name
  {
    if name == "patient" then Some(Patient)
    else if name == "doctor" then Some(Doctor)
    else if name == "admin" then Some(Admin)
    else None
  }

  lemma RoleNameRoundTrip(r: Role)
    ensures RoleFromName(RoleName(r)) == Some(r)
  {
  }

  /** A row of `users`; the role defaults to `patient` when none is given. */
  datatype User = User(
    id: int,
    firstName: string,
    lastName: string,
    email: string,
    password: string,
    role: Role := DefaultRole)

  lemma RoleDefaultsToPatient(id: int, firstName: string, lastName: string, email: string, password: string)
    ensures User(id, firstName, lastName, email, password).role == Patient
  {
  }

  /** Column widths: `String(50)`, `String(50)`, `String(100)`, `String(255)`. */
  const NameColumnLength := 50
  const EmailColumnLength := 100
  const PasswordColumnLength := 255

  predicate FitsColumns(u: User)
  {
    |u.firstName| <= NameColumnLength && |u.lastName| <= NameColumnLength
    && |u.email| <= EmailColumnLength && |u.password| <= PasswordColumnLength
  }

  /**
   * The table's invariant: each entry is filed under its own email, fits
   * the columns, and carries a primary key below `nextId` that no other
   * entry shares.
   */
  ghost predicate DirectoryInvariant(users: map<string, User>, nextId: int)
  {
    && (forall e :: e in users ==> users[e].email == e && FitsColumns(users[e]) && users[e].id < nextId)
    && (forall e1, e2 :: e1 in users && e2 in users && users[e1].id == users[e2].id ==> e1 == e2)
  }

  /** The unique constraint on `email`: no two distinct rows share one. */
  lemma EmailIsUnique(users: map<string, User>, nextId: int, u1: User, u2: User)
    requires DirectoryInvariant(users, nextId)
    requires u1 in users.Values && u2 in users.Values && u1.email == u2.email
    ensures u1 == u2
  {
  }

  /** The columns `SUserAddDB` hands to the storage layer. */
  datatype UserValues = UserValues(email: string, firstName: string, lastName: string, role: string, password: string)

  datatype StorageError =
    | DuplicateEmail       // the unique constraint on `email`
    | ValueTooLong         // a value exceeds its column's width
    | UnknownRole          // the role is not a value of `RoleEnum`

  /**
   * Inserting one row: the storage layer rejects a duplicate email, a value
   * wider than its column and a role name outside the enum; otherwise the
   * row gets the primary key `nextId` and the given values.
   */
  function Insert(users: map<string, User>, nextId: int, v: UserValues): (r: Result<User, StorageError>)
    ensures r.Ok? <==> v.email !in users && RoleFromName(v.role).Some?
                       && |v.firstName| <= NameColumnLength && |v.lastName| <= NameColumnLength
                       && |v.email| <= EmailColumnLength && |v.password| <= PasswordColumnLength
    ensures r.Ok? ==> r.value.id == nextId && r.value.email == v.email
                      && r.value.firstName == v.firstName && r.value.lastName == v.lastName
                      && r.value.password == v.password && RoleName(r.value.role) == v.role
    ensures r == Err(DuplicateEmail) <==> v.email in users
  {
    if v.email in users then Err(DuplicateEmail)
    else if |v.firstName| > NameColumnLength || |v.lastName| > NameColumnLength
         || |v.email| > EmailColumnLength || |v.password| > PasswordColumnLength then Err(ValueTooLong)
    else match RoleFromName(v.role)
      case None => Err(UnknownRole)
      case Some(role) => Ok(User(nextId, v.firstName, v.lastName, v.email, v.password, role))
  }

  /** A successful insert keeps the invariant, with the key counter moved past the new row. */
  lemma InsertKeepsInvariant(users: map<string, User>, nextId: int, v: UserValues)
    requires DirectoryInvariant(users, nextId)
    requires Insert(users, nextId, v).Ok?
    ensures DirectoryInvariant(users[v.email := Insert(users, nextId, v).value], nextId + 1)
  {
  }
}
