/**
 * The `users` table (app/api/db/models.py): the User row, its build from
 * the registration schema, the table's key and uniqueness constraints and
 * the exact-match lookups on its unique columns.
 */
module Models {
  import opened Values
  import opened Security

  /** The registration input (UserCreate): the only place the plaintext password lives. */
  datatype UserCreate = UserCreate(username: string, email: string, password: string)

  /**
   * The registration input as a lowercasing schema validator would build it:
   * username and email already in the form the login lookup uses. The
   * UserCreate schema of this repository has no such validator; this is the
   * normalisation registration evidently relies on.
   */
  function SchemaUserCreate(username: string, email: string, password: string): (u: UserCreate)
    ensures Lower(u.username) == u.username && Lower(u.email) == u.email
    ensures Lower(username) == u.username && Lower(email) == u.email && u.password == password
  {
    LowerIdempotent(username);
    LowerIdempotent(email);
    UserCreate(Lower(username), Lower(email), password)
  }

  /** A row of `users`; `id` is unset until the row is flushed. There is no password field. */
  datatype User = User(id: Option<nat>, username: string, email: string, hashedPassword: string)

  /** What registration hands back: the name and the email only. */
  datatype UserReturn = UserReturn(username: string, email: string)

  /** `User.from_schema`: the schema minus its password, plus the password's hash. */
  function FromSchema(schema: UserCreate, h: Hasher): (u: User)
    ensures u.id.None? && u.username == schema.username && u.email == schema.email
    ensures u.hashedPassword == GetPasswordHash(h, schema.password)
  {
    User(None, schema.username, schema.email, GetPasswordHash(h, schema.password))
  }

  lemma FromSchemaKeepsCredentials(schema: UserCreate, h: Hasher)
    requires SoundHasher(h)
    ensures var u := FromSchema(schema, h);
      && u.id.None?
      && u.username == schema.username && u.email == schema.email
      && u.hashedPassword == GetPasswordHash(h, schema.password)
      && u.hashedPassword != schema.password
      && VerifyPassword(h, schema.password, u.hashedPassword)
      && forall other :: other != schema.password ==> !VerifyPassword(h, other, u.hashedPassword)
  {
  }

  function ToReturn(u: User): UserReturn
  {
    UserReturn(u.username, u.email)
  }

  /** The two unique columns. */
  datatype Column = UsernameColumn | EmailColumn

  function ColumnValue(u: User, c: Column): string
  {
    match c
    case UsernameColumn => u.username
    case EmailColumn => u.email
  }

  /** The table, keyed by the primary key `id`. */
  type Table = map<nat, User>

  /**
   * The table's constraints: each row is stored under its own id (so the
   * ids of distinct rows differ) and `username` and `email` are unique.
   */
  ghost predicate ValidTable(t: Table)
  {
    && (forall id :: id in t ==> t[id].id == Some(id))
    && (forall a, b :: a in t && b in t && a != b ==>
          t[a].username != t[b].username && t[a].email != t[b].email)
  }

  /** Some stored row has exactly `value` in `column`. */
  predicate Taken(t: Table, column: Column, value: string)
  {
    exists id :: id in t && ColumnValue(t[id], column) == value
  }

  /** `select(User).where(column == value)` with `scalar_one_or_none`. */
  ghost function FindUser(t: Table, column: Column, value: string): (r: Option<User>)
    ensures r.Some? <==> Taken(t, column, value)
    ensures r.Some? ==> ColumnValue(r.value, column) == value && exists id :: id in t && t[id] == r.value
  {
    if Taken(t, column, value) then
      var id :| id in t && ColumnValue(t[id], column) == value; Some(t[id])
    else None
  }

  /** In a valid table the lookup finds the one row holding the value. */
  lemma FindUserUnique(t: Table, column: Column, value: string, id: nat)
    requires ValidTable(t)
    requires id in t && ColumnValue(t[id], column) == value
    ensures FindUser(t, column, value) == Some(t[id])
  {
    var found := FindUser(t, column, value);
    var other :| other in t && t[other] == found.value;
    assert ColumnValue(t[other], column) == ColumnValue(t[id], column);
  }

  /**
   * Lookups compare exactly: a value that differs only in letter case never
   * finds the row stored under the other spelling.
   */
  lemma FindUserIsExact(t: Table, column: Column, value: string, variant: string)
    requires Lower(variant) == Lower(value) && variant != value
    ensures FindUser(t, column, value).Some? ==> FindUser(t, column, variant) != FindUser(t, column, value)
  {
  }

  /** The row ids of a valid table are pairwise distinct. */
  lemma IdsDistinct(t: Table, a: nat, b: nat)
    requires ValidTable(t)
    requires a in t && b in t && a != b
    ensures t[a].id != t[b].id
  {
  }
}
