/**
 * The store behind the Unit of Work and the user repository
 * (app/api/repositories/user_repository.py). A Database holds the committed
 * table and the id sequence; a Session is one transaction over it with its
 * own working copy of the table and a log of the calls made on it; the
 * repository turns its three operations into session calls.
 */
module Repository {
  import opened Values
  import opened Exceptions
  import opened Models

  /** The calls a session sees, in order. */
  datatype SessionOp =
    | Select(column: Column, value: string)
    | Add(user: User)
    | Commit
    | Rollback
    | Close

  /** What a flush leaves behind: its result, the working table and the id sequence. */
  datatype Flushed = Flushed(result: Result<User, AppError>, table: Table, nextId: nat)

  /**
   * `session.add(user)` then `flush()`: the row takes its own id or the next
   * value of the id sequence (consumed even when the insert fails), and the
   * insert is refused when the id, the username or the email is taken.
   */
  function AddSpec(t: Table, nextId: nat, user: User): (f: Flushed)
    ensures f.nextId == if user.id.Some? then nextId else nextId + 1
    ensures f.result.Success? <==>
      && (if user.id.Some? then user.id.value else nextId) !in t
      && !Taken(t, UsernameColumn, user.username) && !Taken(t, EmailColumn, user.email)
    ensures f.result.Failure? ==> f.result.error == IntegrityError && f.table == t
  {
    var key := if user.id.Some? then user.id.value else nextId;
    var next := if user.id.Some? then nextId else nextId + 1;
    if key in t || Taken(t, UsernameColumn, user.username) || Taken(t, EmailColumn, user.email) then
      Flushed(Failure(IntegrityError), t, next)
    else
      var stored := user.(id := Some(key));
      Flushed(Success(stored), t[key := stored], next)
  }

  /** A successful add returns the same user with an id, and stores it under that id. */
  lemma AddSpecAssignsId(t: Table, nextId: nat, user: User)
    requires AddSpec(t, nextId, user).result.Success?
    ensures var f := AddSpec(t, nextId, user); var stored := f.result.value;
      && stored.id.Some? && stored == user.(id := stored.id)
      && stored.id.value !in t
      && f.table == t[stored.id.value := stored]
      && (user.id.Some? ==> stored.id == user.id)
      && (user.id.None? ==> stored.id == Some(nextId))
  {
  }

  /** The store refuses a duplicate username or email and leaves the table as it was. */
  lemma AddSpecRefusesDuplicates(t: Table, nextId: nat, user: User)
    requires Taken(t, UsernameColumn, user.username) || Taken(t, EmailColumn, user.email)
    ensures AddSpec(t, nextId, user).result == Failure(IntegrityError)
    ensures AddSpec(t, nextId, user).table == t
  {
  }

  /** Adding keeps the table's key and uniqueness constraints. */
  lemma AddSpecKeepsTableValid(t: Table, nextId: nat, user: User)
    requires ValidTable(t)
    ensures ValidTable(AddSpec(t, nextId, user).table)
  {
    var f := AddSpec(t, nextId, user);
    if f.result.Success? {
      var stored := f.result.value;
      var key := stored.id.value;
      forall a | a in t ensures t[a].username != stored.username && t[a].email != stored.email {
        assert ColumnValue(t[a], UsernameColumn) != user.username;
        assert ColumnValue(t[a], EmailColumn) != user.email;
      }
    }
  }

  /** After a successful add both lookups find the new row. */
  lemma {:induction false} AddSpecThenFind(t: Table, nextId: nat, user: User)
    requires ValidTable(t)
    requires AddSpec(t, nextId, user).result.Success?
    ensures var f := AddSpec(t, nextId, user);
      && FindUser(f.table, UsernameColumn, user.username) == Some(f.result.value)
      && FindUser(f.table, EmailColumn, user.email) == Some(f.result.value)
  {
    var f := AddSpec(t, nextId, user);
    AddSpecKeepsTableValid(t, nextId, user);
    var key := f.result.value.id.value;
    FindUserUnique(f.table, UsernameColumn, user.username, key);
    FindUserUnique(f.table, EmailColumn, user.email, key);
  }

  /** The database: the committed rows and the id sequence. */
  class Database {
    var rows: Table
    var nextId: nat
    /** Whether the connection is broken, so that commit and rollback raise. */
    const failing: bool

    ghost predicate Valid()
      reads this
    {
      ValidTable(rows)
    }

    constructor (failing: bool)
      ensures Valid() && rows == map[] && nextId == 1 && this.failing == failing
    {
      rows := map[];
      nextId := 1;
      this.failing := failing;
    }
  }

  /** One transaction over the database: its working table and its call log. */
  class Session {
    const db: Database
    var pending: Table
    var log: seq<SessionOp>

    ghost predicate Valid()
      reads this, db
    {
      db.Valid() && ValidTable(pending)
    }

    /** `async_session_maker()`: a new session starts from the committed rows. */
    constructor (db: Database)
      requires db.Valid()
      ensures this.db == db && pending == db.rows && log == [] && Valid()
    {
      this.db := db;
      pending := db.rows;
      log := [];
    }

    /** `session.add(user)` followed by `session.flush()`. */
    method AddAndFlush(user: User) returns (r: Result<User, AppError>)
      requires Valid()
      modifies this, db`nextId
      ensures Valid()
      ensures Flushed(r, pending, db.nextId) == AddSpec(old(pending), old(db.nextId), user)
      ensures log == old(log) + [Add(user)]
      ensures db.rows == old(db.rows)
    {
      var f := AddSpec(pending, db.nextId, user);
      AddSpecKeepsTableValid(pending, db.nextId, user);
      r := f.result;
      pending := f.table;
      db.nextId := f.nextId;
      log := log + [Add(user)];
    }

    /** `session.execute(select(User).where(column == value))` then `scalar_one_or_none()`. */
    method SelectUser(column: Column, value: string) returns (r: Option<User>)
      requires Valid()
      modifies this`log
      ensures r == FindUser(pending, column, value)
      ensures log == old(log) + [Select(column, value)]
    {
      if id :| id in pending && ColumnValue(pending[id], column) == value {
        FindUserUnique(pending, column, value, id);
        r := Some(pending[id]);
      } else {
        r := None;
      }
      log := log + [Select(column, value)];
    }

    /** `session.commit()`: the working rows become the committed rows, unless the connection fails. */
    method CommitSession() returns (ok: bool)
      requires Valid()
      modifies this`log, db`rows
      ensures Valid()
      ensures ok == !db.failing
      ensures db.rows == if ok then pending else old(db.rows)
      ensures log == old(log) + [Commit]
    {
      ok := !db.failing;
      if ok {
        db.rows := pending;
      }
      log := log + [Commit];
    }

    /** `session.rollback()`: the working rows return to the committed rows, unless the connection fails. */
    method RollbackSession() returns (ok: bool)
      requires Valid()
      modifies this`log, this`pending
      ensures Valid()
      ensures ok == !db.failing
      ensures pending == if ok then db.rows else old(pending)
      ensures log == old(log) + [Rollback]
    {
      ok := !db.failing;
      if ok {
        pending := db.rows;
      }
      log := log + [Rollback];
    }

    /** `session.close()`: whatever was not committed is discarded. */
    method CloseSession()
      requires Valid()
      modifies this`log, this`pending
      ensures Valid()
      ensures pending == db.rows
      ensures log == old(log) + [Close]
    {
      pending := db.rows;
      log := log + [Close];
    }
  }

  /** `AlchemyUserRepository`: the three operations over the session it was built with. */
  class AlchemyUserRepository {
    const session: Session

    constructor (session: Session)
      ensures this.session == session
    {
      this.session := session;
    }

    /** `add_one`: add and flush, returning the user with its id. */
    method AddOne(user: User) returns (r: Result<User, AppError>)
      requires session.Valid()
      modifies session, session.db`nextId
      ensures session.Valid()
      ensures Flushed(r, session.pending, session.db.nextId) == AddSpec(old(session.pending), old(session.db.nextId), user)
      ensures session.log == old(session.log) + [Add(user)]
      ensures session.db.rows == old(session.db.rows)
    {
      r := session.AddAndFlush(user);
    }

    /** `get_by_username`: the row whose username equals `username` exactly, if any. */
    method GetByUsername(username: string) returns (r: Option<User>)
      requires session.Valid()
      modifies session`log
      ensures r == FindUser(session.pending, UsernameColumn, username)
      ensures session.log == old(session.log) + [Select(UsernameColumn, username)]
    {
      r := session.SelectUser(UsernameColumn, username);
    }

    /** `get_by_email`: the row whose email equals `email` exactly, if any. */
    method GetByEmail(email: string) returns (r: Option<User>)
      requires session.Valid()
      modifies session`log
      ensures r == FindUser(session.pending, EmailColumn, email)
      ensures session.log == old(session.log) + [Select(EmailColumn, email)]
    {
      r := session.SelectUser(EmailColumn, email);
    }
  }
}
