/**
 * `UserService` (app/api/services/user_service.py): registration and
 * authentication, each inside one Unit of Work. Each method is specified
 * by a function of the committed table that gives its outcome, the calls
 * the session sees, and the table and id sequence it leaves; the lemmas
 * below state what those functions promise.
 */
module UserService {
  import opened Values
  import opened Exceptions
  import opened Security
  import opened Models
  import opened Repository
  import opened UnitOfWork

  /** One run of a service call: what the caller sees, the session's calls, and the database after. */
  datatype Run<+T> = Run(result: Result<T, AppError>, log: seq<SessionOp>, rows: Table, nextId: nat)

  /** Where the body of `async with self.uow` leaves off: its outcome, the session's calls, the working table and the id sequence. */
  datatype Scoped<+T> = Scoped(outcome: Result<T, AppError>, log: seq<SessionOp>, working: Table, nextId: nat)

  /**
   * Leaving `async with self.uow` with `outcome`: a raised outcome rolls back
   * and keeps the committed rows, a returned one commits the working rows.
   * When commit or rollback raises, that exception replaces the outcome.
   */
  function LeaveScope<T>(outcome: Result<T, AppError>, log: seq<SessionOp>, committed: Table, working: Table, nextId: nat, failing: bool): (r: Run<T>)
    ensures r.result.Success? <==> outcome.Success? && !failing
    ensures outcome.Failure? && !failing ==> r.result == outcome
    ensures failing ==> r.result == Failure(SessionError)
    ensures r.rows == if r.result.Success? then working else committed
    ensures r.log == log + ExitOps(outcome.Failure?, failing) && r.nextId == nextId
  {
    var ops := log + ExitOps(outcome.Failure?, failing);
    if failing then Run(Failure(SessionError), ops, committed, nextId)
    else if outcome.Failure? then Run(outcome, ops, committed, nextId)
    else Run(outcome, ops, working, nextId)
  }

  /**
   * Leaving the scope with commit and rollback as written (never awaited):
   * nothing raises, only close reaches the session, and it discards the
   * working rows.
   */
  function LeaveScopeAsWritten<T>(outcome: Result<T, AppError>, log: seq<SessionOp>, committed: Table, nextId: nat): (r: Run<T>)
    ensures r.result == outcome && r.rows == committed
    ensures |r.log| == |log| + 1 && r.log[..|log|] == log && r.log[|log|] == Close
  {
    Run(outcome, log + [Close], committed, nextId)
  }

  /** The body of `register_user`'s `async with`, over working table `rows` and id sequence `nextId`. */
  function RegisterScope(rows: Table, nextId: nat, user: UserCreate, h: Hasher): (b: Scoped<UserReturn>)
    ensures b.outcome.Success? ==> b.outcome.value == UserReturn(user.username, user.email)
    ensures b.outcome.Failure? ==> b.working == rows
    ensures |b.log| > 0 && b.log[0] == Select(UsernameColumn, user.username)
  {
    var byName := [Select(UsernameColumn, user.username)];
    if Taken(rows, UsernameColumn, user.username) then
      Scoped(Failure(UniqueFieldException("username", user.username)), byName, rows, nextId)
    else
      var lookups := byName + [Select(EmailColumn, user.email)];
      if Taken(rows, EmailColumn, user.email) then
        Scoped(Failure(UniqueFieldException("email", user.email)), lookups, rows, nextId)
      else
        var model := FromSchema(user, h);
        var added := AddSpec(rows, nextId, model);
        var log := lookups + [Add(model)];
        match added.result
        case Success(stored) => Scoped(Success(ToReturn(stored)), log, added.table, added.nextId)
        case Failure(e) => Scoped(Failure(e), log, added.table, added.nextId)
  }

  /** `register_user`, from committed rows `rows` and id sequence `nextId`, with commit and rollback awaited. */
  function RegisterSpec(rows: Table, nextId: nat, failing: bool, user: UserCreate, h: Hasher): (r: Run<UserReturn>)
    ensures r.result.Success? ==> r.result.value == UserReturn(user.username, user.email)
    ensures r.result.Failure? ==> r.rows == rows
  {
    var b := RegisterScope(rows, nextId, user, h);
    LeaveScope(b.outcome, b.log, rows, b.working, b.nextId, failing)
  }

  /** `register_user` as written: the same body, left with the unawaited commit and rollback. */
  function RegisterSpecAsWritten(rows: Table, nextId: nat, user: UserCreate, h: Hasher): (r: Run<UserReturn>)
    ensures r.rows == rows
    ensures r.result == RegisterScope(rows, nextId, user, h).outcome
  {
    var b := RegisterScope(rows, nextId, user, h);
    LeaveScopeAsWritten(b.outcome, b.log, rows, b.nextId)
  }

  /** `authenticate_user`, from committed rows `rows`: the lookup runs in the scope, the check after it. */
  ghost function AuthenticateSpec(rows: Table, nextId: nat, failing: bool, username: string, password: string, h: Hasher): (r: Run<string>)
    ensures r.rows == rows && r.nextId == nextId
    ensures r.result.Success? ==> r.result.value == Lower(username)
  {
    var name := Lower(username);
    var found := FindUser(rows, UsernameColumn, name);
    var left := LeaveScope(Success(()), [Select(UsernameColumn, name)], rows, rows, nextId, failing);
    var result :=
      if left.result.Failure? then Failure(left.result.error)
      else if found.Some? && VerifyPassword(h, password, found.value.hashedPassword) then Success(found.value.username)
      else Failure(UserUnauthorisedException(None));
    Run(result, left.log, left.rows, left.nextId)
  }

  class UserService {
    const uow: UserUnitOfWork

    constructor (uow: UserUnitOfWork)
      ensures this.uow == uow
    {
      this.uow := uow;
    }

    /** The body of `register_user`'s `async with`: the two lookups, then the add. */
    method RegisterInScope(user: UserCreate, h: Hasher) returns (outcome: Result<UserReturn, AppError>)
      requires uow.Bound() && uow.session.Valid()
      modifies uow.session, uow.sessionFactory`nextId
      ensures uow.session.Valid()
      ensures uow.sessionFactory.rows == old(uow.sessionFactory.rows)
      ensures var b := RegisterScope(old(uow.session.pending), old(uow.sessionFactory.nextId), user, h);
        && outcome == b.outcome && uow.session.log == old(uow.session.log) + b.log
        && uow.session.pending == b.working && uow.sessionFactory.nextId == b.nextId
    {
      var repo := uow.userRepo;
      var byName := repo.GetByUsername(user.username);
      if byName.Some? {
        outcome := Failure(UniqueFieldException("username", user.username));
      } else {
        var byEmail := repo.GetByEmail(user.email);
        if byEmail.Some? {
          outcome := Failure(UniqueFieldException("email", user.email));
        } else {
          var model := repo.AddOne(FromSchema(user, h));
          match model
          case Success(stored) => outcome := Success(ToReturn(stored));
          case Failure(e) => outcome := Failure(e);
        }
      }
    }

    /** `register_user` with commit and rollback awaited. */
    method RegisterUser(user: UserCreate, h: Hasher) returns (r: Result<UserReturn, AppError>)
      requires uow.sessionFactory.Valid()
      modifies uow, uow.sessionFactory
      ensures uow.sessionFactory.Valid()
      ensures uow.Bound() && fresh(uow.session)
      ensures Run(r, uow.session.log, uow.sessionFactory.rows, uow.sessionFactory.nextId)
           == RegisterSpec(old(uow.sessionFactory.rows), old(uow.sessionFactory.nextId), uow.sessionFactory.failing, user, h)
    {
      var db := uow.sessionFactory;
      ghost var rows, nextId := db.rows, db.nextId;
      var self := uow.Enter();
      var session := uow.session;
      var outcome := RegisterInScope(user, h);
      ghost var log, working, next := session.log, session.pending, db.nextId;
      var exitError := uow.Exit(if outcome.Failure? then Some(outcome.error) else None);
      r := if exitError.Some? then Failure(exitError.value) else outcome;
      assert Run(r, session.log, db.rows, db.nextId) == LeaveScope(outcome, log, rows, working, next, db.failing);
    }

    /** `register_user` as written, leaving the scope through the unawaited commit and rollback. */
    method RegisterUserAsWritten(user: UserCreate, h: Hasher) returns (r: Result<UserReturn, AppError>)
      requires uow.sessionFactory.Valid()
      modifies uow, uow.sessionFactory
      ensures uow.sessionFactory.Valid()
      ensures uow.Bound() && fresh(uow.session)
      ensures Run(r, uow.session.log, uow.sessionFactory.rows, uow.sessionFactory.nextId)
           == RegisterSpecAsWritten(old(uow.sessionFactory.rows), old(uow.sessionFactory.nextId), user, h)
    {
      var db := uow.sessionFactory;
      ghost var rows, nextId := db.rows, db.nextId;
      var self := uow.Enter();
      var session := uow.session;
      var outcome := RegisterInScope(user, h);
      ghost var log, next := session.log, db.nextId;
      var _ := uow.ExitAsWritten(if outcome.Failure? then Some(outcome.error) else None);
      r := outcome;
      assert Run(r, session.log, db.rows, db.nextId) == LeaveScopeAsWritten(outcome, log, rows, next);
    }

    method AuthenticateUser(username: string, password: string, h: Hasher) returns (r: Result<string, AppError>)
      requires uow.sessionFactory.Valid()
      modifies uow, uow.sessionFactory
      ensures uow.sessionFactory.Valid()
      ensures uow.Bound() && fresh(uow.session)
      ensures Run(r, uow.session.log, uow.sessionFactory.rows, uow.sessionFactory.nextId)
           == AuthenticateSpec(old(uow.sessionFactory.rows), old(uow.sessionFactory.nextId), uow.sessionFactory.failing, username, password, h)
    {
      var self := uow.Enter();
      var user := uow.userRepo.GetByUsername(Lower(username));
      var exitError := uow.Exit(None);
      if exitError.Some? {
        r := Failure(exitError.value);
      } else if user.Some? && VerifyPassword(h, password, user.value.hashedPassword) {
        r := Success(user.value.username);
      } else {
        r := Failure(UserUnauthorisedException(None));
      }
    }
  }

  // ------------------------------------------------------------ registration

  /** A taken username fails with the username conflict, whatever the email; nothing else is looked up or added. */
  lemma RegisterRejectsTakenUsername(rows: Table, nextId: nat, user: UserCreate, h: Hasher)
    requires Taken(rows, UsernameColumn, user.username)
    ensures var run := RegisterSpec(rows, nextId, false, user, h);
      && run.result == Failure(UniqueFieldException("username", user.username))
      && run.log == [Select(UsernameColumn, user.username), Rollback, Close]
      && run.rows == rows && run.nextId == nextId
  {
  }

  /** A free username with a taken email fails with the email conflict; nothing is added. */
  lemma RegisterRejectsTakenEmail(rows: Table, nextId: nat, user: UserCreate, h: Hasher)
    requires !Taken(rows, UsernameColumn, user.username)
    requires Taken(rows, EmailColumn, user.email)
    ensures var run := RegisterSpec(rows, nextId, false, user, h);
      && run.result == Failure(UniqueFieldException("email", user.email))
      && run.log == [Select(UsernameColumn, user.username), Select(EmailColumn, user.email), Rollback, Close]
      && run.rows == rows && run.nextId == nextId
  {
  }

  /**
   * A registration that returns hands back the input's username and email
   * (no password, no hash), after both lookups and exactly one add, and
   * commits: the new committed table holds the row with the password's hash,
   * and both lookups find it.
   */
  lemma {:induction false} RegisterSuccess(rows: Table, nextId: nat, failing: bool, user: UserCreate, h: Hasher)
    requires ValidTable(rows)
    requires RegisterSpec(rows, nextId, failing, user, h).result.Success?
    ensures var run := RegisterSpec(rows, nextId, failing, user, h);
      && !failing
      && run.result.value == UserReturn(user.username, user.email)
      && run.log == [Select(UsernameColumn, user.username), Select(EmailColumn, user.email),
                     Add(FromSchema(user, h)), Commit, Close]
      && ValidTable(run.rows)
      && FindUser(run.rows, UsernameColumn, user.username) == FindUser(run.rows, EmailColumn, user.email)
      && FindUser(run.rows, UsernameColumn, user.username).Some?
      && FindUser(run.rows, UsernameColumn, user.username).value.hashedPassword == GetPasswordHash(h, user.password)
  {
    var model := FromSchema(user, h);
    AddSpecKeepsTableValid(rows, nextId, model);
    AddSpecThenFind(rows, nextId, model);
  }

  /** With both fields free and the next id unused, registration succeeds unless the connection fails. */
  lemma {:induction false} RegisterFreshUserSucceeds(rows: Table, nextId: nat, user: UserCreate, h: Hasher)
    requires !Taken(rows, UsernameColumn, user.username) && !Taken(rows, EmailColumn, user.email)
    requires nextId !in rows
    ensures RegisterSpec(rows, nextId, false, user, h).result == Success(UserReturn(user.username, user.email))
  {
  }

  /**
   * Every failure inside the scope leaves by the rollback path: no commit,
   * the committed rows unchanged; close follows unless the rollback itself failed.
   */
  lemma {:induction false} RegisterFailureRollsBack(rows: Table, nextId: nat, failing: bool, user: UserCreate, h: Hasher)
    requires RegisterSpec(rows, nextId, failing, user, h).result.Failure?
    requires RegisterSpec(rows, nextId, failing, user, h).result != Failure(SessionError)
    ensures var run := RegisterSpec(rows, nextId, failing, user, h);
      && Rollback in run.log && Commit !in run.log
      && run.log[|run.log| - 1] == Close
      && run.rows == rows
  {
  }

  /** Registration keeps the table's constraints. */
  lemma {:induction false} RegisterKeepsTableValid(rows: Table, nextId: nat, failing: bool, user: UserCreate, h: Hasher)
    requires ValidTable(rows)
    ensures ValidTable(RegisterSpec(rows, nextId, failing, user, h).rows)
  {
    AddSpecKeepsTableValid(rows, nextId, FromSchema(user, h));
  }

  /** The username is stored as given: registration does no lowercasing. */
  lemma {:induction false} RegisterStoresNameAsGiven(rows: Table, nextId: nat, failing: bool, user: UserCreate, h: Hasher)
    requires ValidTable(rows)
    requires RegisterSpec(rows, nextId, failing, user, h).result.Success?
    ensures Taken(RegisterSpec(rows, nextId, failing, user, h).rows, UsernameColumn, user.username)
  {
    RegisterSuccess(rows, nextId, failing, user, h);
  }

  // ---------------------------------------------------------- authentication

  /** Authentication looks up the lowercased name exactly once, commits and closes, and leaves the rows as they were. */
  lemma AuthenticateLooksUpLowercasedOnce(rows: Table, nextId: nat, username: string, password: string, h: Hasher)
    ensures var run := AuthenticateSpec(rows, nextId, false, username, password, h);
      && run.log == [Select(UsernameColumn, Lower(username)), Commit, Close]
      && run.rows == rows && run.nextId == nextId
  {
  }

  /** It returns the stored name exactly when a user was found and the password verifies; otherwise UserUnauthorisedException. */
  lemma AuthenticateSucceedsIff(rows: Table, nextId: nat, username: string, password: string, h: Hasher)
    ensures var run := AuthenticateSpec(rows, nextId, false, username, password, h);
      var found := FindUser(rows, UsernameColumn, Lower(username));
      && (run.result.Success? <==> found.Some? && VerifyPassword(h, password, found.value.hashedPassword))
      && (run.result.Success? ==> run.result.value == Lower(username))
      && (run.result.Failure? ==> run.result.error == UserUnauthorisedException(None))
  {
  }

  /** With no such user the verifier cannot matter: it is never consulted. */
  lemma AuthenticateSkipsVerifyWithoutUser(rows: Table, nextId: nat, failing: bool, username: string, password: string, h1: Hasher, h2: Hasher)
    requires !Taken(rows, UsernameColumn, Lower(username))
    ensures AuthenticateSpec(rows, nextId, failing, username, password, h1)
         == AuthenticateSpec(rows, nextId, failing, username, password, h2)
    ensures AuthenticateSpec(rows, nextId, failing, username, password, h1).result.Failure?
  {
  }

  // ------------------------------------------------------ registration, then login

  /**
   * The service relies on its input being normalised: registration stores
   * the name exactly as given, and login looks up the lowercased name, so a
   * UserCreate that bypassed the schema's lowercasing (here "Alex") is
   * stored but cannot log in under its own name and password.
   */
  lemma UnnormalisedNameCannotLogIn(h: Hasher)
    requires SoundHasher(h)
    ensures var user := UserCreate("Alex", "Alex@example.com", "Valid1!x");
      var reg := RegisterSpec(map[], 1, false, user, h);
      && reg.result == Success(UserReturn("Alex", "Alex@example.com"))
      && AuthenticateSpec(reg.rows, reg.nextId, false, "Alex", "Valid1!x", h).result
         == Failure(UserUnauthorisedException(None))
  {
    var user := UserCreate("Alex", "Alex@example.com", "Valid1!x");
    var reg := RegisterSpec(map[], 1, false, user, h);
    var stored := User(Some(1), "Alex", "Alex@example.com", GetPasswordHash(h, "Valid1!x"));
    assert reg.rows == map[1 := stored];
    assert Lower("Alex")[0] == 'a';
    assert !Taken(reg.rows, UsernameColumn, Lower("Alex"));
  }

  /**
   * Register, then log in: after registering a schema-built UserCreate, the
   * same password with any capitalisation of the name authenticates, and
   * returns the stored (lowercased) name.
   */
  lemma {:induction false} RegisterThenLogIn(rows: Table, nextId: nat, username: string, email: string, password: string, login: string, h: Hasher)
    requires SoundHasher(h) && ValidTable(rows)
    requires Lower(login) == Lower(username)
    requires RegisterSpec(rows, nextId, false, SchemaUserCreate(username, email, password), h).result.Success?
    ensures var reg := RegisterSpec(rows, nextId, false, SchemaUserCreate(username, email, password), h);
      && reg.result.value == UserReturn(Lower(username), Lower(email))
      && AuthenticateSpec(reg.rows, reg.nextId, false, login, password, h).result == Success(Lower(username))
  {
    RegisterSuccess(rows, nextId, false, SchemaUserCreate(username, email, password), h);
  }

  /**
   * Registration as written reports success for a fresh user, but the
   * unawaited commit never reaches the session and close discards the
   * flushed row: the committed table is unchanged, the user is not in it,
   * and logging in with the same name and password fails.
   */
  lemma {:induction false} RegisterAsWrittenLosesUser(rows: Table, nextId: nat, user: UserCreate, h: Hasher)
    requires ValidTable(rows) && Lower(user.username) == user.username
    requires !Taken(rows, UsernameColumn, user.username) && !Taken(rows, EmailColumn, user.email)
    requires nextId !in rows
    ensures var reg := RegisterSpecAsWritten(rows, nextId, user, h);
      && reg.result == Success(UserReturn(user.username, user.email))
      && Commit !in reg.log
      && reg.rows == rows && !Taken(reg.rows, UsernameColumn, user.username)
      && AuthenticateSpec(reg.rows, reg.nextId, false, user.username, user.password, h).result
         == Failure(UserUnauthorisedException(None))
  {
    var b := RegisterScope(rows, nextId, user, h);
    assert b.log == [Select(UsernameColumn, user.username), Select(EmailColumn, user.email), Add(FromSchema(user, h))];
    assert RegisterSpecAsWritten(rows, nextId, user, h).log == b.log + [Close];
  }
}
