/**
 * `UserUnitOfWork` (app/api/db/UoW.py): entering opens a session from the
 * factory and binds a repository to it; leaving rolls back when the body
 * raised and commits otherwise, then closes the session. There is no
 * `finally`: when commit or rollback raises, close is not reached.
 * CommitWork, RollbackWork and Exit await the session's commit and
 * rollback; the AsWritten methods model the calls as written, unawaited.
 */
module UnitOfWork {
  import opened Values
  import opened Exceptions
  import opened Models
  import opened Repository

  class UserUnitOfWork {
    /** `async_session_maker`: every session it makes works on this database. */
    const sessionFactory: Database
    var session: Session?
    var userRepo: AlchemyUserRepository?

    constructor (sessionFactory: Database)
      ensures this.sessionFactory == sessionFactory && session == null && userRepo == null
    {
      this.sessionFactory := sessionFactory;
      session := null;
      userRepo := null;
    }

    /** Entered: a session of this factory, and the repository bound to it. */
    ghost predicate Bound()
      reads this, userRepo
    {
      && session != null && userRepo != null
      && userRepo.session == session
      && session.db == sessionFactory
    }

    /** `__aenter__`: one new session, one repository over it; returns the Unit of Work itself. */
    method Enter() returns (self: UserUnitOfWork)
      requires sessionFactory.Valid()
      modifies this
      ensures self == this && Bound()
      ensures fresh(session) && fresh(userRepo)
      ensures session.Valid() && session.pending == sessionFactory.rows && session.log == []
    {
      session := new Session(sessionFactory);
      userRepo := new AlchemyUserRepository(session);
      self := this;
    }

    /** `commit`, awaiting the session's commit; a failing commit raises SessionError. */
    method CommitWork() returns (err: Option<AppError>)
      requires Bound() && session.Valid()
      modifies session`log, sessionFactory`rows
      ensures session.Valid()
      ensures err == if sessionFactory.failing then Some(SessionError) else None
      ensures sessionFactory.rows == if err.None? then session.pending else old(sessionFactory.rows)
      ensures session.log == old(session.log) + [Commit]
    {
      var ok := session.CommitSession();
      err := if ok then None else Some(SessionError);
    }

    /** `rollback`, awaiting the session's rollback; a failing rollback raises SessionError. */
    method RollbackWork() returns (err: Option<AppError>)
      requires Bound() && session.Valid()
      modifies session`log, session`pending
      ensures session.Valid()
      ensures err == if sessionFactory.failing then Some(SessionError) else None
      ensures session.pending == if err.None? then sessionFactory.rows else old(session.pending)
      ensures session.log == old(session.log) + [Rollback]
    {
      var ok := session.RollbackSession();
      err := if ok then None else Some(SessionError);
    }

    /**
     * `__aexit__`: `raised` is the exception leaving the body, if any. The
     * result is the exception `__aexit__` itself raises; it returns None, so
     * it never suppresses `raised`.
     */
    method Exit(raised: Option<AppError>) returns (err: Option<AppError>)
      requires Bound() && session.Valid()
      modifies session`log, session`pending, sessionFactory`rows
      ensures session.Valid()
      ensures err == if sessionFactory.failing then Some(SessionError) else None
      ensures raised.Some? ==> sessionFactory.rows == old(sessionFactory.rows)
      ensures raised.None? ==> sessionFactory.rows == if err.None? then old(session.pending) else old(sessionFactory.rows)
      ensures session.log == old(session.log) + ExitOps(raised.Some?, sessionFactory.failing)
    {
      if raised.Some? {
        err := RollbackWork();
      } else {
        err := CommitWork();
      }
      if err.None? {
        session.CloseSession();
      }
    }

    /**
     * `commit` as written: `self.session.commit()` is called without
     * `await`, so the coroutine it returns never runs. The session is not
     * touched and nothing can fail.
     */
    method CommitWorkAsWritten() returns (err: Option<AppError>)
      ensures err.None?
    {
      err := None;
    }

    /** `rollback` as written: the un-awaited `self.session.rollback()` never runs either. */
    method RollbackWorkAsWritten() returns (err: Option<AppError>)
      ensures err.None?
    {
      err := None;
    }

    /**
     * `__aexit__` over the methods as written: neither commit nor rollback
     * reaches the session, so close is always reached and discards the
     * flushed rows; the committed rows never change.
     */
    method ExitAsWritten(raised: Option<AppError>) returns (err: Option<AppError>)
      requires Bound() && session.Valid()
      modifies session`log, session`pending
      ensures session.Valid()
      ensures err.None?
      ensures sessionFactory.rows == old(sessionFactory.rows)
      ensures session.pending == sessionFactory.rows
      ensures session.log == old(session.log) + [Close]
    {
      if raised.Some? {
        err := RollbackWorkAsWritten();
      } else {
        err := CommitWorkAsWritten();
      }
      session.CloseSession();
    }
  }

  /** The calls `__aexit__` makes on the session: rollback or commit, then close only if that returned. */
  function ExitOps(raised: bool, failing: bool): (ops: seq<SessionOp>)
    ensures |ops| == (if failing then 1 else 2)
    ensures ops[0] == (if raised then Rollback else Commit)
    ensures !failing ==> ops[1] == Close
    ensures Rollback in ops <==> raised
    ensures Commit in ops <==> !raised
    ensures Close in ops <==> !failing
  {
    var step := if raised then Rollback else Commit;
    if failing then [step] else [step, Close]
  }
}
