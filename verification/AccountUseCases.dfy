/** The account use cases statement by statement. Each commits exactly what module Accounts
    says, or fails with the database and commits nothing. The exceptions are where the program
    commits on its own: a refused login keeps its audit row although it raises, and the session
    middleware deletes and touches sessions with commits of its own. */
module AccountUseCases {
  import opened Wrappers
  import opened Sequences
  import opened Accounts
  import opened UnitOfWork

  /** The caller's answer and the durable store agree with `o`, or an operation on the database
      failed and nothing was committed. */
  ghost predicate Performed(before: Store, after: Store, o: Outcome, r: Result<Reply, Error>, faulty: bool) {
    || (r == o.reply && after == o.store)
    || (r == Failure(Persistence) && after == before && faulty)
  }

  /** One INSERT, UPDATE or DELETE, which may raise. */
  method Write(conn: Connection<Store>, next: Store) returns (ok: bool)
    modifies conn`working, conn`faults
    ensures conn.working == if ok then next else old(conn.working)
    ensures conn.faults == old(conn.faults) + if ok then 0 else 1
  {
    ok := Query(conn);
    if ok {
      conn.working := next;
    }
  }

  // ---- Login -----------------------------------------------------------------------------------

  /** `_audit_failure` and the explicit commit, before the exception leaves the block. */
  method AuditFailure(uow: SqliteUnitOfWork<Store>, event: Event) returns (ok: bool)
    requires uow.Valid() && uow.Open() && uow.conn.inTransaction
    modifies uow, uow.conn, uow.mutex
    ensures uow.Valid() && (uow.Open() || uow.Finalized())
    ensures ok ==> uow.Finalized() && !uow.mutex.held && uow.conn.committed == Note(old(uow.conn.working), event)
    ensures !ok ==>
              uow.Open() && uow.conn.committed == old(uow.conn.committed) && uow.conn.faults == old(uow.conn.faults) + 1
    ensures old(uow.conn.faults) <= uow.conn.faults
  {
    ok := Write(uow.conn, Note(uow.conn.working, event));
    if ok {
      var done := uow.Commit();
      ok := done.Success?;
    }
  }

  /** A refused login raises inside the block, yet its LOGIN_FAILED row is durable. */
  method DoLogin(cfg: Auth, conn: Connection<Store>, mutex: Lock, email: string, password: string, token: string, now: Time)
    returns (r: Result<Reply, Error>)
    requires conn.Valid() && mutex.Valid() && !mutex.held
    modifies conn, mutex
    ensures conn.Valid() && mutex.Valid() && !mutex.held
    ensures Performed(old(conn.committed), conn.committed, LogIn(cfg, old(conn.committed), email, password, token, now), r,
                      old(conn.faults) < conn.faults)
  {
    var uow := new SqliteUnitOfWork(conn, mutex);
    var begun := uow.Enter();
    if begun.Failure? {
      return Failure(Persistence);
    }
    var id := ByEmail(conn.working, email);
    var reason: Option<string> := None;
    if id.None? {
      reason := Some("unknown_email");
    } else if conn.working.users[id.value].disabled {
      reason := Some("account_disabled");
    } else if !cfg.verify(password, conn.working.users[id.value].hash) {
      reason := Some("bad_password");
    }
    if reason.Some? {
      var audited := AuditFailure(uow, LoginFailed(now, email, reason.value));
      var _ := uow.Exit(true);
      return Failure(if audited then InvalidCredentials else Persistence);
    }
    var ok := Write(conn, Note(conn.working, Login(now, id.value)));
    if ok && token in conn.working.sessions {
      ok := false;
    }
    if ok {
      ok := Write(conn, conn.working.(sessions := conn.working.sessions[token := Session(id.value, now, now)]));
    }
    var left := uow.Exit(!ok);
    return if ok && left.Success? then Success(Opened(id.value)) else Failure(Persistence);
  }

  // ---- Administration ------------------------------------------------------------------------------

  method CreateUser(cfg: Auth, conn: Connection<Store>, mutex: Lock, actor: nat, u: User, now: Time)
    returns (r: Result<Reply, Error>)
    requires conn.Valid() && mutex.Valid() && !mutex.held
    modifies conn, mutex
    ensures conn.Valid() && mutex.Valid() && !mutex.held
    ensures Performed(old(conn.committed), conn.committed, Create(cfg, old(conn.committed), actor, u, now), r,
                      old(conn.faults) < conn.faults)
  {
    if !cfg.validEmail(u.email) {
      return Failure(InvalidEmail);
    }
    var uow := new SqliteUnitOfWork(conn, mutex);
    var begun := uow.Enter();
    if begun.Failure? {
      return Failure(Persistence);
    }
    if ByEmail(conn.working, u.email).Some? {
      // The UNIQUE constraint refuses the insert.
      var _ := uow.Exit(true);
      return Failure(DuplicateEmail);
    }
    var ok := Write(conn, InsertUser(conn.working, u));
    var id := conn.working.lastId;
    if ok {
      ok := Write(conn, Note(conn.working, Event.CreateUser(now, actor, id)));
    }
    var left := uow.Exit(!ok);
    return if ok && left.Success? then Success(Created(id)) else Failure(Persistence);
  }

  function Appended(displayName: Option<string>, admin: Option<bool>, disabled: Option<bool>): seq<string> {
    (if displayName.Some? then ["display_name"] else [])
    + (if admin.Some? then ["is_admin"] else [])
    + (if disabled.Some? then ["disabled"] else [])
  }

  /** The list the program appends to and then sorts. */
  method NamedFields(displayName: Option<string>, admin: Option<bool>, disabled: Option<bool>)
    returns (mutated: seq<string>)
    ensures mutated == Mutated(displayName, admin, disabled)
  {
    mutated := [];
    if displayName.Some? {
      mutated := mutated + ["display_name"];
    }
    if admin.Some? {
      mutated := mutated + ["is_admin"];
    }
    if disabled.Some? {
      mutated := mutated + ["disabled"];
    }
    assert mutated == Appended(displayName, admin, disabled);
    SortedFields(displayName, admin, disabled);
    mutated := Sort(mutated, Alphabetical());
  }

  lemma SortedFields(displayName: Option<string>, admin: Option<bool>, disabled: Option<bool>)
    ensures Sort(Appended(displayName, admin, disabled), Alphabetical()) == Mutated(displayName, admin, disabled)
  {
    var appended, sorted := Appended(displayName, admin, disabled), Mutated(displayName, admin, disabled);
    SortMembers(appended, Alphabetical());
    AlphabeticalTotal(appended);
    SortOrdered(appended, Alphabetical());
    AlphabeticalTotal(sorted);
    assert multiset(sorted) == multiset(appended);
    FieldsAscend(displayName, admin, disabled);
    OrderedUnique(sorted, Sort(appended, Alphabetical()), Alphabetical());
  }

  lemma FieldsAscend(displayName: Option<string>, admin: Option<bool>, disabled: Option<bool>)
    ensures Ordered(Mutated(displayName, admin, disabled), Alphabetical())
  {
    FieldOrder();
    var fields := Mutated(displayName, admin, disabled);
    forall i, j | 0 <= i < j < |fields|
      ensures !Alphabetical()(fields[j], fields[i])
    {
    }
  }

  method UpdateUser(conn: Connection<Store>, mutex: Lock, actor: nat, target: nat, displayName: Option<string>,
                    admin: Option<bool>, disabled: Option<bool>, now: Time)
    returns (r: Result<Reply, Error>)
    requires conn.Valid() && mutex.Valid() && !mutex.held
    modifies conn, mutex
    ensures conn.Valid() && mutex.Valid() && !mutex.held
    ensures Performed(old(conn.committed), conn.committed,
                      Update(old(conn.committed), actor, target, displayName, admin, disabled, now), r,
                      old(conn.faults) < conn.faults)
  {
    if actor == target {
      var attempted := None;
      if admin == Some(false) {
        attempted := Some("is_admin");
      } else if disabled == Some(true) {
        attempted := Some("disabled");
      }
      if attempted.Some? {
        return Failure(SelfProtection(attempted.value));
      }
    }
    var mutated := NamedFields(displayName, admin, disabled);
    var uow := new SqliteUnitOfWork(conn, mutex);
    var begun := uow.Enter();
    if begun.Failure? {
      return Failure(Persistence);
    }
    if target !in conn.working.users {
      var _ := uow.Exit(true);
      return Failure(UserNotFound);
    }
    var u := conn.working.users[target];
    var u' := Changes(u, displayName, admin, disabled);
    var ok := Write(conn, conn.working.(users := conn.working.users[target := u']));
    if ok && mutated != [] {
      ok := Write(conn, Note(conn.working, Event.UpdateUser(now, actor, target, mutated)));
    }
    if ok && disabled == Some(true) {
      ok := Write(conn, Revoke(conn.working, target));
    }
    var left := uow.Exit(!ok);
    return if ok && left.Success? then Success(Changed(mutated)) else Failure(Persistence);
  }

  method ResetPassword(conn: Connection<Store>, mutex: Lock, actor: nat, target: nat, hash: Hash, now: Time)
    returns (r: Result<Reply, Error>)
    requires conn.Valid() && mutex.Valid() && !mutex.held
    modifies conn, mutex
    ensures conn.Valid() && mutex.Valid() && !mutex.held
    ensures Performed(old(conn.committed), conn.committed, Reset(old(conn.committed), actor, target, hash, now), r,
                      old(conn.faults) < conn.faults)
    ensures r.Success? ==>
              && target in conn.committed.users && conn.committed.users[target].hash == hash
              && OtherUsersKept(old(conn.committed), conn.committed, target)
              && RevokedOf(old(conn.committed), conn.committed, target)
  {
    ResetExact(conn.committed, actor, target, hash, now);
    var uow := new SqliteUnitOfWork(conn, mutex);
    var begun := uow.Enter();
    if begun.Failure? {
      return Failure(Persistence);
    }
    if target !in conn.working.users {
      var _ := uow.Exit(true);
      return Failure(UserNotFound);
    }
    var u := conn.working.users[target];
    var ok := Write(conn, conn.working.(users := conn.working.users[target := u.(hash := hash)]));
    if ok {
      ok := Write(conn, Note(conn.working, Event.UpdateUser(now, actor, target, ["password_hash"])));
    }
    if ok {
      ok := Write(conn, Revoke(conn.working, target));
    }
    var left := uow.Exit(!ok);
    return if ok && left.Success? then Success(Changed(["password_hash"])) else Failure(Persistence);
  }

  // ---- Sessions ------------------------------------------------------------------------------------

  method DoLogout(conn: Connection<Store>, mutex: Lock, user: nat, token: string, now: Time) returns (r: Result<Reply, Error>)
    requires conn.Valid() && mutex.Valid() && !mutex.held
    modifies conn, mutex
    ensures conn.Valid() && mutex.Valid() && !mutex.held
    ensures Performed(old(conn.committed), conn.committed, LogOut(old(conn.committed), user, token, now), r,
                      old(conn.faults) < conn.faults)
  {
    var uow := new SqliteUnitOfWork(conn, mutex);
    var begun := uow.Enter();
    if begun.Failure? {
      return Failure(Persistence);
    }
    var ok := Write(conn, Note(conn.working, Logout(now, user)));
    if ok {
      ok := Write(conn, conn.working.(sessions := conn.working.sessions - {token}));
    }
    var left := uow.Exit(!ok);
    return if ok && left.Success? then Success(Closed) else Failure(Persistence);
  }

  /** The middleware's block; it returns from inside, after an explicit commit. */
  method Authenticate(cfg: Auth, conn: Connection<Store>, mutex: Lock, token: string, now: Time)
    returns (r: Result<Reply, Error>)
    requires conn.Valid() && mutex.Valid() && !mutex.held
    modifies conn, mutex
    ensures conn.Valid() && mutex.Valid() && !mutex.held
    ensures Performed(old(conn.committed), conn.committed, Request(cfg, old(conn.committed), token, now), r,
                      old(conn.faults) < conn.faults)
  {
    var uow := new SqliteUnitOfWork(conn, mutex);
    var begun := uow.Enter();
    if begun.Failure? {
      return Failure(Persistence);
    }
    if token !in conn.working.sessions {
      var left := uow.Exit(false);
      return if left.Success? then Success(Anonymous) else Failure(Persistence);
    }
    var session := conn.working.sessions[token];
    var elapsed := now - session.lastActivity;
    if elapsed >= cfg.idleTimeout {
      var deleted := Write(conn, conn.working.(sessions := conn.working.sessions - {token}));
      if deleted {
        var done := uow.Commit();
        deleted := done.Success?;
      }
      var _ := uow.Exit(!deleted);
      return if deleted then Success(Anonymous) else Failure(Persistence);
    }
    // The CHECK on last_activity_at refuses a touch dated before the session.
    var touched := now >= session.createdAt;
    if touched {
      touched := Write(conn, conn.working.(sessions := conn.working.sessions[token := session.(lastActivity := now)]));
    }
    if touched {
      var done := uow.Commit();
      touched := done.Success?;
    }
    var _ := uow.Exit(!touched);
    return if touched then Success(Authenticated(session.user)) else Failure(Persistence);
  }

  method ReconcileAdmin(conn: Connection<Store>, mutex: Lock, email: string, hash: Hash) returns (r: Result<Reply, Error>)
    requires conn.Valid() && mutex.Valid() && !mutex.held
    modifies conn, mutex
    ensures conn.Valid() && mutex.Valid() && !mutex.held
    ensures Performed(old(conn.committed), conn.committed, Reconcile(old(conn.committed), email, hash), r,
                      old(conn.faults) < conn.faults)
  {
    var uow := new SqliteUnitOfWork(conn, mutex);
    var begun := uow.Enter();
    if begun.Failure? {
      return Failure(Persistence);
    }
    var existing := ByEmail(conn.working, email);
    var ok;
    if existing.None? {
      ok := Write(conn, InsertUser(conn.working, User(email, email, hash, true, false)));
    } else {
      var u := conn.working.users[existing.value];
      ok := Write(conn, conn.working.(users := conn.working.users[existing.value := u.(admin := true, disabled := false)]));
    }
    if ok {
      var done := uow.Commit();
      ok := done.Success?;
    }
    var _ := uow.Exit(!ok);
    return if ok then Success(Reconciled) else Failure(Persistence);
  }
}
