/** Users and sessions (admin_users.py, login.py, logout.py, the session middleware, the admin
    account reconciled at startup) as atomic units of work, and what every history of them
    keeps. */
module Accounts {
  import opened Wrappers
  import opened Sequences

  type Time = int
  type Hash = string

  datatype User = User(email: string, displayName: string, hash: Hash, admin: bool, disabled: bool)

  datatype Session = Session(user: nat, createdAt: Time, lastActivity: Time)

  datatype Event =
    | CreateUser(at: Time, actor: nat, target: nat)
    | UpdateUser(at: Time, actor: nat, target: nat, fields: seq<string>)
    | Login(at: Time, user: nat)
    | LoginFailed(at: Time, email: string, reason: string)
    | Logout(at: Time, user: nat)

  datatype Store = Store(users: map<nat, User>, lastId: nat, sessions: map<string, Session>, audit: seq<Event>)

  const EMPTY := Store(map[], 0, map[], [])

  /** Password verification and the email pattern are functions of their arguments; hashing is
      salted, so each fresh hash is a value of its own. */
  datatype Auth = Auth(verify: (string, Hash) -> bool, validEmail: string -> bool, idleTimeout: nat)

  datatype Error =
    | InvalidEmail | DuplicateEmail | UserNotFound | SelfProtection(field: string) | InvalidCredentials | Persistence

  datatype Reply = Created(id: nat) | Changed(fields: seq<string>) | Opened(user: nat) | Closed
                 | Anonymous | Authenticated(user: nat) | Reconciled

  /** The committed store, and what the caller gets. */
  datatype Outcome = Outcome(store: Store, reply: Result<Reply, Error>)

  datatype Op =
    | DoCreate(actor: nat, email: string, displayName: string, hash: Hash, admin: bool, disabled: bool, now: Time)
    | DoUpdate(actor: nat, target: nat, setName: Option<string>, setAdmin: Option<bool>, setDisabled: Option<bool>, now: Time)
    | DoReset(actor: nat, target: nat, hash: Hash, now: Time)
    | DoLogin(email: string, password: string, token: string, now: Time)
    | DoLogout(user: nat, token: string, now: Time)
    | DoRequest(token: string, now: Time)
    | DoReconcile(email: string, hash: Hash)

  // ---- Tables ------------------------------------------------------------------------------

  function WithEmail(s: Store, email: string): set<nat> {
    set id | id in s.users && s.users[id].email == email
  }

  /** `get_by_email`; emails are unique in every reachable store. */
  function ByEmail(s: Store, email: string): (id: Option<nat>)
    ensures id.Some? ==> id.value in s.users && s.users[id.value].email == email
    ensures id.None? ==> forall other :: other in s.users ==> s.users[other].email != email
  {
    var ids := WithEmail(s, email);
    if ids == {} then
      assert forall other :: other in s.users && s.users[other].email == email ==> other in ids;
      None
    else Some(Smallest(ids))
  }

  function Smallest(ids: set<nat>): (least: nat)
    requires ids != {}
    ensures least in ids && forall id :: id in ids ==> least <= id
  {
    SmallestExists(ids);
    var least :| least in ids && forall id :: id in ids ==> least <= id;
    least
  }

  lemma SmallestExists(ids: set<nat>)
    requires ids != {}
    ensures exists least :: least in ids && forall id :: id in ids ==> least <= id
  {
    var x :| x in ids;
    SmallestBelow(ids, x);
  }

  lemma {:induction false} SmallestBelow(ids: set<nat>, x: nat)
    requires x in ids
    ensures exists least :: least in ids && forall id :: id in ids ==> least <= id
    decreases x
  {
    if y :| y in ids && y < x {
      SmallestBelow(ids, y);
    }
  }

  function InsertUser(s: Store, u: User): Store {
    s.(users := s.users[s.lastId + 1 := u], lastId := s.lastId + 1)
  }

  /** `delete_by_user_id`. */
  function Revoke(s: Store, user: nat): Store {
    s.(sessions := map t | t in s.sessions && s.sessions[t].user != user :: s.sessions[t])
  }

  function Note(s: Store, e: Event): Store {
    s.(audit := s.audit + [e])
  }

  function Pick<T>(chosen: Option<T>, otherwise: T): T {
    if chosen.Some? then chosen.value else otherwise
  }

  // ---- Operations ----------------------------------------------------------------------------

  function Create(cfg: Auth, s: Store, actor: nat, u: User, now: Time): Outcome {
    if !cfg.validEmail(u.email) then Outcome(s, Failure(InvalidEmail))
    else if ByEmail(s, u.email).Some? then Outcome(s, Failure(DuplicateEmail))
    else
      var id := s.lastId + 1;
      Outcome(Note(InsertUser(s, u), CreateUser(now, actor, id)), Success(Created(id)))
  }

  /** The column names a request names, sorted. */
  function Mutated(displayName: Option<string>, admin: Option<bool>, disabled: Option<bool>): seq<string> {
    (if disabled.Some? then ["disabled"] else [])
    + (if displayName.Some? then ["display_name"] else [])
    + (if admin.Some? then ["is_admin"] else [])
  }

  function Changes(u: User, displayName: Option<string>, admin: Option<bool>, disabled: Option<bool>): User {
    User(u.email, Pick(displayName, u.displayName), u.hash, Pick(admin, u.admin), Pick(disabled, u.disabled))
  }

  function LosesAccess(admin: Option<bool>, disabled: Option<bool>): Option<string> {
    if admin == Some(false) then Some("is_admin")
    else if disabled == Some(true) then Some("disabled")
    else None
  }

  function Update(s: Store, actor: nat, target: nat, displayName: Option<string>, admin: Option<bool>,
                  disabled: Option<bool>, now: Time): Outcome {
    if actor == target && LosesAccess(admin, disabled).Some? then
      Outcome(s, Failure(SelfProtection(LosesAccess(admin, disabled).value)))
    else if target !in s.users then Outcome(s, Failure(UserNotFound))
    else
      var u := s.users[target];
      var u' := Changes(u, displayName, admin, disabled);
      var fields := Mutated(displayName, admin, disabled);
      var s1 := s.(users := s.users[target := u']);
      var s2 := if fields == [] then s1 else Note(s1, UpdateUser(now, actor, target, fields));
      Outcome(if disabled == Some(true) then Revoke(s2, target) else s2, Success(Changed(fields)))
  }

  function Reset(s: Store, actor: nat, target: nat, hash: Hash, now: Time): Outcome {
    if target !in s.users then Outcome(s, Failure(UserNotFound))
    else
      var s1 := s.(users := s.users[target := s.users[target].(hash := hash)]);
      Outcome(Revoke(Note(s1, UpdateUser(now, actor, target, ["password_hash"])), target),
              Success(Changed(["password_hash"])))
  }

  /** Why this login fails, if it does. */
  function Refusal(cfg: Auth, s: Store, email: string, password: string): Option<string> {
    var id := ByEmail(s, email);
    if id.None? then Some("unknown_email")
    else if s.users[id.value].disabled then Some("account_disabled")
    else if !cfg.verify(password, s.users[id.value].hash) then Some("bad_password")
    else None
  }

  /** A failed login commits its LOGIN_FAILED row and then raises. */
  function LogIn(cfg: Auth, s: Store, email: string, password: string, token: string, now: Time): Outcome {
    var refusal := Refusal(cfg, s, email, password);
    if refusal.Some? then
      Outcome(Note(s, LoginFailed(now, email, refusal.value)), Failure(InvalidCredentials))
    else if token in s.sessions then Outcome(s, Failure(Persistence))
    else
      var id := ByEmail(s, email).value;
      Outcome(Note(s, Login(now, id)).(sessions := s.sessions[token := Session(id, now, now)]), Success(Opened(id)))
  }

  function LogOut(s: Store, user: nat, token: string, now: Time): Outcome {
    Outcome(Note(s, Logout(now, user)).(sessions := s.sessions - {token}), Success(Closed))
  }

  /** The middleware: an idle session is deleted, a live one touched. */
  function Request(cfg: Auth, s: Store, token: string, now: Time): Outcome {
    if token !in s.sessions then Outcome(s, Success(Anonymous))
    else
      var session := s.sessions[token];
      if now - session.lastActivity >= cfg.idleTimeout then
        Outcome(s.(sessions := s.sessions - {token}), Success(Anonymous))
      else if now < session.createdAt then Outcome(s, Failure(Persistence))
      else Outcome(s.(sessions := s.sessions[token := session.(lastActivity := now)]),
                   Success(Authenticated(session.user)))
  }

  /** Startup: create the configured admin, or re-assert its privilege and leave its password. */
  function Reconcile(s: Store, email: string, hash: Hash): Outcome {
    var id := ByEmail(s, email);
    if id.None? then Outcome(InsertUser(s, User(email, email, hash, true, false)), Success(Reconciled))
    else Outcome(s.(users := s.users[id.value := s.users[id.value].(admin := true, disabled := false)]),
                 Success(Reconciled))
  }

  function Execute(cfg: Auth, s: Store, op: Op): Outcome {
    match op
    case DoCreate(actor, email, displayName, hash, admin, disabled, now) =>
      Create(cfg, s, actor, User(email, displayName, hash, admin, disabled), now)
    case DoUpdate(actor, target, displayName, admin, disabled, now) =>
      Update(s, actor, target, displayName, admin, disabled, now)
    case DoReset(actor, target, hash, now) => Reset(s, actor, target, hash, now)
    case DoLogin(email, password, token, now) => LogIn(cfg, s, email, password, token, now)
    case DoLogout(user, token, now) => LogOut(s, user, token, now)
    case DoRequest(token, now) => Request(cfg, s, token, now)
    case DoReconcile(email, hash) => Reconcile(s, email, hash)
  }

  // ---- Histories -------------------------------------------------------------------------------

  /** The store, and for the record the hash each token ever issued was opened against. */
  datatype History = History(store: Store, issued: map<string, Hash>)

  const NOBODY := History(EMPTY, map[])

  /** One operation. A login's token is drawn at random: it was never issued before. */
  function Step(cfg: Auth, h: History, op: Op): History {
    if op.DoLogin? && op.token in h.issued then h
    else
      var o := Execute(cfg, h.store, op);
      History(o.store,
              if op.DoLogin? && o.reply.Success? then
                h.issued[op.token := h.store.users[o.reply.value.user].hash]
              else h.issued)
  }

  function After(cfg: Auth, h: History, ops: seq<Op>): History {
    if ops == [] then h else Step(cfg, After(cfg, h, ops[..|ops| - 1]), ops[|ops| - 1])
  }

  /** A stored session belongs to an enabled user and was opened against that user's present
      password. */
  ghost predicate LiveSession(h: History, token: string)
    requires token in h.store.sessions
  {
    var session := h.store.sessions[token];
    && session.user in h.store.users && !h.store.users[session.user].disabled
    && token in h.issued && h.issued[token] == h.store.users[session.user].hash
    && session.createdAt <= session.lastActivity
  }

  ghost predicate UniqueEmails(s: Store) {
    forall a, b :: a in s.users && b in s.users && s.users[a].email == s.users[b].email ==> a == b
  }

  ghost predicate Inv(h: History) {
    && (forall id :: id in h.store.users ==> 1 <= id <= h.store.lastId)
    && UniqueEmails(h.store)
    && (forall token :: token in h.store.sessions ==> LiveSession(h, token))
  }

  lemma LoginLive(cfg: Auth, h: History, op: Op)
    requires Inv(h) && op.DoLogin?
    ensures Inv(Step(cfg, h, op))
  {
    var h' := Step(cfg, h, op);
    forall token | token in h'.store.sessions
      ensures LiveSession(h', token)
    {
      if token in h.store.sessions {
        assert LiveSession(h, token);
      }
    }
  }

  /** The sessions that are left still fit their users. */
  ghost predicate Fits(s: Store, s': Store) {
    forall token :: token in s'.sessions ==>
      && token in s.sessions && s'.sessions[token].user == s.sessions[token].user
      && s'.sessions[token].createdAt <= s'.sessions[token].lastActivity
      && var user := s.sessions[token].user;
         user in s.users && user in s'.users && s'.users[user].hash == s.users[user].hash && !s'.users[user].disabled
  }

  lemma FitsLive(h: History, h': History)
    requires Inv(h) && h'.issued == h.issued && Fits(h.store, h'.store)
    requires UniqueEmails(h'.store) && forall id :: id in h'.store.users ==> 1 <= id <= h'.store.lastId
    ensures Inv(h')
  {
    forall token | token in h'.store.sessions
      ensures LiveSession(h', token)
    {
      assert token in h.store.sessions && LiveSession(h, token);
    }
  }

  /** Users keep their ids and emails. */
  lemma EmailsKept(s: Store, s': Store)
    requires UniqueEmails(s) && s'.users.Keys == s.users.Keys && s'.lastId == s.lastId
    requires forall id :: id in s.users ==> 1 <= id <= s.lastId
    requires forall id :: id in s.users ==> s'.users[id].email == s.users[id].email
    ensures UniqueEmails(s') && forall id :: id in s'.users ==> 1 <= id <= s'.lastId
  {
  }

  lemma InvFits(h: History)
    requires Inv(h)
    ensures Fits(h.store, h.store)
  {
    assert forall token :: token in h.store.sessions ==> LiveSession(h, token);
  }

  lemma UpdateFits(s: Store, actor: nat, target: nat, displayName: Option<string>, admin: Option<bool>,
                   disabled: Option<bool>, now: Time)
    requires Fits(s, s)
    ensures Fits(s, Update(s, actor, target, displayName, admin, disabled, now).store)
  {
  }

  lemma ResetFits(s: Store, actor: nat, target: nat, hash: Hash, now: Time)
    requires Fits(s, s)
    ensures Fits(s, Reset(s, actor, target, hash, now).store)
  {
  }

  lemma RequestFits(cfg: Auth, s: Store, token: string, now: Time)
    requires Fits(s, s)
    ensures Fits(s, Request(cfg, s, token, now).store)
  {
  }

  lemma ReconcileFits(s: Store, email: string, hash: Hash)
    requires Fits(s, s) && forall id :: id in s.users ==> 1 <= id <= s.lastId
    ensures Fits(s, Reconcile(s, email, hash).store)
  {
  }

  lemma CreateFits(cfg: Auth, s: Store, actor: nat, u: User, now: Time)
    requires Fits(s, s) && forall id :: id in s.users ==> 1 <= id <= s.lastId
    ensures Fits(s, Create(cfg, s, actor, u, now).store)
  {
  }

  /** What is left of the sessions fits, whatever the operation. */
  lemma OpFits(cfg: Auth, h: History, op: Op)
    requires Inv(h) && !op.DoLogin?
    ensures Fits(h.store, Execute(cfg, h.store, op).store)
  {
    InvFits(h);
    match op
    case DoCreate(actor, email, displayName, hash, admin, disabled, now) =>
      CreateFits(cfg, h.store, actor, User(email, displayName, hash, admin, disabled), now);
    case DoUpdate(actor, target, displayName, admin, disabled, now) =>
      UpdateFits(h.store, actor, target, displayName, admin, disabled, now);
    case DoReset(actor, target, hash, now) => ResetFits(h.store, actor, target, hash, now);
    case DoLogout(_, _, _) =>
    case DoRequest(token, now) => RequestFits(cfg, h.store, token, now);
    case DoReconcile(email, hash) => ReconcileFits(h.store, email, hash);
    case _ =>
  }

  ghost predicate IdsInRange(s: Store) {
    forall id :: id in s.users ==> 1 <= id <= s.lastId
  }

  lemma InsertKeepsKeys(s: Store, u: User)
    requires UniqueEmails(s) && IdsInRange(s) && ByEmail(s, u.email).None?
    ensures UniqueEmails(InsertUser(s, u)) && IdsInRange(InsertUser(s, u))
  {
  }

  lemma ReconcileKeepsKeys(s: Store, email: string, hash: Hash)
    requires UniqueEmails(s) && IdsInRange(s)
    ensures UniqueEmails(Reconcile(s, email, hash).store) && IdsInRange(Reconcile(s, email, hash).store)
  {
    if ByEmail(s, email).None? {
      InsertKeepsKeys(s, User(email, email, hash, true, false));
    } else {
      EmailsKept(s, Reconcile(s, email, hash).store);
    }
  }

  lemma CreateKeepsKeys(cfg: Auth, s: Store, actor: nat, u: User, now: Time)
    requires UniqueEmails(s) && IdsInRange(s)
    ensures UniqueEmails(Create(cfg, s, actor, u, now).store) && IdsInRange(Create(cfg, s, actor, u, now).store)
  {
    if ByEmail(s, u.email).None? {
      InsertKeepsKeys(s, u);
    }
  }

  /** A user is added under a fresh id and email, or users keep their ids and emails. */
  lemma KeysKept(cfg: Auth, s: Store, op: Op)
    requires UniqueEmails(s) && IdsInRange(s) && !op.DoLogin?
    ensures UniqueEmails(Execute(cfg, s, op).store) && IdsInRange(Execute(cfg, s, op).store)
  {
    match op
    case DoCreate(actor, email, displayName, hash, admin, disabled, now) =>
      CreateKeepsKeys(cfg, s, actor, User(email, displayName, hash, admin, disabled), now);
    case DoReconcile(email, hash) => ReconcileKeepsKeys(s, email, hash);
    case _ => EmailsKept(s, Execute(cfg, s, op).store);
  }

  lemma StepKeeps(cfg: Auth, h: History, op: Op)
    requires Inv(h)
    ensures Inv(Step(cfg, h, op))
  {
    if op.DoLogin? {
      LoginLive(cfg, h, op);
    } else {
      OpFits(cfg, h, op);
      KeysKept(cfg, h.store, op);
      FitsLive(h, Step(cfg, h, op));
    }
  }

  lemma {:induction false} InvHolds(cfg: Auth, ops: seq<Op>)
    ensures Inv(After(cfg, NOBODY, ops))
  {
    if ops != [] {
      var n := |ops| - 1;
      InvHolds(cfg, ops[..n]);
      StepKeeps(cfg, After(cfg, NOBODY, ops[..n]), ops[n]);
    }
  }

  /** After any operations, every stored session belongs to an enabled user and was opened
      against that user's present password hash. */
  lemma SessionsAreCurrent(cfg: Auth, ops: seq<Op>, token: string)
    requires token in After(cfg, NOBODY, ops).store.sessions
    ensures LiveSession(After(cfg, NOBODY, ops), token)
  {
    InvHolds(cfg, ops);
  }

  // ---- Revocation is final -----------------------------------------------------------------------

  ghost predicate Gone(h: History, token: string) {
    token in h.issued && token !in h.store.sessions
  }

  lemma {:induction false} StaysGone(cfg: Auth, h: History, ops: seq<Op>, token: string)
    requires Gone(h, token)
    ensures Gone(After(cfg, h, ops), token)
  {
    if ops != [] {
      StaysGone(cfg, h, ops[..|ops| - 1], token);
    }
  }

  /** Disabling an account or resetting its password ends every session it ever opened before:
      no later request with such a token is authenticated. */
  lemma RevocationIsFinal(cfg: Auth, before: seq<Op>, op: Op, further: seq<Op>, token: string, now: Time)
    requires (op.DoUpdate? && op.setDisabled == Some(true)) || op.DoReset?
    requires var h := After(cfg, NOBODY, before);
             && Execute(cfg, h.store, op).reply.Success?
             && token in h.issued
             && (token in h.store.sessions ==> h.store.sessions[token].user == op.target)
    ensures var h' := After(cfg, Step(cfg, After(cfg, NOBODY, before), op), further);
            Request(cfg, h'.store, token, now).reply == Success(Anonymous)
  {
    StaysGone(cfg, Step(cfg, After(cfg, NOBODY, before), op), further, token);
  }

  // ---- Logins ------------------------------------------------------------------------------------

  function FailureOf(): Event -> Option<string> {
    (e: Event) => if e.LoginFailed? then Some(e.email) else None
  }

  /** The emails of the LOGIN_FAILED rows, oldest first. */
  function Failures(audit: seq<Event>): seq<string> {
    Collect(audit, FailureOf())
  }

  /** Some enabled account with this email has this password. */
  ghost predicate CredentialsHold(cfg: Auth, s: Store, email: string, password: string) {
    exists id :: id in s.users && s.users[id].email == email && !s.users[id].disabled
      && cfg.verify(password, s.users[id].hash)
  }

  lemma RefusedUnlessCredentialsHold(cfg: Auth, s: Store, email: string, password: string)
    requires UniqueEmails(s)
    ensures Refusal(cfg, s, email, password).None? <==> CredentialsHold(cfg, s, email, password)
  {
    if id :| id in s.users && s.users[id].email == email {
      assert ByEmail(s, email) == Some(id);
    }
  }

  /** A login is accepted exactly for an enabled account whose password verifies; a refused one
      commits exactly one LOGIN_FAILED row and no session, although it raises. */
  lemma LoginOutcome(cfg: Auth, s: Store, email: string, password: string, token: string, now: Time)
    requires UniqueEmails(s) && token !in s.sessions
    ensures var o := LogIn(cfg, s, email, password, token, now);
            && (o.reply.Success? <==> CredentialsHold(cfg, s, email, password))
            && (o.reply.Failure? ==>
                  && o.reply.error == InvalidCredentials
                  && Failures(o.store.audit) == Failures(s.audit) + [email]
                  && o.store.sessions == s.sessions && o.store.users == s.users)
            && (o.reply.Success? ==>
                  && Failures(o.store.audit) == Failures(s.audit)
                  && o.store.sessions.Keys == s.sessions.Keys + {token})
  {
    RefusedUnlessCredentialsHold(cfg, s, email, password);
    var refusal := Refusal(cfg, s, email, password);
    if refusal.Some? {
      CollectAppend(s.audit, LoginFailed(now, email, refusal.value), FailureOf());
    } else {
      CollectAppend(s.audit, Login(now, ByEmail(s, email).value), FailureOf());
    }
  }

  // ---- What each operation changes ---------------------------------------------------------------

  ghost predicate OtherUsersKept(s: Store, s': Store, id: nat) {
    forall other: nat :: other != id ==>
      && (other in s.users <==> other in s'.users) && (other in s.users ==> s'.users[other] == s.users[other])
  }

  ghost predicate OtherSessionsKept(s: Store, s': Store, token: string) {
    forall other: string :: other != token ==>
      && (other in s.sessions <==> other in s'.sessions) && (other in s.sessions ==> s'.sessions[other] == s.sessions[other])
  }

  /** The sessions left are those of everyone else. */
  ghost predicate RevokedOf(s: Store, s': Store, user: nat) {
    && (forall token: string :: token in s'.sessions <==> token in s.sessions && s.sessions[token].user != user)
    && (forall token: string :: token in s'.sessions ==> s'.sessions[token] == s.sessions[token])
  }

  /** A reset finds its user or changes nothing; the user then has the new hash, no other column and
      no other user has changed, and the user's sessions are gone. */
  lemma ResetExact(s: Store, actor: nat, target: nat, hash: Hash, now: Time)
    ensures var o := Reset(s, actor, target, hash, now);
            && (o.reply.Success? <==> target in s.users)
            && (o.reply.Failure? ==> o.reply.error == UserNotFound && o.store == s)
            && (o.reply.Success? ==>
                  && o.reply.value == Changed(["password_hash"])
                  && target in o.store.users && OtherUsersKept(s, o.store, target) && o.store.lastId == s.lastId
                  && var u, u' := s.users[target], o.store.users[target];
                     && u'.hash == hash && u'.email == u.email && u'.displayName == u.displayName
                     && u'.admin == u.admin && u'.disabled == u.disabled
                     && RevokedOf(s, o.store, target)
                     && o.store.audit == s.audit + [UpdateUser(now, actor, target, ["password_hash"])])
  {
  }

  /** After a reset, a login with the user's email and a password is accepted exactly when the user
      is enabled and the password verifies against the new hash. */
  lemma ResetChangesPassword(cfg: Auth, s: Store, actor: nat, target: nat, hash: Hash, now: Time,
                             password: string, token: string, at: Time)
    requires UniqueEmails(s) && target in s.users
    requires token !in Reset(s, actor, target, hash, now).store.sessions
    ensures var s' := Reset(s, actor, target, hash, now).store;
            LogIn(cfg, s', s.users[target].email, password, token, at).reply.Success?
            <==> !s.users[target].disabled && cfg.verify(password, hash)
  {
    var s' := Reset(s, actor, target, hash, now).store;
    ResetExact(s, actor, target, hash, now);
    forall a, b | a in s'.users && b in s'.users && s'.users[a].email == s'.users[b].email
      ensures a == b
    {
      assert s'.users[a].email == s.users[a].email && s'.users[b].email == s.users[b].email;
    }
    LoginOutcome(cfg, s', s.users[target].email, password, token, at);
    if CredentialsHold(cfg, s', s.users[target].email, password) {
      var id :| id in s'.users && s'.users[id].email == s.users[target].email && !s'.users[id].disabled
        && cfg.verify(password, s'.users[id].hash);
      assert s'.users[target].email == s'.users[id].email;
    }
  }

  /** The column was asked for and has the value asked for, or was not and is as it was. */
  predicate Assigned<T(==)>(asked: Option<T>, was: T, now: T) {
    match asked
    case Some(value) => now == value
    case None => now == was
  }

  /** The columns asked for, in alphabetical order. */
  ghost predicate NamesFields(fields: seq<string>, displayName: Option<string>, admin: Option<bool>, disabled: Option<bool>) {
    && (forall c :: c in fields <==>
          || (c == "display_name" && displayName.Some?)
          || (c == "is_admin" && admin.Some?)
          || (c == "disabled" && disabled.Some?))
    && forall i, j :: 0 <= i < j < |fields| ==> StringLess(fields[i], fields[j])
  }

  lemma MutatedNames(displayName: Option<string>, admin: Option<bool>, disabled: Option<bool>)
    ensures NamesFields(Mutated(displayName, admin, disabled), displayName, admin, disabled)
  {
    FieldOrder();
  }

  lemma FieldOrder()
    ensures StringLess("disabled", "display_name") && !StringLess("display_name", "disabled")
    ensures StringLess("disabled", "is_admin") && !StringLess("is_admin", "disabled")
    ensures StringLess("display_name", "is_admin") && !StringLess("is_admin", "display_name")
  {
    assert "disabled"[1..] == "isabled" && "display_name"[1..] == "isplay_name";
    assert "isabled"[1..] == "sabled" && "isplay_name"[1..] == "splay_name";
    assert "sabled"[1..] == "abled" && "splay_name"[1..] == "play_name";
  }

  /** An update is refused to someone taking their own privilege or access, naming which, and for a
      user that is not there. Accepted, it gives each column asked for its value and leaves the
      rest alone, records the columns unless there are none, and ends the user's sessions
      exactly when it disables. */
  lemma UpdateExact(s: Store, actor: nat, target: nat, displayName: Option<string>, admin: Option<bool>,
                    disabled: Option<bool>, now: Time)
    ensures var o := Update(s, actor, target, displayName, admin, disabled, now);
            match o.reply
            case Failure(SelfProtection(field)) =>
              && actor == target && o.store == s
              && ((admin == Some(false) && field == "is_admin")
                  || (admin != Some(false) && disabled == Some(true) && field == "disabled"))
            case Failure(e) =>
              e == UserNotFound && target !in s.users && o.store == s
              && !(actor == target && (admin == Some(false) || disabled == Some(true)))
            case Success(Changed(fields)) =>
              && target in s.users && !(actor == target && (admin == Some(false) || disabled == Some(true)))
              && target in o.store.users && OtherUsersKept(s, o.store, target) && o.store.lastId == s.lastId
              && (var u, u' := s.users[target], o.store.users[target];
                  && u'.email == u.email && u'.hash == u.hash && Assigned(displayName, u.displayName, u'.displayName)
                  && Assigned(admin, u.admin, u'.admin) && Assigned(disabled, u.disabled, u'.disabled))
              && NamesFields(fields, displayName, admin, disabled)
              && o.store.audit == (if fields == [] then s.audit else s.audit + [UpdateUser(now, actor, target, fields)])
              && (if disabled == Some(true) then RevokedOf(s, o.store, target) else o.store.sessions == s.sessions)
            case Success(_) => false
  {
    MutatedNames(displayName, admin, disabled);
  }

  /** A user is created exactly when the email is well formed and nobody has it; the new user is as
      asked for, under a new id, and nothing else changes. */
  lemma CreateExact(cfg: Auth, s: Store, actor: nat, u: User, now: Time)
    requires IdsInRange(s)
    ensures var o := Create(cfg, s, actor, u, now);
            var taken := exists id :: id in s.users && s.users[id].email == u.email;
            match o.reply
            case Failure(e) =>
              o.store == s && (if cfg.validEmail(u.email) then e == DuplicateEmail && taken else e == InvalidEmail)
            case Success(Created(id)) =>
              && cfg.validEmail(u.email) && !taken && id !in s.users
              && id in o.store.users && o.store.users[id] == u && OtherUsersKept(s, o.store, id)
              && o.store.lastId == id && o.store.sessions == s.sessions
              && o.store.audit == s.audit + [CreateUser(now, actor, id)]
            case Success(_) => false
  {
    if ByEmail(s, u.email).Some? {
      assert s.users[ByEmail(s, u.email).value].email == u.email;
    }
  }

  /** The user with this email, and why it cannot log in with this password. */
  predicate RefusedFor(cfg: Auth, s: Store, email: string, password: string, reason: string) {
    || (reason == "unknown_email" && forall id :: id in s.users ==> s.users[id].email != email)
    || (exists id :: id in s.users && s.users[id].email == email &&
          ( || (reason == "account_disabled" && s.users[id].disabled)
            || (reason == "bad_password" && !s.users[id].disabled && !cfg.verify(password, s.users[id].hash))))
  }

  /** A login opens one session, of the user with that email, or records why it was refused; users
      and other sessions stay as they are. */
  lemma LoginExact(cfg: Auth, s: Store, email: string, password: string, token: string, now: Time)
    requires token !in s.sessions
    ensures var o := LogIn(cfg, s, email, password, token, now);
            && o.store.users == s.users && o.store.lastId == s.lastId
            && match o.reply
               case Success(Opened(id)) =>
                 && id in s.users && s.users[id].email == email && !s.users[id].disabled && cfg.verify(password, s.users[id].hash)
                 && token in o.store.sessions && o.store.sessions[token] == Session(id, now, now)
                 && OtherSessionsKept(s, o.store, token) && o.store.audit == s.audit + [Login(now, id)]
               case Failure(e) =>
                 && e == InvalidCredentials && o.store.sessions == s.sessions
                 && exists reason :: RefusedFor(cfg, s, email, password, reason)
                      && o.store.audit == s.audit + [LoginFailed(now, email, reason)]
               case Success(_) => false
  {
    var refusal := Refusal(cfg, s, email, password);
    if refusal.Some? {
      var id := ByEmail(s, email);
      assert id.Some? ==> s.users[id.value].email == email;
      assert RefusedFor(cfg, s, email, password, refusal.value);
    }
  }

  lemma LogoutExact(s: Store, user: nat, token: string, now: Time)
    ensures var o := LogOut(s, user, token, now);
            && o.reply == Success(Closed) && o.store.users == s.users && o.store.lastId == s.lastId
            && token !in o.store.sessions && OtherSessionsKept(s, o.store, token)
            && o.store.audit == s.audit + [Logout(now, user)]
  {
  }

  /** A request with a live token is authenticated as the session's user and refreshes it, one with
      an idle token loses its session, and any other changes nothing. */
  lemma RequestExact(cfg: Auth, s: Store, token: string, now: Time)
    ensures var o := Request(cfg, s, token, now);
            && o.store.users == s.users && o.store.lastId == s.lastId && o.store.audit == s.audit
            && OtherSessionsKept(s, o.store, token)
            && if token !in s.sessions then o.reply == Success(Anonymous) && token !in o.store.sessions
               else
                 var session := s.sessions[token];
                 if session.lastActivity + cfg.idleTimeout <= now then
                   o.reply == Success(Anonymous) && token !in o.store.sessions
                 else if now < session.createdAt then o.reply == Failure(Persistence) && o.store == s
                 else
                   && o.reply == Success(Authenticated(session.user)) && token in o.store.sessions
                   && o.store.sessions[token] == Session(session.user, session.createdAt, now)
  {
  }

  /** Reconciling leaves an enabled administrator with the configured email: the one there was, with
      its password and name, or a new one. */
  lemma ReconcileExact(s: Store, email: string, hash: Hash)
    requires IdsInRange(s)
    ensures var o := Reconcile(s, email, hash);
            && o.reply == Success(Reconciled) && o.store.sessions == s.sessions && o.store.audit == s.audit
            && exists id ::
                 && id in o.store.users && OtherUsersKept(s, o.store, id)
                 && o.store.users[id].email == email && o.store.users[id].admin && !o.store.users[id].disabled
                 && if id in s.users then
                      && s.users[id].email == email && o.store.lastId == s.lastId
                      && o.store.users[id].hash == s.users[id].hash && o.store.users[id].displayName == s.users[id].displayName
                    else
                      && (forall other :: other in s.users ==> s.users[other].email != email) && o.store.lastId == id
                      && o.store.users[id].hash == hash && o.store.users[id].displayName == email
  {
    var o, known := Reconcile(s, email, hash), ByEmail(s, email);
    var id := if known.Some? then known.value else s.lastId + 1;
    assert id in o.store.users;
  }

  // ---- The audit trail of account changes ----------------------------------------------------------

  function UpdateOf(user: nat): Event -> Option<seq<string>> {
    (e: Event) => if e.UpdateUser? && e.target == user then Some(e.fields) else None
  }

  /** The field lists of the user's UPDATE_USER rows, oldest first. */
  function Updates(audit: seq<Event>, user: nat): seq<seq<string>> {
    Collect(audit, UpdateOf(user))
  }

  /** The columns in which two rows of a user differ. */
  function Differing(u: User, u': User): set<string> {
    (if u.email != u'.email then {"email"} else {})
    + (if u.displayName != u'.displayName then {"display_name"} else {})
    + (if u.hash != u'.hash then {"password_hash"} else {})
    + (if u.admin != u'.admin then {"is_admin"} else {})
    + (if u.disabled != u'.disabled then {"disabled"} else {})
  }

  /** The user's row is as it was, or one new UPDATE_USER row names every column changed. */
  ghost predicate Audited(s: Store, s': Store, user: nat)
    requires user in s.users
  {
    && user in s'.users
    && (s'.users[user] == s.users[user] || exists fields :: AuditedAs(s, s', user, fields))
  }

  predicate AuditedAs(s: Store, s': Store, user: nat, fields: seq<string>)
    requires user in s.users && user in s'.users
  {
    && Updates(s'.audit, user) == Updates(s.audit, user) + [fields]
    && forall c :: c in Differing(s.users[user], s'.users[user]) ==> c in fields
  }

  lemma ChangesAreNamed(u: User, displayName: Option<string>, admin: Option<bool>, disabled: Option<bool>)
    ensures forall c :: c in Differing(u, Changes(u, displayName, admin, disabled)) ==>
              c in Mutated(displayName, admin, disabled)
  {
  }

  lemma UpdateAudited(s: Store, actor: nat, target: nat, displayName: Option<string>, admin: Option<bool>,
                      disabled: Option<bool>, now: Time)
    requires target in s.users
    ensures Audited(s, Update(s, actor, target, displayName, admin, disabled, now).store, target)
  {
    var s' := Update(s, actor, target, displayName, admin, disabled, now).store;
    if s'.users[target] != s.users[target] {
      var fields := Mutated(displayName, admin, disabled);
      CollectAppend(s.audit, UpdateUser(now, actor, target, fields), UpdateOf(target));
      ChangesAreNamed(s.users[target], displayName, admin, disabled);
      assert s'.audit == s.audit + [UpdateUser(now, actor, target, fields)];
      assert AuditedAs(s, s', target, fields);
    }
  }

  lemma ResetAudited(s: Store, actor: nat, target: nat, hash: Hash, now: Time)
    requires target in s.users
    ensures Audited(s, Reset(s, actor, target, hash, now).store, target)
  {
    var s' := Reset(s, actor, target, hash, now).store;
    CollectAppend(s.audit, UpdateUser(now, actor, target, ["password_hash"]), UpdateOf(target));
    assert AuditedAs(s, s', target, ["password_hash"]);
  }

  predicate Targets(op: Op, user: nat) {
    (op.DoUpdate? || op.DoReset?) && op.target == user
  }

  lemma OthersUnchanged(cfg: Auth, s: Store, op: Op, user: nat)
    requires !op.DoReconcile? && user in s.users && user <= s.lastId && !Targets(op, user)
    ensures var s' := Execute(cfg, s, op).store; user in s'.users && s'.users[user] == s.users[user]
  {
  }

  /** No operation but the startup reconciliation changes a user's row without exactly one
      UPDATE_USER row for that user naming every column changed, and only its target's row. */
  lemma ChangesAreAudited(cfg: Auth, s: Store, op: Op, user: nat)
    requires !op.DoReconcile? && user in s.users && user <= s.lastId
    ensures var s' := Execute(cfg, s, op).store;
            && Audited(s, s', user)
            && (s'.users[user] != s.users[user] ==> Targets(op, user))
  {
    if !Targets(op, user) {
      OthersUnchanged(cfg, s, op, user);
    } else if op.DoUpdate? {
      UpdateAudited(s, op.actor, op.target, op.setName, op.setAdmin, op.setDisabled, op.now);
    } else {
      ResetAudited(s, op.actor, op.target, op.hash, op.now);
    }
  }

  // ---- Administrators ------------------------------------------------------------------------------

  predicate EnabledAdmin(s: Store, id: nat) {
    id in s.users && s.users[id].admin && !s.users[id].disabled
  }

  ghost predicate HasAdmin(s: Store) {
    exists id :: EnabledAdmin(s, id)
  }

  /** An administrative operation is performed by someone who is an enabled administrator. */
  predicate Authorised(s: Store, op: Op) {
    op.DoCreate? || op.DoUpdate? || op.DoReset? ==> EnabledAdmin(s, op.actor)
  }

  /** The update that locks everyone out: it takes privilege or access from the only enabled
      administrator, on behalf of someone else. */
  ghost predicate DemotesLast(s: Store, op: Op) {
    && op.DoUpdate? && op.actor != op.target && LosesAccess(op.setAdmin, op.setDisabled).Some?
    && EnabledAdmin(s, op.target)
    && forall id :: EnabledAdmin(s, id) ==> id == op.target
  }

  /** An administrator who is not the target of such an update stays one. */
  lemma StaysAdmin(cfg: Auth, h: History, op: Op, id: nat)
    requires EnabledAdmin(h.store, id) && id <= h.store.lastId
    requires !(op.DoUpdate? && op.actor != op.target && op.target == id && LosesAccess(op.setAdmin, op.setDisabled).Some?)
    ensures EnabledAdmin(Step(cfg, h, op).store, id)
  {
  }

  lemma DemotedIsLocked(cfg: Auth, h: History, op: Op)
    requires DemotesLast(h.store, op)
    ensures !HasAdmin(Step(cfg, h, op).store)
  {
    var s' := Step(cfg, h, op).store;
    forall id
      ensures !EnabledAdmin(s', id)
    {
      assert id != op.target ==> (EnabledAdmin(s', id) <==> EnabledAdmin(h.store, id));
    }
  }

  /** The last administrator is lost exactly by such an update. */
  lemma LastAdminLost(cfg: Auth, h: History, op: Op)
    requires Inv(h) && HasAdmin(h.store)
    ensures HasAdmin(Step(cfg, h, op).store) <==> !DemotesLast(h.store, op)
  {
    if DemotesLast(h.store, op) {
      DemotedIsLocked(cfg, h, op);
    } else {
      var id :| EnabledAdmin(h.store, id);
      if op.DoUpdate? && op.target == id && exists other :: EnabledAdmin(h.store, other) && other != id {
        var other :| EnabledAdmin(h.store, other) && other != id;
        StaysAdmin(cfg, h, op, other);
      } else {
        StaysAdmin(cfg, h, op, id);
      }
    }
  }

  /** There is an enabled administrator after each of the operations. */
  ghost predicate AdminThroughout(cfg: Auth, h: History, ops: seq<Op>) {
    HasAdmin(After(cfg, h, ops).store) && (ops == [] || AdminThroughout(cfg, h, ops[..|ops| - 1]))
  }

  /** None of the operations met a store in which it took the last one. */
  ghost predicate NeverDemotesLast(cfg: Auth, h: History, ops: seq<Op>) {
    ops == [] ||
    (&& NeverDemotesLast(cfg, h, ops[..|ops| - 1])
     && !DemotesLast(After(cfg, h, ops[..|ops| - 1]).store, ops[|ops| - 1]))
  }

  /** Over any history that starts with an administrator, there is one throughout exactly when
      no update took the last one. */
  lemma {:induction false} AdminThroughoutIff(cfg: Auth, h: History, ops: seq<Op>)
    requires Inv(h) && HasAdmin(h.store)
    ensures Inv(After(cfg, h, ops))
    ensures AdminThroughout(cfg, h, ops) <==> NeverDemotesLast(cfg, h, ops)
  {
    if ops != [] {
      var n := |ops| - 1;
      AdminThroughoutIff(cfg, h, ops[..n]);
      var before := After(cfg, h, ops[..n]);
      StepKeeps(cfg, before, ops[n]);
      if AdminThroughout(cfg, h, ops[..n]) {
        LastAdminLost(cfg, before, ops[n]);
      }
    }
  }

  ghost predicate AllAuthorised(cfg: Auth, h: History, ops: seq<Op>) {
    ops == [] ||
    (AllAuthorised(cfg, h, ops[..|ops| - 1]) && Authorised(After(cfg, h, ops[..|ops| - 1]).store, ops[|ops| - 1]))
  }

  /** An operation whose actor still is an enabled administrator never takes the last one: that
      would be the actor itself, whom self-protection keeps. */
  lemma {:induction false} AuthorisedNeverDemotes(cfg: Auth, h: History, ops: seq<Op>)
    requires AllAuthorised(cfg, h, ops)
    ensures NeverDemotesLast(cfg, h, ops)
  {
    if ops != [] {
      AuthorisedNeverDemotes(cfg, h, ops[..|ops| - 1]);
    }
  }

  lemma ReconciledHasAdmin(cfg: Auth, email: string, hash: Hash)
    ensures var h := Step(cfg, NOBODY, DoReconcile(email, hash)); Inv(h) && HasAdmin(h.store)
  {
    StepKeeps(cfg, NOBODY, DoReconcile(email, hash));
    assert EnabledAdmin(Step(cfg, NOBODY, DoReconcile(email, hash)).store, 1);
  }

  /** Once the configured admin account is reconciled, there is an enabled administrator
      throughout exactly when no update takes the last one; in particular when every
      administrative operation commits while its actor still is one. */
  lemma NeverLockedOut(cfg: Auth, email: string, hash: Hash, ops: seq<Op>)
    ensures var first := Step(cfg, NOBODY, DoReconcile(email, hash));
            && (AdminThroughout(cfg, first, ops) <==> NeverDemotesLast(cfg, first, ops))
            && (AllAuthorised(cfg, first, ops) ==> AdminThroughout(cfg, first, ops))
  {
    var first := Step(cfg, NOBODY, DoReconcile(email, hash));
    ReconciledHasAdmin(cfg, email, hash);
    AdminThroughoutIff(cfg, first, ops);
    if AllAuthorised(cfg, first, ops) {
      AuthorisedNeverDemotes(cfg, first, ops);
    }
  }

  /** The actor's privilege is checked by the route, before the operation's unit of work. Of two
      administrators each authorised when asking, both can end up disabled by the other. */
  lemma MutualLockout(cfg: Auth, h: History, a: nat, b: nat, now: Time)
    requires a != b && EnabledAdmin(h.store, a) && EnabledAdmin(h.store, b)
    requires forall id :: EnabledAdmin(h.store, id) ==> id == a || id == b
    ensures var first := DoUpdate(a, b, None, None, Some(true), now);
            var second := DoUpdate(b, a, None, None, Some(true), now);
            && Authorised(h.store, first) && Authorised(h.store, second)
            && !HasAdmin(Step(cfg, Step(cfg, h, first), second).store)
  {
    var h1 := Step(cfg, h, DoUpdate(a, b, None, None, Some(true), now));
    var h2 := Step(cfg, h1, DoUpdate(b, a, None, None, Some(true), now));
    forall id
      ensures !EnabledAdmin(h2.store, id)
    {
      assert EnabledAdmin(h2.store, id) ==> EnabledAdmin(h.store, id);
    }
  }
}
