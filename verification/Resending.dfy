/** The manual resend: the run's frozen content again, to whoever is subscribed now, and one
    RESEND_REPORT row; the run itself is never touched. Others commit wherever the program awaits,
    so the contract names the store the resend was accepted in and the store its row was added to.
    Module Delivery states what all histories with such resends keep. */
module Resending {
  import opened Wrappers
  import opened RunStates
  import opened Database
  import opened Transactions
  import opened AuditReplay
  import opened Assembly
  import opened EmailContent
  import opened Lifecycle
  import opened Delivery
  import opened UnitOfWork
  import opened Statements
  import opened DeliveryTask
  import Acceptance

  predicate Resendable(s: RunState) {
    s.Sent? || s.Failed?
  }

  /** The audit unit of work. */
  method RecordResend(conn: Connection<Db>, mutex: Lock, run: string, outcome: AuditOutcome, recipients: nat, now: Time)
    returns (ok: bool)
    requires conn.Valid() && mutex.Valid() && !mutex.held
    modifies conn, mutex
    ensures conn.Valid() && mutex.Valid() && !mutex.held
    ensures conn.committed == if ok then ResendTx(old(conn.committed), run, outcome, recipients, now)
                              else old(conn.committed)
    ensures old(conn.faults) <= conn.faults && (!ok ==> old(conn.faults) < conn.faults)
  {
    var uow := new SqliteUnitOfWork(conn, mutex);
    var begun := uow.Enter();
    if begun.Failure? {
      return false;
    }
    ok := RecordAudit(conn, ResendReport(now, run, outcome, recipients));
    var left := uow.Exit(!ok);
    ok := ok && left.Success?;
  }

  /** A resend fails if the content cannot be rendered or the mailer refuses it, and succeeds if
      the mailer takes it or nobody is subscribed. */
  ghost predicate ResendVerdict(cfg: Rendering, start: Db, run: string, m: Mailing, outcome: AuditOutcome, recipients: nat) {
    || (exists e, reason :: CannotRender(cfg, start, run, e) && Translated(e, reason) && NotAsked(m)
          && outcome == OutcomeFailure && recipients == 0)
    || ((exists email :: IsEmailOf(cfg, start, run, email)) && m.subscribed == 0 && NotAsked(m)
        && outcome == OutcomeSuccess && recipients == 0)
    || (exists email, answer :: IsEmailOf(cfg, start, run, email) && m.subscribed > 0 && AskedOnce(m, email, answer)
          && !answer.Broken? && (outcome.OutcomeSuccess? <==> answer.Accepted?) && recipients == m.subscribed)
  }

  /** `prepare_email`: the run once more, then what a delivery loads and renders. */
  method PrepareAgain(cfg: Rendering, policy: Policy, conn: Connection<Db>, mutex: Lock, run: string)
    returns (r: Result<Result<Email, RenderError>, Error>)
    requires conn.Valid() && mutex.Valid() && !mutex.held && Sound(conn.committed)
    requires run in conn.committed.runs && Terminal(conn.committed.runs[run].state)
    modifies conn, mutex
    ensures conn.Valid() && mutex.Valid() && !mutex.held && Sound(conn.committed)
    ensures Steady(old(conn.committed), conn.committed, run) && old(conn.faults) <= conn.faults
    ensures r.Success? && r.value.Success? ==> IsEmailOf(cfg, old(conn.committed), run, r.value.value)
    ensures r.Success? && r.value.Failure? ==> CannotRender(cfg, old(conn.committed), run, r.value.error)
    ensures r.Failure? ==>
              r.error == Persistence && (old(conn.faults) < conn.faults || !Acceptance.Readable(conn.committed, run))
  {
    AwaitSteady(policy, conn, run);
    ghost var awaited := conn.committed;
    var loaded := LoadRun(conn, mutex, run);
    if loaded.Failure? {
      return Failure(Persistence);
    }
    r := Prepare(cfg, policy, conn, mutex, run);
    SteadyTransitive(old(conn.committed), awaited, conn.committed, run);
  }

  /** Rendering and sending of a resend. */
  method PrepareAndSend(cfg: Rendering, policy: Policy, conn: Connection<Db>, mutex: Lock, mailer: Mailer, run: string,
                        subscribed: nat)
    returns (r: Result<(AuditOutcome, nat), TaskError>)
    requires conn.Valid() && mutex.Valid() && !mutex.held && mailer.Valid() && Sound(conn.committed)
    requires run in conn.committed.runs && Terminal(conn.committed.runs[run].state)
    modifies conn, mutex, mailer
    ensures conn.Valid() && mutex.Valid() && !mutex.held && mailer.Valid() && Sound(conn.committed)
    ensures Steady(old(conn.committed), conn.committed, run) && old(conn.faults) <= conn.faults
    ensures var m := Mailing(old(mailer.sent), mailer.sent, old(mailer.answers), mailer.answers, subscribed);
            && (r.Success? ==> ResendVerdict(cfg, old(conn.committed), run, m, r.value.0, r.value.1))
            && (r == Failure(Uncaught) ==> Escaped(cfg, old(conn.committed), run, m))
            && (r.Failure? && r.error.Store? ==>
                  && r.error.error == Persistence && NotAsked(m)
                  && (old(conn.faults) < conn.faults || !Acceptance.Readable(conn.committed, run)))
  {
    ghost var start := conn.committed;
    var prepared := PrepareAgain(cfg, policy, conn, mutex, run);
    if prepared.Failure? {
      return Failure(Store(Persistence));
    }
    if prepared.value.Failure? {
      UnrenderedAgain(cfg, start, run, Mailing(mailer.sent, mailer.sent, mailer.answers, mailer.answers, subscribed),
                      prepared.value.error);
      return if ReasonOf(prepared.value.error).Some? then Success((OutcomeFailure, 0)) else Failure(Uncaught);
    }
    ghost var preparedAt := conn.committed;
    r := SendPrepared(cfg, policy, conn, mutex, mailer, run, prepared.value.value, subscribed, start);
    SteadyTransitive(start, preparedAt, conn.committed, run);
  }

  /** Recipients and mailer, for an email composed from the content at `start`. */
  method SendPrepared(cfg: Rendering, policy: Policy, conn: Connection<Db>, mutex: Lock, mailer: Mailer, run: string,
                      email: Email, subscribed: nat, ghost start: Db)
    returns (r: Result<(AuditOutcome, nat), TaskError>)
    requires conn.Valid() && mutex.Valid() && !mutex.held && mailer.Valid() && Sound(conn.committed)
    requires run in conn.committed.runs && Terminal(conn.committed.runs[run].state) && IsEmailOf(cfg, start, run, email)
    modifies conn, mutex, mailer
    ensures conn.Valid() && mutex.Valid() && !mutex.held && mailer.Valid() && Sound(conn.committed)
    ensures Steady(old(conn.committed), conn.committed, run) && old(conn.faults) <= conn.faults
    ensures var m := Mailing(old(mailer.sent), mailer.sent, old(mailer.answers), mailer.answers, subscribed);
            && (r.Success? ==> ResendVerdict(cfg, start, run, m, r.value.0, r.value.1))
            && (r == Failure(Uncaught) ==> Escaped(cfg, start, run, m))
            && (r.Failure? && r.error.Store? ==>
                  r.error.error == Persistence && NotAsked(m) && old(conn.faults) < conn.faults)
  {
    AwaitSteady(policy, conn, run);
    var recipients := CountRecipients(conn, mutex, subscribed);
    if recipients.Failure? {
      return Failure(Store(Persistence));
    }
    r := SendAgain(mailer, email, recipients.value);
    ghost var m := Mailing(old(mailer.sent), mailer.sent, old(mailer.answers), mailer.answers, subscribed);
    if subscribed > 0 {
      AnsweredAgain(cfg, start, run, m, email, mailer.answers[|old(mailer.answers)|]);
    } else {
      NobodyAgain(cfg, start, run, m, email);
    }
  }

  lemma UnrenderedAgain(cfg: Rendering, start: Db, run: string, m: Mailing, e: RenderError)
    requires CannotRender(cfg, start, run, e) && NotAsked(m)
    ensures if ReasonOf(e).Some? then ResendVerdict(cfg, start, run, m, OutcomeFailure, 0) else Escaped(cfg, start, run, m)
  {
    if ReasonOf(e).Some? {
      assert Translated(e, ReasonOf(e).value);
    }
  }

  lemma NobodyAgain(cfg: Rendering, start: Db, run: string, m: Mailing, email: Email)
    requires IsEmailOf(cfg, start, run, email) && m.subscribed == 0 && NotAsked(m)
    ensures ResendVerdict(cfg, start, run, m, OutcomeSuccess, 0)
  {
  }

  lemma AnsweredAgain(cfg: Rendering, start: Db, run: string, m: Mailing, email: Email, answer: Answer)
    requires IsEmailOf(cfg, start, run, email) && m.subscribed > 0 && AskedOnce(m, email, answer)
    ensures forall outcome: AuditOutcome :: !answer.Broken? && (outcome.OutcomeSuccess? <==> answer.Accepted?) ==>
              ResendVerdict(cfg, start, run, m, outcome, m.subscribed)
    ensures answer == Broken ==> Escaped(cfg, start, run, m)
  {
  }

  /** The mailer's part of a resend. */
  method SendAgain(mailer: Mailer, email: Email, recipients: nat) returns (r: Result<(AuditOutcome, nat), TaskError>)
    requires mailer.Valid()
    modifies mailer
    ensures mailer.Valid()
    ensures recipients == 0 ==> unchanged(mailer) && r == Success((OutcomeSuccess, 0))
    ensures recipients > 0 ==>
              && |mailer.answers| == |old(mailer.answers)| + 1
              && mailer.sent == old(mailer.sent) + [email]
              && mailer.answers == old(mailer.answers) + [mailer.answers[|old(mailer.answers)|]]
              && r == match mailer.answers[|old(mailer.answers)|]
                      case Accepted => Success((OutcomeSuccess, recipients))
                      case SizeExceeded => Success((OutcomeFailure, recipients))
                      case Refused => Success((OutcomeFailure, recipients))
                      case Broken => Failure(Uncaught)
  {
    if recipients == 0 {
      return Success((OutcomeSuccess, 0));
    }
    var answer := mailer.Send(email);
    match answer
    case Accepted => return Success((OutcomeSuccess, recipients));
    case SizeExceeded => return Success((OutcomeFailure, recipients));
    case Refused => return Success((OutcomeFailure, recipients));
    case Broken => return Failure(Uncaught);
  }

  /** One resend, others committing in between (the run's own delivery is over: the run is
      terminal). What is mailed, at most once, is the email the run's content called for when
      the resend was accepted (`start`); what is committed, on the store `audited`, is one
      RESEND_REPORT row with the verdict and nothing else. */
  method Resend(cfg: Rendering, policy: Policy, conn: Connection<Db>, mutex: Lock, mailer: Mailer, run: string,
                subscribed: nat)
    returns (r: Result<(AuditOutcome, nat), TaskError>, ghost start: Db, ghost audited: Db)
    requires conn.Valid() && mutex.Valid() && !mutex.held && mailer.Valid() && Sound(conn.committed)
    modifies conn, mutex, mailer
    ensures conn.Valid() && mutex.Valid() && !mutex.held && mailer.Valid()
    ensures start == old(conn.committed)
    ensures mailer.sent != old(mailer.sent) ==>
              && run in start.runs && Resendable(start.runs[run].state)
              && MailedAtMostOnce(cfg, start, run, old(mailer.sent), mailer.sent)
    ensures var m := Mailing(old(mailer.sent), mailer.sent, old(mailer.answers), mailer.answers, subscribed);
            && (r.Success? ==>
                  && Acceptance.Readable(start, run) && Resendable(start.runs[run].state)
                  && ResendVerdict(cfg, start, run, m, r.value.0, r.value.1)
                  && Steady(start, audited, run) && OneMoreRow(audited, conn.committed, run, r.value.0, r.value.1))
            && (r == Failure(Uncaught) ==> Escaped(cfg, start, run, m))
    // A refused resend is refused before anything is rendered, and only for the run's state.
    ensures r.Failure? && r.error.Store? && r.error.error.InvalidRunState? ==>
              && !Resendable(r.error.error.state) && mailer.sent == old(mailer.sent)
              && run in conn.committed.runs && conn.committed.runs[run].state == r.error.error.state
    ensures r == Failure(Store(RunNotFound)) ==> run !in start.runs && mailer.sent == old(mailer.sent)
    ensures r == Failure(Store(Persistence)) ==>
              || old(conn.faults) < conn.faults
              || !Acceptance.Readable(start, run) || !Acceptance.Readable(conn.committed, run)
    ensures r.Failure? && r.error.Store? ==>
              r.error.error.InvalidRunState? || r.error.error == RunNotFound || r.error.error == Persistence
  {
    start, audited := conn.committed, conn.committed;
    var loaded := LoadRun(conn, mutex, run);
    if loaded.Failure? {
      return Failure(Store(loaded.error)), start, audited;
    }
    if !Resendable(loaded.value.state) {
      return Failure(Store(InvalidRunState(loaded.value.state))), start, audited;
    }
    r, audited := SendAndRecord(cfg, policy, conn, mutex, mailer, run, subscribed);
  }

  /** An accepted resend. */
  method SendAndRecord(cfg: Rendering, policy: Policy, conn: Connection<Db>, mutex: Lock, mailer: Mailer, run: string,
                       subscribed: nat)
    returns (r: Result<(AuditOutcome, nat), TaskError>, ghost audited: Db)
    requires conn.Valid() && mutex.Valid() && !mutex.held && mailer.Valid() && Sound(conn.committed)
    requires run in conn.committed.runs && Terminal(conn.committed.runs[run].state)
    modifies conn, mutex, mailer
    ensures conn.Valid() && mutex.Valid() && !mutex.held && mailer.Valid()
    ensures var m := Mailing(old(mailer.sent), mailer.sent, old(mailer.answers), mailer.answers, subscribed);
            && MailedFor(cfg, old(conn.committed), run, m)
            && (r.Success? ==>
                  && ResendVerdict(cfg, old(conn.committed), run, m, r.value.0, r.value.1)
                  && Steady(old(conn.committed), audited, run)
                  && OneMoreRow(audited, conn.committed, run, r.value.0, r.value.1))
            && (r == Failure(Uncaught) ==> Escaped(cfg, old(conn.committed), run, m))
    ensures r.Failure? && r.error.Store? ==>
              r.error.error == Persistence && (old(conn.faults) < conn.faults || !Acceptance.Readable(conn.committed, run))
  {
    audited := conn.committed;
    ghost var start := conn.committed;
    var done := PrepareAndSend(cfg, policy, conn, mutex, mailer, run, subscribed);
    MailedAgain(cfg, start, run, Mailing(old(mailer.sent), mailer.sent, old(mailer.answers), mailer.answers, subscribed), done);
    if done.Failure? {
      return Failure(done.error), audited;
    }
    ghost var doneAt := conn.committed;
    AwaitSteady(policy, conn, run);
    SteadyTransitive(start, doneAt, conn.committed, run);
    audited := conn.committed;
    var now: Time := *;
    var (outcome, recipients) := done.value;
    var ok := RecordResend(conn, mutex, run, outcome, recipients, now);
    if !ok {
      return Failure(Store(Persistence)), audited;
    }
    RowAdded(policy, audited, run, outcome, recipients, now);
    return Success((outcome, recipients)), audited;
  }

  lemma MailedAgain(cfg: Rendering, start: Db, run: string, m: Mailing, r: Result<(AuditOutcome, nat), TaskError>)
    requires match r
             case Success(v) => ResendVerdict(cfg, start, run, m, v.0, v.1)
             case Failure(Uncaught) => Escaped(cfg, start, run, m)
             case Failure(_) => NotAsked(m)
    ensures MailedFor(cfg, start, run, m)
  {
  }

  /** One RESEND_REPORT row of this run more, and nothing else. */
  ghost predicate OneMoreRow(db: Db, db': Db, run: string, outcome: AuditOutcome, recipients: nat) {
    && db'.runs == db.runs && db'.stages == db.stages && db'.outbox == db.outbox
    && exists now :: db'.audit == db.audit + [ResendReport(now, run, outcome, recipients)]
  }

  lemma RowAdded(policy: Policy, db: Db, run: string, outcome: AuditOutcome, recipients: nat, now: Time)
    ensures OneMoreRow(db, ResendTx(db, run, outcome, recipients, now), run, outcome, recipients)
  {
    Acceptance.ResendExact(policy, db, run, outcome, recipients, now);
  }
}
