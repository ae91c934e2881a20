/** The delivery task as the program runs it: units of work separated by points where any other
    task may commit, one call of the mailer in between, each statement free to fail. Module
    Delivery states what all histories of such tasks keep; here the method Execute is proved
    from the same units of work, whatever interferes. */
module DeliveryTask {
  import opened Wrappers
  import opened Sequences
  import opened RunStates
  import opened Database
  import opened Transactions
  import opened AuditReplay
  import opened Assembly
  import opened EmailContent
  import opened Lifecycle
  import opened Delivery
  import opened UnitOfWork
  import opened Statements
  import opened UseCases
  import Acceptance

  // ---- Interference ----------------------------------------------------------------------

  /** Units of work none of which is this run's delivery. */
  predicate Foreign(txs: seq<Tx>, run: string) {
    forall i :: 0 <= i < |txs| ==> !Delivers(txs[i], run)
  }

  /** Some foreign units of work lead from `db` to `db'`. */
  ghost predicate Interfered(policy: Policy, db: Db, db': Db, run: string) {
    exists txs :: Foreign(txs, run) && db' == Commits(policy, db, txs)
  }

  lemma {:induction false} CommitsSound(policy: Policy, db: Db, txs: seq<Tx>)
    requires Sound(db)
    ensures Sound(Commits(policy, db, txs))
  {
    if txs != [] {
      CommitsSound(policy, db, txs[..|txs| - 1]);
      CommitSound(policy, Commits(policy, db, txs[..|txs| - 1]), txs[|txs| - 1]);
    }
  }

  /** Any number of foreign units of work leave a delivery's run steady. */
  lemma {:induction false} ForeignSteady(policy: Policy, db: Db, txs: seq<Tx>, run: string)
    requires run in db.runs && run in db.stages && !Collecting(db.runs[run].state) && Foreign(txs, run)
    ensures Steady(db, Commits(policy, db, txs), run)
  {
    if txs != [] {
      var n := |txs| - 1;
      ForeignSteady(policy, db, txs[..n], run);
      CommitSteady(policy, Commits(policy, db, txs[..n]), txs[n], run);
    }
  }

  /** The store as others left it while this task waited for the lock: any foreign units of
      work committed, and possibly a transaction no ROLLBACK could close. */
  method Await(policy: Policy, conn: Connection<Db>, run: string)
    requires conn.Valid() && Sound(conn.committed)
    modifies conn
    ensures conn.Valid() && Sound(conn.committed)
    ensures Interfered(policy, old(conn.committed), conn.committed, run)
    ensures conn.faults == old(conn.faults)
  {
    var txs: seq<Tx> := *;
    if conn.inTransaction || !Foreign(txs, run) {
      txs := [];
    } else {
      CommitsSound(policy, conn.committed, txs);
      conn.committed := Commits(policy, conn.committed, txs);
      conn.working := conn.committed;
      var wedged := *;
      if wedged {
        var leftovers: Db := *;
        conn.working, conn.inTransaction := leftovers, true;
      }
    }
    ByForeign(policy, old(conn.committed), conn.committed, txs, run);
  }

  lemma ByForeign(policy: Policy, db: Db, db': Db, txs: seq<Tx>, run: string)
    requires Foreign(txs, run) && db' == Commits(policy, db, txs)
    ensures Interfered(policy, db, db', run)
  {
  }

  /** Awaiting once the run is past collecting. */
  method AwaitSteady(policy: Policy, conn: Connection<Db>, run: string)
    requires conn.Valid() && Sound(conn.committed)
    requires run in conn.committed.runs && !Collecting(conn.committed.runs[run].state)
    modifies conn
    ensures conn.Valid() && Sound(conn.committed)
    ensures Steady(old(conn.committed), conn.committed, run)
    ensures conn.faults == old(conn.faults)
  {
    assert SoundRun(conn.committed, run);
    Await(policy, conn, run);
    ghost var txs :| Foreign(txs, run) && conn.committed == Commits(policy, old(conn.committed), txs);
    ForeignSteady(policy, old(conn.committed), txs, run);
  }

  // ---- The mailer --------------------------------------------------------------------------

  class Mailer {
    var sent: seq<Email>
    var answers: seq<Answer>

    ghost predicate Valid()
      reads this
    {
      |sent| == |answers|
    }

    method Send(email: Email) returns (answer: Answer)
      requires Valid()
      modifies this
      ensures Valid() && sent == old(sent) + [email] && answers == old(answers) + [answer]
    {
      answer := *;
      sent, answers := sent + [email], answers + [answer];
    }
  }

  // ---- Units of work -------------------------------------------------------------------------

  /** `_transition` of READY to SENDING, with the load before it. */
  method StartBody(conn: Connection<Db>, run: string, now: Time) returns (r: Result<Run, Error>)
    modifies conn`working, conn`faults
    ensures old(conn.faults) <= conn.faults
    ensures r.Success? ==>
              && StartSendingTx(old(conn.working), run, now) == Success(conn.working)
              && run in old(conn.working).runs && r.value == old(conn.working).runs[run]
    ensures r.Failure? ==> FailsAs(StartSendingTx(old(conn.working), run, now), r.error, old(conn.faults) < conn.faults)
  {
    r := GetRun(conn, run);
    if r.Failure? {
      return;
    }
    if !CanTransition(r.value.state, Sending) {
      return Failure(IllegalTransition(r.value.state, Sending));
    }
    var ok := RecordAudit(conn, RunStateTransition(now, run, r.value.state, Sending));
    if !ok {
      return Failure(Persistence);
    }
    var moved := UpdateState(conn, run, Sending, now);
    if moved.Failure? {
      return Failure(Persistence);
    }
  }

  method Start(policy: Policy, conn: Connection<Db>, mutex: Lock, run: string, now: Time)
    returns (r: Result<Run, Error>)
    requires conn.Valid() && mutex.Valid() && !mutex.held
    modifies conn, mutex
    ensures conn.Valid() && mutex.Valid() && !mutex.held
    ensures CommitsOrNothing(policy, old(conn.committed), conn.committed, StartSending(run, now), r,
                             old(conn.faults) < conn.faults)
    ensures old(conn.faults) <= conn.faults
    ensures r.Success? ==> run in old(conn.committed).runs && r.value == old(conn.committed).runs[run]
  {
    var uow := new SqliteUnitOfWork(conn, mutex);
    var begun := uow.Enter();
    if begun.Failure? {
      return Failure(Persistence);
    }
    r := StartBody(conn, run, now);
    var left := uow.Exit(r.Failure?);
    if left.Failure? {
      return Failure(Persistence);
    }
  }

  /** A unit of work that only reads the run's stages and, in a second one, the run. */
  method LoadStages(conn: Connection<Db>, mutex: Lock, run: string) returns (r: Result<seq<Stage>, Error>)
    requires conn.Valid() && mutex.Valid() && !mutex.held
    modifies conn, mutex
    ensures conn.Valid() && mutex.Valid() && !mutex.held && conn.committed == old(conn.committed)
    ensures r.Success? ==> Lists(r.value, StagesOf(conn.committed, run))
    ensures old(conn.faults) <= conn.faults && (r.Failure? ==> r.error == Persistence && old(conn.faults) < conn.faults)
  {
    var uow := new SqliteUnitOfWork(conn, mutex);
    var begun := uow.Enter();
    if begun.Failure? {
      return Failure(Persistence);
    }
    r := ListByRun(conn, run);
    var left := uow.Exit(r.Failure?);
    if left.Failure? {
      return Failure(Persistence);
    }
  }

  method LoadRun(conn: Connection<Db>, mutex: Lock, run: string) returns (r: Result<Run, Error>)
    requires conn.Valid() && mutex.Valid() && !mutex.held
    modifies conn, mutex
    ensures conn.Valid() && mutex.Valid() && !mutex.held && conn.committed == old(conn.committed)
    ensures r == ReadRun(conn.committed, run) || (r == Failure(Persistence) && old(conn.faults) < conn.faults)
    ensures old(conn.faults) <= conn.faults
  {
    var uow := new SqliteUnitOfWork(conn, mutex);
    var begun := uow.Enter();
    if begun.Failure? {
      return Failure(Persistence);
    }
    r := GetRun(conn, run);
    var left := uow.Exit(r.Failure?);
    if left.Failure? {
      return Failure(Persistence);
    }
  }

  /** `list_recipients_for_run` in a unit of work of its own: whoever is subscribed now, of whom
      there are `subscribed`. */
  method CountRecipients(conn: Connection<Db>, mutex: Lock, subscribed: nat) returns (r: Result<nat, Error>)
    requires conn.Valid() && mutex.Valid() && !mutex.held
    modifies conn, mutex
    ensures conn.Valid() && mutex.Valid() && !mutex.held && conn.committed == old(conn.committed)
    ensures old(conn.faults) <= conn.faults
    ensures r == Success(subscribed) || (r == Failure(Persistence) && old(conn.faults) < conn.faults)
  {
    var uow := new SqliteUnitOfWork(conn, mutex);
    var begun := uow.Enter();
    if begun.Failure? {
      return Failure(Persistence);
    }
    var ok := Query(conn);
    var left := uow.Exit(!ok);
    return if ok && left.Success? then Success(subscribed) else Failure(Persistence);
  }

  /** `_finalize_sent` and `_finalize_failed`: a run meanwhile terminal is only reconciled. */
  method FinishBody(conn: Connection<Db>, run: string, outcome: AuditOutcome, recipients: nat, attachments: nat,
                    reason: Option<FailureReason>, now: Time) returns (r: Result<(), Error>)
    modifies conn`working, conn`faults
    ensures old(conn.faults) <= conn.faults
    ensures var target := if outcome.OutcomeSuccess? then Sent else Failed;
            var tx := FinishTx(old(conn.working), run, target, outcome, recipients, attachments, reason, now);
            && (r.Success? ==> tx == Success(conn.working))
            && (r.Failure? ==> FailsAs(tx, r.error, old(conn.faults) < conn.faults))
  {
    var target := if outcome.OutcomeSuccess? then Sent else Failed;
    var loaded := GetRun(conn, run);
    if loaded.Failure? {
      return Failure(loaded.error);
    }
    var state := loaded.value.state;
    if Terminal(state) {
      var reconciled := RecordAudit(conn, SendReport(now, run, outcome, state, state, recipients, attachments, reason));
      return if reconciled then Success(()) else Failure(Persistence);
    }
    if !CanTransition(state, target) {
      return Failure(IllegalTransition(state, target));
    }
    var ok := RecordAudit(conn, SendReport(now, run, outcome, state, target, recipients, attachments, reason));
    if !ok {
      return Failure(Persistence);
    }
    var moved := UpdateState(conn, run, target, now);
    return if moved.Failure? then Failure(Persistence) else Success(());
  }

  /** What a delivery has decided to record. */
  datatype Verdict = Verdict(outcome: AuditOutcome, recipients: nat, attachments: nat, reason: Option<FailureReason>)

  /** The newest audit row is the SEND_REPORT row of this verdict. */
  predicate EndsWith(audit: seq<AuditEvent>, run: string, v: Verdict) {
    audit != [] &&
    var e := audit[|audit| - 1];
    && e.SendReport? && e.run == run && e.outcome == v.outcome
    && e.recipients == v.recipients && e.attachments == v.attachments && e.reason == v.reason
  }

  /** The last unit of work, on a run being sent or orphaned: never an illegal transition; when
      it commits, the run is terminal and exactly this outcome has been added to its record. */
  method Finish(conn: Connection<Db>, mutex: Lock, run: string, v: Verdict, now: Time) returns (r: Result<(), Error>)
    requires conn.Valid() && mutex.Valid() && !mutex.held && Sound(conn.committed)
    requires run in conn.committed.runs
    requires conn.committed.runs[run].state.Sending? || conn.committed.runs[run].state.Orphaned?
    modifies conn, mutex
    ensures conn.Valid() && mutex.Valid() && !mutex.held && Sound(conn.committed)
    ensures r.Failure? ==> r.error == Persistence && conn.committed == old(conn.committed)
    ensures old(conn.faults) <= conn.faults
    ensures r.Failure? ==> old(conn.faults) < conn.faults || !Acceptance.Readable(conn.committed, run)
    ensures r.Success? ==>
              Acceptance.Concluded(old(conn.committed), conn.committed, run, v.outcome, v.recipients, v.attachments, v.reason, now)
    ensures r.Success? ==>
              && run in conn.committed.runs
              && conn.committed.runs[run].state == Conclusion(old(conn.committed), run, v.outcome)
              && SendOutcomes(conn.committed.audit, run) == SendOutcomes(old(conn.committed).audit, run) + [v.outcome]
              && EndsWith(conn.committed.audit, run, v)
  {
    var uow := new SqliteUnitOfWork(conn, mutex);
    var begun := uow.Enter();
    if begun.Failure? {
      return Failure(Persistence);
    }
    r := FinishBody(conn, run, v.outcome, v.recipients, v.attachments, v.reason, now);
    var left := uow.Exit(r.Failure?);
    if left.Failure? {
      return Failure(Persistence);
    }
    if r.Success? {
      FinishedAs(old(conn.committed), conn.committed, run, v, now);
    } else {
      UnfinishedAs(old(conn.committed), run, v, now);
    }
  }

  /** What finishing with this verdict makes of a run being sent or orphaned. */
  function FinishingTx(db: Db, run: string, v: Verdict, now: Time): Result<Db, Error> {
    FinishTx(db, run, if v.outcome.OutcomeSuccess? then Sent else Failed, v.outcome, v.recipients, v.attachments, v.reason, now)
  }

  lemma UnfinishedAs(db: Db, run: string, v: Verdict, now: Time)
    requires run in db.runs && (db.runs[run].state.Sending? || db.runs[run].state.Orphaned?)
    ensures FinishingTx(db, run, v, now).Failure? ==>
              FinishingTx(db, run, v, now).error == Persistence && !Acceptance.Readable(db, run)
  {
  }

  lemma FinishedAs(db: Db, db': Db, run: string, v: Verdict, now: Time)
    requires Sound(db) && run in db.runs && (db.runs[run].state.Sending? || db.runs[run].state.Orphaned?)
    requires FinishingTx(db, run, v, now) == Success(db')
    ensures Sound(db') && run in db'.runs && db'.runs[run].state == Conclusion(db, run, v.outcome)
    ensures SendOutcomes(db'.audit, run) == SendOutcomes(db.audit, run) + [v.outcome] && EndsWith(db'.audit, run, v)
    ensures Acceptance.Concluded(db, db', run, v.outcome, v.recipients, v.attachments, v.reason, now)
  {
    var target := if v.outcome.OutcomeSuccess? then Sent else Failed;
    FinishTxEffect(db, run, target, v.outcome, v.recipients, v.attachments, v.reason, now);
    SoundKept(db, db');
  }

  // ---- Assembly ----------------------------------------------------------------------------

  method BuildAttachments(cfg: Rendering, run: string, info: RunInfo, fragments: seq<Fragment>)
    returns (r: Result<seq<Attachment>, RenderError>)
    ensures r == Attachments(cfg, run, info, fragments)
  {
    if info.mode.PerStage? {
      var attachments := BuildStageAttachments(run, info, fragments);
      return Success(attachments);
    }
    if info.aggregation.None? {
      return Failure(RenderError.Unexpected);
    }
    var html := cfg.render(info.aggregation.value,
      AggregationContext(run, info.pipeline, info.tags, info.createdAt, Sections(fragments)));
    return if html.Failure? then Failure(html.error)
           else Success([Attachment(Filename(info.pipeline, run, None), html.value)]);
  }

  method Assemble(cfg: Rendering, run: string, info: RunInfo, rows: seq<Stage>) returns (r: Result<Email, RenderError>)
    ensures r == Compose(cfg, run, info, rows)
  {
    var fragments := RenderStages(cfg, info, rows);
    if fragments.Failure? {
      return Failure(fragments.error);
    }
    var attachments := BuildAttachments(cfg, run, info, fragments.value);
    if attachments.Failure? {
      return Failure(attachments.error);
    }
    var body := Body(cfg, run, info, fragments.value);
    if body.Failure? {
      return Failure(body.error);
    }
    return Success(Email(cfg.subject(info.pipeline, run), body.value, attachments.value));
  }

  // ---- `execute` -----------------------------------------------------------------------------

  datatype TaskError = Store(error: Error) | Uncaught

  /** The email the run's declaration and stage table call for. */
  ghost predicate IsEmailOf(cfg: Rendering, db: Db, run: string, email: Email) {
    run in db.runs && run in db.stages && Presents(cfg, run, db.runs[run].info, db.stages[run].Values, email)
  }

  /** They call for none: something does not render, for this reason. */
  ghost predicate CannotRender(cfg: Rendering, db: Db, run: string, e: RenderError) {
    run in db.runs && run in db.stages && Fails(cfg, run, db.runs[run].info, db.stages[run].Values, e)
  }

  /** However the rows were listed. */
  lemma ComposedFrom(cfg: Rendering, db: Db, run: string, rows: seq<Stage>)
    requires Sound(db) && run in db.runs && Lists(rows, db.stages[run])
    ensures match Compose(cfg, run, db.runs[run].info, rows)
            case Success(email) => IsEmailOf(cfg, db, run, email)
            case Failure(e) => CannotRender(cfg, db, run, e)
  {
    ListedKeyed(db, run, rows);
    assert SoundRun(db, run);
    match Compose(cfg, run, db.runs[run].info, rows)
    case Success(email) => EmailExact(cfg, run, db.runs[run].info, rows, email);
    case Failure(_) => ErrorExact(cfg, run, db.runs[run].info, rows);
  }

  lemma SteadyTransitive(a: Db, b: Db, c: Db, run: string)
    requires Steady(a, b, run) && Steady(b, c, run)
    ensures Steady(a, c, run)
  {
  }

  /** Loading and rendering, in two units of work with others in between. */
  method Prepare(cfg: Rendering, policy: Policy, conn: Connection<Db>, mutex: Lock, run: string)
    returns (r: Result<Result<Email, RenderError>, Error>)
    requires conn.Valid() && mutex.Valid() && !mutex.held && Sound(conn.committed)
    requires run in conn.committed.runs && !Collecting(conn.committed.runs[run].state)
    modifies conn, mutex
    ensures conn.Valid() && mutex.Valid() && !mutex.held && Sound(conn.committed)
    ensures Steady(old(conn.committed), conn.committed, run)
    ensures r.Success? && r.value.Success? ==> IsEmailOf(cfg, old(conn.committed), run, r.value.value)
    ensures r.Success? && r.value.Failure? ==> CannotRender(cfg, old(conn.committed), run, r.value.error)
    ensures old(conn.faults) <= conn.faults
    ensures r.Failure? ==>
              r.error == Persistence && (old(conn.faults) < conn.faults || !Acceptance.Readable(conn.committed, run))
  {
    ghost var start := conn.committed;
    AwaitSteady(policy, conn, run);
    var rows := LoadStages(conn, mutex, run);
    if rows.Failure? {
      return Failure(Persistence);
    }
    ghost var loadedAt := conn.committed;
    AwaitSteady(policy, conn, run);
    SteadyTransitive(start, loadedAt, conn.committed, run);
    var loaded := LoadRun(conn, mutex, run);
    if loaded.Failure? {
      return Failure(Persistence);
    }
    var composed := Assemble(cfg, run, loaded.value.info, rows.value);
    ComposedFrom(cfg, start, run, rows.value);
    return Success(composed);
  }

  /** What the mailer's answer, or having nobody to ask it for, makes of an email with this many
      attachments. */
  predicate Judged(answer: Option<Answer>, recipients: nat, attachments: nat, v: Verdict) {
    match answer
    case None => recipients == 0 && v == Verdict(OutcomeSuccess, 0, attachments, None)
    case Some(Accepted) => v == Verdict(OutcomeSuccess, recipients, attachments, None)
    case Some(SizeExceeded) => v == Verdict(OutcomeFailure, recipients, 0, Some(EmailSizeExceeded))
    case Some(Refused) => v == Verdict(OutcomeFailure, recipients, 0, Some(EmailDelivery))
    case Some(Broken) => false
  }

  /** The mailer's part: nobody to send to, or one call and its answer. */
  method Deliver(mailer: Mailer, email: Email, recipients: nat) returns (r: Result<Verdict, TaskError>)
    requires mailer.Valid()
    modifies mailer
    ensures mailer.Valid()
    ensures if recipients == 0 then unchanged(mailer)
            else |mailer.answers| == |old(mailer.answers)| + 1
                 && mailer.sent == old(mailer.sent) + [email]
                 && mailer.answers == old(mailer.answers) + [mailer.answers[|old(mailer.answers)|]]
    ensures var answer := if recipients == 0 then None else Some(mailer.answers[|old(mailer.answers)|]);
            && (r.Success? ==> Judged(answer, recipients, |email.attachments|, r.value))
            && (r.Failure? ==> r.error == Uncaught && answer == Some(Broken))
  {
    if recipients == 0 {
      return Success(Verdict(OutcomeSuccess, 0, |email.attachments|, None));
    }
    var answer := mailer.Send(email);
    match answer
    case Accepted => return Success(Verdict(OutcomeSuccess, recipients, |email.attachments|, None));
    case SizeExceeded => return Success(Verdict(OutcomeFailure, recipients, 0, Some(EmailSizeExceeded)));
    case Refused => return Success(Verdict(OutcomeFailure, recipients, 0, Some(EmailDelivery)));
    case Broken => return Failure(Uncaught);
  }

  /** The four render errors a delivery reports, each under its own name. */
  predicate Translated(e: RenderError, reason: FailureReason) {
    || (e == TemplateFailed && reason == TemplateRender)
    || (e == RenderedTooLarge && reason == RenderedSizeExceeded)
    || (e == ContextTooLarge && reason == ContextSizeExceeded)
    || (e == ContextInvalid && reason == ContextSchemaViolation)
  }

  /** The mailer's record before and after, and how many subscribed. */
  datatype Mailing = Mailing(sent: seq<Email>, sent': seq<Email>, answers: seq<Answer>, answers': seq<Answer>, subscribed: nat)

  predicate NotAsked(m: Mailing) {
    m.sent' == m.sent && m.answers' == m.answers
  }

  predicate AskedOnce(m: Mailing, email: Email, answer: Answer) {
    m.sent' == m.sent + [email] && m.answers' == m.answers + [answer]
  }

  /** Content that cannot be rendered is reported without asking the mailer; else the mailer is
      asked once, with the content's email, if anyone subscribed, and its answer decides. */
  ghost predicate Delivered(cfg: Rendering, start: Db, run: string, m: Mailing, v: Verdict) {
    || (exists e, reason :: CannotRender(cfg, start, run, e) && Translated(e, reason) && NotAsked(m)
          && v == Verdict(OutcomeFailure, 0, 0, Some(reason)))
    || (exists email :: IsEmailOf(cfg, start, run, email) && m.subscribed == 0 && NotAsked(m)
          && Judged(None, 0, |email.attachments|, v))
    || (exists email, answer :: IsEmailOf(cfg, start, run, email) && m.subscribed > 0 && AskedOnce(m, email, answer)
          && Judged(Some(answer), m.subscribed, |email.attachments|, v))
  }

  /** A delivery that escapes its error handling: a render error it does not translate, or an
      answer of the mailer's that it does not. */
  ghost predicate Escaped(cfg: Rendering, start: Db, run: string, m: Mailing) {
    || (CannotRender(cfg, start, run, RenderError.Unexpected) && NotAsked(m))
    || (exists email :: IsEmailOf(cfg, start, run, email) && m.subscribed > 0 && AskedOnce(m, email, Broken))
  }

  lemma Unrendered(cfg: Rendering, start: Db, run: string, m: Mailing, e: RenderError)
    requires CannotRender(cfg, start, run, e) && NotAsked(m)
    ensures match ReasonOf(e)
            case Some(reason) => Delivered(cfg, start, run, m, Verdict(OutcomeFailure, 0, 0, Some(reason)))
            case None => Escaped(cfg, start, run, m)
  {
    if ReasonOf(e).Some? {
      assert Translated(e, ReasonOf(e).value);
    }
  }

  lemma Answered(cfg: Rendering, start: Db, run: string, m: Mailing, email: Email, answer: Answer)
    requires IsEmailOf(cfg, start, run, email) && m.subscribed > 0 && AskedOnce(m, email, answer)
    ensures forall v :: Judged(Some(answer), m.subscribed, |email.attachments|, v) ==> Delivered(cfg, start, run, m, v)
    ensures answer == Broken ==> Escaped(cfg, start, run, m)
  {
  }

  lemma Unsubscribed(cfg: Rendering, start: Db, run: string, m: Mailing, email: Email)
    requires IsEmailOf(cfg, start, run, email) && m.subscribed == 0 && NotAsked(m)
    ensures forall v :: Judged(None, 0, |email.attachments|, v) ==> Delivered(cfg, start, run, m, v)
  {
  }

  /** Rendering, recipients and the mailer, all between units of work. */
  method RenderAndSend(cfg: Rendering, policy: Policy, conn: Connection<Db>, mutex: Lock, mailer: Mailer, run: string,
                       subscribed: nat)
    returns (r: Result<Verdict, TaskError>)
    requires conn.Valid() && mutex.Valid() && !mutex.held && mailer.Valid() && Sound(conn.committed)
    requires run in conn.committed.runs && !Collecting(conn.committed.runs[run].state)
    modifies conn, mutex, mailer
    ensures conn.Valid() && mutex.Valid() && !mutex.held && mailer.Valid() && Sound(conn.committed)
    ensures Steady(old(conn.committed), conn.committed, run) && old(conn.faults) <= conn.faults
    ensures var m := Mailing(old(mailer.sent), mailer.sent, old(mailer.answers), mailer.answers, subscribed);
            && (r.Success? ==> Delivered(cfg, old(conn.committed), run, m, r.value))
            && (r == Failure(Uncaught) ==> Escaped(cfg, old(conn.committed), run, m))
            && (r.Failure? && r.error.Store? ==>
                  && r.error.error == Persistence && NotAsked(m)
                  && (old(conn.faults) < conn.faults || !Acceptance.Readable(conn.committed, run)))
  {
    ghost var start := conn.committed;
    var prepared := Prepare(cfg, policy, conn, mutex, run);
    if prepared.Failure? {
      return Failure(Store(Persistence));
    }
    var composed := prepared.value;
    if composed.Failure? {
      Unrendered(cfg, start, run, Mailing(mailer.sent, mailer.sent, mailer.answers, mailer.answers, subscribed), composed.error);
      return if ReasonOf(composed.error).Some?
        then Success(Verdict(OutcomeFailure, 0, 0, ReasonOf(composed.error)))
        else Failure(Uncaught);
    }
    ghost var preparedAt := conn.committed;
    AwaitSteady(policy, conn, run);
    SteadyTransitive(start, preparedAt, conn.committed, run);
    var recipients := CountRecipients(conn, mutex, subscribed);
    if recipients.Failure? {
      return Failure(Store(Persistence));
    }
    r := Deliver(mailer, composed.value, recipients.value);
    ghost var m := Mailing(old(mailer.sent), mailer.sent, old(mailer.answers), mailer.answers, subscribed);
    if subscribed == 0 {
      Unsubscribed(cfg, start, run, m, composed.value);
    } else {
      Answered(cfg, start, run, m, composed.value, mailer.answers[|old(mailer.answers)|]);
    }
  }

  /** At most one email was handed over, and it is the one the run's content at `start` calls for. */
  ghost predicate MailedAtMostOnce(cfg: Rendering, start: Db, run: string, before: seq<Email>, after: seq<Email>) {
    after == before || (exists email :: after == before + [email] && IsEmailOf(cfg, start, run, email))
  }

  /** One delivery, whatever other tasks commit in between and whatever fails. `start` is the
      store in which it entered SENDING. The mailer is called at most once, with the email that
      content calls for. If the task returns, its run is terminal and its record has gained
      exactly the verdict the content, the subscribers and the mailer's answer call for. */
  method Execute(cfg: Rendering, policy: Policy, conn: Connection<Db>, mutex: Lock, mailer: Mailer, run: string,
                 subscribed: nat)
    returns (r: Result<Verdict, TaskError>, ghost start: Option<Db>)
    requires conn.Valid() && mutex.Valid() && !mutex.held && mailer.Valid() && Sound(conn.committed)
    modifies conn, mutex, mailer
    ensures conn.Valid() && mutex.Valid() && !mutex.held && mailer.Valid() && Sound(conn.committed)
    ensures start.None? ==>
              && r.Failure? && mailer.sent == old(mailer.sent)
              && (old(conn.faults) < conn.faults || !Startable(conn.committed, run))
    ensures start.Some? ==> run in start.value.runs && start.value.runs[run].state.Sending?
    ensures start.Some? ==> MailedAtMostOnce(cfg, start.value, run, old(mailer.sent), mailer.sent)
    ensures var m := Mailing(old(mailer.sent), mailer.sent, old(mailer.answers), mailer.answers, subscribed);
            && (r.Success? ==>
                  && Delivered(cfg, start.value, run, m, r.value)
                  && Recorded(start.value, conn.committed, run, r.value.outcome)
                  && EndsWith(conn.committed.audit, run, r.value))
            && (r == Failure(Uncaught) ==> start.Some? && Escaped(cfg, start.value, run, m))
    // The store fails a started delivery only by failing an operation, or a row that cannot be rebuilt.
    ensures r.Failure? && r.error.Store? && start.Some? ==>
              r.error.error == Persistence && (old(conn.faults) < conn.faults || !Acceptance.Readable(conn.committed, run))
    // An illegal transition is only ever the first one, before anything was rendered or sent.
    ensures r.Failure? && r.error.Store? && r.error.error.IllegalTransition? ==>
              start.None? && r.error.error.target == Sending
  {
    start := None;
    Await(policy, conn, run);
    ghost var before := conn.committed;
    var now: Time := *;
    var started := Start(policy, conn, mutex, run, now);
    Acceptance.StartExact(policy, before, run, now);
    if started.Failure? {
      return Failure(Store(started.error)), None;
    }
    StartSendingEffect(policy, before, conn.committed, run, now);
    start := Some(conn.committed);
    r := Proceed(cfg, policy, conn, mutex, mailer, run, subscribed);
  }

  /** A delivery from the moment its run is being sent. */
  method Proceed(cfg: Rendering, policy: Policy, conn: Connection<Db>, mutex: Lock, mailer: Mailer, run: string,
                 subscribed: nat)
    returns (r: Result<Verdict, TaskError>)
    requires conn.Valid() && mutex.Valid() && !mutex.held && mailer.Valid() && Sound(conn.committed)
    requires run in conn.committed.runs && conn.committed.runs[run].state.Sending?
    modifies conn, mutex, mailer
    ensures conn.Valid() && mutex.Valid() && !mutex.held && mailer.Valid() && Sound(conn.committed)
    ensures var m := Mailing(old(mailer.sent), mailer.sent, old(mailer.answers), mailer.answers, subscribed);
            && MailedFor(cfg, old(conn.committed), run, m)
            && (r.Success? ==>
                  && Delivered(cfg, old(conn.committed), run, m, r.value)
                  && Recorded(old(conn.committed), conn.committed, run, r.value.outcome)
                  && EndsWith(conn.committed.audit, run, r.value))
            && (r == Failure(Uncaught) ==> Escaped(cfg, old(conn.committed), run, m))
    ensures r.Failure? && r.error.Store? ==>
              r.error.error == Persistence && (old(conn.faults) < conn.faults || !Acceptance.Readable(conn.committed, run))
  {
    ghost var start := conn.committed;
    var verdict := RenderAndSend(cfg, policy, conn, mutex, mailer, run, subscribed);
    MailedWhat(cfg, start, run, Mailing(old(mailer.sent), mailer.sent, old(mailer.answers), mailer.answers, subscribed), verdict);
    if verdict.Failure? {
      return Failure(verdict.error);
    }
    ghost var sentAt := conn.committed;
    AwaitSteady(policy, conn, run);
    SteadyTransitive(start, sentAt, conn.committed, run);
    var now: Time := *;
    var finished := Finish(conn, mutex, run, verdict.value, now);
    return if finished.Failure? then Failure(Store(finished.error)) else Success(verdict.value);
  }

  ghost predicate MailedFor(cfg: Rendering, start: Db, run: string, m: Mailing) {
    MailedAtMostOnce(cfg, start, run, m.sent, m.sent')
  }

  lemma MailedWhat(cfg: Rendering, start: Db, run: string, m: Mailing, r: Result<Verdict, TaskError>)
    requires match r
             case Success(v) => Delivered(cfg, start, run, m, v)
             case Failure(Uncaught) => Escaped(cfg, start, run, m)
             case Failure(_) => NotAsked(m)
    ensures MailedFor(cfg, start, run, m)
  {
  }

  /** The run can be read and is ready to be sent. */
  predicate Startable(db: Db, run: string) {
    Acceptance.Readable(db, run) && db.runs[run].state.Ready?
  }

  lemma StartSendingEffect(policy: Policy, db: Db, db': Db, run: string, now: Time)
    requires Sound(db) && Apply(policy, db, StartSending(run, now)) == Success(db')
    ensures Sound(db') && run in db'.runs && db'.runs[run].state.Sending?
  {
    CommitSound(policy, db, StartSending(run, now));
  }

  /** The run ended where the outcome says, unless orphaned first, with one more record of it. */
  ghost predicate Recorded(start: Db, end: Db, run: string, outcome: AuditOutcome) {
    && run in end.runs
    && (end.runs[run].state.Orphaned? || end.runs[run].state == if outcome.OutcomeSuccess? then Sent else Failed)
    && SendOutcomes(end.audit, run) == SendOutcomes(start.audit, run) + [outcome]
  }
}
