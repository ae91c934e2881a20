/** The running service: delivery tasks, resends, sweeper ticks and the dispatcher, each
    between two of its units of work, over the shared store. A crash wipes memory; the store
    keeps what was committed. */
module Lifecycle {
  import opened Wrappers
  import opened Sequences
  import opened RunStates
  import opened Database
  import opened Outbox
  import opened Transactions
  import opened Assembly

  datatype World = World(rendering: Rendering, policy: Policy, sweepLimit: Positive, runTimeout: nat)

  // ---- Program counters ----------------------------------------------------------------

  /** Where a delivery task (`AssembleAndDeliverUseCase.execute`) stands. */
  datatype TaskPc =
    | Scheduled
    | Holding(info: RunInfo)
    | Loaded(info: RunInfo, rows: seq<Stage>)
    | Composed(info: RunInfo, email: Email)
    | Addressed(info: RunInfo, email: Email, recipients: nat)
    | Finishing(outcome: AuditOutcome, reason: Option<FailureReason>, recipients: nat, attachments: nat)
    | Returned(outcome: AuditOutcome)
    | Dead

  /** The mailer accepted the email, raised one of the two errors delivery translates, or
      raised anything else. */
  datatype Answer = Accepted | SizeExceeded | Refused | Broken

  /** `answer` is what the mailer replied, once it was called. */
  datatype Task = Task(run: string, pc: TaskPc, answer: Option<Answer>)

  /** Where a manual resend (`ResendRunUseCase.execute`) stands. */
  datatype ResendPc =
    | Checked(info: RunInfo)
    | Opened(info: RunInfo)
    | Reloaded(info: RunInfo, rows: seq<Stage>)
    | Recomposed(email: Email)
    | Resent(outcome: AuditOutcome, recipients: nat)
    | Over

  datatype ResendTask = ResendTask(run: string, pc: ResendPc)

  /** One sweeper tick: its scan's candidates, how many it has dealt with, what it moved. */
  datatype Sweep = Sweep(
    candidates: seq<string>, next: nat, moved: seq<string>, orphaned: nat, enqueued: nat, alive: bool)

  datatype Dispatcher =
    | Resting
    | Claiming
    | Handling(todo: seq<nat>, outcomes: seq<(nat, Option<string>)>)
    | Settling(rest: seq<(nat, Option<string>)>)

  /** One call of the mailer with a run's report. */
  datatype Mail = Mail(run: string, email: Email, resend: bool)

  /** The declaration and stage table of a run when its finalization committed. */
  datatype Snapshot = Snapshot(info: RunInfo, stages: map<string, Stage>)

  datatype Sys = Sys(
    db: Db,
    tasks: seq<Task>, resends: seq<ResendTask>, sweeps: seq<Sweep>, dispatcher: Dispatcher,
    // What has happened, for the record: mailer calls, claims, handler invocations, and what
    // was finalized.
    mail: seq<Mail>, claims: seq<nat>, handled: seq<nat>, finalized: map<string, Snapshot>)

  const INITIAL := Sys(EMPTY_DB, [], [], [], Resting, [], [], [], map[])

  // ---- Steps ---------------------------------------------------------------------------

  datatype TaskAct =
    | Start(now: Time)
    | Load(rows: seq<Stage>)
    | DoCompose
    | Address(recipients: nat)
    | SendMail(result: Answer)
    | Finish(now: Time)
    | Abort

  datatype ResendAct =
    | Open
    | Reload(rows: seq<Stage>)
    | Recompose
    | SendAgain(recipients: nat, result: Answer)
    | Audit(now: Time)
    | GiveUp

  datatype DispatchAct =
    | DoAbandon(now: Time)
    | DoClaim(now: Time)
    | Handle(invoked: bool, error: Option<string>)
    | DoSettle(now: Time)
    | Fail

  datatype Step =
    | BeginStep(run: string, info: RunInfo, now: Time)
    | SubmitStep(run: string, submission: Submission, now: Time)
    | FinalizeStep(run: string, now: Time)
    | TaskStep(task: nat, taskAct: TaskAct)
    | ResendStart(run: string)
    | ResendStep(resend: nat, resendAct: ResendAct)
    | SweepScan(now: Time, candidates: seq<string>)
    | SweepStep(sweep: nat, now: Time)
    | SweepAbort(sweep: nat)
    | DispatchStep(dispatchAct: DispatchAct)
    | Crash

  /** `list_expired`: up to `limit` of the expired runs, oldest first. SQL leaves the order of
      equal timestamps open. */
  ghost predicate ExpiredBatch(db: Db, cutoff: Time, limit: nat, batch: seq<string>) {
    && Distinct(batch) && |batch| <= limit
    && (forall id :: id in batch ==> Expired(db, cutoff, id))
    && (|batch| < limit ==> forall id :: Expired(db, cutoff, id) ==> id in batch)
    && (forall i, j :: 0 <= i < j < |batch| ==> NotLater(db, batch[i], batch[j]))
    && (forall a, b :: a in batch && Expired(db, cutoff, b) && b !in batch ==> NotLater(db, a, b))
  }

  predicate NotLater(db: Db, a: string, b: string) {
    a in db.runs && b in db.runs && db.runs[a].updatedAt <= db.runs[b].updatedAt
  }

  predicate Expired(db: Db, cutoff: Time, id: string) {
    id in db.runs && db.runs[id].updatedAt <= cutoff && !Terminal(db.runs[id].state)
  }

  function ReasonOf(e: RenderError): Option<FailureReason> {
    match e
    case TemplateFailed => Some(TemplateRender)
    case RenderedTooLarge => Some(RenderedSizeExceeded)
    case ContextTooLarge => Some(ContextSizeExceeded)
    case ContextInvalid => Some(ContextSchemaViolation)
    case Unexpected => None
  }

  function Perform(w: World, s: Sys, tx: Tx): Sys {
    s.(db := Commit(w.policy, s.db, tx))
  }

  function SetTask(s: Sys, i: nat, pc: TaskPc): Sys
    requires i < |s.tasks|
  {
    s.(tasks := s.tasks[i := s.tasks[i].(pc := pc)])
  }

  function SetResend(s: Sys, i: nat, pc: ResendPc): Sys
    requires i < |s.resends|
  {
    s.(resends := s.resends[i := s.resends[i].(pc := pc)])
  }

  function FinishTaskTx(t: Task, now: Time): Tx
    requires t.pc.Finishing?
  {
    if t.pc.outcome.OutcomeSuccess? then FinishSent(t.run, t.pc.recipients, t.pc.attachments, now)
    else FinishFailed(t.run, if t.pc.reason.Some? then t.pc.reason.value else EmailDelivery, t.pc.recipients, now)
  }

  /** A composed report goes on to its recipients; the four render errors delivery catches
      fail the run, any other kills the task. */
  function AfterCompose(info: RunInfo, composed: Result<Email, RenderError>): TaskPc {
    match composed
    case Success(email) => Composed(info, email)
    case Failure(e) => if ReasonOf(e).Some? then Finishing(OutcomeFailure, ReasonOf(e), 0, 0) else Dead
  }

  function AfterSend(email: Email, recipients: nat, answer: Answer): TaskPc {
    match answer
    case Accepted => Finishing(OutcomeSuccess, None, recipients, |email.attachments|)
    case SizeExceeded => Finishing(OutcomeFailure, Some(EmailSizeExceeded), recipients, |email.attachments|)
    case Refused => Finishing(OutcomeFailure, Some(EmailDelivery), recipients, |email.attachments|)
    case Broken => Dead
  }

  /** Delivery: `execute`, one await at a time. An exception it does not translate kills it. */
  ghost function TaskNext(w: World, s: Sys, i: nat, act: TaskAct): Sys
    requires i < |s.tasks|
  {
    var t := s.tasks[i];
    match (act, t.pc)
    case (Start(now), Scheduled) =>
      if Apply(w.policy, s.db, StartSending(t.run, now)).Success? then
        SetTask(Perform(w, s, StartSending(t.run, now)), i, Holding(s.db.runs[t.run].info))
      else SetTask(s, i, Dead)
    case (Load(rows), Holding(info)) =>
      if t.run in s.db.stages && Lists(rows, s.db.stages[t.run]) then SetTask(s, i, Loaded(info, rows)) else s
    case (DoCompose, Loaded(info, rows)) =>
      if ReadRun(s.db, t.run).Failure? then SetTask(s, i, Dead)
      else SetTask(s, i, AfterCompose(info, Compose(w.rendering, t.run, s.db.runs[t.run].info, rows)))
    case (Address(recipients), Composed(info, email)) =>
      if recipients == 0 then SetTask(s, i, Finishing(OutcomeSuccess, None, 0, |email.attachments|))
      else SetTask(s, i, Addressed(info, email, recipients))
    case (SendMail(result), Addressed(_, email, recipients)) =>
      s.(tasks := s.tasks[i := Task(t.run, AfterSend(email, recipients, result), Some(result))], mail := s.mail + [Mail(t.run, email, false)])
    case (Finish(now), Finishing(outcome, _, _, _)) =>
      if Apply(w.policy, s.db, FinishTaskTx(t, now)).Success? then
        SetTask(Perform(w, s, FinishTaskTx(t, now)), i, Returned(outcome))
      else SetTask(s, i, Dead)
    case (Abort, _) =>
      if t.pc.Returned? then s else SetTask(s, i, Dead)
    case _ => s
  }

  function AfterRecompose(composed: Result<Email, RenderError>): ResendPc {
    match composed
    case Success(email) => Recomposed(email)
    case Failure(e) => if ReasonOf(e).Some? then Resent(OutcomeFailure, 0) else Over
  }

  ghost function ResendNext(w: World, s: Sys, i: nat, act: ResendAct): Sys
    requires i < |s.resends|
  {
    var r := s.resends[i];
    match (act, r.pc)
    case (Open, Checked(_)) =>
      if ReadRun(s.db, r.run).Success? then SetResend(s, i, Opened(s.db.runs[r.run].info)) else SetResend(s, i, Over)
    case (Reload(rows), Opened(info)) =>
      if r.run in s.db.stages && Lists(rows, s.db.stages[r.run]) then SetResend(s, i, Reloaded(info, rows)) else s
    case (Recompose, Reloaded(info, rows)) =>
      if ReadRun(s.db, r.run).Failure? then SetResend(s, i, Over)
      else SetResend(s, i, AfterRecompose(Compose(w.rendering, r.run, info, rows)))
    case (SendAgain(recipients, result), Recomposed(email)) =>
      if recipients == 0 then SetResend(s, i, Resent(OutcomeSuccess, 0))
      else
        var pc := match result
          case Accepted => Resent(OutcomeSuccess, recipients)
          case SizeExceeded => Resent(OutcomeFailure, recipients)
          case Refused => Resent(OutcomeFailure, recipients)
          case Broken => Over;
        SetResend(s, i, pc).(mail := s.mail + [Mail(r.run, email, true)])
    case (Audit(now), Resent(outcome, recipients)) =>
      SetResend(Perform(w, s, Resend(r.run, outcome, recipients, now)), i, Over)
    case (GiveUp, _) => SetResend(s, i, Over)
    case _ => s
  }

  /** One candidate: gone or meanwhile terminal is skipped, unreadable ends the tick. */
  function SweepNext(w: World, s: Sys, i: nat, now: Time): Sys
    requires i < |s.sweeps|
  {
    var sw := s.sweeps[i];
    if !sw.alive || sw.next >= |sw.candidates| then s
    else
      var run := sw.candidates[sw.next];
      match ReadRun(s.db, run)
      case Failure(Persistence) => s.(sweeps := s.sweeps[i := sw.(alive := false)])
      case Failure(_) => s.(sweeps := s.sweeps[i := sw.(next := sw.next + 1)])
      case Success(r) =>
        if Terminal(r.state) then s.(sweeps := s.sweeps[i := sw.(next := sw.next + 1)])
        else Perform(w, s, Orphan(run, now)).(sweeps := s.sweeps[i :=
          Sweep(sw.candidates, sw.next + 1, sw.moved + [run], sw.orphaned + 1,
                sw.enqueued + |ResolveActions(w.policy, r.info.pipeline)|, true)])
  }

  function DispatchNext(w: World, s: Sys, act: DispatchAct): Sys {
    match (act, s.dispatcher)
    case (DoAbandon(now), Resting) =>
      if Apply(w.policy, s.db, Abandon(now)).Success? then Perform(w, s, Abandon(now)).(dispatcher := Claiming) else s
    case (DoClaim(now), Claiming) =>
      var ids := ClaimedIds(w.policy, s.db.outbox, now);
      if Apply(w.policy, s.db, Claim(now)).Success? then
        Perform(w, s, Claim(now)).(dispatcher := Handling(ids, []), claims := s.claims + ids)
      else s.(dispatcher := Resting)
    case (Handle(invoked, error), Handling(todo, outcomes)) =>
      if todo == [] then s.(dispatcher := Settling(outcomes))
      else if !invoked && error.None? then s
      else s.(dispatcher := Handling(todo[1..], outcomes + [(todo[0], error)]),
              handled := if invoked then s.handled + [todo[0]] else s.handled)
    case (DoSettle(now), Settling(rest)) =>
      if rest == [] then s.(dispatcher := Resting)
      else if Apply(w.policy, s.db, Settle(rest[0].0, rest[0].1, now)).Success? then
        Perform(w, s, Settle(rest[0].0, rest[0].1, now)).(dispatcher := Settling(rest[1..]))
      else s.(dispatcher := Resting)
    case (Fail, _) => s.(dispatcher := Resting)
    case _ => s
  }

  /** Memory is lost; a task that had returned stays on record. */
  function Wipe(tasks: seq<Task>): (r: seq<Task>)
    ensures |r| == |tasks|
    ensures forall i :: 0 <= i < |r| ==> r[i] == if tasks[i].pc.Returned? then tasks[i] else tasks[i].(pc := Dead)
  {
    seq(|tasks|, i requires 0 <= i < |tasks| => if tasks[i].pc.Returned? then tasks[i] else tasks[i].(pc := Dead))
  }

  ghost function Next(w: World, s: Sys, step: Step): Sys {
    match step
    case BeginStep(run, info, now) => Perform(w, s, Begin(run, info, now))
    case SubmitStep(run, submission, now) => Perform(w, s, Submit(run, submission, now))
    case FinalizeStep(run, now) =>
      if Apply(w.policy, s.db, Finalize(run, now)).Success? && run in s.db.stages then
        Perform(w, s, Finalize(run, now)).(
          tasks := s.tasks + [Task(run, Scheduled, None)],
          finalized := s.finalized[run := Snapshot(s.db.runs[run].info, s.db.stages[run])])
      else s
    case TaskStep(i, act) => if i < |s.tasks| then TaskNext(w, s, i, act) else s
    case ResendStart(run) =>
      if ReadRun(s.db, run).Success? && (s.db.runs[run].state.Sent? || s.db.runs[run].state.Failed?) then
        s.(resends := s.resends + [ResendTask(run, Checked(s.db.runs[run].info))])
      else s
    case ResendStep(i, act) => if i < |s.resends| then ResendNext(w, s, i, act) else s
    case SweepScan(now, candidates) =>
      if && ExpiredBatch(s.db, now - w.runTimeout, w.sweepLimit, candidates)
         && forall id :: id in candidates ==> ReadRun(s.db, id).Success? then
        s.(sweeps := s.sweeps + [Sweep(candidates, 0, [], 0, 0, true)])
      else s
    case SweepStep(i, now) => if i < |s.sweeps| then SweepNext(w, s, i, now) else s
    case SweepAbort(i) =>
      if i < |s.sweeps| then s.(sweeps := s.sweeps[i := s.sweeps[i].(alive := false)]) else s
    case DispatchStep(act) => DispatchNext(w, s, act)
    case Crash => s.(tasks := Wipe(s.tasks), resends := [], sweeps := [], dispatcher := Resting)
  }

  /** The service after `steps` from `s`. */
  ghost function After(w: World, s: Sys, steps: seq<Step>): Sys {
    if steps == [] then s
    else Next(w, After(w, s, steps[..|steps| - 1]), steps[|steps| - 1])
  }

  /** The service after any sequence of steps since it was set up. */
  ghost function Reached(w: World, steps: seq<Step>): Sys {
    After(w, INITIAL, steps)
  }

  lemma {:induction false} AfterConcat(w: World, s: Sys, a: seq<Step>, b: seq<Step>)
    ensures After(w, s, a + b) == After(w, After(w, s, a), b)
  {
    if b == [] {
      assert a + b == a;
    } else {
      var n := |b| - 1;
      AfterConcat(w, s, a, b[..n]);
      assert (a + b)[..|a + b| - 1] == a + b[..n];
    }
  }

  lemma AfterOne(w: World, s: Sys, step: Step)
    ensures After(w, s, [step]) == Next(w, s, step)
  {
    assert [step][..0] == [];
    assert After(w, s, []) == s;
  }

  // ---- One commit per step ---------------------------------------------------------------

  /** The unit of work a step attempts, if any. */
  function Attempt(s: Sys, step: Step): Option<Tx> {
    match step
    case BeginStep(run, info, now) => Some(Begin(run, info, now))
    case SubmitStep(run, submission, now) => Some(Submit(run, submission, now))
    case FinalizeStep(run, now) => Some(Finalize(run, now))
    case TaskStep(i, act) =>
      if i >= |s.tasks| then None
      else if act.Start? && s.tasks[i].pc.Scheduled? then Some(StartSending(s.tasks[i].run, act.now))
      else if act.Finish? && s.tasks[i].pc.Finishing? then Some(FinishTaskTx(s.tasks[i], act.now))
      else None
    case ResendStep(i, act) =>
      if i < |s.resends| && act.Audit? && s.resends[i].pc.Resent? then
        Some(Resend(s.resends[i].run, s.resends[i].pc.outcome, s.resends[i].pc.recipients, act.now))
      else None
    case SweepStep(i, now) =>
      if i < |s.sweeps| && s.sweeps[i].next < |s.sweeps[i].candidates| then
        Some(Orphan(s.sweeps[i].candidates[s.sweeps[i].next], now))
      else None
    case DispatchStep(act) =>
      if act.DoAbandon? then Some(Abandon(act.now))
      else if act.DoClaim? then Some(Claim(act.now))
      else if act.DoSettle? && s.dispatcher.Settling? && s.dispatcher.rest != [] then
        Some(Settle(s.dispatcher.rest[0].0, s.dispatcher.rest[0].1, act.now))
      else None
    case _ => None
  }

  /** Each step commits its unit of work or leaves the store alone. */
  lemma OneCommit(w: World, s: Sys, step: Step)
    ensures var s' := Next(w, s, step);
            || s'.db == s.db
            || (Attempt(s, step).Some? && s'.db == Commit(w.policy, s.db, Attempt(s, step).value))
  {
  }

  // ---- The report of a finalized run -----------------------------------------------------

  /** The rows of a stage table in some order. */
  ghost function Listing(stages: map<string, Stage>): (rows: seq<Stage>)
    ensures Lists(rows, stages)
  {
    ListingOf(stages.Values)
  }

  ghost function ListingOf(values: set<Stage>): (rows: seq<Stage>)
    decreases |values|
    ensures multiset(rows) == multiset(values)
  {
    if values == {} then []
    else
      var s :| s in values;
      var rows := ListingOf(values - {s}) + [s];
      assert values == (values - {s}) + {s};
      rows
  }

  /** The email of a run as a function of what was finalized. */
  ghost function Report(w: World, run: string, snapshot: Snapshot): Result<Email, RenderError> {
    Compose(w.rendering, run, snapshot.info, Listing(snapshot.stages))
  }

  function DeliveryOf(run: string): Mail -> Option<Email> {
    (m: Mail) => if m.run == run && !m.resend then Some(m.email) else None
  }

  /** The emails delivery tasks handed to the mailer for this run. */
  function Deliveries(mail: seq<Mail>, run: string): seq<Email> {
    Collect(mail, DeliveryOf(run))
  }
}
