/** Every unit of work of the run lifecycle, as one atomic step on the database. Module
    Serializability justifies the atomicity; module UseCases runs the same steps statement by
    statement. */
module Transactions {
  import opened Wrappers
  import opened Sequences
  import opened RunStates
  import opened Database
  import opened Outbox
  import StageStates

  /** The configured disposition policy and dispatcher limits. */
  datatype Policy = Policy(
    dispositions: seq<Disposition>, overrides: map<string, seq<Disposition>>,
    batchLimit: Positive, staleAfter: Positive, maxAttempts: Positive)

  /** The per-pipeline list when configured, else the global one. */
  function ResolveActions(policy: Policy, pipeline: string): seq<Disposition> {
    if pipeline in policy.overrides then policy.overrides[pipeline] else policy.dispositions
  }

  /** What a pipeline submits for a stage. */
  datatype Submission = Submission(
    stageId: string, report: Option<string>, body: Option<string>, position: Option<Position>)

  datatype Tx =
    | Begin(run: string, info: RunInfo, now: Time)
    | Submit(run: string, submission: Submission, now: Time)
    | Finalize(run: string, now: Time)
    | StartSending(run: string, now: Time)
    | FinishSent(run: string, recipients: nat, attachments: nat, now: Time)
    | FinishFailed(run: string, reason: FailureReason, recipients: nat, now: Time)
    | Orphan(run: string, now: Time)
    | Resend(run: string, outcome: AuditOutcome, recipients: nat, now: Time)
    | Abandon(now: Time)
    | Claim(now: Time)
    | Settle(action: nat, error: Option<string>, now: Time)

  // ---- Requests ------------------------------------------------------------------

  function InitialStages(declared: seq<DeclaredStage>): (stages: map<string, Stage>)
  {
    if declared == [] then map[]
    else
      var ds := declared[|declared| - 1];
      InitialStages(declared[..|declared| - 1])
        [ds.stageId := Stage(ds.stageId, StageStates.Pending, ds.template, None, None, None, None)]
  }

  function StageIds(declared: seq<DeclaredStage>): (ids: seq<string>)
    ensures |ids| == |declared|
    ensures forall i :: 0 <= i < |ids| ==> ids[i] == declared[i].stageId
  {
    seq(|declared|, i requires 0 <= i < |declared| => declared[i].stageId)
  }

  /** A fresh run. Run ids are UUIDs drawn for the occasion, taken to be distinct. */
  function BeginTx(db: Db, run: string, info: RunInfo, now: Time): Result<Db, Error> {
    if run in db.runs || !ValidInfo(info) || info.createdAt != now then Failure(InvalidValue)
    else Success(Db(
      db.runs[run := Run(info, Initiated, now)],
      db.stages[run := InitialStages(info.declared)],
      db.audit + [BeginRun(now, run, info.pipeline, StageIds(info.declared))],
      db.outbox))
  }

  /** The stage row a submission replaces, or why it is refused. */
  function AcceptingStage(db: Db, run: string, stageId: string): Result<Stage, Error> {
    var r :- ReadRun(db, run);
    if !Collecting(r.state) then Failure(InvalidRunState(r.state))
    else if stageId !in DeclaredIds(r.info) then Failure(UnknownStage)
    else if run !in db.stages || stageId !in db.stages[run] then Failure(UnknownStage)
    else
      var stage := db.stages[run][stageId];
      if StageStates.Terminal(stage.state) || stage.state.InProgress? then Failure(InvalidStageState(stage.state))
      else Success(stage)
  }

  function SubmittedStage(stage: Stage, s: Submission, now: Time): Stage {
    Stage(s.stageId, if stage.state.Pending? then StageStates.Submitted else StageStates.Retried,
          stage.template, s.report, s.body, s.position, Some(now))
  }

  function SubmitEvent(db: Db, run: string, stage: Stage, next: Stage, now: Time): AuditEvent
    requires run in db.runs
  {
    SubmitStageReport(now, run, next.stageId, stage.state, next.state, !stage.state.Pending?,
                      db.runs[run].state.Initiated?)
  }

  function SubmitTx(db: Db, run: string, s: Submission, now: Time): Result<Db, Error> {
    var stage :- AcceptingStage(db, run, s.stageId);
    var next := SubmittedStage(stage, s, now);
    if !ValidStage(next) then Failure(InvalidValue)
    else Success(Db(
      if db.runs[run].state.Initiated? then db.runs[run := Run(db.runs[run].info, Aggregating, now)] else db.runs,
      db.stages[run := db.stages[run][s.stageId := next]],
      db.audit + [SubmitEvent(db, run, stage, next, now)],
      db.outbox))
  }

  /** A run moved to `target`, with the event that records it. */
  function Move(db: Db, run: string, target: RunState, event: AuditEvent, now: Time): Db
    requires run in db.runs
  {
    db.(runs := db.runs[run := Run(db.runs[run].info, target, now)], audit := db.audit + [event])
  }

  function FinalizeTx(db: Db, run: string, now: Time): Result<Db, Error> {
    var r :- ReadRun(db, run);
    if !r.state.Aggregating? then Failure(InvalidRunState(r.state))
    else Success(Move(db, run, Ready, FinalizeRun(now, run, Aggregating, Ready), now))
  }

  // ---- Delivery ------------------------------------------------------------------

  function StartSendingTx(db: Db, run: string, now: Time): Result<Db, Error> {
    var r :- ReadRun(db, run);
    if !CanTransition(r.state, Sending) then Failure(IllegalTransition(r.state, Sending))
    else Success(Move(db, run, Sending, RunStateTransition(now, run, r.state, Sending), now))
  }

  /** Success or failure of a delivery. A run meanwhile orphaned stays orphaned: the outcome
      is only recorded. */
  function FinishTx(db: Db, run: string, target: RunState, outcome: AuditOutcome, recipients: nat,
                    attachments: nat, reason: Option<FailureReason>, now: Time): Result<Db, Error> {
    var r :- ReadRun(db, run);
    if Terminal(r.state) then
      Success(db.(audit := db.audit +
        [SendReport(now, run, outcome, r.state, r.state, recipients, attachments, reason)]))
    else if !CanTransition(r.state, target) then Failure(IllegalTransition(r.state, target))
    else Success(Move(db, run, target,
      SendReport(now, run, outcome, r.state, target, recipients, attachments, reason), now))
  }

  function FinishSentTx(db: Db, run: string, recipients: nat, attachments: nat, now: Time): Result<Db, Error> {
    FinishTx(db, run, Sent, OutcomeSuccess, recipients, attachments, None, now)
  }

  function FinishFailedTx(db: Db, run: string, reason: FailureReason, recipients: nat, now: Time): Result<Db, Error> {
    FinishTx(db, run, Failed, OutcomeFailure, recipients, 0, Some(reason), now)
  }

  function ResendTx(db: Db, run: string, outcome: AuditOutcome, recipients: nat, now: Time): Db {
    db.(audit := db.audit + [ResendReport(now, run, outcome, recipients)])
  }

  // ---- Sweeping ------------------------------------------------------------------

  /** A run the sweeper can still orphan. */
  predicate Sweepable(db: Db, run: string) {
    ReadRun(db, run).Success? && !Terminal(db.runs[run].state)
  }

  function OrphanTx(policy: Policy, db: Db, run: string, now: Time): Db
    requires Sweepable(db, run)
  {
    var r := db.runs[run];
    var actions := ResolveActions(policy, r.info.pipeline);
    Move(db, run, Orphaned, SweepOrphan(now, run, r.state, Orphaned, r.updatedAt, actions,
                                        PendingStages(StagesOf(db, run))), now)
      .(outbox := db.outbox + NewRows(run, actions, now))
  }

  // ---- Dispatching -----------------------------------------------------------------

  function ExhaustedBatch(policy: Policy, rows: seq<OutboxRow>, now: Time): (ids: seq<nat>)
    ensures forall i :: 0 <= i < |ids| ==> ids[i] < |rows|
  {
    var exhausted := StuckExhausted(now - policy.staleAfter, policy.maxAttempts);
    ClaimedOrderTotal(rows, exhausted);
    BatchIsPrefix(rows, exhausted, ByClaimed(rows), policy.batchLimit);
    var ids := Batch(rows, exhausted, ByClaimed(rows), policy.batchLimit);
    assert forall i :: 0 <= i < |ids| ==> ids[i] in ids;
    ids
  }

  function AbandonEvents(rows: seq<OutboxRow>, ids: seq<nat>, now: Time): (events: seq<AuditEvent>)
    requires forall i :: 0 <= i < |ids| ==> ids[i] < |rows|
    ensures |events| == |ids|
    ensures forall i :: 0 <= i < |ids| ==>
              events[i] == ActionAbandoned(now, rows[ids[i]].run, ids[i], rows[ids[i]].attempts)
  {
    seq(|ids|, i requires 0 <= i < |ids| => ActionAbandoned(now, rows[ids[i]].run, ids[i], rows[ids[i]].attempts))
  }

  const ABANDONED := "abandoned: attempts exhausted"

  function AbandonTx(policy: Policy, db: Db, now: Time): Result<Db, Error> {
    var ids := ExhaustedBatch(policy, db.outbox, now);
    var rows := Update(db.outbox, ids, AbandonAt(now, ABANDONED));
    if !AllValid(rows) then Failure(Persistence)
    else Success(db.(outbox := rows, audit := db.audit + AbandonEvents(db.outbox, ids, now)))
  }

  function FreshBatch(policy: Policy, rows: seq<OutboxRow>): seq<nat> {
    Batch(rows, Unclaimed(), ByEnqueued(rows), policy.batchLimit)
  }

  /** Stuck rows fill what the fresh ones leave of the batch; they are selected after the
      fresh ones have been stamped. */
  function StuckBatch(policy: Policy, rows: seq<OutboxRow>, now: Time): seq<nat> {
    var unclaimed := FreshBatch(policy, rows);
    var stamped := Update(rows, unclaimed, ClaimAt(now));
    if |unclaimed| < policy.batchLimit then
      Batch(stamped, StuckBelow(now - policy.staleAfter, policy.maxAttempts), ByClaimed(stamped),
            policy.batchLimit - |unclaimed|)
    else []
  }

  function ClaimedRows(policy: Policy, rows: seq<OutboxRow>, now: Time): seq<OutboxRow> {
    Update(Update(rows, FreshBatch(policy, rows), ClaimAt(now)), StuckBatch(policy, rows, now), ReclaimAt(now))
  }

  /** The rows claimed, in the order their handlers will run. */
  function ClaimedIds(policy: Policy, rows: seq<OutboxRow>, now: Time): seq<nat> {
    FreshBatch(policy, rows) + StuckBatch(policy, rows, now)
  }

  /** A claim also loads each row's run: one that cannot be rebuilt aborts the whole claim. */
  predicate Loadable(db: Db, ids: seq<nat>) {
    forall id :: id in ids && id < |db.outbox| ==> ReadRun(db, db.outbox[id].run) != Failure(Persistence)
  }

  function ClaimTx(policy: Policy, db: Db, now: Time): Result<Db, Error> {
    var rows := ClaimedRows(policy, db.outbox, now);
    if !AllValid(rows) || !Loadable(db, ClaimedIds(policy, db.outbox, now)) then Failure(Persistence)
    else Success(db.(outbox := rows))
  }

  function SettleChange(error: Option<string>, now: Time): OutboxRow -> OutboxRow {
    if error.Some? then FailAt(now, error.value) else CompleteAt(now)
  }

  function SettleTx(db: Db, action: nat, error: Option<string>, now: Time): Result<Db, Error> {
    var rows := Update(db.outbox, [action], SettleChange(error, now));
    if !AllValid(rows) then Failure(Persistence) else Success(db.(outbox := rows))
  }

  // ---- One step ------------------------------------------------------------------

  function Apply(policy: Policy, db: Db, tx: Tx): Result<Db, Error> {
    match tx
    case Begin(run, info, now) => BeginTx(db, run, info, now)
    case Submit(run, s, now) => SubmitTx(db, run, s, now)
    case Finalize(run, now) => FinalizeTx(db, run, now)
    case StartSending(run, now) => StartSendingTx(db, run, now)
    case FinishSent(run, recipients, attachments, now) => FinishSentTx(db, run, recipients, attachments, now)
    case FinishFailed(run, reason, recipients, now) => FinishFailedTx(db, run, reason, recipients, now)
    case Orphan(run, now) =>
      if Sweepable(db, run) then Success(OrphanTx(policy, db, run, now)) else Failure(InvalidValue)
    case Resend(run, outcome, recipients, now) => Success(ResendTx(db, run, outcome, recipients, now))
    case Abandon(now) => AbandonTx(policy, db, now)
    case Claim(now) => ClaimTx(policy, db, now)
    case Settle(action, error, now) => SettleTx(db, action, error, now)
  }

  /** A unit of work that fails is rolled back. */
  function Commit(policy: Policy, db: Db, tx: Tx): Db {
    match Apply(policy, db, tx)
    case Success(db') => db'
    case Failure(_) => db
  }

  /** The database after any sequence of units of work. */
  function Commits(policy: Policy, db: Db, txs: seq<Tx>): Db {
    if txs == [] then db
    else Commit(policy, Commits(policy, db, txs[..|txs| - 1]), txs[|txs| - 1])
  }
}
