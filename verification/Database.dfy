/** The tables of the lifecycle store and the values in them. */
module Database {
  import opened Wrappers
  import opened Sequences
  import opened RunStates
  import StageStates

  type StageState = StageStates.StageState

  /** Microseconds; module Timestamps shows the stored text orders the same way. */
  type Time = int

  type Positive = n: nat | 1 <= n witness 1

  datatype TemplateRef = TemplateRef(name: string, version: string)

  datatype AttachmentMode = SingleAggregated | PerStage

  datatype Position = BeforeStagesSummary | AfterStagesSummary

  datatype Disposition = SendPartialFlagged | DiscardSilently | NotifySubscribers | NotifyAdmins

  datatype DeclaredStage = DeclaredStage(stageId: string, order: nat, template: TemplateRef)

  /** The part of a run that is fixed when it begins. */
  datatype RunInfo = RunInfo(
    pipeline: string, tags: set<string>, declared: seq<DeclaredStage>,
    mode: AttachmentMode, aggregation: Option<TemplateRef>, createdAt: Time)

  datatype Run = Run(info: RunInfo, state: RunState, updatedAt: Time)

  datatype Stage = Stage(
    stageId: string, state: StageState, template: TemplateRef,
    report: Option<string>, body: Option<string>, position: Option<Position>,
    submittedAt: Option<Time>)

  /** A `sweeper_actions` row. Rows are never deleted, so a row's id is its index. */
  datatype OutboxRow = OutboxRow(
    run: string, action: Disposition, enqueuedAt: Time,
    claimedAt: Option<Time>, completedAt: Option<Time>,
    attempts: nat, lastError: Option<string>)

  datatype AuditOutcome = OutcomeSuccess | OutcomeFailure

  /** The closed vocabulary of a failed run's `failure_reason`. */
  datatype FailureReason =
    | TemplateRender | RenderedSizeExceeded | ContextSizeExceeded | ContextSchemaViolation
    | EmailDelivery | EmailSizeExceeded

  datatype AuditEvent =
    | BeginRun(at: Time, run: string, pipeline: string, declared: seq<string>)
    | SubmitStageReport(at: Time, run: string, stage: string, priorStage: StageState, nextStage: StageState,
                        wasRetry: bool, toAggregating: bool)
    | FinalizeRun(at: Time, run: string, prior: RunState, next: RunState)
    | RunStateTransition(at: Time, run: string, prior: RunState, next: RunState)
    | SendReport(at: Time, run: string, outcome: AuditOutcome, prior: RunState, next: RunState,
                 recipients: nat, attachments: nat, reason: Option<FailureReason>)
    | ResendReport(at: Time, run: string, outcome: AuditOutcome, recipients: nat)
    | SweepOrphan(at: Time, run: string, prior: RunState, next: RunState, lastTransition: Time,
                  enqueued: seq<Disposition>, pending: set<string>)
    | ActionAbandoned(at: Time, run: string, action: nat, attempts: nat)

  /** `audit` is the full history: no lifecycle operation reads the table, and the retention
      pruner (module AuditPruner) only ever removes old rows from it. */
  datatype Db = Db(
    runs: map<string, Run>,
    stages: map<string, map<string, Stage>>,
    audit: seq<AuditEvent>,
    outbox: seq<OutboxRow>)

  const EMPTY_DB := Db(map[], map[], [], [])

  datatype Error =
    | RunNotFound
    | UnknownStage
    | InvalidRunState(state: RunState)
    | InvalidStageState(stageState: StageState)
    | IllegalTransition(source: RunState, target: RunState)
    | InvalidValue
    | Persistence

  // ---- Aggregate invariants ----------------------------------------------------

  function DeclaredIds(info: RunInfo): set<string> {
    set ds | ds in info.declared :: ds.stageId
  }

  /** What a declaration must satisfy. */
  predicate ValidInfo(info: RunInfo) {
    && (info.mode.SingleAggregated? ==> info.aggregation.Some?)
    && forall i, j :: 0 <= i < j < |info.declared| ==> info.declared[i].stageId != info.declared[j].stageId
  }

  /** `Run.__post_init__`; that the timestamps carry a zone is part of their type here. */
  predicate ValidRun(run: Run) {
    run.info.createdAt <= run.updatedAt && ValidInfo(run.info)
  }

  /** The checks as they are made: the timestamps, the mode, then the ids seen so far. */
  method CheckRun(run: Run) returns (ok: bool)
    ensures ok <==> ValidRun(run)
  {
    if run.updatedAt < run.info.createdAt {
      return false;
    }
    var info := run.info;
    if info.mode.SingleAggregated? && info.aggregation.None? {
      return false;
    }
    var seen: set<string> := {};
    for k := 0 to |info.declared|
      invariant forall id :: id in seen <==> exists i :: 0 <= i < k && info.declared[i].stageId == id
      invariant forall i, j :: 0 <= i < j < k ==> info.declared[i].stageId != info.declared[j].stageId
    {
      if info.declared[k].stageId in seen {
        return false;
      }
      seen := seen + {info.declared[k].stageId};
    }
    return true;
  }

  /** `Stage.__post_init__`. */
  predicate ValidStage(s: Stage) {
    && (s.state.Pending? ==> s.submittedAt.None?)
    && (StageStates.Contributes(s.state) ==> s.submittedAt.Some?)
    && (s.position.None? <==> s.body.None?)
  }

  /** The table's CHECK constraints. */
  predicate ValidRow(row: OutboxRow) {
    && (row.claimedAt.Some? ==> row.enqueuedAt <= row.claimedAt.value)
    && (row.completedAt.Some? ==> row.claimedAt.Some? && row.claimedAt.value <= row.completedAt.value)
  }

  // ---- Reading -------------------------------------------------------------------

  /** `run_repo.get`: a row whose update precedes its creation cannot be rebuilt. */
  function ReadRun(db: Db, id: string): Result<Run, Error> {
    if id !in db.runs then Failure(RunNotFound)
    else if db.runs[id].updatedAt < db.runs[id].info.createdAt then Failure(Persistence)
    else Success(db.runs[id])
  }

  /** `list_by_run` has no ORDER BY: it returns the rows in some order. */
  ghost predicate Lists(rows: seq<Stage>, stages: map<string, Stage>) {
    multiset(rows) == multiset(stages.Values)
  }

  function StagesOf(db: Db, run: string): map<string, Stage> {
    if run in db.stages then db.stages[run] else map[]
  }

  /** `stage_repo.list_pending_by_run`. */
  function PendingStages(stages: map<string, Stage>): set<string> {
    set id | id in stages && stages[id].state.Pending?
  }

  // ---- Projections of the audit history and of the outbox ---------------------------

  function SendOutcomeOf(run: string): AuditEvent -> Option<AuditOutcome> {
    (e: AuditEvent) => if e.SendReport? && e.run == run then Some(e.outcome) else None
  }

  /** Outcomes of the run's SEND_REPORT rows, oldest first. */
  function SendOutcomes(audit: seq<AuditEvent>, run: string): seq<AuditOutcome> {
    Collect(audit, SendOutcomeOf(run))
  }

  function OrphanListOf(run: string): AuditEvent -> Option<seq<Disposition>> {
    (e: AuditEvent) => if e.SweepOrphan? && e.run == run then Some(e.enqueued) else None
  }

  /** The `enqueued_actions` of the run's SWEEP_ORPHAN rows, oldest first. */
  function OrphanLists(audit: seq<AuditEvent>, run: string): seq<seq<Disposition>> {
    Collect(audit, OrphanListOf(run))
  }

  function ActionOf(run: string): OutboxRow -> Option<Disposition> {
    (row: OutboxRow) => if row.run == run then Some(row.action) else None
  }

  /** The run's outbox rows in action-id order. */
  function ActionsOf(outbox: seq<OutboxRow>, run: string): seq<Disposition> {
    Collect(outbox, ActionOf(run))
  }
}
