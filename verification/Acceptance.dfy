/** When each unit of work is accepted, and exactly what an accepted one leaves, read off the
    tables alone. */
module Acceptance {
  import opened Wrappers
  import opened Sequences
  import opened RunStates
  import opened Database
  import opened Outbox
  import opened Transactions
  import opened AuditReplay
  import opened Effects
  import StageStates

  // ---- What stays ------------------------------------------------------------------------------

  predicate SameRun(db: Db, db': Db, run: string) {
    && (run in db.runs <==> run in db'.runs) && (run in db.runs ==> db'.runs[run] == db.runs[run])
    && (run in db.stages <==> run in db'.stages) && (run in db.stages ==> db'.stages[run] == db.stages[run])
  }

  ghost predicate OtherRunsKept(db: Db, db': Db, run: string) {
    forall other: string :: other != run ==> SameRun(db, db', other)
  }

  /** The run's row can be rebuilt. */
  predicate Readable(db: Db, run: string) {
    run in db.runs && db.runs[run].info.createdAt <= db.runs[run].updatedAt
  }

  /** Some run's cannot. */
  ghost predicate SomeUnreadable(db: Db) {
    exists run :: run in db.runs && !Readable(db, run)
  }

  /** Why it cannot. */
  predicate Unreadable(db: Db, run: string, e: Error) {
    match e
    case RunNotFound => run !in db.runs
    case Persistence => run in db.runs && db.runs[run].updatedAt < db.runs[run].info.createdAt
    case _ => false
  }

  /** The run moved to `target` at `now`, one event was recorded, nothing else changed. */
  ghost predicate Moved(db: Db, db': Db, run: string, target: RunState, now: Time, e: AuditEvent) {
    && run in db.runs && run in db'.runs && OtherRunsKept(db, db', run)
    && db'.runs[run].info == db.runs[run].info && db'.runs[run].state == target && db'.runs[run].updatedAt == now
    && db'.stages == db.stages && db'.outbox == db.outbox && db'.audit == db.audit + [e]
  }

  // ---- Beginning -------------------------------------------------------------------------------

  /** A new run, initiated, each declared stage pending under its own template and still empty. */
  ghost predicate Began(db: Db, db': Db, run: string, info: RunInfo, now: Time) {
    && OtherRunsKept(db, db', run) && db'.outbox == db.outbox
    && run in db'.runs && db'.runs[run].info == info && db'.runs[run].state == Initiated && db'.runs[run].updatedAt == now
    && run in db'.stages && StagesBegun(info.declared, db'.stages[run])
    && (exists ids ::
          && |ids| == |info.declared| && (forall i :: 0 <= i < |ids| ==> ids[i] == info.declared[i].stageId)
          && db'.audit == db.audit + [BeginRun(now, run, info.pipeline, ids)])
  }

  ghost predicate StagesBegun(declared: seq<DeclaredStage>, stages: map<string, Stage>) {
    && (forall i :: 0 <= i < |declared| ==>
          && declared[i].stageId in stages
          && stages[declared[i].stageId]
             == Stage(declared[i].stageId, StageStates.Pending, declared[i].template, None, None, None, None))
    && (forall id :: id in stages ==> exists i :: 0 <= i < |declared| && declared[i].stageId == id)
  }

  predicate IdsDistinct(declared: seq<DeclaredStage>) {
    forall i, j :: 0 <= i < j < |declared| ==> declared[i].stageId != declared[j].stageId
  }

  lemma {:induction false} BegunRow(declared: seq<DeclaredStage>, i: nat)
    requires IdsDistinct(declared) && i < |declared|
    ensures var ds, stages := declared[i], InitialStages(declared);
            && ds.stageId in stages
            && stages[ds.stageId] == Stage(ds.stageId, StageStates.Pending, ds.template, None, None, None, None)
  {
    if i < |declared| - 1 {
      assert declared[i].stageId != declared[|declared| - 1].stageId;
      BegunRow(declared[..|declared| - 1], i);
    }
  }

  lemma BegunStages(declared: seq<DeclaredStage>)
    requires IdsDistinct(declared)
    ensures StagesBegun(declared, InitialStages(declared))
  {
    forall i | 0 <= i < |declared|
      ensures var ds, stages := declared[i], InitialStages(declared);
              && ds.stageId in stages
              && stages[ds.stageId] == Stage(ds.stageId, StageStates.Pending, ds.template, None, None, None, None)
    {
      BegunRow(declared, i);
    }
    InitialStagesKeys(declared);
    forall id | id in InitialStages(declared)
      ensures exists i :: 0 <= i < |declared| && declared[i].stageId == id
    {
      var ds :| ds in declared && ds.stageId == id;
      var i :| 0 <= i < |declared| && declared[i] == ds;
      assert declared[i].stageId == id;
    }
  }

  /** A run begins exactly when its id is new and its declaration consistent. */
  lemma BeginExact(policy: Policy, db: Db, run: string, info: RunInfo, now: Time)
    ensures var r := Apply(policy, db, Begin(run, info, now));
            && (r.Success? <==>
                  && run !in db.runs && info.createdAt == now && IdsDistinct(info.declared)
                  && (info.mode.SingleAggregated? ==> info.aggregation.Some?))
            && (r.Success? ==> Began(db, r.value, run, info, now))
            && (r.Failure? ==> r.error == InvalidValue)
  {
    if IdsDistinct(info.declared) {
      BegunStages(info.declared);
    }
    var ids := StageIds(info.declared);
    assert |ids| == |info.declared|;
  }

  // ---- Submitting ------------------------------------------------------------------------------

  predicate Declares(db: Db, run: string, id: string) {
    run in db.runs && exists i :: 0 <= i < |db.runs[run].info.declared| && db.runs[run].info.declared[i].stageId == id
  }

  /** The run can be read and is still collecting. */
  predicate TakesReports(db: Db, run: string) {
    Readable(db, run) && (db.runs[run].state.Initiated? || db.runs[run].state.Aggregating?)
  }

  predicate Submittable(db: Db, run: string, s: Submission) {
    TakesReports(db, run) && Declares(db, run, s.stageId) && (s.body.Some? <==> s.position.Some?)
  }

  /** Which of these failed. */
  predicate SubmitRefused(db: Db, run: string, s: Submission, e: Error) {
    match e
    case InvalidRunState(state) =>
      Readable(db, run) && state == db.runs[run].state && !state.Initiated? && !state.Aggregating?
    case UnknownStage => TakesReports(db, run) && !Declares(db, run, s.stageId)
    case InvalidValue =>
      TakesReports(db, run) && Declares(db, run, s.stageId) && (s.body.Some? <==> s.position.None?)
    case _ => Unreadable(db, run, e)
  }

  lemma DeclaredIdsAre(db: Db, run: string, id: string)
    requires run in db.runs
    ensures id in DeclaredIds(db.runs[run].info) <==> Declares(db, run, id)
  {
    var declared := db.runs[run].info.declared;
    if ds :| ds in declared && ds.stageId == id {
      var i :| 0 <= i < |declared| && declared[i] == ds;
    }
    if i :| 0 <= i < |declared| && declared[i].stageId == id {
      assert declared[i] in declared;
    }
  }

  /** However often the stage was submitted before: the state of its row never refuses. */
  lemma SubmittableIff(policy: Policy, db: Db, run: string, s: Submission, now: Time)
    requires Sound(db)
    ensures var r := Apply(policy, db, Submit(run, s, now));
            && (r.Success? <==> Submittable(db, run, s))
            && (r.Failure? ==> SubmitRefused(db, run, s, r.error))
  {
    if run in db.runs {
      assert SoundRun(db, run);
      DeclaredIdsAre(db, run, s.stageId);
      if s.stageId in db.stages[run] {
        assert SoundStage(s.stageId, db.stages[run][s.stageId]);
      }
    }
  }

  /** After any units of work, a submission is accepted exactly when the run can be read, is
      still collecting, declares the stage, and body and position come together; a refusal names
      which of these failed. */
  lemma SubmissionAccepted(policy: Policy, txs: seq<Tx>, run: string, s: Submission, now: Time)
    ensures var db := Commits(policy, EMPTY_DB, txs);
            var r := Apply(policy, db, Submit(run, s, now));
            && (r.Success? <==> Submittable(db, run, s))
            && (r.Failure? ==> SubmitRefused(db, run, s, r.error))
  {
    AuditReplaysToTables(policy, txs);
    SubmittableIff(policy, Commits(policy, EMPTY_DB, txs), run, s, now);
  }

  /** The stage's row holds the submission, submitted if it was pending and retried otherwise;
      the run is aggregating, and moved only if it was initiated. */
  ghost predicate TookReport(db: Db, db': Db, run: string, s: Submission, now: Time) {
    && run in db.runs && run in db'.runs && run in db.stages && run in db'.stages
    && s.stageId in db.stages[run] && s.stageId in db'.stages[run]
    && OtherRunsKept(db, db', run) && db'.outbox == db.outbox
    && db'.runs[run].info == db.runs[run].info && db'.runs[run].state == Aggregating
    && db'.runs[run].updatedAt == (if db.runs[run].state.Initiated? then now else db.runs[run].updatedAt)
    && (forall id :: id in db'.stages[run] <==> id in db.stages[run])
    && (forall id :: id in db.stages[run] && id != s.stageId ==> db'.stages[run][id] == db.stages[run][id])
    && var prior, row := db.stages[run][s.stageId], db'.stages[run][s.stageId];
       && row.stageId == s.stageId && row.template == prior.template && row.submittedAt == Some(now)
       && row.report == s.report && row.body == s.body && row.position == s.position
       && row.state == (if prior.state.Pending? then StageStates.Submitted else StageStates.Retried)
       && db'.audit == db.audit + [SubmitStageReport(now, run, s.stageId, prior.state, row.state,
                                                     !prior.state.Pending?, db.runs[run].state.Initiated?)]
  }

  lemma SubmitExact(policy: Policy, db: Db, run: string, s: Submission, now: Time)
    requires Sound(db) && Submittable(db, run, s)
    ensures TookReport(db, Commit(policy, db, Submit(run, s, now)), run, s, now)
  {
    SubmittableIff(policy, db, run, s, now);
  }

  // ---- Finalizing and delivering ---------------------------------------------------------------

  /** A run is finalized exactly when it can be read and is aggregating. */
  lemma FinalizeExact(policy: Policy, db: Db, run: string, now: Time)
    ensures var r := Apply(policy, db, Finalize(run, now));
            && (r.Success? <==> Readable(db, run) && db.runs[run].state.Aggregating?)
            && (r.Success? ==> Moved(db, r.value, run, Ready, now, FinalizeRun(now, run, Aggregating, Ready)))
            && (r.Failure? ==>
                  || Unreadable(db, run, r.error)
                  || (Readable(db, run) && r.error == InvalidRunState(db.runs[run].state) && !db.runs[run].state.Aggregating?))
  {
  }

  /** A delivery starts exactly when the run can be read and is ready. */
  lemma StartExact(policy: Policy, db: Db, run: string, now: Time)
    ensures var r := Apply(policy, db, StartSending(run, now));
            && (r.Success? <==> Readable(db, run) && db.runs[run].state.Ready?)
            && (r.Success? ==> Moved(db, r.value, run, Sending, now, RunStateTransition(now, run, Ready, Sending)))
            && (r.Failure? ==>
                  || Unreadable(db, run, r.error)
                  || (Readable(db, run) && r.error == IllegalTransition(db.runs[run].state, Sending) && !db.runs[run].state.Ready?))
  {
  }

  /** A delivery's verdict, recorded on a run that is being sent, or already over: then the run
      stays as it is. */
  ghost predicate Concluded(db: Db, db': Db, run: string, outcome: AuditOutcome, recipients: nat, attachments: nat,
                            reason: Option<FailureReason>, now: Time) {
    run in db.runs &&
    var state := db.runs[run].state;
    if state.Sending? then
      var target := if outcome.OutcomeSuccess? then Sent else Failed;
      Moved(db, db', run, target, now, SendReport(now, run, outcome, Sending, target, recipients, attachments, reason))
    else
      && (state.Sent? || state.Failed? || state.Orphaned? || (outcome.OutcomeFailure? && !Terminal(state)))
      && (Terminal(state) ==>
            && db'.runs == db.runs && db'.stages == db.stages && db'.outbox == db.outbox
            && db'.audit == db.audit + [SendReport(now, run, outcome, state, state, recipients, attachments, reason)])
      && (!Terminal(state) ==>
            Moved(db, db', run, Failed, now, SendReport(now, run, outcome, state, Failed, recipients, attachments, reason)))
  }

  predicate Concludable(db: Db, run: string, outcome: AuditOutcome) {
    && Readable(db, run)
    && (outcome.OutcomeSuccess? ==> db.runs[run].state.Sending? || Terminal(db.runs[run].state))
  }

  lemma FinishSentExact(policy: Policy, db: Db, run: string, recipients: nat, attachments: nat, now: Time)
    ensures var r := Apply(policy, db, FinishSent(run, recipients, attachments, now));
            && (r.Success? <==> Concludable(db, run, OutcomeSuccess))
            && (r.Success? ==> Concluded(db, r.value, run, OutcomeSuccess, recipients, attachments, None, now))
            && (r.Failure? ==>
                  || Unreadable(db, run, r.error)
                  || (Readable(db, run) && r.error == IllegalTransition(db.runs[run].state, Sent)))
  {
  }

  lemma FinishFailedExact(policy: Policy, db: Db, run: string, reason: FailureReason, recipients: nat, now: Time)
    ensures var r := Apply(policy, db, FinishFailed(run, reason, recipients, now));
            && (r.Success? <==> Concludable(db, run, OutcomeFailure))
            && (r.Success? ==> Concluded(db, r.value, run, OutcomeFailure, recipients, 0, Some(reason), now))
            && (r.Failure? ==> Unreadable(db, run, r.error))
  {
  }

  /** A resend is recorded and touches nothing else. */
  lemma ResendExact(policy: Policy, db: Db, run: string, outcome: AuditOutcome, recipients: nat, now: Time)
    ensures var r := Apply(policy, db, Resend(run, outcome, recipients, now));
            && r.Success? && r.value.runs == db.runs && r.value.stages == db.stages && r.value.outbox == db.outbox
            && r.value.audit == db.audit + [ResendReport(now, run, outcome, recipients)]
  {
  }

  // ---- Orphaning -------------------------------------------------------------------------------

  /** The disposition actions of a pipeline: its own list if it has one. */
  predicate Configured(policy: Policy, pipeline: string, actions: seq<Disposition>) {
    if pipeline in policy.overrides then actions == policy.overrides[pipeline] else actions == policy.dispositions
  }

  /** The run orphaned at `now`, one row for each configured action in order, and the event that
      lists them, the stages still pending, and when the run last moved. */
  ghost predicate HandsOver(policy: Policy, db: Db, db': Db, run: string, now: Time) {
    && run in db.runs && run in db'.runs && OtherRunsKept(db, db', run) && db'.stages == db.stages
    && db'.runs[run].info == db.runs[run].info && db'.runs[run].state == Orphaned && db'.runs[run].updatedAt == now
    && exists actions, pending ::
         && Configured(policy, db.runs[run].info.pipeline, actions)
         && Enqueued(db.outbox, db'.outbox, run, actions, now)
         && StillPending(db, run, pending)
         && db'.audit == db.audit + [SweepOrphan(now, run, db.runs[run].state, Orphaned, db.runs[run].updatedAt,
                                                 actions, pending)]
  }

  /** One unclaimed row for each action, in order, after the rows there were. */
  predicate Enqueued(rows: seq<OutboxRow>, rows': seq<OutboxRow>, run: string, actions: seq<Disposition>, now: Time) {
    && rows <= rows' && |rows'| == |rows| + |actions|
    && forall i :: 0 <= i < |actions| ==> rows'[|rows| + i] == OutboxRow(run, actions[i], now, None, None, 0, None)
  }

  ghost predicate StillPending(db: Db, run: string, pending: set<string>) {
    forall id: string :: id in pending <==>
      run in db.stages && id in db.stages[run] && db.stages[run][id].state.Pending?
  }

  /** A run is orphaned exactly when it can be read and is not over. */
  lemma OrphanExact(policy: Policy, db: Db, run: string, now: Time)
    ensures var r := Apply(policy, db, Orphan(run, now));
            && (r.Success? <==>
                  Readable(db, run) && !db.runs[run].state.Sent? && !db.runs[run].state.Failed? && !db.runs[run].state.Orphaned?)
            && (r.Success? ==> HandsOver(policy, db, r.value, run, now))
  {
    if Sweepable(db, run) {
      OrphanHandsOver(policy, db, run, now);
    }
  }

  lemma OrphanHandsOver(policy: Policy, db: Db, run: string, now: Time)
    requires Sweepable(db, run)
    ensures HandsOver(policy, db, OrphanTx(policy, db, run, now), run, now)
  {
    var actions := ResolveActions(policy, db.runs[run].info.pipeline);
    var pending := PendingStages(StagesOf(db, run));
    var db' := OrphanTx(policy, db, run, now);
    assert Configured(policy, db.runs[run].info.pipeline, actions);
    assert Enqueued(db.outbox, db'.outbox, run, actions, now);
    assert StillPending(db, run, pending);
  }

  // ---- Dispatching -----------------------------------------------------------------------------

  /** Claimed long enough ago and never settled. */
  predicate Stale(policy: Policy, row: OutboxRow, now: Time) {
    row.completedAt.None? && row.claimedAt.Some? && row.claimedAt.value + policy.staleAfter <= now
  }

  function NeverClaimedIds(rows: seq<OutboxRow>): set<nat> {
    set id: nat | id < |rows| && rows[id].claimedAt.None?
  }

  function RetryableIds(policy: Policy, rows: seq<OutboxRow>, now: Time): set<nat> {
    set id: nat | id < |rows| && Stale(policy, rows[id], now) && rows[id].attempts < policy.maxAttempts
  }

  function ExhaustedIds(policy: Policy, rows: seq<OutboxRow>, now: Time): set<nat> {
    set id: nat | id < |rows| && Stale(policy, rows[id], now) && rows[id].attempts >= policy.maxAttempts
  }

  /** Oldest first, by the time of the enqueueing or of the claim, then by id. */
  predicate Precedes(rows: seq<OutboxRow>, byClaim: bool, a: nat, b: nat) {
    && a < |rows| && b < |rows|
    && var (x, y) := (rows[a], rows[b]);
       if byClaim then
         x.claimedAt.Some? && y.claimedAt.Some?
         && (x.claimedAt.value < y.claimedAt.value || (x.claimedAt.value == y.claimedAt.value && a < b))
       else x.enqueuedAt < y.enqueuedAt || (x.enqueuedAt == y.enqueuedAt && a < b)
  }

  /** `ids` are the first `limit` of the rows that qualify, in order. */
  ghost predicate Selected(rows: seq<OutboxRow>, qualify: set<nat>, byClaim: bool, limit: nat, ids: seq<nat>) {
    && |ids| <= limit
    && (forall i :: 0 <= i < |ids| ==> ids[i] in qualify)
    && (forall i, j :: 0 <= i < j < |ids| ==> Precedes(rows, byClaim, ids[i], ids[j]))
    && (forall b :: b in qualify && b !in ids ==>
          |ids| == limit && forall i :: 0 <= i < |ids| ==> Precedes(rows, byClaim, ids[i], b))
  }

  lemma FreshExact(policy: Policy, rows: seq<OutboxRow>)
    ensures Selected(rows, NeverClaimedIds(rows), false, policy.batchLimit, FreshBatch(policy, rows))
  {
    EnqueuedOrderTotal(rows, Unclaimed());
    BatchIsPrefix(rows, Unclaimed(), ByEnqueued(rows), policy.batchLimit);
    BatchInOrder(rows, Unclaimed(), ByEnqueued(rows), policy.batchLimit);
    var ids := FreshBatch(policy, rows);
    assert forall i :: 0 <= i < |ids| ==> ids[i] in ids;
  }

  lemma ExhaustedExact(policy: Policy, rows: seq<OutboxRow>, now: Time)
    ensures Selected(rows, ExhaustedIds(policy, rows, now), true, policy.batchLimit, ExhaustedBatch(policy, rows, now))
  {
    SelectedByClaim(rows, StuckExhausted(now - policy.staleAfter, policy.maxAttempts), ExhaustedIds(policy, rows, now),
                    policy.batchLimit);
  }

  /** The oldest claims among the rows that match. */
  lemma SelectedByClaim(rows: seq<OutboxRow>, filter: OutboxRow -> bool, qualify: set<nat>, limit: nat)
    requires forall id: nat :: id in qualify <==> id < |rows| && filter(rows[id])
    requires forall id: nat :: id in qualify ==> rows[id].claimedAt.Some?
    ensures Selected(rows, qualify, true, limit, Batch(rows, filter, ByClaimed(rows), limit))
  {
    ClaimedOrderTotal(rows, filter);
    BatchIsPrefix(rows, filter, ByClaimed(rows), limit);
    BatchInOrder(rows, filter, ByClaimed(rows), limit);
    var ids := Batch(rows, filter, ByClaimed(rows), limit);
    assert forall i :: 0 <= i < |ids| ==> ids[i] in ids;
  }

  /** What was just stamped is not stale, so stale rows look as they did. */
  lemma StampedNotStale(policy: Policy, rows: seq<OutboxRow>, now: Time, id: nat)
    requires id < |rows|
    ensures var stamped := Update(rows, FreshBatch(policy, rows), ClaimAt(now));
            && (id in RetryableIds(policy, stamped, now) <==> id in RetryableIds(policy, rows, now))
            && (id in RetryableIds(policy, rows, now) ==> stamped[id] == rows[id])
  {
    ClaimBatch(policy, rows, now);
  }

  /** Selecting among the stamped rows is selecting among the rows as they were. */
  lemma SelectedBefore(policy: Policy, rows: seq<OutboxRow>, now: Time, limit: nat, ids: seq<nat>)
    requires var stamped := Update(rows, FreshBatch(policy, rows), ClaimAt(now));
             Selected(stamped, RetryableIds(policy, stamped, now), true, limit, ids)
    ensures Selected(rows, RetryableIds(policy, rows, now), true, limit, ids)
  {
    var stamped := Update(rows, FreshBatch(policy, rows), ClaimAt(now));
    forall id: nat
      ensures id in RetryableIds(policy, stamped, now) <==> id in RetryableIds(policy, rows, now)
      ensures id in RetryableIds(policy, rows, now) ==> stamped[id] == rows[id]
    {
      if id < |rows| {
        StampedNotStale(policy, rows, now, id);
      }
    }
  }

  lemma RetryableSelected(policy: Policy, rows: seq<OutboxRow>, now: Time, limit: nat)
    ensures Selected(rows, RetryableIds(policy, rows, now), true, limit,
                     Batch(rows, StuckBelow(now - policy.staleAfter, policy.maxAttempts), ByClaimed(rows), limit))
  {
    SelectedByClaim(rows, StuckBelow(now - policy.staleAfter, policy.maxAttempts), RetryableIds(policy, rows, now), limit);
  }

  /** Stale rows with attempts left fill what the never-claimed ones leave of the batch. */
  lemma StuckExact(policy: Policy, rows: seq<OutboxRow>, now: Time)
    ensures |FreshBatch(policy, rows)| <= policy.batchLimit
    ensures Selected(rows, RetryableIds(policy, rows, now), true, policy.batchLimit - |FreshBatch(policy, rows)|,
                     StuckBatch(policy, rows, now))
  {
    FreshExact(policy, rows);
    if policy.batchLimit > |FreshBatch(policy, rows)| {
      StuckSelected(policy, rows, now);
    }
  }

  lemma StuckSelected(policy: Policy, rows: seq<OutboxRow>, now: Time)
    requires policy.batchLimit > |FreshBatch(policy, rows)|
    ensures Selected(rows, RetryableIds(policy, rows, now), true, policy.batchLimit - |FreshBatch(policy, rows)|,
                     StuckBatch(policy, rows, now))
  {
    var limit := policy.batchLimit - |FreshBatch(policy, rows)|;
    RetryableSelected(policy, Update(rows, FreshBatch(policy, rows), ClaimAt(now)), now, limit);
    SelectedBefore(policy, rows, now, limit, StuckBatch(policy, rows, now));
  }

  /** No run, no stage, and no number of rows changed. */
  predicate OutboxChanged(db: Db, db': Db) {
    |db'.outbox| == |db.outbox| && db'.runs == db.runs && db'.stages == db.stages
  }

  /** The row after a claim: stamped, with one more attempt if it was stale. */
  function Restamped(row: OutboxRow, unclaimed: bool, stuck: bool, now: Time): OutboxRow {
    if unclaimed then row.(claimedAt := Some(now))
    else if stuck then row.(claimedAt := Some(now), attempts := row.attempts + 1)
    else row
  }

  lemma RestampedRow(policy: Policy, rows: seq<OutboxRow>, now: Time, id: nat)
    requires id < |rows| && ValidRow(rows[id])
    ensures var (unclaimed, stuck) := (id in FreshBatch(policy, rows), id in StuckBatch(policy, rows, now));
            && |ClaimedRows(policy, rows, now)| == |rows|
            && ClaimedRows(policy, rows, now)[id] == Restamped(rows[id], unclaimed, stuck, now)
            && (ValidRow(ClaimedRows(policy, rows, now)[id]) <==> (unclaimed ==> rows[id].enqueuedAt <= now))
  {
    ClaimBatch(policy, rows, now);
    ClaimEffect(policy, rows, now, id);
    StuckExact(policy, rows, now);
    assert id in StuckBatch(policy, rows, now) ==> Stale(policy, rows[id], now);
  }

  /** A claim of these two batches can be made: no row is claimed before it was enqueued, and every
      run can be rebuilt. */
  predicate Claimable(db: Db, unclaimed: seq<nat>, stuck: seq<nat>, now: Time) {
    && (forall id: nat :: id < |db.outbox| && id in unclaimed ==> db.outbox[id].enqueuedAt <= now)
    && (forall id: nat :: id < |db.outbox| && (id in unclaimed || id in stuck) ==>
          !Unreadable(db, db.outbox[id].run, Persistence))
  }

  lemma ClaimableIff(policy: Policy, db: Db, now: Time)
    requires AllValid(db.outbox)
    ensures AllValid(ClaimedRows(policy, db.outbox, now)) && Loadable(db, ClaimedIds(policy, db.outbox, now))
       <==> Claimable(db, FreshBatch(policy, db.outbox), StuckBatch(policy, db.outbox, now), now)
  {
    forall id: nat | id < |db.outbox|
      ensures |ClaimedRows(policy, db.outbox, now)| == |db.outbox|
      ensures ValidRow(ClaimedRows(policy, db.outbox, now)[id])
         <==> (id in FreshBatch(policy, db.outbox) ==> db.outbox[id].enqueuedAt <= now)
    {
      assert ValidRow(db.outbox[id]);
      RestampedRow(policy, db.outbox, now, id);
    }
    ClaimLength(policy, db.outbox, now);
  }

  lemma ClaimLength(policy: Policy, rows: seq<OutboxRow>, now: Time)
    ensures |ClaimedRows(policy, rows, now)| == |rows|
  {
  }

  /** A claim stamps the rows of its batch, with one more attempt on the stale ones, and leaves
      everything else alone. It is refused only if a row would be claimed before it was
      enqueued, or some row's run cannot be rebuilt. */
  lemma ClaimExact(policy: Policy, db: Db, now: Time)
    requires AllValid(db.outbox)
    ensures var unclaimed, stuck := FreshBatch(policy, db.outbox), StuckBatch(policy, db.outbox, now);
            var r := Apply(policy, db, Claim(now));
            && ClaimedIds(policy, db.outbox, now) == unclaimed + stuck
            && (r.Success? <==> Claimable(db, unclaimed, stuck, now))
            && (r.Failure? ==> r.error == Persistence)
            && (r.Success? ==>
                  && OutboxChanged(db, r.value) && r.value.audit == db.audit
                  && forall id: nat :: id < |db.outbox| ==>
                       r.value.outbox[id] == Restamped(db.outbox[id], id in unclaimed, id in stuck, now))
  {
    ClaimableIff(policy, db, now);
    ClaimLength(policy, db.outbox, now);
    forall id: nat | id < |db.outbox|
      ensures |ClaimedRows(policy, db.outbox, now)| == |db.outbox|
      ensures ClaimedRows(policy, db.outbox, now)[id]
           == Restamped(db.outbox[id], id in FreshBatch(policy, db.outbox), id in StuckBatch(policy, db.outbox, now), now)
    {
      assert ValidRow(db.outbox[id]);
      RestampedRow(policy, db.outbox, now, id);
    }
  }

  /** An abandonment settles the rows of its batch, with an event for each in order; it is never
      refused. */
  lemma AbandonExact(policy: Policy, db: Db, now: Time)
    requires AllValid(db.outbox)
    ensures var batch := ExhaustedBatch(policy, db.outbox, now);
            var r := Apply(policy, db, Abandon(now));
            && r.Success? && OutboxChanged(db, r.value)
            && (forall id: nat :: id < |db.outbox| ==>
                  r.value.outbox[id] ==
                    if id in batch then db.outbox[id].(completedAt := Some(now), lastError := Some(ABANDONED))
                    else db.outbox[id])
            && |r.value.audit| == |db.audit| + |batch| && db.audit <= r.value.audit
            && (forall i :: 0 <= i < |batch| ==>
                  && batch[i] < |db.outbox|
                  && r.value.audit[|db.audit| + i]
                     == ActionAbandoned(now, db.outbox[batch[i]].run, batch[i], db.outbox[batch[i]].attempts))
  {
    var batch := ExhaustedBatch(policy, db.outbox, now);
    var rows := Update(db.outbox, batch, AbandonAt(now, ABANDONED));
    ExhaustedExact(policy, db.outbox, now);
    forall id: nat | id < |rows|
      ensures ValidRow(rows[id])
    {
      assert ValidRow(db.outbox[id]);
      assert id in batch ==> Stale(policy, db.outbox[id], now);
    }
  }

  /** A settlement completes its row, with its error and one more attempt if it failed, and leaves
      everything else alone. It is refused only for a row never claimed, or claimed later. */
  lemma SettleExact(policy: Policy, db: Db, action: nat, error: Option<string>, now: Time)
    requires AllValid(db.outbox) && action < |db.outbox|
    ensures var row := db.outbox[action];
            var r := Apply(policy, db, Settle(action, error, now));
            && (r.Success? <==> row.claimedAt.Some? && row.claimedAt.value <= now)
            && (r.Failure? ==> r.error == Persistence)
            && (r.Success? ==>
                  && OutboxChanged(db, r.value) && r.value.audit == db.audit
                  && (forall id: nat :: id < |db.outbox| && id != action ==> r.value.outbox[id] == db.outbox[id])
                  && r.value.outbox[action] ==
                       if error.Some? then
                         row.(completedAt := Some(now), attempts := row.attempts + 1, lastError := error)
                       else row.(completedAt := Some(now)))
  {
    var rows := Update(db.outbox, [action], SettleChange(error, now));
    forall id: nat | id < |rows|
      ensures ValidRow(rows[id]) <==> (id == action ==> rows[id].claimedAt.Some? && rows[id].claimedAt.value <= now)
    {
      assert ValidRow(db.outbox[id]);
    }
  }
}
