/** The audit history rebuilds the tables: after any units of work in any order, replaying it
    gives the state of every run and stage, and each row's recorded prior state is the one
    replayed so far. */
module AuditReplay {
  import opened Wrappers
  import opened RunStates
  import opened Database
  import opened Outbox
  import opened Transactions
  import StageStates

  // ---- Replay ----------------------------------------------------------------------

  datatype View = View(runs: map<string, RunState>, stages: map<string, map<string, StageState>>)

  const NOTHING := View(map[], map[])

  function PendingAll(ids: seq<string>): map<string, StageState> {
    map id | id in ids :: StageStates.Pending
  }

  /** What one event says happened. Reconciled sends, resends and abandonments change no state. */
  function ReplayEvent(v: View, e: AuditEvent): View {
    match e
    case BeginRun(_, run, _, declared) =>
      View(v.runs[run := Initiated], v.stages[run := PendingAll(declared)])
    case SubmitStageReport(_, run, stage, _, next, _, toAggregating) =>
      View(if toAggregating then v.runs[run := Aggregating] else v.runs,
           if run in v.stages then v.stages[run := v.stages[run][stage := next]] else v.stages)
    case FinalizeRun(_, run, _, next) => v.(runs := v.runs[run := next])
    case RunStateTransition(_, run, _, next) => v.(runs := v.runs[run := next])
    case SendReport(_, run, _, _, next, _, _, _) => v.(runs := v.runs[run := next])
    case SweepOrphan(_, run, _, next, _, _, _) => v.(runs := v.runs[run := next])
    case ResendReport(_, _, _, _) => v
    case ActionAbandoned(_, _, _, _) => v
  }

  function Replay(audit: seq<AuditEvent>): View {
    if audit == [] then NOTHING
    else ReplayEvent(Replay(audit[..|audit| - 1]), audit[|audit| - 1])
  }

  /** The event's recorded prior state is the actual one, and its change is lawful. */
  ghost predicate Agrees(v: View, e: AuditEvent) {
    match e
    case BeginRun(_, run, _, _) => run !in v.runs
    case SubmitStageReport(_, run, stage, prior, next, wasRetry, toAggregating) =>
      && run in v.runs && Collecting(v.runs[run]) && (toAggregating <==> v.runs[run].Initiated?)
      && run in v.stages && stage in v.stages[run] && v.stages[run][stage] == prior
      && StageStates.CanTransition(prior, next) && (wasRetry <==> !prior.Pending?)
    case FinalizeRun(_, run, prior, next) => Moves(v, run, prior, next)
    case RunStateTransition(_, run, prior, next) => Moves(v, run, prior, next)
    case SweepOrphan(_, run, prior, next, _, _, _) => Moves(v, run, prior, next)
    case SendReport(_, run, outcome, prior, next, _, _, _) =>
      || (Moves(v, run, prior, next) && next == if outcome.OutcomeSuccess? then Sent else Failed)
      || (prior == next && Terminal(prior) && run in v.runs && v.runs[run] == prior)
    case ResendReport(_, _, _, _) => true
    case ActionAbandoned(_, _, _, _) => true
  }

  ghost predicate Moves(v: View, run: string, prior: RunState, next: RunState) {
    run in v.runs && v.runs[run] == prior && CanTransition(prior, next)
  }

  /** Every event agrees with the replay of what came before it. */
  ghost predicate History(audit: seq<AuditEvent>) {
    audit == [] ||
    (History(audit[..|audit| - 1]) && Agrees(Replay(audit[..|audit| - 1]), audit[|audit| - 1]))
  }

  // ---- The tables ------------------------------------------------------------------

  function ViewOf(db: Db): View {
    View(map run | run in db.runs :: db.runs[run].state,
         map run | run in db.stages :: StatesOf(db.stages[run]))
  }

  function StatesOf(stages: map<string, Stage>): map<string, StageState> {
    map id | id in stages :: stages[id].state
  }

  /** A stage row of a declared stage, in a state the service can put it in. */
  predicate SoundStage(id: string, s: Stage) {
    && s.stageId == id && ValidStage(s)
    && (s.state.Pending? || s.state.Submitted? || s.state.Retried?)
  }

  predicate SoundRun(db: Db, run: string)
    requires run in db.runs
  {
    && ValidInfo(db.runs[run].info)
    && run in db.stages
    && db.stages[run].Keys == DeclaredIds(db.runs[run].info)
    && forall id :: id in db.stages[run] ==> SoundStage(id, db.stages[run][id])
  }

  ghost predicate Sound(db: Db) {
    && db.stages.Keys == db.runs.Keys
    && (forall run :: run in db.runs ==> SoundRun(db, run))
    && AllValid(db.outbox)
  }

  /** The history is lawful and its replay is what the tables hold. */
  ghost predicate Balanced(db: Db) {
    History(db.audit) && Replay(db.audit) == ViewOf(db)
  }

  ghost predicate Faithful(db: Db) {
    Sound(db) && Balanced(db)
  }

  // ---- Preservation ------------------------------------------------------------------

  /** Recording one event beside the change it describes keeps the books balanced. */
  lemma BalancedAppend(db: Db, db': Db, e: AuditEvent)
    requires Balanced(db) && db'.audit == db.audit + [e] && Agrees(ViewOf(db), e)
    requires ViewOf(db') == ReplayEvent(ViewOf(db), e)
    ensures Balanced(db')
  {
    assert db'.audit[..|db.audit|] == db.audit;
  }

  lemma {:induction false} ReplayAbandonments(audit: seq<AuditEvent>, events: seq<AuditEvent>)
    requires History(audit) && forall i :: 0 <= i < |events| ==> events[i].ActionAbandoned?
    ensures History(audit + events) && Replay(audit + events) == Replay(audit)
  {
    if events == [] {
      assert audit + events == audit;
    } else {
      var n := |events| - 1;
      ReplayAbandonments(audit, events[..n]);
      assert audit + events == (audit + events[..n]) + [events[n]];
      ReplayAppend(audit + events[..n], events[n]);
    }
  }

  lemma ReplayAppend(audit: seq<AuditEvent>, e: AuditEvent)
    ensures Replay(audit + [e]) == ReplayEvent(Replay(audit), e)
    ensures History(audit + [e]) <==> History(audit) && Agrees(Replay(audit), e)
  {
    assert (audit + [e])[..|audit|] == audit;
  }

  lemma SoundKept(db: Db, db': Db)
    requires Sound(db) && db'.stages == db.stages && db'.runs.Keys == db.runs.Keys && AllValid(db'.outbox)
    requires forall run :: run in db.runs ==> db'.runs[run].info == db.runs[run].info
    ensures Sound(db')
  {
    forall r | r in db'.runs
      ensures SoundRun(db', r)
    {
      assert SoundRun(db, r);
    }
  }

  lemma {:induction false} InitialStagesKeys(declared: seq<DeclaredStage>)
    ensures var stages := InitialStages(declared);
            && stages.Keys == (set ds | ds in declared :: ds.stageId)
            && forall id :: id in stages ==> SoundStage(id, stages[id]) && stages[id].state.Pending?
  {
    if declared != [] {
      var n := |declared| - 1;
      InitialStagesKeys(declared[..n]);
      assert declared == declared[..n] + [declared[n]];
    }
  }

  lemma StageIdsAreDeclared(declared: seq<DeclaredStage>)
    ensures forall id :: id in StageIds(declared) <==> id in (set ds | ds in declared :: ds.stageId)
  {
    forall id
      ensures id in StageIds(declared) <==> id in (set ds | ds in declared :: ds.stageId)
    {
      if ds :| ds in declared && ds.stageId == id {
        var i :| 0 <= i < |declared| && declared[i] == ds;
        assert StageIds(declared)[i] == id;
      }
      if id in StageIds(declared) {
        var i :| 0 <= i < |declared| && StageIds(declared)[i] == id;
        assert declared[i] in declared;
      }
    }
  }

  lemma InitialStagesPending(declared: seq<DeclaredStage>)
    ensures StatesOf(InitialStages(declared)) == PendingAll(StageIds(declared))
  {
    InitialStagesKeys(declared);
    StageIdsAreDeclared(declared);
  }

  lemma ViewOfMove(db: Db, run: string, target: RunState, e: AuditEvent, now: Time)
    requires run in db.runs
    ensures ViewOf(Move(db, run, target, e, now)) == ViewOf(db).(runs := ViewOf(db).runs[run := target])
  {
  }

  /** Moving a run and recording it keeps the books. */
  lemma MoveFaithful(db: Db, run: string, target: RunState, e: AuditEvent, now: Time)
    requires Faithful(db) && run in db.runs && Agrees(ViewOf(db), e)
    requires ReplayEvent(ViewOf(db), e) == ViewOf(db).(runs := ViewOf(db).runs[run := target])
    ensures Faithful(Move(db, run, target, e, now))
  {
    var db' := Move(db, run, target, e, now);
    ViewOfMove(db, run, target, e, now);
    BalancedAppend(db, db', e);
    SoundKept(db, db');
  }

  lemma BeginSound(db: Db, run: string, info: RunInfo, now: Time)
    requires Sound(db) && BeginTx(db, run, info, now).Success?
    ensures Sound(BeginTx(db, run, info, now).value)
  {
    var db' := BeginTx(db, run, info, now).value;
    InitialStagesKeys(info.declared);
    forall r | r in db'.runs
      ensures SoundRun(db', r)
    {
      if r != run {
        assert SoundRun(db, r);
      }
    }
  }

  lemma ViewOfBegin(db: Db, run: string, info: RunInfo, now: Time)
    requires BeginTx(db, run, info, now).Success?
    ensures ViewOf(BeginTx(db, run, info, now).value)
         == ReplayEvent(ViewOf(db), BeginRun(now, run, info.pipeline, StageIds(info.declared)))
  {
    var db' := BeginTx(db, run, info, now).value;
    InitialStagesPending(info.declared);
    assert ViewOf(db').runs == ViewOf(db).runs[run := Initiated];
    assert ViewOf(db').stages == ViewOf(db).stages[run := StatesOf(InitialStages(info.declared))];
  }

  lemma BeginFaithful(db: Db, run: string, info: RunInfo, now: Time)
    requires Faithful(db) && BeginTx(db, run, info, now).Success?
    ensures Faithful(BeginTx(db, run, info, now).value)
  {
    BeginSound(db, run, info, now);
    ViewOfBegin(db, run, info, now);
    BalancedAppend(db, BeginTx(db, run, info, now).value,
                   BeginRun(now, run, info.pipeline, StageIds(info.declared)));
  }

  lemma SubmitSound(db: Db, run: string, s: Submission, now: Time)
    requires Sound(db) && SubmitTx(db, run, s, now).Success?
    ensures Sound(SubmitTx(db, run, s, now).value)
  {
    var db' := SubmitTx(db, run, s, now).value;
    assert SoundRun(db, run);
    assert SoundStage(s.stageId, db.stages[run][s.stageId]);
    assert db'.stages[run].Keys == db.stages[run].Keys;
    forall r | r in db'.runs
      ensures SoundRun(db', r)
    {
      assert SoundRun(db, r);
    }
  }

  /** A submission's event records the stage's actual state, and a lawful change of it. */
  lemma SubmitAgrees(db: Db, run: string, s: Submission, now: Time)
    requires Sound(db) && SubmitTx(db, run, s, now).Success?
    ensures var stage := AcceptingStage(db, run, s.stageId).value;
            && stage.stageId == s.stageId
            && Agrees(ViewOf(db), SubmitEvent(db, run, stage, SubmittedStage(stage, s, now), now))
  {
    assert SoundRun(db, run);
    assert SoundStage(s.stageId, db.stages[run][s.stageId]);
  }

  lemma ViewOfSubmit(db: Db, run: string, s: Submission, now: Time)
    requires SubmitTx(db, run, s, now).Success?
    requires AcceptingStage(db, run, s.stageId).value.stageId == s.stageId
    ensures ViewOf(SubmitTx(db, run, s, now).value)
         == ReplayEvent(ViewOf(db), SubmitEvent(db, run, db.stages[run][s.stageId],
                                                SubmittedStage(db.stages[run][s.stageId], s, now), now))
  {
    var db' := SubmitTx(db, run, s, now).value;
    var next := SubmittedStage(db.stages[run][s.stageId], s, now);
    assert StatesOf(db'.stages[run]) == StatesOf(db.stages[run])[s.stageId := next.state];
    assert ViewOf(db').stages == ViewOf(db).stages[run := StatesOf(db'.stages[run])];
    RunsViewOfSubmit(db, run, s, now);
  }

  lemma RunsViewOfSubmit(db: Db, run: string, s: Submission, now: Time)
    requires SubmitTx(db, run, s, now).Success?
    ensures ViewOf(SubmitTx(db, run, s, now).value).runs
         == if db.runs[run].state.Initiated? then ViewOf(db).runs[run := Aggregating] else ViewOf(db).runs
  {
  }

  /** The event a successful submission records. */
  function RecordedSubmit(db: Db, run: string, s: Submission, now: Time): AuditEvent
    requires SubmitTx(db, run, s, now).Success?
  {
    var stage := AcceptingStage(db, run, s.stageId).value;
    SubmitEvent(db, run, stage, SubmittedStage(stage, s, now), now)
  }

  lemma SubmitReplays(db: Db, run: string, s: Submission, now: Time)
    requires Sound(db) && SubmitTx(db, run, s, now).Success?
    ensures var db' := SubmitTx(db, run, s, now).value;
            var e := RecordedSubmit(db, run, s, now);
            && db'.audit == db.audit + [e] && Agrees(ViewOf(db), e)
            && ViewOf(db') == ReplayEvent(ViewOf(db), e)
  {
    SubmitAgrees(db, run, s, now);
    ViewOfSubmit(db, run, s, now);
  }

  lemma SubmitFaithful(db: Db, run: string, s: Submission, now: Time)
    requires Faithful(db) && SubmitTx(db, run, s, now).Success?
    ensures Faithful(SubmitTx(db, run, s, now).value)
  {
    SubmitSound(db, run, s, now);
    SubmitReplays(db, run, s, now);
    BalancedAppend(db, SubmitTx(db, run, s, now).value, RecordedSubmit(db, run, s, now));
  }

  lemma FinishFaithful(db: Db, run: string, target: RunState, outcome: AuditOutcome, recipients: nat,
                       attachments: nat, reason: Option<FailureReason>, now: Time)
    requires Faithful(db) && target == if outcome.OutcomeSuccess? then Sent else Failed
    requires FinishTx(db, run, target, outcome, recipients, attachments, reason, now).Success?
    ensures Faithful(FinishTx(db, run, target, outcome, recipients, attachments, reason, now).value)
  {
    var db' := FinishTx(db, run, target, outcome, recipients, attachments, reason, now).value;
    var e := db'.audit[|db.audit|];
    if Terminal(db.runs[run].state) {
      assert ViewOf(db).runs[run := e.next] == ViewOf(db).runs;
      assert ViewOf(db') == ViewOf(db);
      BalancedAppend(db, db', e);
      SoundKept(db, db');
    } else {
      MoveFaithful(db, run, target, e, now);
    }
  }

  lemma OrphanFaithful(policy: Policy, db: Db, run: string, now: Time)
    requires Faithful(db) && Sweepable(db, run)
    ensures Faithful(OrphanTx(policy, db, run, now))
  {
    var db' := OrphanTx(policy, db, run, now);
    var e := db'.audit[|db.audit|];
    MoveFaithful(db, run, Orphaned, e, now);
    var moved := Move(db, run, Orphaned, e, now);
    assert ViewOf(db') == ViewOf(moved);
    OrphanSound(policy, db, run, now);
  }

  /** Rewriting outbox rows and recording abandonments changes no run or stage. */
  lemma OutboxFaithful(db: Db, rows: seq<OutboxRow>, events: seq<AuditEvent>)
    requires Faithful(db) && AllValid(rows)
    requires forall i :: 0 <= i < |events| ==> events[i].ActionAbandoned?
    ensures Faithful(db.(outbox := rows, audit := db.audit + events))
  {
    var db' := db.(outbox := rows, audit := db.audit + events);
    ReplayAbandonments(db.audit, events);
    assert ViewOf(db') == ViewOf(db);
    SoundKept(db, db');
  }

  lemma ResendFaithful(db: Db, run: string, outcome: AuditOutcome, recipients: nat, now: Time)
    requires Faithful(db)
    ensures Faithful(ResendTx(db, run, outcome, recipients, now))
  {
    var db' := ResendTx(db, run, outcome, recipients, now);
    assert ViewOf(db') == ViewOf(db);
    BalancedAppend(db, db', ResendReport(now, run, outcome, recipients));
    SoundKept(db, db');
  }

  lemma MoveSound(policy: Policy, db: Db, tx: Tx)
    requires Sound(db) && (tx.Finalize? || tx.StartSending? || tx.FinishSent? || tx.FinishFailed? || tx.Resend?)
    ensures Sound(Commit(policy, db, tx))
  {
    SoundKept(db, Commit(policy, db, tx));
  }

  lemma OutboxSound(policy: Policy, db: Db, tx: Tx)
    requires Sound(db) && (tx.Abandon? || tx.Claim? || tx.Settle?)
    ensures Sound(Commit(policy, db, tx))
  {
    SoundKept(db, Commit(policy, db, tx));
  }

  lemma CommitSound(policy: Policy, db: Db, tx: Tx)
    requires Sound(db)
    ensures Sound(Commit(policy, db, tx))
  {
    if Apply(policy, db, tx).Success? {
      match tx
      case Begin(run, info, now) => BeginSound(db, run, info, now);
      case Submit(run, s, now) => SubmitSound(db, run, s, now);
      case Orphan(run, now) => OrphanSound(policy, db, run, now);
      case Abandon(_) => OutboxSound(policy, db, tx);
      case Claim(_) => OutboxSound(policy, db, tx);
      case Settle(_, _, _) => OutboxSound(policy, db, tx);
      case _ => MoveSound(policy, db, tx);
    }
  }

  lemma OrphanSound(policy: Policy, db: Db, run: string, now: Time)
    requires Sound(db) && Sweepable(db, run)
    ensures Sound(OrphanTx(policy, db, run, now))
  {
    var db' := OrphanTx(policy, db, run, now);
    forall id | 0 <= id < |db'.outbox|
      ensures ValidRow(db'.outbox[id])
    {
      if id < |db.outbox| {
        assert db'.outbox[id] == db.outbox[id];
      }
    }
    SoundKept(db, db');
  }

  lemma OutboxTxFaithful(policy: Policy, db: Db, tx: Tx)
    requires Faithful(db) && (tx.Abandon? || tx.Claim? || tx.Settle?) && Apply(policy, db, tx).Success?
    ensures Faithful(Commit(policy, db, tx))
  {
    var rows := Commit(policy, db, tx).outbox;
    assert db.audit + [] == db.audit;
    if tx.Abandon? {
      OutboxFaithful(db, rows, AbandonEvents(db.outbox, ExhaustedBatch(policy, db.outbox, tx.now), tx.now));
    } else {
      OutboxFaithful(db, rows, []);
    }
  }

  lemma MoveTxFaithful(policy: Policy, db: Db, tx: Tx)
    requires Faithful(db) && (tx.Finalize? || tx.StartSending?) && Apply(policy, db, tx).Success?
    ensures Faithful(Commit(policy, db, tx))
  {
    if tx.Finalize? {
      MoveFaithful(db, tx.run, Ready, FinalizeRun(tx.now, tx.run, Aggregating, Ready), tx.now);
    } else {
      MoveFaithful(db, tx.run, Sending, RunStateTransition(tx.now, tx.run, db.runs[tx.run].state, Sending), tx.now);
    }
  }

  lemma CommitFaithful(policy: Policy, db: Db, tx: Tx)
    requires Faithful(db)
    ensures Faithful(Commit(policy, db, tx))
  {
    if Apply(policy, db, tx).Success? {
      match tx
      case Begin(run, info, now) => BeginFaithful(db, run, info, now);
      case Submit(run, s, now) => SubmitFaithful(db, run, s, now);
      case Finalize(_, _) => MoveTxFaithful(policy, db, tx);
      case StartSending(_, _) => MoveTxFaithful(policy, db, tx);
      case FinishSent(run, recipients, attachments, now) =>
        FinishFaithful(db, run, Sent, OutcomeSuccess, recipients, attachments, None, now);
      case FinishFailed(run, reason, recipients, now) =>
        FinishFaithful(db, run, Failed, OutcomeFailure, recipients, 0, Some(reason), now);
      case Orphan(run, now) => OrphanFaithful(policy, db, run, now);
      case Resend(run, outcome, recipients, now) => ResendFaithful(db, run, outcome, recipients, now);
      case Abandon(_) => OutboxTxFaithful(policy, db, tx);
      case Claim(_) => OutboxTxFaithful(policy, db, tx);
      case Settle(_, _, _) => OutboxTxFaithful(policy, db, tx);
    }
  }

  /** Any units of work, in any order, from the empty store: the audit history replays to the
      state of every run and stage, and every recorded prior state was the actual one. */
  lemma {:induction false} AuditReplaysToTables(policy: Policy, txs: seq<Tx>)
    ensures Faithful(Commits(policy, EMPTY_DB, txs))
  {
    if txs == [] {
      assert ViewOf(EMPTY_DB) == NOTHING;
    } else {
      AuditReplaysToTables(policy, txs[..|txs| - 1]);
      CommitFaithful(policy, Commits(policy, EMPTY_DB, txs[..|txs| - 1]), txs[|txs| - 1]);
    }
  }
}
