/** Over every interleaving with crashes, a delivery mails the frozen content at most once and
    records its outcome once. */
module Delivery {
  import opened Wrappers
  import opened Sequences
  import opened RunStates
  import opened Database
  import opened Outbox
  import opened Transactions
  import opened Effects
  import opened AuditReplay
  import opened HandOff
  import opened Assembly
  import opened Lifecycle
  import opened EmailContent
  import Acceptance

  // ---- The store -----------------------------------------------------------------------------

  ghost predicate StoreOk(w: World, db: Db) {
    Faithful(db) && AllHandedOff(w.policy, db) && ClaimedInOrder(db.outbox)
  }

  lemma StoreKept(w: World, s: Sys, step: Step)
    requires StoreOk(w, s.db)
    ensures StoreOk(w, Next(w, s, step).db)
  {
    OneCommit(w, s, step);
    if Next(w, s, step).db != s.db {
      var tx := Attempt(s, step).value;
      CommitFaithful(w.policy, s.db, tx);
      CommitHandsOff(w.policy, s.db, tx);
      CommitKeepsOrder(w.policy, s.db, tx);
    }
  }

  // ---- What a delivery may rely on ---------------------------------------------------------

  /** The rely condition of a delivery: whatever others commit, its run keeps declaration and
      stages, gains no outcome, and stays where it is unless the sweeper orphans it. */
  ghost predicate Steady(db: Db, db': Db, run: string) {
    && run in db.runs && run in db.stages && run in db'.runs && run in db'.stages
    && db'.runs[run].info == db.runs[run].info && db'.stages[run] == db.stages[run]
    && SendOutcomes(db'.audit, run) == SendOutcomes(db.audit, run)
    && (db'.runs[run].state == db.runs[run].state
        || (!Terminal(db.runs[run].state) && db'.runs[run].state.Orphaned?))
  }

  /** The transactions only a delivery of this run performs. */
  predicate Delivers(tx: Tx, run: string) {
    (tx.StartSending? || tx.FinishSent? || tx.FinishFailed?) && tx.run == run
  }

  lemma CommitSteady(policy: Policy, db: Db, tx: Tx, run: string)
    requires run in db.runs && run in db.stages && !Collecting(db.runs[run].state) && !Delivers(tx, run)
    ensures Steady(db, Commit(policy, db, tx), run)
  {
    RunKept(policy, db, tx, run);
    SendOutcomesKept(policy, db, tx, run);
  }

  // ---- The invariant -------------------------------------------------------------------------

  /** A finalized run is past collecting and its content is what was finalized; a run not
      finalized has been neither delivered nor recorded as such. */
  ghost predicate RunOk(s: Sys, run: string) {
    if run in s.finalized then
      && run in s.db.runs && run in s.db.stages
      && !Collecting(s.db.runs[run].state)
      && s.db.runs[run].info == s.finalized[run].info
      && s.db.stages[run] == s.finalized[run].stages
    else
      && (run in s.db.runs ==> Collecting(s.db.runs[run].state) || s.db.runs[run].state.Orphaned?)
      && SendOutcomes(s.db.audit, run) == []
      && Deliveries(s.mail, run) == []
  }

  ghost predicate IsReport(w: World, s: Sys, run: string, email: Email) {
    run in s.finalized && Report(w, run, s.finalized[run]) == Success(email)
  }

  /** While a delivery works, its run is being sent, or was orphaned under its feet. */
  ghost predicate InFlightIn(db: Db, run: string) {
    && run in db.runs && (db.runs[run].state.Sending? || db.runs[run].state.Orphaned?)
    && SendOutcomes(db.audit, run) == []
  }

  ghost predicate InFlight(s: Sys, run: string) {
    InFlightIn(s.db, run)
  }

  /** The recorded outcome is what the mailer answered; without an answer, there were no
      recipients or the report could not be rendered. */
  predicate OutcomeOf(answer: Option<Answer>, outcome: AuditOutcome, reason: Option<FailureReason>, recipients: nat) {
    match answer
    case None =>
      && recipients == 0
      && (outcome.OutcomeFailure? ==> reason.Some? && !reason.value.EmailDelivery? && !reason.value.EmailSizeExceeded?)
    case Some(Accepted) => outcome.OutcomeSuccess? && recipients > 0
    case Some(SizeExceeded) => outcome.OutcomeFailure? && reason == Some(EmailSizeExceeded)
    case Some(Refused) => outcome.OutcomeFailure? && reason == Some(EmailDelivery)
    case Some(Broken) => false
  }

  /** Without asking the mailer, a delivery fails exactly when its content cannot be rendered. */
  ghost predicate Unasked(w: World, run: string, frozen: Snapshot, outcome: AuditOutcome) {
    outcome.OutcomeFailure? <==> Report(w, run, frozen).Failure?
  }

  /** A success counts the attachments of the run's report. */
  ghost predicate Counted(w: World, run: string, frozen: Snapshot, outcome: AuditOutcome, attachments: nat) {
    outcome.OutcomeSuccess? ==>
      Report(w, run, frozen).Success? && attachments == |Report(w, run, frozen).value.attachments|
  }

  ghost predicate UnaskedFor(w: World, run: string, frozen: Snapshot, outcome: AuditOutcome, reason: Option<FailureReason>) {
    && Unasked(w, run, frozen, outcome)
    && (outcome.OutcomeFailure? ==> reason == ReasonOf(Report(w, run, frozen).error))
  }

  ghost predicate PcOk(w: World, s: Sys, t: Task) {
    && t.run in s.finalized && t.run in s.db.runs
    && match t.pc
       case Scheduled =>
         && (s.db.runs[t.run].state.Ready? || s.db.runs[t.run].state.Orphaned?)
         && SendOutcomes(s.db.audit, t.run) == [] && t.answer.None?
       case Holding(info) =>
         InFlight(s, t.run) && t.answer.None? && info == s.finalized[t.run].info
       case Loaded(info, rows) =>
         && InFlight(s, t.run) && t.answer.None? && info == s.finalized[t.run].info
         && Lists(rows, s.finalized[t.run].stages)
       case Composed(info, email) =>
         InFlight(s, t.run) && t.answer.None? && IsReport(w, s, t.run, email)
       case Addressed(info, email, recipients) =>
         InFlight(s, t.run) && t.answer.None? && recipients > 0 && IsReport(w, s, t.run, email)
       case Finishing(outcome, reason, recipients, attachments) =>
         && InFlight(s, t.run) && OutcomeOf(t.answer, outcome, reason, recipients)
         && Counted(w, t.run, s.finalized[t.run], outcome, attachments)
         && (t.answer.None? ==> UnaskedFor(w, t.run, s.finalized[t.run], outcome, reason))
       case Returned(outcome) =>
         && (t.answer.None? ==> Unasked(w, t.run, s.finalized[t.run], outcome))
         && s.db.runs[t.run].state == Conclusion(s.db, t.run, outcome)
         && SendOutcomes(s.db.audit, t.run) == [outcome]
         && (t.answer.Some? ==> !t.answer.value.Broken? && (outcome.OutcomeSuccess? <==> t.answer.value.Accepted?))
       case Dead =>
         (InFlight(s, t.run) || (s.db.runs[t.run].state.Ready? && SendOutcomes(s.db.audit, t.run) == []))
  }

  /** Where a returned delivery leaves its run: where its outcome says, unless orphaned first. */
  ghost function Conclusion(db: Db, run: string, outcome: AuditOutcome): RunState {
    if run in db.runs && db.runs[run].state.Orphaned? then Orphaned
    else if outcome.OutcomeSuccess? then Sent
    else Failed
  }

  ghost predicate TaskOk(w: World, s: Sys, t: Task) {
    && PcOk(w, s, t)
    && (t.answer.None? ==> Deliveries(s.mail, t.run) == [])
    && (t.answer.Some? ==> |Deliveries(s.mail, t.run)| == 1)
  }

  ghost predicate ResendOk(w: World, s: Sys, r: ResendTask) {
    && r.run in s.finalized
    && match r.pc
       case Checked(info) => info == s.finalized[r.run].info
       case Opened(info) => info == s.finalized[r.run].info
       case Reloaded(info, rows) => info == s.finalized[r.run].info && Lists(rows, s.finalized[r.run].stages)
       case Recomposed(email) => IsReport(w, s, r.run, email)
       case _ => true
  }

  ghost predicate Owners(s: Sys) {
    && (forall i, j :: 0 <= i < j < |s.tasks| ==> s.tasks[i].run != s.tasks[j].run)
    && (forall i :: 0 <= i < |s.tasks| ==> s.tasks[i].run in s.finalized)
    && (forall run :: run in s.finalized ==> HasTask(s, run))
  }

  /** Some delivery task, live or gone, was scheduled for this run. */
  predicate HasTask(s: Sys, run: string) {
    exists i :: 0 <= i < |s.tasks| && s.tasks[i].run == run
  }

  ghost predicate Inv(w: World, s: Sys) {
    && StoreOk(w, s.db)
    && Owners(s)
    && (forall run :: RunOk(s, run))
    && (forall i :: 0 <= i < |s.tasks| ==> TaskOk(w, s, s.tasks[i]))
    && (forall i :: 0 <= i < |s.resends| ==> ResendOk(w, s, s.resends[i]))
    && AllReports(w, s)
  }

  // ---- Content is frozen ---------------------------------------------------------------------

  lemma {:induction false} SetCountsOnce(rows: seq<Stage>, values: set<Stage>)
    requires multiset(rows) == multiset(values)
    ensures Distinct(rows)
  {
    forall x | x in rows
      ensures Count(rows, x) == 1
    {
      assert multiset(rows)[x] == multiset(values)[x];
    }
    CountDistinct(rows);
  }

  /** The rows of a run, however they are listed, are those of its table, one for each stage. */
  lemma ListedKeyed(db: Db, run: string, rows: seq<Stage>)
    requires Sound(db) && run in db.runs && Lists(rows, db.stages[run])
    ensures Keyed(rows) && Members(rows) == db.stages[run].Values
  {
    var stages := db.stages[run];
    assert SoundRun(db, run);
    SetCountsOnce(rows, stages.Values);
    forall a
      ensures a in rows <==> a in stages.Values
    {
      assert a in multiset(rows) <==> a in multiset(stages.Values);
    }
    forall a, b | a in rows && b in rows && a.stageId == b.stageId
      ensures a == b
    {
      var i :| i in stages && stages[i] == a;
      var j :| j in stages && stages[j] == b;
      assert SoundStage(i, stages[i]) && SoundStage(j, stages[j]);
    }
  }

  /** However the database lists the rows of a run, they compose to the same email. */
  lemma ListingsAgree(cfg: Rendering, db: Db, run: string, rows: seq<Stage>, rows': seq<Stage>)
    requires Sound(db) && run in db.runs
    requires Lists(rows, db.stages[run]) && Lists(rows', db.stages[run])
    ensures Compose(cfg, run, db.runs[run].info, rows) == Compose(cfg, run, db.runs[run].info, rows')
  {
    ListedKeyed(db, run, rows);
    CanonicalAssembly(cfg, run, db.runs[run].info, rows, rows');
  }

  /** However the database lists the frozen rows, they compose to the run's one report. */
  lemma FrozenContent(w: World, s: Sys, run: string, rows: seq<Stage>)
    requires Sound(s.db) && run in s.finalized && RunOk(s, run) && Lists(rows, s.finalized[run].stages)
    ensures Compose(w.rendering, run, s.finalized[run].info, rows) == Report(w, run, s.finalized[run])
  {
    ListingsAgree(w.rendering, s.db, run, rows, Listing(s.finalized[run].stages));
  }

  // ---- Preservation --------------------------------------------------------------------------

  /** The step is a move of task `i` itself. */
  predicate Drives(step: Step, i: nat) {
    step.TaskStep? && step.task == i
  }

  /** The attempted unit of work is a delivery's only if it is that delivery's own step. */
  lemma OnlyOwnTaskDelivers(s: Sys, step: Step, i: nat)
    requires Owners(s) && i < |s.tasks| && !Drives(step, i)
    ensures Attempt(s, step).Some? ==> !Delivers(Attempt(s, step).value, s.tasks[i].run)
  {
  }

  /** A run of no task is delivered by no step. */
  lemma NoTaskNoDelivery(s: Sys, step: Step, run: string)
    requires forall i :: 0 <= i < |s.tasks| ==> s.tasks[i].run != run
    ensures Attempt(s, step).Some? ==> !Delivers(Attempt(s, step).value, run)
    ensures step.TaskStep? && step.task < |s.tasks| ==> s.tasks[step.task].run != run
  {
  }

  /** What a step adds to the mail. */
  lemma MailStep(w: World, s: Sys, step: Step)
    ensures var s' := Next(w, s, step);
            || s'.mail == s.mail
            || (exists m :: s'.mail == s.mail + [m] &&
                 ( || (m.resend && step.ResendStep? && step.resend < |s.resends|
                       && s.resends[step.resend].pc == Recomposed(m.email) && m.run == s.resends[step.resend].run)
                   || (!m.resend && step.TaskStep? && step.task < |s.tasks|
                       && m.run == s.tasks[step.task].run
                       && s.tasks[step.task].pc.Addressed? && s.tasks[step.task].pc.email == m.email)))
  {
    if step.TaskStep? && step.task < |s.tasks| && s.tasks[step.task].pc.Addressed? && step.taskAct.SendMail? {
      var m := Mail(s.tasks[step.task].run, s.tasks[step.task].pc.email, false);
      assert Next(w, s, step).mail == s.mail + [m];
    } else if step.ResendStep? && step.resend < |s.resends| && s.resends[step.resend].pc.Recomposed? && step.resendAct.SendAgain? && step.resendAct.recipients > 0 {
      var m := Mail(s.resends[step.resend].run, s.resends[step.resend].pc.email, true);
      assert Next(w, s, step).mail == s.mail + [m];
    }
  }

  /** Nobody else mails a delivery of this run. */
  lemma DeliveriesKept(w: World, s: Sys, step: Step, run: string)
    requires step.TaskStep? && step.task < |s.tasks| ==> s.tasks[step.task].run != run
    ensures Deliveries(Next(w, s, step).mail, run) == Deliveries(s.mail, run)
  {
    var s' := Next(w, s, step);
    MailStep(w, s, step);
    if s'.mail != s.mail {
      CollectAppend(s.mail, s'.mail[|s.mail|], DeliveryOf(run));
      assert s'.mail == s.mail + [s'.mail[|s.mail|]];
    }
  }

  ghost predicate FinalizedKept(s: Sys, s': Sys) {
    forall run :: run in s.finalized ==> run in s'.finalized && s'.finalized[run] == s.finalized[run]
  }

  lemma OnlyFinalizationFinalizes(w: World, s: Sys, step: Step)
    requires !step.FinalizeStep?
    ensures Next(w, s, step).finalized == s.finalized
  {
  }

  lemma FinalizationFinalizes(w: World, s: Sys, run: string, now: Time)
    requires RunOk(s, run)
    ensures var s' := Next(w, s, FinalizeStep(run, now));
            if FinalizeTx(s.db, run, now).Success? && run in s.db.stages then
              run !in s.finalized && s'.finalized == s.finalized[run := Snapshot(s.db.runs[run].info, s.db.stages[run])]
            else s' == s
  {
  }

  /** What is finalized stays so, and only a finalization adds to it. */
  lemma FinalizedGrows(w: World, s: Sys, step: Step)
    requires forall run :: RunOk(s, run)
    ensures var s' := Next(w, s, step);
            && FinalizedKept(s, s')
            && (s'.finalized != s.finalized ==>
                  && step.FinalizeStep? && step.run !in s.finalized
                  && FinalizeTx(s.db, step.run, step.now).Success? && step.run in s.db.stages
                  && s'.finalized == s.finalized[step.run := Snapshot(s.db.runs[step.run].info, s.db.stages[step.run])])
  {
    if step.FinalizeStep? {
      assert RunOk(s, step.run);
      FinalizationFinalizes(w, s, step.run, step.now);
    } else {
      OnlyFinalizationFinalizes(w, s, step);
    }
  }

  lemma FinalizedRunSteady(w: World, s: Sys, step: Step, run: string)
    requires Inv(w, s) && run in s.finalized
    requires Attempt(s, step).Some? ==> !Delivers(Attempt(s, step).value, run)
    ensures Steady(s.db, Next(w, s, step).db, run)
  {
    assert RunOk(s, run);
    OneCommit(w, s, step);
    if Next(w, s, step).db != s.db {
      CommitSteady(w.policy, s.db, Attempt(s, step).value, run);
    }
  }

  lemma RunOkAfter(policy: Policy, s: Sys, s': Sys, tx: Tx, run: string)
    requires RunOk(s, run) && run in s.finalized
    requires run in s'.finalized && s'.finalized[run] == s.finalized[run]
    requires s'.db == s.db || s'.db == Commit(policy, s.db, tx)
    ensures RunOk(s', run)
  {
    if s'.db != s.db {
      RunKept(policy, s.db, tx, run);
    }
  }

  /** A run past collecting stays past it, with its declaration and stages. */
  lemma RunStaysOk(w: World, s: Sys, step: Step, run: string)
    requires Inv(w, s) && run in s.finalized
    ensures RunOk(Next(w, s, step), run)
  {
    assert RunOk(s, run);
    FinalizedGrows(w, s, step);
    OneCommit(w, s, step);
    var tx := if Attempt(s, step).Some? then Attempt(s, step).value else Abandon(0);
    RunOkAfter(w.policy, s, Next(w, s, step), tx, run);
  }

  /** A run nobody delivers stays collecting or orphaned until it is finalized. */
  lemma UndeliveredRunKept(policy: Policy, db: Db, tx: Tx, run: string)
    requires run in db.runs ==> Collecting(db.runs[run].state) || db.runs[run].state.Orphaned?
    requires !Delivers(tx, run) && tx != Finalize(run, tx.now)
    ensures var db' := Commit(policy, db, tx);
            run in db'.runs ==> Collecting(db'.runs[run].state) || db'.runs[run].state.Orphaned?
  {
  }

  /** A run becomes ready only by being finalized. */
  lemma FinalizingIsNoted(w: World, s: Sys, step: Step, run: string)
    requires run !in Next(w, s, step).finalized && Next(w, s, step).db != s.db
    ensures step.FinalizeStep? ==> step.run != run
  {
  }

  lemma NewRunOk(w: World, s: Sys, step: Step, run: string)
    requires RunOk(s, run) && run !in s.finalized
    requires forall i :: 0 <= i < |s.tasks| ==> s.tasks[i].run != run
    requires run !in Next(w, s, step).finalized
    ensures RunOk(Next(w, s, step), run)
  {
    NoTaskNoDelivery(s, step, run);
    OneCommit(w, s, step);
    DeliveriesKept(w, s, step, run);
    if Next(w, s, step).db != s.db {
      FinalizingIsNoted(w, s, step, run);
      var tx := Attempt(s, step).value;
      assert tx != Finalize(run, tx.now);
      SendOutcomesKept(w.policy, s.db, tx, run);
      UndeliveredRunKept(w.policy, s.db, tx, run);
    }
  }

  lemma FinalizedRunOk(w: World, s: Sys, step: Step)
    requires step.FinalizeStep? && Next(w, s, step).finalized != s.finalized
    ensures RunOk(Next(w, s, step), step.run)
  {
  }

  /** A task that is not moving is not disturbed by a steady change, nor by losing its memory. */
  lemma Undisturbed(w: World, s: Sys, s': Sys, t: Task)
    requires TaskOk(w, s, t) && Steady(s.db, s'.db, t.run) && t.run in s'.finalized
    requires s'.finalized[t.run] == s.finalized[t.run]
    requires Deliveries(s'.mail, t.run) == Deliveries(s.mail, t.run)
    ensures TaskOk(w, s', t)
    ensures !t.pc.Returned? ==> TaskOk(w, s', t.(pc := Dead))
  {
  }

  lemma MoveLeavesOthers(w: World, s: Sys, j: nat, act: TaskAct, i: nat)
    requires i < |s.tasks| && j < |s.tasks| && i != j
    ensures var s' := TaskNext(w, s, j, act); i < |s'.tasks| && s'.tasks[i] == s.tasks[i]
  {
  }

  lemma NoMoveLeavesTasks(w: World, s: Sys, step: Step, i: nat)
    requires i < |s.tasks| && !step.TaskStep? && !step.Crash?
    ensures var s' := Next(w, s, step); i < |s'.tasks| && s'.tasks[i] == s.tasks[i]
  {
  }

  /** A task that is not moving stays where it is, unless a crash takes its memory. */
  lemma OthersStand(w: World, s: Sys, step: Step, i: nat)
    requires i < |s.tasks| && !Drives(step, i)
    ensures var s' := Next(w, s, step);
            && i < |s'.tasks|
            && s'.tasks[i] == if step.Crash? && !s.tasks[i].pc.Returned? then s.tasks[i].(pc := Dead) else s.tasks[i]
  {
    if step.TaskStep? {
      if step.task < |s.tasks| {
        MoveLeavesOthers(w, s, step.task, step.taskAct, i);
      }
    } else if !step.Crash? {
      NoMoveLeavesTasks(w, s, step, i);
    }
  }

  lemma BystanderOk(w: World, s: Sys, step: Step, i: nat)
    requires Inv(w, s) && i < |s.tasks| && !Drives(step, i)
    ensures var s' := Next(w, s, step);
            && i < |s'.tasks| && TaskOk(w, s', s'.tasks[i])
  {
    var s' := Next(w, s, step);
    var t := s.tasks[i];
    assert TaskOk(w, s, t);
    OnlyOwnTaskDelivers(s, step, i);
    FinalizedRunSteady(w, s, step, t.run);
    FinalizedGrows(w, s, step);
    DeliveriesKept(w, s, step, t.run);
    Undisturbed(w, s, s', t);
    OthersStand(w, s, step, i);
  }

  /** A finalization leaves its run ready, with a task scheduled and nothing sent. */
  lemma ScheduledOk(w: World, s: Sys, run: string, now: Time)
    requires RunOk(s, run) && run !in s.finalized && FinalizeTx(s.db, run, now).Success? && run in s.db.stages
    ensures TaskOk(w, Next(w, s, FinalizeStep(run, now)), Task(run, Scheduled, None))
  {
    SendOutcomesKept(w.policy, s.db, Finalize(run, now), run);
  }

  /** What a step does to who owns what: tasks stay with their runs, and a finalization adds one
      task for one new run. */
  ghost predicate OwnersStep(s: Sys, s': Sys) {
    && |s'.tasks| >= |s.tasks| && (forall i :: 0 <= i < |s.tasks| ==> s'.tasks[i].run == s.tasks[i].run)
    && (|| (|s'.tasks| == |s.tasks| && s'.finalized.Keys == s.finalized.Keys)
        || (&& |s'.tasks| == |s.tasks| + 1
            && s'.tasks[|s.tasks|].run !in s.finalized
            && s'.finalized.Keys == s.finalized.Keys + {s'.tasks[|s.tasks|].run}))
  }

  lemma OwnersAfter(s: Sys, s': Sys)
    requires Owners(s) && OwnersStep(s, s')
    ensures Owners(s')
  {
    forall run | run in s'.finalized
      ensures HasTask(s', run)
    {
      if run in s.finalized {
        var i :| 0 <= i < |s.tasks| && s.tasks[i].run == run;
        assert s'.tasks[i].run == run;
      } else {
        assert s'.tasks[|s.tasks|].run == run;
      }
    }
  }

  lemma FinalizeOwners(w: World, s: Sys, run: string, now: Time)
    requires RunOk(s, run)
    ensures OwnersStep(s, Next(w, s, FinalizeStep(run, now)))
  {
  }

  lemma OtherOwners(w: World, s: Sys, step: Step)
    requires !step.FinalizeStep?
    ensures OwnersStep(s, Next(w, s, step))
  {
    if step.TaskStep? && step.task < |s.tasks| {
      MoveOwners(w, s, step.task, step.taskAct);
    }
  }

  lemma MoveOwners(w: World, s: Sys, i: nat, act: TaskAct)
    requires i < |s.tasks|
    ensures OwnersStep(s, TaskNext(w, s, i, act))
  {
  }

  lemma NewTask(w: World, s: Sys, step: Step)
    ensures var s' := Next(w, s, step);
            || |s'.tasks| == |s.tasks|
            || (&& step.FinalizeStep? && FinalizeTx(s.db, step.run, step.now).Success? && step.run in s.db.stages
                && s'.tasks == s.tasks + [Task(step.run, Scheduled, None)])
  {
    if !step.FinalizeStep? {
      OtherOwners(w, s, step);
    }
  }

  // ---- The moving task -----------------------------------------------------------------------

  ghost predicate Ready(w: World, s: Sys, i: nat) {
    i < |s.tasks| && TaskOk(w, s, s.tasks[i]) && RunOk(s, s.tasks[i].run)
  }

  lemma StartOk(w: World, s: Sys, i: nat, now: Time)
    requires Ready(w, s, i)
    ensures TaskOk(w, TaskNext(w, s, i, Start(now)), TaskNext(w, s, i, Start(now)).tasks[i])
  {
    SendOutcomesKept(w.policy, s.db, StartSending(s.tasks[i].run, now), s.tasks[i].run);
  }

  lemma LoadOk(w: World, s: Sys, i: nat, rows: seq<Stage>)
    requires Ready(w, s, i)
    ensures TaskOk(w, TaskNext(w, s, i, Load(rows)), TaskNext(w, s, i, Load(rows)).tasks[i])
  {
  }

  lemma AfterComposeOk(w: World, s: Sys, t: Task, info: RunInfo, composed: Result<Email, RenderError>)
    requires t.pc.Loaded? && TaskOk(w, s, t) && composed == Report(w, t.run, s.finalized[t.run])
    ensures TaskOk(w, s, t.(pc := AfterCompose(info, composed)))
  {
    if composed.Failure? {
      match composed.error
      case TemplateFailed =>
      case RenderedTooLarge =>
      case ContextTooLarge =>
      case ContextInvalid =>
      case Unexpected =>
    }
  }

  lemma ComposeOk(w: World, s: Sys, i: nat)
    requires Sound(s.db) && Ready(w, s, i)
    ensures TaskOk(w, TaskNext(w, s, i, DoCompose), TaskNext(w, s, i, DoCompose).tasks[i])
  {
    var t := s.tasks[i];
    var s' := TaskNext(w, s, i, DoCompose);
    if t.pc.Loaded? {
      FrozenContent(w, s, t.run, t.pc.rows);
      var composed := Report(w, t.run, s.finalized[t.run]);
      AfterComposeOk(w, s, t, t.pc.info, composed);
      assert s'.tasks[i] == t.(pc := AfterCompose(t.pc.info, composed)) || s'.tasks[i] == t.(pc := Dead);
      SameStoreOk(w, s, s', s'.tasks[i]);
    }
  }

  lemma SameStoreOk(w: World, s: Sys, s': Sys, t: Task)
    requires TaskOk(w, s, t)
    requires s'.db == s.db && s'.mail == s.mail && s'.finalized == s.finalized
    ensures TaskOk(w, s', t)
  {
  }

  lemma AddressOk(w: World, s: Sys, i: nat, recipients: nat)
    requires Ready(w, s, i)
    ensures TaskOk(w, TaskNext(w, s, i, Address(recipients)), TaskNext(w, s, i, Address(recipients)).tasks[i])
  {
  }

  lemma AfterSendOk(w: World, s: Sys, s': Sys, t: Task, answer: Answer)
    requires t.pc.Addressed? && TaskOk(w, s, t)
    requires s'.db == s.db && s'.finalized == s.finalized
    requires s'.mail == s.mail + [Mail(t.run, t.pc.email, false)]
    ensures TaskOk(w, s', Task(t.run, AfterSend(t.pc.email, t.pc.recipients, answer), Some(answer)))
  {
    CollectAppend(s.mail, Mail(t.run, t.pc.email, false), DeliveryOf(t.run));
  }

  lemma SendOk(w: World, s: Sys, i: nat, answer: Answer)
    requires Ready(w, s, i)
    ensures TaskOk(w, TaskNext(w, s, i, SendMail(answer)), TaskNext(w, s, i, SendMail(answer)).tasks[i])
  {
    var t := s.tasks[i];
    var s' := TaskNext(w, s, i, SendMail(answer));
    if t.pc.Addressed? {
      AfterSendOk(w, s, s', t, answer);
    } else {
      assert s' == s;
    }
  }

  /** The finishing unit of work is never an illegal transition, and it leaves the run terminal
      with exactly this outcome on record. */
  lemma FinishTxEffect(db: Db, run: string, target: RunState, outcome: AuditOutcome, recipients: nat,
                       attachments: nat, reason: Option<FailureReason>, now: Time)
    requires run in db.runs && (db.runs[run].state.Sending? || db.runs[run].state.Orphaned?)
    requires target == if outcome.OutcomeSuccess? then Sent else Failed
    ensures Concludes(db, run, outcome, FinishTx(db, run, target, outcome, recipients, attachments, reason, now))
  {
    var r := FinishTx(db, run, target, outcome, recipients, attachments, reason, now);
    if r.Success? {
      var e := r.value.audit[|db.audit|];
      assert r.value.audit == db.audit + [e];
      CollectAppend(db.audit, e, SendOutcomeOf(run));
    }
  }

  ghost predicate Concludes(db: Db, run: string, outcome: AuditOutcome, r: Result<Db, Error>) {
    && (r.Success? <==> ReadRun(db, run).Success?)
    && match r
       case Failure(e) => e.Persistence?
       case Success(db') =>
         && run in db.runs && run in db'.runs && db'.runs[run].info == db.runs[run].info
         && db'.runs[run].state == Conclusion(db, run, outcome)
         && db'.stages == db.stages
         && SendOutcomes(db'.audit, run) == SendOutcomes(db.audit, run) + [outcome]
  }

  /** The finishing unit of work, whichever way the delivery went. */
  function FinishResult(db: Db, t: Task, now: Time): Result<Db, Error>
    requires t.pc.Finishing?
  {
    var success := t.pc.outcome.OutcomeSuccess?;
    var reason := if t.pc.reason.Some? then t.pc.reason.value else EmailDelivery;
    FinishTx(db, t.run, if success then Sent else Failed, t.pc.outcome, t.pc.recipients,
             if success then t.pc.attachments else 0, if success then None else Some(reason), now)
  }

  lemma FinishTaskApplies(policy: Policy, db: Db, t: Task, now: Time)
    requires t.pc.Finishing?
    ensures Apply(policy, db, FinishTaskTx(t, now)) == FinishResult(db, t, now)
  {
  }

  lemma FinishEffect(policy: Policy, db: Db, t: Task, now: Time)
    requires t.pc.Finishing? && InFlightIn(db, t.run)
    ensures Concludes(db, t.run, t.pc.outcome, Apply(policy, db, FinishTaskTx(t, now)))
  {
    FinishTaskApplies(policy, db, t, now);
    var success := t.pc.outcome.OutcomeSuccess?;
    var reason := if t.pc.reason.Some? then t.pc.reason.value else EmailDelivery;
    FinishTxEffect(db, t.run, if success then Sent else Failed, t.pc.outcome, t.pc.recipients,
                   if success then t.pc.attachments else 0, if success then None else Some(reason), now);
  }

  lemma AfterFinishOk(w: World, s: Sys, s': Sys, t: Task)
    requires t.pc.Finishing? && TaskOk(w, s, t) && Concludes(s.db, t.run, t.pc.outcome, Success(s'.db))
    requires s'.mail == s.mail && s'.finalized == s.finalized
    ensures TaskOk(w, s', t.(pc := Returned(t.pc.outcome)))
  {
    ConcludedPc(s.db, s'.db, t);
    assert t.answer.None? ==> Unasked(w, t.run, s'.finalized[t.run], t.pc.outcome);
  }

  /** What concluding leaves of the task's run. */
  lemma ConcludedPc(db: Db, db': Db, t: Task)
    requires t.pc.Finishing? && InFlightIn(db, t.run) && Concludes(db, t.run, t.pc.outcome, Success(db'))
    requires OutcomeOf(t.answer, t.pc.outcome, t.pc.reason, t.pc.recipients)
    ensures t.run in db'.runs && db'.runs[t.run].state == Conclusion(db', t.run, t.pc.outcome)
    ensures SendOutcomes(db'.audit, t.run) == [t.pc.outcome]
    ensures t.answer.Some? ==> !t.answer.value.Broken? && (t.pc.outcome.OutcomeSuccess? <==> t.answer.value.Accepted?)
  {
  }

  lemma FinishOk(w: World, s: Sys, i: nat, now: Time)
    requires Ready(w, s, i)
    ensures TaskOk(w, TaskNext(w, s, i, Finish(now)), TaskNext(w, s, i, Finish(now)).tasks[i])
  {
    var t := s.tasks[i];
    var s' := TaskNext(w, s, i, Finish(now));
    if t.pc.Finishing? {
      FinishEffect(w.policy, s.db, t, now);
      if Apply(w.policy, s.db, FinishTaskTx(t, now)).Success? {
        AfterFinishOk(w, s, s', t);
      } else {
        AbortOk(w, s, i);
      }
    } else {
      assert s' == s;
    }
  }

  lemma AbortOk(w: World, s: Sys, i: nat)
    requires Ready(w, s, i)
    ensures TaskOk(w, TaskNext(w, s, i, Abort), TaskNext(w, s, i, Abort).tasks[i])
  {
  }

  lemma DriverOk(w: World, s: Sys, i: nat, act: TaskAct)
    requires Sound(s.db) && Ready(w, s, i)
    ensures TaskOk(w, TaskNext(w, s, i, act), TaskNext(w, s, i, act).tasks[i])
  {
    match act
    case Start(now) => StartOk(w, s, i, now);
    case Load(rows) => LoadOk(w, s, i, rows);
    case DoCompose => ComposeOk(w, s, i);
    case Address(recipients) => AddressOk(w, s, i, recipients);
    case SendMail(answer) => SendOk(w, s, i, answer);
    case Finish(now) => FinishOk(w, s, i, now);
    case Abort => AbortOk(w, s, i);
  }

  lemma OwnersKept(w: World, s: Sys, step: Step)
    requires Owners(s) && forall run :: RunOk(s, run)
    ensures Owners(Next(w, s, step))
  {
    if step.FinalizeStep? {
      assert RunOk(s, step.run);
      FinalizeOwners(w, s, step.run, step.now);
    } else {
      OtherOwners(w, s, step);
    }
    OwnersAfter(s, Next(w, s, step));
  }

  lemma TasksOk(w: World, s: Sys, step: Step)
    requires Inv(w, s)
    ensures var s' := Next(w, s, step);
            forall i :: 0 <= i < |s'.tasks| ==> TaskOk(w, s', s'.tasks[i])
  {
    var s' := Next(w, s, step);
    NewTask(w, s, step);
    forall i | 0 <= i < |s'.tasks|
      ensures TaskOk(w, s', s'.tasks[i])
    {
      if i >= |s.tasks| {
        assert RunOk(s, step.run);
        ScheduledOk(w, s, step.run, step.now);
      } else if Drives(step, i) {
        assert RunOk(s, s.tasks[i].run);
        DriverOk(w, s, i, step.taskAct);
      } else {
        BystanderOk(w, s, step, i);
      }
    }
  }

  // ---- Resends and mail ----------------------------------------------------------------------

  lemma AfterRecomposeOk(w: World, s: Sys, r: ResendTask, composed: Result<Email, RenderError>)
    requires r.run in s.finalized && composed == Report(w, r.run, s.finalized[r.run])
    ensures ResendOk(w, s, r.(pc := AfterRecompose(composed)))
  {
  }

  lemma RecomposeOk(w: World, s: Sys, i: nat)
    requires Sound(s.db) && i < |s.resends| && ResendOk(w, s, s.resends[i]) && RunOk(s, s.resends[i].run)
    ensures ResendOk(w, ResendNext(w, s, i, Recompose), ResendNext(w, s, i, Recompose).resends[i])
  {
    var r := s.resends[i];
    var s' := ResendNext(w, s, i, Recompose);
    if r.pc.Reloaded? {
      FrozenContent(w, s, r.run, r.pc.rows);
      AfterRecomposeOk(w, s, r, Report(w, r.run, s.finalized[r.run]));
      assert s'.finalized == s.finalized;
    }
  }

  lemma ResendMoveOk(w: World, s: Sys, i: nat, act: ResendAct)
    requires Sound(s.db) && i < |s.resends| && ResendOk(w, s, s.resends[i]) && RunOk(s, s.resends[i].run)
    ensures ResendOk(w, ResendNext(w, s, i, act), ResendNext(w, s, i, act).resends[i])
  {
    match act
    case Open => OpenOk(w, s, i);
    case Reload(rows) => ReloadOk(w, s, i, rows);
    case Recompose => RecomposeOk(w, s, i);
    case SendAgain(_, _) => QuietResendOk(w, s, i, act);
    case Audit(_) => QuietResendOk(w, s, i, act);
    case GiveUp => QuietResendOk(w, s, i, act);
  }

  lemma OpenOk(w: World, s: Sys, i: nat)
    requires i < |s.resends| && ResendOk(w, s, s.resends[i]) && RunOk(s, s.resends[i].run)
    ensures ResendOk(w, ResendNext(w, s, i, Open), ResendNext(w, s, i, Open).resends[i])
  {
  }

  lemma ReloadOk(w: World, s: Sys, i: nat, rows: seq<Stage>)
    requires i < |s.resends| && ResendOk(w, s, s.resends[i]) && RunOk(s, s.resends[i].run)
    ensures ResendOk(w, ResendNext(w, s, i, Reload(rows)), ResendNext(w, s, i, Reload(rows)).resends[i])
  {
  }

  /** A resend that has sent, or is over, holds nothing the invariant speaks of. */
  lemma QuietResendOk(w: World, s: Sys, i: nat, act: ResendAct)
    requires i < |s.resends| && ResendOk(w, s, s.resends[i]) && (act.SendAgain? || act.Audit? || act.GiveUp?)
    ensures ResendOk(w, ResendNext(w, s, i, act), ResendNext(w, s, i, act).resends[i])
  {
    QuietMove(w, s, i, act);
    var s' := ResendNext(w, s, i, act);
    if s'.resends[i] == s.resends[i] {
      ResendOkFrom(w, s, s', s.resends[i]);
    }
  }

  lemma QuietMove(w: World, s: Sys, i: nat, act: ResendAct)
    requires i < |s.resends| && (act.SendAgain? || act.Audit? || act.GiveUp?)
    ensures var s' := ResendNext(w, s, i, act);
            && s'.finalized == s.finalized && |s'.resends| == |s.resends| && s'.resends[i].run == s.resends[i].run
            && (s'.resends[i] == s.resends[i] || s'.resends[i].pc.Over? || s'.resends[i].pc.Resent?)
  {
  }

  lemma ResendsStand(w: World, s: Sys, step: Step, i: nat)
    requires i < |Next(w, s, step).resends|
    ensures var s' := Next(w, s, step);
            || (i < |s.resends| && s'.resends[i] == s.resends[i])
            || (i < |s.resends| && step.ResendStep? && step.resend == i)
            || (step.ResendStart? && step.run in s.db.runs
                && (s.db.runs[step.run].state.Sent? || s.db.runs[step.run].state.Failed?)
                && s'.resends[i] == ResendTask(step.run, Checked(s.db.runs[step.run].info)))
  {
  }

  lemma ResendOkFrom(w: World, s: Sys, s': Sys, r: ResendTask)
    requires ResendOk(w, s, r) && FinalizedKept(s, s')
    ensures ResendOk(w, s', r)
  {
  }

  lemma ResendStarts(w: World, s: Sys, s': Sys, run: string)
    requires RunOk(s, run) && run in s.db.runs && (s.db.runs[run].state.Sent? || s.db.runs[run].state.Failed?)
    requires FinalizedKept(s, s')
    ensures ResendOk(w, s', ResendTask(run, Checked(s.db.runs[run].info)))
  {
  }

  lemma ResendStood(w: World, s: Sys, step: Step, i: nat)
    requires Inv(w, s) && i < |Next(w, s, step).resends| && !(step.ResendStep? && step.resend == i)
    ensures ResendOk(w, Next(w, s, step), Next(w, s, step).resends[i])
  {
    ResendsStand(w, s, step, i);
    FinalizedGrows(w, s, step);
    ResendStoodAt(w, s, Next(w, s, step), step, i);
  }

  lemma ResendStoodAt(w: World, s: Sys, s': Sys, step: Step, i: nat)
    requires Inv(w, s) && i < |s'.resends| && FinalizedKept(s, s')
    requires || (i < |s.resends| && s'.resends[i] == s.resends[i])
             || (step.ResendStart? && step.run in s.db.runs
                 && (s.db.runs[step.run].state.Sent? || s.db.runs[step.run].state.Failed?)
                 && s'.resends[i] == ResendTask(step.run, Checked(s.db.runs[step.run].info)))
    ensures ResendOk(w, s', s'.resends[i])
  {
    if i < |s.resends| && s'.resends[i] == s.resends[i] {
      ResendOkFrom(w, s, s', s.resends[i]);
    } else {
      assert RunOk(s, step.run);
      ResendStarts(w, s, s', step.run);
    }
  }

  lemma ResendDriven(w: World, s: Sys, step: Step, i: nat)
    requires i < |Next(w, s, step).resends| && step.ResendStep? && step.resend == i
    ensures i < |s.resends| && Next(w, s, step) == ResendNext(w, s, i, step.resendAct)
  {
  }

  lemma ResendOkAt(w: World, s: Sys, step: Step, i: nat)
    requires Inv(w, s) && i < |Next(w, s, step).resends|
    ensures ResendOk(w, Next(w, s, step), Next(w, s, step).resends[i])
  {
    if step.ResendStep? && step.resend == i {
      ResendDriven(w, s, step, i);
      assert RunOk(s, s.resends[i].run);
      ResendMoveOk(w, s, i, step.resendAct);
    } else {
      ResendStood(w, s, step, i);
    }
  }

  lemma ResendsOk(w: World, s: Sys, step: Step)
    requires Inv(w, s)
    ensures var s' := Next(w, s, step);
            forall i :: 0 <= i < |s'.resends| ==> ResendOk(w, s', s'.resends[i])
  {
    forall i | 0 <= i < |Next(w, s, step).resends|
      ensures ResendOk(w, Next(w, s, step), Next(w, s, step).resends[i])
    {
      ResendOkAt(w, s, step, i);
    }
  }

  /** Every mail is the report of its run. */
  ghost predicate AllReports(w: World, s: Sys) {
    forall i :: 0 <= i < |s.mail| ==> IsReport(w, s, s.mail[i].run, s.mail[i].email)
  }

  lemma MailOkFrom(w: World, s: Sys, s': Sys)
    requires AllReports(w, s) && FinalizedKept(s, s')
    requires s'.mail == s.mail || exists m :: s'.mail == s.mail + [m] && IsReport(w, s, m.run, m.email)
    ensures AllReports(w, s')
  {
  }

  /** Whoever mails holds the run's report. */
  lemma MailedIsReport(w: World, s: Sys, step: Step)
    requires Inv(w, s)
    ensures var s' := Next(w, s, step);
            s'.mail == s.mail || exists m :: s'.mail == s.mail + [m] && IsReport(w, s, m.run, m.email)
  {
    MailStep(w, s, step);
    if step.TaskStep? && step.task < |s.tasks| {
      assert TaskOk(w, s, s.tasks[step.task]);
    }
    if step.ResendStep? && step.resend < |s.resends| {
      assert ResendOk(w, s, s.resends[step.resend]);
    }
  }

  lemma MailOk(w: World, s: Sys, step: Step)
    requires Inv(w, s)
    ensures AllReports(w, Next(w, s, step))
  {
    FinalizedGrows(w, s, step);
    MailedIsReport(w, s, step);
    MailOkFrom(w, s, Next(w, s, step));
  }

  lemma RunsOk(w: World, s: Sys, step: Step, run: string)
    requires Inv(w, s)
    ensures RunOk(Next(w, s, step), run)
  {
    assert RunOk(s, run);
    FinalizedGrows(w, s, step);
    if run in s.finalized {
      RunStaysOk(w, s, step, run);
    } else if run in Next(w, s, step).finalized {
      FinalizedRunOk(w, s, step);
    } else {
      NewRunOk(w, s, step, run);
    }
  }

  lemma InvKept(w: World, s: Sys, step: Step)
    requires Inv(w, s)
    ensures Inv(w, Next(w, s, step))
  {
    StoreKept(w, s, step);
    OwnersKept(w, s, step);
    TasksOk(w, s, step);
    ResendsOk(w, s, step);
    MailOk(w, s, step);
    forall run
      ensures RunOk(Next(w, s, step), run)
    {
      RunsOk(w, s, step, run);
    }
  }

  lemma {:induction false} InvHolds(w: World, steps: seq<Step>)
    ensures Inv(w, Reached(w, steps))
  {
    if steps == [] {
      HandOffHolds(w.policy, []);
    } else {
      InvHolds(w, steps[..|steps| - 1]);
      InvKept(w, Reached(w, steps[..|steps| - 1]), steps[|steps| - 1]);
    }
  }

  // ---- Over every run of the service -----------------------------------------------------------

  lemma MailedAtMostOnceAt(w: World, s: Sys, run: string)
    requires Inv(w, s)
    ensures |Deliveries(s.mail, run)| <= 1 && |SendOutcomes(s.db.audit, run)| <= 1
  {
    assert RunOk(s, run);
    if run in s.finalized {
      assert HasTask(s, run);
      var i :| 0 <= i < |s.tasks| && s.tasks[i].run == run;
      TaskRecords(w, s, s.tasks[i]);
    }
  }

  /** What a task in order says about its run's record. */
  lemma TaskRecords(w: World, s: Sys, t: Task)
    requires TaskOk(w, s, t)
    ensures |Deliveries(s.mail, t.run)| <= 1 && |SendOutcomes(s.db.audit, t.run)| <= 1
    ensures t.run in s.db.runs
    ensures s.db.runs[t.run].state.Sent? ==>
              t.pc == Returned(OutcomeSuccess) && (t.answer == Some(Accepted) || Deliveries(s.mail, t.run) == [])
    ensures t.pc == Returned(OutcomeSuccess) ==> s.db.runs[t.run].state == Conclusion(s.db, t.run, OutcomeSuccess)
  {
  }

  /** The delivery of a run calls the mailer at most once, ever, and records at most one
      outcome, across any crashes and races. */
  lemma DeliveredAtMostOnce(w: World, steps: seq<Step>, run: string)
    ensures var s := Reached(w, steps);
            |Deliveries(s.mail, run)| <= 1 && |SendOutcomes(s.db.audit, run)| <= 1
  {
    InvHolds(w, steps);
    MailedAtMostOnceAt(w, Reached(w, steps), run);
  }

  /** A delivery under way finds its run being sent or orphaned, so finishing it is never an
      illegal transition: it succeeds unless the run's row cannot be rebuilt. */
  lemma FinishNeverIllegal(w: World, steps: seq<Step>, i: nat, now: Time)
    requires var s := Reached(w, steps); i < |s.tasks| && s.tasks[i].pc.Finishing?
    ensures var s := Reached(w, steps);
            var r := Apply(w.policy, s.db, FinishTaskTx(s.tasks[i], now));
            && (r.Failure? ==> r.error.Persistence?)
            && (r.Success? <==> ReadRun(s.db, s.tasks[i].run).Success?)
  {
    InvHolds(w, steps);
    var s := Reached(w, steps);
    assert TaskOk(w, s, s.tasks[i]);
    FinishEffect(w.policy, s.db, s.tasks[i], now);
  }

  /** The email the content frozen at the run's finalization calls for. */
  ghost predicate EmailOf(w: World, s: Sys, run: string, email: Email) {
    run in s.finalized
    && Presents(w.rendering, run, s.finalized[run].info, s.finalized[run].stages.Values, email)
  }

  ghost predicate NoEmailOf(w: World, s: Sys, run: string, e: RenderError) {
    run in s.finalized
    && Fails(w.rendering, run, s.finalized[run].info, s.finalized[run].stages.Values, e)
  }

  /** A delivery that returned left its run terminal, in the state its outcome says unless the
      sweeper got there first, with exactly one SEND_REPORT row: the mailer's verdict, or without
      one a success if the frozen content renders, for want of recipients, and a failure if not. */
  lemma ReturnedIsRecorded(w: World, steps: seq<Step>, i: nat)
    requires var s := Reached(w, steps); i < |s.tasks| && s.tasks[i].pc.Returned?
    ensures var s := Reached(w, steps);
            var t := s.tasks[i];
            && t.run in s.db.runs
            && SendOutcomes(s.db.audit, t.run) == [t.pc.outcome]
            && var state := s.db.runs[t.run].state;
               && (state.Orphaned? || state == if t.pc.outcome.OutcomeSuccess? then Sent else Failed)
               && (t.answer.Some? ==> (t.pc.outcome.OutcomeSuccess? <==> t.answer.value.Accepted?))
               && (t.answer.None? ==>
                     if t.pc.outcome.OutcomeSuccess? then exists email :: EmailOf(w, s, t.run, email)
                     else exists e :: NoEmailOf(w, s, t.run, e))
  {
    InvHolds(w, steps);
    var s := Reached(w, steps);
    var t := s.tasks[i];
    assert TaskOk(w, s, t) && RunOk(s, t.run);
    if t.answer.None? {
      ReportExact(w, s, t.run);
    }
  }

  /** The frozen content renders, or fails to. */
  lemma ReportExact(w: World, s: Sys, run: string)
    requires Sound(s.db) && run in s.finalized && RunOk(s, run)
    ensures match Report(w, run, s.finalized[run])
            case Success(email) => EmailOf(w, s, run, email)
            case Failure(e) => NoEmailOf(w, s, run, e)
  {
    var frozen := s.finalized[run];
    var rows := Listing(frozen.stages);
    ListedKeyed(s.db, run, rows);
    match Report(w, run, frozen)
    case Success(email) => EmailExact(w.rendering, run, frozen.info, rows, email);
    case Failure(_) => ErrorExact(w.rendering, run, frozen.info, rows);
  }

  /** What a finishing delivery commits: the run concluded, in the state its outcome says unless it
      was orphaned first, and one row with the verdict and its numbers. */
  lemma FinishCommits(w: World, s: Sys, i: nat, now: Time)
    requires i < |s.tasks| && s.tasks[i].pc.Finishing? && (s.tasks[i].pc.outcome.OutcomeFailure? ==> s.tasks[i].pc.reason.Some?)
    requires TaskNext(w, s, i, Finish(now)).tasks[i].pc.Returned?
    ensures var t, s' := s.tasks[i], TaskNext(w, s, i, Finish(now));
            if t.pc.outcome.OutcomeSuccess? then
              Acceptance.Concluded(s.db, s'.db, t.run, OutcomeSuccess, t.pc.recipients, t.pc.attachments, None, now)
            else
              Acceptance.Concluded(s.db, s'.db, t.run, OutcomeFailure, t.pc.recipients, 0, t.pc.reason, now)
  {
    var t := s.tasks[i];
    if t.pc.outcome.OutcomeSuccess? {
      Acceptance.FinishSentExact(w.policy, s.db, t.run, t.pc.recipients, t.pc.attachments, now);
    } else {
      Acceptance.FinishFailedExact(w.policy, s.db, t.run, t.pc.reason.value, t.pc.recipients, now);
    }
  }

  /** Those numbers: the attachments of the run's email and the recipients it went to; or the reason
      for which the mailer, or the rendering, failed. */
  lemma FinishNumbers(w: World, steps: seq<Step>, i: nat)
    requires var s := Reached(w, steps); i < |s.tasks| && s.tasks[i].pc.Finishing?
    ensures var s := Reached(w, steps);
            var t := s.tasks[i];
            && t.run in s.finalized && OutcomeOf(t.answer, t.pc.outcome, t.pc.reason, t.pc.recipients)
            && (t.pc.outcome.OutcomeFailure? ==> t.pc.reason.Some?)
            && (t.pc.outcome.OutcomeSuccess? ==>
                  exists email :: EmailOf(w, s, t.run, email) && t.pc.attachments == |email.attachments|)
  {
    InvHolds(w, steps);
    var s := Reached(w, steps);
    var t := s.tasks[i];
    assert TaskOk(w, s, t) && RunOk(s, t.run);
    if t.pc.outcome.OutcomeSuccess? {
      ReportExact(w, s, t.run);
      assert EmailOf(w, s, t.run, Report(w, t.run, s.finalized[t.run]).value);
    }
  }

  // ---- Resends -----------------------------------------------------------------------------------

  /** The mailer's part of a resend: its email once more, if anyone subscribed, and the mailer's
      answer is the verdict. */
  lemma ResendSends(w: World, s: Sys, i: nat, recipients: nat, answer: Answer)
    requires i < |s.resends| && s.resends[i].pc.Recomposed?
    ensures var r, s' := s.resends[i], ResendNext(w, s, i, SendAgain(recipients, answer));
            && s'.db == s.db && |s'.resends| == |s.resends| && s'.resends[i].run == r.run
            && var pc := s'.resends[i].pc;
               if recipients == 0 then s'.mail == s.mail && pc == Resent(OutcomeSuccess, 0)
               else
                 && s'.mail == s.mail + [Mail(r.run, r.pc.email, true)]
                 && (if answer.Broken? then pc == Over
                     else pc.Resent? && pc.recipients == recipients && (pc.outcome.OutcomeSuccess? <==> answer.Accepted?))
  {
  }

  /** A resend's rendering: the frozen email, or a failure if it cannot be rendered for one of the
      reasons a delivery reports. */
  lemma ResendRenders(w: World, steps: seq<Step>, i: nat)
    requires var s := Reached(w, steps);
             i < |s.resends| && s.resends[i].pc.Reloaded? && Acceptance.Readable(s.db, s.resends[i].run)
    ensures var s := Reached(w, steps);
            ResendRendersAs(w, s, s.resends[i].run, ResendNext(w, s, i, Recompose).resends[i].pc)
  {
    InvHolds(w, steps);
    var s := Reached(w, steps);
    var r := s.resends[i];
    assert ResendOk(w, s, r) && RunOk(s, r.run);
    RecomposesAs(w, s, i);
  }

  lemma RecomposesAs(w: World, s: Sys, i: nat)
    requires i < |s.resends| && s.resends[i].pc.Reloaded? && Acceptance.Readable(s.db, s.resends[i].run)
    requires Sound(s.db) && ResendOk(w, s, s.resends[i]) && RunOk(s, s.resends[i].run)
    ensures ResendRendersAs(w, s, s.resends[i].run, ResendNext(w, s, i, Recompose).resends[i].pc)
  {
    var r := s.resends[i];
    var composed := Report(w, r.run, s.finalized[r.run]);
    FrozenContent(w, s, r.run, r.pc.rows);
    assert ResendNext(w, s, i, Recompose) == SetResend(s, i, AfterRecompose(composed));
    RecomposedAs(w, s, r.run, composed);
  }

  ghost predicate ResendRendersAs(w: World, s: Sys, run: string, pc: ResendPc) {
    match pc
    case Recomposed(email) => EmailOf(w, s, run, email)
    case Resent(outcome, recipients) =>
      outcome == OutcomeFailure && recipients == 0 && exists e: RenderError :: e != Unexpected && NoEmailOf(w, s, run, e)
    case Over => NoEmailOf(w, s, run, Unexpected)
    case _ => false
  }

  lemma RecomposedAs(w: World, s: Sys, run: string, composed: Result<Email, RenderError>)
    requires Sound(s.db) && run in s.finalized && RunOk(s, run) && composed == Report(w, run, s.finalized[run])
    ensures ResendRendersAs(w, s, run, AfterRecompose(composed))
  {
    ReportExact(w, s, run);
    match composed
    case Success(email) => RecomposedEmail(w, s, run, email);
    case Failure(e) => RecomposedFailure(w, s, run, e);
  }

  lemma RecomposedEmail(w: World, s: Sys, run: string, email: Email)
    requires EmailOf(w, s, run, email)
    ensures ResendRendersAs(w, s, run, AfterRecompose(Success(email)))
  {
  }

  lemma RecomposedFailure(w: World, s: Sys, run: string, e: RenderError)
    requires NoEmailOf(w, s, run, e)
    ensures ResendRendersAs(w, s, run, AfterRecompose(Failure(e)))
  {
  }

  /** And its record: one row with the verdict, nothing else. */
  lemma ResendRecords(w: World, s: Sys, i: nat, now: Time)
    requires i < |s.resends| && s.resends[i].pc.Resent?
    ensures var r, s' := s.resends[i], Next(w, s, ResendStep(i, Audit(now)));
            && s'.db.runs == s.db.runs && s'.db.stages == s.db.stages && s'.db.outbox == s.db.outbox
            && s'.db.audit == s.db.audit + [ResendReport(now, r.run, r.pc.outcome, r.pc.recipients)]
            && s'.mail == s.mail && s'.resends[i].pc == Over
  {
    Acceptance.ResendExact(w.policy, s.db, s.resends[i].run, s.resends[i].pc.outcome, s.resends[i].pc.recipients, now);
  }

  /** The run's delivery returned a success, which the mailer took or nobody was there to get. */
  predicate DeliveredBy(s: Sys, run: string, i: nat) {
    && i < |s.tasks| && s.tasks[i].run == run && s.tasks[i].pc == Returned(OutcomeSuccess)
    && (s.tasks[i].answer == Some(Accepted) || Deliveries(s.mail, run) == [])
  }

  lemma SentAt(w: World, s: Sys, run: string)
    requires Inv(w, s) && run in s.db.runs
    ensures s.db.runs[run].state.Sent? <==> !s.db.runs[run].state.Orphaned? && exists i :: DeliveredBy(s, run, i)
  {
    assert RunOk(s, run);
    if s.db.runs[run].state.Sent? {
      assert HasTask(s, run);
      var i :| 0 <= i < |s.tasks| && s.tasks[i].run == run;
      TaskRecords(w, s, s.tasks[i]);
      assert DeliveredBy(s, run, i);
    }
    forall i: nat | DeliveredBy(s, run, i)
      ensures s.db.runs[run].state == Conclusion(s.db, run, OutcomeSuccess)
    {
      TaskRecords(w, s, s.tasks[i]);
    }
  }

  /** A run is SENT exactly when its delivery returned a success and the sweeper had not
      orphaned it; then the mailer took its report, or there was nobody to send it to. */
  lemma SentMeansDelivered(w: World, steps: seq<Step>, run: string)
    requires run in Reached(w, steps).db.runs
    ensures var s := Reached(w, steps);
            s.db.runs[run].state.Sent? <==> !s.db.runs[run].state.Orphaned? && exists i :: DeliveredBy(s, run, i)
  {
    InvHolds(w, steps);
    SentAt(w, Reached(w, steps), run);
  }

  /** Whatever is mailed for a run, by its delivery or by any later resend, is one function of
      the declaration and stage table its finalization committed: the email they call for. */
  lemma OnlyFrozenContentIsMailed(w: World, steps: seq<Step>, i: nat)
    requires i < |Reached(w, steps).mail|
    ensures var s := Reached(w, steps);
            var m := s.mail[i];
            && m.run in s.finalized && Report(w, m.run, s.finalized[m.run]) == Success(m.email)
            && EmailOf(w, s, m.run, m.email)
  {
    InvHolds(w, steps);
    assert RunOk(Reached(w, steps), Reached(w, steps).mail[i].run);
    ReportExact(w, Reached(w, steps), Reached(w, steps).mail[i].run);
  }

  lemma {:induction false} FinalizedStays(w: World, s: Sys, steps: seq<Step>, run: string)
    requires Inv(w, s) && run in s.finalized
    ensures var s' := After(w, s, steps);
            Inv(w, s') && run in s'.finalized && s'.finalized[run] == s.finalized[run]
  {
    if steps != [] {
      var n := |steps| - 1;
      FinalizedStays(w, s, steps[..n], run);
      FinalizedGrows(w, After(w, s, steps[..n]), steps[n]);
      InvKept(w, After(w, s, steps[..n]), steps[n]);
    }
  }

  lemma FinalizedContent(w: World, s: Sys, run: string)
    requires Inv(w, s) && run in s.finalized
    ensures && run in s.db.runs && run in s.db.stages && !Collecting(s.db.runs[run].state)
            && s.finalized[run] == Snapshot(s.db.runs[run].info, s.db.stages[run])
  {
    assert RunOk(s, run);
  }

  /** From its finalization on, a run's declaration and stage rows stay what they were then. */
  lemma FrozenSinceFinalization(w: World, steps: seq<Step>, further: seq<Step>, run: string)
    requires run in Reached(w, steps).finalized
    ensures var s, s' := Reached(w, steps), After(w, Reached(w, steps), further);
            && run in s.db.runs && run in s.db.stages && run in s'.db.runs && run in s'.db.stages
            && s'.db.stages[run] == s.db.stages[run] && s'.db.runs[run].info == s.db.runs[run].info
            && run in s'.finalized
            && s'.finalized[run] == Snapshot(s.db.runs[run].info, s.db.stages[run])
  {
    InvHolds(w, steps);
    FinalizedStays(w, Reached(w, steps), further, run);
    FinalizedContent(w, Reached(w, steps), run);
    FinalizedContent(w, After(w, Reached(w, steps), further), run);
  }
}
