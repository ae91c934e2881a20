/** Deliveries that never conclude: exactly when a task dies, what that leaves behind, and that
    nothing but the sweeper ever moves its run again. */
module LostDeliveries {
  import opened Wrappers
  import opened Sequences
  import opened RunStates
  import opened Database
  import opened Transactions
  import opened Assembly
  import opened Lifecycle
  import opened Delivery
  import Sweeping
  import StageStates

  // ---- Concluded or not ----------------------------------------------------------------------

  /** A run has an outcome on record exactly when its delivery returned; while it is being sent,
      its task has started and has not returned. */
  lemma ConcludedIffReturned(w: World, steps: seq<Step>, i: nat)
    requires i < |Reached(w, steps).tasks|
    ensures var s := Reached(w, steps);
            var t := s.tasks[i];
            && t.run in s.db.runs
            && (SendOutcomes(s.db.audit, t.run) != [] <==> t.pc.Returned?)
            && (s.db.runs[t.run].state.Sending? ==> !t.pc.Scheduled? && !t.pc.Returned?)
  {
    InvHolds(w, steps);
    var s := Reached(w, steps);
    assert TaskOk(w, s, s.tasks[i]) && RunOk(s, s.tasks[i].run);
  }

  /** What kills a task at its present point: an error it does not translate. The four render
      errors it catches, and a mailer refusal, do not. */
  ghost predicate Kills(w: World, s: Sys, i: nat, act: TaskAct)
    requires i < |s.tasks|
  {
    var t := s.tasks[i];
    match act
    case Start(now) => t.pc.Scheduled? && Apply(w.policy, s.db, StartSending(t.run, now)).Failure?
    case DoCompose =>
      && t.pc.Loaded?
      && (ReadRun(s.db, t.run).Failure?
          || Compose(w.rendering, t.run, s.db.runs[t.run].info, t.pc.rows) == Failure(Unexpected))
    case SendMail(answer) => t.pc.Addressed? && answer.Broken?
    case Finish(now) => t.pc.Finishing? && ReadRun(s.db, t.run).Failure?
    case Abort => !t.pc.Returned?
    case _ => false
  }

  lemma ComposeKills(w: World, s: Sys, i: nat)
    requires i < |s.tasks| && !s.tasks[i].pc.Dead?
    ensures TaskNext(w, s, i, DoCompose).tasks[i].pc.Dead? <==> Kills(w, s, i, DoCompose)
  {
    var t := s.tasks[i];
    if t.pc.Loaded? && ReadRun(s.db, t.run).Success? {
      var composed := Compose(w.rendering, t.run, s.db.runs[t.run].info, t.pc.rows);
      assert TaskNext(w, s, i, DoCompose).tasks[i].pc == AfterCompose(t.pc.info, composed);
      assert AfterCompose(t.pc.info, composed).Dead? <==> composed == Failure(Unexpected);
    }
  }

  lemma FinishKills(w: World, s: Sys, i: nat, now: Time)
    requires i < |s.tasks| && !s.tasks[i].pc.Dead? && TaskOk(w, s, s.tasks[i])
    ensures TaskNext(w, s, i, Finish(now)).tasks[i].pc.Dead? <==> Kills(w, s, i, Finish(now))
  {
    if s.tasks[i].pc.Finishing? {
      FinishEffect(w.policy, s.db, s.tasks[i], now);
    }
  }

  lemma StartKills(w: World, s: Sys, i: nat, now: Time)
    requires i < |s.tasks| && !s.tasks[i].pc.Dead?
    ensures TaskNext(w, s, i, Start(now)).tasks[i].pc.Dead? <==> Kills(w, s, i, Start(now))
  {
  }

  lemma SendKills(w: World, s: Sys, i: nat, answer: Answer)
    requires i < |s.tasks| && !s.tasks[i].pc.Dead?
    ensures TaskNext(w, s, i, SendMail(answer)).tasks[i].pc.Dead? <==> Kills(w, s, i, SendMail(answer))
  {
  }

  lemma QuietSteps(w: World, s: Sys, i: nat, act: TaskAct)
    requires i < |s.tasks| && !s.tasks[i].pc.Dead? && (act.Load? || act.Address?)
    ensures !TaskNext(w, s, i, act).tasks[i].pc.Dead?
  {
  }

  lemma OwnStepKills(w: World, s: Sys, i: nat, act: TaskAct)
    requires i < |s.tasks| && !s.tasks[i].pc.Dead? && TaskOk(w, s, s.tasks[i])
    ensures TaskNext(w, s, i, act).tasks[i].pc.Dead? <==> Kills(w, s, i, act)
  {
    match act
    case Start(now) => StartKills(w, s, i, now);
    case DoCompose => ComposeKills(w, s, i);
    case SendMail(answer) => SendKills(w, s, i, answer);
    case Finish(now) => FinishKills(w, s, i, now);
    case Load(_) => QuietSteps(w, s, i, act);
    case Address(_) => QuietSteps(w, s, i, act);
    case Abort =>
  }

  /** A task dies in a step exactly when its own step kills it or the service crashes before it
      has returned. */
  lemma DiesIff(w: World, steps: seq<Step>, step: Step, i: nat)
    requires i < |Reached(w, steps).tasks| && !Reached(w, steps).tasks[i].pc.Dead?
    ensures var s := Reached(w, steps);
            var s' := Next(w, s, step);
            && i < |s'.tasks|
            && (s'.tasks[i].pc.Dead? <==>
                  || (step.TaskStep? && step.task == i && Kills(w, s, i, step.taskAct))
                  || (step.Crash? && !s.tasks[i].pc.Returned?))
  {
    InvHolds(w, steps);
    StepKills(w, Reached(w, steps), step, i);
  }

  lemma StepKills(w: World, s: Sys, step: Step, i: nat)
    requires i < |s.tasks| && !s.tasks[i].pc.Dead? && TaskOk(w, s, s.tasks[i])
    ensures var s' := Next(w, s, step);
            && i < |s'.tasks|
            && (s'.tasks[i].pc.Dead? <==>
                  || (step.TaskStep? && step.task == i && Kills(w, s, i, step.taskAct))
                  || (step.Crash? && !s.tasks[i].pc.Returned?))
  {
    if Drives(step, i) {
      OwnStepKills(w, s, i, step.taskAct);
      DrivenIs(w, s, step, i);
    } else {
      OthersKillOnlyByCrash(w, s, step, i);
    }
  }

  lemma DrivenIs(w: World, s: Sys, step: Step, i: nat)
    requires i < |s.tasks| && Drives(step, i)
    ensures Next(w, s, step) == TaskNext(w, s, i, step.taskAct) && i < |Next(w, s, step).tasks|
  {
  }

  lemma OthersKillOnlyByCrash(w: World, s: Sys, step: Step, i: nat)
    requires i < |s.tasks| && !s.tasks[i].pc.Dead? && !Drives(step, i)
    ensures i < |Next(w, s, step).tasks|
    ensures Next(w, s, step).tasks[i].pc.Dead? <==> step.Crash? && !s.tasks[i].pc.Returned?
  {
    OthersStand(w, s, step, i);
  }

  // ---- What a dead task leaves ------------------------------------------------------------------

  ghost predicate Lost(s: Sys, i: nat) {
    && i < |s.tasks| && s.tasks[i].pc.Dead? && s.tasks[i].run in s.db.runs
    && !s.db.runs[s.tasks[i].run].state.Sent? && !s.db.runs[s.tasks[i].run].state.Failed?
    && SendOutcomes(s.db.audit, s.tasks[i].run) == []
  }

  lemma DeadStays(w: World, s: Sys, step: Step, i: nat)
    requires i < |s.tasks| && s.tasks[i].pc.Dead?
    ensures var s' := Next(w, s, step); i < |s'.tasks| && s'.tasks[i] == s.tasks[i]
  {
    if !Drives(step, i) {
      OthersStand(w, s, step, i);
    }
  }

  lemma {:induction false} DeadForever(w: World, s: Sys, steps: seq<Step>, i: nat)
    requires Inv(w, s) && i < |s.tasks| && s.tasks[i].pc.Dead?
    ensures var s' := After(w, s, steps); Inv(w, s') && i < |s'.tasks| && s'.tasks[i] == s.tasks[i]
  {
    if steps != [] {
      var n := |steps| - 1;
      DeadForever(w, s, steps[..n], i);
      InvKept(w, After(w, s, steps[..n]), steps[n]);
      DeadStays(w, After(w, s, steps[..n]), steps[n], i);
    }
  }

  /** A run whose delivery died is never SENT or FAILED and never gains an outcome: it waits,
      READY or SENDING, until the sweeper orphans it. */
  lemma LostForever(w: World, steps: seq<Step>, further: seq<Step>, i: nat)
    requires i < |Reached(w, steps).tasks| && Reached(w, steps).tasks[i].pc.Dead?
    ensures Lost(After(w, Reached(w, steps), further), i)
  {
    InvHolds(w, steps);
    DeadForever(w, Reached(w, steps), further, i);
    DeadIsLost(w, After(w, Reached(w, steps), further), i);
  }

  lemma DeadIsLost(w: World, s: Sys, i: nat)
    requires Inv(w, s) && i < |s.tasks| && s.tasks[i].pc.Dead?
    ensures Lost(s, i)
  {
    assert TaskOk(w, s, s.tasks[i]);
  }

  // ---- A history that ends so ---------------------------------------------------------------------

  const REPORTED := Stage("s", StageStates.Submitted, Sweeping.STAGE.template, None, None, None, Some(0))

  /** A run with its one stage submitted and finalized. */
  function Finalized(): seq<Step> {
    [BeginStep("r", Sweeping.ActiveInfo(), 0), SubmitStep("r", Submission("s", None, None, None), 0), FinalizeStep("r", 0)]
  }

  /** Its delivery up to a mailer that raises something unexpected. */
  function Attempted(): seq<Step> {
    [TaskStep(0, Start(0)), TaskStep(0, Load([REPORTED])), TaskStep(0, DoCompose),
     TaskStep(0, Address(1)), TaskStep(0, SendMail(Broken))]
  }

  function Report0(w: World): Result<Email, RenderError> {
    Compose(w.rendering, "r", Sweeping.ActiveInfo(), [REPORTED])
  }

  /** The run "r" in this state, its task at this point. */
  ghost predicate Standing(s: Sys, state: RunState, pc: TaskPc) {
    && s.db.runs == map["r" := Run(Sweeping.ActiveInfo(), state, 0)]
    && s.db.stages == map["r" := map["s" := REPORTED]]
    && |s.tasks| == 1 && s.tasks[0].run == "r" && s.tasks[0].pc == pc
  }

  lemma BegunAndSubmitted(w: World)
    ensures var s := Next(w, Next(w, INITIAL, Finalized()[0]), Finalized()[1]);
            && s.db.runs == map["r" := Run(Sweeping.ActiveInfo(), Aggregating, 0)]
            && s.db.stages == map["r" := map["s" := REPORTED]]
            && s.tasks == []
  {
    var s1 := Next(w, INITIAL, Finalized()[0]);
    assert Sweeping.ActiveInfo().declared[..0] == [];
    var pending := Stage("s", StageStates.Pending, Sweeping.STAGE.template, None, None, None, None);
    assert InitialStages(Sweeping.ActiveInfo().declared) == map["s" := pending];
    assert s1.db.runs == map["r" := Run(Sweeping.ActiveInfo(), Initiated, 0)];
    Sweeping.SubmitWakes(s1.db, 0);
    assert map["s" := pending]["s" := REPORTED] == map["s" := REPORTED];
  }

  lemma ReadyToDeliver(w: World)
    ensures Standing(Reached(w, Finalized()), Ready, Scheduled)
  {
    var steps := Finalized();
    Sweeping.ThreeSteps(w, steps[0], steps[1], steps[2]);
    BegunAndSubmitted(w);
  }

  lemma Started(w: World, s: Sys)
    requires Standing(s, Ready, Scheduled)
    ensures Standing(Next(w, s, TaskStep(0, Start(0))), Sending, Holding(Sweeping.ActiveInfo()))
  {
  }

  lemma RowsLoaded(w: World, s: Sys)
    requires Standing(s, Sending, Holding(Sweeping.ActiveInfo()))
    ensures Standing(Next(w, s, TaskStep(0, Load([REPORTED]))), Sending, Loaded(Sweeping.ActiveInfo(), [REPORTED]))
  {
    var stages := s.db.stages["r"];
    assert stages == map["s" := REPORTED] && stages["s"] == REPORTED;
    assert forall x :: x in stages.Values ==> x == REPORTED;
    assert stages.Values == {REPORTED};
    assert Lists([REPORTED], s.db.stages["r"]);
  }

  lemma ComposedNext(w: World, s: Sys)
    requires Standing(s, Sending, Loaded(Sweeping.ActiveInfo(), [REPORTED]))
    ensures Standing(Next(w, s, TaskStep(0, DoCompose)), Sending, AfterCompose(Sweeping.ActiveInfo(), Report0(w)))
  {
  }

  lemma MailerBreaks(w: World, s: Sys, pc: TaskPc)
    requires Standing(s, Sending, pc) && (pc.Composed? || pc.Dead? || pc.Finishing?)
    ensures Standing(Next(w, Next(w, s, TaskStep(0, Address(1))), TaskStep(0, SendMail(Broken))), Sending,
                     if pc.Composed? then Dead else pc)
  {
  }

  lemma AttemptedFrom(w: World, s: Sys)
    requires Standing(s, Ready, Scheduled)
    ensures Standing(After(w, s, Attempted()), Sending,
                     if Report0(w).Success? then Dead else AfterCompose(Sweeping.ActiveInfo(), Report0(w)))
  {
    var steps := Attempted();
    AfterFive(w, s, steps);
    Started(w, s);
    var s1 := Next(w, s, steps[0]);
    RowsLoaded(w, s1);
    var s2 := Next(w, s1, steps[1]);
    ComposedNext(w, s2);
    MailerBreaks(w, Next(w, s2, steps[2]), AfterCompose(Sweeping.ActiveInfo(), Report0(w)));
  }

  /** The delivery of this run ends dead, its run SENDING, exactly when rendering succeeded (and
      then the mailer broke) or failed with an error delivery does not catch. */
  lemma EndsInSending(w: World)
    ensures var s := Reached(w, Finalized() + Attempted());
            && |s.tasks| == 1 && "r" in s.db.runs && s.db.runs["r"].state.Sending?
            && (s.tasks[0].pc.Dead? <==> Report0(w).Success? || Report0(w).error.Unexpected?)
  {
    ReadyToDeliver(w);
    AfterConcat(w, INITIAL, Finalized(), Attempted());
    AttemptedFrom(w, Reached(w, Finalized()));
  }

  lemma AfterFive(w: World, s: Sys, steps: seq<Step>)
    requires |steps| == 5
    ensures After(w, s, steps)
         == Next(w, Next(w, Next(w, Next(w, Next(w, s, steps[0]), steps[1]), steps[2]), steps[3]), steps[4])
  {
    assert steps == [steps[0]] + [steps[1]] + [steps[2]] + [steps[3]] + [steps[4]];
    AfterConcat(w, s, [steps[0]] + [steps[1]] + [steps[2]] + [steps[3]], [steps[4]]);
    AfterConcat(w, s, [steps[0]] + [steps[1]] + [steps[2]], [steps[3]]);
    AfterConcat(w, s, [steps[0]] + [steps[1]], [steps[2]]);
    AfterConcat(w, s, [steps[0]], [steps[1]]);
    AfterOne(w, s, steps[0]);
    var s1 := Next(w, s, steps[0]);
    AfterOne(w, s1, steps[1]);
    var s2 := Next(w, s1, steps[1]);
    AfterOne(w, s2, steps[2]);
    var s3 := Next(w, s2, steps[2]);
    AfterOne(w, s3, steps[3]);
    AfterOne(w, Next(w, s3, steps[3]), steps[4]);
  }
}
