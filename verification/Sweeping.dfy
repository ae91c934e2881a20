/** The orphan sweeper under interference: what a tick that returns has achieved, what its two
    counters mean, how a run can be orphaned although it is no longer expired, and how ticks
    drain a backlog. */
module Sweeping {
  import opened Wrappers
  import opened Sequences
  import opened RunStates
  import opened Database
  import opened Outbox
  import opened Transactions
  import opened Effects
  import opened AuditReplay
  import opened HandOff
  import opened Lifecycle
  import Delivery
  import StageStates

  // ---- The invariant -----------------------------------------------------------------------

  /** How many outbox rows belong to these runs. */
  function RowsOf(outbox: seq<OutboxRow>, runs: seq<string>): nat {
    if runs == [] then 0
    else RowsOf(outbox, runs[..|runs| - 1]) + |ActionsOf(outbox, runs[|runs| - 1])|
  }

  predicate Settled(db: Db, run: string) {
    run in db.runs && Terminal(db.runs[run].state)
  }

  predicate IsOrphan(db: Db, run: string) {
    run in db.runs && db.runs[run].state.Orphaned?
  }

  /** What a tick has dealt with is terminal; what it moved is orphaned, counted, and the rows
      counted are the ones in the outbox for what it moved. */
  ghost predicate SweepOk(db: Db, sw: Sweep) {
    && sw.next <= |sw.candidates| && Distinct(sw.candidates)
    && (forall k :: 0 <= k < |sw.candidates| ==> sw.candidates[k] in db.runs)
    && (forall k :: 0 <= k < sw.next ==> Settled(db, sw.candidates[k]))
    && (forall m :: m in sw.moved ==> m in sw.candidates[..sw.next] && IsOrphan(db, m))
    && Distinct(sw.moved)
    && sw.orphaned == |sw.moved|
    && sw.enqueued == RowsOf(db.outbox, sw.moved)
  }

  ghost predicate Inv(w: World, s: Sys) {
    && Delivery.StoreOk(w, s.db)
    && (forall i :: 0 <= i < |s.sweeps| ==> SweepOk(s.db, s.sweeps[i]))
    // No run is moved by two ticks.
    && (forall i, j, m :: 0 <= i < j < |s.sweeps| && m in s.sweeps[i].moved ==> m !in s.sweeps[j].moved)
  }

  lemma {:induction false} RowsOfSame(outbox: seq<OutboxRow>, outbox': seq<OutboxRow>, runs: seq<string>)
    requires forall r :: r in runs ==> ActionsOf(outbox', r) == ActionsOf(outbox, r)
    ensures RowsOf(outbox', runs) == RowsOf(outbox, runs)
  {
    if runs != [] {
      RowsOfSame(outbox, outbox', runs[..|runs| - 1]);
    }
  }

  /** Terminal runs stay as they are, with their rows. */
  ghost predicate Lasting(db: Db, db': Db) {
    && (forall r :: r in db.runs ==> r in db'.runs)
    && (forall r :: Settled(db, r) ==> Settled(db', r) && db'.runs[r].state == db.runs[r].state)
    && (forall r :: IsOrphan(db, r) ==> ActionsOf(db'.outbox, r) == ActionsOf(db.outbox, r))
  }

  lemma CommitLasting(policy: Policy, db: Db, tx: Tx)
    ensures Lasting(db, Commit(policy, db, tx))
  {
    var db' := Commit(policy, db, tx);
    forall r
      ensures r in db.runs ==> r in db'.runs
      ensures Settled(db, r) ==> Settled(db', r) && db'.runs[r].state == db.runs[r].state
      ensures IsOrphan(db, r) ==> ActionsOf(db'.outbox, r) == ActionsOf(db.outbox, r)
    {
      if r in db.runs {
        RunKept(policy, db, tx, r);
        if tx.Orphan? && tx.run == r {
          assert Settled(db, r) ==> !Sweepable(db, r);
        } else {
          ActionsKept(policy, db, tx, r);
        }
      }
    }
  }

  lemma StepLasting(w: World, s: Sys, step: Step)
    ensures Lasting(s.db, Next(w, s, step).db)
  {
    OneCommit(w, s, step);
    if Next(w, s, step).db != s.db {
      CommitLasting(w.policy, s.db, Attempt(s, step).value);
    }
  }

  lemma SweepUndisturbed(db: Db, db': Db, sw: Sweep)
    requires SweepOk(db, sw) && Lasting(db, db')
    ensures SweepOk(db', sw) && SweepOk(db', sw.(alive := false))
  {
    RowsOfSame(db.outbox, db'.outbox, sw.moved);
  }

  // ---- One candidate ------------------------------------------------------------------------

  /** What processing one candidate does to the tick's own record. */
  lemma SweepEffect(w: World, s: Sys, i: nat, now: Time)
    requires i < |s.sweeps|
    ensures var s', sw := SweepNext(w, s, i, now), s.sweeps[i];
            var sw' := s'.sweeps[i];
            && s'.sweeps == s.sweeps[i := sw']
            && (|| sw' == sw
                || sw' == sw.(alive := false)
                || (&& sw.next < |sw.candidates| && sw' == sw.(next := sw.next + 1) && s'.db == s.db
                    && (sw.candidates[sw.next] in s.db.runs ==> Settled(s.db, sw.candidates[sw.next])))
                || (&& sw.next < |sw.candidates| && Sweepable(s.db, sw.candidates[sw.next])
                    && s'.db == OrphanTx(w.policy, s.db, sw.candidates[sw.next], now)
                    && sw' == WithMoved(sw, sw.candidates[sw.next],
                                |ResolveActions(w.policy, s.db.runs[sw.candidates[sw.next]].info.pipeline)|)))
  {
  }

  lemma OrphanedRows(policy: Policy, db: Db, run: string, now: Time)
    requires HandedOff(policy, db, run) && Sweepable(db, run)
    ensures var db' := OrphanTx(policy, db, run, now);
            IsOrphan(db', run) && ActionsOf(db'.outbox, run) == ResolveActions(policy, db.runs[run].info.pipeline)
  {
    NewRowsActions(db.outbox, run, ResolveActions(policy, db.runs[run].info.pipeline), now, run);
  }

  lemma RowsOfAppend(outbox: seq<OutboxRow>, runs: seq<string>, run: string)
    ensures RowsOf(outbox, runs + [run]) == RowsOf(outbox, runs) + |ActionsOf(outbox, run)|
  {
    assert (runs + [run])[..|runs|] == runs;
  }

  lemma NotYetMoved(db: Db, sw: Sweep)
    requires SweepOk(db, sw) && sw.next < |sw.candidates| && Sweepable(db, sw.candidates[sw.next])
    ensures sw.candidates[sw.next] !in sw.moved
  {
  }

  /** A tick that has dealt with one more candidate and moved it. */
  function WithMoved(sw: Sweep, run: string, rows: nat): Sweep {
    sw.(next := sw.next + 1, moved := sw.moved + [run], orphaned := sw.orphaned + 1, enqueued := sw.enqueued + rows)
  }

  lemma WithMovedOk(db: Db, sw: Sweep, run: string)
    requires SweepOk(db, sw) && sw.next < |sw.candidates| && sw.candidates[sw.next] == run
    requires run !in sw.moved && IsOrphan(db, run)
    ensures SweepOk(db, WithMoved(sw, run, |ActionsOf(db.outbox, run)|))
  {
    RowsOfAppend(db.outbox, sw.moved, run);
    assert sw.candidates[..sw.next + 1] == sw.candidates[..sw.next] + [run];
  }

  /** Moving a candidate adds it and its rows to what the tick has to show. */
  lemma MovedOk(policy: Policy, db: Db, sw: Sweep, now: Time)
    requires SweepOk(db, sw) && AllHandedOff(policy, db)
    requires sw.next < |sw.candidates| && Sweepable(db, sw.candidates[sw.next])
    ensures var run := sw.candidates[sw.next];
            && run !in sw.moved
            && SweepOk(OrphanTx(policy, db, run, now),
                       WithMoved(sw, run, |ResolveActions(policy, db.runs[run].info.pipeline)|))
  {
    var run := sw.candidates[sw.next];
    var db' := OrphanTx(policy, db, run, now);
    NotYetMoved(db, sw);
    assert HandedOff(policy, db, run);
    OrphanedRows(policy, db, run, now);
    OrphanLasting(policy, db, run, now);
    SweepUndisturbed(db, db', sw);
    WithMovedOk(db', sw, run);
  }

  lemma OrphanLasting(policy: Policy, db: Db, run: string, now: Time)
    requires Sweepable(db, run)
    ensures Lasting(db, OrphanTx(policy, db, run, now))
  {
    assert Commit(policy, db, Orphan(run, now)) == OrphanTx(policy, db, run, now);
    CommitLasting(policy, db, Orphan(run, now));
  }

  // ---- Preservation --------------------------------------------------------------------------

  lemma OthersKeepSweeps(w: World, s: Sys, step: Step)
    requires !step.SweepStep?
    ensures var s' := Next(w, s, step);
            || s'.sweeps == s.sweeps
            || s'.sweeps == []
            || (step.SweepAbort? && step.sweep < |s.sweeps|
                && s'.sweeps == s.sweeps[step.sweep := s.sweeps[step.sweep].(alive := false)])
            || (step.SweepScan? && s'.db == s.db
                && ExpiredBatch(s.db, step.now - w.runTimeout, w.sweepLimit, step.candidates)
                && s'.sweeps == s.sweeps + [Sweep(step.candidates, 0, [], 0, 0, true)])
  {
  }

  lemma FreshSweepOk(db: Db, cutoff: Time, limit: nat, batch: seq<string>)
    requires ExpiredBatch(db, cutoff, limit, batch)
    ensures SweepOk(db, Sweep(batch, 0, [], 0, 0, true))
  {
    forall k | 0 <= k < |batch|
      ensures batch[k] in db.runs
    {
      assert batch[k] in batch;
    }
  }

  lemma OtherStepsKeep(w: World, s: Sys, step: Step)
    requires Inv(w, s) && !step.SweepStep?
    ensures Inv(w, Next(w, s, step))
  {
    var s' := Next(w, s, step);
    Delivery.StoreKept(w, s, step);
    StepLasting(w, s, step);
    OthersKeepSweeps(w, s, step);
    if step.SweepScan? && s'.sweeps != s.sweeps {
      FreshSweepOk(s.db, step.now - w.runTimeout, w.sweepLimit, step.candidates);
    }
    forall i | 0 <= i < |s'.sweeps|
      ensures SweepOk(s'.db, s'.sweeps[i])
    {
      if i < |s.sweeps| {
        SweepUndisturbed(s.db, s'.db, s.sweeps[i]);
      }
    }
  }

  /** The processed tick is in order, and what it newly moved was not terminal before. */
  lemma ProcessedOk(w: World, s: Sys, i: nat, now: Time)
    requires i < |s.sweeps| && SweepOk(s.db, s.sweeps[i]) && AllHandedOff(w.policy, s.db)
    ensures var s', sw := SweepNext(w, s, i, now), s.sweeps[i];
            && s'.sweeps == s.sweeps[i := s'.sweeps[i]]
            && SweepOk(s'.db, s'.sweeps[i])
            && (forall m :: m in s'.sweeps[i].moved ==> m in sw.moved || !IsOrphan(s.db, m))
  {
    var s', sw := SweepNext(w, s, i, now), s.sweeps[i];
    StepLasting(w, s, SweepStep(i, now));
    assert Next(w, s, SweepStep(i, now)).db == s'.db;
    SweepEffect(w, s, i, now);
    SweepUndisturbed(s.db, s'.db, sw);
    if s'.sweeps[i].moved != sw.moved {
      MovedOk(w.policy, s.db, sw, now);
    }
  }

  lemma SweepStepKeeps(w: World, s: Sys, i: nat, now: Time)
    requires Inv(w, s) && i < |s.sweeps|
    ensures Inv(w, Next(w, s, SweepStep(i, now)))
  {
    var step := SweepStep(i, now);
    var s' := Next(w, s, step);
    Delivery.StoreKept(w, s, step);
    StepLasting(w, s, step);
    assert SweepOk(s.db, s.sweeps[i]);
    ProcessedOk(w, s, i, now);
    ProcessedBesideOthers(s, s', i);
  }

  lemma ProcessedBesideOthers(s: Sys, s': Sys, i: nat)
    requires i < |s.sweeps| && Lasting(s.db, s'.db)
    requires forall j :: 0 <= j < |s.sweeps| ==> SweepOk(s.db, s.sweeps[j])
    requires forall j, k, m :: 0 <= j < k < |s.sweeps| && m in s.sweeps[j].moved ==> m !in s.sweeps[k].moved
    requires i < |s'.sweeps| && s'.sweeps == s.sweeps[i := s'.sweeps[i]] && SweepOk(s'.db, s'.sweeps[i])
    requires forall m :: m in s'.sweeps[i].moved ==> m in s.sweeps[i].moved || !IsOrphan(s.db, m)
    ensures forall j :: 0 <= j < |s'.sweeps| ==> SweepOk(s'.db, s'.sweeps[j])
    ensures forall j, k, m :: 0 <= j < k < |s'.sweeps| && m in s'.sweeps[j].moved ==> m !in s'.sweeps[k].moved
  {
    forall j | 0 <= j < |s'.sweeps|
      ensures SweepOk(s'.db, s'.sweeps[j])
    {
      if j != i {
        SweepUndisturbed(s.db, s'.db, s.sweeps[j]);
      }
    }
    forall j, k, m | 0 <= j < k < |s'.sweeps| && m in s'.sweeps[j].moved
      ensures m !in s'.sweeps[k].moved
    {
      assert SweepOk(s.db, s.sweeps[j]) && SweepOk(s.db, s.sweeps[k]);
    }
  }

  lemma InvKept(w: World, s: Sys, step: Step)
    requires Inv(w, s)
    ensures Inv(w, Next(w, s, step))
  {
    if step.SweepStep? {
      if step.sweep < |s.sweeps| {
        SweepStepKeeps(w, s, step.sweep, step.now);
      }
    } else {
      OtherStepsKeep(w, s, step);
    }
  }

  /** From any state in order, whatever happens next. */
  lemma {:induction false} InvAfter(w: World, s: Sys, steps: seq<Step>)
    requires Inv(w, s)
    ensures Inv(w, After(w, s, steps))
  {
    if steps != [] {
      InvAfter(w, s, steps[..|steps| - 1]);
      InvKept(w, After(w, s, steps[..|steps| - 1]), steps[|steps| - 1]);
    }
  }

  lemma InvHolds(w: World, steps: seq<Step>)
    ensures Inv(w, Reached(w, steps))
  {
    HandOffHolds(w.policy, []);
    InvAfter(w, INITIAL, steps);
  }

  // ---- What a tick that returns has achieved ----------------------------------------------------

  predicate Finished(sw: Sweep) {
    sw.alive && sw.next == |sw.candidates|
  }

  /** Whatever ran concurrently, every run the scan returned is terminal once the tick returns;
      `orphaned_count` is the number of distinct runs this tick moved, `enqueued_actions` the
      number of outbox rows those runs have. */
  lemma TickIsComplete(w: World, steps: seq<Step>, i: nat)
    requires i < |Reached(w, steps).sweeps| && Finished(Reached(w, steps).sweeps[i])
    ensures var s := Reached(w, steps);
            var sw := s.sweeps[i];
            && (forall run :: run in sw.candidates ==> Settled(s.db, run))
            && (forall run :: run in sw.moved ==> run in sw.candidates && IsOrphan(s.db, run))
            && Distinct(sw.moved) && sw.orphaned == |sw.moved|
            && sw.enqueued == RowsOf(s.db.outbox, sw.moved)
  {
    InvHolds(w, steps);
    var s := Reached(w, steps);
    assert SweepOk(s.db, s.sweeps[i]);
  }

  /** No run is counted by two ticks. */
  lemma MovedOnce(w: World, steps: seq<Step>, i: nat, j: nat, run: string)
    requires var s := Reached(w, steps);
             i < |s.sweeps| && j < |s.sweeps| && run in s.sweeps[i].moved && run in s.sweeps[j].moved
    ensures i == j
  {
    InvHolds(w, steps);
  }

  // ---- The documented count ---------------------------------------------------------------------

  /** The pipelines' own lists are as long as the global one. */
  predicate UniformOverrides(policy: Policy) {
    forall p :: p in policy.overrides ==> |policy.overrides[p]| == |policy.dispositions|
  }

  /** The documented meaning of `enqueued_actions`, for every tick of every run of the service. */
  ghost predicate CountAsDocumented(w: World) {
    forall steps, i :: 0 <= i < |Reached(w, steps).sweeps| ==> Documented(w, Reached(w, steps).sweeps[i])
  }

  predicate Documented(w: World, sw: Sweep) {
    sw.enqueued == sw.orphaned * |w.policy.dispositions|
  }

  lemma {:induction false} UniformCount(w: World, db: Db, runs: seq<string>)
    requires UniformOverrides(w.policy) && AllHandedOff(w.policy, db)
    requires forall r :: r in runs ==> IsOrphan(db, r)
    ensures RowsOf(db.outbox, runs) == |runs| * |w.policy.dispositions|
  {
    if runs != [] {
      var n := |runs| - 1;
      UniformCount(w, db, runs[..n]);
      assert runs[n] in runs;
      assert HandedOff(w.policy, db, runs[n]);
      assert (n + 1) * |w.policy.dispositions| == n * |w.policy.dispositions| + |w.policy.dispositions|;
    }
  }

  function PlainInfo(pipeline: string): RunInfo {
    RunInfo(pipeline, {}, [], PerStage, None, 0)
  }

  /** One run of a pipeline, begun and orphaned. */
  function SweepOneRun(w: World, pipeline: string): seq<Step> {
    [BeginStep("r", PlainInfo(pipeline), 0), SweepScan(w.runTimeout, ["r"]), SweepStep(0, w.runTimeout)]
  }

  lemma OneMore(w: World, steps: seq<Step>, step: Step)
    ensures Reached(w, steps + [step]) == Next(w, Reached(w, steps), step)
  {
    assert (steps + [step])[..|steps|] == steps;
  }

  lemma ThreeSteps(w: World, a: Step, b: Step, c: Step)
    ensures Reached(w, [a, b, c]) == Next(w, Next(w, Next(w, INITIAL, a), b), c)
  {
    OneMore(w, [], a);
    OneMore(w, [a], b);
    OneMore(w, [a, b], c);
    assert [] + [a] == [a] && [a] + [b] == [a, b] && [a, b] + [c] == [a, b, c];
  }

  const FRESH_SWEEP := Sweep(["r"], 0, [], 0, 0, true)

  lemma RunBegun(w: World, info: RunInfo)
    requires ValidInfo(info) && info.createdAt == 0
    ensures var s := Next(w, INITIAL, BeginStep("r", info, 0));
            && s == INITIAL.(db := s.db)
            && s.db.runs == map["r" := Run(info, Initiated, 0)]
            && s.db.stages == map["r" := InitialStages(info.declared)]
            && s.db.outbox == []
  {
  }

  lemma RunScanned(w: World, s: Sys, info: RunInfo)
    requires s.db.runs == map["r" := Run(info, Initiated, 0)] && info.createdAt == 0
    ensures Next(w, s, SweepScan(w.runTimeout, ["r"])) == s.(sweeps := s.sweeps + [FRESH_SWEEP])
  {
    assert ["r"][0] == "r";
    assert ExpiredBatch(s.db, 0, w.sweepLimit, ["r"]);
  }

  lemma RunOrphaned(w: World, s: Sys, now: Time)
    requires s.sweeps == [FRESH_SWEEP] && Sweepable(s.db, "r")
    ensures Next(w, s, SweepStep(0, now))
         == s.(db := OrphanTx(w.policy, s.db, "r", now),
               sweeps := [WithMoved(FRESH_SWEEP, "r", |ResolveActions(w.policy, s.db.runs["r"].info.pipeline)|)])
  {
  }

  /** Begun and scanned. */
  predicate Scanned(w: World, s: Sys, info: RunInfo) {
    && s == INITIAL.(db := s.db, sweeps := [FRESH_SWEEP])
    && s.db.runs == map["r" := Run(info, Initiated, 0)]
    && s.db.stages == map["r" := InitialStages(info.declared)]
    && s.db.outbox == []
  }

  lemma RunBegunAndScanned(w: World, info: RunInfo)
    requires ValidInfo(info) && info.createdAt == 0
    ensures Scanned(w, Next(w, Next(w, INITIAL, BeginStep("r", info, 0)), SweepScan(w.runTimeout, ["r"])), info)
  {
    RunBegun(w, info);
    RunScanned(w, Next(w, INITIAL, BeginStep("r", info, 0)), info);
  }

  /** The state after one run of the pipeline was begun and orphaned. */
  lemma OneRunOrphaned(w: World, pipeline: string)
    ensures var s := Reached(w, SweepOneRun(w, pipeline));
            exists before :: Scanned(w, before, PlainInfo(pipeline)) && Sweepable(before.db, "r")
              && s == before.(db := OrphanTx(w.policy, before.db, "r", w.runTimeout),
                              sweeps := [WithMoved(FRESH_SWEEP, "r", |ResolveActions(w.policy, pipeline)|)])
  {
    var steps := SweepOneRun(w, pipeline);
    ThreeSteps(w, steps[0], steps[1], steps[2]);
    RunBegunAndScanned(w, PlainInfo(pipeline));
    var s2 := Next(w, Next(w, INITIAL, steps[0]), steps[1]);
    RunOrphaned(w, s2, w.runTimeout);
  }

  lemma OneRunSwept(w: World, pipeline: string)
    ensures var s := Reached(w, SweepOneRun(w, pipeline));
            && |s.sweeps| == 1 && s.sweeps[0].orphaned == 1
            && s.sweeps[0].enqueued == |ResolveActions(w.policy, pipeline)|
  {
    OneRunOrphaned(w, pipeline);
  }

  /** The result's documented formula, runs times configured actions, holds for every tick
      exactly when every per-pipeline override is as long as the global list. */
  lemma DocumentedCount(w: World)
    ensures CountAsDocumented(w) <==> UniformOverrides(w.policy)
  {
    if UniformOverrides(w.policy) {
      forall steps, i | 0 <= i < |Reached(w, steps).sweeps|
        ensures Documented(w, Reached(w, steps).sweeps[i])
      {
        InvHolds(w, steps);
        var s := Reached(w, steps);
        assert SweepOk(s.db, s.sweeps[i]);
        UniformCount(w, s.db, s.sweeps[i].moved);
      }
    }
    if CountAsDocumented(w) {
      forall p | p in w.policy.overrides
        ensures |w.policy.overrides[p]| == |w.policy.dispositions|
      {
        OneRunSwept(w, p);
        assert Documented(w, Reached(w, SweepOneRun(w, p)).sweeps[0]);
      }
    }
  }

  // ---- Expired at the scan, not at the move -------------------------------------------------------

  /** The clock reading a step commits with, if it commits anything. */
  predicate ReadsAfter(step: Step, cutoff: Time) {
    match step
    case BeginStep(_, _, now) => now > cutoff
    case SubmitStep(_, _, now) => now > cutoff
    case FinalizeStep(_, now) => now > cutoff
    case TaskStep(_, act) => (act.Start? ==> act.now > cutoff) && (act.Finish? ==> act.now > cutoff)
    case SweepStep(_, now) => now > cutoff
    case _ => true
  }

  /** The run's row is the same, or the run has moved on since the cutoff. */
  ghost predicate SameOrMoved(db: Db, db': Db, run: string, cutoff: Time) {
    && run in db.runs && run in db'.runs
    && (|| db'.runs[run] == db.runs[run]
        || (Depth(db.runs[run].state) < Depth(db'.runs[run].state) && db'.runs[run].updatedAt > cutoff))
  }

  lemma CommitMovesOn(w: World, s: Sys, step: Step, run: string, cutoff: Time)
    requires run in s.db.runs && ReadsAfter(step, cutoff)
    ensures SameOrMoved(s.db, Next(w, s, step).db, run, cutoff)
  {
    OneCommit(w, s, step);
    if Next(w, s, step).db != s.db {
      CommitStamps(w.policy, s.db, Attempt(s, step).value, run);
    }
  }

  /** A run's row only changes by moving to a later state, and takes the clock reading. */
  lemma CommitStamps(policy: Policy, db: Db, tx: Tx, run: string)
    requires run in db.runs
    ensures var db' := Commit(policy, db, tx);
            && run in db'.runs
            && (|| db'.runs[run] == db.runs[run]
                || (Depth(db.runs[run].state) < Depth(db'.runs[run].state) && db'.runs[run].updatedAt == tx.now))
  {
  }

  lemma {:induction false} MovesOn(w: World, s: Sys, steps: seq<Step>, run: string, cutoff: Time)
    requires run in s.db.runs && forall k :: 0 <= k < |steps| ==> ReadsAfter(steps[k], cutoff)
    ensures SameOrMoved(s.db, After(w, s, steps).db, run, cutoff)
  {
    if steps != [] {
      var n := |steps| - 1;
      MovesOn(w, s, steps[..n], run, cutoff);
      CommitMovesOn(w, After(w, s, steps[..n]), steps[n], run, cutoff);
    }
  }

  /** The per-run unit of work re-checks the state but not the age. A run expired at the scan
      and still sweepable is still expired exactly when its state is the one scanned. */
  lemma StillExpiredIffUnmoved(w: World, s: Sys, further: seq<Step>, run: string, cutoff: Time)
    requires Expired(s.db, cutoff, run)
    requires forall k :: 0 <= k < |further| ==> ReadsAfter(further[k], cutoff)
    requires Sweepable(After(w, s, further).db, run)
    ensures Expired(After(w, s, further).db, cutoff, run)
       <==> After(w, s, further).db.runs[run].state == s.db.runs[run].state
  {
    MovesOn(w, s, further, run, cutoff);
  }

  const STAGE := DeclaredStage("s", 0, TemplateRef("t", "1"))

  function ActiveInfo(): RunInfo {
    RunInfo("p", {}, [STAGE], PerStage, None, 0)
  }

  /** A run that reports between the scan and its own unit of work. */
  function SweepActiveRun(w: World): seq<Step> {
    [BeginStep("r", ActiveInfo(), 0), SweepScan(w.runTimeout, ["r"]),
     SubmitStep("r", Submission("s", None, None, None), w.runTimeout), SweepStep(0, w.runTimeout)]
  }

  lemma FourSteps(w: World, a: Step, b: Step, c: Step, d: Step)
    ensures Reached(w, [a, b, c, d]) == Next(w, Next(w, Next(w, Next(w, INITIAL, a), b), c), d)
  {
    ThreeSteps(w, a, b, c);
    OneMore(w, [a, b, c], d);
    assert [a, b, c] + [d] == [a, b, c, d];
  }

  lemma SubmitWakes(db: Db, now: Time)
    requires db.runs == map["r" := Run(ActiveInfo(), Initiated, 0)] && now >= 0
    requires db.stages == map["r" := map["s" := Stage("s", StageStates.Pending, STAGE.template, None, None, None, None)]]
    ensures var r := SubmitTx(db, "r", Submission("s", None, None, None), now);
            r.Success? && r.value.runs == map["r" := Run(ActiveInfo(), Aggregating, now)]
  {
    assert STAGE in ActiveInfo().declared;
  }

  lemma ActiveStages()
    ensures InitialStages(ActiveInfo().declared)
         == map["s" := Stage("s", StageStates.Pending, STAGE.template, None, None, None, None)]
  {
    assert ActiveInfo().declared[..0] == [];
  }

  /** The report that wakes the scanned run. */
  lemma Woken(w: World, s: Sys)
    requires Scanned(w, s, ActiveInfo()) && w.runTimeout >= 0
    ensures var s' := Next(w, s, SubmitStep("r", Submission("s", None, None, None), w.runTimeout));
            && s'.sweeps == [FRESH_SWEEP]
            && s'.db.runs == map["r" := Run(ActiveInfo(), Aggregating, w.runTimeout)]
  {
    ActiveStages();
    SubmitWakes(s.db, w.runTimeout);
  }

  /** It is orphaned although it has just moved: "expired when orphaned" does not hold. */
  lemma OrphansActiveRun(w: World)
    requires w.runTimeout > 0
    ensures var before, after := Reached(w, SweepActiveRun(w)[..3]), Reached(w, SweepActiveRun(w));
            && "r" in before.db.runs && !Expired(before.db, w.runTimeout - w.runTimeout, "r")
            && IsOrphan(after.db, "r")
  {
    var steps := SweepActiveRun(w);
    FourSteps(w, steps[0], steps[1], steps[2], steps[3]);
    ThreeSteps(w, steps[0], steps[1], steps[2]);
    assert steps[..3] == [steps[0], steps[1], steps[2]];
    RunBegunAndScanned(w, ActiveInfo());
    var s2 := Next(w, Next(w, INITIAL, steps[0]), steps[1]);
    Woken(w, s2);
    RunOrphaned(w, Next(w, s2, steps[2]), w.runTimeout);
  }
}
