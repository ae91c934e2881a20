/** Units of work whose statements interleave, fail and crash under the shared lock are
    equivalent to whole units in turn. */
module Serializability {
  import opened Wrappers

  /** A statement works on the task's own memory and on the shared working database. It may be
      the block's explicit commit() or rollback(), after which the block is left with `local`,
      by returning or by raising. */
  datatype Effect<L, D> = Ran(local: L, db: D) | Raised(local: L) | Closed(local: L, db: D, commit: bool)

  type Unit<!L, !D> = seq<(L, D) -> Effect<L, D>>

  /** What a task does: the unit of work it opens next (none when it is done), how its memory
      looks once a failed unit's exception has been dealt with, and after a restart. */
  datatype Program<!L, !D> = Program(next: L -> Option<Unit<L, D>>, failed: L -> L, restart: L -> L)

  // ---- The reference: one unit at a time ----------------------------------------

  /** `ok` is whether the COMMIT, or the explicit ROLLBACK, that was to end the unit succeeded. */
  datatype Outcome = BeginRefused | Ended(ok: bool)

  datatype Turn = Turn(task: nat, outcome: Outcome) | Reboot

  datatype Store<L, D> = Store(db: D, locals: seq<L>, commits: seq<D>)

  /** The first `k` statements of a unit, run without interruption. */
  function RunStatements<L, D>(unit: Unit<L, D>, k: nat, l: L, d: D): Effect<L, D>
    requires k <= |unit|
  {
    if k == 0 then Ran(l, d)
    else match RunStatements(unit, k - 1, l, d)
      case Ran(l', d') => unit[k - 1](l', d')
      case stopped => stopped
  }

  /** What a whole unit leaves: the database entirely or not at all. */
  function Settle<L, D>(p: Program<L, D>, s: Store<L, D>, t: nat, effect: Effect<L, D>, ok: bool): Store<L, D>
    requires t < |s.locals|
  {
    if effect.Raised? || !ok then s.(locals := s.locals[t := p.failed(effect.local)])
    else if effect.Closed? && !effect.commit then s.(locals := s.locals[t := effect.local])
    else Store(effect.db, s.locals[t := effect.local], s.commits + [effect.db])
  }

  function Restarted<L, D>(p: Program<L, D>, locals: seq<L>): seq<L> {
    seq(|locals|, i requires 0 <= i < |locals| => p.restart(locals[i]))
  }

  /** A whole unit as one indivisible turn; or a crash, which keeps what was committed. */
  function TakeTurn<L, D>(p: Program<L, D>, s: Store<L, D>, turn: Turn): Store<L, D> {
    if turn.Reboot? then s.(locals := Restarted(p, s.locals))
    else
      var t := turn.task;
      if t >= |s.locals| || p.next(s.locals[t]).None? then s
      else if turn.outcome.BeginRefused? then s.(locals := s.locals[t := p.failed(s.locals[t])])
      else
        var unit := p.next(s.locals[t]).value;
        Settle(p, s, t, RunStatements(unit, |unit|, s.locals[t], s.db), turn.outcome.ok)
  }

  /** A turn touches one task's memory. The database is what the whole unit made of it exactly when
      the unit ran to its end or to an explicit commit and that COMMIT succeeded, and is then one
      durable database more; otherwise it is as it was. The task goes on from where the unit left
      it, unless BEGIN was refused, the unit raised, or its COMMIT or ROLLBACK failed. */
  lemma TurnExact<L, D>(p: Program<L, D>, s: Store<L, D>, t: nat, outcome: Outcome)
    requires t < |s.locals| && p.next(s.locals[t]).Some?
    ensures var unit := p.next(s.locals[t]).value;
            var effect := RunStatements(unit, |unit|, s.locals[t], s.db);
            var s' := TakeTurn(p, s, Turn(t, outcome));
            var durable := outcome == Ended(true) && (effect.Ran? || (effect.Closed? && effect.commit));
            && |s'.locals| == |s.locals| && (forall i :: 0 <= i < |s.locals| && i != t ==> s'.locals[i] == s.locals[i])
            && (if durable then s'.db == effect.db && s'.commits == s.commits + [effect.db]
                else s'.db == s.db && s'.commits == s.commits)
            && s'.locals[t] == if outcome.BeginRefused? then p.failed(s.locals[t])
                               else if outcome.ok && !effect.Raised? then effect.local
                               else p.failed(effect.local)
  {
  }

  function TakeTurns<L, D>(p: Program<L, D>, s: Store<L, D>, turns: seq<Turn>): Store<L, D> {
    if turns == [] then s
    else TakeTurn(p, TakeTurns(p, s, turns[..|turns| - 1]), turns[|turns| - 1])
  }

  /** Units ended since the process last started. */
  function UnitsSince(turns: seq<Turn>): nat {
    if turns == [] || turns[|turns| - 1].Reboot? then 0 else UnitsSince(turns[..|turns| - 1]) + 1
  }

  // ---- The system: every await is a point of interleaving -------------------------

  datatype Phase<L> =
    | Idle
    | Acquired
    | Running(done: nat, local: L)
    | Closing(local: L, commit: bool)
    | Aborting(local: L, outcome: Outcome)

  datatype Task<L> = Task(local: L, phase: Phase<L>)

  datatype System<L, D> = System(
    committed: D, working: D, inTransaction: bool,
    holder: Option<nat>, acquisitions: nat, releases: nat,
    tasks: seq<Task<L>>, commits: seq<D>, turns: seq<Turn>)

  datatype Action =
    | Acquire(task: nat)
    | Begin(task: nat, ok: bool)
    | Execute(task: nat)
    | Commit(task: nat, ok: bool)
    | Rollback(task: nat, ok: bool)
    | Crash

  function Start<L, D>(db: D, locals: seq<L>): System<L, D> {
    System(db, db, false, None, 0, 0,
           seq(|locals|, i requires 0 <= i < |locals| => Task(locals[i], Idle)), [], [])
  }

  function SetPhase<L, D>(s: System<L, D>, t: nat, phase: Phase<L>): System<L, D>
    requires t < |s.tasks|
  {
    s.(tasks := s.tasks[t := s.tasks[t].(phase := phase)])
  }

  /** The unit is over: the task moves on with `local`, the lock is given back. */
  function Finish<L, D>(s: System<L, D>, t: nat, local: L, outcome: Outcome): System<L, D>
    requires t < |s.tasks|
  {
    s.(tasks := s.tasks[t := Task(local, Idle)], holder := None,
       releases := s.releases + 1, turns := s.turns + [Turn(t, outcome)])
  }

  function CommitNow<L, D>(s: System<L, D>, t: nat, l: L, ok: bool): System<L, D>
    requires t < |s.tasks|
  {
    if ok then
      Finish(s, t, l, Ended(true)).(committed := s.working, inTransaction := false, commits := s.commits + [s.working])
    else SetPhase(s, t, Aborting(l, Ended(false)))
  }

  /** Memory and lock are gone; the database is what was committed. */
  function CrashNow<L, D>(p: Program<L, D>, s: System<L, D>): System<L, D> {
    System(s.committed, s.committed, false, None, 0, 0,
           seq(|s.tasks|, i requires 0 <= i < |s.tasks| => Task(p.restart(s.tasks[i].local), Idle)),
           s.commits, s.turns + [Reboot])
  }

  /** One action; a task that is not at that point does nothing. Only Acquire looks at the
      lock: every other action looks at nothing but the task's own position. */
  function Step<L, D>(p: Program<L, D>, s: System<L, D>, a: Action): System<L, D> {
    if a.Crash? then CrashNow(p, s) else StepOf(p, s, a, a.task)
  }

  function StepOf<L, D>(p: Program<L, D>, s: System<L, D>, a: Action, t: nat): System<L, D> {
    if t >= |s.tasks| then s
    else
      var task := s.tasks[t];
      var unit := p.next(task.local);
      match (a, task.phase)
      case (Acquire(_), Idle) =>
        if s.holder.Some? || unit.None? then s
        else SetPhase(s, t, Acquired).(holder := Some(t), acquisitions := s.acquisitions + 1)
      case (Begin(_, ok), Acquired) =>
        if ok && !s.inTransaction then SetPhase(s, t, Running(0, task.local)).(inTransaction := true)
        else Finish(s, t, p.failed(task.local), BeginRefused)
      case (Execute(_), Running(k, l)) =>
        if unit.None? || k >= |unit.value| then s
        else (match unit.value[k](l, s.working)
          case Ran(l', d') => SetPhase(s, t, Running(k + 1, l')).(working := d')
          case Raised(l') => SetPhase(s, t, Aborting(l', Ended(true)))
          case Closed(l', d', commit) => SetPhase(s, t, Closing(l', commit)).(working := d'))
      case (Commit(_, ok), Running(k, l)) =>
        if unit.None? || k < |unit.value| then s else CommitNow(s, t, l, ok)
      case (Commit(_, ok), Closing(l, true)) =>
        CommitNow(s, t, l, ok)
      case (Rollback(_, ok), Closing(l, false)) =>
        if ok then Finish(s, t, l, Ended(true)).(working := s.committed, inTransaction := false)
        else SetPhase(s, t, Aborting(l, Ended(false)))
      case (Rollback(_, ok), Aborting(l, outcome)) =>
        if ok then
          Finish(s, t, p.failed(l), outcome).(working := s.committed, inTransaction := false)
        else
          Finish(s, t, p.failed(l), outcome)
      case _ => s
  }

  function Execution<L, D>(p: Program<L, D>, s: System<L, D>, actions: seq<Action>): System<L, D> {
    if actions == [] then s
    else Step(p, Execution(p, s, actions[..|actions| - 1]), actions[|actions| - 1])
  }

  // ---- Refinement ------------------------------------------------------------------

  function Locals<L>(tasks: seq<Task<L>>): seq<L> {
    seq(|tasks|, i requires 0 <= i < |tasks| => tasks[i].local)
  }

  /** What outsiders may rely on: durable data, the memory of tasks between units, and the
      sequence of durable databases. */
  function Visible<L, D>(s: System<L, D>): Store<L, D> {
    Store(s.committed, Locals(s.tasks), s.commits)
  }

  /** The open unit has seen exactly what it would have seen running alone. */
  ghost predicate Isolated<L, D>(p: Program<L, D>, s: System<L, D>, t: nat)
    requires t < |s.tasks|
  {
    var base := s.tasks[t].local;
    match s.tasks[t].phase
    case Idle => true
    case Acquired => p.next(base).Some?
    case Running(k, l) =>
      && p.next(base).Some? && k <= |p.next(base).value| && s.inTransaction
      && RunStatements(p.next(base).value, k, base, s.committed) == Ran(l, s.working)
    case Closing(l, commit) =>
      && p.next(base).Some? && s.inTransaction
      && var unit := p.next(base).value;
         RunStatements(unit, |unit|, base, s.committed) == Closed(l, s.working, commit)
    case Aborting(l, outcome) =>
      && p.next(base).Some? && outcome.Ended? && s.inTransaction
      && var unit := p.next(base).value;
         var effect := RunStatements(unit, |unit|, base, s.committed);
         l == effect.local && (effect.Raised? || !outcome.ok)
  }

  ghost predicate Consistent<L, D>(p: Program<L, D>, initial: Store<L, D>, s: System<L, D>) {
    && (forall t :: 0 <= t < |s.tasks| ==> (s.tasks[t].phase.Idle? <==> s.holder != Some(t)))
    && (forall t :: 0 <= t < |s.tasks| ==> Isolated(p, s, t))
    && (!s.inTransaction ==> s.working == s.committed)
    && TakeTurns(p, initial, s.turns) == Visible(s)
    && s.acquisitions == s.releases + (if s.holder.Some? then 1 else 0)
    && UnitsSince(s.turns) == s.releases
    && (s.holder.Some? ==> s.holder.value < |s.tasks|)
  }

  /** A unit that stops in the middle, by raising or closing, has stopped as a whole. */
  lemma {:induction false} StopIsFinal<L, D>(unit: Unit<L, D>, k: nat, n: nat, l: L, d: D)
    requires k <= n <= |unit| && !RunStatements(unit, k, l, d).Ran?
    ensures RunStatements(unit, n, l, d) == RunStatements(unit, k, l, d)
    decreases n
  {
    if k < n {
      StopIsFinal(unit, k, n - 1, l, d);
    }
  }

  lemma FinishIsATurn<L, D>(p: Program<L, D>, initial: Store<L, D>, s: System<L, D>, s': System<L, D>,
                            t: nat, local: L, outcome: Outcome)
    requires Consistent(p, initial, s) && t < |s.tasks| && s.holder == Some(t)
    requires s'.tasks == s.tasks[t := Task(local, Idle)] && s'.turns == s.turns + [Turn(t, outcome)]
    requires TakeTurn(p, Visible(s), Turn(t, outcome))
          == Store(s'.committed, Locals(s.tasks)[t := local], s'.commits)
    ensures TakeTurns(p, initial, s'.turns) == Visible(s')
  {
    assert s'.turns[..|s.turns|] == s.turns;
    assert Locals(s'.tasks) == Locals(s.tasks)[t := local];
  }

  lemma BeginConsistent<L, D>(p: Program<L, D>, initial: Store<L, D>, s: System<L, D>, t: nat, ok: bool)
    requires Consistent(p, initial, s)
    ensures Consistent(p, initial, Step(p, s, Begin(t, ok)))
  {
    var s' := Step(p, s, Begin(t, ok));
    if t < |s.tasks| && s.tasks[t].phase.Acquired? {
      assert Isolated(p, s, t);
      if ok && !s.inTransaction {
        assert Locals(s'.tasks) == Locals(s.tasks);
        assert RunStatements(p.next(s.tasks[t].local).value, 0, s.tasks[t].local, s.committed).Ran?;
        assert Isolated(p, s', t);
      } else {
        FinishIsATurn(p, initial, s, s', t, p.failed(s.tasks[t].local), BeginRefused);
      }
    }
  }

  lemma ExecuteConsistent<L, D>(p: Program<L, D>, initial: Store<L, D>, s: System<L, D>, t: nat)
    requires Consistent(p, initial, s)
    ensures Consistent(p, initial, Step(p, s, Execute(t)))
  {
    var s' := Step(p, s, Execute(t));
    if t < |s.tasks| && s.tasks[t].phase.Running? {
      assert Isolated(p, s, t);
      var base := s.tasks[t].local;
      var unit, k := p.next(base).value, s.tasks[t].phase.done;
      if k < |unit| {
        assert Locals(s'.tasks) == Locals(s.tasks);
        assert RunStatements(unit, k + 1, base, s.committed) == unit[k](s.tasks[t].phase.local, s.working);
        if !RunStatements(unit, k + 1, base, s.committed).Ran? {
          StopIsFinal(unit, k + 1, |unit|, base, s.committed);
        }
        assert Isolated(p, s', t);
      }
    }
  }

  lemma CommitConsistent<L, D>(p: Program<L, D>, initial: Store<L, D>, s: System<L, D>, t: nat, ok: bool)
    requires Consistent(p, initial, s)
    ensures Consistent(p, initial, Step(p, s, Commit(t, ok)))
  {
    var s' := Step(p, s, Commit(t, ok));
    if s' != s {
      assert Isolated(p, s, t);
      var l := s.tasks[t].phase.local;
      if ok {
        FinishIsATurn(p, initial, s, s', t, l, Ended(true));
      } else {
        assert Locals(s'.tasks) == Locals(s.tasks);
        assert Isolated(p, s', t);
      }
    }
  }

  lemma RollbackConsistent<L, D>(p: Program<L, D>, initial: Store<L, D>, s: System<L, D>, t: nat, ok: bool)
    requires Consistent(p, initial, s)
    ensures Consistent(p, initial, Step(p, s, Rollback(t, ok)))
  {
    var s' := Step(p, s, Rollback(t, ok));
    if t < |s.tasks| && s.tasks[t].phase.Aborting? {
      assert Isolated(p, s, t);
      FinishIsATurn(p, initial, s, s', t, p.failed(s.tasks[t].phase.local), s.tasks[t].phase.outcome);
    } else if t < |s.tasks| && s.tasks[t].phase.Closing? && !s.tasks[t].phase.commit {
      assert Isolated(p, s, t);
      if ok {
        FinishIsATurn(p, initial, s, s', t, s.tasks[t].phase.local, Ended(true));
      } else {
        assert Locals(s'.tasks) == Locals(s.tasks);
        assert Isolated(p, s', t);
      }
    }
  }

  lemma CrashConsistent<L, D>(p: Program<L, D>, initial: Store<L, D>, s: System<L, D>)
    requires Consistent(p, initial, s)
    ensures Consistent(p, initial, Step(p, s, Crash))
  {
    var s' := Step(p, s, Crash);
    assert s'.turns[..|s.turns|] == s.turns;
    assert Locals(s'.tasks) == Restarted(p, Locals(s.tasks));
  }

  lemma StepConsistent<L, D>(p: Program<L, D>, initial: Store<L, D>, s: System<L, D>, a: Action)
    requires Consistent(p, initial, s)
    ensures Consistent(p, initial, Step(p, s, a))
  {
    match a
    case Acquire(t) =>
      assert Locals(Step(p, s, a).tasks) == Locals(s.tasks);
    case Begin(t, ok) => BeginConsistent(p, initial, s, t, ok);
    case Execute(t) => ExecuteConsistent(p, initial, s, t);
    case Commit(t, ok) => CommitConsistent(p, initial, s, t, ok);
    case Rollback(t, ok) => RollbackConsistent(p, initial, s, t, ok);
    case Crash => CrashConsistent(p, initial, s);
  }

  lemma {:induction false} ExecutionConsistent<L, D>(
    p: Program<L, D>, db: D, locals: seq<L>, actions: seq<Action>)
    ensures Consistent(p, Store(db, locals, []), Execution(p, Start(db, locals), actions))
  {
    if actions == [] {
      assert Locals(Start(db, locals).tasks) == locals;
    } else {
      ExecutionConsistent(p, db, locals, actions[..|actions| - 1]);
      StepConsistent(p, Store(db, locals, []),
                     Execution(p, Start(db, locals), actions[..|actions| - 1]), actions[|actions| - 1]);
    }
  }

  /** Serializability: the durable databases of any interleaving, and the memory of every
      task, are those of its units taken one at a time in the order they ended, crashes in
      between. Since the process started, the lock was given back exactly once per unit. */
  lemma Serializable<L, D>(p: Program<L, D>, db: D, locals: seq<L>, actions: seq<Action>)
    ensures var s := Execution(p, Start(db, locals), actions);
            && TakeTurns(p, Store(db, locals, []), s.turns) == Store(s.committed, Locals(s.tasks), s.commits)
            && UnitsSince(s.turns) == s.releases
            && s.acquisitions == s.releases + (if s.holder.Some? then 1 else 0)
  {
    ExecutionConsistent(p, db, locals, actions);
  }

  /** At most one task is between BEGIN and the end of its unit. */
  lemma MutualExclusion<L, D>(p: Program<L, D>, db: D, locals: seq<L>, actions: seq<Action>, t: nat, u: nat)
    requires var s := Execution(p, Start(db, locals), actions);
             t < |s.tasks| && u < |s.tasks| && !s.tasks[t].phase.Idle? && !s.tasks[u].phase.Idle?
    ensures t == u
  {
    ExecutionConsistent(p, db, locals, actions);
  }

  // ---- A rollback that fails -------------------------------------------------------

  /** The transaction of a finished unit is still open. */
  ghost predicate Wedged<L, D>(s: System<L, D>) {
    && s.inTransaction
    && forall t :: 0 <= t < |s.tasks| ==> s.tasks[t].phase.Idle? || s.tasks[t].phase.Acquired?
  }

  /** Once ROLLBACK itself has failed, BEGIN is refused until the process restarts: nothing more
      becomes durable, least of all what the failed unit had written. */
  lemma {:induction false} LeftoversNeverCommit<L, D>(p: Program<L, D>, s: System<L, D>, actions: seq<Action>)
    requires Wedged(s) && forall i :: 0 <= i < |actions| ==> !actions[i].Crash?
    ensures var e := Execution(p, s, actions);
            Wedged(e) && e.committed == s.committed && e.commits == s.commits
  {
    if actions != [] {
      LeftoversNeverCommit(p, s, actions[..|actions| - 1]);
    }
  }

  /** A restart ends it, and the leftovers with it. */
  lemma RestartUnwedges<L, D>(p: Program<L, D>, s: System<L, D>)
    ensures var e := Step(p, s, Crash);
            !e.inTransaction && e.working == e.committed == s.committed
  {
  }

  /** Exactly a failed ROLLBACK wedges the store. */
  lemma WedgedByRollback<L, D>(p: Program<L, D>, initial: Store<L, D>, s: System<L, D>, a: Action)
    requires Consistent(p, initial, s) && !Wedged(s)
    ensures Wedged(Step(p, s, a))
       <==> a.Rollback? && !a.ok && a.task < |s.tasks| && s.tasks[a.task].phase.Aborting?
  {
    var s' := Step(p, s, a);
    if !a.Crash? && a.task < |s.tasks| {
      var phase := s.tasks[a.task].phase;
      assert Isolated(p, s, a.task);
      assert s.holder.None? || phase.Acquired? ==> !s.inTransaction;
      var phase' := s'.tasks[a.task].phase;
      assert Wedged(s') ==> phase'.Idle? || phase'.Acquired?;
      if phase.Aborting? && a.Rollback? && !a.ok {
        assert s.holder == Some(a.task);
        assert Wedged(s');
      }
    }
  }
}
