/** The two layers joined: interleaved tasks keep the store as whole units would, so what holds
    of all sequences of units holds of them. */
module Refinement {
  import opened Wrappers
  import opened Database
  import opened Transactions
  import opened AuditReplay
  import opened HandOff
  import opened Submissions
  import opened RunStates
  import S = Serializability

  /** Committing `after` over `before` is what some unit of work of the lifecycle does, or no
      change at all. */
  ghost predicate Performs(policy: Policy, before: Db, after: Db) {
    after == before || exists tx :: Commit(policy, before, tx) == after
  }

  /** Run alone, on any memory and any database, the unit commits a lifecycle unit of work,
      changes nothing, or does not commit. Nothing is said about what it does in the middle. */
  ghost predicate Implements<L(!new)>(policy: Policy, unit: S.Unit<L, Db>) {
    forall l: L, d: Db ::
      var effect := S.RunStatements(unit, |unit|, l, d);
      effect.Ran? || (effect.Closed? && effect.commit) ==> Performs(policy, d, effect.db)
  }

  ghost predicate AllImplement<L(!new)>(policy: Policy, p: S.Program<L, Db>) {
    forall l: L :: p.next(l).Some? ==> Implements(policy, p.next(l).value)
  }

  lemma TurnPerforms<L(!new)>(policy: Policy, p: S.Program<L, Db>, s: S.Store<L, Db>, turn: S.Turn)
    requires AllImplement(policy, p)
    ensures Performs(policy, s.db, S.TakeTurn(p, s, turn).db)
  {
    if turn.Turn? && turn.task < |s.locals| && p.next(s.locals[turn.task]).Some? {
      var unit := p.next(s.locals[turn.task]).value;
      assert Implements(policy, unit);
    }
  }

  /** Turns amount to a sequence of lifecycle units of work. */
  lemma {:induction false} TurnsAreCommits<L(!new)>(policy: Policy, p: S.Program<L, Db>, s: S.Store<L, Db>, turns: seq<S.Turn>)
    returns (txs: seq<Tx>)
    requires AllImplement(policy, p)
    ensures S.TakeTurns(p, s, turns).db == Commits(policy, s.db, txs)
  {
    if turns == [] {
      txs := [];
    } else {
      var n := |turns| - 1;
      txs := TurnsAreCommits(policy, p, s, turns[..n]);
      var before := S.TakeTurns(p, s, turns[..n]);
      TurnPerforms(policy, p, before, turns[n]);
      var after := S.TakeTurn(p, before, turns[n]).db;
      if after != before.db {
        var tx :| Commit(policy, before.db, tx) == after;
        assert (txs + [tx])[..|txs|] == txs;
        txs := txs + [tx];
      }
    }
  }

  /** Whatever tasks run, however their statements interleave, whatever fails and whenever the
      process crashes: the durable store is one that some sequence of lifecycle units leaves.
      Hence the audit history replays to the tables, orphaning hands off exactly once, claims
      follow the configured order, and every stage row shows its last submission. */
  lemma InterleavingsKeepTheBooks<L(!new)>(policy: Policy, p: S.Program<L, Db>, locals: seq<L>, actions: seq<S.Action>)
    returns (txs: seq<Tx>)
    requires AllImplement(policy, p)
    ensures var db := S.Execution(p, S.Start(EMPTY_DB, locals), actions).committed;
            && db == Commits(policy, EMPTY_DB, txs)
            && Faithful(db) && AllHandedOff(policy, db) && ClaimedInOrder(db.outbox)
            && RowsShow(policy, db, txs)
  {
    var s := S.Execution(p, S.Start(EMPTY_DB, locals), actions);
    S.Serializable(p, EMPTY_DB, locals, actions);
    txs := TurnsAreCommits(policy, p, S.Store(EMPTY_DB, locals, []), s.turns);
    HandOffHolds(policy, txs);
    LastSubmissionWins(policy, txs);
  }

  // ---- An instance -----------------------------------------------------------------------------

  /** FinalizeRun as three statements: load and check, audit row, state. */
  function FinalizeUnit<L>(run: string, now: Time): S.Unit<L, Db> {
    [(l: L, d: Db) =>
       if ReadRun(d, run).Success? && d.runs[run].state.Aggregating? then S.Ran(l, d) else S.Raised(l),
     (l: L, d: Db) => S.Ran(l, d.(audit := d.audit + [AuditEvent.FinalizeRun(now, run, Aggregating, Ready)])),
     (l: L, d: Db) =>
       if run in d.runs then S.Ran(l, d.(runs := d.runs[run := Run(d.runs[run].info, Ready, now)])) else S.Raised(l)]
  }

  lemma FinalizeImplements<L(!new)>(policy: Policy, run: string, now: Time)
    ensures Implements<L>(policy, FinalizeUnit(run, now))
  {
    var unit: S.Unit<L, Db> := FinalizeUnit(run, now);
    forall l: L, d: Db | S.RunStatements(unit, 3, l, d).Ran?
      ensures Performs(policy, d, S.RunStatements(unit, 3, l, d).db)
    {
      var e1 := S.RunStatements(unit, 1, l, d);
      var e2 := S.RunStatements(unit, 2, l, d);
      assert S.RunStatements(unit, 0, l, d) == S.Ran(l, d);
      assert e1 == unit[0](l, d) && e1.Ran?;
      assert e2 == unit[1](l, d);
      assert S.RunStatements(unit, 3, l, d) == unit[2](l, e2.db);
      assert Commit(policy, d, Finalize(run, now)) == S.RunStatements(unit, 3, l, d).db;
    }
    forall l: L, d: Db
      ensures var effect := S.RunStatements(unit, |unit|, l, d);
              effect.Ran? || (effect.Closed? && effect.commit) ==> Performs(policy, d, effect.db)
    {
      assert S.RunStatements(unit, 0, l, d) == S.Ran(l, d);
      assert S.RunStatements(unit, 1, l, d) == unit[0](l, d);
    }
  }
}
