/** The repositories' statements inside an open transaction: each may fail, and a failed one
    leaves the working database alone. Reads answer from the working database, the rows of a run in
    any order; writes change the rows they name and no other; the outbox batches are those of the
    SELECT statements. Every failure adds to the connection's count of faults. */
module Statements {
  import opened Wrappers
  import opened Sequences
  import opened RunStates
  import opened Database
  import opened Outbox
  import opened Transactions
  import opened UnitOfWork

  // ---- Runs and stages -----------------------------------------------------------------------

  method GetRun(conn: Connection<Db>, run: string) returns (r: Result<Run, Error>)
    modifies conn`faults
    ensures if conn.faults == old(conn.faults) then r == ReadRun(conn.working, run)
            else conn.faults == old(conn.faults) + 1 && r == Failure(Persistence)
  {
    var ok := Query(conn);
    if ok {
      r := ReadRun(conn.working, run);
    } else {
      r := Failure(Persistence);
    }
  }

  function WithRun(db: Db, run: string, row: Run): Db {
    db.(runs := db.runs[run := row], stages := db.stages[run := StagesOf(db, run)])
  }

  /** `run_repo.save`. In the model a run's (possibly empty) stage table appears with its row. */
  method SaveRun(conn: Connection<Db>, run: string, row: Run) returns (ok: bool)
    modifies conn`working, conn`faults
    ensures conn.working == if ok then WithRun(old(conn.working), run, row) else old(conn.working)
    ensures conn.faults == old(conn.faults) + if ok then 0 else 1
  {
    ok := Query(conn);
    if ok {
      conn.working := WithRun(conn.working, run, row);
    }
  }

  function WithState(db: Db, run: string, state: RunState, now: Time): Db
    requires run in db.runs
  {
    db.(runs := db.runs[run := Run(db.runs[run].info, state, now)])
  }

  /** An unconditional UPDATE; a run that is not there is an error. */
  method UpdateState(conn: Connection<Db>, run: string, state: RunState, now: Time) returns (r: Result<(), Error>)
    modifies conn`working, conn`faults
    ensures r.Success? ==>
              run in old(conn.working).runs && conn.working == WithState(old(conn.working), run, state, now)
    ensures r.Failure? ==>
              && conn.working == old(conn.working)
              && (r.error == Persistence || (r.error == RunNotFound && run !in conn.working.runs))
    ensures conn.faults == old(conn.faults) + if r == Failure(Persistence) then 1 else 0
  {
    var ok := Query(conn);
    if !ok {
      return Failure(Persistence);
    }
    if run !in conn.working.runs {
      return Failure(RunNotFound);
    }
    conn.working := WithState(conn.working, run, state, now);
    return Success(());
  }

  method GetStage(conn: Connection<Db>, run: string, id: string) returns (r: Result<Stage, Error>)
    modifies conn`faults
    ensures r.Success? ==> run in conn.working.stages && id in conn.working.stages[run] && r.value == conn.working.stages[run][id]
    ensures r == Failure(UnknownStage) ==> run !in conn.working.stages || id !in conn.working.stages[run]
    ensures r.Failure? ==> r.error == UnknownStage || r.error == Persistence
    ensures conn.faults == old(conn.faults) + if r == Failure(Persistence) then 1 else 0
  {
    var ok := Query(conn);
    if !ok {
      return Failure(Persistence);
    }
    if run !in conn.working.stages || id !in conn.working.stages[run] {
      return Failure(UnknownStage);
    }
    return Success(conn.working.stages[run][id]);
  }

  /** The upsert of `stage_repo.save`. */
  method SaveStage(conn: Connection<Db>, run: string, stage: Stage) returns (ok: bool)
    modifies conn`working, conn`faults
    ensures conn.working == if ok then
                old(conn.working).(stages := old(conn.working).stages[run := StagesOf(old(conn.working), run)[stage.stageId := stage]])
              else old(conn.working)
    ensures conn.faults == old(conn.faults) + if ok then 0 else 1
  {
    ok := Query(conn);
    if ok {
      conn.working := conn.working.(
        stages := conn.working.stages[run := StagesOf(conn.working, run)[stage.stageId := stage]]);
    }
  }

  /** `list_by_run`: the run's rows in whatever order the database has them. */
  method ListByRun(conn: Connection<Db>, run: string) returns (r: Result<seq<Stage>, Error>)
    modifies conn`faults
    ensures r.Success? ==> Lists(r.value, StagesOf(conn.working, run))
    ensures r.Failure? ==> r.error == Persistence
    ensures conn.faults == old(conn.faults) + if r.Failure? then 1 else 0
  {
    var ok := Query(conn);
    if !ok {
      return Failure(Persistence);
    }
    var rest := StagesOf(conn.working, run).Values;
    ghost var all := rest;
    var rows: seq<Stage> := [];
    while rest != {}
      invariant multiset(rows) + multiset(rest) == multiset(all)
      decreases |rest|
    {
      var row :| row in rest;
      rows := rows + [row];
      rest := rest - {row};
    }
    return Success(rows);
  }

  method ListPending(conn: Connection<Db>, run: string) returns (r: Result<set<string>, Error>)
    modifies conn`faults
    ensures if conn.faults == old(conn.faults) then r == Success(PendingStages(StagesOf(conn.working, run)))
            else conn.faults == old(conn.faults) + 1 && r == Failure(Persistence)
  {
    var ok := Query(conn);
    if ok {
      r := Success(PendingStages(StagesOf(conn.working, run)));
    } else {
      r := Failure(Persistence);
    }
  }

  // ---- The audit log -------------------------------------------------------------------------

  method RecordAudit(conn: Connection<Db>, event: AuditEvent) returns (ok: bool)
    modifies conn`working, conn`faults
    ensures conn.working == if ok then old(conn.working).(audit := old(conn.working).audit + [event])
                            else old(conn.working)
    ensures conn.faults == old(conn.faults) + if ok then 0 else 1
  {
    ok := Query(conn);
    if ok {
      conn.working := conn.working.(audit := conn.working.audit + [event]);
    }
  }

  // ---- The outbox ------------------------------------------------------------------------------

  method Enqueue(conn: Connection<Db>, run: string, action: Disposition, now: Time) returns (ok: bool)
    modifies conn`working, conn`faults
    ensures conn.working == if ok then
                old(conn.working).(outbox := old(conn.working).outbox + [OutboxRow(run, action, now, None, None, 0, None)])
              else old(conn.working)
    ensures conn.faults == old(conn.faults) + if ok then 0 else 1
  {
    ok := Query(conn);
    if ok {
      conn.working := conn.working.(outbox := conn.working.outbox + [OutboxRow(run, action, now, None, None, 0, None)]);
    }
  }

  /** An UPDATE of these rows; the table's CHECK constraints may refuse it. */
  method UpdateRows(conn: Connection<Db>, ids: seq<nat>, change: OutboxRow -> OutboxRow) returns (ok: bool)
    modifies conn`working, conn`faults
    ensures conn.working == if ok then old(conn.working).(outbox := Update(old(conn.working).outbox, ids, change))
                            else old(conn.working)
    ensures ok ==> AllValid(conn.working.outbox)
    ensures !ok ==> conn.faults == old(conn.faults) + 1 || !AllValid(Update(old(conn.working).outbox, ids, change))
    ensures old(conn.faults) <= conn.faults && (ok ==> conn.faults == old(conn.faults))
  {
    ok := Query(conn);
    if ok {
      var rows := Update(conn.working.outbox, ids, change);
      ok := AllValid(rows);
      if ok {
        conn.working := conn.working.(outbox := rows);
      }
    }
  }

  /** `claim_pending`: SELECT the oldest unclaimed rows, then UPDATE exactly those. */
  method ClaimPending(conn: Connection<Db>, now: Time, limit: nat) returns (r: Result<seq<nat>, Error>)
    requires AllValid(conn.working.outbox)
    modifies conn`working, conn`faults
    ensures r.Success? ==>
              && r.value == Batch(old(conn.working).outbox, Unclaimed(), ByEnqueued(old(conn.working).outbox), limit)
              && conn.working == old(conn.working).(outbox := Update(old(conn.working).outbox, r.value, ClaimAt(now)))
              && AllValid(conn.working.outbox)
    ensures r.Failure? ==> r.error == Persistence && conn.working == old(conn.working)
    ensures old(conn.faults) <= conn.faults
    // The CHECK constraints refuse a stamp dated before its row.
    ensures r.Failure? && conn.faults == old(conn.faults) ==>
              !AllValid(Update(old(conn.working).outbox,
                               Batch(old(conn.working).outbox, Unclaimed(), ByEnqueued(old(conn.working).outbox), limit),
                               ClaimAt(now)))
  {
    var selected := Query(conn);
    if !selected {
      return Failure(Persistence);
    }
    var rows := conn.working.outbox;
    var ids := Batch(rows, Unclaimed(), ByEnqueued(rows), limit);
    if ids == [] {
      assert Update(rows, ids, ClaimAt(now)) == rows;
      return Success([]);
    }
    var ok := UpdateRows(conn, ids, ClaimAt(now));
    return if ok then Success(ids) else Failure(Persistence);
  }

  /** `reclaim_stuck`: the same with stale claims, whose attempts go up. */
  method ReclaimStuck(conn: Connection<Db>, now: Time, limit: nat, staleAfter: nat, maxAttempts: nat)
    returns (r: Result<seq<nat>, Error>)
    requires AllValid(conn.working.outbox)
    modifies conn`working, conn`faults
    ensures r.Success? ==>
              && r.value == Batch(old(conn.working).outbox, StuckBelow(now - staleAfter, maxAttempts),
                                  ByClaimed(old(conn.working).outbox), limit)
              && conn.working == old(conn.working).(outbox := Update(old(conn.working).outbox, r.value, ReclaimAt(now)))
              && AllValid(conn.working.outbox)
    ensures r.Failure? ==> r.error == Persistence && conn.working == old(conn.working)
    ensures old(conn.faults) <= conn.faults
    ensures r.Failure? && conn.faults == old(conn.faults) ==>
              !AllValid(Update(old(conn.working).outbox,
                               Batch(old(conn.working).outbox, StuckBelow(now - staleAfter, maxAttempts),
                                     ByClaimed(old(conn.working).outbox), limit),
                               ReclaimAt(now)))
  {
    var selected := Query(conn);
    if !selected {
      return Failure(Persistence);
    }
    var rows := conn.working.outbox;
    var ids := Batch(rows, StuckBelow(now - staleAfter, maxAttempts), ByClaimed(rows), limit);
    if ids == [] {
      assert Update(rows, ids, ReclaimAt(now)) == rows;
      return Success([]);
    }
    var ok := UpdateRows(conn, ids, ReclaimAt(now));
    return if ok then Success(ids) else Failure(Persistence);
  }
}
