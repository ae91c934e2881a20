/** One sweeper tick as the program runs it: a scan, then one unit of work per candidate, any
    other task committing in between. Each candidate's state is looked at again inside its unit
    of work, its age is not; what the ticks add up to over all histories is the subject of
    modules Sweeping and Draining. */
module SweeperTick {
  import opened Wrappers
  import opened Sequences
  import opened RunStates
  import opened Database
  import opened Outbox
  import opened Transactions
  import opened AuditReplay
  import opened HandOff
  import opened Lifecycle
  import opened Sweeping
  import opened UnitOfWork
  import opened Statements
  import Acceptance

  // ---- Interference ------------------------------------------------------------------------

  ghost predicate Orderly(policy: Policy, db: Db) {
    Sound(db) && AllHandedOff(policy, db)
  }

  lemma {:induction false} CommitsKeep(policy: Policy, db: Db, txs: seq<Tx>)
    requires Sound(db) && AllHandedOff(policy, db)
    ensures var db' := Commits(policy, db, txs);
            Sound(db') && AllHandedOff(policy, db') && Lasting(db, db')
  {
    if txs != [] {
      var n := |txs| - 1;
      CommitsKeep(policy, db, txs[..n]);
      var before := Commits(policy, db, txs[..n]);
      CommitSound(policy, before, txs[n]);
      CommitHandsOff(policy, before, txs[n]);
      CommitLasting(policy, before, txs[n]);
      LastingTransitive(db, before, Commit(policy, before, txs[n]));
    }
  }

  lemma LastingTransitive(a: Db, b: Db, c: Db)
    requires Lasting(a, b) && Lasting(b, c)
    ensures Lasting(a, c)
  {
  }

  /** Anyone may commit anything while this task waits. */
  method AwaitAny(policy: Policy, conn: Connection<Db>)
    requires conn.Valid() && Orderly(policy, conn.committed)
    modifies conn
    ensures conn.Valid() && Orderly(policy, conn.committed)
    ensures Lasting(old(conn.committed), conn.committed) && conn.faults == old(conn.faults)
  {
    var txs: seq<Tx> := *;
    if !conn.inTransaction {
      CommitsKeep(policy, conn.committed, txs);
      conn.committed := Commits(policy, conn.committed, txs);
      conn.working := conn.committed;
      var wedged := *;
      if wedged {
        var leftovers: Db := *;
        conn.working, conn.inTransaction := leftovers, true;
      }
    }
  }

  // ---- The scan ------------------------------------------------------------------------------

  /** Age, and the id where SQL leaves the order open. */
  function ByAge(db: Db): (string, string) -> bool {
    (a: string, b: string) =>
      a in db.runs && b in db.runs &&
      (db.runs[a].updatedAt < db.runs[b].updatedAt
       || (db.runs[a].updatedAt == db.runs[b].updatedAt && StringLess(a, b)))
  }

  lemma AgeTotal(db: Db, ids: seq<string>)
    requires forall id :: id in ids ==> id in db.runs
    ensures TotalOn(ids, ByAge(db))
  {
    var before := ByAge(db);
    forall x, y, z | x in ids && y in ids && z in ids
      ensures !before(x, x)
      ensures x != y ==> before(x, y) || before(y, x)
      ensures before(x, y) && before(y, z) ==> before(x, z)
    {
      StringLessTotal(x, x);
      StringLessTotal(x, y);
      if StringLess(x, y) && StringLess(y, z) {
        StringLessTransitive(x, y, z);
      }
    }
  }

  lemma InAgeOrder(db: Db, sorted: seq<string>, i: nat, j: nat)
    requires Ordered(sorted, ByAge(db)) && i < j < |sorted| && sorted[i] in db.runs && sorted[j] in db.runs
    ensures NotLater(db, sorted[i], sorted[j])
  {
    assert !ByAge(db)(sorted[j], sorted[i]);
  }

  lemma BeforeIsNotLater(db: Db, a: string, b: string)
    requires ByAge(db)(a, b)
    ensures NotLater(db, a, b)
  {
  }

  /** ORDER BY .. LIMIT gives the oldest. */
  lemma OldestBatch(db: Db, cutoff: Time, limit: nat, expired: seq<string>)
    requires Distinct(expired) && forall id :: id in expired <==> Expired(db, cutoff, id)
    ensures ExpiredBatch(db, cutoff, limit, Take(Sort(expired, ByAge(db)), limit))
  {
    AgeTotal(db, expired);
    FirstOfSort(expired, ByAge(db), limit);
    SortOrdered(expired, ByAge(db));
    var sorted := Sort(expired, ByAge(db));
    var batch := Take(sorted, limit);
    forall i, j | 0 <= i < j < |batch|
      ensures NotLater(db, batch[i], batch[j])
    {
      assert batch[i] in batch && batch[j] in batch;
      InAgeOrder(db, sorted, i, j);
    }
    forall a, b | a in batch && Expired(db, cutoff, b) && b !in batch
      ensures NotLater(db, a, b)
    {
      BeforeIsNotLater(db, a, b);
    }
  }

  /** `list_expired`: oldest first, at most `limit`. */
  method ListExpired(conn: Connection<Db>, cutoff: Time, limit: nat) returns (r: Result<seq<string>, Error>)
    modifies conn`faults
    ensures r.Success? ==> ExpiredBatch(conn.working, cutoff, limit, r.value)
    ensures r.Success? ==> forall id :: id in r.value ==> ReadRun(conn.working, id).Success?
    ensures r.Failure? ==> r.error == Persistence
    ensures old(conn.faults) <= conn.faults
    ensures r.Failure? ==> old(conn.faults) < conn.faults || Acceptance.SomeUnreadable(conn.working)
  {
    var ok := Query(conn);
    if !ok {
      return Failure(Persistence);
    }
    var db := conn.working;
    var rest := set id | id in db.runs && Expired(db, cutoff, id);
    var expired: seq<string> := [];
    while rest != {}
      invariant forall id :: id in rest ==> Expired(db, cutoff, id) && id !in expired
      invariant forall id :: Expired(db, cutoff, id) <==> id in rest || id in expired
      invariant Distinct(expired)
      decreases |rest|
    {
      var id :| id in rest;
      rest, expired := rest - {id}, expired + [id];
    }
    OldestBatch(db, cutoff, limit, expired);
    var batch := Take(Sort(expired, ByAge(db)), limit);
    if id :| id in batch && ReadRun(db, id).Failure? {
      assert !Acceptance.Readable(db, id);
      return Failure(Persistence);
    }
    return Success(batch);
  }

  /** The run has not moved for the whole timeout and is not over. */
  predicate Overdue(db: Db, now: Time, runTimeout: nat, run: string) {
    && run in db.runs && db.runs[run].updatedAt + runTimeout <= now
    && !db.runs[run].state.Sent? && !db.runs[run].state.Failed? && !db.runs[run].state.Orphaned?
  }

  /** The overdue runs, those that moved last left out when there are more than `limit`, and listed
      in the order in which they moved. */
  ghost predicate LongestOverdue(db: Db, now: Time, runTimeout: nat, limit: nat, runs: seq<string>) {
    && |runs| <= limit && (forall i, j :: 0 <= i < j < |runs| ==> runs[i] != runs[j])
    && (forall i :: 0 <= i < |runs| ==> Overdue(db, now, runTimeout, runs[i]))
    && (forall i, j :: 0 <= i < j < |runs| && runs[i] in db.runs && runs[j] in db.runs ==>
          db.runs[runs[i]].updatedAt <= db.runs[runs[j]].updatedAt)
    && (forall run :: Overdue(db, now, runTimeout, run) && run !in runs ==>
          && |runs| == limit
          && forall i :: 0 <= i < |runs| && runs[i] in db.runs ==>
               db.runs[runs[i]].updatedAt <= db.runs[run].updatedAt)
  }

  lemma ScanExact(db: Db, now: Time, runTimeout: nat, limit: nat, runs: seq<string>)
    requires ExpiredBatch(db, now - runTimeout, limit, runs)
    ensures LongestOverdue(db, now, runTimeout, limit, runs)
  {
    forall run
      ensures Overdue(db, now, runTimeout, run) <==> Expired(db, now - runTimeout, run)
    {
    }
    forall i | 0 <= i < |runs|
      ensures Expired(db, now - runTimeout, runs[i])
    {
      assert runs[i] in runs;
    }
    forall i, j | 0 <= i < j < |runs| && runs[i] in db.runs && runs[j] in db.runs
      ensures db.runs[runs[i]].updatedAt <= db.runs[runs[j]].updatedAt
    {
      assert NotLater(db, runs[i], runs[j]);
    }
    forall run | Overdue(db, now, runTimeout, run) && run !in runs
      ensures |runs| == limit
      ensures forall i :: 0 <= i < |runs| && runs[i] in db.runs ==>
                db.runs[runs[i]].updatedAt <= db.runs[run].updatedAt
    {
      forall i | 0 <= i < |runs| && runs[i] in db.runs
        ensures db.runs[runs[i]].updatedAt <= db.runs[run].updatedAt
      {
        assert runs[i] in runs && NotLater(db, runs[i], run);
      }
    }
  }

  // ---- One candidate -------------------------------------------------------------------------

  /** The three writes of `_transition_audit_and_enqueue`. */
  method OrphanBody(policy: Policy, conn: Connection<Db>, run: string, now: Time) returns (r: Result<Option<nat>, Error>)
    modifies conn`working, conn`faults
    ensures old(conn.faults) <= conn.faults
    ensures r.Failure? ==> old(conn.faults) < conn.faults || Acceptance.SomeUnreadable(old(conn.working))
    ensures r.Success? && r.value.Some? ==>
              && Sweepable(old(conn.working), run)
              && conn.working == OrphanTx(policy, old(conn.working), run, now)
              && r.value.value == |ResolveActions(policy, old(conn.working).runs[run].info.pipeline)|
    ensures r == Success(None) ==>
              conn.working == old(conn.working) && (run in conn.working.runs ==> Terminal(conn.working.runs[run].state))
    ensures r.Failure? ==> r.error == Persistence
  {
    ghost var start := conn.working;
    var loaded := GetRun(conn, run);
    if loaded == Failure(RunNotFound) {
      return Success(None);
    }
    if loaded.Failure? {
      assert conn.faults == old(conn.faults) ==> run in start.runs && !Acceptance.Readable(start, run);
      return Failure(Persistence);
    }
    var row := loaded.value;
    if !CanTransition(row.state, RunState.Orphaned) {
      return Success(None);
    }
    var actions := ResolveActions(policy, row.info.pipeline);
    var moved := UpdateState(conn, run, RunState.Orphaned, now);
    if moved.Failure? {
      return Failure(Persistence);
    }
    var pending := ListPending(conn, run);
    if pending.Failure? {
      return Failure(Persistence);
    }
    var event := SweepOrphan(now, run, row.state, RunState.Orphaned, row.updatedAt, actions, pending.value);
    var ok := RecordAudit(conn, event);
    if !ok {
      return Failure(Persistence);
    }
    ghost var midway := Move(start, run, RunState.Orphaned, event, now);
    assert conn.working == midway;
    for i := 0 to |actions|
      invariant conn.working == midway.(outbox := start.outbox + NewRows(run, actions[..i], now))
      invariant conn.faults == old(conn.faults)
    {
      ok := Enqueue(conn, run, actions[i], now);
      if !ok {
        return Failure(Persistence);
      }
      assert actions[..i + 1] == actions[..i] + [actions[i]];
      assert NewRows(run, actions[..i + 1], now)
          == NewRows(run, actions[..i], now) + [OutboxRow(run, actions[i], now, None, None, 0, None)];
    }
    assert actions[..|actions|] == actions;
    return Success(Some(|actions|));
  }

  /** One candidate's unit of work: orphaned, with audit row and outbox rows together, or not
      eligible any more, or nothing committed. */
  method OrphanOne(policy: Policy, conn: Connection<Db>, mutex: Lock, run: string, now: Time)
    returns (r: Result<Option<nat>, Error>)
    requires conn.Valid() && mutex.Valid() && !mutex.held
    modifies conn, mutex
    ensures conn.Valid() && mutex.Valid() && !mutex.held
    ensures r.Success? && r.value.Some? ==>
              && Sweepable(old(conn.committed), run)
              && conn.committed == OrphanTx(policy, old(conn.committed), run, now)
              && r.value.value == |ResolveActions(policy, old(conn.committed).runs[run].info.pipeline)|
              && Acceptance.HandsOver(policy, old(conn.committed), conn.committed, run, now)
              && |conn.committed.outbox| == |old(conn.committed).outbox| + r.value.value
    ensures r == Success(None) ==>
              && conn.committed == old(conn.committed)
              && (run in conn.committed.runs ==> Terminal(conn.committed.runs[run].state))
    ensures r.Failure? ==> conn.committed == old(conn.committed)
    ensures old(conn.faults) <= conn.faults
    ensures r.Failure? ==> old(conn.faults) < conn.faults || Acceptance.SomeUnreadable(conn.committed)
  {
    var uow := new SqliteUnitOfWork(conn, mutex);
    var begun := uow.Enter();
    if begun.Failure? {
      return Failure(Persistence);
    }
    r := OrphanBody(policy, conn, run, now);
    var left := uow.Exit(r.Failure?);
    if left.Failure? {
      return Failure(Persistence);
    }
    if r.Success? && r.value.Some? {
      Acceptance.OrphanExact(policy, old(conn.committed), run, now);
    }
  }

  // ---- The tick --------------------------------------------------------------------------------

  datatype TickResult = TickResult(orphaned: nat, enqueued: nat)

  method Scan(conn: Connection<Db>, mutex: Lock, cutoff: Time, limit: nat) returns (r: Result<seq<string>, Error>)
    requires conn.Valid() && mutex.Valid() && !mutex.held
    modifies conn, mutex
    ensures conn.Valid() && mutex.Valid() && !mutex.held && conn.committed == old(conn.committed)
    ensures r.Success? ==> ExpiredBatch(conn.committed, cutoff, limit, r.value)
    ensures old(conn.faults) <= conn.faults
    ensures r.Failure? ==> old(conn.faults) < conn.faults || Acceptance.SomeUnreadable(conn.committed)
  {
    var uow := new SqliteUnitOfWork(conn, mutex);
    var begun := uow.Enter();
    if begun.Failure? {
      return Failure(Persistence);
    }
    r := ListExpired(conn, cutoff, limit);
    var left := uow.Exit(r.Failure?);
    if left.Failure? {
      return Failure(Persistence);
    }
  }

  /** The tick's record after one more candidate. */
  function DealtWith(sw: Sweep, run: string, result: Option<nat>): Sweep {
    if result.Some? then WithMoved(sw, run, result.value) else sw.(next := sw.next + 1)
  }

  lemma DealtWithOk(policy: Policy, db: Db, db': Db, sw: Sweep, run: string, result: Option<nat>, now: Time)
    requires Orderly(policy, db) && SweepOk(db, sw) && sw.next < |sw.candidates| && sw.candidates[sw.next] == run
    requires result.Some? ==>
               && Sweepable(db, run) && db' == OrphanTx(policy, db, run, now)
               && result.value == |ResolveActions(policy, db.runs[run].info.pipeline)|
    requires result.None? ==> db' == db && (run in db.runs ==> Terminal(db.runs[run].state))
    ensures Orderly(policy, db') && SweepOk(db', DealtWith(sw, run, result))
  {
    if result.Some? {
      MovedOk(policy, db, sw, now);
      OrphanCommits(policy, db, run, now);
    }
  }

  /** Waits, then deals with the tick's next candidate. `sw` is the tick's record so far. */
  method Process(policy: Policy, conn: Connection<Db>, mutex: Lock, run: string, ghost sw: Sweep)
    returns (r: Result<Option<nat>, Error>)
    requires conn.Valid() && mutex.Valid() && !mutex.held && Orderly(policy, conn.committed)
    requires SweepOk(conn.committed, sw) && sw.next < |sw.candidates| && sw.candidates[sw.next] == run
    modifies conn, mutex
    ensures conn.Valid() && mutex.Valid() && !mutex.held && Orderly(policy, conn.committed)
    ensures r.Success? ==> SweepOk(conn.committed, DealtWith(sw, run, r.value))
    ensures old(conn.faults) <= conn.faults
    ensures r.Failure? ==> old(conn.faults) < conn.faults || Acceptance.SomeUnreadable(conn.committed)
  {
    AwaitAny(policy, conn);
    ghost var met := conn.committed;
    SweepUndisturbed(old(conn.committed), met, sw);
    var now: Time := *;
    r := OrphanOne(policy, conn, mutex, run, now);
    if r.Success? {
      DealtWithOk(policy, met, conn.committed, sw, run, r.value, now);
    }
  }

  /** A tick that returns leaves every run its scan returned terminal, whatever else was
      committed meanwhile; its two counters are the runs it moved (`moved`, each once) and the
      outbox rows those runs have. */
  method Tick(policy: Policy, conn: Connection<Db>, mutex: Lock, now: Time, runTimeout: nat, limit: Positive)
    returns (r: Result<TickResult, Error>, ghost candidates: seq<string>, ghost moved: seq<string>)
    requires conn.Valid() && mutex.Valid() && !mutex.held
    requires Orderly(policy, conn.committed)
    modifies conn, mutex
    ensures conn.Valid() && mutex.Valid() && !mutex.held
    ensures Orderly(policy, conn.committed)
    ensures r.Success? ==>
              && LongestOverdue(old(conn.committed), now, runTimeout, limit, candidates)
              && (forall run :: run in candidates ==> Settled(conn.committed, run))
              && (forall run :: run in moved ==> run in candidates && IsOrphan(conn.committed, run))
              && Distinct(moved) && r.value.orphaned == |moved|
              && r.value.enqueued == RowsOf(conn.committed.outbox, moved)
    // A tick ends early only when the database fails or holds a row that cannot be rebuilt.
    ensures r.Failure? ==> old(conn.faults) < conn.faults || Acceptance.SomeUnreadable(conn.committed)
  {
    candidates, moved := [], [];
    var cutoff := now - runTimeout;
    var scanned := Scan(conn, mutex, cutoff, limit);
    if scanned.Failure? {
      return Failure(scanned.error), candidates, moved;
    }
    var batch := scanned.value;
    candidates := batch;
    FreshSweepOk(conn.committed, cutoff, limit, batch);
    ScanExact(conn.committed, now, runTimeout, limit, batch);
    ghost var sw := Sweep(batch, 0, [], 0, 0, true);
    var orphaned: nat, enqueued: nat := 0, 0;
    for i := 0 to |batch|
      invariant conn.Valid() && mutex.Valid() && !mutex.held
      invariant Orderly(policy, conn.committed)
      invariant SweepOk(conn.committed, sw) && sw.candidates == batch && sw.next == i
      invariant sw.orphaned == orphaned && sw.enqueued == enqueued
      invariant old(conn.faults) <= conn.faults
    {
      var one := Process(policy, conn, mutex, batch[i], sw);
      if one.Failure? {
        return Failure(one.error), candidates, moved;
      }
      sw := DealtWith(sw, batch[i], one.value);
      if one.value.Some? {
        orphaned, enqueued := orphaned + 1, enqueued + one.value.value;
      }
    }
    moved := sw.moved;
    assert forall run :: run in batch ==> exists k :: 0 <= k < |batch| && batch[k] == run;
    return Success(TickResult(orphaned, enqueued)), candidates, moved;
  }

  lemma OrphanCommits(policy: Policy, db: Db, run: string, now: Time)
    requires Sound(db) && AllHandedOff(policy, db) && Sweepable(db, run)
    ensures var db' := OrphanTx(policy, db, run, now); Sound(db') && AllHandedOff(policy, db')
  {
    assert Commit(policy, db, Orphan(run, now)) == OrphanTx(policy, db, run, now);
    CommitSound(policy, db, Orphan(run, now));
    CommitHandsOff(policy, db, Orphan(run, now));
  }
}
