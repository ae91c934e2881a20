/** One dispatcher tick as the program runs it: abandon exhausted rows, claim a batch, run the
    handlers outside any transaction, settle each row in its own unit of work. The service has
    one dispatcher; everyone else may commit in between. What its units of work add up to over
    all histories is the subject of modules Dispatching and Redispatch. */
module DispatcherTick {
  import opened Wrappers
  import opened Sequences
  import opened Database
  import opened Outbox
  import opened Transactions
  import opened Effects
  import opened Dispatching
  import opened UnitOfWork
  import opened Statements
  import opened UseCases
  import Acceptance

  // ---- Interference ------------------------------------------------------------------------

  /** Units of work other than the dispatcher's. */
  predicate Others(txs: seq<Tx>) {
    forall i :: 0 <= i < |txs| ==> !txs[i].Abandon? && !txs[i].Claim? && !txs[i].Settle?
  }

  lemma {:induction false} OthersOnlyAdd(policy: Policy, db: Db, txs: seq<Tx>)
    requires Others(txs)
    ensures OnlyEnqueues(db.outbox, Commits(policy, db, txs).outbox)
  {
    if txs != [] {
      var n := |txs| - 1;
      OthersOnlyAdd(policy, db, txs[..n]);
      OnlyOrphansEnqueue(policy, Commits(policy, db, txs[..n]), txs[n]);
    }
  }

  method AwaitOthers(policy: Policy, conn: Connection<Db>)
    requires conn.Valid()
    modifies conn
    ensures conn.Valid() && OnlyEnqueues(old(conn.committed).outbox, conn.committed.outbox)
    ensures AllValid(old(conn.committed).outbox) ==> AllValid(conn.committed.outbox)
    ensures conn.faults == old(conn.faults)
  {
    ghost var before := conn.committed.outbox;
    var txs: seq<Tx> := *;
    if !conn.inTransaction && Others(txs) {
      OthersOnlyAdd(policy, conn.committed, txs);
      conn.committed := Commits(policy, conn.committed, txs);
      conn.working := conn.committed;
      var wedged := *;
      if wedged {
        var leftovers: Db := *;
        conn.working, conn.inTransaction := leftovers, true;
      }
    }
    EnqueuedValid(before, conn.committed.outbox);
  }

  lemma EnqueuedValid(rows: seq<OutboxRow>, rows': seq<OutboxRow>)
    requires OnlyEnqueues(rows, rows')
    ensures AllValid(rows) ==> AllValid(rows')
  {
    forall id | AllValid(rows) && 0 <= id < |rows'|
      ensures ValidRow(rows'[id])
    {
      assert id < |rows| ==> rows'[id] == rows[id];
    }
  }

  // ---- Phase 0: abandonment --------------------------------------------------------------------

  lemma UpdateOneMore(rows: seq<OutboxRow>, ids: seq<nat>, k: nat, change: OutboxRow -> OutboxRow)
    requires k < |ids| && Distinct(ids)
    ensures Update(Update(rows, ids[..k], change), [ids[k]], change) == Update(rows, ids[..k + 1], change)
  {
    assert ids[..k + 1] == ids[..k] + [ids[k]];
    assert ids[k] !in ids[..k];
  }

  lemma ExhaustedDistinct(policy: Policy, rows: seq<OutboxRow>, now: Time)
    ensures Distinct(ExhaustedBatch(policy, rows, now))
  {
    var filter := StuckExhausted(now - policy.staleAfter, policy.maxAttempts);
    ClaimedOrderTotal(rows, filter);
    BatchIsPrefix(rows, filter, ByClaimed(rows), policy.batchLimit);
  }

  /** Abandoning a row of the batch never violates its CHECK constraints. */
  lemma AbandonValid(policy: Policy, start: seq<OutboxRow>, rows: seq<OutboxRow>, id: nat, now: Time)
    requires AllValid(start) && AllValid(rows) && |rows| == |start| && id in ExhaustedBatch(policy, start, now)
    requires rows[id] == start[id]
    ensures AllValid(Update(rows, [id], AbandonAt(now, ABANDONED)))
  {
    Acceptance.ExhaustedExact(policy, start, now);
    assert Acceptance.Stale(policy, start[id], now);
    forall i | 0 <= i < |rows|
      ensures ValidRow(Update(rows, [id], AbandonAt(now, ABANDONED))[i])
    {
      assert ValidRow(rows[i]);
    }
  }

  /** `_abandon_exhausted_rows`: each row's audit event, then the row. */
  method AbandonBody(policy: Policy, conn: Connection<Db>, now: Time) returns (r: Result<nat, Error>)
    requires AllValid(conn.working.outbox)
    modifies conn`working, conn`faults
    ensures old(conn.faults) <= conn.faults && (r.Failure? ==> old(conn.faults) < conn.faults)
    ensures r.Success? ==>
              && AbandonTx(policy, old(conn.working), now) == Success(conn.working)
              && r.value == |ExhaustedBatch(policy, old(conn.working).outbox, now)|
    ensures r.Failure? ==> r.error == Persistence
  {
    var start := conn.working;
    var ids := ExhaustedBatch(policy, start.outbox, now);
    ExhaustedDistinct(policy, start.outbox, now);
    var change := AbandonAt(now, ABANDONED);
    assert Update(start.outbox, ids[..0], change) == start.outbox;
    assert AbandonEvents(start.outbox, ids[..0], now) == [];
    for k := 0 to |ids|
      invariant conn.working == start.(outbox := Update(start.outbox, ids[..k], change),
                                       audit := start.audit + AbandonEvents(start.outbox, ids[..k], now))
      invariant AllValid(conn.working.outbox) && conn.faults == old(conn.faults)
    {
      var row := start.outbox[ids[k]];
      assert ids[k] in ids && ids[k] !in ids[..k];
      AbandonValid(policy, start.outbox, conn.working.outbox, ids[k], now);
      var event := ActionAbandoned(now, row.run, ids[k], row.attempts);
      var ok := RecordAudit(conn, event);
      if !ok {
        return Failure(Persistence);
      }
      ok := UpdateRows(conn, [ids[k]], change);
      if !ok {
        return Failure(Persistence);
      }
      UpdateOneMore(start.outbox, ids, k, change);
      assert AbandonEvents(start.outbox, ids[..k + 1], now) == AbandonEvents(start.outbox, ids[..k], now) + [event];
    }
    assert ids[..|ids|] == ids;
    return Success(|ids|);
  }

  method AbandonExhausted(policy: Policy, conn: Connection<Db>, mutex: Lock, now: Time) returns (r: Result<nat, Error>)
    requires conn.Valid() && mutex.Valid() && !mutex.held && AllValid(conn.committed.outbox)
    modifies conn, mutex
    ensures conn.Valid() && mutex.Valid() && !mutex.held
    ensures CommitsOrNothing(policy, old(conn.committed), conn.committed, Abandon(now), r,
                             old(conn.faults) < conn.faults)
    ensures old(conn.faults) <= conn.faults && (r.Failure? ==> old(conn.faults) < conn.faults)
    ensures r.Success? ==> r.value == |ExhaustedBatch(policy, old(conn.committed).outbox, now)|
  {
    var uow := new SqliteUnitOfWork(conn, mutex);
    var begun := uow.Enter();
    if begun.Failure? {
      return Failure(Persistence);
    }
    r := AbandonBody(policy, conn, now);
    var left := uow.Exit(r.Failure?);
    if left.Failure? {
      return Failure(Persistence);
    }
  }

  // ---- Phase 1: claim ----------------------------------------------------------------------------

  /** Fresh rows, then stuck ones up to the batch limit. */
  method StampRows(policy: Policy, conn: Connection<Db>, now: Time) returns (r: Result<seq<nat>, Error>)
    requires AllValid(conn.working.outbox)
    modifies conn`working, conn`faults
    ensures old(conn.faults) <= conn.faults
    ensures r.Success? ==>
              && conn.working == old(conn.working).(outbox := ClaimedRows(policy, old(conn.working).outbox, now))
              && r.value == ClaimedIds(policy, old(conn.working).outbox, now)
              && AllValid(conn.working.outbox)
    ensures r.Failure? ==>
              r.error == Persistence
              && (old(conn.faults) < conn.faults || ClaimTx(policy, old(conn.working), now) == Failure(Persistence))
  {
    var start := conn.working;
    var unclaimed := ClaimPending(conn, now, policy.batchLimit);
    if unclaimed.Failure? {
      StampRefused(policy, start, now);
      return Failure(Persistence);
    }
    var remaining := policy.batchLimit - |unclaimed.value|;
    if remaining == 0 {
      NothingTakenOver(policy, start.outbox, now);
      return Success(unclaimed.value);
    }
    r := TakeOver(policy, conn, now, unclaimed.value, start);
  }

  lemma NothingTakenOver(policy: Policy, rows: seq<OutboxRow>, now: Time)
    requires |FreshBatch(policy, rows)| == policy.batchLimit
    ensures ClaimedIds(policy, rows, now) == FreshBatch(policy, rows)
    ensures ClaimedRows(policy, rows, now) == Update(rows, FreshBatch(policy, rows), ClaimAt(now))
  {
  }

  lemma StuckBatchIs(policy: Policy, rows: seq<OutboxRow>, stamped: seq<OutboxRow>, now: Time, limit: nat)
    requires limit == policy.batchLimit - |FreshBatch(policy, rows)| && limit > 0
    requires stamped == Update(rows, FreshBatch(policy, rows), ClaimAt(now))
    ensures StuckBatch(policy, rows, now)
         == Batch(stamped, StuckBelow(now - policy.staleAfter, policy.maxAttempts), ByClaimed(stamped), limit)
  {
  }

  lemma TakenOver(policy: Policy, rows: seq<OutboxRow>, stamped: seq<OutboxRow>, now: Time, unclaimed: seq<nat>, stuck: seq<nat>)
    requires unclaimed == FreshBatch(policy, rows) && stuck == StuckBatch(policy, rows, now)
    requires stamped == Update(rows, unclaimed, ClaimAt(now))
    ensures ClaimedIds(policy, rows, now) == unclaimed + stuck
    ensures ClaimedRows(policy, rows, now) == Update(stamped, stuck, ReclaimAt(now))
  {
  }

  /** The stuck rows, when the fresh ones of `start` are stamped and leave room. */
  method TakeOver(policy: Policy, conn: Connection<Db>, now: Time, unclaimed: seq<nat>, ghost start: Db)
    returns (r: Result<seq<nat>, Error>)
    requires AllValid(start.outbox) && AllValid(conn.working.outbox)
    requires unclaimed == FreshBatch(policy, start.outbox) && |unclaimed| < policy.batchLimit
    requires conn.working == start.(outbox := Update(start.outbox, unclaimed, ClaimAt(now)))
    modifies conn`working, conn`faults
    ensures old(conn.faults) <= conn.faults
    ensures r.Success? ==>
              && conn.working == start.(outbox := ClaimedRows(policy, start.outbox, now))
              && r.value == ClaimedIds(policy, start.outbox, now) && AllValid(conn.working.outbox)
    ensures r.Failure? ==> r.error == Persistence && old(conn.faults) < conn.faults
  {
    ghost var stamped := conn.working.outbox;
    var remaining := policy.batchLimit - |unclaimed|;
    StuckBatchIs(policy, start.outbox, stamped, now, remaining);
    var reclaimed := ReclaimStuck(conn, now, remaining, policy.staleAfter, policy.maxAttempts);
    if reclaimed.Failure? {
      RestampValid(policy, start.outbox, now);
      return Failure(Persistence);
    }
    TakenOver(policy, start.outbox, stamped, now, unclaimed, reclaimed.value);
    return Success(unclaimed + reclaimed.value);
  }

  /** The rows, then every row's run. */
  method ClaimBody(policy: Policy, conn: Connection<Db>, now: Time) returns (r: Result<seq<nat>, Error>)
    requires AllValid(conn.working.outbox)
    modifies conn`working, conn`faults
    ensures old(conn.faults) <= conn.faults
    ensures r.Failure? ==> FailsAs(ClaimTx(policy, old(conn.working), now), r.error, old(conn.faults) < conn.faults)
    ensures r.Success? ==>
              && ClaimTx(policy, old(conn.working), now) == Success(conn.working)
              && r.value == ClaimedIds(policy, old(conn.working).outbox, now)
    ensures r.Failure? ==> r.error == Persistence
  {
    ghost var start := conn.working;
    r := StampRows(policy, conn, now);
    if r.Failure? {
      return;
    }
    ClaimedBounds(policy, start.outbox, now);
    assert |conn.working.outbox| == |start.outbox| by {
      ClaimEffectLength(policy, start.outbox, now);
    }
    LoadedAfterStamping(policy, start, now);
    var loaded := LoadRuns(conn, r.value);
    if !loaded {
      return Failure(Persistence);
    }
  }

  /** Stamping changes no row's run. */
  lemma LoadedAfterStamping(policy: Policy, db: Db, now: Time)
    ensures var ids := ClaimedIds(policy, db.outbox, now);
            Loadable(db.(outbox := ClaimedRows(policy, db.outbox, now)), ids) <==> Loadable(db, ids)
  {
    forall id: nat | id < |db.outbox|
      ensures |ClaimedRows(policy, db.outbox, now)| == |db.outbox|
      ensures ClaimedRows(policy, db.outbox, now)[id].run == db.outbox[id].run
    {
      ClaimEffect(policy, db.outbox, now, id);
    }
    ClaimedBounds(policy, db.outbox, now);
    ClaimEffectLength(policy, db.outbox, now);
  }

  /** A stamp the CHECK constraints refuse is one a claim is refused for. */
  lemma StampRefused(policy: Policy, db: Db, now: Time)
    requires AllValid(db.outbox)
    ensures !AllValid(Update(db.outbox, FreshBatch(policy, db.outbox), ClaimAt(now))) ==>
              ClaimTx(policy, db, now) == Failure(Persistence)
  {
    var ids := FreshBatch(policy, db.outbox);
    var stamped := Update(db.outbox, ids, ClaimAt(now));
    if id :| 0 <= id < |stamped| && !ValidRow(stamped[id]) {
      assert ValidRow(db.outbox[id]);
      assert id in ids;
      Acceptance.FreshExact(policy, db.outbox);
      assert db.outbox[id].enqueuedAt > now;
      Acceptance.ClaimExact(policy, db, now);
      assert Apply(policy, db, Claim(now)) == ClaimTx(policy, db, now);
    }
  }

  /** Taking over stale rows violates no CHECK constraint. */
  lemma RestampValid(policy: Policy, rows: seq<OutboxRow>, now: Time)
    requires AllValid(rows) && |FreshBatch(policy, rows)| < policy.batchLimit
    requires AllValid(Update(rows, FreshBatch(policy, rows), ClaimAt(now)))
    ensures AllValid(Update(Update(rows, FreshBatch(policy, rows), ClaimAt(now)), StuckBatch(policy, rows, now), ReclaimAt(now)))
  {
    var stamped := Update(rows, FreshBatch(policy, rows), ClaimAt(now));
    Acceptance.StuckExact(policy, rows, now);
    var stuck := StuckBatch(policy, rows, now);
    forall id | 0 <= id < |rows|
      ensures ValidRow(Update(stamped, stuck, ReclaimAt(now))[id])
    {
      assert ValidRow(stamped[id]) && ValidRow(rows[id]);
      if id in stuck {
        Acceptance.StampedNotStale(policy, rows, now, id);
        assert Acceptance.Stale(policy, rows[id], now);
      }
    }
  }

  /** Each claimed row's run; one that cannot be rebuilt raises. */
  method LoadRuns(conn: Connection<Db>, ids: seq<nat>) returns (ok: bool)
    requires forall id :: id in ids ==> id < |conn.working.outbox|
    modifies conn`faults
    ensures ok ==> Loadable(conn.working, ids)
    ensures old(conn.faults) <= conn.faults
    ensures !ok ==> old(conn.faults) < conn.faults || !Loadable(conn.working, ids)
  {
    for k := 0 to |ids|
      invariant conn.faults == old(conn.faults)
      invariant forall i :: 0 <= i < k ==>
                  ids[i] in ids && ReadRun(conn.working, conn.working.outbox[ids[i]].run) != Failure(Persistence)
    {
      assert ids[k] in ids;
      var run := GetRun(conn, conn.working.outbox[ids[k]].run);
      if run == Failure(Persistence) {
        return false;
      }
    }
    return true;
  }

  method ClaimRows(policy: Policy, conn: Connection<Db>, mutex: Lock, now: Time) returns (r: Result<seq<nat>, Error>)
    requires conn.Valid() && mutex.Valid() && !mutex.held && AllValid(conn.committed.outbox)
    modifies conn, mutex
    ensures conn.Valid() && mutex.Valid() && !mutex.held
    ensures CommitsOrNothing(policy, old(conn.committed), conn.committed, Claim(now), r,
                             old(conn.faults) < conn.faults)
    ensures old(conn.faults) <= conn.faults
    ensures r.Success? ==> r.value == ClaimedIds(policy, old(conn.committed).outbox, now)
  {
    var uow := new SqliteUnitOfWork(conn, mutex);
    var begun := uow.Enter();
    if begun.Failure? {
      return Failure(Persistence);
    }
    r := ClaimBody(policy, conn, now);
    var left := uow.Exit(r.Failure?);
    if left.Failure? {
      return Failure(Persistence);
    }
  }

  // ---- Phase 2: handlers -------------------------------------------------------------------------

  /** The registered handlers, and the record of their calls and what they returned. */
  class Handlers {
    const registered: set<Disposition>
    var calls: seq<(nat, Option<string>)>

    method Handle(action: nat) returns (error: Option<string>)
      modifies this
      ensures calls == old(calls) + [(action, error)]
    {
      error := *;
      calls := calls + [(action, error)];
    }
  }

  /** One outcome per claimed row, in claim order: what its handler returned, called exactly once,
      where the row's run exists and a handler is registered, and else a failure. */
  method InvokeHandlers(handlers: Handlers, rows: seq<OutboxRow>, runs: set<string>, ids: seq<nat>)
    returns (outcomes: seq<(nat, Option<string>)>)
    requires Distinct(ids) && forall id :: id in ids ==> id < |rows|
    modifies handlers
    ensures ActionIds(outcomes) == ids
    ensures handlers.calls == old(handlers.calls) + Ran(handlers.registered, rows, runs, outcomes)
    ensures forall i :: 0 <= i < |ids| && !CanRun(handlers.registered, rows, runs, ids[i]) ==> outcomes[i].1.Some?
  {
    outcomes := [];
    for i := 0 to |ids|
      invariant |outcomes| == i && forall j :: 0 <= j < i ==> outcomes[j].0 == ids[j]
      invariant forall j :: 0 <= j < i && !CanRun(handlers.registered, rows, runs, ids[j]) ==> outcomes[j].1.Some?
      invariant handlers.calls == old(handlers.calls) + Ran(handlers.registered, rows, runs, outcomes)
    {
      assert ids[i] in ids;
      var row := rows[ids[i]];
      var error;
      if row.run !in runs {
        error := Some("run no longer exists");
      } else if row.action !in handlers.registered {
        error := Some("no handler registered");
      } else {
        error := handlers.Handle(ids[i]);
      }
      assert (outcomes + [(ids[i], error)])[..i] == outcomes;
      outcomes := outcomes + [(ids[i], error)];
    }
    assert ActionIds(outcomes) == ids;
  }

  predicate CanRun(registered: set<Disposition>, rows: seq<OutboxRow>, runs: set<string>, id: nat) {
    id < |rows| && rows[id].run in runs && rows[id].action in registered
  }

  /** The outcomes of the rows whose handler can run, in order. */
  function Ran(registered: set<Disposition>, rows: seq<OutboxRow>, runs: set<string>, outcomes: seq<(nat, Option<string>)>)
    : seq<(nat, Option<string>)>
  {
    if outcomes == [] then []
    else
      var last := outcomes[|outcomes| - 1];
      Ran(registered, rows, runs, outcomes[..|outcomes| - 1]) + if CanRun(registered, rows, runs, last.0) then [last] else []
  }

  // ---- Phase 3: settle ---------------------------------------------------------------------------

  method SettleOne(policy: Policy, conn: Connection<Db>, mutex: Lock, action: nat, error: Option<string>, now: Time)
    returns (r: Result<(), Error>)
    requires conn.Valid() && mutex.Valid() && !mutex.held
    modifies conn, mutex
    ensures conn.Valid() && mutex.Valid() && !mutex.held
    ensures CommitsOrNothing(policy, old(conn.committed), conn.committed, Settle(action, error, now), r,
                             old(conn.faults) < conn.faults)
    ensures old(conn.faults) <= conn.faults
  {
    var uow := new SqliteUnitOfWork(conn, mutex);
    var begun := uow.Enter();
    if begun.Failure? {
      return Failure(Persistence);
    }
    var change := SettleChange(error, now);
    var ok := UpdateRows(conn, [action], change);
    var left := uow.Exit(!ok);
    if !ok || left.Failure? {
      return Failure(Persistence);
    }
    return Success(());
  }

  datatype DispatchResult = DispatchResult(claimed: nat, succeeded: nat, failed: nat, abandoned: nat)

  /** The row was settled with this outcome: completed, and on failure with one more attempt. */
  predicate SettledFrom(was: OutboxRow, now: OutboxRow, error: Option<string>) {
    && now.completedAt.Some?
    && now.attempts == was.attempts + (if error.Some? then 1 else 0)
    && now.lastError == (if error.Some? then error else was.lastError)
    && now.(completedAt := was.completedAt, attempts := was.attempts, lastError := was.lastError) == was
  }

  ghost predicate AllSettled(was: seq<OutboxRow>, now: seq<OutboxRow>, outcomes: seq<(nat, Option<string>)>) {
    && |was| <= |now|
    && (forall i :: 0 <= i < |outcomes| ==>
          && outcomes[i].0 < |was|
          && SettledFrom(was[outcomes[i].0], now[outcomes[i].0], outcomes[i].1))
    && (forall id :: 0 <= id < |was| && id !in ActionIds(outcomes) ==> now[id] == was[id])
  }

  function Failures(outcomes: seq<(nat, Option<string>)>): nat {
    if outcomes == [] then 0
    else Failures(outcomes[..|outcomes| - 1]) + if outcomes[|outcomes| - 1].1.Some? then 1 else 0
  }

  lemma SettleStep(was: seq<OutboxRow>, before: seq<OutboxRow>, met: seq<OutboxRow>, after: seq<OutboxRow>,
                   outcomes: seq<(nat, Option<string>)>, k: nat, now: Time)
    requires k < |outcomes| && Distinct(ActionIds(outcomes))
    requires forall i :: 0 <= i < |outcomes| ==> outcomes[i].0 < |was|
    requires AllSettled(was, before, outcomes[..k]) && OnlyEnqueues(before, met)
    requires after == Update(met, [outcomes[k].0], SettleChange(outcomes[k].1, now))
    ensures AllSettled(was, after, outcomes[..k + 1])
  {
    var ids := ActionIds(outcomes);
    assert ActionIds(outcomes[..k + 1]) == ActionIds(outcomes[..k]) + [outcomes[k].0];
    assert ActionIds(outcomes[..k]) == ids[..k] && ids[k] !in ids[..k];
    forall i | 0 <= i < k + 1
      ensures SettledFrom(was[outcomes[i].0], after[outcomes[i].0], outcomes[i].1)
    {
      assert ids[i] == outcomes[i].0;
      if i < k {
        assert outcomes[..k][i] == outcomes[i] && ids[i] != ids[k];
      }
    }
  }

  /** The clock reads earlier than some row was enqueued or claimed. */
  predicate SteppedBack(rows: seq<OutboxRow>, now: Time) {
    exists id :: 0 <= id < |rows| &&
      (now < rows[id].enqueuedAt || (rows[id].claimedAt.Some? && now < rows[id].claimedAt.value))
  }

  /** Claimed rows that are still there. */
  predicate StillClaimed(rows: seq<OutboxRow>, outcomes: seq<(nat, Option<string>)>) {
    forall i :: 0 <= i < |outcomes| ==> outcomes[i].0 < |rows| && rows[outcomes[i].0].claimedAt.Some?
  }

  lemma SettleRefused(policy: Policy, db: Db, action: nat, error: Option<string>, now: Time)
    requires AllValid(db.outbox) && action < |db.outbox| && db.outbox[action].claimedAt.Some?
    ensures Apply(policy, db, Settle(action, error, now)).Failure? ==> SteppedBack(db.outbox, now)
    ensures Apply(policy, db, Settle(action, error, now)).Success? ==>
              AllValid(Apply(policy, db, Settle(action, error, now)).value.outbox)
  {
    Acceptance.SettleExact(policy, db, action, error, now);
  }

  lemma StillClaimedAfter(was: seq<OutboxRow>, now: seq<OutboxRow>, outcomes: seq<(nat, Option<string>)>, k: nat)
    requires k <= |outcomes| && StillClaimed(was, outcomes) && AllSettled(was, now, outcomes[..k])
    ensures StillClaimed(now, outcomes)
  {
    forall i | 0 <= i < |outcomes|
      ensures outcomes[i].0 < |now| && now[outcomes[i].0].claimedAt.Some?
    {
      var id := outcomes[i].0;
      if id in ActionIds(outcomes[..k]) {
        var j :| 0 <= j < k && ActionIds(outcomes[..k])[j] == id;
        assert SettledFrom(was[outcomes[..k][j].0], now[outcomes[..k][j].0], outcomes[..k][j].1);
      }
    }
  }

  /** Settles the outcomes one unit of work at a time. Every row claimed is settled exactly
      once with its own outcome, and no other row is touched by this dispatcher. It ends early
      only if the database fails or its clock (`last`) steps back. */
  method SettleAll(policy: Policy, conn: Connection<Db>, mutex: Lock, outcomes: seq<(nat, Option<string>)>)
    returns (r: Result<(nat, nat), Error>, ghost last: Time)
    requires conn.Valid() && mutex.Valid() && !mutex.held && AllValid(conn.committed.outbox)
    requires Distinct(ActionIds(outcomes)) && StillClaimed(conn.committed.outbox, outcomes)
    modifies conn, mutex
    ensures conn.Valid() && mutex.Valid() && !mutex.held
    ensures r.Success? ==>
              && AllSettled(old(conn.committed).outbox, conn.committed.outbox, outcomes)
              && r.value.0 + r.value.1 == |outcomes| && r.value.1 == Failures(outcomes)
    ensures old(conn.faults) <= conn.faults
    ensures r.Failure? ==> old(conn.faults) < conn.faults || SteppedBack(conn.committed.outbox, last)
  {
    ghost var was := conn.committed.outbox;
    var succeeded: nat, failed: nat := 0, 0;
    last := 0;
    for k := 0 to |outcomes|
      invariant conn.Valid() && mutex.Valid() && !mutex.held && AllValid(conn.committed.outbox)
      invariant AllSettled(was, conn.committed.outbox, outcomes[..k])
      invariant succeeded + failed == k && failed == Failures(outcomes[..k])
      invariant old(conn.faults) <= conn.faults
    {
      var error := outcomes[k].1;
      var settled;
      settled, last := SettleNext(policy, conn, mutex, was, outcomes, k);
      if settled.Failure? {
        return Failure(Persistence), last;
      }
      assert outcomes[..k + 1][..k] == outcomes[..k];
      if error.None? {
        succeeded := succeeded + 1;
      } else {
        failed := failed + 1;
      }
    }
    assert outcomes[..|outcomes|] == outcomes;
    return Success((succeeded, failed)), last;
  }

  /** One outcome's unit of work, after waiting. */
  method SettleNext(policy: Policy, conn: Connection<Db>, mutex: Lock, ghost was: seq<OutboxRow>,
                    outcomes: seq<(nat, Option<string>)>, k: nat)
    returns (r: Result<(), Error>, ghost now: Time)
    requires conn.Valid() && mutex.Valid() && !mutex.held && AllValid(conn.committed.outbox)
    requires k < |outcomes| && Distinct(ActionIds(outcomes)) && StillClaimed(was, outcomes)
    requires AllSettled(was, conn.committed.outbox, outcomes[..k])
    modifies conn, mutex
    ensures conn.Valid() && mutex.Valid() && !mutex.held && AllValid(conn.committed.outbox)
    ensures r.Success? ==> AllSettled(was, conn.committed.outbox, outcomes[..k + 1])
    ensures old(conn.faults) <= conn.faults
    ensures r.Failure? ==> old(conn.faults) < conn.faults || SteppedBack(conn.committed.outbox, now)
  {
    ghost var before := conn.committed.outbox;
    StillClaimedAfter(was, before, outcomes, k);
    AwaitOthers(policy, conn);
    ghost var met := conn.committed;
    var at: Time := *;
    now := at;
    var (action, error) := outcomes[k];
    SettleRefused(policy, met, action, error, at);
    r := SettleOne(policy, conn, mutex, action, error, at);
    if r.Success? {
      SettleStep(was, before, met.outbox, conn.committed.outbox, outcomes, k, at);
    }
  }

  // ---- The tick ------------------------------------------------------------------------------

  /** What one tick made of a row it claimed at `at`, taking over a stale claim or not, from its
      outcome: completed under that claim, one more attempt for the takeover and for a failure. */
  predicate DispatchedAs(was: OutboxRow, end: OutboxRow, at: Time, retaken: bool, error: Option<string>) {
    && end.run == was.run && end.action == was.action && end.enqueuedAt == was.enqueuedAt
    && was.completedAt.None? && end.claimedAt == Some(at) && end.completedAt.Some?
    && end.attempts == was.attempts + (if retaken then 1 else 0) + (if error.Some? then 1 else 0)
    && end.lastError == (if error.Some? then error else was.lastError)
  }

  /** Everything one tick did to what it claimed from `rows` at `at`: every row in turn dispatched
      with its outcome, its handler called at most once; no other settled row touched. */
  ghost predicate Dispatched(policy: Policy, rows: seq<OutboxRow>, end: seq<OutboxRow>, at: Time,
                             outcomes: seq<(nat, Option<string>)>) {
    var ids := ClaimedIds(policy, rows, at);
    && ActionIds(outcomes) == ids && Distinct(ids) && |rows| <= |end|
    && (forall i :: 0 <= i < |ids| ==>
          && ids[i] < |rows|
          && DispatchedAs(rows[ids[i]], end[ids[i]], at, i >= |FreshBatch(policy, rows)|, outcomes[i].1))
    && SettledKept(rows, end)
  }

  /** Settled rows are as they were. */
  ghost predicate SettledKept(was: seq<OutboxRow>, now: seq<OutboxRow>) {
    |was| <= |now| && forall id: nat :: id < |was| && was[id].completedAt.Some? ==> now[id] == was[id]
  }

  /** The outcomes are what the handlers returned, each called once, and failures where none can. */
  predicate OutcomesAre(registered: set<Disposition>, rows: seq<OutboxRow>, runs: set<string>,
                        before: seq<(nat, Option<string>)>, after: seq<(nat, Option<string>)>,
                        outcomes: seq<(nat, Option<string>)>) {
    && after == before + Ran(registered, rows, runs, outcomes)
    && forall i :: 0 <= i < |outcomes| && !CanRun(registered, rows, runs, outcomes[i].0) ==> outcomes[i].1.Some?
  }

  /** What one tick makes of the store `from` it claimed from, and of its handlers' record. */
  ghost predicate Ticked(policy: Policy, from: Db, end: seq<OutboxRow>, at: Time, registered: set<Disposition>,
                         before: seq<(nat, Option<string>)>, after: seq<(nat, Option<string>)>,
                         outcomes: seq<(nat, Option<string>)>) {
    && Dispatched(policy, from.outbox, end, at, outcomes)
    && OutcomesAre(registered, from.outbox, from.runs.Keys, before, after, outcomes)
  }

  lemma DispatchedOne(policy: Policy, rows: seq<OutboxRow>, claimed: seq<OutboxRow>, end: seq<OutboxRow>, at: Time,
                      outcomes: seq<(nat, Option<string>)>, i: nat)
    requires claimed == ClaimedRows(policy, rows, at) && ActionIds(outcomes) == ClaimedIds(policy, rows, at)
    requires forall id :: 0 <= id < |rows| && rows[id].claimedAt.None? ==> rows[id].completedAt.None?
    requires AllSettled(claimed, end, outcomes) && i < |outcomes|
    ensures outcomes[i].0 < |rows| <= |end|
    ensures DispatchedAs(rows[outcomes[i].0], end[outcomes[i].0], at, i >= |FreshBatch(policy, rows)|, outcomes[i].1)
  {
    var unclaimed, stuck := FreshBatch(policy, rows), StuckBatch(policy, rows, at);
    var ids := ClaimedIds(policy, rows, at);
    ClaimBatch(policy, rows, at);
    var id := outcomes[i].0;
    assert ids[i] == id;
    assert if i < |unclaimed| then id in unclaimed else stuck[i - |unclaimed|] == id && id in stuck;
    ClaimEffect(policy, rows, at, id);
    assert SettledFrom(claimed[id], end[id], outcomes[i].1);
  }

  lemma DispatchedOk(policy: Policy, rows: seq<OutboxRow>, claimed: seq<OutboxRow>, end: seq<OutboxRow>, at: Time,
                     outcomes: seq<(nat, Option<string>)>)
    requires claimed == ClaimedRows(policy, rows, at) && ActionIds(outcomes) == ClaimedIds(policy, rows, at)
    requires forall id :: 0 <= id < |rows| && rows[id].claimedAt.None? ==> rows[id].completedAt.None?
    requires AllSettled(claimed, end, outcomes)
    ensures Dispatched(policy, rows, end, at, outcomes)
  {
    ClaimedBounds(policy, rows, at);
    forall i | 0 <= i < |outcomes|
      ensures outcomes[i].0 < |rows| <= |end|
      ensures DispatchedAs(rows[outcomes[i].0], end[outcomes[i].0], at, i >= |FreshBatch(policy, rows)|, outcomes[i].1)
    {
      DispatchedOne(policy, rows, claimed, end, at, outcomes, i);
    }
    forall id: nat | id < |rows| && rows[id].completedAt.Some?
      ensures |claimed| == |rows| && end[id] == rows[id]
    {
      ClaimCompletes(policy, rows, at, id);
      ClaimEffect(policy, rows, at, id);
    }
    ClaimEffectLength(policy, rows, at);
  }

  lemma ClaimEffectLength(policy: Policy, rows: seq<OutboxRow>, now: Time)
    ensures |ClaimedRows(policy, rows, now)| == |rows|
  {
  }

  /** Every exhausted row of the batch found at `now` is settled by the end. */
  ghost predicate AllAbandoned(policy: Policy, start: seq<OutboxRow>, end: seq<OutboxRow>, now: Time) {
    forall id :: id in ExhaustedBatch(policy, start, now) ==> id < |end| && end[id].completedAt.Some?
  }

  lemma AbandonedStay(policy: Policy, start: seq<OutboxRow>, rows: seq<OutboxRow>, end: seq<OutboxRow>, at: Time)
    requires OnlyEnqueues(Update(start, ExhaustedBatch(policy, start, at), AbandonAt(at, ABANDONED)), rows)
    requires SettledKept(rows, end)
    ensures AllAbandoned(policy, start, end, at)
  {
    ExhaustedRows(policy, start, at);
  }

  lemma ClaimedStillClaimed(policy: Policy, rows: seq<OutboxRow>, now: Time, outcomes: seq<(nat, Option<string>)>)
    requires ActionIds(outcomes) == ClaimedIds(policy, rows, now)
    ensures StillClaimed(ClaimedRows(policy, rows, now), outcomes)
  {
    ClaimBatch(policy, rows, now);
    var ids := ClaimedIds(policy, rows, now);
    forall i | 0 <= i < |outcomes|
      ensures outcomes[i].0 < |ClaimedRows(policy, rows, now)|
      ensures ClaimedRows(policy, rows, now)[outcomes[i].0].claimedAt.Some?
    {
      assert ids[i] in ids && ids[i] == outcomes[i].0;
      ClaimedBounds(policy, rows, now);
      ClaimEffect(policy, rows, now, ids[i]);
    }
  }

  /** A claim is refused only by the clock or by a run that cannot be rebuilt. */
  lemma ClaimRefused(policy: Policy, db: Db, now: Time)
    requires AllValid(db.outbox) && Apply(policy, db, Claim(now)).Failure?
    ensures SteppedBack(db.outbox, now) || Acceptance.SomeUnreadable(db)
  {
    Acceptance.ClaimExact(policy, db, now);
    if id: nat :| id < |db.outbox| && Acceptance.Unreadable(db, db.outbox[id].run, Persistence) {
      assert !Acceptance.Readable(db, db.outbox[id].run);
    }
  }

  lemma ClaimedOrRefused(policy: Policy, before: Db, after: Db, now: Time, r: Result<seq<nat>, Error>, faulty: bool)
    requires AllValid(before.outbox) && CommitsOrNothing(policy, before, after, Claim(now), r, faulty)
    ensures r.Failure? ==> faulty || SteppedBack(after.outbox, now) || Acceptance.SomeUnreadable(after)
    ensures r.Success? ==> after.outbox == ClaimedRows(policy, before.outbox, now) && AllValid(after.outbox)
  {
    if r.Failure? && !faulty {
      ClaimRefused(policy, before, now);
    }
  }

  /** Phase 1, as the next ones find it. */
  method ClaimNow(policy: Policy, conn: Connection<Db>, mutex: Lock, now: Time) returns (r: Result<seq<nat>, Error>)
    requires conn.Valid() && mutex.Valid() && !mutex.held && AllValid(conn.committed.outbox)
    modifies conn, mutex
    ensures conn.Valid() && mutex.Valid() && !mutex.held
    ensures var rows := old(conn.committed).outbox;
            r.Success? ==>
              && r.value == ClaimedIds(policy, rows, now)
              && conn.committed.outbox == ClaimedRows(policy, rows, now) && AllValid(conn.committed.outbox)
              && forall id :: 0 <= id < |rows| && rows[id].claimedAt.None? ==> rows[id].completedAt.None?
    ensures old(conn.faults) <= conn.faults
    ensures r.Failure? ==>
              old(conn.faults) < conn.faults || SteppedBack(conn.committed.outbox, now) || Acceptance.SomeUnreadable(conn.committed)
  {
    NeverClaimedNeverDone(conn.committed.outbox);
    r := ClaimRows(policy, conn, mutex, now);
    ClaimedOrRefused(policy, old(conn.committed), conn.committed, now, r, old(conn.faults) < conn.faults);
  }

  /** Phases 1 to 3: claimed from the store `from` at `at`, every row dispatched with its outcome,
      which is what its handler returned. */
  method ClaimAndSettle(policy: Policy, conn: Connection<Db>, mutex: Lock, handlers: Handlers)
    returns (r: Result<(nat, nat, nat), Error>, ghost at: Time, ghost last: Time, ghost outcomes: seq<(nat, Option<string>)>)
    requires conn.Valid() && mutex.Valid() && !mutex.held && AllValid(conn.committed.outbox)
    modifies conn, mutex, handlers
    ensures conn.Valid() && mutex.Valid() && !mutex.held
    ensures r.Success? ==>
              && Ticked(policy, old(conn.committed), conn.committed.outbox, at, handlers.registered, old(handlers.calls),
                        handlers.calls, outcomes)
              && r.value == (|outcomes|, |outcomes| - Failures(outcomes), Failures(outcomes))
    ensures old(conn.faults) <= conn.faults
    ensures r.Failure? ==>
              old(conn.faults) < conn.faults || SteppedBack(conn.committed.outbox, last) || Acceptance.SomeUnreadable(conn.committed)
  {
    var now: Time := *;
    var from := conn.committed;  // the rows claimed, and the runs loaded with the claim
    at, last, outcomes := now, now, [];
    var claimed := ClaimNow(policy, conn, mutex, now);
    if claimed.Failure? {
      return Failure(Persistence), at, last, outcomes;
    }
    r, last, outcomes := HandleAndSettle(policy, conn, mutex, handlers, from, claimed.value, now);
  }

  /** Phases 2 and 3, for the rows just claimed from `from`. */
  method HandleAndSettle(policy: Policy, conn: Connection<Db>, mutex: Lock, handlers: Handlers, from: Db, ids: seq<nat>,
                         ghost at: Time)
    returns (r: Result<(nat, nat, nat), Error>, ghost last: Time, ghost outcomes: seq<(nat, Option<string>)>)
    requires conn.Valid() && mutex.Valid() && !mutex.held && AllValid(conn.committed.outbox)
    requires ids == ClaimedIds(policy, from.outbox, at) && conn.committed.outbox == ClaimedRows(policy, from.outbox, at)
    requires forall id :: 0 <= id < |from.outbox| && from.outbox[id].claimedAt.None? ==> from.outbox[id].completedAt.None?
    modifies conn, mutex, handlers
    ensures conn.Valid() && mutex.Valid() && !mutex.held
    ensures r.Success? ==>
              && Ticked(policy, from, conn.committed.outbox, at, handlers.registered, old(handlers.calls), handlers.calls,
                        outcomes)
              && r.value == (|outcomes|, |outcomes| - Failures(outcomes), Failures(outcomes))
    ensures old(conn.faults) <= conn.faults
    ensures r.Failure? ==> old(conn.faults) < conn.faults || SteppedBack(conn.committed.outbox, last)
  {
    ClaimedBounds(policy, from.outbox, at);
    var results := InvokeHandlers(handlers, from.outbox, from.runs.Keys, ids);
    outcomes := results;
    ClaimedStillClaimed(policy, from.outbox, at, results);
    ghost var stamped := conn.committed.outbox;
    var counts;
    counts, last := SettleAll(policy, conn, mutex, results);
    if counts.Failure? {
      return Failure(Persistence), last, outcomes;
    }
    assert OutcomesAre(handlers.registered, from.outbox, from.runs.Keys, old(handlers.calls), handlers.calls, results);
    DispatchedOk(policy, from.outbox, stamped, conn.committed.outbox, at, results);
    return Success((|ids|, counts.value.0, counts.value.1)), last, outcomes;
  }

  /** Phase 0, then a wait. */
  method AbandonAndWait(policy: Policy, conn: Connection<Db>, mutex: Lock, now: Time) returns (r: Result<nat, Error>)
    requires conn.Valid() && mutex.Valid() && !mutex.held && AllValid(conn.committed.outbox)
    modifies conn, mutex
    ensures conn.Valid() && mutex.Valid() && !mutex.held && AllValid(conn.committed.outbox)
    ensures old(conn.faults) <= conn.faults && (r.Failure? ==> old(conn.faults) < conn.faults)
    ensures r.Success? ==>
              var batch := ExhaustedBatch(policy, old(conn.committed).outbox, now);
              && r.value == |batch|
              && OnlyEnqueues(Update(old(conn.committed).outbox, batch, AbandonAt(now, ABANDONED)), conn.committed.outbox)
  {
    r := AbandonExhausted(policy, conn, mutex, now);
    if r.Success? {
      AbandonedValid(policy, old(conn.committed), now);
      AwaitOthers(policy, conn);
    }
  }

  /** One tick that returns: from the store `from`, as it was at `at` when the claim was made,
      every row claimed was dispatched with its outcome, which is what its handler returned, called
      once, and the counts are those of the outcomes. The rows counted as abandoned are the
      exhausted batch it started with, all settled. It ends early only if the database fails, a
      run cannot be rebuilt, or the clock (`last`) steps back. */
  method DispatchPending(policy: Policy, conn: Connection<Db>, mutex: Lock, handlers: Handlers)
    returns (r: Result<DispatchResult, Error>, ghost abandonedAt: Time, ghost from: Db, ghost at: Time, ghost last: Time,
             ghost outcomes: seq<(nat, Option<string>)>)
    requires conn.Valid() && mutex.Valid() && !mutex.held && AllValid(conn.committed.outbox)
    modifies conn, mutex, handlers
    ensures conn.Valid() && mutex.Valid() && !mutex.held
    ensures r.Success? ==>
              && Dispatched(policy, from.outbox, conn.committed.outbox, at, outcomes)
              && OutcomesAre(handlers.registered, from.outbox, from.runs.Keys, old(handlers.calls), handlers.calls, outcomes)
              && r.value.claimed == |outcomes| && r.value.failed == Failures(outcomes)
              && r.value.succeeded == |outcomes| - Failures(outcomes)
    ensures r.Success? ==>
              && r.value.abandoned == |ExhaustedBatch(policy, old(conn.committed).outbox, abandonedAt)|
              && AllAbandoned(policy, old(conn.committed).outbox, conn.committed.outbox, abandonedAt)
              && OnlyEnqueues(Update(old(conn.committed).outbox, ExhaustedBatch(policy, old(conn.committed).outbox, abandonedAt),
                                     AbandonAt(abandonedAt, ABANDONED)), from.outbox)
    ensures r.Failure? ==>
              old(conn.faults) < conn.faults || SteppedBack(conn.committed.outbox, last) || Acceptance.SomeUnreadable(conn.committed)
  {
    var now: Time := *;
    abandonedAt, from, at, last, outcomes := now, conn.committed, now, now, [];
    var abandoned := AbandonAndWait(policy, conn, mutex, now);
    if abandoned.Failure? {
      return Failure(Persistence), abandonedAt, from, at, last, outcomes;
    }
    from := conn.committed;
    var counts;
    counts, at, last, outcomes := ClaimAndSettle(policy, conn, mutex, handlers);
    if counts.Failure? {
      return Failure(Persistence), abandonedAt, from, at, last, outcomes;
    }
    AbandonedStay(policy, old(conn.committed).outbox, from.outbox, conn.committed.outbox, abandonedAt);
    var (claimed, succeeded, failed) := counts.value;
    return Success(DispatchResult(claimed, succeeded, failed, abandoned.value)), abandonedAt, from, at, last, outcomes;
  }

  lemma AbandonedValid(policy: Policy, db: Db, now: Time)
    requires Apply(policy, db, Abandon(now)).Success?
    ensures var db' := Commit(policy, db, Abandon(now));
            && AllValid(db'.outbox)
            && db'.outbox == Update(db.outbox, ExhaustedBatch(policy, db.outbox, now), AbandonAt(now, ABANDONED))
  {
  }

  lemma NeverClaimedNeverDone(rows: seq<OutboxRow>)
    requires AllValid(rows)
    ensures forall id :: 0 <= id < |rows| && rows[id].claimedAt.None? ==> rows[id].completedAt.None?
  {
    forall id | 0 <= id < |rows| && rows[id].claimedAt.None?
      ensures rows[id].completedAt.None?
    {
      assert ValidRow(rows[id]);
    }
  }
}
