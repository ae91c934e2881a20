/** Audit retention (audit_log_pruner.py, audit_log.py, audit_archive_writer.py): fetch the
    expired batch, archive it, delete it, in two units of work with other writers in between. */
module AuditPruner {
  import opened Wrappers
  import opened Sequences
  import opened UnitOfWork

  type Time = int

  datatype Row = Row(auditId: nat, timestamp: Time, text: string)

  // ---- Selection ---------------------------------------------------------------------------

  function Older(rows: seq<Row>, cutoff: Time): seq<Row> {
    if rows == [] then []
    else
      var n := |rows| - 1;
      Older(rows[..n], cutoff) + if rows[n].timestamp < cutoff then [rows[n]] else []
  }

  predicate Before(a: Row, b: Row) {
    a.timestamp < b.timestamp || (a.timestamp == b.timestamp && a.auditId < b.auditId)
  }

  /** ORDER BY timestamp, audit_id. */
  function ByAge(): (Row, Row) -> bool {
    (a: Row, b: Row) => Before(a, b)
  }

  /** The sub-select shared by `fetch_older_than` and `delete_older_than`. */
  function Select(rows: seq<Row>, cutoff: Time, limit: nat): seq<Row> {
    Take(Sort(Older(rows, cutoff), ByAge()), limit)
  }

  /** The rows that stay when `batch` is deleted. */
  function Without(rows: seq<Row>, batch: seq<Row>): seq<Row> {
    if rows == [] then []
    else
      var n := |rows| - 1;
      Without(rows[..n], batch) + if rows[n] in batch then [] else [rows[n]]
  }

  /** `audit_id` is the primary key. */
  ghost predicate Keyed(rows: seq<Row>) {
    forall i, j :: 0 <= i < j < |rows| ==> rows[i].auditId != rows[j].auditId
  }

  lemma {:induction false} OlderMembers(rows: seq<Row>, cutoff: Time)
    requires Keyed(rows)
    ensures var expired := Older(rows, cutoff);
            && Keyed(expired) && Distinct(expired)
            && forall r :: r in expired <==> r in rows && r.timestamp < cutoff
  {
    if rows != [] {
      var n := |rows| - 1;
      OlderMembers(rows[..n], cutoff);
      var before := Older(rows[..n], cutoff);
      assert rows == rows[..n] + [rows[n]];
      forall i | 0 <= i < |before|
        ensures before[i].auditId != rows[n].auditId
      {
        assert before[i] in rows[..n];
      }
    }
  }

  lemma {:induction false} OlderConcat(a: seq<Row>, b: seq<Row>, cutoff: Time)
    ensures Older(a + b, cutoff) == Older(a, cutoff) + Older(b, cutoff)
  {
    if b == [] {
      assert a + b == a;
    } else {
      var n := |b| - 1;
      OlderConcat(a, b[..n], cutoff);
      assert (a + b)[..|a + b| - 1] == a + b[..n];
    }
  }

  lemma AgeTotal(rows: seq<Row>)
    requires Keyed(rows)
    ensures TotalOn(rows, ByAge())
  {
    forall x, y | x in rows && y in rows && x != y
      ensures ByAge()(x, y) || ByAge()(y, x)
    {
      var i :| 0 <= i < |rows| && rows[i] == x;
      var j :| 0 <= j < |rows| && rows[j] == y;
      assert rows[i].auditId != rows[j].auditId;
    }
  }

  /** Recorded earlier, or at the same time under a smaller id. */
  predicate OlderThan(a: Row, b: Row) {
    a.timestamp <= b.timestamp && (a.timestamp == b.timestamp ==> a.auditId < b.auditId)
  }

  /** A batch is the oldest `limit` expired rows, oldest first, or all of them. */
  lemma BatchIsOldest(rows: seq<Row>, cutoff: Time, limit: nat)
    requires Keyed(rows)
    ensures var batch, expired := Select(rows, cutoff, limit), Older(rows, cutoff);
            && Distinct(batch) && TotalOn(expired, ByAge()) && Ordered(batch, ByAge())
            && (forall i, j :: 0 <= i < j < |batch| ==> OlderThan(batch[i], batch[j]))
            && |batch| == (if |expired| <= limit then |expired| else limit)
            && (forall r :: r in batch ==> r in rows && r.timestamp < cutoff)
            && (|expired| <= limit ==> forall r :: r in rows && r.timestamp < cutoff ==> r in batch)
            && (forall x, y :: x in batch && y in rows && y.timestamp < cutoff && y !in batch ==>
                  Before(x, y) && OlderThan(x, y))
  {
    var expired := Older(rows, cutoff);
    OlderMembers(rows, cutoff);
    AgeTotal(expired);
    FirstOfSort(expired, ByAge(), limit);
    SortOrdered(expired, ByAge());
    forall x, y | x in Select(rows, cutoff, limit) && y in rows && y.timestamp < cutoff && y !in Select(rows, cutoff, limit)
      ensures Before(x, y)
    {
      assert y in expired;
      assert ByAge()(x, y);
    }
    var batch := Select(rows, cutoff, limit);
    forall i, j | 0 <= i < j < |batch|
      ensures OlderThan(batch[i], batch[j])
    {
      assert batch[i] in expired && batch[j] in expired && !ByAge()(batch[j], batch[i]);
      assert ByAge()(batch[i], batch[j]);
    }
  }

  // ---- Rows arriving between fetch and delete ------------------------------------------------

  /** No arrival gets ahead of the fetched batch: it is not expired, or the batch is full and
      all older. */
  predicate Behind(arrivals: seq<Row>, cutoff: Time, batch: seq<Row>, limit: nat) {
    forall n :: n in arrivals && n.timestamp < cutoff ==>
      |batch| == limit && forall x :: x in batch ==> Before(x, n)
  }

  /** The first few of an order are unique: two lists of the same length, each before all the
      rest, have the same members. */
  lemma FirstFewUnique(a: seq<Row>, b: seq<Row>, all: seq<Row>)
    requires Distinct(a) && Distinct(b) && |a| == |b|
    requires AllIn(a, all) && AllIn(b, all)
    requires forall x, y :: x in a && y in all && y !in a ==> Before(x, y)
    requires forall x, y :: x in b && y in all && y !in b ==> Before(x, y)
    ensures forall x :: x in a ==> x in b
  {
    var inA, inB := set r | r in a, set r | r in b;
    DistinctSize(a);
    DistinctSize(b);
    forall x | x in a
      ensures x in b
    {
      assert x in inA;
      if inB <= inA {
        SameSizeSubset(inB, inA);
      } else {
        var y :| y in inB && y !in inA;
        assert x !in b ==> Before(x, y) && Before(y, x);
      }
    }
  }

  lemma SameBatch(a: seq<Row>, b: seq<Row>, all: seq<Row>)
    requires Distinct(a) && Distinct(b) && |a| == |b| && TotalOn(all, ByAge())
    requires AllIn(a, all) && AllIn(b, all) && Ordered(a, ByAge()) && Ordered(b, ByAge())
    requires forall x, y :: x in a && y in all && y !in a ==> Before(x, y)
    requires forall x, y :: x in b && y in all && y !in b ==> Before(x, y)
    ensures a == b
  {
    FirstFewUnique(a, b, all);
    FirstFewUnique(b, a, all);
    SameSetSameMultiset(a, b);
    SubOrder(a, all);
    OrderedUnique(a, b, ByAge());
  }

  lemma BehindKeepsBatch(rows: seq<Row>, arrivals: seq<Row>, cutoff: Time, limit: nat)
    requires Keyed(rows + arrivals) && Behind(arrivals, cutoff, Select(rows, cutoff, limit), limit)
    ensures Select(rows + arrivals, cutoff, limit) == Select(rows, cutoff, limit)
  {
    var all := rows + arrivals;
    KeyedParts(rows, arrivals);
    OlderConcat(rows, arrivals, cutoff);
    if Older(arrivals, cutoff) == [] {
      assert Older(all, cutoff) == Older(rows, cutoff);
    } else {
      OlderMembers(arrivals, cutoff);
      assert Older(arrivals, cutoff)[0] in Older(arrivals, cutoff);
      BatchIsOldest(rows, cutoff, limit);
      BatchIsOldest(all, cutoff, limit);
      OlderMembers(rows, cutoff);
      OlderMembers(all, cutoff);
      SameBatch(Select(rows, cutoff, limit), Select(all, cutoff, limit), Older(all, cutoff));
    }
  }

  lemma SubOrder(batch: seq<Row>, rows: seq<Row>)
    requires TotalOn(rows, ByAge()) && forall r :: r in batch ==> r in rows
    ensures TotalOn(batch, ByAge())
  {
  }

  lemma SmallerSet<T>(a: set<T>, b: set<T>)
    requires a <= b
    ensures |a| <= |b|
  {
    assert b == a + (b - a);
  }

  lemma SameSizeSubset<T>(a: set<T>, b: set<T>)
    requires a <= b && |a| == |b|
    ensures a == b
  {
    assert |b| == |a| + |b - a|;
  }

  lemma KeyedParts(rows: seq<Row>, arrivals: seq<Row>)
    requires Keyed(rows + arrivals)
    ensures Keyed(rows) && Keyed(arrivals) && forall r :: r in rows ==> r !in arrivals
  {
    var all := rows + arrivals;
    assert forall i :: 0 <= i < |rows| ==> all[i] == rows[i];
    assert forall j :: 0 <= j < |arrivals| ==> all[|rows| + j] == arrivals[j];
    forall i, j | 0 <= i < j < |arrivals|
      ensures arrivals[i].auditId != arrivals[j].auditId
    {
      assert all[|rows| + i].auditId != all[|rows| + j].auditId;
    }
    forall r | r in rows
      ensures r !in arrivals
    {
      var i :| 0 <= i < |rows| && rows[i] == r;
      forall j | 0 <= j < |arrivals|
        ensures arrivals[j] != r
      {
        assert all[i].auditId != all[|rows| + j].auditId;
      }
    }
  }

  predicate AllIn(batch: seq<Row>, archive: seq<Row>) {
    forall r :: r in batch ==> r in archive
  }

  /** What is deleted is within what was fetched exactly when no arrival gets ahead of it; and
      then it is the same batch, in the same order. */
  lemma DeletedIsFetchedIff(rows: seq<Row>, arrivals: seq<Row>, cutoff: Time, limit: nat)
    requires Keyed(rows + arrivals)
    ensures var fetched, deleted := Select(rows, cutoff, limit), Select(rows + arrivals, cutoff, limit);
            && (AllIn(deleted, fetched) <==> Behind(arrivals, cutoff, fetched, limit))
            && (AllIn(deleted, fetched) <==> deleted == fetched)
  {
    var fetched, deleted := Select(rows, cutoff, limit), Select(rows + arrivals, cutoff, limit);
    if Behind(arrivals, cutoff, fetched, limit) {
      BehindKeepsBatch(rows, arrivals, cutoff, limit);
    }
    if AllIn(deleted, fetched) {
      KeyedParts(rows, arrivals);
      BatchIsOldest(rows, cutoff, limit);
      BatchIsOldest(rows + arrivals, cutoff, limit);
      DistinctSize(fetched);
      DistinctSize(deleted);
      var taken, taken' := set r | r in fetched, set r | r in deleted;
      SmallerSet(taken', taken);
      forall n | n in arrivals && n.timestamp < cutoff
        ensures |fetched| == limit && forall x :: x in fetched ==> Before(x, n)
      {
        assert n !in fetched && n !in deleted;
        assert |deleted| == limit;
        SameSizeSubset(taken', taken);
        assert forall x :: x in fetched ==> x in taken';
      }
    }
  }

  /** In particular arrivals no older than the cutoff never matter. */
  lemma TimelyIsBehind(arrivals: seq<Row>, cutoff: Time, batch: seq<Row>, limit: nat)
    requires forall n :: n in arrivals ==> n.timestamp >= cutoff
    ensures Behind(arrivals, cutoff, batch, limit)
  {
  }

  // ---- Deleting --------------------------------------------------------------------------------

  lemma {:induction false} WithoutCounts(rows: seq<Row>, batch: seq<Row>, r: Row)
    ensures Count(Without(rows, batch), r) == if r in batch then 0 else Count(rows, r)
  {
    if rows != [] {
      var n := |rows| - 1;
      WithoutCounts(rows[..n], batch, r);
      assert rows == rows[..n] + [rows[n]];
      CountConcat(rows[..n], [rows[n]], r);
      CountConcat(Without(rows[..n], batch), [rows[n]], r);
    }
  }

  lemma WithoutMembers(rows: seq<Row>, batch: seq<Row>)
    ensures forall r :: r in Without(rows, batch) <==> r in rows && r !in batch
  {
    forall r
      ensures r in Without(rows, batch) <==> r in rows && r !in batch
    {
      WithoutCounts(rows, batch, r);
      assert r in rows <==> Count(rows, r) > 0;
      assert r in Without(rows, batch) <==> Count(Without(rows, batch), r) > 0;
    }
  }

  lemma {:induction false} WithoutKeyed(rows: seq<Row>, batch: seq<Row>)
    requires Keyed(rows)
    ensures Keyed(Without(rows, batch))
  {
    if rows != [] {
      var n := |rows| - 1;
      WithoutKeyed(rows[..n], batch);
      WithoutMembers(rows[..n], batch);
      var rest := Without(rows[..n], batch);
      forall i | 0 <= i < |rest|
        ensures rest[i].auditId != rows[n].auditId
      {
        assert rest[i] in rows[..n];
      }
    }
  }

  lemma KeyedDistinct(rows: seq<Row>)
    requires Keyed(rows)
    ensures Distinct(rows)
  {
  }

  /** Nothing is lost: what was there is what stays and what goes. */
  lemma DeleteConserves(rows: seq<Row>, batch: seq<Row>)
    requires Keyed(rows) && Distinct(batch) && AllIn(batch, rows)
    ensures multiset(rows) == multiset(Without(rows, batch)) + multiset(batch)
  {
    KeyedDistinct(rows);
    forall r
      ensures multiset(rows)[r] == (multiset(Without(rows, batch)) + multiset(batch))[r]
    {
      DistinctCount(batch, r);
      DistinctCount(rows, r);
      WithoutCounts(rows, batch, r);
      assert Count(batch, r) == multiset(batch)[r];
    }
  }

  // ---- Every run of the pruner beside other writers ------------------------------------------------

  datatype Retention = Retention(retention: nat, limit: nat)

  datatype Phase = Idle | Fetched(cutoff: Time, batch: seq<Row>) | Archived(cutoff: Time, batch: seq<Row>)

  /** The store, the pruner's progress, and for the record every row ever written or deleted. */
  datatype Log = Log(
    table: seq<Row>, nextId: nat, phase: Phase, archive: seq<Row>, recorded: seq<Row>, deleted: seq<Row>)

  datatype Step =
    | Record(at: Time, text: string)
    | Fetch(now: Time)
    | Archive(ok: bool, written: nat)
    | Delete
    | Stop

  const EMPTY := Log([], 0, Idle, [], [], [])

  /** One step; the archive may fail after writing part of the batch, and any tick may stop. */
  function Next(cfg: Retention, s: Log, step: Step): Log {
    match (step, s.phase)
    case (Record(at, text), _) =>
      var row := Row(s.nextId, at, text);
      s.(table := s.table + [row], nextId := s.nextId + 1, recorded := s.recorded + [row])
    case (Fetch(now), Idle) =>
      var cutoff := now - cfg.retention;
      var batch := Select(s.table, cutoff, cfg.limit);
      s.(phase := if batch == [] then Archived(cutoff, []) else Fetched(cutoff, batch))
    case (Archive(ok, written), Fetched(cutoff, batch)) =>
      if ok then s.(archive := s.archive + batch, phase := Archived(cutoff, batch))
      else s.(archive := s.archive + Take(batch, written), phase := Idle)
    case (Delete, Archived(cutoff, _)) =>
      var gone := Select(s.table, cutoff, cfg.limit);
      s.(table := Without(s.table, gone), deleted := s.deleted + gone, phase := Idle)
    case (Stop, _) => s.(phase := Idle)
    case _ => s
  }

  /** Rows written while a tick is under way are no older than its cutoff: the clock does not
      step back by the whole retention period. */
  predicate Timely(s: Log, step: Step) {
    step.Record? && !s.phase.Idle? ==> step.at >= s.phase.cutoff
  }

  ghost predicate Inv(cfg: Retention, s: Log) {
    && Keyed(s.table) && (forall r :: r in s.table ==> r.auditId < s.nextId)
    && multiset(s.recorded) == multiset(s.table) + multiset(s.deleted)
    && AllIn(s.deleted, s.archive)
    && (!s.phase.Idle? ==> s.phase.batch == Select(s.table, s.phase.cutoff, cfg.limit))
    && (s.phase.Archived? ==> AllIn(s.phase.batch, s.archive))
  }

  lemma RecordKeeps(cfg: Retention, s: Log, step: Step)
    requires Inv(cfg, s) && step.Record? && Timely(s, step)
    ensures Inv(cfg, Next(cfg, s, step))
  {
    var row := Row(s.nextId, step.at, step.text);
    forall i, j | 0 <= i < j < |s.table + [row]|
      ensures (s.table + [row])[i].auditId != (s.table + [row])[j].auditId
    {
      assert s.table[i] in s.table;
    }
    if !s.phase.Idle? {
      TimelyIsBehind([row], s.phase.cutoff, s.phase.batch, cfg.limit);
      BehindKeepsBatch(s.table, [row], s.phase.cutoff, cfg.limit);
    }
  }

  lemma DeleteKeeps(cfg: Retention, s: Log)
    requires Inv(cfg, s)
    ensures Inv(cfg, Next(cfg, s, Delete))
  {
    if s.phase.Archived? {
      var gone := Select(s.table, s.phase.cutoff, cfg.limit);
      BatchIsOldest(s.table, s.phase.cutoff, cfg.limit);
      WithoutMembers(s.table, gone);
      WithoutKeyed(s.table, gone);
      DeleteConserves(s.table, gone);
    }
  }

  function RunAll(cfg: Retention, steps: seq<Step>): Log {
    if steps == [] then EMPTY else Next(cfg, RunAll(cfg, steps[..|steps| - 1]), steps[|steps| - 1])
  }

  ghost predicate AllTimely(cfg: Retention, steps: seq<Step>) {
    steps == [] ||
    (AllTimely(cfg, steps[..|steps| - 1]) && Timely(RunAll(cfg, steps[..|steps| - 1]), steps[|steps| - 1]))
  }

  lemma OtherStepsKeep(cfg: Retention, s: Log, step: Step)
    requires Inv(cfg, s) && !step.Record? && !step.Delete?
    ensures Inv(cfg, Next(cfg, s, step))
  {
  }

  lemma {:induction false} InvHolds(cfg: Retention, steps: seq<Step>)
    requires AllTimely(cfg, steps)
    ensures Inv(cfg, RunAll(cfg, steps))
  {
    if steps != [] {
      var n := |steps| - 1;
      InvHolds(cfg, steps[..n]);
      var s := RunAll(cfg, steps[..n]);
      if steps[n].Record? {
        RecordKeeps(cfg, s, steps[n]);
      } else if steps[n].Delete? {
        DeleteKeeps(cfg, s);
      } else {
        OtherStepsKeep(cfg, s, steps[n]);
      }
    }
  }

  /** Archive before delete, over every interleaving, failure and crash: no row is deleted that
      is not in the archive, and every row ever written is still stored or in the archive. */
  lemma ArchivedBeforeDeleted(cfg: Retention, steps: seq<Step>)
    requires AllTimely(cfg, steps)
    ensures var s := RunAll(cfg, steps);
            && (forall r :: r in s.deleted ==> r in s.archive)
            && (forall r :: r in s.recorded ==> r in s.table || r in s.archive)
            && multiset(s.recorded) == multiset(s.table) + multiset(s.deleted)
  {
    InvHolds(cfg, steps);
    var s := RunAll(cfg, steps);
    forall r | r in s.recorded
      ensures r in s.table || r in s.archive
    {
      assert r in multiset(s.recorded);
      assert multiset(s.table)[r] + multiset(s.deleted)[r] > 0;
    }
  }

  /** An undisturbed tick archives and deletes exactly the batch it fetched. */
  lemma TickDeletes(cfg: Retention, s: Log, now: Time)
    requires s.phase.Idle?
    ensures var batch := Select(s.table, now - cfg.retention, cfg.limit);
            var fetched := Next(cfg, s, Fetch(now));
            var s' := Next(cfg, Next(cfg, fetched, Archive(true, 0)), Delete);
            && fetched.table == s.table && fetched.archive == s.archive && fetched.deleted == s.deleted
            && s'.archive == s.archive + batch && s'.deleted == s.deleted + batch
            && s'.table == Without(s.table, batch) && s'.recorded == s.recorded && s'.phase.Idle?
  {
    var batch := Select(s.table, now - cfg.retention, cfg.limit);
    assert s.archive + [] == s.archive;
  }

  /** Recording adds its row at any time, under an id of its own. */
  lemma RecordAdds(cfg: Retention, s: Log, at: Time, text: string)
    ensures var s' := Next(cfg, s, Record(at, text));
            && s'.table == s.table + [Row(s.nextId, at, text)] && s'.recorded == s.recorded + [Row(s.nextId, at, text)]
            && s'.archive == s.archive && s'.deleted == s.deleted && s'.phase == s.phase
  {
  }

  // ---- One tick, statement by statement ---------------------------------------------------------

  /** The archive file: append-only, each append durable or raising partway. */
  class ArchiveWriter {
    var lines: seq<Row>
    // Appends that raised, for the record.
    ghost var faults: nat

    method Append(events: seq<Row>) returns (ok: bool)
      modifies this
      ensures old(lines) <= lines && lines <= old(lines) + events
      ensures ok ==> lines == old(lines) + events
      ensures faults == old(faults) + if ok then 0 else 1
    {
      ok := *;
      if ok || events == [] {
        ok, lines := true, lines + events;
      } else {
        var written: nat := *;
        lines, faults := lines + Take(events, written), faults + 1;
      }
    }
  }

  /** Others record rows while the pruner waits; none older than `cutoff`, under fresh ids. */
  method AwaitArrivals(conn: Connection<seq<Row>>, cutoff: Time)
    requires conn.Valid() && Keyed(conn.committed)
    modifies conn
    ensures conn.Valid() && Keyed(conn.committed)
    ensures old(conn.committed) <= conn.committed
    ensures forall i :: |old(conn.committed)| <= i < |conn.committed| ==> conn.committed[i].timestamp >= cutoff
    ensures conn.faults == old(conn.faults)
  {
    var arrivals: seq<Row> := *;
    var all := conn.committed + arrivals;
    if && !conn.inTransaction
       && (forall i :: 0 <= i < |arrivals| ==> arrivals[i].timestamp >= cutoff)
       && (forall i, j :: 0 <= i < j < |all| ==> all[i].auditId != all[j].auditId) {
      conn.committed, conn.working := all, all;
    }
  }

  method FetchOlderThan(conn: Connection<seq<Row>>, mutex: Lock, cutoff: Time, limit: nat)
    returns (r: Result<seq<Row>, UowError>)
    requires conn.Valid() && mutex.Valid() && !mutex.held
    modifies conn, mutex
    ensures conn.Valid() && mutex.Valid() && !mutex.held && conn.committed == old(conn.committed)
    ensures r.Success? ==> r.value == Select(conn.committed, cutoff, limit)
    ensures old(conn.faults) <= conn.faults && (r.Failure? ==> old(conn.faults) < conn.faults)
  {
    var uow := new SqliteUnitOfWork(conn, mutex);
    var begun := uow.Enter();
    if begun.Failure? {
      return Failure(begun.error);
    }
    var ok := Query(conn);
    var batch := Select(conn.working, cutoff, limit);
    var left := uow.Exit(!ok);
    return if !ok then Failure(StatementFailed) else if left.Failure? then Failure(left.error) else Success(batch);
  }

  method DeleteOlderThan(conn: Connection<seq<Row>>, mutex: Lock, cutoff: Time, limit: nat)
    returns (r: Result<nat, UowError>)
    requires conn.Valid() && mutex.Valid() && !mutex.held
    modifies conn, mutex
    ensures conn.Valid() && mutex.Valid() && !mutex.held
    ensures r.Success? ==>
              && conn.committed == Without(old(conn.committed), Select(old(conn.committed), cutoff, limit))
              && r.value == |Select(old(conn.committed), cutoff, limit)|
    ensures r.Failure? ==> conn.committed == old(conn.committed)
    ensures old(conn.faults) <= conn.faults && (r.Failure? ==> old(conn.faults) < conn.faults)
  {
    var uow := new SqliteUnitOfWork(conn, mutex);
    var begun := uow.Enter();
    if begun.Failure? {
      return Failure(begun.error);
    }
    var ok := Query(conn);
    var batch := Select(conn.working, cutoff, limit);
    if ok {
      conn.working := Without(conn.working, batch);
    }
    var left := uow.Exit(!ok);
    return if !ok then Failure(StatementFailed) else if left.Failure? then Failure(left.error) else Success(|batch|);
  }

  /** What a tick that fetched from `start` finds at its delete. */
  lemma DeleteMeetsFetch(start: seq<Row>, met: seq<Row>, cutoff: Time, limit: nat)
    requires start <= met && Keyed(met) && Keyed(start)
    requires forall i :: |start| <= i < |met| ==> met[i].timestamp >= cutoff
    ensures Select(met, cutoff, limit) == Select(start, cutoff, limit)
    ensures Select(met, cutoff, limit) == [] ==> Without(met, Select(met, cutoff, limit)) == met
    ensures forall r :: r in met ==> r in Without(met, Select(met, cutoff, limit)) || r in Select(start, cutoff, limit)
  {
    var arrivals := met[|start|..];
    assert met == start + arrivals;
    assert forall i :: 0 <= i < |arrivals| ==> arrivals[i] == met[|start| + i];
    TimelyIsBehind(arrivals, cutoff, Select(start, cutoff, limit), limit);
    BehindKeepsBatch(start, arrivals, cutoff, limit);
    WithoutMembers(met, Select(met, cutoff, limit));
    WithoutNothing(met);
  }

  function Quota(expired: nat, limit: nat): nat {
    if expired <= limit then expired else limit
  }

  /** Every row of `met` is still stored or in the archive. */
  ghost predicate NothingLost(met: seq<Row>, table: seq<Row>, archive: seq<Row>) {
    forall r :: r in met ==> r in table || r in archive
  }

  lemma BatchQuota(rows: seq<Row>, cutoff: Time, limit: nat)
    requires Keyed(rows)
    ensures |Select(rows, cutoff, limit)| == Quota(|Older(rows, cutoff)|, limit)
  {
    BatchIsOldest(rows, cutoff, limit);
  }

  /** The first unit of work and the archive: the batch, once it is in the archive. */
  method FetchAndArchive(conn: Connection<seq<Row>>, mutex: Lock, writer: ArchiveWriter, cutoff: Time, limit: nat)
    returns (r: Result<Option<seq<Row>>, UowError>)
    requires conn.Valid() && mutex.Valid() && !mutex.held
    modifies conn, mutex, writer
    ensures conn.Valid() && mutex.Valid() && !mutex.held
    ensures conn.committed == old(conn.committed) && old(writer.lines) <= writer.lines
    ensures r.Success? && r.value.Some? ==>
              && r.value.value == Select(conn.committed, cutoff, limit)
              && writer.lines == old(writer.lines) + r.value.value
    ensures old(conn.faults) <= conn.faults && (r.Failure? ==> old(conn.faults) < conn.faults)
    ensures r == Success(None) ==> old(writer.faults) < writer.faults
  {
    var fetched := FetchOlderThan(conn, mutex, cutoff, limit);
    if fetched.Failure? {
      return Failure(fetched.error);
    }
    var expired := fetched.value;
    if expired != [] {
      var ok := writer.Append(expired);
      if !ok {
        return Success(None);
      }
    }
    return Success(Some(expired));
  }

  /** `n` rows were deleted from `met`: the oldest min(limit, expired) of the table at the start. */
  ghost predicate Pruned(start: seq<Row>, met: seq<Row>, table: seq<Row>, cutoff: Time, limit: nat, n: nat) {
    var batch := Select(start, cutoff, limit);
    table == Without(met, batch) && n == |batch| == Quota(|Older(start, cutoff)|, limit)
  }

  /** The second unit of work, after the wait: it deletes exactly the fetched batch. */
  method DeleteFetched(conn: Connection<seq<Row>>, mutex: Lock, cutoff: Time, limit: nat)
    returns (r: Result<nat, UowError>, ghost met: seq<Row>)
    requires conn.Valid() && mutex.Valid() && !mutex.held && Keyed(conn.committed)
    modifies conn, mutex
    ensures conn.Valid() && mutex.Valid() && !mutex.held && old(conn.committed) <= met
    ensures r.Failure? || r == Success(0) ==> conn.committed == met
    ensures r.Success? ==> Pruned(old(conn.committed), met, conn.committed, cutoff, limit, r.value)
    ensures NothingLost(met, conn.committed, Select(old(conn.committed), cutoff, limit))
    ensures old(conn.faults) <= conn.faults && (r.Failure? ==> old(conn.faults) < conn.faults)
  {
    BatchQuota(conn.committed, cutoff, limit);
    AwaitArrivals(conn, cutoff);
    met := conn.committed;
    DeleteMeetsFetch(old(conn.committed), met, cutoff, limit);
    r := DeleteOlderThan(conn, mutex, cutoff, limit);
  }

  /** The tick with a writer: nothing is deleted unless the whole batch was appended first. */
  method ArchiveAndDelete(conn: Connection<seq<Row>>, mutex: Lock, writer: ArchiveWriter, cutoff: Time, limit: nat)
    returns (r: Result<nat, UowError>, ghost met: seq<Row>)
    requires conn.Valid() && mutex.Valid() && !mutex.held && Keyed(conn.committed)
    modifies conn, mutex, writer
    ensures conn.Valid() && mutex.Valid() && !mutex.held
    ensures old(conn.committed) <= met && old(writer.lines) <= writer.lines
    ensures r.Failure? || r == Success(0) ==> conn.committed == met
    ensures r.Success? && (r.value > 0 || writer.faults == old(writer.faults)) ==>
              && Pruned(old(conn.committed), met, conn.committed, cutoff, limit, r.value)
              && writer.lines == old(writer.lines) + Select(old(conn.committed), cutoff, limit)
    ensures NothingLost(met, conn.committed, writer.lines)
    ensures r.Failure? ==> old(conn.faults) < conn.faults
  {
    met := conn.committed;
    var archived := FetchAndArchive(conn, mutex, writer, cutoff, limit);
    if archived.Failure? {
      return Failure(archived.error), met;
    }
    if archived.value.None? {
      return Success(0), met;
    }
    r, met := DeleteFetched(conn, mutex, cutoff, limit);
    StillNothingLost(met, conn.committed, old(writer.lines), archived.value.value);
  }

  /** One tick, with or without an archive writer, others recording rows meanwhile (`met` is the
      table the delete found). It deletes exactly the oldest min(limit, expired) rows of the table
      it started from, all of them now archived if there is a writer, unless the archive or the
      database fails: then nothing is deleted. */
  method RunOnce(conn: Connection<seq<Row>>, mutex: Lock, writer: ArchiveWriter?, now: Time, retention: nat, limit: nat)
    returns (r: Result<nat, UowError>, ghost met: seq<Row>)
    requires conn.Valid() && mutex.Valid() && !mutex.held && Keyed(conn.committed)
    modifies conn, mutex, writer
    ensures conn.Valid() && mutex.Valid() && !mutex.held
    ensures old(conn.committed) <= met
    ensures r.Failure? || r == Success(0) ==> conn.committed == met
    ensures r.Success? && (r.value > 0 || writer == null || writer.faults == old(writer.faults)) ==>
              Pruned(old(conn.committed), met, conn.committed, now - retention, limit, r.value)
    ensures r.Failure? ==> old(conn.faults) < conn.faults
    ensures writer != null ==>
              && old(writer.lines) <= writer.lines
              && NothingLost(met, conn.committed, writer.lines)
              && (r.Success? && r.value > 0 ==>
                    writer.lines == old(writer.lines) + Select(old(conn.committed), now - retention, limit))
  {
    var cutoff := now - retention;
    if writer == null {
      r, met := DeleteFetched(conn, mutex, cutoff, limit);
    } else {
      r, met := ArchiveAndDelete(conn, mutex, writer, cutoff, limit);
    }
  }

  lemma StillNothingLost(met: seq<Row>, table: seq<Row>, lines: seq<Row>, batch: seq<Row>)
    requires NothingLost(met, table, batch)
    ensures NothingLost(met, table, lines + batch)
  {
  }

  lemma {:induction false} WithoutNothing(rows: seq<Row>)
    ensures Without(rows, []) == rows
  {
    if rows != [] {
      WithoutNothing(rows[..|rows| - 1]);
    }
  }
}
