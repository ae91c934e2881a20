/** The transactional scope of persistence/unit_of_work.py: one shared connection, one
    shared lock, and COMMIT, ROLLBACK and BEGIN that may each fail. */
module UnitOfWork {
  import opened Wrappers

  datatype UowError = NotReentrant | BeginFailed | StatementFailed | CommitFailed | RollbackFailed | AlreadyFinalized

  /** The factory's lock, with a ledger of how often it was taken and given back. */
  class Lock {
    var held: bool
    ghost var acquired: nat
    ghost var released: nat

    ghost predicate Valid()
      reads this
    {
      acquired == released + if held then 1 else 0
    }

    constructor ()
      ensures Valid() && !held && acquired == 0
    {
      held, acquired, released := false, 0, 0;
    }

    /** Waiting is over: the lock is free when the awaiting task is resumed. */
    method Acquire()
      requires Valid() && !held
      modifies this
      ensures Valid() && held && acquired == old(acquired) + 1
    {
      held, acquired := true, acquired + 1;
    }

    method Release()
      requires Valid() && held
      modifies this
      ensures Valid() && !held && released == old(released) + 1
    {
      held, released := false, released + 1;
    }
  }

  /** The shared SQLite connection: the durable database, and the database as the open
      transaction sees it. Any statement may fail; BEGIN must fail inside a transaction. Of the
      task at hand, `faults` counts the operations that failed, for the record. */
  class Connection<D> {
    var committed: D
    var working: D
    var inTransaction: bool
    ghost var faults: nat

    ghost predicate Valid()
      reads this
    {
      !inTransaction ==> working == committed
    }

    constructor (initial: D)
      ensures Valid() && !inTransaction && committed == initial && faults == 0
    {
      committed, working, inTransaction, faults := initial, initial, false, 0;
    }

    method Begin() returns (ok: bool)
      requires Valid()
      modifies this
      ensures Valid() && committed == old(committed) && working == old(working)
      ensures inTransaction == (old(inTransaction) || ok)
      ensures old(inTransaction) ==> !ok
      ensures faults == old(faults) + if ok then 0 else 1
    {
      ok := *;
      if inTransaction {
        ok := false;
      }
      if ok {
        inTransaction := true;
      } else {
        faults := faults + 1;
      }
    }

    method Commit() returns (ok: bool)
      requires Valid()
      modifies this
      ensures Valid() && working == old(working)
      ensures if ok then !inTransaction && committed == old(working)
              else inTransaction == old(inTransaction) && committed == old(committed)
      ensures faults == old(faults) + if ok then 0 else 1
    {
      ok := *;
      if ok {
        committed, inTransaction := working, false;
      } else {
        faults := faults + 1;
      }
    }

    method Rollback() returns (ok: bool)
      requires Valid()
      modifies this
      ensures Valid() && committed == old(committed)
      ensures if ok then !inTransaction
              else inTransaction == old(inTransaction) && working == old(working)
      ensures faults == old(faults) + if ok then 0 else 1
    {
      ok := *;
      if ok {
        working, inTransaction := committed, false;
      } else {
        faults := faults + 1;
      }
    }
  }

  /** Whether the next statement runs: any may fail. */
  method Query<D>(conn: Connection<D>) returns (ok: bool)
    modifies conn`faults
    ensures conn.faults == old(conn.faults) + if ok then 0 else 1
  {
    ok := *;
    if !ok {
      conn.faults := conn.faults + 1;
    }
  }

  class SqliteUnitOfWork<D> {
    const conn: Connection<D>
    const mutex: Lock
    var entered: bool
    var finalized: bool
    var lockHeld: bool

    ghost predicate Valid()
      reads this, conn, mutex
    {
      && conn.Valid() && mutex.Valid()
      && (lockHeld ==> entered && !finalized && mutex.held)
      && (finalized ==> entered)
    }

    /** Inside the block, before any explicit commit or rollback succeeded. */
    ghost predicate Open()
      reads this
    {
      entered && lockHeld
    }

    /** The commit or rollback inside the block succeeded. */
    ghost predicate Finalized()
      reads this
    {
      finalized && !lockHeld
    }

    constructor (conn: Connection<D>, mutex: Lock)
      requires conn.Valid() && mutex.Valid()
      ensures Valid() && !entered && !finalized && !lockHeld
      ensures this.conn == conn && this.mutex == mutex
    {
      this.conn, this.mutex := conn, mutex;
      entered, finalized, lockHeld := false, false, false;
    }

    method ReleaseLock()
      requires mutex.Valid() && (lockHeld ==> mutex.held)
      modifies this`lockHeld, mutex
      ensures mutex.Valid() && !lockHeld
      ensures mutex.released == old(mutex.released) + if old(lockHeld) then 1 else 0
      ensures mutex.held == (old(mutex.held) && !old(lockHeld))
      ensures mutex.acquired == old(mutex.acquired)
    {
      if lockHeld {
        lockHeld := false;
        mutex.Release();
      }
    }

    /** `__aenter__`. A refused BEGIN leaves the lock free and nothing written. */
    method Enter() returns (r: Result<(), UowError>)
      requires Valid() && (entered || !mutex.held)
      modifies this, conn, mutex
      ensures Valid() && entered && conn.committed == old(conn.committed) && conn.working == old(conn.working)
      ensures old(entered) ==> r == Failure(NotReentrant)
      ensures r == Failure(NotReentrant) ==>
                old(entered) && unchanged(this) && unchanged(conn) && unchanged(mutex)
      ensures r.Success? ==>
                && !old(conn.inTransaction) && conn.inTransaction && Open() && !finalized
                && mutex.acquired == old(mutex.acquired) + 1 && mutex.released == old(mutex.released)
      ensures r == Failure(BeginFailed) ==>
                && !lockHeld && !mutex.held && !finalized
                && conn.inTransaction == old(conn.inTransaction)
                && mutex.acquired == old(mutex.acquired) + 1 && mutex.released == old(mutex.released) + 1
      ensures r.Success? || r == Failure(NotReentrant) || r == Failure(BeginFailed)
      ensures conn.faults == old(conn.faults) + if r == Failure(BeginFailed) then 1 else 0
    {
      if entered {
        return Failure(NotReentrant);
      }
      entered := true;
      mutex.Acquire();
      lockHeld := true;
      var ok := conn.Begin();
      if !ok {
        ReleaseLock();
        return Failure(BeginFailed);
      }
      return Success(());
    }

    /** Explicit `commit()`: on failure both flags stay, so that the exit can clean up. */
    method Commit() returns (r: Result<(), UowError>)
      requires Valid() && (Open() || Finalized())
      modifies this, conn, mutex
      ensures Valid() && conn.working == old(conn.working)
      ensures old(Finalized()) ==> r == Failure(AlreadyFinalized)
      ensures r.Success? ==>
                && Finalized() && !mutex.held && !conn.inTransaction
                && conn.committed == old(conn.working)
                && mutex.released == old(mutex.released) + 1
      ensures r.Failure? ==>
                && r.error == (if old(Finalized()) then AlreadyFinalized else CommitFailed)
                && unchanged(this) && unchanged(mutex)
                && conn.committed == old(conn.committed) && conn.inTransaction == old(conn.inTransaction)
      ensures conn.faults == old(conn.faults) + if r == Failure(CommitFailed) then 1 else 0
      ensures mutex.acquired == old(mutex.acquired) && entered == old(entered)
    {
      if finalized {
        return Failure(AlreadyFinalized);
      }
      var ok := conn.Commit();
      if !ok {
        return Failure(CommitFailed);
      }
      var held := lockHeld;
      ReleaseLock();
      finalized := true;
      assert held;
      return Success(());
    }

    /** Explicit `rollback()`, symmetric to `commit()`. */
    method Rollback() returns (r: Result<(), UowError>)
      requires Valid() && (Open() || Finalized())
      modifies this, conn, mutex
      ensures Valid() && conn.committed == old(conn.committed)
      ensures old(Finalized()) ==> r == Failure(AlreadyFinalized)
      ensures r.Success? ==>
                && Finalized() && !mutex.held && !conn.inTransaction
                && mutex.released == old(mutex.released) + 1
      ensures r.Failure? ==>
                && r.error == (if old(Finalized()) then AlreadyFinalized else RollbackFailed)
                && unchanged(this) && unchanged(mutex) && conn.working == old(conn.working)
                && conn.committed == old(conn.committed) && conn.inTransaction == old(conn.inTransaction)
      ensures conn.faults == old(conn.faults) + if r == Failure(RollbackFailed) then 1 else 0
      ensures mutex.acquired == old(mutex.acquired) && entered == old(entered)
    {
      if finalized {
        return Failure(AlreadyFinalized);
      }
      var ok := conn.Rollback();
      if !ok {
        return Failure(RollbackFailed);
      }
      ReleaseLock();
      finalized := true;
      return Success(());
    }

    /** `__aexit__`. Whatever fails, the lock is given back exactly once and the durable
        database is either the one the block built or untouched. A transaction is left
        open only when ROLLBACK itself failed. */
    method Exit(raised: bool) returns (r: Result<(), UowError>)
      requires Valid() && (Open() || Finalized())
      modifies this, conn, mutex
      ensures Valid() && !lockHeld
      ensures old(Finalized()) ==>
                r.Success? && unchanged(this) && unchanged(conn) && unchanged(mutex)
      ensures old(Open()) ==> !mutex.held && mutex.released == old(mutex.released) + 1
      ensures mutex.acquired == old(mutex.acquired)
      ensures old(Open()) && raised ==> r.Success? && conn.committed == old(conn.committed)
      ensures old(Open()) && !raised && r.Success? ==>
                conn.committed == old(conn.working) && !conn.inTransaction
      ensures r.Failure? ==>
                r.error == CommitFailed && !raised && conn.committed == old(conn.committed)
      // Nothing fails, and no transaction stays open, unless an operation failed.
      ensures old(conn.faults) <= conn.faults && (r.Failure? ==> old(conn.faults) < conn.faults)
      ensures old(Open()) && conn.inTransaction ==> old(conn.faults) + (if raised then 1 else 2) <= conn.faults
      ensures old(Open()) && !raised && conn.faults == old(conn.faults) ==> conn.committed == old(conn.working)
    {
      if finalized {
        return Success(());
      }
      r := Success(());
      if raised {
        var _ := conn.Rollback();
      } else {
        var ok := conn.Commit();
        if !ok {
          var _ := conn.Rollback();
          r := Failure(CommitFailed);
        }
      }
      ReleaseLock();
    }
  }

  // ---- One whole `async with` block ------------------------------------------

  /** What a block does: a write (which may raise), or an explicit commit or rollback whose
      own failure propagates out of the block. */
  datatype Op<!D> = Write(f: D -> Option<D>) | CommitNow | RollbackNow

  /** The database the block would leave durable if no COMMIT or ROLLBACK failed. */
  function Intended<D>(start: D, current: D, ops: seq<Op<D>>): D
    decreases |ops|
  {
    if ops == [] then current
    else match ops[0]
      case CommitNow => current
      case RollbackNow => start
      case Write(f) => if f(current).None? then start else Intended(start, f(current).value, ops[1..])
  }

  /** One of the block's writes raises, before any explicit commit or rollback. */
  predicate Raises<D>(current: D, ops: seq<Op<D>>)
    decreases |ops|
  {
    ops != [] && ops[0].Write? && (ops[0].f(current).None? || Raises(ops[0].f(current).value, ops[1..]))
  }

  /** The working database after these operations, if all of them are writes and none raises. */
  function AfterWrites<D>(current: D, ops: seq<Op<D>>): Option<D>
    decreases |ops|
  {
    if ops == [] then Some(current)
    else match ops[0]
      case Write(f) => if f(current).None? then None else AfterWrites(f(current).value, ops[1..])
      case _ => None
  }

  /** A block, whatever it holds, stops at some first operation that is not a plain write that
      succeeds, or runs through. */
  lemma {:induction false} StopsSomewhere<D>(current: D, ops: seq<Op<D>>) returns (k: nat)
    ensures k <= |ops| && AfterWrites(current, ops[..k]).Some?
    ensures k == |ops| || !ops[k].Write? || ops[k].f(AfterWrites(current, ops[..k]).value).None?
    decreases |ops|
  {
    k := 0;
    if ops != [] && ops[0].Write? && ops[0].f(current).Some? {
      var rest := StopsSomewhere(ops[0].f(current).value, ops[1..]);
      k := rest + 1;
      assert ops[..k][1..] == ops[1..][..rest];
    }
  }

  /** What any block leaves durable: with `k` its first operation that is not a write that
      succeeds, all it wrote if there is none or if that is the explicit commit, whatever is
      raised after it; else, rolling back or raising, what it started from. */
  lemma {:induction false} RowSurvivesRaiseIfCommitted<D>(start: D, current: D, ops: seq<Op<D>>, k: nat)
    requires k <= |ops| && AfterWrites(current, ops[..k]).Some?
    requires k == |ops| || !ops[k].Write? || ops[k].f(AfterWrites(current, ops[..k]).value).None?
    ensures Intended(start, current, ops)
         == if k == |ops| || ops[k].CommitNow? then AfterWrites(current, ops[..k]).value else start
    ensures Raises(current, ops) <==> k < |ops| && ops[k].Write?
    decreases |ops|
  {
    if k > 0 {
      assert ops[..k][1..] == ops[1..][..k - 1];
      RowSurvivesRaiseIfCommitted(start, ops[0].f(current).value, ops[1..], k - 1);
    }
  }

  /** Runs one block to its end, whatever fails. The block is over at its first explicit
      commit or rollback: using the repositories after that is the caller's error. */
  method RunBlock<D>(conn: Connection<D>, mutex: Lock, ops: seq<Op<D>>) returns (ok: bool)
    requires conn.Valid() && mutex.Valid() && !mutex.held
    modifies conn, mutex
    ensures conn.Valid() && mutex.Valid() && !mutex.held
    ensures mutex.acquired == old(mutex.acquired) + 1 && mutex.released == old(mutex.released) + 1
    // Durable data is what the whole block intended, or untouched.
    ensures conn.committed == old(conn.committed)
         || conn.committed == Intended(old(conn.committed), old(conn.committed), ops)
    ensures ok ==> conn.committed == Intended(old(conn.committed), old(conn.committed), ops)
    // Leftovers of an earlier block whose rollback failed are never made durable.
    ensures old(conn.inTransaction) ==>
              !ok && conn.committed == old(conn.committed) && conn.inTransaction
    // Without a failing operation the block ends as intended, and leaves nothing open.
    ensures old(conn.faults) <= conn.faults
    ensures conn.faults == old(conn.faults) ==>
              && !conn.inTransaction && conn.committed == Intended(old(conn.committed), old(conn.committed), ops)
              && (ok <==> !Raises(old(conn.committed), ops))
  {
    var uow := new SqliteUnitOfWork(conn, mutex);
    var begun := uow.Enter();
    if begun.Failure? {
      return false;
    }
    ghost var start := conn.committed;
    var i := 0;
    while i < |ops|
      invariant 0 <= i <= |ops|
      invariant uow.Valid() && uow.Open() && uow.conn == conn && uow.mutex == mutex
      invariant conn.committed == start && conn.inTransaction
      invariant mutex.acquired == old(mutex.acquired) + 1 && mutex.released == old(mutex.released)
      invariant Intended(start, start, ops) == Intended(start, conn.working, ops[i..])
      invariant Raises(start, ops) == Raises(conn.working, ops[i..]) && conn.faults == old(conn.faults)
    {
      match ops[i]
      case Write(f) =>
        var next := f(conn.working);
        if next.None? {
          var _ := uow.Exit(true);
          return false;
        }
        conn.working := next.value;
        i := i + 1;
      case CommitNow =>
        var done := uow.Commit();
        var _ := uow.Exit(done.Failure?);
        return done.Success?;
      case RollbackNow =>
        var done := uow.Rollback();
        var _ := uow.Exit(done.Failure?);
        return done.Success?;
    }
    var left := uow.Exit(false);
    return left.Success?;
  }

  /** Any number of blocks, one after another, with any failures: the lock balances, and
      every durable database is an intended outcome of one block run on the durable
      database before it. */
  method RunBlocks<D>(conn: Connection<D>, mutex: Lock, blocks: seq<seq<Op<D>>>)
    returns (durable: seq<D>)
    requires conn.Valid() && mutex.Valid() && !mutex.held
    modifies conn, mutex
    ensures !mutex.held && mutex.acquired == old(mutex.acquired) + |blocks|
    ensures mutex.released == old(mutex.released) + |blocks|
    ensures |durable| == |blocks| + 1 && durable[0] == old(conn.committed)
    ensures durable[|blocks|] == conn.committed
    ensures forall k :: 0 <= k < |blocks| ==>
              durable[k + 1] == durable[k] || durable[k + 1] == Intended(durable[k], durable[k], blocks[k])
    ensures old(conn.faults) <= conn.faults
    ensures conn.faults == old(conn.faults) ==> forall k :: 0 <= k < |blocks| ==>
              durable[k + 1] == Intended(durable[k], durable[k], blocks[k])
  {
    durable := [conn.committed];
    for k := 0 to |blocks|
      invariant conn.Valid() && mutex.Valid() && !mutex.held
      invariant mutex.acquired == old(mutex.acquired) + k && mutex.released == old(mutex.released) + k
      invariant |durable| == k + 1 && durable[0] == old(conn.committed) && durable[k] == conn.committed
      invariant forall j :: 0 <= j < k ==>
                  durable[j + 1] == durable[j] || durable[j + 1] == Intended(durable[j], durable[j], blocks[j])
      invariant old(conn.faults) <= conn.faults
      invariant conn.faults == old(conn.faults) ==> forall j :: 0 <= j < k ==>
                  durable[j + 1] == Intended(durable[j], durable[j], blocks[j])
    {
      var _ := RunBlock(conn, mutex, blocks[k]);
      durable := durable + [conn.committed];
    }
  }
}
