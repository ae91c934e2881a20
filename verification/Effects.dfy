/** What one unit of work can and cannot change: the frame facts the invariants and the
    rely conditions are built from. */
module Effects {
  import opened Wrappers
  import opened Sequences
  import opened RunStates
  import opened Database
  import opened Outbox
  import opened Transactions

  // ---- The audit history -------------------------------------------------------------

  /** The events one unit of work adds. */
  function Recorded(policy: Policy, db: Db, tx: Tx): seq<AuditEvent> {
    var db' := Commit(policy, db, tx);
    if |db.audit| <= |db'.audit| then db'.audit[|db.audit|..] else []
  }

  lemma AuditExtends(policy: Policy, db: Db, tx: Tx)
    ensures Commit(policy, db, tx).audit == db.audit + Recorded(policy, db, tx)
  {
  }

  /** Only orphaning and finishing write SWEEP_ORPHAN and SEND_REPORT rows, of their own run. */
  lemma RecordedKinds(policy: Policy, db: Db, tx: Tx)
    ensures forall e :: e in Recorded(policy, db, tx) ==>
              && (e.SweepOrphan? ==> tx.Orphan? && e.run == tx.run)
              && (e.SendReport? ==> (tx.FinishSent? || tx.FinishFailed?) && e.run == tx.run)
  {
    var db' := Commit(policy, db, tx);
    if Apply(policy, db, tx).Success? {
      match tx
      case Abandon(now) =>
        assert Recorded(policy, db, tx) == AbandonEvents(db.outbox, ExhaustedBatch(policy, db.outbox, now), now);
      case Claim(_) =>
      case Settle(_, _, _) =>
      case _ =>
        assert Recorded(policy, db, tx) == [db'.audit[|db.audit|]];
    }
  }

  lemma SendOutcomesKept(policy: Policy, db: Db, tx: Tx, run: string)
    requires tx.FinishSent? || tx.FinishFailed? ==> tx.run != run
    ensures SendOutcomes(Commit(policy, db, tx).audit, run) == SendOutcomes(db.audit, run)
  {
    AuditExtends(policy, db, tx);
    RecordedKinds(policy, db, tx);
    CollectNothing(db.audit, Recorded(policy, db, tx), SendOutcomeOf(run));
  }

  // ---- Batches -----------------------------------------------------------------------

  /** A claim's batch: distinct rows, none of them settled. The fresh ones were never claimed;
      the stuck ones were, have attempts left, and are not the ones just stamped. */
  lemma ClaimBatch(policy: Policy, rows: seq<OutboxRow>, now: Time)
    ensures Distinct(ClaimedIds(policy, rows, now))
    ensures forall id :: id in FreshBatch(policy, rows) ==> id < |rows| && rows[id].claimedAt.None?
    ensures forall id :: id in StuckBatch(policy, rows, now) ==>
              && id < |rows| && rows[id].claimedAt.Some? && rows[id].completedAt.None?
              && rows[id].attempts < policy.maxAttempts
              && id !in FreshBatch(policy, rows)
  {
    var stamped := FreshBatch(policy, rows);
    EnqueuedOrderTotal(rows, Unclaimed());
    BatchIsPrefix(rows, Unclaimed(), ByEnqueued(rows), policy.batchLimit);
    var rows1 := Update(rows, stamped, ClaimAt(now));
    var stuck := StuckBatch(policy, rows, now);
    if |stamped| < policy.batchLimit {
      var filter := StuckBelow(now - policy.staleAfter, policy.maxAttempts);
      ClaimedOrderTotal(rows1, filter);
      BatchIsPrefix(rows1, filter, ByClaimed(rows1), policy.batchLimit - |stamped|);
      forall id | id in stuck
        ensures id < |rows| && id !in stamped && rows1[id] == rows[id]
      {
        assert filter(rows1[id]);
      }
    }
    var ids := stamped + stuck;
    forall i, j | 0 <= i < j < |ids|
      ensures ids[i] != ids[j]
    {
      assert i < |stamped| ==> ids[i] in stamped;
      assert |stamped| <= j ==> ids[j] == stuck[j - |stamped|] && ids[j] in stuck;
      if |stamped| <= i {
        assert ids[i] == stuck[i - |stamped|];
      }
    }
  }

  /** What a claim does to each row. */
  lemma ClaimEffect(policy: Policy, rows: seq<OutboxRow>, now: Time, id: nat)
    requires id < |rows|
    ensures |ClaimedRows(policy, rows, now)| == |rows|
    ensures ClaimedRows(policy, rows, now)[id]
         == if id in FreshBatch(policy, rows) then ClaimAt(now)(rows[id])
            else if id in StuckBatch(policy, rows, now) then ReclaimAt(now)(rows[id])
            else rows[id]
  {
    ClaimBatch(policy, rows, now);
  }

  /** A claim settles nothing, and takes no settled row. */
  lemma ClaimCompletes(policy: Policy, rows: seq<OutboxRow>, now: Time, id: nat)
    requires id < |rows| && (rows[id].claimedAt.None? ==> rows[id].completedAt.None?)
    ensures |ClaimedRows(policy, rows, now)| == |rows|
    ensures ClaimedRows(policy, rows, now)[id].completedAt == rows[id].completedAt
    ensures rows[id].completedAt.Some? ==> id !in ClaimedIds(policy, rows, now)
  {
    ClaimBatch(policy, rows, now);
    ClaimEffect(policy, rows, now, id);
  }

  // ---- The outbox ----------------------------------------------------------------------

  /** Outside orphaning, rows keep their run, action and enqueue time, and stay claimed. */
  lemma RowsKept(policy: Policy, db: Db, tx: Tx, id: nat)
    requires !tx.Orphan? && id < |db.outbox|
    ensures var rows' := Commit(policy, db, tx).outbox;
            && |rows'| == |db.outbox|
            && rows'[id].run == db.outbox[id].run && rows'[id].action == db.outbox[id].action
            && rows'[id].enqueuedAt == db.outbox[id].enqueuedAt
            && (rows'[id].claimedAt.Some? <==>
                  || db.outbox[id].claimedAt.Some?
                  || (tx.Claim? && Apply(policy, db, tx).Success? && id in FreshBatch(policy, db.outbox)))
  {
    if Apply(policy, db, tx).Success? && tx.Claim? {
      ClaimEffect(policy, db.outbox, tx.now, id);
      ClaimBatch(policy, db.outbox, tx.now);
    }
  }

  lemma ActionsKept(policy: Policy, db: Db, tx: Tx, run: string)
    requires tx.Orphan? ==> tx.run != run
    ensures ActionsOf(Commit(policy, db, tx).outbox, run) == ActionsOf(db.outbox, run)
  {
    var db' := Commit(policy, db, tx);
    if tx.Orphan? {
      if Apply(policy, db, tx).Success? {
        NewRowsActions(db.outbox, tx.run, ResolveActions(policy, db.runs[tx.run].info.pipeline), tx.now, run);
      }
    } else {
      forall id | 0 <= id < |db.outbox|
        ensures |db'.outbox| == |db.outbox|
        ensures db'.outbox[id].run == db.outbox[id].run && db'.outbox[id].action == db.outbox[id].action
      {
        RowsKept(policy, db, tx, id);
      }
      if db.outbox == [] {
        assert db'.outbox == [];
      }
      UpdateKeepsActions(db.outbox, db'.outbox, run);
    }
  }

  // ---- Runs and stages -----------------------------------------------------------------

  /** A run, once begun, keeps its declaration; past collecting, its stage rows are frozen. */
  lemma RunKept(policy: Policy, db: Db, tx: Tx, run: string)
    requires run in db.runs
    ensures var db' := Commit(policy, db, tx);
            && run in db'.runs && db'.runs[run].info == db.runs[run].info
            && (db'.runs[run].state == db.runs[run].state || CanTransition(db.runs[run].state, db'.runs[run].state))
            && (run in db.stages ==> run in db'.stages)
            && (run in db.stages && !Collecting(db.runs[run].state) ==> db'.stages[run] == db.stages[run])
  {
  }

  /** Only the sweeper orphans, and only beginning a run creates one. */
  lemma RunsOnlyMovedBy(policy: Policy, db: Db, tx: Tx, run: string)
    ensures var db' := Commit(policy, db, tx);
            && (run in db'.runs && run !in db.runs ==> tx.Begin? && tx.run == run)
            && (BecameOrphaned(db, db', run) ==> tx.Orphan? && tx.run == run)
  {
  }

  predicate BecameOrphaned(db: Db, db': Db, run: string) {
    && run in db.runs && run in db'.runs
    && !db.runs[run].state.Orphaned? && db'.runs[run].state.Orphaned?
  }
}
