/** The outbox hand-off: orphaning a run and enqueueing its disposition actions happen
    together, exactly once, and the actions are first claimed in their configured order. */
module HandOff {
  import opened Wrappers
  import opened Sequences
  import opened RunStates
  import opened Database
  import opened Outbox
  import opened Transactions
  import opened AuditReplay
  import opened Effects

  // ---- Exactly once --------------------------------------------------------------

  function PendingListOf(run: string): AuditEvent -> Option<set<string>> {
    (e: AuditEvent) => if e.SweepOrphan? && e.run == run then Some(e.pending) else None
  }

  /** The `pending_stage_ids` of the run's SWEEP_ORPHAN rows, oldest first. */
  function PendingLists(audit: seq<AuditEvent>, run: string): seq<set<string>> {
    Collect(audit, PendingListOf(run))
  }

  /** An orphaned run has one SWEEP_ORPHAN row; it lists exactly the run's outbox rows, which
      are its pipeline's configured actions in order, and exactly the stages that never
      reported. Any other run has neither. */
  ghost predicate HandedOff(policy: Policy, db: Db, run: string) {
    if run in db.runs && db.runs[run].state.Orphaned? then
      && OrphanLists(db.audit, run) == [ActionsOf(db.outbox, run)]
      && ActionsOf(db.outbox, run) == ResolveActions(policy, db.runs[run].info.pipeline)
      && run in db.stages
      && PendingLists(db.audit, run) == [PendingStages(db.stages[run])]
    else
      OrphanLists(db.audit, run) == [] && ActionsOf(db.outbox, run) == [] && PendingLists(db.audit, run) == []
  }

  ghost predicate AllHandedOff(policy: Policy, db: Db) {
    forall run :: HandedOff(policy, db, run)
  }

  /** Nothing the hand-off depends on has changed for `run`. */
  ghost predicate SameHandOff(db: Db, db': Db, run: string) {
    && (run in db.runs <==> run in db'.runs)
    && (run in db.runs ==> db.runs[run].info == db'.runs[run].info)
    && (run in db.runs ==> (db.runs[run].state.Orphaned? <==> db'.runs[run].state.Orphaned?))
    && (run in db.runs && db.runs[run].state.Orphaned? && run in db.stages ==>
          run in db'.stages && db.stages[run] == db'.stages[run])
    && OrphanLists(db.audit, run) == OrphanLists(db'.audit, run)
    && PendingLists(db.audit, run) == PendingLists(db'.audit, run)
    && ActionsOf(db.outbox, run) == ActionsOf(db'.outbox, run)
  }

  lemma HandOffListsKept(policy: Policy, db: Db, tx: Tx, run: string)
    requires tx.Orphan? ==> tx.run != run
    ensures var db' := Commit(policy, db, tx);
            && OrphanLists(db.audit, run) == OrphanLists(db'.audit, run)
            && PendingLists(db.audit, run) == PendingLists(db'.audit, run)
  {
    AuditExtends(policy, db, tx);
    RecordedKinds(policy, db, tx);
    CollectNothing(db.audit, Recorded(policy, db, tx), OrphanListOf(run));
    CollectNothing(db.audit, Recorded(policy, db, tx), PendingListOf(run));
  }

  /** A unit of work that neither begins nor orphans `run` leaves its hand-off alone. */
  lemma HandOffUntouched(policy: Policy, db: Db, tx: Tx, run: string)
    requires tx.Begin? || tx.Orphan? ==> tx.run != run
    ensures SameHandOff(db, Commit(policy, db, tx), run)
  {
    HandOffListsKept(policy, db, tx, run);
    ActionsKept(policy, db, tx, run);
    RunsOnlyMovedBy(policy, db, tx, run);
    if run in db.runs {
      RunKept(policy, db, tx, run);
    }
  }

  lemma OrphanHandsOff(policy: Policy, db: Db, run: string, now: Time)
    requires Sound(db) && HandedOff(policy, db, run) && Sweepable(db, run)
    ensures HandedOff(policy, OrphanTx(policy, db, run, now), run)
  {
    var db' := OrphanTx(policy, db, run, now);
    var actions := ResolveActions(policy, db.runs[run].info.pipeline);
    assert SoundRun(db, run);
    var e := db'.audit[|db.audit|];
    assert db'.audit == db.audit + [e];
    CollectAppend(db.audit, e, OrphanListOf(run));
    CollectAppend(db.audit, e, PendingListOf(run));
    NewRowsActions(db.outbox, run, actions, now, run);
    assert ActionsOf(db'.outbox, run) == actions;
  }

  lemma CommitHandsOff(policy: Policy, db: Db, tx: Tx)
    requires Sound(db) && AllHandedOff(policy, db)
    ensures AllHandedOff(policy, Commit(policy, db, tx))
  {
    forall run
      ensures HandedOff(policy, Commit(policy, db, tx), run)
    {
      assert HandedOff(policy, db, run);
      if (tx.Begin? || tx.Orphan?) && tx.run == run && Apply(policy, db, tx).Success? {
        if tx.Orphan? {
          OrphanHandsOff(policy, db, run, tx.now);
        } else {
          var e := BeginRun(tx.now, run, tx.info.pipeline, StageIds(tx.info.declared));
          CollectAppend(db.audit, e, OrphanListOf(run));
          CollectAppend(db.audit, e, PendingListOf(run));
        }
      } else if Apply(policy, db, tx).Success? {
        HandOffUntouched(policy, db, tx, run);
      }
    }
  }

  // ---- First claims in configured order ----------------------------------------------

  /** A run's rows share one enqueue time, and a claimed row's earlier siblings are claimed. */
  ghost predicate ClaimedInOrder(rows: seq<OutboxRow>) {
    forall i, j :: 0 <= i < j < |rows| && rows[i].run == rows[j].run ==>
      && rows[i].enqueuedAt == rows[j].enqueuedAt
      && (rows[j].claimedAt.Some? ==> rows[i].claimedAt.Some?)
  }

  /** A claim takes a prefix of the enqueue order, so it never overtakes a sibling. */
  lemma ClaimRespectsSiblings(policy: Policy, rows: seq<OutboxRow>, i: nat, j: nat)
    requires i < j < |rows| && rows[i].enqueuedAt == rows[j].enqueuedAt
    requires j in FreshBatch(policy, rows)
    ensures rows[i].claimedAt.Some? || i in FreshBatch(policy, rows)
  {
    EnqueuedOrderTotal(rows, Unclaimed());
    BatchIsPrefix(rows, Unclaimed(), ByEnqueued(rows), policy.batchLimit);
    assert !ByEnqueued(rows)(j, i);
  }

  lemma {:induction false} NoActionsNoRows(rows: seq<OutboxRow>, run: string)
    requires ActionsOf(rows, run) == []
    ensures forall i :: 0 <= i < |rows| ==> rows[i].run != run
  {
    if rows != [] {
      NoActionsNoRows(rows[..|rows| - 1], run);
      assert rows == rows[..|rows| - 1] + [rows[|rows| - 1]];
    }
  }

  lemma CommitKeepsOrder(policy: Policy, db: Db, tx: Tx)
    requires AllHandedOff(policy, db) && ClaimedInOrder(db.outbox)
    ensures ClaimedInOrder(Commit(policy, db, tx).outbox)
  {
    var db' := Commit(policy, db, tx);
    if tx.Orphan? {
      assert HandedOff(policy, db, tx.run);
      if Apply(policy, db, tx).Success? {
        NoActionsNoRows(db.outbox, tx.run);
      }
    } else {
      forall i, j | 0 <= i < j < |db'.outbox| && db'.outbox[i].run == db'.outbox[j].run
        ensures db'.outbox[i].enqueuedAt == db'.outbox[j].enqueuedAt
        ensures db'.outbox[j].claimedAt.Some? ==> db'.outbox[i].claimedAt.Some?
      {
        assert |db'.outbox| == |db.outbox|;
        RowsKept(policy, db, tx, i);
        RowsKept(policy, db, tx, j);
        if j in FreshBatch(policy, db.outbox) {
          ClaimRespectsSiblings(policy, db.outbox, i, j);
        }
      }
    }
  }

  // ---- Over all histories --------------------------------------------------------------

  /** Any units of work, in any order: orphaning hands off exactly once, and first claims
      respect the configured order. */
  lemma {:induction false} HandOffHolds(policy: Policy, txs: seq<Tx>)
    ensures var db := Commits(policy, EMPTY_DB, txs);
            Faithful(db) && AllHandedOff(policy, db) && ClaimedInOrder(db.outbox)
  {
    AuditReplaysToTables(policy, txs);
    if txs != [] {
      var before := txs[..|txs| - 1];
      HandOffHolds(policy, before);
      CommitHandsOff(policy, Commits(policy, EMPTY_DB, before), txs[|txs| - 1]);
      CommitKeepsOrder(policy, Commits(policy, EMPTY_DB, before), txs[|txs| - 1]);
    }
  }

  function WaitingOf(run: string): OutboxRow -> Option<Disposition> {
    (row: OutboxRow) => if row.run == run && row.claimedAt.None? then Some(row.action) else None
  }

  /** The run's never-claimed actions, in action-id order. */
  function NeverClaimed(rows: seq<OutboxRow>, run: string): seq<Disposition> {
    Collect(rows, WaitingOf(run))
  }

  lemma {:induction false} NeverClaimedIsSuffix(rows: seq<OutboxRow>, run: string)
    requires ClaimedInOrder(rows)
    ensures var waiting, all := NeverClaimed(rows, run), ActionsOf(rows, run);
            |waiting| <= |all| && waiting == all[|all| - |waiting|..]
  {
    if rows != [] {
      var n := |rows| - 1;
      NeverClaimedIsSuffix(rows[..n], run);
      if rows[n].run == run && rows[n].claimedAt.Some? {
        forall i | 0 <= i < n
          ensures WaitingOf(run)(rows[..n][i]).None?
        {
          assert rows[..n][i] == rows[i];
        }
        assert [] + rows[..n] == rows[..n];
        CollectNothing([], rows[..n], WaitingOf(run));
      }
    }
  }

  /** At any time, what is still to be claimed of an orphaned run is the tail of its
      configured action list, whatever the batch sizes, reclaims and clock readings were. */
  lemma FirstClaimsFollowConfiguredOrder(policy: Policy, txs: seq<Tx>, run: string)
    requires var db := Commits(policy, EMPTY_DB, txs); run in db.runs && db.runs[run].state.Orphaned?
    ensures var db := Commits(policy, EMPTY_DB, txs);
            var configured, waiting := ResolveActions(policy, db.runs[run].info.pipeline), NeverClaimed(db.outbox, run);
            |waiting| <= |configured| && waiting == configured[|configured| - |waiting|..]
  {
    HandOffHolds(policy, txs);
    assert HandedOff(policy, Commits(policy, EMPTY_DB, txs), run);
    NeverClaimedIsSuffix(Commits(policy, EMPTY_DB, txs).outbox, run);
  }
}
