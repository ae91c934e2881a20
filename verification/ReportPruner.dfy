/** Report retention (report_pruner.py): evict whole runs, oldest first, within a budget of
    files per tick, one audit row per file. The runs of a tick are the longest prefix of the
    candidates whose files fit the budget; a run is never evicted in part by choice, only when
    an unlink or the audit row of a file fails, and then the file is not counted. */
module ReportPruner {
  import opened Wrappers
  import opened Sequences
  import opened UnitOfWork

  datatype PruneEvent = PruneEvent(run: string, file: string, success: bool)

  type Listing = map<string, seq<string>>

  function FilesOf(listing: Listing, run: string): seq<string> {
    if run in listing then listing[run] else []
  }

  // ---- The budget ------------------------------------------------------------------------------

  /** The (run, file) pairs of these runs, run by run. */
  function AllFiles(listing: Listing, runs: seq<string>): seq<(string, string)> {
    if runs == [] then []
    else
      var n := |runs| - 1;
      AllFiles(listing, runs[..n]) + Tagged(runs[n], FilesOf(listing, runs[n]))
  }

  function Tagged(run: string, files: seq<string>): (r: seq<(string, string)>)
    ensures |r| == |files| && forall i :: 0 <= i < |r| ==> r[i] == (run, files[i])
  {
    seq(|files|, i requires 0 <= i < |files| => (run, files[i]))
  }

  /** How many of these runs have files. */
  function Bearing(listing: Listing, runs: seq<string>): nat {
    if runs == [] then 0
    else
      var n := |runs| - 1;
      Bearing(listing, runs[..n]) + if FilesOf(listing, runs[n]) == [] then 0 else 1
  }

  /** `k` runs fit the budget, and one more would not. */
  predicate Fills(listing: Listing, runs: seq<string>, budget: nat, k: nat) {
    && k <= |runs| && |AllFiles(listing, runs[..k])| <= budget
    && (k < |runs| ==> |AllFiles(listing, runs[..k + 1])| > budget)
  }

  lemma {:induction false} FilesGrow(listing: Listing, runs: seq<string>, j: nat, k: nat)
    requires j <= k <= |runs|
    ensures AllFiles(listing, runs[..j]) <= AllFiles(listing, runs[..k])
    decreases k
  {
    if j < k {
      FilesGrow(listing, runs, j, k - 1);
      assert runs[..k][..k - 1] == runs[..k - 1];
    }
  }

  /** What a tick takes is the longest prefix that fits: any prefix that fits is part of it. */
  lemma LongestPrefix(listing: Listing, runs: seq<string>, budget: nat, k: nat, j: nat)
    requires Fills(listing, runs, budget, k) && j <= |runs|
    ensures |AllFiles(listing, runs[..j])| <= budget <==> j <= k
  {
    if j <= k {
      FilesGrow(listing, runs, j, k);
    } else {
      FilesGrow(listing, runs, k + 1, j);
    }
  }

  lemma FilesOfNext(listing: Listing, runs: seq<string>, k: nat)
    requires k < |runs|
    ensures AllFiles(listing, runs[..k + 1]) == AllFiles(listing, runs[..k]) + Tagged(runs[k], FilesOf(listing, runs[k]))
    ensures Bearing(listing, runs[..k + 1]) == Bearing(listing, runs[..k]) + if FilesOf(listing, runs[k]) == [] then 0 else 1
  {
    assert runs[..k + 1][..k] == runs[..k];
  }

  /** The first run that has files is taken whenever its files fit the budget alone. */
  lemma FirstIsTaken(listing: Listing, runs: seq<string>, budget: nat, k: nat, first: nat)
    requires Fills(listing, runs, budget, k) && first < |runs|
    requires forall i :: 0 <= i < first ==> FilesOf(listing, runs[i]) == []
    requires FilesOf(listing, runs[first]) != [] && |FilesOf(listing, runs[first])| <= budget
    ensures k > first && Bearing(listing, runs[..k]) >= 1
  {
    EmptyRuns(listing, runs, first);
    FilesOfNext(listing, runs, first);
    LongestPrefix(listing, runs, budget, k, first + 1);
    BearingGrows(listing, runs, first + 1, k);
  }

  lemma {:induction false} EmptyRuns(listing: Listing, runs: seq<string>, k: nat)
    requires k <= |runs| && forall i :: 0 <= i < k ==> FilesOf(listing, runs[i]) == []
    ensures AllFiles(listing, runs[..k]) == []
  {
    if k > 0 {
      EmptyRuns(listing, runs, k - 1);
      assert runs[..k][..k - 1] == runs[..k - 1];
    }
  }

  lemma {:induction false} BearingGrows(listing: Listing, runs: seq<string>, j: nat, k: nat)
    requires j <= k <= |runs|
    ensures Bearing(listing, runs[..j]) <= Bearing(listing, runs[..k])
    decreases k
  {
    if j < k {
      BearingGrows(listing, runs, j, k - 1);
      assert runs[..k][..k - 1] == runs[..k - 1];
    }
  }

  // ---- The disk --------------------------------------------------------------------------------

  /** The report directory, and what one tick does to it. Others may write to it meanwhile. */
  class Disk {
    var attempted: seq<(string, string)>
    var gone: set<(string, string)>

    constructor ()
      ensures attempted == [] && gone == {}
    {
      attempted, gone := [], {};
    }

    /** `_list_files`: whatever is under the run's directory now. */
    method ListFiles(run: string) returns (files: seq<string>)
    {
      files := *;
    }

    /** `unlink`, which may fail. */
    method Unlink(run: string, file: string) returns (ok: bool)
      modifies this
      ensures attempted == old(attempted) + [(run, file)]
      ensures gone == old(gone) + if ok then {(run, file)} else {}
    {
      ok := *;
      attempted := attempted + [(run, file)];
      if ok {
        gone := gone + {(run, file)};
      }
    }
  }

  // ---- Eviction --------------------------------------------------------------------------------

  /** One audit row in a unit of work of its own; a failure is swallowed. */
  method Record(conn: Connection<seq<PruneEvent>>, mutex: Lock, event: PruneEvent) returns (ok: bool)
    requires conn.Valid() && mutex.Valid() && !mutex.held
    modifies conn, mutex
    ensures conn.Valid() && mutex.Valid() && !mutex.held
    ensures conn.committed == old(conn.committed) + if ok then [event] else []
    ensures old(conn.faults) <= conn.faults && (!ok ==> old(conn.faults) < conn.faults)
  {
    var uow := new SqliteUnitOfWork(conn, mutex);
    var begun := uow.Enter();
    if begun.Failure? {
      return false;
    }
    ok := Query(conn);
    if ok {
      conn.working := conn.working + [event];
    }
    var left := uow.Exit(!ok);
    ok := ok && left.Success?;
  }

  /** The rows of one outcome. */
  function Rows(audit: seq<PruneEvent>, success: bool): nat {
    if audit == [] then 0
    else Rows(audit[..|audit| - 1], success) + if audit[|audit| - 1].success == success then 1 else 0
  }

  lemma RowsAppend(audit: seq<PruneEvent>, event: PruneEvent, success: bool)
    ensures Rows(audit + [event], success) == Rows(audit, success) + if event.success == success then 1 else 0
  {
    assert (audit + [event])[..|audit|] == audit;
  }

  /** What stands between two moments of a tick: `deleted` and `failed` files attempted, as many
      SUCCESS rows as deletions, as many FAILURE rows as failures but for at most `faults`, each
      row of a file attempted, and no SUCCESS row for a file still on disk. */
  ghost predicate Accounted(start: seq<PruneEvent>, audit: seq<PruneEvent>, attempted: seq<(string, string)>,
                            gone: set<(string, string)>, deleted: nat, failed: nat, faults: nat) {
    && start <= audit
    && Rows(audit, true) == Rows(start, true) + deleted
    && Rows(audit, false) <= Rows(start, false) + failed <= Rows(audit, false) + faults
    && forall i :: |start| <= i < |audit| ==>
         && (audit[i].run, audit[i].file) in attempted
         && (audit[i].success ==> (audit[i].run, audit[i].file) in gone)
  }

  /** `_evict_file`: deletion first, then its audit row; deleted only counts with its row. */
  method EvictFile(disk: Disk, conn: Connection<seq<PruneEvent>>, mutex: Lock, run: string, file: string,
                   ghost start: seq<PruneEvent>, ghost faults: nat, ghost deleted: nat, ghost failed: nat)
    returns (ok: bool)
    requires conn.Valid() && mutex.Valid() && !mutex.held && faults <= conn.faults
    requires Accounted(start, conn.committed, disk.attempted, disk.gone, deleted, failed, conn.faults - faults)
    modifies disk, conn, mutex
    ensures conn.Valid() && mutex.Valid() && !mutex.held
    ensures disk.attempted == old(disk.attempted) + [(run, file)]
    ensures faults <= conn.faults
    ensures Accounted(start, conn.committed, disk.attempted, disk.gone, if ok then deleted + 1 else deleted,
                      if ok then failed else failed + 1, conn.faults - faults)
  {
    ghost var before := conn.committed;
    var unlinked := disk.Unlink(run, file);
    var event := PruneEvent(run, file, unlinked);
    var recorded := Record(conn, mutex, event);
    assert before + [] == before;
    RowsAppend(before, event, true);
    RowsAppend(before, event, false);
    return unlinked && recorded;
  }

  datatype PruneResult = PruneResult(runsProcessed: nat, filesDeleted: nat, filesFailed: nat)

  /** Every file of one run, whatever happens to each. */
  method EvictRun(disk: Disk, conn: Connection<seq<PruneEvent>>, mutex: Lock, run: string, files: seq<string>,
                  ghost start: seq<PruneEvent>, ghost faults: nat, deleted: nat, failed: nat)
    returns (deleted': nat, failed': nat)
    requires conn.Valid() && mutex.Valid() && !mutex.held && faults <= conn.faults
    requires Accounted(start, conn.committed, disk.attempted, disk.gone, deleted, failed, conn.faults - faults)
    modifies disk, conn, mutex
    ensures conn.Valid() && mutex.Valid() && !mutex.held
    ensures disk.attempted == old(disk.attempted) + Tagged(run, files)
    ensures faults <= conn.faults
    ensures Accounted(start, conn.committed, disk.attempted, disk.gone, deleted', failed', conn.faults - faults)
    ensures deleted' + failed' == deleted + failed + |files|
  {
    deleted', failed' := deleted, failed;
    ghost var before := disk.attempted;
    for i := 0 to |files|
      invariant conn.Valid() && mutex.Valid() && !mutex.held
      invariant disk.attempted == before + Tagged(run, files[..i])
      invariant faults <= conn.faults
      invariant Accounted(start, conn.committed, disk.attempted, disk.gone, deleted', failed', conn.faults - faults)
      invariant deleted' + failed' == deleted + failed + i
    {
      var ok := EvictFile(disk, conn, mutex, run, files[i], start, faults, deleted', failed');
      assert Tagged(run, files[..i + 1]) == Tagged(run, files[..i]) + [(run, files[i])];
      if ok {
        deleted' := deleted' + 1;
      } else {
        failed' := failed' + 1;
      }
    }
    assert files[..|files|] == files;
  }

  lemma {:induction false} SameFiles(listing: Listing, listing': Listing, runs: seq<string>)
    requires forall r :: r in runs ==> FilesOf(listing', r) == FilesOf(listing, r)
    ensures AllFiles(listing', runs) == AllFiles(listing, runs)
    ensures Bearing(listing', runs) == Bearing(listing, runs)
  {
    if runs != [] {
      SameFiles(listing, listing', runs[..|runs| - 1]);
    }
  }

  /** Listing one more run's files leaves what was found for the runs before it. */
  lemma FoundNext(found: Listing, runs: seq<string>, k: nat, files: seq<string>)
    requires k < |runs| && Distinct(runs)
    ensures var found' := found[runs[k] := files];
            && AllFiles(found', runs[..k]) == AllFiles(found, runs[..k])
            && AllFiles(found', runs[..k + 1]) == AllFiles(found, runs[..k]) + Tagged(runs[k], files)
            && Bearing(found', runs[..k]) == Bearing(found, runs[..k])
            && Bearing(found', runs[..k + 1]) == Bearing(found, runs[..k]) + if files == [] then 0 else 1
  {
    var found' := found[runs[k] := files];
    forall r | r in runs[..k]
      ensures FilesOf(found', r) == FilesOf(found, r)
    {
      assert r != runs[k];
    }
    SameFiles(found, found', runs[..k]);
    FilesOfNext(found', runs, k);
  }

  const CANDIDATE_LIMIT := 10_000

  /** The first `i` candidates are done: all their files attempted, those with files counted. */
  ghost predicate Through(found: Listing, runs: seq<string>, i: nat, attempted: seq<(string, string)>, processed: nat) {
    && i <= |runs| && attempted == AllFiles(found, runs[..i]) && processed == Bearing(found, runs[..i])
  }

  lemma FullAt(found: Listing, runs: seq<string>, i: nat, files: seq<string>, attempted: seq<(string, string)>,
               processed: nat, budget: nat)
    requires Through(found, runs, i, attempted, processed) && i < |runs| && Distinct(runs)
    requires |attempted| <= budget < |attempted| + |files|
    ensures Fills(found[runs[i] := files], runs, budget, i)
    ensures Through(found[runs[i] := files], runs, i, attempted, processed)
  {
    FoundNext(found, runs, i, files);
  }

  /** The candidates in order, until the files of one exceed what is left of the budget. */
  method PruneRuns(disk: Disk, conn: Connection<seq<PruneEvent>>, mutex: Lock, candidates: seq<string>, maxPrunes: nat)
    returns (r: PruneResult, ghost k: nat, ghost found: Listing)
    requires conn.Valid() && mutex.Valid() && !mutex.held && disk.attempted == [] && disk.gone == {}
    requires Distinct(candidates)
    modifies disk, conn, mutex
    ensures conn.Valid() && mutex.Valid() && !mutex.held
    ensures Fills(found, candidates, maxPrunes, k) && Through(found, candidates, k, disk.attempted, r.runsProcessed)
    ensures r.filesDeleted + r.filesFailed == |disk.attempted|
    ensures old(conn.faults) <= conn.faults
    ensures Accounted(old(conn.committed), conn.committed, disk.attempted, disk.gone, r.filesDeleted, r.filesFailed,
                      conn.faults - old(conn.faults))
  {
    ghost var start := conn.committed;
    var deleted: nat, failed: nat, processed: nat, budget: nat := 0, 0, 0, maxPrunes;
    found := map[];
    var i := 0;
    while i < |candidates|
      invariant 0 <= i <= |candidates|
      invariant conn.Valid() && mutex.Valid() && !mutex.held
      invariant Through(found, candidates, i, disk.attempted, processed)
      invariant budget + |disk.attempted| == maxPrunes && deleted + failed == |disk.attempted|
      invariant old(conn.faults) <= conn.faults
      invariant Accounted(start, conn.committed, disk.attempted, disk.gone, deleted, failed, conn.faults - old(conn.faults))
    {
      var run := candidates[i];
      var files := disk.ListFiles(run);
      ghost var attempted := disk.attempted;
      FoundNext(found, candidates, i, files);
      if |files| > budget {
        FullAt(found, candidates, i, files, attempted, processed, maxPrunes);
        found := found[run := files];
        return PruneResult(processed, deleted, failed), i, found;
      }
      if files != [] {
        deleted, failed := EvictRun(disk, conn, mutex, run, files, start, old(conn.faults), deleted, failed);
        budget := budget - |files|;
        processed := processed + 1;
      } else {
        assert attempted + Tagged(run, files) == attempted;
      }
      found := found[run := files];
      i := i + 1;
    }
    return PruneResult(processed, deleted, failed), |candidates|, found;
  }

  /** One tick over the candidates, oldest first, as many as the query returns: with `found` what
      was under each run's directory at its turn, the files attempted are all the files of the
      longest prefix of candidates that fits the budget, and of no other run; each is counted
      once as deleted or failed, deleted exactly when its SUCCESS row is durable. */
  method RunOnce(disk: Disk, conn: Connection<seq<PruneEvent>>, mutex: Lock, eligible: seq<string>, maxPrunes: nat)
    returns (r: PruneResult, ghost k: nat, ghost found: Listing)
    requires conn.Valid() && mutex.Valid() && !mutex.held && disk.attempted == [] && disk.gone == {}
    requires Distinct(eligible)
    modifies disk, conn, mutex
    ensures conn.Valid() && mutex.Valid() && !mutex.held
    ensures Fills(found, Take(eligible, 10_000), maxPrunes, k)
    ensures disk.attempted == AllFiles(found, Take(eligible, 10_000)[..k])
    ensures r.runsProcessed == Bearing(found, Take(eligible, 10_000)[..k])
    ensures r.filesDeleted + r.filesFailed == |disk.attempted|
    ensures old(conn.faults) <= conn.faults
    ensures Accounted(old(conn.committed), conn.committed, disk.attempted, disk.gone, r.filesDeleted, r.filesFailed,
                      conn.faults - old(conn.faults))
  {
    r, k, found := PruneRuns(disk, conn, mutex, Take(eligible, CANDIDATE_LIMIT), maxPrunes);
  }
}
