/** With a still clock and nothing else going on, sweeper ticks drain the expired runs
    oldest first, a full batch at a time. */
module Draining {
  import opened Wrappers
  import opened Sequences
  import opened RunStates
  import opened Database
  import opened Transactions
  import opened Lifecycle

  function ExpiredSet(db: Db, cutoff: Time): set<string> {
    set id | id in db.runs && Expired(db, cutoff, id)
  }

  ghost predicate Readable(db: Db, cutoff: Time) {
    forall id :: Expired(db, cutoff, id) ==> ReadRun(db, id).Success?
  }

  /** The steps of one tick: the scan, then one unit of work per candidate. */
  function TickStep(i: nat, now: Time, batch: seq<string>, k: nat): Step {
    if k == 0 then SweepScan(now, batch) else SweepStep(i, now)
  }

  /** The states a tick goes through when nothing else runs. */
  ghost predicate TickStates(w: World, states: seq<Sys>, now: Time, batch: seq<string>) {
    && |states| == |batch| + 2
    && forall k :: 0 <= k <= |batch| ==>
         states[k + 1] == Next(w, states[k], TickStep(|states[0].sweeps|, now, batch, k))
  }

  /** An undisturbed tick, its scan returning `batch`, takes the service from `s` to `s'`. */
  ghost predicate Tick(w: World, s: Sys, now: Time, batch: seq<string>, s': Sys) {
    exists states :: TickStates(w, states, now, batch) && states[0] == s && states[|batch| + 1] == s'
  }

  /** Exactly these runs were orphaned, at `now`. */
  ghost predicate Orphaned(db: Db, db': Db, runs: seq<string>, now: Time) {
    && db'.runs.Keys == db.runs.Keys
    && forall r :: r in db.runs ==>
         db'.runs[r] == if r in runs then Run(db.runs[r].info, RunState.Orphaned, now) else db.runs[r]
  }

  ghost predicate Midway(s: Sys, s': Sys, now: Time, batch: seq<string>, k: nat) {
    && k <= |batch|
    && |s'.sweeps| == |s.sweeps| + 1
    && var sw := s'.sweeps[|s.sweeps|];
       && sw.candidates == batch && sw.next == k && sw.alive && sw.orphaned == k
       && Orphaned(s.db, s'.db, batch[..k], now)
  }

  lemma OneMoreCandidate(w: World, s: Sys, s': Sys, now: Time, batch: seq<string>, k: nat)
    requires Midway(s, s', now, batch, k) && k < |batch| && Distinct(batch)
    requires ReadRun(s.db, batch[k]).Success? && !Terminal(s.db.runs[batch[k]].state)
    ensures Midway(s, SweepNext(w, s', |s.sweeps|, now), now, batch, k + 1)
  {
    assert batch[k] !in batch[..k];
    assert s'.db.runs[batch[k]] == s.db.runs[batch[k]];
    assert batch[..k + 1] == batch[..k] + [batch[k]];
  }

  lemma SweepStepIs(w: World, s: Sys, i: nat, now: Time)
    requires i < |s.sweeps|
    ensures Next(w, s, SweepStep(i, now)) == SweepNext(w, s, i, now)
  {
  }

  lemma ScanStarts(w: World, s: Sys, now: Time, batch: seq<string>)
    requires ExpiredBatch(s.db, now - w.runTimeout, w.sweepLimit, batch) && Readable(s.db, now - w.runTimeout)
    ensures Midway(s, Next(w, s, SweepScan(now, batch)), now, batch, 0)
  {
  }

  lemma {:induction false} MidwayReached(w: World, states: seq<Sys>, now: Time, batch: seq<string>, k: nat)
    requires TickStates(w, states, now, batch) && k <= |batch|
    requires ExpiredBatch(states[0].db, now - w.runTimeout, w.sweepLimit, batch)
    requires Readable(states[0].db, now - w.runTimeout)
    ensures Midway(states[0], states[k + 1], now, batch, k)
  {
    if k == 0 {
      ScanStarts(w, states[0], now, batch);
    } else {
      MidwayReached(w, states, now, batch, k - 1);
      assert batch[k - 1] in batch;
      SweepStepIs(w, states[k], |states[0].sweeps|, now);
      OneMoreCandidate(w, states[0], states[k], now, batch, k - 1);
    }
  }

  /** A tick takes a full batch of the expired runs, or all of them. */
  lemma BatchSize(db: Db, cutoff: Time, limit: nat, batch: seq<string>)
    requires ExpiredBatch(db, cutoff, limit, batch)
    ensures (set r | r in batch) <= ExpiredSet(db, cutoff)
    ensures |batch| == if |ExpiredSet(db, cutoff)| <= limit then |ExpiredSet(db, cutoff)| else limit
  {
    var taken := set r | r in batch;
    var all := ExpiredSet(db, cutoff);
    DistinctSize(batch);
    assert taken <= all;
    if |batch| < limit {
      assert taken == all;
    } else {
      assert |all| == |taken| + |all - taken|;
    }
  }

  /** One tick orphans its batch, the oldest expired runs, and leaves the others alone. */
  lemma TickDrains(w: World, s: Sys, now: Time, batch: seq<string>, s': Sys)
    requires ExpiredBatch(s.db, now - w.runTimeout, w.sweepLimit, batch) && Readable(s.db, now - w.runTimeout)
    requires Tick(w, s, now, batch, s')
    ensures Orphaned(s.db, s'.db, batch, now)
  {
    var states :| TickStates(w, states, now, batch) && states[0] == s && states[|batch| + 1] == s';
    MidwayReached(w, states, now, batch, |batch|);
    assert batch[..|batch|] == batch;
  }

  lemma BatchDrained(db: Db, db': Db, now: Time, cutoff: Time, limit: nat, batch: seq<string>)
    requires ExpiredBatch(db, cutoff, limit, batch) && Readable(db, cutoff) && Orphaned(db, db', batch, now)
    ensures Readable(db', cutoff)
    ensures ExpiredSet(db', cutoff) == ExpiredSet(db, cutoff) - set r | r in batch
    ensures |ExpiredSet(db', cutoff)| == if |ExpiredSet(db, cutoff)| <= limit then 0
                                         else |ExpiredSet(db, cutoff)| - limit
  {
    forall r | Expired(db', cutoff, r)
      ensures r in db.runs && r !in batch && Expired(db, cutoff, r) && db'.runs[r] == db.runs[r]
    {
    }
    var taken := set r | r in batch;
    assert ExpiredSet(db', cutoff) == ExpiredSet(db, cutoff) - taken;
    BatchSize(db, cutoff, limit, batch);
    DistinctSize(batch);
    assert |ExpiredSet(db, cutoff)| == |taken| + |ExpiredSet(db, cutoff) - taken|;
  }

  // ---- Any number of ticks ------------------------------------------------------------------

  /** Ticks one after another; each takes what its scan may return. */
  ghost predicate Ticks(w: World, states: seq<Sys>, now: Time, batches: seq<seq<string>>) {
    && |states| == |batches| + 1
    && forall i :: 0 <= i < |batches| ==>
         && ExpiredBatch(states[i].db, now - w.runTimeout, w.sweepLimit, batches[i])
         && Tick(w, states[i], now, batches[i], states[i + 1])
  }

  function Left(expired: nat, limit: nat, ticks: nat): nat
  {
    if expired <= ticks * limit then 0 else expired - ticks * limit
  }

  /** The originally expired runs are now orphaned or still waiting as they were, and none
      orphaned was younger than one still waiting. */
  ghost predicate OldestFirst(db: Db, db': Db, cutoff: Time) {
    && ExpiredSet(db', cutoff) <= ExpiredSet(db, cutoff)
    && (forall r :: r in ExpiredSet(db, cutoff) ==>
          r in db'.runs && if r in ExpiredSet(db', cutoff) then db'.runs[r] == db.runs[r] else db'.runs[r].state.Orphaned?)
    && (forall a, b :: a in ExpiredSet(db, cutoff) && a !in ExpiredSet(db', cutoff) && b in ExpiredSet(db', cutoff) ==>
          db.runs[a].updatedAt <= db.runs[b].updatedAt)
  }

  lemma OldestFirstStep(db: Db, db1: Db, db2: Db, now: Time, cutoff: Time, limit: nat, batch: seq<string>)
    requires OldestFirst(db, db1, cutoff) && ExpiredBatch(db1, cutoff, limit, batch) && Readable(db1, cutoff)
    requires Orphaned(db1, db2, batch, now)
    ensures OldestFirst(db, db2, cutoff)
  {
    BatchDrained(db1, db2, now, cutoff, limit, batch);
    forall a, b | a in ExpiredSet(db, cutoff) && a !in ExpiredSet(db2, cutoff) && b in ExpiredSet(db2, cutoff)
      ensures db.runs[a].updatedAt <= db.runs[b].updatedAt
    {
      if a in ExpiredSet(db1, cutoff) {
        assert a in batch && b !in batch && Expired(db1, cutoff, b);
        assert NotLater(db1, a, b);
      }
    }
  }

  lemma LeftStep(expired: nat, limit: nat, ticks: nat)
    ensures var left := Left(expired, limit, ticks);
            Left(expired, limit, ticks + 1) == if left <= limit then 0 else left - limit
  {
    assert (ticks + 1) * limit == ticks * limit + limit;
  }

  /** What is left of the expired runs of `db` after `n` ticks. */
  ghost predicate Drained(db: Db, db': Db, cutoff: Time, limit: nat, n: nat) {
    && Readable(db', cutoff) && OldestFirst(db, db', cutoff)
    && |ExpiredSet(db', cutoff)| == Left(|ExpiredSet(db, cutoff)|, limit, n)
  }

  lemma DrainedStep(db: Db, db1: Db, db2: Db, now: Time, cutoff: Time, limit: nat, batch: seq<string>, n: nat)
    requires Drained(db, db1, cutoff, limit, n)
    requires ExpiredBatch(db1, cutoff, limit, batch) && Orphaned(db1, db2, batch, now)
    ensures Drained(db, db2, cutoff, limit, n + 1)
  {
    BatchDrained(db1, db2, now, cutoff, limit, batch);
    OldestFirstStep(db, db1, db2, now, cutoff, limit, batch);
    LeftStep(|ExpiredSet(db, cutoff)|, limit, n);
  }

  lemma OneMoreTick(w: World, db: Db, s: Sys, now: Time, cutoff: Time, batch: seq<string>, s': Sys, n: nat)
    requires cutoff == now - w.runTimeout && Drained(db, s.db, cutoff, w.sweepLimit, n)
    requires ExpiredBatch(s.db, cutoff, w.sweepLimit, batch) && Tick(w, s, now, batch, s')
    ensures Drained(db, s'.db, cutoff, w.sweepLimit, n + 1)
  {
    var db1, db2, limit := s.db, s'.db, w.sweepLimit;
    TickDrains(w, s, now, batch, s');
    DrainedStep(db, db1, db2, now, cutoff, limit, batch, n);
  }

  lemma {:induction false} TicksDrainTo(w: World, states: seq<Sys>, now: Time, cutoff: Time, batches: seq<seq<string>>, n: nat)
    requires cutoff == now - w.runTimeout && |states| == |batches| + 1 && n <= |batches|
    requires forall i :: 0 <= i < n ==>
               ExpiredBatch(states[i].db, cutoff, w.sweepLimit, batches[i]) && Tick(w, states[i], now, batches[i], states[i + 1])
    requires Readable(states[0].db, cutoff)
    ensures Drained(states[0].db, states[n].db, cutoff, w.sweepLimit, n)
  {
    if n > 0 {
      TicksDrainTo(w, states, now, cutoff, batches, n - 1);
      OneMoreTick(w, states[0].db, states[n - 1], now, cutoff, batches[n - 1], states[n], n - 1);
    }
  }

  /** After n ticks, K expired runs have become max(0, K - n * limit), oldest first. */
  lemma TicksDrain(w: World, states: seq<Sys>, now: Time, batches: seq<seq<string>>, n: nat)
    requires Ticks(w, states, now, batches) && n <= |batches| && Readable(states[0].db, now - w.runTimeout)
    ensures Drained(states[0].db, states[n].db, now - w.runTimeout, w.sweepLimit, n)
  {
    TicksDrainTo(w, states, now, now - w.runTimeout, batches, n);
  }

  /** So ceil(K / limit) ticks orphan every expired run. */
  lemma EnoughTicksOrphanAll(w: World, states: seq<Sys>, now: Time, batches: seq<seq<string>>)
    requires Ticks(w, states, now, batches) && Readable(states[0].db, now - w.runTimeout)
    requires |ExpiredSet(states[0].db, now - w.runTimeout)| <= |batches| * w.sweepLimit
    ensures forall r :: r in ExpiredSet(states[0].db, now - w.runTimeout) ==>
              r in states[|batches|].db.runs && states[|batches|].db.runs[r].state.Orphaned?
  {
    TicksDrain(w, states, now, batches, |batches|);
    assert ExpiredSet(states[|batches|].db, now - w.runTimeout) == {};
  }
}
