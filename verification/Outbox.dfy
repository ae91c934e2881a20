/** Queries and updates on the `sweeper_actions` table
    (sweeper_action_repository.py). */
module Outbox {
  import opened Wrappers
  import opened Sequences
  import opened Database

  // ---- SELECT --------------------------------------------------------------------

  /** Ids of the rows satisfying `where`, in id order. */
  function SelectIds(rows: seq<OutboxRow>, filter: OutboxRow -> bool): seq<nat> {
    if rows == [] then []
    else
      var n := |rows| - 1;
      SelectIds(rows[..n], filter) + if filter(rows[n]) then [n] else []
  }

  lemma {:induction false} SelectIdsMembers(rows: seq<OutboxRow>, filter: OutboxRow -> bool)
    ensures forall id :: id in SelectIds(rows, filter) <==> 0 <= id < |rows| && filter(rows[id])
    ensures Distinct(SelectIds(rows, filter))
  {
    if rows != [] {
      var n := |rows| - 1;
      SelectIdsMembers(rows[..n], filter);
      var ids := SelectIds(rows[..n], filter);
      forall id
        ensures id in SelectIds(rows, filter) <==> 0 <= id < |rows| && filter(rows[id])
      {
        assert id in ids <==> 0 <= id < n && filter(rows[..n][id]);
      }
      assert forall i :: 0 <= i < |ids| ==> ids[i] in ids;
    }
  }

  /** ORDER BY enqueued_at, action_id. */
  function ByEnqueued(rows: seq<OutboxRow>): (nat, nat) -> bool {
    (a: nat, b: nat) =>
      a < |rows| && b < |rows| &&
      (rows[a].enqueuedAt < rows[b].enqueuedAt || (rows[a].enqueuedAt == rows[b].enqueuedAt && a < b))
  }

  function ClaimTime(row: OutboxRow): Time {
    if row.claimedAt.Some? then row.claimedAt.value else 0
  }

  /** ORDER BY claimed_at, action_id. */
  function ByClaimed(rows: seq<OutboxRow>): (nat, nat) -> bool {
    (a: nat, b: nat) =>
      a < |rows| && b < |rows| &&
      (ClaimTime(rows[a]) < ClaimTime(rows[b]) || (ClaimTime(rows[a]) == ClaimTime(rows[b]) && a < b))
  }

  function Unclaimed(): OutboxRow -> bool {
    (row: OutboxRow) => row.claimedAt.None?
  }

  /** Claimed no later than `cutoff`, never settled. */
  function StuckBelow(cutoff: Time, maxAttempts: nat): OutboxRow -> bool {
    (row: OutboxRow) =>
      row.completedAt.None? && row.claimedAt.Some? && row.claimedAt.value <= cutoff && row.attempts < maxAttempts
  }

  function StuckExhausted(cutoff: Time, maxAttempts: nat): OutboxRow -> bool {
    (row: OutboxRow) =>
      row.completedAt.None? && row.claimedAt.Some? && row.claimedAt.value <= cutoff && maxAttempts <= row.attempts
  }

  /** SELECT .. WHERE .. ORDER BY .. LIMIT. */
  function Batch(rows: seq<OutboxRow>, filter: OutboxRow -> bool, before: (nat, nat) -> bool, limit: nat): seq<nat> {
    Take(Sort(SelectIds(rows, filter), before), limit)
  }

  /** A batch holds distinct matching rows, as many as match or as the limit allows, and no
      matching row left out sorts before one taken. */
  lemma BatchIsPrefix(rows: seq<OutboxRow>, filter: OutboxRow -> bool, before: (nat, nat) -> bool, limit: nat)
    requires TotalOn(SelectIds(rows, filter), before)
    ensures var ids := Batch(rows, filter, before, limit);
            && Distinct(ids)
            && |ids| <= limit
            && (forall id :: id in ids ==> id < |rows| && filter(rows[id]))
            && (|ids| < limit ==> forall id :: 0 <= id < |rows| && filter(rows[id]) ==> id in ids)
            && (forall a, b :: a in ids && 0 <= b < |rows| && filter(rows[b]) && b !in ids ==> before(a, b))
  {
    SelectIdsMembers(rows, filter);
    FirstOfSort(SelectIds(rows, filter), before, limit);
  }

  /** And it is listed in order. */
  lemma BatchInOrder(rows: seq<OutboxRow>, filter: OutboxRow -> bool, before: (nat, nat) -> bool, limit: nat)
    requires TotalOn(SelectIds(rows, filter), before)
    ensures var ids := Batch(rows, filter, before, limit);
            forall i, j :: 0 <= i < j < |ids| ==> before(ids[i], ids[j])
  {
    var selected := SelectIds(rows, filter);
    var ids := Batch(rows, filter, before, limit);
    BatchIsPrefix(rows, filter, before, limit);
    SortMembers(selected, before);
    SortOrdered(selected, before);
    SameMembers(selected, Sort(selected, before));
    forall i, j | 0 <= i < j < |ids|
      ensures before(ids[i], ids[j])
    {
      assert !before(Sort(selected, before)[j], Sort(selected, before)[i]);
      assert ids[i] in Sort(selected, before) && ids[j] in Sort(selected, before);
    }
  }

  lemma EnqueuedOrderTotal(rows: seq<OutboxRow>, filter: OutboxRow -> bool)
    ensures TotalOn(SelectIds(rows, filter), ByEnqueued(rows))
  {
    SelectIdsMembers(rows, filter);
  }

  lemma ClaimedOrderTotal(rows: seq<OutboxRow>, filter: OutboxRow -> bool)
    ensures TotalOn(SelectIds(rows, filter), ByClaimed(rows))
  {
    SelectIdsMembers(rows, filter);
  }

  // ---- UPDATE --------------------------------------------------------------------

  function Update(rows: seq<OutboxRow>, ids: seq<nat>, change: OutboxRow -> OutboxRow): (r: seq<OutboxRow>)
    ensures |r| == |rows|
    ensures forall id :: 0 <= id < |rows| ==> r[id] == if id in ids then change(rows[id]) else rows[id]
  {
    seq(|rows|, id requires 0 <= id < |rows| => if id in ids then change(rows[id]) else rows[id])
  }

  function ClaimAt(now: Time): OutboxRow -> OutboxRow {
    (row: OutboxRow) => row.(claimedAt := Some(now))
  }

  function ReclaimAt(now: Time): OutboxRow -> OutboxRow {
    (row: OutboxRow) => row.(claimedAt := Some(now), attempts := row.attempts + 1)
  }

  function CompleteAt(now: Time): OutboxRow -> OutboxRow {
    (row: OutboxRow) => row.(completedAt := Some(now))
  }

  function FailAt(now: Time, error: string): OutboxRow -> OutboxRow {
    (row: OutboxRow) => row.(completedAt := Some(now), attempts := row.attempts + 1, lastError := Some(error))
  }

  function AbandonAt(now: Time, error: string): OutboxRow -> OutboxRow {
    (row: OutboxRow) => row.(completedAt := Some(now), lastError := Some(error))
  }

  predicate AllValid(rows: seq<OutboxRow>) {
    forall id :: 0 <= id < |rows| ==> ValidRow(rows[id])
  }

  /** The rows one orphaned run adds: its resolved actions in configured order, all with one
      timestamp. */
  function NewRows(run: string, actions: seq<Disposition>, now: Time): (rows: seq<OutboxRow>)
    ensures |rows| == |actions|
    ensures forall i :: 0 <= i < |rows| ==> rows[i] == OutboxRow(run, actions[i], now, None, None, 0, None)
  {
    seq(|actions|, i requires 0 <= i < |actions| => OutboxRow(run, actions[i], now, None, None, 0, None))
  }

  /** Updating rows leaves their run and action alone. */
  lemma {:induction false} UpdateKeepsActions(rows: seq<OutboxRow>, rows': seq<OutboxRow>, run: string)
    requires |rows| == |rows'|
    requires forall i :: 0 <= i < |rows| ==> rows[i].run == rows'[i].run && rows[i].action == rows'[i].action
    ensures ActionsOf(rows, run) == ActionsOf(rows', run)
  {
    if rows != [] {
      var n := |rows| - 1;
      UpdateKeepsActions(rows[..n], rows'[..n], run);
    }
  }

  lemma {:induction false} NewRowsActions(rows: seq<OutboxRow>, run: string, actions: seq<Disposition>, now: Time, of: string)
    ensures ActionsOf(rows + NewRows(run, actions, now), of)
         == ActionsOf(rows, of) + if of == run then actions else []
  {
    var added := NewRows(run, actions, now);
    if actions == [] {
      assert rows + added == rows;
    } else {
      var n := |actions| - 1;
      var fewer := NewRows(run, actions[..n], now);
      NewRowsActions(rows, run, actions[..n], now, of);
      assert added == fewer + [added[n]];
      assert rows + added == (rows + fewer) + [added[n]];
      CollectAppend(rows + fewer, added[n], ActionOf(of));
      assert actions == actions[..n] + [actions[n]];
    }
  }
}
