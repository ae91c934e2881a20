/** Bounded re-dispatch: over every interleaving and crash, how often an outbox row is claimed
    and its handler runs, and a measure every committed dispatcher step brings down. */
module Dispatching {
  import opened Wrappers
  import opened Sequences
  import opened Database
  import opened Outbox
  import opened Transactions
  import opened Effects
  import opened Lifecycle
  import Acceptance

  // ---- The invariant -----------------------------------------------------------------------

  /** Rows whose handler is still to run in this tick. */
  function Waiting(d: Dispatcher): seq<nat> {
    if d.Handling? then d.todo else []
  }

  function ActionIds(outcomes: seq<(nat, Option<string>)>): (ids: seq<nat>)
    ensures |ids| == |outcomes| && forall i :: 0 <= i < |ids| ==> ids[i] == outcomes[i].0
  {
    seq(|outcomes|, i requires 0 <= i < |outcomes| => outcomes[i].0)
  }

  /** Rows the dispatcher has claimed and not yet settled. */
  function Held(d: Dispatcher): seq<nat> {
    match d
    case Handling(todo, outcomes) => todo + ActionIds(outcomes)
    case Settling(rest) => ActionIds(rest)
    case _ => []
  }

  /** A row never claimed has no attempts; one claimed and unfinished has been claimed exactly
      once more than its attempts, which stay within the cap; handlers run only on claims. */
  predicate RowOk(policy: Policy, row: OutboxRow, claims: nat, handled: nat, waiting: bool) {
    && handled + (if waiting then 1 else 0) <= claims
    && if row.claimedAt.None? then
         claims == 0 && row.attempts == 0 && row.completedAt.None?
       else if row.completedAt.None? then
         claims == row.attempts + 1 && row.attempts <= policy.maxAttempts
       else
         1 <= claims <= policy.maxAttempts + 1
  }

  predicate InHand(rows: seq<OutboxRow>, id: nat) {
    id < |rows| && rows[id].claimedAt.Some? && rows[id].completedAt.None?
  }

  ghost predicate RowsOk(w: World, s: Sys) {
    forall id: nat :: if id < |s.db.outbox|
      then RowOk(w.policy, s.db.outbox[id], Count(s.claims, id), Count(s.handled, id), id in Waiting(s.dispatcher))
      else Count(s.claims, id) == 0 && Count(s.handled, id) == 0
  }

  ghost predicate HeldOk(s: Sys) {
    && Distinct(Held(s.dispatcher))
    && forall id :: id in Held(s.dispatcher) ==> InHand(s.db.outbox, id)
  }

  ghost predicate Inv(w: World, s: Sys) {
    RowsOk(w, s) && HeldOk(s)
  }

  // ---- Steps of others ---------------------------------------------------------------------

  predicate Untouched(row: OutboxRow) {
    row.claimedAt.None? && row.completedAt.None? && row.attempts == 0
  }

  ghost predicate OnlyEnqueues(rows: seq<OutboxRow>, rows': seq<OutboxRow>) {
    && rows <= rows'
    && forall id :: |rows| <= id < |rows'| ==> Untouched(rows'[id])
  }

  lemma OthersOnlyEnqueue(w: World, s: Sys, step: Step)
    requires !step.DispatchStep?
    ensures var s' := Next(w, s, step);
            && OnlyEnqueues(s.db.outbox, s'.db.outbox)
            && s'.claims == s.claims && s'.handled == s.handled
            && s'.dispatcher == if step.Crash? then Resting else s.dispatcher
  {
    OneCommit(w, s, step);
    OthersKeepRecord(w, s, step);
    if Next(w, s, step).db != s.db {
      NotDispatching(s, step);
      OnlyOrphansEnqueue(w.policy, s.db, Attempt(s, step).value);
    }
  }

  lemma OthersKeepRecord(w: World, s: Sys, step: Step)
    requires !step.DispatchStep?
    ensures var s' := Next(w, s, step);
            && s'.claims == s.claims && s'.handled == s.handled
            && s'.dispatcher == if step.Crash? then Resting else s.dispatcher
  {
  }

  lemma NotDispatching(s: Sys, step: Step)
    requires !step.DispatchStep? && Attempt(s, step).Some?
    ensures var tx := Attempt(s, step).value; !tx.Abandon? && !tx.Claim? && !tx.Settle?
  {
  }

  lemma OnlyOrphansEnqueue(policy: Policy, db: Db, tx: Tx)
    requires !tx.Abandon? && !tx.Claim? && !tx.Settle?
    ensures OnlyEnqueues(db.outbox, Commit(policy, db, tx).outbox)
  {
  }

  lemma OthersKeep(w: World, s: Sys, step: Step)
    requires Inv(w, s) && !step.DispatchStep?
    ensures Inv(w, Next(w, s, step))
  {
    var s' := Next(w, s, step);
    OthersOnlyEnqueue(w, s, step);
    forall id: nat | id < |s'.db.outbox|
      ensures RowOk(w.policy, s'.db.outbox[id], Count(s.claims, id), Count(s.handled, id), id in Waiting(s'.dispatcher))
    {
      if id < |s.db.outbox| {
        assert RowOk(w.policy, s.db.outbox[id], Count(s.claims, id), Count(s.handled, id), id in Waiting(s.dispatcher));
      } else {
        assert Count(s.claims, id) == 0;
        assert id !in Held(s.dispatcher);
      }
    }
  }

  // ---- The dispatcher's own steps ------------------------------------------------------------

  lemma ExhaustedRows(policy: Policy, rows: seq<OutboxRow>, now: Time)
    ensures forall id :: id in ExhaustedBatch(policy, rows, now) ==>
              InHand(rows, id) && policy.maxAttempts <= rows[id].attempts
  {
    var filter := StuckExhausted(now - policy.staleAfter, policy.maxAttempts);
    ClaimedOrderTotal(rows, filter);
    BatchIsPrefix(rows, filter, ByClaimed(rows), policy.batchLimit);
  }

  lemma AbandonKeeps(w: World, s: Sys, now: Time)
    requires Inv(w, s)
    ensures Inv(w, DispatchNext(w, s, DoAbandon(now)))
  {
    ExhaustedRows(w.policy, s.db.outbox, now);
    var s' := DispatchNext(w, s, DoAbandon(now));
    forall id: nat | id < |s'.db.outbox|
      ensures RowOk(w.policy, s'.db.outbox[id], Count(s'.claims, id), Count(s'.handled, id), id in Waiting(s'.dispatcher))
    {
      assert RowOk(w.policy, s.db.outbox[id], Count(s.claims, id), Count(s.handled, id), id in Waiting(s.dispatcher));
    }
  }

  /** What claiming does to one row and to the number of its claims. */
  lemma ClaimRow(policy: Policy, rows: seq<OutboxRow>, now: Time, id: nat, claims: nat, handled: nat)
    requires id < |rows| && RowOk(policy, rows[id], claims, handled, false)
    ensures var ids := ClaimedIds(policy, rows, now);
            && |ClaimedRows(policy, rows, now)| == |rows|
            && RowOk(policy, ClaimedRows(policy, rows, now)[id], claims + Count(ids, id), handled, id in ids)
            && (id in ids ==> InHand(ClaimedRows(policy, rows, now), id))
  {
    ClaimBatch(policy, rows, now);
    ClaimEffect(policy, rows, now, id);
    DistinctCount(ClaimedIds(policy, rows, now), id);
  }

  lemma ClaimedBounds(policy: Policy, rows: seq<OutboxRow>, now: Time)
    ensures Distinct(ClaimedIds(policy, rows, now))
    ensures forall id :: id in ClaimedIds(policy, rows, now) ==> id < |rows|
  {
    ClaimBatch(policy, rows, now);
  }

  lemma ClaimedRowsOk(w: World, s: Sys, s': Sys, ids: seq<nat>, now: Time)
    requires RowsOk(w, s) && Waiting(s.dispatcher) == [] && ids == ClaimedIds(w.policy, s.db.outbox, now)
    requires s'.db.outbox == ClaimedRows(w.policy, s.db.outbox, now)
    requires s'.claims == s.claims + ids && s'.handled == s.handled && s'.dispatcher == Handling(ids, [])
    ensures Inv(w, s')
  {
    ClaimedBounds(w.policy, s.db.outbox, now);
    assert Held(s'.dispatcher) == ids;
    forall id: nat
      ensures if id < |s'.db.outbox|
        then RowOk(w.policy, s'.db.outbox[id], Count(s'.claims, id), Count(s'.handled, id), id in ids)
        else Count(s'.claims, id) == 0
      ensures id in ids ==> InHand(s'.db.outbox, id)
    {
      CountConcat(s.claims, ids, id);
      DistinctCount(ids, id);
      if id < |s.db.outbox| {
        assert RowOk(w.policy, s.db.outbox[id], Count(s.claims, id), Count(s.handled, id), id in Waiting(s.dispatcher));
        ClaimRow(w.policy, s.db.outbox, now, id, Count(s.claims, id), Count(s.handled, id));
      }
    }
  }

  lemma ClaimKeeps(w: World, s: Sys, now: Time)
    requires Inv(w, s)
    ensures Inv(w, DispatchNext(w, s, DoClaim(now)))
  {
    var s' := DispatchNext(w, s, DoClaim(now));
    if s.dispatcher.Claiming? && Apply(w.policy, s.db, Claim(now)).Success? {
      ClaimedRowsOk(w, s, s', ClaimedIds(w.policy, s.db.outbox, now), now);
    } else {
      assert s' == s || s' == s.(dispatcher := Resting);
      RestKeeps(w, s);
    }
  }

  lemma RestKeeps(w: World, s: Sys)
    requires Inv(w, s)
    ensures Inv(w, s.(dispatcher := Resting))
  {
    forall id: nat | id < |s.db.outbox|
      ensures RowOk(w.policy, s.db.outbox[id], Count(s.claims, id), Count(s.handled, id), false)
    {
      assert RowOk(w.policy, s.db.outbox[id], Count(s.claims, id), Count(s.handled, id), id in Waiting(s.dispatcher));
    }
  }

  lemma HandledOnce(todo: seq<nat>, outcomes: seq<(nat, Option<string>)>, error: Option<string>)
    requires todo != [] && Distinct(todo + ActionIds(outcomes))
    ensures var held := todo[1..] + ActionIds(outcomes + [(todo[0], error)]);
            && Distinct(held)
            && (forall id :: id in held <==> id in todo + ActionIds(outcomes))
            && todo[0] !in todo[1..]
  {
    var was := todo + ActionIds(outcomes);
    var held := todo[1..] + ActionIds(outcomes + [(todo[0], error)]);
    assert ActionIds(outcomes + [(todo[0], error)]) == ActionIds(outcomes) + [todo[0]];
    assert was == [todo[0]] + (todo[1..] + ActionIds(outcomes));
    assert held == (todo[1..] + ActionIds(outcomes)) + [todo[0]];
    assert forall i :: 1 <= i < |todo| ==> todo[i] == was[i] && was[0] != was[i];
    assert multiset(was) == multiset(held);
    RearrangeDistinct(was, held);
    SameMembers(was, held);
  }

  lemma HandleKeeps(w: World, s: Sys, invoked: bool, error: Option<string>)
    requires Inv(w, s)
    ensures Inv(w, DispatchNext(w, s, Handle(invoked, error)))
  {
    if s.dispatcher.Handling? {
      var s' := DispatchNext(w, s, Handle(invoked, error));
      var todo, outcomes := s.dispatcher.todo, s.dispatcher.outcomes;
      if todo != [] && (invoked || error.Some?) {
        HandledOnce(todo, outcomes, error);
        assert Held(s.dispatcher) == todo + ActionIds(outcomes);
        forall id: nat
          ensures id < |s.db.outbox| ==>
                    RowOk(w.policy, s.db.outbox[id], Count(s.claims, id), Count(s'.handled, id), id in todo[1..])
          ensures id >= |s.db.outbox| ==> Count(s'.handled, id) == 0
        {
          assert todo[0] in Held(s.dispatcher);
          CountConcat(s.handled, [todo[0]], id);
          if id < |s.db.outbox| {
            assert RowOk(w.policy, s.db.outbox[id], Count(s.claims, id), Count(s.handled, id), id in todo);
          }
        }
      } else if todo == [] {
        assert Held(s'.dispatcher) == Held(s.dispatcher);
      }
    }
  }

  lemma SettleKeeps(w: World, s: Sys, now: Time)
    requires Inv(w, s)
    ensures Inv(w, DispatchNext(w, s, DoSettle(now)))
  {
    var s' := DispatchNext(w, s, DoSettle(now));
    if s.dispatcher.Settling? && s.dispatcher.rest != []
       && Apply(w.policy, s.db, Settle(s.dispatcher.rest[0].0, s.dispatcher.rest[0].1, now)).Success? {
      var rest := s.dispatcher.rest;
      var ids := ActionIds(rest);
      assert ids[0] in Held(s.dispatcher);
      assert ActionIds(rest[1..]) == ids[1..];
      forall id: nat | id < |s.db.outbox|
        ensures RowOk(w.policy, s'.db.outbox[id], Count(s.claims, id), Count(s.handled, id), false)
      {
        assert RowOk(w.policy, s.db.outbox[id], Count(s.claims, id), Count(s.handled, id), false);
      }
      forall id | id in Held(s'.dispatcher)
        ensures InHand(s'.db.outbox, id)
      {
        assert id in ids && id != ids[0];
      }
    } else {
      assert s' == s || s' == s.(dispatcher := Resting);
      RestKeeps(w, s);
    }
  }

  lemma InvKept(w: World, s: Sys, step: Step)
    requires Inv(w, s)
    ensures Inv(w, Next(w, s, step))
  {
    if step.DispatchStep? {
      DispatchKeeps(w, s, step.dispatchAct);
    } else {
      OthersKeep(w, s, step);
    }
  }

  lemma DispatchKeeps(w: World, s: Sys, act: DispatchAct)
    requires Inv(w, s)
    ensures Inv(w, DispatchNext(w, s, act))
  {
    match act
    case DoAbandon(now) => AbandonKeeps(w, s, now);
    case DoClaim(now) => ClaimKeeps(w, s, now);
    case Handle(invoked, error) => HandleKeeps(w, s, invoked, error);
    case DoSettle(now) => SettleKeeps(w, s, now);
    case Fail => RestKeeps(w, s);
  }

  lemma {:induction false} InvHolds(w: World, steps: seq<Step>)
    ensures Inv(w, Reached(w, steps))
  {
    if steps != [] {
      InvHolds(w, steps[..|steps| - 1]);
      InvKept(w, Reached(w, steps[..|steps| - 1]), steps[|steps| - 1]);
    }
  }

  // ---- Outcomes ------------------------------------------------------------------------------

  /** What the handlers of this tick returned and no row has been settled with yet. */
  function Outcomes(d: Dispatcher): seq<(nat, Option<string>)> {
    match d
    case Handling(_, outcomes) => outcomes
    case Settling(rest) => rest
    case _ => []
  }

  /** What a handler returns is kept for its row, in order; a row without one fails. */
  lemma HandledIsKept(w: World, s: Sys, invoked: bool, error: Option<string>)
    requires s.dispatcher.Handling? && (invoked || error.Some?)
    ensures var s' := DispatchNext(w, s, Handle(invoked, error));
            && s'.db == s.db && s'.claims == s.claims
            && if Waiting(s.dispatcher) == [] then
                 s'.dispatcher.Settling? && Outcomes(s'.dispatcher) == Outcomes(s.dispatcher) && s'.handled == s.handled
               else
                 var id := Waiting(s.dispatcher)[0];
                 && s'.dispatcher.Handling? && Waiting(s'.dispatcher) == Waiting(s.dispatcher)[1..]
                 && Outcomes(s'.dispatcher) == Outcomes(s.dispatcher) + [(id, error)]
                 && s'.handled == s.handled + if invoked then [id] else []
  {
  }

  /** The first outcome kept settles its row, as it is, or the tick ends there. */
  lemma SettledAsHandled(w: World, s: Sys, now: Time)
    requires AllValid(s.db.outbox) && s.dispatcher.Settling? && Outcomes(s.dispatcher) != []
    requires Outcomes(s.dispatcher)[0].0 < |s.db.outbox|
    ensures var (id, error) := Outcomes(s.dispatcher)[0];
            var s', was := DispatchNext(w, s, DoSettle(now)), s.db.outbox[id];
            if was.claimedAt.Some? && was.claimedAt.value <= now then
              && s'.dispatcher.Settling? && Outcomes(s'.dispatcher) == Outcomes(s.dispatcher)[1..]
              && Acceptance.OutboxChanged(s.db, s'.db) && s'.db.audit == s.db.audit
              && (forall other: nat :: other < |s.db.outbox| && other != id ==> s'.db.outbox[other] == s.db.outbox[other])
              && s'.db.outbox[id].completedAt == Some(now)
              && s'.db.outbox[id].attempts == was.attempts + (if error.Some? then 1 else 0)
              && s'.db.outbox[id].lastError == (if error.Some? then error else was.lastError)
            else s' == s.(dispatcher := Resting)
  {
    var (id, error) := Outcomes(s.dispatcher)[0];
    Acceptance.SettleExact(w.policy, s.db, id, error, now);
  }

  /** A claim is followed by the rows it claimed, in claim order. */
  lemma ClaimedIsWaiting(w: World, s: Sys, now: Time)
    requires s.dispatcher.Claiming?
    ensures var s', ids := DispatchNext(w, s, DoClaim(now)), ClaimedIds(w.policy, s.db.outbox, now);
            if Apply(w.policy, s.db, Claim(now)).Success? then
              && s'.db == Commit(w.policy, s.db, Claim(now)) && s'.claims == s.claims + ids
              && s'.dispatcher.Handling? && Waiting(s'.dispatcher) == ids && Outcomes(s'.dispatcher) == []
            else s' == s.(dispatcher := Resting)
  {
  }

  // ---- Bounds --------------------------------------------------------------------------------

  /** A row's handler runs at most `maxAttempts + 1` times, whatever crashes and races there
      are; a claimed, unfinished row has been claimed exactly `attempts + 1` times. */
  lemma BoundedDispatch(w: World, steps: seq<Step>, id: nat)
    ensures var s := Reached(w, steps);
            && Count(s.handled, id) <= Count(s.claims, id) <= w.policy.maxAttempts + 1
            && (InHand(s.db.outbox, id) ==>
                  Count(s.claims, id) == s.db.outbox[id].attempts + 1
                  && s.db.outbox[id].attempts <= w.policy.maxAttempts)
  {
    InvHolds(w, steps);
    var s := Reached(w, steps);
    if id < |s.db.outbox| {
      assert RowOk(w.policy, s.db.outbox[id], Count(s.claims, id), Count(s.handled, id), id in Waiting(s.dispatcher));
    }
  }

  // ---- The measure -----------------------------------------------------------------------------

  /** What a row may still cost: nothing once settled, else one more than its claims leave. */
  function Due(policy: Policy, row: OutboxRow, claims: nat): int {
    if row.completedAt.Some? then 0 else policy.maxAttempts + 2 - claims
  }

  function Remaining(policy: Policy, rows: seq<OutboxRow>, claims: seq<nat>): int {
    if rows == [] then 0
    else
      var n := |rows| - 1;
      Remaining(policy, rows[..n], claims) + Due(policy, rows[n], Count(claims, n))
  }

  lemma {:induction false} RemainingMonotone(
    policy: Policy, rows: seq<OutboxRow>, claims: seq<nat>, rows': seq<OutboxRow>, claims': seq<nat>)
    requires |rows| == |rows'|
    requires forall id: nat :: id < |rows| ==>
               Due(policy, rows'[id], Count(claims', id)) <= Due(policy, rows[id], Count(claims, id))
    ensures Remaining(policy, rows', claims') <= Remaining(policy, rows, claims)
    ensures (exists id: nat :: id < |rows| &&
               Due(policy, rows'[id], Count(claims', id)) < Due(policy, rows[id], Count(claims, id))) ==>
            Remaining(policy, rows', claims') < Remaining(policy, rows, claims)
  {
    if rows != [] {
      var n := |rows| - 1;
      assert forall id: nat :: id < n ==> rows[..n][id] == rows[id] && rows'[..n][id] == rows'[id];
      RemainingMonotone(policy, rows[..n], claims, rows'[..n], claims');
    }
  }

  function Budget(policy: Policy, rows: seq<OutboxRow>): nat {
    (policy.maxAttempts + 2) * |rows|
  }

  lemma BudgetGrows(policy: Policy, rows: seq<OutboxRow>)
    requires rows != []
    ensures Budget(policy, rows) == Budget(policy, rows[..|rows| - 1]) + policy.maxAttempts + 2
  {
  }

  /** A new row adds as much to the measure as to the budget. */
  lemma {:induction false} RemainingEnqueued(policy: Policy, rows: seq<OutboxRow>, rows': seq<OutboxRow>, claims: seq<nat>)
    requires OnlyEnqueues(rows, rows')
    requires forall id: nat :: |rows| <= id < |rows'| ==> Count(claims, id) == 0
    ensures Remaining(policy, rows', claims) - Budget(policy, rows') == Remaining(policy, rows, claims) - Budget(policy, rows)
  {
    if |rows'| == |rows| {
      assert rows' == rows;
    } else {
      var n: nat := |rows'| - 1;
      RemainingEnqueued(policy, rows, rows'[..n], claims);
      BudgetGrows(policy, rows');
      assert Untouched(rows'[n]) && Count(claims, n) == 0;
    }
  }

  lemma {:induction false} RemainingPositive(policy: Policy, rows: seq<OutboxRow>, claims: seq<nat>)
    requires forall id: nat :: id < |rows| ==> Due(policy, rows[id], Count(claims, id)) >= 0
    ensures Remaining(policy, rows, claims) >= 0
  {
    if rows != [] {
      RemainingPositive(policy, rows[..|rows| - 1], claims);
    }
  }

  /** The row is as it was, or strictly closer to its end. */
  predicate Descends(policy: Policy, row: OutboxRow, claims: nat, row': OutboxRow, claims': nat) {
    || (row' == row && claims' == claims)
    || (row' != row && Due(policy, row', claims') < Due(policy, row, claims))
  }

  lemma AbandonDescends(policy: Policy, rows: seq<OutboxRow>, now: Time, id: nat, claims: nat)
    requires id < |rows| && claims <= policy.maxAttempts + 1
    ensures Descends(policy, rows[id], claims,
                     Update(rows, ExhaustedBatch(policy, rows, now), AbandonAt(now, ABANDONED))[id], claims)
  {
    ExhaustedRows(policy, rows, now);
  }

  lemma ClaimDescends(policy: Policy, rows: seq<OutboxRow>, now: Time, id: nat, claims: seq<nat>)
    requires id < |rows| && (rows[id].claimedAt.None? ==> rows[id].completedAt.None?)
    ensures |ClaimedRows(policy, rows, now)| == |rows|
    ensures Descends(policy, rows[id], Count(claims, id),
                     ClaimedRows(policy, rows, now)[id], Count(claims + ClaimedIds(policy, rows, now), id))
  {
    var ids := ClaimedIds(policy, rows, now);
    ClaimBatch(policy, rows, now);
    ClaimEffect(policy, rows, now, id);
    DistinctCount(ids, id);
    CountConcat(claims, ids, id);
  }

  lemma SettleDescends(policy: Policy, rows: seq<OutboxRow>, action: nat, error: Option<string>, now: Time, id: nat, claims: nat)
    requires id < |rows| && claims <= policy.maxAttempts + 1 && (id == action ==> rows[id].completedAt.None?)
    ensures Descends(policy, rows[id], claims, Update(rows, [action], SettleChange(error, now))[id], claims)
  {
  }

  /** Every row is as it was or closer to its end. */
  ghost predicate Progress(w: World, s: Sys, s': Sys) {
    && |s'.db.outbox| == |s.db.outbox|
    && forall id: nat :: id < |s.db.outbox| ==>
         Descends(w.policy, s.db.outbox[id], Count(s.claims, id), s'.db.outbox[id], Count(s'.claims, id))
  }

  lemma AbandonProgress(w: World, s: Sys, now: Time)
    requires Inv(w, s)
    ensures Progress(w, s, DispatchNext(w, s, DoAbandon(now)))
  {
    forall id: nat | id < |s.db.outbox|
      ensures Descends(w.policy, s.db.outbox[id], Count(s.claims, id),
                       Update(s.db.outbox, ExhaustedBatch(w.policy, s.db.outbox, now), AbandonAt(now, ABANDONED))[id],
                       Count(s.claims, id))
    {
      assert RowOk(w.policy, s.db.outbox[id], Count(s.claims, id), Count(s.handled, id), id in Waiting(s.dispatcher));
      AbandonDescends(w.policy, s.db.outbox, now, id, Count(s.claims, id));
    }
  }

  lemma ClaimedProgress(w: World, s: Sys, s': Sys, now: Time)
    requires RowsOk(w, s) && s'.db.outbox == ClaimedRows(w.policy, s.db.outbox, now)
    requires s'.claims == s.claims + ClaimedIds(w.policy, s.db.outbox, now)
    ensures Progress(w, s, s')
  {
    forall id: nat | id < |s.db.outbox|
      ensures Descends(w.policy, s.db.outbox[id], Count(s.claims, id), s'.db.outbox[id], Count(s'.claims, id))
    {
      assert RowOk(w.policy, s.db.outbox[id], Count(s.claims, id), Count(s.handled, id), id in Waiting(s.dispatcher));
      ClaimDescends(w.policy, s.db.outbox, now, id, s.claims);
    }
  }

  lemma ClaimProgress(w: World, s: Sys, now: Time)
    requires Inv(w, s)
    ensures Progress(w, s, DispatchNext(w, s, DoClaim(now)))
  {
    if s.dispatcher.Claiming? && Apply(w.policy, s.db, Claim(now)).Success? {
      ClaimedProgress(w, s, DispatchNext(w, s, DoClaim(now)), now);
    }
  }

  lemma SettleProgress(w: World, s: Sys, now: Time)
    requires Inv(w, s)
    ensures Progress(w, s, DispatchNext(w, s, DoSettle(now)))
  {
    if s.dispatcher.Settling? && s.dispatcher.rest != [] {
      var (action, error) := s.dispatcher.rest[0];
      assert ActionIds(s.dispatcher.rest)[0] in Held(s.dispatcher);
      forall id: nat | id < |s.db.outbox|
        ensures Descends(w.policy, s.db.outbox[id], Count(s.claims, id),
                         Update(s.db.outbox, [action], SettleChange(error, now))[id], Count(s.claims, id))
      {
        assert RowOk(w.policy, s.db.outbox[id], Count(s.claims, id), Count(s.handled, id), id in Waiting(s.dispatcher));
        SettleDescends(w.policy, s.db.outbox, action, error, now, id, Count(s.claims, id));
      }
    }
  }

  lemma DispatchProgress(w: World, s: Sys, act: DispatchAct)
    requires Inv(w, s)
    ensures Progress(w, s, DispatchNext(w, s, act))
  {
    match act
    case DoAbandon(now) => AbandonProgress(w, s, now);
    case DoClaim(now) => ClaimProgress(w, s, now);
    case DoSettle(now) => SettleProgress(w, s, now);
    case _ =>
  }

  lemma AbandonMarks(policy: Policy, rows: seq<OutboxRow>, now: Time)
    requires ExhaustedBatch(policy, rows, now) != []
    ensures Update(rows, ExhaustedBatch(policy, rows, now), AbandonAt(now, ABANDONED)) != rows
  {
    ExhaustedRows(policy, rows, now);
    var id := ExhaustedBatch(policy, rows, now)[0];
    assert id in ExhaustedBatch(policy, rows, now);
    assert Update(rows, ExhaustedBatch(policy, rows, now), AbandonAt(now, ABANDONED))[id] != rows[id];
  }

  /** A dispatcher step changes the store only by changing some row. */
  lemma ChangesARow(w: World, s: Sys, act: DispatchAct)
    requires DispatchNext(w, s, act).db != s.db
    ensures DispatchNext(w, s, act).db.outbox != s.db.outbox
  {
    if act.DoAbandon? && s.dispatcher.Resting? && ExhaustedBatch(w.policy, s.db.outbox, act.now) != [] {
      AbandonMarks(w.policy, s.db.outbox, act.now);
    }
  }

  lemma ProgressLowers(w: World, s: Sys, s': Sys)
    requires Progress(w, s, s')
    ensures var before, after := Remaining(w.policy, s.db.outbox, s.claims), Remaining(w.policy, s'.db.outbox, s'.claims);
            after <= before && (s'.db.outbox != s.db.outbox ==> after < before)
  {
    RemainingMonotone(w.policy, s.db.outbox, s.claims, s'.db.outbox, s'.claims);
    if s'.db.outbox != s.db.outbox {
      var id: nat :| id < |s.db.outbox| && s'.db.outbox[id] != s.db.outbox[id];
      assert Due(w.policy, s'.db.outbox[id], Count(s'.claims, id)) < Due(w.policy, s.db.outbox[id], Count(s.claims, id));
    }
  }

  lemma DueNonNegative(w: World, s: Sys)
    requires Inv(w, s)
    ensures Remaining(w.policy, s.db.outbox, s.claims) >= 0
  {
    forall id: nat | id < |s.db.outbox|
      ensures Due(w.policy, s.db.outbox[id], Count(s.claims, id)) >= 0
    {
      assert RowOk(w.policy, s.db.outbox[id], Count(s.claims, id), Count(s.handled, id), id in Waiting(s.dispatcher));
    }
    RemainingPositive(w.policy, s.db.outbox, s.claims);
  }

  /** Every dispatcher step that commits a change strictly lowers the measure. */
  lemma DispatchDescends(w: World, s: Sys, act: DispatchAct)
    requires Inv(w, s) && DispatchNext(w, s, act).db != s.db
    ensures var s' := DispatchNext(w, s, act);
            0 <= Remaining(w.policy, s'.db.outbox, s'.claims) < Remaining(w.policy, s.db.outbox, s.claims)
  {
    DispatchProgress(w, s, act);
    ChangesARow(w, s, act);
    ProgressLowers(w, s, DispatchNext(w, s, act));
    DispatchKeeps(w, s, act);
    DueNonNegative(w, DispatchNext(w, s, act));
  }

  // ---- Settled is final ------------------------------------------------------------------------

  ghost predicate SettledAs(s: Sys, id: nat, row: OutboxRow) {
    id < |s.db.outbox| && s.db.outbox[id] == row && row.completedAt.Some?
  }

  lemma SettledStays(w: World, s: Sys, step: Step, id: nat, row: OutboxRow)
    requires Inv(w, s) && SettledAs(s, id, row)
    ensures SettledAs(Next(w, s, step), id, row)
  {
    var s' := Next(w, s, step);
    if step.DispatchStep? {
      InvKept(w, s, step);
      DispatchProgress(w, s, step.dispatchAct);
      assert RowOk(w.policy, s'.db.outbox[id], Count(s'.claims, id), Count(s'.handled, id), id in Waiting(s'.dispatcher));
    } else {
      OthersOnlyEnqueue(w, s, step);
    }
  }

  lemma {:induction false} SettledAfter(w: World, s: Sys, steps: seq<Step>, id: nat, row: OutboxRow)
    requires Inv(w, s) && SettledAs(s, id, row)
    ensures Inv(w, After(w, s, steps)) && SettledAs(After(w, s, steps), id, row)
  {
    if steps != [] {
      var n := |steps| - 1;
      SettledAfter(w, s, steps[..n], id, row);
      InvKept(w, After(w, s, steps[..n]), steps[n]);
      SettledStays(w, After(w, s, steps[..n]), steps[n], id, row);
    }
  }

  /** A settled row never changes again. */
  lemma SettledForever(w: World, steps: seq<Step>, further: seq<Step>, id: nat, row: OutboxRow)
    requires SettledAs(Reached(w, steps), id, row)
    ensures SettledAs(After(w, Reached(w, steps), further), id, row)
  {
    InvHolds(w, steps);
    SettledAfter(w, Reached(w, steps), further, id, row);
  }

  // ---- The dispatcher runs out of work ---------------------------------------------------------

  /** One when the step is the dispatcher's and changed the store. */
  ghost function Cost(w: World, s: Sys, step: Step): nat {
    if step.DispatchStep? && Next(w, s, step).db != s.db then 1 else 0
  }

  /** How many dispatcher steps have changed the store. */
  ghost function DispatcherCommits(w: World, steps: seq<Step>): nat {
    if steps == [] then 0
    else
      var n := |steps| - 1;
      DispatcherCommits(w, steps[..n]) + Cost(w, Reached(w, steps[..n]), steps[n])
  }

  lemma MeasureStep(w: World, s: Sys, step: Step)
    requires Inv(w, s)
    ensures var s' := Next(w, s, step);
            Cost(w, s, step) + Remaining(w.policy, s'.db.outbox, s'.claims) - Budget(w.policy, s'.db.outbox)
            <= Remaining(w.policy, s.db.outbox, s.claims) - Budget(w.policy, s.db.outbox)
  {
    if step.DispatchStep? {
      DispatchProgress(w, s, step.dispatchAct);
      ProgressLowers(w, s, Next(w, s, step));
      if Next(w, s, step).db != s.db {
        DispatchDescends(w, s, step.dispatchAct);
      }
    } else {
      EnqueueMeasure(w, s, step);
    }
  }

  lemma EnqueueMeasure(w: World, s: Sys, step: Step)
    requires Inv(w, s) && !step.DispatchStep?
    ensures var s' := Next(w, s, step);
            Remaining(w.policy, s'.db.outbox, s'.claims) - Budget(w.policy, s'.db.outbox)
            == Remaining(w.policy, s.db.outbox, s.claims) - Budget(w.policy, s.db.outbox)
  {
    OthersOnlyEnqueue(w, s, step);
    RemainingEnqueued(w.policy, s.db.outbox, Next(w, s, step).db.outbox, s.claims);
  }

  /** Over any run of the service the dispatcher changes the store at most `maxAttempts + 2`
      times per row ever enqueued: with no new rows it runs out of work. */
  lemma {:induction false} DispatcherTerminates(w: World, steps: seq<Step>)
    ensures var s := Reached(w, steps);
            && DispatcherCommits(w, steps) + Remaining(w.policy, s.db.outbox, s.claims) <= Budget(w.policy, s.db.outbox)
            && Remaining(w.policy, s.db.outbox, s.claims) >= 0
  {
    InvHolds(w, steps);
    DueNonNegative(w, Reached(w, steps));
    if steps != [] {
      var n := |steps| - 1;
      InvHolds(w, steps[..n]);
      DispatcherTerminates(w, steps[..n]);
      MeasureStep(w, Reached(w, steps[..n]), steps[n]);
    }
  }
}
