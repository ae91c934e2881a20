/** When an outbox row is dispatched again: not never, as the dispatcher's documentation has it,
    but exactly when a stale claim is taken over, and only after the tick that held the row died
    before settling it. */
module Redispatch {
  import opened Wrappers
  import opened Sequences
  import opened RunStates
  import opened Database
  import opened Outbox
  import opened Transactions
  import opened Effects
  import opened Lifecycle
  import opened Dispatching
  import Sweeping

  // ---- Claimed once ------------------------------------------------------------------------

  /** The step commits a claim. */
  predicate ClaimsNow(w: World, s: Sys, step: Step) {
    && step.DispatchStep? && step.dispatchAct.DoClaim? && s.dispatcher.Claiming?
    && Apply(w.policy, s.db, Claim(step.dispatchAct.now)).Success?
  }

  /** The step claims stale rows: the guard is the stuck batch, read off the table. */
  predicate Reclaims(w: World, s: Sys, step: Step) {
    ClaimsNow(w, s, step) && StuckBatch(w.policy, s.db.outbox, step.dispatchAct.now) != []
  }

  ghost predicate NeverReclaims(w: World, steps: seq<Step>) {
    steps == [] ||
    (NeverReclaims(w, steps[..|steps| - 1]) && !Reclaims(w, Reached(w, steps[..|steps| - 1]), steps[|steps| - 1]))
  }

  ghost predicate ClaimedOnce(claims: seq<nat>) {
    forall id: nat :: Count(claims, id) <= 1
  }

  /** What a step leaves as the record of claims. */
  predicate ClaimsAfter(w: World, s: Sys, step: Step, claims: seq<nat>) {
    claims == if ClaimsNow(w, s, step) then s.claims + ClaimedIds(w.policy, s.db.outbox, step.dispatchAct.now) else s.claims
  }

  lemma ClaimsStep(w: World, s: Sys, step: Step)
    ensures ClaimsAfter(w, s, step, Next(w, s, step).claims)
  {
    if !step.DispatchStep? {
      OthersOnlyEnqueue(w, s, step);
    }
  }

  lemma FreshClaimsOnce(w: World, s: Sys, now: Time)
    requires Inv(w, s) && ClaimedOnce(s.claims) && StuckBatch(w.policy, s.db.outbox, now) == []
    ensures ClaimedOnce(s.claims + ClaimedIds(w.policy, s.db.outbox, now))
  {
    var ids := ClaimedIds(w.policy, s.db.outbox, now);
    ClaimBatch(w.policy, s.db.outbox, now);
    assert ids == FreshBatch(w.policy, s.db.outbox);
    forall id: nat
      ensures Count(s.claims + ids, id) <= 1
    {
      CountConcat(s.claims, ids, id);
      DistinctCount(ids, id);
      if id in ids {
        assert RowOk(w.policy, s.db.outbox[id], Count(s.claims, id), Count(s.handled, id), id in Waiting(s.dispatcher));
      }
    }
  }

  lemma StaleClaimsTwice(w: World, s: Sys, now: Time)
    requires Inv(w, s) && StuckBatch(w.policy, s.db.outbox, now) != []
    ensures !ClaimedOnce(s.claims + ClaimedIds(w.policy, s.db.outbox, now))
  {
    var stuck := StuckBatch(w.policy, s.db.outbox, now);
    var ids := ClaimedIds(w.policy, s.db.outbox, now);
    var id := stuck[0];
    ClaimBatch(w.policy, s.db.outbox, now);
    assert id in stuck && id in ids;
    assert RowOk(w.policy, s.db.outbox[id], Count(s.claims, id), Count(s.handled, id), id in Waiting(s.dispatcher));
    CountConcat(s.claims, ids, id);
    assert Count(s.claims + ids, id) >= 2;
  }

  lemma ClaimedOnceAfter(w: World, s: Sys, step: Step, claims: seq<nat>)
    requires Inv(w, s) && ClaimsAfter(w, s, step, claims)
    ensures ClaimedOnce(claims) <==> ClaimedOnce(s.claims) && !Reclaims(w, s, step)
  {
    if ClaimsNow(w, s, step) {
      var now := step.dispatchAct.now;
      var ids := ClaimedIds(w.policy, s.db.outbox, now);
      if Reclaims(w, s, step) {
        StaleClaimsTwice(w, s, now);
      } else if ClaimedOnce(s.claims) {
        FreshClaimsOnce(w, s, now);
      } else {
        var id: nat :| Count(s.claims, id) > 1;
        CountConcat(s.claims, ids, id);
      }
    }
  }

  /** No row is ever claimed twice exactly when no claim ever found a stale one. */
  lemma {:induction false} ClaimedOnceIff(w: World, steps: seq<Step>)
    ensures ClaimedOnce(Reached(w, steps).claims) <==> NeverReclaims(w, steps)
  {
    if steps != [] {
      var n := |steps| - 1;
      ClaimedOnceIff(w, steps[..n]);
      InvHolds(w, steps[..n]);
      ClaimsStep(w, Reached(w, steps[..n]), steps[n]);
      ClaimedOnceAfter(w, Reached(w, steps[..n]), steps[n], Reached(w, steps).claims);
    }
  }

  // ---- Why a claim is stale ------------------------------------------------------------------

  /** The dispatcher lets go of a row it held without settling it: its tick dies. */
  predicate Dies(w: World, s: Sys, step: Step) {
    || step.Crash?
    || (step.DispatchStep? && step.dispatchAct.Fail?)
    || (&& step.DispatchStep? && step.dispatchAct.DoSettle? && s.dispatcher.Settling? && s.dispatcher.rest != []
        && Apply(w.policy, s.db, Settle(s.dispatcher.rest[0].0, s.dispatcher.rest[0].1, step.dispatchAct.now)).Failure?)
  }

  predicate Drops(w: World, s: Sys, step: Step, id: nat) {
    id in Held(s.dispatcher) && Dies(w, s, step)
  }

  /** How often a tick holding the row has died before settling it. */
  ghost function Deaths(w: World, steps: seq<Step>, id: nat): nat {
    if steps == [] then 0
    else
      var n := |steps| - 1;
      Deaths(w, steps[..n], id) + if Drops(w, Reached(w, steps[..n]), steps[n], id) then 1 else 0
  }

  /** An unfinished row's claims are its deaths, and one more while a tick holds it. */
  predicate MatchedIn(rows: seq<OutboxRow>, claims: nat, held: bool, id: nat, deaths: nat) {
    if id >= |rows| then deaths == 0
    else if rows[id].completedAt.None? then claims == deaths + if held then 1 else 0
    else deaths <= claims <= deaths + 1
  }

  predicate Matched(s: Sys, id: nat, deaths: nat) {
    MatchedIn(s.db.outbox, Count(s.claims, id), id in Held(s.dispatcher), id, deaths)
  }

  /** The row's own bookkeeping, out of the invariant. */
  lemma RowFacts(w: World, s: Sys, id: nat)
    requires Inv(w, s)
    ensures id in Held(s.dispatcher) ==> InHand(s.db.outbox, id)
    ensures id >= |s.db.outbox| ==> Count(s.claims, id) == 0
    ensures id < |s.db.outbox| && s.db.outbox[id].claimedAt.None? ==>
              Count(s.claims, id) == 0 && s.db.outbox[id].completedAt.None?
  {
    if id < |s.db.outbox| {
      assert RowOk(w.policy, s.db.outbox[id], Count(s.claims, id), Count(s.handled, id), id in Waiting(s.dispatcher));
    } else {
      assert Count(s.claims, id) == 0;
    }
  }

  lemma OthersMatched(w: World, s: Sys, step: Step, id: nat, deaths: nat)
    requires Inv(w, s) && Matched(s, id, deaths) && !step.DispatchStep?
    ensures Matched(Next(w, s, step), id, deaths + if Drops(w, s, step, id) then 1 else 0)
  {
    OthersOnlyEnqueue(w, s, step);
    RowFacts(w, s, id);
  }

  lemma AbandonMatched(w: World, s: Sys, now: Time, id: nat, deaths: nat)
    requires Inv(w, s) && Matched(s, id, deaths)
    ensures Matched(DispatchNext(w, s, DoAbandon(now)), id, deaths)
  {
    ExhaustedRows(w.policy, s.db.outbox, now);
  }

  lemma ClaimedMatched(policy: Policy, rows: seq<OutboxRow>, now: Time, claims: seq<nat>, id: nat, deaths: nat)
    requires MatchedIn(rows, Count(claims, id), false, id, deaths)
    requires id < |rows| && rows[id].claimedAt.None? ==> rows[id].completedAt.None?
    ensures var ids := ClaimedIds(policy, rows, now);
            MatchedIn(ClaimedRows(policy, rows, now), Count(claims + ids, id), id in ids, id, deaths)
  {
    var ids := ClaimedIds(policy, rows, now);
    ClaimedBounds(policy, rows, now);
    CountConcat(claims, ids, id);
    DistinctCount(ids, id);
    if id < |rows| {
      ClaimCompletes(policy, rows, now, id);
    }
  }

  lemma ClaimedStateMatched(w: World, s: Sys, s': Sys, now: Time, id: nat, deaths: nat)
    requires Matched(s, id, deaths) && id !in Held(s.dispatcher)
    requires id < |s.db.outbox| && s.db.outbox[id].claimedAt.None? ==> s.db.outbox[id].completedAt.None?
    requires s'.db.outbox == ClaimedRows(w.policy, s.db.outbox, now)
    requires var ids := ClaimedIds(w.policy, s.db.outbox, now);
             s'.claims == s.claims + ids && s'.dispatcher == Handling(ids, [])
    ensures Matched(s', id, deaths)
  {
    ClaimedMatched(w.policy, s.db.outbox, now, s.claims, id, deaths);
    var ids := ClaimedIds(w.policy, s.db.outbox, now);
    assert Held(s'.dispatcher) == ids;
  }

  lemma ClaimMatched(w: World, s: Sys, now: Time, id: nat, deaths: nat)
    requires Inv(w, s) && Matched(s, id, deaths)
    ensures Matched(DispatchNext(w, s, DoClaim(now)), id, deaths)
  {
    RowFacts(w, s, id);
    ClaimStep(w, s, now);
    if ClaimsNow(w, s, DispatchStep(DoClaim(now))) {
      ClaimedStateMatched(w, s, DispatchNext(w, s, DoClaim(now)), now, id, deaths);
    }
  }

  /** A claim either commits or changes nothing. */
  lemma ClaimStep(w: World, s: Sys, now: Time)
    ensures var s' := DispatchNext(w, s, DoClaim(now));
            if ClaimsNow(w, s, DispatchStep(DoClaim(now))) then
              var ids := ClaimedIds(w.policy, s.db.outbox, now);
              && s'.db.outbox == ClaimedRows(w.policy, s.db.outbox, now)
              && s'.claims == s.claims + ids && s'.dispatcher == Handling(ids, [])
            else s'.db == s.db && s'.claims == s.claims && Held(s'.dispatcher) == Held(s.dispatcher)
  {
  }

  /** The same rows, in another arrangement or under another point of the tick. */
  ghost predicate SameHeld(d: Dispatcher, d': Dispatcher) {
    forall id :: id in Held(d') <==> id in Held(d)
  }

  lemma HandlingHolds(todo: seq<nat>, outcomes: seq<(nat, Option<string>)>, error: Option<string>)
    requires todo != [] && Distinct(Held(Handling(todo, outcomes)))
    ensures SameHeld(Handling(todo, outcomes), Handling(todo[1..], outcomes + [(todo[0], error)]))
  {
    HandledOnce(todo, outcomes, error);
  }

  lemma SettlingHolds(outcomes: seq<(nat, Option<string>)>)
    ensures SameHeld(Handling([], outcomes), Settling(outcomes))
  {
    assert Held(Handling([], outcomes)) == ActionIds(outcomes);
  }

  /** A handler's turn changes no row, no claim, and not which rows are held. */
  lemma HandleHeld(w: World, s: Sys, invoked: bool, error: Option<string>)
    requires Distinct(Held(s.dispatcher))
    ensures var s' := DispatchNext(w, s, Handle(invoked, error));
            s'.db == s.db && s'.claims == s.claims && SameHeld(s.dispatcher, s'.dispatcher)
  {
    if s.dispatcher.Handling? {
      if s.dispatcher.todo == [] {
        SettlingHolds(s.dispatcher.outcomes);
      } else {
        HandlingHolds(s.dispatcher.todo, s.dispatcher.outcomes, error);
      }
    }
  }

  lemma HandleMatched(w: World, s: Sys, invoked: bool, error: Option<string>, id: nat, deaths: nat)
    requires Inv(w, s) && Matched(s, id, deaths)
    ensures Matched(DispatchNext(w, s, Handle(invoked, error)), id, deaths)
  {
    HandleHeld(w, s, invoked, error);
  }

  lemma SettledMatched(rows: seq<OutboxRow>, rest: seq<(nat, Option<string>)>, now: Time, claims: nat, id: nat, deaths: nat)
    requires rest != [] && Distinct(ActionIds(rest))
    requires MatchedIn(rows, claims, id in ActionIds(rest), id, deaths)
    requires id in ActionIds(rest) ==> id < |rows| && rows[id].completedAt.None?
    ensures MatchedIn(Update(rows, [rest[0].0], SettleChange(rest[0].1, now)), claims, id in ActionIds(rest[1..]), id, deaths)
  {
    var ids := ActionIds(rest);
    assert ActionIds(rest[1..]) == ids[1..] && ids == [ids[0]] + ids[1..];
  }

  /** A settle either commits, or the tick dies, or there is nothing to settle. */
  lemma SettleEffect(w: World, s: Sys, now: Time)
    ensures var s', step := DispatchNext(w, s, DoSettle(now)), DispatchStep(DoSettle(now));
            if Dies(w, s, step) then s' == s.(dispatcher := Resting)
            else if s.dispatcher.Settling? && s.dispatcher.rest != [] then
              var rest := s.dispatcher.rest;
              && s'.db.outbox == Update(s.db.outbox, [rest[0].0], SettleChange(rest[0].1, now))
              && s'.claims == s.claims && s'.dispatcher == Settling(rest[1..])
            else s'.db == s.db && s'.claims == s.claims && Held(s'.dispatcher) == Held(s.dispatcher)
  {
  }

  lemma SettleMatched(w: World, s: Sys, now: Time, id: nat, deaths: nat)
    requires Inv(w, s) && Matched(s, id, deaths)
    ensures var step := DispatchStep(DoSettle(now));
            Matched(DispatchNext(w, s, DoSettle(now)), id, deaths + if Drops(w, s, step, id) then 1 else 0)
  {
    RowFacts(w, s, id);
    SettleEffect(w, s, now);
    if Dies(w, s, DispatchStep(DoSettle(now))) {
      RestMatched(w, s, id, deaths);
    } else if s.dispatcher.Settling? && s.dispatcher.rest != [] {
      SettledStateMatched(w, s, DispatchNext(w, s, DoSettle(now)), now, id, deaths);
    }
  }

  /** Letting go of every row held. */
  lemma RestMatched(w: World, s: Sys, id: nat, deaths: nat)
    requires Matched(s, id, deaths) && (id in Held(s.dispatcher) ==> InHand(s.db.outbox, id))
    ensures Matched(s.(dispatcher := Resting), id, deaths + if id in Held(s.dispatcher) then 1 else 0)
  {
  }

  lemma SettledStateMatched(w: World, s: Sys, s': Sys, now: Time, id: nat, deaths: nat)
    requires Matched(s, id, deaths) && s.dispatcher.Settling? && s.dispatcher.rest != [] && Distinct(Held(s.dispatcher))
    requires id in Held(s.dispatcher) ==> InHand(s.db.outbox, id)
    requires var rest := s.dispatcher.rest;
             && s'.db.outbox == Update(s.db.outbox, [rest[0].0], SettleChange(rest[0].1, now))
             && s'.claims == s.claims && s'.dispatcher == Settling(rest[1..])
    ensures Matched(s', id, deaths)
  {
    SettledMatched(s.db.outbox, s.dispatcher.rest, now, Count(s.claims, id), id, deaths);
  }

  lemma FailMatched(w: World, s: Sys, id: nat, deaths: nat)
    requires Inv(w, s) && Matched(s, id, deaths)
    ensures Matched(DispatchNext(w, s, Fail), id, deaths + if Drops(w, s, DispatchStep(Fail), id) then 1 else 0)
  {
    RowFacts(w, s, id);
  }

  lemma MatchedStep(w: World, s: Sys, step: Step, id: nat, deaths: nat)
    requires Inv(w, s) && Matched(s, id, deaths)
    ensures Matched(Next(w, s, step), id, deaths + if Drops(w, s, step, id) then 1 else 0)
  {
    if step.DispatchStep? {
      DispatchMatched(w, s, step.dispatchAct, id, deaths);
      DispatchIs(w, s, step.dispatchAct);
    } else {
      OthersMatched(w, s, step, id, deaths);
    }
  }

  lemma DispatchIs(w: World, s: Sys, act: DispatchAct)
    ensures Next(w, s, DispatchStep(act)) == DispatchNext(w, s, act)
  {
  }

  lemma DispatchMatched(w: World, s: Sys, act: DispatchAct, id: nat, deaths: nat)
    requires Inv(w, s) && Matched(s, id, deaths)
    ensures Matched(DispatchNext(w, s, act), id, deaths + if Drops(w, s, DispatchStep(act), id) then 1 else 0)
  {
    match act
    case DoAbandon(now) => AbandonMatched(w, s, now, id, deaths);
    case DoClaim(now) => ClaimMatched(w, s, now, id, deaths);
    case Handle(invoked, error) => HandleMatched(w, s, invoked, error, id, deaths);
    case DoSettle(now) => SettleMatched(w, s, now, id, deaths);
    case Fail => FailMatched(w, s, id, deaths);
  }

  /** Over every run of the service: an unfinished row has been claimed once for each tick that
      died holding it, and once more while a tick holds it now. */
  lemma {:induction false} ClaimsMatchDeaths(w: World, steps: seq<Step>, id: nat)
    ensures Matched(Reached(w, steps), id, Deaths(w, steps, id))
  {
    if steps != [] {
      var n := |steps| - 1;
      ClaimsMatchDeaths(w, steps[..n], id);
      InvHolds(w, steps[..n]);
      MatchedStep(w, Reached(w, steps[..n]), steps[n], id, Deaths(w, steps[..n], id));
    }
  }

  /** A row is claimed again only after every tick that had claimed it died before settling it. */
  lemma ReclaimedOnlyAfterDeath(w: World, steps: seq<Step>, now: Time, id: nat)
    requires var s := Reached(w, steps);
             s.dispatcher.Claiming? && id in StuckBatch(w.policy, s.db.outbox, now)
    ensures var s := Reached(w, steps);
            Deaths(w, steps, id) == Count(s.claims, id) && Count(s.claims, id) >= 1
  {
    var s := Reached(w, steps);
    InvHolds(w, steps);
    ClaimsMatchDeaths(w, steps, id);
    ClaimBatch(w.policy, s.db.outbox, now);
    assert RowOk(w.policy, s.db.outbox[id], Count(s.claims, id), Count(s.handled, id), id in Waiting(s.dispatcher));
  }

  // ---- A row handled twice ---------------------------------------------------------------------

  lemma SortOne(id: nat, before: (nat, nat) -> bool)
    ensures Sort([id], before) == [id]
  {
    var ids: seq<nat> := [id];
    assert ids[1..] == [];
    assert Sort(ids[1..], before) == [];
    assert Insert(id, [], before) == [id] + [];
  }

  lemma OneRowBatch(rows: seq<OutboxRow>, filter: OutboxRow -> bool, before: (nat, nat) -> bool, limit: nat)
    requires |rows| == 1 && limit >= 1
    ensures Batch(rows, filter, before, limit) == if filter(rows[0]) then [0] else []
  {
    var none: seq<nat> := [];
    var first: seq<nat> := [0];
    assert SelectIds(rows[..0], filter) == none;
    assert SelectIds(rows, filter) == none + if filter(rows[0]) then first else none;
    assert SelectIds(rows, filter) == if filter(rows[0]) then first else none;
    SortOne(0, before);
    assert Sort(none, before) == none;
  }

  /** A claimed row of an orphaned run, and the store around it. */
  ghost predicate OneRow(s: Sys, row: OutboxRow) {
    && s.db.outbox == [row] && row.run in s.db.runs && ReadRun(s.db, row.run).Success?
    && ValidRow(row) && row.completedAt.None?
  }

  lemma NothingExhausted(policy: Policy, row: OutboxRow, now: Time)
    requires row.attempts < policy.maxAttempts
    ensures ExhaustedBatch(policy, [row], now) == []
  {
    var rows := [row];
    OneRowBatch(rows, StuckExhausted(now - policy.staleAfter, policy.maxAttempts), ByClaimed(rows), policy.batchLimit);
  }

  /** Nothing is exhausted: the tick goes on to claim. */
  lemma NothingToAbandon(w: World, s: Sys, row: OutboxRow, now: Time)
    requires OneRow(s, row) && row.attempts < w.policy.maxAttempts && s.dispatcher.Resting?
    ensures DispatchNext(w, s, DoAbandon(now)) == s.(dispatcher := Claiming)
  {
    NothingExhausted(w.policy, row, now);
    assert Update(s.db.outbox, [], AbandonAt(now, ABANDONED)) == s.db.outbox;
    assert s.db.audit + [] == s.db.audit;
  }

  lemma FreshOf(policy: Policy, row: OutboxRow)
    ensures FreshBatch(policy, [row]) == if row.claimedAt.None? then [0] else []
  {
    OneRowBatch([row], Unclaimed(), ByEnqueued([row]), policy.batchLimit);
  }

  lemma StuckOf(row: OutboxRow, cutoff: Time, maxAttempts: nat, limit: nat)
    requires limit >= 1
    ensures Batch([row], StuckBelow(cutoff, maxAttempts), ByClaimed([row]), limit)
         == if StuckBelow(cutoff, maxAttempts)(row) then [0] else []
  {
    OneRowBatch([row], StuckBelow(cutoff, maxAttempts), ByClaimed([row]), limit);
  }

  lemma JustStampedIsNotStuck(policy: Policy, row: OutboxRow, now: Time)
    requires row.claimedAt.None? && FreshBatch(policy, [row]) == [0]
    ensures StuckBatch(policy, [row], now) == []
  {
    var stamped := row.(claimedAt := Some(now));
    assert Update([row], [0], ClaimAt(now)) == [stamped];
    if 1 < policy.batchLimit {
      StuckOf(stamped, now - policy.staleAfter, policy.maxAttempts, policy.batchLimit - 1);
    }
  }

  lemma FreshRowClaimed(policy: Policy, row: OutboxRow, now: Time)
    requires row.claimedAt.None?
    ensures ClaimedIds(policy, [row], now) == [0]
    ensures ClaimedRows(policy, [row], now) == [row.(claimedAt := Some(now))]
  {
    FreshOf(policy, row);
    JustStampedIsNotStuck(policy, row, now);
    ClaimEffect(policy, [row], now, 0);
  }

  lemma StuckWhenNoneFresh(policy: Policy, rows: seq<OutboxRow>, now: Time)
    requires FreshBatch(policy, rows) == []
    ensures StuckBatch(policy, rows, now)
         == Batch(rows, StuckBelow(now - policy.staleAfter, policy.maxAttempts), ByClaimed(rows), policy.batchLimit)
  {
    UpdateNone(rows, ClaimAt(now));
  }

  lemma UpdateNone(rows: seq<OutboxRow>, change: OutboxRow -> OutboxRow)
    ensures Update(rows, [], change) == rows
  {
  }

  /** The stuck batch is the row, whatever the rest of the claim is made of. */
  lemma StaleRowClaimed(policy: Policy, row: OutboxRow, now: Time)
    requires row.claimedAt.Some? && row.completedAt.None? && row.attempts < policy.maxAttempts
    requires row.claimedAt.value <= now - policy.staleAfter
    ensures ClaimedIds(policy, [row], now) == [0]
    ensures ClaimedRows(policy, [row], now) == [row.(claimedAt := Some(now), attempts := row.attempts + 1)]
  {
    StaleRowStuck(policy, [row], now);
    OneRowClaimed(policy, row, now, FreshBatch(policy, [row]), StuckBatch(policy, [row], now));
  }

  lemma StaleRowStuck(policy: Policy, rows: seq<OutboxRow>, now: Time)
    requires |rows| == 1 && rows[0].claimedAt.Some? && rows[0].completedAt.None?
    requires rows[0].attempts < policy.maxAttempts && rows[0].claimedAt.value <= now - policy.staleAfter
    ensures FreshBatch(policy, rows) == [] && StuckBatch(policy, rows, now) == [0]
  {
    var (unclaimed, stuck) := (Unclaimed(), StuckBelow(now - policy.staleAfter, policy.maxAttempts));
    assert !unclaimed(rows[0]) && stuck(rows[0]);
    OneRowBatch(rows, unclaimed, ByEnqueued(rows), policy.batchLimit);
    StuckWhenNoneFresh(policy, rows, now);
    OneRowBatch(rows, stuck, ByClaimed(rows), policy.batchLimit);
  }

  lemma OneRowClaimed(policy: Policy, row: OutboxRow, now: Time, unclaimed: seq<nat>, stuck: seq<nat>)
    requires unclaimed == FreshBatch(policy, [row]) == [] && stuck == StuckBatch(policy, [row], now) == [0]
    ensures ClaimedIds(policy, [row], now) == [0]
    ensures ClaimedRows(policy, [row], now) == [row.(claimedAt := Some(now), attempts := row.attempts + 1)]
  {
    var reclaimed := row.(claimedAt := Some(now), attempts := row.attempts + 1);
    UpdateNone([row], ClaimAt(now));
    assert Update([row], [0], ReclaimAt(now)) == [reclaimed];
  }

  lemma ClaimFresh(w: World, s: Sys, row: OutboxRow, now: Time)
    requires OneRow(s, row) && row.claimedAt.None? && row.enqueuedAt <= now && s.dispatcher.Claiming?
    ensures var s' := DispatchNext(w, s, DoClaim(now));
            && OneRow(s', row.(claimedAt := Some(now)))
            && s'.dispatcher == Handling([0], []) && s'.claims == s.claims + [0] && s'.handled == s.handled
  {
    FreshRowClaimed(w.policy, row, now);
  }

  lemma ClaimStale(w: World, s: Sys, row: OutboxRow, now: Time)
    requires OneRow(s, row) && row.claimedAt.Some? && row.attempts < w.policy.maxAttempts
    requires row.claimedAt.value <= now - w.policy.staleAfter && s.dispatcher.Claiming?
    ensures var s' := DispatchNext(w, s, DoClaim(now));
            s'.dispatcher == Handling([0], []) && s'.claims == s.claims + [0] && s'.handled == s.handled
  {
    StaleRowClaimed(w.policy, row, now);
  }

  /** The tick claims the row and runs its handler. */
  function ClaimAndHandle(now: Time): seq<Step> {
    [DispatchStep(DoAbandon(now)), DispatchStep(DoClaim(now)), DispatchStep(Handle(true, None))]
  }

  lemma AfterTwo(w: World, s: Sys, a: Step, b: Step)
    ensures After(w, s, [a] + [b]) == Next(w, Next(w, s, a), b)
  {
    AfterConcat(w, s, [a], [b]);
    AfterOne(w, s, a);
    AfterOne(w, Next(w, s, a), b);
  }

  lemma AfterThree(w: World, s: Sys, a: Step, b: Step, c: Step)
    ensures After(w, s, [a] + [b] + [c]) == Next(w, Next(w, Next(w, s, a), b), c)
  {
    AfterConcat(w, s, [a] + [b], [c]);
    AfterTwo(w, s, a, b);
    AfterOne(w, Next(w, Next(w, s, a), b), c);
  }

  lemma ClaimAndHandleIs(w: World, s: Sys, now: Time)
    ensures After(w, s, ClaimAndHandle(now))
         == DispatchNext(w, DispatchNext(w, DispatchNext(w, s, DoAbandon(now)), DoClaim(now)), Handle(true, None))
  {
    var a, b, c := DispatchStep(DoAbandon(now)), DispatchStep(DoClaim(now)), DispatchStep(Handle(true, None));
    assert ClaimAndHandle(now) == [a] + [b] + [c];
    AfterThree(w, s, a, b, c);
  }

  lemma HandleOne(w: World, s: Sys)
    requires s.dispatcher == Handling([0], [])
    ensures var s' := DispatchNext(w, s, Handle(true, None));
            && s'.db == s.db && s'.claims == s.claims && s'.handled == s.handled + [0]
  {
  }

  lemma FirstDispatch(w: World, s: Sys, row: OutboxRow, now: Time)
    requires OneRow(s, row) && row.claimedAt.None? && row.attempts == 0 && row.enqueuedAt <= now && s.dispatcher.Resting?
    ensures var s' := After(w, s, ClaimAndHandle(now));
            && OneRow(s', row.(claimedAt := Some(now)))
            && s'.claims == s.claims + [0] && s'.handled == s.handled + [0]
  {
    ClaimAndHandleIs(w, s, now);
    NothingToAbandon(w, s, row, now);
    var claiming := s.(dispatcher := Claiming);
    ClaimFresh(w, claiming, row, now);
    HandleOne(w, DispatchNext(w, claiming, DoClaim(now)));
  }

  lemma SecondDispatch(w: World, s: Sys, row: OutboxRow, now: Time)
    requires OneRow(s, row) && row.claimedAt.Some? && row.attempts == 0 && s.dispatcher.Resting?
    requires row.claimedAt.value <= now - w.policy.staleAfter
    ensures var s' := After(w, s, ClaimAndHandle(now));
            s'.claims == s.claims + [0] && s'.handled == s.handled + [0]
  {
    ClaimAndHandleIs(w, s, now);
    NothingToAbandon(w, s, row, now);
    var claiming := s.(dispatcher := Claiming);
    ClaimStale(w, claiming, row, now);
    HandleOne(w, DispatchNext(w, claiming, DoClaim(now)));
  }

  /** One run orphaned, its row dispatched, a crash before the settle, and the wait. */
  function DispatchTwice(w: World, pipeline: string): seq<Step> {
    Sweeping.SweepOneRun(w, pipeline) + ClaimAndHandle(w.runTimeout) + [Crash]
      + ClaimAndHandle(w.runTimeout + w.policy.staleAfter)
  }

  lemma SweptRow(w: World, pipeline: string, action: Disposition)
    requires ResolveActions(w.policy, pipeline) == [action]
    ensures var s := Reached(w, Sweeping.SweepOneRun(w, pipeline));
            && OneRow(s, OutboxRow("r", action, w.runTimeout, None, None, 0, None))
            && s.dispatcher.Resting? && s.claims == [] && s.handled == []
  {
    Sweeping.OneRunOrphaned(w, pipeline);
    var s := Reached(w, Sweeping.SweepOneRun(w, pipeline));
    assert s.db.outbox == [OutboxRow("r", action, w.runTimeout, None, None, 0, None)];
  }

  lemma AfterCrash(w: World, s: Sys)
    ensures var s' := After(w, s, [Crash]);
            s'.db == s.db && s'.dispatcher.Resting? && s'.claims == s.claims && s'.handled == s.handled
  {
    AfterOne(w, s, Crash);
  }

  lemma ReachedInFour(w: World, a: seq<Step>, b: seq<Step>, c: seq<Step>, d: seq<Step>)
    ensures Reached(w, a + b + c + d) == After(w, After(w, After(w, Reached(w, a), b), c), d)
  {
    AfterConcat(w, INITIAL, a + b + c, d);
    AfterConcat(w, INITIAL, a + b, c);
    AfterConcat(w, INITIAL, a, b);
  }

  lemma DispatchedTwiceFrom(w: World, s: Sys, row: OutboxRow, now: Time)
    requires OneRow(s, row) && row.claimedAt.None? && row.attempts == 0 && row.enqueuedAt <= now && s.dispatcher.Resting?
    ensures var s' := After(w, After(w, After(w, s, ClaimAndHandle(now)), [Crash]), ClaimAndHandle(now + w.policy.staleAfter));
            s'.claims == s.claims + [0] + [0] && s'.handled == s.handled + [0] + [0]
  {
    FirstDispatch(w, s, row, now);
    var s1 := After(w, s, ClaimAndHandle(now));
    AfterCrash(w, s1);
    SecondDispatch(w, After(w, s1, [Crash]), row.(claimedAt := Some(now)), now + w.policy.staleAfter);
  }

  /** The same row is claimed twice and its handler runs twice: with one configured action and
      any limits, a crash before the settle and a wait of the stale threshold suffice. */
  lemma RowDispatchedTwice(w: World, pipeline: string, action: Disposition)
    requires ResolveActions(w.policy, pipeline) == [action]
    ensures var s := Reached(w, DispatchTwice(w, pipeline));
            Count(s.claims, 0) == 2 && Count(s.handled, 0) == 2
  {
    var now := w.runTimeout;
    ReachedInFour(w, Sweeping.SweepOneRun(w, pipeline), ClaimAndHandle(now), [Crash],
                  ClaimAndHandle(now + w.policy.staleAfter));
    SweptRow(w, pipeline, action);
    var s := Reached(w, Sweeping.SweepOneRun(w, pipeline));
    DispatchedTwiceFrom(w, s, OutboxRow("r", action, now, None, None, 0, None), now);
    CountTwo();
  }

  lemma CountTwo()
    ensures var none: seq<nat> := []; Count(none + [0] + [0], 0) == 2
  {
  }
}
