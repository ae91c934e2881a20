/** The run lifecycle table (run_states.py) and what its shape guarantees. */
module RunStates {
  import opened Wrappers

  datatype RunState = Initiated | Aggregating | Ready | Sending | Sent | Failed | Orphaned

  predicate Terminal(s: RunState) {
    s == Sent || s == Failed || s == Orphaned
  }

  /** The transitions spelled out row by row in the table. */
  function Explicit(s: RunState): set<RunState> {
    match s
    case Initiated => {Aggregating}
    case Aggregating => {Ready}
    case Ready => {Sending}
    case Sending => {Sent}
    case _ => {}
  }

  /** The full table: failure and orphaning are injected for every non-terminal state. */
  function Targets(s: RunState): set<RunState> {
    if Terminal(s) then {} else Explicit(s) + {Failed, Orphaned}
  }

  predicate CanTransition(source: RunState, target: RunState) {
    target in Targets(source)
  }

  /** The run still accepts stage submissions. */
  predicate Collecting(s: RunState) {
    s == Initiated || s == Aggregating
  }

  // ---- Histories ---------------------------------------------------------------

  /** A sequence of states each reached from the one before by a table entry. */
  predicate Lawful(path: seq<RunState>) {
    forall i :: 0 < i < |path| ==> CanTransition(path[i - 1], path[i])
  }

  function Depth(s: RunState): nat {
    match s
    case Initiated => 0
    case Aggregating => 1
    case Ready => 2
    case Sending => 3
    case _ => 4
  }

  /** The whole table: a run not yet over goes one step on, fails, or is orphaned. */
  lemma TableExact(a: RunState, b: RunState)
    ensures CanTransition(a, b) <==>
              Depth(a) < 4 && (b == Failed || b == Orphaned || Depth(b) == Depth(a) + 1)
    ensures Terminal(a) <==> Depth(a) == 4
    ensures Collecting(a) <==> Depth(a) <= 1
  {
  }

  /** Every transition moves forward, so no history revisits a state. */
  lemma {:induction false} LawfulAdvances(path: seq<RunState>, i: nat, j: nat)
    requires Lawful(path) && i < j < |path|
    ensures Depth(path[i]) + (j - i) <= Depth(path[j]) || (Terminal(path[j]) && Depth(path[i]) < 4)
    ensures path[i] != path[j]
    decreases j
  {
    assert CanTransition(path[j - 1], path[j]);
    if i < j - 1 {
      LawfulAdvances(path, i, j - 1);
    }
  }

  /** A terminal state only ever ends a history. */
  lemma TerminalIsLast(path: seq<RunState>, i: nat)
    requires Lawful(path) && i < |path| && Terminal(path[i])
    ensures i == |path| - 1
  {
    assert i + 1 < |path| ==> CanTransition(path[i], path[i + 1]);
  }

  /** The one way to be sent: through every collecting and delivery state in order. */
  lemma SentHasOneHistory(path: seq<RunState>)
    requires path != [] && Lawful(path) && path[0] == Initiated
    ensures path[|path| - 1] == Sent <==> path == [Initiated, Aggregating, Ready, Sending, Sent]
  {
    assert forall i :: 0 < i < |path| ==> CanTransition(path[i - 1], path[i]);
    if |path| > 5 {
      LawfulAdvances(path, 0, 4);
      TerminalIsLast(path, 4);
    } else if path[|path| - 1] == Sent {
      var n := |path| - 1;
      assert path[n - 1] == Sending;
      assert path[n - 2] == Ready;
      assert path[n - 3] == Aggregating;
      assert path[n - 4] == Initiated;
    }
  }
}
