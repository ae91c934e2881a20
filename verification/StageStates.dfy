/** The stage lifecycle table (stage_states.py). */
module StageStates {

  datatype StageState = Pending | InProgress | Submitted | Accepted | Retried | Timeout | Failed

  predicate Terminal(s: StageState) {
    s == Accepted || s == Timeout || s == Failed
  }

  function Explicit(s: StageState): set<StageState> {
    match s
    case Pending => {Submitted}
    case Submitted => {Retried, Accepted}
    case Retried => {Retried, Accepted}
    case _ => {}
  }

  /** Timeout and failure are injected for every non-terminal state but the reserved one. */
  function Targets(s: StageState): set<StageState> {
    if Terminal(s) || s == InProgress then {} else Explicit(s) + {Timeout, Failed}
  }

  predicate CanTransition(source: StageState, target: StageState) {
    target in Targets(source)
  }

  /** The whole table: a first submission, then retries or acceptance; anything not yet over may
      time out or fail, the reserved state excepted. */
  lemma TableExact(a: StageState, b: StageState)
    ensures CanTransition(a, b) <==>
              || (a == Pending && b == Submitted)
              || ((a == Submitted || a == Retried) && (b == Retried || b == Accepted))
              || ((a == Pending || a == Submitted || a == Retried) && (b == Timeout || b == Failed))
  {
  }

  predicate Lawful(path: seq<StageState>) {
    forall i :: 0 < i < |path| ==> CanTransition(path[i - 1], path[i])
  }

  /** The states whose content takes part in assembly. */
  predicate Contributes(s: StageState) {
    s == Submitted || s == Accepted || s == Retried
  }

  /** The reserved state is never entered, and Submitted is entered once: every later
      submission is a retry. */
  lemma {:induction false} StageHistory(path: seq<StageState>, j: nat)
    requires path != [] && Lawful(path) && path[0] == Pending && j < |path|
    ensures path[j] != InProgress
    ensures path[j] == Pending <==> j == 0
    ensures path[j] == Submitted ==> j == 1
  {
    if j > 0 {
      StageHistory(path, j - 1);
      assert CanTransition(path[j - 1], path[j]);
    }
  }
}
