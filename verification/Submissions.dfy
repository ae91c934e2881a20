/** What a stage row holds is what the pipeline last submitted for it: the reference is the list
    of accepted submissions, independent of how rows are stored. */
module Submissions {
  import opened Wrappers
  import opened Database
  import opened Transactions
  import opened AuditReplay
  import opened RunStates
  import StageStates

  /** This unit of work is an accepted submission for the stage. */
  predicate Accepts(policy: Policy, db: Db, tx: Tx, run: string, id: string) {
    tx.Submit? && tx.run == run && tx.submission.stageId == id && Apply(policy, db, tx).Success?
  }

  /** The record one unit of work adds. */
  function AcceptedBy(policy: Policy, db: Db, tx: Tx, run: string, id: string): seq<(Submission, Time)> {
    if Accepts(policy, db, tx, run, id) then [(tx.submission, tx.now)] else []
  }

  /** The accepted submissions of a stage, oldest first, with their times. */
  function Accepted(policy: Policy, txs: seq<Tx>, run: string, id: string): seq<(Submission, Time)> {
    if txs == [] then []
    else
      var n := |txs| - 1;
      Accepted(policy, txs[..n], run, id) + AcceptedBy(policy, Commits(policy, EMPTY_DB, txs[..n]), txs[n], run, id)
  }

  /** The row of a stage with this submission record: pending when there is none, submitted
      after the first, retried after any later one, and always holding the last content under
      the template declared for it. */
  ghost predicate RowShows(info: RunInfo, id: string, s: Stage, subs: seq<(Submission, Time)>) {
    && s.stageId == id
    && (exists ds :: ds in info.declared && ds.stageId == id && ds.template == s.template)
    && if subs == [] then
         s == Stage(id, StageStates.Pending, s.template, None, None, None, None)
       else
         var (last, at) := subs[|subs| - 1];
         s == Stage(id, if |subs| == 1 then StageStates.Submitted else StageStates.Retried,
                    s.template, last.report, last.body, last.position, Some(at))
  }

  ghost predicate Shows(db: Db, run: string, id: string, subs: seq<(Submission, Time)>) {
    run in db.runs && run in db.stages && id in db.stages[run] ==>
      RowShows(db.runs[run].info, id, db.stages[run][id], subs)
  }

  ghost predicate RowsShow(policy: Policy, db: Db, txs: seq<Tx>) {
    forall run, id :: Shows(db, run, id, Accepted(policy, txs, run, id))
  }

  /** A run not begun has accepted nothing. */
  lemma {:induction false} NotBegunNothingAccepted(policy: Policy, txs: seq<Tx>, run: string, id: string)
    requires run !in Commits(policy, EMPTY_DB, txs).runs
    ensures Accepted(policy, txs, run, id) == []
  {
    if txs != [] {
      var n := |txs| - 1;
      var before := Commits(policy, EMPTY_DB, txs[..n]);
      RunsStay(policy, before, txs[n], run);
      NotBegunNothingAccepted(policy, txs[..n], run, id);
    }
  }

  lemma RunsStay(policy: Policy, db: Db, tx: Tx, run: string)
    ensures run in db.runs ==> run in Commit(policy, db, tx).runs
  {
  }

  lemma {:induction false} FreshRow(info: RunInfo, declared: seq<DeclaredStage>, id: string)
    requires id in InitialStages(declared) && forall ds :: ds in declared ==> ds in info.declared
    ensures RowShows(info, id, InitialStages(declared)[id], [])
  {
    var n := |declared| - 1;
    if declared[n].stageId != id {
      FreshRow(info, declared[..n], id);
    }
  }

  lemma OtherRowKept(policy: Policy, db: Db, tx: Tx, run: string, id: string)
    requires run in db.runs && run in db.stages && id in db.stages[run] && !tx.Submit? && !tx.Begin?
    ensures var db' := Commit(policy, db, tx);
            && run in db'.runs && run in db'.stages && id in db'.stages[run]
            && db'.runs[run].info == db.runs[run].info && db'.stages[run][id] == db.stages[run][id]
  {
  }

  lemma SubmitRowKept(db: Db, run: string, s: Submission, now: Time, of: string, id: string)
    requires SubmitTx(db, run, s, now).Success? && (run != of || s.stageId != id)
    requires of in db.runs && of in db.stages && id in db.stages[of]
    ensures var db' := SubmitTx(db, run, s, now).value;
            && of in db'.runs && of in db'.stages && id in db'.stages[of]
            && db'.runs[of].info == db.runs[of].info && db'.stages[of][id] == db.stages[of][id]
  {
  }

  /** Only an accepted submission for the stage, or beginning its run, touches its row. */
  lemma RowKept(policy: Policy, db: Db, tx: Tx, run: string, id: string)
    requires Sound(db) && run in db.runs && id in db.stages[run] && !Accepts(policy, db, tx, run, id)
    ensures var db' := Commit(policy, db, tx);
            && run in db'.runs && run in db'.stages && id in db'.stages[run]
            && db'.runs[run].info == db.runs[run].info && db'.stages[run][id] == db.stages[run][id]
  {
    if !tx.Submit? && !tx.Begin? {
      OtherRowKept(policy, db, tx, run, id);
    } else if tx.Submit? && SubmitTx(db, tx.run, tx.submission, tx.now).Success? {
      SubmitRowKept(db, tx.run, tx.submission, tx.now, run, id);
    }
  }

  lemma BeganRows(policy: Policy, db: Db, tx: Tx, run: string, id: string)
    requires run !in db.runs && run in Commit(policy, db, tx).runs
    requires run in Commit(policy, db, tx).stages && id in Commit(policy, db, tx).stages[run]
    ensures var db' := Commit(policy, db, tx);
            && RowShows(db'.runs[run].info, id, db'.stages[run][id], [])
            && !Accepts(policy, db, tx, run, id)
  {
    FreshRow(tx.info, tx.info.declared, id);
  }

  lemma SubmittedRow(policy: Policy, db: Db, tx: Tx, run: string, id: string, subs: seq<(Submission, Time)>)
    requires Sound(db) && Accepts(policy, db, tx, run, id)
    requires run in db.stages && id in db.stages[run] && run in db.runs
    requires RowShows(db.runs[run].info, id, db.stages[run][id], subs)
    ensures var db' := Commit(policy, db, tx);
            && run in db'.runs && run in db'.stages && id in db'.stages[run]
            && RowShows(db'.runs[run].info, id, db'.stages[run][id], subs + [(tx.submission, tx.now)])
  {
  }

  /** A begun run gains no stage. */
  lemma SameIds(policy: Policy, db: Db, tx: Tx, run: string, id: string)
    requires Sound(db) && run in db.runs
    ensures var db' := Commit(policy, db, tx);
            run in db'.stages && (id in db'.stages[run] <==> id in db.stages[run])
  {
    assert SoundRun(db, run);
  }

  lemma ShowsKept(policy: Policy, db: Db, tx: Tx, run: string, id: string, subs: seq<(Submission, Time)>)
    requires Sound(db) && Shows(db, run, id, subs) && (run !in db.runs ==> subs == [])
    ensures Shows(Commit(policy, db, tx), run, id, subs + AcceptedBy(policy, db, tx, run, id))
  {
    var db' := Commit(policy, db, tx);
    assert subs + [] == subs;
    if run in db'.runs && run in db'.stages && id in db'.stages[run] {
      if run !in db.runs {
        BeganRows(policy, db, tx, run, id);
      } else {
        assert SoundRun(db, run);
        SameIds(policy, db, tx, run, id);
        if Accepts(policy, db, tx, run, id) {
          SubmittedRow(policy, db, tx, run, id, subs);
        } else {
          RowKept(policy, db, tx, run, id);
        }
      }
    }
  }

  /** After any units of work, every stage row shows exactly the record of its submissions: the
      last one wins, and how many there were decides its state. */
  lemma {:induction false} LastSubmissionWins(policy: Policy, txs: seq<Tx>)
    ensures RowsShow(policy, Commits(policy, EMPTY_DB, txs), txs)
  {
    if txs != [] {
      var n := |txs| - 1;
      LastSubmissionWins(policy, txs[..n]);
      AuditReplaysToTables(policy, txs[..n]);
      var db := Commits(policy, EMPTY_DB, txs[..n]);
      forall run, id
        ensures Shows(Commits(policy, EMPTY_DB, txs), run, id, Accepted(policy, txs, run, id))
      {
        if run !in db.runs {
          NotBegunNothingAccepted(policy, txs[..n], run, id);
        }
        ShowsKept(policy, db, txs[n], run, id, Accepted(policy, txs[..n], run, id));
      }
    }
  }
}
