/** What a compartment's operation rows say, told from the steps of the run: which operations completed,
    which failed and why, which are still running or pending. */
module OperationEnds {
  import opened Text
  import opened Operations

  // ---- the state a run has reached ----

  /** The state after the steps, as far as they are enabled. */
  ghost function After(steps: seq<Step>): State {
    if steps == [] then INITIAL
    else
      var s, last := After(steps[..|steps| - 1]), steps[|steps| - 1];
      if Enabled(s, last) then Next(s, last) else s
  }

  ghost predicate Lawful(steps: seq<Step>) {
    forall k :: 0 <= k < |steps| ==> Enabled(After(steps[..k]), steps[k])
  }

  lemma Extend(steps: seq<Step>, last: Step)
    ensures Lawful(steps + [last]) <==> Lawful(steps) && Enabled(After(steps), last)
    ensures Lawful(steps + [last]) ==> After(steps + [last]) == Next(After(steps), last)
  {
    hide Enabled, Next;
    var all := steps + [last];
    assert all[..|steps|] == steps;
    assert forall k :: 0 <= k < |steps| ==> all[..k] == steps[..k] && all[k] == steps[k];
    if Lawful(all) {
      forall k | 0 <= k < |steps| ensures Enabled(After(steps[..k]), steps[k]) {
        assert all[..k] == steps[..k];
      }
    }
  }

  lemma {:induction false} RunsAfter(done: seq<Step>, steps: seq<Step>, s: State)
    requires Lawful(done) && Runs(After(done), steps, s)
    ensures Lawful(done + steps) && After(done + steps) == s
    decreases |steps|
  {
    hide After, Lawful, Enabled, Next;
    if steps == [] {
      assert done + steps == done;
    } else {
      Extend(done, steps[0]);
      RunsAfter(done + [steps[0]], steps[1..], s);
      assert done + [steps[0]] + steps[1..] == done + steps;
    }
  }

  // ---- what happened to an operation ----

  /** op's row was written and no delete of the compartment's rows has come since. */
  ghost predicate Kept(steps: seq<Step>, op: OpId) {
    exists i :: 0 <= i < |steps| && steps[i] == Insert(op)
                && forall j :: i < j < |steps| ==> !steps[j].DeleteRows?
  }

  predicate MarksIt(s: State, step: Step, op: OpId) {
    step.MarkRunning? && step.t in s.tasks && s.tasks[step.t] == Marking(op)
    && (step.mark.SessionValid? || step.mark.FaultAfter?)
  }

  predicate ExpiresIt(s: State, step: Step, op: OpId) {
    step.MarkRunning? && step.t in s.tasks && s.tasks[step.t] == Marking(op) && step.mark.SessionExpired?
  }

  /** The worker records how the body of op ended. */
  predicate RecordsIt(s: State, step: Step, op: OpId, success: bool) {
    step.Finish? && step.t in s.tasks && s.tasks[step.t] == Executing(op) && step.ending == Recorded(success)
  }

  ghost predicate Marked(steps: seq<Step>, op: OpId) {
    exists k :: 0 <= k < |steps| && MarksIt(After(steps[..k]), steps[k], op)
  }

  ghost predicate Expired(steps: seq<Step>, op: OpId) {
    exists k :: 0 <= k < |steps| && ExpiresIt(After(steps[..k]), steps[k], op)
  }

  ghost predicate Ended(steps: seq<Step>, op: OpId, success: bool) {
    exists k :: 0 <= k < |steps| && RecordsIt(After(steps[..k]), steps[k], op, success)
  }

  /** The program restarted when op's row was written and nothing had ended it yet. */
  ghost predicate Interrupted(steps: seq<Step>, op: OpId) {
    exists k :: 0 <= k < |steps| && steps[k].Restart? && Insert(op) in steps[..k]
                && !Expired(steps[..k], op) && !Ended(steps[..k], op, true) && !Ended(steps[..k], op, false)
  }

  lemma KeptSnoc(steps: seq<Step>, last: Step, op: OpId)
    ensures Kept(steps + [last], op) <==> last == Insert(op) || (Kept(steps, op) && !last.DeleteRows?)
  {
    var all := steps + [last];
    if last == Insert(op) { assert all[|steps|] == Insert(op); }
    if i :| 0 <= i < |steps| && steps[i] == Insert(op) && forall j :: i < j < |steps| ==> !steps[j].DeleteRows? {
      assert all[i] == Insert(op);
    }
    if i :| 0 <= i < |all| && all[i] == Insert(op) && forall j :: i < j < |all| ==> !all[j].DeleteRows? {
      if i < |steps| {
        assert steps[i] == Insert(op) && !all[|steps|].DeleteRows?;
        forall j | i < j < |steps| ensures !steps[j].DeleteRows? { assert all[j] == steps[j]; }
      }
    }
  }

  lemma Prefixes(steps: seq<Step>, last: Step)
    ensures var all := steps + [last];
            all[..|steps|] == steps && all[|steps|] == last
            && forall k :: 0 <= k < |steps| ==> all[..k] == steps[..k] && all[k] == steps[k]
  {
  }

  lemma MarkedSnoc(steps: seq<Step>, last: Step, op: OpId)
    ensures Marked(steps + [last], op) <==> Marked(steps, op) || MarksIt(After(steps), last, op)
  {
    Prefixes(steps, last);
    hide MarksIt, After;
    var all := steps + [last];
    if k :| 0 <= k < |steps| && MarksIt(After(steps[..k]), steps[k], op) {
      assert MarksIt(After(all[..k]), all[k], op);
    }
  }

  lemma ExpiredSnoc(steps: seq<Step>, last: Step, op: OpId)
    ensures Expired(steps + [last], op) <==> Expired(steps, op) || ExpiresIt(After(steps), last, op)
  {
    Prefixes(steps, last);
    hide ExpiresIt, After;
    var all := steps + [last];
    if k :| 0 <= k < |steps| && ExpiresIt(After(steps[..k]), steps[k], op) {
      assert ExpiresIt(After(all[..k]), all[k], op);
    }
  }

  lemma EndedSnoc(steps: seq<Step>, last: Step, op: OpId, success: bool)
    ensures Ended(steps + [last], op, success)
       <==> Ended(steps, op, success) || RecordsIt(After(steps), last, op, success)
  {
    Prefixes(steps, last);
    hide RecordsIt, After;
    var all := steps + [last];
    if k :| 0 <= k < |steps| && RecordsIt(After(steps[..k]), steps[k], op, success) {
      assert RecordsIt(After(all[..k]), all[k], op, success);
    }
  }

  lemma InterruptedSnoc(steps: seq<Step>, last: Step, op: OpId)
    ensures Interrupted(steps + [last], op)
       <==> Interrupted(steps, op)
            || (last.Restart? && Insert(op) in steps && !Expired(steps, op) && !Ended(steps, op, true)
                && !Ended(steps, op, false))
  {
    Prefixes(steps, last);
    hide Expired, Ended;
    var all := steps + [last];
    if k :| 0 <= k < |steps| && steps[k].Restart? && Insert(op) in steps[..k]
            && !Expired(steps[..k], op) && !Ended(steps[..k], op, true) && !Ended(steps[..k], op, false) {
      assert all[k].Restart? && all[..k] == steps[..k];
    }
  }

  // ---- the row tells what happened ----

  ghost predicate HasFailed(steps: seq<Step>, op: OpId) {
    Expired(steps, op) || Ended(steps, op, false) || Interrupted(steps, op)
  }

  /** Nothing ever happened to op. */
  ghost predicate Untouched(steps: seq<Step>, op: OpId) {
    Insert(op) !in steps && !Marked(steps, op) && !Ended(steps, op, true) && !HasFailed(steps, op)
  }

  ghost predicate Told(steps: seq<Step>, s: State, op: OpId) {
    (op in s.rows <==> Kept(steps, op)) && (Kept(steps, op) ==> Insert(op) in steps)
    && (op !in s.issued ==> Untouched(steps, op))
    && (op in s.rows ==>
          (s.rows[op] == Completed <==> Ended(steps, op, true))
          && (s.rows[op] == Failed <==> HasFailed(steps, op))
          && (s.rows[op] == Pending <==> !Ended(steps, op, true) && !HasFailed(steps, op) && !Marked(steps, op)))
  }

  predicate Touches(s: State, step: Step, op: OpId) {
    MarksIt(s, step, op) || ExpiresIt(s, step, op) || RecordsIt(s, step, op, true) || RecordsIt(s, step, op, false)
  }

  /** What one step does to op's row. */
  lemma RowAfter(s: State, step: Step, op: OpId)
    requires Invariant(s) && Enabled(s, step) && op in s.rows
    ensures var rows := Next(s, step).rows;
            && (op in rows <==> !step.DeleteRows?)
            && (op in rows && step.Restart? ==> rows[op] == if Terminal(s.rows[op]) then s.rows[op] else Failed)
            && (RecordsIt(s, step, op, true) ==> s.rows[op] == Running && rows[op] == Completed)
            && (RecordsIt(s, step, op, false) ==> s.rows[op] == Running && rows[op] == Failed)
            && (ExpiresIt(s, step, op) ==> s.rows[op] == Pending && rows[op] == Failed)
            && (MarksIt(s, step, op) ==> s.rows[op] == Pending && rows[op] == Running)
            && (op in rows && !step.Restart? && !Touches(s, step, op) ==> rows[op] == s.rows[op])
  {
    hide InOrder, WaitingPending, Subsequence;
    if step.MarkRunning? || step.Finish? { WorkerIs(s, step.t); }
  }

  lemma IssuedAfter(s: State, step: Step, op: OpId)
    requires Invariant(s) && Enabled(s, step)
    ensures op in Next(s, step).issued <==> op in s.issued || step == Insert(op)
    ensures op in Next(s, step).rows && op !in s.rows ==> step == Insert(op) && Next(s, step).rows[op] == Pending
    ensures step == Insert(op) ==> op !in s.issued && op !in s.rows && op in Next(s, step).rows
    ensures Touches(s, step, op) ==> op in s.issued
  {
    if step.MarkRunning? || step.Finish? {
      WorkerIs(s, step.t);
      TakenApart(s);
    }
    hide Subsequence, Distinct;
  }

  /** One more step, for every part of an operation's history. */
  lemma HistorySnoc(steps: seq<Step>, last: Step, op: OpId)
    ensures Kept(steps + [last], op) <==> last == Insert(op) || (Kept(steps, op) && !last.DeleteRows?)
    ensures Marked(steps + [last], op) <==> Marked(steps, op) || MarksIt(After(steps), last, op)
    ensures Ended(steps + [last], op, true) <==> Ended(steps, op, true) || RecordsIt(After(steps), last, op, true)
    ensures HasFailed(steps + [last], op)
       <==> HasFailed(steps, op) || ExpiresIt(After(steps), last, op) || RecordsIt(After(steps), last, op, false)
            || (last.Restart? && Insert(op) in steps && !HasFailed(steps, op) && !Ended(steps, op, true))
    ensures Insert(op) in steps + [last] <==> Insert(op) in steps || last == Insert(op)
  {
    KeptSnoc(steps, last, op);
    MarkedSnoc(steps, last, op);
    ExpiredSnoc(steps, last, op);
    EndedSnoc(steps, last, op, true);
    EndedSnoc(steps, last, op, false);
    InterruptedSnoc(steps, last, op);
    hide Kept, Marked, Expired, Ended, Interrupted, MarksIt, ExpiresIt, RecordsIt, After;
  }

  lemma ToldSnoc(steps: seq<Step>, last: Step, op: OpId)
    requires Invariant(After(steps)) && Enabled(After(steps), last) && Told(steps, After(steps), op)
    ensures Told(steps + [last], Next(After(steps), last), op)
  {
    HistorySnoc(steps, last, op);
    IssuedAfter(After(steps), last, op);
    if op in After(steps).rows {
      RowAfter(After(steps), last, op);
      hide Kept, Marked, Ended, HasFailed, MarksIt, ExpiresIt, RecordsIt, After, Invariant, Enabled, Next;
      assert op in After(steps).issued || Untouched(steps, op);
    } else {
      hide Kept, Marked, Ended, HasFailed, MarksIt, ExpiresIt, RecordsIt, After, Invariant, Enabled, Next;
    }
  }

  lemma {:induction false} RunTold(steps: seq<Step>, op: OpId)
    requires Lawful(steps)
    ensures Invariant(After(steps)) && Told(steps, After(steps), op)
  {
    hide Told, Invariant, Enabled, Lawful, After;
    if steps == [] {
      NothingTold(op);
    } else {
      var front, last := steps[..|steps| - 1], steps[|steps| - 1];
      assert steps == front + [last];
      Extend(front, last);
      RunTold(front, op);
      StepKeeps(After(front), last);
      ToldSnoc(front, last, op);
    }
  }

  lemma NothingTold(op: OpId)
    ensures Invariant(After([])) && Told([], After([]), op)
  {
  }

  /** In every run an operation's row is there exactly when it was written and the compartment's rows were not
      deleted since. It says completed exactly when the worker recorded success; failed exactly when its session
      had expired, the worker recorded a failure, or the program restarted before either; pending exactly when
      it was not marked either; and running otherwise. */
  lemma RowsTell(steps: seq<Step>, s: State, op: OpId)
    requires Runs(INITIAL, steps, s)
    ensures op in s.rows <==> Kept(steps, op)
    ensures op in s.rows ==>
              (s.rows[op] == Completed <==> Ended(steps, op, true))
              && (s.rows[op] == Failed <==> Expired(steps, op) || Ended(steps, op, false) || Interrupted(steps, op))
              && (s.rows[op] == Pending <==>
                    !Ended(steps, op, true) && !Expired(steps, op) && !Ended(steps, op, false)
                    && !Interrupted(steps, op) && !Marked(steps, op))
  {
    assert After([]) == INITIAL && Lawful([]);
    RunsAfter([], steps, s);
    assert [] + steps == steps;
    RunTold(steps, op);
    hide Kept, Marked, Expired, Ended, Interrupted, After, Invariant;
  }
}
