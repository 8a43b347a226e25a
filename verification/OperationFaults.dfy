/** Operations no worker will take, and operations whose end is never recorded: exactly which steps of a
    compartment's queue lead there. */
module OperationFaults {
  import opened Text
  import opened Operations

  // ---- stranded operations ----

  /** The registered worker will look at the queue again. */
  predicate Serving(s: State) {
    Current(s) !in {Expiring, Exited}
  }

  predicate Served(s: State) {
    s.queue == [] || Serving(s)
  }

  /** An operation put while the worker is expiring, or a worker that gives up with operations queued: by its
      idle timeout, by a closed connection while marking, or by one while recording an outcome. */
  predicate Strands(s: State, step: Step) {
    match step
    case Put(_, _) => Current(s) == Expiring
    case Timeout(_) => s.queue != []
    case MarkRunning(_, mark) => s.queue != [] && (mark == FaultBefore(true) || mark == FaultAfter(true))
    case Finish(_, ending) => s.queue != [] && ending == Escaped(true)
    case _ => false
  }

  /** A submission leaves a worker that serves it exactly when the worker was not expiring. */
  lemma PutServesIff(s: State, op: OpId, task: TaskId)
    requires Invariant(s) && Enabled(s, Put(op, task))
    ensures Serving(Next(s, Put(op, task))) <==> Current(s) != Expiring
  {
    hide InOrder, IdsApart, WaitingPending, HeldIsLast;
  }

  /** Exactly these steps leave queued operations that no worker will take. */
  lemma ServedIff(s: State, step: Step)
    requires Invariant(s) && Served(s) && Enabled(s, step)
    ensures Served(Next(s, step)) <==> !Strands(s, step)
  {
    hide InOrder, IdsApart, WaitingPending, HeldIsLast;
    if step.Put? {
      PutServesIff(s, step.op, step.task);
    } else if step.Take? || step.Sleep? || step.Timeout? || step.Exit? || step.MarkRunning? || step.Finish? {
      WorkerIs(s, step.t);
    }
  }

  /** In every run without such a step every queued operation has a worker that will take it. */
  lemma {:induction false} RunStaysServed(s: State, steps: seq<Step>, s': State)
    requires Invariant(s) && Served(s) && Runs(s, steps, s') && NoneStrands(s, steps)
    ensures Served(s')
    decreases |steps|
  {
    hide Next, Strands, Served, Invariant, Enabled;
    if steps != [] {
      ServedIff(s, steps[0]);
      StepKeeps(s, steps[0]);
      RunStaysServed(Next(s, steps[0]), steps[1..], s');
    }
  }

  ghost predicate NoneStrands(s: State, steps: seq<Step>)
    decreases |steps|
  {
    steps == [] || (Enabled(s, steps[0]) && !Strands(s, steps[0]) && NoneStrands(Next(s, steps[0]), steps[1..]))
  }

  lemma StrandedStep(s: State, step: Step)
    requires Invariant(s) && !Served(s) && Enabled(s, step) && !step.Put? && !step.Restart?
    ensures !Served(Next(s, step)) && Next(s, step).queue == s.queue
  {
    hide InOrder, IdsApart, WaitingPending, HeldIsLast;
    if step.Take? || step.Sleep? || step.Timeout? || step.Exit? || step.MarkRunning? || step.Finish? {
      WorkerIs(s, step.t);
    }
  }

  /** Stranded operations stay queued, and stranded, whatever happens until the next submission or restart. */
  lemma {:induction false} StrandedUntilNextPut(s: State, steps: seq<Step>, s': State)
    requires Invariant(s) && !Served(s) && Runs(s, steps, s')
    requires forall k :: 0 <= k < |steps| ==> !steps[k].Put? && !steps[k].Restart?
    ensures !Served(s') && s'.queue == s.queue
    decreases |steps|
  {
    hide Next, Served, Invariant, Enabled;
    if steps != [] {
      StrandedStep(s, steps[0]);
      StepKeeps(s, steps[0]);
      StrandedUntilNextPut(Next(s, steps[0]), steps[1..], s');
    }
  }

  /** A queue that is served drains: the registered worker, left alone, makes at most as many steps as its
      work measures, and when none is left the queue is empty and every operation that was queued terminal. */
  lemma ServedDrains(s: State, steps: seq<Step>, valid: OpId -> bool, s': State)
    requires Invariant(s) && Served(s) && s.queue != [] && forall op: OpId :: op in s.queue ==> op in s.rows
    requires Current(s).Marking? || Current(s).Executing? ==> Current(s).op in s.rows
    requires s.worker.Some? && QuietRun(s, s.worker.value, steps, valid, s')
    ensures s.worker.value in s.tasks && |steps| <= Remaining(s, s.worker.value)
    ensures (forall step :: !Quiet(s', s.worker.value, step, valid)) ==>
              s'.queue == [] && forall op: OpId :: op in s.queue ==> op in s'.rows && Terminal(s'.rows[op])
  {
    var t := s.worker.value;
    assert forall op: OpId :: op in Unfinished(s, t) ==> op in s.rows;
    assert forall op: OpId :: op in s.queue ==> op in Unfinished(s, t);
    hide Invariant, Unfinished, QuietRun, Quiet, Keep;
    WorkerDrains(s, t, steps, valid, s');
  }

  ghost function Ran(s: State, steps: seq<Step>): Option<State>
    decreases |steps|
  {
    if steps == [] then Some(s) else if Enabled(s, steps[0]) then Ran(Next(s, steps[0]), steps[1..]) else None
  }

  lemma {:induction false} RanRuns(s: State, steps: seq<Step>)
    ensures Ran(s, steps).Some? ==> Runs(s, steps, Ran(s, steps).value)
    decreases |steps|
  {
    hide Next, Enabled;
    if steps != [] && Enabled(s, steps[0]) { RanRuns(Next(s, steps[0]), steps[1..]); }
  }

  lemma RanCons(s: State, step: Step, rest: seq<Step>)
    requires Enabled(s, step)
    ensures Ran(s, [step] + rest) == Ran(Next(s, step), rest)
  {
    assert ([step] + rest)[1..] == rest;
  }

  /** A worker that has served operation 0 and gone to sleep, and operation 1 about to be put. */
  const SLEEPING := State(map[0 := Failed], [], map[7 := Asleep], Some(7), {}, [0], [0], [], [], {0})

  const FIRST: seq<Step> := [Insert(0)] + ([Put(0, 7)] + ([Take(7)] + ([MarkRunning(7, SessionExpired)] + [Sleep(7)])))

  lemma {:induction false} RanConcat(s: State, xs: seq<Step>, ys: seq<Step>)
    requires Ran(s, xs).Some?
    ensures Ran(s, xs + ys) == Ran(Ran(s, xs).value, ys)
    decreases |xs|
  {
    hide Next, Enabled;
    if xs == [] {
      assert xs + ys == ys;
    } else {
      assert (xs + ys)[1..] == xs[1..] + ys && (xs + ys)[0] == xs[0];
      RanConcat(Next(s, xs[0]), xs[1..], ys);
    }
  }

  lemma FirstSleeps()
    ensures Ran(INITIAL, FIRST) == Some(SLEEPING)
  {
    var s1 := Next(INITIAL, Insert(0));
    var s2 := Next(s1, Put(0, 7));
    var s3 := Next(s2, Take(7));
    var s4 := Next(s3, MarkRunning(7, SessionExpired));
    assert s1 == State(map[0 := Pending], [], map[], None, {0}, [], [], [], [], {0});
    assert s2 == State(map[0 := Pending], [0], map[7 := Looking], Some(7), {}, [0], [], [], [], {0});
    assert s3 == State(map[0 := Pending], [], map[7 := Marking(0)], Some(7), {}, [0], [0], [], [], {0});
    assert s4 == State(map[0 := Failed], [], map[7 := Looking], Some(7), {}, [0], [0], [], [], {0});
    assert Next(s4, Sleep(7)) == SLEEPING;
    RanCons(INITIAL, Insert(0), [Put(0, 7)] + ([Take(7)] + ([MarkRunning(7, SessionExpired)] + [Sleep(7)])));
    RanCons(s1, Put(0, 7), [Take(7)] + ([MarkRunning(7, SessionExpired)] + [Sleep(7)]));
    RanCons(s2, Take(7), [MarkRunning(7, SessionExpired)] + [Sleep(7)]);
    RanCons(s3, MarkRunning(7, SessionExpired), [Sleep(7)]);
    RanCons(s4, Sleep(7), []);
    assert [Sleep(7)] + [] == [Sleep(7)];
    assert Ran(SLEEPING, []) == Some(SLEEPING);
  }

  /** The submission wakes the sleeping worker, and its idle timeout fires before it resumes. */
  lemma WokenTooLate()
    ensures exists s :: Runs(INITIAL, FIRST + ([Insert(1)] + ([Put(1, 8)] + [Timeout(7)])), s)
                        && s.queue == [1] && !Served(s)
  {
    var rest := [Insert(1)] + ([Put(1, 8)] + [Timeout(7)]);
    var s1 := Next(SLEEPING, Insert(1));
    var s2 := Next(s1, Put(1, 8));
    var s3 := Next(s2, Timeout(7));
    assert s1 == SLEEPING.(rows := map[0 := Failed, 1 := Pending], inflight := {1}, issued := {0, 1});
    assert s2 == s1.(queue := [1], put := [0, 1], inflight := {});
    FirstSleeps();
    RanConcat(INITIAL, FIRST, rest);
    RanCons(SLEEPING, Insert(1), [Put(1, 8)] + [Timeout(7)]);
    RanCons(s1, Put(1, 8), [Timeout(7)]);
    RanCons(s2, Timeout(7), []);
    assert [Timeout(7)] + [] == [Timeout(7)];
    assert Ran(s3, []) == Some(s3);
    RanRuns(INITIAL, FIRST + rest);
  }

  /** The idle timeout fires, and the submission comes before the worker is done: it starts no other. */
  lemma SubmittedTooLate()
    ensures exists s :: Runs(INITIAL, FIRST + ([Timeout(7)] + ([Insert(1)] + ([Put(1, 8)] + [Exit(7)]))), s)
                        && s.queue == [1] && !Served(s)
  {
    var rest := [Timeout(7)] + ([Insert(1)] + ([Put(1, 8)] + [Exit(7)]));
    var s1 := Next(SLEEPING, Timeout(7));
    var s2 := Next(s1, Insert(1));
    var s3 := Next(s2, Put(1, 8));
    var s4 := Next(s3, Exit(7));
    assert s1 == SLEEPING.(tasks := map[7 := Expiring]);
    assert s2 == s1.(rows := map[0 := Failed, 1 := Pending], inflight := {1}, issued := {0, 1});
    assert s3 == s2.(queue := [1], put := [0, 1], inflight := {});
    assert s4 == s3.(tasks := map[7 := Exited]) && !Served(s4);
    assert Enabled(SLEEPING, Timeout(7)) && Enabled(s1, Insert(1)) && Enabled(s2, Put(1, 8)) && Enabled(s3, Exit(7));
    hide Next, Enabled, Served, Runs, INITIAL, FIRST, SLEEPING;
    FirstSleeps();
    RanConcat(INITIAL, FIRST, rest);
    RanCons(SLEEPING, Timeout(7), [Insert(1)] + ([Put(1, 8)] + [Exit(7)]));
    RanCons(s1, Insert(1), [Put(1, 8)] + [Exit(7)]);
    RanCons(s2, Put(1, 8), [Exit(7)]);
    RanCons(s3, Exit(7), []);
    assert [Exit(7)] + [] == [Exit(7)];
    assert Ran(s4, []) == Some(s4);
    RanRuns(INITIAL, FIRST + rest);
  }

  /** A new worker never sleeps or times out before it has taken something: the operation whose submission
      started it is in its queue. */
  lemma NewWorkerLooksFirst(s: State, op: OpId, task: TaskId, steps: seq<Step>, s': State)
    requires Invariant(s) && Enabled(s, Put(op, task)) && Current(s) == Exited
    requires Runs(Next(s, Put(op, task)), steps, s') && forall k :: 0 <= k < |steps| ==> !steps[k].Restart?
    ensures forall k :: 0 <= k < |steps| && steps[k] in {Sleep(task), Timeout(task)} ==> Take(task) in steps[..k]
  {
    var t := Next(s, Put(op, task));
    assert t.tasks[task] == Looking && t.queue != [];
    StepKeeps(s, Put(op, task));
    hide Next, Invariant, Enabled;
    LooksFirst(t, task, steps, s');
  }

  lemma {:induction false} LooksFirst(s: State, task: TaskId, steps: seq<Step>, s': State)
    requires Invariant(s) && task in s.tasks && s.tasks[task] == Looking && s.queue != [] && Runs(s, steps, s')
    requires forall k :: 0 <= k < |steps| ==> !steps[k].Restart?
    ensures forall k :: 0 <= k < |steps| && steps[k] in {Sleep(task), Timeout(task)} ==> Take(task) in steps[..k]
    decreases |steps|
  {
    hide Next, Invariant, Enabled;
    if steps != [] {
      if steps[0] != Take(task) {
        StepKeeps(s, steps[0]);
        StillLooking(s, task, steps[0]);
        LooksFirst(Next(s, steps[0]), task, steps[1..], s');
      }
      forall k | 0 <= k < |steps| && steps[k] in {Sleep(task), Timeout(task)} ensures Take(task) in steps[..k] {
        assert k > 0 && steps[..k] == [steps[0]] + steps[1..][..k - 1];
        if steps[0] != Take(task) {
          assert steps[1..][k - 1] == steps[k];
        }
      }
    }
  }

  lemma StillLooking(s: State, task: TaskId, step: Step)
    requires Invariant(s) && task in s.tasks && s.tasks[task] == Looking && s.queue != []
    requires Enabled(s, step) && step != Take(task) && !step.Restart?
    ensures var s' := Next(s, step);
            task in s'.tasks && s'.tasks[task] == Looking && s'.queue != [] && step !in {Sleep(task), Timeout(task)}
  {
    WorkerIs(s, task);
    if step.Take? || step.Sleep? || step.Timeout? || step.Exit? || step.MarkRunning? || step.Finish? {
      if Live(s, step.t) { WorkerIs(s, step.t); }
    }
    hide InOrder, IdsApart, WaitingPending, HeldIsLast;
  }

  /** No submission of op is under way and none has been made. */
  ghost predicate Withdrawn(s: State, op: OpId) {
    op in s.issued && op !in s.inflight && op !in s.put && op !in s.past
  }

  lemma WithdrawnStep(s: State, step: Step, op: OpId)
    requires Invariant(s) && Enabled(s, step) && Withdrawn(s, op)
    ensures Withdrawn(Next(s, step), op)
  {
    TakenApart(s);
    if s.executed != [] { SubsequenceMembers(s.executed, s.taken); }
    hide Subsequence, Distinct, OneWorker, WaitingPending, HeldIsLast;
  }

  lemma WithdrawnNotRun(s: State, op: OpId)
    requires Invariant(s) && Withdrawn(s, op)
    ensures op !in s.queue && op !in s.taken && op !in s.executed
  {
    TakenApart(s);
    SubsequenceMembers(s.executed, s.taken);
    hide Subsequence, Distinct, OneWorker, WaitingPending, HeldIsLast;
  }

  lemma {:induction false} WithdrawnStays(s: State, op: OpId, steps: seq<Step>, s': State)
    requires Invariant(s) && Withdrawn(s, op) && Runs(s, steps, s')
    ensures Invariant(s') && Withdrawn(s', op)
    decreases |steps|
  {
    hide Next, Invariant, Enabled, Withdrawn;
    if steps != [] {
      StepKeeps(s, steps[0]);
      WithdrawnStep(s, steps[0], op);
      WithdrawnStays(Next(s, steps[0]), op, steps[1..], s');
    }
  }

  lemma AbandonWithdraws(s: State, op: OpId)
    requires Invariant(s) && Enabled(s, Abandon(op))
    ensures Withdrawn(Next(s, Abandon(op)), op)
  {
  }

  /** An operation whose submission ended between writing its row and the queue is never queued or executed,
      in this process life or a later one. */
  lemma AbandonedNeverRuns(s: State, op: OpId, steps: seq<Step>, s': State)
    requires Invariant(s) && Enabled(s, Abandon(op)) && Runs(Next(s, Abandon(op)), steps, s')
    ensures op !in s'.queue && op !in s'.taken && op !in s'.executed && op !in s'.past
  {
    StepKeeps(s, Abandon(op));
    AbandonWithdraws(s, op);
    hide Next, Invariant, Enabled, Runs;
    WithdrawnStays(Next(s, Abandon(op)), op, steps, s');
    WithdrawnNotRun(s', op);
  }

  // ---- operations that never finish ----

  /** The operation a step leaves behind without recording how it ended. */
  ghost function FaultedBy(s: State, step: Step): set<OpId>
    requires Enabled(s, step)
  {
    match step
    case MarkRunning(t, mark) => if mark.FaultBefore? || mark.FaultAfter? then {s.tasks[t].op} else {}
    case Finish(t, ending) => if ending.Recorded? then {} else {s.tasks[t].op}
    case _ => {}
  }

  /** The operations faulted since the last restart. */
  ghost function Faulted(s: State, steps: seq<Step>, before: set<OpId>): set<OpId>
    decreases |steps|
  {
    if steps == [] || !Enabled(s, steps[0]) then before
    else Faulted(Next(s, steps[0]), steps[1..], if steps[0].Restart? then {} else before + FaultedBy(s, steps[0]))
  }

  predicate Holds(s: State, op: OpId) {
    match Current(s)
    case Marking(held) => held == op
    case Executing(held) => held == op
    case _ => false
  }

  /** Of the operations taken and let go of, exactly the faulted ones have a row that is not terminal. */
  ghost predicate FaultsShow(s: State, faulted: set<OpId>) {
    (forall op: OpId :: op in faulted ==> op in s.taken && !Holds(s, op))
    && forall op: OpId :: op in s.taken && op in s.rows && !Holds(s, op) ==> (!Terminal(s.rows[op]) <==> op in faulted)
  }

  lemma HeldIsTaken(s: State, t: TaskId, op: OpId)
    requires Invariant(s) && t in s.tasks && s.tasks[t] in {Marking(op), Executing(op)}
    ensures op in s.taken && Holds(s, op) && s.worker == Some(t)
    ensures op in s.rows ==> s.rows[op] == if s.tasks[t].Marking? then Pending else Running
  {
    WorkerIs(s, t);
    hide Subsequence;
  }

  lemma FaultsTake(s: State, t: TaskId, faulted: set<OpId>)
    requires Invariant(s) && Enabled(s, Take(t)) && FaultsShow(s, faulted)
    ensures FaultsShow(Next(s, Take(t)), faulted)
  {
    WorkerIs(s, t);
    TakenApart(s);
    hide Invariant, InOrder, IdsApart, HeldIsLast, WaitingPending, OneWorker, Subsequence, Distinct, Terminal;
    assert forall op: OpId :: op in s.taken ==> op != s.queue[0];
  }

  lemma FaultsMark(s: State, t: TaskId, op: OpId, mark: Mark, faulted: set<OpId>)
    requires Invariant(s) && t in s.tasks && s.tasks[t] == Marking(op) && FaultsShow(s, faulted)
    ensures FaultsShow(MarkStep(s, t, op, mark),
                       if mark.FaultBefore? || mark.FaultAfter? then faulted + {op} else faulted)
  {
    HeldIsTaken(s, t, op);
    hide Invariant, InOrder, IdsApart, HeldIsLast, WaitingPending, OneWorker, Subsequence, Distinct;
  }

  lemma FaultsFinish(s: State, t: TaskId, op: OpId, ending: Ending, faulted: set<OpId>)
    requires Invariant(s) && t in s.tasks && s.tasks[t] == Executing(op) && FaultsShow(s, faulted)
    ensures FaultsShow(FinishStep(s, t, op, ending), if ending.Recorded? then faulted else faulted + {op})
  {
    HeldIsTaken(s, t, op);
    hide Invariant, InOrder, IdsApart, HeldIsLast, WaitingPending, OneWorker, Subsequence, Distinct;
  }

  /** Submissions, and a worker falling asleep or ending, change no row of an operation already taken. */
  lemma FaultsOther(s: State, step: Step, faulted: set<OpId>)
    requires Invariant(s) && Enabled(s, step) && FaultsShow(s, faulted)
    requires !step.Take? && !step.MarkRunning? && !step.Finish? && !step.Restart?
    ensures FaultsShow(Next(s, step), faulted)
  {
    TakenApart(s);
    assert forall op: OpId :: op in s.taken ==> op in s.issued;
    OtherHolds(s, step);
    hide Invariant, InOrder, IdsApart, HeldIsLast, WaitingPending, OneWorker, Subsequence, Distinct, Holds;
  }

  lemma OtherHolds(s: State, step: Step)
    requires OneWorker(s) && Enabled(s, step)
    requires !step.Take? && !step.MarkRunning? && !step.Finish? && !step.Restart?
    ensures forall op: OpId :: Holds(Next(s, step), op) <==> Holds(s, op)
    ensures Next(s, step).taken == s.taken
  {
    if step.Sleep? || step.Timeout? || step.Exit? { WorkerIs(s, step.t); }
  }

  lemma FaultsShowStep(s: State, step: Step, faulted: set<OpId>)
    requires Invariant(s) && Enabled(s, step) && FaultsShow(s, faulted)
    ensures FaultsShow(Next(s, step), if step.Restart? then {} else faulted + FaultedBy(s, step))
  {
    hide Invariant, FaultsShow, MarkStep, FinishStep, To, PutStep;
    assert faulted + {} == faulted;
    match step
    case Take(t) => FaultsTake(s, t, faulted);
    case MarkRunning(t, mark) => FaultsMark(s, t, s.tasks[t].op, mark, faulted);
    case Finish(t, ending) => FaultsFinish(s, t, s.tasks[t].op, ending, faulted);
    case Restart => NoneTaken(Next(s, step));
    case _ => FaultsOther(s, step, faulted);
  }

  lemma NoneTaken(s: State)
    requires s.taken == []
    ensures FaultsShow(s, {})
  {
  }

  lemma {:induction false} RunFaultsShow(s: State, steps: seq<Step>, s': State, before: set<OpId>)
    requires Invariant(s) && Runs(s, steps, s') && FaultsShow(s, before)
    ensures FaultsShow(s', Faulted(s, steps, before))
    decreases |steps|
  {
    hide Next, Invariant, Enabled, FaultsShow;
    if steps != [] {
      FaultsShowStep(s, steps[0], before);
      StepKeeps(s, steps[0]);
      RunFaultsShow(Next(s, steps[0]), steps[1..], s',
                    if steps[0].Restart? then {} else before + FaultedBy(s, steps[0]));
    }
  }

  /** In every run, an operation a worker of this process life has taken and let go of, and whose row is still
      there, stays pending or running exactly when marking it or recording its outcome was a fault; only the
      next start-up finishes it. */
  lemma UnfinishedIffFaulted(steps: seq<Step>, s: State, op: OpId)
    requires Runs(INITIAL, steps, s) && op in s.taken && op in s.rows && !Holds(s, op)
    ensures !Terminal(s.rows[op]) <==> op in Faulted(INITIAL, steps, {})
  {
    RunFaultsShow(INITIAL, steps, s, {});
    hide Runs, Faulted;
  }
}
