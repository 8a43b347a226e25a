/** The background operation queue of one compartment: submissions, the queue, worker tasks and
    operation rows (compartment_manager.py), as a state machine over single scheduling steps. */
module Operations {
  import opened Text

  type OpId = nat
  type TaskId = nat

  datatype Status = Pending | Running | Completed | Failed

  /** Where a worker task is. Looking: about to look at the queue, without suspending before it has. Asleep:
      suspended on a queue it found empty, until a submission wakes it or its idle timeout fires, whichever it
      learns of first. Expiring: the timeout fired but the task is not done yet. */
  datatype Phase = Looking | Asleep | Expiring | Marking(op: OpId) | Executing(op: OpId) | Exited

  datatype State = State(
    rows: map<OpId, Status>,       // operation rows of the compartment
    queue: seq<OpId>,
    tasks: map<TaskId, Phase>,     // every worker task created in this process life
    worker: Option<TaskId>,        // the registered one
    inflight: set<OpId>,           // row committed, not yet put on the queue
    put: seq<OpId>,                // history of this life: ids in the order they were put,
    taken: seq<OpId>,              // in the order a worker took them,
    executed: seq<OpId>,           // and in the order their bodies started
    past: seq<OpId>,               // ids executed in earlier lives
    issued: set<OpId>)             // ids ever given out

  /** How marking an operation as running and loading it ends. closed: the worker gives up. */
  datatype Mark = FaultBefore(closed: bool) | FaultAfter(closed: bool) | SessionExpired | SessionValid

  /** How an operation's body ends for its row and its worker. Escaped: neither recording the outcome nor
      the rollback after it worked; closed: the worker gives up. */
  datatype Ending = Recorded(success: bool) | Unrecorded | Escaped(closed: bool)

  datatype Step =
    | Insert(op: OpId)
    | Put(op: OpId, task: TaskId)
    | Abandon(op: OpId)
    | Take(t: TaskId)
    | Sleep(t: TaskId)
    | Timeout(t: TaskId)
    | Exit(t: TaskId)
    | MarkRunning(t: TaskId, mark: Mark)
    | Finish(t: TaskId, ending: Ending)
    | DeleteRows
    | Restart

  const INITIAL := State(map[], [], map[], None, {}, [], [], [], [], {})

  predicate Terminal(st: Status) {
    st == Completed || st == Failed
  }

  predicate Live(s: State, t: TaskId) {
    t in s.tasks && s.tasks[t] != Exited
  }

  predicate Enabled(s: State, step: Step) {
    match step
    case Insert(op) => op !in s.issued
    case Put(op, task) => op in s.inflight && task !in s.tasks
    case Abandon(op) => op in s.inflight
    case Take(t) => t in s.tasks && s.tasks[t] in {Looking, Asleep} && s.queue != []
    case Sleep(t) => t in s.tasks && s.tasks[t] == Looking && s.queue == []
    case Timeout(t) => t in s.tasks && s.tasks[t] == Asleep
    case Exit(t) => t in s.tasks && s.tasks[t] == Expiring
    case MarkRunning(t, _) => t in s.tasks && s.tasks[t].Marking?
    case Finish(t, _) => t in s.tasks && s.tasks[t].Executing?
    case DeleteRows => true
    case Restart => true
  }

  /** UPDATE operations SET status WHERE id = op */
  function SetStatus(rows: map<OpId, Status>, op: OpId, status: Status): map<OpId, Status> {
    if op in rows then rows[op := status] else rows
  }

  function To(s: State, t: TaskId, phase: Phase): State {
    s.(tasks := s.tasks[t := phase])
  }

  function GiveUp(closed: bool): Phase {
    if closed then Exited else Looking
  }

  /** queue.put and _ensure_worker */
  function PutStep(s: State, op: OpId, task: TaskId): State {
    var s1 := s.(queue := s.queue + [op], put := s.put + [op], inflight := s.inflight - {op});
    if s.worker.None? || !Live(s, s.worker.value)
    then s1.(tasks := s.tasks[task := Looking], worker := Some(task)) else s1
  }

  function MarkStep(s: State, t: TaskId, op: OpId, mark: Mark): State {
    var marked := s.(rows := SetStatus(s.rows, op, Running));
    match mark
    case FaultBefore(closed) => To(s, t, GiveUp(closed))
    case FaultAfter(closed) => To(marked, t, GiveUp(closed))
    case SessionExpired => To(s.(rows := SetStatus(s.rows, op, Failed)), t, Looking)
    case SessionValid =>
      if op !in s.rows then To(s, t, Looking) else To(marked.(executed := s.executed + [op]), t, Executing(op))
  }

  function FinishStep(s: State, t: TaskId, op: OpId, ending: Ending): State {
    match ending
    case Recorded(success) => To(s.(rows := SetStatus(s.rows, op, if success then Completed else Failed)), t, Looking)
    case Unrecorded => To(s, t, Looking)
    case Escaped(closed) => To(s, t, GiveUp(closed))
  }

  /** mark_stale_operations_failed */
  function MarkStale(rows: map<OpId, Status>): map<OpId, Status> {
    map op | op in rows :: if Terminal(rows[op]) then rows[op] else Failed
  }

  function Next(s: State, step: Step): State
    requires Enabled(s, step)
  {
    match step
    case Insert(op) => s.(rows := s.rows[op := Pending], inflight := s.inflight + {op}, issued := s.issued + {op})
    case Put(op, task) => PutStep(s, op, task)
    case Abandon(op) => s.(inflight := s.inflight - {op})
    case Take(t) => To(s.(queue := s.queue[1..], taken := s.taken + [s.queue[0]]), t, Marking(s.queue[0]))
    case Sleep(t) => To(s, t, Asleep)
    case Timeout(t) => To(s, t, Expiring)
    case Exit(t) => To(s, t, Exited)
    case MarkRunning(t, mark) => MarkStep(s, t, s.tasks[t].op, mark)
    case Finish(t, ending) => FinishStep(s, t, s.tasks[t].op, ending)
    case DeleteRows => s.(rows := map[])
    case Restart =>
      s.(rows := MarkStale(s.rows), queue := [], tasks := map[], worker := None, inflight := {},
         put := [], taken := [], executed := [], past := s.past + s.executed)
  }

  // ---- sequences of ids ----

  predicate Distinct(xs: seq<OpId>) {
    forall i, j :: 0 <= i < j < |xs| ==> xs[i] != xs[j]
  }

  /** xs can be read off ys from left to right. */
  predicate Subsequence(xs: seq<OpId>, ys: seq<OpId>) {
    xs == [] || (ys != [] &&
      ((xs[|xs| - 1] == ys[|ys| - 1] && Subsequence(xs[..|xs| - 1], ys[..|ys| - 1]))
       || Subsequence(xs, ys[..|ys| - 1])))
  }

  lemma {:induction false} SubsequenceMembers(xs: seq<OpId>, ys: seq<OpId>)
    requires Subsequence(xs, ys)
    ensures forall x :: x in xs ==> x in ys
    ensures Distinct(ys) ==> Distinct(xs)
    decreases |ys|
  {
    if xs != [] {
      var ys' := ys[..|ys| - 1];
      if Subsequence(xs, ys') {
        SubsequenceMembers(xs, ys');
      } else {
        var xs', x := xs[..|xs| - 1], xs[|xs| - 1];
        SubsequenceMembers(xs', ys');
        assert forall i :: 0 <= i < |xs'| ==> xs[i] in xs' && xs[i] in ys';
        assert Distinct(ys) ==> x !in ys';
      }
    }
  }

  lemma DistinctConcat(xs: seq<OpId>, ys: seq<OpId>)
    requires Distinct(xs) && Distinct(ys) && forall op: OpId :: op in ys ==> op !in xs
    ensures Distinct(xs + ys)
  {
    var all := xs + ys;
    forall i, j | 0 <= i < j < |all| ensures all[i] != all[j] {
      if i < |xs| <= j { assert all[i] in xs && all[j] in ys; }
    }
  }

  lemma SubsequenceSnoc(xs: seq<OpId>, ys: seq<OpId>, y: OpId)
    requires Subsequence(xs, ys)
    ensures Subsequence(xs, ys + [y]) && Subsequence(xs + [y], ys + [y])
  {
    assert (ys + [y])[..|ys|] == ys && (xs + [y])[..|xs|] == xs;
  }

  // ---- the invariant ----

  /** At most one live task, and it is the registered one. */
  ghost predicate OneWorker(s: State) {
    && (forall t: TaskId :: Live(s, t) ==> s.worker == Some(t))
    && (s.worker.Some? ==> s.worker.value in s.tasks)
  }

  function Current(s: State): Phase {
    if s.worker.Some? && s.worker.value in s.tasks then s.tasks[s.worker.value] else Exited
  }

  /** First in, first out; nothing is put or executed twice. */
  ghost predicate InOrder(s: State) {
    s.taken + s.queue == s.put && Distinct(s.put) && Distinct(s.past) && Subsequence(s.executed, s.taken)
  }

  /** Every id was issued, and is in one stage of one process life. */
  ghost predicate IdsApart(s: State) {
    && (forall op: OpId :: op in s.put || op in s.past || op in s.inflight || op in s.rows ==> op in s.issued)
    && (forall op: OpId :: op in s.put ==> op !in s.inflight && op !in s.past)
    && (forall op: OpId :: op in s.inflight ==> op !in s.past)
  }

  ghost predicate WaitingPending(s: State) {
    forall op: OpId :: op in s.rows && (op in s.inflight || op in s.queue) ==> s.rows[op] == Pending
  }

  /** What the worker holds is what it took last; its row is pending until marked, then running. */
  ghost predicate HeldIsLast(s: State) {
    match Current(s)
    case Marking(op) =>
      && s.taken != [] && op == s.taken[|s.taken| - 1] && Subsequence(s.executed, s.taken[..|s.taken| - 1])
      && (op in s.rows ==> s.rows[op] == Pending)
    case Executing(op) => op in s.taken && (op in s.rows ==> s.rows[op] == Running)
    case _ => true
  }

  ghost predicate Invariant(s: State) {
    OneWorker(s) && InOrder(s) && IdsApart(s) && WaitingPending(s) && HeldIsLast(s)
  }

  lemma OneWorkerKeeps(s: State, step: Step)
    requires OneWorker(s) && Enabled(s, step)
    ensures OneWorker(Next(s, step))
  {
  }

  lemma WorkerIs(s: State, t: TaskId)
    requires OneWorker(s) && Live(s, t)
    ensures s.worker == Some(t) && Current(s) == s.tasks[t]
  {
  }

  lemma TakenApart(s: State)
    requires InOrder(s)
    ensures Distinct(s.taken)
    ensures forall op: OpId :: op in s.queue ==> op !in s.taken && op in s.put
    ensures forall op: OpId :: op in s.taken ==> op in s.put
  {
    assert forall i :: 0 <= i < |s.taken| ==> s.taken[i] == s.put[i];
    assert forall i :: 0 <= i < |s.queue| ==> s.queue[i] == s.put[|s.taken| + i];
  }

  lemma HeadApart(s: State)
    requires InOrder(s) && s.queue != []
    ensures s.queue[0] !in s.queue[1..] && s.queue[0] in s.put
    ensures forall op: OpId :: op in s.queue[1..] ==> op in s.queue
  {
    var all, n := s.put, |s.taken|;
    assert all[n] == s.queue[0];
    forall i | 0 <= i < |s.queue| - 1 ensures s.queue[1..][i] != s.queue[0] {
      assert all[n + 1 + i] == s.queue[1..][i];
    }
  }

  lemma PutKeeps(s: State, op: OpId, task: TaskId)
    requires Invariant(s) && Enabled(s, Put(op, task))
    ensures InOrder(PutStep(s, op, task)) && IdsApart(PutStep(s, op, task)) && WaitingPending(PutStep(s, op, task))
    ensures HeldIsLast(PutStep(s, op, task))
  {
    assert op !in s.put;
    assert s.taken + (s.queue + [op]) == s.put + [op];
    hide Subsequence;
  }

  lemma TakeKeeps(s: State, t: TaskId)
    requires Invariant(s) && Enabled(s, Take(t))
    ensures var s' := Next(s, Take(t)); InOrder(s') && IdsApart(s') && WaitingPending(s') && HeldIsLast(s')
  {
    var s', op := Next(s, Take(t)), s.queue[0];
    WorkerIs(s, t);
    HeadApart(s);
    assert s.taken + [op] + s.queue[1..] == s.taken + s.queue;
    SubsequenceSnoc(s.executed, s.taken, op);
    assert s'.taken[..|s.taken|] == s.taken;
    hide Subsequence, Distinct;
  }

  lemma MarkOrder(s: State, t: TaskId, op: OpId, mark: Mark)
    requires Invariant(s) && t in s.tasks && s.tasks[t] == Marking(op)
    ensures InOrder(MarkStep(s, t, op, mark)) && op in s.taken
  {
    WorkerIs(s, t);
    var front := s.taken[..|s.taken| - 1];
    assert s.taken == front + [op];
    SubsequenceSnoc(s.executed, front, op);
    hide Subsequence, Distinct, OneWorker;
  }

  lemma MarkRows(s: State, t: TaskId, op: OpId, mark: Mark)
    requires Invariant(s) && t in s.tasks && s.tasks[t] == Marking(op) && op in s.taken
    ensures var s' := MarkStep(s, t, op, mark); IdsApart(s') && WaitingPending(s') && HeldIsLast(s')
  {
    WorkerIs(s, t);
    TakenApart(s);
    hide Subsequence, Distinct, OneWorker, InOrder;
  }

  lemma MarkKeeps(s: State, t: TaskId, op: OpId, mark: Mark)
    requires Invariant(s) && t in s.tasks && s.tasks[t] == Marking(op)
    ensures var s' := MarkStep(s, t, op, mark); InOrder(s') && IdsApart(s') && WaitingPending(s') && HeldIsLast(s')
  {
    hide *;
    MarkOrder(s, t, op, mark);
    MarkRows(s, t, op, mark);
  }

  lemma FinishKeeps(s: State, t: TaskId, ending: Ending)
    requires Invariant(s) && Enabled(s, Finish(t, ending))
    ensures var s' := Next(s, Finish(t, ending)); InOrder(s') && IdsApart(s') && WaitingPending(s') && HeldIsLast(s')
  {
    WorkerIs(s, t);
    TakenApart(s);
    hide Subsequence, Distinct, OneWorker;
  }

  lemma RestartKeeps(s: State)
    requires Invariant(s)
    ensures var s' := Next(s, Restart); InOrder(s') && IdsApart(s') && WaitingPending(s') && HeldIsLast(s')
  {
    TakenApart(s);
    SubsequenceMembers(s.executed, s.taken);
    assert Subsequence([], []) && Distinct([]);
    assert forall op: OpId :: op in s.executed ==> op in s.put;
    DistinctConcat(s.past, s.executed);
    hide Subsequence, Distinct;
  }

  lemma OtherStepKeeps(s: State, step: Step)
    requires Invariant(s) && Enabled(s, step)
    requires step.Insert? || step.Abandon? || step.Sleep? || step.Timeout? || step.Exit? || step.DeleteRows?
    ensures var s' := Next(s, step); InOrder(s') && IdsApart(s') && WaitingPending(s') && HeldIsLast(s')
  {
    TakenApart(s);
    if step.Sleep? || step.Timeout? || step.Exit? { WorkerIs(s, step.t); }
    hide Subsequence, Distinct, OneWorker;
  }

  lemma StepKeeps(s: State, step: Step)
    requires Invariant(s) && Enabled(s, step)
    ensures Invariant(Next(s, step))
  {
    OneWorkerKeeps(s, step);
    match step
    case Put(op, task) => PutKeeps(s, op, task);
    case Take(t) => TakeKeeps(s, t);
    case MarkRunning(t, mark) => MarkKeeps(s, t, s.tasks[t].op, mark);
    case Finish(t, ending) => FinishKeeps(s, t, ending);
    case Restart => RestartKeeps(s);
    case _ => OtherStepKeeps(s, step);
  }

  // ---- every run ----

  ghost predicate Runs(s: State, steps: seq<Step>, s': State)
    decreases |steps|
  {
    if steps == [] then s == s'
    else Enabled(s, steps[0]) && Runs(Next(s, steps[0]), steps[1..], s')
  }

  lemma {:induction false} RunKeeps(s: State, steps: seq<Step>, s': State)
    requires Invariant(s) && Runs(s, steps, s')
    ensures Invariant(s')
    decreases |steps|
  {
    if steps != [] {
      StepKeeps(s, steps[0]);
      RunKeeps(Next(s, steps[0]), steps[1..], s');
    }
  }

  /** In every interleaving: at most one live worker; the ids taken followed by those queued are the ids
      put, in order; and no id is executed twice, in this process life or an earlier one. */
  lemma QueueIsSafe(steps: seq<Step>, s: State)
    requires Runs(INITIAL, steps, s)
    ensures forall t: TaskId, u: TaskId :: Live(s, t) && Live(s, u) ==> t == u
    ensures s.taken + s.queue == s.put && Subsequence(s.executed, s.taken)
    ensures Distinct(s.past + s.executed)
  {
    RunKeeps(INITIAL, steps, s);
    SubsequenceMembers(s.executed, s.taken);
    hide Subsequence;
    TakenApart(s);
    DistinctConcat(s.past, s.executed);
  }

  lemma TerminalStepStable(s: State, step: Step, op: OpId)
    requires Invariant(s) && Enabled(s, step) && op in s.rows && Terminal(s.rows[op])
    ensures op in Next(s, step).rows ==> Next(s, step).rows[op] == s.rows[op]
  {
    hide InOrder, WaitingPending, Subsequence;
    if step.MarkRunning? || step.Finish? { WorkerIs(s, step.t); }
  }

  /** Rows only disappear when the compartment goes, and ids are not reused. */
  lemma GoneStepStable(s: State, step: Step, op: OpId)
    requires Invariant(s) && Enabled(s, step) && op in s.issued && op !in s.rows
    ensures op in Next(s, step).issued && op !in Next(s, step).rows
  {
    hide Invariant;
  }

  /** A completed or failed row never changes again, across restarts as well. */
  lemma {:induction false} TerminalIsFinal(s: State, steps: seq<Step>, s': State, op: OpId)
    requires Invariant(s) && Runs(s, steps, s') && op in s.issued
    requires op !in s.rows || Terminal(s.rows[op])
    ensures op in s'.rows ==> op in s.rows && s'.rows[op] == s.rows[op]
    decreases |steps|
  {
    if steps != [] {
      StepKeeps(s, steps[0]);
      if op in s.rows { TerminalStepStable(s, steps[0], op); } else { GoneStepStable(s, steps[0], op); }
      IssuedGrows(s, steps[0]);
      TerminalIsFinal(Next(s, steps[0]), steps[1..], s', op);
    }
  }

  lemma IssuedGrows(s: State, step: Step)
    requires Enabled(s, step)
    ensures s.issued <= Next(s, step).issued
  {
  }

  lemma RestartFinishesAll(s: State, op: OpId)
    requires op in s.rows
    ensures var s' := Next(s, Restart);
            op in s'.rows && Terminal(s'.rows[op]) && (Terminal(s.rows[op]) ==> s'.rows[op] == s.rows[op])
  {
  }

  /** An id issued before, and neither committed nor put since. */
  ghost predicate Dormant(s: State, op: OpId) {
    op in s.issued && op !in s.inflight && op !in s.put
  }

  lemma {:induction false} DormantStays(s: State, steps: seq<Step>, s': State, op: OpId)
    requires Dormant(s, op) && Runs(s, steps, s')
    ensures Dormant(s', op)
    decreases |steps|
  {
    if steps != [] {
      DormantStep(s, steps[0], op);
      DormantStays(Next(s, steps[0]), steps[1..], s', op);
    }
  }

  lemma DormantStep(s: State, step: Step, op: OpId)
    requires Dormant(s, op) && Enabled(s, step)
    ensures Dormant(Next(s, step), op)
  {
  }

  /** A crash at any step of any run, followed by start-up and by any further run: no operation submitted
      before the crash is ever queued or executed again, its row is terminal whenever it is there, and a row
      that was terminal at the crash is as it was. */
  lemma CrashFinishesEarlier(before: seq<Step>, s: State, after: seq<Step>, s': State, op: OpId)
    requires Runs(INITIAL, before, s) && Runs(Next(s, Restart), after, s') && op in s.issued
    ensures op !in s'.put && op !in s'.executed
    ensures op in s'.rows ==>
              op in s.rows && Terminal(s'.rows[op]) && (Terminal(s.rows[op]) ==> s'.rows[op] == s.rows[op])
  {
    RunKeeps(INITIAL, before, s);
    hide *;
    EarlierNeverRuns(s, after, s', op);
    EarlierRows(s, after, s', op);
  }

  lemma EarlierNeverRuns(s: State, after: seq<Step>, s': State, op: OpId)
    requires Invariant(s) && Runs(Next(s, Restart), after, s') && op in s.issued
    ensures op !in s'.put && op !in s'.executed
  {
    var r := Next(s, Restart);
    assert Dormant(r, op) && Enabled(s, Restart);
    hide Runs, Next, Subsequence, Dormant, Enabled;
    StepKeeps(s, Restart);
    RunKeeps(r, after, s');
    DormantStays(r, after, s', op);
    NotExecuted(s', op);
  }

  lemma NotExecuted(s: State, op: OpId)
    requires Invariant(s) && Dormant(s, op)
    ensures op !in s.put && op !in s.executed
  {
    SubsequenceMembers(s.executed, s.taken);
    TakenApart(s);
    hide Subsequence;
  }

  lemma EarlierRows(s: State, after: seq<Step>, s': State, op: OpId)
    requires Invariant(s) && Runs(Next(s, Restart), after, s') && op in s.issued
    ensures op in s'.rows ==>
              op in s.rows && Terminal(s'.rows[op]) && (Terminal(s.rows[op]) ==> s'.rows[op] == s.rows[op])
  {
    var r := Next(s, Restart);
    assert Enabled(s, Restart) && op in r.issued && (op in r.rows <==> op in s.rows);
    if op in s.rows { RestartFinishesAll(s, op); }
    StepKeeps(s, Restart);
    hide Runs, Next, Invariant, Terminal, Enabled;
    TerminalIsFinal(r, after, s', op);
  }

  // ---- draining ----

  /** A step of worker t without database faults or time-outs; a session is valid iff valid says so. */
  predicate Quiet(s: State, t: TaskId, step: Step, valid: OpId -> bool) {
    Enabled(s, step) &&
    match step
    case Take(u) => u == t
    case Sleep(u) => u == t
    case MarkRunning(u, mark) => u == t && mark == if valid(s.tasks[t].op) then SessionValid else SessionExpired
    case Finish(u, ending) => u == t && ending.Recorded?
    case _ => false
  }

  /** Steps worker t still has to make. */
  function Remaining(s: State, t: TaskId): nat
    requires t in s.tasks
  {
    4 * |s.queue| + match s.tasks[t] case Marking(_) => 3 case Executing(_) => 2 case Looking => 1 case _ => 0
  }

  /** The operations worker t has not finished, and of these the ones it has not started. */
  function Unfinished(s: State, t: TaskId): seq<OpId>
    requires t in s.tasks
  {
    (match s.tasks[t] case Marking(op) => [op] case Executing(op) => [op] case _ => []) + s.queue
  }

  function Unstarted(s: State, t: TaskId): seq<OpId>
    requires t in s.tasks
  {
    (match s.tasks[t] case Marking(op) => [op] case _ => []) + s.queue
  }

  function Keep(xs: seq<OpId>, p: OpId -> bool): seq<OpId> {
    if xs == [] then [] else (if p(xs[0]) then [xs[0]] else []) + Keep(xs[1..], p)
  }

  /** A busy worker always has a quiet step to make. */
  lemma CanProceed(s: State, t: TaskId, valid: OpId -> bool)
    requires t in s.tasks && s.tasks[t] !in {Expiring, Exited} && Remaining(s, t) > 0
    ensures exists step :: Quiet(s, t, step, valid)
  {
    match s.tasks[t]
    case Looking => assert Quiet(s, t, if s.queue == [] then Sleep(t) else Take(t), valid);
    case Asleep => assert Quiet(s, t, Take(t), valid);
    case Marking(op) => assert Quiet(s, t, MarkRunning(t, if valid(op) then SessionValid else SessionExpired), valid);
    case Executing(op) => assert Quiet(s, t, Finish(t, Recorded(true)), valid);
  }

  ghost predicate QuietRun(s: State, t: TaskId, steps: seq<Step>, valid: OpId -> bool, s': State)
    decreases |steps|
  {
    if steps == [] then s == s'
    else Quiet(s, t, steps[0], valid) && QuietRun(Next(s, steps[0]), t, steps[1..], valid, s')
  }

  /** From s to s' worker t came closer, finished at most its first unfinished operation, and kept what was
      started plus what is still to start. */
  ghost predicate Closer(s: State, t: TaskId, valid: OpId -> bool, s': State)
    requires t in s.tasks
  {
    && t in s'.tasks && Remaining(s', t) < Remaining(s, t) && s'.tasks[t] !in {Expiring, Exited}
    && s'.rows.Keys == s.rows.Keys
    && (Unfinished(s', t) == Unfinished(s, t)
        || (Unfinished(s, t) != [] && Unfinished(s', t) == Unfinished(s, t)[1..]
            && Unfinished(s, t)[0] in s'.rows && Terminal(s'.rows[Unfinished(s, t)[0]])))
    && s'.executed + Keep(Unstarted(s', t), valid) == s.executed + Keep(Unstarted(s, t), valid)
  }

  lemma QuietTake(s: State, t: TaskId, valid: OpId -> bool)
    requires Enabled(s, Take(t))
    ensures Closer(s, t, valid, Next(s, Take(t)))
  {
    assert s.queue == [s.queue[0]] + s.queue[1..] && [] + s.queue == s.queue;
    hide Keep;
  }

  lemma QuietSleep(s: State, t: TaskId, valid: OpId -> bool)
    requires Enabled(s, Sleep(t))
    ensures Closer(s, t, valid, Next(s, Sleep(t)))
  {
    hide Keep;
  }

  lemma QuietMark(s: State, t: TaskId, op: OpId, mark: Mark, valid: OpId -> bool)
    requires t in s.tasks && s.tasks[t] == Marking(op) && op in s.rows
    requires mark == if valid(op) then SessionValid else SessionExpired
    ensures Closer(s, t, valid, MarkStep(s, t, op, mark))
  {
    assert [op] + s.queue == Unfinished(s, t) && ([op] + s.queue)[1..] == s.queue && [] + s.queue == s.queue;
    KeepCons(op, s.queue, valid);
    KeepNone(s.executed, s.queue, op, valid);
    hide Keep;
  }

  lemma QuietFinish(s: State, t: TaskId, op: OpId, success: bool, valid: OpId -> bool)
    requires t in s.tasks && s.tasks[t] == Executing(op) && op in s.rows
    ensures Closer(s, t, valid, FinishStep(s, t, op, Recorded(success)))
  {
    assert [op] + s.queue == Unfinished(s, t) && ([op] + s.queue)[1..] == s.queue && [] + s.queue == s.queue;
    hide Keep;
  }

  lemma QuietStep(s: State, t: TaskId, step: Step, valid: OpId -> bool)
    requires Quiet(s, t, step, valid) && forall op: OpId :: op in Unfinished(s, t) ==> op in s.rows
    ensures t in s.tasks && Closer(s, t, valid, Next(s, step))
  {
    hide Closer, Keep, MarkStep, FinishStep, To;
    match step
    case Take(u) => QuietTake(s, t, valid);
    case Sleep(u) => QuietSleep(s, t, valid);
    case MarkRunning(u, mark) =>
      assert s.tasks[t].op in Unfinished(s, t);
      QuietMark(s, t, s.tasks[t].op, mark, valid);
    case Finish(u, ending) =>
      assert s.tasks[t].op in Unfinished(s, t);
      QuietFinish(s, t, s.tasks[t].op, ending.success, valid);
  }

  lemma KeepCons(op: OpId, xs: seq<OpId>, p: OpId -> bool)
    ensures Keep([op] + xs, p) == (if p(op) then [op] else []) + Keep(xs, p)
  {
    assert ([op] + xs)[1..] == xs;
  }

  lemma KeepNone(ys: seq<OpId>, xs: seq<OpId>, op: OpId, p: OpId -> bool)
    ensures ys + [op] + Keep([] + xs, p) == ys + ([op] + Keep(xs, p))
            && ys + Keep([] + xs, p) == ys + ([] + Keep(xs, p))
  {
    assert [] + xs == xs;
  }

  /** From s the worker left nothing behind: every operation it held or that was queued is terminal,
      and those with a valid session were executed in queue order. */
  ghost predicate Drained(s: State, t: TaskId, valid: OpId -> bool, s': State)
    requires t in s.tasks
  {
    && s'.queue == [] && t in s'.tasks && s'.tasks[t] == Asleep
    && s'.executed == s.executed + Keep(Unstarted(s, t), valid)
    && forall op: OpId :: op in Unfinished(s, t) ==> op in s'.rows && Terminal(s'.rows[op])
  }

  /** Without faults, time-outs or new submissions a worker that is not exiting takes at most Remaining
      steps, and when it has none left the queue is drained. */
  lemma {:induction false} WorkerDrains(s: State, t: TaskId, steps: seq<Step>, valid: OpId -> bool, s': State)
    requires Invariant(s) && t in s.tasks && s.tasks[t] !in {Expiring, Exited}
    requires forall op: OpId :: op in Unfinished(s, t) ==> op in s.rows
    requires QuietRun(s, t, steps, valid, s')
    ensures |steps| <= Remaining(s, t)
    ensures (forall step :: !Quiet(s', t, step, valid)) ==> Drained(s, t, valid, s')
    decreases |steps|
  {
    if steps == [] {
      NothingLeft(s, t, valid);
    } else {
      hide *;
      var mid := FirstStep(s, t, steps, valid, s');
      WorkerDrains(mid, t, steps[1..], valid, s');
      if Drained(mid, t, valid, s') {
        DrainedBefore(s, t, steps, valid, mid, s');
      }
    }
  }

  lemma NothingLeft(s: State, t: TaskId, valid: OpId -> bool)
    requires t in s.tasks && s.tasks[t] !in {Expiring, Exited}
    ensures (forall step :: !Quiet(s, t, step, valid)) ==> Drained(s, t, valid, s)
  {
    if Remaining(s, t) > 0 {
      CanProceed(s, t, valid);
    } else {
      assert s.executed + Keep([], valid) == s.executed;
    }
  }

  /** The first step of a quiet run leads to a state from which the rest runs, closer to the end. */
  lemma FirstStep(s: State, t: TaskId, steps: seq<Step>, valid: OpId -> bool, s': State) returns (mid: State)
    requires Invariant(s) && t in s.tasks && s.tasks[t] !in {Expiring, Exited}
    requires forall op: OpId :: op in Unfinished(s, t) ==> op in s.rows
    requires steps != [] && QuietRun(s, t, steps, valid, s')
    ensures Quiet(s, t, steps[0], valid) && mid == Next(s, steps[0])
    ensures Invariant(mid) && t in mid.tasks && mid.tasks[t] !in {Expiring, Exited}
            && QuietRun(mid, t, steps[1..], valid, s')
    ensures (forall op: OpId :: op in Unfinished(mid, t) ==> op in mid.rows) && Remaining(mid, t) < Remaining(s, t)
  {
    mid := Next(s, steps[0]);
    StepKeeps(s, steps[0]);
    QuietStep(s, t, steps[0], valid);
    hide Next, Unfinished, Invariant, Remaining, Unstarted, Keep;
    MembersOfTail(Unfinished(s, t), Unfinished(mid, t));
  }

  lemma DrainedBefore(s: State, t: TaskId, steps: seq<Step>, valid: OpId -> bool, mid: State, s': State)
    requires Invariant(s) && steps != [] && QuietRun(s, t, steps, valid, s') && Quiet(s, t, steps[0], valid)
    requires forall op: OpId :: op in Unfinished(s, t) ==> op in s.rows
    requires mid == Next(s, steps[0]) && t in mid.tasks && Drained(mid, t, valid, s')
    ensures Drained(s, t, valid, s')
  {
    FirstStaysTerminal(s, t, steps, valid, s');
    QuietStep(s, t, steps[0], valid);
    hide *;
    DrainedShift(s, t, valid, mid, s');
  }

  lemma DrainedShift(s: State, t: TaskId, valid: OpId -> bool, mid: State, s': State)
    requires t in s.tasks && t in mid.tasks && Drained(mid, t, valid, s')
    requires mid.executed + Keep(Unstarted(mid, t), valid) == s.executed + Keep(Unstarted(s, t), valid)
    requires var us, vs := Unfinished(s, t), Unfinished(mid, t);
             vs == us || (us != [] && vs == us[1..] && us[0] in s'.rows && Terminal(s'.rows[us[0]]))
    ensures Drained(s, t, valid, s')
  {
    hide Unstarted, Keep, Unfinished, Terminal;
    MembersOfTail(Unfinished(s, t), Unfinished(mid, t));
  }

  lemma MembersOfTail(xs: seq<OpId>, ys: seq<OpId>)
    requires ys == xs || (xs != [] && ys == xs[1..])
    ensures forall op: OpId :: op in ys ==> op in xs
    ensures forall op: OpId :: op in xs ==> op in ys || (ys != xs && op == xs[0])
  {
  }

  /** The operation the first step finishes stays finished. */
  lemma FirstStaysTerminal(s: State, t: TaskId, steps: seq<Step>, valid: OpId -> bool, s': State)
    requires Invariant(s) && steps != [] && QuietRun(s, t, steps, valid, s')
    requires forall op: OpId :: op in Unfinished(s, t) ==> op in s.rows
    requires Quiet(s, t, steps[0], valid)
    ensures var mid := Next(s, steps[0]);
            t in mid.tasks && (Unfinished(mid, t) != Unfinished(s, t) ==>
              Unfinished(s, t) != [] && Unfinished(s, t)[0] in s'.rows && Terminal(s'.rows[Unfinished(s, t)[0]]))
  {
    var mid := Next(s, steps[0]);
    StepKeeps(s, steps[0]);
    QuietStep(s, t, steps[0], valid);
    hide Next, Unfinished, Quiet, Terminal, OneWorker, InOrder, WaitingPending, HeldIsLast;
    if Unfinished(mid, t) != Unfinished(s, t) {
      var op := Unfinished(s, t)[0];
      assert op in Unfinished(s, t) && op in mid.rows;
      QuietIsRun(mid, t, steps[1..], valid, s');
      QuietKeepsRows(mid, t, steps[1..], valid, s');
      hide QuietRun;
      TerminalIsFinal(mid, steps[1..], s', op);
    }
  }

  lemma {:induction false} QuietIsRun(s: State, t: TaskId, steps: seq<Step>, valid: OpId -> bool, s': State)
    requires QuietRun(s, t, steps, valid, s')
    ensures Runs(s, steps, s')
    decreases |steps|
  {
    if steps != [] { QuietIsRun(Next(s, steps[0]), t, steps[1..], valid, s'); }
  }

  lemma {:induction false} QuietKeepsRows(s: State, t: TaskId, steps: seq<Step>, valid: OpId -> bool, s': State)
    requires QuietRun(s, t, steps, valid, s')
    ensures s'.rows.Keys == s.rows.Keys
    decreases |steps|
  {
    if steps != [] { QuietKeepsRows(Next(s, steps[0]), t, steps[1..], valid, s'); }
  }
}
