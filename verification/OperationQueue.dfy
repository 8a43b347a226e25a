/** The module-level dictionaries of queues and workers in compartment_manager.py and the functions
    that change them. Seen from any one compartment, every call is the step of Operations it is named
    after, and calls for other compartments change nothing. */
module OperationQueue {
  import opened Text
  import opened Operations

  type Cid = string

  /** The histories Operations keeps; the program does not. */
  datatype History = History(inflight: set<OpId>, put: seq<OpId>, taken: seq<OpId>, executed: seq<OpId>,
                             past: seq<OpId>, issued: set<OpId>)

  /** The entries of one compartment. */
  function Project<V>(m: map<nat, (Cid, V)>, c: Cid): map<nat, V> {
    map k | k in m && m[k].0 == c :: m[k].1
  }

  lemma ProjectUpdate<V>(m: map<nat, (Cid, V)>, k: nat, c: Cid, v: V)
    requires k in m ==> m[k].0 == c
    ensures Project(m[k := (c, v)], c) == Project(m, c)[k := v]
    ensures forall d :: d != c ==> Project(m[k := (c, v)], d) == Project(m, d)
  {
  }

  lemma ProjectEmpty<V>(c: Cid)
    ensures Project<V>(map[], c) == map[]
  {
  }

  function Stale(rows: map<OpId, (Cid, Status)>): map<OpId, (Cid, Status)> {
    map op | op in rows :: if Terminal(rows[op].1) then rows[op] else (rows[op].0, Failed)
  }

  lemma ProjectStale(rows: map<OpId, (Cid, Status)>, c: Cid)
    ensures Project(Stale(rows), c) == MarkStale(Project(rows, c))
  {
  }

  function Lookup<V>(m: map<Cid, V>, c: Cid): Option<V> {
    if c in m then Some(m[c]) else None
  }

  class Queues {
    var rows: map<OpId, (Cid, Status)>
    var queues: map<Cid, seq<OpId>>
    var workers: map<Cid, TaskId>
    var tasks: map<TaskId, (Cid, Phase)>
    ghost var history: map<Cid, History>

    constructor ()
      ensures forall c :: View(c) == INITIAL
    {
      rows, queues, workers, tasks, history := map[], map[], map[], map[], map[];
    }

    ghost function Past(c: Cid): History
      reads this
    {
      if c in history then history[c] else History({}, [], [], [], [], {})
    }

    /** What compartment c sees. */
    ghost function View(c: Cid): State
      reads this
    {
      var h := Past(c);
      State(Project(rows, c), if c in queues then queues[c] else [], Project(tasks, c), Lookup(workers, c),
            h.inflight, h.put, h.taken, h.executed, h.past, h.issued)
    }

    twostate predicate OnlyFor(c: Cid)
      reads this
    {
      forall d :: d != c ==> View(d) == old(View(d))
    }

    /** enqueue_operation up to its commit */
    method InsertOperation(c: Cid, op: OpId)
      requires op !in rows && Enabled(View(c), Insert(op))
      modifies `rows, `history
      ensures View(c) == Next(old(View(c)), Insert(op)) && OnlyFor(c)
    {
      ProjectUpdate(rows, op, c, Pending);
      hide Project;
      rows := rows[op := (c, Pending)];
      ghost var h := Past(c);
      history := history[c := h.(inflight := h.inflight + {op}, issued := h.issued + {op})];
    }

    method GetQueue(c: Cid)
      modifies `queues
      ensures c in queues && forall d :: View(d) == old(View(d))
    {
      hide Project;
      if c !in queues {
        queues := queues[c := []];
      }
    }

    /** _ensure_worker; task is the id of a task it may create */
    method EnsureWorker(c: Cid, task: TaskId)
      requires task !in tasks
      modifies `tasks, `workers
      ensures var s := old(View(c));
              View(c) == if s.worker.None? || !Live(s, s.worker.value)
                         then s.(tasks := s.tasks[task := Looking], worker := Some(task)) else s
      ensures OnlyFor(c)
    {
      ProjectUpdate(tasks, task, c, Looking);
      if c !in workers || workers[c] !in tasks || tasks[workers[c]].0 != c || tasks[workers[c]].1 == Exited {
        hide Project;
        tasks := tasks[task := (c, Looking)];
        workers := workers[c := task];
      }
    }

    /** enqueue_operation after its commit */
    method PutOperation(c: Cid, op: OpId, task: TaskId)
      requires task !in tasks && Enabled(View(c), Put(op, task))
      modifies this
      ensures View(c) == Next(old(View(c)), Put(op, task)) && OnlyFor(c)
    {
      hide Project;
      GetQueue(c);
      queues := queues[c := queues[c] + [op]];
      ghost var h := Past(c);
      history := history[c := h.(put := h.put + [op], inflight := h.inflight - {op})];
      EnsureWorker(c, task);
    }

    method SetPhase(t: TaskId, c: Cid, phase: Phase)
      requires t in tasks && tasks[t].0 == c
      modifies `tasks
      ensures View(c) == To(old(View(c)), t, phase) && OnlyFor(c)
    {
      ProjectUpdate(tasks, t, c, phase);
      hide Project;
      tasks := tasks[t := (c, phase)];
    }

    /** queue.get() returns the oldest id */
    method TakeNext(c: Cid, t: TaskId) returns (op: OpId)
      requires t in tasks && tasks[t].0 == c && Enabled(View(c), Take(t))
      modifies `queues, `tasks, `history
      ensures View(c) == Next(old(View(c)), Take(t)) && OnlyFor(c) && op == old(View(c)).queue[0]
    {
      hide Project;
      op := queues[c][0];
      queues := queues[c := queues[c][1..]];
      ghost var h := Past(c);
      history := history[c := h.(taken := h.taken + [op])];
      SetPhase(t, c, Marking(op));
    }

    /** UPDATE operations SET status WHERE id = op, for an operation of c or a deleted one */
    method SetRow(c: Cid, op: OpId, status: Status)
      requires op in rows ==> rows[op].0 == c
      modifies `rows
      ensures View(c) == old(View(c)).(rows := SetStatus(old(View(c)).rows, op, status)) && OnlyFor(c)
      ensures op in rows ==> rows[op].0 == c
    {
      ProjectUpdate(rows, op, c, status);
      assert op in rows <==> op in Project(rows, c);
      hide Project;
      if op in rows {
        rows := rows[op := (c, status)];
      }
    }

    /** _execute_operation up to setting the credentials */
    method MarkOperation(c: Cid, t: TaskId, op: OpId, mark: Mark)
      requires t in tasks && tasks[t] == (c, Marking(op)) && (op in rows ==> rows[op].0 == c)
      modifies this
      ensures View(c) == MarkStep(old(View(c)), t, op, mark) && OnlyFor(c)
    {
      assert op in rows <==> op in Project(rows, c);
      hide Project;
      match mark
      case FaultBefore(closed) => SetPhase(t, c, GiveUp(closed));
      case FaultAfter(closed) =>
        SetRow(c, op, Running);
        SetPhase(t, c, GiveUp(closed));
      case SessionExpired =>
        ghost var before := View(c).rows;
        SetRow(c, op, Running);
        SetRow(c, op, Failed);
        assert SetStatus(SetStatus(before, op, Running), op, Failed) == SetStatus(before, op, Failed);
        SetPhase(t, c, Looking);
      case SessionValid =>
        if op !in rows {
          SetPhase(t, c, Looking);
        } else {
          SetRow(c, op, Running);
          ghost var h := Past(c);
          history := history[c := h.(executed := h.executed + [op])];
          SetPhase(t, c, Executing(op));
        }
    }

    /** the end of _execute_operation: record how the body went, or fail to */
    method FinishOperation(c: Cid, t: TaskId, ending: Ending)
      requires t in tasks && tasks[t].0 == c && tasks[t].1.Executing?
      requires tasks[t].1.op in rows ==> rows[tasks[t].1.op].0 == c
      modifies `rows, `tasks
      ensures Enabled(old(View(c)), Finish(t, ending))
      ensures View(c) == Next(old(View(c)), Finish(t, ending)) && OnlyFor(c)
    {
      assert t in Project(tasks, c) && Project(tasks, c)[t] == tasks[t].1;
      hide Project;
      match ending
      case Recorded(success) =>
        SetRow(c, tasks[t].1.op, if success then Completed else Failed);
        SetPhase(t, c, Looking);
      case Unrecorded => SetPhase(t, c, Looking);
      case Escaped(closed) => SetPhase(t, c, GiveUp(closed));
    }

    /** A crash, and start-up with mark_stale_operations_failed. */
    method RestartProcess()
      modifies this
      ensures forall c :: View(c) == Next(old(View(c)), Restart)
    {
      ghost var rows0 := rows;
      forall c: Cid { ProjectStale(rows0, c); }
      hide MarkStale, Project;
      assert forall c :: Project<Phase>(map[], c) == map[] by { forall c: Cid { ProjectEmpty<Phase>(c); } }
      rows := Stale(rows);
      queues, workers, tasks := map[], map[], map[];
      history := map c | c in history ::
        History({}, [], [], [], history[c].past + history[c].executed, history[c].issued);
    }
  }
}
