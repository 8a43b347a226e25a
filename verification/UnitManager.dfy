/** The operations of compartment_manager.py on units, step by step on rows and files. Each is
    proved to be the step of UnitSync that the theorems of UnitSyncProofs are about. */
module UnitManager {
  import opened Text
  import opened Mounts
  import opened Units
  import opened UnitSync

  /** One more call of the plan. */
  lemma RunSnoc(st: State, plan: seq<Action>, n: nat)
    requires n < |plan|
    ensures Run(st, plan[..n + 1]) == Do(Run(st, plan[..n]), plan[n])
    ensures plan[n..][0] == plan[n] && plan[n..][1..] == plan[n + 1..]
  {
    assert plan[..n + 1][..n] == plan[..n];
  }

  lemma WritesCons(cfg: Config, db: Db, u: Unit, us: seq<Unit>)
    ensures Writes(cfg, db, [u] + us) == [WriteOf(cfg, db, u)] + Writes(cfg, db, us)
  {
  }

  class Manager {
    const cfg: Config
    var rows: map<Id, Unit>
    var order: seq<Id>
    var files: map<string, string>
    /** How many host calls succeed before the next one raises. */
    var budget: nat
    ghost var log: seq<Event>
    /** The host calls of the operation under way since base, and those still to be made. */
    ghost var base: State
    ghost var plan: seq<Action>
    ghost var todo: seq<Action>

    constructor (cfg: Config, files: map<string, string>, budget: nat)
      ensures this.cfg == cfg && View() == State(Db(map[], []), files, []) && this.budget == budget
    {
      this.cfg := cfg;
      this.files, this.budget := files, budget;
      rows, order, log := map[], [], [];
    }

    ghost function View(): State
      reads this
    {
      State(Db(rows, order), files, log)
    }

    function Tables(): Db
      reads `rows, `order
    {
      Db(rows, order)
    }

    ghost predicate Tracking()
      reads this
    {
      |todo| <= |plan| && todo == plan[|plan| - |todo|..] && View() == Run(base, plan[..|plan| - |todo|])
    }

    /** The next n calls were made and rest remains, or those that were left were made and the next one failed. */
    twostate predicate Made(n: nat, rest: seq<Action>, ok: bool)
      reads this
    {
      && Tracking() && base == old(base) && plan == old(plan)
      && if ok then old(budget) == budget + n && todo == rest
         else old(budget) < n && budget == 0 && |todo| == |old(todo)| - old(budget)
    }

    method HostCall(ghost rest: seq<Action>) returns (ok: bool)
      requires Tracking() && todo == [Call] + rest
      modifies `budget, `todo
      ensures Made(1, rest, ok)
    {
      ok := budget > 0;
      if ok {
        budget := budget - 1;
        RunSnoc(base, plan, |plan| - |todo|);
        todo := rest;
      }
    }

    method WriteText(id: Id, file: string, content: string, ghost rest: seq<Action>) returns (ok: bool)
      requires Tracking() && todo == [Write(id, file, content)] + rest
      modifies `budget, `todo, `files, `log
      ensures Made(1, rest, ok)
    {
      ok := budget > 0;
      if ok {
        files := files[file := content];
        budget := budget - 1;
        log := log + [Wrote(id)];
        RunSnoc(base, plan, |plan| - |todo|);
        todo := rest;
      }
    }

    method Unlink(file: string, ghost rest: seq<Action>) returns (ok: bool)
      requires Tracking() && todo == [Remove(file)] + rest
      modifies `budget, `todo, `files
      ensures Made(1, rest, ok)
    {
      ok := budget > 0;
      if ok {
        assert file !in files ==> files - {file} == files;
        if file in files {
          files := files - {file};
        }
        budget := budget - 1;
        RunSnoc(base, plan, |plan| - |todo|);
        todo := rest;
      }
    }

    method WriteUnit(u: Unit, ghost rest: seq<Action>) returns (ok: bool)
      requires Tracking() && todo == [WriteOf(cfg, Tables(), u)] + rest
      modifies `budget, `todo, `files, `log
      ensures Made(1, rest, ok)
    {
      hide Rendered, FileOf, Tracking, Run;
      ok := WriteText(u.id, FileOf(cfg, u), Rendered(cfg, Tables(), u), rest);
    }

    /** for u in us: if p(u): write the unit */
    method WriteSelected(us: seq<Unit>, p: Unit -> bool, ghost rest: seq<Action>) returns (ok: bool)
      requires Tracking() && todo == Writes(cfg, Tables(), Select(us, p)) + rest
      modifies `budget, `todo, `files, `log
      ensures Made(|Select(us, p)|, rest, ok)
    {
      hide Tracking, Run, WriteOf, Writes, Select;
      ok := true;
      WholeTail(us, p);
      for i := 0 to |us|
        invariant Tracking() && base == old(base) && plan == old(plan) && ok
        invariant todo == Writes(cfg, Tables(), Select(us[i..], p)) + rest
        invariant old(budget) - budget == |Select(us, p)| - |Select(us[i..], p)| && budget <= old(budget)
      {
        SelectTail(us, p, i);
        if p(us[i]) {
          ghost var after := Writes(cfg, Tables(), Select(us[i + 1..], p)) + rest;
          WritesCons(cfg, Tables(), us[i], Select(us[i + 1..], p));
          assert todo == [WriteOf(cfg, Tables(), us[i])] + after;
          ok := WriteUnit(us[i], after);
          if !ok { return; }
        }
      }
      WritesNone(cfg, Tables());
      assert [] + rest == rest;
    }

    lemma SelectTail(us: seq<Unit>, p: Unit -> bool, i: nat)
      requires i < |us|
      ensures Select(us[i..], p) == (if p(us[i]) then [us[i]] else []) + Select(us[i + 1..], p)
    {
      assert us[i..][1..] == us[i + 1..];
    }

    lemma WholeTail(us: seq<Unit>, p: Unit -> bool)
      ensures us[0..] == us && Select(us[|us|..], p) == []
    {
    }

    /** for u in us: if u.name == name: write the unit; break */
    method WriteFirstNamed(us: seq<Unit>, name: string, ghost rest: seq<Action>) returns (ok: bool)
      requires Tracking() && todo == Writes(cfg, Tables(), FirstNamed(us, name)) + rest
      modifies `budget, `todo, `files, `log
      ensures Made(|FirstNamed(us, name)|, rest, ok)
    {
      hide Tracking, Run, WriteOf;
      ok := true;
      for i := 0 to |us|
        invariant ok && unchanged(this)
        invariant FirstNamed(us, name) == FirstNamed(us[i..], name)
      {
        if us[i].name == name {
          assert Writes(cfg, Tables(), FirstNamed(us, name)) == [WriteOf(cfg, Tables(), us[i])];
          ok := WriteUnit(us[i], rest);
          return;
        }
      }
    }

    method WritePrerequisites(u: Unit, ghost rest: seq<Action>) returns (ok: bool)
      requires Tracking() && u.body.ContainerBody?
      requires todo == Writes(cfg, Tables(), ContainerPrerequisites(Tables(), u)) + rest
      modifies `budget, `todo, `files, `log
      ensures Made(|ContainerPrerequisites(Tables(), u)|, rest, ok)
    {
      hide Tracking, Run, WriteOf, List, FirstNamed, ImageUnitName;
      ghost var nets := if u.body.network in UNMANAGED_NETWORKS then []
                        else FirstNamed(List(Tables(), KNetwork), u.body.network);
      ghost var images := match ImageUnitName(u.body.image)
                          case None => []
                          case Some(n) => FirstNamed(List(Tables(), KImage), n);
      ghost var rest1 := Writes(cfg, Tables(), images) + rest;
      assert todo == Writes(cfg, Tables(), nets) + rest1;
      ok := true;
      if u.body.network !in UNMANAGED_NETWORKS {
        ok := WriteFirstNamed(List(Tables(), KNetwork), u.body.network, rest1);
        if !ok { return; }
      }
      assert todo == rest1;
      match ImageUnitName(u.body.image)
      case None =>
      case Some(n) => ok := WriteFirstNamed(List(Tables(), KImage), n, rest);
    }

    /** _write_and_reload */
    method WriteAndReload(u: Unit, active: bool) returns (ok: bool)
      requires Tracking() && u.body.ContainerBody? && todo == ContainerPlan(cfg, Tables(), u, active)
      modifies `budget, `todo, `files, `log
      ensures Made(|ContainerPlan(cfg, Tables(), u, active)|, [], ok)
    {
      hide Tracking, Run, WriteOf, ContainerPrerequisites, Writes;
      ghost var r5: seq<Action> := if active then [Call] else [];
      ghost var r4 := [Call] + r5;
      ghost var r3 := [Call] + r4;
      ghost var r2 := [WriteOf(cfg, Tables(), u)] + r3;
      ghost var r1 := Writes(cfg, Tables(), ContainerPrerequisites(Tables(), u)) + r2;
      assert todo == [Call] + r1;
      ok := HostCall(r1);
      if !ok { return; }
      ok := WritePrerequisites(u, r2);
      if !ok { return; }
      ok := WriteUnit(u, r3);
      if !ok { return; }
      ok := HostCall(r4);
      if !ok { return; }
      ok := HostCall(r5);
      if ok && active {
        ok := HostCall([]);
      }
    }

    method WriteAndCall(u: Unit) returns (ok: bool)
      requires Tracking() && todo == [WriteOf(cfg, Tables(), u), Call]
      modifies `budget, `todo, `files, `log
      ensures Made(2, [], ok)
    {
      hide Tracking, Run, WriteOf;
      ok := WriteUnit(u, [Call]);
      if ok {
        ok := HostCall([]);
      }
    }

    /** The host part of add_volume, add_network, add_pod, add_image, add_container, ... */
    method AddFiles(u: Unit, active: bool) returns (ok: bool)
      requires Tracking() && todo == AddPlan(cfg, Tables(), u, active)
      modifies `budget, `todo, `files, `log
      ensures Made(|AddPlan(cfg, Tables(), u, active)|, [], ok)
    {
      hide Tracking, Run, WriteOf, List, ContainerPlan, InUse;
      match u.body
      case PodBody(_) =>
        ok := WriteSelected(List(Tables(), KNetwork), InUse(Tables()), [WriteOf(cfg, Tables(), u), Call]);
        if ok {
          ok := WriteAndCall(u);
        }
      case VolumeBody(_, quadlet) =>
        if quadlet {
          ok := WriteAndCall(u);
        } else {
          ok := HostCall([]);
        }
      case NetworkBody(_, _) =>
        ok := WriteAndCall(WithoutNetworkName(u));
      case ContainerBody(_, _, _, _, _, _) =>
        ok := WriteAndReload(u, active);
      case _ =>
        ok := WriteAndCall(u);
    }

    lemma Finished(st: State, p: seq<Action>, k: nat, ok: bool)
      requires Tracking() && base == st && plan == p
      requires if ok then k >= |p| && todo == [] else k < |p| && |todo| == |p| - k
      ensures View() == Attempt(st, p, k)
    {
      assert p[..|p|] == p;
    }

    /** Add: from a fresh start. */
    method AttemptAdd(u: Unit, active: bool) returns (ok: bool)
      modifies `budget, `base, `plan, `todo, `files, `log
      ensures View() == Attempt(old(View()), AddPlan(cfg, Tables(), u, active), old(budget))
      ensures ok <==> old(budget) >= |AddPlan(cfg, Tables(), u, active)|
    {
      hide Run, Attempt, AddPlan;
      ghost var b0, p := budget, AddPlan(cfg, Tables(), u, active);
      base, plan, todo := View(), p, p;
      BeginTracking();
      ok := AddFiles(u, active);
      Finished(base, p, b0, ok);
    }

    /** A host call outside any plan: writing a Containerfile, setting up subuids. */
    method PlainCall() returns (ok: bool)
      modifies `budget
      ensures ok <==> old(budget) > 0
      ensures budget == if ok then old(budget) - 1 else 0
    {
      ok := budget > 0;
      if ok {
        budget := budget - 1;
      }
    }

    /** if content: write_managed_containerfile */
    method Prepare(body: Body) returns (ok: bool)
      modifies `budget
      ensures ok <==> old(budget) >= Preparation(body)
      ensures ok ==> budget == old(budget) - Preparation(body)
    {
      ok := true;
      if body.BuildBody? && body.containerfile != "" {
        ok := PlainCall();
      }
    }

    method Add(u: Unit, active: bool) returns (outcome: Outcome)
      modifies this
      ensures (View(), outcome) == StepAdd(cfg, old(View()), u, old(budget), active)
    {
      hide AddRow;
      var ok := Prepare(u.body);
      if !ok {
        return Failed;
      }
      outcome := InsertAndWrite(u, active);
    }

    method InsertAndWrite(u: Unit, active: bool) returns (outcome: Outcome)
      modifies this
      ensures (View(), outcome) == AddRow(cfg, old(View()), u, old(budget), active)
    {
      hide AddPlan, Attempt, NameTaken, WithoutNetworkName;
      if u.body.TimerBody? && !(u.body.containerId in rows && rows[u.body.containerId].body.ContainerBody?) {
        return NotFound;
      }
      if NameTaken(Tables(), u) {
        return Rejected;
      }
      rows, order := rows[u.id := u], order + [u.id];
      var ok := AttemptAdd(u, active);
      if !ok {
        rows := rows - {u.id};
        return RolledBack;
      }
      if u != WithoutNetworkName(u) {
        log := log + [Blame(u.id, DroppedNetworkName)];
      }
      return Done;
    }

    lemma BeginTracking()
      requires base == View() && plan == todo
      ensures Tracking()
    {
      assert plan[..0] == [];
    }

    method UpdateFiles(u: Unit, active: bool) returns (ok: bool)
      requires Tracking() && todo == UpdatePlan(cfg, Tables(), u, active)
      modifies `budget, `todo, `files, `log
      ensures Made(|UpdatePlan(cfg, Tables(), u, active)|, [], ok)
    {
      hide Tracking, Run, WriteOf, ContainerPlan;
      if u.body.ContainerBody? {
        ok := WriteAndReload(u, active);
      } else {
        ok := WriteAndCall(u);
      }
    }

    /** Update: from a fresh start. */
    method AttemptUpdate(u: Unit, active: bool) returns (ok: bool)
      modifies `budget, `base, `plan, `todo, `files, `log
      ensures View() == Attempt(old(View()), UpdatePlan(cfg, Tables(), u, active), old(budget))
      ensures ok <==> old(budget) >= |UpdatePlan(cfg, Tables(), u, active)|
    {
      hide Run, Attempt, UpdatePlan;
      ghost var b0, p := budget, UpdatePlan(cfg, Tables(), u, active);
      base, plan, todo := View(), p, p;
      BeginTracking();
      ok := UpdateFiles(u, active);
      Finished(base, p, b0, ok);
    }

    /** update_network, update_pod, update_image, update_artifact, update_build, update_container */
    method Update(id: Id, name: string, body: Body, active: bool) returns (outcome: Outcome)
      modifies this
      ensures (View(), outcome) == StepUpdate(cfg, old(View()), id, name, body, old(budget), active)
    {
      hide UpdateRow;
      var ok := Prepare(body);
      if !ok {
        return Failed;
      }
      outcome := CommitAndWrite(id, name, body, active);
    }

    method CommitAndWrite(id: Id, name: string, body: Body, active: bool) returns (outcome: Outcome)
      modifies this
      ensures (View(), outcome) == UpdateRow(cfg, old(View()), id, name, body, old(budget), active)
    {
      hide UpdatePlan, Attempt, NameTaken, Updatable, Updated;
      if id !in rows || !Updatable(rows[id], body) {
        return NotFound;
      }
      var u := Updated(rows[id], name, body);
      if NameTaken(Tables(), u) {
        return Rejected;
      }
      rows := rows[id := u];
      var ok := AttemptUpdate(u, active);
      if !ok {
        log := log + [Blame(id, FailedUpdate)];
        return OutOfSync;
      }
      return Done;
    }

    method DeleteFiles(u: Unit, removed: bool) returns (ok: bool)
      requires Tracking() && todo == DeletePlan(cfg, u, removed)
      modifies `budget, `todo, `files
      ensures Made(|DeletePlan(cfg, u, removed)|, [], ok)
    {
      hide Tracking, Run, FileOf;
      ghost var tail: seq<Action> := if u.body.TimerBody? then []
        else if u.body.NetworkBody? || u.body.ContainerBody? then [Call] else [Call, Call];
      ok := true;
      if (u.body.NetworkBody? || u.body.TimerBody?) ==> removed {
        if HasFile(u) {
          assert todo == [Remove(FileOf(cfg, u))] + tail;
          ok := Unlink(FileOf(cfg, u), tail);
          if !ok { return; }
        }
      }
      assert todo == tail;
      if !u.body.TimerBody? {
        if !u.body.NetworkBody? && !u.body.ContainerBody? {
          ok := HostCall([Call]);
          if !ok { return; }
        }
        ok := HostCall([]);
      }
    }

    /** Delete: from a fresh start. */
    method AttemptDelete(u: Unit, removed: bool) returns (ok: bool)
      modifies `budget, `base, `plan, `todo, `files, `log
      ensures View() == Attempt(old(View()), DeletePlan(cfg, u, removed), old(budget))
      ensures ok <==> old(budget) >= |DeletePlan(cfg, u, removed)|
    {
      hide Run, Attempt, DeletePlan;
      ghost var b0, p := budget, DeletePlan(cfg, u, removed);
      base, plan, todo := View(), p, p;
      BeginTracking();
      ok := DeleteFiles(u, removed);
      Finished(base, p, b0, ok);
    }

    /** delete_volume, delete_network, delete_pod, delete_image, delete_build, delete_artifact,
        delete_container, delete_timer */
    method Delete(id: Id, removed: bool, running: set<Id>) returns (outcome: Outcome)
      modifies this
      ensures (View(), outcome) == StepDelete(cfg, old(View()), id, old(budget), removed, running)
    {
      hide DeletePlan, Attempt, ReferredTo, List, LostVolumeEvents;
      if id !in rows {
        return NotFound;
      }
      var u := rows[id];
      if ReferredTo(Tables(), u, running) {
        return Rejected;
      }
      var ok := AttemptDelete(u, removed);
      if !ok {
        log := log + [Blame(id, FailedDelete)];
        return Failed;
      }
      log := log + if u.body.VolumeBody? then LostVolumeEvents(List(Tables(), KContainer), id) else [];
      rows := map i | i in rows && i != id && !(rows[i].body.TimerBody? && rows[i].body.containerId == id) :: rows[i];
      return Done;
    }

    method WriteAllFiles(withTimers: bool) returns (ok: bool)
      requires Tracking() && todo == Writes(cfg, Tables(), AllWrites(Tables(), withTimers))
      modifies `budget, `todo, `files, `log
      ensures Made(|AllWrites(Tables(), withTimers)|, [], ok)
    {
      hide Tracking, Run, Writes, List, Select, InUse, OnDisk;
      var db := Tables();
      ghost var r5 := Writes(cfg, db, if withTimers then List(db, KTimer) else []);
      ghost var r4 := Writes(cfg, db, List(db, KContainer)) + r5;
      ghost var r3 := Writes(cfg, db, UsedNetworks(db)) + r4;
      ghost var r2 := Writes(cfg, db, List(db, KImage)) + r3;
      ghost var r1 := Writes(cfg, db, QuadletVolumes(db)) + r2;
      AllWritesSplit(withTimers);
      ok := WriteEach(List(db, KPod), r1);
      if !ok { return; }
      ok := WriteSelected(List(db, KVolume), OnDisk(), r2);
      if !ok { return; }
      ok := WriteEach(List(db, KImage), r3);
      if !ok { return; }
      ok := WriteSelected(List(db, KNetwork), InUse(db), r4);
      if !ok { return; }
      ok := WriteEach(List(db, KContainer), r5);
      if !ok { return; }
      WritesNone(cfg, db);
      if withTimers {
        assert r5 == r5 + [];
        ok := WriteEach(List(db, KTimer), []);
      }
    }

    lemma WritesNone(cfg: Config, db: Db)
      ensures Writes(cfg, db, []) == []
    {
    }

    lemma AllWritesSplit(withTimers: bool)
      ensures var db := Tables();
              var r5 := Writes(cfg, db, if withTimers then List(db, KTimer) else []);
              var r3 := Writes(cfg, db, UsedNetworks(db)) + (Writes(cfg, db, List(db, KContainer)) + r5);
              var r1 := Writes(cfg, db, QuadletVolumes(db)) + (Writes(cfg, db, List(db, KImage)) + r3);
              Writes(cfg, db, AllWrites(db, withTimers)) == Writes(cfg, db, List(db, KPod)) + r1
    {
      hide List, UsedNetworks, QuadletVolumes, WriteOf;
    }

    /** for u in us: write the unit */
    method WriteEach(us: seq<Unit>, ghost rest: seq<Action>) returns (ok: bool)
      requires Tracking() && todo == Writes(cfg, Tables(), us) + rest
      modifies `budget, `todo, `files, `log
      ensures Made(|us|, rest, ok)
    {
      hide Tracking, Run, WriteOf, Writes;
      SelectAll(us);
      ok := WriteSelected(us, Any(), rest);
    }

    /** resync_compartment: every unit file but .build, then tail reload, status and restart calls */
    method Resync(tail: nat) returns (outcome: Outcome)
      modifies this
      ensures (View(), outcome) == StepWriteAll(cfg, old(View()), true, old(budget), tail)
    {
      outcome := WriteAll(true, tail);
    }

    /** start_compartment: the subuid setup, every file but .build and .timer, the reload */
    method Start() returns (outcome: Outcome)
      modifies this
      ensures (View(), outcome) == StepStart(cfg, old(View()), old(budget))
    {
      hide StepWriteAll;
      var ok := PlainCall();
      if !ok {
        return Failed;
      }
      outcome := WriteAll(false, 1);
    }

    method AttemptWriteAll(withTimers: bool) returns (ok: bool)
      modifies `budget, `base, `plan, `todo, `files, `log
      ensures View() == Attempt(old(View()), Writes(cfg, Tables(), AllWrites(Tables(), withTimers)), old(budget))
      ensures ok <==> old(budget) >= |AllWrites(Tables(), withTimers)|
      ensures ok ==> budget == old(budget) - |AllWrites(Tables(), withTimers)|
    {
      hide Run, Attempt, AllWrites, WriteOf;
      ghost var b0, p := budget, Writes(cfg, Tables(), AllWrites(Tables(), withTimers));
      base, plan, todo := View(), p, p;
      BeginTracking();
      ok := WriteAllFiles(withTimers);
      Finished(base, p, b0, ok);
    }

    method WriteAll(withTimers: bool, tail: nat) returns (outcome: Outcome)
      modifies this
      ensures (View(), outcome) == StepWriteAll(cfg, old(View()), withTimers, old(budget), tail)
    {
      hide Attempt, AllWrites, WriteOf;
      var ok := AttemptWriteAll(withTimers);
      outcome := if ok && budget >= tail then Done else Failed;
      budget := if outcome == Done then budget - tail else 0;
    }

    lemma IssuesSnoc(us: seq<Unit>, u: Unit)
      ensures Issues(cfg, View(), us + [u])
           == Issues(cfg, View(), us)
              + match Compare(files, FileOf(cfg, u), Rendered(cfg, Tables(), u)) case None => [] case Some(i) => [i]
    {
      assert (us + [u])[..|us|] == us;
    }

    lemma NoUnitsNoIssues()
      ensures Issues(cfg, View(), []) == []
    {
    }

    lemma SelectStep(us: seq<Unit>, p: Unit -> bool, i: nat, picked: seq<Unit>)
      requires i < |us|
      ensures picked + Select(us[i..], p) == (if p(us[i]) then picked + [us[i]] else picked) + Select(us[i + 1..], p)
    {
      assert us[i..][1..] == us[i + 1..];
    }

    lemma SelectEnds(us: seq<Unit>, p: Unit -> bool, picked: seq<Unit>)
      ensures picked + Select(us[|us|..], p) == picked && [] + Select(us[0..], p) == Select(us, p)
    {
      assert us[0..] == us;
    }

    /** for u in us: if p(u): compare the unit's file */
    method CompareSelected(us: seq<Unit>, p: Unit -> bool, sofar: seq<Issue>) returns (issues: seq<Issue>)
      ensures issues == sofar + Issues(cfg, View(), Select(us, p))
    {
      hide Rendered, FileOf, Compare, Issues, Select;
      issues := sofar;
      NoUnitsNoIssues();
      ghost var picked: seq<Unit> := [];
      SelectEnds(us, p, picked);
      for i := 0 to |us|
        invariant Select(us, p) == picked + Select(us[i..], p)
        invariant issues == sofar + Issues(cfg, View(), picked)
      {
        SelectStep(us, p, i, picked);
        if p(us[i]) {
          IssuesSnoc(picked, us[i]);
          picked := picked + [us[i]];
          match Compare(files, FileOf(cfg, us[i]), Rendered(cfg, Tables(), us[i]))
          case None =>
          case Some(issue) => issues := issues + [issue];
        }
      }
      SelectEnds(us, p, picked);
    }

    /** check_service_sync; dirReady: whether the unit directory could be ensured */
    method CheckServiceSync(dirReady: bool) returns (issues: seq<Issue>)
      ensures issues == if dirReady then SyncReport(cfg, View()) else [Issue("(quadlet dir)", Missing)]
    {
      hide Issues, List, Select, InUse, OnDisk;
      if !dirReady {
        return [Issue("(quadlet dir)", Missing)];
      }
      var db := Tables();
      issues := CompareSelected(List(db, KNetwork), InUse(db), []);
      issues := CompareEach(List(db, KPod), issues);
      issues := CompareSelected(List(db, KVolume), OnDisk(), issues);
      issues := CompareEach(List(db, KImage), issues);
      issues := CompareEach(List(db, KBuild), issues);
      issues := CompareEach(List(db, KContainer), issues);
      issues := CompareEach(List(db, KTimer), issues);
      assert View().db == db;
    }

    /** for u in us: compare the unit's file */
    method CompareEach(us: seq<Unit>, sofar: seq<Issue>) returns (issues: seq<Issue>)
      ensures issues == sofar + Issues(cfg, View(), us)
    {
      SelectAll(us);
      issues := CompareSelected(us, Any(), sofar);
    }
  }
}
