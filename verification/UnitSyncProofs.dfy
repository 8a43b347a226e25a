/** Why stored units and unit files can disagree, over every run, and what a resync repairs. */
module UnitSyncProofs {
  import opened Text
  import opened Mounts
  import opened Units
  import opened UnitSync

  /** The file holds what the stored rows call for. */
  predicate InSync(cfg: Config, st: State, u: Unit) {
    Compare(st.files, FileOf(cfg, u), Rendered(cfg, st.db, u)).None?
  }

  predicate Settled(cfg: Config, st: State, u: Unit) {
    HasFile(u) ==> InSync(cfg, st, u) || Blamed(st.log, u.id)
  }

  ghost predicate SettledBut(cfg: Config, st: State, t: Id) {
    forall id :: id in st.db.rows && id != t ==> Settled(cfg, st, st.db.rows[id])
  }

  ghost predicate Sound(cfg: Config, db: Db) {
    NoDot(cfg.sid) && Consistent(db)
  }

  /** Every stored unit is in sync or blamed. */
  ghost predicate Invariant(cfg: Config, st: State) {
    Sound(cfg, st.db) && forall id :: id in st.db.rows ==> Settled(cfg, st, st.db.rows[id])
  }

  // ---- single host calls ----

  lemma BlamedAppend(log: seq<Event>, e: Event, id: Id)
    ensures Blamed(log + [e], id) == if e.id == id then e.Blame? else Blamed(log, id)
  {
    assert (log + [e])[..|log|] == log;
  }

  lemma DistinctFiles(cfg: Config, db: Db, i: Id, j: Id)
    requires Sound(cfg, db) && i in db.rows && j in db.rows && i != j
    ensures FileOf(cfg, db.rows[i]) != FileOf(cfg, db.rows[j])
  {
    var u, v := db.rows[i], db.rows[j];
    assert !NameTaken(db, u);
    if FileOf(cfg, u) == FileOf(cfg, v) {
      FileNameInjective(cfg.sid, KindOf(u), u.name, KindOf(v), v.name);
    }
  }

  /** a writes a stored unit as it should be. */
  ghost predicate Current(cfg: Config, db: Db, a: Action) {
    a.Write? && a.id in db.rows && a == WriteOf(cfg, db, db.rows[a.id])
  }

  /** a writes some unit as it should be, or touches at most the file of unit t. */
  ghost predicate Safe(cfg: Config, db: Db, a: Action, t: Id) {
    match a
    case Write(id, file, _) => Current(cfg, db, a) || (id == t && t in db.rows && file == FileOf(cfg, db.rows[t]))
    case Remove(file) => t in db.rows && file == FileOf(cfg, db.rows[t])
    case Call => true
  }

  lemma WriteSettles(cfg: Config, st: State, a: Action)
    requires Sound(cfg, st.db) && Current(cfg, st.db, a)
    ensures InSync(cfg, Do(st, a), st.db.rows[a.id])
  {
    TidyIdempotent(cfg.template(InputOf(cfg, st.db, st.db.rows[a.id])));
  }

  lemma DoKeeps(cfg: Config, st: State, a: Action, t: Id)
    requires Sound(cfg, st.db) && SettledBut(cfg, st, t) && Safe(cfg, st.db, a, t)
    ensures SettledBut(cfg, Do(st, a), t)
  {
    forall id | id in st.db.rows && id != t ensures Settled(cfg, Do(st, a), st.db.rows[id]) {
      assert Settled(cfg, st, st.db.rows[id]);
      if a.Write? && a.id == id {
        WriteSettles(cfg, st, a);
      } else if !a.Call? {
        var other := if a.Write? then a.id else t;
        DistinctFiles(cfg, st.db, id, other);
        if a.Write? { BlamedAppend(st.log, Wrote(a.id), id); }
      }
    }
  }

  lemma {:induction false} RunKeeps(cfg: Config, st: State, plan: seq<Action>, t: Id)
    requires Sound(cfg, st.db) && SettledBut(cfg, st, t)
    requires forall i :: 0 <= i < |plan| ==> Safe(cfg, st.db, plan[i], t)
    ensures Run(st, plan).db == st.db && SettledBut(cfg, Run(st, plan), t)
  {
    if plan != [] {
      var n := |plan| - 1;
      RunKeeps(cfg, st, plan[..n], t);
      DoKeeps(cfg, Run(st, plan[..n]), plan[n], t);
    }
  }

  /** A plan of current writes that also writes t leaves t in sync as well. */
  lemma {:induction false} RunSettles(cfg: Config, st: State, plan: seq<Action>, w: nat)
    requires Sound(cfg, st.db) && w < |plan| && Current(cfg, st.db, plan[w])
    requires AllCurrent(cfg, st.db, plan)
    ensures Run(st, plan).db == st.db && InSync(cfg, Run(st, plan), st.db.rows[plan[w].id])
  {
    var n := |plan| - 1;
    RunDb(st, plan[..n]);
    if w == n || plan[n] == plan[w] {
      WriteSettles(cfg, Run(st, plan[..n]), plan[n]);
    } else {
      RunSettles(cfg, st, plan[..n], w);
      if plan[n].Write? {
        DistinctFiles(cfg, st.db, plan[n].id, plan[w].id);
      }
    }
  }

  lemma {:induction false} RunDb(st: State, plan: seq<Action>)
    ensures Run(st, plan).db == st.db
  {
    if plan != [] { RunDb(st, plan[..|plan| - 1]); }
  }

  // ---- changing the rows ----

  /** Replacing the rows keeps a unit settled when the unit and what it refers to stay the same. */
  lemma CarryOver(cfg: Config, st: State, db: Db, t: Id)
    requires Sound(cfg, st.db) && Sound(cfg, db) && SettledBut(cfg, st, t)
    requires forall id :: id in db.rows && id != t ==>
               id in st.db.rows && db.rows[id] == st.db.rows[id] && SameContext(st.db, db, db.rows[id])
    ensures SettledBut(cfg, st.(db := db), t)
  {
    forall id | id in db.rows && id != t ensures Settled(cfg, st.(db := db), db.rows[id]) {
      RenderedSame(cfg, st.db, db, db.rows[id]);
      assert Settled(cfg, st, st.db.rows[id]);
    }
  }

  lemma SettledButBlamed(cfg: Config, st: State, t: Id, cause: Cause)
    requires Sound(cfg, st.db) && SettledBut(cfg, st, t)
    ensures Invariant(cfg, st.(log := st.log + [Blame(t, cause)]))
  {
    var after := st.(log := st.log + [Blame(t, cause)]);
    forall id | id in st.db.rows ensures Settled(cfg, after, st.db.rows[id]) {
      BlamedAppend(st.log, Blame(t, cause), id);
      if id != t { assert Settled(cfg, st, st.db.rows[id]); }
    }
  }

  // ---- plans ----

  lemma ListedRow(db: Db, k: Kind, u: Unit)
    requires Consistent(db) && u in List(db, k)
    ensures u.id in db.rows && db.rows[u.id] == u && KindOf(u) == k
  {
  }

  ghost predicate Stored(db: Db, us: seq<Unit>) {
    forall u :: u in us ==> u.id in db.rows && db.rows[u.id] == u
  }

  lemma WritesCurrent(cfg: Config, db: Db, us: seq<Unit>)
    requires Stored(db, us)
    ensures forall i :: 0 <= i < |us| ==> Current(cfg, db, Writes(cfg, db, us)[i])
  {
    forall i | 0 <= i < |us| ensures Current(cfg, db, Writes(cfg, db, us)[i]) {
      assert us[i] in us;
    }
  }

  lemma PrerequisitesStored(db: Db, c: Unit)
    requires Consistent(db) && c.body.ContainerBody?
    ensures Stored(db, ContainerPrerequisites(db, c))
  {
    forall u | u in ContainerPrerequisites(db, c) ensures u.id in db.rows && db.rows[u.id] == u {
      assert u in List(db, KNetwork) || u in List(db, KImage);
    }
  }

  ghost predicate AllCurrent(cfg: Config, db: Db, plan: seq<Action>) {
    forall i :: 0 <= i < |plan| ==> plan[i].Call? || Current(cfg, db, plan[i])
  }

  lemma ContainerPlanCurrent(cfg: Config, db: Db, u: Unit, active: bool) returns (w: nat)
    requires Sound(cfg, db) && u.id in db.rows && db.rows[u.id] == u && u.body.ContainerBody?
    ensures AllCurrent(cfg, db, ContainerPlan(cfg, db, u, active))
    ensures w < |ContainerPlan(cfg, db, u, active)| && ContainerPlan(cfg, db, u, active)[w] == WriteOf(cfg, db, u)
  {
    var pre := ContainerPrerequisites(db, u);
    PrerequisitesStored(db, u);
    WritesCurrent(cfg, db, pre);
    w := 1 + |pre|;
    var front := [Call] + Writes(cfg, db, pre);
    assert AllCurrent(cfg, db, front);
    assert ContainerPlan(cfg, db, u, active)
           == front + ([WriteOf(cfg, db, u), Call, Call] + (if active then [Call] else []));
  }

  lemma PodPlanCurrent(cfg: Config, db: Db, u: Unit, active: bool)
    requires Sound(cfg, db) && u.id in db.rows && db.rows[u.id] == u && u.body.PodBody?
    ensures AllCurrent(cfg, db, AddPlan(cfg, db, u, active))
    ensures AddPlan(cfg, db, u, active)[|UsedNetworks(db)|] == WriteOf(cfg, db, u)
  {
    assert Stored(db, UsedNetworks(db));
    WritesCurrent(cfg, db, UsedNetworks(db));
  }

  /** Plans of adds and updates consist of calls and current writes, with one write of the unit itself. */
  lemma AddPlanCurrent(cfg: Config, db: Db, u: Unit, active: bool) returns (w: nat)
    requires Sound(cfg, db) && u.id in db.rows && db.rows[u.id] == u && u == WithoutNetworkName(u)
    ensures AllCurrent(cfg, db, AddPlan(cfg, db, u, active))
    ensures HasFile(u) ==> w < |AddPlan(cfg, db, u, active)| && AddPlan(cfg, db, u, active)[w] == WriteOf(cfg, db, u)
  {
    w := 0;
    if u.body.ContainerBody? {
      w := ContainerPlanCurrent(cfg, db, u, active);
    } else if u.body.PodBody? {
      PodPlanCurrent(cfg, db, u, active);
      w := |UsedNetworks(db)|;
    }
  }

  lemma UpdatePlanCurrent(cfg: Config, db: Db, u: Unit, active: bool) returns (w: nat)
    requires Sound(cfg, db) && u.id in db.rows && db.rows[u.id] == u
    ensures AllCurrent(cfg, db, UpdatePlan(cfg, db, u, active))
    ensures w < |UpdatePlan(cfg, db, u, active)| && UpdatePlan(cfg, db, u, active)[w] == WriteOf(cfg, db, u)
  {
    w := 0;
    if u.body.ContainerBody? {
      w := ContainerPlanCurrent(cfg, db, u, active);
    }
  }

  function Executed(plan: seq<Action>, budget: nat): seq<Action> {
    if budget < |plan| then plan[..budget] else plan
  }

  // ---- each operation keeps the invariant ----

  /** A new id is none that was used before, and no container refers to it already. */
  ghost predicate Fresh(db: Db, id: Id) {
    && id !in db.order && id !in db.rows
    && forall c :: c in db.rows ==> !MountsVolume(db.rows[c], id)
  }

  ghost predicate Admissible(st: State, op: Op) {
    match op
    case Add(u, _, _) => Fresh(st.db, u.id) && NoDot(u.name)
    case Update(_, name, _, _, _) => NoDot(name)
    case _ => true
  }

  lemma InsertConsistent(db: Db, u: Unit)
    requires Consistent(db) && Fresh(db, u.id) && NoDot(u.name) && !NameTaken(db, u)
    requires u.body.TimerBody? ==> u.body.containerId in db.rows && db.rows[u.body.containerId].body.ContainerBody?
    ensures Consistent(Insert(db, u))
  {
    var db' := Insert(db, u);
    assert u.id !in db.rows;
    forall id | id in db'.rows ensures !NameTaken(db', db'.rows[id]) {
      assert id != u.id ==> !NameTaken(db, db.rows[id]);
    }
  }

  lemma InsertContext(db: Db, u: Unit, id: Id)
    requires Consistent(db) && Fresh(db, u.id) && id in db.rows
    ensures SameContext(db, Insert(db, u), db.rows[id]) && SameContext(Insert(db, u), db, db.rows[id])
  {
    assert !MountsVolume(db.rows[id], u.id);
  }

  lemma AddCarries(cfg: Config, st: State, u: Unit)
    requires Invariant(cfg, st) && Fresh(st.db, u.id) && NoDot(u.name) && !NameTaken(st.db, u)
    requires u.body.TimerBody? ==>
               u.body.containerId in st.db.rows && st.db.rows[u.body.containerId].body.ContainerBody?
    ensures Sound(cfg, Insert(st.db, u)) && SettledBut(cfg, st.(db := Insert(st.db, u)), u.id)
  {
    var db := Insert(st.db, u);
    InsertConsistent(st.db, u);
    forall id | id in st.db.rows ensures SameContext(st.db, db, db.rows[id]) {
      InsertContext(st.db, u, id);
    }
    CarryOver(cfg, st, db, u.id);
  }

  /** Deleting the inserted row again gives the rows, and the settled units, of before. */
  lemma RollBack(cfg: Config, old_: Db, u: Unit, ran: State)
    requires Sound(cfg, old_) && Fresh(old_, u.id) && ran.db == Insert(old_, u)
    requires Sound(cfg, ran.db) && SettledBut(cfg, ran, u.id)
    ensures var back := Db(ran.db.rows - {u.id}, ran.db.order);
            back.rows == old_.rows && Invariant(cfg, ran.(db := back))
  {
    var back := Db(ran.db.rows - {u.id}, ran.db.order);
    assert back.rows == old_.rows;
    RollbackConsistent(old_, back);
    forall id | id in back.rows ensures SameContext(ran.db, back, back.rows[id]) {
      InsertContext(old_, u, id);
      SameRowsSameContext(old_, back, back.rows[id]);
    }
    CarryOver(cfg, ran, back, u.id);
  }

  lemma AddSucceeds(cfg: Config, st: State, u: Unit, active: bool)
    requires Sound(cfg, st.db) && u.id in st.db.rows && st.db.rows[u.id] == u && SettledBut(cfg, st, u.id)
    ensures var ran := Run(st, AddPlan(cfg, st.db, u, active));
            Invariant(cfg, if u == WithoutNetworkName(u) then ran
                           else ran.(log := ran.log + [Blame(u.id, DroppedNetworkName)]))
  {
    var plan := AddPlan(cfg, st.db, u, active);
    AddPlanSafe(cfg, st.db, u, active);
    RunKeeps(cfg, st, plan, u.id);
    if u != WithoutNetworkName(u) {
      SettledButBlamed(cfg, Run(st, plan), u.id, DroppedNetworkName);
    } else {
      var w := AddPlanCurrent(cfg, st.db, u, active);
      if HasFile(u) { RunSettles(cfg, st, plan, w); }
    }
  }

  lemma AddRowKeeps(cfg: Config, st: State, u: Unit, budget: nat, active: bool)
    requires Invariant(cfg, st) && Fresh(st.db, u.id) && NoDot(u.name)
    ensures var (after, outcome) := AddRow(cfg, st, u, budget, active);
            Invariant(cfg, after) && (outcome != Done ==> after.db.rows == st.db.rows)
  {
    hide AddPlan, Run, WithoutNetworkName, NameTaken, Invariant, SettledBut;
    var (after, outcome) := AddRow(cfg, st, u, budget, active);
    if outcome != NotFound && outcome != Rejected {
      var db := Insert(st.db, u);
      AddCarries(cfg, st, u);
      var plan := AddPlan(cfg, db, u, active);
      if outcome == RolledBack {
        AddPlanSafe(cfg, db, u, active);
        RunKeeps(cfg, st.(db := db), plan[..budget], u.id);
        InvariantSound(cfg, st);
        RollBack(cfg, st.db, u, Run(st.(db := db), plan[..budget]));
      } else {
        AddSucceeds(cfg, st.(db := db), u, active);
      }
    }
  }

  /** An add keeps the invariant; one that does not succeed leaves the stored rows exactly as they were. */
  lemma AddKeeps(cfg: Config, st: State, u: Unit, budget: nat, active: bool)
    requires Invariant(cfg, st) && Fresh(st.db, u.id) && NoDot(u.name)
    ensures var (after, outcome) := StepAdd(cfg, st, u, budget, active);
            Invariant(cfg, after) && (outcome != Done ==> after.db.rows == st.db.rows)
  {
    hide AddRow, Invariant, Fresh;
    if budget >= Preparation(u.body) {
      AddRowKeeps(cfg, st, u, budget - Preparation(u.body), active);
    }
  }

  lemma InvariantSound(cfg: Config, st: State)
    requires Invariant(cfg, st)
    ensures Sound(cfg, st.db)
  {
  }

  lemma AddPlanSafe(cfg: Config, db: Db, u: Unit, active: bool)
    requires Sound(cfg, db) && u.id in db.rows && db.rows[u.id] == u
    ensures var plan := AddPlan(cfg, db, u, active); forall i :: 0 <= i < |plan| ==> Safe(cfg, db, plan[i], u.id)
  {
    if u == WithoutNetworkName(u) {
      var w := AddPlanCurrent(cfg, db, u, active);
    }
  }

  lemma RollbackConsistent(db: Db, back: Db)
    requires Consistent(db) && back.rows == db.rows && forall id :: id in db.order ==> id in back.order
    ensures Consistent(back)
  {
    forall id | id in back.rows ensures !NameTaken(back, back.rows[id]) {
      assert !NameTaken(db, db.rows[id]);
    }
  }

  lemma SameRowsSameContext(db: Db, db': Db, u: Unit)
    requires db.rows == db'.rows
    ensures SameContext(db, db', u)
  {
  }

  lemma UpdateContext(db: Db, id: Id, u: Unit, i: Id)
    requires Consistent(db) && id in db.rows && i in db.rows
    requires u.id == id && KindOf(u) == KindOf(db.rows[id]) && !u.body.VolumeBody?
    requires u.body.NetworkBody? || u.name == db.rows[id].name
    ensures SameContext(db, db.(rows := db.rows[id := u]), db.rows[i])
  {
  }

  lemma UpdateConsistent(db: Db, id: Id, u: Unit)
    requires Consistent(db) && id in db.rows && u.id == id && KindOf(u) == KindOf(db.rows[id]) && !u.body.TimerBody?
    requires NoDot(u.name) && !NameTaken(db, u)
    ensures Consistent(db.(rows := db.rows[id := u]))
  {
    var db' := db.(rows := db.rows[id := u]);
    forall i | i in db'.rows ensures !NameTaken(db', db'.rows[i]) {
      assert !NameTaken(db, db.rows[i]);
    }
  }

  lemma UpdateCarries(cfg: Config, st: State, id: Id, u: Unit)
    requires Invariant(cfg, st) && id in st.db.rows && u.id == id && KindOf(u) == KindOf(st.db.rows[id])
    requires !u.body.VolumeBody? && !u.body.TimerBody? && (u.body.NetworkBody? || u.name == st.db.rows[id].name)
    requires NoDot(u.name) && !NameTaken(st.db, u)
    ensures var db := st.db.(rows := st.db.rows[id := u]);
            Sound(cfg, db) && SettledBut(cfg, st.(db := db), id)
  {
    var db := st.db.(rows := st.db.rows[id := u]);
    UpdateConsistent(st.db, id, u);
    forall i | i in db.rows && i != id ensures SameContext(st.db, db, db.rows[i]) {
      UpdateContext(st.db, id, u, i);
    }
    CarryOver(cfg, st, db, id);
  }

  /** Writing a unit whose rows are already committed: in sync when all calls succeed, blamed otherwise. */
  lemma RewriteKeeps(cfg: Config, st: State, u: Unit, budget: nat, active: bool)
    requires Sound(cfg, st.db) && u.id in st.db.rows && st.db.rows[u.id] == u && SettledBut(cfg, st, u.id)
    ensures var plan := UpdatePlan(cfg, st.db, u, active);
            var ran := Attempt(st, plan, budget);
            Invariant(cfg, if budget < |plan| then ran.(log := ran.log + [Blame(u.id, FailedUpdate)]) else ran)
  {
    var plan := UpdatePlan(cfg, st.db, u, active);
    var w := UpdatePlanCurrent(cfg, st.db, u, active);
    var done := Executed(plan, budget);
    RunKeeps(cfg, st, done, u.id);
    if budget < |plan| {
      SettledButBlamed(cfg, Run(st, done), u.id, FailedUpdate);
    } else {
      RunSettles(cfg, st, plan, w);
    }
  }

  lemma UpdateRowKeeps(cfg: Config, st: State, id: Id, name: string, body: Body, budget: nat, active: bool)
    requires Invariant(cfg, st) && NoDot(name)
    ensures Invariant(cfg, UpdateRow(cfg, st, id, name, body, budget, active).0)
  {
    hide UpdatePlan, Run, NameTaken;
    if id in st.db.rows && Updatable(st.db.rows[id], body) {
      var u := Updated(st.db.rows[id], name, body);
      if !NameTaken(st.db, u) {
        UpdateCarries(cfg, st, id, u);
        RewriteKeeps(cfg, st.(db := st.db.(rows := st.db.rows[id := u])), u, budget, active);
      }
    }
  }

  lemma UpdateKeeps(cfg: Config, st: State, id: Id, name: string, body: Body, budget: nat, active: bool)
    requires Invariant(cfg, st) && NoDot(name)
    ensures Invariant(cfg, StepUpdate(cfg, st, id, name, body, budget, active).0)
  {
    hide UpdateRow, Invariant;
    if budget >= Preparation(body) {
      UpdateRowKeeps(cfg, st, id, name, body, budget - Preparation(body), active);
    }
  }

  lemma {:induction false} LostVolumeBlames(log: seq<Event>, us: seq<Unit>, volume: Id, id: Id)
    ensures Blamed(log + LostVolumeEvents(us, volume), id)
        <==> Blamed(log, id) || exists u :: u in us && u.id == id && MountsVolume(u, volume)
  {
    if us == [] {
      assert log + LostVolumeEvents(us, volume) == log;
    } else {
      var front, last := us[..|us| - 1], us[|us| - 1];
      assert forall u :: u in us <==> u in front || u == last;
      LostVolumeBlames(log, front, volume, id);
      if MountsVolume(last, volume) {
        var e := Blame(last.id, LostVolume);
        assert log + LostVolumeEvents(us, volume) == log + LostVolumeEvents(front, volume) + [e];
        BlamedAppend(log + LostVolumeEvents(front, volume), e, id);
      }
    }
  }

  lemma EraseConsistent(db: Db, id: Id)
    requires Consistent(db) && id in db.rows
    ensures Consistent(Erase(db, id))
  {
    var db' := Erase(db, id);
    forall i | i in db'.rows ensures !NameTaken(db', db'.rows[i]) {
      assert !NameTaken(db, db.rows[i]);
    }
  }

  lemma EraseContext(db: Db, id: Id, i: Id)
    requires Consistent(db) && id in db.rows && i in Erase(db, id).rows
    requires db.rows[id].body.VolumeBody? ==> !MountsVolume(db.rows[i], id)
    ensures SameContext(db, Erase(db, id), db.rows[i])
  {
    var u := db.rows[i];
    if u.body.ContainerBody? {
      forall m | m in u.body.mounts ensures VolumeRow(db, m.volumeId) == VolumeRow(Erase(db, id), m.volumeId) {
      }
    }
  }

  lemma DeletePlanSafe(cfg: Config, db: Db, u: Unit, removed: bool)
    requires u.id in db.rows && db.rows[u.id] == u
    ensures var plan := DeletePlan(cfg, u, removed); forall i :: 0 <= i < |plan| ==> Safe(cfg, db, plan[i], u.id)
  {
  }

  lemma DeleteKeeps(cfg: Config, st: State, id: Id, budget: nat, removed: bool, running: set<Id>)
    requires Invariant(cfg, st)
    ensures Invariant(cfg, StepDelete(cfg, st, id, budget, removed, running).0)
  {
    var (after, outcome) := StepDelete(cfg, st, id, budget, removed, running);
    if outcome == Done || outcome == Failed {
      var u := st.db.rows[id];
      var done := Executed(DeletePlan(cfg, u, removed), budget);
      DeletePlanSafe(cfg, st.db, u, removed);
      RunKeeps(cfg, st, done, id);
      var ran := Run(st, done);
      if outcome == Failed {
        SettledButBlamed(cfg, ran, id, FailedDelete);
      } else {
        EraseConsistent(st.db, id);
        forall i | i in after.db.rows ensures Settled(cfg, after, after.db.rows[i]) {
          ErasedSettled(cfg, st, ran, id, i);
        }
      }
    }
  }

  /** What stays after a delete is settled: same rendering as before, or blamed for the lost volume. */
  lemma ErasedSettled(cfg: Config, st: State, ran: State, id: Id, i: Id)
    requires Sound(cfg, st.db) && ran.db == st.db && id in st.db.rows && SettledBut(cfg, ran, id)
    requires i in Erase(st.db, id).rows && Sound(cfg, Erase(st.db, id))
    ensures var lost := if st.db.rows[id].body.VolumeBody? then LostVolumeEvents(List(st.db, KContainer), id) else [];
            Settled(cfg, State(Erase(st.db, id), ran.files, ran.log + lost), st.db.rows[i])
  {
    var u := st.db.rows[i];
    var lost := if st.db.rows[id].body.VolumeBody? then LostVolumeEvents(List(st.db, KContainer), id) else [];
    assert Settled(cfg, ran, u);
    if st.db.rows[id].body.VolumeBody? {
      LostVolumeBlames(ran.log, List(st.db, KContainer), id, i);
    } else {
      assert ran.log + lost == ran.log;
    }
    if st.db.rows[id].body.VolumeBody? && MountsVolume(u, id) {
      Listed(st.db, i);
    } else {
      EraseContext(st.db, id, i);
      RenderedSame(cfg, st.db, Erase(st.db, id), u);
    }
  }

  lemma AllWritesStored(db: Db, withTimers: bool)
    requires Consistent(db)
    ensures Stored(db, AllWrites(db, withTimers))
  {
    forall u | u in AllWrites(db, withTimers) ensures u.id in db.rows && db.rows[u.id] == u {
      assert exists k :: u in List(db, k);
    }
  }

  lemma WriteAllKeeps(cfg: Config, st: State, withTimers: bool, budget: nat, tail: nat)
    requires Invariant(cfg, st)
    ensures Invariant(cfg, StepWriteAll(cfg, st, withTimers, budget, tail).0)
  {
    var us := AllWrites(st.db, withTimers);
    AllWritesStored(st.db, withTimers);
    WritesCurrent(cfg, st.db, us);
    var done := Executed(Writes(cfg, st.db, us), budget);
    forall id | id in st.db.rows ensures Settled(cfg, Run(st, done), st.db.rows[id]) {
      RunKeeps(cfg, st, done, id + 1);
    }
    RunDb(st, done);
  }

  // ---- every run ----

  function RunOps(cfg: Config, st: State, ops: seq<Op>): State {
    if ops == [] then st else Step(cfg, RunOps(cfg, st, ops[..|ops| - 1]), ops[|ops| - 1]).0
  }

  ghost predicate AdmissibleRun(cfg: Config, st: State, ops: seq<Op>) {
    forall n :: 0 <= n < |ops| ==> Admissible(RunOps(cfg, st, ops[..n]), ops[n])
  }

  lemma StepKeeps(cfg: Config, st: State, op: Op)
    requires Invariant(cfg, st) && Admissible(st, op)
    ensures Invariant(cfg, Step(cfg, st, op).0)
  {
    match op
    case Add(u, budget, active) => AddKeeps(cfg, st, u, budget, active);
    case Update(id, name, body, budget, active) => UpdateKeeps(cfg, st, id, name, body, budget, active);
    case Delete(id, budget, removed, running) => DeleteKeeps(cfg, st, id, budget, removed, running);
    case Resync(budget, tail) => WriteAllKeeps(cfg, st, true, budget, tail);
    case Start(budget) => if budget > 0 { WriteAllKeeps(cfg, st, false, budget - 1, 1); }
  }

  lemma {:induction false} RunKeepsInvariant(cfg: Config, st: State, ops: seq<Op>)
    requires Invariant(cfg, st) && AdmissibleRun(cfg, st, ops)
    ensures Invariant(cfg, RunOps(cfg, st, ops))
  {
    if ops != [] {
      var front := ops[..|ops| - 1];
      forall n | 0 <= n < |front| ensures Admissible(RunOps(cfg, st, front[..n]), front[n]) {
        assert front[..n] == ops[..n];
      }
      RunKeepsInvariant(cfg, st, front);
      StepKeeps(cfg, RunOps(cfg, st, front), ops[|ops| - 1]);
    }
  }

  // ---- the report ----

  lemma {:induction false} IssuesAre(cfg: Config, st: State, us: seq<Unit>, i: Issue)
    ensures i in Issues(cfg, st, us)
        <==> exists u :: u in us && Compare(st.files, FileOf(cfg, u), Rendered(cfg, st.db, u)) == Some(i)
  {
    if us != [] {
      var front, last := us[..|us| - 1], us[|us| - 1];
      assert forall u :: u in us <==> u in front || u == last;
      IssuesAre(cfg, st, front, i);
    }
  }

  /** The units the check looks at. */
  predicate Checked(db: Db, u: Unit) {
    u in UsedNetworks(db) || u in List(db, KPod) || u in QuadletVolumes(db) || u in List(db, KImage)
    || u in List(db, KBuild) || u in List(db, KContainer) || u in List(db, KTimer)
  }

  lemma ReportIs(cfg: Config, st: State, i: Issue)
    ensures i in SyncReport(cfg, st)
        <==> exists u :: Checked(st.db, u) && Compare(st.files, FileOf(cfg, u), Rendered(cfg, st.db, u)) == Some(i)
  {
    IssuesAre(cfg, st, UsedNetworks(st.db), i);
    IssuesAre(cfg, st, List(st.db, KPod), i);
    IssuesAre(cfg, st, QuadletVolumes(st.db), i);
    IssuesAre(cfg, st, List(st.db, KImage), i);
    IssuesAre(cfg, st, List(st.db, KBuild), i);
    IssuesAre(cfg, st, List(st.db, KContainer), i);
    IssuesAre(cfg, st, List(st.db, KTimer), i);
  }

  lemma CheckedIsStored(db: Db, u: Unit)
    requires Consistent(db) && Checked(db, u)
    ensures u.id in db.rows && db.rows[u.id] == u && HasFile(u)
  {
    assert exists k :: u in List(db, k);
  }

  lemma ReportExplained(cfg: Config, st: State, i: Issue)
    requires Invariant(cfg, st) && i in SyncReport(cfg, st)
    ensures exists id :: id in st.db.rows && i.file == FileOf(cfg, st.db.rows[id]) && Blamed(st.log, id)
  {
    ReportIs(cfg, st, i);
    var u :| Checked(st.db, u) && Compare(st.files, FileOf(cfg, u), Rendered(cfg, st.db, u)) == Some(i);
    CheckedIsStored(st.db, u);
    assert Settled(cfg, st, st.db.rows[u.id]);
  }

  function Start0(files: map<string, string>): State {
    State(Db(map[], []), files, [])
  }

  /** In every run from an empty database, over any prior contents of the unit directory: each
      stored unit with a file is in sync or blamed, and the check reports only blamed units. */
  lemma DriftIsExplained(cfg: Config, files: map<string, string>, ops: seq<Op>)
    requires NoDot(cfg.sid) && AdmissibleRun(cfg, Start0(files), ops)
    ensures var st := RunOps(cfg, Start0(files), ops);
            && (forall id :: id in st.db.rows ==> Settled(cfg, st, st.db.rows[id]))
            && forall i :: i in SyncReport(cfg, st) ==>
                 exists id :: id in st.db.rows && i.file == FileOf(cfg, st.db.rows[id]) && Blamed(st.log, id)
  {
    RunKeepsInvariant(cfg, Start0(files), ops);
    var st := RunOps(cfg, Start0(files), ops);
    forall i | i in SyncReport(cfg, st)
      ensures exists id :: id in st.db.rows && i.file == FileOf(cfg, st.db.rows[id]) && Blamed(st.log, id)
    {
      ReportExplained(cfg, st, i);
    }
  }

  /** Blamed, read off the history: a blame with no write of the unit after it. */
  lemma {:induction false} BlamedMeans(log: seq<Event>, id: Id)
    ensures Blamed(log, id) <==>
            exists n :: 0 <= n < |log| && log[n].Blame? && log[n].id == id
                        && forall m :: n < m < |log| ==> log[m] != Wrote(id)
  {
    if log != [] {
      var front, last := log[..|log| - 1], log[|log| - 1];
      BlamedMeans(front, id);
      if last.id != id && Blamed(front, id) {
        var n :| 0 <= n < |front| && front[n].Blame? && front[n].id == id
                 && forall m :: n < m < |front| ==> front[m] != Wrote(id);
        assert log[n] == front[n];
      }
      if n :| 0 <= n < |log| && log[n].Blame? && log[n].id == id && forall m :: n < m < |log| ==> log[m] != Wrote(id) {
        if n < |front| {
          assert front[n] == log[n];
          assert forall m :: n < m < |front| ==> front[m] == log[m];
        }
      }
    }
  }

  lemma {:induction false} RunLogsWrites(st: State, plan: seq<Action>)
    ensures st.log <= Run(st, plan).log
    ensures forall n :: |st.log| <= n < |Run(st, plan).log| ==> Run(st, plan).log[n].Wrote?
  {
    if plan != [] { RunLogsWrites(st, plan[..|plan| - 1]); }
  }

  lemma {:induction false} LostVolumeNames(us: seq<Unit>, volume: Id, n: nat)
    requires n < |LostVolumeEvents(us, volume)|
    ensures var e := LostVolumeEvents(us, volume)[n];
            e.Blame? && e.cause == LostVolume && exists u :: u in us && u.id == e.id && MountsVolume(u, volume)
  {
    var front, last := us[..|us| - 1], us[|us| - 1];
    assert last in us && forall u :: u in front ==> u in us;
    if n < |LostVolumeEvents(front, volume)| {
      LostVolumeNames(front, volume, n);
    }
  }

  /** What a blame recorded by a step says happened. */
  ghost predicate Earned(st: State, op: Op, outcome: Outcome, e: Event)
    requires e.Blame?
  {
    match e.cause
    case FailedUpdate => op.Update? && op.id == e.id && outcome == OutOfSync
    case FailedDelete => op.Delete? && op.id == e.id && outcome == Failed
    case LostVolume =>
      && op.Delete? && outcome == Done && op.id in st.db.rows && st.db.rows[op.id].body.VolumeBody?
      && e.id in st.db.rows && MountsVolume(st.db.rows[e.id], op.id)
    case DroppedNetworkName =>
      op.Add? && op.u.id == e.id && op.u.body.NetworkBody? && op.u.body.networkName != ""
  }

  /** No step blames a unit for anything but a failed update or delete of it, a deleted volume it
      mounted, or a network name that add_network stored but did not write. */
  lemma BlameIsEarned(cfg: Config, st: State, op: Op, n: nat)
    requires Consistent(st.db)
    requires var (after, outcome) := Step(cfg, st, op); |st.log| <= n < |after.log| && after.log[n].Blame?
    ensures var (after, outcome) := Step(cfg, st, op); Earned(st, op, outcome, after.log[n])
  {
    hide Run, Writes, AllWrites, AddPlan, UpdatePlan, DeletePlan;
    match op
    case Add(u, budget, active) =>
      var db := Insert(st.db, u);
      RunLogsWrites(st.(db := db), Executed(AddPlan(cfg, db, u, active), budget - Preparation(u.body)));
    case Update(id, name, body, budget, active) =>
      var u := Updated(st.db.rows[id], name, body);
      var db := st.db.(rows := st.db.rows[id := u]);
      RunLogsWrites(st.(db := db), Executed(UpdatePlan(cfg, db, u, active), budget - Preparation(body)));
    case Delete(id, budget, removed, running) =>
      DeleteBlames(cfg, st, id, budget, removed, running, n);
    case Resync(budget, tail) => RunLogsWrites(st, Executed(Writes(cfg, st.db, AllWrites(st.db, true)), budget));
    case Start(budget) =>
      if budget > 0 { RunLogsWrites(st, Executed(Writes(cfg, st.db, AllWrites(st.db, false)), budget - 1)); }
  }

  lemma DeleteBlames(cfg: Config, st: State, id: Id, budget: nat, removed: bool, running: set<Id>, n: nat)
    requires Consistent(st.db)
    requires var after := StepDelete(cfg, st, id, budget, removed, running).0;
             |st.log| <= n < |after.log| && after.log[n].Blame?
    ensures var (after, outcome) := StepDelete(cfg, st, id, budget, removed, running);
            Earned(st, Delete(id, budget, removed, running), outcome, after.log[n])
  {
    hide Run, DeletePlan, ReferredTo, Erase;
    var (after, outcome) := StepDelete(cfg, st, id, budget, removed, running);
    var ran := Run(st, Executed(DeletePlan(cfg, st.db.rows[id], removed), budget));
    RunLogsWrites(st, Executed(DeletePlan(cfg, st.db.rows[id], removed), budget));
    if outcome == Done && n >= |ran.log| {
      var lost := LostVolumeEvents(List(st.db, KContainer), id);
      assert after.log[n] == lost[n - |ran.log|];
      LostVolumeNames(List(st.db, KContainer), id, n - |ran.log|);
    }
  }

  // ---- resync ----

  lemma {:induction false} RunLeavesFile(st: State, plan: seq<Action>, f: string)
    requires forall i :: 0 <= i < |plan| ==> !plan[i].Call? ==> plan[i].file != f
    ensures f in Run(st, plan).files <==> f in st.files
    ensures f in st.files ==> Run(st, plan).files[f] == st.files[f]
  {
    if plan != [] { RunLeavesFile(st, plan[..|plan| - 1], f); }
  }

  lemma {:induction false} NoIssues(cfg: Config, st: State, us: seq<Unit>)
    requires forall u :: u in us ==> InSync(cfg, st, u)
    ensures Issues(cfg, st, us) == []
  {
    if us != [] {
      assert us[|us| - 1] in us;
      NoIssues(cfg, st, us[..|us| - 1]);
    }
  }

  lemma {:induction false} SameIssues(cfg: Config, st: State, st': State, us: seq<Unit>)
    requires st.db == st'.db
    requires forall u :: u in us ==> var f := FileOf(cfg, u);
               (f in st.files <==> f in st'.files) && (f in st.files ==> st.files[f] == st'.files[f])
    ensures Issues(cfg, st, us) == Issues(cfg, st', us)
  {
    if us != [] {
      assert us[|us| - 1] in us;
      SameIssues(cfg, st, st', us[..|us| - 1]);
    }
  }

  /** After all writes succeeded, what was written is in sync and nothing else changed. */
  lemma WriteAllWrites(cfg: Config, st: State, withTimers: bool, u: Unit)
    requires Sound(cfg, st.db) && u.id in st.db.rows && st.db.rows[u.id] == u
    ensures var st' := Run(st, Writes(cfg, st.db, AllWrites(st.db, withTimers)));
            var f := FileOf(cfg, u);
            && st'.db == st.db
            && if u in AllWrites(st.db, withTimers) then InSync(cfg, st', u)
               else (f in st.files <==> f in st'.files) && (f in st.files ==> st.files[f] == st'.files[f])
  {
    var us := AllWrites(st.db, withTimers);
    var plan := Writes(cfg, st.db, us);
    AllWritesStored(st.db, withTimers);
    WritesCurrent(cfg, st.db, us);
    RunDb(st, plan);
    if u in us {
      var w :| 0 <= w < |us| && us[w] == u;
      RunSettles(cfg, st, plan, w);
    } else {
      forall i | 0 <= i < |plan| ensures plan[i].file != FileOf(cfg, u) {
        assert us[i] in us;
        DistinctFiles(cfg, st.db, us[i].id, u.id);
      }
      RunLeavesFile(st, plan, FileOf(cfg, u));
    }
  }

  lemma NotWritten(db: Db, withTimers: bool, u: Unit)
    requires u in AllWrites(db, withTimers)
    ensures !u.body.BuildBody? && (!withTimers ==> !u.body.TimerBody?)
  {
    assert u in List(db, KPod) || u in List(db, KVolume) || u in List(db, KImage) || u in List(db, KNetwork)
        || u in List(db, KContainer) || (withTimers && u in List(db, KTimer));
  }

  lemma WriteAllRepairs(cfg: Config, st: State, withTimers: bool, budget: nat, tail: nat)
    requires Sound(cfg, st.db) && StepWriteAll(cfg, st, withTimers, budget, tail).1 == Done
    ensures SyncReport(cfg, StepWriteAll(cfg, st, withTimers, budget, tail).0)
         == Issues(cfg, st, List(st.db, KBuild)) + if withTimers then [] else Issues(cfg, st, List(st.db, KTimer))
  {
    WrittenIssues(cfg, st, withTimers);
    UnwrittenIssues(cfg, st, withTimers, KBuild);
    if !withTimers { UnwrittenIssues(cfg, st, withTimers, KTimer); }
    RunDb(st, Writes(cfg, st.db, AllWrites(st.db, withTimers)));
    var st' := Run(st, Writes(cfg, st.db, AllWrites(st.db, withTimers)));
    OnlyBuildsAndTimers(cfg, st', Issues(cfg, st', List(st.db, KBuild)), Issues(cfg, st', List(st.db, KTimer)));
  }

  /** A successful resync repairs every drift the check can report except that of .build files, which
      it leaves exactly as it was; a successful start also leaves .timer files as they were. */
  lemma ResyncRepairs(cfg: Config, st: State, op: Op)
    requires Sound(cfg, st.db) && (op.Resync? || op.Start?) && Step(cfg, st, op).1 == Done
    ensures SyncReport(cfg, Step(cfg, st, op).0)
         == Issues(cfg, st, List(st.db, KBuild)) + if op.Resync? then [] else Issues(cfg, st, List(st.db, KTimer))
  {
    hide SyncReport, Issues, List, Sound, StepWriteAll;
    match op
    case Resync(budget, tail) => WriteAllRepairs(cfg, st, true, budget, tail);
    case Start(budget) => WriteAllRepairs(cfg, st, false, budget - 1, 1);
  }

  lemma OnlyBuildsAndTimers(cfg: Config, st: State, builds: seq<Issue>, timers: seq<Issue>)
    requires Issues(cfg, st, UsedNetworks(st.db)) == [] && Issues(cfg, st, List(st.db, KPod)) == []
    requires Issues(cfg, st, QuadletVolumes(st.db)) == [] && Issues(cfg, st, List(st.db, KImage)) == []
    requires Issues(cfg, st, List(st.db, KContainer)) == []
    requires Issues(cfg, st, List(st.db, KBuild)) == builds && Issues(cfg, st, List(st.db, KTimer)) == timers
    ensures SyncReport(cfg, st) == builds + timers
  {
    hide Issues, List, UsedNetworks, QuadletVolumes;
    assert [] + [] + [] + [] + builds + [] + timers == builds + timers;
  }

  lemma WrittenIssues(cfg: Config, st: State, withTimers: bool)
    requires Sound(cfg, st.db)
    ensures var st' := Run(st, Writes(cfg, st.db, AllWrites(st.db, withTimers)));
            && Issues(cfg, st', UsedNetworks(st.db)) == [] && Issues(cfg, st', List(st.db, KPod)) == []
            && Issues(cfg, st', QuadletVolumes(st.db)) == [] && Issues(cfg, st', List(st.db, KImage)) == []
            && Issues(cfg, st', List(st.db, KContainer)) == []
            && (withTimers ==> Issues(cfg, st', List(st.db, KTimer)) == [])
  {
    var us := AllWrites(st.db, withTimers);
    var st' := Run(st, Writes(cfg, st.db, us));
    AllWritesStored(st.db, withTimers);
    forall u | u in us ensures InSync(cfg, st', u) {
      WriteAllWrites(cfg, st, withTimers, u);
    }
    NoIssues(cfg, st', UsedNetworks(st.db));
    NoIssues(cfg, st', List(st.db, KPod));
    NoIssues(cfg, st', QuadletVolumes(st.db));
    NoIssues(cfg, st', List(st.db, KImage));
    NoIssues(cfg, st', List(st.db, KContainer));
    if withTimers { NoIssues(cfg, st', List(st.db, KTimer)); }
  }

  lemma UnwrittenIssues(cfg: Config, st: State, withTimers: bool, k: Kind)
    requires Sound(cfg, st.db) && (k == KBuild || (k == KTimer && !withTimers))
    ensures var st' := Run(st, Writes(cfg, st.db, AllWrites(st.db, withTimers)));
            Issues(cfg, st', List(st.db, k)) == Issues(cfg, st, List(st.db, k))
  {
    var us := List(st.db, k);
    var st' := Run(st, Writes(cfg, st.db, AllWrites(st.db, withTimers)));
    RunDb(st, Writes(cfg, st.db, AllWrites(st.db, withTimers)));
    forall u | u in us ensures var f := FileOf(cfg, u);
               (f in st'.files <==> f in st.files) && (f in st'.files ==> st'.files[f] == st.files[f]) {
      ListedRow(st.db, k, u);
      if u in AllWrites(st.db, withTimers) { NotWritten(st.db, withTimers, u); }
      WriteAllWrites(cfg, st, withTimers, u);
    }
    SameIssues(cfg, st', st, us);
  }
}
