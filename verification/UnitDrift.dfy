/** What a successful operation leaves behind, exactly when a unit drifts although every call succeeded,
    and where files without a stored unit come from. */
module UnitDrift {
  import opened Text
  import opened Mounts
  import opened Units
  import opened UnitSync
  import opened UnitSyncProofs

  // ---- what success means ----

  /** The state an add that succeeded leads to, and its plan. */
  lemma AddRan(cfg: Config, st: State, u: Unit, budget: nat, active: bool)
    requires Invariant(cfg, st) && Fresh(st.db, u.id) && NoDot(u.name)
    requires StepAdd(cfg, st, u, budget, active).1 == Done
    ensures var db := Insert(st.db, u);
            var ran := Run(st.(db := db), AddPlan(cfg, db, u, active));
            var after := StepAdd(cfg, st, u, budget, active).0;
            Sound(cfg, db) && after.db == db && after.files == ran.files && ran.db == db
  {
    AddCarries(cfg, st, u);
    hide AddPlan, WithoutNetworkName, Invariant, Sound, SettledBut;
    var db := Insert(st.db, u);
    RunDb(st.(db := db), AddPlan(cfg, db, u, active));
  }

  lemma NetworkFile(cfg: Config, st: State, u: Unit)
    requires u.body.NetworkBody?
    ensures var f := FileOf(cfg, u);
            var ran := Run(st, [WriteOf(cfg, st.db, WithoutNetworkName(u)), Call]);
            f in ran.files && ran.files[f] == Rendered(cfg, st.db, WithoutNetworkName(u))
  {
    hide Rendered;
    var w := WriteOf(cfg, st.db, WithoutNetworkName(u));
    RunThenCall(st, [w]);
    assert [w] + [Call] == [w, Call] && [w][..0] == [];
    assert Run(st, [w]) == Do(Run(st, []), w);
  }

  lemma RenderedIsTidy(cfg: Config, db: Db, u: Unit)
    ensures Tidy(Rendered(cfg, db, u)) == Rendered(cfg, db, u)
  {
    TidyIdempotent(cfg.template(InputOf(cfg, db, u)));
  }

  /** A successful add stores exactly the row. Its file is in sync exactly when the row renders as it does
      without its network name, which for any other unit than a network is always so. */
  lemma AddDone(cfg: Config, st: State, u: Unit, budget: nat, active: bool)
    requires Invariant(cfg, st) && Fresh(st.db, u.id) && NoDot(u.name)
    requires StepAdd(cfg, st, u, budget, active).1 == Done
    ensures var after := StepAdd(cfg, st, u, budget, active).0;
            after.db.rows == st.db.rows[u.id := u]
            && (HasFile(u) ==>
                (InSync(cfg, after, u)
                 <==> Rendered(cfg, after.db, WithoutNetworkName(u)) == Rendered(cfg, after.db, u)))
  {
    AddRan(cfg, st, u, budget, active);
    var db := Insert(st.db, u);
    if u.body.NetworkBody? {
      NetworkFile(cfg, st.(db := db), u);
      RenderedIsTidy(cfg, db, WithoutNetworkName(u));
      hide Rendered, FileOf;
      assert AddPlan(cfg, db, u, active) == [WriteOf(cfg, db, WithoutNetworkName(u)), Call];
    } else if HasFile(u) {
      var w := AddPlanCurrent(cfg, db, u, active);
      hide Rendered, AddPlan, Sound, StepAdd;
      RunSettles(cfg, st.(db := db), AddPlan(cfg, db, u, active), w);
    }
  }

  /** add_network leaves its file out of sync exactly when the network template tells the row with its
      network name from the row without one. */
  lemma NetworkDriftsIff(cfg: Config, st: State, u: Unit, budget: nat, active: bool)
    requires Invariant(cfg, st) && Fresh(st.db, u.id) && NoDot(u.name) && u.body.NetworkBody?
    requires StepAdd(cfg, st, u, budget, active).1 == Done
    ensures InSync(cfg, StepAdd(cfg, st, u, budget, active).0, u)
       <==> Tidy(cfg.template(Plain(u))) == Tidy(cfg.template(Plain(u.(body := u.body.(networkName := "")))))
  {
    AddDone(cfg, st, u, budget, active);
    hide InSync, StepAdd, Invariant, Tidy;
  }

  /** What an update that is not turned down writes. */
  lemma UpdatedIs(cfg: Config, st: State, id: Id, name: string, body: Body, budget: nat, active: bool)
    requires Invariant(cfg, st) && StepUpdate(cfg, st, id, name, body, budget, active).1 in {Done, OutOfSync}
    ensures id in st.db.rows
    ensures Updated(st.db.rows[id], name, body)
         == Unit(id, if body.NetworkBody? then name else st.db.rows[id].name, body)
    ensures !NameTaken(st.db, Updated(st.db.rows[id], name, body)) && Updatable(st.db.rows[id], body)
    ensures StepUpdate(cfg, st, id, name, body, budget, active).0.db
         == st.db.(rows := st.db.rows[id := Updated(st.db.rows[id], name, body)])
  {
    hide NameTaken, UpdatePlan, Settled;
    if id in st.db.rows {
      var db := st.db.(rows := st.db.rows[id := Updated(st.db.rows[id], name, body)]);
      var plan := UpdatePlan(cfg, db, Updated(st.db.rows[id], name, body), active);
      RunDb(st.(db := db), plan);
      if 0 <= budget - Preparation(body) < |plan| { RunDb(st.(db := db), plan[..budget - Preparation(body)]); }
    }
    hide Run;
  }

  /** A successful update changes exactly the row's own columns, a network's name among them but no other
      unit's, and leaves its file in sync. */
  lemma UpdateDone(cfg: Config, st: State, id: Id, name: string, body: Body, budget: nat, active: bool)
    requires Invariant(cfg, st) && NoDot(name)
    requires StepUpdate(cfg, st, id, name, body, budget, active).1 == Done
    ensures var after := StepUpdate(cfg, st, id, name, body, budget, active).0;
            id in st.db.rows
            && var u := Unit(id, if body.NetworkBody? then name else st.db.rows[id].name, body);
               after.db.rows == st.db.rows[id := u] && InSync(cfg, after, u)
  {
    UpdatedIs(cfg, st, id, name, body, budget, active);
    var u := Updated(st.db.rows[id], name, body);
    UpdateCarries(cfg, st, id, u);
    var db := st.db.(rows := st.db.rows[id := u]);
    var w := UpdatePlanCurrent(cfg, db, u, active);
    hide Rendered, UpdatePlan, Compare, Sound, Updated, Updatable, NameTaken, Invariant;
    RunSettles(cfg, st.(db := db), UpdatePlan(cfg, db, u, active), w);
  }

  lemma RunThenCall(st: State, plan: seq<Action>)
    ensures Run(st, plan + [Call]) == Run(st, plan)
  {
    assert (plan + [Call])[..|plan|] == plan;
  }

  /** Whether a delete takes the unit's file away. */
  predicate Unlinks(u: Unit, removed: bool) {
    HasFile(u) && (removed || !(u.body.NetworkBody? || u.body.TimerBody?))
  }

  lemma DeletePlanIs(cfg: Config, u: Unit, removed: bool)
    ensures var host := if Unlinks(u, removed) then [Remove(FileOf(cfg, u))] else [];
            var plan := DeletePlan(cfg, u, removed);
            plan == host || plan == host + [Call] || plan == host + [Call] + [Call]
  {
    hide FileOf;
  }

  lemma RunRemove(st: State, f: string)
    ensures Run(st, [Remove(f)]).files == st.files - {f} && Run(st, []) == st
  {
    assert [Remove(f)][..0] == [];
  }

  lemma DeletePlanFiles(cfg: Config, st: State, u: Unit, removed: bool)
    ensures Run(st, DeletePlan(cfg, u, removed)).files
         == if Unlinks(u, removed) then st.files - {FileOf(cfg, u)} else st.files
  {
    hide *;
    var host := if Unlinks(u, removed) then [Remove(FileOf(cfg, u))] else [];
    DeletePlanIs(cfg, u, removed);
    RunRemove(st, FileOf(cfg, u));
    RunThenCall(st, host);
    RunThenCall(st, host + [Call]);
  }

  predicate TimerOf(u: Unit, container: Id) {
    u.body.TimerBody? && u.body.containerId == container
  }

  /** A successful delete removes the row and the timers of a container, and takes away the unit's file and
      no other, unless the suppressed removal of a network's or timer's file failed. */
  lemma DeleteDone(cfg: Config, st: State, id: Id, budget: nat, removed: bool, running: set<Id>)
    requires Invariant(cfg, st) && StepDelete(cfg, st, id, budget, removed, running).1 == Done
    ensures var after := StepDelete(cfg, st, id, budget, removed, running).0;
            id in st.db.rows && var u := st.db.rows[id];
            (forall i :: i in after.db.rows <==> i in st.db.rows && i != id && !TimerOf(st.db.rows[i], id))
            && (forall i :: i in after.db.rows ==> after.db.rows[i] == st.db.rows[i])
            && after.files == if Unlinks(u, removed) then st.files - {FileOf(cfg, u)} else st.files
  {
    DeletePlanFiles(cfg, st, st.db.rows[id], removed);
    RunDb(st, DeletePlan(cfg, st.db.rows[id], removed));
  }

  /** A unit that was in sync and outlives a successful delete stays in sync exactly when it renders as before. */
  lemma DeleteDriftsIff(cfg: Config, st: State, id: Id, budget: nat, removed: bool, running: set<Id>, i: Id)
    requires Invariant(cfg, st) && StepDelete(cfg, st, id, budget, removed, running).1 == Done
    requires i in st.db.rows && i in StepDelete(cfg, st, id, budget, removed, running).0.db.rows
    requires InSync(cfg, st, st.db.rows[i])
    ensures var after := StepDelete(cfg, st, id, budget, removed, running).0;
            InSync(cfg, after, st.db.rows[i])
            <==> Rendered(cfg, after.db, st.db.rows[i]) == Rendered(cfg, st.db, st.db.rows[i])
  {
    DeleteDone(cfg, st, id, budget, removed, running);
    DistinctFiles(cfg, st.db, id, i);
    hide Rendered, StepDelete, FileOf, Invariant;
  }

  /** Deleting a volume leaves a stopped container that was in sync out of sync exactly when the container
      template tells its resolved mounts from those without the volume. */
  lemma VolumeDriftsIff(cfg: Config, st: State, id: Id, budget: nat, removed: bool, running: set<Id>, c: Id)
    requires Invariant(cfg, st) && id in st.db.rows && st.db.rows[id].body.VolumeBody?
    requires c in st.db.rows && st.db.rows[c].body.ContainerBody? && InSync(cfg, st, st.db.rows[c])
    requires StepDelete(cfg, st, id, budget, removed, running).1 == Done
    ensures var u := st.db.rows[c];
            var after := StepDelete(cfg, st, id, budget, removed, running).0;
            c in after.db.rows && after.db.rows[c] == u
            && (InSync(cfg, after, u) <==>
                Tidy(cfg.template(Mounting(cfg, st.db, u, Unmounted(u.body.mounts, id))))
                == Tidy(cfg.template(Mounting(cfg, st.db, u, u.body.mounts))))
  {
    DeleteDone(cfg, st, id, budget, removed, running);
    DeleteDriftsIff(cfg, st, id, budget, removed, running, c);
    DeleteKeeps(cfg, st, id, budget, removed, running);
    var after := StepDelete(cfg, st, id, budget, removed, running).0;
    PlanAfterLoss(st.db, after.db, id, st.db.rows[c].body.mounts);
    hide StepDelete, Tidy, InSync, Invariant, Plan, Unmounted, VolumeList;
  }

  /** What the container template is given when the container has these mounts. */
  function Mounting(cfg: Config, db: Db, c: Unit, mounts: seq<Mount>): RenderInput {
    ContainerInput(c, FillAll(cfg.sid, cfg.path, Plan(mounts, VolumeList(db))))
  }

  lemma PlanAfterLoss(db: Db, db': Db, id: Id, mounts: seq<Mount>)
    requires Consistent(db) && Consistent(db') && id !in db'.rows
    requires forall i :: i != id ==> VolumeRow(db, i) == VolumeRow(db', i)
    ensures Plan(mounts, VolumeList(db')) == Plan(Unmounted(mounts, id), VolumeList(db))
  {
    VolumeLookup(db', id);
    forall m | m in mounts && m.volumeId != id ensures SameVolume(VolumeList(db), VolumeList(db'), m.volumeId) {
      VolumeLookup(db, m.volumeId);
      VolumeLookup(db', m.volumeId);
    }
    PlanUnmounted(mounts, VolumeList(db), VolumeList(db'), id);
  }

  // ---- what a failed update leaves ----

  /** Where in its plan an update writes its own unit. */
  function OwnWriteAt(db: Db, u: Unit): nat {
    if u.body.ContainerBody? then 1 + |ContainerPrerequisites(db, u)| else 0
  }

  lemma OwnWriteIs(cfg: Config, db: Db, u: Unit, active: bool)
    requires Sound(cfg, db) && u.id in db.rows && db.rows[u.id] == u
    ensures var plan, w := UpdatePlan(cfg, db, u, active), OwnWriteAt(db, u);
            AllCurrent(cfg, db, plan) && w < |plan| && plan[w] == WriteOf(cfg, db, u)
            && forall i :: 0 <= i < w && plan[i].Write? ==> plan[i].file != FileOf(cfg, u)
  {
    var w0 := UpdatePlanCurrent(cfg, db, u, active);
    if u.body.ContainerBody? {
      var plan, pre := UpdatePlan(cfg, db, u, active), ContainerPrerequisites(db, u);
      PrerequisitesStored(db, u);
      PrerequisitesDiffer(db, u);
      hide ContainerPrerequisites, Rendered, FileOf, AllCurrent;
      forall i | 0 <= i < 1 + |pre| && plan[i].Write? ensures plan[i].file != FileOf(cfg, u) {
        assert plan[i] == WriteOf(cfg, db, pre[i - 1]) && pre[i - 1] in pre;
        DistinctFiles(cfg, db, pre[i - 1].id, u.id);
      }
    }
  }

  lemma PrerequisitesDiffer(db: Db, u: Unit)
    requires Consistent(db) && u.body.ContainerBody? && u.id in db.rows && db.rows[u.id] == u
    ensures forall v :: v in ContainerPrerequisites(db, u) ==> v.id != u.id
  {
    forall v | v in ContainerPrerequisites(db, u) ensures v.id != u.id {
      assert v in List(db, KNetwork) || v in List(db, KImage);
    }
  }

  lemma SameFileSameSync(cfg: Config, st: State, st': State, u: Unit)
    requires st.db == st'.db
    requires var f := FileOf(cfg, u);
             (f in st.files <==> f in st'.files) && (f in st.files ==> st.files[f] == st'.files[f])
    ensures InSync(cfg, st, u) <==> InSync(cfg, st', u)
  {
  }

  /** An update that ends out of sync has changed exactly its row. Its file is in sync all the same exactly when
      its own write was reached or the old file already holds the new rendering. */
  lemma OutOfSyncIff(cfg: Config, st: State, id: Id, name: string, body: Body, budget: nat, active: bool)
    requires Invariant(cfg, st) && NoDot(name)
    requires StepUpdate(cfg, st, id, name, body, budget, active).1 == OutOfSync
    ensures id in st.db.rows && budget >= Preparation(body)
    ensures var after := StepUpdate(cfg, st, id, name, body, budget, active).0;
            var u := Unit(id, if body.NetworkBody? then name else st.db.rows[id].name, body);
            after.db.rows == st.db.rows[id := u]
            && (InSync(cfg, after, u)
                <==> budget - Preparation(body) > OwnWriteAt(after.db, u) || InSync(cfg, st.(db := after.db), u))
  {
    UpdateFilesAre(cfg, st, id, name, body, budget, active);
    OutOfSyncMeans(cfg, st, id, name, body, budget, active);
    UpdatedIs(cfg, st, id, name, body, budget, active);
    var u := Updated(st.db.rows[id], name, body);
    UpdateCarries(cfg, st, id, u);
    var db := st.db.(rows := st.db.rows[id := u]);
    hide StepUpdate, Updated, Rendered, UpdatePlan, Invariant, Sound, NameTaken, Preparation, OwnWriteAt, InSync;
    PartlyWritten(cfg, st.(db := db), u, budget - Preparation(body), active);
    var ran := Attempt(st.(db := db), UpdatePlan(cfg, db, u, active), budget - Preparation(body));
    SameFileSameSync(cfg, ran, StepUpdate(cfg, st, id, name, body, budget, active).0, u);
  }

  lemma OutOfSyncMeans(cfg: Config, st: State, id: Id, name: string, body: Body, budget: nat, active: bool)
    requires StepUpdate(cfg, st, id, name, body, budget, active).1 == OutOfSync
    ensures id in st.db.rows
    ensures var u := Updated(st.db.rows[id], name, body);
            var db := st.db.(rows := st.db.rows[id := u]);
            0 <= budget - Preparation(body) < |UpdatePlan(cfg, db, u, active)|
  {
    hide UpdatePlan, NameTaken, Run;
  }

  /** The first calls of an update's plan. */
  lemma PartlyWritten(cfg: Config, st: State, u: Unit, b: nat, active: bool)
    requires Sound(cfg, st.db) && u.id in st.db.rows && st.db.rows[u.id] == u
    requires b < |UpdatePlan(cfg, st.db, u, active)|
    ensures var ran := Attempt(st, UpdatePlan(cfg, st.db, u, active), b);
            ran.db == st.db && (InSync(cfg, ran, u) <==> b > OwnWriteAt(st.db, u) || InSync(cfg, st, u))
  {
    OwnWriteIs(cfg, st.db, u, active);
    var plan, w := UpdatePlan(cfg, st.db, u, active), OwnWriteAt(st.db, u);
    hide UpdatePlan, OwnWriteAt, Rendered, FileOf, Sound, Run;
    RunDb(st, plan[..b]);
    if b > w {
      assert plan[..b][w] == plan[w];
      RunSettles(cfg, st, plan[..b], w);
    } else {
      NoRemovals(cfg, st.db, plan);
      RunLeavesFile(st, plan[..b], FileOf(cfg, u));
      SameFileSameSync(cfg, st, Run(st, plan[..b]), u);
    }
  }

  lemma NoRemovals(cfg: Config, db: Db, plan: seq<Action>)
    requires AllCurrent(cfg, db, plan)
    ensures forall i :: 0 <= i < |plan| ==> !plan[i].Remove?
  {
  }

  // ---- both drifts happen ----

  /** Templates that show the network name, and whether anything is mounted. */
  function Shown(input: RenderInput): string {
    match input
    case Plain(u) => if u.body.NetworkBody? then u.body.networkName else ""
    case ContainerInput(_, resolved) => if resolved == [] then "" else "v"
    case TimerInput(_, _) => ""
  }

  const EXAMPLE := Config("c", (sid: string, volume: string) => volume, (input: RenderInput) => Shown(input))

  lemma ExampleTidy()
    ensures Tidy("") == "" && Tidy("v") == "v"
  {
  }

  lemma EmptyIsSound(cfg: Config, files: map<string, string>)
    requires NoDot(cfg.sid)
    ensures Invariant(cfg, Start0(files))
  {
  }

  /** A network added with a network name to an empty database: every call succeeds, the file is out of sync. */
  lemma NetworkNameDrifts()
    ensures var u := Unit(0, "n", NetworkBody("", "v"));
            var (after, outcome) := StepAdd(EXAMPLE, Start0(map[]), u, 2, false);
            outcome == Done && !InSync(EXAMPLE, after, u)
  {
    var u := Unit(0, "n", NetworkBody("", "v"));
    EmptyIsSound(EXAMPLE, map[]);
    ExampleTidy();
    assert |AddPlan(EXAMPLE, Insert(Start0(map[]).db, u), u, false)| == 2;
    NetworkDriftsIff(EXAMPLE, Start0(map[]), u, 2, false);
  }

  const VOLUME := Unit(0, "w", VolumeBody("", false))
  const CONTAINER := Unit(1, "a", ContainerBody("", "host", "", "i", "", [Mount(0, "/", "")]))

  function WithVolume(): State {
    StepAdd(EXAMPLE, Start0(map[]), VOLUME, 1, false).0
  }

  function WithBoth(): State {
    StepAdd(EXAMPLE, WithVolume(), CONTAINER, 4, false).0
  }

  lemma VolumeAdded()
    ensures StepAdd(EXAMPLE, Start0(map[]), VOLUME, 1, false).1 == Done
    ensures Invariant(EXAMPLE, WithVolume()) && WithVolume().db == Db(map[0 := VOLUME], [0])
  {
    EmptyIsSound(EXAMPLE, map[]);
    AddKeeps(EXAMPLE, Start0(map[]), VOLUME, 1, false);
    AddRan(EXAMPLE, Start0(map[]), VOLUME, 1, false);
    assert Insert(Start0(map[]).db, VOLUME) == Db(map[0 := VOLUME], [0]);
  }

  lemma ContainerAdded()
    ensures StepAdd(EXAMPLE, WithVolume(), CONTAINER, 4, false).1 == Done
    ensures Invariant(EXAMPLE, WithBoth()) && WithBoth().db == Db(map[0 := VOLUME, 1 := CONTAINER], [0, 1])
    ensures InSync(EXAMPLE, WithBoth(), CONTAINER)
  {
    VolumeAdded();
    hide InSync, WithVolume, Invariant, EXAMPLE;
    var st := WithVolume();
    var db := Insert(st.db, CONTAINER);
    assert db == Db(map[0 := VOLUME, 1 := CONTAINER], [0, 1]);
    assert !NameTaken(st.db, CONTAINER);
    ExamplePlan(db);
    hide AddPlan, Rendered;
    AddKeeps(EXAMPLE, st, CONTAINER, 4, false);
    AddRan(EXAMPLE, st, CONTAINER, 4, false);
    AddDone(EXAMPLE, st, CONTAINER, 4, false);
  }

  lemma ExamplePlan(db: Db)
    ensures |AddPlan(EXAMPLE, db, CONTAINER, false)| == 4
  {
    hide List, Rendered;
    assert ImageUnitName("i").None?;
  }

  lemma VolumeMayGo(st: State)
    requires st.db == Db(map[0 := VOLUME, 1 := CONTAINER], [0, 1])
    ensures StepDelete(EXAMPLE, st, 0, 2, true, {}).1 == Done
  {
    hide List, Erase, LostVolumeEvents, Run;
    assert DeletePlan(EXAMPLE, VOLUME, true) == [Call, Call];
    assert !ReferredTo(st.db, VOLUME, {});
  }

  /** A stopped container loses a volume it mounts: every call succeeds, the container's file is out of sync. */
  lemma DeletedVolumeDrifts()
    ensures var (after, outcome) := StepDelete(EXAMPLE, WithBoth(), 0, 2, true, {});
            outcome == Done && 1 in after.db.rows && !InSync(EXAMPLE, after, after.db.rows[1])
  {
    ContainerAdded();
    VolumeMayGo(WithBoth());
    ExampleMounts(WithBoth().db);
    hide *;
    VolumeDriftsIff(EXAMPLE, WithBoth(), 0, 2, true, {}, 1);
  }

  lemma ExampleMounts(db: Db)
    requires db == Db(map[0 := VOLUME, 1 := CONTAINER], [0, 1])
    ensures CONTAINER.body.ContainerBody? && VOLUME.body.VolumeBody?
    ensures Tidy(EXAMPLE.template(Mounting(EXAMPLE, db, CONTAINER, CONTAINER.body.mounts)))
         != Tidy(EXAMPLE.template(Mounting(EXAMPLE, db, CONTAINER, Unmounted(CONTAINER.body.mounts, 0))))
  {
    ExampleTidy();
    ExamplePlans(db);
    hide Plan, Unmounted, VolumeList, Tidy;
    assert EXAMPLE.template == (input: RenderInput) => Shown(input);
  }

  lemma ExamplePlans(db: Db)
    requires db == Db(map[0 := VOLUME, 1 := CONTAINER], [0, 1])
    ensures Plan(CONTAINER.body.mounts, VolumeList(db)) != [] && Unmounted(CONTAINER.body.mounts, 0) == []
    ensures Plan([], VolumeList(db)) == []
  {
    assert [0, 1][..1] == [0] && [0][..0] == [];
    assert List(Db(db.rows, []), KVolume) == [];
    assert List(Db(db.rows, [0]), KVolume) == [VOLUME];
    assert List(db, KVolume) == [VOLUME];
    assert [Mount(0, "/", "")][..0] == [];
  }

  // ---- files without a stored unit ----

  ghost predicate Owned(cfg: Config, db: Db, f: string) {
    exists id :: id in db.rows && HasFile(db.rows[id]) && FileOf(cfg, db.rows[id]) == f
  }

  /** The step leaves f behind: it rolled an add back, renamed a network, deleted a container's timers with
      it, or did not notice that a network's or timer's file could not be removed. */
  ghost predicate LeftBy(cfg: Config, st: State, op: Op, f: string) {
    var outcome := Step(cfg, st, op).1;
    match op
    case Add(u, _, _) => outcome == RolledBack && HasFile(u) && f == FileOf(cfg, u)
    case Update(id, name, _, _, _) =>
      outcome in {Done, OutOfSync} && id in st.db.rows && st.db.rows[id].body.NetworkBody?
      && name != st.db.rows[id].name && f == FileOf(cfg, st.db.rows[id])
    case Delete(id, _, removed, _) =>
      outcome == Done && id in st.db.rows
      && ((f == FileOf(cfg, st.db.rows[id]) && !removed
           && (st.db.rows[id].body.NetworkBody? || st.db.rows[id].body.TimerBody?))
          || exists t :: t in st.db.rows && TimerOf(st.db.rows[t], id) && f == FileOf(cfg, st.db.rows[t]))
    case _ => false
  }

  /** Every write of the plan is to the file of a stored unit. */
  ghost predicate OwnWrites(cfg: Config, db: Db, plan: seq<Action>) {
    forall i :: 0 <= i < |plan| && plan[i].Write? ==> Owned(cfg, db, plan[i].file)
  }

  lemma {:induction false} RunFiles(cfg: Config, st: State, plan: seq<Action>, f: string)
    requires OwnWrites(cfg, st.db, plan) && f in Run(st, plan).files
    ensures f in st.files || Owned(cfg, st.db, f)
  {
    hide Owned;
    if plan != [] {
      var front, last := plan[..|plan| - 1], plan[|plan| - 1];
      assert OwnWrites(cfg, st.db, front);
      if f in Run(st, front).files {
        RunFiles(cfg, st, front, f);
      } else {
        assert last.Write? && last.file == f;
      }
    }
  }

  lemma StoredOwns(cfg: Config, db: Db, us: seq<Unit>)
    requires Stored(db, us) && forall u :: u in us ==> HasFile(u)
    ensures OwnWrites(cfg, db, Writes(cfg, db, us))
  {
    hide HasFile, FileOf, Rendered;
    forall i | 0 <= i < |us| ensures Owned(cfg, db, Writes(cfg, db, us)[i].file) {
      assert us[i] in us;
    }
  }

  lemma OwnWritesConcat(cfg: Config, db: Db, xs: seq<Action>, ys: seq<Action>)
    requires OwnWrites(cfg, db, xs) && OwnWrites(cfg, db, ys)
    ensures OwnWrites(cfg, db, xs + ys)
  {
    hide Owned;
  }

  lemma ContainerPlanOwns(cfg: Config, db: Db, u: Unit, active: bool)
    requires Consistent(db) && u.id in db.rows && db.rows[u.id] == u && u.body.ContainerBody?
    ensures OwnWrites(cfg, db, ContainerPlan(cfg, db, u, active))
  {
    var pre := ContainerPrerequisites(db, u);
    PrerequisitesStored(db, u);
    forall v | v in pre ensures HasFile(v) {
      assert v in List(db, KNetwork) || v in List(db, KImage);
    }
    StoredOwns(cfg, db, pre);
    assert Owned(cfg, db, FileOf(cfg, u));
    hide ContainerPrerequisites, Owned, Rendered, FileOf, Consistent;
    var tail := [WriteOf(cfg, db, u), Call, Call] + if active then [Call] else [];
    OwnWritesConcat(cfg, db, [Call], Writes(cfg, db, pre));
    OwnWritesConcat(cfg, db, [Call] + Writes(cfg, db, pre), tail);
    assert ContainerPlan(cfg, db, u, active) == [Call] + Writes(cfg, db, pre) + tail;
  }

  lemma AddPlanOwns(cfg: Config, db: Db, u: Unit, active: bool)
    requires Consistent(db) && u.id in db.rows && db.rows[u.id] == u
    ensures OwnWrites(cfg, db, AddPlan(cfg, db, u, active)) && OwnWrites(cfg, db, UpdateOrNothing(cfg, db, u, active))
  {
    assert HasFile(u) ==> Owned(cfg, db, FileOf(cfg, u));
    assert FileOf(cfg, WithoutNetworkName(u)) == FileOf(cfg, u);
    if u.body.ContainerBody? {
      ContainerPlanOwns(cfg, db, u, active);
    } else if u.body.PodBody? {
      forall v | v in UsedNetworks(db) ensures v.id in db.rows && db.rows[v.id] == v && HasFile(v) {
        ListedRow(db, KNetwork, v);
      }
      StoredOwns(cfg, db, UsedNetworks(db));
      hide Owned, Rendered, FileOf, Consistent, UsedNetworks;
      OwnWritesConcat(cfg, db, Writes(cfg, db, UsedNetworks(db)), [WriteOf(cfg, db, u), Call]);
    }
  }

  function UpdateOrNothing(cfg: Config, db: Db, u: Unit, active: bool): seq<Action> {
    if u.body.VolumeBody? then [] else UpdatePlan(cfg, db, u, active)
  }

  lemma AllWritesOwn(cfg: Config, db: Db, withTimers: bool)
    requires Consistent(db)
    ensures OwnWrites(cfg, db, Writes(cfg, db, AllWrites(db, withTimers)))
  {
    AllWritesStored(db, withTimers);
    forall u | u in AllWrites(db, withTimers) ensures HasFile(u) {
      assert u in QuadletVolumes(db) || exists k :: k != KVolume && u in List(db, k);
    }
    StoredOwns(cfg, db, AllWrites(db, withTimers));
  }

  lemma PrefixOwns(cfg: Config, db: Db, plan: seq<Action>, budget: nat)
    requires OwnWrites(cfg, db, plan)
    ensures OwnWrites(cfg, db, Executed(plan, budget))
  {
    hide Owned;
  }

  /** Where a file on disk after a step comes from. */
  ghost predicate Accounted(cfg: Config, st: State, op: Op, f: string) {
    Owned(cfg, Step(cfg, st, op).0.db, f) || (f in st.files && !Owned(cfg, st.db, f)) || LeftBy(cfg, st, op, f)
  }

  lemma InsertedOwner(cfg: Config, db: Db, u: Unit, f: string)
    requires u.id !in db.rows
    ensures Owned(cfg, Insert(db, u), f) <==> Owned(cfg, db, f) || (HasFile(u) && f == FileOf(cfg, u))
  {
    hide HasFile, FileOf;
    var db' := Insert(db, u);
    assert db'.rows[u.id] == u && forall id :: id in db.rows ==> id in db'.rows && db'.rows[id] == db.rows[id];
  }

  lemma SameRowsOwn(cfg: Config, db: Db, db': Db, f: string)
    requires db.rows == db'.rows
    ensures Owned(cfg, db, f) <==> Owned(cfg, db', f)
  {
  }

  /** The files after an add that inserted the row are those of a prefix of its plan. */
  lemma AddFilesAre(cfg: Config, st: State, u: Unit, budget: nat, active: bool)
    requires StepAdd(cfg, st, u, budget, active).1 in {Done, RolledBack}
    ensures var db := Insert(st.db, u);
            var b := budget - Preparation(u.body);
            b >= 0 && !NameTaken(st.db, u)
            && (u.body.TimerBody? ==>
                  u.body.containerId in st.db.rows && st.db.rows[u.body.containerId].body.ContainerBody?)
            && StepAdd(cfg, st, u, budget, active).0.files
            == Run(st.(db := db), Executed(AddPlan(cfg, db, u, active), b)).files
  {
    hide AddPlan, NameTaken, Run, WithoutNetworkName;
  }

  lemma AddLeaves(cfg: Config, st: State, u: Unit, budget: nat, active: bool, f: string)
    requires Invariant(cfg, st) && Fresh(st.db, u.id) && NoDot(u.name)
    requires f in StepAdd(cfg, st, u, budget, active).0.files
    ensures Accounted(cfg, st, Add(u, budget, active), f)
  {
    var (after, outcome) := StepAdd(cfg, st, u, budget, active);
    if outcome == Done || outcome == RolledBack {
      var db := Insert(st.db, u);
      AddFilesAre(cfg, st, u, budget, active);
      AddCarries(cfg, st, u);
      AddPlanOwns(cfg, db, u, active);
      var plan := AddPlan(cfg, db, u, active);
      PrefixOwns(cfg, db, plan, budget - Preparation(u.body));
      if outcome == Done { AddRan(cfg, st, u, budget, active); }
      AddKeeps(cfg, st, u, budget, active);
      hide StepAdd, Run, AddPlan, Executed, Invariant, HasFile, FileOf, Owned, OwnWrites, NameTaken, Preparation;
      RunFiles(cfg, st.(db := db), Executed(plan, budget - Preparation(u.body)), f);
      InsertedOwner(cfg, st.db, u, f);
      if outcome == RolledBack { SameRowsOwn(cfg, st.db, after.db, f); }
    } else {
      assert after == st;
    }
  }

  lemma UpdateFilesAre(cfg: Config, st: State, id: Id, name: string, body: Body, budget: nat, active: bool)
    requires StepUpdate(cfg, st, id, name, body, budget, active).1 in {Done, OutOfSync}
    ensures id in st.db.rows && Updatable(st.db.rows[id], body)
    ensures var u := Updated(st.db.rows[id], name, body);
            var db := st.db.(rows := st.db.rows[id := u]);
            var b := budget - Preparation(body);
            var after := StepUpdate(cfg, st, id, name, body, budget, active).0;
            b >= 0 && !NameTaken(st.db, u) && after.db == db
            && after.files == Run(st.(db := db), Executed(UpdatePlan(cfg, db, u, active), b)).files
  {
    hide UpdatePlan, NameTaken, Run;
    var u := Updated(st.db.rows[id], name, body);
    var db := st.db.(rows := st.db.rows[id := u]);
    RunDb(st.(db := db), Executed(UpdatePlan(cfg, db, u, active), budget - Preparation(body)));
  }

  lemma UpdateKept(cfg: Config, st: State, id: Id, name: string, body: Body, budget: nat, active: bool)
    requires StepUpdate(cfg, st, id, name, body, budget, active).1 !in {Done, OutOfSync}
    ensures StepUpdate(cfg, st, id, name, body, budget, active).0 == st
  {
  }

  lemma UpdateMayRename(old_: Unit, name: string, body: Body)
    requires Updatable(old_, body)
    ensures var u := Updated(old_, name, body);
            u.id == old_.id && KindOf(u) == KindOf(old_) && !u.body.VolumeBody? && !u.body.TimerBody?
            && (u.body.NetworkBody? || u.name == old_.name)
            && (u.name != old_.name ==> old_.body.NetworkBody? && u.name == name)
            && (u.name == name || u.name == old_.name)
  {
  }

  /** A file there while an update is under way was there before or belongs to a stored unit. */
  lemma UpdateRunOwns(cfg: Config, st: State, u: Unit, active: bool, b: nat, f: string)
    requires Sound(cfg, st.db) && u.id in st.db.rows && st.db.rows[u.id] == u && !u.body.VolumeBody?
    requires f in Run(st, Executed(UpdatePlan(cfg, st.db, u, active), b)).files
    ensures f in st.files || Owned(cfg, st.db, f)
  {
    assert Consistent(st.db) && UpdateOrNothing(cfg, st.db, u, active) == UpdatePlan(cfg, st.db, u, active);
    hide *;
    AddPlanOwns(cfg, st.db, u, active);
    PrefixOwns(cfg, st.db, UpdatePlan(cfg, st.db, u, active), b);
    RunFiles(cfg, st, Executed(UpdatePlan(cfg, st.db, u, active), b), f);
  }

  lemma UpdateLeaves(cfg: Config, st: State, id: Id, name: string, body: Body, budget: nat, active: bool, f: string)
    requires Invariant(cfg, st) && NoDot(name)
    requires f in StepUpdate(cfg, st, id, name, body, budget, active).0.files
    ensures Accounted(cfg, st, Update(id, name, body, budget, active), f)
  {
    var (after, outcome) := StepUpdate(cfg, st, id, name, body, budget, active);
    if id in st.db.rows {
      assert Consistent(st.db) && st.db.rows[id].id == id && NoDot(st.db.rows[id].name);
    }
    hide StepUpdate, Run, UpdatePlan, Executed, Invariant, HasFile, FileOf, Owned, OwnWrites, NameTaken, Preparation,
         NoDot, Updatable, Updated;
    if outcome == Done || outcome == OutOfSync {
      UpdateFilesAre(cfg, st, id, name, body, budget, active);
      UpdateMayRename(st.db.rows[id], name, body);
      var u := Updated(st.db.rows[id], name, body);
      var db := st.db.(rows := st.db.rows[id := u]);
      UpdateCarries(cfg, st, id, u);
      UpdateRunOwns(cfg, st.(db := db), u, active, budget - Preparation(body), f);
      if Owned(cfg, st.db, f) { RenamedOwner(cfg, st.db, id, u, f); }
    } else {
      UpdateKept(cfg, st, id, name, body, budget, active);
    }
  }

  /** Replacing a row takes ownership only of the file of a renamed unit away. */
  lemma RenamedOwner(cfg: Config, db: Db, id: Id, u: Unit, f: string)
    requires id in db.rows && Owned(cfg, db, f) && KindOf(u) == KindOf(db.rows[id]) && !u.body.VolumeBody?
    ensures Owned(cfg, db.(rows := db.rows[id := u]), f)
            || (f == FileOf(cfg, db.rows[id]) && u.name != db.rows[id].name)
  {
    hide FileName;
    var i :| i in db.rows && HasFile(db.rows[i]) && FileOf(cfg, db.rows[i]) == f;
    var db' := db.(rows := db.rows[id := u]);
    assert i in db'.rows && (i != id ==> db'.rows[i] == db.rows[i]);
  }

  lemma DeleteLeaves(cfg: Config, st: State, id: Id, budget: nat, removed: bool, running: set<Id>, f: string)
    requires Invariant(cfg, st) && f in StepDelete(cfg, st, id, budget, removed, running).0.files
    ensures Accounted(cfg, st, Delete(id, budget, removed, running), f)
  {
    var (after, outcome) := StepDelete(cfg, st, id, budget, removed, running);
    if outcome == Done {
      DeleteDone(cfg, st, id, budget, removed, running);
      hide StepDelete, Invariant, HasFile, FileOf;
    } else if outcome == Failed {
      var plan := DeletePlan(cfg, st.db.rows[id], removed);
      NoWritesOwn(cfg, st.db, st.db.rows[id], removed);
      PrefixOwns(cfg, st.db, plan, budget);
      hide DeletePlan, Invariant, HasFile, FileOf, Owned;
      RunFiles(cfg, st, Executed(plan, budget), f);
      RunDb(st, Executed(plan, budget));
    }
  }

  lemma NoWritesOwn(cfg: Config, db: Db, u: Unit, removed: bool)
    ensures OwnWrites(cfg, db, DeletePlan(cfg, u, removed))
  {
    hide Owned, FileOf;
  }

  lemma WriteAllLeaves(cfg: Config, st: State, withTimers: bool, budget: nat, tail: nat, f: string)
    requires Invariant(cfg, st) && f in StepWriteAll(cfg, st, withTimers, budget, tail).0.files
    ensures f in st.files || Owned(cfg, st.db, f)
    ensures StepWriteAll(cfg, st, withTimers, budget, tail).0.db == st.db
  {
    var plan := Writes(cfg, st.db, AllWrites(st.db, withTimers));
    AllWritesOwn(cfg, st.db, withTimers);
    PrefixOwns(cfg, st.db, plan, budget);
    hide Writes, AllWrites, Owned;
    RunFiles(cfg, st, Executed(plan, budget), f);
    RunDb(st, Executed(plan, budget));
  }

  lemma StepLeaves(cfg: Config, st: State, op: Op, f: string)
    requires Invariant(cfg, st) && Admissible(st, op) && f in Step(cfg, st, op).0.files
    ensures Accounted(cfg, st, op, f)
  {
    hide Owned, LeftBy, StepAdd, StepUpdate, StepDelete, StepWriteAll, Invariant, Accounted;
    match op
    case Add(u, budget, active) => AddLeaves(cfg, st, u, budget, active, f);
    case Update(id, name, body, budget, active) => UpdateLeaves(cfg, st, id, name, body, budget, active, f);
    case Delete(id, budget, removed, running) => DeleteLeaves(cfg, st, id, budget, removed, running, f);
    case Resync(budget, tail) =>
      WriteAllLeaves(cfg, st, true, budget, tail, f);
      KeptAccounted(cfg, st, op, f);
    case Start(budget) =>
      if budget > 0 { WriteAllLeaves(cfg, st, false, budget - 1, 1, f); }
      KeptAccounted(cfg, st, op, f);
  }

  lemma KeptAccounted(cfg: Config, st: State, op: Op, f: string)
    requires Step(cfg, st, op).0.db == st.db && (f in st.files || Owned(cfg, st.db, f))
    ensures Accounted(cfg, st, op, f)
  {
    hide Owned, LeftBy, Step;
  }

  /** In every run from an empty database, a file on disk was there at the start, belongs to a stored unit, or
      was left by one of the steps that leave files. */
  lemma {:induction false} FilesAreAccounted(cfg: Config, files: map<string, string>, ops: seq<Op>, f: string)
    requires NoDot(cfg.sid) && AdmissibleRun(cfg, Start0(files), ops)
    requires f in RunOps(cfg, Start0(files), ops).files
    ensures f in files || Owned(cfg, RunOps(cfg, Start0(files), ops).db, f)
            || exists n :: 0 <= n < |ops| && LeftBy(cfg, RunOps(cfg, Start0(files), ops[..n]), ops[n], f)
  {
    if ops != [] {
      var front, last := ops[..|ops| - 1], ops[|ops| - 1];
      AdmissiblePrefix(cfg, Start0(files), ops);
      EmptyIsSound(cfg, files);
      RunKeepsInvariant(cfg, Start0(files), front);
      var st := RunOps(cfg, Start0(files), front);
      assert ops[..|front|] == front;
      StepLeaves(cfg, st, last, f);
      hide Owned, LeftBy, Step, Invariant;
      if f in st.files && !Owned(cfg, st.db, f) {
        FilesAreAccounted(cfg, files, front, f);
        if !(f in files) {
          var n :| 0 <= n < |front| && LeftBy(cfg, RunOps(cfg, Start0(files), front[..n]), front[n], f);
          assert ops[..n] == front[..n] && ops[n] == front[n];
        }
      }
    }
  }

  lemma AdmissiblePrefix(cfg: Config, st: State, ops: seq<Op>)
    requires ops != [] && AdmissibleRun(cfg, st, ops)
    ensures AdmissibleRun(cfg, st, ops[..|ops| - 1]) && Admissible(RunOps(cfg, st, ops[..|ops| - 1]), ops[|ops| - 1])
  {
    hide Admissible, RunOps;
    var front := ops[..|ops| - 1];
    forall n | 0 <= n < |front| ensures Admissible(RunOps(cfg, st, front[..n]), front[n]) {
      assert front[..n] == ops[..n];
    }
  }
}
