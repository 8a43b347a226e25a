/** What adding, updating, deleting, checking and exporting units answer, told on the stored rows
    themselves: which requests are refused and why, which other files a write settles, what a report
    and a bundle hold. */
module UnitOutcomes {
  import opened Text
  import opened Mounts
  import opened Units
  import opened UnitSync
  import opened UnitSyncProofs
  import opened UnitDrift
  import opened BundleExport

  // ---- rows ----

  predicate SameTable(a: Body, b: Body) {
    (a.PodBody? && b.PodBody?) || (a.VolumeBody? && b.VolumeBody?) || (a.ImageBody? && b.ImageBody?)
    || (a.NetworkBody? && b.NetworkBody?) || (a.BuildBody? && b.BuildBody?) || (a.ContainerBody? && b.ContainerBody?)
    || (a.TimerBody? && b.TimerBody?) || (a.ArtifactBody? && b.ArtifactBody?)
  }

  lemma KindIsTable(u: Unit, v: Unit)
    ensures KindOf(u) == KindOf(v) <==> SameTable(u.body, v.body)
  {
  }

  lemma StoredIsListed(db: Db, u: Unit, k: Kind)
    requires Consistent(db)
    ensures u in List(db, k) <==> u.id in db.rows && db.rows[u.id] == u && KindOf(u) == k
  {
    if u.id in db.rows && db.rows[u.id] == u { Listed(db, u.id); }
  }

  // ---- refused deletes ----

  /** Container row c, stored under cid, keeps u from being deleted. */
  ghost predicate HoldsBack(cid: Id, c: Unit, u: Unit, running: set<Id>) {
    c.body.ContainerBody?
    && ((u.body.NetworkBody? && c.body.network == u.name)
        || (u.body.PodBody? && c.body.pod == u.name)
        || (u.body.ImageBody? && c.body.image == u.name + ".image")
        || (u.body.BuildBody? && c.body.buildUnit == u.name)
        || (u.body.VolumeBody? && cid in running && exists m :: m in c.body.mounts && m.volumeId == u.id))
  }

  lemma ReferredToIff(db: Db, id: Id, running: set<Id>)
    requires Consistent(db) && id in db.rows
    ensures ReferredTo(db, db.rows[id], running)
       <==> exists c :: c in db.rows && HoldsBack(c, db.rows[c], db.rows[id], running)
  {
    var u := db.rows[id];
    hide List;
    if c :| c in db.rows && HoldsBack(c, db.rows[c], u, running) {
      StoredIsListed(db, db.rows[c], KContainer);
      assert db.rows[c] in List(db, KContainer);
    }
    if ReferredTo(db, u, running) {
      var c :| c in List(db, KContainer) && c.body.ContainerBody? && match u.body
        case VolumeBody(_, _) => MountsVolume(c, u.id) && c.id in running
        case NetworkBody(_, _) => c.body.network == u.name
        case PodBody(_) => c.body.pod == u.name
        case ImageBody(_) => c.body.image == u.name + IMAGE_SUFFIX
        case BuildBody(_, _) => c.body.buildUnit == u.name
        case _ => false;
      StoredIsListed(db, c, KContainer);
      assert HoldsBack(c.id, c, u, running);
    }
  }

  /** A delete is refused exactly when a stored container refers to the unit, and for a volume runs. */
  lemma DeleteRejectedIff(cfg: Config, st: State, id: Id, budget: nat, removed: bool, running: set<Id>)
    requires Consistent(st.db) && id in st.db.rows
    ensures var u, outcome := st.db.rows[id], StepDelete(cfg, st, id, budget, removed, running).1;
            && (outcome == Rejected <==> exists c :: c in st.db.rows && HoldsBack(c, st.db.rows[c], u, running))
            && (outcome == Done ==> !exists c :: c in st.db.rows && HoldsBack(c, st.db.rows[c], u, running))
            && (u.body.TimerBody? || u.body.ContainerBody? || u.body.ArtifactBody? ==> outcome != Rejected)
  {
    ReferredToIff(st.db, id, running);
    hide ReferredTo, Run, Consistent;
  }

  // ---- refused adds and updates ----

  /** Another stored row of u's table has its name. */
  ghost predicate NameInUse(rows: map<Id, Unit>, u: Unit) {
    exists i :: i in rows && i != u.id && SameTable(rows[i].body, u.body) && rows[i].name == u.name
  }

  lemma NameTakenIff(db: Db, u: Unit)
    ensures NameTaken(db, u) <==> NameInUse(db.rows, u)
  {
    forall i | i in db.rows ensures KindOf(db.rows[i]) == KindOf(u) <==> SameTable(db.rows[i].body, u.body) {
      KindIsTable(db.rows[i], u);
    }
    if i :| i in db.rows && i != u.id && SameTable(db.rows[i].body, u.body) && db.rows[i].name == u.name {
      assert KindOf(db.rows[i]) == KindOf(u);
    }
  }

  /** A timer whose container is not stored. */
  predicate Orphan(rows: map<Id, Unit>, u: Unit) {
    u.body.TimerBody? && !(u.body.containerId in rows && rows[u.body.containerId].body.ContainerBody?)
  }

  /** A build that brings a Containerfile which cannot be written. */
  predicate NoContainerfile(body: Body, budget: nat) {
    body.BuildBody? && body.containerfile != "" && budget == 0
  }

  /** An add is turned down without a row exactly when its Containerfile cannot be written, its timer's
      container is missing, or its name is in use in its table; otherwise it succeeds or is rolled back. */
  lemma AddRefusedIff(cfg: Config, st: State, u: Unit, budget: nat, active: bool)
    ensures var outcome := StepAdd(cfg, st, u, budget, active).1;
            && (outcome == Failed <==> NoContainerfile(u.body, budget))
            && (outcome == NotFound <==> Orphan(st.db.rows, u))
            && (outcome == Rejected <==> !NoContainerfile(u.body, budget) && !Orphan(st.db.rows, u)
                                         && NameInUse(st.db.rows, u))
            && outcome != OutOfSync
  {
    NameTakenIff(st.db, u);
    hide NameTaken, NameInUse, AddPlan, Run, WithoutNetworkName;
  }

  /** An update of a stored unit is turned down exactly when it is no update of that table, or renames a network
      to a name in use; otherwise it succeeds or ends out of sync. */
  lemma UpdateRefusedIff(cfg: Config, st: State, id: Id, name: string, body: Body, budget: nat, active: bool)
    requires Consistent(st.db)
    ensures var outcome := StepUpdate(cfg, st, id, name, body, budget, active).1;
            var known := id in st.db.rows && SameTable(st.db.rows[id].body, body)
                         && !body.VolumeBody? && !body.TimerBody?;
            && (outcome == Failed <==> NoContainerfile(body, budget))
            && (outcome == NotFound <==> !NoContainerfile(body, budget) && !known)
            && (outcome == Rejected <==> known && body.NetworkBody? && NameInUse(st.db.rows, Unit(id, name, body)))
            && outcome != RolledBack
  {
    if id in st.db.rows {
      var old_ := st.db.rows[id];
      KindIsTable(old_, old_.(body := body));
      NameTakenIff(st.db, Updated(old_, name, body));
      NameTakenIff(st.db, old_);
      if SameTable(old_.body, body) { OwnNameFree(st.db, id, body); }
    }
    hide NameTaken, NameInUse, UpdatePlan, Run, KindOf;
  }

  lemma OwnNameFree(db: Db, id: Id, body: Body)
    requires Consistent(db) && id in db.rows && SameTable(db.rows[id].body, body)
    ensures !NameInUse(db.rows, Unit(id, db.rows[id].name, body))
  {
    var old_ := db.rows[id];
    NameTakenIff(db, old_);
    assert !NameInUse(db.rows, old_);
    hide Consistent;
    forall i | i in db.rows && i != id && SameTable(db.rows[i].body, body) ensures db.rows[i].name != old_.name {
      assert SameTable(db.rows[i].body, old_.body);
    }
  }

  // ---- what else a write settles ----

  /** Network n is one that container c brings up, or image n one it is started from. */
  predicate Brings(c: Body, n: Unit) {
    c.ContainerBody?
    && ((n.body.NetworkBody? && c.network == n.name && n.name !in {"host", "none", "slirp4netns", "pasta"})
        || (n.body.ImageBody? && c.image == n.name + ".image"))
  }

  lemma FirstNamedStored(db: Db, k: Kind, u: Unit)
    requires Consistent(db) && u.id in db.rows && db.rows[u.id] == u && KindOf(u) == k
    ensures FirstNamed(List(db, k), u.name) == [u]
  {
    StoredIsListed(db, u, k);
    var found := FirstNamed(List(db, k), u.name);
    StoredIsListed(db, found[0], k);
    assert !NameTaken(db, u);
    assert found == [found[0]];
  }

  lemma ImageName(name: string)
    ensures ImageUnitName(name + ".image") == Some(name)
  {
    var image := name + ".image";
    assert image[|name|..] == ".image" && image[..|name|] == name;
  }

  lemma BroughtIsPrerequisite(db: Db, c: Unit, n: Unit)
    requires Consistent(db) && Brings(c.body, n) && n.id in db.rows && db.rows[n.id] == n
    ensures n in ContainerPrerequisites(db, c)
  {
    ImageName(n.name);
    FirstNamedStored(db, KindOf(n), n);
    hide FirstNamed, List, ImageUnitName, Consistent;
    assert n in [n];
  }

  lemma PlanWritesAt(cfg: Config, db: Db, u: Unit, active: bool, i: nat)
    requires u.body.ContainerBody? && i < |ContainerPrerequisites(db, u)|
    ensures 1 + i < |ContainerPlan(cfg, db, u, active)|
    ensures ContainerPlan(cfg, db, u, active)[1 + i] == WriteOf(cfg, db, ContainerPrerequisites(db, u)[i])
  {
    hide ContainerPrerequisites, WriteOf;
  }

  lemma BroughtAt(db: Db, c: Unit, n: Id) returns (i: nat)
    requires Consistent(db) && c.body.ContainerBody? && n in db.rows && Brings(c.body, db.rows[n])
    ensures db.rows[n].id == n
    ensures i < |ContainerPrerequisites(db, c)| && ContainerPrerequisites(db, c)[i] == db.rows[n]
  {
    assert db.rows[n].id == n;
    BroughtIsPrerequisite(db, c, db.rows[n]);
    hide ContainerPrerequisites, Brings, Consistent;
    i :| 0 <= i < |ContainerPrerequisites(db, c)| && ContainerPrerequisites(db, c)[i] == db.rows[n];
  }

  lemma StoredWriteIsCurrent(cfg: Config, db: Db, n: Id)
    requires n in db.rows && db.rows[n].id == n
    ensures var a := WriteOf(cfg, db, db.rows[n]); a.Write? && a.id == n && Current(cfg, db, a)
  {
    hide Rendered, FileOf;
  }

  /** Where a container's plan writes a network or image it brings. */
  lemma PrerequisiteAt(cfg: Config, db: Db, u: Unit, active: bool, n: Id) returns (w: nat)
    requires Consistent(db) && u.body.ContainerBody? && n in db.rows && Brings(u.body, db.rows[n])
    ensures w < |ContainerPlan(cfg, db, u, active)|
    ensures var a := ContainerPlan(cfg, db, u, active)[w]; a.Write? && a.id == n && Current(cfg, db, a)
  {
    hide *;
    var i := BroughtAt(db, u, n);
    PlanWritesAt(cfg, db, u, active, i);
    StoredWriteIsCurrent(cfg, db, n);
    w := 1 + i;
  }

  /** A container's files: its network's and its image's are written with it. */
  lemma ContainerPlanSettles(cfg: Config, st: State, u: Unit, active: bool, n: Id)
    requires Sound(cfg, st.db) && u.id in st.db.rows && st.db.rows[u.id] == u && u.body.ContainerBody?
    requires n in st.db.rows && Brings(u.body, st.db.rows[n])
    ensures InSync(cfg, Run(st, ContainerPlan(cfg, st.db, u, active)), st.db.rows[n])
  {
    assert Consistent(st.db);
    hide *;
    var own := ContainerPlanCurrent(cfg, st.db, u, active);
    var w := PrerequisiteAt(cfg, st.db, u, active, n);
    RunSettles(cfg, st, ContainerPlan(cfg, st.db, u, active), w);
  }

  /** Some stored container joins the network by itself, and podman does not know the name. */
  ghost predicate NetworkUsed(rows: map<Id, Unit>, name: string) {
    name !in {"host", "none", "slirp4netns", "pasta"}
    && exists c :: c in rows && rows[c].body.ContainerBody? && rows[c].body.network == name && rows[c].body.pod == ""
  }

  lemma NetworkUsedIff(db: Db, name: string)
    requires Consistent(db)
    ensures name in NetworkNamesUsed(db) <==> NetworkUsed(db.rows, name)
  {
    hide List;
    if c :| c in db.rows && db.rows[c].body.ContainerBody? && db.rows[c].body.network == name
            && db.rows[c].body.pod == "" {
      StoredIsListed(db, db.rows[c], KContainer);
    }
    if name in NetworkNamesUsed(db) {
      var c :| c in List(db, KContainer) && c.body.ContainerBody? && c.body.network == name && c.body.pod == "";
      StoredIsListed(db, c, KContainer);
    }
  }

  lemma UsedNetworkIff(db: Db, u: Unit)
    requires Consistent(db)
    ensures u in UsedNetworks(db)
       <==> u.id in db.rows && db.rows[u.id] == u && u.body.NetworkBody? && NetworkUsed(db.rows, u.name)
  {
    StoredIsListed(db, u, KNetwork);
    NetworkUsedIff(db, u.name);
    hide List, NetworkNamesUsed, NetworkUsed, Consistent;
  }

  lemma PodPlanSettles(cfg: Config, st: State, u: Unit, active: bool, n: Id)
    requires Sound(cfg, st.db) && u.id in st.db.rows && st.db.rows[u.id] == u && u.body.PodBody?
    requires n in st.db.rows && st.db.rows[n].body.NetworkBody? && NetworkUsed(st.db.rows, st.db.rows[n].name)
    ensures InSync(cfg, Run(st, AddPlan(cfg, st.db, u, active)), st.db.rows[n])
  {
    var us := UsedNetworks(st.db);
    UsedNetworkIff(st.db, st.db.rows[n]);
    PodPlanCurrent(cfg, st.db, u, active);
    var i :| 0 <= i < |us| && us[i] == st.db.rows[n];
    hide UsedNetworks, Rendered, FileOf, NetworkUsed;
    assert AddPlan(cfg, st.db, u, active)[i] == Writes(cfg, st.db, us)[i];
    RunSettles(cfg, st, AddPlan(cfg, st.db, u, active), i);
  }

  /** A successful add also leaves in sync: for a container its network and its image unit, for a pod every
      network some container joins by itself. */
  lemma AddSettlesNeighbours(cfg: Config, st: State, u: Unit, budget: nat, active: bool, n: Id)
    requires Invariant(cfg, st) && Fresh(st.db, u.id) && NoDot(u.name)
    requires StepAdd(cfg, st, u, budget, active).1 == Done
    requires n in st.db.rows
    requires Brings(u.body, st.db.rows[n])
             || (u.body.PodBody? && st.db.rows[n].body.NetworkBody? && NetworkUsed(st.db.rows, st.db.rows[n].name))
    ensures var after := StepAdd(cfg, st, u, budget, active).0;
            n in after.db.rows && after.db.rows[n] == st.db.rows[n] && InSync(cfg, after, st.db.rows[n])
  {
    var db := Insert(st.db, u);
    AddRan(cfg, st, u, budget, active);
    if u.body.PodBody? {
      NetworkStaysUsed(st.db.rows, db.rows, st.db.rows[n].name);
      PodPlanSettles(cfg, st.(db := db), u, active, n);
    } else {
      ContainerPlanSettles(cfg, st.(db := db), u, active, n);
    }
    hide NetworkUsed, Brings, ContainerPlan, Invariant, Sound, Rendered, FileOf, StepAdd, Run;
    assert u.body.ContainerBody? ==> AddPlan(cfg, db, u, active) == ContainerPlan(cfg, db, u, active);
  }

  lemma NetworkStaysUsed(rows: map<Id, Unit>, rows': map<Id, Unit>, name: string)
    requires NetworkUsed(rows, name) && forall i :: i in rows ==> i in rows' && rows'[i] == rows[i]
    ensures NetworkUsed(rows', name)
  {
  }

  /** A successful update of a container also leaves its network and its image unit in sync. */
  lemma UpdateSettlesNeighbours(cfg: Config, st: State, id: Id, name: string, body: Body, budget: nat, active: bool,
                                n: Id)
    requires Invariant(cfg, st) && NoDot(name)
    requires StepUpdate(cfg, st, id, name, body, budget, active).1 == Done
    requires n in st.db.rows && Brings(body, st.db.rows[n])
    ensures InSync(cfg, StepUpdate(cfg, st, id, name, body, budget, active).0, st.db.rows[n])
  {
    var u := Updated(st.db.rows[id], name, body);
    UpdateCarries(cfg, st, id, u);
    var db := st.db.(rows := st.db.rows[id := u]);
    hide Brings, ContainerPlan, Rendered, FileOf, Sound, Run, NameTaken;
    assert n != id;
    ContainerPlanSettles(cfg, st.(db := db), u, active, n);
    assert UpdatePlan(cfg, db, u, active) == ContainerPlan(cfg, db, u, active);
  }

  // ---- how many host calls an operation takes ----

  /** Writing or replacing a unit: the write and a reload; for a container also its helper users, what it brings,
      the status and, when it runs, a restart; for a pod the used networks; for a plain volume its directory. */
  function CallsToWrite(db: Db, u: Unit, active: bool, adding: bool): nat {
    match u.body
    case ContainerBody(_, _, _, _, _, _) => 4 + |ContainerPrerequisites(db, u)| + if active then 1 else 0
    case PodBody(_) => if adding then 2 + |UsedNetworks(db)| else 2
    case VolumeBody(_, quadlet) => if adding && !quadlet then 1 else 2
    case _ => 2
  }

  /** Removing a unit: the file unless that may fail unnoticed, the reload and the clean-up. */
  function CallsToDelete(u: Unit, removed: bool): nat {
    match u.body
    case VolumeBody(_, quadlet) => if quadlet then 3 else 2
    case NetworkBody(_, _) => if removed then 2 else 1
    case TimerBody(_, _) => if removed then 1 else 0
    case ContainerBody(_, _, _, _, _, _) => 2
    case _ => 3
  }

  predicate Refusal(outcome: Outcome) {
    outcome == NotFound || outcome == Rejected
  }

  /** An operation that is not turned down succeeds exactly when all its host calls do; a resync and a start write
      every unit they write and then reload, which for a resync may take more calls, and a start sets up the
      subordinate ids first. */
  lemma DoneIffCallsSucceed(cfg: Config, st: State, op: Op)
    requires !Refusal(Step(cfg, st, op).1)
    ensures Step(cfg, st, op).1 == Done
       <==> match op
            case Add(u, budget, active) =>
              budget >= Preparation(u.body) + CallsToWrite(Insert(st.db, u), u, active, true)
            case Update(id, name, body, budget, active) =>
              id in st.db.rows
              && var u := Updated(st.db.rows[id], name, body);
                 budget >= Preparation(body) + CallsToWrite(st.db.(rows := st.db.rows[id := u]), u, active, false)
            case Delete(id, budget, removed, _) => id in st.db.rows && budget >= CallsToDelete(st.db.rows[id], removed)
            case Resync(budget, tail) => budget >= |AllWrites(st.db, true)| + tail
            case Start(budget) => budget >= 1 + |AllWrites(st.db, false)| + 1
  {
    hide ContainerPrerequisites, UsedNetworks, AllWrites, NameTaken, ReferredTo, WithoutNetworkName, WriteOf, Run;
  }

  // ---- the report and the bundle ----

  /** The stored units the check compares: not artifacts, volumes only with a unit file, networks only when used. */
  ghost predicate Compared(rows: map<Id, Unit>, u: Unit) {
    !u.body.ArtifactBody? && (u.body.VolumeBody? ==> u.body.useQuadlet)
    && (u.body.NetworkBody? ==> NetworkUsed(rows, u.name))
  }

  lemma QuadletVolumeIff(db: Db, u: Unit)
    requires Consistent(db)
    ensures u in QuadletVolumes(db)
       <==> u.id in db.rows && db.rows[u.id] == u && u.body.VolumeBody? && u.body.useQuadlet
  {
    StoredIsListed(db, u, KVolume);
    hide List, Consistent;
  }

  lemma CheckedIff(db: Db, u: Unit)
    requires Consistent(db)
    ensures Checked(db, u) <==> u.id in db.rows && db.rows[u.id] == u && Compared(db.rows, u)
  {
    UsedNetworkIff(db, u);
    QuadletVolumeIff(db, u);
    forall k: Kind ensures u in List(db, k) <==> u.id in db.rows && db.rows[u.id] == u && KindOf(u) == k {
      StoredIsListed(db, u, k);
    }
    hide List, UsedNetworks, QuadletVolumes, NetworkUsed, Consistent;
  }

  /** What the check says of one unit. */
  predicate Tells(cfg: Config, st: State, u: Unit, i: Issue) {
    i.file == FileOf(cfg, u)
    && if i.file !in st.files then i.status == Missing
       else i.status == Changed && Tidy(st.files[i.file]) != Rendered(cfg, st.db, u)
  }

  /** The report holds exactly: a missing file for every compared unit without one, and a changed one for
      every compared unit whose file, tidied, is not what the stored rows render to. */
  lemma ReportIff(cfg: Config, st: State, i: Issue)
    requires Consistent(st.db)
    ensures i in SyncReport(cfg, st)
       <==> exists id :: id in st.db.rows && Compared(st.db.rows, st.db.rows[id]) && Tells(cfg, st, st.db.rows[id], i)
  {
    ReportIs(cfg, st, i);
    forall u ensures Checked(st.db, u) <==> u.id in st.db.rows && st.db.rows[u.id] == u && Compared(st.db.rows, u) {
      CheckedIff(st.db, u);
    }
    forall u ensures Compare(st.files, FileOf(cfg, u), Rendered(cfg, st.db, u)) == Some(i) <==> Tells(cfg, st, u, i) {
      TellsIff(cfg, st, u, i);
    }
    IdsAre(st.db);
    hide *;
    if id :| id in st.db.rows && Compared(st.db.rows, st.db.rows[id]) && Tells(cfg, st, st.db.rows[id], i) {
      assert Checked(st.db, st.db.rows[id]);
    }
  }

  lemma TellsIff(cfg: Config, st: State, u: Unit, i: Issue)
    ensures Compare(st.files, FileOf(cfg, u), Rendered(cfg, st.db, u)) == Some(i) <==> Tells(cfg, st, u, i)
  {
    hide Rendered, FileOf, Tidy;
  }

  lemma IdsAre(db: Db)
    requires Consistent(db)
    ensures forall id :: id in db.rows ==> db.rows[id].id == id
  {
  }

  /** A bundle holds every stored pod, image, build and container, the volumes with a unit file, and the
      networks some container joins by itself. */
  lemma ExportedIff(db: Db, u: Unit)
    requires Consistent(db)
    ensures u in ExportedUnits(db)
       <==> u.id in db.rows && db.rows[u.id] == u
            && (u.body.PodBody? || u.body.ImageBody? || u.body.BuildBody? || u.body.ContainerBody?
                || (u.body.VolumeBody? && u.body.useQuadlet)
                || (u.body.NetworkBody? && NetworkUsed(db.rows, u.name)))
  {
    UsedNetworkIff(db, u);
    QuadletVolumeIff(db, u);
    forall k: Kind ensures u in List(db, k) <==> u.id in db.rows && db.rows[u.id] == u && KindOf(u) == k {
      StoredIsListed(db, u, k);
    }
    hide List, UsedNetworks, QuadletVolumes, NetworkUsed, Consistent;
  }

  // ---- in which order ----

  ghost predicate DistinctKinds(kinds: seq<Kind>) {
    forall p, q :: 0 <= p < q < |kinds| ==> kinds[p] != kinds[q]
  }

  /** b does not stand in front of a. */
  ghost predicate NotAfter(kinds: seq<Kind>, a: Kind, b: Kind) {
    forall p, q :: 0 <= p < |kinds| && 0 <= q < |kinds| && kinds[p] == a && kinds[q] == b ==> p <= q
  }

  /** Units of a kind listed earlier in kinds come first. */
  ghost predicate InKindOrder(us: seq<Unit>, kinds: seq<Kind>) {
    forall i, j :: 0 <= i < j < |us| ==> NotAfter(kinds, KindOf(us[i]), KindOf(us[j]))
  }

  ghost predicate AllOf(us: seq<Unit>, kinds: seq<Kind>, n: nat)
    requires n <= |kinds|
  {
    forall i :: 0 <= i < |us| ==> KindOf(us[i]) in kinds[..n]
  }

  lemma AppendKind(us: seq<Unit>, more: seq<Unit>, kinds: seq<Kind>, n: nat)
    requires DistinctKinds(kinds) && n < |kinds| && InKindOrder(us, kinds) && AllOf(us, kinds, n)
    requires forall u :: u in more ==> KindOf(u) == kinds[n]
    ensures InKindOrder(us + more, kinds) && AllOf(us + more, kinds, n + 1)
  {
    var all := us + more;
    assert kinds[..n + 1] == kinds[..n] + [kinds[n]];
    hide KindOf;
    forall i | |us| <= i < |all| ensures KindOf(all[i]) == kinds[n] { assert all[i] in more; }
    forall i, j | 0 <= i < j < |all| ensures NotAfter(kinds, KindOf(all[i]), KindOf(all[j])) {
      if j >= |us| && i < |us| {
        var k :| 0 <= k < n && kinds[k] == KindOf(us[i]);
        assert KindOf(all[i]) == kinds[k] && KindOf(all[j]) == kinds[n];
      }
    }
  }

  const BUNDLE_KINDS := [KPod, KVolume, KImage, KBuild, KContainer, KNetwork]
  const CHECK_KINDS := [KNetwork, KPod, KVolume, KImage, KBuild, KContainer, KTimer]

  const WRITE_KINDS := [KPod, KVolume, KImage, KNetwork, KContainer, KTimer]

  lemma KindsDiffer()
    ensures DistinctKinds(BUNDLE_KINDS) && DistinctKinds(CHECK_KINDS) && DistinctKinds(WRITE_KINDS)
  {
  }

  lemma ListedKinds(db: Db)
    ensures forall k: Kind, u :: u in List(db, k) ==> KindOf(u) == k
    ensures forall u :: u in UsedNetworks(db) ==> KindOf(u) == KNetwork
    ensures forall u :: u in QuadletVolumes(db) ==> KindOf(u) == KVolume
  {
  }

  /** A bundle holds pods first, then volumes, images, builds, containers and networks. */
  lemma BundleOrder(db: Db)
    ensures InKindOrder(ExportedUnits(db), BUNDLE_KINDS)
  {
    KindsDiffer();
    ListedKinds(db);
    hide KindOf, List, UsedNetworks, QuadletVolumes, InKindOrder, AllOf, DistinctKinds;
    var us: seq<Unit> := [];
    NoUnits(BUNDLE_KINDS);
    AppendKind(us, List(db, KPod), BUNDLE_KINDS, 0);
    us := us + List(db, KPod);
    AppendKind(us, QuadletVolumes(db), BUNDLE_KINDS, 1);
    us := us + QuadletVolumes(db);
    AppendKind(us, List(db, KImage), BUNDLE_KINDS, 2);
    us := us + List(db, KImage);
    AppendKind(us, List(db, KBuild), BUNDLE_KINDS, 3);
    us := us + List(db, KBuild);
    AppendKind(us, List(db, KContainer), BUNDLE_KINDS, 4);
    us := us + List(db, KContainer);
    AppendKind(us, UsedNetworks(db), BUNDLE_KINDS, 5);
    assert us + UsedNetworks(db) == ExportedUnits(db) by {
      assert [] + List(db, KPod) == List(db, KPod);
    }
  }

  lemma NoUnits(kinds: seq<Kind>)
    ensures InKindOrder([], kinds) && AllOf([], kinds, 0)
  {
  }

  lemma {:induction false} IssuesConcat(cfg: Config, st: State, a: seq<Unit>, b: seq<Unit>)
    ensures Issues(cfg, st, a + b) == Issues(cfg, st, a) + Issues(cfg, st, b)
  {
    hide Rendered, FileOf, Compare;
    if b == [] {
      assert a + b == a;
    } else {
      var front, last := b[..|b| - 1], b[|b| - 1];
      assert (a + b)[..|a + b| - 1] == a + front;
      IssuesConcat(cfg, st, a, front);
    }
  }

  /** The report goes through networks, pods, volumes, images, builds, containers and timers, in this order. */
  lemma ReportOrder(cfg: Config, st: State) returns (us: seq<Unit>)
    ensures SyncReport(cfg, st) == Issues(cfg, st, us) && InKindOrder(us, CHECK_KINDS)
    ensures forall u :: u in us <==> Checked(st.db, u)
  {
    var db := st.db;
    KindsDiffer();
    ListedKinds(db);
    hide KindOf, List, UsedNetworks, QuadletVolumes, InKindOrder, AllOf, DistinctKinds, Issues;
    us := [];
    NoUnits(CHECK_KINDS);
    AppendKind(us, UsedNetworks(db), CHECK_KINDS, 0);
    us := UsedNetworks(db);
    assert [] + us == us;
    AppendKind(us, List(db, KPod), CHECK_KINDS, 1);
    IssuesConcat(cfg, st, us, List(db, KPod));
    us := us + List(db, KPod);
    AppendKind(us, QuadletVolumes(db), CHECK_KINDS, 2);
    IssuesConcat(cfg, st, us, QuadletVolumes(db));
    us := us + QuadletVolumes(db);
    AppendKind(us, List(db, KImage), CHECK_KINDS, 3);
    IssuesConcat(cfg, st, us, List(db, KImage));
    us := us + List(db, KImage);
    AppendKind(us, List(db, KBuild), CHECK_KINDS, 4);
    IssuesConcat(cfg, st, us, List(db, KBuild));
    us := us + List(db, KBuild);
    AppendKind(us, List(db, KContainer), CHECK_KINDS, 5);
    IssuesConcat(cfg, st, us, List(db, KContainer));
    us := us + List(db, KContainer);
    AppendKind(us, List(db, KTimer), CHECK_KINDS, 6);
    IssuesConcat(cfg, st, us, List(db, KTimer));
    us := us + List(db, KTimer);
  }

  /** A resync and a start write pods first, then volumes, images, networks, containers and, a resync only, timers. */
  lemma WriteOrder(db: Db, withTimers: bool)
    ensures InKindOrder(AllWrites(db, withTimers), WRITE_KINDS)
  {
    KindsDiffer();
    ListedKinds(db);
    hide KindOf, List, UsedNetworks, QuadletVolumes, InKindOrder, AllOf, DistinctKinds;
    var us: seq<Unit> := [];
    NoUnits(WRITE_KINDS);
    AppendKind(us, List(db, KPod), WRITE_KINDS, 0);
    us := us + List(db, KPod);
    AppendKind(us, QuadletVolumes(db), WRITE_KINDS, 1);
    us := us + QuadletVolumes(db);
    AppendKind(us, List(db, KImage), WRITE_KINDS, 2);
    us := us + List(db, KImage);
    AppendKind(us, UsedNetworks(db), WRITE_KINDS, 3);
    us := us + UsedNetworks(db);
    AppendKind(us, List(db, KContainer), WRITE_KINDS, 4);
    us := us + List(db, KContainer);
    AppendKind(us, List(db, KTimer), WRITE_KINDS, 5);
    assert us + [] == us;
    assert us + (if withTimers then List(db, KTimer) else []) == AllWrites(db, withTimers) by {
      assert [] + List(db, KPod) == List(db, KPod);
    }
  }

  ghost predicate OwnIds(rows: map<Id, Unit>) {
    forall id :: id in rows ==> rows[id].id == id
  }

  lemma {:induction false} PlaceOf(rows: map<Id, Unit>, order: seq<Id>, k: Kind, i: nat) returns (p: nat)
    requires OwnIds(rows) && i < |List(Db(rows, order), k)|
    ensures p < |order| && order[p] == List(Db(rows, order), k)[i].id
    decreases |order|
  {
    hide KindOf;
    p := |order| - 1;
    if i < |List(Db(rows, order[..p]), k)| {
      p := PlaceOf(rows, order[..p], k, i);
    }
  }

  /** A table lists its rows oldest first. */
  lemma {:induction false} ListOldestFirst(rows: map<Id, Unit>, order: seq<Id>, k: Kind, i: nat, j: nat)
    returns (p: nat, q: nat)
    requires OwnIds(rows) && i < j < |List(Db(rows, order), k)|
    ensures p < q < |order|
    ensures order[p] == List(Db(rows, order), k)[i].id && order[q] == List(Db(rows, order), k)[j].id
    decreases |order|
  {
    hide KindOf;
    q := |order| - 1;
    if j < |List(Db(rows, order[..q]), k)| {
      p, q := ListOldestFirst(rows, order[..q], k, i, j);
    } else {
      p := PlaceOf(rows, order[..q], k, i);
    }
  }
}
