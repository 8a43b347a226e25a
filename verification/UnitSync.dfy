/** Stored rows against unit files: what adding, updating, deleting, starting and
    resynchronising do when any host call may fail, as steps over values. */
module UnitSync {
  import opened Text
  import opened Mounts
  import opened Units

  // ---- host calls ----

  /** One host call. Call stands for those that touch no unit file: reload, restart, mkdir, ... */
  datatype Action =
    | Write(id: Id, file: string, content: string)
    | Remove(file: string)
    | Call

  datatype Cause = FailedUpdate | FailedDelete | LostVolume | DroppedNetworkName

  /** History: a unit's file was written, or something gave it a reason to be out of sync. */
  datatype Event = Wrote(id: Id) | Blame(id: Id, cause: Cause)

  datatype State = State(db: Db, files: map<string, string>, log: seq<Event>)

  function Do(st: State, a: Action): State {
    match a
    case Write(id, file, content) => st.(files := st.files[file := content], log := st.log + [Wrote(id)])
    case Remove(file) => st.(files := st.files - {file})
    case Call => st
  }

  function Run(st: State, plan: seq<Action>): State {
    if plan == [] then st else Do(Run(st, plan[..|plan| - 1]), plan[|plan| - 1])
  }

  /** The calls of plan in order; the one after the first `budget` fails and ends the operation. */
  function Attempt(st: State, plan: seq<Action>, budget: nat): State {
    Run(st, if budget < |plan| then plan[..budget] else plan)
  }

  /** Since its last write the unit was blamed. */
  function Blamed(log: seq<Event>, id: Id): bool {
    log != [] &&
    var e := log[|log| - 1];
    if e.id == id then e.Blame? else Blamed(log[..|log| - 1], id)
  }

  // ---- what the operations ask of the host ----

  const UNMANAGED_NETWORKS: set<string> := {"host", "none", "slirp4netns", "pasta"}

  function Select(us: seq<Unit>, p: Unit -> bool): (r: seq<Unit>)
    ensures forall u :: u in r <==> u in us && p(u)
  {
    if us == [] then []
    else
      var rest := Select(us[1..], p);
      if p(us[0]) then [us[0]] + rest else rest
  }

  function Any(): Unit -> bool {
    (u: Unit) => true
  }

  lemma {:induction false} SelectAll(us: seq<Unit>)
    ensures Select(us, Any()) == us
  {
    if us != [] { SelectAll(us[1..]); }
  }

  function FirstNamed(us: seq<Unit>, name: string): (r: seq<Unit>)
    ensures forall u :: u in r ==> u in us && u.name == name
    ensures |r| <= 1 && (r == [] ==> forall u :: u in us ==> u.name != name)
  {
    if us == [] then [] else if us[0].name == name then [us[0]] else FirstNamed(us[1..], name)
  }

  /** Networks some container joins by itself, not through a pod. */
  function NetworkNamesUsed(db: Db): set<string> {
    set c | c in List(db, KContainer) && c.body.ContainerBody?
            && c.body.network !in UNMANAGED_NETWORKS && c.body.pod == "" :: c.body.network
  }

  function InUse(db: Db): Unit -> bool {
    var used := NetworkNamesUsed(db);
    (u: Unit) => u.name in used
  }

  function OnDisk(): Unit -> bool {
    (u: Unit) => HasFile(u)
  }

  function UsedNetworks(db: Db): seq<Unit> {
    Select(List(db, KNetwork), InUse(db))
  }

  function QuadletVolumes(db: Db): seq<Unit> {
    Select(List(db, KVolume), OnDisk())
  }

  function WriteOf(cfg: Config, db: Db, u: Unit): Action {
    Write(u.id, FileOf(cfg, u), Rendered(cfg, db, u))
  }

  function Writes(cfg: Config, db: Db, us: seq<Unit>): (plan: seq<Action>)
    ensures |plan| == |us|
    ensures forall i :: 0 <= i < |us| ==> plan[i] == WriteOf(cfg, db, us[i])
  {
    seq(|us|, i requires 0 <= i < |us| => WriteOf(cfg, db, us[i]))
  }

  const IMAGE_SUFFIX := ".image"

  function ImageUnitName(image: string): Option<string> {
    var n := |image| - |IMAGE_SUFFIX|;
    if n >= 0 && image[n..] == IMAGE_SUFFIX then Some(image[..n]) else None
  }

  /** Files a container needs before systemd reloads: its network's and its image unit's. */
  function ContainerPrerequisites(db: Db, c: Unit): seq<Unit>
    requires c.body.ContainerBody?
  {
    (if c.body.network in UNMANAGED_NETWORKS then [] else FirstNamed(List(db, KNetwork), c.body.network))
    + match ImageUnitName(c.body.image)
      case None => []
      case Some(n) => FirstNamed(List(db, KImage), n)
  }

  /** _write_and_reload: helper users, prerequisites, the unit, reload, status, restart when active. */
  function ContainerPlan(cfg: Config, db: Db, c: Unit, active: bool): seq<Action>
    requires c.body.ContainerBody?
  {
    [Call] + Writes(cfg, db, ContainerPrerequisites(db, c)) + [WriteOf(cfg, db, c), Call, Call]
    + (if active then [Call] else [])
  }

  /** The network object add_network builds leaves network_name at its default. */
  function WithoutNetworkName(u: Unit): Unit {
    if u.body.NetworkBody? then u.(body := u.body.(networkName := "")) else u
  }

  function AddPlan(cfg: Config, db: Db, u: Unit, active: bool): seq<Action> {
    match u.body
    case PodBody(_) => Writes(cfg, db, UsedNetworks(db)) + [WriteOf(cfg, db, u), Call]
    case VolumeBody(_, quadlet) => if quadlet then [WriteOf(cfg, db, u), Call] else [Call]
    case NetworkBody(_, _) => [WriteOf(cfg, db, WithoutNetworkName(u)), Call]
    case ContainerBody(_, _, _, _, _, _) => ContainerPlan(cfg, db, u, active)
    case _ => [WriteOf(cfg, db, u), Call]
  }

  function UpdatePlan(cfg: Config, db: Db, u: Unit, active: bool): seq<Action> {
    if u.body.ContainerBody? then ContainerPlan(cfg, db, u, active) else [WriteOf(cfg, db, u), Call]
  }

  /** removed: whether the removals whose failure is suppressed took place. */
  function DeletePlan(cfg: Config, u: Unit, removed: bool): seq<Action> {
    var remove := [Remove(FileOf(cfg, u))];
    match u.body
    case VolumeBody(_, quadlet) => (if quadlet then remove else []) + [Call, Call]
    case NetworkBody(_, _) => (if removed then remove else []) + [Call]
    case TimerBody(_, _) => if removed then remove else []
    case ContainerBody(_, _, _, _, _, _) => remove + [Call]
    case _ => remove + [Call, Call]
  }

  /** Everything resync and start write, in order. */
  function AllWrites(db: Db, withTimers: bool): seq<Unit> {
    List(db, KPod) + QuadletVolumes(db) + List(db, KImage) + UsedNetworks(db) + List(db, KContainer)
    + (if withTimers then List(db, KTimer) else [])
  }

  // ---- operations ----

  /** Host outcomes are part of the operation: budget is how many calls succeed before one
      fails, active whether the container runs, running the active containers. */
  datatype Op =
    | Add(u: Unit, budget: nat, active: bool)
    | Update(id: Id, name: string, body: Body, budget: nat, active: bool)
    | Delete(id: Id, budget: nat, removed: bool, running: set<Id>)
    | Resync(budget: nat, tail: nat)
    | Start(budget: nat)

  datatype Outcome = Done | RolledBack | OutOfSync | Failed | Rejected | NotFound

  function Insert(db: Db, u: Unit): Db {
    Db(db.rows[u.id := u], db.order + [u.id])
  }

  /** The columns an update writes: only networks can be renamed. */
  function Updated(old_: Unit, name: string, body: Body): Unit {
    Unit(old_.id, if old_.body.NetworkBody? then name else old_.name, body)
  }

  predicate Updatable(old_: Unit, body: Body) {
    !old_.body.VolumeBody? && !old_.body.TimerBody? && KindOf(old_) == KindOf(old_.(body := body))
  }

  predicate MountsVolume(u: Unit, volume: Id) {
    u.body.ContainerBody? && exists m :: m in u.body.mounts && m.volumeId == volume
  }

  /** Deletion is refused while other rows refer to the unit. */
  predicate ReferredTo(db: Db, u: Unit, running: set<Id>) {
    exists c :: c in List(db, KContainer) && c.body.ContainerBody? &&
      match u.body
      case VolumeBody(_, _) => MountsVolume(c, u.id) && c.id in running
      case NetworkBody(_, _) => c.body.network == u.name
      case PodBody(_) => c.body.pod == u.name
      case ImageBody(_) => c.body.image == u.name + IMAGE_SUFFIX
      case BuildBody(_, _) => c.body.buildUnit == u.name
      case _ => false
  }

  /** DELETE with the ON DELETE CASCADE from containers to timers. */
  function Erase(db: Db, id: Id): Db {
    Db(map i | i in db.rows && i != id && !(db.rows[i].body.TimerBody? && db.rows[i].body.containerId == id)
         :: db.rows[i],
       db.order)
  }

  /** Deleting a volume changes what its containers render to. */
  function LostVolumeEvents(us: seq<Unit>, volume: Id): seq<Event> {
    if us == [] then []
    else
      var rest := LostVolumeEvents(us[..|us| - 1], volume);
      if MountsVolume(us[|us| - 1], volume) then rest + [Blame(us[|us| - 1].id, LostVolume)] else rest
  }

  /** Host calls made before the rows change: add_build and update_build first write the Containerfile. */
  function Preparation(body: Body): nat {
    if body.BuildBody? && body.containerfile != "" then 1 else 0
  }

  function StepAdd(cfg: Config, st: State, u: Unit, budget: nat, active: bool): (State, Outcome) {
    if budget < Preparation(u.body) then (st, Failed) else AddRow(cfg, st, u, budget - Preparation(u.body), active)
  }

  function AddRow(cfg: Config, st: State, u: Unit, budget: nat, active: bool): (State, Outcome) {
    if u.body.TimerBody? && !(u.body.containerId in st.db.rows
                              && st.db.rows[u.body.containerId].body.ContainerBody?) then
      (st, NotFound)
    else if NameTaken(st.db, u) then (st, Rejected)
    else
      var db := Insert(st.db, u);
      var plan := AddPlan(cfg, db, u, active);
      var ran := Attempt(st.(db := db), plan, budget);
      if budget < |plan| then (ran.(db := ran.db.(rows := ran.db.rows - {u.id})), RolledBack)
      else if u != WithoutNetworkName(u) then (ran.(log := ran.log + [Blame(u.id, DroppedNetworkName)]), Done)
      else (ran, Done)
  }

  function StepUpdate(cfg: Config, st: State, id: Id, name: string, body: Body, budget: nat, active: bool)
    : (State, Outcome)
  {
    if budget < Preparation(body) then (st, Failed)
    else UpdateRow(cfg, st, id, name, body, budget - Preparation(body), active)
  }

  function UpdateRow(cfg: Config, st: State, id: Id, name: string, body: Body, budget: nat, active: bool)
    : (State, Outcome)
  {
    if id !in st.db.rows || !Updatable(st.db.rows[id], body) then (st, NotFound)
    else
      var u := Updated(st.db.rows[id], name, body);
      if NameTaken(st.db, u) then (st, Rejected)
      else
        var db := st.db.(rows := st.db.rows[id := u]);
        var plan := UpdatePlan(cfg, db, u, active);
        var ran := Attempt(st.(db := db), plan, budget);
        if budget < |plan| then (ran.(log := ran.log + [Blame(id, FailedUpdate)]), OutOfSync) else (ran, Done)
  }

  function StepDelete(cfg: Config, st: State, id: Id, budget: nat, removed: bool, running: set<Id>): (State, Outcome) {
    if id !in st.db.rows then (st, NotFound)
    else
      var u := st.db.rows[id];
      if ReferredTo(st.db, u, running) then (st, Rejected)
      else
        var plan := DeletePlan(cfg, u, removed);
        var ran := Attempt(st, plan, budget);
        if budget < |plan| then (ran.(log := ran.log + [Blame(id, FailedDelete)]), Failed)
        else
          var lost := if u.body.VolumeBody? then LostVolumeEvents(List(st.db, KContainer), id) else [];
          (State(Erase(ran.db, id), ran.files, ran.log + lost), Done)
  }

  /** tail: the reload, status and restart calls after the writes. */
  function StepWriteAll(cfg: Config, st: State, withTimers: bool, budget: nat, tail: nat): (State, Outcome) {
    var plan := Writes(cfg, st.db, AllWrites(st.db, withTimers));
    (Attempt(st, plan, budget), if budget < |plan| + tail then Failed else Done)
  }

  /** start_compartment sets up subuids first and starts units, whose failures it collects, last. */
  function StepStart(cfg: Config, st: State, budget: nat): (State, Outcome) {
    if budget == 0 then (st, Failed) else StepWriteAll(cfg, st, false, budget - 1, 1)
  }

  function Step(cfg: Config, st: State, op: Op): (State, Outcome) {
    match op
    case Add(u, budget, active) => StepAdd(cfg, st, u, budget, active)
    case Update(id, name, body, budget, active) => StepUpdate(cfg, st, id, name, body, budget, active)
    case Delete(id, budget, removed, running) => StepDelete(cfg, st, id, budget, removed, running)
    case Resync(budget, tail) => StepWriteAll(cfg, st, true, budget, tail)
    case Start(budget) => StepStart(cfg, st, budget)
  }

  // ---- check_service_sync ----

  datatype Status = Missing | Changed
  datatype Issue = Issue(file: string, status: Status)

  /** compare_file: the file on disk is tidied, the expected text already is. */
  function Compare(files: map<string, string>, file: string, expected: string): Option<Issue> {
    if file !in files then Some(Issue(file, Missing))
    else if Tidy(files[file]) != expected then Some(Issue(file, Changed))
    else None
  }

  function Issues(cfg: Config, st: State, us: seq<Unit>): seq<Issue> {
    if us == [] then []
    else
      var rest, u := Issues(cfg, st, us[..|us| - 1]), us[|us| - 1];
      match Compare(st.files, FileOf(cfg, u), Rendered(cfg, st.db, u))
      case None => rest
      case Some(i) => rest + [i]
  }

  /** Everything check_service_sync compares, in order. */
  function SyncReport(cfg: Config, st: State): seq<Issue> {
    Issues(cfg, st, UsedNetworks(st.db)) + Issues(cfg, st, List(st.db, KPod)) + Issues(cfg, st, QuadletVolumes(st.db))
    + Issues(cfg, st, List(st.db, KImage)) + Issues(cfg, st, List(st.db, KBuild))
    + Issues(cfg, st, List(st.db, KContainer))
    + Issues(cfg, st, List(st.db, KTimer))
  }
}
