/** Stored units of one compartment and the unit files they render to
    (quadlet_writer.py, services/unsafe/quadlet.py). */
module Units {
  import opened Text
  import opened Mounts

  // ---- tidy ----

  predicate TripleNewline(s: string) {
    |s| >= 3 && s[0] == '\n' && s[1] == '\n' && s[2] == '\n'
  }

  /** Runs of three or more newlines collapse to two. */
  function Tidy(s: string): string {
    if s == "" then ""
    else if TripleNewline(s) then Tidy(s[1..])
    else [s[0]] + Tidy(s[1..])
  }

  /** How many newlines s starts with, counting no further than three. */
  function Lead(s: string): nat {
    if s == "" || s[0] != '\n' then 0
    else if |s| == 1 || s[1] != '\n' then 1
    else if |s| == 2 || s[2] != '\n' then 2
    else 3
  }

  lemma {:induction false} TidyLead(s: string)
    ensures Lead(Tidy(s)) == if Lead(s) < 2 then Lead(s) else 2
  {
    if s != "" {
      TidyLead(s[1..]);
    }
  }

  lemma {:induction false} TidyIdempotent(s: string)
    ensures Tidy(Tidy(s)) == Tidy(s)
  {
    if s != "" {
      TidyIdempotent(s[1..]);
      if !TripleNewline(s) {
        TidyLead(s);
        assert !TripleNewline(Tidy(s));
        assert Tidy(s)[1..] == Tidy(s[1..]);
      }
    }
  }

  function Newlines(n: nat): (s: string)
    ensures |s| == n && forall i :: 0 <= i < n ==> s[i] == '\n'
  {
    seq(n, i => '\n')
  }

  lemma NewlinesFirst(n: nat, rest: string)
    requires n > 0 && (rest == "" || rest[0] != '\n')
    ensures var s := Newlines(n) + rest;
            s[0] == '\n' && s[1..] == Newlines(n - 1) + rest && (TripleNewline(s) <==> n > 2)
  {
    var s := Newlines(n) + rest;
    assert n > 1 ==> s[1] == '\n';
    assert n > 2 ==> s[2] == '\n';
    assert n == 1 && rest != "" ==> s[1] == rest[0];
    assert n == 2 && rest != "" ==> s[2] == rest[0];
  }

  lemma NewlinesGrow(tail: string)
    ensures Newlines(0) + tail == tail && ['\n'] + (Newlines(0) + tail) == Newlines(1) + tail
    ensures ['\n'] + (Newlines(1) + tail) == Newlines(2) + tail
  {
  }

  /** Tidying shortens every run of three or more newlines to two and keeps everything else. */
  lemma {:induction false} TidyRuns(n: nat, rest: string)
    requires rest == "" || rest[0] != '\n'
    ensures Tidy(Newlines(n) + rest)
         == Newlines(if n < 2 then n else 2) + if rest == "" then "" else [rest[0]] + Tidy(rest[1..])
  {
    var tail := if rest == "" then "" else [rest[0]] + Tidy(rest[1..]);
    NewlinesGrow(tail);
    if n == 0 {
      assert Newlines(n) + rest == rest;
    } else {
      NewlinesFirst(n, rest);
      hide TripleNewline, Newlines;
      TidyRuns(n - 1, rest);
    }
  }

  // ---- rows ----

  /** Per kind, the columns that other rows or the file layout depend on;
      text stands for all the others. */
  datatype Body =
    | PodBody(text: string)
    | VolumeBody(text: string, useQuadlet: bool)
    | ImageBody(text: string)
    | NetworkBody(text: string, networkName: string)
    | BuildBody(text: string, containerfile: string)
    | ContainerBody(text: string, network: string, pod: string, image: string, buildUnit: string, mounts: seq<Mount>)
    | TimerBody(text: string, containerId: Id)
    | ArtifactBody(text: string)

  datatype Unit = Unit(id: Id, name: string, body: Body)

  datatype Kind = KPod | KVolume | KImage | KNetwork | KBuild | KContainer | KTimer | KArtifact

  function KindOf(u: Unit): Kind {
    match u.body
    case PodBody(_) => KPod
    case VolumeBody(_, _) => KVolume
    case ImageBody(_) => KImage
    case NetworkBody(_, _) => KNetwork
    case BuildBody(_, _) => KBuild
    case ContainerBody(_, _, _, _, _, _) => KContainer
    case TimerBody(_, _) => KTimer
    case ArtifactBody(_) => KArtifact
  }

  /** All unit tables of the compartment. order lists every id ever inserted, oldest first:
      it stands for ORDER BY created_at and keeps ids of deleted rows. */
  datatype Db = Db(rows: map<Id, Unit>, order: seq<Id>)

  /** SELECT ... ORDER BY created_at for one table. */
  function List(db: Db, k: Kind): (us: seq<Unit>)
    ensures forall u :: u in us ==> u in db.rows.Values && KindOf(u) == k
    decreases |db.order|
  {
    if db.order == [] then []
    else
      var front := List(Db(db.rows, db.order[..|db.order| - 1]), k);
      var id := db.order[|db.order| - 1];
      if id in db.rows && KindOf(db.rows[id]) == k then front + [db.rows[id]] else front
  }

  lemma {:induction false} Listed(db: Db, id: Id)
    requires id in db.rows && id in db.order
    ensures db.rows[id] in List(db, KindOf(db.rows[id]))
    decreases |db.order|
  {
    if id != db.order[|db.order| - 1] {
      Listed(Db(db.rows, db.order[..|db.order| - 1]), id);
    }
  }

  predicate NoDot(s: string) {
    forall i :: 0 <= i < |s| ==> s[i] != '.'
  }

  /** Unique constraint (compartment, kind, name): another row has this kind and name. */
  predicate NameTaken(db: Db, u: Unit) {
    exists id :: id in db.rows && id != u.id && KindOf(db.rows[id]) == KindOf(u) && db.rows[id].name == u.name
  }

  /** Primary keys, unique names, name patterns and the timer foreign key. */
  ghost predicate Consistent(db: Db) {
    && (forall id :: id in db.rows ==> db.rows[id].id == id && id in db.order && NoDot(db.rows[id].name))
    && (forall id :: id in db.rows ==> !NameTaken(db, db.rows[id]))
    && (forall id :: id in db.rows && db.rows[id].body.TimerBody? ==>
          var c := db.rows[id].body.containerId; c in db.rows && db.rows[c].body.ContainerBody?)
  }

  // ---- rendering ----

  /** What a unit template is given. */
  datatype RenderInput =
    | Plain(unit: Unit)
    | ContainerInput(unit: Unit, resolved: seq<Resolved>)
    | TimerInput(unit: Unit, containerName: string)

  /** Compartment id, host directories of volumes, and the Jinja templates for the installed Podman. */
  datatype Config = Config(sid: string, path: HostPath, template: RenderInput -> string)

  function AsVolumes(us: seq<Unit>): (vs: seq<Volume>)
    requires forall u :: u in us ==> u.body.VolumeBody?
    ensures |vs| == |us|
  {
    seq(|us|, i requires 0 <= i < |us| => assert us[i] in us; Volume(us[i].id, us[i].name, us[i].body.useQuadlet))
  }

  function VolumeList(db: Db): seq<Volume> {
    AsVolumes(List(db, KVolume))
  }

  function ContainerName(db: Db, id: Id): string {
    if id in db.rows && db.rows[id].body.ContainerBody? then db.rows[id].name else ""
  }

  function InputOf(cfg: Config, db: Db, u: Unit): RenderInput {
    match u.body
    case ContainerBody(_, _, _, _, _, mounts) =>
      ContainerInput(u, FillAll(cfg.sid, cfg.path, Plan(mounts, VolumeList(db))))
    case TimerBody(_, c) => TimerInput(u, ContainerName(db, c))
    case _ => Plain(u)
  }

  /** The unit file the stored rows call for. */
  function Rendered(cfg: Config, db: Db, u: Unit): string {
    Tidy(cfg.template(InputOf(cfg, db, u)))
  }

  /** Volumes kept as host directories have no unit file. */
  predicate HasFile(u: Unit) {
    u.body.VolumeBody? ==> u.body.useQuadlet
  }

  function Suffix(k: Kind): string {
    match k
    case KPod => ".pod" case KVolume => ".volume" case KImage => ".image" case KNetwork => ".network"
    case KBuild => ".build" case KContainer => ".container" case KTimer => ".timer" case KArtifact => ".artifact"
  }

  function FileName(sid: string, k: Kind, name: string): string {
    (if k.KVolume? then sid + "-" + name else name) + Suffix(k)
  }

  function FileOf(cfg: Config, u: Unit): string {
    FileName(cfg.sid, KindOf(u), u.name)
  }

  lemma SuffixInjective(j: Kind, k: Kind)
    requires Suffix(j) == Suffix(k)
    ensures j == k
  {
    assert Suffix(j)[1] == Suffix(k)[1];
  }

  lemma SuffixHasDot(k: Kind)
    ensures Suffix(k) != "" && Suffix(k)[0] == '.'
  {
  }

  /** A dot-free stem and the suffix after it can be read off a file name. */
  lemma StemAndSuffix(stem: string, suffix: string)
    requires NoDot(stem) && suffix != "" && suffix[0] == '.'
    ensures var i := IndexOf(stem + suffix, '.'); (stem + suffix)[..i] == stem && (stem + suffix)[i..] == suffix
  {
    var f := stem + suffix;
    assert f[|stem|] == '.';
    IndexOfUnique(f, '.', |stem|);
  }

  /** Two stored units never share a file: the stem has no dot, so the file name determines it and the kind. */
  lemma FileNameInjective(sid: string, j: Kind, m: string, k: Kind, n: string)
    requires NoDot(sid) && NoDot(m) && NoDot(n)
    requires FileName(sid, j, m) == FileName(sid, k, n)
    ensures j == k && m == n
  {
    hide Suffix;
    var stemM := if j.KVolume? then sid + "-" + m else m;
    var stemN := if k.KVolume? then sid + "-" + n else n;
    SuffixHasDot(j);
    SuffixHasDot(k);
    StemAndSuffix(stemM, Suffix(j));
    StemAndSuffix(stemN, Suffix(k));
    SuffixInjective(j, k);
    if j.KVolume? {
      assert stemM[|sid| + 1..] == m && stemN[|sid| + 1..] == n;
    }
  }

  // ---- which rows a rendering depends on ----

  function VolumeRow(db: Db, id: Id): Option<Volume> {
    if id in db.rows && db.rows[id].body.VolumeBody?
    then Some(Volume(id, db.rows[id].name, db.rows[id].body.useQuadlet)) else None
  }

  lemma VolumeLookup(db: Db, id: Id)
    requires Consistent(db)
    ensures VolumeOf(VolumeList(db), id) == VolumeRow(db, id)
  {
    var us, vs := List(db, KVolume), VolumeList(db);
    VolumeOfIs(vs, id);
    if VolumeRow(db, id).Some? {
      Listed(db, id);
      var i :| 0 <= i < |us| && us[i] == db.rows[id];
      assert vs[i].id == id && vs[i] in vs;
    }
    match VolumeOf(vs, id)
    case Some(v) =>
      var i :| 0 <= i < |vs| && vs[i] == v;
      assert us[i] in us;
    case None =>
  }

  /** How many of the mounts name a stored volume. */
  function StoredMounts(rows: map<Id, Unit>, mounts: seq<Mount>): nat {
    if mounts == [] then 0
    else (if mounts[0].volumeId in rows && rows[mounts[0].volumeId].body.VolumeBody? then 1 else 0)
         + StoredMounts(rows, mounts[1..])
  }

  lemma StoredIsKnown(db: Db, m: Mount)
    requires Consistent(db)
    ensures Dangling(VolumeList(db), m) <==> !(m.volumeId in db.rows && db.rows[m.volumeId].body.VolumeBody?)
  {
    VolumeLookup(db, m.volumeId);
    VolumeOfIs(VolumeList(db), m.volumeId);
    hide List, Consistent;
  }

  lemma {:induction false} StoredMountsAre(db: Db, mounts: seq<Mount>)
    requires Consistent(db)
    ensures StoredMounts(db.rows, mounts) == NonDangling(VolumeList(db), mounts)
  {
    hide VolumeList, Consistent, Dangling;
    if mounts != [] {
      StoredIsKnown(db, mounts[0]);
      StoredMountsAre(db, mounts[1..]);
    }
  }

  lemma {:induction false} SomeLastOfId(volumes: seq<Volume>, id: Id) returns (n: nat)
    requires VolumeOf(volumes, id).Some?
    ensures LastOfId(volumes, n) && volumes[n].id == id && VolumeOf(volumes, id) == Some(volumes[n])
  {
    n := |volumes| - 1;
    if volumes[n].id != id {
      n := SomeLastOfId(volumes[..n], id);
    }
  }

  /** A container's template is given its row and a mount for every stored volume it mounts, in order, which
      names that volume's unit file, or its host directory when it has none. */
  lemma ContainerRenders(cfg: Config, db: Db, c: Unit, j: nat)
    requires Consistent(db) && c.body.ContainerBody? && j < |c.body.mounts|
    requires var id := c.body.mounts[j].volumeId; id in db.rows && db.rows[id].body.VolumeBody?
    ensures var m, k := c.body.mounts[j], StoredMounts(db.rows, c.body.mounts[..j]);
            var v := db.rows[m.volumeId];
            InputOf(cfg, db, c).ContainerInput? && InputOf(cfg, db, c).unit == c
            && |InputOf(cfg, db, c).resolved| == StoredMounts(db.rows, c.body.mounts)
            && k < |InputOf(cfg, db, c).resolved|
            && InputOf(cfg, db, c).resolved[k]
               == if v.body.useQuadlet then Resolved(FileOf(cfg, v), "", m.containerPath, m.options)
                  else Resolved("", cfg.path(cfg.sid, v.name), m.containerPath, m.options)
  {
    var mounts, volumes := c.body.mounts, VolumeList(db);
    VolumeLookup(db, mounts[j].volumeId);
    var n := SomeLastOfId(volumes, mounts[j].volumeId);
    ResolvedAt(cfg.sid, cfg.path, volumes, mounts, j, n);
    StoredMountsAre(db, mounts);
    StoredMountsAre(db, mounts[..j]);
    hide VolumeList, Plan, VolumeOf, LastOfId, NonDangling, StoredMounts, Consistent, FillAll;
  }

  /** A timer's template is given its row and its container's name, every other one its row. */
  lemma OthersRender(cfg: Config, db: Db, u: Unit)
    requires Consistent(db) && u.id in db.rows && db.rows[u.id] == u && !u.body.ContainerBody?
    ensures u.body.TimerBody? ==>
              u.body.containerId in db.rows && db.rows[u.body.containerId].body.ContainerBody?
              && Rendered(cfg, db, u) == Tidy(cfg.template(TimerInput(u, db.rows[u.body.containerId].name)))
    ensures !u.body.TimerBody? ==> Rendered(cfg, db, u) == Tidy(cfg.template(Plain(u)))
  {
    hide Tidy;
  }

  /** The other rows u's rendering reads are the same in both databases. */
  ghost predicate SameContext(db: Db, db': Db, u: Unit) {
    match u.body
    case ContainerBody(_, _, _, _, _, mounts) =>
      forall m :: m in mounts ==> VolumeRow(db, m.volumeId) == VolumeRow(db', m.volumeId)
    case TimerBody(_, c) => ContainerName(db, c) == ContainerName(db', c)
    case _ => true
  }

  lemma RenderedSame(cfg: Config, db: Db, db': Db, u: Unit)
    requires Consistent(db) && Consistent(db') && SameContext(db, db', u)
    ensures Rendered(cfg, db, u) == Rendered(cfg, db', u)
  {
    if u.body.ContainerBody? {
      forall m | m in u.body.mounts ensures SameVolume(VolumeList(db), VolumeList(db'), m.volumeId) {
        VolumeLookup(db, m.volumeId);
        VolumeLookup(db', m.volumeId);
      }
      PlanDependsOnMounted(u.body.mounts, VolumeList(db), VolumeList(db'));
    }
  }
}
