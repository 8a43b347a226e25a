/** Volume mounts: how a container's mounts resolve against the volumes of its
    compartment, and how a template carries them into a new compartment. */
module Mounts {
  import opened Text

  /** UUIDs are only ever compared for equality. */
  type Id = nat

  datatype Volume = Volume(id: Id, name: string, useQuadlet: bool)
  datatype Mount = Mount(volumeId: Id, containerPath: string, options: string)
  datatype Resolved = Resolved(quadletName: string, hostPath: string, containerPath: string, options: string)

  /** Host directory of a volume, as a function of compartment and volume name. */
  type HostPath = (string, string) -> string

  /** The volume an id denotes: the last listed one, as in a dict comprehension. */
  function VolumeOf(volumes: seq<Volume>, id: Id): Option<Volume> {
    if volumes == [] then None
    else if volumes[|volumes| - 1].id == id then Some(volumes[|volumes| - 1])
    else VolumeOf(volumes[..|volumes| - 1], id)
  }

  /** One mount that survives resolution, before the compartment id is filled in. */
  datatype Planned = Planned(volume: string, useQuadlet: bool, containerPath: string, options: string)

  function Fill(sid: string, path: HostPath, p: Planned): Resolved {
    if p.useQuadlet
    then Resolved(sid + "-" + p.volume + ".volume", "", p.containerPath, p.options)
    else Resolved("", path(sid, p.volume), p.containerPath, p.options)
  }

  function FillAll(sid: string, path: HostPath, plan: seq<Planned>): (r: seq<Resolved>)
    ensures |r| == |plan|
  {
    seq(|plan|, i requires 0 <= i < |plan| => Fill(sid, path, plan[i]))
  }

  /** The mounts with a known volume, in order; the dangling ones are dropped. */
  function Plan(mounts: seq<Mount>, volumes: seq<Volume>): seq<Planned> {
    if mounts == [] then []
    else
      var m := mounts[|mounts| - 1];
      var rest := Plan(mounts[..|mounts| - 1], volumes);
      match VolumeOf(volumes, m.volumeId)
      case None => rest
      case Some(v) => rest + [Planned(v.name, v.useQuadlet, m.containerPath, m.options)]
  }

  method ResolveMounts(sid: string, path: HostPath, mounts: seq<Mount>, volumes: seq<Volume>)
    returns (resolved: seq<Resolved>)
    ensures resolved == FillAll(sid, path, Plan(mounts, volumes))
  {
    var volById: map<Id, Volume> := map[];
    for i := 0 to |volumes|
      invariant forall id :: VolumeOf(volumes[..i], id) == if id in volById then Some(volById[id]) else None
    {
      assert volumes[..i + 1][..i] == volumes[..i];
      volById := volById[volumes[i].id := volumes[i]];
    }
    assert volumes[..|volumes|] == volumes;
    resolved := [];
    for j := 0 to |mounts|
      invariant resolved == FillAll(sid, path, Plan(mounts[..j], volumes))
    {
      assert mounts[..j + 1][..j] == mounts[..j];
      var vm := mounts[j];
      if vm.volumeId in volById {
        var vol := volById[vm.volumeId];
        if vol.useQuadlet {
          resolved := resolved + [Resolved(sid + "-" + vol.name + ".volume", "", vm.containerPath, vm.options)];
        } else {
          resolved := resolved + [Resolved("", path(sid, vol.name), vm.containerPath, vm.options)];
        }
      }
    }
    assert mounts[..|mounts|] == mounts;
  }

  lemma {:induction false} VolumeOfIs(volumes: seq<Volume>, id: Id)
    ensures match VolumeOf(volumes, id)
            case Some(v) => v in volumes && v.id == id
            case None => forall v :: v in volumes ==> v.id != id
  {
    if volumes != [] {
      var front, last := volumes[..|volumes| - 1], volumes[|volumes| - 1];
      VolumeOfIs(front, id);
      assert forall v :: v in volumes <==> v in front || v == last;
    }
  }

  // ---- what a resolved mount holds ----

  predicate Dangling(volumes: seq<Volume>, m: Mount) {
    forall v :: v in volumes ==> v.id != m.volumeId
  }

  /** How many of the mounts have a volume. */
  function NonDangling(volumes: seq<Volume>, mounts: seq<Mount>): nat {
    if mounts == [] then 0
    else (if Dangling(volumes, mounts[0]) then 0 else 1) + NonDangling(volumes, mounts[1..])
  }

  lemma {:induction false} NonDanglingSnoc(volumes: seq<Volume>, mounts: seq<Mount>, m: Mount)
    ensures NonDangling(volumes, mounts + [m])
         == NonDangling(volumes, mounts) + if Dangling(volumes, m) then 0 else 1
  {
    hide Dangling;
    if mounts == [] {
      assert ([] + [m])[1..] == [];
    } else {
      assert (mounts + [m])[1..] == mounts[1..] + [m];
      NonDanglingSnoc(volumes, mounts[1..], m);
    }
  }

  /** Volume n is the last one listed under its id. */
  predicate LastOfId(volumes: seq<Volume>, n: nat) {
    n < |volumes| && forall k :: n < k < |volumes| ==> volumes[k].id != volumes[n].id
  }

  lemma {:induction false} LastIsFound(volumes: seq<Volume>, n: nat)
    requires LastOfId(volumes, n)
    ensures VolumeOf(volumes, volumes[n].id) == Some(volumes[n])
  {
    if n < |volumes| - 1 { LastIsFound(volumes[..|volumes| - 1], n); }
  }

  lemma {:induction false} PlanAt(volumes: seq<Volume>, mounts: seq<Mount>, j: nat, n: nat)
    requires j < |mounts| && LastOfId(volumes, n) && volumes[n].id == mounts[j].volumeId
    ensures |Plan(mounts, volumes)| == NonDangling(volumes, mounts)
    ensures var k := NonDangling(volumes, mounts[..j]);
            k < |Plan(mounts, volumes)|
            && Plan(mounts, volumes)[k]
               == Planned(volumes[n].name, volumes[n].useQuadlet, mounts[j].containerPath, mounts[j].options)
  {
    var front, last := mounts[..|mounts| - 1], mounts[|mounts| - 1];
    assert mounts == front + [last];
    NonDanglingSnoc(volumes, front, last);
    VolumeOfIs(volumes, last.volumeId);
    LastIsFound(volumes, n);
    PlanLength(volumes, front);
    hide NonDangling, LastOfId, VolumeOf, Dangling;
    if j < |front| {
      assert mounts[..j] == front[..j];
      PlanAt(volumes, front, j, n);
    } else {
      assert mounts[..j] == front;
      VolumeMeansKnown(volumes, n);
    }
  }

  lemma VolumeMeansKnown(volumes: seq<Volume>, n: nat)
    requires n < |volumes|
    ensures forall m: Mount :: m.volumeId == volumes[n].id ==> !Dangling(volumes, m)
  {
    assert volumes[n] in volumes;
  }

  lemma {:induction false} PlanLength(volumes: seq<Volume>, mounts: seq<Mount>)
    ensures |Plan(mounts, volumes)| == NonDangling(volumes, mounts)
  {
    if mounts != [] {
      var front, last := mounts[..|mounts| - 1], mounts[|mounts| - 1];
      PlanLength(volumes, front);
      assert mounts == front + [last];
      NonDanglingSnoc(volumes, front, last);
      VolumeOfIs(volumes, last.volumeId);
      hide NonDangling;
    }
  }

  /** As many mounts are resolved as have a volume, and each stands behind those in front of it: with its own
      container path and options, and either the unit file of its volume or the volume's host directory. */
  lemma ResolvedAt(sid: string, path: HostPath, volumes: seq<Volume>, mounts: seq<Mount>, j: nat, n: nat)
    requires j < |mounts| && LastOfId(volumes, n) && volumes[n].id == mounts[j].volumeId
    ensures var resolved := FillAll(sid, path, Plan(mounts, volumes));
            var k := NonDangling(volumes, mounts[..j]);
            |resolved| == NonDangling(volumes, mounts) && k < |resolved|
            && resolved[k].containerPath == mounts[j].containerPath && resolved[k].options == mounts[j].options
            && if volumes[n].useQuadlet
               then resolved[k].quadletName == sid + "-" + volumes[n].name + ".volume" && resolved[k].hostPath == ""
               else resolved[k].quadletName == "" && resolved[k].hostPath == path(sid, volumes[n].name)
  {
    PlanAt(volumes, mounts, j, n);
    hide Plan, NonDangling;
  }

  predicate SameVolume(vs: seq<Volume>, ws: seq<Volume>, id: Id) {
    VolumeOf(vs, id) == VolumeOf(ws, id)
  }

  /** Plans only look up the ids that are mounted. */
  lemma {:induction false} PlanDependsOnMounted(mounts: seq<Mount>, vs: seq<Volume>, ws: seq<Volume>)
    requires forall m :: m in mounts ==> SameVolume(vs, ws, m.volumeId)
    ensures Plan(mounts, vs) == Plan(mounts, ws)
  {
    if mounts != [] {
      assert mounts[|mounts| - 1] in mounts;
      PlanDependsOnMounted(mounts[..|mounts| - 1], vs, ws);
    }
  }

  /** The mounts of all other volumes. */
  function Unmounted(mounts: seq<Mount>, id: Id): seq<Mount> {
    if mounts == [] then []
    else
      var rest := Unmounted(mounts[..|mounts| - 1], id);
      if mounts[|mounts| - 1].volumeId == id then rest else rest + [mounts[|mounts| - 1]]
  }

  /** Without the volume a container resolves as it did without its mounts. */
  lemma {:induction false} PlanUnmounted(mounts: seq<Mount>, vs: seq<Volume>, ws: seq<Volume>, id: Id)
    requires VolumeOf(ws, id).None?
    requires forall m :: m in mounts && m.volumeId != id ==> SameVolume(vs, ws, m.volumeId)
    ensures Plan(mounts, ws) == Plan(Unmounted(mounts, id), vs)
  {
    if mounts != [] {
      var front, last := mounts[..|mounts| - 1], mounts[|mounts| - 1];
      assert last in mounts && forall m :: m in front ==> m in mounts;
      PlanUnmounted(front, vs, ws, id);
      if last.volumeId != id {
        var kept := Unmounted(front, id);
        assert (kept + [last])[..|kept|] == kept;
      }
    }
  }
}
