/** Instantiating a saved template: recreating its volumes and remapping the mounts of its
    containers (create_compartment_from_template in compartment_manager.py). */
module Templates {
  import opened Text
  import opened Mounts

  /** The volumes add_volume creates for the template's, in order, under the ids it draws. */
  function Recreated(volumes: seq<Volume>, ids: seq<Id>): (r: seq<Volume>)
    requires |ids| == |volumes|
    ensures |r| == |volumes|
  {
    seq(|volumes|, i requires 0 <= i < |volumes| => Volume(ids[i], volumes[i].name, volumes[i].useQuadlet))
  }

  /** {v.qm_name: v.id for v in volumes} */
  function NameToId(volumes: seq<Volume>): map<string, Id> {
    if volumes == [] then map[]
    else var n := |volumes| - 1; NameToId(volumes[..n])[volumes[n].name := volumes[n].id]
  }

  /** The id in the new compartment: by the name of the first template volume with the old id. */
  function NewId(volumes: seq<Volume>, names: map<string, Id>, old_: Id): Id {
    if volumes == [] then old_
    else if volumes[0].id == old_ then (if volumes[0].name in names then names[volumes[0].name] else old_)
    else NewId(volumes[1..], names, old_)
  }

  function Remapped(volumes: seq<Volume>, names: map<string, Id>, mounts: seq<Mount>): (r: seq<Mount>)
    ensures |r| == |mounts|
  {
    seq(|mounts|, i requires 0 <= i < |mounts| => mounts[i].(volumeId := NewId(volumes, names, mounts[i].volumeId)))
  }

  method RemapMounts(volumes: seq<Volume>, fresh_: seq<Volume>, mounts: seq<Mount>) returns (newMounts: seq<Mount>)
    ensures newMounts == Remapped(volumes, NameToId(fresh_), mounts)
  {
    var names: map<string, Id> := map[];
    for i := 0 to |fresh_|
      invariant names == NameToId(fresh_[..i])
    {
      assert fresh_[..i + 1][..i] == fresh_[..i];
      names := names[fresh_[i].name := fresh_[i].id];
    }
    assert fresh_[..|fresh_|] == fresh_;
    newMounts := [];
    for j := 0 to |mounts|
      invariant newMounts == Remapped(volumes, names, mounts)[..j]
    {
      var oldId := mounts[j].volumeId;
      var newId := oldId;
      var k := 0;
      while k < |volumes|
        invariant k <= |volumes| && newId == oldId
        invariant NewId(volumes, names, oldId) == NewId(volumes[k..], names, oldId)
      {
        if volumes[k].id == oldId {
          newId := if volumes[k].name in names then names[volumes[k].name] else oldId;
          break;
        }
        k := k + 1;
      }
      assert newId == NewId(volumes, names, oldId);
      newMounts := newMounts + [mounts[j].(volumeId := newId)];
    }
  }

  // ---- what the new container's mounts resolve to ----

  predicate DistinctIds(vs: seq<Volume>) {
    forall i, j :: 0 <= i < j < |vs| ==> vs[i].id != vs[j].id
  }

  predicate DistinctNames(vs: seq<Volume>) {
    forall i, j :: 0 <= i < j < |vs| ==> vs[i].name != vs[j].name
  }

  lemma {:induction false} VolumeOfAt(vs: seq<Volume>, i: nat)
    requires DistinctIds(vs) && i < |vs|
    ensures VolumeOf(vs, vs[i].id) == Some(vs[i])
  {
    if i < |vs| - 1 { VolumeOfAt(vs[..|vs| - 1], i); }
  }

  lemma {:induction false} NameToIdAt(vs: seq<Volume>, i: nat)
    requires DistinctNames(vs) && i < |vs|
    ensures vs[i].name in NameToId(vs) && NameToId(vs)[vs[i].name] == vs[i].id
  {
    if i < |vs| - 1 { NameToIdAt(vs[..|vs| - 1], i); }
  }

  lemma {:induction false} NewIdAt(vs: seq<Volume>, names: map<string, Id>, i: nat)
    requires DistinctIds(vs) && i < |vs| && vs[i].name in names
    ensures NewId(vs, names, vs[i].id) == names[vs[i].name]
  {
    if i > 0 { NewIdAt(vs[1..], names, i - 1); }
  }

  lemma {:induction false} NewIdDangling(vs: seq<Volume>, names: map<string, Id>, id: Id)
    requires forall i :: 0 <= i < |vs| ==> vs[i].id != id
    ensures NewId(vs, names, id) == id
  {
    if vs != [] { NewIdDangling(vs[1..], names, id); }
  }

  lemma {:induction false} VolumeOfAbsent(vs: seq<Volume>, id: Id)
    requires forall i :: 0 <= i < |vs| ==> vs[i].id != id
    ensures VolumeOf(vs, id) == None
  {
    if vs != [] { VolumeOfAbsent(vs[..|vs| - 1], id); }
  }

  /** A saved template and the ids drawn for it: stored volumes have distinct ids and names, and new
      ids are distinct and in no mount. */
  ghost predicate FreshIds(volumes: seq<Volume>, ids: seq<Id>, mounts: seq<Mount>) {
    && |ids| == |volumes| && DistinctIds(volumes) && DistinctNames(volumes)
    && (forall i, j :: 0 <= i < j < |ids| ==> ids[i] != ids[j])
    && (forall m, i :: m in mounts && 0 <= i < |ids| ==> m.volumeId != ids[i])
  }

  /** The old id and the new one denote the same volume, up to the id. */
  lemma SameVolumeUpToId(volumes: seq<Volume>, ids: seq<Id>, mounts: seq<Mount>, m: Mount)
    requires FreshIds(volumes, ids, mounts) && m in mounts
    ensures var fresh_ := Recreated(volumes, ids);
            match (VolumeOf(volumes, m.volumeId), VolumeOf(fresh_, NewId(volumes, NameToId(fresh_), m.volumeId)))
            case (Some(v), Some(w)) => v.name == w.name && v.useQuadlet == w.useQuadlet
            case (None, None) => true
            case _ => false
  {
    var fresh_ := Recreated(volumes, ids);
    if i :| 0 <= i < |volumes| && volumes[i].id == m.volumeId {
      VolumeOfAt(volumes, i);
      NameToIdAt(fresh_, i);
      assert fresh_[i].name == volumes[i].name;
      NewIdAt(volumes, NameToId(fresh_), i);
      VolumeOfAt(fresh_, i);
    } else {
      VolumeOfAbsent(volumes, m.volumeId);
      NewIdDangling(volumes, NameToId(fresh_), m.volumeId);
      assert forall i :: 0 <= i < |fresh_| ==> fresh_[i].id == ids[i];
      VolumeOfAbsent(fresh_, m.volumeId);
    }
  }

  lemma {:induction false} PlanPreserved(volumes: seq<Volume>, ids: seq<Id>, mounts: seq<Mount>)
    requires FreshIds(volumes, ids, mounts)
    ensures var fresh_ := Recreated(volumes, ids);
            Plan(Remapped(volumes, NameToId(fresh_), mounts), fresh_) == Plan(mounts, volumes)
  {
    if mounts != [] {
      var n := |mounts| - 1;
      var fresh_ := Recreated(volumes, ids);
      var all := Remapped(volumes, NameToId(fresh_), mounts);
      assert mounts[n] in mounts;
      SameVolumeUpToId(volumes, ids, mounts, mounts[n]);
      hide VolumeOf, NewId, NameToId, Recreated;
      assert FreshIds(volumes, ids, mounts[..n]);
      PlanPreserved(volumes, ids, mounts[..n]);
      assert all[..n] == Remapped(volumes, NameToId(fresh_), mounts[..n]);
    }
  }

  /** A resolved mount of the source compartment and the new compartment's: the same volume name, path and options. */
  ghost predicate MovedTo(from: string, sid: string, path: HostPath, x: Resolved, y: Resolved) {
    exists name: string ::
      x.containerPath == y.containerPath && x.options == y.options
      && ((x.quadletName == from + "-" + name + ".volume" && x.hostPath == ""
           && y.quadletName == sid + "-" + name + ".volume" && y.hostPath == "")
          || (x.quadletName == "" && x.hostPath == path(from, name)
              && y.quadletName == "" && y.hostPath == path(sid, name)))
  }

  lemma FillMoves(from: string, sid: string, path: HostPath, p: Planned)
    ensures MovedTo(from, sid, path, Fill(from, path, p), Fill(sid, path, p))
  {
    var x, y := Fill(from, path, p), Fill(sid, path, p);
    assert x.containerPath == y.containerPath && x.options == y.options
           && ((x.quadletName == from + "-" + p.volume + ".volume" && x.hostPath == ""
                && y.quadletName == sid + "-" + p.volume + ".volume" && y.hostPath == "")
               || (x.quadletName == "" && x.hostPath == path(from, p.volume)
                   && y.quadletName == "" && y.hostPath == path(sid, p.volume)));
  }

  /** The new container's mounts resolve, one by one and in order, to what the source's resolve to in its
      compartment, with the new compartment in place of the old one; dangling mounts stay dropped. */
  method InstantiateMounts(ghost from: string, sid: string, path: HostPath, volumes: seq<Volume>, ids: seq<Id>,
                           mounts: seq<Mount>)
    returns (resolved: seq<Resolved>)
    requires FreshIds(volumes, ids, mounts)
    ensures resolved == FillAll(sid, path, Plan(mounts, volumes))
    ensures var source := FillAll(from, path, Plan(mounts, volumes));
            |resolved| == |source| == NonDangling(volumes, mounts)
            && forall i :: 0 <= i < |resolved| ==> MovedTo(from, sid, path, source[i], resolved[i])
  {
    var fresh_ := Recreated(volumes, ids);
    var newMounts := RemapMounts(volumes, fresh_, mounts);
    PlanPreserved(volumes, ids, mounts);
    resolved := ResolveMounts(sid, path, newMounts, fresh_);
    PlanLength(volumes, mounts);
    ghost var plan := Plan(mounts, volumes);
    hide *;
    forall i | 0 <= i < |plan| ensures MovedTo(from, sid, path, Fill(from, path, plan[i]), Fill(sid, path, plan[i])) {
      FillMoves(from, sid, path, plan[i]);
    }
  }
}
