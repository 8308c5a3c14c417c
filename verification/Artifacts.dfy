/** Artifacts, the files they share and the references that protect those files. */
module Artifacts {
  import opened Common

  datatype Artifact = Artifact(id: string, file: string, lifecycle: string)

  datatype Reference = Reference(refId: string, file: string, ownerType: string, ownerId: string)

  /** Metadata records, the reference log, and the file records with whether they are active. */
  datatype State = State(artifacts: seq<Artifact>, refs: seq<Reference>, files: map<string, bool>)

  // ---- Records and references ----

  function Get(artifacts: seq<Artifact>, id: string): Option<Artifact> {
    if artifacts == [] then None
    else if artifacts[|artifacts| - 1].id == id then Some(artifacts[|artifacts| - 1])
    else Get(artifacts[..|artifacts| - 1], id)
  }

  function OthersThan(artifacts: seq<Artifact>, id: string): (r: seq<Artifact>)
    ensures forall a :: a in r <==> a in artifacts && a.id != id
  {
    if artifacts == [] then [] else
      var front, last := artifacts[..|artifacts| - 1], artifacts[|artifacts| - 1];
      assert artifacts == front + [last];
      if last.id == id then OthersThan(front, id) else OthersThan(front, id) + [last]
  }

  function Upsert(artifacts: seq<Artifact>, a: Artifact): seq<Artifact> { OthersThan(artifacts, a.id) + [a] }

  /** Removes the references with one of the given ids. */
  function DropRefs(refs: seq<Reference>, ids: set<string>): (r: seq<Reference>)
    ensures forall x :: x in r <==> x in refs && x.refId !in ids
  {
    if refs == [] then [] else
      var front, last := refs[..|refs| - 1], refs[|refs| - 1];
      assert refs == front + [last];
      if last.refId in ids then DropRefs(front, ids) else DropRefs(front, ids) + [last]
  }

  function FileRefIds(refs: seq<Reference>, file: string): set<string> { set x | x in refs && x.file == file :: x.refId }

  function OwnerRefIds(refs: seq<Reference>, owner: string): set<string> {
    set x | x in refs && x.ownerType == "artifact" && x.ownerId == owner :: x.refId
  }

  predicate OwnedBy(r: Reference, id: string) { r.ownerType == "artifact" && r.ownerId == id }

  // ---- Operations ----

  /** Something other than the artifact still needs its file: a live artifact, or any reference not its own. */
  predicate Shared(s: State, a: Artifact) {
    || (exists b :: b in s.artifacts && b.id != a.id && b.lifecycle != "deleted" && b.file == a.file)
    || (exists r :: r in s.refs && r.file == a.file && !OwnedBy(r, a.id))
  }

  /** A new artifact on an active file, or on a file of its own; it may also refer to the file it was made from. */
  function Save(s: State, id: string, wanted: string, secret: bool, newFile: string, refId: string, source: string, sourceRef: string): State {
    var reuse := wanted != "" && !secret && wanted in s.files && s.files[wanted];
    var file := if reuse then wanted else newFile;
    State(Upsert(s.artifacts, Artifact(id, file, "active")),
          WithSource(s.refs + [Reference(refId, file, "artifact", id)], id, source, sourceRef),
          if reuse then s.files else s.files[file := true])
  }

  function WithSource(refs: seq<Reference>, id: string, source: string, sourceRef: string): (r: seq<Reference>)
    ensures refs <= r
    ensures forall x :: x in r <==> x in refs || (source != "" && x == Reference(sourceRef, source, "artifact", id))
  {
    if source != "" then refs + [Reference(sourceRef, source, "artifact", id)] else refs
  }

  function SetLifecycle(s: State, id: string, lifecycle: string): State {
    match Get(s.artifacts, id)
    case None => s
    case Some(a) => s.(artifacts := Upsert(s.artifacts, a.(lifecycle := lifecycle)))
  }

  /** Removes the file of an artifact that nothing else needs, with all references to it. `deletable`: the payload could be unlinked. */
  function ReleaseFile(s: State, a: Artifact, deletable: bool): State {
    if a.file == "" || Shared(s, a) then s
    else s.(files := if deletable then s.files - {a.file} else s.files, refs := DropRefs(s.refs, FileRefIds(s.refs, a.file)))
  }

  function HardDelete(s: State, id: string, deletable: bool): State {
    match Get(s.artifacts, id)
    case None => s
    case Some(a) =>
      var t := ReleaseFile(s, a, deletable);
      State(OthersThan(t.artifacts, id), DropRefs(t.refs, OwnerRefIds(t.refs, id)), t.files)
  }

  function HardDeleteAll(s: State, ids: seq<string>, deletable: bool): State {
    if ids == [] then s else HardDelete(HardDeleteAll(s, ids[..|ids| - 1], deletable), ids[|ids| - 1], deletable)
  }

  function IdsOnFile(artifacts: seq<Artifact>, file: string): (r: seq<string>)
    ensures forall id :: id in r <==> exists a :: a in artifacts && a.file == file && a.id == id
  {
    if artifacts == [] then [] else
      var front, last := artifacts[..|artifacts| - 1], artifacts[|artifacts| - 1];
      assert artifacts == front + [last];
      var rest := IdsOnFile(front, file);
      if last.file == file then rest + [last.id] else rest
  }

  predicate InUse(s: State, file: string) {
    (exists a :: a in s.artifacts && a.file == file) || (exists r :: r in s.refs && r.file == file)
  }

  /** Plain deletion refuses a file in use. */
  function DeleteFile(s: State, file: string, deletable: bool): State {
    if file !in s.files || InUse(s, file) || !deletable then s else s.(files := s.files - {file})
  }

  /** Forced deletion first hard-deletes the artifacts on the file and removes the references to it. */
  function ForceDeleteFile(s: State, file: string, deletable: bool): State {
    if file !in s.files then s else
      var t := HardDeleteAll(s, IdsOnFile(s.artifacts, file), deletable);
      var u := t.(refs := DropRefs(t.refs, FileRefIds(t.refs, file)));
      if deletable then u.(files := u.files - {file}) else u
  }

  // ---- What every operation keeps ----

  ghost predicate UniqueArtifacts(artifacts: seq<Artifact>) {
    forall i, j :: 0 <= i < j < |artifacts| ==> artifacts[i].id != artifacts[j].id
  }

  ghost predicate UniqueRefs(refs: seq<Reference>) {
    forall x, y :: x in refs && y in refs && x.refId == y.refId ==> x == y
  }

  /** Every artifact record, whatever its lifecycle, still has its file record. */
  ghost predicate FilesPresent(s: State) {
    forall a :: a in s.artifacts && a.file != "" ==> a.file in s.files
  }

  ghost predicate HasRef(refs: seq<Reference>, file: string, id: string) {
    exists r :: r in refs && r.file == file && OwnedBy(r, id)
  }

  /** The strengthening: every artifact protects its file by a reference of its own. */
  ghost predicate Protected(s: State) {
    forall a :: a in s.artifacts && a.file != "" ==> HasRef(s.refs, a.file, a.id)
  }

  ghost predicate Safe(s: State) {
    UniqueArtifacts(s.artifacts) && UniqueRefs(s.refs) && FilesPresent(s) && Protected(s)
  }

  lemma {:induction false} GetIsMember(artifacts: seq<Artifact>, id: string)
    ensures Get(artifacts, id).Some? ==> Get(artifacts, id).value in artifacts && Get(artifacts, id).value.id == id
    ensures Get(artifacts, id).None? ==> forall a :: a in artifacts ==> a.id != id
  {
    if artifacts != [] {
      GetIsMember(artifacts[..|artifacts| - 1], id);
      assert artifacts == artifacts[..|artifacts| - 1] + [artifacts[|artifacts| - 1]];
    }
  }

  lemma {:induction false} OthersUnique(artifacts: seq<Artifact>, id: string)
    requires UniqueArtifacts(artifacts)
    ensures UniqueArtifacts(OthersThan(artifacts, id))
  {
    if artifacts != [] {
      var front, last := artifacts[..|artifacts| - 1], artifacts[|artifacts| - 1];
      OthersUnique(front, id);
      assert forall a :: a in front ==> a.id != last.id;
    }
  }

  lemma UpsertKeeps(s: State, a: Artifact, refs: seq<Reference>, files: map<string, bool>)
    requires UniqueArtifacts(s.artifacts) && UniqueRefs(refs)
    requires forall b :: b in s.artifacts && b.id != a.id && b.file != "" ==> b.file in files && HasRef(refs, b.file, b.id)
    requires a.file != "" ==> a.file in files && HasRef(refs, a.file, a.id)
    ensures Safe(State(Upsert(s.artifacts, a), refs, files))
  {
    hide HasRef, UniqueRefs;
    OthersUnique(s.artifacts, a.id);
  }

  lemma SaveKeeps(s: State, id: string, wanted: string, secret: bool, newFile: string, refId: string, source: string, sourceRef: string)
    requires Safe(s) && newFile !in s.files && newFile != "" && refId != sourceRef
    requires forall r :: r in s.refs ==> r.refId != refId && r.refId != sourceRef
    ensures Safe(Save(s, id, wanted, secret, newFile, refId, source, sourceRef))
  {
    hide OthersThan, UniqueArtifacts, WithSource;
    var t := Save(s, id, wanted, secret, newFile, refId, source, sourceRef);
    var reuse := wanted != "" && !secret && wanted in s.files && s.files[wanted];
    var file := if reuse then wanted else newFile;
    var r := Reference(refId, file, "artifact", id);
    assert r in t.refs && OwnedBy(r, id);
    forall b | b in s.artifacts && b.id != id && b.file != "" ensures b.file in t.files && HasRef(t.refs, b.file, b.id) {
      var x :| x in s.refs && x.file == b.file && OwnedBy(x, b.id);
      assert x in t.refs;
    }
    UpsertKeeps(s, Artifact(id, file, "active"), t.refs, t.files);
  }

  lemma SetLifecycleKeeps(s: State, id: string, lifecycle: string)
    requires Safe(s)
    ensures Safe(SetLifecycle(s, id, lifecycle))
  {
    hide HasRef, UniqueArtifacts, UniqueRefs, OthersThan;
    GetIsMember(s.artifacts, id);
    if Get(s.artifacts, id).Some? {
      UpsertKeeps(s, Get(s.artifacts, id).value.(lifecycle := lifecycle), s.refs, s.files);
    }
  }

  /** A file that is released is on no other artifact: one that shared it would hold a reference of its own. */
  lemma ReleasedAlone(s: State, a: Artifact, b: Artifact)
    requires Safe(s) && a in s.artifacts && b in s.artifacts && a.id != b.id && a.file != "" && !Shared(s, a)
    ensures b.file != a.file
  {
  }

  lemma ReleaseKeepsOthers(s: State, a: Artifact, deletable: bool, b: Artifact)
    requires Safe(s) && a in s.artifacts && b in s.artifacts && a.id != b.id && b.file != ""
    ensures
      var t := ReleaseFile(s, a, deletable);
      b.file in t.files && HasRef(t.refs, b.file, b.id)
  {
    if a.file != "" && !Shared(s, a) { ReleasedAlone(s, a, b); }
  }

  lemma RefStays(refs: seq<Reference>, r: Reference, ids: set<string>)
    requires UniqueRefs(refs) && r in refs && r.refId !in ids
    ensures r in DropRefs(refs, ids)
  {
  }

  lemma DropRefsUnique(refs: seq<Reference>, ids: set<string>)
    requires UniqueRefs(refs)
    ensures UniqueRefs(DropRefs(refs, ids))
  {
  }

  lemma HardDeleteKeeps(s: State, id: string, deletable: bool)
    requires Safe(s)
    ensures Safe(HardDelete(s, id, deletable))
  {
    hide OthersThan, DropRefs, Shared, ReleaseFile, FileRefIds, UniqueArtifacts;
    GetIsMember(s.artifacts, id);
    if Get(s.artifacts, id).Some? {
      var a := Get(s.artifacts, id).value;
      var t := ReleaseFile(s, a, deletable);
      ReleaseShape(s, a, deletable);
      var owned := OwnerRefIds(t.refs, id);
      DropRefsUnique(t.refs, owned);
      OthersUnique(s.artifacts, id);
      forall b | b in OthersThan(s.artifacts, id) && b.file != ""
        ensures b.file in t.files && HasRef(DropRefs(t.refs, owned), b.file, b.id)
      {
        ReleaseKeepsOthers(s, a, deletable, b);
        var r :| r in t.refs && r.file == b.file && OwnedBy(r, b.id);
        assert r.refId !in owned;
        RefStays(t.refs, r, owned);
      }
    }
  }

  lemma ReleaseShape(s: State, a: Artifact, deletable: bool)
    requires UniqueRefs(s.refs)
    ensures ReleaseFile(s, a, deletable).artifacts == s.artifacts && UniqueRefs(ReleaseFile(s, a, deletable).refs)
  {
  }

  lemma {:induction false} HardDeleteAllKeeps(s: State, ids: seq<string>, deletable: bool)
    requires Safe(s)
    ensures Safe(HardDeleteAll(s, ids, deletable))
    ensures forall a :: a in HardDeleteAll(s, ids, deletable).artifacts ==> a in s.artifacts && a.id !in ids
  {
    hide Safe, HardDelete;
    if ids != [] {
      var front, id := ids[..|ids| - 1], ids[|ids| - 1];
      HardDeleteAllKeeps(s, front, deletable);
      var t := HardDeleteAll(s, front, deletable);
      HardDeleteKeeps(t, id, deletable);
      HardDeleteRemoves(t, id, deletable);
      assert ids == front + [id];
    }
  }

  lemma HardDeleteRemoves(s: State, id: string, deletable: bool)
    ensures forall a :: a in HardDelete(s, id, deletable).artifacts <==> a in s.artifacts && a.id != id
  {
    GetIsMember(s.artifacts, id);
  }

  lemma DropFileKeeps(s: State, file: string)
    requires Safe(s) && forall a :: a in s.artifacts ==> a.file != file
    ensures Safe(s.(refs := DropRefs(s.refs, FileRefIds(s.refs, file))))
    ensures Safe(s.(refs := DropRefs(s.refs, FileRefIds(s.refs, file)), files := s.files - {file}))
  {
  }

  lemma ForceDeleteKeeps(s: State, file: string, deletable: bool)
    requires Safe(s)
    ensures Safe(ForceDeleteFile(s, file, deletable))
    ensures file in s.files && deletable ==> file !in ForceDeleteFile(s, file, deletable).files
  {
    hide Safe, HardDeleteAll, DropRefs;
    if file in s.files {
      var t := HardDeleteAll(s, IdsOnFile(s.artifacts, file), deletable);
      HardDeleteAllKeeps(s, IdsOnFile(s.artifacts, file), deletable);
      DropFileKeeps(t, file);
    }
  }

  lemma DeleteFileKeeps(s: State, file: string, deletable: bool)
    requires Safe(s)
    ensures Safe(DeleteFile(s, file, deletable))
  {
  }

  // ---- Every run ----

  datatype Step =
    | SaveStep(id: string, wanted: string, secret: bool, newFile: string, refId: string, source: string, sourceRef: string)
    | SoftDeleteStep(id: string)
    | HardDeleteStep(id: string, deletable: bool)
    | PromoteStep(id: string)
    | DeleteFileStep(file: string, force: bool, deletable: bool)
    | AddRefStep(ref: Reference)       // any owner takes a reference
    | ReleaseRefStep(ref: Reference)   // an owner that is not an artifact gives one up

  /** Identifiers of new files and references are new. */
  ghost predicate Enabled(s: State, step: Step) {
    match step
    case SaveStep(id, wanted, secret, newFile, refId, source, sourceRef) =>
      && newFile !in s.files && newFile != "" && refId != sourceRef
      && forall r :: r in s.refs ==> r.refId != refId && r.refId != sourceRef
    case AddRefStep(ref) => forall r :: r in s.refs ==> r.refId != ref.refId
    case ReleaseRefStep(ref) => ref in s.refs && ref.ownerType != "artifact"
    case _ => true
  }

  function Apply(s: State, step: Step): State {
    match step
    case SaveStep(id, wanted, secret, newFile, refId, source, sourceRef) => Save(s, id, wanted, secret, newFile, refId, source, sourceRef)
    case SoftDeleteStep(id) => SetLifecycle(s, id, "deleted")
    case HardDeleteStep(id, deletable) => HardDelete(s, id, deletable)
    case PromoteStep(id) => SetLifecycle(s, id, "promoted")
    case DeleteFileStep(file, force, deletable) =>
      if force then ForceDeleteFile(s, file, deletable) else DeleteFile(s, file, deletable)
    case AddRefStep(ref) => s.(refs := s.refs + [ref])
    case ReleaseRefStep(ref) => s.(refs := DropRefs(s.refs, {ref.refId}))
  }

  lemma AddRefKeeps(s: State, ref: Reference)
    requires Safe(s) && forall r :: r in s.refs ==> r.refId != ref.refId
    ensures Safe(s.(refs := s.refs + [ref]))
  {
  }

  lemma ReleaseRefKeeps(s: State, ref: Reference)
    requires Safe(s) && ref in s.refs && ref.ownerType != "artifact"
    ensures Safe(s.(refs := DropRefs(s.refs, {ref.refId})))
  {
  }

  lemma StepKeeps(s: State, step: Step)
    requires Safe(s) && Enabled(s, step)
    ensures Safe(Apply(s, step))
  {
    hide Safe, Save, SetLifecycle, HardDelete, ForceDeleteFile, DeleteFile, DropRefs;
    match step
    case SaveStep(id, wanted, secret, newFile, refId, source, sourceRef) => SaveKeeps(s, id, wanted, secret, newFile, refId, source, sourceRef);
    case SoftDeleteStep(id) => SetLifecycleKeeps(s, id, "deleted");
    case HardDeleteStep(id, deletable) => HardDeleteKeeps(s, id, deletable);
    case PromoteStep(id) => SetLifecycleKeeps(s, id, "promoted");
    case DeleteFileStep(file, force, deletable) =>
      ForceDeleteKeeps(s, file, deletable);
      DeleteFileKeeps(s, file, deletable);
    case AddRefStep(ref) => AddRefKeeps(s, ref);
    case ReleaseRefStep(ref) => ReleaseRefKeeps(s, ref);
  }

  ghost predicate Runs(s: State, steps: seq<Step>)
    decreases |steps|
  {
    steps == [] || (Enabled(s, steps[0]) && Runs(Apply(s, steps[0]), steps[1..]))
  }

  function After(s: State, steps: seq<Step>): State
    decreases |steps|
  {
    if steps == [] then s else After(Apply(s, steps[0]), steps[1..])
  }

  lemma {:induction false} RunKeeps(s: State, steps: seq<Step>)
    requires Safe(s) && Runs(s, steps)
    ensures Safe(After(s, steps))
    decreases |steps|
  {
    hide Safe, Apply, Enabled;
    if steps != [] {
      StepKeeps(s, steps[0]);
      RunKeeps(Apply(s, steps[0]), steps[1..]);
    }
  }

  /** In every run from the empty workspace each artifact record of any lifecycle still has its file record. */
  lemma FilesNeverLost(steps: seq<Step>)
    requires Runs(State([], [], map[]), steps)
    ensures FilesPresent(After(State([], [], map[]), steps))
  {
    hide Apply, Enabled;
    RunKeeps(State([], [], map[]), steps);
  }

  /** Without the protecting references: a hard delete loses a file exactly when another record is on it that the sharing test does not see. */
  lemma HardDeleteExactly(s: State, id: string, deletable: bool)
    requires UniqueArtifacts(s.artifacts) && FilesPresent(s) && Get(s.artifacts, id).Some?
    ensures
      var a := Get(s.artifacts, id).value;
      FilesPresent(HardDelete(s, id, deletable)) <==>
        a.file == "" || Shared(s, a) || !deletable || forall b :: b in s.artifacts && b.id != id ==> b.file != a.file
  {
  }

  /** A save whose reference could not be written: the failure is logged and the artifact stays. */
  function SaveUnreferenced(s: State, id: string, wanted: string, newFile: string): State {
    Save(s, id, wanted, false, newFile, "", "", "").(refs := s.refs)
  }

  /**
   * Why every save must get its reference written: two artifacts on one file, the second without reference. Soft-deleting
   * the second and hard-deleting the first removes the file, and promoting the second makes it live without one.
   */
  lemma LostWithoutReference(a: string, b: string, file: string, other: string, ref: string)
    requires a != b && file != ""
    ensures
      var shared := SaveUnreferenced(Save(State([], [], map[]), a, "", false, file, ref, "", ""), b, file, other);
      var gone := HardDelete(SetLifecycle(shared, b, "deleted"), a, true);
      var live := SetLifecycle(gone, b, "promoted");
      && FilesPresent(shared) && !FilesPresent(gone)
      && Get(live.artifacts, b) == Some(Artifact(b, file, "promoted")) && file !in live.files
  {
    hide Save, SaveUnreferenced, SetLifecycle, HardDelete;
    SharedUnreferenced(a, b, file, other, ref);
    var soft := TwoOnOne(a, b, file, ref, "deleted");
    assert soft.artifacts[..1] == [soft.artifacts[0]];
    assert Get(soft.artifacts, a) == Some(soft.artifacts[0]) && soft.artifacts[1] in soft.artifacts;
    HardDeleteExactly(soft, a, true);
    LosesFile(a, b, file, ref);
    PromotesLast(b, file, "deleted", [], map[]);
  }

  /** Two artifacts on one file, the second one unprotected. */
  function TwoOnOne(a: string, b: string, file: string, ref: string, lifecycle: string): State {
    State([Artifact(a, file, "active"), Artifact(b, file, lifecycle)], [Reference(ref, file, "artifact", a)], map[file := true])
  }

  lemma SharedUnreferenced(a: string, b: string, file: string, other: string, ref: string)
    requires a != b && file != ""
    ensures
      var shared := SaveUnreferenced(Save(State([], [], map[]), a, "", false, file, ref, "", ""), b, file, other);
      shared == TwoOnOne(a, b, file, ref, "active") && SetLifecycle(shared, b, "deleted") == TwoOnOne(a, b, file, ref, "deleted")
  {
    var first, second := Artifact(a, file, "active"), Artifact(b, file, "active");
    var one := Save(State([], [], map[]), a, "", false, file, ref, "", "");
    assert OthersThan([], a) + [first] == [first] && [] + [Reference(ref, file, "artifact", a)] == [Reference(ref, file, "artifact", a)];
    assert one == State([first], [Reference(ref, file, "artifact", a)], map[file := true]);
    KeepsOther(first, b);
    assert [first] + [second] == [first, second];
    DropsLast(first, second);
    assert [first] + [second.(lifecycle := "deleted")] == [first, second.(lifecycle := "deleted")];
  }

  lemma LosesFile(a: string, b: string, file: string, ref: string)
    requires a != b && file != ""
    ensures HardDelete(TwoOnOne(a, b, file, ref, "deleted"), a, true) == State([Artifact(b, file, "deleted")], [], map[])
  {
    var s := TwoOnOne(a, b, file, ref, "deleted");
    var first, hidden := s.artifacts[0], s.artifacts[1];
    assert s.artifacts[..1] == [first];
    assert Get(s.artifacts, a) == Some(first);
    assert !Shared(s, first);
    var r := s.refs[0];
    assert s.refs[..0] == [] && r in s.refs && r.refId in FileRefIds(s.refs, file);
    assert DropRefs(s.refs, FileRefIds(s.refs, file)) == [];
    assert s.files - {file} == map[];
    DropsFirst(first, hidden);
  }

  lemma PromotesLast(b: string, file: string, lifecycle: string, refs: seq<Reference>, files: map<string, bool>)
    ensures SetLifecycle(State([Artifact(b, file, lifecycle)], refs, files), b, "promoted") == State([Artifact(b, file, "promoted")], refs, files)
    ensures Get([Artifact(b, file, "promoted")], b) == Some(Artifact(b, file, "promoted"))
  {
    var x := Artifact(b, file, lifecycle);
    assert [x][..0] == [] && OthersThan([x], b) == [];
    assert [] + [x.(lifecycle := "promoted")] == [x.(lifecycle := "promoted")];
  }

  lemma KeepsOther(x: Artifact, id: string)
    requires x.id != id
    ensures OthersThan([x], id) == [x]
  {
    assert [x][..0] == [];
    assert OthersThan([x][..0], id) + [x] == [x];
  }

  lemma DropsLast(x: Artifact, y: Artifact)
    requires x.id != y.id
    ensures OthersThan([x, y], y.id) == [x] && Get([x, y], y.id) == Some(y)
  {
    assert [x, y][..1] == [x];
    KeepsOther(x, y.id);
  }

  lemma DropsFirst(x: Artifact, y: Artifact)
    requires x.id != y.id
    ensures OthersThan([x, y], x.id) == [y]
  {
    assert [x, y][..1] == [x] && [x][..0] == [];
    assert OthersThan([x], x.id) == [];
  }

  // ---- The store ----

  class Workspace {
    var artifacts: seq<Artifact>
    var refs: seq<Reference>
    var files: map<string, bool>

    function View(): State
      reads this
    {
      State(artifacts, refs, files)
    }

    constructor ()
      ensures View() == State([], [], map[])
    {
      artifacts, refs, files := [], [], map[];
    }

    method SaveArtifact(id: string, wanted: string, secret: bool, newFile: string, refId: string, source: string, sourceRef: string)
      modifies this
      ensures View() == Save(old(View()), id, wanted, secret, newFile, refId, source, sourceRef)
    {
      var file := newFile;
      if wanted != "" && !secret && wanted in files && files[wanted] {
        file := wanted;
      } else {
        files := files[newFile := true];
      }
      artifacts := Upsert(artifacts, Artifact(id, file, "active"));
      refs := refs + [Reference(refId, file, "artifact", id)];
      if source != "" { refs := refs + [Reference(sourceRef, source, "artifact", id)]; }
    }

    /** Removes references one id at a time. */
    method RemoveReferences(ids: set<string>)
      modifies this`refs
      ensures refs == DropRefs(old(refs), ids)
    {
      hide DropRefs;
      var left := ids;
      ghost var gone: set<string> := {};
      DropNone(refs);
      while left != {}
        invariant gone + left == ids && refs == DropRefs(old(refs), gone)
        decreases left
      {
        var id :| id in left;
        DropAgain(old(refs), gone, id);
        refs := DropRefs(refs, {id});
        left, gone := left - {id}, gone + {id};
      }
      assert gone == ids;
    }

    method DeleteArtifact(id: string, hard: bool, deletable: bool) returns (done: bool)
      modifies this
      ensures done <==> Get(old(artifacts), id).Some?
      ensures View() == if hard then HardDelete(old(View()), id, deletable) else SetLifecycle(old(View()), id, "deleted")
    {
      var rec := Get(artifacts, id);
      if rec.None? { return false; }
      var a := rec.value;
      if hard {
        if a.file != "" && !Shared(View(), a) {
          if deletable { files := files - {a.file}; }
          RemoveReferences(FileRefIds(refs, a.file));
        }
        RemoveReferences(OwnerRefIds(refs, id));
        artifacts := OthersThan(artifacts, id);
      } else {
        artifacts := Upsert(artifacts, a.(lifecycle := "deleted"));
      }
      done := true;
    }

    /** Secrets are never shared, sensitive artifacts only with permission. `sensitivity` and `allowed` (an explicit permission to share) are what the record says of itself. */
    method PromoteArtifact(id: string, scope: string, sensitivity: string, allowed: bool) returns (done: bool)
      modifies this
      ensures done <==>
        && Get(old(artifacts), id).Some? && scope in {"workspace", "shared", "global"}
        && (scope == "shared" ==> sensitivity != "secret" && (sensitivity == "sensitive" ==> allowed))
      ensures View() == if done then SetLifecycle(old(View()), id, "promoted") else old(View())
    {
      if scope != "workspace" && scope != "shared" && scope != "global" { return false; }
      var rec := Get(artifacts, id);
      if rec.None? { return false; }
      if sensitivity == "secret" && scope == "shared" { return false; }
      if sensitivity == "sensitive" && scope == "shared" && !allowed { return false; }
      artifacts := Upsert(artifacts, rec.value.(lifecycle := "promoted"));
      done := true;
    }

    /** Hard-deletes the listed artifacts, one after the other. */
    method DeleteEach(ids: seq<string>, deletable: bool)
      modifies this
      ensures View() == HardDeleteAll(old(View()), ids, deletable)
    {
      hide HardDelete;
      var i := 0;
      assert ids[..0] == [];
      while i < |ids|
        invariant i <= |ids| && View() == HardDeleteAll(old(View()), ids[..i], deletable)
      {
        assert ids[..i + 1][..i] == ids[..i];
        var done := DeleteArtifact(ids[i], true, deletable);
        i := i + 1;
      }
      assert ids[..|ids|] == ids;
    }

    /** Deletes a file; with force, after the artifacts on it and the references to it. */
    method DeleteManagedFile(file: string, force: bool, deletable: bool) returns (error: string)
      modifies this
      ensures error == if file !in old(files) then "file_not_found"
                       else if !force && ((exists a :: a in old(artifacts) && a.file == file) || (exists r :: r in old(refs) && r.file == file))
                       then "file_in_use"
                       else if file in files then "delete_failed" else ""
      ensures View() == if force then ForceDeleteFile(old(View()), file, deletable) else DeleteFile(old(View()), file, deletable)
    {
      hide HardDelete, DropRefs, FileRefIds, IdsOnFile;
      if file !in files { return "file_not_found"; }
      if !force {
        if InUse(View(), file) { return "file_in_use"; }
        if !deletable { return "delete_failed"; }
        files := files - {file};
        return "";
      }
      DeleteEach(IdsOnFile(artifacts, file), deletable);
      RemoveReferences(FileRefIds(refs, file));
      if file !in files { return ""; }
      if !deletable { return "delete_failed"; }
      files := files - {file};
      error := "";
    }
  }

  lemma {:induction false} DropNone(refs: seq<Reference>)
    ensures DropRefs(refs, {}) == refs
  {
    if refs != [] {
      var front, last := refs[..|refs| - 1], refs[|refs| - 1];
      DropNone(front);
      assert DropRefs(refs, {}) == front + [last];
    }
  }

  lemma {:induction false} DropAgain(refs: seq<Reference>, ids: set<string>, id: string)
    ensures DropRefs(DropRefs(refs, ids), {id}) == DropRefs(refs, ids + {id})
  {
    if refs != [] {
      var front, last := refs[..|refs| - 1], refs[|refs| - 1];
      DropAgain(front, ids, id);
      var kept := DropRefs(front, ids);
      assert (kept + [last])[..|kept|] == kept;
    }
  }
}
