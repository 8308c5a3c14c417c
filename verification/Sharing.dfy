/** Who keeps a shared file, and when it goes. */
module Sharing {
  import opened Common
  import opened Artifacts

  ghost predicate Owns(id: string, r: Reference) { r.ownerType == "artifact" && r.ownerId == id }

  /** Nothing but the artifact needs its file: no other live artifact is on it, and every reference to it is its own. */
  ghost predicate Alone(s: State, a: Artifact) {
    && (forall b :: b in s.artifacts && b.id != a.id && b.file == a.file ==> b.lifecycle == "deleted")
    && (forall r :: r in s.refs && r.file == a.file ==> Owns(a.id, r))
  }

  /**
   * A hard delete, record by record: the artifact goes with exactly the references it owns, and with its file exactly if
   * nothing else needs that and it could be unlinked.
   */
  lemma HardDeleteDecides(s: State, a: Artifact, deletable: bool)
    requires UniqueArtifacts(s.artifacts) && UniqueRefs(s.refs) && a in s.artifacts
    ensures
      var t := HardDelete(s, a.id, deletable);
      && (forall b :: b in t.artifacts <==> b in s.artifacts && b.id != a.id)
      && (forall r :: r in t.refs <==> r in s.refs && !Owns(a.id, r))
      && t.files == if a.file != "" && Alone(s, a) && deletable then s.files - {a.file} else s.files
  {
    hide DropRefs, OthersThan;
    GetIsMember(s.artifacts, a.id);
    assert Get(s.artifacts, a.id) == Some(a);
    assert Shared(s, a) <==> !Alone(s, a);
    var t := ReleaseFile(s, a, deletable);
    forall r | r in s.refs && r !in t.refs ensures Owns(a.id, r) {
      var x :| x in s.refs && x.file == a.file && x.refId == r.refId;
    }
    forall r | r in t.refs ensures r.refId in OwnerRefIds(t.refs, a.id) <==> Owns(a.id, r) {}
  }

  /** A saved artifact shares a file only if that is an active one asked for, and never as a secret. */
  lemma SaveShares(s: State, id: string, wanted: string, secret: bool, newFile: string, refId: string, source: string, sourceRef: string)
    requires FilesPresent(s) && newFile !in s.files && newFile != ""
    ensures
      var t := Save(s, id, wanted, secret, newFile, refId, source, sourceRef);
      exists a :: a in t.artifacts && a.id == id && a.lifecycle == "active"
        && (forall b :: b in t.artifacts <==> b == a || (b in s.artifacts && b.id != id))
        && a.file in t.files && t.files[a.file] && (a.file in s.files ==> s.files[a.file] && a.file == wanted && !secret)
        && (wanted in s.files && s.files[wanted] && wanted != "" && !secret ==> a.file == wanted)
        && (forall f :: f != a.file ==> (f in t.files <==> f in s.files) && (f in s.files ==> t.files[f] == s.files[f]))
        && (forall b :: b in s.artifacts && b.id != id && b.file != "" && b.file == a.file ==> !secret && s.files[b.file])
  {
    hide OthersThan;
    var t := Save(s, id, wanted, secret, newFile, refId, source, sourceRef);
    var a := t.artifacts[|t.artifacts| - 1];
    assert a in t.artifacts;
  }

  /** A change of lifecycle touches the one record only. */
  lemma LifecycleDecides(s: State, a: Artifact, lifecycle: string)
    requires UniqueArtifacts(s.artifacts) && a in s.artifacts
    ensures
      var t := SetLifecycle(s, a.id, lifecycle);
      && t.refs == s.refs && t.files == s.files
      && forall b :: b in t.artifacts <==> b == Artifact(a.id, a.file, lifecycle) || (b in s.artifacts && b.id != a.id)
  {
    hide OthersThan;
    GetIsMember(s.artifacts, a.id);
  }

  /** A plain deletion removes a file exactly if no artifact of any lifecycle and no reference is on it. */
  lemma PlainDeleteDecides(s: State, file: string, deletable: bool)
    ensures DeleteFile(s, file, deletable).artifacts == s.artifacts && DeleteFile(s, file, deletable).refs == s.refs
    ensures DeleteFile(s, file, deletable).files ==
      if deletable && (forall a :: a in s.artifacts ==> a.file != file) && (forall r :: r in s.refs ==> r.file != file)
      then s.files - {file} else s.files
  {
    assert file !in s.files ==> s.files - {file} == s.files;
  }

  // ---- The last artifact takes the file along ----

  ghost predicate Holds(s: State, file: string, id: string) { exists a :: a in s.artifacts && a.file == file && a.id == id }

  ghost predicate OnFile(s: State, file: string, ids: seq<string>) {
    forall id :: id in ids <==> Holds(s, file, id)
  }

  /** Every reference to the file is owned by one of the artifacts. */
  ghost predicate NoOtherOwner(s: State, file: string, ids: seq<string>) {
    forall r :: r in s.refs && r.file == file ==> r.ownerType == "artifact" && r.ownerId in ids
  }

  lemma KeepsUnique(s: State, id: string, deletable: bool)
    requires UniqueArtifacts(s.artifacts) && UniqueRefs(s.refs)
    ensures UniqueArtifacts(HardDelete(s, id, deletable).artifacts) && UniqueRefs(HardDelete(s, id, deletable).refs)
  {
    hide DropRefs, OthersThan, UniqueArtifacts, Shared;
    if Get(s.artifacts, id).Some? {
      ReleaseShape(s, Get(s.artifacts, id).value, deletable);
      OthersUnique(s.artifacts, id);
      var t := ReleaseFile(s, Get(s.artifacts, id).value, deletable);
      DropRefsUnique(t.refs, OwnerRefIds(t.refs, id));
    }
  }

  /** After hard-deleting some artifacts exactly they are gone, with the references they own. */
  lemma {:induction false} AllDecide(s: State, file: string, ids: seq<string>, deletable: bool)
    requires UniqueArtifacts(s.artifacts) && UniqueRefs(s.refs) && Distinct(ids)
    requires forall id :: id in ids ==> Holds(s, file, id)
    ensures
      var t := HardDeleteAll(s, ids, deletable);
      && UniqueArtifacts(t.artifacts) && UniqueRefs(t.refs)
      && (forall b :: b in t.artifacts <==> b in s.artifacts && b.id !in ids)
      && (forall r :: r in t.refs <==> r in s.refs && !(r.ownerType == "artifact" && r.ownerId in ids))
      && t.files.Keys <= s.files.Keys && s.files.Keys - {file} <= t.files.Keys && (!deletable ==> t.files == s.files)
  {
    hide HardDelete, UniqueArtifacts, UniqueRefs, Alone;
    if ids != [] {
      var front, id := ids[..|ids| - 1], ids[|ids| - 1];
      assert ids == front + [id] && id !in front && id in ids;
      AllDecide(s, file, front, deletable);
      var t := HardDeleteAll(s, front, deletable);
      var a :| a in s.artifacts && a.file == file && a.id == id;
      assert a in t.artifacts;
      HardDeleteDecides(t, a, deletable);
      KeepsUnique(t, id, deletable);
    }
  }

  /**
   * Hard-deleting every artifact on a file, in any order, removes the file if and only if no other owner refers to it:
   * soft-deleted artifacts count, whatever their order, and no reference of a deleted artifact stays in the way.
   */
  lemma LastTakesFile(s: State, file: string, ids: seq<string>)
    requires UniqueArtifacts(s.artifacts) && UniqueRefs(s.refs) && Distinct(ids) && ids != []
    requires file != "" && file in s.files && OnFile(s, file, ids)
    ensures file !in HardDeleteAll(s, ids, true).files <==> NoOtherOwner(s, file, ids)
  {
    hide HardDelete, UniqueArtifacts, UniqueRefs;
    if NoOtherOwner(s, file, ids) {
      var front, id := ids[..|ids| - 1], ids[|ids| - 1];
      assert ids == front + [id] && id !in front && id in ids;
      AllDecide(s, file, front, true);
      var t := HardDeleteAll(s, front, true);
      var a :| a in s.artifacts && a.file == file && a.id == id;
      HardDeleteDecides(t, a, true);
      forall b | b in t.artifacts && b.file == file ensures b.id == id { assert Holds(s, file, b.id); }
      assert Alone(t, a);
    } else {
      var r :| r in s.refs && r.file == file && !(r.ownerType == "artifact" && r.ownerId in ids);
      ReferredStays(s, file, ids, r);
    }
  }

  lemma {:induction false} ReferredStays(s: State, file: string, ids: seq<string>, r: Reference)
    requires UniqueArtifacts(s.artifacts) && UniqueRefs(s.refs) && Distinct(ids) && file in s.files
    requires forall id :: id in ids ==> Holds(s, file, id)
    requires r in s.refs && r.file == file && !(r.ownerType == "artifact" && r.ownerId in ids)
    ensures file in HardDeleteAll(s, ids, true).files
  {
    hide HardDelete, UniqueArtifacts, UniqueRefs;
    if ids != [] {
      var front, id := ids[..|ids| - 1], ids[|ids| - 1];
      assert ids == front + [id] && id !in front && id in ids;
      ReferredStays(s, file, front, r);
      AllDecide(s, file, front, true);
      var t := HardDeleteAll(s, front, true);
      var a :| a in s.artifacts && a.file == file && a.id == id;
      HardDeleteDecides(t, a, true);
      assert r in t.refs && !Owns(id, r);
    }
  }

  // ---- Forced deletion ----

  lemma {:induction false} DropsOfFile(s: State, file: string)
    requires UniqueRefs(s.refs)
    ensures forall r :: r in DropRefs(s.refs, FileRefIds(s.refs, file)) <==> r in s.refs && r.file != file
  {
  }

  /**
   * Forced deletion of a file, record by record: every artifact on it goes with the references that artifact owns, every
   * reference to the file goes, and the file goes if it could be unlinked; nothing else changes.
   */
  lemma ForceDeleteDecides(s: State, file: string, deletable: bool)
    requires UniqueArtifacts(s.artifacts) && UniqueRefs(s.refs) && file in s.files
    ensures
      var t := ForceDeleteFile(s, file, deletable);
      && (forall b :: b in t.artifacts <==> b in s.artifacts && b.file != file)
      && (forall r :: r in t.refs <==> r in s.refs && r.file != file && !exists b :: b in s.artifacts && b.file == file && Owns(b.id, r))
      && t.files.Keys == if deletable then s.files.Keys - {file} else s.files.Keys
  {
    hide HardDeleteAll, DropRefs, UniqueArtifacts;
    var ids := IdsOnFile(s.artifacts, file);
    assert forall id :: id in ids ==> Holds(s, file, id);
    IdsDistinct(s.artifacts, file);
    AllDecide(s, file, ids, deletable);
    var t := HardDeleteAll(s, ids, deletable);
    DropsOfFile(t, file);
    forall b | b in s.artifacts ensures b.id in ids <==> b.file == file { SameRecord(s.artifacts, b); }
    forall r: Reference ensures (r.ownerType == "artifact" && r.ownerId in ids) <==> exists b :: b in s.artifacts && b.file == file && Owns(b.id, r) {
      if r.ownerType == "artifact" && r.ownerId in ids {
        var b :| b in s.artifacts && b.file == file && b.id == r.ownerId;
        assert Owns(b.id, r);
      }
    }
  }

  lemma SameRecord(artifacts: seq<Artifact>, b: Artifact)
    requires UniqueArtifacts(artifacts) && b in artifacts
    ensures forall a :: a in artifacts && a.id == b.id ==> a == b
  {
  }

  lemma {:induction false} IdsDistinct(artifacts: seq<Artifact>, file: string)
    requires UniqueArtifacts(artifacts)
    ensures Distinct(IdsOnFile(artifacts, file))
  {
    if artifacts != [] {
      var front, last := artifacts[..|artifacts| - 1], artifacts[|artifacts| - 1];
      IdsDistinct(front, file);
      assert forall a :: a in front ==> a.id != last.id;
      var rest := IdsOnFile(front, file);
      assert last.id !in rest;
      forall i | 0 <= i < |rest| ensures rest[i] != last.id { assert rest[i] in rest; }
    }
  }
}
