/** What the progress storage puts into the patches is only of the framework, so that the operator does not react to it:
    kopf/_cogs/configs/progress.py together with kopf/_core/reactor/processing.py. */
module Writes {
  import opened Wrappers
  import opened Trees
  import opened MergePatches
  import opened Conventions
  import opened Agreement
  import opened Essences
  import opened Fields
  import opened Progress
  import opened Blindness
  import opened Causes
  import opened SelfTriggering
  import Cycles

  /** The handlers of the operator are not named so that their annotations are those of the diff-base. */
  predicate OwnNames(own: string -> bool, cfg: Config, body: Value, ids: seq<string>)
    requires Shaped(body)
  {
    forall i :: 0 <= i < |ids| ==> OwnName(own, cfg, body, ids[i])
  }

  predicate OwnName(own: string -> bool, cfg: Config, body: Value, id: string)
    requires Shaped(body)
  {
    forall key :: key in KeysFor(cfg, body, id) ==> own(key)
  }

  /** A field of the storage, with one of the operator's own annotations. */
  ghost predicate IsOwn(own: string -> bool, cfg: Config, path: Path) {
    (exists key :: own(key) && path == KeyPath(key)) || exists id :: path == StatusPath(cfg, id)
  }

  lemma AnnotationIsWritten(patch: Value, key: string, x: Value)
    requires Shaped(patch)
    ensures Clear(patch, KeyPath(key))
    ensures var r := Ensured(patch, KeyPath(key), x);
            && Shaped(r) && Annotations(r) == Annotations(patch)[key := x]
            && r.members.Keys == patch.members.Keys + {"metadata"} && Meta(r).Keys == Meta(patch).Keys + {"annotations"}
            && Child(r, "status") == Child(patch, "status")
  {
    FieldOfAnnotation(patch, key);
    var path := KeyPath(key);
    assert path == ["metadata", "annotations", key];
    assert path[1..] == ["annotations", key] && path[1..][1..] == [key] && [key][1..] == [];
    var annotations := Child(Child(patch, "metadata"), "annotations");
    assert Ensured(annotations, [key], x) == Obj(Annotations(patch)[key := x]);
    assert Ensured(Child(patch, "metadata"), path[1..], x)
      == Obj(Meta(patch)["annotations" := Obj(Annotations(patch)[key := x])]);
  }

  lemma AnnotationIsRemoved(patch: Value, key: string)
    requires Shaped(patch)
    ensures Clear(patch, KeyPath(key))
    ensures var r := Removed(patch, KeyPath(key));
            && Shaped(r) && Annotations(r) == Annotations(patch) - {key}
            && r.members.Keys <= patch.members.Keys && Meta(r).Keys <= Meta(patch).Keys
            && Child(r, "status") == Child(patch, "status")
  {
    FieldOfAnnotation(patch, key);
    var path := KeyPath(key);
    assert path == ["metadata", "annotations", key];
    assert path[1..] == ["annotations", key] && path[1..][1..] == [key];
    if "metadata" in patch.members && "annotations" in Meta(patch) {
      var annotations := Meta(patch)["annotations"];
      assert Removed(annotations, [key]) == Obj(Annotations(patch) - {key});
      var meta := Removed(patch.members["metadata"], path[1..]);
      assert Child(meta, "annotations") == Obj(Annotations(patch) - {key});
    }
  }

  /** One field of the progress is purged: the patch is still of the framework. */
  lemma PurgingOneIsFrameworks(own: string -> bool, cfg: Config, body: Value, patch: Value, path: Path)
    requires cfg.Valid() && Cycles.IsFrameworks(own, cfg.field, patch)
    requires IsOwn(own, cfg, path)
    ensures Cycles.IsFrameworks(own, cfg.field, PurgedField(body, patch, path))
  {
    if key :| own(key) && path == KeyPath(key) {
      AnnotationIsWritten(patch, key, Null);
      AnnotationIsRemoved(patch, key);
    } else {
      var id :| path == StatusPath(cfg, id);
      PurgingStatusIsFrameworks(own, cfg, body, patch, id);
    }
  }

  lemma PurgingStatusIsFrameworks(own: string -> bool, cfg: Config, body: Value, patch: Value, id: string)
    requires cfg.Valid() && Cycles.IsFrameworks(own, cfg.field, patch)
    ensures Cycles.IsFrameworks(own, cfg.field, PurgedField(body, patch, StatusPath(cfg, id)))
  {
    var path := StatusPath(cfg, id);
    var inner, field := path[1..], cfg.field[1..];
    assert path[0] == "status" && inner == field + [id] && field <= inner;
    var status, r := Child(patch, "status"), PurgedField(body, patch, path);
    assert "metadata"[0] != "status"[0];
    if Clear(patch, path) {
      if "status" !in patch.members { NothingInEmpty(inner); }
      AgreeAfterOneEnsure(EMPTY, status, inner, Null, field);
      AgreeAfterRemoval(EMPTY, status, inner, field);
      assert RemovedOrKept(EMPTY, inner) == EMPTY by { NothingInEmpty(inner); }
      assert Child(r, "metadata") == Child(patch, "metadata");
      if Resolve(body, path).Some? {
        assert Child(r, "status") == Ensured(status, inner, Null);
      } else if Resolve(patch, path).Some? {
        assert Child(r, "status") == RemovedOrKept(status, inner);
      }
      assert Shaped(r) && Meta(r) == Meta(patch) && Annotations(r) == Annotations(patch);
    }
  }

  lemma {:induction false} PurgingIsFrameworks(
    own: string -> bool, cfg: Config, body: Value, patch: Value, paths: seq<Path>
  )
    requires cfg.Valid() && Cycles.IsFrameworks(own, cfg.field, patch)
    requires forall i :: 0 <= i < |paths| ==> IsOwn(own, cfg, paths[i])
    ensures Cycles.IsFrameworks(own, cfg.field, Purged(body, patch, paths))
    decreases |paths|
  {
    if paths != [] {
      var n := |paths| - 1;
      PurgingIsFrameworks(own, cfg, body, patch, paths[..n]);
      PurgingOneIsFrameworks(own, cfg, body, Purged(body, patch, paths[..n]), paths[n]);
    }
  }

  lemma StoringOneIsFrameworks(own: string -> bool, cfg: Config, body: Value, patch: Value, name: string, text: string)
    requires cfg.Valid() && Shaped(body) && Cycles.IsFrameworks(own, cfg.field, patch)
    requires own(cfg.progress.MarkerKey()) && forall key :: key in cfg.progress.Keys(name) ==> own(key)
    ensures Cycles.IsFrameworks(own, cfg.field, Cycles.Stored(cfg.progress, name, body, patch, text))
  {
    var r := Cycles.Stored(cfg.progress, name, body, patch, text);
    assert r.members - {"metadata"} == patch.members - {"metadata"};
    assert Meta(r) - {"annotations"} == Meta(patch) - {"annotations"};
    assert "metadata"[0] != "status"[0];
    Cycles.OnlyKey(r.members, patch.members, "metadata", {"metadata", "status"});
    Cycles.OnlyKey(Meta(r), Meta(patch), "annotations", {"annotations"});
    assert "status" in r.members <==> "status" in r.members - {"metadata"};
    assert "status" in patch.members <==> "status" in patch.members - {"metadata"};
    assert "status" in r.members ==> (r.members - {"metadata"})["status"] == (patch.members - {"metadata"})["status"];
    assert Child(r, "status") == Child(patch, "status");
  }

  lemma StoringIsFrameworks(
    own: string -> bool, cfg: Config, codec: Cycles.Codec, n: Notation, verbose: bool, body: Value, patch: Value,
    s: State
  )
    requires cfg.Valid() && Shaped(body) && s.Valid() && Cycles.IsFrameworks(own, cfg.field, patch)
    requires own(cfg.progress.MarkerKey()) && OwnNames(own, cfg, body, s.ids)
    ensures Cycles.IsFrameworks(own, cfg.field, StoredState(cfg, codec, n, verbose, body, patch, s, |s.ids|))
  {
    var kept := v => Cycles.IsFrameworks(own, cfg.field, v);
    forall before, id | Shaped(before) && kept(before) && id in s.ids
      ensures kept(StoredOne(cfg, codec, n, verbose, body, before, s, id))
    {
      StoringIsFrameworksOnce(own, cfg, codec, n, verbose, body, before, s, id);
    }
    StoringKeeps(cfg, codec, n, verbose, body, patch, s, |s.ids|, kept);
  }

  lemma StoringIsFrameworksOnce(
    own: string -> bool, cfg: Config, codec: Cycles.Codec, n: Notation, verbose: bool, body: Value, patch: Value,
    s: State, id: string
  )
    requires cfg.Valid() && Shaped(body) && id in s.states && Cycles.IsFrameworks(own, cfg.field, patch)
    requires own(cfg.progress.MarkerKey()) && OwnName(own, cfg, body, id)
    ensures Cycles.IsFrameworks(own, cfg.field, StoredOne(cfg, codec, n, verbose, body, patch, s, id))
  {
    StoringOneIsFrameworks(own, cfg, body, patch, MarkKey(id, body), codec.encode(Obj(RecordOf(n, s, id, verbose))));
  }

  lemma {:induction false} PathsOfOwn(own: string -> bool, cfg: Config, body: Value, ids: seq<string>)
    requires Shaped(body) && OwnNames(own, cfg, body, ids)
    ensures forall path :: path in PathsForAll(cfg, body, ids) ==> IsOwn(own, cfg, path)
    decreases |ids|
  {
    if ids != [] {
      var n := |ids| - 1;
      PathsOfOwn(own, cfg, body, ids[..n]);
      assert OwnName(own, cfg, body, ids[n]);
      var keys := KeysFor(cfg, body, ids[n]);
      forall path | path in PathsFor(cfg, body, ids[n])
        ensures IsOwn(own, cfg, path)
      {
        if path != StatusPath(cfg, ids[n]) {
          var i :| 0 <= i < |keys| && path == KeyPath(keys[i]);
          assert own(keys[i]);
        }
      }
    }
  }

  /** What a finished cycle writes of its progress, when the handlers themselves have patched nothing: the states are
      stored, and all the handlers are purged. This is what the absence of self-triggering is proved for. */
  lemma ProgressIsFrameworks(
    cfg: Config, codec: Cycles.Codec, n: Notation, verbose: bool, body: Value, s: State, ids: seq<string>
  )
    requires cfg.Valid() && Shaped(body) && s.Valid()
    requires var own := Cycles.ProgressOnly(cfg, MarkKey(cfg.key, body));
             own(cfg.progress.MarkerKey()) && OwnNames(own, cfg, body, s.ids) && OwnNames(own, cfg, body, ids)
    ensures Cycles.IsFrameworks(Cycles.ProgressOnly(cfg, MarkKey(cfg.key, body)), cfg.field,
              Purged(body, StoredState(cfg, codec, n, verbose, body, EMPTY, s, |s.ids|), PathsForAll(cfg, body, ids)))
  {
    var own := Cycles.ProgressOnly(cfg, MarkKey(cfg.key, body));
    ClearMeansAgree(EMPTY, cfg.field[1..]);
    assert Annotations(EMPTY) == map[];
    assert Cycles.IsFrameworks(own, cfg.field, EMPTY);
    StoringIsFrameworks(own, cfg, codec, n, verbose, body, EMPTY, s);
    PathsOfOwn(own, cfg, body, ids);
    var paths := PathsForAll(cfg, body, ids);
    assert forall i :: 0 <= i < |paths| ==> paths[i] in paths;
    PurgingIsFrameworks(own, cfg, body, StoredState(cfg, codec, n, verbose, body, EMPTY, s, |s.ids|), paths);
  }

  lemma {:induction false} PathsAreOfStorages(cfg: Config, body: Value, ids: seq<string>)
    requires cfg.Valid() && Shaped(body)
    ensures forall path :: path in PathsForAll(cfg, body, ids) ==> IsPathOf(cfg, path)
    decreases |ids|
  {
    if ids != [] { PathsAreOfStorages(cfg, body, ids[..|ids| - 1]); }
  }

  /** What a finished cycle has in its patch of the progress: the states are stored, and all the handlers are purged. */
  function ProgressPatch(
    cfg: Config, codec: Cycles.Codec, n: Notation, verbose: bool, body: Value, s: State, ids: seq<string>
  ): (patch: Value)
    requires cfg.Valid() && Shaped(body) && s.Valid()
    ensures Shaped(patch)
  {
    var stored := StoredState(cfg, codec, n, verbose, body, EMPTY, s, |s.ids|);
    PathsAreOfStorages(cfg, body, ids);
    PurgedIsShaped(cfg, body, stored, PathsForAll(cfg, body, ids));
    Purged(body, stored, PathsForAll(cfg, body, ids))
  }

  /** The whole finished cycle, with nothing patched by the handlers themselves: the progress is stored and purged, the
      essence is stored, all of it is merged, and the body comes back. The operator sees nothing to do, if the storing
      of the essence reveals nothing. */
  lemma FinishedCycleIsQuiet(
    cfg: Config, codec: Cycles.Codec, n: Notation, verbose: bool, extra: seq<Path>, volatile: set<string>,
    body: Value, s: State, ids: seq<string>, after: Value, kind: EventType, finalizer: string
  )
    requires Prefixed(cfg) && IsVolatile(volatile) && codec.Lawful() && s.Valid()
    requires Cycles.Readable(cfg, codec, body) && Clear(body, cfg.field) && Buildable(body, extra)
      && Buildable(after, extra)
    requires var own := Cycles.ProgressOnly(cfg, MarkKey(cfg.key, body));
             own(cfg.progress.MarkerKey()) && OwnNames(own, cfg, body, s.ids) && OwnNames(own, cfg, body, ids)
    requires var progress := ProgressPatch(cfg, codec, n, verbose, body, s, ids);
             Cycles.Settled(volatile, MergePatch(body, Cycles.FinalPatch(cfg, codec, body, extra, progress)), after)
    requires forall i :: 0 <= i < |extra| ==> Harmless(OwnWrites(cfg, MarkKey(cfg.key, body)), volatile, extra[i])
    requires Cycles.RevealsNothing(cfg, body)
    requires kind != DELETED && !DeletionIsOngoing(after)
    ensures Cycles.Readable(cfg, codec, after) && Clear(after, cfg.field)
    ensures Cycles.LastSeen(cfg, codec, after) == Some(EssenceOf(cfg, body, extra))
    ensures Cycles.ReasonAfter(cfg, codec, extra, after, kind, finalizer) == NOOP
  {
    ProgressIsFrameworks(cfg, codec, n, verbose, body, s, ids);
    var progress := ProgressPatch(cfg, codec, n, verbose, body, s, ids);
    Cycles.NoReason(cfg, codec, extra, volatile, body, progress, after, kind, finalizer);
  }
}
