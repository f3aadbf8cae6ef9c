/** One finished handling cycle and the event about its own patch, as in kopf/_core/reactor/processing.py.

    The cycle stores the new essence of the object, if it has changed, together with its progress, in one patch. The
    server merges it, changes its own metadata, and sends the body back; that body is classified again. */
module Cycles {
  import opened Wrappers
  import opened Trees
  import opened MergePatches
  import opened Diffs
  import opened Conventions
  import opened Agreement
  import opened Essences
  import opened Blindness
  import opened SelfTriggering
  import opened Causes

  /** JSON texts; the only law assumed is that decoding gives back what was encoded. */
  datatype Codec = Codec(encode: Value -> string, decode: string -> Value) {
    ghost predicate Lawful() {
      forall v :: decode(encode(v)) == v
    }
  }

  /** `AnnotationsDiffBaseStorage.fetch`: the first of the keys that holds anything. */
  function Fetched(codec: Codec, annotations: map<string, Value>, keys: seq<string>): Option<Value> {
    if keys == [] then None
    else if keys[0] in annotations && IsText(annotations[keys[0]])
            && codec.decode(annotations[keys[0]].atom.text) != Null then
      Some(codec.decode(annotations[keys[0]].atom.text))
    else Fetched(codec, annotations, keys[1..])
  }

  predicate IsText(v: Value) { v.Scalar? && v.atom.Text? }

  method Fetch(codec: Codec, annotations: map<string, Value>, keys: seq<string>) returns (essence: Option<Value>)
    ensures essence == Fetched(codec, annotations, keys)
  {
    var i := 0;
    while i < |keys|
      invariant 0 <= i <= |keys|
      invariant Fetched(codec, annotations, keys) == Fetched(codec, annotations, keys[i..])
    {
      if keys[i] in annotations && IsText(annotations[keys[i]]) {
        var decoded := codec.decode(annotations[keys[i]].atom.text);
        if decoded != Null {
          return Some(decoded);
        }
      }
      i := i + 1;
    }
    return None;
  }

  predicate Holds(codec: Codec, annotations: map<string, Value>, key: string) {
    && key in annotations && IsText(annotations[key]) && codec.decode(annotations[key].atom.text) != Null
  }

  /** It is what the first of the keys holds that holds anything; or nothing, if none does. */
  lemma {:induction false} FetchedExactly(codec: Codec, annotations: map<string, Value>, keys: seq<string>)
    ensures Fetched(codec, annotations, keys).None? <==> forall key :: key in keys ==> !Holds(codec, annotations, key)
    ensures forall i :: 0 <= i < |keys| && Holds(codec, annotations, keys[i])
                        && (forall j :: 0 <= j < i ==> !Holds(codec, annotations, keys[j])) ==>
                          Fetched(codec, annotations, keys) == Some(codec.decode(annotations[keys[i]].atom.text))
    decreases |keys|
  {
    if keys != [] {
      assert keys == [keys[0]] + keys[1..];
      FetchedExactly(codec, annotations, keys[1..]);
      if !Holds(codec, annotations, keys[0]) {
        forall i | 0 <= i < |keys| && Holds(codec, annotations, keys[i])
                   && (forall j :: 0 <= j < i ==> !Holds(codec, annotations, keys[j]))
          ensures Fetched(codec, annotations, keys) == Some(codec.decode(annotations[keys[i]].atom.text))
        {
          assert keys[1..][i - 1] == keys[i];
          assert forall j :: 0 <= j < i - 1 ==> keys[1..][j] == keys[j + 1];
        }
      }
    }
  }

  // ----- Patches of the framework -----

  /** The patch changes only such annotations, and only that field of the status. */
  predicate IsFrameworks(own: string -> bool, field: Path, patch: Value)
    requires |field| > 1
  {
    && Shaped(patch)
    && patch.members.Keys <= {"metadata", "status"}
    && Meta(patch).Keys <= {"annotations"}
    && (forall key :: key in Annotations(patch) ==> own(key) && !Annotations(patch)[key].Obj?)
    && AgreeOff(EMPTY, Child(patch, "status"), field[1..])
  }

  function WithAnnotation(patch: Value, key: string, text: string): (r: Value)
    requires Shaped(patch)
    ensures Shaped(r) && Annotations(r) == Annotations(patch)[key := Scalar(Text(text))]
    ensures Meta(r) - {"annotations"} == Meta(patch) - {"annotations"}
    ensures r.members - {"metadata"} == patch.members - {"metadata"}
  {
    Obj(patch.members["metadata" :=
      Obj(Meta(patch)["annotations" := Obj(Annotations(patch)[key := Scalar(Text(text))])])])
  }

  function WithKeys(patch: Value, keys: seq<string>, text: string): (r: Value)
    requires Shaped(patch)
    ensures Shaped(r)
    ensures forall key :: key in keys ==> key in Annotations(r) && Annotations(r)[key] == Scalar(Text(text))
    ensures forall key :: key !in keys ==>
              (key in Annotations(r) <==> key in Annotations(patch)) &&
              (key in Annotations(r) ==> Annotations(r)[key] == Annotations(patch)[key])
    ensures Meta(r) - {"annotations"} == Meta(patch) - {"annotations"}
    ensures r.members - {"metadata"} == patch.members - {"metadata"}
    decreases |keys|
  {
    if keys == [] then patch
    else
      var last := |keys| - 1;
      assert keys == keys[..last] + [keys[last]];
      WithAnnotation(WithKeys(patch, keys[..last], text), keys[last], text)
  }

  /** `AnnotationsDiffBaseStorage.store`: all the keys, and the marker if it is neither there nor on the way. */
  function Stored(naming: Naming, name: string, body: Value, patch: Value, text: string): (r: Value)
    requires Shaped(body) && Shaped(patch)
    ensures Shaped(r)
  {
    var keyed := WithKeys(patch, naming.Keys(name), text);
    if naming.NeedsMarker() && naming.MarkerKey() !in Annotations(body)
      && naming.MarkerKey() !in Annotations(keyed) then
      WithAnnotation(keyed, naming.MarkerKey(), "yes")
    else keyed
  }

  lemma EnsuredAnnotation(patch: Value, key: string, text: string)
    requires Shaped(patch)
    ensures Clear(patch, ANNOTATIONS + [key])
    ensures Ensured(patch, ANNOTATIONS + [key], Scalar(Text(text))) == WithAnnotation(patch, key, text)
  {
    var path, x := ANNOTATIONS + [key], Scalar(Text(text));
    assert path[1..] == ["annotations", key] && path[1..][1..] == [key] && [key][1..] == [];
    assert Ensured(Child(Child(Child(patch, "metadata"), "annotations"), key), [], x) == x;
    assert Ensured(Child(Child(patch, "metadata"), "annotations"), [key], x) == Obj(Annotations(patch)[key := x]);
    assert Ensured(Child(patch, "metadata"), path[1..], x) ==
           Obj(Meta(patch)["annotations" := Obj(Annotations(patch)[key := x])]);
  }

  /** The same in the source's own steps, into the patch that the cycle accumulates. */
  method Store(naming: Naming, name: string, body: Value, patch: Dict, text: string)
    requires Shaped(body) && Shaped(patch.root)
    modifies patch
    ensures patch.root == Stored(naming, name, body, old(patch.root), text)
  {
    ghost var before := patch.root;
    var keys := naming.Keys(name);
    var i := 0;
    while i < |keys|
      invariant 0 <= i <= |keys|
      invariant patch.root == WithKeys(before, keys[..i], text)
    {
      EnsuredAnnotation(patch.root, keys[i], text);
      var _ := patch.Ensure(ANNOTATIONS + [keys[i]], Scalar(Text(text)));
      i := i + 1;
      assert keys[..i][..i - 1] == keys[..i - 1];
    }
    assert keys[..i] == keys;
    var marker := naming.MarkerKey();
    if naming.NeedsMarker() && marker !in Annotations(body) && marker !in Annotations(patch.root) {
      EnsuredAnnotation(patch.root, marker, "yes");
      var _ := patch.Ensure(ANNOTATIONS + [marker], Scalar(Text("yes")));
    }
  }

  // ----- Merging them -----

  lemma {:induction false} MergedAgrees(v: Value, patch: Value, path: Path)
    requires path != [] && v.Obj? && Clear(v, path) && AgreeOff(EMPTY, patch, path)
    ensures AgreeOff(v, MergePatch(v, patch), path)
    decreases path
  {
    var k, merged := path[0], MergePatch(v, patch);
    assert forall j :: j in patch.members ==> j == k by {
      assert forall j :: j != k && j in patch.members ==> j in patch.members - {k};
    }
    assert merged.members - {k} == v.members - {k};
    if |path| > 1 {
      if k in patch.members {
        MergeOfMember(v, patch, k);
        MergedAgrees(Child(v, k), patch.members[k], path[1..]);
      } else {
        assert Child(merged, k) == Child(v, k);
        ClearMeansAgree(Child(v, k), path[1..]);
      }
    }
  }

  lemma MergeOfMember(v: Value, patch: Value, key: string)
    requires v.Obj? && patch.Obj?
    requires key in patch.members && patch.members[key].Obj? && Child(v, key).Obj?
    ensures key in MergePatch(v, patch).members
    ensures Child(MergePatch(v, patch), key) == MergePatch(Child(v, key), patch.members[key])
  {
    if key !in v.members {
      var p := patch.members[key].members;
      assert MergePatch(Null, patch.members[key]) == MergePatch(EMPTY, patch.members[key]);
    }
  }

  /** The server merges a patch of the framework: nothing else changes in the object. */
  lemma MergedIsAlike(own: string -> bool, field: Path, body: Value, patch: Value)
    requires |field| > 1 && field[0] == "status" && Shaped(body) && Clear(body, field)
    requires IsFrameworks(own, field, patch)
    ensures Alike(own, field, {}, body, MergePatch(body, patch))
    ensures forall key :: key in Annotations(patch) && !Annotations(patch)[key].Null? ==>
              key in Annotations(MergePatch(body, patch)) &&
              Annotations(MergePatch(body, patch))[key] == Annotations(patch)[key]
    ensures forall key :: key !in Annotations(patch) ==>
              (key in Annotations(MergePatch(body, patch)) <==> key in Annotations(body)) &&
              (key in Annotations(body) ==> Annotations(MergePatch(body, patch))[key] == Annotations(body)[key])
  {
    var merged := MergePatch(body, patch);
    assert merged.members - {"metadata", "status"} == body.members - {"metadata", "status"};
    if "status" in patch.members {
      MergeOfMember(body, patch, "status");
      MergedAgrees(Child(body, "status"), Child(patch, "status"), field[1..]);
    } else {
      ClearMeansAgree(Child(body, "status"), field[1..]);
    }
    if "metadata" in patch.members {
      MergeOfMember(body, patch, "metadata");
      var meta, metaPatch := Child(body, "metadata"), Child(patch, "metadata");
      if "annotations" in metaPatch.members {
        MergeOfMember(meta, metaPatch, "annotations");
      }
      assert Meta(merged) - {"annotations"} == Meta(body) - {"annotations"};
    }
  }

  // ----- The next event -----

  lemma CanonicalIsClean(e: Value)
    requires Shaped(e) && Canonical(e)
    ensures WithoutEmptyStanzas(e) == e
  {
    assert DropIfFalsy(DropIfFalsy(Meta(e), "annotations"), "labels") == Meta(e);
    assert "metadata" in e.members ==> e.members["metadata" := Obj(Meta(e))] == e.members;
  }

  lemma RemovalIsCanonical(e: Value, field: Path)
    requires |field| > 1 && field[0] == "status" && Shaped(e) && Canonical(e) && Clear(e, field)
    ensures Shaped(Removed(e, field)) && Canonical(Removed(e, field))
    ensures Annotations(Removed(e, field)) == Annotations(e)
  {
    RemovalOfOne(e, field);
    SameChild(Removed(e, field).members, e.members, "status", "metadata");
    RemovalIsShaped(e, field);
    assert "metadata" in e.members <==> "metadata" in e.members - {"status"};
    assert "metadata" in Removed(e, field).members <==> "metadata" in Removed(e, field).members - {"status"};
  }

  /** The stored essence is already cleared. */
  lemma ClearedTwice(cfg: Config, e: Value)
    requires cfg.Valid() && Shaped(e) && Clear(e, cfg.field)
    ensures Clear(Cleared(cfg, e), cfg.field) && Cleared(cfg, Cleared(cfg, e)) == Cleared(cfg, e)
  {
    var own := ProgressKeys(cfg, Annotations(e));
    var e0 := WithoutAnnotations(e, own);
    var e1 := WithoutEmptyStanzas(e0);
    StanzaParts(e0);
    PartOfItself(e);
    CleaningKeepsPart(e, own, e);
    PartIsClear(e1, e, cfg.field);
    var e2 := Removed(e1, cfg.field);
    RemovalIsCanonical(e1, cfg.field);
    CanonicalIsClean(e2);
    RemovedTwice(e1, cfg.field);
    assert Cleared(cfg, e) == e2;
    assert ProgressKeys(cfg, Annotations(e2)) == {};
    WithoutNone(e2);
    CanonicalIsClean(e2);
  }

  lemma WithoutNone(e: Value)
    requires Shaped(e)
    ensures WithoutAnnotations(e, {}) == e
  {
    assert Annotations(e) - {} == Annotations(e);
    if "metadata" in e.members && "annotations" in Meta(e) {
      assert Meta(e)["annotations" := Obj(Annotations(e))] == Meta(e);
      assert e.members["metadata" := Obj(Meta(e))] == e.members;
    }
  }

  /** The body as the server settles it: the merged one with new system metadata. */
  predicate Settled(volatile: set<string>, merged: Value, after: Value) {
    && Shaped(merged) && Shaped(after)
    && after.members - {"metadata"} == merged.members - {"metadata"}
    && Meta(after) - volatile == Meta(merged) - volatile
  }

  lemma SettledIsAlike(
    own: string -> bool, field: Path, volatile: set<string>, body: Value, merged: Value, after: Value
  )
    requires |field| > 1 && IsVolatile(volatile) && Alike(own, field, {}, body, merged)
      && Settled(volatile, merged, after)
    ensures Alike(own, field, volatile, body, after) && Annotations(after) == Annotations(merged)
  {
    var aside := {"metadata", "status"};
    assert after.members - aside == after.members - {"metadata"} - aside;
    assert merged.members - aside == merged.members - {"metadata"} - aside;
    SameChild(after.members, merged.members, "metadata", "status");
    assert "annotations" in Meta(after) <==> "annotations" in Meta(after) - volatile;
    assert "annotations" in Meta(merged) <==> "annotations" in Meta(merged) - volatile;
    var rest := {"annotations"};
    assert Meta(after) - rest - volatile == Meta(after) - volatile - rest;
    assert Meta(merged) - rest - volatile == Meta(merged) - volatile - rest;
    assert Meta(body) - rest - volatile == Meta(body) - rest - {} - volatile;
    assert Meta(merged) - rest - volatile == Meta(merged) - rest - {} - volatile;
  }

  /** The writes of the progress, which do not collide with the diff-base. */
  function ProgressOnly(cfg: Config, name: string): string -> bool {
    key => cfg.progress.prefix + "/" <= key && key !in cfg.diffbase.Keys(name)
  }

  /** The last-seen state as the operator takes it from the object, or none. */
  function LastSeen(cfg: Config, codec: Codec, body: Value): (was: Option<Value>)
    requires Readable(cfg, codec, body)
  {
    match Fetched(codec, Annotations(body), DiffBaseKeys(cfg, body))
    case None => None
    case Some(e) => Some(Cleared(cfg, e))
  }

  predicate Readable(cfg: Config, codec: Codec, body: Value) {
    && cfg.Valid() && Shaped(body)
    && var e := Fetched(codec, Annotations(body), DiffBaseKeys(cfg, body));
       e.Some? ==> Shaped(e.value) && Clear(e.value, cfg.field)
  }

  /** The patch of a finished cycle: the progress, and the new essence if it is not the last-seen one. */
  function FinalPatch(cfg: Config, codec: Codec, body: Value, extra: seq<Path>, progress: Value): (patch: Value)
    requires Readable(cfg, codec, body) && Buildable(body, extra) && Clear(body, cfg.field) && Shaped(progress)
    ensures Shaped(patch)
  {
    var now := EssenceOf(cfg, body, extra);
    if LastSeen(cfg, codec, body) == Some(now) then progress
    else Stored(cfg.diffbase, MarkKey(cfg.key, body), body, progress, codec.encode(now))
  }

  lemma StoredIsFrameworks(cfg: Config, name: string, body: Value, patch: Value, text: string)
    requires cfg.Valid() && Shaped(body) && IsFrameworks(ProgressOnly(cfg, name), cfg.field, patch)
    ensures var r := Stored(cfg.diffbase, name, body, patch, text);
            && IsFrameworks(OwnWrites(cfg, name), cfg.field, r)
            && (forall key :: key in cfg.diffbase.Keys(name) ==>
                  key in Annotations(r) && Annotations(r)[key] == Scalar(Text(text)))
            && (cfg.diffbase.NeedsMarker() ==>
                  cfg.diffbase.MarkerKey() in Annotations(r) || cfg.diffbase.MarkerKey() in Annotations(body))
            && (forall key :: key in Annotations(r) && !(cfg.progress.prefix + "/" <= key) ==>
                 !Annotations(r)[key].Null?)
  {
    var keyed, r := WithKeys(patch, cfg.diffbase.Keys(name), text), Stored(cfg.diffbase, name, body, patch, text);
    SameChild(keyed.members, patch.members, "metadata", "status");
    SameChild(r.members, keyed.members, "metadata", "status");
    OnlyKey(keyed.members, patch.members, "metadata", {"metadata", "status"});
    OnlyKey(Meta(keyed), Meta(patch), "annotations", {"annotations"});
    OnlyKey(r.members, keyed.members, "metadata", {"metadata", "status"});
    OnlyKey(Meta(r), Meta(keyed), "annotations", {"annotations"});
  }

  lemma OnlyKey(m: map<string, Value>, w: map<string, Value>, key: string, keys: set<string>)
    requires m - {key} == w - {key} && key in keys && w.Keys <= keys
    ensures m.Keys <= keys
  {
    assert m.Keys <= (m - {key}).Keys + {key};
  }

  lemma FetchedStored(codec: Codec, annotations: map<string, Value>, keys: seq<string>, e: Value)
    requires codec.Lawful() && e.Obj? && keys != []
    requires forall key :: key in keys ==> key in annotations && annotations[key] == Scalar(Text(codec.encode(e)))
    ensures Fetched(codec, annotations, keys) == Some(e)
  {
    assert keys[0] in keys;
    assert codec.decode(codec.encode(e)) == e;
  }

  lemma {:induction false} FetchedSame(codec: Codec, a: map<string, Value>, b: map<string, Value>, keys: seq<string>)
    requires forall key :: key in keys ==> (key in a <==> key in b) && (key in a ==> a[key] == b[key])
    ensures Fetched(codec, a, keys) == Fetched(codec, b, keys)
    decreases |keys|
  {
    if keys != [] {
      assert keys[0] in keys;
      FetchedSame(codec, a, b, keys[1..]);
    }
  }

  /** No self-triggering: when the event about the patch of a finished cycle arrives, the operator reads back
      exactly the essence that it had stored, extracts the same essence from the new body, and sees nothing to do. */
  lemma NoSelfTriggering(
    cfg: Config, codec: Codec, extra: seq<Path>, volatile: set<string>,
    body: Value, progress: Value, after: Value, kind: EventType, finalizer: string
  )
    requires Prefixed(cfg) && IsVolatile(volatile) && codec.Lawful()
    requires Readable(cfg, codec, body) && Clear(body, cfg.field) && Buildable(body, extra) && Buildable(after, extra)
    requires IsFrameworks(ProgressOnly(cfg, MarkKey(cfg.key, body)), cfg.field, progress)
    requires Settled(volatile, MergePatch(body, FinalPatch(cfg, codec, body, extra, progress)), after)
    requires forall i :: 0 <= i < |extra| ==> Harmless(OwnWrites(cfg, MarkKey(cfg.key, body)), volatile, extra[i])
    requires RevealsNothing(cfg, body)
    requires kind != DELETED && !DeletionIsOngoing(after)
    ensures Readable(cfg, codec, after) && Clear(after, cfg.field)
    ensures EssenceOf(cfg, after, extra) == EssenceOf(cfg, body, extra)
    ensures LastSeen(cfg, codec, after) == Some(EssenceOf(cfg, body, extra))
    ensures DetectReason(kind, after, finalizer, LastSeen(cfg, codec, after),
                         Diff(LastSeen(cfg, codec, after).value, EssenceOf(cfg, after, extra)), false) == NOOP
  {
    var keys, now := DiffBaseKeys(cfg, body), EssenceOf(cfg, body, extra);
    FinishedIsAlike(cfg, codec, extra, volatile, body, progress, after);
    MarksAfter(cfg, codec, extra, body, progress, MergePatch(body, FinalPatch(cfg, codec, body, extra, progress)));
    EssenceIsBlind(cfg, extra, volatile, body, after);
    ReadBack(cfg, codec, extra, body, progress, MergePatch(body, FinalPatch(cfg, codec, body, extra, progress)));
    EssenceIsCleared(cfg, body, extra);
    assert Fetched(codec, Annotations(after), keys) ==
      if LastSeen(cfg, codec, body) == Some(now) then Fetched(codec, Annotations(body), keys) else Some(now);
  }

  /** The diff-base storage writes a key by which its prefix is detected as an operator's own. */
  predicate Reveals(cfg: Config, name: string) {
    cfg.diffbase.NeedsMarker() || exists key :: key in cfg.diffbase.Keys(name) && Marks(key)
  }

  /** Storing the essence does not change what is essential: the prefix is already detected as an operator's own,
      or it never will be by the stored keys, or no foreign annotations are there to be hidden by that. */
  predicate RevealsNothing(cfg: Config, body: Value)
    requires Shaped(body)
  {
    || cfg.diffbase.prefix in MarkedPrefixes(Annotations(body).Keys)
    || !Reveals(cfg, MarkKey(cfg.key, body))
    || !ForeignUnderPrefix(cfg, MarkKey(cfg.key, body), Annotations(body))
  }

  /** The keys that mark the prefix of the diff-base are never lost, and are added only by the storing. */
  lemma MarksAfter(cfg: Config, codec: Codec, extra: seq<Path>, body: Value, progress: Value, merged: Value)
    requires Prefixed(cfg) && Readable(cfg, codec, body) && Clear(body, cfg.field) && Buildable(body, extra)
    requires IsFrameworks(ProgressOnly(cfg, MarkKey(cfg.key, body)), cfg.field, progress)
    requires merged == MergePatch(body, FinalPatch(cfg, codec, body, extra, progress)) && Shaped(merged)
    ensures var name, prefix := MarkKey(cfg.key, body), cfg.diffbase.prefix;
            var before, after := MarkedPrefixes(Annotations(body).Keys), MarkedPrefixes(Annotations(merged).Keys);
            && (ForeignUnderPrefix(cfg, name, Annotations(body)) ==>
                LastSeen(cfg, codec, body) != Some(EssenceOf(cfg, body, extra)) && Reveals(cfg, name) ==>
                  prefix in after)
            && (ForeignUnderPrefix(cfg, name, Annotations(body)) && prefix in before ==> prefix in after)
            && (ForeignUnderPrefix(cfg, name, Annotations(body)) && prefix in after && !Reveals(cfg, name) ==>
                 prefix in before)
  {
    AnnotationsAfter(cfg, codec, extra, body, progress, merged);
    var stored := LastSeen(cfg, codec, body) != Some(EssenceOf(cfg, body, extra));
    MarksOfKeys(cfg, MarkKey(cfg.key, body), Annotations(body), Annotations(merged), stored);
  }

  /** Only the progress can be removed, only the own annotations are added, and all of the diff-base's if it is
      stored. */
  predicate KeysAfter(cfg: Config, name: string, a: map<string, Value>, b: map<string, Value>, stored: bool) {
    && (forall key :: key in a && !(cfg.progress.prefix + "/" <= key) ==> key in b)
    && (forall key :: key in b && key !in a ==>
         Own(cfg, name, key) && (Reveals(cfg, name) || cfg.progress.prefix + "/" <= key || !Marks(key)))
    && (stored ==> forall key :: key in cfg.diffbase.Keys(name) ==> key in b)
    && (stored && cfg.diffbase.NeedsMarker() ==>
          cfg.diffbase.MarkerKey() in b || cfg.progress.prefix + "/" <= cfg.diffbase.MarkerKey())
  }

  lemma AnnotationsAfter(cfg: Config, codec: Codec, extra: seq<Path>, body: Value, progress: Value, merged: Value)
    requires cfg.Valid() && Readable(cfg, codec, body) && Clear(body, cfg.field) && Buildable(body, extra)
    requires IsFrameworks(ProgressOnly(cfg, MarkKey(cfg.key, body)), cfg.field, progress)
    requires merged == MergePatch(body, FinalPatch(cfg, codec, body, extra, progress)) && Shaped(merged)
    ensures KeysAfter(cfg, MarkKey(cfg.key, body), Annotations(body), Annotations(merged),
                      LastSeen(cfg, codec, body) != Some(EssenceOf(cfg, body, extra)))
  {
    var name, now, patch :=
      MarkKey(cfg.key, body), EssenceOf(cfg, body, extra), FinalPatch(cfg, codec, body, extra, progress);
    var stored := LastSeen(cfg, codec, body) != Some(now);
    if stored {
      StoredIsFrameworks(cfg, name, body, progress, codec.encode(now));
    }
    assert IsFrameworks(OwnWrites(cfg, name), cfg.field, patch);
    MergedIsAlike(OwnWrites(cfg, name), cfg.field, body, patch);
  }

  lemma MarksOfKeys(cfg: Config, name: string, a: map<string, Value>, b: map<string, Value>, stored: bool)
    requires Prefixed(cfg) && KeysAfter(cfg, name, a, b, stored)
    ensures var prefix, before, after := cfg.diffbase.prefix, MarkedPrefixes(a.Keys), MarkedPrefixes(b.Keys);
            && (ForeignUnderPrefix(cfg, name, a) && stored && Reveals(cfg, name) ==> prefix in after)
            && (ForeignUnderPrefix(cfg, name, a) && prefix in before ==> prefix in after)
            && (ForeignUnderPrefix(cfg, name, a) && prefix in after && !Reveals(cfg, name) ==> prefix in before)
  {
    var prefix := cfg.diffbase.prefix;
    MarkerMarks(cfg.diffbase);
    if ForeignUnderPrefix(cfg, name, a) {
      if stored && Reveals(cfg, name) {
        if cfg.diffbase.NeedsMarker() {
          KeyUnderPrefix(cfg.diffbase.MarkerKey(), cfg.progress.prefix);
        } else {
          var mark :| mark in cfg.diffbase.Keys(name) && Marks(mark);
          KeyUnderPrefix(mark, prefix);
        }
      }
      forall mark | Marks(mark) && PrefixOf(mark) == prefix && (mark in a || mark in b)
        ensures mark in a ==> mark in b
        ensures mark in b && !Reveals(cfg, name) ==> mark in a
      {
        KeyUnderPrefix(mark, cfg.progress.prefix);
      }
    }
  }

  /** The condition is exact: when a new essence is stored, and neither the requested nor the ignored fields reach
      into the metadata, the essence stays as it is stored if and only if the write reveals nothing. */
  lemma EssenceStaysExactly(
    cfg: Config, codec: Codec, extra: seq<Path>, volatile: set<string>, body: Value, progress: Value, after: Value
  )
    requires Prefixed(cfg) && IsVolatile(volatile)
    requires Readable(cfg, codec, body) && Clear(body, cfg.field) && Buildable(body, extra) && Buildable(after, extra)
    requires IsFrameworks(ProgressOnly(cfg, MarkKey(cfg.key, body)), cfg.field, progress)
    requires Settled(volatile, MergePatch(body, FinalPatch(cfg, codec, body, extra, progress)), after)
    requires LastSeen(cfg, codec, body) != Some(EssenceOf(cfg, body, extra))
    requires Outside(extra) && Outside(cfg.ignored)
    ensures Clear(after, cfg.field)
    ensures EssenceOf(cfg, after, extra) == EssenceOf(cfg, body, extra) <==> RevealsNothing(cfg, body)
  {
    FinishedIsAlike(cfg, codec, extra, volatile, body, progress, after);
    MarksAfter(cfg, codec, extra, body, progress, MergePatch(body, FinalPatch(cfg, codec, body, extra, progress)));
    EssenceIsBlindExactly(cfg, extra, volatile, body, after);
  }

  /** The annotations that are not null are seen by a diff. */
  lemma AnnotationsAreSeen(e: Value, f: Value, key: string)
    requires Shaped(e) && Shaped(f) && NullsDropped(e) == NullsDropped(f)
    ensures key in Annotations(e) && !Annotations(e)[key].Null? ==> key in Annotations(f)
  {
    if key in Annotations(e) && !Annotations(e)[key].Null? {
      MemberIsSeen(e, f, "metadata");
      MemberIsSeen(Child(e, "metadata"), Child(f, "metadata"), "annotations");
      MemberIsSeen(Obj(Annotations(e)), Obj(Annotations(f)), key);
    }
  }

  lemma MemberIsSeen(e: Value, f: Value, key: string)
    requires e.Obj? && key in e.members && !e.members[key].Null? && NullsDropped(e) == NullsDropped(f)
    ensures f.Obj? && key in f.members && NullsDropped(f.members[key]) == NullsDropped(e.members[key])
  {
    assert key in NullsDropped(e).members && NullsDropped(e).members[key] == NullsDropped(e.members[key]);
  }

  /** What the operator makes of the event about its own patch. */
  function ReasonAfter(
    cfg: Config, codec: Codec, extra: seq<Path>, after: Value, kind: EventType, finalizer: string
  ): Reason
    requires Readable(cfg, codec, after) && Clear(after, cfg.field) && Buildable(after, extra)
  {
    var was := LastSeen(cfg, codec, after);
    DetectReason(kind, after, finalizer, was,
                 if was.Some? then Diff(was.value, EssenceOf(cfg, after, extra)) else {}, false)
  }

  /** The absence of self-triggering, in the terms of what the operator makes of the event. */
  lemma NoReason(
    cfg: Config, codec: Codec, extra: seq<Path>, volatile: set<string>,
    body: Value, progress: Value, after: Value, kind: EventType, finalizer: string
  )
    requires Prefixed(cfg) && IsVolatile(volatile) && codec.Lawful()
    requires Readable(cfg, codec, body) && Clear(body, cfg.field) && Buildable(body, extra) && Buildable(after, extra)
    requires Shaped(progress) && IsFrameworks(ProgressOnly(cfg, MarkKey(cfg.key, body)), cfg.field, progress)
    requires Settled(volatile, MergePatch(body, FinalPatch(cfg, codec, body, extra, progress)), after)
    requires forall i :: 0 <= i < |extra| ==> Harmless(OwnWrites(cfg, MarkKey(cfg.key, body)), volatile, extra[i])
    requires RevealsNothing(cfg, body)
    requires kind != DELETED && !DeletionIsOngoing(after)
    ensures Readable(cfg, codec, after) && Clear(after, cfg.field)
    ensures LastSeen(cfg, codec, after) == Some(EssenceOf(cfg, body, extra))
    ensures ReasonAfter(cfg, codec, extra, after, kind, finalizer) == NOOP
  {
    NoSelfTriggering(cfg, codec, extra, volatile, body, progress, after, kind, finalizer);
  }

  /** The operator reacts to its own write, as to a change by somebody else, if and only if the write reveals something:
      when a new essence is stored, and neither the requested nor the ignored fields reach into the metadata. */
  lemma SelfTriggeringExactly(
    cfg: Config, codec: Codec, extra: seq<Path>, volatile: set<string>,
    body: Value, progress: Value, after: Value, kind: EventType, finalizer: string
  )
    requires Prefixed(cfg) && IsVolatile(volatile) && codec.Lawful()
    requires Readable(cfg, codec, body) && Clear(body, cfg.field) && Buildable(body, extra) && Buildable(after, extra)
    requires IsFrameworks(ProgressOnly(cfg, MarkKey(cfg.key, body)), cfg.field, progress)
    requires Settled(volatile, MergePatch(body, FinalPatch(cfg, codec, body, extra, progress)), after)
    requires LastSeen(cfg, codec, body) != Some(EssenceOf(cfg, body, extra))
    requires Outside(extra) && Outside(cfg.ignored)
    requires forall key :: key in Annotations(body) ==> !Annotations(body)[key].Null?
    requires kind != DELETED && !DeletionIsOngoing(after)
    ensures Readable(cfg, codec, after) && Clear(after, cfg.field)
    ensures LastSeen(cfg, codec, after) == Some(EssenceOf(cfg, body, extra))
    ensures ReasonAfter(cfg, codec, extra, after, kind, finalizer) == if RevealsNothing(cfg, body) then NOOP else UPDATE
  {
    var merged, now := MergePatch(body, FinalPatch(cfg, codec, body, extra, progress)), EssenceOf(cfg, body, extra);
    FinishedIsAlike(cfg, codec, extra, volatile, body, progress, after);
    ReadBack(cfg, codec, extra, body, progress, merged);
    EssenceIsCleared(cfg, body, extra);
    EssenceStaysExactly(cfg, codec, extra, volatile, body, progress, after);
    var later := EssenceOf(cfg, after, extra);
    EmptyDiffExactly(now, later);
    if !RevealsNothing(cfg, body) {
      MarksAfter(cfg, codec, extra, body, progress, merged);
      var key := SomeAnnotationDiffers(cfg, extra, volatile, body, after);
      if NullsDropped(now) == NullsDropped(later) {
        AnnotationsAreSeen(now, later, key);
        AnnotationsAreSeen(later, now, key);
        assert false;
      }
    }
  }

  lemma FinishedIsAlike(
    cfg: Config, codec: Codec, extra: seq<Path>, volatile: set<string>, body: Value, progress: Value, after: Value
  )
    requires cfg.Valid() && IsVolatile(volatile)
    requires Readable(cfg, codec, body) && Clear(body, cfg.field) && Buildable(body, extra)
    requires IsFrameworks(ProgressOnly(cfg, MarkKey(cfg.key, body)), cfg.field, progress)
    requires Settled(volatile, MergePatch(body, FinalPatch(cfg, codec, body, extra, progress)), after)
    ensures Alike(OwnWrites(cfg, MarkKey(cfg.key, body)), cfg.field, volatile, body, after)
    ensures Annotations(after) == Annotations(MergePatch(body, FinalPatch(cfg, codec, body, extra, progress)))
    ensures DiffBaseKeys(cfg, after) == DiffBaseKeys(cfg, body)
  {
    var name, now := MarkKey(cfg.key, body), EssenceOf(cfg, body, extra);
    var wide, patch := OwnWrites(cfg, name), FinalPatch(cfg, codec, body, extra, progress);
    StoredIsFrameworks(cfg, name, body, progress, codec.encode(now));
    assert IsFrameworks(wide, cfg.field, patch);
    MergedIsAlike(wide, cfg.field, body, patch);
    SettledIsAlike(wide, cfg.field, volatile, body, MergePatch(body, patch), after);
    SameMarkedKey(cfg.key, wide, cfg.field, volatile, body, after);
  }

  lemma EssenceIsCleared(cfg: Config, body: Value, extra: seq<Path>)
    requires cfg.Valid() && Buildable(body, extra) && Clear(body, cfg.field)
    ensures Clear(EssenceOf(cfg, body, extra), cfg.field)
    ensures Cleared(cfg, EssenceOf(cfg, body, extra)) == EssenceOf(cfg, body, extra)
  {
    PartIsClear(Build(cfg, body, extra), body, cfg.field);
    ClearedTwice(cfg, Build(cfg, body, extra));
  }

  /** What is read back from the merged body: the new essence, or else the same record as before. */
  lemma ReadBack(cfg: Config, codec: Codec, extra: seq<Path>, body: Value, progress: Value, merged: Value)
    requires codec.Lawful() && Readable(cfg, codec, body) && Clear(body, cfg.field) && Buildable(body, extra)
    requires IsFrameworks(ProgressOnly(cfg, MarkKey(cfg.key, body)), cfg.field, progress)
    requires merged == MergePatch(body, FinalPatch(cfg, codec, body, extra, progress)) && Shaped(merged)
    ensures Fetched(codec, Annotations(merged), DiffBaseKeys(cfg, body)) ==
              if LastSeen(cfg, codec, body) == Some(EssenceOf(cfg, body, extra))
              then Fetched(codec, Annotations(body), DiffBaseKeys(cfg, body))
              else Some(EssenceOf(cfg, body, extra))
  {
    var name, now, keys := MarkKey(cfg.key, body), EssenceOf(cfg, body, extra), DiffBaseKeys(cfg, body);
    var patch := FinalPatch(cfg, codec, body, extra, progress);
    StoredIsFrameworks(cfg, name, body, progress, codec.encode(now));
    if LastSeen(cfg, codec, body) == Some(now) {
      MergedIsAlike(ProgressOnly(cfg, name), cfg.field, body, patch);
      FetchedSame(codec, Annotations(merged), Annotations(body), keys);
    } else {
      MergedIsAlike(OwnWrites(cfg, name), cfg.field, body, patch);
      FetchedStored(codec, Annotations(merged), keys, now);
    }
  }

  lemma {:induction false} NothingFetched(codec: Codec, annotations: map<string, Value>, keys: seq<string>)
    requires forall key :: key in keys ==> key !in annotations
    ensures Fetched(codec, annotations, keys) == None
    decreases |keys|
  {
    if keys != [] {
      assert keys[0] in keys;
      NothingFetched(codec, annotations, keys[1..]);
    }
  }

  function NewObject(spec: Value): Value { Obj(map["spec" := spec]) }

  lemma NewObjectIsPlain(cfg: Config, codec: Codec, spec: Value)
    requires cfg.Valid()
    ensures var body := NewObject(spec);
            && Buildable(body, []) && Clear(body, cfg.field) && Readable(cfg, codec, body) && !DeletionIsOngoing(body)
            && Meta(body) == map[] && Annotations(body) == map[] && LastSeen(cfg, codec, body) == None
    ensures forall own: string -> bool :: IsFrameworks(own, cfg.field, EMPTY)
  {
    var body := NewObject(spec);
    assert "spec"[1] != "status"[1] && "spec"[0] != "metadata"[0];
    assert "metadata" !in body.members && "status" !in body.members;
    NothingFetched(codec, Annotations(body), DiffBaseKeys(cfg, body));
    ClearMeansAgree(EMPTY, cfg.field[1..]);
    NotDeleted(body);
  }

  lemma PatchedMetadata(own: string -> bool, field: Path, body: Value, patch: Value)
    requires |field| > 1 && field[0] == "status" && Shaped(body) && Clear(body, field)
      && Meta(body) - {"annotations"} == map[]
    requires IsFrameworks(own, field, patch)
    ensures Shaped(MergePatch(body, patch)) && Meta(MergePatch(body, patch)) - {"annotations"} == map[]
  {
    MergedIsAlike(own, field, body, patch);
    var meta := Meta(MergePatch(body, patch)) - {"annotations"};
    assert meta - {} == meta && Meta(body) - {"annotations"} - {} == map[];
  }

  lemma MergedIsPlain(cfg: Config, codec: Codec, body: Value)
    requires Readable(cfg, codec, body) && Buildable(body, []) && Clear(body, cfg.field)
    requires Meta(body) - {"annotations"} == map[] && LastSeen(cfg, codec, body) == None
    ensures IsFrameworks(ProgressOnly(cfg, MarkKey(cfg.key, body)), cfg.field, EMPTY)
    ensures var after := MergePatch(body, FinalPatch(cfg, codec, body, [], EMPTY));
            Shaped(after) && !DeletionIsOngoing(after)
  {
    ClearMeansAgree(EMPTY, cfg.field[1..]);
    var name, patch := MarkKey(cfg.key, body), FinalPatch(cfg, codec, body, [], EMPTY);
    StoredIsFrameworks(cfg, name, body, EMPTY, codec.encode(EssenceOf(cfg, body, [])));
    PatchedMetadata(OwnWrites(cfg, name), cfg.field, body, patch);
    NotDeleted(MergePatch(body, patch));
  }

  /** For example, a new object with any specification is created for the operator only once:
      after its first cycle, there is nothing to do. */
  lemma NewObjectSettles(
    cfg: Config, codec: Codec, volatile: set<string>, spec: Value, kind: EventType, finalizer: string
  )
    requires Prefixed(cfg) && IsVolatile(volatile) && codec.Lawful() && kind != DELETED
    ensures var body := NewObject(spec);
            && Buildable(body, []) && Clear(body, cfg.field) && Readable(cfg, codec, body)
            && DetectReason(kind, body, finalizer, LastSeen(cfg, codec, body), {}, false) == CREATE
            && var after := MergePatch(body, FinalPatch(cfg, codec, body, [], EMPTY));
               && Buildable(after, []) && Readable(cfg, codec, after) && LastSeen(cfg, codec, after).Some?
               && Clear(after, cfg.field)
               && DetectReason(kind, after, finalizer, LastSeen(cfg, codec, after),
                               Diff(LastSeen(cfg, codec, after).value, EssenceOf(cfg, after, [])), false) == NOOP
  {
    var body := NewObject(spec);
    NewObjectIsPlain(cfg, codec, spec);
    MergedIsPlain(cfg, codec, body);
    NoSelfTriggering(cfg, codec, [], volatile, body, EMPTY,
                     MergePatch(body, FinalPatch(cfg, codec, body, [], EMPTY)), kind, finalizer);
  }

  lemma NotDeleted(body: Value)
    requires Shaped(body) && Meta(body) - {"annotations"} == map[]
    ensures !DeletionIsOngoing(body)
  {
    var path := ["metadata", "deletionTimestamp"];
    assert path[1..] == ["deletionTimestamp"];
    assert "annotations"[0] != "deletionTimestamp"[0];
    assert "deletionTimestamp" in Meta(body) <==> "deletionTimestamp" in Meta(body) - {"annotations"};
    if "metadata" in body.members { assert Resolve(body, path) == Resolve(body.members["metadata"], path[1..]); }
  }

  /** The configuration of an operator with its own prefixes, which are not of the framework's domain. */
  function Branded(digest: string -> string): Config {
    Config(Naming("a.b", false, digest), "k", [], Naming("c.d", false, digest), ["status", "kopf"])
  }

  function Annotated(): Value {
    Obj(map["metadata" := Obj(map["annotations" := Obj(map["a.b/x" := Scalar(Text("1"))])])])
  }

  lemma BrandedIsPlain(codec: Codec, digest: string -> string)
    ensures var cfg, body := Branded(digest), Annotated();
            && Prefixed(cfg) && Shaped(body) && Buildable(body, []) && Clear(body, cfg.field)
            && Annotations(body) == map["a.b/x" := Scalar(Text("1"))]
            && Readable(cfg, codec, body) && LastSeen(cfg, codec, body) == None
            && MarkKey(cfg.key, body) == "k" && cfg.diffbase.Keys("k") == ["a.b/k"]
  {
    var cfg, body := Branded(digest), Annotated();
    assert "status"[0] != "metadata"[0] && "status" !in body.members;
    assert "annotations"[0] != "ownerReferences"[0];
    assert "kind"[0] != "metadata"[0];
    TwoSteps(body, "metadata", "ownerReferences");
    assert ResolveOr(body, ["metadata", "ownerReferences"], List([])) == List([]);
    assert SafeKey("k") == "k";
    assert cfg.diffbase.V2Key("k") == "a.b" + "/" + "k" + "" == "a.b/k";
    assert "a.b/k"[4] != "a.b/x"[4];
    NothingFetched(codec, Annotations(body), cfg.diffbase.Keys("k"));
  }

  /** For example, somebody's annotation `a.b/x` is under the very prefix of the diff-base of the operator:
      it is essential until the operator stores its own marker there; that storing is then handled as an update. */
  lemma OwnWriteIsUpdate(codec: Codec, digest: string -> string, kind: EventType, finalizer: string)
    requires codec.Lawful() && kind != DELETED
    ensures var cfg, body := Branded(digest), Annotated();
            && Readable(cfg, codec, body) && Buildable(body, []) && Clear(body, cfg.field)
            && var after := MergePatch(body, FinalPatch(cfg, codec, body, [], EMPTY));
               && Readable(cfg, codec, after) && Buildable(after, []) && Clear(after, cfg.field)
               && ReasonAfter(cfg, codec, [], after, kind, finalizer) == UPDATE
  {
    var cfg, body := Branded(digest), Annotated();
    BrandedIsPlain(codec, digest);
    MergedIsPlain(cfg, codec, body);
    NothingIsMarked(cfg);
    var after := MergePatch(body, FinalPatch(cfg, codec, body, [], EMPTY));
    SelfTriggeringExactly(cfg, codec, [], {}, body, EMPTY, after, kind, finalizer);
  }

  lemma NothingIsMarked(cfg: Config)
    requires cfg.diffbase.prefix == "a.b" && cfg.progress.prefix == "c.d" && cfg.diffbase.Keys("k") == ["a.b/k"]
    requires Shaped(Annotated()) && Annotations(Annotated()) == map["a.b/x" := Scalar(Text("1"))]
      && MarkKey(cfg.key, Annotated()) == "k"
    ensures !RevealsNothing(cfg, Annotated())
  {
    assert "kopf."[0] != "a.b"[0];
    NotOwn(cfg);
  }

  lemma NotOwn(cfg: Config)
    requires cfg.diffbase.prefix == "a.b" && cfg.progress.prefix == "c.d" && cfg.diffbase.Keys("k") == ["a.b/k"]
    ensures !Own(cfg, "k", "a.b/x") && "a.b/x" != LAST_APPLIED && "a.b" + "/" <= "a.b/x"
  {
    var key := "a.b/x";
    assert key == "a.b" + "/" + "x";
    assert "a.b/k"[4] != key[4];
    assert cfg.diffbase.MarkerKey() == "a.b/" + MARKER && |MARKER| == 12;
    assert |cfg.diffbase.MarkerKey()| != |key|;
    assert ("c.d" + "/")[0] != key[0];
    assert |LAST_APPLIED| != |key|;
  }
}
