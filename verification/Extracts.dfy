/** What the essence of an object has, value by value: kopf/_cogs/configs/diffbase.py with the `clear` of
    kopf/_cogs/configs/progress.py. */
module Extracts {
  import opened Wrappers
  import opened Trees
  import opened Conventions
  import opened Agreement
  import opened Essences
  import opened Blindness
  import opened SelfTriggering
  import Cycles
  import Progress
  import MergePatches

  // ----- One step -----

  lemma {:induction false} PartHasSameLeaves(e: Value, b: Value, q: Path)
    requires PartOf(e, b)
    ensures LeafAt(e, q).Some? ==> LeafAt(e, q) == LeafAt(b, q)
    decreases q
  {
    if q != [] && e.Obj? && q[0] in e.members {
      PartHasSameLeaves(e.members[q[0]], b.members[q[0]], q[1..]);
    }
  }

  lemma {:induction false} LeafUnder(v: Value, path: Path, q: Path)
    requires path <= q
    ensures match Resolve(v, path)
            case Some(x) => LeafAt(x, q[|path|..]) == LeafAt(v, q)
            case None => LeafAt(v, q).None?
    decreases path
  {
    if path != [] && v.Obj? && path[0] in v.members {
      LeafUnder(v.members[path[0]], path[1..], q[1..]);
      assert q[1..][|path[1..]|..] == q[|path|..];
    }
  }

  lemma LeafOfPicked(src: Value, dst: Value, path: Path, q: Path)
    requires Clear(src, path) && PartOf(dst, src) && dst.Obj?
    ensures LeafAt(Picked(src, dst, path), q) == if path <= q then LeafAt(src, q) else LeafAt(dst, q)
  {
    if path <= q { LeafUnder(src, path, q); }
    match Resolve(src, path)
    case None => PartHasSameLeaves(dst, src, q);
    case Some(x) =>
      PartIsClear(dst, src, path);
      LeafAfterEnsure(dst, path, x, q);
  }

  lemma {:induction false} NoLeafBelowLeaf(v: Value, path: Path, q: Path)
    requires !Clear(v, path) && path <= q
    ensures LeafAt(v, q).None?
    decreases path
  {
    if v.Obj? { NoLeafBelowLeaf(v.members[path[0]], path[1..], q[1..]); }
  }

  lemma LeafOfRemoval(e: Value, path: Path, q: Path)
    requires path != []
    ensures LeafAt(RemovedOrKept(e, path), q) == if path <= q then None else LeafAt(e, q)
  {
    if Clear(e, path) {
      LeafAfterRemove(e, path, q);
    } else if path <= q {
      NoLeafBelowLeaf(e, path, q);
    }
  }

  /** The path is at or under any of these annotations. */
  predicate InAnnotations(q: Path, keys: set<string>) { ANNOTATIONS <= q && |q| > 2 && q[2] in keys }

  lemma LeafOfAnnotations(v: Value, q: Path)
    requires Shaped(v) && ANNOTATIONS <= q
    ensures LeafAt(v, q) == LeafAt(Obj(Annotations(v)), q[2..])
  {
    assert q[0] == "metadata" && q[1] == "annotations" && q[1..][0] == "annotations";
    assert q[1..][1..] == q[2..];
    var meta := Child(v, "metadata");
    assert LeafAt(v, q) == LeafAt(meta, q[1..]);
    assert LeafAt(meta, q[1..]) == LeafAt(Child(meta, "annotations"), q[2..]);
  }

  lemma LeafWithoutAnnotations(e: Value, keys: set<string>, q: Path)
    requires Shaped(e)
    ensures LeafAt(WithoutAnnotations(e, keys), q) == if InAnnotations(q, keys) then None else LeafAt(e, q)
  {
    var r := WithoutAnnotations(e, keys);
    if ANNOTATIONS <= q {
      LeafOfAnnotations(e, q);
      LeafOfAnnotations(r, q);
      if |q| > 2 { assert q[2..][0] == q[2]; }
    } else if |q| > 1 && q[0] == "metadata" {
      assert q[..2] == ["metadata", q[1]];
      assert q[1] != "annotations";
    }
  }

  lemma LeafOfMeta(v: Value, q: Path)
    requires Shaped(v) && q != [] && q[0] == "metadata"
    ensures LeafAt(v, q) == LeafAt(Obj(Meta(v)), q[1..])
  {
    assert LeafAt(EMPTY, q[1..]).None?;
  }

  /** Members of a dict without one of them. */
  lemma LeafAside(m: map<string, Value>, w: map<string, Value>, key: string, q: Path)
    requires m - {key} == w - {key} && q != [] && q[0] != key
    ensures LeafAt(Obj(m), q) == LeafAt(Obj(w), q)
  {
    assert q[0] in m <==> q[0] in m - {key};
    assert q[0] in w <==> q[0] in w - {key};
    assert q[0] in m ==> (m - {key})[q[0]] == m[q[0]] && (w - {key})[q[0]] == w[q[0]];
  }

  /** Emptied stanzas have no values, except for the labels that are not labels at all. */
  lemma LeafWithoutEmptyStanzas(e: Value, q: Path)
    requires Shaped(e)
    ensures LeafAt(WithoutEmptyStanzas(e), q)
            == if q == LABELS && LeafAt(e, q).Some? && Falsy(LeafAt(e, q).value) then None else LeafAt(e, q)
  {
    var r := WithoutEmptyStanzas(e);
    StanzaParts(e);
    if q == [] {
    } else if q[0] == "metadata" {
      LeafOfMeta(e, q);
      LeafOfMeta(r, q);
      if |q| > 1 && q[1] == "annotations" {
        assert q[..2] == ANNOTATIONS;
        LeafOfAnnotations(e, q);
        LeafOfAnnotations(r, q);
      } else if |q| > 1 {
        LeafOfCleanMeta(e, q[1..]);
        assert q == ["metadata"] + q[1..];
        assert q[1..] == ["labels"] <==> q == LABELS;
      }
    } else if q[0] == "status" {
      assert LeafAt(EMPTY, q[1..]).None?;
      assert LeafAt(r, q) == LeafAt(Child(r, "status"), q[1..]);
      assert LeafAt(e, q) == LeafAt(Child(e, "status"), q[1..]);
    } else {
      LeafAsideOfTwo(r.members, e.members, q);
    }
  }

  lemma LeafAsideOfTwo(m: map<string, Value>, w: map<string, Value>, q: Path)
    requires m - {"metadata", "status"} == w - {"metadata", "status"} && q != [] && q[0] !in {"metadata", "status"}
    ensures LeafAt(Obj(m), q) == LeafAt(Obj(w), q)
  {
    var aside := {"metadata", "status"};
    assert q[0] in m <==> q[0] in m - aside;
    assert q[0] in w <==> q[0] in w - aside;
    assert q[0] in m ==> (m - aside)[q[0]] == m[q[0]] && (w - aside)[q[0]] == w[q[0]];
  }

  lemma LeafOfCleanMeta(e: Value, q: Path)
    requires Shaped(e) && q != [] && q[0] != "annotations"
    ensures LeafAt(Obj(Meta(WithoutEmptyStanzas(e))), q)
            == if q == ["labels"] && "labels" in Meta(e) && !Meta(e)["labels"].Obj? && Falsy(Meta(e)["labels"])
               then None
               else LeafAt(Obj(Meta(e)), q)
  {
    StanzaParts(e);
    var m := Meta(e) - {"annotations"};
    var n := DropIfFalsy(m, "labels");
    LeafAside(Meta(WithoutEmptyStanzas(e)), n, "annotations", q);
    LeafAside(Meta(e), m, "annotations", q);
    if q[0] == "labels" && "labels" in m && Falsy(m["labels"]) && |q| > 1 {
      assert LeafAt(m["labels"], q[1..]).None?;
    }
  }

  // ----- All the steps -----

  predicate InAny(q: Path, paths: seq<Path>) {
    exists i :: 0 <= i < |paths| && paths[i] <= q
  }

  lemma InFirstOrRest(q: Path, paths: seq<Path>)
    requires paths != []
    ensures InAny(q, paths) <==> paths[0] <= q || InAny(q, paths[1..])
  {
    if i :| 0 <= i < |paths| && paths[i] <= q {
      assert i > 0 ==> paths[1..][i - 1] <= q;
    }
    if i :| 0 <= i < |paths[1..]| && paths[1..][i] <= q {
      assert paths[i + 1] <= q;
    }
  }

  lemma {:induction false} LeafOfPickedAll(src: Value, dst: Value, paths: seq<Path>, q: Path)
    requires PartOf(dst, src) && dst.Obj? && src.Obj? && AllClear(src, paths)
    ensures LeafAt(PickedAll(src, dst, paths), q) == if InAny(q, paths) then LeafAt(src, q) else LeafAt(dst, q)
    decreases |paths|
  {
    if paths != [] {
      InFirstOrRest(q, paths);
      LeafOfPicked(src, dst, paths[0], q);
      LeafOfPickedAll(src, Picked(src, dst, paths[0]), paths[1..], q);
    }
  }

  lemma {:induction false} LeafWithoutFields(e: Value, paths: seq<Path>, q: Path)
    requires e.Obj? && Proper(paths)
    ensures LeafAt(WithoutFields(e, paths), q) == if InAny(q, paths) then None else LeafAt(e, q)
    decreases |paths|
  {
    if paths != [] {
      InFirstOrRest(q, paths);
      LeafOfRemoval(e, paths[0], q);
      LeafWithoutFields(RemovedOrKept(e, paths[0]), paths[1..], q);
    }
  }

  /** Everything but the system fields, and the labels and the annotations that are not operators' own. */
  predicate IsContent(body: Value, q: Path)
    requires Shaped(body)
  {
    && q != []
    && (|| q[0] !in SYSTEM
        || LABELS <= q
        || (ANNOTATIONS <= q && |q| > 2 && !Dropped(q[2], Annotations(body).Keys)))
  }

  lemma LeafOfContent(body: Value, q: Path)
    requires Shaped(body)
    ensures LeafAt(Content(body), q) == if IsContent(body, q) then LeafAt(body, q) else None
  {
    var selected := Selected(body);
    SelectedParts(body);
    LeafOfSelected(body, q);
    LeafWithoutAnnotations(selected, DroppedKeys(Annotations(selected).Keys), q);
    if ANNOTATIONS <= q { LeafOfAnnotations(body, q); }
    if ANNOTATIONS <= q && |q| > 2 && LeafAt(body, q).Some? { assert q[2..][0] == q[2]; }
  }

  lemma LeafOfSelected(body: Value, q: Path)
    requires Shaped(body)
    ensures LeafAt(Selected(body), q)
            == if q != [] && (q[0] !in SYSTEM || LABELS <= q || ANNOTATIONS <= q) then LeafAt(body, q) else None
  {
    var stripped := Obj(body.members - SYSTEM);
    assert PartOf(stripped, body) by { PartOfItself(body); }
    var labelled := Picked(body, stripped, LABELS);
    assert LABELS[1..] == ["labels"] && ANNOTATIONS[1..] == ["annotations"];
    LeafOfPicked(body, stripped, LABELS, q);
    LeafOfPicked(body, labelled, ANNOTATIONS, q);
    if q != [] {
      assert q[0] in stripped.members <==> q[0] in body.members && q[0] !in SYSTEM;
    }
  }

  /** The path holds something essential: it is of the content, or is asked for, and is neither ignored nor written by
      the operator itself. */
  predicate IsEssential(cfg: Config, body: Value, extra: seq<Path>, q: Path)
    requires cfg.Valid() && Shaped(body)
  {
    && (IsContent(body, q) || InAny(q, extra))
    && !InAny(q, cfg.ignored)
    && !(ANNOTATIONS <= q && |q| > 2 && (q[2] in DiffBaseKeys(cfg, body) || cfg.progress.prefix + "/" <= q[2]))
    && !(cfg.field <= q)
  }

  /** There can be something else than a dict instead of the labels; it is dropped if it is empty. */
  function CleanLeaf(q: Path, leaf: Option<Value>): Option<Value> {
    if q == LABELS && leaf.Some? && Falsy(leaf.value) then None else leaf
  }

  lemma LeafOfBuilt(cfg: Config, body: Value, extra: seq<Path>, q: Path)
    requires cfg.Valid() && Buildable(body, extra)
    ensures LeafAt(Build(cfg, body, extra), q)
            == if (IsContent(body, q) || InAny(q, extra)) && !InAny(q, cfg.ignored)
                  && !InAnnotations(q, set key | key in DiffBaseKeys(cfg, body)) then CleanLeaf(q, LeafAt(body, q))
               else None
  {
    var picked := PickedAll(body, Content(body), extra);
    PartIsShaped(picked, body);
    var cleaned := WithoutEmptyStanzas(picked);
    var ignoring := WithoutFields(cleaned, cfg.ignored);
    PartIsShaped(ignoring, cleaned);
    var own := set key | key in DiffBaseKeys(cfg, body);
    LeafOfContent(body, q);
    LeafOfPickedAll(body, Content(body), extra, q);
    LeafWithoutEmptyStanzas(picked, q);
    LeafWithoutFields(cleaned, cfg.ignored, q);
    LeafWithoutAnnotations(ignoring, own, q);
    LeafWithoutEmptyStanzas(WithoutAnnotations(ignoring, own), q);
  }

  /** Clearing takes away what the operator writes of its progress, and nothing else. */
  lemma LeafOfCleared(cfg: Config, e: Value, q: Path)
    requires cfg.Valid() && Shaped(e) && Clear(e, cfg.field)
    ensures LeafAt(Cleared(cfg, e), q)
            == if cfg.field <= q || (ANNOTATIONS <= q && |q| > 2 && cfg.progress.prefix + "/" <= q[2]) then None
               else CleanLeaf(q, LeafAt(e, q))
  {
    var own := ProgressKeys(cfg, Annotations(e));
    var noAnnotations := WithoutEmptyStanzas(WithoutAnnotations(e, own));
    PartOfItself(e);
    CleaningKeepsPart(e, own, e);
    PartIsClear(noAnnotations, e, cfg.field);
    var noStatus := Removed(noAnnotations, cfg.field);
    PartWithoutField(noAnnotations, e, cfg.field);
    PartIsShaped(noStatus, e);
    LeafWithoutAnnotations(e, own, q);
    LeafWithoutEmptyStanzas(WithoutAnnotations(e, own), q);
    LeafAfterRemove(noAnnotations, cfg.field, q);
    LeafWithoutEmptyStanzas(noStatus, q);
    if ANNOTATIONS <= q && |q| > 2 {
      LeafOfAnnotations(e, q);
      assert q[2..][0] == q[2];
    }
  }

  /** The essence has exactly the essential values of the body, as they are there. */
  lemma EssenceExactly(cfg: Config, body: Value, extra: seq<Path>, q: Path)
    requires cfg.Valid() && Buildable(body, extra) && Clear(body, cfg.field)
    ensures LeafAt(EssenceOf(cfg, body, extra), q)
            == if IsEssential(cfg, body, extra, q) then CleanLeaf(q, LeafAt(body, q)) else None
  {
    var built := Build(cfg, body, extra);
    PartIsClear(built, body, cfg.field);
    LeafOfBuilt(cfg, body, extra, q);
    LeafOfCleared(cfg, built, q);
  }

  /** The last-seen state is whatever was stored, but without the operator's own progress, so that this is never taken
      for a change. */
  lemma LastSeenIsCleared(cfg: Config, codec: Cycles.Codec, body: Value, q: Path)
    requires Cycles.Readable(cfg, codec, body)
    ensures var stored := Cycles.Fetched(codec, Annotations(body), DiffBaseKeys(cfg, body));
            var was := Cycles.LastSeen(cfg, codec, body);
            && (was.Some? <==> stored.Some?)
            && (was.Some? ==>
                  LeafAt(was.value, q)
                  == if cfg.field <= q || (ANNOTATIONS <= q && |q| > 2 && cfg.progress.prefix + "/" <= q[2]) then None
                     else CleanLeaf(q, LeafAt(stored.value, q)))
  {
    var stored := Cycles.Fetched(codec, Annotations(body), DiffBaseKeys(cfg, body));
    if stored.Some? { LeafOfCleared(cfg, stored.value, q); }
  }

  // ----- What the others see -----

  predicate IsKnown(prefix: string) { prefix == KNOWN_PREFIX || EndsWith(prefix, "." + KNOWN_PREFIX) }

  /** Under this prefix, the marks are all the keys if it is known, or the marker. */
  lemma MarksUnderPrefix(naming: Naming, keys: set<string>)
    requires '/' !in naming.prefix
    ensures naming.prefix in MarkedPrefixes(keys)
            <==> || naming.MarkerKey() in keys
                 || (IsKnown(naming.prefix) &&
                     exists key :: key in keys && '/' in key && PrefixOf(key) == naming.prefix)
  {
    NameUnderPrefix(naming.prefix, MARKER);
    assert Marks(naming.MarkerKey());
    forall key | key in keys && Marks(key) && PrefixOf(key) == naming.prefix && !IsKnown(naming.prefix)
      ensures key == naming.MarkerKey()
    {
      assert key == PrefixOf(key) + "/" + NameOf(key);
    }
  }

  lemma DroppedUnderPrefix(naming: Naming, key: string, keys: set<string>)
    requires '/' !in naming.prefix && key in keys && naming.prefix + "/" <= key
    ensures Dropped(key, keys) <==> key == LAST_APPLIED || IsKnown(naming.prefix) || naming.MarkerKey() in keys
  {
    KeyUnderPrefix(key, naming.prefix);
    MarksUnderPrefix(naming, keys);
    forall prefix | prefix in MarkedPrefixes(keys) && prefix + "/" <= key ensures prefix == naming.prefix {
      var mark :| mark in keys && Marks(mark) && PrefixOf(mark) == prefix;
      KeyUnderPrefix(key, prefix);
    }
  }

  /** What is stored, is there after the merge, with the marker if it is needed. */
  lemma StoredIsThere(naming: Naming, name: string, body: Value, patch: Value, text: string)
    requires Shaped(body) && Shaped(patch) && naming.MarkerKey() !in Annotations(patch)
    ensures var merged := MergePatches.MergePatch(body, Cycles.Stored(naming, name, body, patch, text));
            && Shaped(merged) && (forall key :: key in naming.Keys(name) ==> key in Annotations(merged))
            && (naming.MarkerKey() in Annotations(merged)
                <==> naming.NeedsMarker() || naming.MarkerKey() in Annotations(body)
                     || naming.MarkerKey() in naming.Keys(name))
  {
    var stored := Cycles.Stored(naming, name, body, patch, text);
    Progress.MergedIsShaped(body, stored);
    Progress.AnnotationOfMerged(body, stored, naming.MarkerKey());
    forall key | key in naming.Keys(name) ensures key in Annotations(MergePatches.MergePatch(body, stored)) {
      Progress.AnnotationOfMerged(body, stored, key);
    }
  }

  /** Other operators do not take what was stored for an essential change, exactly if the prefix is of the framework's
      own domain, or is marked; and it is always marked, unless it begins as if it were of that domain. */
  lemma OwnKeysAreSeen(naming: Naming, name: string, body: Value, patch: Value, text: string, key: string)
    requires Shaped(body) && Shaped(patch) && '/' !in naming.prefix && naming.prefix != ""
    requires naming.MarkerKey() !in Annotations(patch) && key in naming.Keys(name)
    ensures var merged := MergePatches.MergePatch(body, Cycles.Stored(naming, name, body, patch, text));
            && Shaped(merged) && key in Annotations(merged)
            && (Dropped(key, Annotations(merged).Keys)
                <==> || IsKnown(naming.prefix) || !("kopf." <= naming.prefix) || key == LAST_APPLIED
                     || naming.MarkerKey() in Annotations(body) || naming.MarkerKey() in naming.Keys(name))
  {
    StoredIsThere(naming, name, body, patch, text);
    var merged := MergePatches.MergePatch(body, Cycles.Stored(naming, name, body, patch, text));
    DroppedUnderPrefix(naming, key, Annotations(merged).Keys);
  }
}
