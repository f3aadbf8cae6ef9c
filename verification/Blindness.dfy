/** The essence does not depend on what the framework itself writes into the object: its own annotations, a field of the
    status, and the metadata that the server changes with every write.

    Two bodies that differ only in these are alike. Each step of the extraction of the essence in
    kopf/_cogs/configs/diffbase.py is followed for two alike bodies side by side: the content, the extra fields put
    back, the ignored fields, the annotations taken away, and the emptied stanzas. */
module Blindness {
  import opened Wrappers
  import opened Trees
  import opened Conventions
  import opened Agreement
  import opened Essences

  /** The annotations that the framework writes; `name` is the diff-base key with the object's mark. */
  predicate Own(cfg: Config, name: string, key: string) {
    || key in cfg.diffbase.Keys(name)
    || cfg.progress.prefix + "/" <= key
    || (cfg.diffbase.NeedsMarker() && key == cfg.diffbase.MarkerKey())
  }

  function Foreign(own: string -> bool, annotations: map<string, Value>): map<string, Value> {
    map key | key in annotations && !own(key) :: annotations[key]
  }

  /** The trees differ only in the given annotations, at the given field of the status, and in the volatile metadata. */
  predicate Alike(own: string -> bool, field: Path, volatile: set<string>, v: Value, w: Value)
    requires |field| > 1
  {
    && Shaped(v) && Shaped(w)
    && v.members - {"metadata", "status"} == w.members - {"metadata", "status"}
    && Meta(v) - {"annotations"} - volatile == Meta(w) - {"annotations"} - volatile
    && Foreign(own, Annotations(v)) == Foreign(own, Annotations(w))
    && AgreeOff(Child(v, "status"), Child(w, "status"), field[1..])
  }

  predicate IsVolatile(volatile: set<string>) {
    volatile !! {"annotations", "labels", "ownerReferences"}
  }

  /** A requested field that is not a framework's annotation, nor covers all the annotations, nor is volatile.
      It may be any other field, including those above or under the progress stanza. */
  predicate Harmless(own: string -> bool, volatile: set<string>, path: Path) {
    && path != [] && path != ["metadata"] && path != ANNOTATIONS
    && (|path| > 1 && path[0] == "metadata" ==> path[1] !in volatile)
    && (|path| > 2 && path[..2] == ANNOTATIONS ==> !own(path[2]))
  }

  // ----- The parts of the trees -----

  lemma AlikeAgainst(own: string -> bool, field: Path, volatile: set<string>, v: Value, w: Value, key: string)
    requires |field| > 1 && Alike(own, field, volatile, v, w)
    ensures key !in {"metadata", "status"} ==>
              (key in v.members <==> key in w.members) && Child(v, key) == Child(w, key)
    ensures key !in volatile && key != "annotations" ==>
              (key in Meta(v) <==> key in Meta(w)) && Child(Obj(Meta(v)), key) == Child(Obj(Meta(w)), key)
    ensures !own(key) ==>
              (key in Annotations(v) <==> key in Annotations(w)) &&
              Child(Obj(Annotations(v)), key) == Child(Obj(Annotations(w)), key)
  {
    assert key in v.members - {"metadata", "status"} <==> key in w.members - {"metadata", "status"};
    assert key in Meta(v) - {"annotations"} - volatile <==> key in Meta(w) - {"annotations"} - volatile;
    assert key in Foreign(own, Annotations(v)) <==> key in Foreign(own, Annotations(w));
  }

  lemma TwoSteps(v: Value, a: string, b: string)
    requires v.Obj? && Child(v, a).Obj?
    ensures Resolve(v, [a, b]) ==
              if b in Child(v, a).members then Some(Child(v, a).members[b]) else None
    ensures Clear(v, [a, b])
    ensures forall x :: Ensured(v, [a, b], x) == Obj(v.members[a := Obj(Child(v, a).members[b := x])])
  {
    assert [a, b][1..] == [b] && [b][1..] == [];
    if a in v.members && b in v.members[a].members {
      assert Resolve(v.members[a], [b]) == Resolve(v.members[a].members[b], []);
    }
    forall x ensures Ensured(v, [a, b], x) == Obj(v.members[a := Obj(Child(v, a).members[b := x])]) {
      assert Ensured(Child(v, a), [b], x) == Obj(Child(v, a).members[b := Ensured(Child(Child(v, a), b), [], x)]);
    }
  }

  lemma SelectedParts(body: Value)
    requires Shaped(body)
    ensures Selected(body).members - {"metadata", "status"} == body.members - SYSTEM
    ensures Meta(Selected(body)) - {"annotations"} == Meta(body) - (Meta(body).Keys - {"labels"})
    ensures Annotations(Selected(body)) == Annotations(body)
    ensures Child(Selected(body), "status") == EMPTY
  {
    var stripped := Obj(body.members - SYSTEM);
    assert PartOf(stripped, body) by { PartOfItself(body); }
    var labelled := Picked(body, stripped, LABELS);
    TwoSteps(body, "metadata", "labels");
    TwoSteps(body, "metadata", "annotations");
    TwoSteps(stripped, "metadata", "labels");
    assert Child(labelled, "metadata").members == Meta(body) - (Meta(body).Keys - {"labels"});
    TwoSteps(labelled, "metadata", "annotations");
  }

  // ----- The stages of the extraction -----

  lemma ContentIsAlike(
    wide: string -> bool, own: string -> bool, field: Path, volatile: set<string>, v: Value, w: Value
  )
    requires |field| > 1 && IsVolatile(volatile) && Alike(wide, field, volatile, v, w)
    requires SameSurvivors(wide, own, Annotations(v), Annotations(w))
    ensures Alike(own, field, {}, Content(v), Content(w))
  {
    SelectedParts(v);
    SelectedParts(w);
    assert v.members - SYSTEM == w.members - SYSTEM by {
      assert v.members - SYSTEM == (v.members - {"metadata", "status"}) - SYSTEM;
      assert w.members - SYSTEM == (w.members - {"metadata", "status"}) - SYSTEM;
    }
    assert Meta(Selected(v)) - {"annotations"} == Meta(Selected(w)) - {"annotations"} by {
      AlikeAgainst(wide, field, volatile, v, w, "labels");
    }
    ContentParts(v);
    ContentParts(w);
    SurvivorsAreAlike(wide, own, Annotations(v), Annotations(w));
    ClearMeansAgree(EMPTY, field[1..]);
  }

  /** Of all that the framework may write, only `own` can survive the detection of marks;
      and the detection has the same effect on the foreign annotations. */
  ghost predicate SameSurvivors(
    wide: string -> bool, own: string -> bool, a: map<string, Value>, b: map<string, Value>
  ) {
    && (forall key :: key in Survivors(a) ==> (own(key) <==> wide(key)))
    && (forall key :: key in Survivors(b) ==> (own(key) <==> wide(key)))
    && (forall key :: key in Foreign(wide, a) ==> (Dropped(key, a.Keys) <==> Dropped(key, b.Keys)))
  }

  lemma SurvivorsAreAlike(wide: string -> bool, own: string -> bool, a: map<string, Value>, b: map<string, Value>)
    requires Foreign(wide, a) == Foreign(wide, b) && SameSurvivors(wide, own, a, b)
    ensures Foreign(own, Survivors(a)) == Foreign(own, Survivors(b))
  {
    assert forall key :: key in Foreign(wide, a) <==> key in Foreign(wide, b);
    assert forall key :: key in Foreign(wide, a) ==> Foreign(wide, a)[key] == a[key] && Foreign(wide, b)[key] == b[key];
    assert forall key :: key in Foreign(own, Survivors(a)) <==> key in Foreign(wide, a) && !Dropped(key, a.Keys);
    assert forall key :: key in Foreign(own, Survivors(b)) <==> key in Foreign(wide, b) && !Dropped(key, b.Keys);
  }

  lemma ContentParts(body: Value)
    requires Shaped(body)
    ensures Content(body).members - {"metadata", "status"} == Selected(body).members - {"metadata", "status"}
    ensures Meta(Content(body)) - {"annotations"} == Meta(Selected(body)) - {"annotations"}
    ensures Annotations(Content(body)) == Survivors(Annotations(Selected(body)))
    ensures Child(Content(body), "status") == Child(Selected(body), "status")
  {
  }

  function Survivors(annotations: map<string, Value>): map<string, Value> {
    annotations - DroppedKeys(annotations.Keys)
  }

  function PickedPart(src: Value, dst: Value, path: Path): Value
    requires Clear(dst, path)
  {
    match Resolve(src, path)
    case None => dst
    case Some(x) => Ensured(dst, path, x)
  }

  lemma PickedThrough(v: Value, e: Value, path: Path)
    requires path != [] && Clear(v, path) && PartOf(e, v) && e.Obj?
    ensures Clear(Child(e, path[0]), path[1..])
    ensures Picked(v, e, path).members - {path[0]} == e.members - {path[0]}
    ensures |path| > 1 ==>
              Child(Picked(v, e, path), path[0]) == PickedPart(Child(v, path[0]), Child(e, path[0]), path[1..])
    ensures |path| == 1 ==> Child(Picked(v, e, path), path[0]) == Child(v, path[0])
  {
    PartIsClear(e, v, path);
    if |path| > 1 {
      assert Resolve(v, path) == Resolve(Child(v, path[0]), path[1..]);
    } else {
      assert path[1..] == [];
      if path[0] in v.members {
        assert Resolve(v, path) == Resolve(v.members[path[0]], []) == Some(v.members[path[0]]);
        assert Ensured(Child(e, path[0]), [], v.members[path[0]]) == v.members[path[0]];
      } else {
        assert Resolve(v, path).None? && path[0] !in e.members;
      }
    }
  }

  lemma MembersAside(m: map<string, Value>, w: map<string, Value>, key: string)
    requires m - {key} == w - {key} && key in {"metadata", "status"}
    ensures m - {"metadata", "status"} == w - {"metadata", "status"}
  {
    assert m - {"metadata", "status"} == (m - {key}) - {"metadata", "status"};
    assert w - {"metadata", "status"} == (w - {key}) - {"metadata", "status"};
  }

  lemma SameChild(m: map<string, Value>, w: map<string, Value>, key: string, other: string)
    requires m - {key} == w - {key} && key != other
    ensures Child(Obj(m), other) == Child(Obj(w), other)
  {
    assert other in m <==> other in m - {key};
    assert other in w <==> other in w - {key};
  }

  lemma PickedIsAlike(
    wide: string -> bool, own: string -> bool, field: Path, volatile: set<string>, v: Value, w: Value, e: Value,
    f: Value, path: Path
  )
    requires |field| > 1 && Alike(wide, field, volatile, v, w) && Alike(own, field, {}, e, f)
    requires PartOf(e, v) && PartOf(f, w) && Clear(v, path) && Clear(w, path)
    requires Harmless(wide, volatile, path) && forall key :: own(key) ==> wide(key)
    ensures Alike(own, field, {}, Picked(v, e, path), Picked(w, f, path))
  {
    var key, a, b := path[0], Picked(v, e, path), Picked(w, f, path);
    PartIsShaped(a, v);
    PartIsShaped(b, w);
    PickedThrough(v, e, path);
    PickedThrough(w, f, path);
    if key == "metadata" {
      SameChild(a.members, e.members, key, "status");
      SameChild(b.members, f.members, key, "status");
      MembersAside(a.members, e.members, key);
      MembersAside(b.members, f.members, key);
      PickedMetaIsAlike(wide, own, field, volatile, v, w, e, f, path[1..]);
    } else if key == "status" {
      SameChild(a.members, e.members, key, "metadata");
      SameChild(b.members, f.members, key, "metadata");
      MembersAside(a.members, e.members, key);
      MembersAside(b.members, f.members, key);
      PickedStatusAgrees(wide, own, field, volatile, v, w, e, f, path);
    } else {
      AlikeAgainst(wide, field, volatile, v, w, key);
      AlikeAgainst(own, field, {}, e, f, key);
      PartIsClear(e, v, path);
      PartIsClear(f, w, path);
      assert Resolve(v, path) == Resolve(w, path);
      PickedAside(v, w, e, f, path, {"metadata", "status"});
    }
  }

  lemma SameMetaAside(own: string -> bool, field: Path, e: Value, f: Value)
    requires |field| > 1 && Alike(own, field, {}, e, f)
    ensures Child(e, "metadata").members - {"annotations"} == Child(f, "metadata").members - {"annotations"}
  {
    assert Meta(e) - {"annotations"} - {} == Meta(e) - {"annotations"};
    assert Meta(f) - {"annotations"} - {} == Meta(f) - {"annotations"};
  }

  /** The picking inside of the metadata: of a field other than the annotations, or of one foreign annotation. */
  lemma PickedMetaIsAlike(
    wide: string -> bool, own: string -> bool, field: Path, volatile: set<string>, v: Value, w: Value, e: Value,
    f: Value, rest: Path
  )
    requires |field| > 1 && Alike(wide, field, volatile, v, w) && Alike(own, field, {}, e, f)
    requires rest != [] && Clear(Child(e, "metadata"), rest) && Clear(Child(f, "metadata"), rest)
    requires Harmless(wide, volatile, ["metadata"] + rest) && forall key :: own(key) ==> wide(key)
    ensures var a := PickedPart(Child(v, "metadata"), Child(e, "metadata"), rest);
            var b := PickedPart(Child(w, "metadata"), Child(f, "metadata"), rest);
            && a.Obj? && b.Obj? && Child(a, "annotations").Obj? && Child(b, "annotations").Obj?
            && a.members - {"annotations"} == b.members - {"annotations"}
            && Foreign(own, Child(a, "annotations").members) == Foreign(own, Child(b, "annotations").members)
  {
    if rest[0] != "annotations" {
      var key, mv, mw, me, mf :=
        rest[0], Child(v, "metadata"), Child(w, "metadata"), Child(e, "metadata"), Child(f, "metadata");
      AlikeAgainst(wide, field, volatile, v, w, key);
      AlikeAgainst(own, field, {}, e, f, key);
      SameMetaAside(own, field, e, f);
      assert Resolve(mv, rest) == Resolve(mw, rest);
      PickedAside(mv, mw, me, mf, rest, {"annotations"});
    } else {
      PickedOneAnnotation(wide, own, field, volatile, v, w, e, f, rest);
    }
  }

  lemma PickedOneAnnotation(
    wide: string -> bool, own: string -> bool, field: Path, volatile: set<string>, v: Value, w: Value, e: Value,
    f: Value, rest: Path
  )
    requires |field| > 1 && Alike(wide, field, volatile, v, w) && Alike(own, field, {}, e, f)
    requires rest != [] && Clear(Child(e, "metadata"), rest) && Clear(Child(f, "metadata"), rest)
    requires Harmless(wide, volatile, ["metadata"] + rest) && forall key :: own(key) ==> wide(key)
    requires rest[0] == "annotations"
    ensures var a := PickedPart(Child(v, "metadata"), Child(e, "metadata"), rest);
            var b := PickedPart(Child(w, "metadata"), Child(f, "metadata"), rest);
            && a.Obj? && b.Obj? && Child(a, "annotations").Obj? && Child(b, "annotations").Obj?
            && a.members - {"annotations"} == b.members - {"annotations"}
            && Foreign(own, Child(a, "annotations").members) == Foreign(own, Child(b, "annotations").members)
  {
    var key, mv, mw, me, mf :=
      rest[0], Child(v, "metadata"), Child(w, "metadata"), Child(e, "metadata"), Child(f, "metadata");
    assert (["metadata"] + rest)[..2] == ANNOTATIONS && ["metadata"] + rest != ANNOTATIONS;
    var leaf, av, aw, ae, af := rest[1..], Child(mv, key), Child(mw, key), Child(me, key), Child(mf, key);
    assert leaf[0] == (["metadata"] + rest)[2];
    AlikeAgainst(wide, field, volatile, v, w, leaf[0]);
    AlikeAgainst(own, field, {}, e, f, leaf[0]);
    SameMetaAside(own, field, e, f);
    assert Resolve(mv, rest) == Resolve(av, leaf) == Resolve(aw, leaf) == Resolve(mw, rest);
    PickedAnnotation(own, av, aw, ae, af, leaf);
    assert PickedPart(mv, me, rest).members - {"annotations"} == me.members - {"annotations"};
    assert PickedPart(mw, mf, rest).members - {"annotations"} == mf.members - {"annotations"};
    assert Child(PickedPart(mv, me, rest), key) == PickedPart(av, ae, leaf);
    assert Child(PickedPart(mw, mf, rest), key) == PickedPart(aw, af, leaf);
  }

  lemma PickedAside(v: Value, w: Value, e: Value, f: Value, path: Path, aside: set<string>)
    requires e.Obj? && f.Obj? && path != [] && path[0] !in aside && Clear(e, path) && Clear(f, path)
    requires Resolve(v, path) == Resolve(w, path) && Child(e, path[0]) == Child(f, path[0])
    requires e.members - aside == f.members - aside
    ensures var a, b := PickedPart(v, e, path), PickedPart(w, f, path);
            && a.Obj? && b.Obj? && a.members - aside == b.members - aside
            && (forall k :: k in aside ==> Child(a, k) == Child(e, k) && Child(b, k) == Child(f, k))
  {
    if Resolve(v, path).Some? {
      var x := Ensured(Child(e, path[0]), path[1..], Resolve(v, path).value);
      assert e.members[path[0] := x] - aside == (e.members - aside)[path[0] := x];
      assert f.members[path[0] := x] - aside == (f.members - aside)[path[0] := x];
    }
  }

  lemma PickedAnnotation(own: string -> bool, v: Value, w: Value, e: Value, f: Value, leaf: Path)
    requires e.Obj? && f.Obj? && leaf != [] && !own(leaf[0]) && Clear(e, leaf) && Clear(f, leaf)
    requires Resolve(v, leaf) == Resolve(w, leaf) && Child(e, leaf[0]) == Child(f, leaf[0])
    requires Foreign(own, e.members) == Foreign(own, f.members)
    ensures PickedPart(v, e, leaf).Obj? && PickedPart(w, f, leaf).Obj?
    ensures Foreign(own, PickedPart(v, e, leaf).members) == Foreign(own, PickedPart(w, f, leaf).members)
  {
    if Resolve(v, leaf).Some? {
      var x := Ensured(Child(e, leaf[0]), leaf[1..], Resolve(v, leaf).value);
      ForeignPut(own, e.members, leaf[0], x);
      ForeignPut(own, f.members, leaf[0], x);
    }
  }

  lemma ForeignPut(own: string -> bool, m: map<string, Value>, key: string, x: Value)
    requires !own(key)
    ensures Foreign(own, m[key := x]) == Foreign(own, m)[key := x]
  {
  }

  lemma PickedStatusAgrees(
    wide: string -> bool, own: string -> bool, field: Path, volatile: set<string>, v: Value, w: Value, e: Value,
    f: Value, path: Path
  )
    requires |field| > 1 && Alike(wide, field, volatile, v, w) && Alike(own, field, {}, e, f)
    requires PartOf(e, v) && PartOf(f, w) && Clear(v, path) && Clear(w, path)
    requires path != [] && path[0] == "status"
    ensures AgreeOff(Child(Picked(v, e, path), "status"), Child(Picked(w, f, path), "status"), field[1..])
  {
    var rest := path[1..];
    PickedThrough(v, e, path);
    PickedThrough(w, f, path);
    if rest != [] {
      assert Resolve(v, path) == Resolve(Child(v, "status"), rest);
      assert Resolve(w, path) == Resolve(Child(w, "status"), rest);
      if Resolve(v, path).None? { PartHasNoMore(e, v, path); }
      if Resolve(w, path).None? { PartHasNoMore(f, w, path); }
      PickedPartsAgree(Child(v, "status"), Child(w, "status"), Child(e, "status"), Child(f, "status"),
                       rest, field[1..]);
    }
  }

  lemma PickedPartsAgree(v: Value, w: Value, e: Value, f: Value, rest: Path, field: Path)
    requires rest != [] && field != [] && Clear(e, rest) && Clear(f, rest)
    requires AgreeOff(v, w, field) && AgreeOff(e, f, field)
    requires Resolve(v, rest).None? ==> Resolve(e, rest).None?
    requires Resolve(w, rest).None? ==> Resolve(f, rest).None?
    ensures AgreeOff(PickedPart(v, e, rest), PickedPart(w, f, rest), field)
  {
    AgreementOfParts(v, w, rest, field);
    if Resolve(v, rest).Some? && Resolve(w, rest).Some? {
      var x, y := Resolve(v, rest).value, Resolve(w, rest).value;
      AgreeAfterEnsure(e, f, rest, x, y, field);
    } else if Resolve(w, rest).Some? {
      AgreeAfterOneEnsure(e, f, rest, Resolve(w, rest).value, field);
    } else if Resolve(v, rest).Some? {
      AgreeSym(e, f, field);
      if rest < field {
        AgreeSym(Resolve(v, rest).value, EMPTY, field[|rest|..]);
      }
      AgreeAfterOneEnsure(f, e, rest, Resolve(v, rest).value, field);
      AgreeSym(f, PickedPart(v, e, rest), field);
    }
  }

  lemma {:induction false} PickedAllAreAlike(wide: string -> bool, own: string -> bool, field: Path,
      volatile: set<string>, v: Value, w: Value, e: Value, f: Value, paths: seq<Path>)
    requires |field| > 1 && Alike(wide, field, volatile, v, w) && Alike(own, field, {}, e, f)
    requires PartOf(e, v) && PartOf(f, w) && AllClear(v, paths) && AllClear(w, paths)
    requires forall key :: own(key) ==> wide(key)
    requires forall i :: 0 <= i < |paths| ==> Harmless(wide, volatile, paths[i])
    ensures Alike(own, field, {}, PickedAll(v, e, paths), PickedAll(w, f, paths))
    decreases |paths|
  {
    if paths != [] {
      PickedIsAlike(wide, own, field, volatile, v, w, e, f, paths[0]);
      PickedAllAreAlike(wide, own, field, volatile, v, w, Picked(v, e, paths[0]), Picked(w, f, paths[0]), paths[1..]);
    }
  }

  lemma StanzaParts(e: Value)
    requires Shaped(e)
    ensures var r := WithoutEmptyStanzas(e);
            && r.members - {"metadata", "status"} == e.members - {"metadata", "status"}
            && Meta(r) - {"annotations"} == DropIfFalsy(Meta(e) - {"annotations"}, "labels")
            && Annotations(r) == Annotations(e)
            && Child(r, "status") == Child(e, "status")
            && Canonical(r)
  {
  }

  /** No empty stanza is left of those that the framework cleans. */
  predicate Canonical(e: Value)
    requires Shaped(e)
  {
    && ("metadata" in e.members ==> Meta(e) != map[])
    && ("annotations" in Meta(e) ==> Annotations(e) != map[])
    && ("labels" in Meta(e) ==> !Falsy(Meta(e)["labels"]))
    && ("status" in e.members ==> e.members["status"] != EMPTY)
  }

  lemma StanzasAreAlike(own: string -> bool, field: Path, e: Value, f: Value)
    requires |field| > 1 && Alike(own, field, {}, e, f)
    ensures Alike(own, field, {}, WithoutEmptyStanzas(e), WithoutEmptyStanzas(f))
  {
    StanzaParts(e);
    StanzaParts(f);
    assert Meta(e) - {"annotations"} - {} == Meta(e) - {"annotations"};
    assert Meta(f) - {"annotations"} - {} == Meta(f) - {"annotations"};
  }

  lemma FewerAnnotationsAreAlike(
    own: string -> bool, field: Path, e: Value, f: Value, drop: set<string>, drop': set<string>
  )
    requires |field| > 1 && Alike(own, field, {}, e, f)
    requires forall key :: key in drop || key in drop' ==> own(key)
    ensures Alike(own, field, {}, WithoutAnnotations(e, drop), WithoutAnnotations(f, drop'))
  {
    assert Foreign(own, Annotations(e) - drop) == Foreign(own, Annotations(e));
    assert Foreign(own, Annotations(f) - drop') == Foreign(own, Annotations(f));
    assert Meta(WithoutAnnotations(e, drop)) - {"annotations"} == Meta(e) - {"annotations"};
    assert Meta(WithoutAnnotations(f, drop')) - {"annotations"} == Meta(f) - {"annotations"};
    var aside := {"metadata", "status"};
    assert WithoutAnnotations(e, drop).members - aside == e.members - aside;
    assert WithoutAnnotations(f, drop').members - aside == f.members - aside;
  }

  lemma RemovalAside(e: Value, f: Value, path: Path, aside: set<string>)
    requires e.Obj? && f.Obj? && path != [] && path[0] !in aside
    requires e.members - aside == f.members - aside
    ensures var a, b := RemovedOrKept(e, path), RemovedOrKept(f, path);
            && a.members - aside == b.members - aside
            && (forall k :: k in aside ==> Child(a, k) == Child(e, k) && Child(b, k) == Child(f, k))
  {
    var key := path[0];
    assert key in e.members <==> key in e.members - aside;
    assert key in f.members <==> key in f.members - aside;
    assert e.members - {key} - aside == (e.members - aside) - {key};
    assert f.members - {key} - aside == (f.members - aside) - {key};
    var x := Child(RemovedOrKept(e, path), key);
    assert e.members[key := x] - aside == (e.members - aside)[key := x];
    assert f.members[key := x] - aside == (f.members - aside)[key := x];
  }

  lemma RemovedAnnotation(own: string -> bool, e: Value, f: Value, leaf: Path)
    requires e.Obj? && f.Obj? && leaf != [] && Foreign(own, e.members) == Foreign(own, f.members)
    ensures Foreign(own, RemovedOrKept(e, leaf).members) == Foreign(own, RemovedOrKept(f, leaf).members)
  {
    var key := leaf[0];
    ForeignOfRemoval(own, e, leaf);
    ForeignOfRemoval(own, f, leaf);
    assert !own(key) ==> (key in e.members <==> key in Foreign(own, e.members));
    assert !own(key) ==> (key in f.members <==> key in Foreign(own, f.members));
  }

  lemma ForeignOfRemoval(own: string -> bool, e: Value, leaf: Path)
    requires e.Obj? && leaf != []
    ensures var r, key := RemovedOrKept(e, leaf), leaf[0];
            Foreign(own, r.members) ==
              if own(key) then Foreign(own, e.members)
              else if key in r.members then Foreign(own, e.members)[key := r.members[key]]
              else Foreign(own, e.members) - {key}
  {
  }

  lemma RemovalIsAlike(own: string -> bool, field: Path, e: Value, f: Value, path: Path)
    requires |field| > 1 && path != [] && Alike(own, field, {}, e, f)
    ensures Alike(own, field, {}, RemovedOrKept(e, path), RemovedOrKept(f, path))
  {
    var key, rest, a, b := path[0], path[1..], RemovedOrKept(e, path), RemovedOrKept(f, path);
    RemovalIsShaped(e, path);
    RemovalIsShaped(f, path);
    if key !in {"metadata", "status"} {
      RemovalAside(e, f, path, {"metadata", "status"});
    } else {
      var other := if key == "metadata" then "status" else "metadata";
      RemovalOfOne(e, path);
      RemovalOfOne(f, path);
      MembersAside(a.members, e.members, key);
      MembersAside(b.members, f.members, key);
      SameChild(a.members, e.members, key, other);
      SameChild(b.members, f.members, key, other);
      if key == "metadata" {
        RemovedMetaIsAlike(own, field, e, f, rest);
      } else if rest != [] {
        AgreeAfterRemoval(Child(e, key), Child(f, key), rest, field[1..]);
      } else {
        ClearMeansAgree(EMPTY, field[1..]);
      }
    }
  }

  lemma RemovalIsShaped(e: Value, path: Path)
    requires path != [] && Shaped(e)
    ensures Shaped(RemovedOrKept(e, path))
  {
    PartOfItself(e);
    PartWithoutField(e, e, path);
    PartIsShaped(RemovedOrKept(e, path), e);
  }

  /** What removal makes of the member it goes through. */
  function RestOfMember(child: Value, rest: Path): Value {
    if rest == [] then EMPTY else RemovedOrKept(child, rest)
  }

  lemma RemovalOfOne(e: Value, path: Path)
    requires path != [] && e.Obj?
    ensures RemovedOrKept(e, path).members - {path[0]} == e.members - {path[0]}
    ensures Child(RemovedOrKept(e, path), path[0]) == RestOfMember(Child(e, path[0]), path[1..])
  {
    if |path| > 1 {
      RemovalOfMember(e, path);
    } else {
      assert path[1..] == [] && Clear(e, path);
    }
  }

  lemma RemovedMetaIsAlike(own: string -> bool, field: Path, e: Value, f: Value, rest: Path)
    requires |field| > 1 && Alike(own, field, {}, e, f)
    requires Child(RestOfMember(Child(e, "metadata"), rest), "annotations").Obj?
    requires Child(RestOfMember(Child(f, "metadata"), rest), "annotations").Obj?
    ensures var a := RestOfMember(Child(e, "metadata"), rest);
            var b := RestOfMember(Child(f, "metadata"), rest);
            && a.members - {"annotations"} == b.members - {"annotations"}
            && Foreign(own, Child(a, "annotations").members) == Foreign(own, Child(b, "annotations").members)
  {
    var me, mf := Child(e, "metadata"), Child(f, "metadata");
    assert Meta(e) - {"annotations"} - {} == Meta(e) - {"annotations"};
    assert Meta(f) - {"annotations"} - {} == Meta(f) - {"annotations"};
    if rest != [] && rest[0] != "annotations" {
      RemovalAside(me, mf, rest, {"annotations"});
    } else if rest != [] {
      RemovalOfOne(me, rest);
      RemovalOfOne(mf, rest);
      if rest[1..] != [] {
        RemovedAnnotation(own, Child(me, "annotations"), Child(mf, "annotations"), rest[1..]);
      }
    }
  }

  lemma {:induction false} FewerFieldsAreAlike(own: string -> bool, field: Path, e: Value, f: Value, paths: seq<Path>)
    requires |field| > 1 && Proper(paths) && Alike(own, field, {}, e, f)
    ensures Alike(own, field, {}, WithoutFields(e, paths), WithoutFields(f, paths))
    decreases |paths|
  {
    if paths != [] {
      RemovalIsAlike(own, field, e, f, paths[0]);
      FewerFieldsAreAlike(own, field, RemovedOrKept(e, paths[0]), RemovedOrKept(f, paths[0]), paths[1..]);
    }
  }
}
