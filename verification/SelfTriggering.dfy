/** The operator does not react to its own writes: the state that it stores into the object is extracted
    from the object again, unchanged, when the event about that very write arrives.

    The annotations are where it can fail. Those of the operator itself are cleaned by their names and by the prefix of
    the progress; those of all the operators are dropped by the prefixes that are detected as theirs, and a write of the
    operator can be what makes its own prefix detected. */
module SelfTriggering {
  import opened Wrappers
  import opened Trees
  import opened Conventions
  import opened Agreement
  import opened Essences
  import opened Blindness

  function OwnWrites(cfg: Config, name: string): string -> bool {
    key => Own(cfg, name, key)
  }

  /** The written annotations that are only cleaned by their exact names, in the very end. */
  function Lasting(cfg: Config, name: string): string -> bool {
    key => key in cfg.diffbase.Keys(name) || cfg.progress.prefix + "/" <= key
  }

  /** A foreign annotation under the prefix of the diff-base. */
  predicate ForeignUnderPrefix(cfg: Config, name: string, annotations: map<string, Value>) {
    exists key :: key in annotations && !Own(cfg, name, key) && key != LAST_APPLIED
                  && cfg.diffbase.prefix + "/" <= key
  }

  /** The prefix of the diff-base is detected as an operator's own equally before and after, or nothing foreign is under
      it. */
  predicate HidesEqually(cfg: Config, body: Value, after: Value)
    requires Shaped(body) && Shaped(after)
  {
    || (cfg.diffbase.prefix in MarkedPrefixes(Annotations(body).Keys)
        <==> cfg.diffbase.prefix in MarkedPrefixes(Annotations(after).Keys))
    || !ForeignUnderPrefix(cfg, MarkKey(cfg.key, body), Annotations(body))
  }

  /** The prefixes are as Kubernetes accepts them: the only slash of a key is the one after its prefix. */
  predicate Prefixed(cfg: Config) {
    cfg.Valid() && '/' !in cfg.diffbase.prefix && '/' !in cfg.progress.prefix
  }

  lemma WrittenUnderPrefixes(cfg: Config, name: string, key: string)
    requires Prefixed(cfg) && Own(cfg, name, key)
    ensures '/' in key && (PrefixOf(key) == cfg.diffbase.prefix || PrefixOf(key) == cfg.progress.prefix)
  {
    KeyUnderPrefix(key, cfg.diffbase.prefix);
    KeyUnderPrefix(key, cfg.progress.prefix);
  }

  lemma MarkerMarks(naming: Naming)
    requires '/' !in naming.prefix
    ensures Marks(naming.MarkerKey()) && PrefixOf(naming.MarkerKey()) == naming.prefix
  {
    var key := naming.MarkerKey();
    assert key == naming.prefix + "/" + MARKER;
    assert key[|naming.prefix|] == '/' && key[..|naming.prefix|] == naming.prefix;
    assert NameOf(key) == MARKER;
  }

  /** Marks cannot be detected differently but for the prefix of the diff-base. */
  lemma MarksDiffer(cfg: Config, name: string, a: map<string, Value>, b: map<string, Value>, key: string)
    requires Prefixed(cfg) && Foreign(OwnWrites(cfg, name), a) == Foreign(OwnWrites(cfg, name), b)
    requires key in a && !Own(cfg, name, key) && Dropped(key, a.Keys) && !Dropped(key, b.Keys)
    ensures key != LAST_APPLIED && cfg.diffbase.prefix + "/" <= key
    ensures cfg.diffbase.prefix in MarkedPrefixes(a.Keys) && cfg.diffbase.prefix !in MarkedPrefixes(b.Keys)
  {
    DroppedByMark(key, a.Keys);
    DroppedByMark(key, b.Keys);
    var mark :| mark in a.Keys && Marks(mark) && '/' in key && PrefixOf(key) == PrefixOf(mark);
    assert mark !in b.Keys;
    assert mark in Foreign(OwnWrites(cfg, name), a) <==> mark in Foreign(OwnWrites(cfg, name), b);
    WrittenUnderPrefixes(cfg, name, mark);
    KeyUnderPrefix(key, cfg.diffbase.prefix);
    KeyUnderPrefix(key, cfg.progress.prefix);
  }

  /** The detection of other operators leaves the same foreign annotations before and after the framework's
      writes exactly when the diff-base prefix was already detected as marked before, or is not after;
      or else, when there is nothing foreign under that prefix. */
  lemma SurvivorsExactly(cfg: Config, name: string, a: map<string, Value>, b: map<string, Value>)
    requires Prefixed(cfg) && Foreign(OwnWrites(cfg, name), a) == Foreign(OwnWrites(cfg, name), b)
    ensures (forall key :: key in Foreign(OwnWrites(cfg, name), a) ==> (Dropped(key, a.Keys) <==> Dropped(key, b.Keys)))
            <==> ((cfg.diffbase.prefix in MarkedPrefixes(a.Keys) <==> cfg.diffbase.prefix in MarkedPrefixes(b.Keys))
                  || !ForeignUnderPrefix(cfg, name, a))
  {
    var own, prefix := OwnWrites(cfg, name), cfg.diffbase.prefix;
    var before, after := prefix in MarkedPrefixes(a.Keys), prefix in MarkedPrefixes(b.Keys);
    forall key | key in Foreign(own, a) ensures key in a && key in b {
      assert key in Foreign(own, b);
    }
    if (before <==> after) || !ForeignUnderPrefix(cfg, name, a) {
      forall key | key in Foreign(own, a) ensures Dropped(key, a.Keys) <==> Dropped(key, b.Keys) {
        if Dropped(key, a.Keys) && !Dropped(key, b.Keys) { MarksDiffer(cfg, name, a, b, key); }
        if Dropped(key, b.Keys) && !Dropped(key, a.Keys) { MarksDiffer(cfg, name, b, a, key); }
      }
    } else {
      var key :| key in a && !Own(cfg, name, key) && key != LAST_APPLIED && prefix + "/" <= key;
      assert key in Foreign(own, a);
      KeyUnderPrefix(key, prefix);
      DroppedUnder(key, prefix, a.Keys);
      DroppedUnder(key, prefix, b.Keys);
    }
  }

  lemma DroppedUnder(key: string, prefix: string, keys: set<string>)
    requires '/' !in prefix && prefix + "/" <= key && key != LAST_APPLIED
    ensures Dropped(key, keys) <==> prefix in MarkedPrefixes(keys)
  {
    KeyUnderPrefix(key, prefix);
    DroppedByMark(key, keys);
  }

  lemma SameMarkedKey(key: string, own: string -> bool, field: Path, volatile: set<string>, v: Value, w: Value)
    requires |field| > 1 && IsVolatile(volatile) && Alike(own, field, volatile, v, w)
    ensures MarkKey(key, v) == MarkKey(key, w)
  {
    AlikeAgainst(own, field, volatile, v, w, "kind");
    AlikeAgainst(own, field, volatile, v, w, "ownerReferences");
    TwoSteps(v, "metadata", "ownerReferences");
    TwoSteps(w, "metadata", "ownerReferences");
    assert ["kind"][1..] == [];
    assert Resolve(v, ["kind"]) == (if "kind" in v.members then Resolve(v.members["kind"], []) else None);
    assert Resolve(w, ["kind"]) == (if "kind" in w.members then Resolve(w.members["kind"], []) else None);
  }

  lemma OnlyLastingSurvive(cfg: Config, name: string, annotations: map<string, Value>)
    requires Prefixed(cfg)
    ensures forall key :: key in Survivors(annotations) ==> (Lasting(cfg, name)(key) <==> Own(cfg, name, key))
  {
    var marker := cfg.diffbase.MarkerKey();
    if marker in annotations {
      MarkerMarks(cfg.diffbase);
      assert PrefixOf(marker) in MarkedPrefixes(annotations.Keys);
      assert cfg.diffbase.prefix + "/" <= marker;
    }
  }

  /** The extraction of the essence by the operator: built, and cleared from the progress. */
  function EssenceOf(cfg: Config, body: Value, extra: seq<Path>): (e: Value)
    requires cfg.Valid() && Buildable(body, extra) && Clear(body, cfg.field)
    ensures Shaped(e) && PartOf(e, body)
  {
    var built := Build(cfg, body, extra);
    PartIsClear(built, body, cfg.field);
    PartOfPart(Cleared(cfg, built), built, body);
    Cleared(cfg, built)
  }

  lemma ClearField(own: string -> bool, field: Path, volatile: set<string>, v: Value, w: Value)
    requires |field| > 1 && field[0] == "status" && Alike(own, field, volatile, v, w)
    ensures Clear(v, field) && Clear(w, field)
  {
    AgreeMeansClear(Child(v, "status"), Child(w, "status"), field[1..]);
  }

  lemma NothingOwnLeft(cfg: Config, name: string, annotations: map<string, Value>)
    requires forall key :: key in cfg.diffbase.Keys(name) && key in annotations ==> cfg.progress.prefix + "/" <= key
    ensures annotations - ProgressKeys(cfg, annotations) == Foreign(Lasting(cfg, name), annotations)
  {
  }

  lemma ClearedAreSame(cfg: Config, name: string, e: Value, f: Value)
    requires cfg.Valid() && Clear(e, cfg.field) && Clear(f, cfg.field)
    requires Alike(Lasting(cfg, name), cfg.field, {}, e, f)
    requires forall key :: key in cfg.diffbase.Keys(name) && (key in Annotations(e) || key in Annotations(f)) ==>
               cfg.progress.prefix + "/" <= key
    ensures Cleared(cfg, e) == Cleared(cfg, f)
  {
    var own, dropE, dropF :=
      Lasting(cfg, name), ProgressKeys(cfg, Annotations(e)), ProgressKeys(cfg, Annotations(f));
    var e0, f0 := WithoutAnnotations(e, dropE), WithoutAnnotations(f, dropF);
    var e1, f1 := WithoutEmptyStanzas(e0), WithoutEmptyStanzas(f0);
    FewerAnnotationsAreAlike(own, cfg.field, e, f, dropE, dropF);
    StanzasAreAlike(own, cfg.field, e0, f0);
    StanzaParts(e0);
    StanzaParts(f0);
    NothingOwnLeft(cfg, name, Annotations(e));
    NothingOwnLeft(cfg, name, Annotations(f));
    CanonicalMetadata(e1, f1);
    SameWhenRemoved(e1, f1, cfg.field);
  }

  lemma CanonicalMetadata(e: Value, f: Value)
    requires Shaped(e) && Shaped(f) && Canonical(e) && Canonical(f)
    requires e.members - {"metadata", "status"} == f.members - {"metadata", "status"}
    requires Meta(e) - {"annotations"} - {} == Meta(f) - {"annotations"} - {}
    requires Annotations(e) == Annotations(f)
    ensures e.members - {"status"} == f.members - {"status"}
  {
    assert Meta(e) == Meta(f) by {
      SameBut(Meta(e), Meta(f), "annotations");
    }
    assert forall k :: k != "metadata" && k != "status" ==>
      (k in e.members <==> k in e.members - {"metadata", "status"}) &&
      (k in f.members <==> k in f.members - {"metadata", "status"});
  }

  lemma SameBut(m: map<string, Value>, w: map<string, Value>, key: string)
    requires m - {key} - {} == w - {key} - {} && (key in m <==> key in w) && (key in m ==> m[key] == w[key])
    ensures m == w
  {
    assert forall k :: k != key ==> (k in m <==> k in m - {key} - {}) && (k in w <==> k in w - {key} - {});
    assert forall k :: k in m && k != key ==> m[k] == (m - {key} - {})[k];
    assert forall k :: k in w && k != key ==> w[k] == (w - {key} - {})[k];
  }

  /** The essence of an object does not change with the framework's writes into it, nor with the volatile
      metadata, unless the writes reveal that the foreign annotations under the same prefix are not essential. */
  lemma EssenceIsBlind(cfg: Config, extra: seq<Path>, volatile: set<string>, body: Value, after: Value)
    requires Prefixed(cfg) && IsVolatile(volatile) && Buildable(body, extra) && Buildable(after, extra)
    requires Alike(OwnWrites(cfg, MarkKey(cfg.key, body)), cfg.field, volatile, body, after)
    requires forall i :: 0 <= i < |extra| ==> Harmless(OwnWrites(cfg, MarkKey(cfg.key, body)), volatile, extra[i])
    requires HidesEqually(cfg, body, after)
    ensures Clear(body, cfg.field) && Clear(after, cfg.field)
    ensures EssenceOf(cfg, body, extra) == EssenceOf(cfg, after, extra)
  {
    var name := MarkKey(cfg.key, body);
    var wide, own := OwnWrites(cfg, name), Lasting(cfg, name);
    ClearField(wide, cfg.field, volatile, body, after);
    SameMarkedKey(cfg.key, wide, cfg.field, volatile, body, after);
    SurvivorsExactly(cfg, name, Annotations(body), Annotations(after));
    OnlyLastingSurvive(cfg, name, Annotations(body));
    OnlyLastingSurvive(cfg, name, Annotations(after));
    ContentIsAlike(wide, own, cfg.field, volatile, body, after);
    PickedAllAreAlike(wide, own, cfg.field, volatile, body, after, Content(body), Content(after), extra);
    BuiltAreAlike(cfg, name, body, after, extra);
    PartIsClear(Build(cfg, body, extra), body, cfg.field);
    PartIsClear(Build(cfg, after, extra), after, cfg.field);
    ClearedAreSame(cfg, name, Build(cfg, body, extra), Build(cfg, after, extra));
  }

  lemma BuiltAreAlike(cfg: Config, name: string, body: Value, after: Value, extra: seq<Path>)
    requires cfg.Valid() && Buildable(body, extra) && Buildable(after, extra)
    requires MarkKey(cfg.key, body) == MarkKey(cfg.key, after) == name
    requires Alike(Lasting(cfg, name), cfg.field, {},
                   PickedAll(body, Content(body), extra), PickedAll(after, Content(after), extra))
    ensures var e, f := Build(cfg, body, extra), Build(cfg, after, extra);
            && Alike(Lasting(cfg, name), cfg.field, {}, e, f)
            && forall key :: key in cfg.diffbase.Keys(name) ==> key !in Annotations(e) && key !in Annotations(f)
  {
    var own := Lasting(cfg, name);
    var e, f := PickedAll(body, Content(body), extra), PickedAll(after, Content(after), extra);
    StanzasAreAlike(own, cfg.field, e, f);
    var e1, f1 := WithoutEmptyStanzas(e), WithoutEmptyStanzas(f);
    FewerFieldsAreAlike(own, cfg.field, e1, f1, cfg.ignored);
    var e2, f2 := WithoutFields(e1, cfg.ignored), WithoutFields(f1, cfg.ignored);
    var drop := set key | key in cfg.diffbase.Keys(name);
    FewerAnnotationsAreAlike(own, cfg.field, e2, f2, drop, drop);
    StanzasAreAlike(own, cfg.field, WithoutAnnotations(e2, drop), WithoutAnnotations(f2, drop));
    StanzaParts(WithoutAnnotations(e2, drop));
    StanzaParts(WithoutAnnotations(f2, drop));
  }

  /** The fields are all outside of the metadata. */
  predicate Outside(paths: seq<Path>) {
    forall i :: 0 <= i < |paths| ==> paths[i] != [] && paths[i][0] != "metadata"
  }

  lemma {:induction false} PickedOutside(v: Value, e: Value, paths: seq<Path>)
    requires PartOf(e, v) && e.Obj? && v.Obj? && AllClear(v, paths) && Outside(paths)
    ensures Child(PickedAll(v, e, paths), "metadata") == Child(e, "metadata")
    decreases |paths|
  {
    if paths != [] {
      PickedThrough(v, e, paths[0]);
      SameChild(Picked(v, e, paths[0]).members, e.members, paths[0][0], "metadata");
      PickedOutside(v, Picked(v, e, paths[0]), paths[1..]);
    }
  }

  lemma {:induction false} RemovedOutside(e: Value, paths: seq<Path>)
    requires e.Obj? && Proper(paths) && Outside(paths)
    ensures Child(WithoutFields(e, paths), "metadata") == Child(e, "metadata")
    decreases |paths|
  {
    if paths != [] {
      RemovalOfOne(e, paths[0]);
      SameChild(RemovedOrKept(e, paths[0]).members, e.members, paths[0][0], "metadata");
      RemovedOutside(RemovedOrKept(e, paths[0]), paths[1..]);
    }
  }

  lemma BuiltAnnotations(cfg: Config, body: Value, extra: seq<Path>)
    requires cfg.Valid() && Buildable(body, extra) && Outside(extra) && Outside(cfg.ignored)
    ensures Annotations(Build(cfg, body, extra)) ==
            Survivors(Annotations(body)) - set key | key in DiffBaseKeys(cfg, body)
  {
    var picked := PickedAll(body, Content(body), extra);
    SelectedParts(body);
    ContentParts(body);
    PickedOutside(body, Content(body), extra);
    PartIsShaped(picked, body);
    var cleaned := WithoutEmptyStanzas(picked);
    StanzaParts(picked);
    RemovedOutside(cleaned, cfg.ignored);
    PartIsShaped(WithoutFields(cleaned, cfg.ignored), cleaned);
    StanzaParts(WithoutAnnotations(WithoutFields(cleaned, cfg.ignored), set key | key in DiffBaseKeys(cfg, body)));
  }

  lemma ClearedAnnotations(cfg: Config, e: Value)
    requires cfg.Valid() && Shaped(e) && Clear(e, cfg.field)
    ensures Annotations(Cleared(cfg, e)) == Annotations(e) - ProgressKeys(cfg, Annotations(e))
  {
    var own := ProgressKeys(cfg, Annotations(e));
    StanzaParts(WithoutAnnotations(e, own));
    var f := WithoutEmptyStanzas(WithoutAnnotations(e, own));
    PartOfItself(e);
    CleaningKeepsPart(e, own, e);
    PartIsClear(f, e, cfg.field);
    RemovalOfOne(f, cfg.field);
    SameChild(Removed(f, cfg.field).members, f.members, "status", "metadata");
    RemovalIsShaped(f, cfg.field);
    StanzaParts(Removed(f, cfg.field));
  }

  /** The annotations of the essence, when neither the requested nor the ignored fields reach into the metadata. */
  lemma EssentialAnnotations(cfg: Config, body: Value, extra: seq<Path>)
    requires cfg.Valid() && Buildable(body, extra) && Clear(body, cfg.field) && Outside(extra) && Outside(cfg.ignored)
    ensures Annotations(EssenceOf(cfg, body, extra)) ==
            Foreign(Lasting(cfg, MarkKey(cfg.key, body)), Survivors(Annotations(body)))
  {
    var name, built := MarkKey(cfg.key, body), Build(cfg, body, extra);
    BuiltAnnotations(cfg, body, extra);
    PartIsClear(built, body, cfg.field);
    ClearedAnnotations(cfg, built);
    LastingAreCleaned(cfg, name, Survivors(Annotations(body)), Annotations(built));
  }

  lemma LastingAreCleaned(cfg: Config, name: string, a: map<string, Value>, b: map<string, Value>)
    requires b == a - set key | key in cfg.diffbase.Keys(name)
    ensures b - ProgressKeys(cfg, b) == Foreign(Lasting(cfg, name), a)
  {
  }

  /** If the prefix is detected differently, and there is something foreign under it, then some foreign annotation
      is essential only before the writes, or only after them. */
  lemma SomeAnnotationDiffers(
    cfg: Config, extra: seq<Path>, volatile: set<string>, body: Value, after: Value
  ) returns (key: string)
    requires Prefixed(cfg) && IsVolatile(volatile) && Buildable(body, extra) && Buildable(after, extra)
    requires Alike(OwnWrites(cfg, MarkKey(cfg.key, body)), cfg.field, volatile, body, after)
    requires Outside(extra) && Outside(cfg.ignored) && Clear(body, cfg.field) && Clear(after, cfg.field)
    requires !HidesEqually(cfg, body, after)
    ensures key in Annotations(body)
    ensures key in Annotations(EssenceOf(cfg, body, extra)) <==> key !in Annotations(EssenceOf(cfg, after, extra))
    ensures key in Annotations(EssenceOf(cfg, body, extra)) ==>
      Annotations(EssenceOf(cfg, body, extra))[key] == Annotations(body)[key]
    ensures key in Annotations(EssenceOf(cfg, after, extra)) ==>
      Annotations(EssenceOf(cfg, after, extra))[key] == Annotations(body)[key]
  {
    var name := MarkKey(cfg.key, body);
    var wide, own, a, b := OwnWrites(cfg, name), Lasting(cfg, name), Annotations(body), Annotations(after);
    SameMarkedKey(cfg.key, wide, cfg.field, volatile, body, after);
    SurvivorsExactly(cfg, name, a, b);
    EssentialAnnotations(cfg, body, extra);
    EssentialAnnotations(cfg, after, extra);
    key :| key in Foreign(wide, a) && !(Dropped(key, a.Keys) <==> Dropped(key, b.Keys));
    assert key in Foreign(wide, b) && Foreign(wide, b)[key] == Foreign(wide, a)[key] == a[key];
    assert key in Foreign(own, Survivors(a)) <==> !Dropped(key, a.Keys);
    assert key in Foreign(own, Survivors(b)) <==> !Dropped(key, b.Keys);
  }

  lemma EssenceChanges(cfg: Config, extra: seq<Path>, volatile: set<string>, body: Value, after: Value)
    requires Prefixed(cfg) && IsVolatile(volatile) && Buildable(body, extra) && Buildable(after, extra)
    requires Alike(OwnWrites(cfg, MarkKey(cfg.key, body)), cfg.field, volatile, body, after)
    requires Outside(extra) && Outside(cfg.ignored) && Clear(body, cfg.field) && Clear(after, cfg.field)
    requires !HidesEqually(cfg, body, after)
    ensures EssenceOf(cfg, body, extra) != EssenceOf(cfg, after, extra)
  {
    var _ := SomeAnnotationDiffers(cfg, extra, volatile, body, after);
  }

  /** The condition is exact: the essence survives the framework's writes if and only if the prefix
      was not newly revealed by them as an operator's own, or there is nothing foreign under it. */
  lemma EssenceIsBlindExactly(cfg: Config, extra: seq<Path>, volatile: set<string>, body: Value, after: Value)
    requires Prefixed(cfg) && IsVolatile(volatile) && Buildable(body, extra) && Buildable(after, extra)
    requires Alike(OwnWrites(cfg, MarkKey(cfg.key, body)), cfg.field, volatile, body, after)
    requires Outside(extra) && Outside(cfg.ignored)
    ensures Clear(body, cfg.field) && Clear(after, cfg.field)
    ensures EssenceOf(cfg, body, extra) == EssenceOf(cfg, after, extra) <==> HidesEqually(cfg, body, after)
  {
    ClearField(OwnWrites(cfg, MarkKey(cfg.key, body)), cfg.field, volatile, body, after);
    if HidesEqually(cfg, body, after) {
      EssenceIsBlind(cfg, extra, volatile, body, after);
    } else {
      EssenceChanges(cfg, extra, volatile, body, after);
    }
  }
}
