/** The essence of an object: what the operator remembers of it, and compares it with,
    as in kopf/_cogs/configs/diffbase.py and the `clear` of kopf/_cogs/configs/progress.py. */
module Essences {
  import opened Wrappers
  import opened Trees
  import opened Conventions
  import opened Agreement

  const LABELS: Path := ["metadata", "labels"]
  const ANNOTATIONS: Path := ["metadata", "annotations"]

  predicate Proper(paths: seq<Path>) {
    forall i :: 0 <= i < |paths| ==> paths[i] != []
  }

  /** The default storages: annotations for the diff-base; annotations and a status field for the progress. */
  datatype Config = Config(diffbase: Naming, key: string, ignored: seq<Path>, progress: Naming, field: Path) {
    predicate Valid() {
      && |field| > 1 && field[0] == "status"
      && Proper(ignored)
    }
  }

  function DiffBaseKeys(cfg: Config, body: Value): seq<string>
    requires Shaped(body)
  {
    cfg.diffbase.Keys(MarkKey(cfg.key, body))
  }

  lemma PartIsShaped(e: Value, body: Value)
    requires PartOf(e, body) && Shaped(body) && e.Obj?
    ensures Shaped(e)
  {
    if "metadata" in e.members && "annotations" in e.members["metadata"].members {
      assert PartOf(e.members["metadata"].members["annotations"], body.members["metadata"].members["annotations"]);
    }
  }

  /** `cherrypick` of one field. */
  function Picked(src: Value, dst: Value, path: Path): (r: Value)
    requires Clear(src, path) && PartOf(dst, src) && dst.Obj?
    ensures r.Obj? && PartOf(r, src)
  {
    PartIsClear(dst, src, path);
    match Resolve(src, path)
    case None => dst
    case Some(x) =>
      PartWithField(dst, src, path);
      Ensured(dst, path, x)
  }

  predicate AllClear(v: Value, paths: seq<Path>) {
    forall i :: 0 <= i < |paths| ==> paths[i] != [] && Clear(v, paths[i])
  }

  function PickedAll(src: Value, dst: Value, paths: seq<Path>): (r: Value)
    requires PartOf(dst, src) && dst.Obj? && src.Obj?
    requires AllClear(src, paths)
    ensures r.Obj? && PartOf(r, src)
    decreases |paths|
  {
    if paths == [] then dst else PickedAll(src, Picked(src, dst, paths[0]), paths[1..])
  }

  function WithoutFields(e: Value, paths: seq<Path>): (r: Value)
    requires e.Obj? && Proper(paths)
    ensures r.Obj? && PartOf(r, e)
    decreases |paths|
  {
    if paths == [] then
      PartOfItself(e);
      e
    else
      PartOfItself(e);
      PartWithoutField(e, e, paths[0]);
      var r := WithoutFields(RemovedOrKept(e, paths[0]), paths[1..]);
      PartOfPart(r, RemovedOrKept(e, paths[0]), e);
      r
  }

  predicate Buildable(body: Value, extra: seq<Path>) {
    Shaped(body) && AllClear(body, extra)
  }

  const SYSTEM := {"apiVersion", "kind", "metadata", "status"}

  /** The content and the selected metadata. */
  function Selected(body: Value): (e: Value)
    requires Shaped(body)
    ensures Shaped(e) && PartOf(e, body)
  {
    var stripped := Obj(body.members - SYSTEM);
    assert PartOf(stripped, body) by { PartOfItself(body); }
    var selected := Picked(body, Picked(body, stripped, LABELS), ANNOTATIONS);
    PartIsShaped(selected, body);
    selected
  }

  /** The same without the annotations of kubectl and of all Kopf-based operators. */
  function Content(body: Value): (e: Value)
    requires Shaped(body)
    ensures Shaped(e) && PartOf(e, body)
  {
    var selected := Selected(body);
    var dropped := DroppedKeys(Annotations(selected).Keys);
    PartWithoutAnnotations(selected, dropped);
    PartOfPart(WithoutAnnotations(selected, dropped), selected, body);
    WithoutAnnotations(selected, dropped)
  }

  function DroppedKeys(keys: set<string>): set<string> {
    set key | key in keys && Dropped(key, keys)
  }

  /** `DiffBaseStorage.build` and its extension for the storage in annotations. */
  function Build(cfg: Config, body: Value, extra: seq<Path>): (e: Value)
    requires cfg.Valid() && Buildable(body, extra)
    ensures Shaped(e) && PartOf(e, body)
  {
    var picked := PickedAll(body, Content(body), extra);
    PartIsShaped(picked, body);
    var cleaned := WithoutEmptyStanzas(picked);
    var ignoring := WithoutFields(cleaned, cfg.ignored);
    PartIsShaped(ignoring, cleaned);
    var own := set key | key in DiffBaseKeys(cfg, body);
    PartOfPart(cleaned, picked, body);
    PartOfPart(ignoring, cleaned, body);
    CleaningKeepsPart(ignoring, own, body);
    WithoutEmptyStanzas(WithoutAnnotations(ignoring, own))
  }

  function ProgressKeys(cfg: Config, annotations: map<string, Value>): set<string> {
    set key | key in annotations && cfg.progress.prefix + "/" <= key
  }

  /** `clear` of both progress storages, one after the other. */
  function Cleared(cfg: Config, e: Value): (r: Value)
    requires cfg.Valid() && Shaped(e) && Clear(e, cfg.field)
    ensures Shaped(r) && PartOf(r, e)
  {
    var own := ProgressKeys(cfg, Annotations(e));
    var noAnnotations := WithoutEmptyStanzas(WithoutAnnotations(e, own));
    PartOfItself(e);
    CleaningKeepsPart(e, own, e);
    PartIsClear(noAnnotations, e, cfg.field);
    var noStatus := Removed(noAnnotations, cfg.field);
    PartWithoutField(noAnnotations, e, cfg.field);
    PartIsShaped(noStatus, e);
    PartOfPart(WithoutEmptyStanzas(noStatus), noStatus, e);
    WithoutEmptyStanzas(noStatus)
  }

  lemma CleaningKeepsPart(e: Value, keys: set<string>, b: Value)
    requires Shaped(e) && PartOf(e, b)
    ensures PartOf(WithoutEmptyStanzas(WithoutAnnotations(e, keys)), b)
  {
    var r := WithoutAnnotations(e, keys);
    PartWithoutAnnotations(e, keys);
    PartOfPart(r, e, b);
    PartOfPart(WithoutEmptyStanzas(r), r, b);
  }

  lemma PartWithoutAnnotations(e: Value, keys: set<string>)
    requires Shaped(e)
    ensures PartOf(WithoutAnnotations(e, keys), e)
  {
    PartOfItself(e);
    if "metadata" in e.members && "annotations" in Meta(e) {
      var meta, annotations := e.members["metadata"], Meta(e)["annotations"];
      assert PartOf(meta, meta) && PartOf(annotations, annotations);
      assert PartOf(Obj(annotations.members - keys), annotations);
      assert PartOf(Obj(meta.members["annotations" := Obj(annotations.members - keys)]), meta);
    }
  }
}
