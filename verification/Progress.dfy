/** Keeping the states of the handlers on the object itself: kopf/_core/actions/progression.py
    and the default storage of kopf/_cogs/configs/progress.py, which writes to annotations, but also reads and purges
    the older records in the status. */
module Progress {
  import opened Wrappers
  import opened Trees
  import opened MergePatches
  import opened Conventions
  import opened Essences
  import opened Fields
  import opened Execution
  import Cycles

  /** The texts of timestamps, and the order of ids in lists. These are read back as they were written. */
  datatype Notation = Notation(format: int -> string, parse: string -> int, listed: set<string> -> seq<string>) {
    ghost predicate Lawful() {
      && (forall t :: parse(format(t)) == t)
      && (forall ids: set<string> :: Elements(listed(ids)) == ids)
    }
  }

  function Elements(ids: seq<string>): set<string> { set id | id in ids }

  // ----- Records -----

  function TimeOf(n: Notation, t: Option<int>): Value {
    if t.Some? then Scalar(Text(n.format(t.value))) else Null
  }

  function TextOf(t: Option<string>): Value {
    if t.Some? then Scalar(Text(t.value)) else Null
  }

  function ListOf(n: Notation, ids: set<string>): Value {
    if ids == {} then Null
    else
      var items := n.listed(ids);
      List(seq(|items|, i requires 0 <= i < |items| => Scalar(Text(items[i]))))
  }

  /** `for_storage`: all the fields, even those with no value. */
  function FullRecord(n: Notation, s: HandlerState): map<string, Value> {
    map[
      "started" := TimeOf(n, Some(s.started)),
      "stopped" := TimeOf(n, s.stopped),
      "delayed" := TimeOf(n, s.delayed),
      "purpose" := TextOf(s.purpose),
      "retries" := Scalar(Number(s.retries)),
      "success" := Scalar(Truth(s.success)),
      "failure" := Scalar(Truth(s.failure)),
      "message" := TextOf(s.message),
      "subrefs" := ListOf(n, s.subrefs)
    ]
  }

  /** `as_in_storage`: only the fields with values. */
  function PureRecord(n: Notation, s: HandlerState): map<string, Value> {
    map key | key in FullRecord(n, s) && FullRecord(n, s)[key] != Null :: FullRecord(n, s)[key]
  }

  function Get(record: map<string, Value>, key: string): Value {
    if key in record then record[key] else Null
  }

  function TimeFrom(n: Notation, v: Value): Option<int> {
    if v.Scalar? && v.atom.Text? then Some(n.parse(v.atom.text)) else None
  }

  function TextFrom(v: Value): Option<string> {
    if v.Scalar? && v.atom.Text? then Some(v.atom.text) else None
  }

  function ListFrom(v: Value): set<string> {
    if v.List? then set i | 0 <= i < |v.items| && v.items[i].Scalar? && v.items[i].atom.Text? :: v.items[i].atom.text
      else {}
  }

  /** `from_storage`: an inactive state until it is selected for the current cause. */
  function FromRecord(n: Notation, record: map<string, Value>, now: int): HandlerState {
    var purpose := TextFrom(Get(record, "purpose"));
    HandlerState(
      false,
      OrElse(TimeFrom(n, Get(record, "started")), now),
      TimeFrom(n, Get(record, "stopped")),
      TimeFrom(n, Get(record, "delayed")),
      if purpose == Some("") then None else purpose,
      match Get(record, "retries") case Scalar(Number(x)) => x case _ => 0,
      Get(record, "success") == Scalar(Truth(true)),
      Get(record, "failure") == Scalar(Truth(true)),
      TextFrom(Get(record, "message")),
      ListFrom(Get(record, "subrefs")))
  }

  lemma ListIsReadBack(n: Notation, ids: set<string>)
    requires n.Lawful()
    ensures ListFrom(ListOf(n, ids)) == ids
  {
    if ids != {} {
      var items := n.listed(ids);
      assert Elements(items) == ids;
      var v := ListOf(n, ids);
      forall id ensures id in ListFrom(v) <==> id in ids {
        if id in ids {
          assert id in Elements(items);
          var i :| 0 <= i < |items| && items[i] == id;
          assert v.items[i].atom.text == id;
        }
        if id in ListFrom(v) {
          var i :| 0 <= i < |v.items| && v.items[i].Scalar? && v.items[i].atom.Text? && v.items[i].atom.text == id;
          assert items[i] in Elements(items);
        }
      }
    }
  }

  lemma FieldsOfFull(n: Notation, s: HandlerState)
    ensures var record := FullRecord(n, s);
            && Get(record, "started") == TimeOf(n, Some(s.started))
            && Get(record, "stopped") == TimeOf(n, s.stopped)
            && Get(record, "delayed") == TimeOf(n, s.delayed)
            && Get(record, "purpose") == TextOf(s.purpose)
            && Get(record, "retries") == Scalar(Number(s.retries))
            && Get(record, "success") == Scalar(Truth(s.success))
            && Get(record, "failure") == Scalar(Truth(s.failure))
            && Get(record, "message") == TextOf(s.message)
            && Get(record, "subrefs") == ListOf(n, s.subrefs)
  {
    assert "started"[0] == 's' && "stopped"[0] == 's' && "success"[0] == 's' && "subrefs"[0] == 's';
    assert "started"[2] == 'a' && "stopped"[2] == 'o' && "success"[2] == 'c' && "subrefs"[2] == 'b';
    assert "delayed"[0] == 'd' && "purpose"[0] == 'p' && "retries"[0] == 'r' && "failure"[0] == 'f'
      && "message"[0] == 'm';
  }

  lemma SameFields(n: Notation, record: map<string, Value>, other: map<string, Value>, now: int)
    requires forall key :: Get(record, key) == Get(other, key)
    ensures FromRecord(n, record, now) == FromRecord(n, other, now)
  {
  }

  /** A record, full or pure, is read back as the same state, which is not active yet. The empty purpose means none. */
  lemma RecordRoundTripExactly(n: Notation, s: HandlerState, now: int, record: map<string, Value>)
    requires n.Lawful()
    requires record == FullRecord(n, s) || record == PureRecord(n, s)
    ensures FromRecord(n, record, now) == s.(active := false) <==> s.purpose != Some("")
  {
    ListIsReadBack(n, s.subrefs);
    FieldsOfFull(n, s);
    SameFields(n, record, FullRecord(n, s), now);
    assert n.parse(n.format(s.started)) == s.started;
    assert s.stopped.Some? ==> n.parse(n.format(s.stopped.value)) == s.stopped.value;
    assert s.delayed.Some? ==> n.parse(n.format(s.delayed.value)) == s.delayed.value;
  }

  // ----- The storage -----

  function KeysFor(cfg: Config, body: Value, id: string): seq<string>
    requires Shaped(body)
  {
    cfg.progress.Keys(MarkKey(id, body))
  }

  function KeyPath(key: string): Path { ANNOTATIONS + [key] }

  function StatusPath(cfg: Config, id: string): Path { cfg.field + [id] }

  /** `fetch` of the first storage that has anything. If the field of the status is there, but is not a dict,
      the source fails where it is none here. */
  function FetchRecord(cfg: Config, codec: Cycles.Codec, body: Value, id: string): Option<Value>
    requires Shaped(body)
  {
    var found := Cycles.Fetched(codec, Annotations(body), KeysFor(cfg, body, id));
    if found.Some? then found
    else match Resolve(body, StatusPath(cfg, id))
         case Some(v) => if v.Null? then None else Some(v)
         case None => None
  }

  /** The state of the handlers in their order, with what was fetched of them in the beginning. */
  datatype State = State(ids: seq<string>, states: map<string, HandlerState>, origins: map<string, Value>) {
    predicate Valid() {
      && (forall i :: 0 <= i < |ids| ==> ids[i] in states)
      && (forall i, j :: 0 <= i < j < |ids| ==> ids[i] != ids[j])
    }
  }

  /** What is not changed is not stored again. */
  predicate IsChanged(n: Notation, s: State, id: string)
    requires id in s.states
  {
    !(id in s.origins && s.origins[id] == Obj(PureRecord(n, s.states[id])))
  }

  function RecordOf(n: Notation, s: State, id: string, verbose: bool): map<string, Value>
    requires id in s.states
  {
    if verbose && IsChanged(n, s, id) then FullRecord(n, s.states[id]) else PureRecord(n, s.states[id])
  }

  function StoredState(
    cfg: Config, codec: Cycles.Codec, n: Notation, verbose: bool, body: Value, patch: Value, s: State, count: nat
  ): (r: Value)
    requires Shaped(body) && Shaped(patch) && s.Valid() && count <= |s.ids|
    ensures Shaped(r)
    decreases count
  {
    if count == 0 then patch
    else StoredOne(cfg, codec, n, verbose, body, StoredState(cfg, codec, n, verbose, body, patch, s, count - 1), s,
      s.ids[count - 1])
  }

  function StoredOne(
    cfg: Config, codec: Cycles.Codec, n: Notation, verbose: bool, body: Value, patch: Value, s: State, id: string
  ): (r: Value)
    requires Shaped(body) && Shaped(patch) && id in s.states
    ensures Shaped(r)
  {
    if IsChanged(n, s, id) then
      Cycles.Stored(cfg.progress, MarkKey(id, body), body, patch, codec.encode(Obj(RecordOf(n, s, id, verbose))))
    else patch
  }

  /** `State.store` in its own steps. */
  method StoreState(
    cfg: Config, codec: Cycles.Codec, n: Notation, verbose: bool, body: Value, patch: Dict, s: State
  )
    requires Shaped(body) && Shaped(patch.root) && s.Valid()
    modifies patch
    ensures patch.root == StoredState(cfg, codec, n, verbose, body, old(patch.root), s, |s.ids|)
  {
    for i := 0 to |s.ids|
      invariant patch.root == StoredState(cfg, codec, n, verbose, body, old(patch.root), s, i)
    {
      var id := s.ids[i];
      if IsChanged(n, s, id) {
        Cycles.Store(cfg.progress, MarkKey(id, body), body, patch, codec.encode(Obj(RecordOf(n, s, id, verbose))));
      }
    }
  }

  /** No handlers share their annotations with each other, or with the marker. */
  predicate Apart(cfg: Config, body: Value, ids: seq<string>)
    requires Shaped(body)
  {
    && (forall i, j :: 0 <= i < j < |ids| ==>
          forall key :: key in KeysFor(cfg, body, ids[i]) ==> key !in KeysFor(cfg, body, ids[j]))
    && (forall i :: 0 <= i < |ids| ==> cfg.progress.MarkerKey() !in KeysFor(cfg, body, ids[i]))
  }

  /** The patch does not have the field yet, and is not broken above it. */
  predicate Untouched(patch: Value, path: Path) {
    Clear(patch, path) && Resolve(patch, path).None?
  }

  /** Storing touches nothing but the metadata. */
  lemma StoredAside(
    cfg: Config, codec: Cycles.Codec, n: Notation, verbose: bool, body: Value, patch: Value, s: State
  )
    requires Shaped(body) && Shaped(patch) && s.Valid()
    ensures StoredState(cfg, codec, n, verbose, body, patch, s, |s.ids|).members - {"metadata"}
      == patch.members - {"metadata"}
  {
    var rest := patch.members - {"metadata"};
    var kept := (v: Value) => v.Obj? && v.members - {"metadata"} == rest;
    StoringKeeps(cfg, codec, n, verbose, body, patch, s, |s.ids|, kept);
  }

  lemma {:induction false} StoredAnnotations(
    cfg: Config, codec: Cycles.Codec, n: Notation, verbose: bool, body: Value, patch: Value, s: State, count: nat,
    i: nat, key: string
  )
    requires Shaped(body) && Shaped(patch) && s.Valid() && count <= |s.ids| && i < |s.ids| && Apart(cfg, body, s.ids)
    requires key in KeysFor(cfg, body, s.ids[i]) && key !in Annotations(patch)
    ensures var r := StoredState(cfg, codec, n, verbose, body, patch, s, count);
            if i < count && IsChanged(n, s, s.ids[i])
               then key in Annotations(r)
                    && Annotations(r)[key] == Scalar(Text(codec.encode(Obj(RecordOf(n, s, s.ids[i], verbose)))))
               else key !in Annotations(r)
    decreases count
  {
    if count > 0 {
      StoredAnnotations(cfg, codec, n, verbose, body, patch, s, count - 1, i, key);
      var id, before := s.ids[count - 1], StoredState(cfg, codec, n, verbose, body, patch, s, count - 1);
      assert i != count - 1 ==> key !in KeysFor(cfg, body, id);
      AnnotationsOfStoredOne(cfg, codec, n, verbose, body, before, s, id, key);
    }
  }

  lemma AnnotationsOfStoredOne(
    cfg: Config, codec: Cycles.Codec, n: Notation, verbose: bool, body: Value, patch: Value, s: State, id: string,
    key: string
  )
    requires Shaped(body) && Shaped(patch) && id in s.states && key != cfg.progress.MarkerKey()
    ensures var r := StoredOne(cfg, codec, n, verbose, body, patch, s, id);
            && (key in KeysFor(cfg, body, id) && IsChanged(n, s, id) ==>
                  key in Annotations(r)
                    && Annotations(r)[key] == Scalar(Text(codec.encode(Obj(RecordOf(n, s, id, verbose))))))
            && (key !in KeysFor(cfg, body, id) || !IsChanged(n, s, id) ==>
                  (key in Annotations(r) <==> key in Annotations(patch))
                  && (key in Annotations(r) ==> Annotations(r)[key] == Annotations(patch)[key]))
  {
    AnnotationsOfStored(cfg.progress, MarkKey(id, body), body, patch, codec.encode(Obj(RecordOf(n, s, id, verbose))),
      key);
  }

  lemma AnnotationsOfStored(naming: Naming, name: string, body: Value, patch: Value, text: string, key: string)
    requires Shaped(body) && Shaped(patch) && key != naming.MarkerKey()
    ensures var r := Cycles.Stored(naming, name, body, patch, text);
            && (key in naming.Keys(name) ==> key in Annotations(r) && Annotations(r)[key] == Scalar(Text(text)))
            && (key !in naming.Keys(name) ==>
                  (key in Annotations(r) <==> key in Annotations(patch))
                  && (key in Annotations(r) ==> Annotations(r)[key] == Annotations(patch)[key]))
  {
  }

  lemma FieldOfAnnotation(v: Value, key: string)
    requires Shaped(v)
    ensures Clear(v, KeyPath(key))
    ensures Resolve(v, KeyPath(key)) == if key in Annotations(v) then Some(Annotations(v)[key]) else None
  {
    var path := KeyPath(key);
    assert path == ["metadata", "annotations", key];
    assert path[1..] == ["annotations", key] && path[1..][1..] == [key] && [key][1..] == [];
    if "metadata" in v.members {
      var meta := v.members["metadata"];
      if "annotations" in meta.members {
        var annotations := meta.members["annotations"];
        assert Clear(annotations, [key]) && Clear(meta, path[1..]);
        assert Resolve(v, path) == Resolve(meta, path[1..]) == Resolve(annotations, [key]);
        assert key in annotations.members ==> Resolve(annotations.members[key], []) == Some(annotations.members[key]);
      }
    }
  }

  lemma ClearMeansShaped(v: Value, key: string, other: string)
    requires Clear(v, KeyPath(key)) && Clear(v, ["status", other])
    ensures Shaped(v)
  {
    var path := KeyPath(key);
    assert path == ["metadata", "annotations", key];
    assert path[1..] == ["annotations", key] && path[1..][1..] == [key] && ["status", other][1..] == [other];
    if "metadata" in v.members {
      var meta := v.members["metadata"];
      assert Clear(meta, path[1..]);
      if "annotations" in meta.members { assert Clear(meta.members["annotations"], [key]); }
    }
    if "status" in v.members { assert Clear(v.members["status"], [other]); }
  }

  lemma MergedIsShaped(body: Value, patch: Value)
    requires Shaped(body) && Shaped(patch)
    ensures Shaped(MergePatch(body, patch))
  {
    FieldOfAnnotation(body, "");
    FieldOfAnnotation(patch, "");
    FieldOfMerged(body, patch, KeyPath(""));
    assert ["status", ""][1..] == [""];
    FieldOfMerged(body, patch, ["status", ""]);
    ClearMeansShaped(MergePatch(body, patch), "", "");
  }

  lemma AnnotationOfMerged(body: Value, patch: Value, key: string)
    requires Shaped(body) && Shaped(patch) && Shaped(MergePatch(body, patch))
    ensures var a, p, m := Annotations(body), Annotations(patch), Annotations(MergePatch(body, patch));
            && (key !in p ==> (key in m <==> key in a) && (key in m ==> m[key] == a[key]))
            && (key in p && p[key].Scalar? ==> key in m && m[key] == p[key])
            && (key in p && p[key].Null? ==> key !in m)
  {
    FieldOfAnnotation(body, key);
    FieldOfAnnotation(patch, key);
    FieldOfAnnotation(MergePatch(body, patch), key);
    FieldOfMerged(body, patch, KeyPath(key));
  }

  const KIND: Path := ["kind"]
  const OWNERS: Path := ["metadata", "ownerReferences"]

  /** The patch does not change what the names of the annotations depend on. */
  predicate KeepsNames(patch: Value) { Untouched(patch, KIND) && Untouched(patch, OWNERS) }

  lemma NamesAreKept(body: Value, patch: Value, id: string)
    requires Shaped(body) && Shaped(patch) && KeepsNames(patch)
    ensures Shaped(MergePatch(body, patch)) && MarkKey(id, MergePatch(body, patch)) == MarkKey(id, body)
  {
    MergedIsShaped(body, patch);
    assert KIND[1..] == [] && OWNERS[1..] == ["ownerReferences"] && OWNERS[1..][1..] == [];
    FieldOfMerged(body, patch, KIND);
    FieldOfMerged(body, patch, OWNERS);
  }

  lemma OwnersField(v: Value)
    requires Shaped(v)
    ensures Untouched(v, OWNERS) <==> "ownerReferences" !in Meta(v)
  {
    assert OWNERS[1..] == ["ownerReferences"] && OWNERS[1..][1..] == [];
    if "metadata" in v.members {
      var meta := v.members["metadata"];
      assert Clear(meta, OWNERS[1..]);
      assert Resolve(v, OWNERS) == Resolve(meta, OWNERS[1..]);
      assert "ownerReferences" in meta.members ==>
        Resolve(meta, OWNERS[1..]) == Resolve(meta.members["ownerReferences"], []);
    }
  }

  /** What storing of any one handler keeps, storing of all of them keeps. */
  lemma {:induction false} StoringKeeps(
    cfg: Config, codec: Cycles.Codec, n: Notation, verbose: bool, body: Value, patch: Value, s: State, count: nat,
    kept: Value -> bool
  )
    requires Shaped(body) && Shaped(patch) && s.Valid() && count <= |s.ids| && kept(patch)
    requires forall before, id :: Shaped(before) && kept(before) && id in s.ids ==>
               kept(StoredOne(cfg, codec, n, verbose, body, before, s, id))
    ensures kept(StoredState(cfg, codec, n, verbose, body, patch, s, count))
    decreases count
  {
    if count > 0 {
      StoringKeeps(cfg, codec, n, verbose, body, patch, s, count - 1, kept);
      var before, id := StoredState(cfg, codec, n, verbose, body, patch, s, count - 1), s.ids[count - 1];
      assert id in s.ids && kept(before) && Shaped(before);
    }
  }

  lemma StoringKeepsNames(
    cfg: Config, codec: Cycles.Codec, n: Notation, verbose: bool, body: Value, patch: Value, s: State
  )
    requires Shaped(body) && Shaped(patch) && s.Valid() && KeepsNames(patch)
    ensures KeepsNames(StoredState(cfg, codec, n, verbose, body, patch, s, |s.ids|))
  {
    var kept := v => KeepsNames(v);
    forall before, id | Shaped(before) && kept(before) && id in s.ids
      ensures kept(StoredOne(cfg, codec, n, verbose, body, before, s, id))
    {
      StoringOneKeepsNames(cfg, codec, n, verbose, body, before, s, id);
    }
    StoringKeeps(cfg, codec, n, verbose, body, patch, s, |s.ids|, kept);
  }

  lemma StoringOneKeepsNames(
    cfg: Config, codec: Cycles.Codec, n: Notation, verbose: bool, body: Value, patch: Value, s: State, id: string
  )
    requires Shaped(body) && Shaped(patch) && id in s.states && KeepsNames(patch)
    ensures KeepsNames(StoredOne(cfg, codec, n, verbose, body, patch, s, id))
  {
    StoredKeepsNames(cfg.progress, MarkKey(id, body), body, patch, codec.encode(Obj(RecordOf(n, s, id, verbose))));
  }

  lemma StoredKeepsNames(naming: Naming, name: string, body: Value, patch: Value, text: string)
    requires Shaped(body) && Shaped(patch) && KeepsNames(patch)
    ensures KeepsNames(Cycles.Stored(naming, name, body, patch, text))
  {
    var r := Cycles.Stored(naming, name, body, patch, text);
    assert r.members - {"metadata"} == patch.members - {"metadata"};
    assert Meta(r) - {"annotations"} == Meta(patch) - {"annotations"};
    assert "kind"[0] != "metadata"[0] && "ownerReferences"[0] != "annotations"[0];
    assert "kind" in r.members <==> "kind" in r.members - {"metadata"};
    assert "kind" in patch.members <==> "kind" in patch.members - {"metadata"};
    assert "ownerReferences" in Meta(r) <==> "ownerReferences" in Meta(r) - {"annotations"};
    assert "ownerReferences" in Meta(patch) <==> "ownerReferences" in Meta(patch) - {"annotations"};
    assert KIND[1..] == [];
    OwnersField(patch);
    OwnersField(r);
  }

  /** The handlers were loaded from this body, and their fields are not used in the patch for anything else. */
  predicate Loaded(cfg: Config, codec: Cycles.Codec, body: Value, patch: Value, s: State, id: string)
    requires Shaped(body) && Shaped(patch)
  {
    && (id in s.origins ==> FetchRecord(cfg, codec, body, id) == Some(s.origins[id]))
    && (forall key :: key in KeysFor(cfg, body, id) ==> key !in Annotations(patch))
    && Untouched(patch, StatusPath(cfg, id))
  }

  /** The names are kept if the patch of the handlers does not touch the kind and the owners. */
  lemma StoredNamesAreKept(
    cfg: Config, codec: Cycles.Codec, n: Notation, verbose: bool, body: Value, patch: Value, s: State, id: string
  )
    requires Shaped(body) && Shaped(patch) && s.Valid() && KeepsNames(patch)
    ensures var merged := MergePatch(body, StoredState(cfg, codec, n, verbose, body, patch, s, |s.ids|));
            Shaped(merged) && MarkKey(id, merged) == MarkKey(id, body)
  {
    StoringKeepsNames(cfg, codec, n, verbose, body, patch, s);
    NamesAreKept(body, StoredState(cfg, codec, n, verbose, body, patch, s, |s.ids|), id);
  }

  /** For example, a replica set that gets its deployment by the very patch has its records looked for by other
      names. */
  lemma OwnersCanRename(id: string)
    ensures var body := Obj(map["kind" := Scalar(Text("ReplicaSet"))]);
            var owner := Obj(map["kind" := Scalar(Text("Deployment"))]);
            var patch := Obj(map["metadata" := Obj(map["ownerReferences" := List([owner])])]);
            && Shaped(body) && Shaped(patch) && Shaped(MergePatch(body, patch))
            && MarkKey(id, body) == id && MarkKey(id, MergePatch(body, patch)) == id + "-ofDRS"
  {
    var body := Obj(map["kind" := Scalar(Text("ReplicaSet"))]);
    var owner := Obj(map["kind" := Scalar(Text("Deployment"))]);
    var patch := Obj(map["metadata" := Obj(map["ownerReferences" := List([owner])])]);
    assert "kind"[0] != "metadata"[0] && "kind"[0] != "status"[0] && "metadata"[0] != "status"[0];
    assert "annotations"[0] != "ownerReferences"[0];
    MergedIsShaped(body, patch);
    var merged := MergePatch(body, patch);
    assert KIND[1..] == [] && OWNERS[1..] == ["ownerReferences"] && OWNERS[1..][1..] == [];
    FieldOfMerged(body, patch, KIND);
    FieldOfMerged(body, patch, OWNERS);
    assert ["kind"][1..] == [];
    assert Resolve(patch, OWNERS) == Resolve(patch.members["metadata"], ["ownerReferences"]) == Some(List([owner]));
    assert Resolve(body, OWNERS) == None;
    assert ResolveOr(merged, OWNERS, List([])) == List([owner]);
    assert owner in List([owner]).items;
    assert ResolveOr(owner, ["kind"], Null) == Scalar(Text("Deployment"));
  }

  /** The progress round trip: the state is stored, the patch is merged, and the state is loaded again by the same ids,
      if these are still named in the same way. */
  lemma ProgressRoundTrip(
    cfg: Config, codec: Cycles.Codec, n: Notation, verbose: bool, body: Value, patch: Value, s: State, i: nat, now: int
  )
    requires cfg.Valid() && codec.Lawful() && n.Lawful()
    requires Shaped(body) && Shaped(patch) && s.Valid() && i < |s.ids| && Apart(cfg, body, s.ids)
    requires Loaded(cfg, codec, body, patch, s, s.ids[i])
    ensures var id, merged := s.ids[i], MergePatch(body, StoredState(cfg, codec, n, verbose, body, patch, s, |s.ids|));
            && Shaped(merged)
            && (MarkKey(id, merged) == MarkKey(id, body) ==>
                  && FetchRecord(cfg, codec, merged, id) == Some(Obj(RecordOf(n, s, id, verbose)))
                  && (FromRecord(n, FetchRecord(cfg, codec, merged, id).value.members, now)
                       == s.states[id].(active := false)
                      <==> s.states[id].purpose != Some("")))
  {
    var id, stored := s.ids[i], StoredState(cfg, codec, n, verbose, body, patch, s, |s.ids|);
    var merged := MergePatch(body, stored);
    MergedIsShaped(body, stored);
    var keys, e := KeysFor(cfg, body, id), Obj(RecordOf(n, s, id, verbose));
    forall key | key in keys
      ensures IsChanged(n, s, id) ==>
        key in Annotations(merged) && Annotations(merged)[key] == Scalar(Text(codec.encode(e)))
      ensures !IsChanged(n, s, id) ==>
                (key in Annotations(merged) <==> key in Annotations(body))
                && (key in Annotations(merged) ==> Annotations(merged)[key] == Annotations(body)[key])
    {
      StoredAnnotations(cfg, codec, n, verbose, body, patch, s, |s.ids|, i, key);
      AnnotationOfMerged(body, stored, key);
    }
    if IsChanged(n, s, id) {
      Cycles.FetchedStored(codec, Annotations(merged), keys, e);
    } else {
      Cycles.FetchedSame(codec, Annotations(merged), Annotations(body), keys);
      StatusIsKept(cfg, codec, n, verbose, body, patch, s, i);
    }
    RecordRoundTripExactly(n, s.states[id], now, RecordOf(n, s, id, verbose));
  }

  lemma StatusIsKept(
    cfg: Config, codec: Cycles.Codec, n: Notation, verbose: bool, body: Value, patch: Value, s: State, i: nat
  )
    requires cfg.Valid() && Shaped(body) && Shaped(patch) && s.Valid() && i < |s.ids| && Apart(cfg, body, s.ids)
    requires Loaded(cfg, codec, body, patch, s, s.ids[i])
    ensures var path, stored := StatusPath(cfg, s.ids[i]), StoredState(cfg, codec, n, verbose, body, patch, s, |s.ids|);
            Resolve(MergePatch(body, stored), path) == Resolve(body, path)
  {
    var path, stored := StatusPath(cfg, s.ids[i]), StoredState(cfg, codec, n, verbose, body, patch, s, |s.ids|);
    StoredAside(cfg, codec, n, verbose, body, patch, s);
    assert path[0] == "status";
    assert "status" in stored.members <==> "status" in stored.members - {"metadata"};
    assert "status" in patch.members <==> "status" in patch.members - {"metadata"};
    assert "status" in stored.members ==>
      (stored.members - {"metadata"})["status"] == (patch.members - {"metadata"})["status"];
    if Clear(body, path) {
      FieldOfMerged(body, stored, path);
    } else {
      BrokenHasNothing(body, path);
      assert Resolve(stored, path) == Resolve(patch, path);
      NothingOfMerged(body, stored, path);
    }
  }

  /** The states that are as they were loaded are not stored again, so that the object is not touched for nothing. */
  lemma {:induction false} UnchangedIsNotStored(
    cfg: Config, codec: Cycles.Codec, n: Notation, verbose: bool, body: Value, patch: Value, s: State, count: nat
  )
    requires Shaped(body) && Shaped(patch) && s.Valid() && count <= |s.ids|
    requires forall i :: 0 <= i < count ==>
               s.ids[i] in s.origins && s.origins[s.ids[i]] == Obj(PureRecord(n, s.states[s.ids[i]]))
    ensures StoredState(cfg, codec, n, verbose, body, patch, s, count) == patch
    decreases count
  {
    if count > 0 { UnchangedIsNotStored(cfg, codec, n, verbose, body, patch, s, count - 1); }
  }

  /** A record is taken from the annotations, the present name first, then the older one; and if none of these hold
      anything, from the status, where the older versions kept it. */
  lemma OlderRecordsAreFound(cfg: Config, codec: Cycles.Codec, body: Value, id: string)
    requires Shaped(body)
    ensures var name, a := MarkKey(id, body), Annotations(body);
            var present, older := cfg.progress.V2Key(name), cfg.progress.V1Key(name);
            FetchRecord(cfg, codec, body, id)
            == if Cycles.Holds(codec, a, present) then Some(codec.decode(a[present].atom.text))
               else if cfg.progress.v1 && Cycles.Holds(codec, a, older) then Some(codec.decode(a[older].atom.text))
               else if ResolveOr(body, cfg.field + [id], Null) != Null then Resolve(body, cfg.field + [id])
               else None
  {
    var keys := KeysFor(cfg, body, id);
    BothNamesAreUsed(cfg.progress, MarkKey(id, body));
    Cycles.FetchedExactly(codec, Annotations(body), keys);
    if |keys| > 1 { assert keys[1] in keys; }
  }

  /** The condition is needed: different handlers can share their annotations, and then the last one wins. */
  lemma SharedKeysLose(naming: Naming)
    ensures naming.Keys("a/b") == naming.Keys("a.b")
  {
    var x, y := "a/b", "a.b";
    assert SafeKey(x) == SafeKey(y);
  }

  // ----- Purging -----

  /** All the fields where something of the handler can be. */
  function PathsFor(cfg: Config, body: Value, id: string): seq<Path>
    requires Shaped(body)
  {
    var keys := KeysFor(cfg, body, id);
    seq(|keys|, i requires 0 <= i < |keys| => KeyPath(keys[i])) + [StatusPath(cfg, id)]
  }

  function PathsForAll(cfg: Config, body: Value, ids: seq<string>): seq<Path>
    requires Shaped(body)
  {
    if ids == [] then [] else PathsForAll(cfg, body, ids[..|ids| - 1]) + PathsFor(cfg, body, ids[|ids| - 1])
  }

  /** Whatever is in the body is to be deleted; whatever is only in the patch is not to be written.
      It is a type error if there is something to be deleted, and the patch is broken above that. */
  function PurgedField(body: Value, patch: Value, path: Path): Value {
    if Resolve(body, path).Some? && Clear(patch, path) then Ensured(patch, path, Null)
    else if path != [] && Resolve(patch, path).Some? && Clear(patch, path) then Removed(patch, path)
    else patch
  }

  predicate CanPurge(body: Value, patch: Value, path: Path) {
    path != [] && (Resolve(body, path).Some? ==> Clear(patch, path))
  }

  function Purged(body: Value, patch: Value, paths: seq<Path>): Value
    decreases |paths|
  {
    if paths == [] then patch
    else PurgedField(body, Purged(body, patch, paths[..|paths| - 1]), paths[|paths| - 1])
  }

  /** `purge` for all these fields in its own steps, up to the first that fails. */
  method Purge(body: Value, patch: Dict, paths: seq<Path>) returns (ok: bool)
    requires forall i :: 0 <= i < |paths| ==> paths[i] != []
    modifies patch
    ensures ok ==> patch.root == Purged(body, old(patch.root), paths)
    ensures !ok ==> exists i :: 0 <= i < |paths| && patch.root == Purged(body, old(patch.root), paths[..i])
                                && !CanPurge(body, patch.root, paths[i])
  {
    for i := 0 to |paths|
      invariant patch.root == Purged(body, old(patch.root), paths[..i])
    {
      var path := paths[i];
      assert paths[..i + 1][..i] == paths[..i];
      if !Clear(patch.root, path) { BrokenHasNothing(patch.root, path); }
      if Resolve(body, path).Some? {
        ok := patch.Ensure(path, Null);
        if !ok {
          return;
        }
      } else if Resolve(patch.root, path).Some? {
        var _ := patch.Remove(path);
      }
    }
    assert paths[..|paths|] == paths;
    ok := true;
  }

  predicate IsPurged(body: Value, patch: Value, path: Path) {
    if Resolve(body, path).Some? then Resolve(patch, path) == Some(Null) else Resolve(patch, path).None?
  }

  predicate NoneNested(paths: seq<Path>) {
    forall i, j :: 0 <= i < |paths| && 0 <= j < |paths| && paths[i] != paths[j] ==> !Nested(paths[i], paths[j])
  }

  lemma FieldIsPurged(body: Value, patch: Value, path: Path)
    requires CanPurge(body, patch, path)
    ensures IsPurged(body, PurgedField(body, patch, path), path) && CanPurge(body, PurgedField(body, patch, path), path)
  {
    if Clear(patch, path) {
      EnsureThere(patch, path, Null);
      RemoveThere(patch, path);
    } else {
      BrokenHasNothing(patch, path);
    }
  }

  lemma OtherFieldIsSame(body: Value, patch: Value, path: Path, q: Path)
    requires !Nested(path, q)
    ensures Resolve(PurgedField(body, patch, path), q) == Resolve(patch, q)
    ensures Clear(patch, q) ==> Clear(PurgedField(body, patch, path), q)
  {
    if path != [] && Clear(patch, path) {
      EnsureElsewhere(patch, path, Null, q);
      RemoveElsewhere(patch, path, q);
    }
  }

  lemma {:induction false} AllArePurged(body: Value, patch: Value, paths: seq<Path>, count: nat, i: nat)
    requires forall j :: 0 <= j < |paths| ==> CanPurge(body, patch, paths[j])
    requires NoneNested(paths) && count <= |paths| && i < |paths|
    ensures CanPurge(body, Purged(body, patch, paths[..count]), paths[i])
    ensures i < count ==> IsPurged(body, Purged(body, patch, paths[..count]), paths[i])
    decreases count
  {
    if count > 0 {
      var last, before := count - 1, Purged(body, patch, paths[..count - 1]);
      assert paths[..count][..last] == paths[..last];
      AllArePurged(body, patch, paths, last, last);
      FieldIsPurged(body, before, paths[last]);
      if paths[i] != paths[last] {
        AllArePurged(body, patch, paths, last, i);
        OtherFieldIsSame(body, before, paths[last], paths[i]);
      }
    } else {
      assert paths[..0] == [];
    }
  }

  /** A field of either storage. */
  predicate IsPathOf(cfg: Config, path: Path) {
    (|path| == 3 && path[..2] == ANNOTATIONS) || (|path| == |cfg.field| + 1 && path[0] == "status")
  }

  lemma PathsAreApart(cfg: Config, p: Path, q: Path)
    requires cfg.Valid() && p != q && IsPathOf(cfg, p) && IsPathOf(cfg, q)
    ensures !Nested(p, q)
  {
    assert "metadata"[0] != "status"[0];
    assert |p| == 3 && p[..2] == ANNOTATIONS ==> p[..2][0] == p[0] == "metadata";
    assert |q| == 3 && q[..2] == ANNOTATIONS ==> q[..2][0] == q[0] == "metadata";
  }

  /** The handlers' own ids, then those of the others in the state, and the sub-handlers referred by each. */
  function IdsToPurge(n: Notation, handlers: seq<string>, s: State, count: nat): seq<string>
    requires s.Valid() && count <= |s.ids|
    decreases count
  {
    if count == 0 then handlers
    else
      var id := s.ids[count - 1];
      IdsToPurge(n, handlers, s, count - 1) + (if id in handlers then [] else [id]) + n.listed(s.states[id].subrefs)
  }

  lemma {:induction false} NobodyIsMissed(n: Notation, handlers: seq<string>, s: State, count: nat, id: string)
    requires n.Lawful() && s.Valid() && count <= |s.ids|
    requires id in handlers || exists i :: 0 <= i < count && (id == s.ids[i] || id in s.states[s.ids[i]].subrefs)
    ensures id in IdsToPurge(n, handlers, s, count)
    decreases count
  {
    if count > 0 {
      var last := s.ids[count - 1];
      assert Elements(n.listed(s.states[last].subrefs)) == s.states[last].subrefs;
      if id != last && id !in s.states[last].subrefs {
        NobodyIsMissed(n, handlers, s, count - 1, id);
      } else if id == last && id in handlers {
        NobodyIsMissed(n, handlers, s, count - 1, id);
      } else if id in s.states[last].subrefs {
        assert id in Elements(n.listed(s.states[last].subrefs));
      }
    }
  }

  /** The patch is not broken above anything that is to be deleted from the status; the status itself can be broken. */
  predicate Unbroken(cfg: Config, body: Value, patch: Value, ids: seq<string>) {
    && Shaped(body) && Shaped(patch)
    && forall i :: 0 <= i < |ids| ==> CanPurge(body, patch, StatusPath(cfg, ids[i]))
  }

  lemma PathsOfOne(cfg: Config, body: Value, patch: Value, id: string, path: Path)
    requires cfg.Valid() && Unbroken(cfg, body, patch, [id]) && path in PathsFor(cfg, body, id)
    ensures IsPathOf(cfg, path) && CanPurge(body, patch, path)
  {
    assert [id][0] == id;
    var keys := KeysFor(cfg, body, id);
    if path != StatusPath(cfg, id) {
      var i :| 0 <= i < |keys| && path == KeyPath(keys[i]);
      FieldOfAnnotation(patch, keys[i]);
    }
  }

  lemma {:induction false} PathsOfAll(cfg: Config, body: Value, patch: Value, ids: seq<string>)
    requires cfg.Valid() && Unbroken(cfg, body, patch, ids)
    ensures forall path :: path in PathsForAll(cfg, body, ids) ==> IsPathOf(cfg, path) && CanPurge(body, patch, path)
    ensures forall id, path :: id in ids && path in PathsFor(cfg, body, id) ==> path in PathsForAll(cfg, body, ids)
    decreases |ids|
  {
    if ids != [] {
      var n := |ids| - 1;
      assert ids == ids[..n] + [ids[n]];
      PathsOfAll(cfg, body, patch, ids[..n]);
      forall path | path in PathsFor(cfg, body, ids[n]) ensures IsPathOf(cfg, path) && CanPurge(body, patch, path) {
        PathsOfOne(cfg, body, patch, ids[n], path);
      }
    }
  }

  lemma PurgedIsGone(cfg: Config, body: Value, patch: Value, ids: seq<string>, path: Path)
    requires cfg.Valid() && Unbroken(cfg, body, patch, ids) && path in PathsForAll(cfg, body, ids)
    ensures Resolve(MergePatch(body, Purged(body, patch, PathsForAll(cfg, body, ids))), path).None?
  {
    var paths := PathsForAll(cfg, body, ids);
    var purged := Purged(body, patch, paths);
    PathsOfAll(cfg, body, patch, ids);
    forall i, j | 0 <= i < |paths| && 0 <= j < |paths| && paths[i] != paths[j] ensures !Nested(paths[i], paths[j]) {
      PathsAreApart(cfg, paths[i], paths[j]);
    }
    forall j | 0 <= j < |paths| ensures CanPurge(body, patch, paths[j]) { assert paths[j] in paths; }
    var i :| 0 <= i < |paths| && paths[i] == path;
    assert paths[..|paths|] == paths;
    AllArePurged(body, patch, paths, |paths|, i);
    if Resolve(body, path).Some? {
      if !Clear(body, path) { BrokenHasNothing(body, path); }
      FieldOfMerged(body, purged, path);
    } else {
      NothingOfMerged(body, purged, path);
    }
  }

  /** The stanzas remain dicts: an annotation and a field of the status are aside of some others. */
  lemma PurgedFieldIsShaped(cfg: Config, body: Value, patch: Value, path: Path)
    requires cfg.Valid() && Shaped(patch) && IsPathOf(cfg, path)
    ensures Shaped(PurgedField(body, patch, path))
  {
    var key := if |path| == 3 && path[..2] == ANNOTATIONS then path[2] + "x" else "";
    var other := path[1] + "x";
    var p, q := KeyPath(key), ["status", other];
    assert |key| != |path[2]| || path[..2] != ANNOTATIONS || |path| != 3;
    assert "metadata"[0] != "status"[0];
    assert p == ["metadata", "annotations", key];
    assert !Nested(path, p) by {
      if |path| == 3 && path[..2] == ANNOTATIONS { assert p[2] != path[2]; } else { assert p[0] != path[0]; }
    }
    assert !Nested(path, q) by {
      assert |other| != |path[1]| && q[1] != path[1];
    }
    FieldOfAnnotation(patch, key);
    assert q[1..] == [other];
    OtherFieldIsSame(body, patch, path, p);
    OtherFieldIsSame(body, patch, path, q);
    ClearMeansShaped(PurgedField(body, patch, path), key, other);
  }

  lemma {:induction false} PurgedIsShaped(cfg: Config, body: Value, patch: Value, paths: seq<Path>)
    requires cfg.Valid() && Shaped(patch) && forall path :: path in paths ==> IsPathOf(cfg, path)
    ensures Shaped(Purged(body, patch, paths))
    decreases |paths|
  {
    if paths != [] {
      var n := |paths| - 1;
      assert paths == paths[..n] + [paths[n]];
      PurgedIsShaped(cfg, body, patch, paths[..n]);
      PurgedFieldIsShaped(cfg, body, Purged(body, patch, paths[..n]), paths[n]);
    }
  }

  lemma {:induction false} PurgingKeepsNames(cfg: Config, body: Value, patch: Value, paths: seq<Path>)
    requires cfg.Valid() && KeepsNames(patch)
    requires forall path :: path in paths ==> IsPathOf(cfg, path)
    ensures KeepsNames(Purged(body, patch, paths))
    decreases |paths|
  {
    if paths != [] {
      var n := |paths| - 1;
      assert paths == paths[..n] + [paths[n]];
      PurgingKeepsNames(cfg, body, patch, paths[..n]);
      OwnPathsAreNoNames(cfg, paths[n]);
      OtherFieldIsSame(body, Purged(body, patch, paths[..n]), paths[n], KIND);
      OtherFieldIsSame(body, Purged(body, patch, paths[..n]), paths[n], OWNERS);
    }
  }

  lemma OwnPathsAreNoNames(cfg: Config, path: Path)
    requires cfg.Valid() && IsPathOf(cfg, path)
    ensures !Nested(path, KIND) && !Nested(path, OWNERS)
  {
    assert "metadata"[0] != "status"[0] && "kind"[0] != "metadata"[0] && "kind"[0] != "status"[0];
    assert "annotations"[0] != "ownerReferences"[0];
    assert |path| == 3 && path[..2] == ANNOTATIONS ==>
        path[..2][0] == path[0] == "metadata" && path[..2][1] == path[1] == "annotations";
    assert OWNERS[1] == "ownerReferences" && OWNERS[0] == "metadata" && KIND[0] == "kind";
  }

  lemma PurgedNamesAreKept(cfg: Config, body: Value, patch: Value, ids: seq<string>, id: string)
    requires cfg.Valid() && Unbroken(cfg, body, patch, ids) && id in ids && KeepsNames(patch)
    ensures var merged := MergePatch(body, Purged(body, patch, PathsForAll(cfg, body, ids)));
            Shaped(merged) && MarkKey(id, merged) == MarkKey(id, body)
  {
    PathsOfAll(cfg, body, patch, ids);
    PurgedIsShaped(cfg, body, patch, PathsForAll(cfg, body, ids));
    PurgingKeepsNames(cfg, body, patch, PathsForAll(cfg, body, ids));
    NamesAreKept(body, Purged(body, patch, PathsForAll(cfg, body, ids)), id);
  }

  /** After the purge, the object has no records of the handlers, whatever was there and whatever was going to be
      there. */
  lemma PurgeErases(
    cfg: Config, codec: Cycles.Codec, n: Notation, body: Value, patch: Value, handlers: seq<string>, s: State,
    id: string
  )
    requires cfg.Valid() && n.Lawful() && s.Valid()
    requires Unbroken(cfg, body, patch, IdsToPurge(n, handlers, s, |s.ids|))
    requires id in handlers || exists i :: 0 <= i < |s.ids| && (id == s.ids[i] || id in s.states[s.ids[i]].subrefs)
    ensures var merged :=
      MergePatch(body, Purged(body, patch, PathsForAll(cfg, body, IdsToPurge(n, handlers, s, |s.ids|))));
            && Shaped(merged)
            && (forall key :: key in KeysFor(cfg, body, id) ==> key !in Annotations(merged))
            && Resolve(merged, StatusPath(cfg, id)).None?
            && (MarkKey(id, merged) == MarkKey(id, body) ==> FetchRecord(cfg, codec, merged, id) == None)
  {
    var ids := IdsToPurge(n, handlers, s, |s.ids|);
    NobodyIsMissed(n, handlers, s, |s.ids|, id);
    var purged := Purged(body, patch, PathsForAll(cfg, body, ids));
    var merged := MergePatch(body, purged);
    PathsOfAll(cfg, body, patch, ids);
    PurgedIsShaped(cfg, body, patch, PathsForAll(cfg, body, ids));
    MergedIsShaped(body, purged);
    var keys, paths := KeysFor(cfg, body, id), PathsFor(cfg, body, id);
    forall i | 0 <= i < |paths| ensures Resolve(merged, paths[i]).None? {
      assert paths[i] in paths;
      PurgedIsGone(cfg, body, patch, ids, paths[i]);
    }
    assert paths[|keys|] == StatusPath(cfg, id);
    forall key | key in keys ensures key !in Annotations(merged) {
      var i :| 0 <= i < |keys| && keys[i] == key;
      assert paths[i] == KeyPath(key);
      FieldOfAnnotation(merged, key);
    }
    Cycles.NothingFetched(codec, Annotations(merged), keys);
  }

  /** If the patch touches neither the kind nor the owners of the object, nothing is found of the handlers after the
      purge. */
  lemma PurgedIsForgotten(
    cfg: Config, codec: Cycles.Codec, n: Notation, body: Value, patch: Value, handlers: seq<string>, s: State,
    id: string
  )
    requires cfg.Valid() && n.Lawful() && s.Valid() && KeepsNames(patch)
    requires Unbroken(cfg, body, patch, IdsToPurge(n, handlers, s, |s.ids|))
    requires id in handlers || exists i :: 0 <= i < |s.ids| && (id == s.ids[i] || id in s.states[s.ids[i]].subrefs)
    ensures var ids := IdsToPurge(n, handlers, s, |s.ids|);
            var merged := MergePatch(body, Purged(body, patch, PathsForAll(cfg, body, ids)));
            Shaped(merged) && FetchRecord(cfg, codec, merged, id) == None
  {
    NobodyIsMissed(n, handlers, s, |s.ids|, id);
    PurgedNamesAreKept(cfg, body, patch, IdsToPurge(n, handlers, s, |s.ids|), id);
    PurgeErases(cfg, codec, n, body, patch, handlers, s, id);
  }
}
