/** Applying a merge-patch to a body in memory, as in kopf/_cogs/structs/patches.py,
    against MergePatch of section 2 of RFC 7386 (now RFC 7396). */
module MergePatches {
  import opened Wrappers
  import opened Trees

  /** The standard's own definition. An absent target is given as Null, which is not an object either. */
  function MergePatch(target: Value, patch: Value): (r: Value)
    ensures r.Obj? <==> patch.Obj?
    decreases patch
  {
    if !patch.Obj? then patch
    else
      var base := if target.Obj? then target.members else map[];
      Obj(map k | k in base.Keys + patch.members.Keys && !(k in patch.members && patch.members[k].Null?) ::
            if k in patch.members then MergePatch(if k in base then base[k] else Null, patch.members[k])
            else base[k])
  }

  /** Objects of the patch meet only objects of the target, or nothing. */
  predicate Meets(target: Value, patch: Value)
    decreases patch
  {
    patch.Obj? ==>
      && target.Obj?
      && forall k :: k in patch.members && k in target.members ==> Meets(target.members[k], patch.members[k])
  }

  /** What a patch makes of the value `was` that the target holds at `q`. */
  function PatchedLeaf(patch: Value, q: Path, was: Option<Value>): Option<Value>
    decreases q
  {
    if patch.Null? then None
    else if !patch.Obj? then LeafAt(patch, q)
    else if q != [] && q[0] in patch.members then PatchedLeaf(patch.members[q[0]], q[1..], was)
    else was
  }

  predicate ObjectAt(patch: Value, r: Path) {
    Resolve(patch, r).Some? && Resolve(patch, r).value.Obj?
  }

  /** The tree with a new value at the end of the path through these parents. */
  function Rebuilt(parents: seq<map<string, Value>>, path: Path, x: Value): Value
    requires |parents| == |path|
  {
    if path == [] then x else Obj(parents[0][path[0] := Rebuilt(parents[1..], path[1..], x)])
  }

  lemma {:induction false} RebuiltOnce(
    parents: seq<map<string, Value>>, path: Path, parent: map<string, Value>, key: string, x: Value
  )
    requires |parents| == |path|
    ensures Rebuilt(parents + [parent], path + [key], x) == Rebuilt(parents, path, Obj(parent[key := x]))
    decreases path
  {
    if path == [] {
      assert ([parent])[1..] == [] && ([key])[1..] == [];
      assert [] + [parent] == [parent] && [] + [key] == [key];
    } else {
      assert (parents + [parent])[1..] == parents[1..] + [parent] && (path + [key])[1..] == path[1..] + [key];
      RebuiltOnce(parents[1..], path[1..], parent, key, x);
    }
  }

  /** A dict that the operator mutates in memory: a body or a patch. */
  class Dict {
    var root: Value

    constructor (body: Value)
      ensures root == body
    {
      root := body;
    }

    /** `dicts.ensure`: down through the parents, which are made if missing, and back with the new ones.
        It fails exactly if a value is above the field; or else the field holds what was put there, and nothing else
        changes. */
    method Ensure(path: Path, x: Value) returns (ok: bool)
      requires path != []
      modifies this
      ensures ok <==> forall r: Path | r < path :: LeafAt(old(root), r).None?
      ensures ok == Clear(old(root), path)
      ensures ok ==>
        forall q: Path :: LeafAt(root, q) == if path <= q then LeafAt(x, q[|path|..]) else LeafAt(old(root), q)
      ensures if ok then root == Ensured(old(root), path, x) else root == old(root)
    {
      ClearMeansNoLeafAbove(root, path);
      ghost var was := root;
      var parents, last;
      ok, parents, last := Descend(root, path, x);
      if !ok {
        return;
      }
      var i := |path| - 1;
      var result := Obj(last[path[i] := x]);
      assert parents[..i] == parents;
      while i > 0
        invariant 0 <= i < |path| && root == was
        invariant Ensured(was, path, x) == Rebuilt(parents[..i], path[..i], result)
      {
        i := i - 1;
        assert parents[..i + 1] == parents[..i] + [parents[i]] && path[..i + 1] == path[..i] + [path[i]];
        RebuiltOnce(parents[..i], path[..i], parents[i], path[i], result);
        result := Obj(parents[i][path[i] := result]);
      }
      assert parents[..0] == [] && path[..0] == [];
      root := result;
      forall q: Path ensures LeafAt(root, q) == if path <= q then LeafAt(x, q[|path|..]) else LeafAt(was, q) {
        LeafAfterEnsure(was, path, x, q);
      }
    }

    /** The walk to the dict of the field, through the parents. */
    static method Descend(d: Value, path: Path, ghost x: Value)
      returns (ok: bool, parents: seq<map<string, Value>>, last: map<string, Value>)
      requires path != []
      ensures ok == Clear(d, path)
      ensures ok ==> |parents| == |path| - 1
      ensures ok ==> Ensured(d, path, x) == Rebuilt(parents, path[..|path| - 1], Obj(last[path[|path| - 1] := x]))
    {
      parents := [];
      var current, i := d, 0;
      assert path[0..] == path;
      while i < |path| - 1
        invariant 0 <= i == |parents| <= |path| - 1
        invariant Clear(d, path) <==> Clear(current, path[i..])
        invariant Clear(d, path) ==> Ensured(d, path, x) == Rebuilt(parents, path[..i], Ensured(current, path[i..], x))
      {
        if !current.Obj? {
          return false, [], map[];
        }
        assert path[i..][1..] == path[i + 1..] && path[..i + 1] == path[..i] + [path[i]];
        if Clear(d, path) {
          RebuiltOnce(parents, path[..i], current.members, path[i], Ensured(Child(current, path[i]), path[i + 1..], x));
        }
        parents := parents + [current.members];
        current := Child(current, path[i]);
        i := i + 1;
      }
      ok := current.Obj?;
      last := if ok then current.members else map[];
      assert path[i..] == [path[i]] && path[i..][1..] == [];
    }

    /** `dicts.remove`: it fails exactly if a value is above the field; or else nothing is left under the field,
        and no other value is lost with the emptied parents. */
    method Remove(path: Path) returns (ok: bool)
      requires path != []
      modifies this
      ensures ok <==> forall r: Path | r < path :: LeafAt(old(root), r).None?
      ensures ok == Clear(old(root), path)
      ensures ok ==> forall q: Path :: LeafAt(root, q) == if path <= q then None else LeafAt(old(root), q)
      ensures if ok then root == Removed(old(root), path) else root == old(root)
    {
      ClearMeansNoLeafAbove(root, path);
      ghost var was := root;
      var removed;
      ok, removed := RemoveFrom(root, path);
      if ok {
        root := removed;
        forall q: Path ensures LeafAt(root, q) == if path <= q then None else LeafAt(was, q) {
          LeafAfterRemove(was, path, q);
        }
      }
    }

    static method RemoveFrom(d: Value, path: Path) returns (ok: bool, removed: Value)
      requires path != []
      ensures ok == Clear(d, path) && (ok ==> removed == Removed(d, path))
      decreases path
    {
      removed := d;
      if !d.Obj? {
        return false, d;
      }
      if |path| == 1 {
        return true, Obj(d.members - {path[0]});
      }
      if path[0] !in d.members {
        return true, d;
      }
      var rest;
      ok, rest := RemoveFrom(d.members[path[0]], path[1..]);
      if ok {
        removed := if rest == EMPTY then Obj(d.members - {path[0]}) else Obj(d.members[path[0] := rest]);
      }
    }

    /** `Patch._apply_patch`: leaf by leaf, always from the root, in whatever order the keys come. */
    method ApplyPatch(path: Path, patch: Value) returns (ok: bool)
      requires path == [] ==> patch.Obj?
      modifies this
      ensures Ready(old(root), path, patch) ==> ok
      ensures ok ==> forall q: Path :: LeafAt(root, q) == Effect(old(root), path, patch, q)
      decreases patch
    {
      ghost var before := root;
      if patch.Null? {
        ok := Remove(path);
        ReadyMeansClear(before, path, patch);
        if ok {
          forall q: Path ensures LeafAt(root, q) == Effect(before, path, patch, q) {
            LeafAfterRemove(before, path, q);
          }
        }
      } else if !patch.Obj? {
        ok := Ensure(path, patch);
        ReadyMeansClear(before, path, patch);
        if ok {
          forall q: Path ensures LeafAt(root, q) == Effect(before, path, patch, q) {
            LeafAfterEnsure(before, path, patch, q);
          }
        }
      } else {
        var todo := patch.members.Keys;
        ok := true;
        while todo != {}
          invariant todo <= patch.members.Keys
          invariant Ready(before, path, patch) ==> ok
          invariant ok ==> forall q: Path :: LeafAt(root, q) == PartEffect(before, path, patch, todo, q)
          decreases todo
        {
          var key :| key in todo;
          ghost var partly := root;
          if Ready(before, path, patch) && ok {
            StillReady(before, partly, path, patch, todo, key);
          }
          var applied := ApplyPatch(path + [key], patch.members[key]);
          if ok && applied {
            forall q: Path ensures LeafAt(root, q) == PartEffect(before, path, patch, todo - {key}, q) {
              assert LeafAt(root, q) == Effect(partly, path + [key], patch.members[key], q);
            }
          }
          ok := ok && applied;
          todo := todo - {key};
          if !ok {
            return;
          }
        }
        if ok {
          forall q: Path ensures LeafAt(root, q) == Effect(before, path, patch, q) {
            assert LeafAt(root, q) == PartEffect(before, path, patch, {}, q);
          }
        }
      }
    }

    /** Applying a patch to a body agrees with the standard, up to empty dicts, exactly when the objects
        of the patch meet only objects or nothing. Otherwise it fails, or leaves something else. */
    method Merge(patch: Value) returns (ok: bool)
      requires root.Obj? && patch.Obj?
      modifies this
      ensures ok && Pruned(root) == Pruned(MergePatch(old(root), patch)) <==> Meets(old(root), patch)
    {
      ghost var before := root;
      ok := ApplyPatch([], patch);
      if Meets(before, patch) {
        MeetsMeansReady(before, patch);
        forall q: Path ensures LeafAt(root, q) == LeafAt(MergePatch(before, patch), q) {
          LeafOfMergePatch(before, patch, q);
          assert LeafAt(root, q) == Effect(before, [], patch, q);
        }
        SameLeavesSamePruned(root, MergePatch(before, patch));
      } else if ok {
        var r, x := Clash(before, patch);
        assert LeafAt(root, r) == Effect(before, [], patch, r);
        EffectAtObject(patch, r, LeafAt(before, r));
        NoLeafAtObject(before, patch, r);
        SameLeavesSamePruned(root, MergePatch(before, patch));
      }
    }
  }

  ghost function Effect(before: Value, path: Path, patch: Value, q: Path): Option<Value> {
    if path <= q then PatchedLeaf(patch, q[|path|..], LeafAt(before, q)) else LeafAt(before, q)
  }

  /** The same, while the keys in `todo` are not applied yet. */
  ghost function PartEffect(before: Value, path: Path, patch: Value, todo: set<string>, q: Path): Option<Value> {
    if path < q && q[|path|] in todo then LeafAt(before, q) else Effect(before, path, patch, q)
  }

  /** No value of the body is in the way of the patch applied at this path. */
  ghost predicate Ready(before: Value, path: Path, patch: Value) {
    && (forall r: Path | r < path :: LeafAt(before, r).None?)
    && (forall r: Path | ObjectAt(patch, r) :: LeafAt(before, path + r).None?)
  }

  lemma ReadyMeansClear(before: Value, path: Path, patch: Value)
    ensures Ready(before, path, patch) ==> Clear(before, path)
  {
    ClearMeansNoLeafAbove(before, path);
  }

  lemma StillReady(before: Value, partly: Value, path: Path, patch: Value, todo: set<string>, key: string)
    requires patch.Obj? && todo <= patch.members.Keys && key in todo
    requires Ready(before, path, patch)
    requires forall q: Path :: LeafAt(partly, q) == PartEffect(before, path, patch, todo, q)
    ensures Ready(partly, path + [key], patch.members[key])
  {
    forall r: Path | r < path + [key] ensures LeafAt(partly, r).None? {
      assert LeafAt(partly, r) == PartEffect(before, path, patch, todo, r);
      if r == path {
        assert ObjectAt(patch, []) && path + [] == path;
      } else {
        assert r < path;
      }
    }
    forall r: Path | ObjectAt(patch.members[key], r) ensures LeafAt(partly, path + [key] + r).None? {
      var q := path + [key] + r;
      assert ObjectAt(patch, [key] + r) by { assert ([key] + r)[1..] == r; }
      assert q == path + ([key] + r);
      assert LeafAt(partly, q) == PartEffect(before, path, patch, todo, q);
      assert q[|path|] == key;
    }
  }

  /** The standard, value by value. */
  lemma {:induction false} LeafOfMergePatch(target: Value, patch: Value, q: Path)
    requires patch.Obj? && Meets(target, patch)
    ensures LeafAt(MergePatch(target, patch), q) == PatchedLeaf(patch, q, LeafAt(target, q))
    decreases q
  {
    if q != [] && q[0] in patch.members {
      var p := patch.members[q[0]];
      if p.Obj? {
        if q[0] in target.members {
          LeafOfMergePatch(target.members[q[0]], p, q[1..]);
        } else {
          LeafOfMergeIntoNothing(p, q[1..]);
        }
      }
    }
  }

  lemma {:induction false} LeafOfMergeIntoNothing(patch: Value, q: Path)
    requires patch.Obj?
    ensures LeafAt(MergePatch(Null, patch), q) == PatchedLeaf(patch, q, None)
    decreases q
  {
    if q != [] && q[0] in patch.members && patch.members[q[0]].Obj? {
      LeafOfMergeIntoNothing(patch.members[q[0]], q[1..]);
    }
  }

  lemma {:induction false} MeetsMeansReady(target: Value, patch: Value)
    requires patch.Obj? && Meets(target, patch)
    ensures Ready(target, [], patch)
  {
    forall r: Path | ObjectAt(patch, r) ensures LeafAt(target, [] + r).None? {
      assert [] + r == r;
      NoClash(target, patch, r);
    }
  }

  lemma {:induction false} NoClash(target: Value, patch: Value, r: Path)
    requires ObjectAt(patch, r) && Meets(target, patch)
    ensures LeafAt(target, r).None?
    decreases r
  {
    if r != [] && r[0] in target.members {
      NoClash(target.members[r[0]], patch.members[r[0]], r[1..]);
    }
  }

  lemma {:induction false} Clash(target: Value, patch: Value) returns (r: Path, x: Value)
    requires !Meets(target, patch)
    ensures ObjectAt(patch, r) && LeafAt(target, r) == Some(x)
    decreases patch
  {
    if target.Obj? {
      var k :| k in patch.members && k in target.members && !Meets(target.members[k], patch.members[k]);
      var below;
      below, x := Clash(target.members[k], patch.members[k]);
      r := [k] + below;
      assert r[1..] == below;
    } else {
      r, x := [], target;
    }
  }

  lemma {:induction false} EffectAtObject(patch: Value, r: Path, was: Option<Value>)
    requires ObjectAt(patch, r)
    ensures PatchedLeaf(patch, r, was) == was
    decreases r
  {
    if r != [] {
      EffectAtObject(patch.members[r[0]], r[1..], was);
    }
  }

  lemma {:induction false} NoLeafAtObject(target: Value, patch: Value, r: Path)
    requires ObjectAt(patch, r)
    ensures LeafAt(MergePatch(target, patch), r).None?
    decreases r
  {
    if r != [] {
      var base := if target.Obj? then target.members else map[];
      NoLeafAtObject(if r[0] in base then base[r[0]] else Null, patch.members[r[0]], r[1..]);
    }
  }
}
