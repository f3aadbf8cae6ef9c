/** JSON-like trees and the path operations on them, as in kopf/_cogs/structs/dicts.py. */
module Trees {
  import opened Wrappers

  // A tree is what a parsed JSON body is in the operator's memory. Paths are already parsed, i.e. sequences of keys.
  // The operations that change a dict in place are given here as functions from the old tree to the new one;
  // the places that call them reassign the tree they own.

  datatype Atom = Text(text: string) | Number(number: int) | Truth(truth: bool)

  datatype Value = Null | Scalar(atom: Atom) | List(items: seq<Value>) | Obj(members: map<string, Value>)

  type Path = seq<string>

  const EMPTY: Value := Obj(map[])

  /** The sub-tree at the path, or nothing if a key is absent or a non-dict is on the way. */
  function Resolve(v: Value, path: Path): Option<Value> {
    if path == [] then Some(v)
    else if v.Obj? && path[0] in v.members then Resolve(v.members[path[0]], path[1..])
    else None
  }

  function ResolveOr(v: Value, path: Path, default: Value): Value {
    match Resolve(v, path)
    case Some(found) => found
    case None => default
  }

  /** The walk itself: `resolve` with a default never fails, however broken the tree is. */
  method ResolveField(v: Value, path: Path, default: Value) returns (result: Value)
    ensures result == ResolveOr(v, path, default)
  {
    result := v;
    var i := 0;
    while i < |path|
      invariant 0 <= i <= |path|
      invariant Resolve(v, path) == Resolve(result, path[i..])
    {
      if !result.Obj? || path[i] !in result.members {
        return default;
      }
      result := result.members[path[i]];
      i := i + 1;
    }
  }

  /** Every existing parent on the path is a dict, so that no path operation raises a type error. */
  predicate Clear(v: Value, path: Path) {
    path != [] ==>
      v.Obj? && (path[0] in v.members ==> Clear(v.members[path[0]], path[1..]))
  }

  function Child(v: Value, key: string): (child: Value)
    requires v.Obj?
  {
    if key in v.members then v.members[key] else EMPTY
  }

  /** `ensure`: set the field, create the missing parents. */
  function Ensured(v: Value, path: Path, x: Value): (r: Value)
    requires Clear(v, path)
    ensures path != [] ==> r.Obj?
    decreases path
  {
    if path == [] then x
    else Obj(v.members[path[0] := Ensured(Child(v, path[0]), path[1..], x)])
  }

  /** `remove`: delete the field, and then all the parents that are empty on the way back. */
  function Removed(v: Value, path: Path): (r: Value)
    requires path != [] && Clear(v, path)
    ensures r.Obj?
    decreases path
  {
    if |path| == 1 then Obj(v.members - {path[0]})
    else if path[0] !in v.members then v
    else
      var rest := Removed(v.members[path[0]], path[1..]);
      if rest == EMPTY then Obj(v.members - {path[0]})
      else Obj(v.members[path[0] := rest])
  }

  /** The non-dict value at the path, if there is one. */
  function LeafAt(v: Value, path: Path): Option<Value> {
    if path == [] then (if v.Obj? then None else Some(v))
    else if v.Obj? && path[0] in v.members then LeafAt(v.members[path[0]], path[1..])
    else None
  }

  /** The trees hold the same values at the same paths; they can differ in empty dicts only. */
  ghost predicate SameLeaves(a: Value, b: Value) {
    forall q: Path :: LeafAt(a, q) == LeafAt(b, q)
  }

  /** The tree with all empty dicts dropped, at every depth. */
  function Pruned(v: Value): (r: Value)
    ensures r.Obj? <==> v.Obj?
  {
    if v.Obj? then
      Obj(map k | k in v.members && Pruned(v.members[k]) != EMPTY :: Pruned(v.members[k]))
    else v
  }

  /** A field is what was put there, and nothing else changes. */
  lemma {:induction false} LeafAfterEnsure(v: Value, path: Path, x: Value, q: Path)
    requires Clear(v, path)
    decreases path
    ensures LeafAt(Ensured(v, path, x), q) == (if path <= q then LeafAt(x, q[|path|..]) else LeafAt(v, q))
  {
    if path != [] && q != [] {
      if path[0] == q[0] {
        LeafAfterEnsure(Child(v, path[0]), path[1..], x, q[1..]);
        assert path <= q ==> q[|path|..] == q[1..][|path[1..]|..];
      }
    }
  }

  /** Nothing is left under a removed field; dropping the empty parents loses no other value. */
  lemma {:induction false} LeafAfterRemove(v: Value, path: Path, q: Path)
    requires path != [] && Clear(v, path)
    ensures LeafAt(Removed(v, path), q) == (if path <= q then None else LeafAt(v, q))
  {
    if q != [] {
      if path[0] == q[0] && path[0] in v.members && |path| > 1 {
        LeafAfterRemove(v.members[path[0]], path[1..], q[1..]);
      }
    }
  }

  /** A walk can only be broken by a value above its end. */
  lemma {:induction false} ClearMeansNoLeafAbove(v: Value, path: Path)
    ensures Clear(v, path) <==> forall r: Path | r < path :: LeafAt(v, r).None?
  {
    if Clear(v, path) {
      forall r: Path | r < path ensures LeafAt(v, r).None? {
        NoLeafAbove(v, path, r);
      }
    } else {
      var r := LeafAbove(v, path);
    }
  }

  lemma {:induction false} NoLeafAbove(v: Value, path: Path, r: Path)
    requires Clear(v, path) && r < path
    ensures LeafAt(v, r).None?
  {
    if r != [] && path[0] in v.members {
      NoLeafAbove(v.members[path[0]], path[1..], r[1..]);
    }
  }

  lemma {:induction false} LeafAbove(v: Value, path: Path) returns (r: Path)
    requires !Clear(v, path)
    ensures r < path && LeafAt(v, r).Some?
    decreases path
  {
    if v.Obj? {
      var below := LeafAbove(v.members[path[0]], path[1..]);
      r := [path[0]] + below;
      assert r[1..] == below;
    } else {
      r := [];
    }
  }

  lemma {:induction false} PruningKeepsLeaves(v: Value, q: Path)
    ensures LeafAt(Pruned(v), q) == LeafAt(v, q)
    decreases q
  {
    if q != [] && v.Obj? && q[0] in v.members {
      PruningKeepsLeaves(v.members[q[0]], q[1..]);
      if Pruned(v.members[q[0]]) == EMPTY {
        assert LeafAt(EMPTY, q[1..]).None?;
      }
    }
  }

  /** A pruned tree that is not empty has a value somewhere. */
  lemma {:induction false} SomeLeaf(v: Value) returns (q: Path)
    requires Pruned(v) != EMPTY
    ensures LeafAt(v, q).Some?
    decreases v
  {
    if v.Obj? {
      assert Pruned(v).members != map[];
      var k :| k in Pruned(v).members;
      var rest := SomeLeaf(v.members[k]);
      q := [k] + rest;
      assert q[1..] == rest;
    } else {
      q := [];
    }
  }

  lemma {:induction false} SomethingLeftSomeLeaf(v: Value)
    requires Pruned(v) != EMPTY
    ensures !SameLeaves(EMPTY, v)
  {
    var q := SomeLeaf(v);
    assert LeafAt(EMPTY, q) != LeafAt(v, q);
  }

  /** Two trees are the same up to empty dicts exactly when they hold the same values at the same paths. */
  lemma {:induction false} SameLeavesSamePruned(a: Value, b: Value)
    ensures Pruned(a) == Pruned(b) <==> SameLeaves(a, b)
  {
    if Pruned(a) == Pruned(b) {
      forall q: Path ensures LeafAt(a, q) == LeafAt(b, q) {
        PruningKeepsLeaves(a, q);
        PruningKeepsLeaves(b, q);
      }
    } else if SameLeaves(a, b) {
      SamePruned(a, b);
    }
  }

  lemma {:induction false} SamePruned(a: Value, b: Value)
    requires SameLeaves(a, b)
    ensures Pruned(a) == Pruned(b)
    decreases a
  {
    assert LeafAt(a, []) == LeafAt(b, []);
    if a.Obj? && b.Obj? {
      forall k ensures Pruned(Child(a, k)) == Pruned(Child(b, k)) {
        forall q: Path ensures LeafAt(Child(a, k), q) == LeafAt(Child(b, k), q) {
          var up := [k] + q;
          assert up[1..] == q;
          assert LeafAt(a, up) == LeafAt(b, up);
        }
        if k in a.members {
          SamePruned(a.members[k], Child(b, k));
        } else if Pruned(Child(b, k)) != EMPTY {
          SomethingLeftSomeLeaf(Child(b, k));
        }
        assert Pruned(EMPTY).members == map[];
      }
      assert forall k :: k in Pruned(a).members <==> Pruned(Child(a, k)) != EMPTY;
      assert forall k :: k in Pruned(b).members <==> Pruned(Child(b, k)) != EMPTY;
      assert Pruned(a).members == Pruned(b).members;
    }
  }
}
