/** Blocking and allowing the deletion of an object by the operator's own finalizer: kopf/_cogs/structs/finalizers.py.
    Both are transformation functions, i.e. they can be applied to a newer body again. */
module Finalizing {
  import opened Wrappers
  import opened Trees
  import opened MergePatches
  import opened Causes

  /** The metadata and the finalizers are absent, or are what Kubernetes puts there. */
  predicate WellFormed(body: Value) {
    && body.Obj?
    && ("metadata" in body.members ==> body.members["metadata"].Obj?)
    && ("finalizers" in MetadataOf(body) ==> MetadataOf(body)["finalizers"].List?)
  }

  function MetadataOf(body: Value): map<string, Value> {
    if body.Obj? && "metadata" in body.members && body.members["metadata"].Obj? then body.members["metadata"].members
      else map[]
  }

  function WithoutItem(items: seq<Value>, item: Value): seq<Value> {
    if items == [] then [] else (if items[0] == item then [] else [items[0]]) + WithoutItem(items[1..], item)
  }

  function WithFinalizers(body: Value, items: seq<Value>): Value
    requires body.Obj?
  {
    Obj(body.members["metadata" := Obj(MetadataOf(body)["finalizers" := List(items)])])
  }

  /** `block_deletion`: the finalizer goes to the end, once. */
  function Blocked(body: Value, finalizer: string): Value
    requires WellFormed(body)
  {
    if DeletionIsBlocked(body, finalizer) then body
    else WithFinalizers(body, Finalizers(body) + [Scalar(Text(finalizer))])
  }

  /** `allow_deletion`: no such finalizers are left, and no emptied structures. */
  function Allowed(body: Value, finalizer: string): Value
    requires WellFormed(body)
  {
    WithoutEmptied(if "finalizers" in MetadataOf(body)
                   then WithFinalizers(body, WithoutItem(Finalizers(body), Scalar(Text(finalizer)))) else body)
  }

  function WithoutEmptied(body: Value): Value
    requires WellFormed(body)
  {
    var meta := if Finalizers(body) == [] then MetadataOf(body) - {"finalizers"} else MetadataOf(body);
    if "metadata" !in body.members then body
    else if meta == map[] then Obj(body.members - {"metadata"})
    else Obj(body.members["metadata" := Obj(meta)])
  }

  lemma FinalizersOf(body: Value)
    requires WellFormed(body)
    ensures Finalizers(body) == if "finalizers" in MetadataOf(body) then MetadataOf(body)["finalizers"].items else []
  {
    assert ["metadata", "finalizers"][1..] == ["finalizers"] && ["finalizers"][1..] == [];
    if "metadata" in body.members {
      var meta := body.members["metadata"];
      assert Resolve(body, ["metadata", "finalizers"]) == Resolve(meta, ["finalizers"]);
      if "finalizers" in meta.members {
        assert Resolve(meta, ["finalizers"]) == Resolve(meta.members["finalizers"], [])
          == Some(meta.members["finalizers"]);
      }
    }
  }

  lemma FinalizersOfWith(body: Value, items: seq<Value>)
    requires WellFormed(body)
    ensures WellFormed(WithFinalizers(body, items)) && Finalizers(WithFinalizers(body, items)) == items
  {
    FinalizersOf(WithFinalizers(body, items));
  }

  lemma CleaningKeepsFinalizers(body: Value)
    requires WellFormed(body)
    ensures WellFormed(WithoutEmptied(body)) && Finalizers(WithoutEmptied(body)) == Finalizers(body)
  {
    FinalizersOf(body);
    FinalizersOf(WithoutEmptied(body));
  }

  lemma {:induction false} WithoutItemHasNone(items: seq<Value>, item: Value)
    ensures item !in WithoutItem(items, item)
    ensures item !in items ==> WithoutItem(items, item) == items
    ensures WithoutItem(items + [item], item) == WithoutItem(items, item)
    decreases |items|
  {
    if items != [] {
      WithoutItemHasNone(items[1..], item);
      assert (items + [item])[1..] == items[1..] + [item];
      assert items == [items[0]] + items[1..];
    } else {
      assert ([] + [item])[1..] == [];
    }
  }

  /** The deletion is blocked after the blocking, and it can be repeated; nobody else's finalizers are touched. */
  lemma BlockingBlocks(body: Value, finalizer: string)
    requires WellFormed(body)
    ensures var b, ours := Blocked(body, finalizer), Scalar(Text(finalizer));
            && WellFormed(b) && DeletionIsBlocked(b, finalizer)
            && Blocked(b, finalizer) == b
            && WithoutItem(Finalizers(b), ours) == WithoutItem(Finalizers(body), ours)
  {
    var ours := Scalar(Text(finalizer));
    FinalizersOfWith(body, Finalizers(body) + [ours]);
    WithoutItemHasNone(Finalizers(body), ours);
    assert ours in Finalizers(body) + [ours];
  }

  lemma AllowingKeepsOthers(body: Value, finalizer: string)
    requires WellFormed(body)
    ensures var b := Allowed(body, finalizer);
            && b.Obj? && b.members - {"metadata"} == body.members - {"metadata"}
            && MetadataOf(b) - {"finalizers"} == MetadataOf(body) - {"finalizers"}
            && ("metadata" in b.members ==> MetadataOf(b) != map[])
  {
    var left := if "finalizers" in MetadataOf(body)
                then WithFinalizers(body, WithoutItem(Finalizers(body), Scalar(Text(finalizer)))) else body;
    FinalizersOfWith(body, WithoutItem(Finalizers(body), Scalar(Text(finalizer))));
    CleaningKeepsOthers(left);
  }

  lemma CleaningKeepsOthers(body: Value)
    requires WellFormed(body)
    ensures var b := WithoutEmptied(body);
            && b.Obj? && b.members - {"metadata"} == body.members - {"metadata"}
            && MetadataOf(b) - {"finalizers"} == MetadataOf(body) - {"finalizers"}
            && ("metadata" in b.members ==> MetadataOf(b) != map[])
  {
  }

  /** The deletion is allowed after the allowing, and it can be repeated; nothing
      else is touched, nobody else's finalizers too; and nothing is left empty. */
  lemma AllowingAllows(body: Value, finalizer: string)
    requires WellFormed(body)
    ensures var b, ours := Allowed(body, finalizer), Scalar(Text(finalizer));
            && WellFormed(b) && !DeletionIsBlocked(b, finalizer)
            && Allowed(b, finalizer) == b
            && Finalizers(b) == WithoutItem(Finalizers(body), ours)
            && b.members - {"metadata"} == body.members - {"metadata"}
            && MetadataOf(b) - {"finalizers"} == MetadataOf(body) - {"finalizers"}
            && ("metadata" in b.members ==> MetadataOf(b) != map[])
            && ("finalizers" in MetadataOf(b) ==> Finalizers(b) != [])
  {
    AllowingKeepsOthers(body, finalizer);
    var b, ours := Allowed(body, finalizer), Scalar(Text(finalizer));
    FinalizersOf(body);
    WithoutItemHasNone(Finalizers(body), ours);
    var left := if "finalizers" in MetadataOf(body) then WithFinalizers(body, WithoutItem(Finalizers(body), ours))
      else body;
    FinalizersOfWith(body, WithoutItem(Finalizers(body), ours));
    FinalizersOf(left);
    CleaningKeepsFinalizers(left);
    FinalizersOf(b);
    WithoutItemHasNone(Finalizers(b), ours);
    if "finalizers" in MetadataOf(b) { SameFinalizers(b); }
    CleanedTwice(left);
  }

  lemma SameFinalizers(body: Value)
    requires WellFormed(body) && "finalizers" in MetadataOf(body)
    ensures WithFinalizers(body, Finalizers(body)) == body
  {
    FinalizersOf(body);
    assert MetadataOf(body)["finalizers" := List(Finalizers(body))] == MetadataOf(body);
    assert body.members["metadata" := Obj(MetadataOf(body))] == body.members;
  }

  lemma CleanedTwice(body: Value)
    requires WellFormed(body)
    ensures WellFormed(WithoutEmptied(body)) && WithoutEmptied(WithoutEmptied(body)) == WithoutEmptied(body)
  {
    CleaningKeepsFinalizers(body);
    FinalizersOf(body);
    var b := WithoutEmptied(body);
    FinalizersOf(b);
    if "metadata" in b.members {
      assert b.members["metadata" := Obj(MetadataOf(b))] == b.members;
      assert MetadataOf(b) - {"finalizers"} == MetadataOf(b) || "finalizers" in MetadataOf(b);
    }
  }

  /** Allowing undoes the blocking: the body is the same as if it was never blocked. */
  lemma AllowingUndoesBlocking(body: Value, finalizer: string)
    requires WellFormed(body) && !DeletionIsBlocked(body, finalizer)
    ensures WellFormed(Blocked(body, finalizer))
    ensures Allowed(Blocked(body, finalizer), finalizer) == WithoutEmptied(body)
  {
    var ours := Scalar(Text(finalizer));
    var b := Blocked(body, finalizer);
    FinalizersOf(body);
    FinalizersOfWith(body, Finalizers(body) + [ours]);
    WithoutItemHasNone(Finalizers(body), ours);
    FinalizersOfWith(b, Finalizers(body));
    var unblocked := WithFinalizers(b, Finalizers(body));
    FinalizersOf(unblocked);
    assert MetadataOf(unblocked) - {"finalizers"} == MetadataOf(body) - {"finalizers"};
    assert unblocked.members - {"metadata"} == body.members - {"metadata"};
    if "finalizers" in MetadataOf(body) {
      SameFinalizers(body);
      assert MetadataOf(unblocked) == MetadataOf(body);
      assert unblocked.members == body.members;
    } else {
      assert MetadataOf(body) - {"finalizers"} == MetadataOf(body);
      if "metadata" !in body.members {
        assert MetadataOf(unblocked) - {"finalizers"} == map[];
        assert unblocked.members - {"metadata"} == body.members;
      } else {
        assert unblocked.members["metadata" := Obj(MetadataOf(body))]
          == body.members["metadata" := Obj(MetadataOf(body))];
      }
    }
  }

  // ----- In place -----

  function WithoutFirst(items: seq<Value>, item: Value): (r: seq<Value>)
    requires item in items
    ensures |r| == |items| - 1 && WithoutItem(r, item) == WithoutItem(items, item)
  {
    if items[0] == item then items[1..]
    else
      var r := [items[0]] + WithoutFirst(items[1..], item);
      assert r[1..] == WithoutFirst(items[1..], item);
      r
  }

  /** The deletion is blocked by one finalizer at the end, if it is not blocked yet; all else is as it was. */
  method BlockDeletion(body: Dict, finalizer: string)
    requires WellFormed(body.root)
    modifies body
    ensures body.root == Blocked(old(body.root), finalizer)
    ensures WellFormed(body.root) && DeletionIsBlocked(body.root, finalizer)
    ensures var ours := Scalar(Text(finalizer));
            Finalizers(body.root) == old(Finalizers(body.root)) + if ours in old(Finalizers(body.root)) then []
              else [ours]
    ensures body.root.members - {"metadata"} == old(body.root.members) - {"metadata"}
    ensures MetadataOf(body.root) - {"finalizers"} == old(MetadataOf(body.root)) - {"finalizers"}
  {
    ghost var was := body.root;
    FinalizersOf(was);
    BlockingBlocks(was, finalizer);
    FinalizersOfWith(was, Finalizers(was) + [Scalar(Text(finalizer))]);
    if !DeletionIsBlocked(body.root, finalizer) {
      if "metadata" !in body.root.members {
        body.root := Obj(body.root.members["metadata" := Obj(map[])]);
      }
      var meta := MetadataOf(body.root);
      if "finalizers" !in meta {
        meta := meta["finalizers" := List([])];
      }
      meta := meta["finalizers" := List(meta["finalizers"].items + [Scalar(Text(finalizer))])];
      assert meta == MetadataOf(was)["finalizers" := List(Finalizers(was) + [Scalar(Text(finalizer))])];
      assert body.root.members["metadata" := Obj(meta)] == was.members["metadata" := Obj(meta)];
      body.root := Obj(body.root.members["metadata" := Obj(meta)]);
    }
  }

  method AllowDeletion(body: Dict, finalizer: string)
    requires WellFormed(body.root)
    modifies body
    ensures body.root == Allowed(old(body.root), finalizer)
  {
    ghost var was, ours := body.root, Scalar(Text(finalizer));
    FinalizersOf(was);
    if "finalizers" in MetadataOf(was) { SameFinalizers(was); }
    while DeletionIsBlocked(body.root, finalizer)
      invariant WellFormed(body.root)
      invariant WithoutItem(Finalizers(body.root), ours) == WithoutItem(Finalizers(was), ours)
      invariant body.root == if "finalizers" in MetadataOf(was) then WithFinalizers(was, Finalizers(body.root)) else was
      decreases |Finalizers(body.root)|
    {
      var items := WithoutFirst(Finalizers(body.root), Scalar(Text(finalizer)));
      FinalizersOfWith(body.root, items);
      assert MetadataOf(body.root)["finalizers" := List(items)] == MetadataOf(was)["finalizers" := List(items)];
      assert WithFinalizers(body.root, items) == WithFinalizers(was, items);
      body.root := WithFinalizers(body.root, items);
    }
    WithoutItemHasNone(Finalizers(body.root), ours);
    body.root := WithoutEmptied(body.root);
  }
}
