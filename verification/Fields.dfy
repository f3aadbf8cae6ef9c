/** Fields of a tree that are neither above nor below each other do not affect each other, as
    kopf/_cogs/structs/dicts.py and kopf/_cogs/structs/patches.py need it for the storages that write many fields into
    one patch. */
module Fields {
  import opened Wrappers
  import opened Trees
  import opened MergePatches

  predicate Nested(p: Path, q: Path) { p <= q || q <= p }

  lemma {:induction false} EnsureElsewhere(v: Value, path: Path, x: Value, q: Path)
    requires Clear(v, path) && !Nested(path, q)
    ensures Resolve(Ensured(v, path, x), q) == Resolve(v, q)
    ensures Clear(v, q) ==> Clear(Ensured(v, path, x), q)
    decreases path
  {
    if path[0] == q[0] {
      EnsureElsewhere(Child(v, path[0]), path[1..], x, q[1..]);
      NothingInEmpty(q[1..]);
    }
  }

  lemma NothingInEmpty(q: Path)
    ensures Clear(EMPTY, q) && (q != [] ==> Resolve(EMPTY, q).None?)
  {
  }

  lemma {:induction false} EnsureThere(v: Value, path: Path, x: Value)
    requires Clear(v, path)
    ensures Resolve(Ensured(v, path, x), path) == Some(x) && Clear(Ensured(v, path, x), path)
    decreases path
  {
    if path != [] { EnsureThere(Child(v, path[0]), path[1..], x); }
  }

  lemma {:induction false} RemoveElsewhere(v: Value, path: Path, q: Path)
    requires path != [] && Clear(v, path) && !Nested(path, q)
    ensures Resolve(Removed(v, path), q) == Resolve(v, q)
    ensures Clear(v, q) ==> Clear(Removed(v, path), q)
    decreases path
  {
    if path[0] == q[0] && path[0] in v.members {
      if |path| > 1 {
        RemoveElsewhere(v.members[path[0]], path[1..], q[1..]);
        NothingInEmpty(q[1..]);
      }
    }
  }

  lemma {:induction false} RemoveThere(v: Value, path: Path)
    requires path != [] && Clear(v, path)
    ensures Resolve(Removed(v, path), path).None? && Clear(Removed(v, path), path)
    decreases path
  {
    if |path| > 1 && path[0] in v.members { RemoveThere(v.members[path[0]], path[1..]); }
  }

  lemma {:induction false} BrokenHasNothing(v: Value, path: Path)
    requires !Clear(v, path)
    ensures Resolve(v, path).None?
    decreases path
  {
    if v.Obj? && path[0] in v.members { BrokenHasNothing(v.members[path[0]], path[1..]); }
  }

  /** However broken the body and the patch are: what is in none of them, is not there after the patch. */
  lemma {:induction false} NothingOfMerged(body: Value, patch: Value, path: Path)
    requires Resolve(body, path).None? && Resolve(patch, path).None?
    ensures Resolve(MergePatch(body, patch), path).None?
    decreases path
  {
    if patch.Obj? {
      var k := path[0];
      if |path| == 1 {
        assert path[1..] == [];
      } else if k in patch.members && !patch.members[k].Null? {
        NothingOfMerged(if body.Obj? && k in body.members then body.members[k] else Null, patch.members[k], path[1..]);
      }
    }
  }

  /** What the server has in the field after the patch, when neither the body nor the patch is broken above it. */
  lemma {:induction false} FieldOfMerged(body: Value, patch: Value, path: Path)
    requires path != [] && Clear(body, path) && Clear(patch, path)
    ensures Clear(MergePatch(body, patch), path)
    ensures Resolve(MergePatch(body, patch), path) ==
              match Resolve(patch, path)
              case None => Resolve(body, path)
              case Some(Null) => None
              case Some(x) => Some(MergePatch(if Resolve(body, path).Some? then Resolve(body, path).value else Null, x))
    decreases path
  {
    var k, merged := path[0], MergePatch(body, patch);
    if |path| == 1 {
      assert path[1..] == [];
    } else if k in patch.members {
      assert patch.members[k].Obj?;
      if k !in body.members {
        assert MergePatch(Null, patch.members[k]) == MergePatch(EMPTY, patch.members[k]);
        NothingInEmpty(path[1..]);
      }
      FieldOfMerged(Child(body, k), patch.members[k], path[1..]);
    } else {
      assert k in merged.members <==> k in body.members;
    }
  }
}
