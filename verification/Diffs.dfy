/** Recursive scoped diffs and their reduction to a field, as in kopf/_cogs/structs/diffs.py. */
module Diffs {
  import opened Wrappers
  import opened Trees
  import opened MergePatches

  // A diff is a set of items: the source iterates over frozensets of keys, so the order is arbitrary,
  // and no two items of a diff are the same, since each has its own path.

  datatype Scope = FULL | LEFT | RIGHT {
    predicate Left() { this != RIGHT }
    predicate Right() { this != LEFT }
  }

  datatype Operation = Add | Change | Remove

  datatype Item = Item(op: Operation, field: Path, was: Value, now: Value) {
    function Under(key: string): Item { this.(field := [key] + field) }
  }

  function DiffFrom(a: Value, b: Value, path: Path, scope: Scope): set<Item>
    decreases if a.Obj? && b.Obj? then 1 else 0, a
  {
    if a == b then {}
    else if a.Null? then {Item(Add, path, a, b)}
    else if b.Null? then {Item(Remove, path, a, b)}
    else if a.Obj? && b.Obj? then
      var aKeys, bKeys := a.members.Keys, b.members.Keys;
      (set k, it | k in (if scope.Right() then bKeys - aKeys else {})
                   && it in DiffFrom(Null, b.members[k], path + [k], scope) :: it)
      + (set k, it | k in (if scope.Left() then aKeys - bKeys else {})
                     && it in DiffFrom(a.members[k], Null, path + [k], scope) :: it)
      + (set k, it | k in aKeys * bKeys
                     && it in DiffFrom(a.members[k], b.members[k], path + [k], scope) :: it)
    else {Item(Change, path, a, b)}
  }

  function Diff(a: Value, b: Value): set<Item> {
    DiffFrom(a, b, [], FULL)
  }

  /** What one item of a whole diff means for the field. */
  function ReducedItem(it: Item, path: Path): set<Item> {
    if path == [] then {it}
    else if path <= it.field then {it.(field := it.field[|path|..])}
    else if it.field <= path then
      var tail := path[|it.field|..];
      Diff(ResolveOr(it.was, tail, Null), ResolveOr(it.now, tail, Null))
    else {}
  }

  function Reduce(d: set<Item>, path: Path): set<Item> {
    set it, sub | it in d && sub in ReducedItem(it, path) :: sub
  }

  /** `ResourceHandler.adjust_cause`: the old and new states, and their diff, narrowed to the handler's field. */
  datatype Cause = Cause(was: Value, now: Value, diff: set<Item>)

  function AdjustCause(cause: Cause, field: Option<Path>): Cause {
    match field
    case None => cause
    case Some(path) =>
      Cause(ResolveOr(cause.was, path, Null), ResolveOr(cause.now, path, Null), Reduce(cause.diff, path))
  }

  /** Writing the new value of an item at its path, or deleting the field if there is none. */
  function Written(v: Value, path: Path, now: Value): Value
    decreases path
  {
    if path == [] then now
    else if !v.Obj? then v
    else if |path| == 1 && now.Null? then Obj(v.members - {path[0]})
    else Obj(v.members[path[0] := Written(Sub(v, path[0]), path[1..], now)])
  }

  function WrittenAll(v: Value, items: seq<Item>): Value
    decreases |items|
  {
    if items == [] then v else WrittenAll(Written(v, items[0].field, items[0].now), items[1..])
  }

  /** A member of a dict; nothing and null are the same to a diff. */
  function Sub(v: Value, key: string): Value {
    if v.Obj? && key in v.members then v.members[key] else Null
  }

  predicate NullFree(v: Value) {
    v.Obj? ==> forall k :: k in v.members ==> !v.members[k].Null? && NullFree(v.members[k])
  }

  function NullsDropped(v: Value): (r: Value)
    ensures r.Null? <==> v.Null?
    ensures r.Obj? <==> v.Obj?
  {
    if v.Obj? then Obj(map k | k in v.members && !v.members[k].Null? :: NullsDropped(v.members[k])) else v
  }

  /** The items come in this order, each of them once. */
  ghost predicate Enumerates(order: seq<Item>, d: set<Item>) {
    && (forall it :: it in order <==> it in d)
    && (forall i, j :: 0 <= i < j < |order| ==> order[i] != order[j])
  }

  predicate InScope(a: Value, b: Value, key: string, scope: Scope)
    requires a.Obj? && b.Obj?
  {
    if key in a.members then key in b.members || scope.Left() else key in b.members && scope.Right()
  }

  /** The path argument of the recursion only prefixes the fields. */
  lemma {:induction false} PathIsPrefix(a: Value, b: Value, path: Path, scope: Scope, it: Item)
    ensures it in DiffFrom(a, b, path, scope) <==>
              path <= it.field && it.(field := it.field[|path|..]) in DiffFrom(a, b, [], scope)
    decreases if a.Obj? && b.Obj? then 1 else 0, a
  {
    if path <= it.field {
      var tail := it.(field := it.field[|path|..]);
      assert it.field == path + tail.field;
      assert it.field == path <==> tail.field == [];
      if a.Obj? && b.Obj? && a != b {
        forall k | InScope(a, b, k, scope)
          ensures it in DiffFrom(Sub(a, k), Sub(b, k), path + [k], scope) <==>
                    tail in DiffFrom(Sub(a, k), Sub(b, k), [k], scope)
        {
          PathIsPrefix(Sub(a, k), Sub(b, k), path + [k], scope, it);
          PathIsPrefix(Sub(a, k), Sub(b, k), [k], scope, tail);
          if path + [k] <= it.field || [k] <= tail.field {
            assert tail.field[0] == it.field[|path|];
            assert tail.field[1..] == it.field[|path + [k]|..];
          }
        }
        assert [] + tail.field == tail.field;
        DiffIsUnion(a, b, path, scope, it);
        DiffIsUnion(a, b, [], scope, tail);
        assert forall k: string :: [] + [k] == [k];
      }
    } else if a.Obj? && b.Obj? && a != b {
      forall k | InScope(a, b, k, scope) ensures it !in DiffFrom(Sub(a, k), Sub(b, k), path + [k], scope) {
        PathIsPrefix(Sub(a, k), Sub(b, k), path + [k], scope, it);
      }
      DiffIsUnion(a, b, path, scope, it);
    }
  }

  lemma DiffIsUnion(a: Value, b: Value, path: Path, scope: Scope, it: Item)
    requires a.Obj? && b.Obj? && a != b
    ensures it in DiffFrom(a, b, path, scope) <==>
              exists k :: InScope(a, b, k, scope) && it in DiffFrom(Sub(a, k), Sub(b, k), path + [k], scope)
  {
  }

  /** The diff of two dicts, member by member. */
  lemma {:induction false} DiffOfDicts(a: Value, b: Value, scope: Scope, it: Item)
    requires a.Obj? && b.Obj?
    ensures it in DiffFrom(a, b, [], scope) <==>
              && it.field != []
              && InScope(a, b, it.field[0], scope)
              && it.(field := it.field[1..]) in DiffFrom(Sub(a, it.field[0]), Sub(b, it.field[0]), [], scope)
  {
    if a != b {
      DiffIsUnion(a, b, [], scope, it);
      forall k | InScope(a, b, k, scope)
        ensures it in DiffFrom(Sub(a, k), Sub(b, k), [] + [k], scope) <==>
                  [k] <= it.field && it.(field := it.field[1..]) in DiffFrom(Sub(a, k), Sub(b, k), [], scope)
      {
        PathIsPrefix(Sub(a, k), Sub(b, k), [] + [k], scope, it);
        assert [] + [k] == [k];
      }
    }
  }

  /** All the parents of the field are dicts in both trees, and have the keys as the scope wants them. */
  predicate MeetDicts(a: Value, b: Value, field: Path, scope: Scope)
    decreases field
  {
    field != [] ==>
      && a.Obj? && b.Obj? && InScope(a, b, field[0], scope)
      && MeetDicts(Sub(a, field[0]), Sub(b, field[0]), field[1..], scope)
  }

  /** The operation says what has happened to the value: it has come, it has gone, or it is another one. */
  predicate TellsOperation(it: Item) {
    && (it.op == Add <==> it.was.Null?)
    && (it.op == Remove <==> it.now.Null? && !it.was.Null?)
    && (it.op == Change <==> !it.was.Null? && !it.now.Null?)
  }

  lemma ResolvedInSub(v: Value, field: Path)
    requires v.Obj? && field != []
    ensures ResolveOr(v, field, Null) == ResolveOr(Sub(v, field[0]), field[1..], Null)
  {
  }

  /** The diff is exactly what the trees say: an item is there if and only if its values are those of the trees at its
      field, they differ, they are not two dicts, all the parents are dicts on both sides, and the operation is of that
      kind. */
  lemma {:induction false} DiffExactly(a: Value, b: Value, scope: Scope, it: Item)
    ensures it in DiffFrom(a, b, [], scope) <==>
              && MeetDicts(a, b, it.field, scope)
              && it.was == ResolveOr(a, it.field, Null) && it.now == ResolveOr(b, it.field, Null)
              && it.was != it.now && !(it.was.Obj? && it.now.Obj?)
              && TellsOperation(it)
    decreases it.field
  {
    if a.Obj? && b.Obj? {
      DiffOfDicts(a, b, scope, it);
      if it.field != [] {
        var k, tail := it.field[0], it.(field := it.field[1..]);
        DiffExactly(Sub(a, k), Sub(b, k), scope, tail);
        ResolvedInSub(a, it.field);
        ResolvedInSub(b, it.field);
      }
    }
  }

  lemma ReducedByMember(a: Value, b: Value, path: Path)
    requires a.Obj? && b.Obj? && path != []
    ensures Reduce(Diff(a, b), path) == Reduce(Diff(Sub(a, path[0]), Sub(b, path[0])), path[1..])
  {
    var k, rest := path[0], path[1..];
    forall sub ensures sub in Reduce(Diff(a, b), path) <==> sub in Reduce(Diff(Sub(a, k), Sub(b, k)), rest) {
      if sub in Reduce(Diff(a, b), path) {
        var it :| it in Diff(a, b) && sub in ReducedItem(it, path);
        DiffOfDicts(a, b, FULL, it);
        var down := it.(field := it.field[1..]);
        assert down.Under(it.field[0]) == it;
        ReducedUnder(down, it.field[0], path);
        assert down in Diff(Sub(a, k), Sub(b, k));
      }
      if sub in Reduce(Diff(Sub(a, k), Sub(b, k)), rest) {
        var it :| it in Diff(Sub(a, k), Sub(b, k)) && sub in ReducedItem(it, rest);
        var up := it.Under(k);
        assert up.field[1..] == it.field;
        assert up.(field := up.field[1..]) == it;
        DiffOfDicts(a, b, FULL, up);
        ReducedUnder(it, k, path);
      }
    }
  }

  /** Reducing a diff to a field gives the diff of that field, for all trees and all paths. */
  lemma {:induction false} FieldDiffsCommute(a: Value, b: Value, path: Path)
    ensures Reduce(Diff(a, b), path) == Diff(ResolveOr(a, path, Null), ResolveOr(b, path, Null))
    decreases path
  {
    if path == [] {
      assert forall it :: it in Diff(a, b) ==> ReducedItem(it, []) == {it};
    } else if a.Obj? && b.Obj? {
      FieldDiffsCommute(Sub(a, path[0]), Sub(b, path[0]), path[1..]);
      ReducedByMember(a, b, path);
    } else if a != b {
      var op := if a.Null? then Add else if b.Null? then Remove else Change;
      var it := Item(op, [], a, b);
      assert Diff(a, b) == {it};
      assert path[0..] == path;
      assert Reduce({it}, path) == ReducedItem(it, path);
    }
  }

  lemma ReducedUnder(it: Item, k: string, path: Path)
    requires path != []
    ensures ReducedItem(it.Under(k), path) == if k == path[0] then ReducedItem(it, path[1..]) else {}
  {
    var up, rest := it.Under(k), path[1..];
    assert up.field[1..] == it.field;
    if k == path[0] {
      if path <= up.field {
        assert up.field[|path|..] == it.field[|rest|..];
        assert rest == [] ==> it.field[0..] == it.field;
      } else if up.field <= path {
        assert path[|up.field|..] == rest[|it.field|..];
      }
    }
  }

  /** Narrowing a cause keeps its diff the diff of its old and new states. */
  lemma AdjustedCauseKeepsDiff(cause: Cause, field: Option<Path>)
    requires cause.diff == Diff(cause.was, cause.now)
    ensures var narrow := AdjustCause(cause, field); narrow.diff == Diff(narrow.was, narrow.now)
  {
    if field.Some? {
      FieldDiffsCommute(cause.was, cause.now, field.value);
    }
  }

  /** A diff is empty exactly when the trees are equal but for null members. */
  lemma {:induction false} EmptyDiffExactly(a: Value, b: Value)
    ensures Diff(a, b) == {} <==> NullsDropped(a) == NullsDropped(b)
    decreases a
  {
    if a.Obj? && b.Obj? {
      forall k ensures Diff(Sub(a, k), Sub(b, k)) == {} <==> NullsDropped(Sub(a, k)) == NullsDropped(Sub(b, k)) {
        if k in a.members {
          EmptyDiffExactly(a.members[k], Sub(b, k));
        }
      }
      EmptyDiffOfDicts(a, b, FULL);
      if forall k :: NullsDropped(Sub(a, k)) == NullsDropped(Sub(b, k)) {
        assert forall k :: k in NullsDropped(a).members <==> !NullsDropped(Sub(a, k)).Null?;
        assert forall k :: k in NullsDropped(b).members <==> !NullsDropped(Sub(b, k)).Null?;
        assert NullsDropped(a).members == NullsDropped(b).members;
      } else {
        var k :| NullsDropped(Sub(a, k)) != NullsDropped(Sub(b, k));
        assert Sub(NullsDropped(a), k) == NullsDropped(Sub(a, k));
        assert Sub(NullsDropped(b), k) == NullsDropped(Sub(b, k));
      }
    }
  }

  lemma EmptyDiffOfDicts(a: Value, b: Value, scope: Scope)
    requires a.Obj? && b.Obj?
    ensures DiffFrom(a, b, [], scope) == {} <==>
              forall k :: InScope(a, b, k, scope) ==> DiffFrom(Sub(a, k), Sub(b, k), [], scope) == {}
  {
    if DiffFrom(a, b, [], scope) == {} {
      forall k | InScope(a, b, k, scope) ensures DiffFrom(Sub(a, k), Sub(b, k), [], scope) == {} {
        forall it ensures it !in DiffFrom(Sub(a, k), Sub(b, k), [], scope) {
          DiffOfDicts(a, b, scope, it.Under(k));
          assert it.Under(k).field[1..] == it.field;
        }
      }
    } else {
      var it :| it in DiffFrom(a, b, [], scope);
      DiffOfDicts(a, b, scope, it);
    }
  }

  lemma {:induction false} NullFreeKeepsAll(v: Value)
    requires NullFree(v)
    ensures NullsDropped(v) == v
  {
    if v.Obj? {
      forall k | k in v.members ensures NullsDropped(v.members[k]) == v.members[k] {
        NullFreeKeepsAll(v.members[k]);
      }
      assert NullsDropped(v).members == v.members;
    }
  }

  /** No item is about a part of what another item is about, so that their order is irrelevant. */
  lemma {:induction false} FieldsAreApart(a: Value, b: Value, it: Item, other: Item)
    requires it in Diff(a, b) && other in Diff(a, b) && it.field <= other.field
    ensures it == other
    decreases it.field
  {
    if a.Obj? && b.Obj? {
      DiffOfDicts(a, b, FULL, it);
      DiffOfDicts(a, b, FULL, other);
      var k := it.field[0];
      FieldsAreApart(Sub(a, k), Sub(b, k), it.(field := it.field[1..]), other.(field := other.field[1..]));
      assert it.field == [k] + it.field[1..] && other.field == [k] + other.field[1..];
    }
  }

  /** Writing one item leaves exactly the other items to write. */
  lemma {:induction false} OneItemLess(a: Value, b: Value, it: Item)
    requires NullFree(a) && NullFree(b) && it in Diff(a, b)
    ensures NullFree(Written(a, it.field, it.now))
    ensures Diff(Written(a, it.field, it.now), b) == Diff(a, b) - {it}
    decreases it.field
  {
    if a.Obj? && b.Obj? {
      DiffOfDicts(a, b, FULL, it);
      var k, tail := it.field[0], it.(field := it.field[1..]);
      OneItemLess(Sub(a, k), Sub(b, k), tail);
      var w := Written(a, it.field, it.now);
      forall other ensures other in Diff(w, b) <==> other in Diff(a, b) - {it} {
        OtherItem(a, b, w, it, other);
      }
    }
  }

  lemma OtherItem(a: Value, b: Value, w: Value, it: Item, other: Item)
    requires a.Obj? && b.Obj? && w.Obj? && it.field != []
    requires forall j :: j != it.field[0] ==> Sub(w, j) == Sub(a, j)
    requires Diff(Sub(w, it.field[0]), Sub(b, it.field[0])) ==
             Diff(Sub(a, it.field[0]), Sub(b, it.field[0])) - {it.(field := it.field[1..])}
    ensures other in Diff(w, b) <==> other in Diff(a, b) - {it}
  {
    DiffOfDicts(w, b, FULL, other);
    DiffOfDicts(a, b, FULL, other);
    if other.field != [] {
      assert other.field == [other.field[0]] + other.field[1..];
      assert it.field == [it.field[0]] + it.field[1..];
    }
  }

  /** A full diff turns the old tree into the new one, whatever order its items are written in. */
  lemma {:induction false} FullDiffIsComplete(a: Value, b: Value, order: seq<Item>)
    requires NullFree(a) && NullFree(b)
    requires Enumerates(order, Diff(a, b))
    ensures WrittenAll(a, order) == b
    decreases |order|
  {
    if order == [] {
      assert Diff(a, b) == {};
      EmptyDiffExactly(a, b);
      NullFreeKeepsAll(a);
      NullFreeKeepsAll(b);
    } else {
      var it, rest := order[0], order[1..];
      OneItemLess(a, b, it);
      forall other ensures other in rest <==> other in Diff(a, b) - {it} {
        if other in Diff(a, b) - {it} {
          var i :| 0 <= i < |order| && order[i] == other;
          assert rest[i - 1] == other;
        }
      }
      FullDiffIsComplete(Written(a, it.field, it.now), b, rest);
    }
  }

  /** The left-scoped diff of a merge-patch against a body is empty exactly when the standard's MergePatch
      leaves that body as it is, i.e. when the body already satisfies the patch. */
  lemma {:induction false} LeftDiffDecidesSatisfaction(patch: Value, body: Value)
    requires NullFree(body)
    ensures DiffFrom(patch, body, [], LEFT) == {} <==> MergePatch(body, patch) == body
    decreases patch
  {
    if patch.Obj? && body.Obj? {
      var merged := MergePatch(body, patch);
      forall k | k in patch.members
        ensures DiffFrom(patch.members[k], Sub(body, k), [], LEFT) == {} <==> Sub(merged, k) == Sub(body, k)
      {
        LeftDiffDecidesSatisfaction(patch.members[k], Sub(body, k));
        assert Sub(merged, k) == MergePatch(Sub(body, k), patch.members[k]);
      }
      EmptyDiffOfDicts(patch, body, LEFT);
      if forall k :: k in patch.members ==> Sub(merged, k) == Sub(body, k) {
        assert forall k :: Sub(merged, k) == Sub(body, k);
        assert forall k :: k in merged.members <==> !Sub(merged, k).Null?;
        assert forall k :: k in body.members <==> !Sub(body, k).Null?;
        assert merged.members == body.members;
      }
    }
  }
}
