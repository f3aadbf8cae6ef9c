/** Trees that differ only under one path, and what the path operations of kopf/_cogs/structs/dicts.py make of them.

    The status field of the progress is such a path: it is written, removed, and picked together with its parents and
    with the fields beside it, above it, and below it. Whatever is done to both trees in the same way keeps the
    difference there, until that path is removed, with its emptied parents, from both; a tree that is cut out of another
    one stays so, too. */
module Agreement {
  import opened Wrappers
  import opened Trees

  /** The trees are equal but for what is at the path; a missing parent is as good as an empty one. */
  predicate AgreeOff(v: Value, w: Value, path: Path)
    requires path != []
    decreases path
  {
    && v.Obj? && w.Obj?
    && v.members - {path[0]} == w.members - {path[0]}
    && (|path| > 1 ==> AgreeOff(Child(v, path[0]), Child(w, path[0]), path[1..]))
  }

  /** `remove`, when a type error means that the field is left alone. */
  function RemovedOrKept(v: Value, path: Path): (r: Value)
    requires path != []
    ensures v.Obj? <==> r.Obj?
  {
    if Clear(v, path) then Removed(v, path) else v
  }

  lemma {:induction false} AgreeSym(v: Value, w: Value, path: Path)
    requires path != [] && AgreeOff(v, w, path)
    ensures AgreeOff(w, v, path)
    decreases path
  {
    if |path| > 1 { AgreeSym(Child(v, path[0]), Child(w, path[0]), path[1..]); }
  }

  lemma {:induction false} AgreeMeansClear(v: Value, w: Value, path: Path)
    requires path != [] && AgreeOff(v, w, path)
    ensures Clear(v, path) && Clear(w, path)
    decreases path
  {
    if |path| > 1 { AgreeMeansClear(Child(v, path[0]), Child(w, path[0]), path[1..]); }
  }

  lemma {:induction false} ClearMeansAgree(v: Value, path: Path)
    requires path != [] && Clear(v, path)
    ensures AgreeOff(v, v, path)
    decreases path
  {
    if |path| > 1 { ClearMeansAgree(Child(v, path[0]), path[1..]); }
  }

  /** Removal in terms of the member it goes through. */
  lemma RemovalOfMember(v: Value, path: Path)
    requires |path| > 1 && v.Obj?
    ensures RemovedOrKept(v, path).members - {path[0]} == v.members - {path[0]}
    ensures Child(RemovedOrKept(v, path), path[0]) == RemovedOrKept(Child(v, path[0]), path[1..])
  {
  }

  /** Whatever was at the path, its removal leaves the same. */
  lemma {:induction false} SameWhenRemoved(v: Value, w: Value, path: Path)
    requires path != [] && AgreeOff(v, w, path)
    ensures Clear(v, path) && Clear(w, path) && Removed(v, path) == Removed(w, path)
    decreases path
  {
    AgreeMeansClear(v, w, path);
    if |path| > 1 {
      SameWhenRemoved(Child(v, path[0]), Child(w, path[0]), path[1..]);
      RemovedByMember(v, path);
      RemovedByMember(w, path);
    }
  }

  lemma RemovedByMember(v: Value, path: Path)
    requires |path| > 1 && Clear(v, path)
    ensures var rest := Removed(Child(v, path[0]), path[1..]);
            Removed(v, path).members ==
              if rest == EMPTY then v.members - {path[0]} else (v.members - {path[0]})[path[0] := rest]
  {
    if path[0] !in v.members {
      assert Removed(EMPTY, path[1..]) == EMPTY;
    }
  }

  lemma {:induction false} RemovedTwice(v: Value, path: Path)
    requires path != [] && Clear(v, path)
    ensures Clear(Removed(v, path), path) && Removed(Removed(v, path), path) == Removed(v, path)
    decreases path
  {
    if |path| > 1 && path[0] in v.members {
      RemovedTwice(v.members[path[0]], path[1..]);
    }
  }

  /** Both sides get the same field, or each gets something at or above the path that agrees off it. */
  lemma {:induction false} AgreeAfterEnsure(v: Value, w: Value, field: Path, x: Value, y: Value, path: Path)
    requires path != [] && AgreeOff(v, w, path) && Clear(v, field) && Clear(w, field)
    requires path <= field || (field < path && AgreeOff(x, y, path[|field|..])) || (!(field <= path) && x == y)
    ensures AgreeOff(Ensured(v, field, x), Ensured(w, field, y), path)
    decreases path
  {
    if field == [] {
      assert path[0..] == path;
    } else {
      if field[0] == path[0] {
        assert Ensured(v, field, x).members - {path[0]} == v.members - {path[0]};
        assert Ensured(w, field, y).members - {path[0]} == w.members - {path[0]};
        if |path| > 1 {
          assert field < path ==> path[|field|..] == path[1..][|field[1..]|..];
          assert field < path ==> field[1..] < path[1..];
          AgreeAfterEnsure(Child(v, path[0]), Child(w, path[0]), field[1..], x, y, path[1..]);
        }
      } else {
        assert Child(v, field[0]) == Child(w, field[0]) by {
          assert field[0] in v.members <==> field[0] in v.members - {path[0]};
          assert field[0] in w.members <==> field[0] in w.members - {path[0]};
        }
        assert !(field <= path);
        PutAside(v.members, field[0], path[0], Ensured(Child(v, field[0]), field[1..], x));
        PutAside(w.members, field[0], path[0], Ensured(Child(w, field[0]), field[1..], y));
      }
    }
  }

  /** Only one side has the field, since all of it is at the path. */
  lemma {:induction false} AgreeAfterOneEnsure(v: Value, w: Value, field: Path, y: Value, path: Path)
    requires path != [] && AgreeOff(v, w, path) && Clear(w, field)
    requires path <= field || (field < path && Resolve(v, field).None? && AgreeOff(EMPTY, y, path[|field|..]))
    ensures AgreeOff(v, Ensured(w, field, y), path)
    decreases path
  {
    if |path| > 1 {
      assert field < path ==> path[|field|..] == path[1..][|field[1..]|..];
      if |field| == 1 {
        assert field[1..] == [];
      } else {
        AgreeAfterOneEnsure(Child(v, path[0]), Child(w, path[0]), field[1..], y, path[1..]);
      }
    }
  }

  /** The parts above the path agree off it too; the parts elsewhere are the same. */
  lemma {:induction false} AgreementOfParts(v: Value, w: Value, field: Path, path: Path)
    requires path != [] && AgreeOff(v, w, path)
    ensures field < path ==>
              AgreeOff(ResolveOr(v, field, EMPTY), ResolveOr(w, field, EMPTY), path[|field|..])
    ensures !(field <= path) && !(path <= field) ==> Resolve(v, field) == Resolve(w, field)
    decreases path
  {
    if field == [] {
      assert path[0..] == path;
    } else {
      if field[0] == path[0] {
        if |path| > 1 {
          AgreementOfParts(Child(v, path[0]), Child(w, path[0]), field[1..], path[1..]);
          assert field < path ==> path[|field|..] == path[1..][|field[1..]|..];
        }
      } else {
        assert field[0] in v.members <==> field[0] in v.members - {path[0]};
        assert field[0] in w.members <==> field[0] in w.members - {path[0]};
      }
    }
  }

  /** Removing any field from both sides, or leaving it when it is broken, keeps the agreement. */
  lemma {:induction false} AgreeAfterRemoval(v: Value, w: Value, field: Path, path: Path)
    requires path != [] && field != [] && AgreeOff(v, w, path)
    ensures AgreeOff(RemovedOrKept(v, field), RemovedOrKept(w, field), path)
    decreases path
  {
    var k := path[0];
    if field[0] == k {
      if |field| > 1 {
        RemovalOfMember(v, field);
        RemovalOfMember(w, field);
        if |path| > 1 {
          AgreeAfterRemoval(Child(v, k), Child(w, k), field[1..], path[1..]);
        }
      } else if |path| > 1 {
        ClearMeansAgree(EMPTY, path[1..]);
        assert field[1..] == [] && Clear(v, field) && Clear(w, field);
        assert Child(RemovedOrKept(v, field), k) == EMPTY == Child(RemovedOrKept(w, field), k);
      }
    } else {
      RemovalElsewhere(v, w, field, k);
    }
  }

  lemma RemovalElsewhere(v: Value, w: Value, field: Path, k: string)
    requires field != [] && v.Obj? && w.Obj? && field[0] != k
    requires v.members - {k} == w.members - {k}
    ensures RemovedOrKept(v, field).members - {k} == RemovedOrKept(w, field).members - {k}
    ensures Child(RemovedOrKept(v, field), k) == Child(v, k)
    ensures Child(RemovedOrKept(w, field), k) == Child(w, k)
  {
    var j := field[0];
    assert j in v.members <==> j in v.members - {k};
    assert j in w.members <==> j in w.members - {k};
    assert v.members - {j} - {k} == (v.members - {k}) - {j};
    assert w.members - {j} - {k} == (w.members - {k}) - {j};
    PutAside(v.members, j, k, Child(RemovedOrKept(v, field), j));
    PutAside(w.members, j, k, Child(RemovedOrKept(w, field), j));
  }

  lemma PutAside(m: map<string, Value>, j: string, k: string, x: Value)
    requires j != k
    ensures m[j := x] - {k} == (m - {k})[j := x]
  {
  }

  // ----- Parts -----

  /** The tree is cut out of the other one. */
  predicate PartOf(e: Value, b: Value) {
    if e.Obj? then b.Obj? && forall k :: k in e.members ==> k in b.members && PartOf(e.members[k], b.members[k])
    else e == b
  }

  lemma {:induction false} PartOfItself(b: Value)
    ensures PartOf(b, b)
  {
    if b.Obj? {
      forall k | k in b.members ensures PartOf(b.members[k], b.members[k]) {
        PartOfItself(b.members[k]);
      }
    }
  }

  lemma {:induction false} PartIsClear(e: Value, b: Value, path: Path)
    requires PartOf(e, b) && Clear(b, path)
    ensures Clear(e, path)
    decreases path
  {
    if path != [] && path[0] in e.members {
      PartIsClear(e.members[path[0]], b.members[path[0]], path[1..]);
    }
  }

  lemma {:induction false} PartHasNoMore(e: Value, b: Value, path: Path)
    requires PartOf(e, b) && Resolve(b, path).None?
    ensures Resolve(e, path).None?
    decreases path
  {
    if e.Obj? && path[0] in e.members {
      PartHasNoMore(e.members[path[0]], b.members[path[0]], path[1..]);
    }
  }

  lemma {:induction false} PartWithField(e: Value, b: Value, path: Path)
    requires PartOf(e, b) && Clear(e, path) && Resolve(b, path).Some?
    ensures PartOf(Ensured(e, path, Resolve(b, path).value), b)
    decreases path
  {
    if path == [] {
      PartOfItself(b);
    } else if |path| == 1 {
      PartOfItself(b.members[path[0]]);
    } else {
      PartWithField(Child(e, path[0]), b.members[path[0]], path[1..]);
    }
  }

  lemma {:induction false} PartWithoutField(e: Value, b: Value, path: Path)
    requires path != [] && PartOf(e, b)
    ensures PartOf(RemovedOrKept(e, path), b)
    decreases path
  {
    if Clear(e, path) && |path| > 1 && path[0] in e.members {
      PartWithoutField(e.members[path[0]], b.members[path[0]], path[1..]);
    }
  }

  lemma {:induction false} PartOfPart(e: Value, b: Value, c: Value)
    requires PartOf(e, b) && PartOf(b, c)
    ensures PartOf(e, c)
  {
    if e.Obj? {
      forall k | k in e.members ensures PartOf(e.members[k], c.members[k]) {
        PartOfPart(e.members[k], b.members[k], c.members[k]);
      }
    }
  }
}
