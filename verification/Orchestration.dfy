/** The sets of toggles, kopf/_cogs/aiokits/aiotoggles.py, and how the watchers of the resources are started and stopped
    with their toggles, kopf/_core/reactor/orchestration.py. */
module Orchestration {
  import opened Wrappers

  /** A set of toggles, which are numbered as they are made. */
  class ToggleSet {
    /** Whether the set is "on" when all of its toggles are, or when any of them is. */
    const requiresAll: bool
    var toggles: map<nat, bool>
    var made: nat

    predicate IsOn()
      reads this
    {
      if requiresAll then forall id :: id in toggles ==> toggles[id] else exists id :: id in toggles && toggles[id]
    }

    ghost predicate Valid()
      reads this
    {
      forall id :: id in toggles ==> id < made
    }

    constructor (requiresAll: bool)
      ensures Valid() && toggles == map[] && this.requiresAll == requiresAll
    {
      this.requiresAll, toggles, made := requiresAll, map[], 0;
    }

    /** A new toggle is not one of those that were ever in the set; an "off" one turns off the set of the `all` kind. */
    method MakeToggle(state: bool) returns (id: nat)
      requires Valid()
      modifies this
      ensures Valid() && id == old(made) && made == old(made) + 1
      ensures toggles == old(toggles)[id := state] && id !in old(toggles)
      ensures requiresAll ==> (IsOn() <==> old(IsOn()) && state)
      ensures !requiresAll ==> (IsOn() <==> old(IsOn()) || state)
    {
      id, made := made, made + 1;
      toggles := toggles[id := state];
      assert forall other :: other in old(toggles) ==> other in toggles && toggles[other] == old(toggles)[other];
      assert id in toggles && toggles[id] == state;
    }

    /** Turning is decisive if all the other toggles are on (or off, for the `any` kind); it adds and drops nothing. */
    method Turn(id: nat, state: bool)
      requires Valid() && id in toggles
      modifies this`toggles
      ensures Valid() && toggles == old(toggles)[id := state] && toggles.Keys == old(toggles).Keys
      ensures requiresAll ==>
        (IsOn() <==> state && forall other :: other in old(toggles) && other != id ==> old(toggles)[other])
      ensures !requiresAll ==>
        (IsOn() <==> state || exists other :: other in old(toggles) && other != id && old(toggles)[other])
    {
      toggles := toggles[id := state];
      assert forall other :: other in old(toggles) && other != id ==>
        other in toggles && toggles[other] == old(toggles)[other];
      assert id in toggles && toggles[id] == state;
    }

    /** Dropping can only turn on the set of the `all` kind; the last "off" toggle does. */
    method DropToggle(id: nat)
      requires Valid()
      modifies this`toggles
      ensures Valid() && toggles == old(toggles) - {id}
      ensures requiresAll ==> (IsOn() <==> forall other :: other in old(toggles) && other != id ==> old(toggles)[other])
      ensures !requiresAll ==> (IsOn() <==> exists other :: other in old(toggles) && other != id && old(toggles)[other])
    {
      toggles := toggles - {id};
      assert forall other :: other in toggles <==> other in old(toggles) && other != id;
      assert forall other :: other in toggles ==> toggles[other] == old(toggles)[other];
    }

    /** The toggles are dropped all at once; what remains is decided by the others, which are untouched. */
    method DropToggles(ids: set<nat>)
      requires Valid()
      modifies this`toggles
      ensures Valid() && toggles == old(toggles) - ids
      ensures requiresAll ==>
                && (old(IsOn()) ==> IsOn())
                && (IsOn() <==> forall other :: other in old(toggles) && !old(toggles)[other] ==> other in ids)
      ensures !requiresAll ==>
                && (IsOn() ==> old(IsOn()))
                && (IsOn() <==> exists other :: other in old(toggles) && old(toggles)[other] && other !in ids)
    {
      toggles := toggles - ids;
      assert forall other :: other in toggles <==> other in old(toggles) && other !in ids;
      assert forall other :: other in toggles ==> toggles[other] == old(toggles)[other];
    }
  }

  datatype Resource = Resource(name: string, namespaced: bool)
  datatype Key = Key(resource: Resource, namespace: Option<string>)

  /** Cluster-wide resources are watched once. */
  function KeyOf(resource: Resource, namespace: Option<string>): Key {
    Key(resource, if resource.namespaced then namespace else None)
  }

  /** The dimensions in which something is watched. */
  function KeysOf(resources: set<Resource>, namespaces: set<Option<string>>): set<Key> {
    set r, n | r in resources && n in namespaces :: KeyOf(r, n)
  }

  /** A namespaced resource is watched in each of the namespaces; a cluster-wide one is watched once, if at all. */
  lemma WatchedExactly(resources: set<Resource>, namespaces: set<Option<string>>, key: Key)
    ensures key in KeysOf(resources, namespaces) <==>
              && key.resource in resources
              && if key.resource.namespaced then key.namespace in namespaces
                 else key.namespace.None? && namespaces != {}
  {
    if key.resource in resources {
      if key.resource.namespaced {
        if key.namespace in namespaces { assert KeyOf(key.resource, key.namespace) == key; }
      } else if n :| n in namespaces {
        assert KeyOf(key.resource, n) == Key(key.resource, None);
      }
    }
  }

  class Ensemble {
    const operatorIndexed: ToggleSet
    /** The running watchers, with their own toggles if their resources are indexed. */
    var watchers: map<Key, Option<nat>>

    ghost predicate Valid()
      reads this, operatorIndexed
    {
      operatorIndexed.requiresAll && operatorIndexed.Valid()
    }

    constructor (operatorIndexed: ToggleSet)
      requires operatorIndexed.requiresAll && operatorIndexed.Valid()
      ensures Valid() && this.operatorIndexed == operatorIndexed && watchers == map[]
    {
      this.operatorIndexed, watchers := operatorIndexed, map[];
    }

    /** The blocker holds the readiness off in all the moments between the first watcher and the last one. */
    method SpawnMissingWatchers(indexed: set<Resource>, watched: set<Resource>, namespaces: set<Option<string>>)
      requires Valid()
      modifies this, operatorIndexed
      ensures Valid()
      ensures watchers.Keys == old(watchers).Keys + KeysOf(watched, namespaces)
      ensures Grown(old(watchers), watchers, old(operatorIndexed.toggles), operatorIndexed.toggles, indexed)
    {
      ghost var was, toggles := watchers, operatorIndexed.toggles;
      var blocker := operatorIndexed.MakeToggle(false);
      ghost var blocked := operatorIndexed.toggles;
      var left := KeysOf(watched, namespaces);
      while left != {}
        invariant Valid() && left <= KeysOf(watched, namespaces)
        invariant watchers.Keys == was.Keys + (KeysOf(watched, namespaces) - left)
        invariant Grown(was, watchers, blocked, operatorIndexed.toggles, indexed)
        invariant blocker in operatorIndexed.toggles && !operatorIndexed.toggles[blocker] && !operatorIndexed.IsOn()
      {
        var key :| key in left;
        if key !in watchers {
          SpawnWatcher(key, indexed, was, blocked);
        }
        left := left - {key};
      }
      ghost var withBlocker := operatorIndexed.toggles;
      operatorIndexed.DropToggle(blocker);
      assert operatorIndexed.toggles[blocker := false] == withBlocker;
      Unblocked(was, watchers, toggles, blocker, blocked, operatorIndexed.toggles, indexed);
    }

    method SpawnWatcher(
      key: Key, indexed: set<Resource>, ghost was: map<Key, Option<nat>>, ghost blocked: map<nat, bool>
    )
      requires Valid() && key !in watchers && Grown(was, watchers, blocked, operatorIndexed.toggles, indexed)
      modifies this, operatorIndexed
      ensures Valid() && watchers.Keys == old(watchers).Keys + {key}
      ensures Grown(was, watchers, blocked, operatorIndexed.toggles, indexed)
      ensures forall id :: id in old(operatorIndexed.toggles) ==>
                id in operatorIndexed.toggles && operatorIndexed.toggles[id] == old(operatorIndexed.toggles)[id]
    {
      ghost var before := operatorIndexed.toggles;
      var toggle := None;
      if key.resource in indexed {
        var id := operatorIndexed.MakeToggle(false);
        toggle := Some(id);
      }
      GrownByOne(was, watchers, blocked, before, indexed, key, toggle);
      watchers := watchers[key := toggle];
    }

    /** The toggles of the watchers that are stopped are left behind: nobody has them anymore, but they are still in the
        set, and one "off" of them is enough to keep the operator not ready. */
    method TerminateRedundancies(resources: set<Resource>, namespaces: set<Option<string>>)
      modifies this`watchers
      ensures watchers == map key | key in old(watchers) && key.resource in resources && key.namespace in namespaces
                            :: old(watchers)[key]
      ensures operatorIndexed.toggles == old(operatorIndexed.toggles)
      ensures HaveOwnToggles(old(watchers)) ==>
                forall key :: key in old(watchers) && key !in watchers && old(watchers)[key].Some? ==>
                  old(watchers)[key] !in watchers.Values
      ensures operatorIndexed.requiresAll ==>
                forall key :: key in old(watchers) && key !in watchers && IsOff(old(watchers)[key]) ==>
                  !operatorIndexed.IsOn()
    {
      var redundant := set key | key in watchers && (key.namespace !in namespaces || key.resource !in resources);
      watchers := watchers - redundant;
    }

    predicate IsOff(toggle: Option<nat>)
      reads operatorIndexed
    {
      toggle.Some? && toggle.value in operatorIndexed.toggles && !operatorIndexed.toggles[toggle.value]
    }
  }

  /** No two watchers share a toggle. */
  ghost predicate HaveOwnToggles(watchers: map<Key, Option<nat>>) {
    forall key, other :: key in watchers && other in watchers && key != other && watchers[key].Some? ==>
      watchers[key] != watchers[other]
  }

  /** The new watchers, and only they, get new toggles, each its own, and only if the resource is indexed.
      All of these are "off". */
  ghost predicate Grown(
    was: map<Key, Option<nat>>, now: map<Key, Option<nat>>, before: map<nat, bool>, after: map<nat, bool>,
    indexed: set<Resource>
  ) {
    && (forall key :: key in was ==> key in now && now[key] == was[key])
    && (forall key :: key in now && key !in was ==> HasOwnToggle(key, now[key], before, after, indexed))
    && (forall id :: id in before ==> id in after && after[id] == before[id])
    && (forall id :: id in after && id !in before ==> exists key :: key in now && key !in was && now[key] == Some(id))
    && (forall key, other :: key in now && key !in was && other in now && other !in was && key != other ==>
          now[key].None? || now[key] != now[other])
  }

  predicate HasOwnToggle(
    key: Key, toggle: Option<nat>, before: map<nat, bool>, after: map<nat, bool>, indexed: set<Resource>
  ) {
    if key.resource in indexed then toggle.Some? && toggle.value !in before && toggle.value in after
      && !after[toggle.value]
    else toggle.None?
  }

  lemma GrownByOne(
    was: map<Key, Option<nat>>, now: map<Key, Option<nat>>, before: map<nat, bool>, after: map<nat, bool>,
    indexed: set<Resource>,
    key: Key, toggle: Option<nat>
  )
    requires Grown(was, now, before, after, indexed) && key !in now
    requires if key.resource in indexed then toggle.Some? && toggle.value !in after else toggle.None?
    ensures var after' := if toggle.Some? then after[toggle.value := false] else after;
            Grown(was, now[key := toggle], before, after', indexed)
  {
    var now', after' := now[key := toggle], if toggle.Some? then after[toggle.value := false] else after;
    forall other | other in now' && other !in was ensures HasOwnToggle(other, now'[other], before, after', indexed) {
      if other != key { assert HasOwnToggle(other, now[other], before, after, indexed); }
    }
    forall id | id in after' && id !in before ensures exists k :: k in now' && k !in was && now'[k] == Some(id) {
      if toggle == Some(id) {
        assert now'[key] == Some(id);
      } else {
        var k :| k in now && k !in was && now[k] == Some(id);
        assert now'[k] == Some(id);
      }
    }
  }

  lemma Unblocked(
    was: map<Key, Option<nat>>, now: map<Key, Option<nat>>, toggles: map<nat, bool>, blocker: nat,
    blocked: map<nat, bool>, after: map<nat, bool>, indexed: set<Resource>
  )
    requires blocker !in toggles && blocked == toggles[blocker := false]
    requires after.Keys !! {blocker} && Grown(was, now, blocked, after[blocker := false], indexed)
    ensures Grown(was, now, toggles, after, indexed)
  {
    forall key | key in now && key !in was ensures HasOwnToggle(key, now[key], toggles, after, indexed) {
      assert HasOwnToggle(key, now[key], blocked, after[blocker := false], indexed);
    }
    forall id | id in toggles ensures id in after && after[id] == toggles[id] {
      assert id in blocked && blocked[id] == toggles[id];
      assert id in after[blocker := false] && after[blocker := false][id] == blocked[id];
    }
    forall id | id in after && id !in toggles ensures exists key :: key in now && key !in was && now[key] == Some(id) {
      assert id in after[blocker := false] && id !in blocked;
    }
  }

  /** A set of the `all` kind stays off as long as a new watcher of an indexed resource holds its toggle. */
  lemma NewWatchersBlock(
    was: map<Key, Option<nat>>, now: map<Key, Option<nat>>, before: map<nat, bool>, after: map<nat, bool>,
    indexed: set<Resource>
  )
    requires Grown(was, now, before, after, indexed)
    ensures (forall id :: id in after ==> after[id]) <==>
              && (forall id :: id in before ==> before[id])
              && (forall key :: key in now && key !in was ==> key.resource !in indexed)
  {
    forall key | key in now && key !in was ensures HasOwnToggle(key, now[key], before, after, indexed) {}
    forall id | id in after
      ensures id in before || exists key :: key in now && key !in was && key.resource in indexed
    {
      assert id !in before ==> exists key :: key in now && key !in was && now[key] == Some(id);
    }
  }
}
