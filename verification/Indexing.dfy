/** The in-memory indices: kopf/_core/engines/indexing.py. An index maps each key to a store of values of several
    objects; its reverse part tells the keys of each object, so that updates do not scan the whole index. */
module Indexing {
  import opened Wrappers

  // ----- What an index means -----

  /** The value of the object under the key. */
  function Stored<A, K, V>(items: map<K, map<A, V>>, key: K, acckey: A): Option<V> {
    if key in items && acckey in items[key] then Some(items[key][acckey]) else None
  }

  /** What was the last indexed of each object. */
  function Mapped<A, K, V>(model: map<A, map<K, V>>, acckey: A, key: K): Option<V> {
    if acckey in model && key in model[acckey] then Some(model[acckey][key]) else None
  }

  /** The index is the inversion of a plain map of the objects, with no empty stores, and the reverse part goes with
      it. */
  ghost predicate Inverts<A(!new), K(!new), V>(
    items: map<K, map<A, V>>, reverse: map<A, set<K>>, model: map<A, map<K, V>>
  ) {
    && (forall key, acckey :: Stored(items, key, acckey) == Mapped(model, acckey, key))
    && (forall key :: key in items ==> items[key] != map[])
    && reverse.Keys == model.Keys
    && (forall acckey :: acckey in model ==> reverse[acckey] == model[acckey].Keys)
  }

  predicate NoneEmpty<A, K, V>(model: map<A, map<K, V>>) {
    forall acckey :: acckey in model ==> model[acckey] != map[]
  }

  /** The contents determine the index. */
  lemma IndexIsOne<A(!new), K(!new), V>(
    items: map<K, map<A, V>>, items': map<K, map<A, V>>, reverse: map<A, set<K>>, reverse': map<A, set<K>>,
    model: map<A, map<K, V>>
  )
    requires Inverts(items, reverse, model) && Inverts(items', reverse', model)
    ensures items == items' && reverse == reverse'
  {
    KeysAreSame(items, items', reverse, reverse', model);
    KeysAreSame(items', items, reverse', reverse, model);
  }

  lemma KeysAreSame<A(!new), K(!new), V>(
    items: map<K, map<A, V>>, items': map<K, map<A, V>>, reverse: map<A, set<K>>, reverse': map<A, set<K>>,
    model: map<A, map<K, V>>
  )
    requires Inverts(items, reverse, model) && Inverts(items', reverse', model)
    ensures forall key :: key in items ==> key in items' && items[key] == items'[key]
  {
    forall key | key in items ensures key in items' && items[key] == items'[key] {
      var acckey :| acckey in items[key];
      assert Stored(items', key, acckey) == Mapped(model, acckey, key) == Stored(items, key, acckey);
      forall a ensures a in items[key] <==> a in items'[key]
               ensures a in items[key] ==> items[key][a] == items'[key][a] {
        assert Stored(items', key, a) == Mapped(model, a, key) == Stored(items, key, a);
      }
    }
  }

  /** And the index determines the contents: nothing is lost in the inversion. */
  lemma ContentsAreOne<A(!new), K(!new), V>(
    items: map<K, map<A, V>>, reverse: map<A, set<K>>, model: map<A, map<K, V>>, other: map<A, map<K, V>>
  )
    requires Inverts(items, reverse, model) && Inverts(items, reverse, other)
    ensures model == other
  {
    forall a | a in model ensures model[a] == other[a] {
      forall key | key in model[a] ensures model[a][key] == other[a][key] {
        assert Mapped(model, a, key) == Stored(items, key, a) == Mapped(other, a, key);
      }
    }
  }

  function Put<A, K, V>(items: map<K, map<A, V>>, key: K, acckey: A, value: V): map<K, map<A, V>> {
    items[key := (if key in items then items[key] else map[])[acckey := value]]
  }

  function Dropped<A, K, V>(items: map<K, map<A, V>>, key: K, acckey: A): map<K, map<A, V>>
    requires key in items
  {
    if items[key] - {acckey} == map[] then items - {key} else items[key := items[key] - {acckey}]
  }

  lemma PutInverts<A(!new), K(!new), V>(
    items: map<K, map<A, V>>, reverse: map<A, set<K>>, model: map<A, map<K, V>>, key: K, acckey: A, value: V
  )
    requires Inverts(items, reverse, model) && acckey in model
    ensures Inverts(Put(items, key, acckey, value), reverse[acckey := reverse[acckey] + {key}],
                    model[acckey := model[acckey][key := value]])
  {
    var items', model' := Put(items, key, acckey, value), model[acckey := model[acckey][key := value]];
    forall k, a ensures Stored(items', k, a) == Mapped(model', a, k) {
      assert Stored(items, k, a) == Mapped(model, a, k);
    }
    assert acckey in items'[key];
  }

  lemma DroppedInverts<A(!new), K(!new), V>(
    items: map<K, map<A, V>>, reverse: map<A, set<K>>, model: map<A, map<K, V>>, key: K, acckey: A
  )
    requires Inverts(items, reverse, model) && acckey in model && key in model[acckey]
    ensures key in items && acckey in items[key]
    ensures Inverts(Dropped(items, key, acckey), reverse[acckey := reverse[acckey] - {key}],
                    model[acckey := model[acckey] - {key}])
  {
    assert Stored(items, key, acckey) == Mapped(model, acckey, key);
    var items', model' := Dropped(items, key, acckey), model[acckey := model[acckey] - {key}];
    forall k, a ensures Stored(items', k, a) == Mapped(model', a, k) {
      assert Stored(items, k, a) == Mapped(model, a, k);
      if k == key && a in items[key] && a != acckey {
        assert a in items[key] - {acckey};
      }
    }
  }

  lemma EmptyInverts<A(!new), K(!new), V>(
    items: map<K, map<A, V>>, reverse: map<A, set<K>>, model: map<A, map<K, V>>, acckey: A
  )
    requires Inverts(items, reverse, model)
    ensures acckey !in model ==> Inverts(items, reverse[acckey := {}], model[acckey := map[]])
    ensures acckey in model && model[acckey] == map[] ==> Inverts(items, reverse - {acckey}, model - {acckey})
  {
    forall k, a
      ensures acckey !in model ==> Stored(items, k, a) == Mapped(model[acckey := map[]], a, k)
      ensures acckey in model && model[acckey] == map[] ==> Stored(items, k, a) == Mapped(model - {acckey}, a, k)
    {
      assert Stored(items, k, a) == Mapped(model, a, k);
    }
  }

  /** What the object has in the middle of its replacement. */
  function Overlaid<K, V>(was: map<K, V>, obj: map<K, V>, left: set<K>): map<K, V> {
    was + (obj - left)
  }

  lemma OverlaidByOne<K, V>(was: map<K, V>, obj: map<K, V>, left: set<K>, key: K)
    requires key in left && key in obj
    ensures Overlaid(was, obj, left)[key := obj[key]] == Overlaid(was, obj, left - {key})
  {
  }

  lemma OverlaidByAll<K, V>(was: map<K, V>, obj: map<K, V>)
    ensures Overlaid(was, obj, obj.Keys) == was
    ensures Overlaid(was, obj, {}) - (Overlaid(was, obj, {}).Keys - obj.Keys) == obj
  {
    assert obj - {} == obj;
  }

  lemma ReplacedInSteps<A, K, V>(model: map<A, map<K, V>>, acckey: A, obj: map<K, V>)
    ensures var entered := if acckey in model then model else model[acckey := map[]];
            var full := entered[acckey := Overlaid(entered[acckey], obj, {})];
            var rest := full[acckey] - (full[acckey].Keys - obj.Keys);
            rest == obj
            && (if rest == map[] then full - {acckey} else full[acckey := rest])
               == (if obj == map[] then model - {acckey} else model[acckey := obj])
  {
    OverlaidByAll(if acckey in model then model[acckey] else map[], obj);
  }

  lemma LessByOne<K, V>(was: map<K, V>, all: set<K>, left: set<K>, key: K)
    requires key in left && left <= all
    ensures (was - (all - left)) - {key} == was - (all - (left - {key}))
  {
  }

  // ----- The indices in memory -----

  class Store<A(!new, ==), V(==)> {
    var items: map<A, V>

    constructor ()
      ensures items == map[]
    {
      items := map[];
    }

    method Discard(acckey: A)
      modifies this
      ensures items == old(items) - {acckey}
    {
      items := items - {acckey};
    }

    method Replace(acckey: A, obj: V)
      modifies this
      ensures items == old(items)[acckey := obj]
    {
      if acckey !in items || items[acckey] != obj {
        items := items[acckey := obj];
      }
    }
  }

  class Index<A(!new, ==), K(!new, ==), V(==)> {
    var items: map<K, Store<A, V>>
    var reverse: map<A, set<K>>
    /** What was the last indexed of each object. */
    ghost var model: map<A, map<K, V>>

    ghost function Contents(): map<K, map<A, V>>
      reads this, items.Values
    {
      map key | key in items :: items[key].items
    }

    ghost predicate Separate()
      reads this
    {
      forall key, other :: key in items && other in items && key != other ==> items[key] != items[other]
    }

    /** Consistent, though an object can be there with no keys in the middle of an update. */
    ghost predicate Consistent()
      reads this, items.Values
    {
      Separate() && Inverts(Contents(), reverse, model)
    }

    ghost predicate Valid()
      reads this, items.Values
    {
      Consistent() && NoneEmpty(model)
    }

    constructor ()
      ensures Valid() && model == map[]
    {
      items, reverse, model := map[], map[], map[];
    }

    /** Append or replace the value in that store, which is made if needed. */
    method PutValue(acckey: A, key: K, value: V)
      requires Separate()
      modifies this`items, items.Values
      ensures Separate() && Contents() == Put(old(Contents()), key, acckey, value)
      ensures forall store :: store in items.Values ==> store in old(items.Values) || fresh(store)
    {
      var store: Store<A, V>;
      if key in items {
        store := items[key];
      } else {
        store := new Store<A, V>();
        items := items[key := store];
      }
      store.Replace(acckey, value);
      assert Contents() == Put(old(Contents()), key, acckey, value);
    }

    /** Discard from that store, and from the index if nothing is left in the store. */
    method DropValue(acckey: A, key: K)
      requires Separate() && key in items
      modifies this`items, items.Values
      ensures Separate() && Contents() == Dropped(old(Contents()), key, acckey)
      ensures items.Values <= old(items.Values)
    {
      var store := items[key];
      store.Discard(acckey);
      if store.items == map[] {
        items := items - {key};
      }
      assert Contents() == Dropped(old(Contents()), key, acckey);
    }

    method PutOne(acckey: A, key: K, value: V)
      requires Consistent() && acckey in model
      modifies this, items.Values
      ensures Consistent() && model == old(model)[acckey := old(model)[acckey][key := value]]
      ensures forall store :: store in items.Values ==> store in old(items.Values) || fresh(store)
    {
      PutInverts(Contents(), reverse, model, key, acckey, value);
      PutValue(acckey, key, value);
      reverse := reverse[acckey := reverse[acckey] + {key}];
      model := model[acckey := model[acckey][key := value]];
    }

    method DropOne(acckey: A, key: K)
      requires Consistent() && acckey in model && key in model[acckey]
      modifies this, items.Values
      ensures Consistent() && model == old(model)[acckey := old(model)[acckey] - {key}]
      ensures items.Values <= old(items.Values)
    {
      DroppedInverts(Contents(), reverse, model, key, acckey);
      DropValue(acckey, key);
      reverse := reverse[acckey := reverse[acckey] - {key}];
      model := model[acckey := model[acckey] - {key}];
    }

    /** From all these keys of the object, which remains known even if with no keys. */
    method DropMany(acckey: A, keys: set<K>)
      requires Consistent() && acckey in model && keys <= model[acckey].Keys
      modifies this, items.Values
      ensures Consistent() && model == old(model)[acckey := old(model)[acckey] - keys]
      ensures items.Values <= old(items.Values)
    {
      ghost var was := model[acckey];
      var left := keys;
      assert was - (keys - left) == was;
      while left != {}
        invariant Consistent() && left <= keys && acckey in model && left <= model[acckey].Keys
        invariant model == old(model)[acckey := was - (keys - left)]
        invariant items.Values <= old(items.Values)
      {
        var key :| key in left;
        LessByOne(was, keys, left, key);
        DropOne(acckey, key);
        left := left - {key};
      }
      assert keys - left == keys;
    }

    /** From these keys, or from all of them if none are given. */
    method Discard(acckey: A, keys: Option<set<K>>)
      requires Consistent()
      requires acckey in model && keys.Some? ==> keys.value <= model[acckey].Keys
      requires forall other :: other in model && other != acckey ==> model[other] != map[]
      modifies this, items.Values
      ensures Valid()
      ensures acckey !in old(model) ==> model == old(model)
      ensures acckey in old(model) ==>
                var rest := old(model)[acckey] - (if keys.Some? then keys.value else old(model)[acckey].Keys);
                model == if rest == map[] then old(model) - {acckey} else old(model)[acckey := rest]
      ensures items.Values <= old(items.Values)
    {
      if acckey in reverse {
        var left := if keys.Some? then keys.value else reverse[acckey];
        DropMany(acckey, left);
        Leave(acckey);
        assert old(model)[acckey := map[]] - {acckey} == old(model) - {acckey};
      }
    }

    method Enter(acckey: A)
      requires Consistent()
      modifies this`reverse, this`model
      ensures Consistent() && model == if acckey in old(model) then old(model) else old(model)[acckey := map[]]
    {
      EmptyInverts(Contents(), reverse, model, acckey);
      if acckey !in reverse {
        reverse := reverse[acckey := {}];
        model := model[acckey := map[]];
      }
    }

    method Leave(acckey: A)
      requires Consistent() && acckey in model
      modifies this`reverse, this`model
      ensures Consistent() && model == if old(model)[acckey] == map[] then old(model) - {acckey} else old(model)
    {
      EmptyInverts(Contents(), reverse, model, acckey);
      if reverse[acckey] == {} {
        assert model[acckey] == map[];
        reverse := reverse - {acckey};
        model := model - {acckey};
      }
    }

    /** All these values of the object, besides those that are there. */
    method PutMany(acckey: A, obj: map<K, V>)
      requires Consistent() && acckey in model
      modifies this, items.Values
      ensures Consistent() && model == old(model)[acckey := Overlaid(old(model)[acckey], obj, {})]
      ensures forall store :: store in items.Values ==> store in old(items.Values) || fresh(store)
    {
      ghost var was := model[acckey];
      var left := obj.Keys;
      OverlaidByAll(was, obj);
      while left != {}
        invariant Consistent() && left <= obj.Keys && acckey in model
        invariant model == old(model)[acckey := Overlaid(was, obj, left)]
        invariant forall store :: store in items.Values ==> store in old(items.Values) || fresh(store)
      {
        var key :| key in left;
        OverlaidByOne(was, obj, left, key);
        PutOne(acckey, key, obj[key]);
        left := left - {key};
      }
    }

    /** An update of one object, as a plain assignment to the map of the last mappings. */
    method Replace(acckey: A, obj: map<K, V>)
      requires Valid()
      modifies this, items.Values
      ensures Valid()
      ensures model == if obj == map[] then old(model) - {acckey} else old(model)[acckey := obj]
    {
      ReplacedInSteps(model, acckey, obj);
      Enter(acckey);
      PutMany(acckey, obj);
      Discard(acckey, Some(reverse[acckey] - obj.Keys));
    }
  }

  // ----- All indices of the operator -----

  /** What an indexing handler has come to; values with no keys go under the "none" key. */
  datatype Outcome<K(==), V> = Failed | Nothing | Mapping(obj: map<Option<K>, V>) | Plain(value: V)

  /** One event of an object: either it is gone, or some handlers were called for it, and some have not matched it. */
  datatype Event<A, K(==), V> = Deleted(acckey: A) | Indexed(acckey: A, outcomes: map<string, Outcome<K, V>>)

  type Contents<A(==), K(==), V> = map<A, map<Option<K>, V>>

  /** The mapping with no keys is not kept: the object is not in the index then. */
  function Assigned<A(==), K(==), V>(model: Contents<A, K, V>, acckey: A, obj: map<Option<K>, V>): Contents<A, K, V> {
    if obj == map[] then model - {acckey} else model[acckey := obj]
  }

  /** `OperatorIndexers.replace` and `discard`, for one index. */
  function Reindexed<A(==), K(==), V>(id: string, model: Contents<A, K, V>, event: Event<A, K, V>): Contents<A, K, V> {
    if event.Deleted? || id !in event.outcomes then model - {event.acckey}
    else match event.outcomes[id]
         case Failed => model - {event.acckey}
         case Nothing => model
         case Mapping(obj) => Assigned(model, event.acckey, obj)
         case Plain(value) => Assigned(model, event.acckey, map[Option.None := value])
  }

  function AfterEvents<A(==), K(==), V>(id: string, events: seq<Event<A, K, V>>): Contents<A, K, V> {
    if events == [] then map[]
    else Reindexed(id, AfterEvents(id, events[..|events| - 1]), events[|events| - 1])
  }

  /** The event decides what is there for the object, whatever was there before. */
  predicate Decides<A(==), K(==), V>(id: string, event: Event<A, K, V>, acckey: A) {
    event.acckey == acckey && (event.Deleted? || id !in event.outcomes || !event.outcomes[id].Nothing?)
  }

  function Decision<A(==), K(==), V>(id: string, event: Event<A, K, V>): map<Option<K>, V> {
    if event.Deleted? || id !in event.outcomes then map[]
    else match event.outcomes[id]
         case Mapping(obj) => obj
         case Plain(value) => map[Option.None := value]
         case _ => map[]
  }

  /** After any events, an index has of each object exactly what the last event with a decision has brought. */
  lemma {:induction false} LastDecisionIsIndexed<A, K, V>(id: string, events: seq<Event<A, K, V>>, acckey: A, i: nat)
    requires i < |events| && Decides(id, events[i], acckey)
    requires forall j :: i < j < |events| ==> !Decides(id, events[j], acckey)
    ensures var model := AfterEvents(id, events);
            if Decision(id, events[i]) == map[] then acckey !in model
            else acckey in model && model[acckey] == Decision(id, events[i])
    decreases |events|
  {
    var n := |events| - 1;
    if i < n {
      LastDecisionIsIndexed(id, events[..n], acckey, i);
    }
  }

  lemma {:induction false} NothingDecided<A, K, V>(id: string, events: seq<Event<A, K, V>>, acckey: A)
    requires forall j :: 0 <= j < |events| ==> !Decides(id, events[j], acckey)
    ensures acckey !in AfterEvents(id, events)
    decreases |events|
  {
    if events != [] {
      NothingDecided(id, events[..|events| - 1], acckey);
    }
  }
}
