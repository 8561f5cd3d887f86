/** `createStore(reducerMap)` (src/libs/store.ts, lines 175-229): a store built straight from a
    reducer map, whose one state object is created once and then overwritten field by field on
    every dispatch. */
module SliceStore {
  import opened Optional
  import opened Actions
  import opened Combinators
  import opened Subscriptions

  /** `getDefaultState`, folded over the slice names from `{}`: every slice gets its reducer's
      answer to `STORE/INITIALISE` on an undefined state. */
  function DefaultSlices<V, P>(slices: seq<Slice<V, P>>, store: Slices<V>): Slices<V>
    decreases |slices|
  {
    if slices == [] then store
    else DefaultSlices(slices[1..], store[slices[0].name := slices[0].reducer(None, InitAction())])
  }

  /** The initial object has exactly the map's names as keys, each slice holding its reducer's
      initial value, even an undefined one. */
  lemma {:induction false} DefaultSlicesAt<V, P>(reducerMap: ReducerMap<V, P>, store: Slices<V>)
    ensures var initial := DefaultSlices(reducerMap, store);
      && initial.Keys == store.Keys + NameSet(reducerMap)
      && (forall i | 0 <= i < |reducerMap| :: initial[reducerMap[i].name] == reducerMap[i].reducer(None, InitAction()))
      && (forall name | name in store && name !in NameSet(reducerMap) :: initial[name] == store[name])
  {
    if reducerMap != [] {
      var first := reducerMap[0];
      var rest: ReducerMap<V, P> := reducerMap[1..];
      var after := store[first.name := first.reducer(None, InitAction())];
      DefaultSlicesAt(rest, after);
      assert NameSet(reducerMap) == {first.name} + NameSet(rest) by {
        forall name | name in NameSet(reducerMap) ensures name in {first.name} + NameSet(rest) {
          var i :| 0 <= i < |reducerMap| && reducerMap[i].name == name;
          if i > 0 { assert rest[i - 1].name == name; }
        }
      }
      forall i | 0 <= i < |rest| ensures rest[i].name != first.name {
        assert rest[i] == reducerMap[i + 1];
      }
      assert first.name !in NameSet(rest);
      forall i | 0 <= i < |reducerMap|
        ensures DefaultSlices(reducerMap, store)[reducerMap[i].name] == reducerMap[i].reducer(None, InitAction())
      {
        if i > 0 { assert rest[i - 1] == reducerMap[i]; }
      }
    }
  }

  /** The in-place store starts where `combineInParallel(reducerMap)` goes from `undefined` on
      `STORE/INITIALISE`: every slice reads the same. The two objects differ only in keys: here a
      slice whose reducer answered `undefined` still has its key, there it has none. */
  lemma DefaultSlicesAgreeWithParallel<V, P>(reducerMap: ReducerMap<V, P>)
    ensures var initial := DefaultSlices(reducerMap, map[]);
            var combined := CombineInParallel(reducerMap)(None, InitAction());
      && combined.Some?
      && combined.value.Keys <= initial.Keys
      && forall name :: Get(initial, name) == Get(combined.value, name)
  {
    var initial := DefaultSlices(reducerMap, map[]);
    DefaultSlicesAt(reducerMap, map[]);
    ParallelSlicesAt(reducerMap, None, InitAction());
    var combined := CombineInParallel(reducerMap)(None, InitAction()).value;
    forall name ensures Get(initial, name) == Get(combined, name) {
      if name in NameSet(reducerMap) {
        var i :| 0 <= i < |reducerMap| && reducerMap[i].name == name;
      }
    }
  }

  /** Overwriting every slice of an object whose keys are the map's names, each with its
      reducer's result on the slice as it was, gives the same object value that
      `combineInParallel` computes from it: the identity skip only spares a copy. */
  lemma InPlaceMatchesParallel<V, P>(reducerMap: ReducerMap<V, P>, before: Slices<V>, after: Slices<V>, action: Action<P>)
    requires before.Keys == NameSet(reducerMap) && after.Keys == NameSet(reducerMap)
    requires forall i | 0 <= i < |reducerMap| ::
               after[reducerMap[i].name] == reducerMap[i].reducer(before[reducerMap[i].name], action)
    ensures CombineInParallel(reducerMap)(Some(before), action) == Some(after)
  {
    FoldSlicesAt(reducerMap, before, action);
    var next := FoldSlices(reducerMap, before, action);
    assert next.Keys == after.Keys;
    forall name | name in after ensures next[name] == after[name] {
      var i :| 0 <= i < |reducerMap| && reducerMap[i].name == name;
      assert Get(next, name) == next[name];
    }
    assert next == after;
  }

  /** The `Mapable` object `createStore` hands out and then mutates. */
  class StoreObject<V> {
    var fields: Slices<V>

    constructor (fields: Slices<V>)
      ensures this.fields == fields
    {
      this.fields := fields;
    }
  }

  class Store<V, P> {
    const reducerMap: ReducerMap<V, P>
    /** `store`: the one state object, for the store's whole life. */
    const store: StoreObject<V>
    /** `let subscriptions`. */
    var subscriptions: seq<Listener>
    /** Every call made to a listener so far: each is handed the store object itself. */
    var log: seq<(Listener, StoreObject<V>)>

    /** The key set is fixed at construction: one key per slice name. */
    ghost predicate Valid()
      reads this, store
    {
      store.fields.Keys == NameSet(reducerMap)
    }

    /** Construction gives every slice its reducer's initial value and tells nobody. */
    constructor (reducerMap: ReducerMap<V, P>)
      ensures Valid() && fresh(store)
      ensures this.reducerMap == reducerMap
      ensures forall i | 0 <= i < |reducerMap| ::
                store.fields[reducerMap[i].name] == reducerMap[i].reducer(None, InitAction())
      ensures forall name :: Get(store.fields, name) == Get(CombineInParallel(reducerMap)(None, InitAction()).value, name)
      ensures subscriptions == [] && log == []
    {
      this.reducerMap := reducerMap;
      DefaultSlicesAt(reducerMap, map[]);
      DefaultSlicesAgreeWithParallel(reducerMap);
      store := new StoreObject(DefaultSlices(reducerMap, map[]));
      subscriptions := [];
      log := [];
    }

    /** `dispatch(action)`: overwrite every slice, in key order, with its reducer's result on
        that slice (no identity skip, same object), then call every subscriber once, in list
        order, with that same object. The slice names were fixed at construction, so a slice
        key a caller deleted from the object is read as undefined and written back. */
    method Dispatch(action: Action<P>)
      modifies this`log, store
      ensures old(Valid()) ==> Valid()
      ensures store.fields.Keys == old(store.fields).Keys + NameSet(reducerMap)
      ensures forall i | 0 <= i < |reducerMap| ::
                store.fields[reducerMap[i].name] == reducerMap[i].reducer(Get(old(store.fields), reducerMap[i].name), action)
      ensures forall name | name in old(store.fields) && name !in NameSet(reducerMap) ::
                store.fields[name] == old(store.fields)[name]
      ensures old(Valid()) ==> Some(store.fields) == CombineInParallel(reducerMap)(Some(old(store.fields)), action)
      ensures log == old(log) + Broadcast(subscriptions, store)
    {
      OverwriteSlices(action);
      var subs := subscriptions;
      var i := 0;
      while i < |subs|
        modifies this`log
        invariant 0 <= i <= |subs|
        invariant log == old(log) + Broadcast(subs[..i], store)
      {
        assert subs[..i + 1] == subs[..i] + [subs[i]];
        BroadcastPush(subs[..i], subs[i], store);
        log := log + [(subs[i], store)];
        i := i + 1;
      }
      assert subs[..i] == subs;
    }

    /** The first half of `dispatch`: the `sliceNames.forEach` that writes
        `store[sliceName] = reducer(store[sliceName], action)` for each name in turn. */
    method OverwriteSlices(action: Action<P>)
      modifies store
      ensures old(Valid()) ==> Valid()
      ensures store.fields.Keys == old(store.fields).Keys + NameSet(reducerMap)
      ensures forall i | 0 <= i < |reducerMap| ::
                store.fields[reducerMap[i].name] == reducerMap[i].reducer(Get(old(store.fields), reducerMap[i].name), action)
      ensures forall name | name in old(store.fields) && name !in NameSet(reducerMap) ::
                store.fields[name] == old(store.fields)[name]
      ensures old(Valid()) ==> Some(store.fields) == CombineInParallel(reducerMap)(Some(old(store.fields)), action)
    {
      var i := 0;
      while i < |reducerMap|
        invariant 0 <= i <= |reducerMap|
        invariant old(store.fields).Keys <= store.fields.Keys <= old(store.fields).Keys + NameSet(reducerMap)
        invariant forall j | 0 <= j < i :: reducerMap[j].name in store.fields
        invariant forall j | 0 <= j < i ::
                    store.fields[reducerMap[j].name] == reducerMap[j].reducer(Get(old(store.fields), reducerMap[j].name), action)
        invariant forall j | i <= j < |reducerMap| ::
                    Get(store.fields, reducerMap[j].name) == Get(old(store.fields), reducerMap[j].name)
        invariant forall name | name in old(store.fields) && name !in NameSet(reducerMap) ::
                    store.fields[name] == old(store.fields)[name]
      {
        var sliceName := reducerMap[i].name;
        var slice := Get(store.fields, sliceName);
        store.fields := store.fields[sliceName := reducerMap[i].reducer(slice, action)];
        forall j | 0 <= j < |reducerMap| && j != i ensures reducerMap[j].name != sliceName {
          assert DistinctNames(reducerMap);
        }
        i := i + 1;
      }
      forall name | name in NameSet(reducerMap) ensures name in store.fields {
        var j :| 0 <= j < |reducerMap| && reducerMap[j].name == name;
      }
      if old(Valid()) {
        forall i | 0 <= i < |reducerMap|
          ensures store.fields[reducerMap[i].name] == reducerMap[i].reducer(old(store.fields)[reducerMap[i].name], action)
        {
          assert reducerMap[i].name in NameSet(reducerMap);
        }
        InPlaceMatchesParallel(reducerMap, old(store.fields), store.fields, action);
      }
    }

    /** `notify(listener, shouldInvokeImmediate = true)`, as in the other store, except that
        the listener is handed the store object. */
    method Notify(listener: Listener, shouldInvokeImmediate: bool := true) returns (length: Position)
      modifies this`subscriptions, this`log
      ensures old(Valid()) ==> Valid()
      ensures subscriptions == old(subscriptions) + [listener]
      ensures length == |subscriptions|
      ensures log == old(log) + if shouldInvokeImmediate then [(listener, store)] else []
    {
      subscriptions := subscriptions + [listener];
      length := |subscriptions|;
      if shouldInvokeImmediate {
        log := log + [(listener, store)];
      }
    }

    /** The closure `notify` returns, called: remove the entry at the captured position. */
    method Unsubscribe(length: Position)
      modifies this`subscriptions
      ensures old(Valid()) ==> Valid()
      ensures subscriptions == Unsubscribed(old(subscriptions), length)
    {
      subscriptions := subscriptions[..Min(length - 1, |subscriptions|)] + subscriptions[Min(length, |subscriptions|)..];
    }
  }
}
