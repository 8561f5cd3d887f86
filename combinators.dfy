/** Reducers and the two ways of combining them (src/libs/store.ts, lines 11-21 and 81-111):
    `combineInSeries` threads one state through a list of reducers, `combineInParallel` gives
    each named slice of an object state its own reducer. */
module Combinators {
  import opened Optional
  import opened Actions

  /** `(state, action) => state`. `None` is `undefined`, both as the state a reducer is given
      and as a state it may return. */
  type Reducer<!S, !P> = (Option<S>, Action<P>) -> Option<S>

  // ---------------------------------------------------------------------------
  // combineInSeries
  // ---------------------------------------------------------------------------

  /** `reducers.reduce(serialCombine, state)`: a left fold, each reducer given the previous
      one's output and the same action. */
  function FoldSeries<S, P>(reducers: seq<Reducer<S, P>>, state: Option<S>, action: Action<P>): Option<S>
    decreases |reducers|
  {
    if reducers == [] then state
    else FoldSeries(reducers[1..], reducers[0](state, action), action)
  }

  /** `combineInSeries(...reducers)`. No default is substituted at this layer. */
  function CombineInSeries<S, P>(reducers: seq<Reducer<S, P>>): Reducer<S, P>
  {
    (state: Option<S>, action: Action<P>) => FoldSeries(reducers, state, action)
  }

  /** Running `first ++ second` is running `first`, then `second` on its output. */
  lemma {:induction false} FoldSeriesAppend<S, P>(first: seq<Reducer<S, P>>, second: seq<Reducer<S, P>>,
                                                 state: Option<S>, action: Action<P>)
    ensures FoldSeries(first + second, state, action)
         == FoldSeries(second, FoldSeries(first, state, action), action)
  {
    if first == [] {
      assert first + second == second;
    } else {
      assert (first + second)[0] == first[0];
      assert (first + second)[1..] == first[1..] + second;
      FoldSeriesAppend(first[1..], second, first[0](state, action), action);
    }
  }

  /** The series threads left to right: the last reducer sees what all the others made of the
      state, and a series of none hands the state back untouched. */
  lemma SeriesThreadsLeftToRight<S, P>(reducers: seq<Reducer<S, P>>, last: Reducer<S, P>,
                                       state: Option<S>, action: Action<P>)
    ensures CombineInSeries<S, P>([])(state, action) == state
    ensures CombineInSeries(reducers + [last])(state, action)
         == last(CombineInSeries(reducers)(state, action), action)
  {
    FoldSeriesAppend(reducers, [last], state, action);
  }

  /** The order law for two reducers: `combineInSeries(f, g)(s, a) == g(f(s, a), a)`. */
  lemma SeriesOfTwo<S, P>(f: Reducer<S, P>, g: Reducer<S, P>, state: Option<S>, action: Action<P>)
    ensures CombineInSeries([f, g])(state, action) == g(f(state, action), action)
  {
    assert [f] + [g] == [f, g];
    SeriesThreadsLeftToRight([f], g, state, action);
    assert [f][1..] == [];
    assert FoldSeries([f], state, action) == FoldSeries([], f(state, action), action);
    assert CombineInSeries([f])(state, action) == f(state, action);
  }

  /** Reducers that all leave the state as they found it for this action leave it as it was
      in series too. */
  lemma {:induction false} SeriesOfNoOps<S, P>(reducers: seq<Reducer<S, P>>, state: Option<S>, action: Action<P>)
    requires forall i | 0 <= i < |reducers| :: reducers[i](state, action) == state
    ensures CombineInSeries(reducers)(state, action) == state
  {
    if reducers != [] {
      assert forall i | 0 <= i < |reducers[1..]| :: reducers[1..][i] == reducers[i + 1];
      SeriesOfNoOps(reducers[1..], state, action);
    }
  }

  // ---------------------------------------------------------------------------
  // combineInParallel
  // ---------------------------------------------------------------------------

  /** One entry of a reducer map: a slice name and the reducer of that slice. */
  datatype Slice<!V, !P> = Slice(name: string, reducer: Reducer<V, P>)

  predicate DistinctNames<V, P>(slices: seq<Slice<V, P>>)
  {
    forall i, j | 0 <= i < j < |slices| :: slices[i].name != slices[j].name
  }

  /** A reducer map in the order `Object.keys` lists it; an object's keys are distinct. */
  type ReducerMap<!V, !P> = slices: seq<Slice<V, P>> | DistinctNames(slices) witness []

  /** An object state: slice name to slice value. A key may be present and hold `undefined`. */
  type Slices<V> = map<string, Option<V>>

  function NameSet<V, P>(slices: seq<Slice<V, P>>): set<string>
  {
    set i | 0 <= i < |slices| :: slices[i].name
  }

  /** `state[name]`: `undefined` for a missing key. */
  function Get<V>(state: Slices<V>, name: string): Option<V>
  {
    if name in state then state[name] else None
  }

  /** `createSlices`: run one slice's reducer on that slice. When the result equals the slice
      as it was, the same state comes back; otherwise a copy with that one key overwritten. */
  function CreateSlices<V(==), P>(state: Slices<V>, slice: Slice<V, P>, action: Action<P>): (next: Slices<V>)
    ensures Get(next, slice.name) == slice.reducer(Get(state, slice.name), action)
    ensures forall name | name != slice.name :: Get(next, name) == Get(state, name)
    ensures state.Keys <= next.Keys <= state.Keys + {slice.name}
    ensures next == state <==> slice.reducer(Get(state, slice.name), action) == Get(state, slice.name)
  {
    var sliceState := Get(state, slice.name);
    var nextSliceState := slice.reducer(sliceState, action);
    if nextSliceState == sliceState then state
    else state[slice.name := nextSliceState]
  }

  /** `sliceNames.reduce(createSlices, state)`. */
  function FoldSlices<V(==), P>(slices: seq<Slice<V, P>>, state: Slices<V>, action: Action<P>): Slices<V>
    decreases |slices|
  {
    if slices == [] then state
    else FoldSlices(slices[1..], CreateSlices(state, slices[0], action), action)
  }

  /** `combineInParallel(reducerMap)`: an undefined state is taken to be `{}`. */
  function CombineInParallel<V(==), P>(reducerMap: ReducerMap<V, P>): Reducer<Slices<V>, P>
  {
    (state: Option<Slices<V>>, action: Action<P>) =>
      Some(FoldSlices(reducerMap, if state.None? then map[] else state.value, action))
  }

  /** What the fold computes, slice by slice: every named slice holds its reducer's result on
      the ORIGINAL slice (names are distinct, so no reducer sees another's output), every other
      key keeps its value, no key is dropped and only named keys are added. */
  lemma {:induction false} FoldSlicesAt<V, P>(reducerMap: ReducerMap<V, P>, state: Slices<V>, action: Action<P>)
    ensures var next := FoldSlices(reducerMap, state, action);
      && state.Keys <= next.Keys <= state.Keys + NameSet(reducerMap)
      && (forall i | 0 <= i < |reducerMap| ::
            Get(next, reducerMap[i].name) == reducerMap[i].reducer(Get(state, reducerMap[i].name), action))
      && (forall name | name !in NameSet(reducerMap) :: Get(next, name) == Get(state, name))
  {
    if reducerMap != [] {
      var first := reducerMap[0];
      var rest: ReducerMap<V, P> := reducerMap[1..];
      var after := CreateSlices(state, first, action);
      FoldSlicesAt(rest, after, action);
      var next := FoldSlices(rest, after, action);
      assert NameSet(reducerMap) == {first.name} + NameSet(rest) by {
        forall name | name in NameSet(reducerMap) ensures name in {first.name} + NameSet(rest) {
          var i :| 0 <= i < |reducerMap| && reducerMap[i].name == name;
          if i > 0 { assert rest[i - 1].name == name; }
        }
      }
      forall i | 0 <= i < |rest| ensures rest[i].name != first.name {
        assert rest[i] == reducerMap[i + 1];
      }
      assert first.name !in NameSet(rest);
      forall i | 0 <= i < |reducerMap|
        ensures Get(next, reducerMap[i].name) == reducerMap[i].reducer(Get(state, reducerMap[i].name), action)
      {
        if i > 0 {
          assert rest[i - 1] == reducerMap[i];
          assert reducerMap[i].name != first.name;
        }
      }
    }
  }

  /** The closure itself: the same description, with `undefined` read as `{}`. */
  lemma ParallelSlicesAt<V, P>(reducerMap: ReducerMap<V, P>, state: Option<Slices<V>>, action: Action<P>)
    ensures var before := if state.None? then map[] else state.value;
            var next := CombineInParallel(reducerMap)(state, action);
      && next.Some?
      && before.Keys <= next.value.Keys <= before.Keys + NameSet(reducerMap)
      && (forall i | 0 <= i < |reducerMap| ::
            Get(next.value, reducerMap[i].name) == reducerMap[i].reducer(Get(before, reducerMap[i].name), action))
      && (forall name | name !in NameSet(reducerMap) :: Get(next.value, name) == Get(before, name))
  {
    FoldSlicesAt(reducerMap, if state.None? then map[] else state.value, action);
  }

  /** When no step changes its slice, the fold hands back its starting state. */
  lemma {:induction false} FoldSlicesKeepsState<V, P>(slices: seq<Slice<V, P>>, state: Slices<V>, action: Action<P>)
    requires forall i | 0 <= i < |slices| ::
               slices[i].reducer(Get(state, slices[i].name), action) == Get(state, slices[i].name)
    ensures FoldSlices(slices, state, action) == state
  {
    if slices != [] {
      assert forall i | 0 <= i < |slices[1..]| :: slices[1..][i] == slices[i + 1];
      FoldSlicesKeepsState(slices[1..], state, action);
    }
  }

  /** The identity law: the combined reducer returns its input state exactly when every slice
      reducer returns its own slice unchanged. */
  lemma ParallelUnchanged<V, P>(reducerMap: ReducerMap<V, P>, state: Slices<V>, action: Action<P>)
    ensures CombineInParallel(reducerMap)(Some(state), action) == Some(state)
        <==> forall i | 0 <= i < |reducerMap| ::
               reducerMap[i].reducer(Get(state, reducerMap[i].name), action) == Get(state, reducerMap[i].name)
  {
    FoldSlicesAt(reducerMap, state, action);
    if forall i | 0 <= i < |reducerMap| ::
         reducerMap[i].reducer(Get(state, reducerMap[i].name), action) == Get(state, reducerMap[i].name) {
      FoldSlicesKeepsState(reducerMap, state, action);
    }
  }
}
