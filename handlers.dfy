/** Conditional reducers (src/libs/store.ts, lines 48-78): `handleAction` runs a reducer only
    for actions of one type, `handleActions` chains one such handler per `(key, reducer)` pair
    with `combineInSeries`. */
module Handlers {
  import opened Optional
  import opened Actions
  import opened Combinators

  /** `state = defaultValue`: the default replaces the state only when it is undefined. */
  function Defaulted<S>(state: Option<S>, defaultValue: Option<S>): (defaulted: Option<S>)
    ensures state.Some? ==> defaulted == state
    ensures state.None? ==> defaulted == defaultValue
    ensures defaulted.Some? <==> state.Some? || defaultValue.Some?
  {
    if state.None? then defaultValue else state
  }

  /** `handleAction(actionKey, reducer, defaultValue)`. The target type is resolved once, when
      the handler is built. A matching action runs `reducer` on the defaulted state; any other
      action returns the defaulted state itself. */
  function HandleAction<S(!new), P(!new)>(key: ActionKey<P>, reducer: Reducer<S, P>, defaultValue: Option<S>)
    : (handler: Reducer<S, P>)
    ensures forall state: Option<S>, action: Action<P> | action.kind == TypeMatch(key) ::
              handler(state, action) == reducer(Defaulted(state, defaultValue), action)
    ensures forall state: Option<S>, action: Action<P> | action.kind != TypeMatch(key) ::
              handler(state, action) == Defaulted(state, defaultValue)
  {
    var typeMatch := TypeMatch(key);
    (state: Option<S>, action: Action<P>) =>
      var state := Defaulted(state, defaultValue);
      if action.kind == typeMatch then reducer(state, action) else state
  }

  /** A handler is identity-stable: on a defined state, an action of another type gets that
      very state back, whatever the default. */
  lemma HandleActionPassThrough<S(!new), P(!new)>(key: ActionKey<P>, reducer: Reducer<S, P>, defaultValue: Option<S>,
                                                  value: S, action: Action<P>)
    requires action.kind != TypeMatch(key)
    ensures HandleAction(key, reducer, defaultValue)(Some(value), action) == Some(value)
  {
  }

  /** Keying a handler by a factory made with `createActionCreator(kind)` is the same as keying
      it by `kind`. */
  lemma HandleActionByCreator<S(!new), P(!new)>(kind: string, reducer: Reducer<S, P>, defaultValue: Option<S>,
                                                state: Option<S>, action: Action<P>)
    ensures HandleAction(Creator(CreateActionCreator(kind)), reducer, defaultValue)(state, action)
         == HandleAction(TypeName(kind), reducer, defaultValue)(state, action)
  {
  }

  /** `[actionKey, reducer]`. */
  datatype HandlerSpec<!S, !P> = HandlerSpec(key: ActionKey<P>, reducer: Reducer<S, P>)

  /** `specs.map(([action, reducer]) => handleAction(action, reducer, defaultValue))`. */
  function MapHandlers<S(!new), P(!new)>(specs: seq<HandlerSpec<S, P>>, defaultValue: Option<S>): (handlers: seq<Reducer<S, P>>)
    ensures |handlers| == |specs|
    ensures forall i | 0 <= i < |specs| ::
              handlers[i] == HandleAction(specs[i].key, specs[i].reducer, defaultValue)
    decreases |specs|
  {
    if specs == [] then []
    else [HandleAction(specs[0].key, specs[0].reducer, defaultValue)] + MapHandlers(specs[1..], defaultValue)
  }

  /** `handleActions(specs, defaultValue)`. */
  function HandleActions<S(!new), P(!new)>(specs: seq<HandlerSpec<S, P>>, defaultValue: Option<S>): Reducer<S, P>
  {
    CombineInSeries(MapHandlers(specs, defaultValue))
  }

  /** `handleActions` unfolded one pair: the first handler, then the rest on its output. */
  lemma HandleActionsStep<S(!new), P(!new)>(specs: seq<HandlerSpec<S, P>>, defaultValue: Option<S>,
                                            state: Option<S>, action: Action<P>)
    requires specs != []
    ensures HandleActions(specs, defaultValue)(state, action)
         == HandleActions(specs[1..], defaultValue)(
              HandleAction(specs[0].key, specs[0].reducer, defaultValue)(state, action), action)
  {
  }

  /** The reducers of the pairs whose key matches `kind`, in list order: none exactly when no
      pair matches, all of them exactly when every pair does. */
  function MatchingReducers<S, P>(specs: seq<HandlerSpec<S, P>>, kind: string): (matching: seq<Reducer<S, P>>)
    ensures |matching| <= |specs|
    ensures matching == [] <==> forall i | 0 <= i < |specs| :: TypeMatch(specs[i].key) != kind
    ensures |matching| == |specs| <==> forall i | 0 <= i < |specs| :: TypeMatch(specs[i].key) == kind
    decreases |specs|
  {
    if specs == [] then []
    else if TypeMatch(specs[0].key) == kind then [specs[0].reducer] + MatchingReducers(specs[1..], kind)
    else MatchingReducers(specs[1..], kind)
  }

  /** An action no pair matches leaves the state as it was, save that a non-empty list puts
      the default in place of an undefined state. */
  lemma {:induction false} HandleActionsNoMatch<S(!new), P(!new)>(specs: seq<HandlerSpec<S, P>>, defaultValue: Option<S>,
                                                                  state: Option<S>, action: Action<P>)
    requires forall i | 0 <= i < |specs| :: TypeMatch(specs[i].key) != action.kind
    ensures HandleActions(specs, defaultValue)(state, action)
         == if specs == [] then state else Defaulted(state, defaultValue)
  {
    if specs != [] {
      HandleActionsStep(specs, defaultValue, state, action);
      var next := HandleAction(specs[0].key, specs[0].reducer, defaultValue)(state, action);
      assert forall i | 0 <= i < |specs[1..]| :: specs[1..][i] == specs[i + 1];
      HandleActionsNoMatch(specs[1..], defaultValue, next, action);
    }
  }

  /** Every pair whose key matches runs, in list order, each on the previous one's output, with
      no short-circuit after the first match; the other pairs change nothing. This holds
      whenever the state the chain starts from (after the default) is defined and the matching
      reducers return defined states on defined ones: an undefined state half-way would be
      replaced by the default again at the next handler. */
  lemma {:induction false} HandleActionsRunsEveryMatch<S(!new), P(!new)>(specs: seq<HandlerSpec<S, P>>, defaultValue: Option<S>,
                                                                         state: Option<S>, action: Action<P>)
    requires specs != []
    requires Defaulted(state, defaultValue).Some?
    requires forall i, value | 0 <= i < |specs| && TypeMatch(specs[i].key) == action.kind ::
               specs[i].reducer(Some(value), action).Some?
    ensures HandleActions(specs, defaultValue)(state, action)
         == CombineInSeries(MatchingReducers(specs, action.kind))(Defaulted(state, defaultValue), action)
  {
    var start := Defaulted(state, defaultValue);
    var first := specs[0];
    var rest := specs[1..];
    HandleActionsStep(specs, defaultValue, state, action);
    var next := HandleAction(first.key, first.reducer, defaultValue)(state, action);
    assert next.Some?;
    assert Defaulted(next, defaultValue) == next;
    assert forall i | 0 <= i < |rest| :: rest[i] == specs[i + 1];
    if rest == [] {
      if TypeMatch(first.key) == action.kind {
        assert MatchingReducers(specs, action.kind) == [first.reducer];
        assert FoldSeries([first.reducer], start, action) == FoldSeries([], first.reducer(start, action), action);
      } else {
        assert MatchingReducers(specs, action.kind) == [];
      }
    } else {
      HandleActionsRunsEveryMatch(rest, defaultValue, next, action);
      if TypeMatch(first.key) == action.kind {
        assert MatchingReducers(specs, action.kind) == [first.reducer] + MatchingReducers(rest, action.kind);
        assert ([first.reducer] + MatchingReducers(rest, action.kind))[1..] == MatchingReducers(rest, action.kind);
      } else {
        assert next == start;
      }
    }
  }

  /** Two pairs with the same type both run, in order:
      `handleActions([[T, r1], [T, r2]], d)` on an action of type T is `r2` after `r1`. */
  lemma BothMatchingPairsRun<S(!new), P(!new)>(key1: ActionKey<P>, reducer1: Reducer<S, P>,
                                               key2: ActionKey<P>, reducer2: Reducer<S, P>,
                                               defaultValue: Option<S>, state: Option<S>, action: Action<P>)
    requires TypeMatch(key1) == action.kind && TypeMatch(key2) == action.kind
    ensures HandleActions([HandlerSpec(key1, reducer1), HandlerSpec(key2, reducer2)], defaultValue)(state, action)
         == reducer2(Defaulted(reducer1(Defaulted(state, defaultValue), action), defaultValue), action)
  {
    var specs := [HandlerSpec(key1, reducer1), HandlerSpec(key2, reducer2)];
    var h1 := HandleAction(key1, reducer1, defaultValue);
    var h2 := HandleAction(key2, reducer2, defaultValue);
    assert MapHandlers(specs, defaultValue) == [h1, h2];
    SeriesOfTwo(h1, h2, state, action);
  }
}
