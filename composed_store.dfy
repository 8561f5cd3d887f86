/** `createStore2(rootReducer)` (src/libs/store.ts, lines 134-172): a store that replaces its
    whole state on every dispatch. The closure-held `state` and `subscriptions` become fields
    of one object, and the three returned functions become its methods. */
module ComposedStore {
  import opened Optional
  import opened Actions
  import opened Combinators
  import opened Subscriptions

  /** The state a store reaches from `undefined` by dispatching `history` in order. */
  function Replay<S, P>(rootReducer: Reducer<S, P>, history: seq<Action<P>>): Option<S>
    decreases |history|
  {
    if history == [] then None
    else rootReducer(Replay(rootReducer, history[..|history| - 1]), history[|history| - 1])
  }

  class Store<S, P> {
    const rootReducer: Reducer<S, P>
    /** `let state`: undefined until the initialising dispatch. */
    var state: Option<S>
    /** `let subscriptions`. */
    var subscriptions: seq<Listener>
    /** Every call made to a listener so far, with the state it was given. */
    var log: seq<(Listener, Option<S>)>
    /** Every action dispatched so far. */
    ghost var history: seq<Action<P>>

    /** The state is what the root reducer makes of the actions dispatched so far. */
    ghost predicate Consistent()
      reads this
    {
      state == Replay(rootReducer, history)
    }

    /** A store as its callers see it: consistent, and initialised by the first dispatch. The
        constructor establishes it and every method keeps it; `Dispatch` needs only the
        consistent half. */
    ghost predicate Valid()
      reads this
    {
      Consistent() && history != [] && history[0] == InitAction()
    }

    /** Construction dispatches `STORE/INITIALISE` exactly once, from an undefined state, before
        the store is handed out; nobody is subscribed yet, so nobody is told. */
    constructor (rootReducer: Reducer<S, P>)
      ensures Valid()
      ensures this.rootReducer == rootReducer
      ensures history == [InitAction()]
      ensures state == rootReducer(None, InitAction())
      ensures subscriptions == [] && log == []
    {
      this.rootReducer := rootReducer;
      state := None;
      subscriptions := [];
      log := [];
      history := [];
      new;
      Dispatch(InitAction());
    }

    /** `getState()`: the state cell as it is, which on a valid store is what the root reducer
        made of every action dispatched so far. */
    method GetState() returns (current: Option<S>)
      ensures current == state
      ensures Valid() ==> current == Replay(rootReducer, history)
    {
      current := state;
    }

    /** `dispatch(action)`: replace the state with the root reducer's result, then call every
        subscriber once, in list order, with the new state. */
    method Dispatch(action: Action<P>)
      requires Consistent()
      modifies this
      ensures Consistent() && history == old(history) + [action]
      ensures old(Valid()) ==> Valid()
      ensures state == rootReducer(old(state), action)
      ensures subscriptions == old(subscriptions)
      ensures log == old(log) + Broadcast(subscriptions, state)
    {
      state := rootReducer(state, action);
      history := history + [action];
      assert history[..|history| - 1] == old(history);
      // `forEach` walks the list as it was when the pass began.
      var subs := subscriptions;
      var i := 0;
      while i < |subs|
        modifies this`log
        invariant 0 <= i <= |subs|
        invariant log == old(log) + Broadcast(subs[..i], state)
      {
        assert subs[..i + 1] == subs[..i] + [subs[i]];
        BroadcastPush(subs[..i], subs[i], state);
        log := log + [(subs[i], state)];
        i := i + 1;
      }
      assert subs[..i] == subs;
    }

    /** `notify(listener, shouldInvokeImmediate = true)`: append the listener, call it with
        the current state if asked to, and hand back the position its unsubscribe closure
        captures (the list's length right after the push). */
    method Notify(listener: Listener, shouldInvokeImmediate: bool := true) returns (length: Position)
      modifies this`subscriptions, this`log
      ensures old(Valid()) ==> Valid()
      ensures subscriptions == old(subscriptions) + [listener]
      ensures length == |subscriptions|
      ensures log == old(log) + if shouldInvokeImmediate then [(listener, state)] else []
    {
      subscriptions := subscriptions + [listener];
      length := |subscriptions|;
      if shouldInvokeImmediate {
        log := log + [(listener, state)];
      }
    }

    /** The closure `notify` returns, called: remove the entry at the captured position. */
    method Unsubscribe(length: Position)
      modifies this`subscriptions
      ensures old(Valid()) ==> Valid()
      ensures subscriptions == Unsubscribed(old(subscriptions), length)
    {
      subscriptions := subscriptions[..Min(length - 1, |subscriptions|)] + subscriptions[Min(length, |subscriptions|)..];
    }
  }
}
