/** Client code for both stores: what a caller can conclude from the contracts alone, on a
    one-slice counter `{ counter: (s = 0, a) => a.type === 'INC' ? s + 1 : s }`. */
module Scenarios {
  import opened Optional
  import opened Actions
  import opened Combinators
  import opened Subscriptions
  import ComposedStore
  import SliceStore

  function Counter(): Reducer<int, ()>
  {
    (state: Option<int>, action: Action<()>) =>
      var count := if state.None? then 0 else state.value;
      Some(if action.kind == "INC" then count + 1 else count)
  }

  function CounterMap(): ReducerMap<int, ()>
  {
    [Slice("counter", Counter())]
  }

  function Inc(): Action<()>
  {
    Action("INC", None)
  }

  /** The immutable-replace store: the initial state, and a dispatch seen by a subscriber that
      was also called when it subscribed. */
  method ComposedCounter()
  {
    var store := new ComposedStore.Store(CombineInParallel(CounterMap()));
    ParallelSlicesAt(CounterMap(), None, InitAction());
    assert Get(store.state.value, "counter") == Some(0);

    var length := store.Notify(7);
    assert store.log == [(7, store.state)];

    var before := store.state;
    ParallelSlicesAt(CounterMap(), before, Inc());
    store.Dispatch(Inc());
    assert Get(store.state.value, "counter") == Some(1);
    assert store.log == [(7, before), (7, store.state)];
  }

  /** A dispatch no slice reducer reacts to leaves the state as it was. */
  method ComposedNoOp()
  {
    var store := new ComposedStore.Store(CombineInParallel(CounterMap()));
    var current := store.state.value;
    ParallelUnchanged(CounterMap(), current, Action("DEC", None));
    store.Dispatch(Action("DEC", None));
    assert store.state == Some(current);
  }

  /** Subscribing two listeners, unsubscribing the first, then dispatching tells only the
      second. */
  method ComposedUnsubscribe()
  {
    var store := new ComposedStore.Store(Counter());
    var first := store.Notify(1, false);
    var second := store.Notify(2, false);
    UnsubscribeAfterPushes([], 1, [2]);
    store.Unsubscribe(first);
    assert store.subscriptions == [2];
    store.Dispatch(Inc());
    assert store.log == [(2, store.state)];
  }

  /** Unsubscribing the first of two listeners and then the second leaves the second
      subscribed: its captured position is past the end of the shortened list. */
  method ComposedUnsubscribeOutOfOrder()
  {
    var store := new ComposedStore.Store(Counter());
    var first := store.Notify(1, false);
    var second := store.Notify(2, false);
    UnsubscribeOutOfOrderKeepsListener(1, 2);
    store.Unsubscribe(first);
    store.Unsubscribe(second);
    assert store.subscriptions == [2];
  }

  /** The in-place store: the same counter, one object throughout, every call handed it. */
  method SliceCounter()
  {
    var store := new SliceStore.Store(CounterMap());
    assert CounterMap()[0].name == "counter";
    assert store.store.fields["counter"] == Some(0);
    var shared := store.store;
    var length := store.Notify(7);
    store.Dispatch(Inc());
    assert store.store.fields["counter"] == Some(1);
    assert store.log == [(7, shared), (7, shared)];
  }
}
