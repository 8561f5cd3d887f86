# A verified model of a minimal Redux-style store

This project models `src/libs/store.ts`, a small state container written in TypeScript. It
models the file's three layers and proves what each layer promises:

- **Actions** (`actions.dfy`): the `{ type, payload? }` record, `createActionCreator`, and the
  target key of a conditional reducer. The key is a type name or a factory.
- **Reducer combinators** (`combinators.dfy`, `handlers.dfy`): `combineInSeries` is a left fold
  of reducers over one state. `combineInParallel` is a fold over slice names that copies the
  object only when a slice's value changes. `handleAction` runs a reducer only for one action
  type. `handleActions` chains one such handler per pair.
- **Stores** (`composed_store.dfy`, `slice_store.dfy`, `subscriptions.dfy`): `createStore2`
  replaces its whole state on every dispatch. `createStore` overwrites the fields of one
  object in place. Both keep a subscriber list with positional unsubscribe.

Modelling choices:

- JavaScript's `undefined` is `Option.None`. A reducer is a total function
  `(Option<S>, Action<P>) -> Option<S>`, so it may also return `undefined`. With this typing,
  the results of `combineInSeries` and `handleActions` are reducers themselves, and they can
  serve as slice reducers, as they do in JavaScript.
- An object state is a `map<string, Option<V>>`. A key can be present and hold `undefined`:
  `createStore` writes every slice, even an undefined one.
- A reducer map is a sequence of `(name, reducer)` slices with distinct names. The sequence
  order stands for the `Object.keys` order.
- The `==` test at line 91 becomes value equality. Reference identity ("the same object comes
  back") is approximated by equality of values.
- Listeners are opaque ids. The model does not run a listener. It appends the call, and the
  argument the listener was given, to a `log` field.
- Each store is a class. In `createStore2` the closure-held `state` and `subscriptions` become
  fields, and `getState`, `dispatch` and `notify` become methods. `createStore` has no state cell
  and no `getState`: the object it hands out becomes the constant field `store`, a `StoreObject`
  whose `fields` `dispatch` overwrites, and `subscriptions` becomes a field beside it.
- In both stores the unsubscribe closure becomes the method `Unsubscribe`. It takes the position
  that `notify` returned, which is the value the closure captured.
- `createStore2` keeps a ghost `history` of dispatched actions. The class invariant states that
  `state` is the root reducer folded over that history from `undefined`, and that the history
  starts with `STORE/INITIALISE`.
- `createStore` hands out one `StoreObject`. Its `log` records the object reference itself, so
  every call is handed the same object, as in the source.
- The positional unsubscribe is modelled exactly as written, hazard included:
  `Subscriptions.UnsubscribeOutOfOrderKeepsListener` proves that subscribing A, subscribing B,
  unsubscribing A and then unsubscribing B leaves `[B]`.

`scenarios.dfy` holds client methods whose assertions follow from the contracts alone: the
counter scenarios for both stores, and the unsubscribe, out-of-order unsubscribe and no-op
scenarios for the immutable-replace store.

Two behaviours of the code worth stating, since the model follows them:

- `combineInParallel` compares each slice with loose `==`, not by identity.
- An unsubscribe during a notification pass does not affect the running `forEach`, which walks
  the old array. The model does not cover this case (see below).

## Model

| member | source | states |
|---|---|---|
| Actions.InitAction | src/libs/store.ts:169 | the initialising action has type `STORE/INITIALISE` and no payload |
| Actions.CreateActionCreator | src/libs/store.ts:39-46 | every action the factory makes carries the given type and exactly the payload it was called with |
| Actions.TypeMatch | src/libs/store.ts:55-57 | no contract of its own: `CreatorKeyResolves` and `HandleActionByCreator` state that a factory key resolves to its type, like the type name itself |
| Actions.CreatorKeyResolves | src/libs/store.ts:55-57 | a factory key made by `createActionCreator(t)` resolves to the target type `t`, the same as the key `t` itself |
| Combinators.FoldSeries | src/libs/store.ts:105-109 | no contract of its own: `FoldSeriesAppend` states that the fold splits over concatenation |
| Combinators.CombineInSeries | src/libs/store.ts:103-110 | no contract of its own: `SeriesThreadsLeftToRight`, `SeriesOfTwo` and `SeriesOfNoOps` state its order and identity laws |
| Combinators.FoldSeriesAppend | src/libs/store.ts:103-110 | the series fold over `xs ++ ys` is the fold over `ys` applied to the fold over `xs` |
| Combinators.SeriesThreadsLeftToRight | src/libs/store.ts:103-110 | zero reducers return the state unchanged; the last reducer of a series receives what the series before it produced, with the same action |
| Combinators.SeriesOfTwo | src/libs/store.ts:103-110 | `combineInSeries(f, g)(s, a) == g(f(s, a), a)` |
| Combinators.SeriesOfNoOps | src/libs/store.ts:103-110 | reducers that each return the state unchanged for an action compose to a series that returns it unchanged |
| Combinators.Get | src/libs/store.ts:87 | no contract of its own: `state[sliceName]`, undefined for a missing key; `CreateSlices` and `FoldSlicesAt` state the slices through it |
| Combinators.CreateSlices | src/libs/store.ts:86-97 | one step sets the named slice to its reducer's result and keeps every other slice; it returns the very same state exactly when the result equals the old slice |
| Combinators.FoldSlices | src/libs/store.ts:99 | no contract of its own: `FoldSlicesAt` states what it computes slice by slice, `FoldSlicesKeepsState` when it returns its start state |
| Combinators.CombineInParallel | src/libs/store.ts:82-101 | no contract of its own: `ParallelSlicesAt` and `ParallelUnchanged` state what the combined reducer computes and when it returns its input |
| Combinators.FoldSlicesAt | src/libs/store.ts:84-99 | after the fold, every named slice holds its reducer's result on the original slice value (names are distinct); other keys keep their values; no key is dropped; only named keys are added |
| Combinators.ParallelSlicesAt | src/libs/store.ts:82-100 | the combined reducer reads an undefined state as `{}` and always returns a defined object, sliced as in FoldSlicesAt |
| Combinators.FoldSlicesKeepsState | src/libs/store.ts:91-99 | when no slice reducer changes its slice, the fold returns its starting state |
| Combinators.ParallelUnchanged | src/libs/store.ts:83-99 | the combined reducer returns its input state if and only if every slice reducer returns its own slice unchanged |
| Handlers.Defaulted | src/libs/store.ts:59 | an undefined state becomes exactly the default; a defined state is kept as it is; the result is defined exactly when the state or the default is |
| Handlers.HandleAction | src/libs/store.ts:50-66 | for an action of the resolved type the handler is the reducer on the defaulted state; for any other type it returns the defaulted state; the default replaces only an undefined state |
| Handlers.HandleActionPassThrough | src/libs/store.ts:59-65 | on a defined state, a non-matching action gets that same state back, whatever the default |
| Handlers.HandleActionByCreator | src/libs/store.ts:55-57 | keying a handler by `createActionCreator(t)` behaves exactly like keying it by `t` |
| Handlers.MapHandlers | src/libs/store.ts:74-76 | one handler per pair, in order: the i-th is `handleAction` of the i-th pair's key and reducer with the shared default |
| Handlers.HandleActions | src/libs/store.ts:70-78 | no contract of its own: `HandleActionsStep`, `HandleActionsNoMatch`, `HandleActionsRunsEveryMatch` and `BothMatchingPairsRun` state what the chain computes |
| Handlers.HandleActionsStep | src/libs/store.ts:70-78 | `handleActions` runs the first pair's handler, then the rest of the list on its output |
| Handlers.HandleActionsNoMatch | src/libs/store.ts:70-78 | an action no pair matches leaves the state unchanged, except that a non-empty list replaces an undefined state by the default |
| Handlers.MatchingReducers | src/libs/store.ts:70-78 | the reference chain for `handleActions`: the matching pairs' reducers in list order, empty exactly when no pair matches, all of them exactly when every pair matches |
| Handlers.HandleActionsRunsEveryMatch | src/libs/store.ts:70-78 | every matching pair runs, in list order, on the previous one's output, with no short-circuit; non-matching pairs are identities |
| Handlers.BothMatchingPairsRun | src/libs/store.ts:70-78 | two pairs with the same type both run, the second on the first's output |
| Subscriptions.Unsubscribed | src/libs/store.ts:161-166 | when the captured length `L` is at most the list length, exactly the entry at index `L-1` is removed and the others keep their order; when `L` is past the end, the list is unchanged |
| Subscriptions.UnsubscribeRemovesOne | src/libs/store.ts:161-166 | within the list, unsubscribing removes one occurrence of the entry at index `L-1` from the multiset of listeners and nothing else |
| Subscriptions.UnsubscribeRightAway | src/libs/store.ts:154-166 | unsubscribing right after one's own subscribe removes exactly that listener |
| Subscriptions.UnsubscribeAfterPushes | src/libs/store.ts:154-166 | if only pushes happened since the subscribe, unsubscribing removes exactly that listener and keeps everyone else in order |
| Subscriptions.UnsubscribeOutOfOrderKeepsListener | src/libs/store.ts:154-166 | subscribe A, subscribe B, unsubscribe A, unsubscribe B leaves B subscribed |
| Subscriptions.Broadcast | src/libs/store.ts:147 | one notification pass calls every listener of the list exactly once, in list order, with the same state |
| ComposedStore.Replay | src/libs/store.ts:145-148 | no contract of its own (a ghost specification function): `Store.Valid` and `Store.Dispatch` state that the state is the root reducer folded over the dispatched actions |
| ComposedStore.Store.constructor | src/libs/store.ts:134-171 | construction dispatches `STORE/INITIALISE` exactly once from an undefined state, with no subscribers and no calls |
| ComposedStore.Store.GetState | src/libs/store.ts:150-152 | returns the state cell unchanged, which on a valid store is the root reducer folded over every action dispatched so far |
| ComposedStore.Store.Dispatch | src/libs/store.ts:145-148 | the state becomes `rootReducer(old state, action)`, the history grows by the action, and each current subscriber is called once, in order, with the new state |
| ComposedStore.Store.Notify | src/libs/store.ts:154-160 | the store stays valid; the listener is appended; it is called with the current state if and only if the flag is set (default true); the returned position is the new length |
| ComposedStore.Store.Unsubscribe | src/libs/store.ts:161-166 | the store stays valid; the list becomes `Unsubscribed(old list, captured length)` |
| SliceStore.DefaultSlices | src/libs/store.ts:182-190 | no contract of its own: `DefaultSlicesAt` states the initial object it builds |
| SliceStore.DefaultSlicesAt | src/libs/store.ts:180-190 | the initial object has exactly the slice names as keys, each holding `reducer(undefined, STORE/INITIALISE)` |
| SliceStore.DefaultSlicesAgreeWithParallel | src/libs/store.ts:180-190 | the in-place store's initial object agrees slice by slice with `combineInParallel(map)(undefined, STORE/INITIALISE)` |
| SliceStore.InPlaceMatchesParallel | src/libs/store.ts:192-197 | overwriting every slice with its reducer's result gives the same object value as `combineInParallel` |
| SliceStore.StoreObject.constructor | src/libs/store.ts:182 | the one `Mapable` object the store creates holds exactly the fields it is built with |
| SliceStore.Store.constructor | src/libs/store.ts:176-190 | every slice starts at its reducer's answer to `STORE/INITIALISE` on `undefined`; the key set is the slice names; nobody is notified |
| SliceStore.Store.Dispatch | src/libs/store.ts:192-201 | every slice is overwritten with its reducer's result on its old value (undefined for a key a caller deleted, which is written back), with no identity skip; other keys keep their values; the same object is kept; on a valid store the result equals `combineInParallel`; each subscriber is called once, in order, with that same object |
| SliceStore.Store.OverwriteSlices | src/libs/store.ts:193-197 | the in-place loop: each slice, in key order, becomes its reducer's result on its old value, a missing slice key being read as undefined and written back; other keys keep their values; on a valid store the keys stay the slice names and the result equals `combineInParallel` on the old object |
| SliceStore.Store.Notify | src/libs/store.ts:203-209 | the store stays valid; the listener is appended; it is called with the store object if and only if the flag is set; the returned position is the new length |
| SliceStore.Store.Unsubscribe | src/libs/store.ts:210-215 | the store stays valid; the list becomes `Unsubscribed(old list, captured length)` |

## Left out

- Listener bodies are not modelled. A listener is an id, and each call is recorded in the log.
- Reentrant dispatch from inside a listener is not modelled. The source does not promise any
  order for it.
- Unsubscribe during a notification pass is not modelled. Each dispatch method copies the list
  before its pass, as `forEach` does, but no listener can act in the middle of a pass.
- Exceptions thrown by reducers, and the partial state they leave, are not modelled. Dafny
  reducers are total.
- The loose `==` at line 91 is modelled as value equality. Coercions such as
  `null == undefined` are not modelled, and object identity is approximated by value equality.
- JavaScript's dynamic typing is not modelled. A payload has one type `P`, and the slices of one
  reducer map share one value type `V`.
- An action without a `type` field is not modelled. Every `Action` has a `kind`.
- `Object.keys` order is the order of the reducer-map sequence. JavaScript's rule of listing
  integer-like keys first is not modelled.
- The unsubscribe closure is modelled as a store method that takes the captured position. The
  closure's tie to its own store is not modelled.
- Handlers.HandleActionsRunsEveryMatch: assumes that the chain starts from a defined state (after
  the default) and that the matching reducers return defined states on defined ones. Without
  this, the next handler replaces an undefined intermediate state by the default.
- Combinators.CombineInParallel: the reducer map is a value fixed when the reducer is built. In
  the code the closure keeps a reference to the map object and calls `Object.keys` and
  `reducerMap[sliceName]` on every call, so keys added, removed or replaced by a caller after
  composition change later results. The model takes the map as never mutated by callers.
- SliceStore.Store.Dispatch: the reducer map is taken as never mutated by callers. In the code
  `reducerMap[sliceName]` is read on every dispatch, so a replaced reducer is picked up and a
  deleted key makes the call throw. A slice key a caller deletes from the handed-out object is
  modelled: it is read as undefined and written back. Other mutations by callers between
  dispatches are modelled only as far as `fields` is a public field they may assign.
- The commented-out code and the `console.log` at line 199 are not modelled.
