/** Actions: the event records that drive every reducer, and the factory that stamps a type
    onto a payload (src/libs/store.ts, lines 1-4 and 35-48). */
module Actions {
  import opened Optional

  /** `{ type, payload? }`. The `type` field is called `kind` here, `type` being a Dafny
      keyword; an absent payload is `None`. */
  datatype Action<P> = Action(kind: string, payload: Option<P>)

  /** The type every store dispatches once while it is being built. */
  const InitialiseType: string := "STORE/INITIALISE"

  /** `{ type: 'STORE/INITIALISE' }`, with no payload. */
  function InitAction<P>(): (init: Action<P>)
    ensures init.kind == InitialiseType && init.payload.None?
  {
    Action(InitialiseType, None)
  }

  /** A factory called with an optional payload. */
  type ActionCreator<!P> = Option<P> -> Action<P>

  /** `createActionCreator(type)`: every action the factory makes carries `kind` and exactly
      the payload it was given, absent or not. */
  function CreateActionCreator<P(!new)>(kind: string): (create: ActionCreator<P>)
    ensures forall payload :: create(payload).kind == kind
    ensures forall payload :: create(payload).payload == payload
  {
    payload => Action(kind, payload)
  }

  /** What `handleAction` accepts as its target: a type name or a factory. */
  datatype ActionKey<!P> = TypeName(name: string) | Creator(create: ActionCreator<P>)

  /** The type a key stands for: the name itself, or the type of the action the factory
      makes when called with no payload. */
  function TypeMatch<P>(key: ActionKey<P>): string
  {
    match key
    case TypeName(name) => name
    case Creator(create) => create(None).kind
  }

  /** A factory made by `CreateActionCreator(kind)` stands for `kind` as a key. */
  lemma CreatorKeyResolves<P(!new)>(kind: string)
    ensures TypeMatch(Creator(CreateActionCreator<P>(kind))) == kind
    ensures TypeMatch(Creator(CreateActionCreator<P>(kind))) == TypeMatch<P>(TypeName(kind))
  {
  }
}
