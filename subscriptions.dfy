/** The subscriber list both stores keep (src/libs/store.ts, lines 145-167 and 200-216):
    listeners are appended, told about the state in list order, and removed by position. */
module Subscriptions {

  /** Listeners are callbacks the store knows nothing about; the model names them by id and
      records each call in a log instead of running it. */
  type Listener = nat

  /** What `subscriptions.push(listener)` returns, and so what the unsubscribe closure
      captures: the length of the list right after the push, never less than 1. */
  type Position = n: nat | 1 <= n witness 1

  function Min(a: nat, b: nat): nat
  {
    if a <= b then a else b
  }

  /** The unsubscribe closure: `[...subs.slice(0, length - 1), ...subs.slice(length)]`.
      `slice` clamps its bounds to the list, so a position past the end removes nothing;
      otherwise the entry at index `length - 1` goes, whoever is there now, and the order of
      the rest is kept. */
  function Unsubscribed(subs: seq<Listener>, length: Position): (rest: seq<Listener>)
    ensures length <= |subs| ==> |rest| == |subs| - 1
    ensures length <= |subs| ==> forall i | 0 <= i < length - 1 :: rest[i] == subs[i]
    ensures length <= |subs| ==> forall i | length - 1 <= i < |rest| :: rest[i] == subs[i + 1]
    ensures |subs| < length ==> rest == subs
  {
    var front := subs[..Min(length - 1, |subs|)];
    var back := subs[Min(length, |subs|)..];
    if length <= |subs| then
      assert subs == front + [subs[length - 1]] + back;
      front + back
    else
      assert front == subs && back == [];
      front + back
  }

  /** Unsubscribing within the list removes one entry, the one at index `length - 1`, and
      nothing else. */
  lemma UnsubscribeRemovesOne(subs: seq<Listener>, length: Position)
    requires length <= |subs|
    ensures multiset(Unsubscribed(subs, length)) == multiset(subs) - multiset{subs[length - 1]}
  {
    assert subs == subs[..length - 1] + [subs[length - 1]] + subs[length..];
  }

  /** Called right after its own subscription, with nothing pushed or removed in between,
      unsubscribing removes exactly that listener. */
  lemma UnsubscribeRightAway(subs: seq<Listener>, listener: Listener)
    ensures Unsubscribed(subs + [listener], |subs| + 1) == subs
  {
  }

  /** More generally it removes its own listener as long as only pushes happened since, however
      many: the entries before it and after it stay, in order. */
  lemma UnsubscribeAfterPushes(before: seq<Listener>, listener: Listener, after: seq<Listener>)
    ensures Unsubscribed(before + [listener] + after, |before| + 1) == before + after
  {
  }

  /** The positional hazard: subscribe A, subscribe B, unsubscribe A, then unsubscribe B.
      B's closure captured position 2, which is past the end of `[B]`, so B stays subscribed. */
  lemma UnsubscribeOutOfOrderKeepsListener(a: Listener, b: Listener)
    ensures var afterA := Unsubscribed([a, b], 1);
            afterA == [b] && Unsubscribed(afterA, 2) == [b]
  {
  }

  /** The calls one notification pass makes: every listener of the list, once each, in list
      order, all given the same state. */
  function Broadcast<X>(subs: seq<Listener>, state: X): (calls: seq<(Listener, X)>)
    ensures |calls| == |subs|
    ensures forall i | 0 <= i < |subs| :: calls[i] == (subs[i], state)
    decreases |subs|
  {
    if subs == [] then [] else [(subs[0], state)] + Broadcast(subs[1..], state)
  }

  /** A pass over a list one listener longer makes one more call, at the end. */
  lemma BroadcastPush<X>(subs: seq<Listener>, listener: Listener, state: X)
    ensures Broadcast(subs + [listener], state) == Broadcast(subs, state) + [(listener, state)]
  {
  }
}
