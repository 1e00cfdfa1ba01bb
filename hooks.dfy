/**
 * `initHooks`: an ordered list of subscriber callbacks with `hook`, the
 * unsubscribe closure `hook` returns, and `fire`.
 */
module Hooks {

  /** The identity of a callback reference; two subscriptions of one function share it. */
  type CallbackId = nat

  /** The closure returned by `hook(callback)`; it only remembers the callback. */
  datatype Unsubscriber = Unsubscriber(callback: CallbackId)

  /** What a subscriber does to its own registry while it is being fired: hook a callback, or run the unsubscribe closure of one. */
  datatype HookAction = Subscribe(cb: CallbackId) | RunUnsubscriber(cb: CallbackId)

  /**
   * The effect of invoking one subscriber: the registry calls it makes, in order,
   * and whether it then throws (which ends the `forEach` of the fire).
   */
  datatype Reaction = Reaction(actions: seq<HookAction>, throws: bool)

  /** `hooks.indexOf(cb)`: the first position of `cb`, or -1 when it is absent. */
  function IndexOf(hooks: seq<CallbackId>, cb: CallbackId): (i: int)
    ensures -1 <= i < |hooks|
    ensures i == -1 <==> cb !in hooks
    ensures 0 <= i ==> hooks[i] == cb && cb !in hooks[..i]
    decreases |hooks|
  {
    if hooks == [] then -1
    else if hooks[0] == cb then 0
    else
      var j := IndexOf(hooks[1..], cb);
      if j == -1 then -1 else j + 1
  }

  /** The list after the unsubscribe closure of `cb` ran: `splice(indexOf(cb), 1)` when present. */
  function RemoveFirst(hooks: seq<CallbackId>, cb: CallbackId): seq<CallbackId>
  {
    var i := IndexOf(hooks, cb);
    if i >= 0 then hooks[..i] + hooks[i + 1..] else hooks
  }

  /** One registry call made from inside a subscriber. */
  function Apply(hooks: seq<CallbackId>, action: HookAction): seq<CallbackId>
  {
    match action
    case Subscribe(cb) => hooks + [cb]
    case RunUnsubscriber(cb) => RemoveFirst(hooks, cb)
  }

  /** A series of registry calls, in order. */
  function ApplyAll(hooks: seq<CallbackId>, actions: seq<HookAction>): seq<CallbackId>
    decreases |actions|
  {
    if actions == [] then hooks
    else Apply(ApplyAll(hooks, actions[..|actions| - 1]), actions[|actions| - 1])
  }

  /** All registry calls the subscribers in `delivered` make, one subscriber after the other. */
  function Effects<D>(delivered: seq<CallbackId>, data: D, react: (CallbackId, D) -> Reaction): seq<HookAction>
    decreases |delivered|
  {
    if delivered == [] then []
    else Effects(delivered[..|delivered| - 1], data, react) + react(delivered[|delivered| - 1], data).actions
  }

  /** Number of subscriptions of `cb`. */
  function Occurrences(hooks: seq<CallbackId>, cb: CallbackId): nat
    decreases |hooks|
  {
    if hooks == [] then 0 else (if hooks[0] == cb then 1 else 0) + Occurrences(hooks[1..], cb)
  }

  /** The list with every subscription of `cb` taken out: the others, in their order. */
  function Others(hooks: seq<CallbackId>, cb: CallbackId): seq<CallbackId>
    decreases |hooks|
  {
    if hooks == [] then [] else (if hooks[0] == cb then [] else [hooks[0]]) + Others(hooks[1..], cb)
  }

  lemma {:induction false} OccurrencesAppend(a: seq<CallbackId>, b: seq<CallbackId>, cb: CallbackId)
    ensures Occurrences(a + b, cb) == Occurrences(a, cb) + Occurrences(b, cb)
    decreases |a|
  {
    if a != [] {
      assert (a + b)[1..] == a[1..] + b;
      OccurrencesAppend(a[1..], b, cb);
    } else {
      assert a + b == b;
    }
  }

  lemma {:induction false} OthersAppend(a: seq<CallbackId>, b: seq<CallbackId>, cb: CallbackId)
    ensures Others(a + b, cb) == Others(a, cb) + Others(b, cb)
    decreases |a|
  {
    if a != [] {
      assert (a + b)[1..] == a[1..] + b;
      OthersAppend(a[1..], b, cb);
    } else {
      assert a + b == b;
    }
  }

  lemma {:induction false} OccurrencesAbsent(hooks: seq<CallbackId>, cb: CallbackId)
    ensures Occurrences(hooks, cb) == 0 <==> cb !in hooks
    decreases |hooks|
  {
    if hooks != [] {
      OccurrencesAbsent(hooks[1..], cb);
      assert hooks == [hooks[0]] + hooks[1..];
    }
  }

  /** Cutting one element out of a list: what it does to each count and to the other callbacks. */
  lemma Splice(a: seq<CallbackId>, x: CallbackId, b: seq<CallbackId>, cb: CallbackId)
    ensures Occurrences(a + [x] + b, cb) == Occurrences(a + b, cb) + (if x == cb then 1 else 0)
    ensures x == cb ==> Others(a + [x] + b, cb) == Others(a + b, cb)
  {
    OccurrencesAppend(a + [x], b, cb);
    OccurrencesAppend(a, [x], cb);
    OccurrencesAppend(a, b, cb);
    assert [x][1..] == [];
    OthersAppend(a + [x], b, cb);
    OthersAppend(a, [x], cb);
    OthersAppend(a, b, cb);
  }

  /**
   * Unsubscribing removes exactly one subscription of `cb`, its first, when there
   * is one, and otherwise leaves the list unchanged; either way the other
   * callbacks keep their relative order and their counts.
   */
  lemma RemoveFirstSpec(hooks: seq<CallbackId>, cb: CallbackId)
    ensures cb !in hooks ==> RemoveFirst(hooks, cb) == hooks
    ensures cb in hooks ==>
      var i := IndexOf(hooks, cb);
      && RemoveFirst(hooks, cb) == hooks[..i] + hooks[i + 1..]
      && cb !in hooks[..i]
      && |RemoveFirst(hooks, cb)| == |hooks| - 1
      && Occurrences(RemoveFirst(hooks, cb), cb) == Occurrences(hooks, cb) - 1
    ensures Others(RemoveFirst(hooks, cb), cb) == Others(hooks, cb)
    ensures forall other :: other != cb ==> Occurrences(RemoveFirst(hooks, cb), other) == Occurrences(hooks, other)
  {
    var i := IndexOf(hooks, cb);
    if i >= 0 {
      var a, b := hooks[..i], hooks[i + 1..];
      assert hooks == a + [cb] + b;
      Splice(a, cb, b, cb);
      forall other | other != cb
        ensures Occurrences(RemoveFirst(hooks, cb), other) == Occurrences(hooks, other)
      {
        Splice(a, cb, b, other);
      }
    }
  }

  /**
   * Hooking and then running the returned closure gives back the list when the
   * callback was not subscribed before; when it was, the closure removes the
   * earlier subscription and the new one stays at the end.
   */
  lemma {:induction false} HookThenUnsubscribe(hooks: seq<CallbackId>, cb: CallbackId)
    ensures cb !in hooks ==> RemoveFirst(hooks + [cb], cb) == hooks
    ensures cb in hooks ==> RemoveFirst(hooks + [cb], cb) == RemoveFirst(hooks, cb) + [cb]
  {
    var i := IndexOf(hooks, cb);
    var j := IndexOf(hooks + [cb], cb);
    if i == -1 {
      assert (hooks + [cb])[|hooks|] == cb;
      assert (hooks + [cb])[..|hooks|] == hooks;
      assert j == |hooks|;
    } else {
      assert (hooks + [cb])[..i] == hooks[..i];
      assert (hooks + [cb])[i] == cb;
      assert j == i;
      assert (hooks + [cb])[i + 1..] == hooks[i + 1..] + [cb];
    }
  }

  /** Running an unsubscribe closure again is harmless: with one subscription of `cb`, the second run changes nothing. */
  lemma UnsubscribeTwice(hooks: seq<CallbackId>, cb: CallbackId)
    requires Occurrences(hooks, cb) <= 1
    ensures RemoveFirst(RemoveFirst(hooks, cb), cb) == RemoveFirst(hooks, cb)
  {
    RemoveFirstSpec(hooks, cb);
    OccurrencesAbsent(hooks, cb);
    OccurrencesAbsent(RemoveFirst(hooks, cb), cb);
    RemoveFirstSpec(RemoveFirst(hooks, cb), cb);
  }

  /** Registry calls compose: applying two batches is applying their concatenation. */
  lemma {:induction false} ApplyAllAppend(hooks: seq<CallbackId>, a: seq<HookAction>, b: seq<HookAction>)
    ensures ApplyAll(hooks, a + b) == ApplyAll(ApplyAll(hooks, a), b)
    decreases |b|
  {
    if b == [] {
      assert a + b == a;
    } else {
      assert (a + b)[..|a + b| - 1] == a + b[..|b| - 1];
      ApplyAllAppend(hooks, a, b[..|b| - 1]);
    }
  }

  /** None of the callbacks in `cbs` throws when called with `data`. */
  ghost predicate NoneThrow<D>(cbs: seq<CallbackId>, data: D, react: (CallbackId, D) -> Reaction)
  {
    forall j :: 0 <= j < |cbs| ==> !react(cbs[j], data).throws
  }

  lemma EffectsSnoc<D>(delivered: seq<CallbackId>, cb: CallbackId, data: D, react: (CallbackId, D) -> Reaction)
    ensures Effects(delivered + [cb], data, react) == Effects(delivered, data, react) + react(cb, data).actions
  {
    assert (delivered + [cb])[..|delivered|] == delivered;
  }

  class Registry {
    /** The `hooks` array of one `initHooks()` call. */
    var hooks: seq<CallbackId>

    constructor ()
      ensures hooks == []
    {
      hooks := [];
    }

    /** `hook(callback)`: appends the callback and returns its unsubscribe closure. */
    method Hook(callback: CallbackId) returns (unsubscribe: Unsubscriber)
      modifies this
      ensures hooks == old(hooks) + [callback]
      ensures unsubscribe.callback == callback
    {
      hooks := hooks + [callback];
      unsubscribe := Unsubscriber(callback);
    }

    /** Invoking the closure returned by `hook`: removes the first subscription of its callback, if any. */
    method Unsubscribe(unsubscribe: Unsubscriber)
      modifies this
      ensures hooks == RemoveFirst(old(hooks), unsubscribe.callback)
    {
      var i := IndexOf(hooks, unsubscribe.callback);
      if i >= 0 {
        hooks := hooks[..i] + hooks[i + 1..];
      }
    }

    /**
     * `fire(data)`: calls the callbacks of a copy of the list taken when the fire
     * begins, in order. The registry calls each subscriber makes change the list
     * but not the copy; a subscriber that throws ends the fire. Returns the
     * callbacks called, in call order, and whether the fire ended by a throw.
     */
    method Fire<D>(data: D, react: (CallbackId, D) -> Reaction) returns (delivered: seq<CallbackId>, thrown: bool)
      modifies this
      ensures delivered <= old(hooks)
      ensures !thrown ==> delivered == old(hooks) && NoneThrow(delivered, data, react)
      ensures thrown ==> delivered != [] && react(delivered[|delivered| - 1], data).throws
      ensures thrown ==> NoneThrow(delivered[..|delivered| - 1], data, react)
      ensures hooks == ApplyAll(old(hooks), Effects(delivered, data, react))
    {
      var snapshot := hooks;
      delivered, thrown := [], false;
      while |delivered| < |snapshot| && !thrown
        invariant delivered <= snapshot
        invariant hooks == ApplyAll(snapshot, Effects(delivered, data, react))
        invariant !thrown ==> NoneThrow(delivered, data, react)
        invariant thrown ==> delivered != [] && react(delivered[|delivered| - 1], data).throws
        invariant thrown ==> NoneThrow(delivered[..|delivered| - 1], data, react)
        decreases |snapshot| - |delivered|
      {
        var cb := snapshot[|delivered|];
        var reaction := react(cb, data);
        ApplyAllAppend(snapshot, Effects(delivered, data, react), reaction.actions);
        EffectsSnoc(delivered, cb, data, react);
        hooks := ApplyAll(hooks, reaction.actions);
        assert (delivered + [cb])[..|delivered|] == delivered;
        assert snapshot[..|delivered| + 1] == delivered + [cb];
        delivered := delivered + [cb];
        thrown := reaction.throws;
      }
    }
  }

  /** The registry calls of the example below: callback 1 unsubscribes 2 and subscribes 3. */
  lemma SnapshotExampleEffects(react: (CallbackId, int) -> Reaction)
    requires react(1, 0) == Reaction([RunUnsubscriber(2), Subscribe(3)], false)
    requires react(2, 0) == Reaction([], false)
    ensures ApplyAll([1, 2], Effects([1, 2], 0, react)) == [1, 3]
  {
    assert [1, 2][..1] == [1];
    assert [1][..0] == [];
    assert Effects([1], 0, react) == [RunUnsubscriber(2), Subscribe(3)];
    assert Effects([1, 2], 0, react) == [RunUnsubscriber(2), Subscribe(3)];
    assert IndexOf([1, 2], 2) == 1;
    assert [RunUnsubscriber(2)][..0] == [];
    assert ApplyAll([1, 2], [RunUnsubscriber(2)]) == [1];
    ApplyAllAppend([1, 2], [RunUnsubscriber(2)], [Subscribe(3)]);
    assert [Subscribe(3)][..0] == [];
    assert [RunUnsubscriber(2)] + [Subscribe(3)] == [RunUnsubscriber(2), Subscribe(3)];
  }

  /**
   * A subscriber that unsubscribes a later callback during the fire does not stop
   * that callback from being called by this fire, but it is gone afterwards.
   */
  method FireSnapshotExample()
  {
    var registry := new Registry();
    var _ := registry.Hook(1);
    var _ := registry.Hook(2);
    var react := (cb: CallbackId, d: int) => if cb == 1 then Reaction([RunUnsubscriber(2), Subscribe(3)], false) else Reaction([], false);
    var delivered, thrown := registry.Fire(0, react);
    assert delivered == [1, 2];
    SnapshotExampleEffects(react);
    assert registry.hooks == [1, 3];
  }
}
