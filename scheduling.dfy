/**
 * `debounce` and `throttle`: wrappers that hold at most one pending delivery of
 * the wrapped function. The timer is abstract: a `Called` event is an invocation
 * of the wrapper, an `Elapsed` event is the pending timer going off.
 */
module Scheduling {
  import opened Wrappers

  /** The receiver (`this`) and the arguments captured by one call of the wrapper. */
  datatype Invocation<R, A> = Invocation(receiver: R, args: A)

  datatype Mode = Debounce | Throttle

  datatype Event<R, A> = Called(inv: Invocation<R, A>) | Elapsed

  /**
   * One event on the pending slot: the new slot and the invocations delivered to
   * the wrapped function. `run` clears the slot before it calls the function.
   */
  function Step<R, A>(mode: Mode, slot: Option<Invocation<R, A>>, e: Event<R, A>): (Option<Invocation<R, A>>, seq<Invocation<R, A>>)
  {
    match e
    case Called(inv) =>
      if mode == Debounce || slot.None? then (Some(inv), []) else (slot, [])
    case Elapsed =>
      if slot.Some? then (None, [slot.value]) else (None, [])
  }

  /** A whole history of events from a given slot: the final slot and every delivery, in order. */
  function Run<R, A>(mode: Mode, slot: Option<Invocation<R, A>>, trace: seq<Event<R, A>>): (Option<Invocation<R, A>>, seq<Invocation<R, A>>)
    decreases |trace|
  {
    if trace == [] then (slot, [])
    else
      var (before, delivered) := Run(mode, slot, trace[..|trace| - 1]);
      var (after, now) := Step(mode, before, trace[|trace| - 1]);
      (after, delivered + now)
  }

  /** The calls made since the last time the timer went off (reference definition of "the current burst"). */
  function Burst<R, A>(trace: seq<Event<R, A>>): seq<Invocation<R, A>>
    decreases |trace|
  {
    if trace == [] then []
    else match trace[|trace| - 1]
      case Elapsed => []
      case Called(inv) => Burst(trace[..|trace| - 1]) + [inv]
  }

  function Calls<R, A>(invs: seq<Invocation<R, A>>): (trace: seq<Event<R, A>>)
    ensures |trace| == |invs|
    ensures forall i :: 0 <= i < |invs| ==> trace[i] == Called(invs[i])
  {
    seq(|invs|, i requires 0 <= i < |invs| => Called(invs[i]))
  }

  function Elapses<R, A>(trace: seq<Event<R, A>>): nat
    decreases |trace|
  {
    if trace == [] then 0
    else Elapses(trace[..|trace| - 1]) + (if trace[|trace| - 1].Elapsed? then 1 else 0)
  }

  /** Debounce: from an idle wrapper, what is pending is the LAST call of the current burst. */
  lemma {:induction false} DebouncePendingIsLast<R, A>(trace: seq<Event<R, A>>)
    ensures Run(Debounce, None, trace).0 == if Burst(trace) == [] then None else Some(Burst(trace)[|Burst(trace)| - 1])
    decreases |trace|
  {
    if trace != [] {
      DebouncePendingIsLast(trace[..|trace| - 1]);
    }
  }

  /** Throttle: from an idle wrapper, what is pending is the FIRST call of the current burst. */
  lemma {:induction false} ThrottlePendingIsFirst<R, A>(trace: seq<Event<R, A>>)
    ensures Run(Throttle, None, trace).0 == if Burst(trace) == [] then None else Some(Burst(trace)[0])
    decreases |trace|
  {
    if trace != [] {
      ThrottlePendingIsFirst(trace[..|trace| - 1]);
    }
  }

  /** Each time the timer goes off it delivers at most one invocation, so there are at most as many deliveries as elapses. */
  lemma {:induction false} AtMostOneDeliveryPerElapse<R, A>(mode: Mode, slot: Option<Invocation<R, A>>, trace: seq<Event<R, A>>)
    ensures |Run(mode, slot, trace).1| <= Elapses(trace)
    decreases |trace|
  {
    if trace != [] {
      AtMostOneDeliveryPerElapse(mode, slot, trace[..|trace| - 1]);
    }
  }

  /** Nothing is delivered that was not called: every delivery is the initial pending call or a call of the history. */
  lemma {:induction false} DeliveriesWereCalled<R, A>(mode: Mode, slot: Option<Invocation<R, A>>, trace: seq<Event<R, A>>)
    ensures forall inv :: inv in Run(mode, slot, trace).1 ==> slot == Some(inv) || Called(inv) in trace
    ensures Run(mode, slot, trace).0.Some? ==> slot == Run(mode, slot, trace).0 || Called(Run(mode, slot, trace).0.value) in trace
    decreases |trace|
  {
    if trace != [] {
      var prefix := trace[..|trace| - 1];
      DeliveriesWereCalled(mode, slot, prefix);
      forall inv | Called(inv) in prefix ensures Called(inv) in trace {
        assert trace == prefix + [trace[|trace| - 1]];
      }
    }
  }

  /** Running a history extended by one event is one more step. */
  lemma RunSnoc<R, A>(mode: Mode, slot: Option<Invocation<R, A>>, trace: seq<Event<R, A>>, e: Event<R, A>)
    ensures Run(mode, slot, trace + [e]).0 == Step(mode, Run(mode, slot, trace).0, e).0
    ensures Run(mode, slot, trace + [e]).1 == Run(mode, slot, trace).1 + Step(mode, Run(mode, slot, trace).0, e).1
  {
    assert (trace + [e])[..|trace|] == trace;
  }

  lemma CallsSnoc<R, A>(invs: seq<Invocation<R, A>>)
    requires invs != []
    ensures Calls(invs) == Calls(invs[..|invs| - 1]) + [Called(invs[|invs| - 1])]
  {
  }

  /** Debounce: every call of a burst replaces the pending one, whatever was pending before. */
  lemma {:induction false} DebounceBurst<R, A>(slot: Option<Invocation<R, A>>, invs: seq<Invocation<R, A>>)
    requires invs != []
    ensures Run(Debounce, slot, Calls(invs)).0 == Some(invs[|invs| - 1])
    ensures Run(Debounce, slot, Calls(invs)).1 == []
    decreases |invs|
  {
    var init := invs[..|invs| - 1];
    CallsSnoc(invs);
    RunSnoc(Debounce, slot, Calls(init), Called(invs[|invs| - 1]));
    if init != [] {
      DebounceBurst(slot, init);
    } else {
      assert Calls(init) == [];
    }
  }

  /** Throttle: calls made while a delivery is pending are dropped. */
  lemma {:induction false} ThrottleDropsWhilePending<R, A>(pending: Invocation<R, A>, invs: seq<Invocation<R, A>>)
    ensures Run(Throttle, Some(pending), Calls(invs)).0 == Some(pending)
    ensures Run(Throttle, Some(pending), Calls(invs)).1 == []
    decreases |invs|
  {
    if invs != [] {
      var init := invs[..|invs| - 1];
      CallsSnoc(invs);
      RunSnoc(Throttle, Some(pending), Calls(init), Called(invs[|invs| - 1]));
      ThrottleDropsWhilePending(pending, init);
    } else {
      assert Calls(invs) == [];
    }
  }

  /** Debounce: a burst followed by the timer gives exactly one delivery, with the last call's receiver and arguments. */
  lemma DebounceBurstThenElapse<R, A>(slot: Option<Invocation<R, A>>, invs: seq<Invocation<R, A>>)
    requires invs != []
    ensures Run(Debounce, slot, Calls(invs) + [Elapsed]).0 == None
    ensures Run(Debounce, slot, Calls(invs) + [Elapsed]).1 == [invs[|invs| - 1]]
  {
    DebounceBurst(slot, invs);
    RunSnoc(Debounce, slot, Calls(invs), Elapsed);
  }

  /** Throttle: a burst on an idle wrapper followed by the timer gives exactly one delivery, with the first call's receiver and arguments. */
  lemma ThrottleBurstThenElapse<R, A>(invs: seq<Invocation<R, A>>)
    requires invs != []
    ensures Run(Throttle, None, Calls(invs) + [Elapsed]).0 == None
    ensures Run(Throttle, None, Calls(invs) + [Elapsed]).1 == [invs[0]]
  {
    ThrottleDropsWhilePending(invs[0], invs[1..]);
    assert Calls([invs[0]]) == [] + [Called(invs[0])];
    RunSnoc(Throttle, None, [], Called(invs[0]));
    RunAppend(Throttle, None, Calls([invs[0]]), Calls(invs[1..]));
    assert Calls([invs[0]]) + Calls(invs[1..]) == Calls(invs);
    RunSnoc(Throttle, None, Calls(invs), Elapsed);
  }

  /** Running two histories one after the other is running their concatenation. */
  lemma {:induction false} RunAppend<R, A>(mode: Mode, slot: Option<Invocation<R, A>>, a: seq<Event<R, A>>, b: seq<Event<R, A>>)
    ensures Run(mode, slot, a + b).0 == Run(mode, Run(mode, slot, a).0, b).0
    ensures Run(mode, slot, a + b).1 == Run(mode, slot, a).1 + Run(mode, Run(mode, slot, a).0, b).1
    decreases |b|
  {
    if b == [] {
      assert a + b == a;
    } else {
      assert (a + b)[..|a + b| - 1] == a + b[..|b| - 1];
      RunAppend(mode, slot, a, b[..|b| - 1]);
    }
  }

  /** The debounced wrapper returned by `debounce(func, time)`. */
  class Debounced<R, A> {
    /** The pending timer with the receiver and arguments it will deliver; None when no timer is set. */
    var pending: Option<Invocation<R, A>>
    /** Every call and elapse so far, and every invocation delivered to `func`. */
    ghost var history: seq<Event<R, A>>
    ghost var delivered: seq<Invocation<R, A>>

    ghost predicate Valid()
      reads this
    {
      Run(Debounce, None, history).0 == pending && Run(Debounce, None, history).1 == delivered
    }

    constructor ()
      ensures Valid() && pending == None && history == [] && delivered == []
    {
      pending, history, delivered := None, [], [];
    }

    /** `debouncedFunction.apply(receiver, args)`: clears any pending timer and sets a new one for this call. */
    method Call(receiver: R, args: A)
      requires Valid()
      modifies this
      ensures Valid()
      ensures pending == Some(Invocation(receiver, args))
      ensures history == old(history) + [Called(Invocation(receiver, args))] && delivered == old(delivered)
    {
      pending := Some(Invocation(receiver, args));
      RunSnoc(Debounce, None, history, Called(Invocation(receiver, args)));
      history := history + [Called(Invocation(receiver, args))];
      assert delivered + [] == delivered;
    }

    /** The timer going off: `run` clears the slot and then calls `func` with what was pending. */
    method Elapse() returns (call: Option<Invocation<R, A>>)
      requires Valid()
      modifies this
      ensures Valid()
      ensures call == old(pending) && pending == None
      ensures history == old(history) + [Elapsed]
      ensures delivered == old(delivered) + (if call.Some? then [call.value] else [])
    {
      RunSnoc(Debounce, None, history, Elapsed);
      call := pending;
      pending := None;
      history := history + [Elapsed];
      delivered := delivered + (if call.Some? then [call.value] else []);
    }
  }

  /** The throttled wrapper returned by `throttle(func, time)`. */
  class Throttled<R, A> {
    var pending: Option<Invocation<R, A>>
    ghost var history: seq<Event<R, A>>
    ghost var delivered: seq<Invocation<R, A>>

    ghost predicate Valid()
      reads this
    {
      Run(Throttle, None, history).0 == pending && Run(Throttle, None, history).1 == delivered
    }

    constructor ()
      ensures Valid() && pending == None && history == [] && delivered == []
    {
      pending, history, delivered := None, [], [];
    }

    /** `throttledFunction.apply(receiver, args)`: sets a timer for this call unless one is already pending. */
    method Call(receiver: R, args: A)
      requires Valid()
      modifies this
      ensures Valid()
      ensures pending == if old(pending).None? then Some(Invocation(receiver, args)) else old(pending)
      ensures history == old(history) + [Called(Invocation(receiver, args))] && delivered == old(delivered)
    {
      if pending.None? {
        pending := Some(Invocation(receiver, args));
      }
      RunSnoc(Throttle, None, history, Called(Invocation(receiver, args)));
      history := history + [Called(Invocation(receiver, args))];
      assert delivered + [] == delivered;
    }

    /** The timer going off: `run` clears the slot and then calls `func` with what was pending. */
    method Elapse() returns (call: Option<Invocation<R, A>>)
      requires Valid()
      modifies this
      ensures Valid()
      ensures call == old(pending) && pending == None
      ensures history == old(history) + [Elapsed]
      ensures delivered == old(delivered) + (if call.Some? then [call.value] else [])
    {
      RunSnoc(Throttle, None, history, Elapsed);
      call := pending;
      pending := None;
      history := history + [Elapsed];
      delivered := delivered + (if call.Some? then [call.value] else []);
    }
  }

  /** Three calls in one burst: debounce delivers the third, throttle the first; both can be armed again afterwards. */
  method BurstExample()
  {
    var d := new Debounced<int, string>();
    var t := new Throttled<int, string>();
    d.Call(0, "t"); d.Call(0, "t+5"); d.Call(0, "t+8");
    t.Call(0, "t"); t.Call(0, "t+3"); t.Call(0, "t+7");
    var fromDebounce := d.Elapse();
    var fromThrottle := t.Elapse();
    assert fromDebounce == Some(Invocation(0, "t+8"));
    assert fromThrottle == Some(Invocation(0, "t"));
    d.Call(1, "again");
    assert d.pending == Some(Invocation(1, "again"));
  }
}
