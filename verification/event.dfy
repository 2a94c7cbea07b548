/** `EventBus`: delivers an event to every handler registered for its type,
    one after another in registration order, stopping at the first error. */
module Event {
  import opened Outcomes
  import opened Erasure
  import opened Registry

  /** One handler invocation: the handler's position in the list and the copy
      of the event it was given. */
  datatype Invocation<M> = Invocation(index: nat, event: M)

  /** What a dispatch amounts to: its outcome, the world state afterwards, and
      the invocations it made, in the order it made them. */
  datatype Dispatched<S, M, E> = Dispatched(outcome: Outcome<Result<(), E>>, state: S, trace: seq<Invocation<M>>)

  function Prepend<S, M, E>(done: seq<Invocation<M>>, d: Dispatched<S, M, E>): Dispatched<S, M, E>
  {
    d.(trace := done + d.trace)
  }

  /** Reference semantics of the fan-out over `ws` from position `i` on: the
      handler at `i` gets the event; an `Err` ends the dispatch with that error,
      an `Ok` moves on to `i + 1` from the state it left; the end of the list is
      `Ok(())`. A failed downcast panics before the handler is called. */
  function FanOut<K(==), S, M, E>(ws: seq<Wrapper<K, S, M, Result<(), E>>>, i: nat, e: K, event: M, s: S): Dispatched<S, M, E>
    requires i <= |ws|
    decreases |ws| - i
  {
    if i == |ws| then Dispatched(Returned(Ok(())), s, [])
    else
      match Handle(ws[i], e, event, s)
      case Panicked(p) => Dispatched(Panicked(p), s, [])
      case Returned((s1, Err(x))) => Dispatched(Returned(Err(x)), s1, [Invocation(i, event)])
      case Returned((s1, Ok(_))) => Prepend([Invocation(i, event)], FanOut(ws, i + 1, e, event, s1))
  }

  /** Handlers run strictly in registration order: the invocations are the
      positions `i, i + 1, ...` with none skipped or repeated, never beyond the
      end of the list, and each receives a copy equal to the dispatched event. */
  lemma {:induction false} FanOutInOrder<K, S, M, E>(ws: seq<Wrapper<K, S, M, Result<(), E>>>, i: nat, e: K, event: M, s: S)
    requires i <= |ws|
    ensures |FanOut(ws, i, e, event, s).trace| <= |ws| - i
    ensures forall j :: 0 <= j < |FanOut(ws, i, e, event, s).trace| ==>
      FanOut(ws, i, e, event, s).trace[j] == Invocation(i + j, event)
    decreases |ws| - i
  {
    if i < |ws| {
      match Handle(ws[i], e, event, s)
      case Panicked(_) =>
      case Returned((s1, Err(_))) =>
      case Returned((s1, Ok(_))) => FanOutInOrder(ws, i + 1, e, event, s1);
    }
  }

  /** A dispatch that ends in `Ok(())` has invoked every handler of the list. */
  lemma {:induction false} FanOutOkInvokesAll<K, S, M, E>(ws: seq<Wrapper<K, S, M, Result<(), E>>>, i: nat, e: K, event: M, s: S)
    requires i <= |ws|
    requires FanOut(ws, i, e, event, s).outcome == Returned(Ok(()))
    ensures |FanOut(ws, i, e, event, s).trace| == |ws| - i
    decreases |ws| - i
  {
    if i < |ws| {
      match Handle(ws[i], e, event, s)
      case Panicked(_) =>
      case Returned((s1, Err(_))) =>
      case Returned((s1, Ok(_))) => FanOutOkInvokesAll(ws, i + 1, e, event, s1);
    }
  }

  /** Handler `w`, called through the erasure layer for key `e`, returns
      normally with `Ok(())` from state `t`. */
  ghost predicate Succeeds<K, S, M, E>(w: Wrapper<K, S, M, Result<(), E>>, e: K, event: M, t: S)
  {
    Handle(w, e, event, t).Returned? && Handle(w, e, event, t).value.1.Ok?
  }

  /** When every handler succeeds whatever state it meets, the dispatch
      returns `Ok(())` after invoking each of them (a special case of
      `FanOutOkExactly` that needs no knowledge of the intermediate states). */
  lemma {:induction false} FanOutAllSucceed<K, S, M, E>(ws: seq<Wrapper<K, S, M, Result<(), E>>>, i: nat, e: K, event: M, s: S)
    requires i <= |ws|
    requires forall j, t :: i <= j < |ws| ==> Succeeds(ws[j], e, event, t)
    ensures FanOut(ws, i, e, event, s).outcome == Returned(Ok(()))
    ensures |FanOut(ws, i, e, event, s).trace| == |ws| - i
    decreases |ws| - i
  {
    if i < |ws| {
      assert Succeeds(ws[i], e, event, s);
      var s1 := Handle(ws[i], e, event, s).value.0;
      FanOutAllSucceed(ws, i + 1, e, event, s1);
    }
  }

  /** A dispatch returns `Ok(())` exactly when every handler succeeds in the
      state the handlers before it left behind. */
  lemma {:induction false} FanOutOkExactly<K, S, M, E>(ws: seq<Wrapper<K, S, M, Result<(), E>>>, e: K, event: M, s: S)
    ensures FanOut(ws, 0, e, event, s).outcome == Returned(Ok(())) <==>
      forall n :: 0 <= n < |ws| ==> Succeeds(ws[n], e, event, FanOut(ws[..n], 0, e, event, s).state)
    decreases |ws|
  {
    if ws != [] {
      var k := |ws| - 1;
      var front := ws[..k];
      FanOutOkExactly(front, e, event, s);
      FanOutPrefix(ws, k, 0, e, event, s);
      assert forall n :: 0 <= n <= k ==> ws[..n] == front[..n];
      assert forall n :: 0 <= n < k ==> ws[n] == front[n];
      assert ws[..k] == front;
    }
  }

  /** An `Err(x)` result is the error of the last handler invoked, which met
      the state left by handlers that all returned `Ok`: dispatch returns the
      first error encountered, unchanged. */
  lemma {:induction false} ErrIsFirstError<K, S, M, E>(ws: seq<Wrapper<K, S, M, Result<(), E>>>, i: nat, e: K, event: M, s: S, x: E)
    requires i <= |ws|
    requires FanOut(ws, i, e, event, s).outcome == Returned(Err(x))
    ensures var d := FanOut(ws, i, e, event, s);
      var n := i + |d.trace| - 1;
      && 1 <= |d.trace|
      && i <= n < |ws|
      && FanOut(ws[..n], i, e, event, s).outcome == Returned(Ok(()))
      && Handle(ws[n], e, event, FanOut(ws[..n], i, e, event, s).state) == Returned((d.state, Err(x)))
    decreases |ws| - i
  {
    match Handle(ws[i], e, event, s)
    case Panicked(_) =>
    case Returned((s1, Err(_))) =>
      assert FanOut(ws[..i], i, e, event, s).outcome == Returned(Ok(()));
    case Returned((s1, Ok(_))) =>
      ErrIsFirstError(ws, i + 1, e, event, s1, x);
      var n := i + |FanOut(ws, i, e, event, s).trace| - 1;
      assert ws[..n][i] == ws[i];
  }

  /** On a list whose handlers were all stored for `e`, the downcasts never
      fail: the dispatch never panics. */
  lemma {:induction false} FanOutNeverPanics<K, S, M, E>(ws: seq<Wrapper<K, S, M, Result<(), E>>>, i: nat, e: K, event: M, s: S)
    requires i <= |ws|
    requires forall j :: i <= j < |ws| ==> ws[j].handles == e
    ensures !FanOut(ws, i, e, event, s).outcome.Panicked?
    decreases |ws| - i
  {
    if i < |ws| {
      match Handle(ws[i], e, event, s)
      case Panicked(_) =>
      case Returned((s1, Err(_))) =>
      case Returned((s1, Ok(_))) => FanOutNeverPanics(ws, i + 1, e, event, s1);
    }
  }

  /** Short-circuit: the dispatch over the whole list agrees with the dispatch
      over its first `n` handlers when that one stops early (the handlers from
      `n` on are never invoked), and otherwise carries on from position `n` in
      the state the first `n` handlers left. */
  lemma {:induction false} FanOutPrefix<K, S, M, E>(ws: seq<Wrapper<K, S, M, Result<(), E>>>, n: nat, i: nat, e: K, event: M, s: S)
    requires i <= n <= |ws|
    ensures FanOut(ws[..n], i, e, event, s).outcome != Returned(Ok(())) ==>
      FanOut(ws, i, e, event, s) == FanOut(ws[..n], i, e, event, s)
    ensures FanOut(ws[..n], i, e, event, s).outcome == Returned(Ok(())) ==>
      FanOut(ws, i, e, event, s) == Prepend(FanOut(ws[..n], i, e, event, s).trace, FanOut(ws, n, e, event, FanOut(ws[..n], i, e, event, s).state))
    decreases n - i
  {
    if i < n {
      assert ws[..n][i] == ws[i];
      match Handle(ws[i], e, event, s)
      case Panicked(_) =>
      case Returned((s1, Err(_))) =>
      case Returned((s1, Ok(_))) =>
        FanOutPrefix(ws, n, i + 1, e, event, s1);
    }
  }

  /** The first error wins: if the first `n` handlers succeed and the handler
      at position `n` returns `Err(x)`, the dispatch returns exactly `Err(x)`
      and no handler after position `n` is invoked. */
  lemma FirstErrorStops<K, S, M, E>(ws: seq<Wrapper<K, S, M, Result<(), E>>>, n: nat, e: K, event: M, s: S, s1: S, x: E)
    requires n < |ws|
    requires FanOut(ws[..n], 0, e, event, s).outcome == Returned(Ok(()))
    requires Handle(ws[n], e, event, FanOut(ws[..n], 0, e, event, s).state) == Returned((s1, Err(x)))
    ensures FanOut(ws, 0, e, event, s) == Dispatched(Returned(Err(x)), s1, FanOut(ws[..n], 0, e, event, s).trace + [Invocation(n, event)])
    ensures |FanOut(ws, 0, e, event, s).trace| == n + 1
  {
    FanOutPrefix(ws, n, 0, e, event, s);
    FanOutOkInvokesAll(ws[..n], 0, e, event, s);
  }

  /** What a whole dispatch from the first handler amounts to, gathered from
      the lemmas above: the trace is a prefix of the list in order, `Ok(())`
      means all were invoked, handlers stored for `e` never fail a downcast,
      and an empty list is an immediate `Ok(())`. */
  lemma FanOutFromStart<K, S, M, E>(ws: seq<Wrapper<K, S, M, Result<(), E>>>, e: K, event: M, s: S)
    ensures var d := FanOut(ws, 0, e, event, s);
      && |d.trace| <= |ws|
      && (forall j :: 0 <= j < |d.trace| ==> d.trace[j] == Invocation(j, event))
      && (d.outcome == Returned(Ok(())) ==> |d.trace| == |ws|)
      && ((forall j :: 0 <= j < |ws| ==> ws[j].handles == e) ==> !d.outcome.Panicked?)
      && (ws == [] ==> d == Dispatched(Returned(Ok(())), s, []))
  {
    FanOutInOrder(ws, 0, e, event, s);
    if FanOut(ws, 0, e, event, s).outcome == Returned(Ok(())) {
      FanOutOkInvokesAll(ws, 0, e, event, s);
    }
    if forall j :: 0 <= j < |ws| ==> ws[j].handles == e {
      FanOutNeverPanics(ws, 0, e, event, s);
    }
  }

  /** A shareable handle on a frozen event registry (see `CommandBus`). */
  datatype EventBus<K(==), !S, !M, E> = EventBus(registry: map<K, seq<Wrapper<K, S, M, Result<(), E>>>>)
  {
    ghost predicate Valid()
    {
      ListsWellKeyed(registry)
    }

    /** `EventBus::new(registry)`: the bus holds exactly the registry's lists. */
    static function New(r: EventHandlerRegistry<K, S, M, Result<(), E>>): (bus: EventBus<K, S, M, E>)
      reads r
      ensures r.Valid() ==> bus.Valid()
      ensures bus.registry.Keys == r.handlers.Keys
      ensures forall e :: e in r.handlers ==> bus.GetHandlers(e) == r.GetHandlers(e)
    {
      EventBus(r.handlers)
    }

    /** `registry.get_handlers::<E>()` as seen by the bus: the list for `e`,
        empty when nothing was registered; on a valid bus every handler in it
        was stored for `e`. */
    function GetHandlers(e: K): (r: seq<Wrapper<K, S, M, Result<(), E>>>)
      ensures e !in registry ==> r == []
      ensures e in registry ==> r == registry[e]
      ensures Valid() ==> forall i :: 0 <= i < |r| ==> r[i].handles == e
    {
      ListFor(registry, e)
    }

    /** `dispatch::<E>(event)` for an event whose type identity is `e`, from
        world state `s`: runs the handlers for `e` in registration order, each
        on its own copy of the event, and returns the first `Err` or `Ok(())`. */
    method Dispatch(e: K, event: M, s: S) returns (r: Outcome<Result<(), E>>, s': S, ghost trace: seq<Invocation<M>>)
      ensures Dispatched(r, s', trace) == FanOut(GetHandlers(e), 0, e, event, s)
      ensures |trace| <= |GetHandlers(e)|
      ensures forall j :: 0 <= j < |trace| ==> trace[j] == Invocation(j, event)
      ensures r == Returned(Ok(())) ==> |trace| == |GetHandlers(e)|
      ensures Valid() ==> !r.Panicked?
      ensures GetHandlers(e) == [] ==> r == Returned(Ok(())) && s' == s && trace == []
    {
      var handlers := GetHandlers(e);
      r, s' := Returned(Ok(())), s;
      trace := [];
      var i := 0;
      while i < |handlers|
        invariant i <= |handlers|
        invariant FanOut(handlers, 0, e, event, s) == Prepend(trace, FanOut(handlers, i, e, event, s'))
        invariant |trace| == i
        invariant r == Returned(Ok(()))
      {
        var copy := event;  // event.clone()
        match Handle(handlers[i], e, copy, s')
        case Panicked(p) =>
          r := Panicked(p);
          break;
        case Returned((s1, result)) =>
          trace := trace + [Invocation(i, copy)];
          s' := s1;
          if result.Err? {
            r := Returned(Err(result.error));
            break;
          }
        i := i + 1;
      }
      assert Dispatched(r, s', trace) == FanOut(handlers, 0, e, event, s);
      FanOutFromStart(handlers, e, event, s);
    }
  }

  /** Event type of the scenarios below. */
  datatype TestType = IncEvent

  /** The error of the scenarios' handlers (`Box<dyn Error>`). */
  datatype TestError = TestError

  /** `IncEventHandler`: adds the event's payload to a shared `AtomicU32`
      counter (`fetch_add`, which wraps around). */
  function Inc(counter: nat, payload: nat): (r: (nat, Result<(), TestError>))
    ensures r.1 == Ok(())
    ensures r.0 < 0x1_0000_0000
    ensures counter + payload < 0x1_0000_0000 ==> r.0 == counter + payload
  {
    ((counter + payload) % 0x1_0000_0000, Ok(()))
  }

  /** One incrementing handler: dispatching `IncEvent(1)` and then
      `IncEvent(2)` takes the counter from 0 to 1 to 3. */
  method IncSingle() returns (r1: Outcome<Result<(), TestError>>, c1: nat, r2: Outcome<Result<(), TestError>>, c2: nat)
    ensures r1 == Returned(Ok(())) && c1 == 1
    ensures r2 == Returned(Ok(())) && c2 == 3
  {
    var registry := new EventHandlerRegistry<TestType, nat, nat, Result<(), TestError>>();
    registry.Register(IncEvent, Inc);
    var bus := EventBus.New(registry);
    var ws := bus.GetHandlers(IncEvent);
    assert ws == [Wrapper(IncEvent, Inc)];
    assert FanOut(ws, 0, IncEvent, 1, 0) == Dispatched(Returned(Ok(())), 1, [Invocation(0, 1)]);
    assert FanOut(ws, 0, IncEvent, 2, 1) == Dispatched(Returned(Ok(())), 3, [Invocation(0, 2)]);
    ghost var trace;
    r1, c1, trace := bus.Dispatch(IncEvent, 1, 0);
    r2, c2, trace := bus.Dispatch(IncEvent, 2, c1);
  }

  /** Two incrementing handlers on one counter: dispatching `IncEvent(1)` and
      then `IncEvent(2)` takes the counter from 0 to 2 to 6. */
  method IncMultiple() returns (r1: Outcome<Result<(), TestError>>, c1: nat, r2: Outcome<Result<(), TestError>>, c2: nat)
    ensures r1 == Returned(Ok(())) && c1 == 2
    ensures r2 == Returned(Ok(())) && c2 == 6
  {
    var registry := new EventHandlerRegistry<TestType, nat, nat, Result<(), TestError>>();
    registry.Register(IncEvent, Inc);
    registry.Register(IncEvent, Inc);
    var bus := EventBus.New(registry);
    var w := Wrapper(IncEvent, Inc);
    var ws := bus.GetHandlers(IncEvent);
    assert ws == [w, w];
    assert Handle(w, IncEvent, 1, 0) == Returned((1, Ok(())));
    assert Handle(w, IncEvent, 1, 1) == Returned((2, Ok(())));
    assert FanOut(ws, 1, IncEvent, 1, 1).outcome == Returned(Ok(())) && FanOut(ws, 1, IncEvent, 1, 1).state == 2;
    assert FanOut(ws, 0, IncEvent, 1, 0).outcome == Returned(Ok(())) && FanOut(ws, 0, IncEvent, 1, 0).state == 2;
    assert Handle(w, IncEvent, 2, 2) == Returned((4, Ok(())));
    assert Handle(w, IncEvent, 2, 4) == Returned((6, Ok(())));
    assert FanOut(ws, 1, IncEvent, 2, 4).outcome == Returned(Ok(())) && FanOut(ws, 1, IncEvent, 2, 4).state == 6;
    assert FanOut(ws, 0, IncEvent, 2, 2).outcome == Returned(Ok(())) && FanOut(ws, 0, IncEvent, 2, 2).state == 6;
    ghost var trace;
    r1, c1, trace := bus.Dispatch(IncEvent, 1, 0);
    r2, c2, trace := bus.Dispatch(IncEvent, 2, c1);
  }
}
