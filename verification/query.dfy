/** `QueryBus`: dispatches a query to the single handler registered for its
    type and returns that handler's result unchanged. */
module Query {
  import opened Outcomes
  import opened Erasure
  import opened Registry

  /** A shareable handle on a frozen query registry. `QueryBus::new` moves
      the registry behind an `Arc`, so the bus holds its entries as an
      immutable value: a clone of the bus is the same value and dispatches
      identically, and nothing the bus does can change the entries. */
  datatype QueryBus<K(==), !S, !M, R> = QueryBus(registry: map<K, Wrapper<K, S, M, R>>)
  {
    ghost predicate Valid()
    {
      WellKeyed(registry)
    }

    /** `QueryBus::new(registry)`: the bus holds exactly the registry's
        entries, so it is valid whenever the registry is. */
    static function New(r: QueryHandlerRegistry<K, S, M, R>): (bus: QueryBus<K, S, M, R>)
      reads r
      ensures r.Valid() ==> bus.Valid()
      ensures bus.registry.Keys == r.handlers.Keys
      ensures forall q :: q in r.handlers ==> Some(bus.registry[q]) == r.GetHandler(q)
    {
      QueryBus(r.handlers)
    }

    /** `dispatch::<Q>(query)` for a query whose type identity is `q`:
        with no handler for `q` the call panics (it never yields an `Err`);
        otherwise the stored handler runs once, on `query`, and its new state
        and `Result` come back verbatim. */
    function Dispatch(q: K, query: M, s: S): (r: Outcome<(S, R)>)
      ensures r == Panicked(NoHandler) <==> q !in registry
      ensures Valid() && q in registry ==> r == Returned(registry[q].handler(s, query))
    {
      match Lookup(registry, q)
      case None => Panicked(NoHandler)
      case Some(handler) => Handle(handler, q, query, s)
    }
  }

  /** A bus built from a registry dispatches by exactly the registry's entries:
      the handler `get_handler` returns runs, and a missing one panics. */
  lemma DispatchThroughNew<K, S, M, R>(r: QueryHandlerRegistry<K, S, M, R>, q: K, query: M, s: S)
    requires r.Valid()
    ensures QueryBus.New(r).Dispatch(q, query, s) ==
      match r.GetHandler(q)
      case None => Panicked(NoHandler)
      case Some(w) => Returned(w.handler(s, query))
  {
  }

  /** Query types of the scenarios below. */
  datatype TestType = TestQuery | Query1

  /** The domain error of the scenarios' queries. */
  datatype TestError = TestError

  /** `TestResponse(u32)` and `Response1(u32)`. */
  datatype TestResponse = TestResponse(n: nat)

  /** A doubling handler for `TestQuery(u32) -> TestResponse(u32)`,
      dispatched with 21, answers `Ok(TestResponse(42))`. */
  method SuccessfulDispatch() returns (r: Outcome<((), Result<TestResponse, TestError>)>)
    ensures r == Returned(((), Ok(TestResponse(42))))
  {
    var registry := new QueryHandlerRegistry<TestType, (), nat, Result<TestResponse, TestError>>();
    registry.Register(TestQuery, (s: (), x: nat) => (s, Ok(TestResponse(x * 2))));
    var bus := QueryBus.New(registry);
    r := bus.Dispatch(TestQuery, 21, ());
  }

  /** Dispatching on a bus built from an empty registry panics. */
  method MissingHandler() returns (r: Outcome<((), Result<TestResponse, TestError>)>)
    ensures r == Panicked(NoHandler)
  {
    var registry := new QueryHandlerRegistry<TestType, (), nat, Result<TestResponse, TestError>>();
    var bus := QueryBus.New(registry);
    r := bus.Dispatch(TestQuery, 0, ());
  }

  /** Registering a second handler for `Query1` replaces the first: the
      handler `get_handler` returns answers 42 for `Query1(42)` before and 84
      after. */
  method HandlerOverwrite() returns (before: Outcome<((), Result<TestResponse, TestError>)>, after: Outcome<((), Result<TestResponse, TestError>)>)
    ensures before == Returned(((), Ok(TestResponse(42))))
    ensures after == Returned(((), Ok(TestResponse(84))))
  {
    var registry := new QueryHandlerRegistry<TestType, (), nat, Result<TestResponse, TestError>>();
    registry.Register(Query1, (s: (), x: nat) => (s, Ok(TestResponse(x))));
    var first := registry.GetHandler(Query1);
    before := Handle(first.value, Query1, 42, ());
    registry.Register(Query1, (s: (), x: nat) => (s, Ok(TestResponse(x * 2))));
    var second := registry.GetHandler(Query1);
    after := Handle(second.value, Query1, 42, ());
  }
}
