/** `CommandBus`: dispatches a command to the single handler registered for its
    type and returns that handler's result unchanged. */
module Command {
  import opened Outcomes
  import opened Erasure
  import opened Registry

  /** A shareable handle on a frozen command registry. `CommandBus::new` moves
      the registry behind an `Arc`, so the bus holds its entries as an
      immutable value: a clone of the bus is the same value and dispatches
      identically, and nothing the bus does can change the entries. */
  datatype CommandBus<K(==), !S, !M, R> = CommandBus(registry: map<K, Wrapper<K, S, M, R>>)
  {
    ghost predicate Valid()
    {
      WellKeyed(registry)
    }

    /** `CommandBus::new(registry)`: the bus holds exactly the registry's
        entries, so it is valid whenever the registry is. */
    static function New(r: CommandHandlerRegistry<K, S, M, R>): (bus: CommandBus<K, S, M, R>)
      reads r
      ensures r.Valid() ==> bus.Valid()
      ensures bus.registry.Keys == r.handlers.Keys
      ensures forall c :: c in r.handlers ==> Some(bus.registry[c]) == r.GetHandler(c)
    {
      CommandBus(r.handlers)
    }

    /** `dispatch::<C>(command)` for a command whose type identity is `c`:
        with no handler for `c` the call panics (it never yields an `Err`);
        otherwise the stored handler runs once, on `command`, and its new state
        and `Result` come back verbatim. */
    function Dispatch(c: K, command: M, s: S): (r: Outcome<(S, R)>)
      ensures r == Panicked(NoHandler) <==> c !in registry
      ensures Valid() && c in registry ==> r == Returned(registry[c].handler(s, command))
    {
      match Lookup(registry, c)
      case None => Panicked(NoHandler)
      case Some(handler) => Handle(handler, c, command, s)
    }
  }

  /** A bus built from a registry dispatches by exactly the registry's entries:
      the handler `get_handler` returns runs, and a missing one panics. */
  lemma DispatchThroughNew<K, S, M, R>(r: CommandHandlerRegistry<K, S, M, R>, c: K, command: M, s: S)
    requires r.Valid()
    ensures CommandBus.New(r).Dispatch(c, command, s) ==
      match r.GetHandler(c)
      case None => Panicked(NoHandler)
      case Some(w) => Returned(w.handler(s, command))
  {
  }

  /** Command types of the scenarios below. */
  datatype TestType = TestCommand | Command1

  /** The domain error of the scenarios' commands. */
  datatype TestError = TestError

  /** A doubling handler for `TestCommand(u32) -> u32`, dispatched with 21,
      answers `Ok(42)`. */
  method SuccessfulDispatch() returns (r: Outcome<((), Result<nat, TestError>)>)
    ensures r == Returned(((), Ok(42)))
  {
    var registry := new CommandHandlerRegistry<TestType, (), nat, Result<nat, TestError>>();
    registry.Register(TestCommand, (s: (), x: nat) => (s, Ok(x * 2)));
    var bus := CommandBus.New(registry);
    r := bus.Dispatch(TestCommand, 21, ());
  }

  /** Dispatching on a bus built from an empty registry panics. */
  method MissingHandler() returns (r: Outcome<((), Result<nat, TestError>)>)
    ensures r == Panicked(NoHandler)
  {
    var registry := new CommandHandlerRegistry<TestType, (), nat, Result<nat, TestError>>();
    var bus := CommandBus.New(registry);
    r := bus.Dispatch(TestCommand, 0, ());
  }

  /** Registering a second handler for `Command1` replaces the first: the
      handler `get_handler` returns answers 42 for `Command1(42)` before and 84
      after. */
  method HandlerOverwrite() returns (before: Outcome<((), Result<nat, TestError>)>, after: Outcome<((), Result<nat, TestError>)>)
    ensures before == Returned(((), Ok(42)))
    ensures after == Returned(((), Ok(84)))
  {
    var registry := new CommandHandlerRegistry<TestType, (), nat, Result<nat, TestError>>();
    registry.Register(Command1, (s: (), x: nat) => (s, Ok(x)));
    var first := registry.GetHandler(Command1);
    before := Handle(first.value, Command1, 42, ());
    registry.Register(Command1, (s: (), x: nat) => (s, Ok(x * 2)));
    var second := registry.GetHandler(Command1);
    after := Handle(second.value, Command1, 42, ());
  }
}
