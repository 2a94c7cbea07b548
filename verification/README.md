# qonduit: type-keyed handler registries and buses, in Dafny

qonduit is a small Rust library for the command/query/event separation
pattern. Callers register handlers in a registry keyed by the runtime type
identity (`TypeId`) of the message they handle, freeze the registry into a bus,
and dispatch typed messages through the bus:

- a `CommandHandlerRegistry` or `QueryHandlerRegistry` holds at most one
  handler per message type; `register` silently replaces an earlier handler;
- an `EventHandlerRegistry` holds an ordered list of handlers per event type;
  `register` appends;
- handlers are stored type-erased: each is boxed behind a wrapper that
  downcasts a `dyn Any` message back to its own type (a mismatch is a fatal
  `expect`), runs the handler and boxes the result, which the typed caller
  downcasts again;
- `CommandBus::dispatch` / `QueryBus::dispatch` look up the handler and return
  its `Result` verbatim, and panic when there is none;
- `EventBus::dispatch` runs the handlers for the event's type in registration
  order, each on a clone of the event, returns the first `Err`, and `Ok(())`
  when all succeed (including when there are none).

The model:

- `outcomes.dfy` (`Outcomes`): `Option`, the handlers' `Result`, and
  `Outcome`, which is either a normal return or a panic (`NoHandler` for a
  missing Command/Query handler, `DowncastFailed` for the erasure `expect`).
- `erasure.dfy` (`Erasure`): type keys are an abstract type `K`; a boxed
  `dyn Any` is `Any(typeId, value)`; a stored handler is
  `Wrapper(handles, handler)`. A handler is opaque business logic, given as a
  function from the world state and the message to the new state and its
  result. `Execute` and `Handle` are the two halves of the erasure round trip.
- `registry.dfy` (`Registry`): the three registries as classes whose
  `Register` updates a `map` field in place. Map-level functions say what one
  `register` does (`Registered`, `Appended`) and what a sequence of them leaves
  behind (`Replay`, `ReplayEvents`), with lemmas about both.
- `command.dfy`, `query.dfy` (`Command`, `Query`): each bus is a value holding
  the frozen entries, with `New` and `Dispatch`, plus the crate's own test
  scenarios.
- `event.dfy` (`Event`): `FanOut` is the recursive reference semantics of
  event dispatch. It records which handler positions were invoked, and with
  which copy of the event. `EventBus.Dispatch` is the loop, proved equal to
  `FanOut`. Lemmas state the order, exactly-once and short-circuit properties.

Registry invariant: every entry carries the key it was registered under, and
that key is the one it is stored at (`WellKeyed`, `ListsWellKeyed`). Every
`Register` keeps this invariant. As a result the two downcasts of the erasure
layer never fail on a registry built through `register`.

The bus datatypes hold the registry's entries as an immutable value. `new`
moves the registry into an `Arc` that nothing mutates afterwards, so a
snapshot is exact. It follows that `dispatch` cannot change the entries, and a
cloned bus, being the same value, dispatches identically.

## Model

| member | source | states |
|---|---|---|
| Erasure.Downcast | qonduit/src/registry.rs:428-430 | the value comes back exactly when the box's type identity is the expected one; otherwise the `expect` panics |
| Erasure.Execute | qonduit/src/registry.rs:424-458 | a message boxed under another type panics; a matching one runs the inner handler once, and the result is boxed under the handler's own key |
| Erasure.Handle | qonduit/src/registry.rs:469-498 | erasure round trip: for a wrapper stored under the message's key, the typed handle returns exactly the inner handler's new state and `Result`; for any other key it panics |
| Registry.Registered | qonduit/src/registry.rs:84-87 | insert: the key set grows by exactly `c`; `c` maps to the new handler; every other entry is unchanged; the registry invariant is preserved |
| Registry.Lookup | qonduit/src/registry.rs:128-130 | `get(..).cloned()`: None exactly when no entry is stored for the key, otherwise the stored entry itself |
| Registry.Replay | qonduit/src/registry.rs:83-88 | after any sequence of `register` calls on a new registry, the keys are exactly those registered, and every entry sits under its own key |
| Registry.ReplayLastWriteWins | qonduit/src/registry.rs:83-88 | last write wins: the entry for a key is the handler of the last registration for that key |
| Registry.NewCommandRegistry | qonduit/src/registry.rs:41-88 | `new` followed by `register` calls in a loop leaves a valid command registry holding exactly the `Replay` table |
| Registry.NewQueryRegistry | qonduit/src/registry.rs:155-202 | `new` followed by `register` calls in a loop leaves a valid query registry holding exactly the `Replay` table |
| Registry.CommandHandlerRegistry.constructor | qonduit/src/registry.rs:41-45 | a new command registry returns None for every command type |
| Registry.CommandHandlerRegistry.Register | qonduit/src/registry.rs:83-88 | afterwards `get_handler` for `c` is the new handler; the key set grows by `c` only; other entries are unchanged; the invariant is kept |
| Registry.CommandHandlerRegistry.GetHandler | qonduit/src/registry.rs:127-132 | Some exactly when a handler is stored for `c`; on a valid registry the handler returned was stored for `c` itself |
| Registry.QueryHandlerRegistry.constructor | qonduit/src/registry.rs:155-159 | a new query registry returns None for every query type |
| Registry.QueryHandlerRegistry.Register | qonduit/src/registry.rs:197-202 | afterwards `get_handler` for `q` is the new handler; the key set grows by `q` only; other entries are unchanged; the invariant is kept |
| Registry.QueryHandlerRegistry.GetHandler | qonduit/src/registry.rs:241-246 | Some exactly when a handler is stored for `q`; on a valid registry the handler returned was stored for `q` itself |
| Registry.Appended | qonduit/src/registry.rs:350-353 | `entry().or_default().push()`: the list for `e` grows by one at its end; earlier entries keep their positions; other keys' lists are unchanged; no key is removed |
| Registry.ReplayEvents | qonduit/src/registry.rs:314-353 | after any sequence of event `register` calls on a new registry, every listed handler sits under its own key |
| Registry.ReplayEventsInOrder | qonduit/src/registry.rs:320-323 | after any sequence of `register` calls, the list for `e` is exactly the handlers registered for `e`, in call order |
| Registry.ListFor | qonduit/src/registry.rs:359-362 | `get(..).cloned().unwrap_or_default()`: the stored list for the key, or the empty list when the key is absent |
| Registry.NewEventRegistry | qonduit/src/registry.rs:314-353 | `new` followed by `register` calls in a loop leaves a valid event registry holding exactly the `ReplayEvents` table |
| Registry.EventHandlerRegistry.constructor | qonduit/src/registry.rs:314-318 | a new event registry returns the empty list for every event type |
| Registry.EventHandlerRegistry.Register | qonduit/src/registry.rs:350-353 | the new list for `e` is the old one plus the new handler at its end; other entries are unchanged; keys only grow; the invariant is kept |
| Registry.EventHandlerRegistry.GetHandlers | qonduit/src/registry.rs:358-366 | the list for `e`, or empty when nothing is registered (never a failure); on a valid registry each handler in it was stored for `e` |
| Command.CommandBus.New | qonduit/src/command.rs:223-227 | the bus holds exactly the registry's entries, and is valid when the registry is |
| Command.CommandBus.Dispatch | qonduit/src/command.rs:317-327 | panics (never an `Err`) exactly when no handler is registered for the type; otherwise returns the stored handler's single run, state and `Result` verbatim |
| Command.DispatchThroughNew | qonduit/src/command.rs:223-227 | a bus built by `new` dispatches by exactly the entries `get_handler` reports |
| Command.SuccessfulDispatch | qonduit/tests/command_tests.rs:30-45 | a doubling handler dispatched with 21 returns `Ok(42)` |
| Command.MissingHandler | qonduit/tests/command_tests.rs:47-58 | dispatch on an empty registry panics |
| Command.HandlerOverwrite | qonduit/tests/command_tests.rs:149-178 | re-registering replaces the handler: 42 before, 84 after |
| Query.QueryBus.New | qonduit/src/query.rs:248-252 | the bus holds exactly the registry's entries, and is valid when the registry is |
| Query.QueryBus.Dispatch | qonduit/src/query.rs:346-356 | panics exactly when no handler is registered for the type; otherwise returns the stored handler's single run verbatim |
| Query.DispatchThroughNew | qonduit/src/query.rs:248-252 | a bus built by `new` dispatches by exactly the entries `get_handler` reports |
| Query.SuccessfulDispatch | qonduit/tests/query_tests.rs:36-51 | a doubling handler dispatched with 21 returns `Ok(TestResponse(42))` |
| Query.MissingHandler | qonduit/tests/query_tests.rs:53-64 | dispatch on an empty registry panics |
| Query.HandlerOverwrite | qonduit/tests/query_tests.rs:161-190 | re-registering replaces the handler: 42 before, 84 after |
| Event.FanOut | qonduit/src/event.rs:181-184 | reference semantics of the dispatch loop, with no postcondition of its own. Its defining equations: an empty rest gives `Ok(())`; a panic stops with nothing invoked; an `Err` stops after that handler; an `Ok` continues from the next handler in the new state. Its properties are carried by `FanOutInOrder`, `FanOutOkInvokesAll`, `FanOutOkExactly`, `FanOutNeverPanics`, `FanOutPrefix`, `FirstErrorStops` and `ErrIsFirstError` |
| Event.FanOutInOrder | qonduit/src/event.rs:143-146 | handlers are invoked strictly in registration order, each at most once and none beyond the list; the trace is a prefix of the list, and each copy received equals the event |
| Event.FanOutOkInvokesAll | qonduit/src/event.rs:181-184 | a dispatch ending in `Ok(())` invoked every handler |
| Event.FanOutOkExactly | qonduit/src/event.rs:181-184 | dispatch returns `Ok(())` if and only if every handler succeeds in the state the handlers before it actually left |
| Event.FanOutAllSucceed | qonduit/src/event.rs:181-184 | corollary: if every handler succeeds from any state, dispatch returns `Ok(())` after invoking each handler once |
| Event.FanOutNeverPanics | qonduit/src/registry.rs:450-458 | on handlers stored for the event's own key, no downcast fails |
| Event.FanOutPrefix | qonduit/src/event.rs:180-185 | short-circuit: if the first `n` handlers stop early, the whole dispatch is that result and later handlers never run; otherwise it continues from handler `n` in the state they left |
| Event.FirstErrorStops | qonduit/src/event.rs:69-71 | if handler `n` is the first to return `Err(x)`, dispatch returns exactly `Err(x)` and invokes only handlers `0..n` |
| Event.ErrIsFirstError | qonduit/src/event.rs:148-150 | converse: an `Err(x)` result is the error of the last handler invoked, and every handler before it returned `Ok` |
| Event.EventBus.New | qonduit/src/event.rs:137-141 | the bus holds exactly the registry's lists, and is valid when the registry is |
| Event.EventBus.GetHandlers | qonduit/src/event.rs:181 | the list for `e`, or empty; on a valid bus every handler in it was stored for `e` |
| Event.EventBus.Dispatch | qonduit/src/event.rs:180-185 | the loop equals the reference fan-out; the ghost trace (not returned by the source) is handlers `0..k` in order, each given the event; `Ok(())` implies all invoked; no handlers gives `Ok(())` with nothing invoked and the state unchanged; a valid bus never panics |
| Event.IncSingle | qonduit/tests/event_tests.rs:135-160 | one adder: the counter goes 0 → 1 → 3 |
| Event.Inc | qonduit/tests/event_tests.rs:128-133 | `IncEventHandler::handle`: always `Ok(())`; the counter stays below 2^32 (`fetch_add` wraps around); below the wrap it is exactly the old counter plus the payload |
| Event.IncMultiple | qonduit/tests/event_tests.rs:162-191 | two adders: the counter goes 0 → 2 → 6 |

## Left out

- async/await, the tokio runtime, `async_trait`, and `Send`/`Sync` bounds. Each dispatch is one sequential call, and each handler call runs to completion before the next starts.
- Concurrent dispatch from several callers is not modelled. A bus is an immutable value, so dispatch is read-only by construction.
- `Arc` reference counting is left out. A cloned bus is the same value.
- `std::any::TypeId` and `dyn Any` are replaced by an abstract key type and a tagged box.
- All message types share one payload type `M`. All results share one type `R`, or `Result<(), E>` for events. Per-type static typing is represented only by the key attached to each box.
- Handler internals are opaque. Each handler is a total function on an explicit world state. Side effects outside that state (I/O, clocks) are not part of the model.
- If a handler panics inside its own logic, the model does not capture it.
- The text of the panic message built with `type_name` (`qonduit/src/command.rs:320-323`, `qonduit/src/query.rs:350-353`) is not modelled.
- The `Debug` impls, which print only the struct name, are not modelled.
- `#[derive(Default)]` on the registries is not modelled separately; it builds the same empty map as `new`.
- After a panic, Rust unwinds the call. The model instead returns `Panicked`. Event dispatch (`FanOut`, `EventBus.Dispatch`) pairs it with the state reached before the failing call. `CommandBus.Dispatch`, `QueryBus.Dispatch`, `Execute` and `Handle` return a bare `Panicked(cause)` with no state, and their caller keeps its own state.
- The construction macros in `qonduit/src/macros.rs` are not part of this model. They cover commands and queries only. `command_registry!` and `query_registry!` create a registry with `new`, make a sequence of `register` calls on it and yield the registry. That is what `Replay` describes and `NewCommandRegistry` / `NewQueryRegistry` perform. `command_bus!` and `query_bus!` additionally hand that registry to the bus's `new`. There is no event macro. `ReplayEvents` and `NewEventRegistry` describe a sequence of event `register` calls made by hand on a new registry.
- `qonduit/src/lib.rs` (module declarations and re-exports) is not part of this model.
- The example applications are not part of this model.
- Command.SuccessfulDispatch: the test handlers compute on `u32`, and the model computes on unbounded naturals. The test values (21, 42, 84) are far from overflow.
- Query.SuccessfulDispatch: same as above; the test values do not overflow.
- The multiple-registration registry tests use a `String` payload for their second message type. That payload is not modelled. "Other keys are unchanged" is instead stated by `Register` and `Registered` for any key.
- `event.clone()` is assumed to return a value equal to the event and independent of it; user-defined `Clone` impls that do otherwise are not modelled, so each handler receiving an equal copy holds by construction.
- The boxed result of the erased `execute` is tagged with the message's key, not with the identity of its own type `Result<Response, Error>`, which several message types can share; this is unobservable through `Handle`, whose first downcast already forces the key to match.
