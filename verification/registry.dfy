/** The handler registries: `CommandHandlerRegistry` and `QueryHandlerRegistry`
    hold at most one handler per message type, `EventHandlerRegistry` an ordered
    list of handlers per event type. Each registry is a class whose `register`
    updates its map in place; the map-level functions below say what one
    `register` does to the map, and what a whole sequence of them leaves behind. */
module Registry {
  import opened Outcomes
  import opened Erasure

  // ---------------------------------------------------------------------------
  // Single-slot tables (commands and queries)
  // ---------------------------------------------------------------------------

  /** The registry's invariant: every entry sits under the type identity of the
      message type it handles, so the downcasts of the erasure layer never fail. */
  ghost predicate WellKeyed<K, S, M, R>(m: map<K, Wrapper<K, S, M, R>>)
  {
    forall k :: k in m ==> m[k].handles == k
  }

  /** `handlers.get(&TypeId::of::<C>()).cloned()`. */
  function Lookup<K(==), S, M, R>(m: map<K, Wrapper<K, S, M, R>>, c: K): (r: Option<Wrapper<K, S, M, R>>)
    ensures r.None? <==> c !in m
    ensures r.Some? ==> r.value == m[c]
  {
    if c in m then Some(m[c]) else None
  }

  /** `handlers.insert(TypeId::of::<C>(), handler)`: `h` becomes the entry for
      `c`, silently replacing any earlier one; no other entry changes and no
      key is ever removed. */
  function Registered<K(==), S, M, R>(m: map<K, Wrapper<K, S, M, R>>, c: K, h: Handler<S, M, R>): (r: map<K, Wrapper<K, S, M, R>>)
    ensures r.Keys == m.Keys + {c}
    ensures r[c] == Wrapper(c, h)
    ensures forall d :: d in m && d != c ==> r[d] == m[d]
    ensures WellKeyed(m) ==> WellKeyed(r)
  {
    m[c := Wrapper(c, h)]
  }

  /** One `register::<key>(handler)` call. */
  datatype Registration<K, !S, !M, R> = Registration(key: K, handler: Handler<S, M, R>)

  /** The table a new registry holds after the given `register` calls, in order. */
  function Replay<K(==), S, M, R>(regs: seq<Registration<K, S, M, R>>): (r: map<K, Wrapper<K, S, M, R>>)
    ensures WellKeyed(r)
    ensures r.Keys == set j | 0 <= j < |regs| :: regs[j].key
  {
    if regs == [] then map[]
    else
      var last := regs[|regs| - 1];
      var before := Replay(regs[..|regs| - 1]);
      assert forall j :: 0 <= j < |regs| - 1 ==> regs[..|regs| - 1][j] == regs[j];
      Registered(before, last.key, last.handler)
  }

  /** Last write wins: the entry for a key is the handler of the LAST
      registration for that key, whatever came before it. */
  lemma {:induction false} ReplayLastWriteWins<K, S, M, R>(regs: seq<Registration<K, S, M, R>>, j: nat)
    requires j < |regs|
    requires forall j' :: j < j' < |regs| ==> regs[j'].key != regs[j].key
    ensures regs[j].key in Replay(regs)
    ensures Replay(regs)[regs[j].key] == Wrapper(regs[j].key, regs[j].handler)
  {
    if j < |regs| - 1 {
      var front := regs[..|regs| - 1];
      assert front[j] == regs[j];
      assert forall j' :: j < j' < |front| ==> front[j'] == regs[j'];
      ReplayLastWriteWins(front, j);
    }
  }

  /** `CommandHandlerRegistry`: at most one handler per command type. */
  class CommandHandlerRegistry<K(==), S, M, R> {
    var handlers: map<K, Wrapper<K, S, M, R>>

    ghost predicate Valid()
      reads this
    {
      WellKeyed(handlers)
    }

    /** `CommandHandlerRegistry::new`: no command type has a handler. */
    constructor ()
      ensures Valid()
      ensures handlers == map[]
      ensures forall c :: GetHandler(c) == None
    {
      handlers := map[];
    }

    /** `register::<C>(handler)`: `handler` becomes the handler for `c`,
        replacing any earlier one; every other command type keeps its entry. */
    method Register(c: K, handler: Handler<S, M, R>)
      requires Valid()
      modifies this
      ensures Valid()
      ensures handlers == Registered(old(handlers), c, handler)
      ensures GetHandler(c) == Some(Wrapper(c, handler))
      ensures handlers.Keys == old(handlers).Keys + {c}
      ensures forall d :: d in old(handlers) && d != c ==> handlers[d] == old(handlers)[d]
    {
      handlers := Registered(handlers, c, handler);
    }

    /** `get_handler::<C>()`: the handler stored for `c`, if any. On a valid
        registry the returned handler was stored for `c` itself, so calling it
        through the erasure layer never fails a downcast. */
    function GetHandler(c: K): (r: Option<Wrapper<K, S, M, R>>)
      reads this
      ensures r.Some? <==> c in handlers
      ensures r.Some? ==> r.value == handlers[c]
      ensures Valid() && r.Some? ==> r.value.handles == c
    {
      Lookup(handlers, c)
    }
  }

  /** `QueryHandlerRegistry`: at most one handler per query type; the same
      code as the command registry over a separate map. */
  class QueryHandlerRegistry<K(==), S, M, R> {
    var handlers: map<K, Wrapper<K, S, M, R>>

    ghost predicate Valid()
      reads this
    {
      WellKeyed(handlers)
    }

    /** `QueryHandlerRegistry::new`: no query type has a handler. */
    constructor ()
      ensures Valid()
      ensures handlers == map[]
      ensures forall q :: GetHandler(q) == None
    {
      handlers := map[];
    }

    /** `register::<Q>(handler)`: `handler` becomes the handler for `q`,
        replacing any earlier one; every other query type keeps its entry. */
    method Register(q: K, handler: Handler<S, M, R>)
      requires Valid()
      modifies this
      ensures Valid()
      ensures handlers == Registered(old(handlers), q, handler)
      ensures GetHandler(q) == Some(Wrapper(q, handler))
      ensures handlers.Keys == old(handlers).Keys + {q}
      ensures forall d :: d in old(handlers) && d != q ==> handlers[d] == old(handlers)[d]
    {
      handlers := Registered(handlers, q, handler);
    }

    /** `get_handler::<Q>()`: the handler stored for `q`, if any, stored for
        `q` itself on a valid registry. */
    function GetHandler(q: K): (r: Option<Wrapper<K, S, M, R>>)
      reads this
      ensures r.Some? <==> q in handlers
      ensures r.Some? ==> r.value == handlers[q]
      ensures Valid() && r.Some? ==> r.value.handles == q
    {
      Lookup(handlers, q)
    }
  }

  /** A new command registry followed by the given `register` calls, in
      order, holds exactly the `Replay` table. */
  method NewCommandRegistry<K(==), S, M, R>(regs: seq<Registration<K, S, M, R>>) returns (r: CommandHandlerRegistry<K, S, M, R>)
    ensures fresh(r)
    ensures r.Valid() && r.handlers == Replay(regs)
  {
    r := new CommandHandlerRegistry();
    var i := 0;
    while i < |regs|
      invariant i <= |regs|
      invariant r.Valid() && r.handlers == Replay(regs[..i])
    {
      assert regs[..i + 1][..i] == regs[..i];
      r.Register(regs[i].key, regs[i].handler);
      i := i + 1;
    }
    assert regs[..|regs|] == regs;
  }

  /** A new query registry followed by the given `register` calls, in order,
      holds exactly the `Replay` table. */
  method NewQueryRegistry<K(==), S, M, R>(regs: seq<Registration<K, S, M, R>>) returns (r: QueryHandlerRegistry<K, S, M, R>)
    ensures fresh(r)
    ensures r.Valid() && r.handlers == Replay(regs)
  {
    r := new QueryHandlerRegistry();
    var i := 0;
    while i < |regs|
      invariant i <= |regs|
      invariant r.Valid() && r.handlers == Replay(regs[..i])
    {
      assert regs[..i + 1][..i] == regs[..i];
      r.Register(regs[i].key, regs[i].handler);
      i := i + 1;
    }
    assert regs[..|regs|] == regs;
  }

  // ---------------------------------------------------------------------------
  // Ordered lists (events)
  // ---------------------------------------------------------------------------

  /** The event registry's invariant: every handler in the list for a key was
      stored for that key. */
  ghost predicate ListsWellKeyed<K, S, M, R>(m: map<K, seq<Wrapper<K, S, M, R>>>)
  {
    forall k, i :: k in m && 0 <= i < |m[k]| ==> m[k][i].handles == k
  }

  /** `handlers.get(&TypeId::of::<E>()).cloned().unwrap_or_default()`: the list
      for `e`, or the empty list when nothing was registered for `e`. */
  function ListFor<K(==), S, M, R>(m: map<K, seq<Wrapper<K, S, M, R>>>, e: K): (r: seq<Wrapper<K, S, M, R>>)
    ensures e !in m ==> r == []
    ensures e in m ==> r == m[e]
  {
    if e in m then m[e] else []
  }

  /** `handlers.entry(TypeId::of::<E>()).or_default().push(handler)`: the list
      for `e` (created when absent) grows by one at its end, its earlier
      entries keep their positions, and no other key's list changes. */
  function Appended<K(==), S, M, R>(m: map<K, seq<Wrapper<K, S, M, R>>>, e: K, h: Handler<S, M, R>): (r: map<K, seq<Wrapper<K, S, M, R>>>)
    ensures r.Keys == m.Keys + {e}
    ensures |ListFor(r, e)| == |ListFor(m, e)| + 1
    ensures ListFor(r, e)[..|ListFor(m, e)|] == ListFor(m, e)
    ensures ListFor(r, e)[|ListFor(m, e)|] == Wrapper(e, h)
    ensures forall d :: d in m && d != e ==> r[d] == m[d]
    ensures ListsWellKeyed(m) ==> ListsWellKeyed(r)
  {
    m[e := ListFor(m, e) + [Wrapper(e, h)]]
  }

  /** The table a new event registry holds after the given `register` calls. */
  function ReplayEvents<K(==), S, M, R>(regs: seq<Registration<K, S, M, R>>): (r: map<K, seq<Wrapper<K, S, M, R>>>)
    ensures ListsWellKeyed(r)
  {
    if regs == [] then map[]
    else
      var last := regs[|regs| - 1];
      Appended(ReplayEvents(regs[..|regs| - 1]), last.key, last.handler)
  }

  /** Reference definition: the handlers registered for `e`, in call order. */
  function Selected<K(==), S, M, R>(regs: seq<Registration<K, S, M, R>>, e: K): seq<Wrapper<K, S, M, R>>
  {
    if regs == [] then []
    else (if regs[0].key == e then [Wrapper(e, regs[0].handler)] else []) + Selected(regs[1..], e)
  }

  lemma {:induction false} SelectedSnoc<K, S, M, R>(regs: seq<Registration<K, S, M, R>>, last: Registration<K, S, M, R>, e: K)
    ensures Selected(regs + [last], e)
         == Selected(regs, e) + (if last.key == e then [Wrapper(e, last.handler)] else [])
  {
    if regs != [] {
      assert (regs + [last])[1..] == regs[1..] + [last];
      SelectedSnoc(regs[1..], last, e);
    }
  }

  /** After any sequence of `register` calls, `get_handlers::<E>()` lists
      exactly the handlers registered for `e`, in registration order. */
  lemma {:induction false} ReplayEventsInOrder<K, S, M, R>(regs: seq<Registration<K, S, M, R>>, e: K)
    ensures ListFor(ReplayEvents(regs), e) == Selected(regs, e)
  {
    if regs != [] {
      var front, last := regs[..|regs| - 1], regs[|regs| - 1];
      ReplayEventsInOrder(front, e);
      assert regs == front + [last];
      SelectedSnoc(front, last, e);
    }
  }

  /** `EventHandlerRegistry`: an ordered list of handlers per event type. */
  class EventHandlerRegistry<K(==), S, M, R> {
    var handlers: map<K, seq<Wrapper<K, S, M, R>>>

    ghost predicate Valid()
      reads this
    {
      ListsWellKeyed(handlers)
    }

    /** `EventHandlerRegistry::new`: every event type has the empty list. */
    constructor ()
      ensures Valid()
      ensures handlers == map[]
      ensures forall e :: GetHandlers(e) == []
    {
      handlers := map[];
    }

    /** `register::<E>(handler)`: appends `handler` to the list for `e`. */
    method Register(e: K, handler: Handler<S, M, R>)
      requires Valid()
      modifies this
      ensures Valid()
      ensures handlers == Appended(old(handlers), e, handler)
      ensures GetHandlers(e) == old(GetHandlers(e)) + [Wrapper(e, handler)]
      ensures handlers.Keys == old(handlers).Keys + {e}
      ensures forall d :: d in old(handlers) && d != e ==> handlers[d] == old(handlers)[d]
    {
      handlers := Appended(handlers, e, handler);
    }

    /** `get_handlers::<E>()`: the list for `e` in registration order, empty
        when nothing is registered; on a valid registry every handler in it was
        stored for `e`. */
    function GetHandlers(e: K): (r: seq<Wrapper<K, S, M, R>>)
      reads this
      ensures e !in handlers ==> r == []
      ensures e in handlers ==> r == handlers[e]
      ensures Valid() ==> forall i :: 0 <= i < |r| ==> r[i].handles == e
    {
      ListFor(handlers, e)
    }
  }

  /** A new event registry followed by the given `register` calls, in order,
      holds exactly the `ReplayEvents` table. */
  method NewEventRegistry<K(==), S, M, R>(regs: seq<Registration<K, S, M, R>>) returns (r: EventHandlerRegistry<K, S, M, R>)
    ensures fresh(r)
    ensures r.Valid() && r.handlers == ReplayEvents(regs)
  {
    r := new EventHandlerRegistry();
    var i := 0;
    while i < |regs|
      invariant i <= |regs|
      invariant r.Valid() && r.handlers == ReplayEvents(regs[..i])
    {
      assert regs[..i + 1][..i] == regs[..i];
      r.Register(regs[i].key, regs[i].handler);
      i := i + 1;
    }
    assert regs[..|regs|] == regs;
  }
}
