/** The type-erasure layer of the registries.

    A registry stores handlers for many message types in one homogeneous map.
    Each stored handler is boxed together with the type identity of the one
    message type it accepts; dispatch erases the message into a `dyn Any` box,
    the wrapper downcasts it back, runs the handler, and boxes the result, which
    the typed caller downcasts once more. A downcast that does not match is a
    fatal `expect`. The three wrapper traits of the source (command, query,
    event) have identical code; one generic wrapper models all three. */
module Erasure {
  import opened Outcomes

  /** Opaque handler logic over an explicit world state: given the state and
      the message, the new state and the handler's result. */
  type Handler<!S, !M, R> = (S, M) -> (S, R)

  /** `Box<dyn Any + Send>`: a value together with the identity of its runtime
      type. */
  datatype Any<K, V> = Any(typeId: K, value: V)

  /** `downcast::<T>()` followed by `expect(..)`: the boxed value when its
      runtime type is the expected one, a panic otherwise. */
  function Downcast<K(==), V>(boxed: Any<K, V>, expected: K): (r: Outcome<V>)
    ensures r.Returned? <==> boxed.typeId == expected
    ensures r.Returned? ==> r.value == boxed.value
    ensures r.Panicked? ==> r.cause == DowncastFailed
  {
    if boxed.typeId == expected then Returned(boxed.value) else Panicked(DowncastFailed)
  }

  /** A concrete handler stored behind the erased wrapper interface, together
      with the type identity of the message type it was written for. */
  datatype Wrapper<K, !S, !M, R> = Wrapper(handles: K, handler: Handler<S, M, R>)

  /** The erased `execute`: downcast the boxed message to the wrapper's own
      message type, run the handler, box its result. The boxed result's runtime
      type (`Result<Response, Error>` of that message type) is determined by the
      message type, so it is identified here by the same key. */
  function Execute<K(==), S, M, R>(w: Wrapper<K, S, M, R>, input: Any<K, M>, s: S): (r: Outcome<(S, Any<K, R>)>)
    ensures input.typeId != w.handles ==> r == Panicked(DowncastFailed)
    ensures input.typeId == w.handles ==>
      && r.Returned?
      && r.value.1.typeId == w.handles
      && (r.value.0, r.value.1.value) == w.handler(s, input.value)
  {
    match Downcast(input, w.handles)
    case Panicked(p) => Panicked(p)
    case Returned(message) =>
      var (s', result) := w.handler(s, message);
      Returned((s', Any(w.handles, result)))
  }

  /** The typed `handle` of a stored wrapper, as used by the buses for a
      message whose type identity is `key`: erase the message, execute, and
      downcast the boxed result back. When the wrapper was stored for `key` the
      round trip returns exactly what the inner handler returns; otherwise the
      first downcast fails. */
  function Handle<K(==), S, M, R>(w: Wrapper<K, S, M, R>, key: K, message: M, s: S): (r: Outcome<(S, R)>)
    ensures w.handles == key ==> r == Returned(w.handler(s, message))
    ensures w.handles != key ==> r == Panicked(DowncastFailed)
  {
    match Execute(w, Any(key, message), s)
    case Panicked(p) => Panicked(p)
    case Returned((s', boxed)) =>
      match Downcast(boxed, key)
      case Panicked(p) => Panicked(p)
      case Returned(result) => Returned((s', result))
  }
}
