/** `Listener`, its `Builder`, and `Subscriber`: the hand-built listener objects of
    the `impl` package and the container that hands them to `EventBusImpl`. A
    consumer lambda is an opaque thunk id; calling it appends a `Fired` record. */
module ImplListener {
  import opened JavaModel

  /** The `Consumer` a listener holds: the builder's default no-op, a thunk, or
      `null` (passed to `withConsumer`). */
  datatype Handler = NoOp | Thunk(id: nat) | NullConsumer

  /** A thunk call that reached its body, with the event it received. */
  datatype Fired = Fired(thunk: nat, event: Value)

  /** A listener object: `ref` is its identity (listeners do not override
      `equals`, so two listeners are equal exactly when they are the same
      object), `eventType` its event class, `genericType` the generic argument it
      reports (`null` for `Listener`), `consumer` what `invoke` calls. */
  datatype EventListener = EventListener(ref: nat, eventType: JClass, genericType: Option<JClass>, consumer: Handler)

  /** `invoke`: the event goes unchanged to the consumer, once; `bodies(id)` is
      what thunk `id` throws, if anything. */
  function Invoke(l: EventListener, event: Value, bodies: nat -> Option<Throwable>): (r: (seq<Fired>, Option<Throwable>))
    ensures |r.0| <= 1
    ensures l.consumer.NoOp? ==> r == ([], None)
    ensures l.consumer.NullConsumer? ==> r == ([], Some(NullPointerException))
    ensures l.consumer.Thunk? ==> r.0 == [Fired(l.consumer.id, event)] && r.1 == bodies(l.consumer.id)
  {
    match l.consumer
      case NoOp => ([], None)
      case NullConsumer => ([], Some(NullPointerException))
      case Thunk(id) => ([Fired(id, event)], bodies(id))
  }

  /** `Listener.Builder`: the type is unset until `withType`, the consumer starts
      as the no-op. */
  class Builder {
    var eventType: Option<JClass>
    var consumer: Handler

    constructor()
      ensures eventType.None? && consumer == NoOp
    {
      eventType := None;
      consumer := NoOp;
    }

    /** `withType`: overwrites the type (`None` for `null`) and returns the same builder. */
    method WithType(t: Option<JClass>) returns (self: Builder)
      modifies this
      ensures eventType == t && consumer == old(consumer)
      ensures self == this
    {
      eventType := t;
      return this;
    }

    /** `withConsumer`: overwrites the consumer and returns the same builder. */
    method WithConsumer(c: Handler) returns (self: Builder)
      modifies this
      ensures consumer == c && eventType == old(eventType)
      ensures self == this
    {
      consumer := c;
      return this;
    }

    /** `build`: fails exactly when no type was set; otherwise a listener object
        (identity `ref`) of the set type and consumer, with no generic type. */
    method Build(ref: nat) returns (r: Result<EventListener>)
      ensures r.Err? <==> eventType.None?
      ensures r.Err? ==> r.error == IllegalStateException("Type must be defined")
      ensures r.Ok? ==> r.value == EventListener(ref, eventType.value, None, consumer)
    {
      if eventType.None? {
        return Err(IllegalStateException("Type must be defined"));
      }
      return Ok(EventListener(ref, eventType.value, None, consumer));
    }
  }

  /** A listener built from a fresh builder with a type and nothing else has no
      effect when invoked. */
  method DefaultListenerIsSilent(t: JClass, ref: nat, event: Value, bodies: nat -> Option<Throwable>)
    returns (l: EventListener, effect: (seq<Fired>, Option<Throwable>))
    ensures l == EventListener(ref, t, None, NoOp)
    ensures effect == ([], None)
  {
    var b := new Builder();
    var b2 := b.WithType(Some(t));
    var built := b2.Build(ref);
    l := built.value;
    effect := Invoke(l, event, bodies);
  }

  /** `Subscriber`: the list `getListeners` hands out (the live list itself). */
  class Subscriber {
    var listeners: seq<EventListener>

    constructor()
      ensures listeners == []
    {
      listeners := [];
    }

    function GetListeners(): seq<EventListener>
      reads this
    {
      listeners
    }

    /** `addListener(listener)`: appends at the end. */
    method AddListener(l: EventListener)
      modifies this
      ensures listeners == old(listeners) + [l]
    {
      listeners := listeners + [l];
    }

    /** `addListener(builder)`: builds, appends and returns this subscriber; when
        `build` throws, the exception propagates and the list is unchanged. */
    method AddListenerFrom(b: Builder, ref: nat) returns (self: Subscriber, thrown: Option<Throwable>)
      modifies this
      ensures self == this
      ensures b.eventType.None? ==> thrown == Some(IllegalStateException("Type must be defined")) && listeners == old(listeners)
      ensures b.eventType.Some? ==> thrown.None? && listeners == old(listeners) + [EventListener(ref, b.eventType.value, None, b.consumer)]
    {
      var built := b.Build(ref);
      if built.Err? {
        return this, Some(built.error);
      }
      listeners := listeners + [built.value];
      return this, None;
    }
  }
}
