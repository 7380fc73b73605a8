/** `DefaultListenerHandler` of rokit-api: the fallback handler that builds an
    anonymous consumer around a listener method and registers it on the bus. Unlike
    `BaseEventConsumer` it makes no type check of its own before the reflective call. */
module DefaultListenerHandler {
  import opened JavaModel
  import opened ReflectionUtil
  import opened Reflect
  import opened PriorityOrder
  import opened EventRegistry
  import opened BaseEventConsumer

  /** The anonymous consumer: what the registry sees (instance, priority, event
      type, identity) and the captured handler method. */
  datatype AnonymousConsumer = AnonymousConsumer(consumer: Consumer, handler: Method)

  /** The `catch` of the anonymous `accept`: an `IllegalAccessException` or an
      `InvocationTargetException` is rethrown wrapped; any other exception escapes as is. */
  function Rethrow(t: Throwable): (r: Throwable)
    ensures (t.IllegalAccessException? || t.InvocationTargetException?) <==> r != t
    ensures r != t ==> r == RuntimeException("Failed to invoke listener", t)
  {
    if t.IllegalAccessException? || t.InvocationTargetException? then RuntimeException("Failed to invoke listener", t)
    else t
  }

  function Rethrown(inv: Invocation): Invocation
  {
    match inv.thrown
    case None => inv
    case Some(t) => Invocation(inv.calls, Some(Rethrow(t)))
  }

  /** The anonymous consumer's `accept(event)`. */
  function AnonAccept(ct: ClassTable, bodies: Bodies, a: AnonymousConsumer, wrappers: map<JClass, Wrapper>,
                      wrap: Wrap, event: Value): (r: Invocation)
    ensures |r.calls| <= 1
    // a one-parameter handler gets the event alone
    ensures |a.handler.paramTypes| == 1 ==>
              (r.calls != [] <==> Runs(ct, a.handler, a.consumer.instance, [event]))
    ensures |a.handler.paramTypes| == 1 && r.calls != [] ==> r.calls[0].args == [event]
    // no wrapper, or a wrong number of extras: skipped silently
    ensures |a.handler.paramTypes| != 1 && a.consumer.eventType !in wrappers ==> r == Invocation([], None)
    ensures (|a.handler.paramTypes| != 1 && a.consumer.eventType in wrappers
             && |wrap(wrappers[a.consumer.eventType], event)| != |a.handler.paramTypes| - 1) ==> r == Invocation([], None)
    // otherwise [event] ++ extras goes straight to the reflective call, with no check of its own
    ensures (|a.handler.paramTypes| != 1 && a.consumer.eventType in wrappers
             && |wrap(wrappers[a.consumer.eventType], event)| == |a.handler.paramTypes| - 1) ==>
              (r.calls != [] <==> Runs(ct, a.handler, a.consumer.instance, [event] + wrap(wrappers[a.consumer.eventType], event)))
    ensures r.calls != [] ==> r.calls[0].receiver == a.consumer.instance && r.calls[0].handler == a.handler
    ensures r.calls != [] && |a.handler.paramTypes| != 1 ==>
              a.consumer.eventType in wrappers && r.calls[0].args == [event] + wrap(wrappers[a.consumer.eventType], event)
    // a throwing handler, or an inaccessible method, surfaces as "Failed to invoke listener"
    ensures r.thrown.Some? && r.calls != [] ==>
              r.thrown.value.RuntimeException? && r.thrown.value.message == "Failed to invoke listener"
              && r.thrown.value.cause.InvocationTargetException?
    ensures r.thrown.Some? ==> (r.thrown.value.RuntimeException? || r.thrown.value.IllegalArgumentException?
                                || r.thrown.value.NullPointerException?)
    // once the handler ran, it throws exactly when its body does, wrapped twice
    ensures r.calls != [] ==>
              (r.thrown.Some? <==> bodies(a.handler, a.consumer.instance, r.calls[0].args).Some?)
    ensures r.calls != [] && r.thrown.Some? ==>
              r.thrown.value == RuntimeException("Failed to invoke listener",
                InvocationTargetException(bodies(a.handler, a.consumer.instance, r.calls[0].args).value))
  {
    var m := a.handler;
    var paramCount := |m.paramTypes|;
    if paramCount == 1 then Rethrown(Invoke(ct, bodies, m, a.consumer.instance, [event]))
    else if a.consumer.eventType !in wrappers then Invocation([], None)
    else
      var extras := wrap(wrappers[a.consumer.eventType], event);
      if |extras| != paramCount - 1 then Invocation([], None)
      else Rethrown(Invoke(ct, bodies, m, a.consumer.instance, [event] + extras))
  }

  /** Where the two consumers part ways: a handler `(Event, int)` fed a boxed
      `Integer` is skipped by `BaseEventConsumer`, whose `isInstance` check on
      `int.class` fails, but is called by the anonymous consumer, since
      `Method.invoke` unboxes the argument. */
  lemma PrimitiveExtraDiffers(bodies: Bodies, event: Value)
    requires event.Obj? && event.cls == Ref("Event")
    ensures var ct := ClassTable(map[]);
      var m := Method("L", "on", [Ref("Event"), Prim(Int)], true);
      var listener := Obj(0, Ref("L"));
      var boxed := Obj(1, Ref("java.lang.Integer"));
      var wrappers := map[Ref("Event") := Wrapper(0)];
      var wrap: Wrap := (w, e) => [boxed];
      && InvokeStep(ct, bodies, BaseConsumer(listener, m, 0, Ref("Event")), wrappers, wrap, event).calls == []
      && AnonAccept(ct, bodies, AnonymousConsumer(Consumer(0, listener, 0, Ref("Event")), m), wrappers, wrap, event).calls
         == [Call(listener, m, [event, boxed])]
  {
    var ct := ClassTable(map[]);
    var m := Method("L", "on", [Ref("Event"), Prim(Int)], true);
    var listener := Obj(0, Ref("L"));
    var boxed := Obj(1, Ref("java.lang.Integer"));
    var args := [event, boxed];
    var wrappers := map[Ref("Event") := Wrapper(0)];
    var wrap: Wrap := (w, e) => [boxed];
    assert wrap(wrappers[Ref("Event")], event) == [boxed];
    assert [event] + [boxed] == args;
    assert ToNonPrimitive(Prim(Int)) == Some(Ref("java.lang.Integer"));
    assert !TypesValid(ct, m.paramTypes, args) by {
      PrimitiveExtraRejected(ct, m.paramTypes, args, 1);
    }
    assert Accepts(ct, m.paramTypes[1], args[1]);
    assert Runs(ct, m, listener, args) by {
      assert forall i :: 0 <= i < |args| ==> Accepts(ct, m.paramTypes[i], args[i]);
    }
  }

  /** The anonymous `accept`, step by step. */
  method Accept(ct: ClassTable, bodies: Bodies, a: AnonymousConsumer, bus: Registry, wrap: Wrap, event: Value)
    returns (r: Invocation)
    ensures r == AnonAccept(ct, bodies, a, bus.wrappers, wrap, event)
  {
    var paramCount := |a.handler.paramTypes|;
    if paramCount == 1 {
      return Rethrown(Invoke(ct, bodies, a.handler, a.consumer.instance, [event]));
    }
    var wrapper := bus.GetWrapper(a.consumer.eventType);
    if wrapper.None? {
      return Invocation([], None);
    }
    var extras := wrap(wrapper.value, event);
    if |extras| != paramCount - 1 {
      return Invocation([], None);
    }
    var args := BuildArgs(event, extras);
    r := Rethrown(Invoke(ct, bodies, a.handler, a.consumer.instance, args[..]));
  }

  /** `createConsumer`: build the anonymous consumer (`ref` is its new identity),
      register it once for `eventType` and return that same consumer. */
  method CreateConsumer(bus: Registry, ref: nat, listener: Value, m: Method, priority: Int32, eventType: JClass)
    returns (a: AnonymousConsumer)
    requires bus.Valid()
    modifies bus.lists, bus.snapshots
    ensures bus.Valid()
    ensures a.consumer == Consumer(ref, listener, priority, eventType) && a.handler == m
    ensures bus.EventId(eventType) < 0 ==> unchanged(bus.lists, bus.snapshots)
    ensures bus.EventId(eventType) >= 0 ==>
              bus.lists[bus.EventId(eventType)] == StableSortDesc(old(bus.lists[bus.EventId(eventType)]) + [a.consumer], Priority)
    ensures forall j :: 0 <= j < bus.n && j != bus.EventId(eventType) ==>
              bus.lists[j] == old(bus.lists[j]) && bus.snapshots[j] == old(bus.snapshots[j])
  {
    a := AnonymousConsumer(Consumer(ref, listener, priority, eventType), m);
    bus.InternalRegister(eventType, a.consumer);
  }
}
