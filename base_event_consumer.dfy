/** `BaseEventConsumer` of rokit-api: the consumer that calls a listener method
    reflectively, optionally unwrapping extra arguments from the event through the
    bus's `EventWrapper` for the consumer's event type. */
module BaseEventConsumer {
  import opened JavaModel
  import opened Reflect
  import opened EventRegistry

  /** The final fields: listener object, handler method, priority and event type
      (`paramCount` is the handler's parameter count). */
  datatype BaseConsumer = BaseConsumer(listener: Value, handler: Method, priority: Int32, eventType: JClass)

  function ParamCount(c: BaseConsumer): nat { |c.handler.paramTypes| }

  /** `EventWrapper.wrap`: the extra values a wrapper extracts from an event. */
  type Wrap = (Wrapper, Value) -> seq<Value>

  /** The overridable `preInvoke` and `postInvoke` hooks: `pre(e)` is the answer
      of `preInvoke(e)` or what it throws; `post(e)` is what `postInvoke(e)`
      throws, if anything. The defaults accept and do nothing. */
  datatype Hooks = Hooks(pre: Value -> Result<bool>, post: Value -> Option<Throwable>)

  const DefaultHooks: Hooks := Hooks(_ => Ok(true), _ => None)

  /** `validateTypes`: every argument after the event is `null` or an instance of
      the declared parameter type at its position. */
  predicate TypesValid(ct: ClassTable, types: seq<JClass>, args: seq<Value>)
  {
    forall i :: 1 <= i < |types| && i < |args| ==> args[i].Null? || IsInstance(ct, types[i], args[i])
  }

  /** A primitive parameter after the event never passes the check: `isInstance`
      on a primitive class object is false for every value that is not `null`. */
  lemma PrimitiveExtraRejected(ct: ClassTable, types: seq<JClass>, args: seq<Value>, i: nat)
    requires 1 <= i < |types| && i < |args|
    requires types[i].Prim? && args[i].Obj?
    ensures !TypesValid(ct, types, args)
  {
  }

  /** The private `invoke`: what reaches the handler and what is thrown. */
  function InvokeStep(ct: ClassTable, bodies: Bodies, c: BaseConsumer, wrappers: map<JClass, Wrapper>,
                      wrap: Wrap, event: Value): (r: Invocation)
    ensures |r.calls| <= 1
    // a one-parameter handler gets the event alone; the wrapper table is not consulted
    ensures ParamCount(c) == 1 ==> r == Invoke(ct, bodies, c.handler, c.listener, [event])
    ensures ParamCount(c) == 1 ==> (r.calls != [] <==> Runs(ct, c.handler, c.listener, [event]))
    ensures ParamCount(c) == 1 && r.calls != [] ==> r.calls[0].args == [event]
    // otherwise: no wrapper, or a wrong number of extras, skips the handler silently
    ensures ParamCount(c) != 1 && c.eventType !in wrappers ==> r == Invocation([], None)
    ensures (ParamCount(c) != 1 && c.eventType in wrappers
             && |wrap(wrappers[c.eventType], event)| != ParamCount(c) - 1) ==> r == Invocation([], None)
    // ... and so does an extra of the wrong type
    ensures (ParamCount(c) != 1 && c.eventType in wrappers
             && !TypesValid(ct, c.handler.paramTypes, [event] + wrap(wrappers[c.eventType], event)))
            ==> r == Invocation([], None)
    // with a wrapper, the right number of extras and every extra of its type, the
    // reflective call is made with [event] ++ extras
    ensures (ParamCount(c) != 1 && c.eventType in wrappers
             && |wrap(wrappers[c.eventType], event)| == ParamCount(c) - 1
             && TypesValid(ct, c.handler.paramTypes, [event] + wrap(wrappers[c.eventType], event)))
            ==> r == Invoke(ct, bodies, c.handler, c.listener, [event] + wrap(wrappers[c.eventType], event))
    // the call that is made: this listener, this method, [event] ++ extras, types checked
    ensures r.calls != [] ==> r.calls[0].receiver == c.listener && r.calls[0].handler == c.handler
    ensures r.calls != [] ==> |r.calls[0].args| == ParamCount(c) && r.calls[0].args[0] == event
    ensures r.calls != [] && ParamCount(c) != 1 ==>
              && c.eventType in wrappers
              && r.calls[0].args[1..] == wrap(wrappers[c.eventType], event)
              && TypesValid(ct, c.handler.paramTypes, r.calls[0].args)
    // a failure inside the handler arrives wrapped; nothing else throws after a call
    ensures r.thrown.Some? && r.calls != [] ==> r.thrown.value.InvocationTargetException?
  {
    if ParamCount(c) == 1 then Invoke(ct, bodies, c.handler, c.listener, [event])
    else if c.eventType !in wrappers then Invocation([], None)
    else
      var extras := wrap(wrappers[c.eventType], event);
      if |extras| != ParamCount(c) - 1 then Invocation([], None)
      else
        var args := [event] + extras;
        assert args[1..] == extras;
        if TypesValid(ct, c.handler.paramTypes, args) then Invoke(ct, bodies, c.handler, c.listener, args)
        else Invocation([], None)
  }

  /** A one-parameter handler behaves the same whatever wrappers the bus holds. */
  lemma SingleParamIgnoresWrappers(ct: ClassTable, bodies: Bodies, c: BaseConsumer,
                                   w1: map<JClass, Wrapper>, w2: map<JClass, Wrapper>, wrap: Wrap, event: Value)
    requires ParamCount(c) == 1
    ensures InvokeStep(ct, bodies, c, w1, wrap, event) == InvokeStep(ct, bodies, c, w2, wrap, event)
  {
  }

  /** The default `handleException`: the cause of an `InvocationTargetException` is
      rethrown as "Listener threw", anything else as "Failed to invoke listener". */
  function HandleException(t: Throwable): (r: Throwable)
    ensures r.RuntimeException?
    ensures t.InvocationTargetException? ==> r.cause == t.cause
    ensures !t.InvocationTargetException? ==> r.cause == t
    ensures r.message == "Listener threw" <==> t.InvocationTargetException?
  {
    match t
    case InvocationTargetException(cause) => RuntimeException("Listener threw", cause)
    case _ => RuntimeException("Failed to invoke listener", t)
  }

  /** What one `accept(event)` does: the handler calls made, whether `postInvoke`
      ran, and what `accept` throws. */
  datatype Accepted = Accepted(calls: seq<Call>, postRan: bool, thrown: Option<Throwable>)

  /** `accept`: `preInvoke` gates everything and runs outside the `try`, so what
      it throws escapes as it is; `postInvoke` follows a clean invoke; every
      failure of either of those is handed to `handleException`, which always
      throws. */
  function AcceptSpec(ct: ClassTable, bodies: Bodies, c: BaseConsumer, wrappers: map<JClass, Wrapper>,
                      wrap: Wrap, hooks: Hooks, event: Value): (r: Accepted)
    ensures hooks.pre(event).Err? ==> r == Accepted([], false, Some(hooks.pre(event).error))
    ensures hooks.pre(event) == Ok(false) ==> r == Accepted([], false, None)
    ensures hooks.pre(event) == Ok(true) ==> r.calls == InvokeStep(ct, bodies, c, wrappers, wrap, event).calls
    ensures r.postRan <==> hooks.pre(event) == Ok(true) && InvokeStep(ct, bodies, c, wrappers, wrap, event).thrown.None?
    // no failure is swallowed: one is thrown exactly when preInvoke, invoke or postInvoke failed
    ensures r.thrown.Some? <==> (hooks.pre(event).Err? || (hooks.pre(event) == Ok(true)
              && (InvokeStep(ct, bodies, c, wrappers, wrap, event).thrown.Some? || (r.postRan && hooks.post(event).Some?))))
    ensures hooks.pre(event).Ok? && r.thrown.Some? ==> r.thrown.value.RuntimeException?
    ensures hooks.pre(event) == Ok(true) && InvokeStep(ct, bodies, c, wrappers, wrap, event).thrown.Some? ==>
              r.thrown == Some(HandleException(InvokeStep(ct, bodies, c, wrappers, wrap, event).thrown.value))
    ensures hooks.pre(event) == Ok(true) && InvokeStep(ct, bodies, c, wrappers, wrap, event).thrown.None?
            && hooks.post(event).Some? ==>
              r.thrown == Some(HandleException(hooks.post(event).value))
  {
    match hooks.pre(event)
    case Err(t) => Accepted([], false, Some(t))
    case Ok(go) =>
      if !go then Accepted([], false, None)
      else
        var inv := InvokeStep(ct, bodies, c, wrappers, wrap, event);
        if inv.thrown.Some? then Accepted(inv.calls, false, Some(HandleException(inv.thrown.value)))
        else match hooks.post(event)
          case Some(t) => Accepted(inv.calls, true, Some(HandleException(t)))
          case None => Accepted(inv.calls, true, None)
  }

  /** `new Object[n]`, `args[0] = event` and `System.arraycopy(extras, 0, args, 1, n - 1)`. */
  method BuildArgs(event: Value, extras: seq<Value>) returns (args: array<Value>)
    ensures fresh(args)
    ensures args[..] == [event] + extras
  {
    args := new Value[|extras| + 1];
    args[0] := event;
    var i := 0;
    while i < |extras|
      invariant 0 <= i <= |extras|
      invariant args[0] == event
      invariant forall j :: 0 <= j < i ==> args[j + 1] == extras[j]
    {
      args[i + 1] := extras[i];
      i := i + 1;
    }
    assert args[..] == [event] + extras by {
      forall j | 1 <= j < args.Length ensures args[..][j] == ([event] + extras)[j] {
        assert args[j] == extras[j - 1];
      }
    }
  }

  /** `validateTypes`, which stops at the first argument of the wrong type. */
  method ValidateTypes(ct: ClassTable, types: seq<JClass>, args: array<Value>) returns (ok: bool)
    requires args.Length == |types|
    ensures ok == TypesValid(ct, types, args[..])
  {
    var i := 1;
    while i < |types|
      invariant 1 <= i <= |types| || |types| == 0
      invariant forall j :: 1 <= j < i && j < |types| ==> args[j].Null? || IsInstance(ct, types[j], args[j])
    {
      var a := args[i];
      if a.Obj? && !IsInstance(ct, types[i], a) {
        assert !TypesValid(ct, types, args[..]) by { assert args[..][i] == a; }
        return false;
      }
      i := i + 1;
    }
    return true;
  }

  /** The private `invoke`, step by step. */
  method InvokeConsumer(ct: ClassTable, bodies: Bodies, c: BaseConsumer, bus: Registry, wrap: Wrap, event: Value)
    returns (r: Invocation)
    ensures r == InvokeStep(ct, bodies, c, bus.wrappers, wrap, event)
  {
    var paramCount := |c.handler.paramTypes|;
    if paramCount == 1 {
      return Invoke(ct, bodies, c.handler, c.listener, [event]);
    }
    var w := bus.GetWrapper(c.eventType);
    if w.None? {
      return Invocation([], None);
    }
    var extras := wrap(w.value, event);
    if |extras| != paramCount - 1 {
      return Invocation([], None);
    }
    var args := BuildArgs(event, extras);
    var ok := ValidateTypes(ct, c.handler.paramTypes, args);
    if ok {
      r := Invoke(ct, bodies, c.handler, c.listener, args[..]);
    } else {
      r := Invocation([], None);
    }
  }

  /** `accept`. */
  method Accept(ct: ClassTable, bodies: Bodies, c: BaseConsumer, bus: Registry, wrap: Wrap, hooks: Hooks, event: Value)
    returns (r: Accepted)
    ensures r == AcceptSpec(ct, bodies, c, bus.wrappers, wrap, hooks, event)
  {
    var go := hooks.pre(event);
    if go.Err? {
      return Accepted([], false, Some(go.error));
    }
    if !go.value {
      return Accepted([], false, None);
    }
    var inv := InvokeConsumer(ct, bodies, c, bus, wrap, event);
    if inv.thrown.Some? {
      return Accepted(inv.calls, false, Some(HandleException(inv.thrown.value)));
    }
    var post := hooks.post(event);
    if post.Some? {
      return Accepted(inv.calls, true, Some(HandleException(post.value)));
    }
    return Accepted(inv.calls, true, None);
  }
}
