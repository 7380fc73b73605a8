/** The consumer objects of the reflective `src` bus: `EventConsumerImpl` (one
    parameter, the event), `BiEventConsumer` (the event and one value its wrapper
    extracts, matched by exact class) and `MultiEventConsumer` (the event and
    several extracted values, matched by boxed instance checks). The lambda each
    constructor builds with `LambdaMetafactory` calls the handler directly, so a
    handler's exception reaches the caller unwrapped. */
module SrcConsumers {
  import opened JavaModel
  import opened ReflectionUtil
  import opened Reflect

  /** A consumer object. `ref` is its identity; the three variants are its three
      runtime classes. `extraType` (the field `type`) is the second declared parameter type of a
      `BiEventConsumer`, `types` the declared parameter types after the event of a
      `MultiEventConsumer`; `wrapper` names the event wrapper they were given. */
  datatype EventConsumer =
    | Single(ref: nat, instance: Value, handler: Method, priority: Int32)
    | Bi(ref: nat, instance: Value, handler: Method, priority: Int32, extraType: JClass, wrapper: nat)
    | Multi(ref: nat, instance: Value, handler: Method, priority: Int32, types: seq<JClass>, wrapper: nat)

  /** `EventWrapper.invoke` of the wrapper a `BiEventConsumer` holds: one value. */
  type BiWrap = (nat, Value) -> Value

  /** The array wrapper a `MultiEventConsumer` holds: the extracted values. */
  type MultiWrap = (nat, Value) -> seq<Value>

  /** The constructors. Building the lambda needs a one-parameter handler for
      `EventConsumerImpl` and a two-parameter one for `BiEventConsumer`; for
      `MultiEventConsumer` more than two parameters skip the lambda, fewer than two
      make its lookup fail. A failed lookup surfaces as an `IllegalStateException`
      carrying the lookup error's message, `reason`. */
  function NewSingle(ref: nat, instance: Value, handler: Method, priority: Int32, reason: string): (r: Result<EventConsumer>)
    ensures r.Ok? <==> |handler.paramTypes| == 1
    ensures r.Err? ==> r.error == IllegalStateException(reason)
    ensures r.Ok? ==> r.value.Single? && r.value.ref == ref && r.value.instance == instance
                      && r.value.handler == handler && r.value.priority == priority
  {
    if |handler.paramTypes| == 1 then Ok(Single(ref, instance, handler, priority))
    else Err(IllegalStateException(reason))
  }

  function NewBi(ref: nat, instance: Value, handler: Method, priority: Int32, wrapper: nat, reason: string): (r: Result<EventConsumer>)
    ensures r.Ok? <==> |handler.paramTypes| == 2
    ensures r.Err? ==> r.error == IllegalStateException(reason)
    ensures r.Ok? ==> r.value.Bi? && r.value.ref == ref && r.value.instance == instance
                      && r.value.handler == handler && r.value.priority == priority
                      && r.value.extraType == handler.paramTypes[1] && r.value.wrapper == wrapper
  {
    if |handler.paramTypes| == 2 then Ok(Bi(ref, instance, handler, priority, handler.paramTypes[1], wrapper))
    else Err(IllegalStateException(reason))
  }

  function NewMulti(ref: nat, instance: Value, handler: Method, priority: Int32, wrapper: nat, reason: string): (r: Result<EventConsumer>)
    ensures r.Ok? <==> |handler.paramTypes| >= 2
    ensures r.Err? ==> r.error == IllegalStateException(reason)
    ensures r.Ok? ==> r.value.Multi? && r.value.ref == ref && r.value.instance == instance
                      && r.value.handler == handler && r.value.priority == priority
                      && |r.value.types| == |handler.paramTypes| - 1
                      && (forall i :: 0 <= i < |r.value.types| ==> r.value.types[i] == handler.paramTypes[i + 1])
                      && r.value.wrapper == wrapper
  {
    if |handler.paramTypes| >= 2 then Ok(Multi(ref, instance, handler, priority, handler.paramTypes[1..], wrapper))
    else Err(IllegalStateException(reason))
  }

  /** `EventConsumerImpl.invoke`: the handler is called once with the event, and
      what it throws is thrown as it is. */
  function InvokeSingle(bodies: Bodies, c: EventConsumer, event: Value): (r: Invocation)
    requires c.Single?
    ensures r.calls == [Call(c.instance, c.handler, [event])]
    ensures r.thrown == bodies(c.handler, c.instance, [event])
  {
    Invocation([Call(c.instance, c.handler, [event])], bodies(c.handler, c.instance, [event]))
  }

  /** `BiEventConsumer.invoke`: the wrapper is asked once; a `null` value fails on
      `getClass()`, a value whose class is not exactly `extraType` (a subclass included)
      is skipped, and otherwise the handler gets the event and the value. */
  function InvokeBi(bodies: Bodies, wrap: BiWrap, c: EventConsumer, event: Value): (r: Invocation)
    requires c.Bi?
    ensures r.calls != [] <==> wrap(c.wrapper, event).Obj? && wrap(c.wrapper, event).cls == c.extraType
    ensures r.calls != [] ==> r.calls == [Call(c.instance, c.handler, [event, wrap(c.wrapper, event)])]
                              && r.thrown == bodies(c.handler, c.instance, [event, wrap(c.wrapper, event)])
    ensures wrap(c.wrapper, event).Null? ==> r.thrown == Some(NullPointerException)
    ensures wrap(c.wrapper, event).Obj? && r.calls == [] ==> r.thrown.None?
  {
    var extra := wrap(c.wrapper, event);
    if extra.Null? then Invocation([], Some(NullPointerException))
    else if extra.cls != c.extraType then Invocation([], None)
    else Invocation([Call(c.instance, c.handler, [event, extra])], bodies(c.handler, c.instance, [event, extra]))
  }

  /** A subclass instance is not delivered to a `BiEventConsumer`, although
      `Method.invoke` would accept it for that parameter. */
  lemma BiSkipsSubclass(ct: ClassTable, bodies: Bodies, wrap: BiWrap, c: EventConsumer, event: Value)
    requires c.Bi? && c.extraType.Ref?
    requires wrap(c.wrapper, event).Obj? && wrap(c.wrapper, event).cls != c.extraType
    requires IsInstance(ct, c.extraType, wrap(c.wrapper, event))
    ensures InvokeBi(bodies, wrap, c, event) == Invocation([], None)
    ensures Accepts(ct, c.extraType, wrap(c.wrapper, event))
  {
  }

  /** `add(a, o)`: a new array with `o` in front of the elements of `a`. */
  function Add(a: seq<Value>, o: Value): (r: seq<Value>)
    ensures |r| == |a| + 1 && r[0] == o
    ensures forall i :: 0 <= i < |a| ==> r[i + 1] == a[i]
  {
    [o] + a
  }

  /** The outcome of the type checks of `MultiEventConsumer.invoke`. */
  datatype Check = Pass | Skip | Fail(error: Throwable)

  /** The checks from index `i` on: the first extra whose boxed type rejects it
      ends the call silently; `void` boxes to `null`, and `isInstance` on `null`
      throws. */
  function CheckFrom(ct: ClassTable, types: seq<JClass>, extras: seq<Value>, i: nat): (r: Check)
    requires |types| == |extras| && i <= |types|
    ensures r.Pass? <==> forall j :: i <= j < |types| ==>
              ToNonPrimitive(types[j]).Some? && IsInstance(ct, ToNonPrimitive(types[j]).value, extras[j])
    ensures r.Fail? ==> r.error == NullPointerException
    decreases |types| - i
  {
    if i == |types| then Pass
    else match ToNonPrimitive(types[i])
      case None => Fail(NullPointerException)
      case Some(b) => if !IsInstance(ct, b, extras[i]) then Skip else CheckFrom(ct, types, extras, i + 1)
  }

  /** `new RuntimeException(e)`: the message is the wrapped exception's class name
      (the detail message of an access error is not modelled). */
  function Rewrap(t: Throwable): (r: Throwable)
    ensures r.RuntimeException? && r.cause == t
  {
    match t
    case IllegalAccessException => RuntimeException("java.lang.IllegalAccessException", t)
    case _ => RuntimeException("java.lang.reflect.InvocationTargetException", t)
  }

  /** `MultiEventConsumer.invoke`, as a specification: checks, then the direct
      two-argument lambda for one extra, otherwise `Method.invoke` with
      `add(extra, event)`, whose access and target errors are rewrapped. */
  function MultiOutcome(ct: ClassTable, bodies: Bodies, wrap: MultiWrap, c: EventConsumer, event: Value): (r: Invocation)
    requires c.Multi?
    ensures var extras := wrap(c.wrapper, event);
            |extras| != |c.types| ==> r == Invocation([], None)
    ensures var extras := wrap(c.wrapper, event);
            r.calls != [] ==> |extras| == |c.types|
                              && CheckFrom(ct, c.types, extras, 0).Pass?
                              && r.calls == [Call(c.instance, c.handler, [event] + extras)]
    ensures var extras := wrap(c.wrapper, event);
            |extras| == |c.types| && |extras| == 1 && CheckFrom(ct, c.types, extras, 0).Pass? ==>
              r == Invocation([Call(c.instance, c.handler, [event, extras[0]])],
                              bodies(c.handler, c.instance, [event, extras[0]]))
    ensures var extras := wrap(c.wrapper, event);
            |extras| == |c.types| && |extras| != 1 && CheckFrom(ct, c.types, extras, 0).Pass? ==>
              r.calls == Invoke(ct, bodies, c.handler, c.instance, Add(extras, event)).calls
              && (r.thrown.Some? ==> r.thrown.value.RuntimeException? || r.thrown.value.IllegalArgumentException?
                                     || r.thrown.value.NullPointerException?)
    // a body that ran and threw surfaces as `new RuntimeException(ite)` around its exception
    ensures var extras := wrap(c.wrapper, event);
            |extras| == |c.types| && |extras| != 1 && CheckFrom(ct, c.types, extras, 0).Pass? && r.calls != [] ==>
              r.thrown == if bodies(c.handler, c.instance, Add(extras, event)).Some?
                          then Some(Rewrap(InvocationTargetException(bodies(c.handler, c.instance, Add(extras, event)).value)))
                          else None
  {
    var extras := wrap(c.wrapper, event);
    if |extras| != |c.types| then Invocation([], None)
    else match CheckFrom(ct, c.types, extras, 0)
      case Fail(e) => Invocation([], Some(e))
      case Skip => Invocation([], None)
      case Pass =>
        if |extras| == 1 then
          assert [event, extras[0]] == [event] + extras;
          Invocation([Call(c.instance, c.handler, [event, extras[0]])], bodies(c.handler, c.instance, [event, extras[0]]))
        else
          var inv := Invoke(ct, bodies, c.handler, c.instance, Add(extras, event));
          match inv.thrown
          case Some(t) =>
            if t.IllegalAccessException? || t.InvocationTargetException? then Invocation(inv.calls, Some(Rewrap(t)))
            else Invocation(inv.calls, inv.thrown)
          case None => inv
  }

  /** A `null` extra is never delivered: it fails `isInstance`, unlike in the
      consumers of the newer API. */
  lemma MultiSkipsNull(ct: ClassTable, bodies: Bodies, wrap: MultiWrap, c: EventConsumer, event: Value, i: nat)
    requires c.Multi? && i < |wrap(c.wrapper, event)| && wrap(c.wrapper, event)[i].Null?
    ensures MultiOutcome(ct, bodies, wrap, c, event).calls == []
  {
    var extras := wrap(c.wrapper, event);
    if |extras| == |c.types| {
      assert !IsInstance(ct, if ToNonPrimitive(c.types[i]).Some? then ToNonPrimitive(c.types[i]).value else c.types[i], extras[i]);
      assert !CheckFrom(ct, c.types, extras, 0).Pass?;
    }
  }

  /** `MultiEventConsumer.invoke`, as the loop it is. */
  method InvokeMulti(ct: ClassTable, bodies: Bodies, wrap: MultiWrap, c: EventConsumer, event: Value) returns (r: Invocation)
    requires c.Multi?
    ensures r == MultiOutcome(ct, bodies, wrap, c, event)
  {
    var extra := wrap(c.wrapper, event);
    if |extra| != |c.types| {
      return Invocation([], None);
    }
    var i := 0;
    while i < |extra|
      invariant 0 <= i <= |extra|
      invariant CheckFrom(ct, c.types, extra, 0) == CheckFrom(ct, c.types, extra, i)
    {
      var boxed := ToNonPrimitive(c.types[i]);
      if boxed.None? {
        return Invocation([], Some(NullPointerException));
      }
      if !IsInstance(ct, boxed.value, extra[i]) {
        return Invocation([], None);
      }
      i := i + 1;
    }
    if |extra| == 1 {
      r := Invocation([Call(c.instance, c.handler, [event, extra[0]])], bodies(c.handler, c.instance, [event, extra[0]]));
    } else {
      var args := Add(extra, event);
      r := Invoke(ct, bodies, c.handler, c.instance, args);
      if r.thrown.Some? && (r.thrown.value.IllegalAccessException? || r.thrown.value.InvocationTargetException?) {
        r := Invocation(r.calls, Some(Rewrap(r.thrown.value)));
      }
    }
  }

  /** The shared `equals` of the three classes: the same object; otherwise not
      `null`, the same runtime class, and equal instances (identity) and equal
      methods. A `null` instance makes `getInstance().equals` throw. */
  function Equals(a: EventConsumer, b: Option<EventConsumer>): (r: Result<bool>)
    ensures b == Some(a) ==> r == Ok(true)
    ensures b.None? ==> r == Ok(false)
    ensures b.Some? && b.value.ref != a.ref ==>
              (r == Ok(true) <==> a.instance.Obj? && SameClass(a, b.value)
                                  && a.instance == b.value.instance && SameMethod(a.handler, b.value.handler))
    ensures r.Err? ==> r.error == NullPointerException && a.instance.Null?
  {
    match b
    case None => Ok(false)
    case Some(o) =>
      if o.ref == a.ref then Ok(true)
      else if !SameClass(a, o) then Ok(false)
      else if a.instance.Null? then Err(NullPointerException)
      else Ok(a.instance == o.instance && SameMethod(a.handler, o.handler))
  }

  /** `getClass() == obj.getClass()`. */
  predicate SameClass(a: EventConsumer, b: EventConsumer)
  {
    (a.Single? && b.Single?) || (a.Bi? && b.Bi?) || (a.Multi? && b.Multi?)
  }

  /** A heap in which one identity names one object. */
  predicate Consistent(a: EventConsumer, b: EventConsumer)
  {
    a.ref == b.ref ==> a == b
  }

  /** `equals` is symmetric between consumers with non-null instances. */
  lemma EqualsSymmetric(a: EventConsumer, b: EventConsumer)
    requires Consistent(a, b) && a.instance.Obj? && b.instance.Obj?
    ensures Equals(a, Some(b)) == Equals(b, Some(a))
  {
  }

  /** `String.hashCode`: `31 * h + c` over the code units, in `int` arithmetic. */
  function StringHash(s: string): Int32
  {
    if s == [] then 0 else Wrap32(31 * StringHash(s[..|s| - 1]) + s[|s| - 1] as int)
  }

  function ToBits(x: Int32): bv32
  {
    (if x < 0 then x + 0x1_0000_0000 else x) as bv32
  }

  function FromBits(b: bv32): Int32
  {
    var u := b as int;
    if u >= 0x8000_0000 then u - 0x1_0000_0000 else u
  }

  /** `Method.hashCode`: the declaring class name's hash xor the method name's. */
  function MethodHash(owner: string, name: string): Int32
  {
    FromBits(ToBits(StringHash(owner)) ^ ToBits(StringHash(name)))
  }

  /** `Objects.hash(getInstance(), getMethod())`: `31 * (31 + h(instance)) + h(method)`,
      where `null` hashes to 0 and `hashOf` is the instance's own `hashCode`. */
  function HashCode(c: EventConsumer, hashOf: Value -> Int32): Int32
  {
    Wrap32(31 * (31 + (if c.instance.Null? then 0 else hashOf(c.instance))) + MethodHash(c.handler.owner, c.handler.name))
  }

  /** The hash reads nothing but the instance and the method's class and name. */
  lemma SameFieldsSameHash(a: EventConsumer, b: EventConsumer, hashOf: Value -> Int32)
    requires a.instance == b.instance
    requires a.handler.owner == b.handler.owner && a.handler.name == b.handler.name
    ensures HashCode(a, hashOf) == HashCode(b, hashOf)
  {
    var ha := MethodHash(a.handler.owner, a.handler.name);
    assert ha == MethodHash(b.handler.owner, b.handler.name);
  }

  /** `hashCode` is consistent with `equals`: equal consumers hash alike. */
  lemma EqualsThenSameHash(a: EventConsumer, b: EventConsumer, hashOf: Value -> Int32)
    requires Consistent(a, b)
    requires Equals(a, Some(b)) == Ok(true)
    ensures HashCode(a, hashOf) == HashCode(b, hashOf)
  {
    if a.ref != b.ref {
      assert a.instance == b.instance;
      assert a.handler.owner == b.handler.owner && a.handler.name == b.handler.name;
      SameFieldsSameHash(a, b, hashOf);
    }
  }
}
