/** `Method.invoke` as the consumers use it: the checks the JVM makes before the
    handler body runs, and the wrapping of whatever the body throws. */
module Reflect {
  import opened JavaModel
  import opened ReflectionUtil

  /** A handler call that reached the handler body: receiver, method, arguments. */
  datatype Call = Call(receiver: Value, handler: Method, args: seq<Value>)

  /** The handler bodies: what calling `m` on `receiver` with `args` throws, if anything. */
  type Bodies = (Method, Value, seq<Value>) -> Option<Throwable>

  /** Whether `Method.invoke` accepts `v` for a parameter of declared type `t`: a
      reference parameter takes `null` or an instance, a primitive one an instance
      of its box (unboxing; widening conversions are not modelled). */
  predicate Accepts(ct: ClassTable, t: JClass, v: Value)
  {
    if t.Ref? then v.Null? || IsInstance(ct, t, v)
    else ToNonPrimitive(t).Some? && IsInstance(ct, ToNonPrimitive(t).value, v)
  }

  /** Whether `Method.invoke(receiver, args)` gets as far as running the body. The
      JDK also rejects a receiver that is not an instance of the method's declaring
      class; that check is not modelled, since every receiver in the core is the
      subscriber whose own declared methods were listed. */
  predicate Runs(ct: ClassTable, m: Method, receiver: Value, args: seq<Value>)
  {
    && m.accessible
    && receiver.Obj?
    && |args| == |m.paramTypes|
    && forall i :: 0 <= i < |args| ==> Accepts(ct, m.paramTypes[i], args[i])
  }

  /** The calls made and the exception thrown by `m.invoke(receiver, args)`. */
  datatype Invocation = Invocation(calls: seq<Call>, thrown: Option<Throwable>)

  function Invoke(ct: ClassTable, bodies: Bodies, m: Method, receiver: Value, args: seq<Value>): (r: Invocation)
    ensures |r.calls| <= 1
    ensures r.calls != [] <==> Runs(ct, m, receiver, args)
    ensures r.calls != [] ==> r.calls[0] == Call(receiver, m, args)
    ensures r.thrown.Some? && r.calls != [] ==> r.thrown.value.InvocationTargetException?
    ensures r.thrown.None? ==> r.calls != []
    // a body that ran: its exception arrives wrapped as the cause of an
    // `InvocationTargetException`, and a clean body throws nothing
    ensures r.calls != [] ==>
              r.thrown == if bodies(m, receiver, args).Some?
                          then Some(InvocationTargetException(bodies(m, receiver, args).value))
                          else None
    // the checks before the body, in the JDK's order: `obj.getClass()` on the
    // receiver comes before the access check
    ensures receiver.Null? ==> r == Invocation([], Some(NullPointerException))
    ensures receiver.Obj? && !m.accessible ==> r == Invocation([], Some(IllegalAccessException))
    ensures receiver.Obj? && m.accessible && !Runs(ct, m, receiver, args) ==>
              r == Invocation([], Some(IllegalArgumentException))
  {
    if receiver.Null? then Invocation([], Some(NullPointerException))
    else if !m.accessible then Invocation([], Some(IllegalAccessException))
    else if !Runs(ct, m, receiver, args) then Invocation([], Some(IllegalArgumentException))
    else match bodies(m, receiver, args)
      case None => Invocation([Call(receiver, m, args)], None)
      case Some(t) => Invocation([Call(receiver, m, args)], Some(InvocationTargetException(t)))
  }
}
