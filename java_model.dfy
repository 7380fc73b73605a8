/** The slice of the Java runtime that the event buses rely on: optional values,
    32- and 64-bit integers, class objects with an assignability relation, runtime
    objects, and the exceptions the core throws or forwards. */
module JavaModel {

  datatype Option<T> = None | Some(value: T)

  /** Java `int`: priorities are full-range 32-bit values. */
  type Int32 = x: int | -0x8000_0000 <= x < 0x8000_0000

  const IntMaxValue: Int32 := 0x7fff_ffff
  const IntMinValue: Int32 := -0x8000_0000

  /** The nine primitive class objects (`int.class`, ..., `void.class`). */
  datatype Primitive = Boolean | Byte | Char | Short | Int | Long | Float | Double | Void

  /** A class object: a primitive one, or a reference type named by its binary name. */
  datatype JClass = Prim(kind: Primitive) | Ref(name: string)

  /** A runtime value: `null`, or an object with an identity and a runtime class.
      The type admits a primitive class there; no operation of the model builds
      one, and `IsInstance` holds for no such object. */
  datatype Value = Null | Obj(id: nat, cls: JClass)

  /** The subtype relation of the loaded classes: `supers[c]` holds every proper
      supertype (classes and interfaces) of reference class `c`. */
  datatype ClassTable = ClassTable(supers: map<string, set<string>>)

  /** `target.isAssignableFrom(source)`. */
  predicate AssignableFrom(ct: ClassTable, target: JClass, source: JClass)
  {
    target == source
    || (target.Ref? && source.Ref? && source.name in ct.supers
        && target.name in ct.supers[source.name])
  }

  /** `t.isInstance(v)`: false for `null` and for every primitive class object. */
  predicate IsInstance(ct: ClassTable, t: JClass, v: Value)
  {
    v.Obj? && t.Ref? && AssignableFrom(ct, t, v.cls)
  }

  /** The exceptions that the modelled code throws, wraps or forwards. */
  datatype Throwable =
    | HandlerFault(code: nat)                        // anything a handler or hook body throws
    | InvocationTargetException(cause: Throwable)    // Method.invoke wrapping a handler's throw
    | IllegalAccessException
    | IllegalArgumentException
    | NullPointerException
    | IndexOutOfBoundsException
    | IllegalStateException(message: string)
    | RuntimeException(message: string, cause: Throwable)

  /** A call that returns a value or throws. */
  datatype Result<T> = Ok(value: T) | Err(error: Throwable)

  /** A reflective `java.lang.reflect.Method`: declaring class, name, declared
      parameter types, and whether reflection may call it without an access error. */
  datatype Method = Method(owner: string, name: string, paramTypes: seq<JClass>, accessible: bool)

  /** `Method.equals`: same declaring class, name and parameter types (the access
      flag set by `setAccessible` is not part of a method's identity). */
  predicate SameMethod(a: Method, b: Method)
  {
    a.owner == b.owner && a.name == b.name && a.paramTypes == b.paramTypes
  }

  /** Java `int` arithmetic: the value modulo 2^32, read as two's complement. */
  function Wrap32(x: int): (r: Int32)
    ensures (r - x) % 0x1_0000_0000 == 0
  {
    (x + 0x8000_0000) % 0x1_0000_0000 - 0x8000_0000
  }
}
