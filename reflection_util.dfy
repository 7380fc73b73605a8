/** `ReflectionUtil`: boxing of primitive class objects. */
module ReflectionUtil {
  import opened JavaModel

  /** `PRIMITIVES`: each of the eight value-carrying primitives and its wrapper class. */
  const Primitives: map<JClass, JClass> := map[
    Prim(Int) := Ref("java.lang.Integer"),
    Prim(Byte) := Ref("java.lang.Byte"),
    Prim(Short) := Ref("java.lang.Short"),
    Prim(Long) := Ref("java.lang.Long"),
    Prim(Boolean) := Ref("java.lang.Boolean"),
    Prim(Float) := Ref("java.lang.Float"),
    Prim(Double) := Ref("java.lang.Double"),
    Prim(Char) := Ref("java.lang.Character")
  ]

  /** `toNonPrimitive`: a reference class is returned as it is, a primitive one is
      looked up in the table (`void.class` is not there: `null`). */
  function ToNonPrimitive(k: JClass): (r: Option<JClass>)
    ensures k.Ref? ==> r == Some(k)
    ensures k.Prim? && k.kind != Void ==> r.Some? && r.value.Ref? && r.value != k
    ensures k == Prim(Void) ==> r == None
  {
    if k.Ref? then Some(k)
    else if k in Primitives then Some(Primitives[k])
    else assert k.kind == Void; None
  }

  /** The box table is injective: distinct primitives get distinct boxes. */
  lemma BoxesDistinct(a: Primitive, b: Primitive)
    requires a != b && a != Void && b != Void
    ensures ToNonPrimitive(Prim(a)) != ToNonPrimitive(Prim(b))
  {
  }

  /** Every defined result is a reference class, so boxing twice is boxing once. */
  lemma ToNonPrimitiveIdempotent(k: JClass)
    requires k != Prim(Void)
    ensures ToNonPrimitive(k).Some?
    ensures ToNonPrimitive(ToNonPrimitive(k).value) == ToNonPrimitive(k)
  {
  }
}
