/** Handler discovery shared by the reflective buses: a subscriber's class is given
    as its declared methods, each with its annotation types in declaration order,
    and a method is a handler when one of its annotations has a registered
    listener factory. */
module Annotations {
  import opened JavaModel

  /** An annotation type, by its name. */
  type Annotation = string

  /** A declared method and its annotations, in declaration order. */
  datatype Declared = Declared(handler: Method, annotations: seq<Annotation>)

  /** The position of the first annotation that has a factory: the `findFirst` of
      `subscribe`, or the annotation at which its `for` loop breaks. */
  function FirstRegistered<F>(anns: seq<Annotation>, factories: map<Annotation, F>): (k: nat)
    ensures k <= |anns|
    ensures forall i :: 0 <= i < k ==> anns[i] !in factories
    ensures k < |anns| ==> anns[k] in factories
  {
    if anns == [] || anns[0] in factories then 0 else 1 + FirstRegistered(anns[1..], factories)
  }

  /** Some annotation of `d` has a registered factory (the `anyMatch`). */
  predicate Listens<F>(d: Declared, factories: map<Annotation, F>)
  {
    FirstRegistered(d.annotations, factories) < |d.annotations|
  }

  /** The factory of the first registered annotation. */
  function FactoryOf<F>(d: Declared, factories: map<Annotation, F>): F
    requires Listens(d, factories)
  {
    factories[d.annotations[FirstRegistered(d.annotations, factories)]]
  }
}
