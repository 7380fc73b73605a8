/** `Builder` of rokit-core: the provider slots handed to the generated bus, indexed
    by provider id, with `null` in every slot no provider was given for. */
module ProviderBuilder {
  import opened JavaModel

  /** A `Supplier` passed to `withProvider`, known by identity. */
  datatype Supplier = Supplier(id: nat)

  /** The slot list after `withProvider(id, s)` succeeds: padded with `null` up to
      length `id + 1`, then slot `id` set to `s`. */
  function Placed(ps: seq<Option<Supplier>>, id: nat, s: Supplier): (r: seq<Option<Supplier>>)
    ensures |r| == if |ps| < id + 1 then id + 1 else |ps|
    ensures r[id] == Some(s)
    ensures forall i :: 0 <= i < |ps| && i != id ==> r[i] == ps[i]
    ensures forall i :: |ps| <= i < |r| && i != id ==> r[i] == None
  {
    var padded := if |ps| < id + 1 then ps + seq(id + 1 - |ps|, _ => None) else ps;
    padded[id := Some(s)]
  }

  /** A later call with the same id overwrites the slot. */
  lemma PlacedOverwrites(ps: seq<Option<Supplier>>, id: nat, s1: Supplier, s2: Supplier)
    ensures Placed(Placed(ps, id, s1), id, s2) == Placed(ps, id, s2)
  {
    var a := Placed(Placed(ps, id, s1), id, s2);
    var b := Placed(ps, id, s2);
    assert |a| == |b|;
    forall i | 0 <= i < |a| ensures a[i] == b[i] {
    }
  }

  /** Calls for different ids do not disturb each other. */
  lemma PlacedKeepsOthers(ps: seq<Option<Supplier>>, i: nat, j: nat, a: Supplier, b: Supplier)
    requires i != j
    ensures Placed(Placed(ps, i, a), j, b)[i] == Some(a)
    ensures Placed(Placed(ps, i, a), j, b)[j] == Some(b)
  {
  }

  class Builder {
    /** `providers`: an `ArrayList`, so never longer than the largest `int`. */
    var providers: seq<Option<Supplier>>

    ghost predicate Valid()
      reads this
    {
      |providers| <= IntMaxValue
    }

    constructor ()
      ensures Valid() && providers == []
    {
      providers := [];
    }

    /** `withProvider`: pad with `null` while the list is shorter than `providerId + 1`
        (an `int` sum, which wraps for the largest id), then `set` the slot. The
        `set` fails for a negative id and for the largest `int`, leaving the list
        as it was. */
    method WithProvider(providerId: Int32, s: Supplier) returns (r: Builder, thrown: Option<Throwable>)
      requires Valid()
      modifies this
      ensures Valid() && r == this
      ensures thrown.Some? <==> providerId < 0 || providerId == IntMaxValue
      ensures thrown.Some? ==> thrown == Some(IndexOutOfBoundsException) && providers == old(providers)
      ensures thrown.None? ==> providers == Placed(old(providers), providerId, s)
    {
      var bound := if providerId == IntMaxValue then IntMinValue else providerId + 1;
      while |providers| < bound
        invariant |old(providers)| <= |providers| <= IntMaxValue
        invariant |providers| <= bound || providers == old(providers)
        invariant providers == old(providers) + seq(|providers| - |old(providers)|, _ => None)
        decreases bound - |providers|
      {
        providers := providers + [None];
      }
      if providerId < 0 || providerId >= |providers| {
        return this, Some(IndexOutOfBoundsException);
      }
      providers := providers[providerId := Some(s)];
      return this, None;
    }

    /** `build`: the slots in index order (`providers.toArray()`). */
    method Build() returns (slots: seq<Option<Supplier>>)
      ensures slots == providers
    {
      slots := providers;
    }
  }
}
