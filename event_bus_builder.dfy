/** `EventBusBuilder` of rokit-core: a builder that collects the wrapper table and
    builds the bus. The bus itself is an `EventRegistry`: its `post`, `subscribe`,
    `unsubscribe` and `isSubscribed` only call the registry's own, so the
    `Registry` class stands for it. */
module EventBusBuilder {
  import opened JavaModel
  import opened EventRegistry

  /** `EventBusBuilder.Builder`. */
  class Builder {
    /** `wrappers`: both `EventWrapper`s and `SingleEventWrapper`s go into this one map. */
    var wrappers: map<JClass, Wrapper>

    /** `builder()`. */
    constructor ()
      ensures wrappers == map[]
    {
      wrappers := map[];
    }

    /** `wrap`: store `w` under `t`, replacing any earlier entry, and return this builder. */
    method Wrap(t: JClass, w: Wrapper) returns (r: Builder)
      modifies this
      ensures r == this
      ensures wrappers == old(wrappers)[t := w]
    {
      wrappers := wrappers[t := w];
      r := this;
    }

    /** `wrapSingle`: the same map as `wrap`, so the two override each other. */
    method WrapSingle(t: JClass, w: Wrapper) returns (r: Builder)
      modifies this
      ensures r == this
      ensures wrappers == old(wrappers)[t := w]
    {
      wrappers := wrappers[t := w];
      r := this;
    }

    /** `build`: a new bus with empty slots whose wrapper table holds exactly the
        builder's entries (`putAll` into the new bus's empty map). */
    method Build(n: nat, catalog: map<JClass, nat>) returns (bus: Registry)
      requires forall t :: t in catalog ==> catalog[t] < n
      ensures fresh(bus) && fresh(bus.lists) && fresh(bus.snapshots)
      ensures bus.Valid() && bus.n == n && bus.catalog == catalog
      ensures bus.wrappers == wrappers
      ensures forall i :: 0 <= i < n ==> bus.lists[i] == [] && bus.snapshots[i] == []
    {
      bus := new Registry(n, catalog);
      bus.wrappers := bus.wrappers + wrappers;
    }
  }

  /** The table after a series of `wrap`/`wrapSingle` calls: each type maps to the
      wrapper of its last call. */
  function Table(calls: seq<(JClass, Wrapper)>): (m: map<JClass, Wrapper>)
    ensures forall t :: t in m <==> exists i :: 0 <= i < |calls| && calls[i].0 == t
  {
    if calls == [] then map[]
    else Table(calls[..|calls| - 1])[calls[|calls| - 1].0 := calls[|calls| - 1].1]
  }

  /** The last call for a type wins, whatever came before it. */
  lemma {:induction false} LastCallWins(calls: seq<(JClass, Wrapper)>, i: nat)
    requires i < |calls|
    requires forall j :: i < j < |calls| ==> calls[j].0 != calls[i].0
    ensures Table(calls)[calls[i].0] == calls[i].1
  {
    if i < |calls| - 1 {
      LastCallWins(calls[..|calls| - 1], i);
    }
  }

  /** Building after a series of calls: the bus's `getWrapper` answers from that
      table, and `null` for a type no call mentioned. */
  method BuildAfter(calls: seq<(JClass, Wrapper)>, n: nat, catalog: map<JClass, nat>) returns (bus: Registry)
    requires forall t :: t in catalog ==> catalog[t] < n
    ensures bus.Valid()
    ensures forall t :: bus.GetWrapper(t) == (if t in Table(calls) then Some(Table(calls)[t]) else None)
  {
    var b := new Builder();
    var i := 0;
    while i < |calls|
      invariant 0 <= i <= |calls|
      invariant b.wrappers == Table(calls[..i])
    {
      assert calls[..i + 1][..i] == calls[..i];
      var _ := b.Wrap(calls[i].0, calls[i].1);
      i := i + 1;
    }
    assert calls[..i] == calls;
    bus := b.Build(n, catalog);
  }
}
