/** `EventRegistry` of rokit-core: one slot per catalogued event type, each holding a
    backing list of consumers and the array snapshot that `post` walks. */
module EventRegistry {
  import opened JavaModel
  import opened PriorityOrder
  import opened Delivery

  /** An `EventConsumer` as the registry sees it. `ref` is the object's identity:
      the consumers that reach the registry do not override `equals`, so two of them
      are equal exactly when they are the same object. */
  datatype Consumer = Consumer(ref: nat, instance: Value, priority: Int32, eventType: JClass)

  function Priority(c: Consumer): int { c.priority }

  /** A registered `EventWrapper`, known by identity; what it extracts from an event
      is supplied where it is applied. */
  datatype Wrapper = Wrapper(id: nat)

  class Registry {
    /** Number of catalogued event types (`REGISTRY.eventTypes().length`). */
    const n: nat
    /** `REGISTRY.getEventId`: the catalogued classes and their ids. */
    const catalog: map<JClass, nat>
    /** `listenerLists`: the backing list of each slot. */
    const lists: array<seq<Consumer>>
    /** `listenerArrays`: the published snapshot of each slot; a published array is
        never written again, so each slot holds its contents as a value. */
    const snapshots: array<seq<Consumer>>
    /** `wrappers`: the wrapper table, filled once by the builder. */
    var wrappers: map<JClass, Wrapper>

    ghost predicate Valid()
      reads this, lists, snapshots
    {
      && lists.Length == n && snapshots.Length == n && lists != snapshots
      && (forall t :: t in catalog ==> catalog[t] < n)
      && (forall i :: 0 <= i < n ==> snapshots[i] == lists[i])
      && (forall i :: 0 <= i < n ==> NonIncreasing(lists[i], Priority))
    }

    /** `getEventId`: the catalogued id, or -1 for a class outside the catalog. */
    function EventId(t: JClass): (id: int)
      ensures id == -1 || (t in catalog && id == catalog[t])
      ensures t in catalog <==> id >= 0
    {
      if t in catalog then catalog[t] else -1
    }

    /** The constructor: every slot starts with an empty list and an empty array. */
    constructor (n: nat, catalog: map<JClass, nat>)
      requires forall t :: t in catalog ==> catalog[t] < n
      ensures Valid() && fresh(lists) && fresh(snapshots)
      ensures this.n == n && this.catalog == catalog && wrappers == map[]
      ensures forall i :: 0 <= i < n ==> lists[i] == [] && snapshots[i] == []
    {
      this.n := n;
      this.catalog := catalog;
      var ls := new seq<Consumer>[n];
      var arrs := new seq<Consumer>[n];
      var i := 0;
      while i < n
        invariant 0 <= i <= n
        invariant forall j :: 0 <= j < i ==> ls[j] == [] && arrs[j] == []
      {
        ls[i] := [];
        arrs[i] := [];
        i := i + 1;
      }
      lists := ls;
      snapshots := arrs;
      wrappers := map[];
    }

    /** The array `post` walks for an event of runtime class `t`. */
    ghost function SnapshotFor(t: JClass): seq<Consumer>
      reads this, lists, snapshots
      requires Valid()
    {
      if EventId(t) >= 0 then snapshots[EventId(t)] else []
    }

    /** `post`: resolve the id of the event's runtime class and call `accept` on each
        consumer of the current array in order; `outcome(c)` is what `c.accept(event)`
        throws. A `null` event fails on `getClass()` before anything is called. */
    method Post(event: Value, outcome: Consumer -> Option<Throwable>) returns (r: Delivered<Consumer>)
      requires Valid()
      ensures event.Null? ==> r == Delivered([], Some(NullPointerException))
      ensures event.Obj? ==> r == Deliver(SnapshotFor(event.cls), outcome)
    {
      if event.Null? {
        return Delivered([], Some(NullPointerException));
      }
      var id := EventId(event.cls);
      if id < 0 {
        return Delivered([], None);
      }
      r := DeliverEach(snapshots[id], outcome);
    }

    /** `internalRegister`: append to the slot's list, re-sort it stably by descending
        priority and publish it as the slot's new array; a class outside the catalog
        changes nothing. */
    method InternalRegister(t: JClass, c: Consumer)
      requires Valid()
      modifies lists, snapshots
      ensures Valid()
      ensures EventId(t) < 0 ==> unchanged(lists, snapshots)
      ensures EventId(t) >= 0 ==> lists[EventId(t)] == StableSortDesc(old(lists[EventId(t)]) + [c], Priority)
      ensures forall j :: 0 <= j < n && j != EventId(t) ==> lists[j] == old(lists[j]) && snapshots[j] == old(snapshots[j])
    {
      var id := EventId(t);
      if id >= 0 {
        var list := lists[id] + [c];
        list := StableSortDesc(list, Priority);
        AppendThenSort(lists[id], c, Priority);
        lists[id] := list;
        snapshots[id] := list;
      }
    }

    /** `internalUnregister`: remove the first consumer equal to `c` from the slot's
        list and, only if one was removed, republish the array. */
    method InternalUnregister(t: JClass, c: Consumer)
      requires Valid()
      modifies lists, snapshots
      ensures Valid()
      ensures EventId(t) < 0 ==> unchanged(lists, snapshots)
      ensures EventId(t) >= 0 ==> lists[EventId(t)] == RemoveFirst(old(lists[EventId(t)]), c)
      ensures EventId(t) >= 0 && c !in old(lists[EventId(t)]) ==> unchanged(lists, snapshots)
      ensures forall j :: 0 <= j < n && j != EventId(t) ==> lists[j] == old(lists[j]) && snapshots[j] == old(snapshots[j])
    {
      var id := EventId(t);
      if id >= 0 {
        var list := lists[id];
        RemoveFirstShape(list, c);
        RemoveFirstSorted(list, c, Priority);
        if c in list {
          lists[id] := RemoveFirst(list, c);
          snapshots[id] := lists[id];
        }
      }
    }

    /** `getWrapper`: the wrapper registered for `t`, or `null`. */
    function GetWrapper(t: JClass): (w: Option<Wrapper>)
      reads this
      ensures w.Some? <==> t in wrappers
      ensures w.Some? ==> w.value == wrappers[t]
    {
      if t in wrappers then Some(wrappers[t]) else None
    }
  }

  /** Registering in a sorted slot grows it by exactly one, keeps it sorted, and puts
      the newcomer after every consumer of equal or higher priority and before every
      lower one (ties are oldest-first). */
  lemma RegisterPlacement(s: seq<Consumer>, c: Consumer)
    requires NonIncreasing(s, Priority)
    ensures var r := StableSortDesc(s + [c], Priority);
      && |r| == |s| + 1
      && NonIncreasing(r, Priority)
      && multiset(r) == multiset(s) + multiset{c}
      && exists k :: (0 <= k <= |s| && r == s[..k] + [c] + s[k..]
           && (forall i :: 0 <= i < k ==> s[i].priority >= c.priority)
           && (forall i :: k <= i < |s| ==> s[i].priority < c.priority))
  {
    var r := StableSortDesc(s + [c], Priority);
    AppendThenSort(s, c, Priority);
    StableSortDescCorrect(s + [c], Priority);
    var k := TiesEnd(s, Priority(c), Priority);
    assert r == s[..k] + [c] + s[k..];
    forall i | k <= i < |s| ensures s[i].priority < c.priority {
      assert Priority(s[k]) < Priority(c);
      assert i == k || Priority(s[k]) >= Priority(s[i]);
    }
  }

  /** Unregistering removes only the first equal consumer: one element fewer and the
      rest in their old order; an absent consumer leaves the slot as it was. */
  lemma UnregisterShape(s: seq<Consumer>, c: Consumer)
    ensures c in s ==> exists i :: (0 <= i < |s| && s[i] == c && c !in s[..i]
      && RemoveFirst(s, c) == s[..i] + s[i + 1..] && |RemoveFirst(s, c)| == |s| - 1)
    ensures c !in s ==> RemoveFirst(s, c) == s
  {
    RemoveFirstShape(s, c);
    if c in s {
      var i := FirstIndex(s, c);
      assert c !in s[..i] by { assert forall j :: 0 <= j < i ==> s[..i][j] == s[j]; }
    }
  }

  /** Registering a consumer the slot does not hold and then unregistering it
      restores the slot's previous list. */
  lemma RegisterThenUnregister(s: seq<Consumer>, c: Consumer)
    requires NonIncreasing(s, Priority)
    requires c !in s
    ensures RemoveFirst(StableSortDesc(s + [c], Priority), c) == s
  {
    InsertThenRemove(s, c, Priority);
  }
}
