/** `EventBusImpl`: listener objects per event class, taken from a subscriber's own
    list of listeners. `subscribe` appends, `unsubscribe` removes one occurrence
    per listener, and only a `SubscriberObject` takes part: any other object
    (and `null`) is `NotSubscriber` and is ignored by every operation but `post`. */
module EventBusImpl {
  import opened JavaModel
  import opened PriorityOrder
  import opened Delivery
  import opened ImplListener

  /** What `subscribe` sees of its argument. */
  datatype Target = NotSubscriber | SubscriberObject(listeners: seq<EventListener>)

  type Table = map<JClass, seq<EventListener>>

  /** A class's list, empty when the class has none. */
  function Get(table: Table, t: JClass): seq<EventListener>
  {
    if t in table then table[t] else []
  }

  /** The listeners of `ls` whose event class is `t`, in order. */
  function OfType(ls: seq<EventListener>, t: JClass): seq<EventListener>
  {
    if ls == [] then []
    else (if ls[0].eventType == t then [ls[0]] else []) + OfType(ls[1..], t)
  }

  /** A listener is of type `t` in `ls` exactly when it is in `ls` with event class `t`. */
  lemma {:induction false} OfTypeMembers(ls: seq<EventListener>, t: JClass)
    ensures forall l :: l in OfType(ls, t) <==> l in ls && l.eventType == t
  {
    if ls != [] {
      OfTypeMembers(ls[1..], t);
      assert ls == [ls[0]] + ls[1..];
    }
  }

  /** The `forEach` of `subscribe`, one listener at a time from the front. */
  function AddAll(table: Table, ls: seq<EventListener>): Table
    decreases |ls|
  {
    if ls == [] then table
    else AddAll(table[ls[0].eventType := Get(table, ls[0].eventType) + [ls[0]]], ls[1..])
  }

  /** After the `forEach`, the classes with a list are the old ones and those of the listeners. */
  lemma {:induction false} AddAllKeys(table: Table, ls: seq<EventListener>)
    ensures AddAll(table, ls).Keys == table.Keys + (set l | l in ls :: l.eventType)
    decreases |ls|
  {
    if ls != [] {
      AddAllKeys(table[ls[0].eventType := Get(table, ls[0].eventType) + [ls[0]]], ls[1..]);
      assert ls == [ls[0]] + ls[1..];
      assert (set l | l in ls :: l.eventType) == {ls[0].eventType} + (set l | l in ls[1..] :: l.eventType);
    }
  }

  function SubscribeSpec(table: Table, subscriber: Target): (r: Table)
    ensures subscriber.NotSubscriber? ==> r == table
  {
    match subscriber
      case NotSubscriber => table
      case SubscriberObject(ls) => AddAll(table, ls)
  }

  /** The `forEach` of `unsubscribe`: `remove` the first occurrence from the
      listener's class's list, if that class has a list. */
  function RemoveAll(table: Table, ls: seq<EventListener>): (r: Table)
    ensures r.Keys == table.Keys
    decreases |ls|
  {
    if ls == [] then table
    else
      var t := ls[0].eventType;
      RemoveAll(if t in table then table[t := RemoveFirst(table[t], ls[0])] else table, ls[1..])
  }

  function UnsubscribeSpec(table: Table, subscriber: Target): (r: Table)
    ensures subscriber.NotSubscriber? ==> r == table
  {
    match subscriber
      case NotSubscriber => table
      case SubscriberObject(ls) => RemoveAll(table, ls)
  }

  /** `isSubscribed`: some listener of the subscriber is on its class's list. */
  predicate IsSubscribedIn(table: Table, subscriber: Target)
  {
    subscriber.SubscriberObject? && exists l :: l in subscriber.listeners && l in Get(table, l.eventType)
  }

  /** The generic filter of `post(event, generics)`: no generic type, or the same
      one (`null` matches only a listener without a generic type). */
  function Matches(generics: Option<JClass>): EventListener -> bool
  {
    (l: EventListener) => l.genericType.None? || l.genericType == generics
  }

  class Bus {
    var listeners: Table

    constructor()
      ensures listeners == map[]
    {
      listeners := map[];
    }

    /** `post(event)`: the listeners of the event's exact runtime class, in order. */
    method Post(event: Value, outcome: EventListener -> Option<Throwable>) returns (r: Delivered<EventListener>)
      ensures event.Null? ==> r == Delivered([], Some(NullPointerException))
      ensures event.Obj? ==> r == Deliver(Get(listeners, event.cls), outcome)
    {
      if event.Null? {
        return Delivered([], Some(NullPointerException));
      }
      r := DeliverEach(Get(listeners, event.cls), outcome);
    }

    /** `post(event, generics)`: only the listeners whose generic type matches, in order. */
    method PostGeneric(event: Value, generics: Option<JClass>, outcome: EventListener -> Option<Throwable>)
      returns (r: Delivered<EventListener>)
      ensures event.Null? ==> r == Delivered([], Some(NullPointerException))
      ensures event.Obj? ==> r == Deliver(Filter(Get(listeners, event.cls), Matches(generics)), outcome)
    {
      if event.Null? {
        return Delivered([], Some(NullPointerException));
      }
      var list := Get(listeners, event.cls);
      var matching := [];
      var i := 0;
      while i < |list|
        invariant 0 <= i <= |list|
        invariant Filter(list, Matches(generics)) == matching + Filter(list[i..], Matches(generics))
      {
        assert list[i..] == [list[i]] + list[i + 1..];
        if list[i].genericType.None? || list[i].genericType == generics {
          matching := matching + [list[i]];
        }
        i := i + 1;
      }
      assert list[i..] == [];
      assert Filter(list[i..], Matches(generics)) == [];
      assert Filter(list, Matches(generics)) == matching + [];
      assert matching + [] == matching;
      r := DeliverEach(matching, outcome);
      assert list == Get(listeners, event.cls);
      assert r == Deliver(Filter(list, Matches(generics)), outcome);
    }

    method Subscribe(subscriber: Target)
      modifies this
      ensures listeners == SubscribeSpec(old(listeners), subscriber)
    {
      if subscriber.NotSubscriber? {
        return;
      }
      var ls := subscriber.listeners;
      var i := 0;
      while i < |ls|
        invariant 0 <= i <= |ls|
        invariant AddAll(old(listeners), ls) == AddAll(listeners, ls[i..])
      {
        assert ls[i..][1..] == ls[i + 1..];
        var l := ls[i];
        listeners := listeners[l.eventType := Get(listeners, l.eventType) + [l]];
        i := i + 1;
      }
    }

    method Unsubscribe(subscriber: Target)
      modifies this
      ensures listeners == UnsubscribeSpec(old(listeners), subscriber)
    {
      if subscriber.NotSubscriber? {
        return;
      }
      var ls := subscriber.listeners;
      var i := 0;
      while i < |ls|
        invariant 0 <= i <= |ls|
        invariant RemoveAll(old(listeners), ls) == RemoveAll(listeners, ls[i..])
      {
        assert ls[i..][1..] == ls[i + 1..];
        var l := ls[i];
        if l.eventType in listeners {
          listeners := listeners[l.eventType := RemoveFirst(listeners[l.eventType], l)];
        }
        i := i + 1;
      }
    }

    /** `isSubscribed`: the `anyMatch` over the subscriber's listeners. */
    method IsSubscribed(subscriber: Target) returns (r: bool)
      ensures r <==> IsSubscribedIn(listeners, subscriber)
    {
      if subscriber.NotSubscriber? {
        return false;
      }
      var ls := subscriber.listeners;
      var i := 0;
      while i < |ls|
        invariant 0 <= i <= |ls|
        invariant forall j :: 0 <= j < i ==> ls[j] !in Get(listeners, ls[j].eventType)
      {
        if ls[i] in Get(listeners, ls[i].eventType) {
          return true;
        }
        i := i + 1;
      }
      return false;
    }
  }

  /** `subscribe` only appends: every class's list gains the subscriber's
      listeners of that class at its end, in the subscriber's order, duplicates
      included. */
  lemma AddAllAppends(table: Table, ls: seq<EventListener>)
    ensures forall t :: Get(AddAll(table, ls), t) == Get(table, t) + OfType(ls, t)
  {
    forall t ensures Get(AddAll(table, ls), t) == Get(table, t) + OfType(ls, t) {
      AddAllAppendsAt(table, ls, t);
    }
  }

  /** `AddAllAppends` for one class. */
  lemma {:induction false} AddAllAppendsAt(table: Table, ls: seq<EventListener>, t: JClass)
    ensures Get(AddAll(table, ls), t) == Get(table, t) + OfType(ls, t)
    decreases |ls|
  {
    if ls != [] {
      var l := ls[0];
      var next := table[l.eventType := Get(table, l.eventType) + [l]];
      assert AddAll(table, ls) == AddAll(next, ls[1..]);
      AddAllAppendsAt(next, ls[1..], t);
      var head := if l.eventType == t then [l] else [];
      var rest := OfType(ls[1..], t);
      assert Get(next, t) == Get(table, t) + head;
      assert OfType(ls, t) == head + rest;
      assert Get(table, t) + head + rest == Get(table, t) + (head + rest);
    }
  }

  /** Removing each of `xs` in turn, one occurrence each. */
  function RemoveEach(s: seq<EventListener>, xs: seq<EventListener>): seq<EventListener>
    decreases |xs|
  {
    if xs == [] then s else RemoveEach(RemoveFirst(s, xs[0]), xs[1..])
  }

  /** `unsubscribe` removes, from every class's list, one occurrence of each of
      the subscriber's listeners of that class; lists of other classes stay. */
  lemma RemoveAllRemoves(table: Table, ls: seq<EventListener>)
    ensures forall t :: Get(RemoveAll(table, ls), t) == RemoveEach(Get(table, t), OfType(ls, t))
  {
    forall t ensures Get(RemoveAll(table, ls), t) == RemoveEach(Get(table, t), OfType(ls, t)) {
      RemoveAllRemovesAt(table, ls, t);
    }
  }

  /** `RemoveAllRemoves` for one class. */
  lemma {:induction false} RemoveAllRemovesAt(table: Table, ls: seq<EventListener>, t: JClass)
    ensures Get(RemoveAll(table, ls), t) == RemoveEach(Get(table, t), OfType(ls, t))
    decreases |ls|
  {
    if ls != [] {
      var l := ls[0];
      var next := if l.eventType in table then table[l.eventType := RemoveFirst(table[l.eventType], l)] else table;
      RemoveAllRemovesAt(next, ls[1..], t);
      assert RemoveAll(table, ls) == RemoveAll(next, ls[1..]);
      var rest := OfType(ls[1..], t);
      if l.eventType == t {
        assert Get(next, t) == RemoveFirst(Get(table, t), l);
        assert OfType(ls, t) == [l] + rest;
        assert ([l] + rest)[1..] == rest;
      } else {
        assert Get(next, t) == Get(table, t);
        assert OfType(ls, t) == rest;
      }
    }
  }

  /** Removing, one occurrence each, distinct listeners that were appended after
      a list that held none of them gives back the list. */
  lemma {:induction false} RemoveEachAppended(a: seq<EventListener>, xs: seq<EventListener>)
    requires forall i, j :: 0 <= i < j < |xs| ==> xs[i] != xs[j]
    requires forall x :: x in xs ==> x !in a
    ensures RemoveEach(a + xs, xs) == a
    decreases |xs|
  {
    if xs != [] {
      RemoveFirstOfSplice(a, xs[1..], xs[0]);
      assert a + xs == a + [xs[0]] + xs[1..];
      forall x | x in xs[1..] ensures x !in a { assert x in xs; }
      forall i, j | 0 <= i < j < |xs[1..]| ensures xs[1..][i] != xs[1..][j] {
        assert xs[1..][i] == xs[i + 1] && xs[1..][j] == xs[j + 1];
      }
      RemoveEachAppended(a, xs[1..]);
    }
  }

  /** Filtering keeps distinct elements distinct. */
  lemma {:induction false} OfTypeDistinct(ls: seq<EventListener>, t: JClass)
    requires forall i, j :: 0 <= i < j < |ls| ==> ls[i] != ls[j]
    ensures forall i, j :: 0 <= i < j < |OfType(ls, t)| ==> OfType(ls, t)[i] != OfType(ls, t)[j]
  {
    if ls != [] {
      forall i, j | 0 <= i < j < |ls[1..]| ensures ls[1..][i] != ls[1..][j] {
        assert ls[1..][i] == ls[i + 1] && ls[1..][j] == ls[j + 1];
      }
      OfTypeDistinct(ls[1..], t);
      if ls[0].eventType == t {
        OfTypeMembers(ls[1..], t);
        forall x | x in ls[1..] ensures x != ls[0] {
          var k :| 0 <= k < |ls[1..]| && ls[1..][k] == x;
          assert ls[k + 1] == x;
        }
      }
    }
  }

  /** Round trip: subscribing an object whose listeners are distinct and on no
      list, then unsubscribing it, gives back every list; a class that had no
      list keeps an empty one. */
  lemma SubscribeThenUnsubscribe(table: Table, ls: seq<EventListener>)
    requires forall i, j :: 0 <= i < j < |ls| ==> ls[i] != ls[j]
    requires forall l :: l in ls ==> l !in Get(table, l.eventType)
    ensures var r := UnsubscribeSpec(SubscribeSpec(table, SubscriberObject(ls)), SubscriberObject(ls));
            && r.Keys == table.Keys + (set l | l in ls :: l.eventType)
            && forall t :: Get(r, t) == Get(table, t)
  {
    var s := AddAll(table, ls);
    AddAllKeys(table, ls);
    AddAllAppends(table, ls);
    RemoveAllRemoves(s, ls);
    forall t ensures Get(RemoveAll(s, ls), t) == Get(table, t) {
      OfTypeDistinct(ls, t);
      OfTypeMembers(ls, t);
      RemoveEachAppended(Get(table, t), OfType(ls, t));
    }
  }

  /** A subscribed object with at least one listener is reported subscribed. */
  lemma SubscribedAfterSubscribe(table: Table, ls: seq<EventListener>)
    requires ls != []
    ensures IsSubscribedIn(SubscribeSpec(table, SubscriberObject(ls)), SubscriberObject(ls))
  {
    AddAllAppends(table, ls);
    var l := ls[0];
    OfTypeMembers(ls, l.eventType);
    assert l in OfType(ls, l.eventType);
    assert l in Get(AddAll(table, ls), l.eventType);
  }

  /** After the round trip, an object whose listeners were on no list is no
      longer reported subscribed. */
  lemma NotSubscribedAfterRoundTrip(table: Table, ls: seq<EventListener>)
    requires forall i, j :: 0 <= i < j < |ls| ==> ls[i] != ls[j]
    requires forall l :: l in ls ==> l !in Get(table, l.eventType)
    ensures !IsSubscribedIn(UnsubscribeSpec(SubscribeSpec(table, SubscriberObject(ls)), SubscriberObject(ls)), SubscriberObject(ls))
  {
    SubscribeThenUnsubscribe(table, ls);
  }

  /** With no listener of the class carrying a generic type, the generic `post`
      reaches the same listeners as the plain one. */
  lemma GenericPostWithoutGenerics(list: seq<EventListener>, generics: Option<JClass>)
    requires forall i :: 0 <= i < |list| ==> list[i].genericType.None?
    ensures Filter(list, Matches(generics)) == list
  {
    FilterKeepsAll(list, Matches(generics));
  }
}
