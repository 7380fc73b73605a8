/** The reflective `EventBus` of the original library: consumers are kept per exact
    event class in lists of non-increasing priority, replaced wholesale on every
    change; a subscriber's handler methods are the declared methods carrying an
    annotation that has a registered listener factory. Reflection over the
    subscriber's class is a parameter: `declared` lists its declared methods with
    their annotations, in the order `getDeclaredMethods` reports them. */
module SrcEventBus {
  import opened JavaModel
  import opened PriorityOrder
  import opened Delivery
  import opened SrcConsumers
  import opened Annotations

  /** A listener factory: subscriber and method to a new consumer. */
  type Factory = (Value, Method) -> EventConsumer

  function Prio(c: EventConsumer): int { c.priority }

  /** The two tables of a bus: consumers per event class, event classes per subscriber. */
  datatype BusState = BusState(listeners: map<JClass, seq<EventConsumer>>, subscriptions: map<Value, set<JClass>>)

  /** The state after an operation, and the exception it ended with, if any. */
  datatype Step = Step(state: BusState, thrown: Option<Throwable>)

  const Empty: BusState := BusState(map[], map[])

  /** Every list is in non-increasing priority order. */
  ghost predicate Sorted(st: BusState)
  {
    forall t :: t in st.listeners ==> NonIncreasing(st.listeners[t], Prio)
  }

  /** `getListeningMethods`: the declared methods with a registered annotation, in
      order (the parameter-count filter is commented out in this class). */
  function ListeningMethods(ms: seq<Declared>, factories: map<Annotation, Factory>): (r: seq<Declared>)
    ensures |r| <= |ms|
    ensures forall i :: 0 <= i < |r| ==> Listens(r[i], factories)
    ensures forall d :: d in r <==> d in ms && Listens(d, factories)
  {
    if ms == [] then []
    else if Listens(ms[0], factories) then [ms[0]] + ListeningMethods(ms[1..], factories)
    else ListeningMethods(ms[1..], factories)
  }

  /** The `compute` of `subscribe`: a new list `[l]`, or the old list with `l`
      appended and stably re-sorted by descending priority. */
  function AddConsumer(listeners: map<JClass, seq<EventConsumer>>, t: JClass, l: EventConsumer): (r: map<JClass, seq<EventConsumer>>)
    ensures t in r
    ensures t !in listeners ==> r[t] == [l]
    ensures t in listeners ==> multiset(r[t]) == multiset(listeners[t]) + multiset{l}
    ensures t in listeners && NonIncreasing(listeners[t], Prio) ==>
              var k := TiesEnd(listeners[t], l.priority, Prio);
              r[t] == listeners[t][..k] + [l] + listeners[t][k..]
    ensures NonIncreasing(r[t], Prio)
    ensures forall u :: u != t ==> (u in r <==> u in listeners) && (u in listeners ==> r[u] == listeners[u])
  {
    if t in listeners then
      AppendSorted(listeners[t], l);
      listeners[t := StableSortDesc(listeners[t] + [l], Prio)]
    else listeners[t := [l]]
  }

  /** The stable sort after an append: a sorted permutation, and on a sorted list
      the newcomer lands after every consumer of equal or higher priority. */
  lemma AppendSorted(s: seq<EventConsumer>, l: EventConsumer)
    ensures multiset(StableSortDesc(s + [l], Prio)) == multiset(s) + multiset{l}
    ensures NonIncreasing(StableSortDesc(s + [l], Prio), Prio)
    ensures NonIncreasing(s, Prio) ==>
              var k := TiesEnd(s, l.priority, Prio);
              StableSortDesc(s + [l], Prio) == s[..k] + [l] + s[k..]
  {
    StableSortDescCorrect(s + [l], Prio);
    if NonIncreasing(s, Prio) {
      AppendThenSort(s, l, Prio);
    }
  }

  /** One handler method of `subscribe`: its first parameter type is the event
      class (a method without parameters fails here), the first registered
      annotation's factory makes the consumer, and the class is recorded under the
      subscriber. */
  function SubscribeOne(st: BusState, factories: map<Annotation, Factory>, subscriber: Value, d: Declared): Step
    requires Listens(d, factories)
  {
    if |d.handler.paramTypes| == 0 then Step(st, Some(IndexOutOfBoundsException))
    else
      var t := d.handler.paramTypes[0];
      var l := FactoryOf(d, factories)(subscriber, d.handler);
      var classes := if subscriber in st.subscriptions then st.subscriptions[subscriber] else {};
      Step(BusState(AddConsumer(st.listeners, t, l), st.subscriptions[subscriber := classes + {t}]), None)
  }

  /** The handler methods in order; the first failure ends the loop, leaving the
      changes made so far in place. */
  function SubscribeAll(st: BusState, factories: map<Annotation, Factory>, subscriber: Value, ms: seq<Declared>): Step
    requires forall i :: 0 <= i < |ms| ==> Listens(ms[i], factories)
  {
    if ms == [] then Step(st, None)
    else
      var prev := SubscribeAll(st, factories, subscriber, ms[..|ms| - 1]);
      if prev.thrown.Some? then prev else SubscribeOne(prev.state, factories, subscriber, ms[|ms| - 1])
  }

  /** `subscribe`'s loop after one more method. */
  lemma SubscribeAllSnoc(st: BusState, factories: map<Annotation, Factory>, subscriber: Value, ms: seq<Declared>, i: nat)
    requires forall j :: 0 <= j < |ms| ==> Listens(ms[j], factories)
    requires i < |ms|
    ensures var prev := SubscribeAll(st, factories, subscriber, ms[..i]);
            SubscribeAll(st, factories, subscriber, ms[..i + 1])
            == if prev.thrown.Some? then prev else SubscribeOne(prev.state, factories, subscriber, ms[i])
  {
    assert ms[..i + 1][..i] == ms[..i];
    assert ms[..i + 1][i] == ms[i];
  }

  /** Once a step has thrown, the later methods are not visited. */
  lemma {:induction false} SubscribeAllStops(st: BusState, factories: map<Annotation, Factory>, subscriber: Value, ms: seq<Declared>, k: nat)
    requires forall i :: 0 <= i < |ms| ==> Listens(ms[i], factories)
    requires k <= |ms| && SubscribeAll(st, factories, subscriber, ms[..k]).thrown.Some?
    ensures SubscribeAll(st, factories, subscriber, ms) == SubscribeAll(st, factories, subscriber, ms[..k])
    decreases |ms| - k
  {
    if k < |ms| {
      var init := ms[..|ms| - 1];
      assert init[..k] == ms[..k];
      SubscribeAllStops(st, factories, subscriber, init, k);
    } else {
      assert ms[..k] == ms;
    }
  }

  /** `subscribe`: `null` fails on `getClass()`. There is no already-subscribed check. */
  function SubscribeSpec(st: BusState, factories: map<Annotation, Factory>, subscriber: Value, declared: seq<Declared>): Step
  {
    if subscriber.Null? then Step(st, Some(NullPointerException))
    else SubscribeAll(st, factories, subscriber, ListeningMethods(declared, factories))
  }

  /** The condition `unsubscribe` filters by: the consumer's instance is not the
      subscriber. */
  function OtherThan(subscriber: Value): EventConsumer -> bool
  {
    (c: EventConsumer) => c.instance != subscriber
  }

  /** The `filter` of `unsubscribe`: the consumers whose instance is not the
      subscriber, in order; a consumer with a `null` instance makes
      `getInstance().equals` throw. */
  function Without(list: seq<EventConsumer>, subscriber: Value): (r: Result<seq<EventConsumer>>)
    ensures r.Err? <==> exists i :: 0 <= i < |list| && list[i].instance.Null?
    ensures r.Err? ==> r.error == NullPointerException
    ensures r.Ok? ==> forall c :: c in r.value <==> c in list && c.instance != subscriber
    ensures r.Ok? ==> r.value == Filter(list, OtherThan(subscriber))
  {
    if list == [] then Ok([])
    else if list[0].instance.Null? then Err(NullPointerException)
    else match Without(list[1..], subscriber)
      case Err(e) =>
        assert exists i :: 0 <= i < |list| && list[i].instance.Null? by {
          var i :| 0 <= i < |list[1..]| && list[1..][i].instance.Null?;
          assert list[i + 1] == list[1..][i];
        }
        Err(e)
      case Ok(rest) =>
        assert list == [list[0]] + list[1..];
        Ok(if list[0].instance == subscriber then rest else [list[0]] + rest)
  }

  /** Filtering never brings in a priority above a bound of the whole list. */
  lemma {:induction false} WithoutBounded(list: seq<EventConsumer>, subscriber: Value, p: int)
    requires forall i :: 0 <= i < |list| ==> Prio(list[i]) <= p
    requires Without(list, subscriber).Ok?
    ensures forall j :: 0 <= j < |Without(list, subscriber).value| ==> Prio(Without(list, subscriber).value[j]) <= p
  {
    if list != [] {
      WithoutBounded(list[1..], subscriber, p);
    }
  }

  /** Filtering keeps the remaining consumers in their order, so a sorted list
      stays sorted. */
  lemma {:induction false} WithoutSorted(list: seq<EventConsumer>, subscriber: Value)
    requires NonIncreasing(list, Prio) && Without(list, subscriber).Ok?
    ensures NonIncreasing(Without(list, subscriber).value, Prio)
  {
    if list != [] {
      var tail := list[1..];
      assert NonIncreasing(tail, Prio);
      WithoutSorted(tail, subscriber);
      if list[0].instance != subscriber {
        assert forall i :: 0 <= i < |tail| ==> Prio(tail[i]) <= Prio(list[0]) by {
          forall i | 0 <= i < |tail| ensures Prio(tail[i]) <= Prio(list[0]) {
            assert tail[i] == list[i + 1];
          }
        }
        WithoutBounded(tail, subscriber, Prio(list[0]));
        ConsSorted(list[0], Without(tail, subscriber).value, Prio);
      }
    }
  }

  /** The `computeIfPresent` of one handler method of `unsubscribe`. */
  function UnsubscribeOne(listeners: map<JClass, seq<EventConsumer>>, subscriber: Value, d: Declared): (r: Result<map<JClass, seq<EventConsumer>>>)
    ensures r.Ok? ==> r.value.Keys == listeners.Keys
    ensures r.Ok? ==> forall u :: u in listeners && (|d.handler.paramTypes| == 0 || u != d.handler.paramTypes[0])
                                 ==> r.value[u] == listeners[u]
  {
    if |d.handler.paramTypes| == 0 then Err(IndexOutOfBoundsException)
    else
      var t := d.handler.paramTypes[0];
      if t !in listeners then Ok(listeners)
      else match Without(listeners[t], subscriber)
        case Err(e) => Err(e)
        case Ok(kept) => Ok(listeners[t := kept])
  }

  /** The handler methods in order; the first failure ends the loop. */
  function UnsubscribeAll(listeners: map<JClass, seq<EventConsumer>>, subscriber: Value, ms: seq<Declared>)
    : (r: (map<JClass, seq<EventConsumer>>, Option<Throwable>))
  {
    if ms == [] then (listeners, None)
    else
      var prev := UnsubscribeAll(listeners, subscriber, ms[..|ms| - 1]);
      if prev.1.Some? then prev
      else match UnsubscribeOne(prev.0, subscriber, ms[|ms| - 1])
        case Err(e) => (prev.0, Some(e))
        case Ok(m) => (m, None)
  }

  /** `unsubscribe`'s loop after one more method, while no step has thrown. */
  lemma UnsubscribeAllSnoc(listeners: map<JClass, seq<EventConsumer>>, subscriber: Value, ms: seq<Declared>, i: nat)
    requires i < |ms| && UnsubscribeAll(listeners, subscriber, ms[..i]).1.None?
    ensures var prev := UnsubscribeAll(listeners, subscriber, ms[..i]).0;
            UnsubscribeAll(listeners, subscriber, ms[..i + 1])
            == match UnsubscribeOne(prev, subscriber, ms[i])
               case Err(e) => (prev, Some(e))
               case Ok(m) => (m, None)
  {
    assert ms[..i + 1][..i] == ms[..i];
    assert ms[..i + 1][i] == ms[i];
  }

  lemma {:induction false} UnsubscribeAllStops(listeners: map<JClass, seq<EventConsumer>>, subscriber: Value, ms: seq<Declared>, k: nat)
    requires k <= |ms| && UnsubscribeAll(listeners, subscriber, ms[..k]).1.Some?
    ensures UnsubscribeAll(listeners, subscriber, ms) == UnsubscribeAll(listeners, subscriber, ms[..k])
    decreases |ms| - k
  {
    if k < |ms| {
      var init := ms[..|ms| - 1];
      assert init[..k] == ms[..k];
      UnsubscribeAllStops(listeners, subscriber, init, k);
    } else {
      assert ms[..k] == ms;
    }
  }

  /** `unsubscribe`: `null` fails on `getClass()`; after the lists, the
      subscription record is removed. */
  function UnsubscribeSpec(st: BusState, factories: map<Annotation, Factory>, subscriber: Value, declared: seq<Declared>): Step
  {
    if subscriber.Null? then Step(st, Some(NullPointerException))
    else
      var r := UnsubscribeAll(st.listeners, subscriber, ListeningMethods(declared, factories));
      if r.1.Some? then Step(BusState(r.0, st.subscriptions), r.1)
      else Step(BusState(r.0, st.subscriptions - {subscriber}), None)
  }

  /** `isSubscribed`: key presence; the concurrent map rejects a `null` key. */
  function IsSubscribedIn(st: BusState, subscriber: Value): (r: Result<bool>)
    ensures subscriber.Null? <==> r.Err?
    ensures r.Ok? ==> (r.value <==> subscriber in st.subscriptions)
  {
    if subscriber.Null? then Err(NullPointerException) else Ok(subscriber in st.subscriptions)
  }

  class Bus {
    var listeners: map<JClass, seq<EventConsumer>>
    var subscriptions: map<Value, set<JClass>>
    const factories: map<Annotation, Factory>

    function State(): BusState
      reads this
    {
      BusState(listeners, subscriptions)
    }

    /** The private constructor `build` calls: a copy of the factories, empty tables. */
    constructor(factories: map<Annotation, Factory>)
      ensures this.factories == factories && State() == Empty
    {
      this.factories := factories;
      listeners := map[];
      subscriptions := map[];
    }

    /** `post`: the consumers registered under the event's exact runtime class, in
        list order; an unknown class reaches nobody. */
    method Post(event: Value, outcome: EventConsumer -> Option<Throwable>) returns (r: Delivered<EventConsumer>)
      ensures event.Null? ==> r == Delivered([], Some(NullPointerException))
      ensures event.Obj? && event.cls !in listeners ==> r == Delivered([], None)
      ensures event.Obj? && event.cls in listeners ==> r == Deliver(listeners[event.cls], outcome)
    {
      if event.Null? {
        return Delivered([], Some(NullPointerException));
      }
      var list := if event.cls in listeners then listeners[event.cls] else [];
      r := DeliverEach(list, outcome);
    }

    method Subscribe(subscriber: Value, declared: seq<Declared>) returns (thrown: Option<Throwable>)
      modifies this
      ensures Step(State(), thrown) == SubscribeSpec(old(State()), factories, subscriber, declared)
    {
      if subscriber.Null? {
        return Some(NullPointerException);
      }
      var ms := ListeningMethods(declared, factories);
      var i := 0;
      while i < |ms|
        invariant 0 <= i <= |ms|
        invariant SubscribeAll(old(State()), factories, subscriber, ms[..i]) == Step(State(), None)
      {
        SubscribeAllSnoc(old(State()), factories, subscriber, ms, i);
        var d := ms[i];
        if |d.handler.paramTypes| == 0 {
          SubscribeAllStops(old(State()), factories, subscriber, ms, i + 1);
          return Some(IndexOutOfBoundsException);
        }
        var t := d.handler.paramTypes[0];
        var factory := FactoryOf(d, factories);
        var l := factory(subscriber, d.handler);
        listeners := AddConsumer(listeners, t, l);
        var classes := if subscriber in subscriptions then subscriptions[subscriber] else {};
        subscriptions := subscriptions[subscriber := classes + {t}];
        i := i + 1;
      }
      assert ms[..i] == ms;
      return None;
    }

    method Unsubscribe(subscriber: Value, declared: seq<Declared>) returns (thrown: Option<Throwable>)
      modifies this
      ensures Step(State(), thrown) == UnsubscribeSpec(old(State()), factories, subscriber, declared)
    {
      if subscriber.Null? {
        return Some(NullPointerException);
      }
      var ms := ListeningMethods(declared, factories);
      ghost var start := listeners;
      var i := 0;
      while i < |ms|
        invariant 0 <= i <= |ms|
        invariant subscriptions == old(subscriptions) && start == old(listeners)
        invariant UnsubscribeAll(start, subscriber, ms[..i]) == (listeners, None)
      {
        UnsubscribeAllSnoc(start, subscriber, ms, i);
        var step := UnsubscribeOne(listeners, subscriber, ms[i]);
        if step.Err? {
          UnsubscribeAllStops(start, subscriber, ms, i + 1);
          return Some(step.error);
        }
        listeners := step.value;
        i := i + 1;
      }
      assert ms[..i] == ms;
      subscriptions := subscriptions - {subscriber};
      assert UnsubscribeSpec(old(State()), factories, subscriber, declared) == Step(State(), None);
      return None;
    }

    function IsSubscribed(subscriber: Value): (r: Result<bool>)
      reads this
      ensures r == IsSubscribedIn(State(), subscriber)
    {
      if subscriber.Null? then Err(NullPointerException) else Ok(subscriber in subscriptions)
    }
  }

  /** `EventBus.Builder`: the listener factories by annotation type. */
  class Builder {
    var factories: map<Annotation, Factory>

    /** The constructor maps `Listener` to the default factory, which is a
        parameter here. */
    constructor(listenerAnnotation: Annotation, defaultFactory: Factory)
      ensures factories == map[listenerAnnotation := defaultFactory]
    {
      var initial: map<Annotation, Factory> := map[listenerAnnotation := defaultFactory];
      factories := initial;
    }

    /** `registerListenerFactory`: `put`, replacing any factory for that type. */
    method RegisterListenerFactory(annotationType: Annotation, factory: Factory) returns (self: Builder)
      modifies this
      ensures factories == old(factories)[annotationType := factory]
      ensures self == this
    {
      factories := factories[annotationType := factory];
      return this;
    }

    /** `build`: a new bus with a copy of the whole factory table and empty tables. */
    method Build() returns (bus: Bus)
      ensures fresh(bus) && bus.factories == factories && bus.State() == Empty
    {
      bus := new Bus(factories);
    }
  }

  /** Every step of `subscribe` keeps every list sorted. */
  lemma {:induction false} SubscribeAllSorted(st: BusState, factories: map<Annotation, Factory>, subscriber: Value, ms: seq<Declared>)
    requires forall i :: 0 <= i < |ms| ==> Listens(ms[i], factories)
    requires Sorted(st)
    ensures Sorted(SubscribeAll(st, factories, subscriber, ms).state)
  {
    if ms != [] {
      SubscribeAllSorted(st, factories, subscriber, ms[..|ms| - 1]);
    }
  }

  /** After `subscribe`, each list is in non-increasing priority order. */
  lemma SubscribeKeepsSorted(st: BusState, factories: map<Annotation, Factory>, subscriber: Value, declared: seq<Declared>)
    requires Sorted(st)
    ensures Sorted(SubscribeSpec(st, factories, subscriber, declared).state)
  {
    if subscriber.Obj? {
      SubscribeAllSorted(st, factories, subscriber, ListeningMethods(declared, factories));
    }
  }

  /** Every step of `unsubscribe` keeps every list sorted. */
  lemma {:induction false} UnsubscribeAllSorted(listeners: map<JClass, seq<EventConsumer>>, subscriber: Value, ms: seq<Declared>)
    requires Sorted(BusState(listeners, map[]))
    ensures Sorted(BusState(UnsubscribeAll(listeners, subscriber, ms).0, map[]))
  {
    if ms != [] {
      UnsubscribeAllSorted(listeners, subscriber, ms[..|ms| - 1]);
      var prev := UnsubscribeAll(listeners, subscriber, ms[..|ms| - 1]);
      var d := ms[|ms| - 1];
      if prev.1.None? && |d.handler.paramTypes| > 0 && d.handler.paramTypes[0] in prev.0 {
        var t := d.handler.paramTypes[0];
        if Without(prev.0[t], subscriber).Ok? {
          WithoutSorted(prev.0[t], subscriber);
        }
      }
    }
  }

  /** After `unsubscribe`, each list is still in non-increasing priority order. */
  lemma UnsubscribeKeepsSorted(st: BusState, factories: map<Annotation, Factory>, subscriber: Value, declared: seq<Declared>)
    requires Sorted(st)
    ensures Sorted(UnsubscribeSpec(st, factories, subscriber, declared).state)
  {
    assert Sorted(BusState(st.listeners, map[]));
    if subscriber.Obj? {
      UnsubscribeAllSorted(st.listeners, subscriber, ListeningMethods(declared, factories));
    }
  }

  /** A completed `subscribe` that bound at least one method leaves the
      subscriber subscribed, with every bound method's event class recorded. */
  lemma {:induction false} SubscribeAllRecords(st: BusState, factories: map<Annotation, Factory>, subscriber: Value, ms: seq<Declared>)
    requires forall i :: 0 <= i < |ms| ==> Listens(ms[i], factories)
    requires SubscribeAll(st, factories, subscriber, ms).thrown.None?
    ensures var s := SubscribeAll(st, factories, subscriber, ms).state;
            && (forall i :: 0 <= i < |ms| ==> |ms[i].handler.paramTypes| > 0)
            && (ms != [] ==> subscriber in s.subscriptions)
            && (forall i :: 0 <= i < |ms| ==> ms[i].handler.paramTypes[0] in s.subscriptions[subscriber])
  {
    if ms != [] {
      var init := ms[..|ms| - 1];
      SubscribeAllRecords(st, factories, subscriber, init);
      var prev := SubscribeAll(st, factories, subscriber, init);
      forall i | 0 <= i < |ms| - 1 ensures ms[i] == init[i] { }
    }
  }

  /** `isSubscribed` is true after a `subscribe` that bound at least one method,
      and false after an `unsubscribe` that completed. */
  lemma SubscribedIffBound(st: BusState, factories: map<Annotation, Factory>, subscriber: Value, declared: seq<Declared>)
    requires subscriber.Obj?
    ensures var s := SubscribeSpec(st, factories, subscriber, declared);
            s.thrown.None? && ListeningMethods(declared, factories) != [] ==> IsSubscribedIn(s.state, subscriber) == Ok(true)
    ensures var u := UnsubscribeSpec(st, factories, subscriber, declared);
            u.thrown.None? ==> IsSubscribedIn(u.state, subscriber) == Ok(false)
  {
    var ms := ListeningMethods(declared, factories);
    if SubscribeSpec(st, factories, subscriber, declared).thrown.None? {
      SubscribeAllRecords(st, factories, subscriber, ms);
    }
  }

  /** A subscriber's consumers for the classes of `ms`, after the `unsubscribe`
      steps for `ms` completed, are all gone; the keys stay the same. */
  lemma {:induction false} UnsubscribeAllRemoves(listeners: map<JClass, seq<EventConsumer>>, subscriber: Value, ms: seq<Declared>)
    requires UnsubscribeAll(listeners, subscriber, ms).1.None?
    ensures var m := UnsubscribeAll(listeners, subscriber, ms).0;
            && m.Keys == listeners.Keys
            && (forall i :: 0 <= i < |ms| ==> |ms[i].handler.paramTypes| > 0)
            && (forall i, c: EventConsumer ::
                  (0 <= i < |ms| && ms[i].handler.paramTypes[0] in m && c in m[ms[i].handler.paramTypes[0]])
                  ==> c.instance != subscriber)
  {
    if ms != [] {
      var init := ms[..|ms| - 1];
      UnsubscribeAllRemoves(listeners, subscriber, init);
      var prev := UnsubscribeAll(listeners, subscriber, init);
      var d := ms[|ms| - 1];
      var next := UnsubscribeOne(prev.0, subscriber, d);
      assert next.Ok?;
      var m := next.value;
      forall i, c: EventConsumer | 0 <= i < |ms| && ms[i].handler.paramTypes[0] in m && c in m[ms[i].handler.paramTypes[0]]
        ensures c.instance != subscriber
      {
        var t := ms[i].handler.paramTypes[0];
        if t == d.handler.paramTypes[0] {
          assert m[t] == Without(prev.0[t], subscriber).value;
        } else {
          assert ms[i] == init[i];
        }
      }
    }
  }

  /** A completed `unsubscribe` drops every consumer of the subscriber from the
      lists of its handler methods' classes, keeps the others, and removes its
      subscription record. */
  lemma UnsubscribeRemovesAll(st: BusState, factories: map<Annotation, Factory>, subscriber: Value, declared: seq<Declared>)
    requires subscriber.Obj?
    requires UnsubscribeSpec(st, factories, subscriber, declared).thrown.None?
    ensures var s := UnsubscribeSpec(st, factories, subscriber, declared).state;
            && s.listeners.Keys == st.listeners.Keys
            && subscriber !in s.subscriptions
            && (forall d, c: EventConsumer :: d in declared && Listens(d, factories) && |d.handler.paramTypes| > 0
                 && d.handler.paramTypes[0] in s.listeners && c in s.listeners[d.handler.paramTypes[0]]
                 ==> c.instance != subscriber)
            && (forall t :: t in s.listeners && t in HandledClasses(ListeningMethods(declared, factories))
                 ==> s.listeners[t] == Filter(st.listeners[t], OtherThan(subscriber)))
            && (forall t :: t in s.listeners && t !in HandledClasses(ListeningMethods(declared, factories))
                 ==> s.listeners[t] == st.listeners[t])
  {
    var ms := ListeningMethods(declared, factories);
    UnsubscribeAllRemoves(st.listeners, subscriber, ms);
    UnsubscribeAllFilters(st.listeners, subscriber, ms);
    var s := UnsubscribeSpec(st, factories, subscriber, declared).state;
    forall d, c: EventConsumer | d in declared && Listens(d, factories) && |d.handler.paramTypes| > 0
                 && d.handler.paramTypes[0] in s.listeners && c in s.listeners[d.handler.paramTypes[0]]
      ensures c.instance != subscriber
    {
      assert d in ms;
      var i :| 0 <= i < |ms| && ms[i] == d;
    }
  }

  /** The event classes of the handler methods of `ms` that have a parameter. */
  function HandledClasses(ms: seq<Declared>): set<JClass>
  {
    if ms == [] then {}
    else
      var d := ms[|ms| - 1];
      HandledClasses(ms[..|ms| - 1]) + (if |d.handler.paramTypes| > 0 then {d.handler.paramTypes[0]} else {})
  }

  /** A completed `unsubscribe` loop filters the list of each handler method's
      class once, keeping the other consumers in order with all their copies,
      and leaves every other list as it was. */
  lemma {:induction false} UnsubscribeAllFilters(listeners: map<JClass, seq<EventConsumer>>, subscriber: Value, ms: seq<Declared>)
    requires UnsubscribeAll(listeners, subscriber, ms).1.None?
    ensures var m := UnsubscribeAll(listeners, subscriber, ms).0;
            && m.Keys == listeners.Keys
            && forall t :: t in m ==>
                 m[t] == if t in HandledClasses(ms) then Filter(listeners[t], OtherThan(subscriber)) else listeners[t]
  {
    if ms != [] {
      var init := ms[..|ms| - 1];
      var prev := UnsubscribeAll(listeners, subscriber, init);
      assert prev.1.None?;
      UnsubscribeAllFilters(listeners, subscriber, init);
      var d := ms[|ms| - 1];
      var next := UnsubscribeOne(prev.0, subscriber, d);
      assert next.Ok? && UnsubscribeAll(listeners, subscriber, ms).0 == next.value;
      var t := d.handler.paramTypes[0];
      assert HandledClasses(ms) == HandledClasses(init) + {t};
      if t in prev.0 && t in HandledClasses(init) {
        var once := Filter(listeners[t], OtherThan(subscriber));
        FilterFilter(listeners[t], OtherThan(subscriber), OtherThan(subscriber), OtherThan(subscriber));
        assert next.value[t] == Filter(once, OtherThan(subscriber));
      }
    }
  }

  /** No already-subscribed check: subscribing the same object twice with one
      handler method puts its consumer into the list twice. */
  lemma SubscribeTwiceDuplicates(st: BusState, factories: map<Annotation, Factory>, subscriber: Value, d: Declared)
    requires subscriber.Obj? && Listens(d, factories) && |d.handler.paramTypes| > 0
    ensures var t := d.handler.paramTypes[0];
            var l := FactoryOf(d, factories)(subscriber, d.handler);
            var once := SubscribeSpec(st, factories, subscriber, [d]);
            var twice := SubscribeSpec(once.state, factories, subscriber, [d]);
            && twice.thrown.None?
            && t in twice.state.listeners
            && multiset(twice.state.listeners[t])
               == (if t in st.listeners then multiset(st.listeners[t]) else multiset{}) + multiset{l, l}
  {
    assert ListeningMethods([d], factories) == [d];
    assert [d][..0] == [];
    assert SubscribeAll(st, factories, subscriber, [d]) == SubscribeOne(st, factories, subscriber, d);
    var once := SubscribeSpec(st, factories, subscriber, [d]);
    assert once == SubscribeOne(st, factories, subscriber, d);
    assert SubscribeAll(once.state, factories, subscriber, [d]) == SubscribeOne(once.state, factories, subscriber, d);
    assert SubscribeSpec(once.state, factories, subscriber, [d]) == SubscribeOne(once.state, factories, subscriber, d);
  }
}
