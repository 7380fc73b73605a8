/** `FunctionalEventBus` of the classic API: listener objects per exact event class,
    each list only ever appended to, and a set of event classes per subscriber.
    Handler methods are the one-parameter declared methods that carry an annotation
    with a registered listener factory. */
module FunctionalEventBus {
  import opened JavaModel
  import opened PriorityOrder
  import opened Delivery
  import opened Annotations
  import opened ClassicListener

  /** The two tables of a bus: listeners per event class, event classes per subscriber. */
  datatype BusState = BusState(listeners: map<JClass, seq<Listener>>, subscriptions: map<Value, set<JClass>>)

  /** `getListeningMethods`: the one-parameter declared methods with a registered
      annotation, in declaration order. */
  function ListeningMethods(ms: seq<Declared>, factories: map<Annotation, Factory>): (r: seq<Declared>)
    ensures |r| <= |ms|
    ensures forall i :: 0 <= i < |r| ==> |r[i].handler.paramTypes| == 1 && Listens(r[i], factories)
  {
    if ms == [] then []
    else if |ms[0].handler.paramTypes| == 1 && Listens(ms[0], factories) then [ms[0]] + ListeningMethods(ms[1..], factories)
    else ListeningMethods(ms[1..], factories)
  }

  /** Exactly the one-parameter methods with a registered annotation take part. */
  lemma {:induction false} ListeningMethodsMembers(ms: seq<Declared>, factories: map<Annotation, Factory>)
    ensures forall d :: d in ListeningMethods(ms, factories) <==> d in ms && |d.handler.paramTypes| == 1 && Listens(d, factories)
  {
    if ms != [] {
      ListeningMethodsMembers(ms[1..], factories);
      assert ms == [ms[0]] + ms[1..];
    }
  }

  /** The listener that the first registered annotation's factory makes for `d`. */
  function Made(factories: map<Annotation, Factory>, instance: Value, d: Declared): Listener
    requires Listens(d, factories)
  {
    FactoryOf(d, factories)(instance, d.handler)
  }

  /** One handler method of `subscribe`: the new listener is appended to its
      class's list and the class is added to the subscriber's set. */
  function SubscribeOne(st: BusState, factories: map<Annotation, Factory>, instance: Value, d: Declared): BusState
    requires |d.handler.paramTypes| == 1 && Listens(d, factories)
  {
    var t := d.handler.paramTypes[0];
    var list := if t in st.listeners then st.listeners[t] else [];
    var classes := if instance in st.subscriptions then st.subscriptions[instance] else {};
    BusState(st.listeners[t := list + [Made(factories, instance, d)]], st.subscriptions[instance := classes + {t}])
  }

  function SubscribeAll(st: BusState, factories: map<Annotation, Factory>, instance: Value, ms: seq<Declared>): BusState
    requires forall i :: 0 <= i < |ms| ==> |ms[i].handler.paramTypes| == 1 && Listens(ms[i], factories)
  {
    if ms == [] then st
    else SubscribeOne(SubscribeAll(st, factories, instance, ms[..|ms| - 1]), factories, instance, ms[|ms| - 1])
  }

  /** `subscribe`: `null` fails on `getClass()`. */
  function SubscribeSpec(st: BusState, factories: map<Annotation, Factory>, instance: Value, declared: seq<Declared>): Result<BusState>
  {
    if instance.Null? then Err(NullPointerException)
    else Ok(SubscribeAll(st, factories, instance, ListeningMethods(declared, factories)))
  }

  /** The `filter` of `unsubscribe`: a listener object is dropped only when it is
      itself the subscriber (`Object.equals` is identity). */
  function NotSelf(instance: Value): Listener -> bool
  {
    (l: Listener) => l.self != instance
  }

  /** The `computeIfPresent` of one handler method of `unsubscribe`. */
  function UnsubscribeOne(listeners: map<JClass, seq<Listener>>, instance: Value, d: Declared): (r: map<JClass, seq<Listener>>)
    requires |d.handler.paramTypes| == 1
    ensures r.Keys == listeners.Keys
  {
    var t := d.handler.paramTypes[0];
    if t in listeners then listeners[t := Filter(listeners[t], NotSelf(instance))] else listeners
  }

  function UnsubscribeAll(listeners: map<JClass, seq<Listener>>, instance: Value, ms: seq<Declared>): (r: map<JClass, seq<Listener>>)
    requires forall i :: 0 <= i < |ms| ==> |ms[i].handler.paramTypes| == 1
    ensures r.Keys == listeners.Keys
  {
    if ms == [] then listeners
    else UnsubscribeOne(UnsubscribeAll(listeners, instance, ms[..|ms| - 1]), instance, ms[|ms| - 1])
  }

  /** `unsubscribe`: `null` fails on `getClass()`; after the lists, the
      subscription record is removed. */
  function UnsubscribeSpec(st: BusState, factories: map<Annotation, Factory>, instance: Value, declared: seq<Declared>): Result<BusState>
  {
    if instance.Null? then Err(NullPointerException)
    else Ok(BusState(UnsubscribeAll(st.listeners, instance, ListeningMethods(declared, factories)), st.subscriptions - {instance}))
  }

  /** `isSubscribed`: key presence; the concurrent map rejects a `null` key. */
  function IsSubscribedIn(st: BusState, instance: Value): (r: Result<bool>)
    ensures instance.Null? <==> r.Err?
    ensures r.Ok? ==> (r.value <==> instance in st.subscriptions)
  {
    if instance.Null? then Err(NullPointerException) else Ok(instance in st.subscriptions)
  }

  class Bus {
    var listeners: map<JClass, seq<Listener>>
    var subscriptions: map<Value, set<JClass>>
    var factories: map<Annotation, Factory>

    function State(): BusState
      reads this
    {
      BusState(listeners, subscriptions)
    }

    /** The constructor registers the factory of the `Listener` annotation, which
        is a parameter here. */
    constructor(listenerAnnotation: Annotation, defaultFactory: Factory)
      ensures factories == map[listenerAnnotation := defaultFactory]
      ensures State() == BusState(map[], map[])
    {
      var initial: map<Annotation, Factory> := map[listenerAnnotation := defaultFactory];
      factories := initial;
      listeners := map[];
      subscriptions := map[];
    }

    /** `post`: the listeners of the event's exact runtime class, in list order. */
    method Post(event: Value, outcome: Listener -> Option<Throwable>) returns (r: Delivered<Listener>)
      ensures event.Null? ==> r == Delivered([], Some(NullPointerException))
      ensures event.Obj? && event.cls !in listeners ==> r == Delivered([], None)
      ensures event.Obj? && event.cls in listeners ==> r == Deliver(listeners[event.cls], outcome)
    {
      if event.Null? {
        return Delivered([], Some(NullPointerException));
      }
      var list := if event.cls in listeners then listeners[event.cls] else [];
      r := DeliverEach(list, outcome);
    }

    method Subscribe(instance: Value, declared: seq<Declared>) returns (thrown: Option<Throwable>)
      modifies this
      ensures factories == old(factories)
      ensures var r := SubscribeSpec(old(State()), factories, instance, declared);
              (r.Err? ==> thrown == Some(r.error) && State() == old(State()))
              && (r.Ok? ==> thrown.None? && State() == r.value)
    {
      if instance.Null? {
        return Some(NullPointerException);
      }
      var ms := ListeningMethods(declared, factories);
      var i := 0;
      while i < |ms|
        invariant 0 <= i <= |ms|
        invariant factories == old(factories)
        invariant State() == SubscribeAll(old(State()), factories, instance, ms[..i])
      {
        assert ms[..i + 1][..i] == ms[..i];
        var d := ms[i];
        var t := d.handler.paramTypes[0];
        var factory := FactoryOf(d, factories);
        var l := factory(instance, d.handler);
        var list := if t in listeners then listeners[t] else [];
        listeners := listeners[t := list + [l]];
        var classes := if instance in subscriptions then subscriptions[instance] else {};
        subscriptions := subscriptions[instance := classes + {t}];
        i := i + 1;
      }
      assert ms[..i] == ms;
      return None;
    }

    method Unsubscribe(instance: Value, declared: seq<Declared>) returns (thrown: Option<Throwable>)
      modifies this
      ensures factories == old(factories)
      ensures var r := UnsubscribeSpec(old(State()), factories, instance, declared);
              (r.Err? ==> thrown == Some(r.error) && State() == old(State()))
              && (r.Ok? ==> thrown.None? && State() == r.value)
    {
      if instance.Null? {
        return Some(NullPointerException);
      }
      var ms := ListeningMethods(declared, factories);
      var i := 0;
      while i < |ms|
        invariant 0 <= i <= |ms|
        invariant factories == old(factories) && subscriptions == old(subscriptions)
        invariant listeners == UnsubscribeAll(old(listeners), instance, ms[..i])
      {
        assert ms[..i + 1][..i] == ms[..i];
        var t := ms[i].handler.paramTypes[0];
        if t in listeners {
          listeners := listeners[t := Filter(listeners[t], NotSelf(instance))];
        }
        i := i + 1;
      }
      assert ms[..i] == ms;
      subscriptions := subscriptions - {instance};
      return None;
    }

    function IsSubscribed(instance: Value): (r: Result<bool>)
      reads this
      ensures r == IsSubscribedIn(State(), instance)
    {
      if instance.Null? then Err(NullPointerException) else Ok(instance in subscriptions)
    }

    /** `registerListenerFactory`: `put`, replacing any factory for that type. */
    method RegisterListenerFactory(annotationType: Annotation, factory: Factory)
      modifies this
      ensures factories == old(factories)[annotationType := factory]
      ensures State() == old(State())
    {
      factories := factories[annotationType := factory];
    }
  }

  /** The listeners `subscribe` makes for the methods of `ms` whose event class is `t`, in order. */
  function MadeFor(factories: map<Annotation, Factory>, instance: Value, ms: seq<Declared>, t: JClass): (r: seq<Listener>)
    requires forall i :: 0 <= i < |ms| ==> |ms[i].handler.paramTypes| == 1 && Listens(ms[i], factories)
    ensures |r| <= |ms|
  {
    if ms == [] then []
    else
      var d := ms[|ms| - 1];
      MadeFor(factories, instance, ms[..|ms| - 1], t) + (if d.handler.paramTypes[0] == t then [Made(factories, instance, d)] else [])
  }

  /** A class's list, empty when the class has none. */
  function Get(listeners: map<JClass, seq<Listener>>, t: JClass): seq<Listener>
  {
    if t in listeners then listeners[t] else []
  }

  /** `subscribe` only appends: each class's list is its old list followed by the
      new listeners for that class in method order, with no re-ordering by priority. */
  lemma {:induction false} SubscribeAllAppends(st: BusState, factories: map<Annotation, Factory>, instance: Value, ms: seq<Declared>, t: JClass)
    requires forall i :: 0 <= i < |ms| ==> |ms[i].handler.paramTypes| == 1 && Listens(ms[i], factories)
    ensures Get(SubscribeAll(st, factories, instance, ms).listeners, t) == Get(st.listeners, t) + MadeFor(factories, instance, ms, t)
  {
    if ms != [] {
      var init := ms[..|ms| - 1];
      SubscribeAllAppends(st, factories, instance, init, t);
      var d := ms[|ms| - 1];
      var prev := SubscribeAll(st, factories, instance, init);
      assert SubscribeAll(st, factories, instance, ms) == SubscribeOne(prev, factories, instance, d);
      var extra := if d.handler.paramTypes[0] == t then [Made(factories, instance, d)] else [];
      SubscribeOneGet(prev, factories, instance, d, t);
      assert MadeFor(factories, instance, ms, t) == MadeFor(factories, instance, init, t) + extra;
      AppendAssoc(Get(st.listeners, t), MadeFor(factories, instance, init, t), extra);
    }
  }

  lemma AppendAssoc<T>(a: seq<T>, b: seq<T>, c: seq<T>)
    ensures a + b + c == a + (b + c)
  {
  }

  /** The classes that have a list after `subscribe`: the old ones and those of the handler methods. */
  lemma {:induction false} SubscribeAllKeys(st: BusState, factories: map<Annotation, Factory>, instance: Value, ms: seq<Declared>)
    requires forall i :: 0 <= i < |ms| ==> |ms[i].handler.paramTypes| == 1 && Listens(ms[i], factories)
    ensures SubscribeAll(st, factories, instance, ms).listeners.Keys == st.listeners.Keys + Classes(ms)
  {
    if ms != [] {
      SubscribeAllKeys(st, factories, instance, ms[..|ms| - 1]);
    }
  }

  /** One method's step appends at most one listener to a class's list. */
  lemma SubscribeOneGet(st: BusState, factories: map<Annotation, Factory>, instance: Value, d: Declared, t: JClass)
    requires |d.handler.paramTypes| == 1 && Listens(d, factories)
    ensures Get(SubscribeOne(st, factories, instance, d).listeners, t)
         == Get(st.listeners, t) + (if d.handler.paramTypes[0] == t then [Made(factories, instance, d)] else [])
  {
  }

  /** The same through `subscribe` itself: the lists of the classes handled gain
      the new listeners at their end, every other list stays as it was. */
  lemma SubscribeAppends(st: BusState, factories: map<Annotation, Factory>, instance: Value, declared: seq<Declared>)
    requires instance.Obj?
    ensures var r := SubscribeSpec(st, factories, instance, declared).value.listeners;
            var ms := ListeningMethods(declared, factories);
            && r.Keys == st.listeners.Keys + Classes(ms)
            && forall t :: Get(r, t) == Get(st.listeners, t) + MadeFor(factories, instance, ms, t)
  {
    var ms := ListeningMethods(declared, factories);
    SubscribeAllKeys(st, factories, instance, ms);
    forall t ensures Get(SubscribeAll(st, factories, instance, ms).listeners, t) == Get(st.listeners, t) + MadeFor(factories, instance, ms, t) {
      SubscribeAllAppends(st, factories, instance, ms, t);
    }
  }

  /** A `subscribe` that binds a method records the method's event class under the subscriber. */
  lemma {:induction false} SubscribeAllRecords(st: BusState, factories: map<Annotation, Factory>, instance: Value, ms: seq<Declared>)
    requires forall i :: 0 <= i < |ms| ==> |ms[i].handler.paramTypes| == 1 && Listens(ms[i], factories)
    ensures var s := SubscribeAll(st, factories, instance, ms).subscriptions;
            && (ms != [] || instance in st.subscriptions ==> instance in s)
            && (forall i :: 0 <= i < |ms| ==> ms[i].handler.paramTypes[0] in s[instance])
  {
    if ms != [] {
      var init := ms[..|ms| - 1];
      SubscribeAllRecords(st, factories, instance, init);
      forall i | 0 <= i < |ms| - 1 ensures ms[i] == init[i] { }
    }
  }

  /** `isSubscribed` is true after a `subscribe` that bound at least one method,
      and false after `unsubscribe`. */
  lemma SubscribedIffBound(st: BusState, factories: map<Annotation, Factory>, instance: Value, declared: seq<Declared>)
    requires instance.Obj?
    ensures ListeningMethods(declared, factories) != [] ==>
              IsSubscribedIn(SubscribeSpec(st, factories, instance, declared).value, instance) == Ok(true)
    ensures IsSubscribedIn(UnsubscribeSpec(st, factories, instance, declared).value, instance) == Ok(false)
  {
    SubscribeAllRecords(st, factories, instance, ListeningMethods(declared, factories));
  }

  /** The event classes of the handler methods `ms`. */
  function Classes(ms: seq<Declared>): (r: set<JClass>)
    requires forall i :: 0 <= i < |ms| ==> |ms[i].handler.paramTypes| == 1
    ensures forall i :: 0 <= i < |ms| ==> ms[i].handler.paramTypes[0] in r
  {
    if ms == [] then {} else Classes(ms[..|ms| - 1]) + {ms[|ms| - 1].handler.paramTypes[0]}
  }

  /** `unsubscribe` keeps the listener objects that are not the subscriber itself,
      in order, on the lists of the handler methods' classes; other lists are
      untouched. */
  lemma {:induction false} UnsubscribeAllFilters(listeners: map<JClass, seq<Listener>>, instance: Value, ms: seq<Declared>)
    requires forall i :: 0 <= i < |ms| ==> |ms[i].handler.paramTypes| == 1
    ensures var r := UnsubscribeAll(listeners, instance, ms);
            forall t :: t in r ==> r[t] == if t in Classes(ms) then Filter(listeners[t], NotSelf(instance)) else listeners[t]
  {
    if ms != [] {
      var init := ms[..|ms| - 1];
      UnsubscribeAllFilters(listeners, instance, init);
      var t := ms[|ms| - 1].handler.paramTypes[0];
      if t in listeners && t in Classes(init) {
        FilterTwice(listeners[t], NotSelf(instance));
      }
    }
  }

  /** Filtering twice by the same condition is filtering once. */
  lemma {:induction false} FilterTwice(s: seq<Listener>, keep: Listener -> bool)
    ensures Filter(Filter(s, keep), keep) == Filter(s, keep)
  {
    if s != [] {
      FilterTwice(s[1..], keep);
      if keep(s[0]) {
        assert ([s[0]] + Filter(s[1..], keep))[1..] == Filter(s[1..], keep);
      }
    }
  }

  /** Listener objects are never the subscriber they call, so `unsubscribe`
      removes no listener at all: only the subscription record goes. */
  lemma UnsubscribeKeepsListeners(st: BusState, factories: map<Annotation, Factory>, instance: Value, declared: seq<Declared>)
    requires instance.Obj?
    requires forall t, i :: t in st.listeners && 0 <= i < |st.listeners[t]| ==> st.listeners[t][i].self != instance
    ensures UnsubscribeSpec(st, factories, instance, declared).value == BusState(st.listeners, st.subscriptions - {instance})
  {
    var ms := ListeningMethods(declared, factories);
    UnsubscribeAllFilters(st.listeners, instance, ms);
    var r := UnsubscribeAll(st.listeners, instance, ms);
    forall t | t in st.listeners ensures r[t] == st.listeners[t] {
      FilterKeepsAll(st.listeners[t], NotSelf(instance));
    }
  }

  /** Hence subscribing and then unsubscribing an object leaves its listeners on
      the lists: `post` still reaches it. */
  lemma SubscribeThenUnsubscribeKeepsListeners(st: BusState, factories: map<Annotation, Factory>, instance: Value, declared: seq<Declared>)
    requires instance.Obj?
    requires forall t, i :: t in st.listeners && 0 <= i < |st.listeners[t]| ==> st.listeners[t][i].self != instance
    requires forall d :: d in declared && Listens(d, factories) ==> Made(factories, instance, d).self != instance
    ensures var s := SubscribeSpec(st, factories, instance, declared).value;
            var u := UnsubscribeSpec(s, factories, instance, declared).value;
            u.listeners == s.listeners && instance !in u.subscriptions
  {
    var ms := ListeningMethods(declared, factories);
    ListeningMethodsMembers(declared, factories);
    var s := SubscribeSpec(st, factories, instance, declared).value;
    forall t, i | t in s.listeners && 0 <= i < |s.listeners[t]| ensures s.listeners[t][i].self != instance {
      SubscribeAllAppends(st, factories, instance, ms, t);
      assert s.listeners[t] == Get(s.listeners, t);
      if i >= |Get(st.listeners, t)| {
        MadeForSelf(factories, instance, ms, t, i - |Get(st.listeners, t)|);
      }
    }
    UnsubscribeKeepsListeners(s, factories, instance, declared);
  }

  /** Each listener made for class `t` comes from one of the methods. */
  lemma {:induction false} MadeForSelf(factories: map<Annotation, Factory>, instance: Value, ms: seq<Declared>, t: JClass, j: nat)
    requires forall i :: 0 <= i < |ms| ==> |ms[i].handler.paramTypes| == 1 && Listens(ms[i], factories)
    requires j < |MadeFor(factories, instance, ms, t)|
    ensures exists i :: 0 <= i < |ms| && MadeFor(factories, instance, ms, t)[j] == Made(factories, instance, ms[i])
  {
    var init := ms[..|ms| - 1];
    var d := ms[|ms| - 1];
    if j < |MadeFor(factories, instance, init, t)| {
      MadeForSelf(factories, instance, init, t, j);
      var i :| 0 <= i < |init| && MadeFor(factories, instance, init, t)[j] == Made(factories, instance, init[i]);
      assert init[i] == ms[i];
    } else {
      assert MadeFor(factories, instance, ms, t)[j] == Made(factories, instance, d);
    }
  }
}
