/** `ImperativeEventBus`: listeners per exact event class in lists kept in
    non-increasing priority by re-sorting after each `add`, and a list of event
    classes per subscriber. Handler methods are one-parameter methods; the scan
    lists a method once for every registered annotation it carries. */
module ImperativeEventBus {
  import opened JavaModel
  import opened PriorityOrder
  import opened Delivery
  import opened Annotations
  import opened ClassicListener

  datatype BusState = BusState(listeners: map<JClass, seq<Listener>>, subscriptions: map<Value, seq<JClass>>)

  ghost predicate Sorted(st: BusState)
  {
    forall t :: t in st.listeners ==> NonIncreasing(st.listeners[t], Prio)
  }

  /** How many of the annotations have a registered factory. */
  function RegisteredCount(anns: seq<Annotation>, factories: map<Annotation, Factory>): (n: nat)
    ensures n > 0 <==> FirstRegistered(anns, factories) < |anns|
    ensures n <= |anns|
  {
    if anns == [] then 0
    else (if anns[0] in factories then 1 else 0) + RegisteredCount(anns[1..], factories)
  }

  function Repeat(d: Declared, n: nat): (r: seq<Declared>)
    ensures |r| == n && forall i :: 0 <= i < n ==> r[i] == d
  {
    if n == 0 then [] else [d] + Repeat(d, n - 1)
  }

  /** `getListeningMethods`: for each declared method and each of its registered
      annotations, the method if it has exactly one parameter. */
  function ListeningMethods(ms: seq<Declared>, factories: map<Annotation, Factory>): (r: seq<Declared>)
    ensures forall i :: 0 <= i < |r| ==> |r[i].handler.paramTypes| == 1 && Listens(r[i], factories)
  {
    if ms == [] then []
    else
      var here := if |ms[0].handler.paramTypes| == 1 then Repeat(ms[0], RegisteredCount(ms[0].annotations, factories)) else [];
      here + ListeningMethods(ms[1..], factories)
  }

  /** The scan lists exactly the one-parameter methods with a registered annotation. */
  lemma {:induction false} ListeningMethodsMembers(ms: seq<Declared>, factories: map<Annotation, Factory>)
    ensures forall d :: d in ListeningMethods(ms, factories) <==> d in ms && |d.handler.paramTypes| == 1 && Listens(d, factories)
  {
    if ms != [] {
      ListeningMethodsMembers(ms[1..], factories);
      var here := if |ms[0].handler.paramTypes| == 1 then Repeat(ms[0], RegisteredCount(ms[0].annotations, factories)) else [];
      assert forall d :: d in here <==> d == ms[0] && |d.handler.paramTypes| == 1 && Listens(d, factories);
      assert ms == [ms[0]] + ms[1..];
    }
  }

  /** A one-parameter method with two registered annotations is listed twice. */
  lemma ListedOncePerAnnotation(d: Declared, factories: map<Annotation, Factory>)
    requires |d.handler.paramTypes| == 1
    ensures ListeningMethods([d], factories) == Repeat(d, RegisteredCount(d.annotations, factories))
  {
    assert [d][1..] == [];
    assert ListeningMethods([d], factories) == Repeat(d, RegisteredCount(d.annotations, factories)) + [];
  }

  /** One iteration of `subscribe`'s loop: the class's list is created if absent,
      the first registered annotation's factory makes the listener, the list is
      re-sorted, and the class is appended to the subscriber's list. */
  function SubscribeOne(st: BusState, factories: map<Annotation, Factory>, instance: Value, d: Declared): (r: BusState)
    requires |d.handler.paramTypes| == 1 && Listens(d, factories)
    requires instance in st.subscriptions
    ensures instance in r.subscriptions
  {
    var t := d.handler.paramTypes[0];
    var list := if t in st.listeners then st.listeners[t] else [];
    var l := FactoryOf(d, factories)(instance, d.handler);
    BusState(st.listeners[t := StableSortDesc(list + [l], Prio)],
             st.subscriptions[instance := st.subscriptions[instance] + [t]])
  }

  function SubscribeAll(st: BusState, factories: map<Annotation, Factory>, instance: Value, ms: seq<Declared>): (r: BusState)
    requires forall i :: 0 <= i < |ms| ==> |ms[i].handler.paramTypes| == 1 && Listens(ms[i], factories)
    requires instance in st.subscriptions
    ensures instance in r.subscriptions
  {
    if ms == [] then st
    else SubscribeOne(SubscribeAll(st, factories, instance, ms[..|ms| - 1]), factories, instance, ms[|ms| - 1])
  }

  /** `subscribe`'s loop after one more method. */
  lemma SubscribeAllSnoc(st: BusState, factories: map<Annotation, Factory>, instance: Value, ms: seq<Declared>, i: nat)
    requires forall j :: 0 <= j < |ms| ==> |ms[j].handler.paramTypes| == 1 && Listens(ms[j], factories)
    requires instance in st.subscriptions && i < |ms|
    ensures SubscribeAll(st, factories, instance, ms[..i + 1])
         == SubscribeOne(SubscribeAll(st, factories, instance, ms[..i]), factories, instance, ms[i])
  {
    assert ms[..i + 1][..i] == ms[..i];
    assert ms[..i + 1][i] == ms[i];
  }

  /** `subscribe`: `null` fails on `getClass()`; the subscriber's list of classes
      is created before the loop, whether or not a handler follows. */
  function SubscribeSpec(st: BusState, factories: map<Annotation, Factory>, instance: Value, declared: seq<Declared>): Result<BusState>
  {
    if instance.Null? then Err(NullPointerException)
    else
      var start := if instance in st.subscriptions then st.subscriptions else st.subscriptions[instance := []];
      Ok(SubscribeAll(BusState(st.listeners, start), factories, instance, ListeningMethods(declared, factories)))
  }

  /** The `removeIf` of `unsubscribe`: drops exactly the listeners for an equal
      method bound to this very instance; the rest keep their order. */
  function RemoveHandler(list: seq<Listener>, m: Method, instance: Value): (r: seq<Listener>)
    ensures forall l :: l in r <==> l in list && !(SameMethod(l.handler, m) && l.instance == instance)
    ensures r == Filter(list, Kept(m, instance))
  {
    Filter(list, Kept(m, instance))
  }

  /** The `removeIf` condition, negated. */
  function Kept(m: Method, instance: Value): Listener -> bool
  {
    (l: Listener) => !(SameMethod(l.handler, m) && l.instance == instance)
  }

  /** `removeIf` keeps every copy of a surviving listener and none of a removed
      one, and a sorted list stays sorted. */
  lemma RemoveHandlerSorted(list: seq<Listener>, m: Method, instance: Value)
    requires NonIncreasing(list, Prio)
    ensures NonIncreasing(RemoveHandler(list, m, instance), Prio)
    ensures forall l :: multiset(RemoveHandler(list, m, instance))[l]
                        == if SameMethod(l.handler, m) && l.instance == instance then 0 else multiset(list)[l]
  {
    FilterSorted(list, Kept(m, instance), Prio);
    forall l ensures multiset(RemoveHandler(list, m, instance))[l]
                     == if SameMethod(l.handler, m) && l.instance == instance then 0 else multiset(list)[l] {
      FilterCount(list, Kept(m, instance), l);
    }
  }

  /** One iteration of `unsubscribe`'s loop: a class without a list is skipped;
      otherwise the method's listeners for this instance go, and so does the
      subscriber's record. */
  function UnsubscribeOne(st: BusState, instance: Value, d: Declared): (r: BusState)
    requires |d.handler.paramTypes| == 1
    ensures r.listeners.Keys == st.listeners.Keys
    ensures forall u :: u in st.listeners && u != d.handler.paramTypes[0] ==> r.listeners[u] == st.listeners[u]
  {
    var t := d.handler.paramTypes[0];
    if t !in st.listeners then st
    else BusState(st.listeners[t := RemoveHandler(st.listeners[t], d.handler, instance)], st.subscriptions - {instance})
  }

  function UnsubscribeAll(st: BusState, instance: Value, ms: seq<Declared>): (r: BusState)
    requires forall i :: 0 <= i < |ms| ==> |ms[i].handler.paramTypes| == 1
    ensures r.listeners.Keys == st.listeners.Keys
  {
    if ms == [] then st
    else UnsubscribeOne(UnsubscribeAll(st, instance, ms[..|ms| - 1]), instance, ms[|ms| - 1])
  }

  /** `unsubscribe`'s loop after one more method. */
  lemma UnsubscribeAllSnoc(st: BusState, instance: Value, ms: seq<Declared>, i: nat)
    requires forall j :: 0 <= j < |ms| ==> |ms[j].handler.paramTypes| == 1
    requires i < |ms|
    ensures UnsubscribeAll(st, instance, ms[..i + 1]) == UnsubscribeOne(UnsubscribeAll(st, instance, ms[..i]), instance, ms[i])
  {
    assert ms[..i + 1][..i] == ms[..i];
    assert ms[..i + 1][i] == ms[i];
  }

  function UnsubscribeSpec(st: BusState, factories: map<Annotation, Factory>, instance: Value, declared: seq<Declared>): Result<BusState>
  {
    if instance.Null? then Err(NullPointerException)
    else Ok(UnsubscribeAll(st, instance, ListeningMethods(declared, factories)))
  }

  /** `post`'s loop over the list for the event's class: a listener without an
      instance ends the whole dispatch quietly; a listener whose first parameter
      type does not accept the event's class is passed over; the others are
      invoked in order, and the first exception ends the dispatch. */
  function PostTo(ct: ClassTable, list: seq<Listener>, cls: JClass, outcome: Listener -> Option<Throwable>): (r: Delivered<Listener>)
    ensures forall i :: 0 <= i < |r.called| ==>
              r.called[i] in list && r.called[i].instance.Obj? && |r.called[i].handler.paramTypes| > 0
              && AssignableFrom(ct, r.called[i].handler.paramTypes[0], cls)
  {
    if list == [] then Delivered([], None)
    else
      var l := list[0];
      assert list == [l] + list[1..];
      if l.instance.Null? then Delivered([], None)
      else if |l.handler.paramTypes| == 0 then Delivered([], Some(IndexOutOfBoundsException))
      else if !AssignableFrom(ct, l.handler.paramTypes[0], cls) then PostTo(ct, list[1..], cls, outcome)
      else match outcome(l)
        case Some(e) => Delivered([l], Some(e))
        case None => Join([l], PostTo(ct, list[1..], cls, outcome))
  }

  /** A listener without an instance ends the dispatch: nothing after it is
      reached. */
  lemma {:induction false} NullInstanceEndsPost(ct: ClassTable, list: seq<Listener>, cls: JClass,
                                                outcome: Listener -> Option<Throwable>, k: nat)
    requires k < |list| && list[k].instance.Null?
    ensures PostTo(ct, list, cls, outcome) == PostTo(ct, list[..k], cls, outcome)
  {
    if k > 0 {
      assert list[1..][k - 1] == list[k];
      NullInstanceEndsPost(ct, list[1..], cls, outcome, k - 1);
      assert list[..k][1..] == list[1..][..k - 1];
    }
  }

  /** With every instance present and every parameter type accepting the event's
      class, the dispatch is the plain in-order delivery. */
  lemma {:induction false} PostIsDeliveryWhenAllAccept(ct: ClassTable, list: seq<Listener>, cls: JClass,
                                                       outcome: Listener -> Option<Throwable>)
    requires forall i :: 0 <= i < |list| ==> list[i].instance.Obj? && |list[i].handler.paramTypes| > 0
                                              && AssignableFrom(ct, list[i].handler.paramTypes[0], cls)
    ensures PostTo(ct, list, cls, outcome) == Deliver(list, outcome)
  {
    if list != [] {
      PostIsDeliveryWhenAllAccept(ct, list[1..], cls, outcome);
    }
  }

  /** One listener of `post`'s loop, at position `i`. */
  lemma PostToStep(ct: ClassTable, list: seq<Listener>, cls: JClass, outcome: Listener -> Option<Throwable>, i: nat)
    requires i < |list|
    ensures var l := list[i];
            PostTo(ct, list[i..], cls, outcome)
            == if l.instance.Null? then Delivered([], None)
               else if |l.handler.paramTypes| == 0 then Delivered([], Some(IndexOutOfBoundsException))
               else if !AssignableFrom(ct, l.handler.paramTypes[0], cls) then PostTo(ct, list[i + 1..], cls, outcome)
               else if outcome(l).Some? then Delivered([l], outcome(l))
               else Join([l], PostTo(ct, list[i + 1..], cls, outcome))
  {
    assert list[i..][0] == list[i];
    assert list[i..][1..] == list[i + 1..];
  }

  class Bus {
    var listeners: map<JClass, seq<Listener>>
    var subscriptions: map<Value, seq<JClass>>
    var factories: map<Annotation, Factory>

    function State(): BusState
      reads this
    {
      BusState(listeners, subscriptions)
    }

    /** The constructor registers the `Listener` annotation's factory, which is a
        parameter here. */
    constructor(listenerAnnotation: Annotation, defaultFactory: Factory)
      ensures factories == map[listenerAnnotation := defaultFactory]
      ensures State() == BusState(map[], map[])
    {
      var initial: map<Annotation, Factory> := map[listenerAnnotation := defaultFactory];
      factories := initial;
      listeners := map[];
      subscriptions := map[];
    }

    method Post(ct: ClassTable, event: Value, outcome: Listener -> Option<Throwable>) returns (r: Delivered<Listener>)
      ensures event.Null? ==> r == Delivered([], Some(NullPointerException))
      ensures event.Obj? && event.cls !in listeners ==> r == Delivered([], None)
      ensures event.Obj? && event.cls in listeners ==> r == PostTo(ct, listeners[event.cls], event.cls, outcome)
    {
      if event.Null? {
        return Delivered([], Some(NullPointerException));
      }
      if event.cls !in listeners {
        return Delivered([], None);
      }
      var list := listeners[event.cls];
      var called := [];
      var i := 0;
      while i < |list|
        invariant 0 <= i <= |list|
        invariant PostTo(ct, list, event.cls, outcome) == Join(called, PostTo(ct, list[i..], event.cls, outcome))
      {
        var l := list[i];
        PostToStep(ct, list, event.cls, outcome, i);
        if l.instance.Null? {
          return Delivered(called, None);
        }
        if |l.handler.paramTypes| == 0 {
          return Delivered(called, Some(IndexOutOfBoundsException));
        }
        if AssignableFrom(ct, l.handler.paramTypes[0], event.cls) {
          JoinTwice(called, [l], PostTo(ct, list[i + 1..], event.cls, outcome));
          called := called + [l];
          var thrown := outcome(l);
          if thrown.Some? {
            return Delivered(called, thrown);
          }
        }
        i := i + 1;
      }
      return Delivered(called, None);
    }

    method Subscribe(instance: Value, declared: seq<Declared>) returns (thrown: Option<Throwable>)
      modifies this
      ensures factories == old(factories)
      ensures var r := SubscribeSpec(old(State()), factories, instance, declared);
              (r.Err? ==> thrown == Some(r.error) && State() == old(State()))
              && (r.Ok? ==> thrown.None? && State() == r.value)
    {
      if instance.Null? {
        return Some(NullPointerException);
      }
      var ms := ListeningMethods(declared, factories);
      var ls := listeners;
      var subs := if instance in subscriptions then subscriptions else subscriptions[instance := []];
      ghost var start := BusState(ls, subs);
      var i := 0;
      while i < |ms|
        invariant 0 <= i <= |ms|
        invariant instance in subs && factories == old(factories)
        invariant BusState(ls, subs) == SubscribeAll(start, factories, instance, ms[..i])
      {
        SubscribeAllSnoc(start, factories, instance, ms, i);
        var d := ms[i];
        var t := d.handler.paramTypes[0];
        var list := if t in ls then ls[t] else [];
        var factory := FactoryOf(d, factories);
        var l := factory(instance, d.handler);
        ls := ls[t := StableSortDesc(list + [l], Prio)];
        subs := subs[instance := subs[instance] + [t]];
        i := i + 1;
      }
      assert ms[..i] == ms;
      assert SubscribeSpec(old(State()), factories, instance, declared) == Ok(BusState(ls, subs));
      listeners, subscriptions := ls, subs;
      return None;
    }

    method Unsubscribe(instance: Value, declared: seq<Declared>) returns (thrown: Option<Throwable>)
      modifies this
      ensures factories == old(factories)
      ensures var r := UnsubscribeSpec(old(State()), factories, instance, declared);
              (r.Err? ==> thrown == Some(r.error) && State() == old(State()))
              && (r.Ok? ==> thrown.None? && State() == r.value)
    {
      if instance.Null? {
        return Some(NullPointerException);
      }
      var ms := ListeningMethods(declared, factories);
      var ls, subs := listeners, subscriptions;
      ghost var start := State();
      var i := 0;
      while i < |ms|
        invariant 0 <= i <= |ms|
        invariant factories == old(factories) && start == old(State())
        invariant BusState(ls, subs) == UnsubscribeAll(start, instance, ms[..i])
      {
        UnsubscribeAllSnoc(start, instance, ms, i);
        ghost var prev := BusState(ls, subs);
        var t := ms[i].handler.paramTypes[0];
        if t in ls {
          ls := ls[t := RemoveHandler(ls[t], ms[i].handler, instance)];
          subs := subs - {instance};
        }
        assert BusState(ls, subs) == UnsubscribeOne(prev, instance, ms[i]);
        i := i + 1;
      }
      assert ms[..i] == ms;
      assert UnsubscribeSpec(old(State()), factories, instance, declared) == Ok(BusState(ls, subs));
      listeners, subscriptions := ls, subs;
      return None;
    }

    /** `isSubscribed` answers `false` whatever the state. */
    function IsSubscribed(instance: Value): (r: bool)
      ensures !r
    {
      false
    }

    method RegisterListenerFactory(annotationType: Annotation, factory: Factory)
      modifies this
      ensures factories == old(factories)[annotationType := factory]
      ensures State() == old(State())
    {
      factories := factories[annotationType := factory];
    }
  }

  /** Every step of `subscribe` keeps every list sorted. */
  lemma {:induction false} SubscribeAllSorted(st: BusState, factories: map<Annotation, Factory>, instance: Value, ms: seq<Declared>)
    requires forall i :: 0 <= i < |ms| ==> |ms[i].handler.paramTypes| == 1 && Listens(ms[i], factories)
    requires instance in st.subscriptions && Sorted(st)
    ensures Sorted(SubscribeAll(st, factories, instance, ms))
  {
    if ms != [] {
      SubscribeAllSorted(st, factories, instance, ms[..|ms| - 1]);
      var prev := SubscribeAll(st, factories, instance, ms[..|ms| - 1]);
      var d := ms[|ms| - 1];
      var t := d.handler.paramTypes[0];
      var list := if t in prev.listeners then prev.listeners[t] else [];
      StableSortDescCorrect(list + [FactoryOf(d, factories)(instance, d.handler)], Prio);
    }
  }

  /** After `subscribe`, each list is in non-increasing priority order. */
  lemma SubscribeKeepsSorted(st: BusState, factories: map<Annotation, Factory>, instance: Value, declared: seq<Declared>)
    requires Sorted(st) && SubscribeSpec(st, factories, instance, declared).Ok?
    ensures Sorted(SubscribeSpec(st, factories, instance, declared).value)
  {
    var start := if instance in st.subscriptions then st.subscriptions else st.subscriptions[instance := []];
    SubscribeAllSorted(BusState(st.listeners, start), factories, instance, ListeningMethods(declared, factories));
  }

  /** Every step of `unsubscribe` keeps every list sorted. */
  lemma {:induction false} UnsubscribeAllSorted(st: BusState, instance: Value, ms: seq<Declared>)
    requires forall i :: 0 <= i < |ms| ==> |ms[i].handler.paramTypes| == 1
    requires Sorted(st)
    ensures Sorted(UnsubscribeAll(st, instance, ms))
  {
    if ms != [] {
      UnsubscribeAllSorted(st, instance, ms[..|ms| - 1]);
      var prev := UnsubscribeAll(st, instance, ms[..|ms| - 1]);
      var d := ms[|ms| - 1];
      var t := d.handler.paramTypes[0];
      if t in prev.listeners {
        RemoveHandlerSorted(prev.listeners[t], d.handler, instance);
      }
    }
  }

  lemma UnsubscribeKeepsSorted(st: BusState, factories: map<Annotation, Factory>, instance: Value, declared: seq<Declared>)
    requires Sorted(st) && UnsubscribeSpec(st, factories, instance, declared).Ok?
    ensures Sorted(UnsubscribeSpec(st, factories, instance, declared).value)
  {
    UnsubscribeAllSorted(st, instance, ListeningMethods(declared, factories));
  }

  /** A class's list, empty when the class has none. */
  function ListOf(st: BusState, t: JClass): seq<Listener>
  {
    if t in st.listeners then st.listeners[t] else []
  }

  /** Subscribing a method `n` times adds its listener `n` times to its class's list. */
  lemma {:induction false} SubscribeRepeated(st: BusState, factories: map<Annotation, Factory>, instance: Value, d: Declared, n: nat)
    requires |d.handler.paramTypes| == 1 && Listens(d, factories) && instance in st.subscriptions
    ensures var t := d.handler.paramTypes[0];
            var l := FactoryOf(d, factories)(instance, d.handler);
            var r := SubscribeAll(st, factories, instance, Repeat(d, n));
            && (n > 0 ==> t in r.listeners)
            && |ListOf(r, t)| == |ListOf(st, t)| + n
            && multiset(ListOf(r, t))[l] == multiset(ListOf(st, t))[l] + n
  {
    if n > 0 {
      var t := d.handler.paramTypes[0];
      var l := FactoryOf(d, factories)(instance, d.handler);
      var prev := SubscribeAll(st, factories, instance, Repeat(d, n - 1));
      var r := SubscribeAll(st, factories, instance, Repeat(d, n));
      RepeatStep(st, factories, instance, d, n);
      assert r == SubscribeOne(prev, factories, instance, d);
      SubscribeRepeated(st, factories, instance, d, n - 1);
      assert |ListOf(prev, t)| == |ListOf(st, t)| + (n - 1);
      assert multiset(ListOf(prev, t))[l] == multiset(ListOf(st, t))[l] + (n - 1);
      SubscribeOneCounts(prev, factories, instance, d);
      assert |ListOf(r, t)| == |ListOf(prev, t)| + 1;
      assert multiset(ListOf(r, t))[l] == multiset(ListOf(prev, t))[l] + 1;
    }
  }

  /** The loop over `n` copies of a method is the loop over `n - 1` copies and one more step. */
  lemma RepeatStep(st: BusState, factories: map<Annotation, Factory>, instance: Value, d: Declared, n: nat)
    requires |d.handler.paramTypes| == 1 && Listens(d, factories) && instance in st.subscriptions
    requires n > 0
    ensures SubscribeAll(st, factories, instance, Repeat(d, n))
         == SubscribeOne(SubscribeAll(st, factories, instance, Repeat(d, n - 1)), factories, instance, d)
  {
    var ms := Repeat(d, n);
    assert ms[..|ms| - 1] == Repeat(d, n - 1);
    assert ms[|ms| - 1] == d;
    assert SubscribeAll(st, factories, instance, ms)
        == SubscribeOne(SubscribeAll(st, factories, instance, ms[..|ms| - 1]), factories, instance, ms[|ms| - 1]);
  }

  /** One `subscribe` step adds one listener, the one the factory made, to the
      method's class's list. */
  lemma SubscribeOneCounts(st: BusState, factories: map<Annotation, Factory>, instance: Value, d: Declared)
    requires |d.handler.paramTypes| == 1 && Listens(d, factories) && instance in st.subscriptions
    ensures var t := d.handler.paramTypes[0];
            var l := FactoryOf(d, factories)(instance, d.handler);
            var r := SubscribeOne(st, factories, instance, d);
            && t in r.listeners
            && |ListOf(r, t)| == |ListOf(st, t)| + 1
            && multiset(ListOf(r, t))[l] == multiset(ListOf(st, t))[l] + 1
  {
    var t := d.handler.paramTypes[0];
    ResortCounts(ListOf(st, t), FactoryOf(d, factories)(instance, d.handler));
  }

  /** Re-sorting after an `add` keeps every element: one more in all, and one
      more copy of the new one. */
  lemma ResortCounts(list: seq<Listener>, l: Listener)
    ensures |StableSortDesc(list + [l], Prio)| == |list| + 1
    ensures multiset(StableSortDesc(list + [l], Prio))[l] == multiset(list)[l] + 1
  {
    StableSortDescCorrect(list + [l], Prio);
    assert |StableSortDesc(list + [l], Prio)| == |multiset(StableSortDesc(list + [l], Prio))|;
    assert multiset(list + [l]) == multiset(list) + multiset{l};
  }

  /** A one-parameter method carrying `k` registered annotations gets `k`
      listeners from one `subscribe`. */
  lemma SubscribeAddsPerAnnotation(st: BusState, factories: map<Annotation, Factory>, instance: Value, d: Declared)
    requires |d.handler.paramTypes| == 1 && Listens(d, factories) && instance.Obj?
    ensures var t := d.handler.paramTypes[0];
            var l := FactoryOf(d, factories)(instance, d.handler);
            var k := RegisteredCount(d.annotations, factories);
            var r := SubscribeSpec(st, factories, instance, [d]).value;
            && t in r.listeners
            && |ListOf(r, t)| == |ListOf(st, t)| + k
            && multiset(ListOf(r, t))[l] == multiset(ListOf(st, t))[l] + k
  {
    ListedOncePerAnnotation(d, factories);
    var start := if instance in st.subscriptions then st.subscriptions else st.subscriptions[instance := []];
    SubscribeRepeated(BusState(st.listeners, start), factories, instance, d, RegisteredCount(d.annotations, factories));
  }

  /** After `unsubscribe`, no list of a handler method's class holds a listener
      for that method bound to this instance. */
  lemma {:induction false} UnsubscribeAllRemoves(st: BusState, instance: Value, ms: seq<Declared>)
    requires forall i :: 0 <= i < |ms| ==> |ms[i].handler.paramTypes| == 1
    ensures var r := UnsubscribeAll(st, instance, ms);
            forall i, l: Listener :: (0 <= i < |ms| && ms[i].handler.paramTypes[0] in r.listeners
                                      && l in r.listeners[ms[i].handler.paramTypes[0]])
                                     ==> !(SameMethod(l.handler, ms[i].handler) && l.instance == instance)
  {
    if ms != [] {
      var init := ms[..|ms| - 1];
      UnsubscribeAllRemoves(st, instance, init);
      var prev := UnsubscribeAll(st, instance, init);
      var d := ms[|ms| - 1];
      var r := UnsubscribeOne(prev, instance, d);
      forall i, l: Listener | 0 <= i < |ms| && ms[i].handler.paramTypes[0] in r.listeners
                              && l in r.listeners[ms[i].handler.paramTypes[0]]
        ensures !(SameMethod(l.handler, ms[i].handler) && l.instance == instance)
      {
        var t := ms[i].handler.paramTypes[0];
        if i < |ms| - 1 {
          assert ms[i] == init[i];
          if t == d.handler.paramTypes[0] {
            assert l in prev.listeners[t];
          }
        }
      }
    }
  }

  /** What survives on the list of class `t` once every method of `ms` has had
      its `removeIf`: a listener is dropped when it is bound to this instance and
      its method equals one of `ms` whose event class is `t`. */
  function KeptAll(ms: seq<Declared>, instance: Value, t: JClass): Listener -> bool
  {
    (l: Listener) => !(l.instance == instance
                       && exists i :: 0 <= i < |ms| && |ms[i].handler.paramTypes| == 1
                                      && ms[i].handler.paramTypes[0] == t && SameMethod(l.handler, ms[i].handler))
  }

  /** `unsubscribe`'s loop filters each list once by `KeptAll`: the listeners it
      keeps stay in their order with all their copies. */
  lemma {:induction false} UnsubscribeAllFilters(st: BusState, instance: Value, ms: seq<Declared>)
    requires forall i :: 0 <= i < |ms| ==> |ms[i].handler.paramTypes| == 1
    ensures var r := UnsubscribeAll(st, instance, ms);
            forall t :: t in r.listeners ==> r.listeners[t] == Filter(st.listeners[t], KeptAll(ms, instance, t))
  {
    var r := UnsubscribeAll(st, instance, ms);
    if ms == [] {
      forall t | t in r.listeners ensures r.listeners[t] == Filter(st.listeners[t], KeptAll(ms, instance, t)) {
        FilterKeepsAll(st.listeners[t], KeptAll(ms, instance, t));
      }
    } else {
      var init := ms[..|ms| - 1];
      var d := ms[|ms| - 1];
      UnsubscribeAllFilters(st, instance, init);
      var prev := UnsubscribeAll(st, instance, init);
      assert r == UnsubscribeOne(prev, instance, d);
      forall t | t in r.listeners ensures r.listeners[t] == Filter(st.listeners[t], KeptAll(ms, instance, t)) {
        assert t in prev.listeners;
        UnsubscribeAllFiltersAt(st, instance, ms, t);
      }
    }
  }

  /** The last step of `UnsubscribeAllFilters`, for one class. */
  lemma UnsubscribeAllFiltersAt(st: BusState, instance: Value, ms: seq<Declared>, t: JClass)
    requires forall i :: 0 <= i < |ms| ==> |ms[i].handler.paramTypes| == 1
    requires ms != [] && t in st.listeners
    requires UnsubscribeAll(st, instance, ms[..|ms| - 1]).listeners[t]
             == Filter(st.listeners[t], KeptAll(ms[..|ms| - 1], instance, t))
    ensures UnsubscribeAll(st, instance, ms).listeners[t] == Filter(st.listeners[t], KeptAll(ms, instance, t))
  {
    var init := ms[..|ms| - 1];
    var d := ms[|ms| - 1];
    var prev := UnsubscribeAll(st, instance, init);
    var s := st.listeners[t];
    assert UnsubscribeAll(st, instance, ms) == UnsubscribeOne(prev, instance, d);
    forall i | 0 <= i < |s| {
      KeptAllSnoc(ms, instance, t, s[i]);
    }
    if t == d.handler.paramTypes[0] {
      FilterFilter(s, KeptAll(init, instance, t), Kept(d.handler, instance), KeptAll(ms, instance, t));
    } else {
      FilterSame(s, KeptAll(init, instance, t), KeptAll(ms, instance, t));
    }
  }

  /** One more method in `ms` adds its own `removeIf` condition on its class. */
  lemma KeptAllSnoc(ms: seq<Declared>, instance: Value, t: JClass, l: Listener)
    requires ms != []
    ensures var d := ms[|ms| - 1];
            KeptAll(ms, instance, t)(l)
            == (KeptAll(ms[..|ms| - 1], instance, t)(l)
                && (|d.handler.paramTypes| == 1 && d.handler.paramTypes[0] == t ==> Kept(d.handler, instance)(l)))
  {
    var init := ms[..|ms| - 1];
    assert forall i :: 0 <= i < |init| ==> init[i] == ms[i];
    if !KeptAll(ms, instance, t)(l) {
      var j :| 0 <= j < |ms| && |ms[j].handler.paramTypes| == 1
               && ms[j].handler.paramTypes[0] == t && SameMethod(l.handler, ms[j].handler);
      if j < |init| {
        assert init[j] == ms[j];
      }
    }
  }

  /** After `unsubscribe`, no listener for any of the instance's handler methods
      bound to it remains on any list, each list is the `KeptAll` filter of the
      old one, and the key set is unchanged. */
  lemma UnsubscribeRemovesHandlers(st: BusState, factories: map<Annotation, Factory>, instance: Value, declared: seq<Declared>)
    requires instance.Obj?
    ensures var r := UnsubscribeSpec(st, factories, instance, declared).value;
            && r.listeners.Keys == st.listeners.Keys
            && (forall d, l: Listener :: (d in declared && |d.handler.paramTypes| == 1 && Listens(d, factories)
                                         && d.handler.paramTypes[0] in r.listeners && l in r.listeners[d.handler.paramTypes[0]])
                                        ==> !(SameMethod(l.handler, d.handler) && l.instance == instance))
            && (forall t :: t in r.listeners ==>
                  r.listeners[t] == Filter(st.listeners[t], KeptAll(ListeningMethods(declared, factories), instance, t)))
  {
    var ms := ListeningMethods(declared, factories);
    UnsubscribeRemovesListed(st, factories, instance, declared);
    UnsubscribeAllFilters(st, instance, ms);
    assert UnsubscribeSpec(st, factories, instance, declared).value == UnsubscribeAll(st, instance, ms);
  }

  /** The removal half of `UnsubscribeRemovesHandlers`, over the declared methods. */
  lemma UnsubscribeRemovesListed(st: BusState, factories: map<Annotation, Factory>, instance: Value, declared: seq<Declared>)
    requires instance.Obj?
    ensures var r := UnsubscribeSpec(st, factories, instance, declared).value;
            forall d, l: Listener :: (d in declared && |d.handler.paramTypes| == 1 && Listens(d, factories)
                                      && d.handler.paramTypes[0] in r.listeners && l in r.listeners[d.handler.paramTypes[0]])
                                     ==> !(SameMethod(l.handler, d.handler) && l.instance == instance)
  {
    var ms := ListeningMethods(declared, factories);
    ListeningMethodsMembers(declared, factories);
    UnsubscribeAllRemoves(st, instance, ms);
    var r := UnsubscribeSpec(st, factories, instance, declared).value;
    forall d, l: Listener | d in declared && |d.handler.paramTypes| == 1 && Listens(d, factories)
                           && d.handler.paramTypes[0] in r.listeners && l in r.listeners[d.handler.paramTypes[0]]
      ensures !(SameMethod(l.handler, d.handler) && l.instance == instance)
    {
      assert d in ms;
      var i :| 0 <= i < |ms| && ms[i] == d;
    }
  }
}
