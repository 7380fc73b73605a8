/** In-order delivery of one event to a list of targets, as every bus's `post` loop
    does it: each target is called once, in list order, and the first one that
    throws ends the delivery with that exception. */
module Delivery {
  import opened JavaModel

  /** The targets that were called, in call order, and the exception that ended
      the delivery early, if any. */
  datatype Delivered<T> = Delivered(called: seq<T>, thrown: Option<Throwable>)

  /** Deliver to `targets`; `outcome(t)` is what calling target `t` throws, if anything. */
  function Deliver<T>(targets: seq<T>, outcome: T -> Option<Throwable>): Delivered<T>
  {
    if targets == [] then Delivered([], None)
    else match outcome(targets[0])
      case Some(e) => Delivered([targets[0]], Some(e))
      case None =>
        var rest := Deliver(targets[1..], outcome);
        Delivered([targets[0]] + rest.called, rest.thrown)
  }

  /** What a delivery promises: the calls are a prefix of the targets in order; it
      is the whole list exactly when nobody threw; otherwise the last target called
      is the one that threw, and every earlier one returned normally. */
  lemma DeliverShape<T>(targets: seq<T>, outcome: T -> Option<Throwable>)
    ensures var d := Deliver(targets, outcome);
      && |d.called| <= |targets|
      && d.called == targets[..|d.called|]
      && (d.thrown.None? <==> (forall i :: 0 <= i < |targets| ==> outcome(targets[i]).None?))
      && (d.thrown.None? ==> d.called == targets)
      && (d.thrown.Some? ==> |d.called| > 0 && outcome(d.called[|d.called| - 1]) == d.thrown)
      && (forall i :: 0 <= i < |d.called| - 1 ==> outcome(d.called[i]).None?)
  {
    DeliverPrefix(targets, outcome);
    DeliverNoneIff(targets, outcome);
    DeliverStopsAtThrower(targets, outcome);
  }

  /** The calls are a prefix of the targets, all of them when nobody threw. */
  lemma {:induction false} DeliverPrefix<T>(targets: seq<T>, outcome: T -> Option<Throwable>)
    ensures var d := Deliver(targets, outcome);
      && |d.called| <= |targets|
      && d.called == targets[..|d.called|]
      && (d.thrown.None? ==> d.called == targets)
      && (d.thrown.Some? ==> |d.called| > 0)
  {
    if targets != [] && outcome(targets[0]).None? {
      var t := targets[1..];
      DeliverPrefix(t, outcome);
      var rest := Deliver(t, outcome);
      assert Deliver(targets, outcome) == Delivered([targets[0]] + rest.called, rest.thrown);
      assert targets[..|rest.called| + 1] == [targets[0]] + t[..|rest.called|];
      assert targets == [targets[0]] + t;
    }
  }

  /** Nobody threw exactly when no target throws. */
  lemma {:induction false} DeliverNoneIff<T>(targets: seq<T>, outcome: T -> Option<Throwable>)
    ensures Deliver(targets, outcome).thrown.None? <==> (forall i :: 0 <= i < |targets| ==> outcome(targets[i]).None?)
  {
    if targets != [] && outcome(targets[0]).None? {
      var t := targets[1..];
      DeliverNoneIff(t, outcome);
      assert Deliver(targets, outcome).thrown == Deliver(t, outcome).thrown;
      if forall i :: 0 <= i < |t| ==> outcome(t[i]).None? {
        forall i | 0 <= i < |targets| ensures outcome(targets[i]).None? {
          if i > 0 { assert targets[i] == t[i - 1]; }
        }
      } else {
        var j :| 0 <= j < |t| && outcome(t[j]).Some?;
        assert targets[j + 1] == t[j];
      }
    }
  }

  /** Every call but the last returned normally; when one threw, it is the last. */
  lemma {:induction false} DeliverStopsAtThrower<T>(targets: seq<T>, outcome: T -> Option<Throwable>)
    ensures var d := Deliver(targets, outcome);
      && (d.thrown.Some? ==> |d.called| > 0 && outcome(d.called[|d.called| - 1]) == d.thrown)
      && (forall i :: 0 <= i < |d.called| - 1 ==> outcome(d.called[i]).None?)
  {
    if targets != [] && outcome(targets[0]).None? {
      var t := targets[1..];
      DeliverStopsAtThrower(t, outcome);
      var rest := Deliver(t, outcome);
      var d := Deliver(targets, outcome);
      assert d == Delivered([targets[0]] + rest.called, rest.thrown);
      if rest.thrown.Some? {
        assert d.called[|d.called| - 1] == rest.called[|rest.called| - 1];
      }
      forall i | 0 <= i < |d.called| - 1 ensures outcome(d.called[i]).None? {
        if i > 0 { assert d.called[i] == rest.called[i - 1]; }
      }
    }
  }

  /** With no target throwing, every target is called exactly once, in order. */
  lemma DeliverAll<T>(targets: seq<T>, outcome: T -> Option<Throwable>)
    requires forall i :: 0 <= i < |targets| ==> outcome(targets[i]).None?
    ensures Deliver(targets, outcome) == Delivered(targets, None)
  {
    DeliverShape(targets, outcome);
  }

  /** Splitting a delivery after a prefix of targets that all return normally. */
  function Join<T>(prefix: seq<T>, d: Delivered<T>): Delivered<T>
  {
    Delivered(prefix + d.called, d.thrown)
  }

  /** Joining twice is joining once with both prefixes. */
  lemma JoinTwice<T>(a: seq<T>, b: seq<T>, d: Delivered<T>)
    ensures Join(a, Join(b, d)) == Join(a + b, d)
  {
    assert a + (b + d.called) == (a + b) + d.called;
  }

  /** The `forEach` loop of a bus's `post`: each target in turn, stopping at the
      first one that throws. */
  method DeliverEach<T>(targets: seq<T>, outcome: T -> Option<Throwable>) returns (r: Delivered<T>)
    ensures r == Deliver(targets, outcome)
  {
    var i := 0;
    var called := [];
    while i < |targets|
      invariant 0 <= i <= |targets|
      invariant called == targets[..i]
      invariant Deliver(targets, outcome) == Join(called, Deliver(targets[i..], outcome))
    {
      assert targets[i..][1..] == targets[i + 1..];
      called := called + [targets[i]];
      var thrown := outcome(targets[i]);
      if thrown.Some? {
        return Delivered(called, thrown);
      }
      i := i + 1;
    }
    return Delivered(called, None);
  }
}
