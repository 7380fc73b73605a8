/** Priority order shared by the buses: lists kept in non-increasing priority,
    the stable sort that `List.sort` / `Stream.sorted` perform with a reversed
    `comparingInt(getPriority)` comparator, and `List.remove(Object)`. */
module PriorityOrder {

  /** Every element is at least as urgent as every later one. */
  predicate NonIncreasing<T>(s: seq<T>, prio: T -> int)
  {
    forall i, j :: 0 <= i < j < |s| ==> prio(s[i]) >= prio(s[j])
  }

  /** Number of leading elements whose priority is at least `p`: where a newcomer of
      priority `p` lands when ties keep registration order (oldest first). */
  function TiesEnd<T>(s: seq<T>, p: int, prio: T -> int): (k: nat)
    ensures k <= |s|
    ensures forall i :: 0 <= i < k ==> prio(s[i]) >= p
    ensures k < |s| ==> prio(s[k]) < p
  {
    if s == [] || prio(s[0]) < p then 0 else 1 + TiesEnd(s[1..], p, prio)
  }

  /** One insertion step of a stable sort by descending priority: `x` goes after
      every element that does not have a strictly lower priority. */
  function InsertStable<T>(s: seq<T>, x: T, prio: T -> int): seq<T>
  {
    if s == [] then [x]
    else if prio(s[0]) >= prio(x) then [s[0]] + InsertStable(s[1..], x, prio)
    else [x] + s
  }

  /** The stable sort by descending priority (insertion sort, which is stable). */
  function StableSortDesc<T>(s: seq<T>, prio: T -> int): seq<T>
  {
    if s == [] then [] else InsertStable(StableSortDesc(s[..|s| - 1], prio), s[|s| - 1], prio)
  }

  lemma {:induction false} InsertStableShape<T>(s: seq<T>, x: T, prio: T -> int)
    ensures InsertStable(s, x, prio) == s[..TiesEnd(s, prio(x), prio)] + [x] + s[TiesEnd(s, prio(x), prio)..]
  {
    if s != [] && prio(s[0]) >= prio(x) {
      var t := s[1..];
      var k := TiesEnd(t, prio(x), prio);
      assert TiesEnd(s, prio(x), prio) == k + 1;
      assert [s[0]] + t == s;
      InsertStableShape(t, x, prio);
      assert InsertStable(s, x, prio) == [s[0]] + (t[..k] + [x] + t[k..]);
      ConsSplice(s[0], t, x, k);
    } else {
      assert TiesEnd(s, prio(x), prio) == 0;
      assert s[..0] == [] && s[0..] == s;
    }
  }

  /** Splicing `x` in at `k` and then putting `h` in front is splicing it at `k + 1`
      into `[h] + t`. */
  lemma ConsSplice<T>(h: T, t: seq<T>, x: T, k: nat)
    requires k <= |t|
    ensures [h] + (t[..k] + [x] + t[k..]) == ([h] + t)[..k + 1] + [x] + ([h] + t)[k + 1..]
  {
    var s := [h] + t;
    assert s[..k + 1] == [h] + t[..k];
    assert s[k + 1..] == t[k..];
  }

  lemma {:induction false} InsertStableMultiset<T>(s: seq<T>, x: T, prio: T -> int)
    ensures multiset(InsertStable(s, x, prio)) == multiset(s) + multiset{x}
  {
    InsertStableShape(s, x, prio);
    var k := TiesEnd(s, prio(x), prio);
    assert s == s[..k] + s[k..];
  }

  /** On a sorted list, the stable insertion keeps the list sorted. */
  lemma InsertStableSorted<T>(s: seq<T>, x: T, prio: T -> int)
    requires NonIncreasing(s, prio)
    ensures NonIncreasing(InsertStable(s, x, prio), prio)
  {
    InsertStableShape(s, x, prio);
    SpliceSorted(s, x, TiesEnd(s, prio(x), prio), prio);
  }

  /** Splicing `x` into a sorted list between the elements at least as urgent and
      the strictly less urgent ones keeps it sorted. */
  lemma SpliceSorted<T>(s: seq<T>, x: T, k: nat, prio: T -> int)
    requires NonIncreasing(s, prio) && k <= |s|
    requires forall i :: 0 <= i < k ==> prio(s[i]) >= prio(x)
    requires k < |s| ==> prio(s[k]) < prio(x)
    ensures NonIncreasing(s[..k] + [x] + s[k..], prio)
  {
    var r := s[..k] + [x] + s[k..];
    forall i | 0 <= i < |r|
      ensures r[i] == if i < k then s[i] else if i == k then x else s[i - 1]
    {
    }
    forall i, j | 0 <= i < j < |r| ensures prio(r[i]) >= prio(r[j]) {
      if j > k {
        assert r[j] == s[j - 1];
        if i == k {
          assert prio(s[k]) >= prio(s[j - 1]);
        }
      }
    }
  }

  /** The stable sort always yields a sorted permutation of its input. */
  lemma {:induction false} StableSortDescCorrect<T>(s: seq<T>, prio: T -> int)
    ensures NonIncreasing(StableSortDesc(s, prio), prio)
    ensures multiset(StableSortDesc(s, prio)) == multiset(s)
  {
    if s != [] {
      var init := s[..|s| - 1];
      StableSortDescCorrect(init, prio);
      InsertStableSorted(StableSortDesc(init, prio), s[|s| - 1], prio);
      InsertStableMultiset(StableSortDesc(init, prio), s[|s| - 1], prio);
      assert s == init + [s[|s| - 1]];
    }
  }

  /** Sorting an already sorted list changes nothing (stability on a sorted input). */
  lemma {:induction false} StableSortDescOfSorted<T>(s: seq<T>, prio: T -> int)
    requires NonIncreasing(s, prio)
    ensures StableSortDesc(s, prio) == s
  {
    if s != [] {
      var init := s[..|s| - 1];
      var x := s[|s| - 1];
      StableSortDescOfSorted(init, prio);
      InsertStableShape(init, x, prio);
      var k := TiesEnd(init, prio(x), prio);
      if k < |init| {
        assert false;
      }
      assert init[..k] == init;
      assert s == init + [x];
    }
  }

  /** Appending to a sorted list and sorting stably places the newcomer after every
      element of equal or higher priority and before every lower one. */
  lemma AppendThenSort<T>(s: seq<T>, x: T, prio: T -> int)
    requires NonIncreasing(s, prio)
    ensures StableSortDesc(s + [x], prio) == s[..TiesEnd(s, prio(x), prio)] + [x] + s[TiesEnd(s, prio(x), prio)..]
    ensures NonIncreasing(StableSortDesc(s + [x], prio), prio)
  {
    SortAppend(s, x, prio);
    InsertStableShape(s, x, prio);
    InsertStableSorted(s, x, prio);
  }

  /** The placement half of `AppendThenSort`. */
  lemma AppendThenSortShape<T>(s: seq<T>, x: T, prio: T -> int)
    requires NonIncreasing(s, prio)
    ensures StableSortDesc(s + [x], prio) == s[..TiesEnd(s, prio(x), prio)] + [x] + s[TiesEnd(s, prio(x), prio)..]
  {
    SortAppend(s, x, prio);
    InsertStableShape(s, x, prio);
  }

  /** Sorting a sorted list with one element appended is one insertion step. */
  lemma SortAppend<T>(s: seq<T>, x: T, prio: T -> int)
    requires NonIncreasing(s, prio)
    ensures StableSortDesc(s + [x], prio) == InsertStable(s, x, prio)
  {
    assert (s + [x])[..|s|] == s;
    StableSortDescOfSorted(s, prio);
  }

  /** `List.remove(Object)`: drop the first element equal to `x`, if any. */
  function RemoveFirst<T(==)>(s: seq<T>, x: T): seq<T>
  {
    if s == [] then [] else if s[0] == x then s[1..] else [s[0]] + RemoveFirst(s[1..], x)
  }

  /** Index of the first occurrence of `x` (`List.indexOf`), or `|s|` when absent. */
  function FirstIndex<T(==)>(s: seq<T>, x: T): (i: nat)
    ensures i <= |s|
    ensures i < |s| ==> s[i] == x
    ensures forall j :: 0 <= j < i ==> s[j] != x
  {
    if s == [] then 0 else if s[0] == x then 0 else 1 + FirstIndex(s[1..], x)
  }

  /** `remove` drops exactly the first occurrence and keeps the order of the rest;
      without an occurrence it changes nothing. */
  lemma RemoveFirstShape<T>(s: seq<T>, x: T)
    ensures x in s ==> RemoveFirst(s, x) == s[..FirstIndex(s, x)] + s[FirstIndex(s, x) + 1..]
    ensures x !in s ==> RemoveFirst(s, x) == s
    ensures x in s <==> FirstIndex(s, x) < |s|
  {
    RemoveFirstAt(s, x);
    if FirstIndex(s, x) == |s| {
      assert forall j :: 0 <= j < |s| ==> s[j] != x;
    }
  }

  /** `RemoveFirst` drops the entry at `FirstIndex`, or nothing when there is none. */
  lemma {:induction false} RemoveFirstAt<T>(s: seq<T>, x: T)
    ensures var i := FirstIndex(s, x);
            RemoveFirst(s, x) == if i < |s| then s[..i] + s[i + 1..] else s
  {
    if s != [] && s[0] != x {
      RemoveFirstAt(s[1..], x);
      var i := FirstIndex(s[1..], x);
      if i < |s| - 1 {
        assert s[1..][..i] == s[1..i + 1];
        assert s[1..][i + 1..] == s[i + 2..];
        assert s[..i + 1] == [s[0]] + s[1..i + 1];
      } else {
        assert [s[0]] + s[1..] == s;
      }
    }
  }

  /** Index `a` of a list with entry `i` dropped is index `a` or `a + 1` of the list. */
  lemma DropIndex<T>(s: seq<T>, i: nat, a: nat)
    requires i < |s| && a < |s| - 1
    ensures (s[..i] + s[i + 1..])[a] == s[if a < i then a else a + 1]
  {
  }

  /** Dropping one entry keeps a list in non-increasing priority. */
  lemma DropKeepsOrder<T>(s: seq<T>, i: nat, prio: T -> int)
    requires NonIncreasing(s, prio)
    requires i < |s|
    ensures NonIncreasing(s[..i] + s[i + 1..], prio)
  {
    var r := s[..i] + s[i + 1..];
    forall a, b | 0 <= a < b < |r| ensures prio(r[a]) >= prio(r[b]) {
      DropIndex(s, i, a);
      DropIndex(s, i, b);
    }
  }

  /** Removing an element from a sorted list leaves it sorted. */
  lemma RemoveFirstSorted<T>(s: seq<T>, x: T, prio: T -> int)
    requires NonIncreasing(s, prio)
    ensures NonIncreasing(RemoveFirst(s, x), prio)
  {
    RemoveFirstShape(s, x);
    if x in s {
      DropKeepsOrder(s, FirstIndex(s, x), prio);
    }
  }

  /** Adding an element the list does not hold and removing it again restores the list. */
  lemma InsertThenRemove<T>(s: seq<T>, x: T, prio: T -> int)
    requires NonIncreasing(s, prio)
    requires x !in s
    ensures RemoveFirst(StableSortDesc(s + [x], prio), x) == s
  {
    AppendThenSortShape(s, x, prio);
    var k := TiesEnd(s, prio(x), prio);
    var front, back := s[..k], s[k..];
    assert s == front + back;
    assert x !in front;
    RemoveFirstOfSplice(front, back, x);
  }

  lemma {:induction false} RemoveFirstOfSplice<T>(a: seq<T>, b: seq<T>, x: T)
    requires x !in a
    ensures RemoveFirst(a + [x] + b, x) == a + b
  {
    if a == [] {
      assert a + [x] + b == [x] + b;
    } else {
      assert (a + [x] + b)[1..] == a[1..] + [x] + b;
      RemoveFirstOfSplice(a[1..], b, x);
      assert a + b == [a[0]] + (a[1..] + b);
    }
  }

  /** `removeIf` / a stream `filter`: the elements `keep` accepts, in order. */
  function Filter<T(==,!new)>(s: seq<T>, keep: T -> bool): (r: seq<T>)
    ensures |r| <= |s|
    ensures forall x :: x in r <==> x in s && keep(x)
  {
    if s == [] then []
    else
      assert s == [s[0]] + s[1..];
      if keep(s[0]) then [s[0]] + Filter(s[1..], keep) else Filter(s[1..], keep)
  }

  /** Filtering brings in no priority above a bound of the whole list. */
  lemma {:induction false} FilterBounded<T(!new)>(s: seq<T>, keep: T -> bool, prio: T -> int, p: int)
    requires forall i :: 0 <= i < |s| ==> prio(s[i]) <= p
    ensures forall j :: 0 <= j < |Filter(s, keep)| ==> prio(Filter(s, keep)[j]) <= p
  {
    if s != [] {
      FilterBounded(s[1..], keep, prio, p);
    }
  }

  /** A sorted list stays sorted with an element in front that bounds it. */
  lemma ConsSorted<T>(x: T, rest: seq<T>, prio: T -> int)
    requires NonIncreasing(rest, prio)
    requires forall j :: 0 <= j < |rest| ==> prio(rest[j]) <= prio(x)
    ensures NonIncreasing([x] + rest, prio)
  {
    var r := [x] + rest;
    forall i, j | 0 <= i < j < |r| ensures prio(r[i]) >= prio(r[j]) {
      assert r[j] == rest[j - 1];
      if i > 0 {
        assert r[i] == rest[i - 1];
      }
    }
  }

  /** Filtering keeps the order of what remains, so a sorted list stays sorted. */
  lemma {:induction false} FilterSorted<T(!new)>(s: seq<T>, keep: T -> bool, prio: T -> int)
    requires NonIncreasing(s, prio)
    ensures NonIncreasing(Filter(s, keep), prio)
  {
    if s != [] {
      var tail := s[1..];
      assert NonIncreasing(tail, prio);
      FilterSorted(tail, keep, prio);
      if keep(s[0]) {
        assert forall i :: 0 <= i < |tail| ==> prio(tail[i]) <= prio(s[0]) by {
          forall i | 0 <= i < |tail| ensures prio(tail[i]) <= prio(s[0]) {
            assert tail[i] == s[i + 1];
          }
        }
        FilterBounded(tail, keep, prio, prio(s[0]));
        ConsSorted(s[0], Filter(tail, keep), prio);
      }
    }
  }

  /** A filter that rejects nothing returns the list itself. */
  lemma {:induction false} FilterKeepsAll<T(!new)>(s: seq<T>, keep: T -> bool)
    requires forall i :: 0 <= i < |s| ==> keep(s[i])
    ensures Filter(s, keep) == s
  {
    if s != [] {
      FilterKeepsAll(s[1..], keep);
      assert s == [s[0]] + s[1..];
    }
  }
  /** Filtering by `p` and then by `q` is filtering once by a condition that
      holds exactly when both do. */
  lemma {:induction false} FilterFilter<T(!new)>(s: seq<T>, p: T -> bool, q: T -> bool, both: T -> bool)
    requires forall i :: 0 <= i < |s| ==> both(s[i]) == (p(s[i]) && q(s[i]))
    ensures Filter(Filter(s, p), q) == Filter(s, both)
  {
    if s != [] {
      var tail := s[1..];
      assert forall i :: 0 <= i < |tail| ==> tail[i] == s[i + 1];
      FilterFilter(tail, p, q, both);
      if p(s[0]) {
        assert ([s[0]] + Filter(tail, p))[1..] == Filter(tail, p);
      }
    }
  }

  /** Conditions that agree on every element filter the list alike. */
  lemma {:induction false} FilterSame<T(!new)>(s: seq<T>, p: T -> bool, q: T -> bool)
    requires forall i :: 0 <= i < |s| ==> p(s[i]) == q(s[i])
    ensures Filter(s, p) == Filter(s, q)
  {
    if s != [] {
      var tail := s[1..];
      assert forall i :: 0 <= i < |tail| ==> tail[i] == s[i + 1];
      FilterSame(tail, p, q);
    }
  }

  /** A kept value keeps every one of its copies; a rejected value keeps none. */
  lemma {:induction false} FilterCount<T(!new)>(s: seq<T>, keep: T -> bool, x: T)
    ensures multiset(Filter(s, keep))[x] == if keep(x) then multiset(s)[x] else 0
  {
    if s != [] {
      FilterCount(s[1..], keep, x);
      assert s == [s[0]] + s[1..];
      assert multiset(s) == multiset{s[0]} + multiset(s[1..]);
    }
  }
}
