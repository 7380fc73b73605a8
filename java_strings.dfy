/** The `java.lang.String` operations the annotation processor uses, and a sort of
    distinct elements under a strict total order (`Collections.sort`, `List.sort`
    with a comparator). A string is its sequence of UTF-16 code units. */
module JavaStrings {

  /** `s.indexOf(c)`: the first position of `c`, or -1. */
  function IndexOf(s: string, c: char): (i: int)
    ensures -1 <= i < |s|
    ensures i == -1 <==> c !in s
    ensures i >= 0 ==> s[i] == c && c !in s[..i]
  {
    if s == [] then -1
    else if s[0] == c then 0
    else
      var j := IndexOf(s[1..], c);
      assert s[1..][..if j < 0 then 0 else j] == s[1..if j < 0 then 1 else j + 1];
      if j < 0 then -1 else j + 1
  }

  /** `s.lastIndexOf(c)`: the last position of `c`, or -1. */
  function LastIndexOf(s: string, c: char): (i: int)
    ensures -1 <= i < |s|
    ensures i == -1 <==> c !in s
    ensures i >= 0 ==> s[i] == c && c !in s[i + 1..]
  {
    if s == [] then -1
    else if s[|s| - 1] == c then |s| - 1
    else
      var init := s[..|s| - 1];
      var j := LastIndexOf(init, c);
      assert s == init + [s[|s| - 1]];
      assert j >= 0 ==> s[j + 1..] == init[j + 1..] + [s[|s| - 1]];
      j
  }

  /** `a.compareTo(b) < 0`: lexicographic by code unit, a proper prefix first. */
  predicate StrLt(a: string, b: string)
  {
    if a == [] then b != []
    else if b == [] then false
    else if a[0] != b[0] then a[0] < b[0]
    else StrLt(a[1..], b[1..])
  }

  lemma {:induction false} StrLtIrreflexive(a: string)
    ensures !StrLt(a, a)
  {
    if a != [] {
      StrLtIrreflexive(a[1..]);
    }
  }

  lemma {:induction false} StrLtTransitive(a: string, b: string, c: string)
    requires StrLt(a, b) && StrLt(b, c)
    ensures StrLt(a, c)
  {
    if a != [] && b != [] && c != [] && a[0] == b[0] && b[0] == c[0] {
      StrLtTransitive(a[1..], b[1..], c[1..]);
    }
  }

  lemma {:induction false} StrLtTotal(a: string, b: string)
    requires a != b
    ensures StrLt(a, b) || StrLt(b, a)
  {
    if a != [] && b != [] && a[0] == b[0] {
      assert a == [a[0]] + a[1..] && b == [b[0]] + b[1..];
      StrLtTotal(a[1..], b[1..]);
    }
  }

  /** A strict total order on `T`. */
  ghost predicate StrictTotal<T(!new)>(lt: (T, T) -> bool)
  {
    && (forall a :: !lt(a, a))
    && (forall a, b, c :: lt(a, b) && lt(b, c) ==> lt(a, c))
    && (forall a, b :: a != b ==> lt(a, b) || lt(b, a))
  }

  /** `String::compareTo` as a comparator. */
  const StrLess: (string, string) -> bool := (a, b) => StrLt(a, b)

  lemma StrLessStrictTotal()
    ensures StrictTotal(StrLess)
  {
    forall a ensures !StrLess(a, a) { StrLtIrreflexive(a); }
    forall a, b, c | StrLess(a, b) && StrLess(b, c) ensures StrLess(a, c) { StrLtTransitive(a, b, c); }
    forall a, b | a != b ensures StrLess(a, b) || StrLess(b, a) { StrLtTotal(a, b); }
  }

  /** Strictly ascending under `lt`. */
  ghost predicate Ascending<T>(s: seq<T>, lt: (T, T) -> bool)
  {
    forall i, j :: 0 <= i < j < |s| ==> lt(s[i], s[j])
  }

  predicate Distinct<T(==)>(s: seq<T>)
  {
    forall i, j :: 0 <= i < j < |s| ==> s[i] != s[j]
  }

  lemma DistinctAppend<T>(s: seq<T>, x: T)
    requires Distinct(s) && x !in s
    ensures Distinct(s + [x])
  {
    forall i, j | 0 <= i < j < |s| + 1 ensures (s + [x])[i] != (s + [x])[j] {
      assert (s + [x])[i] == s[i];
    }
  }

  /** Insert `x` in front of the first element that does not precede it. */
  function InsertBy<T>(x: T, s: seq<T>, lt: (T, T) -> bool): seq<T>
  {
    if s == [] then [x]
    else if lt(s[0], x) then [s[0]] + InsertBy(x, s[1..], lt)
    else [x] + s
  }

  /** The reference sort: insertion sort. On distinct elements every correct sort,
      stable or not, gives this same result. */
  function SortBy<T>(s: seq<T>, lt: (T, T) -> bool): seq<T>
  {
    if s == [] then [] else InsertBy(s[|s| - 1], SortBy(s[..|s| - 1], lt), lt)
  }

  lemma InsertByCorrect<T(!new)>(x: T, s: seq<T>, lt: (T, T) -> bool)
    requires StrictTotal(lt)
    requires Ascending(s, lt) && x !in s
    ensures multiset(InsertBy(x, s, lt)) == multiset(s) + multiset{x}
    ensures Ascending(InsertBy(x, s, lt), lt)
  {
    InsertByMultiset(x, s, lt);
    InsertByAscending(x, s, lt);
  }

  lemma {:induction false} InsertByMultiset<T>(x: T, s: seq<T>, lt: (T, T) -> bool)
    ensures multiset(InsertBy(x, s, lt)) == multiset(s) + multiset{x}
  {
    if s != [] && lt(s[0], x) {
      InsertByMultiset(x, s[1..], lt);
      assert s == [s[0]] + s[1..];
    }
  }

  lemma {:induction false} InsertByAscending<T(!new)>(x: T, s: seq<T>, lt: (T, T) -> bool)
    requires StrictTotal(lt)
    requires Ascending(s, lt) && x !in s
    ensures Ascending(InsertBy(x, s, lt), lt)
  {
    if s == [] {
    } else if lt(s[0], x) {
      var rest := InsertBy(x, s[1..], lt);
      InsertByAscending(x, s[1..], lt);
      InsertByMultiset(x, s[1..], lt);
      HeadPrecedes(s, lt);
      forall j | 0 <= j < |rest| ensures lt(s[0], rest[j]) {
        assert rest[j] in multiset(rest);
      }
      AscendingCons(s[0], rest, lt);
    } else {
      assert lt(x, s[0]);
      forall j | 0 <= j < |s| ensures lt(x, s[j]) {
        if j > 0 {
          assert lt(s[0], s[j]);
        }
      }
      AscendingCons(x, s, lt);
    }
  }

  /** In an ascending list the head precedes every later element. */
  lemma HeadPrecedes<T>(s: seq<T>, lt: (T, T) -> bool)
    requires Ascending(s, lt) && s != []
    ensures forall y :: y in s[1..] ==> lt(s[0], y)
  {
    forall y | y in s[1..] ensures lt(s[0], y) {
      var k :| 0 <= k < |s[1..]| && s[1..][k] == y;
      assert s[k + 1] == y;
    }
  }

  /** An element that precedes every element of an ascending list can go in front. */
  lemma AscendingCons<T>(y: T, t: seq<T>, lt: (T, T) -> bool)
    requires Ascending(t, lt)
    requires forall j :: 0 <= j < |t| ==> lt(y, t[j])
    ensures Ascending([y] + t, lt)
  {
    var r := [y] + t;
    forall i, j | 0 <= i < j < |r| ensures lt(r[i], r[j]) {
      if i > 0 {
        assert r[i] == t[i - 1];
      }
      assert r[j] == t[j - 1];
    }
  }

  /** `SortBy` returns the same elements, strictly ascending. */
  lemma {:induction false} SortByCorrect<T(!new)>(s: seq<T>, lt: (T, T) -> bool)
    requires StrictTotal(lt) && Distinct(s)
    ensures multiset(SortBy(s, lt)) == multiset(s)
    ensures Ascending(SortBy(s, lt), lt)
    ensures |SortBy(s, lt)| == |s|
  {
    if s != [] {
      var init := s[..|s| - 1];
      var x := s[|s| - 1];
      SortByCorrect(init, lt);
      assert s == init + [x];
      assert x !in init by {
        forall k | 0 <= k < |init| ensures init[k] != x { assert init[k] == s[k]; }
      }
      assert x !in SortBy(init, lt) by {
        assert x !in multiset(init);
      }
      InsertByCorrect(x, SortBy(init, lt), lt);
      assert |SortBy(s, lt)| == |multiset(SortBy(s, lt))|;
    }
  }

  /** Sorted distinct elements are distinct. */
  lemma AscendingDistinct<T(!new)>(s: seq<T>, lt: (T, T) -> bool)
    requires StrictTotal(lt) && Ascending(s, lt)
    ensures Distinct(s)
  {
    forall i, j | 0 <= i < j < |s| ensures s[i] != s[j] {
      assert lt(s[i], s[j]);
      assert !lt(s[i], s[i]);
    }
  }
}
