/** The dispatcher that the annotation processor emits for every event type: each
    bucket keeps three parallel arrays (invoker adapters, their priorities and their
    stable ids) that `add` and `remove` replace by fresh copies, `dispatch` walks
    the invoker array it read, and the bus `State` remembers, per subscriber, the
    removal actions that undo its registrations. */
module GeneratedDispatcher {
  import opened JavaModel
  import opened PriorityOrder
  import opened Delivery

  /** An invoker adapter created by the emitted `register`; compared by reference. */
  class Invoker {
    constructor ()
    {
    }
  }

  function AsInt(p: Int32): int { p }

  /** The contents of a possibly `null` array; `null` stands for an empty bucket. */
  ghost function Elems<T>(a: array?<T>): seq<T>
    reads a
  {
    if a == null then [] else a[..]
  }

  /** The index of the first priority not above `p`: where `add` puts a newcomer of
      priority `p`, ahead of every entry of equal priority (newest first). */
  function InsertPos(ps: seq<Int32>, p: Int32): (k: nat)
    ensures k <= |ps|
    ensures forall i :: 0 <= i < k ==> ps[i] > p
    ensures k < |ps| ==> ps[k] <= p
  {
    if ps == [] || ps[0] <= p then 0 else 1 + InsertPos(ps[1..], p)
  }

  /** On sorted priorities, everything from the insertion position on is at most `p`,
      so exactly one position satisfies the `findInsertPos` contract. */
  lemma InsertPosSorted(ps: seq<Int32>, p: Int32, k: nat)
    requires NonIncreasing(ps, AsInt)
    requires k <= |ps|
    requires forall i :: 0 <= i < k ==> ps[i] > p
    requires forall i :: k <= i < |ps| ==> ps[i] <= p
    ensures k == InsertPos(ps, p)
  {
    var j := InsertPos(ps, p);
    assert k < |ps| ==> ps[k] <= p;
    assert j < |ps| ==> ps[j] <= p;
  }

  /** Inserting at `InsertPos` keeps priorities non-increasing. */
  lemma InsertPosKeepsOrder(ps: seq<Int32>, p: Int32)
    requires NonIncreasing(ps, AsInt)
    ensures NonIncreasing(ps[..InsertPos(ps, p)] + [p] + ps[InsertPos(ps, p)..], AsInt)
  {
    var k := InsertPos(ps, p);
    var r := ps[..k] + [p] + ps[k..];
    forall i, j | 0 <= i < j < |r| ensures r[i] >= r[j] {
      if j < k {
        assert r[i] == ps[i] && r[j] == ps[j];
      } else if j == k {
        assert r[i] == ps[i];
      } else if i < k {
        assert r[i] == ps[i] && r[j] == ps[j - 1];
      } else if i == k {
        assert r[j] == ps[j - 1] && ps[k] <= p;
        assert k == j - 1 || ps[k] >= ps[j - 1];
      } else {
        assert r[i] == ps[i - 1] && r[j] == ps[j - 1];
      }
    }
  }

  /** The two generations part ways on ties: the registry's stable sort puts a
      newcomer after every entry of equal priority, the generated `add` before them. */
  lemma TieBreakDiffers(ps: seq<Int32>, p: Int32)
    requires NonIncreasing(ps, AsInt)
    requires exists i :: 0 <= i < |ps| && ps[i] == p
    ensures InsertPos(ps, p) < TiesEnd(ps, p, AsInt)
  {
    var i :| 0 <= i < |ps| && ps[i] == p;
    var k := InsertPos(ps, p);
    var t := TiesEnd(ps, p, AsInt);
    assert k <= i;
    assert t <= i ==> AsInt(ps[t]) >= AsInt(ps[i]);
  }

  /** Dropping one entry keeps priorities non-increasing. */
  lemma DeleteKeepsOrder(ps: seq<Int32>, k: nat)
    requires NonIncreasing(ps, AsInt)
    requires k < |ps|
    ensures NonIncreasing(ps[..k] + ps[k + 1..], AsInt)
  {
    DropKeepsOrder(ps, k, AsInt);
  }

  /** `System.arraycopy(src, srcPos, dst, dstPos, length)` between two distinct arrays. */
  method ArrayCopy<T>(src: array<T>, srcPos: nat, dst: array<T>, dstPos: nat, length: nat)
    requires src != dst
    requires srcPos + length <= src.Length && dstPos + length <= dst.Length
    modifies dst
    ensures dst[dstPos..dstPos + length] == src[srcPos..srcPos + length]
    ensures dst[..dstPos] == old(dst[..dstPos])
    ensures dst[dstPos + length..] == old(dst[dstPos + length..])
  {
    var i := 0;
    while i < length
      invariant 0 <= i <= length
      invariant dst[dstPos..dstPos + i] == src[srcPos..srcPos + i]
      invariant dst[..dstPos] == old(dst[..dstPos])
      invariant dst[dstPos + i..] == old(dst[dstPos + i..])
    {
      dst[dstPos + i] := src[srcPos + i];
      assert dst[dstPos..dstPos + i + 1] == dst[dstPos..dstPos + i] + [src[srcPos + i]];
      assert src[srcPos..srcPos + i + 1] == src[srcPos..srcPos + i] + [src[srcPos + i]];
      i := i + 1;
    }
  }

  /** What `add` does to each of the three arrays: a fresh array one longer, the
      prefix copied, a gap at `pos` holding `x`, the suffix copied after it. */
  method InsertAt<T>(prev: array?<T>, pos: nat, x: T) returns (next: array<T>)
    requires pos <= |Elems(prev)|
    ensures fresh(next)
    ensures next[..] == Elems(prev)[..pos] + [x] + Elems(prev)[pos..]
  {
    var n := if prev == null then 0 else prev.Length;
    next := new T[n + 1](_ => x);
    next[pos] := x;
    if n != 0 {
      ArrayCopy(prev, 0, next, 0, pos);
      assert next[pos] == next[pos..][0] == x;
      ArrayCopy(prev, pos, next, pos + 1, n - pos);
      assert next[pos] == next[..pos + 1][pos] == x;
      assert next[..pos] == next[..pos + 1][..pos] == prev[..pos];
      assert next[pos + 1..] == next[pos + 1..pos + 1 + (n - pos)];
      assert prev[pos..] == prev[pos..pos + (n - pos)];
    }
    assert next[..] == next[..pos] + [next[pos]] + next[pos + 1..];
  }

  /** What `remove` does to each of the three arrays: a fresh array one shorter
      without the entry at `idx`. */
  method DeleteAt<T>(prev: array<T>, idx: nat) returns (next: array<T>)
    requires idx < prev.Length
    ensures fresh(next)
    ensures next[..] == prev[..idx] + prev[idx + 1..]
  {
    var n := prev.Length;
    next := new T[n - 1](i requires 0 <= i < n - 1 reads prev => prev[i]);
    ArrayCopy(prev, 0, next, 0, idx);
    ghost var head := next[..idx];
    assert head == prev[..idx] by {
      assert next[0..idx] == next[..idx] && prev[0..idx] == prev[..idx];
    }
    ArrayCopy(prev, idx + 1, next, idx, n - idx - 1);
    assert next[..idx] == head;
    assert next[idx..] == prev[idx + 1..] by {
      assert next[idx..] == next[idx..idx + (n - idx - 1)];
      assert prev[idx + 1..] == prev[idx + 1..idx + 1 + (n - idx - 1)];
    }
    assert next[..] == next[..idx] + next[idx..];
  }

  /** The scan for `prevI[i] == id` at the start of `add`. */
  method ContainsId(prevI: array?<bv64>, id: bv64) returns (present: bool)
    ensures present <==> id in Elems(prevI)
  {
    if prevI == null {
      return false;
    }
    var i := 0;
    while i < prevI.Length
      invariant 0 <= i <= prevI.Length
      invariant id !in prevI[..i]
    {
      if prevI[i] == id {
        assert prevI[..][i] == id;
        return true;
      }
      assert prevI[..i + 1] == prevI[..i] + [prevI[i]];
      i := i + 1;
    }
    assert prevI[..i] == prevI[..];
    return false;
  }

  /** The scan for `prev[i] == inv` at the start of `remove`: the first index, or -1. */
  method IndexOf<T(==)>(prev: array<T>, x: T) returns (idx: int)
    ensures idx == -1 <==> x !in prev[..]
    ensures idx != -1 ==> idx == FirstIndex(prev[..], x)
  {
    var i := 0;
    while i < prev.Length
      invariant 0 <= i <= prev.Length
      invariant x !in prev[..i]
    {
      if prev[i] == x {
        FirstIndexOfPrefix(prev[..], x, i);
        return i;
      }
      assert prev[..i + 1] == prev[..i] + [prev[i]];
      i := i + 1;
    }
    assert prev[..i] == prev[..];
    return -1;
  }

  lemma FirstIndexOfPrefix<T>(s: seq<T>, x: T, i: nat)
    requires i < |s| && s[i] == x && x !in s[..i]
    ensures FirstIndex(s, x) == i
  {
  }

  /** No element occurs twice. */
  predicate Distinct<T(==)>(s: seq<T>)
  {
    forall i, j :: 0 <= i < j < |s| ==> s[i] != s[j]
  }

  lemma InsertKeepsDistinct<T>(s: seq<T>, k: nat, x: T)
    requires Distinct(s) && x !in s && k <= |s|
    ensures Distinct(s[..k] + [x] + s[k..])
  {
    var r := s[..k] + [x] + s[k..];
    forall i, j | 0 <= i < j < |r| ensures r[i] != r[j] {
      var i' := if i < k then i else i - 1;
      var j' := if j < k then j else j - 1;
      if i != k && j != k {
        assert r[i] == s[i'] && r[j] == s[j'];
      } else if i == k {
        assert r[j] == s[j'];
      } else {
        assert r[i] == s[i'];
      }
    }
  }

  lemma DeleteKeepsDistinct<T>(s: seq<T>, k: nat)
    requires Distinct(s) && k < |s|
    ensures Distinct(s[..k] + s[k + 1..])
    ensures s[k] !in s[..k] + s[k + 1..]
    ensures forall x :: x in s[..k] + s[k + 1..] ==> x in s
    ensures forall x :: x in s && x != s[k] ==> x in s[..k] + s[k + 1..]
  {
    var r := s[..k] + s[k + 1..];
    forall i | 0 <= i < |r| ensures r[i] == s[if i < k then i else i + 1] {
    }
  }

  /** `findInsertPos(priorities, n, p)`: binary search over a non-increasing prefix
      for the leftmost index whose priority is at most `p`. `(lo + hi) >>> 1` is
      the halved sum, which cannot overflow an unsigned shift for array indices. */
  method FindInsertPos(priorities: array?<Int32>, n: int, p: Int32) returns (pos: int)
    requires priorities != null ==> 0 <= n <= priorities.Length
    requires priorities != null ==> NonIncreasing(priorities[..n], AsInt)
    ensures n <= 0 || priorities == null ==> pos == 0
    ensures priorities != null && n > 0 ==> 0 <= pos <= n
    ensures priorities != null && n > 0 ==> forall i :: 0 <= i < pos ==> priorities[i] > p
    ensures priorities != null && n > 0 ==> forall i :: pos <= i < n ==> priorities[i] <= p
  {
    if n == 0 || priorities == null {
      return 0;
    }
    var lo, hi := 0, n;
    while lo < hi
      invariant 0 <= lo <= hi <= n
      invariant forall i :: 0 <= i < lo ==> priorities[i] > p
      invariant forall i :: hi <= i < n ==> priorities[i] <= p
    {
      var mid := (lo + hi) / 2;
      var mp := priorities[mid];
      if mp > p {
        forall i | 0 <= i < mid ensures priorities[i] > p {
          assert priorities[..n][i] >= priorities[..n][mid];
        }
        lo := mid + 1;
      } else {
        forall i | mid <= i < n ensures priorities[i] <= p {
          assert priorities[..n][mid] >= priorities[..n][i];
        }
        hi := mid;
      }
    }
    return lo;
  }

  /** The `Runnable` that `add` returns: a no-op, or `remove(store, inv)`. */
  datatype Removal = NoOp | RemoveFrom(bucket: Bucket, inv: Invoker)

  /** One bucket of a dispatcher's `Store`: the three `volatile` array fields,
      all `null` while the bucket is empty. */
  class Bucket {
    var invokers: array?<Invoker>
    var prios: array?<Int32>
    var ids: array?<bv64>

    ghost function Invs(): seq<Invoker>
      reads this, invokers
    {
      Elems(invokers)
    }

    ghost function Prios(): seq<Int32>
      reads this, prios
    {
      Elems(prios)
    }

    ghost function Ids(): seq<bv64>
      reads this, ids
    {
      Elems(ids)
    }

    /** The three arrays are `null` together or hold at least one entry each, in
        step; priorities never increase; stable ids and invokers are unique. */
    ghost predicate Valid()
      reads this, invokers, prios, ids
    {
      && (invokers == null <==> prios == null)
      && (invokers == null <==> ids == null)
      && (invokers != null ==> invokers.Length > 0)
      && |Invs()| == |Prios()| == |Ids()|
      && NonIncreasing(Prios(), AsInt)
      && Distinct(Ids())
      && Distinct(Invs())
    }

    /** A new `Store` starts with every bucket `null`. */
    constructor ()
      ensures Valid() && invokers == null && prios == null && ids == null
    {
      invokers, prios, ids := null, null, null;
    }

    /** The emitted `add`: an id already present makes it a no-op returning a
        do-nothing removal; otherwise the three arrays are rebuilt with the newcomer
        at `findInsertPos` and the removal of `inv` is returned. `inv` is the adapter
        `register` has just created, so it is not in the bucket yet. */
    method Add(priority: Int32, id: bv64, inv: Invoker) returns (removal: Removal)
      requires Valid()
      requires inv !in Invs()
      modifies this
      ensures Valid()
      ensures id in old(Ids()) ==> removal == NoOp && unchanged(this)
      ensures id !in old(Ids()) ==> removal == RemoveFrom(this, inv)
      ensures id !in old(Ids()) ==>
                var k := InsertPos(old(Prios()), priority);
                && Invs() == old(Invs())[..k] + [inv] + old(Invs())[k..]
                && Prios() == old(Prios())[..k] + [priority] + old(Prios())[k..]
                && Ids() == old(Ids())[..k] + [id] + old(Ids())[k..]
      ensures id !in old(Ids()) ==> fresh(invokers) && fresh(prios) && fresh(ids)
    {
      var prev, prevP, prevI := invokers, prios, ids;
      var n := if prev == null then 0 else prev.Length;
      var present := ContainsId(prevI, id);
      if present {
        return NoOp;
      }
      ghost var oldInvs, oldPrios, oldIds := Invs(), Prios(), Ids();
      if prevP != null {
        assert prevP[..n] == oldPrios;
      }
      var pos := FindInsertPos(prevP, n, priority);
      InsertPosSorted(oldPrios, priority, pos);
      InsertPosKeepsOrder(oldPrios, priority);
      InsertKeepsDistinct(oldIds, pos, id);
      InsertKeepsDistinct(oldInvs, pos, inv);
      var next := InsertAt(prev, pos, inv);
      var nextP := InsertAt(prevP, pos, priority);
      var nextI := InsertAt(prevI, pos, id);
      invokers, prios, ids := next, nextP, nextI;
      removal := RemoveFrom(this, inv);
    }

    /** The emitted `remove`: find `inv` by reference and rebuild the arrays without
        it; removing the last entry sets all three to `null`; an absent invoker or an
        empty bucket changes nothing. */
    method Remove(inv: Invoker)
      requires Valid()
      modifies this
      ensures Valid()
      ensures inv !in old(Invs()) ==> unchanged(this)
      ensures inv in old(Invs()) ==>
                var k := FirstIndex(old(Invs()), inv);
                && Invs() == old(Invs())[..k] + old(Invs())[k + 1..]
                && Prios() == old(Prios())[..k] + old(Prios())[k + 1..]
                && Ids() == old(Ids())[..k] + old(Ids())[k + 1..]
      ensures inv in old(Invs()) && |old(Invs())| == 1 ==> invokers == null && prios == null && ids == null
      ensures inv !in Invs()
      ensures forall x :: x in Invs() ==> x in old(Invs())
      ensures forall x :: x in old(Invs()) && x != inv ==> x in Invs()
    {
      var prev, prevP, prevI := invokers, prios, ids;
      if prev == null {
        return;
      }
      var n := prev.Length;
      var idx := IndexOf(prev, inv);
      if idx < 0 {
        return;
      }
      ghost var oldInvs, oldPrios, oldIds := Invs(), Prios(), Ids();
      DeleteKeepsOrder(oldPrios, idx);
      DeleteKeepsDistinct(oldIds, idx);
      DeleteKeepsDistinct(oldInvs, idx);
      if n == 1 {
        assert oldInvs[..idx] + oldInvs[idx + 1..] == [];
        assert oldPrios[..idx] + oldPrios[idx + 1..] == [];
        assert oldIds[..idx] + oldIds[idx + 1..] == [];
        invokers, prios, ids := null, null, null;
        return;
      }
      var next := DeleteAt(prev, idx);
      var nextP := DeleteAt(prevP, idx);
      var nextI := DeleteAt(prevI, idx);
      invokers, prios, ids := next, nextP, nextI;
      assert Invs() == oldInvs[..idx] + oldInvs[idx + 1..];
      assert Prios() == oldPrios[..idx] + oldPrios[idx + 1..];
      assert Ids() == oldIds[..idx] + oldIds[idx + 1..];
    }

    /** The emitted dispatch loop over this bucket: read the invoker array once and
        call each invoker in index order; `outcome(inv)` is what `inv.invoke` throws,
        which ends the dispatch. */
    method Dispatch(outcome: Invoker -> Option<Throwable>) returns (d: Delivered<Invoker>)
      requires Valid()
      ensures d == Deliver(Invs(), outcome)
    {
      var local := invokers;
      if local == null {
        return Delivered([], None);
      }
      ghost var arr := local[..];
      var index := 0;
      var called := [];
      while index < local.Length
        invariant 0 <= index <= local.Length
        invariant called == arr[..index]
        invariant Deliver(arr, outcome) == Join(called, Deliver(arr[index..], outcome))
      {
        assert arr[index..][1..] == arr[index + 1..];
        called := called + [local[index]];
        var thrown := outcome(local[index]);
        if thrown.Some? {
          return Delivered(called, thrown);
        }
        index := index + 1;
      }
      assert arr[index..] == [];
      return Delivered(called, None);
    }
  }

  /** The emitted `State`: removal actions per subscriber (`ConcurrentHashMap`,
      which refuses a `null` key). */
  class State {
    var removals: map<Value, seq<Removal>>

    constructor ()
      ensures removals == map[]
    {
      removals := map[];
    }

    function RemovalsOf(subscriber: Value): seq<Removal>
      reads this
    {
      if subscriber in removals then removals[subscriber] else []
    }

    /** `addRemoval`: append to the subscriber's list, creating it if needed; the
        result (`compute(...) != null`) is always true. */
    method AddRemoval(subscriber: Value, r: Removal) returns (added: bool)
      requires subscriber.Obj?
      modifies this
      ensures added
      ensures removals == old(removals)[subscriber := old(RemovalsOf(subscriber)) + [r]]
    {
      removals := removals[subscriber := RemovalsOf(subscriber) + [r]];
      added := true;
    }

    /** `takeRemovals`: remove and return the subscriber's list (`null` when absent). */
    method TakeRemovals(subscriber: Value) returns (list: Result<Option<seq<Removal>>>)
      modifies this
      ensures subscriber.Null? ==> list == Err(NullPointerException) && removals == old(removals)
      ensures subscriber.Obj? ==> removals == old(removals) - {subscriber}
      ensures subscriber.Obj? && subscriber in old(removals) ==> list == Ok(Some(old(removals)[subscriber]))
      ensures subscriber.Obj? && subscriber !in old(removals) ==> list == Ok(None)
    {
      if subscriber.Null? {
        return Err(NullPointerException);
      }
      if subscriber in removals {
        list := Ok(Some(removals[subscriber]));
      } else {
        list := Ok(None);
      }
      removals := removals - {subscriber};
    }

    /** `isSubscribed`: key presence. */
    function IsSubscribed(subscriber: Value): (r: Result<bool>)
      reads this
      ensures subscriber.Null? <==> r.Err?
      ensures r.Ok? ==> (r.value <==> subscriber in removals)
    {
      if subscriber.Null? then Err(NullPointerException) else Ok(subscriber in removals)
    }
  }

  /** One listener method of the subscriber's class as the emitted `register` knows
      it: the bucket it goes to, its priority and its stable id. */
  datatype Binding = Binding(bucket: Bucket, priority: Int32, id: bv64)

  ghost function BucketsOf(plan: seq<Binding>): set<Bucket>
  {
    set b | b in plan :: b.bucket
  }

  ghost function RemovalBuckets(rs: seq<Removal>): set<Bucket>
  {
    set r | r in rs && r.RemoveFrom? :: r.bucket
  }

  /** One step of the emitted `register`: a new adapter, added to its bucket, and
      the returned removal recorded for the subscriber. */
  method RegisterOne(s: State, subscriber: Value, b: Binding) returns (removal: Removal)
    requires subscriber.Obj?
    requires b.bucket.Valid()
    modifies s, b.bucket
    ensures b.bucket.Valid()
    ensures removal.RemoveFrom? ==> removal.bucket == b.bucket && fresh(removal.inv)
    ensures s.removals == old(s.removals)[subscriber := old(s.RemovalsOf(subscriber)) + [removal]]
    // a known id changes nothing; otherwise the new adapter sits at `InsertPos`
    ensures b.id in old(b.bucket.Ids()) ==> removal == NoOp && unchanged(b.bucket)
    ensures b.id !in old(b.bucket.Ids()) ==>
              var k := InsertPos(old(b.bucket.Prios()), b.priority);
              && removal.RemoveFrom?
              && b.bucket.Invs() == old(b.bucket.Invs())[..k] + [removal.inv] + old(b.bucket.Invs())[k..]
              && b.bucket.Prios() == old(b.bucket.Prios())[..k] + [b.priority] + old(b.bucket.Prios())[k..]
              && b.bucket.Ids() == old(b.bucket.Ids())[..k] + [b.id] + old(b.bucket.Ids())[k..]
    // hence nothing leaves the bucket, and the id is in it afterwards
    ensures b.id in b.bucket.Ids()
    ensures forall x :: x in old(b.bucket.Invs()) ==> x in b.bucket.Invs()
    ensures forall x :: x in old(b.bucket.Ids()) ==> x in b.bucket.Ids()
    ensures removal.RemoveFrom? ==> removal.inv in b.bucket.Invs()
  {
    var inv := new Invoker();
    removal := b.bucket.Add(b.priority, b.id, inv);
    var _ := s.AddRemoval(subscriber, removal);
  }

  /** One loop step of `register` on the removals map: appending to the list that
      already holds `before + added` gives `before + added + [r]` over the map the
      loop started from. */
  lemma RemovalsStep(m0: map<Value, seq<Removal>>, prev: map<Value, seq<Removal>>, subscriber: Value,
                     before: seq<Removal>, added: seq<Removal>, r: Removal)
    requires prev == m0 || prev == m0[subscriber := before + added]
    ensures prev[subscriber := before + added + [r]] == m0[subscriber := before + (added + [r])]
  {
    assert before + added + [r] == before + (added + [r]);
  }

  /** One iteration of `Register`: `RegisterOne` for `plan[i]`, keeping the ids and
      adapters of `plan[..i]` in their buckets and adding those of `plan[i]`. */
  method RegisterNext(s: State, subscriber: Value, plan: seq<Binding>, i: nat, added: seq<Removal>)
    returns (removal: Removal)
    requires subscriber.Obj? && i < |plan| && |added| == i
    requires forall j :: 0 <= j < |plan| ==> plan[j].bucket.Valid()
    requires forall j :: 0 <= j < i ==> plan[j].id in plan[j].bucket.Ids()
    requires forall j :: 0 <= j < i && added[j].RemoveFrom? ==>
               added[j].bucket == plan[j].bucket && added[j].inv in plan[j].bucket.Invs()
    modifies s, plan[i].bucket
    ensures forall j :: 0 <= j < |plan| ==> plan[j].bucket.Valid()
    ensures removal.RemoveFrom? ==> fresh(removal.inv)
    ensures s.removals == old(s.removals)[subscriber := old(s.RemovalsOf(subscriber)) + [removal]]
    ensures forall j :: 0 <= j <= i ==> plan[j].id in plan[j].bucket.Ids()
    ensures forall j :: 0 <= j <= i && (added + [removal])[j].RemoveFrom? ==>
              (added + [removal])[j].bucket == plan[j].bucket
              && (added + [removal])[j].inv in plan[j].bucket.Invs()
  {
    removal := RegisterOne(s, subscriber, plan[i]);
    forall j | 0 <= j < |plan|
      ensures plan[j].bucket.Valid()
      ensures j < i ==> plan[j].id in plan[j].bucket.Ids()
      ensures j < i && added[j].RemoveFrom? ==> added[j].inv in plan[j].bucket.Invs()
    {
      if plan[j].bucket != plan[i].bucket {
        assert unchanged(plan[j].bucket);
        assert plan[j].bucket.Ids() == old(plan[j].bucket.Ids());
        assert plan[j].bucket.Invs() == old(plan[j].bucket.Invs());
      }
    }
    forall j | 0 <= j <= i && (added + [removal])[j].RemoveFrom?
      ensures (added + [removal])[j].bucket == plan[j].bucket
      ensures (added + [removal])[j].inv in plan[j].bucket.Invs()
    {
      if j < i {
        assert (added + [removal])[j] == added[j];
      }
    }
  }

  /** The emitted `register`: for a subscriber of a listener class, create an adapter
      per listener method, `add` it to its bucket and record the returned removal.
      `plan` lists the methods of the subscriber's class; `null` matches no class. */
  method Register(s: State, subscriber: Value, plan: seq<Binding>) returns (added: seq<Removal>)
    requires forall j :: 0 <= j < |plan| ==> plan[j].bucket.Valid()
    modifies s, BucketsOf(plan)
    ensures forall j :: 0 <= j < |plan| ==> plan[j].bucket.Valid()
    ensures subscriber.Null? ==> added == [] && s.removals == old(s.removals)
    ensures subscriber.Obj? ==> |added| == |plan|
    ensures subscriber.Obj? && plan != [] ==>
              s.removals == old(s.removals)[subscriber := old(s.RemovalsOf(subscriber)) + added]
    ensures plan == [] ==> s.removals == old(s.removals)
    ensures forall i :: 0 <= i < |added| && added[i].RemoveFrom? ==>
              added[i].bucket == plan[i].bucket && fresh(added[i].inv)
    // every listener method's id is in its bucket, and every adapter added is there
    ensures subscriber.Obj? ==> forall j :: 0 <= j < |plan| ==> plan[j].id in plan[j].bucket.Ids()
    ensures forall i :: 0 <= i < |added| && added[i].RemoveFrom? ==> added[i].inv in plan[i].bucket.Invs()
    ensures subscriber.Null? ==> unchanged(BucketsOf(plan))
  {
    added := [];
    if subscriber.Null? {
      return;
    }
    ghost var before := s.RemovalsOf(subscriber);
    var i := 0;
    while i < |plan|
      invariant 0 <= i <= |plan| && |added| == i
      invariant forall j :: 0 <= j < |plan| ==> plan[j].bucket.Valid()
      invariant i == 0 ==> s.removals == old(s.removals)
      invariant i > 0 ==> s.removals == old(s.removals)[subscriber := before + added]
      invariant forall j :: 0 <= j < i && added[j].RemoveFrom? ==> fresh(added[j].inv)
      invariant forall j :: 0 <= j < i ==> plan[j].id in plan[j].bucket.Ids()
      invariant forall j :: 0 <= j < i && added[j].RemoveFrom? ==>
                  added[j].bucket == plan[j].bucket && added[j].inv in plan[j].bucket.Invs()
    {
      ghost var prev := s.removals;
      assert s.RemovalsOf(subscriber) == before + added;
      var removal := RegisterNext(s, subscriber, plan, i, added);
      ghost var added0 := added;
      added := added + [removal];
      RemovalsStep(old(s.removals), prev, subscriber, before, added0, removal);
      forall j | 0 <= j <= i && added[j].RemoveFrom?
        ensures fresh(added[j].inv)
      {
        if j < i {
          assert added[j] == added0[j];
        }
      }
      i := i + 1;
    }
  }

  /** Some removal of `rs` takes `x` out of `b`. */
  ghost predicate RemovedBy(rs: seq<Removal>, b: Bucket, x: Invoker)
  {
    exists j :: 0 <= j < |rs| && rs[j] == RemoveFrom(b, x)
  }

  /** `Runnable.run` of a removal. */
  method RunRemoval(r: Removal)
    requires r.RemoveFrom? ==> r.bucket.Valid()
    modifies if r.RemoveFrom? then {r.bucket} else {}
    ensures r.RemoveFrom? ==> r.bucket.Valid() && r.inv !in r.bucket.Invs()
    ensures r.RemoveFrom? && r.inv !in old(r.bucket.Invs()) ==> unchanged(r.bucket)
    ensures r.RemoveFrom? && r.inv in old(r.bucket.Invs()) ==>
              var k := FirstIndex(old(r.bucket.Invs()), r.inv);
              && r.bucket.Invs() == old(r.bucket.Invs())[..k] + old(r.bucket.Invs())[k + 1..]
              && r.bucket.Prios() == old(r.bucket.Prios())[..k] + old(r.bucket.Prios())[k + 1..]
              && r.bucket.Ids() == old(r.bucket.Ids())[..k] + old(r.bucket.Ids())[k + 1..]
    // exactly `r.inv` leaves the bucket
    ensures r.RemoveFrom? ==> forall x :: x in r.bucket.Invs() <==> x in old(r.bucket.Invs()) && x != r.inv
  {
    if r.RemoveFrom? {
      r.bucket.Remove(r.inv);
    }
  }

  /** Runs each removal of `list` once, in order. Afterwards no invoker the list
      removes is left in its bucket, and every bucket it touches is still valid. */
  method RunRemovals(list: seq<Removal>)
    requires forall j :: 0 <= j < |list| && list[j].RemoveFrom? ==> list[j].bucket.Valid()
    modifies RemovalBuckets(list)
    ensures forall j :: 0 <= j < |list| && list[j].RemoveFrom? ==> list[j].bucket.Valid()
    ensures forall j :: 0 <= j < |list| && list[j].RemoveFrom? ==> list[j].inv !in list[j].bucket.Invs()
    // an invoker leaves a bucket exactly when some removal of the list names both
    ensures forall b, x :: b in RemovalBuckets(list) ==>
              (x in b.Invs() <==> x in old(b.Invs()) && !RemovedBy(list, b, x))
  {
    var i := 0;
    while i < |list|
      invariant 0 <= i <= |list|
      invariant forall j :: 0 <= j < |list| && list[j].RemoveFrom? ==> list[j].bucket.Valid()
      invariant forall j :: 0 <= j < i && list[j].RemoveFrom? ==> list[j].inv !in list[j].bucket.Invs()
      invariant forall b, x :: b in RemovalBuckets(list) ==>
                  (x in b.Invs() <==> x in old(b.Invs()) && !RemovedBy(list[..i], b, x))
    {
      RunNext(list, i);
      i := i + 1;
    }
  }

  /** One iteration of `RunRemovals`: runs `list[i]`, keeping every touched bucket
      valid and the invokers of `list[..i + 1]` out of their buckets. */
  method RunNext(list: seq<Removal>, i: nat)
    requires i < |list|
    requires forall j :: 0 <= j < |list| && list[j].RemoveFrom? ==> list[j].bucket.Valid()
    requires forall j :: 0 <= j < i && list[j].RemoveFrom? ==> list[j].inv !in list[j].bucket.Invs()
    modifies RemovalBuckets(list)
    ensures forall j :: 0 <= j < |list| && list[j].RemoveFrom? ==> list[j].bucket.Valid()
    ensures forall j :: 0 <= j <= i && list[j].RemoveFrom? ==> list[j].inv !in list[j].bucket.Invs()
    ensures forall b, x :: b in RemovalBuckets(list) ==>
              (x in b.Invs() <==> x in old(b.Invs()) && list[i] != RemoveFrom(b, x))
  {
    RunRemoval(list[i]);
    forall b, x | b in RemovalBuckets(list)
      ensures x in b.Invs() <==> x in old(b.Invs()) && list[i] != RemoveFrom(b, x)
    {
      if !list[i].RemoveFrom? || list[i].bucket != b {
        assert b.Invs() == old(b.Invs());
      }
    }
  }

  /** The emitted `unregister`: take the subscriber's removal list out of the state
      and run each removal once, in order; an unknown subscriber changes nothing.
      Every invoker the subscriber added is gone from its bucket afterwards. */
  method Unregister(s: State, subscriber: Value) returns (ran: Result<seq<Removal>>)
    requires forall j :: 0 <= j < |s.RemovalsOf(subscriber)| && s.RemovalsOf(subscriber)[j].RemoveFrom? ==>
               s.RemovalsOf(subscriber)[j].bucket.Valid()
    modifies s, RemovalBuckets(s.RemovalsOf(subscriber))
    ensures subscriber.Null? ==> ran == Err(NullPointerException) && s.removals == old(s.removals)
    ensures subscriber.Obj? ==> ran == Ok(old(s.RemovalsOf(subscriber)))
    ensures subscriber.Obj? ==> s.removals == old(s.removals) - {subscriber}
    ensures ran.Ok? ==> forall j :: 0 <= j < |ran.value| && ran.value[j].RemoveFrom? ==>
              ran.value[j].bucket.Valid() && ran.value[j].inv !in ran.value[j].bucket.Invs()
    // every other invoker stays in its bucket
    ensures ran.Ok? ==> forall b, x :: b in RemovalBuckets(ran.value) ==>
              (x in b.Invs() <==> x in old(b.Invs()) && !RemovedBy(ran.value, b, x))
  {
    var taken := s.TakeRemovals(subscriber);
    if taken.Err? {
      return Err(taken.error);
    }
    if taken.value.None? {
      return Ok([]);
    }
    var list := taken.value.value;
    RunRemovals(list);
    return Ok(list);
  }
}
