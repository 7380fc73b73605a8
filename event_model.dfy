/** `EventModel` of the annotation processor: what it collects for one event type
    before emitting the dispatcher (guard types, extractors, signatures, and the
    listener buckets keyed by condition and signature). */
module EventModel {
  import opened JavaModel
  import opened JavaStrings
  import opened PriorityOrder

  /** A listener method found on a listener class (its parameter plans are not
      part of this model). */
  datatype ListenerModel = ListenerModel(ownerFqn: string, methodName: string, priority: Int32,
                                         eventFqn: string, signatureKey: string)

  function ListenerPriority(l: ListenerModel): int { l.priority }

  datatype ExtractorModel = ExtractorModel(localName: string, declaredType: string, initExpression: string)

  datatype BucketKey = BucketKey(conditionKey: string, signatureKey: string)

  /** `isGeneric`: the event type name carries type arguments. */
  predicate IsGeneric(eventFqn: string)
  {
    IndexOf(eventFqn, '<') >= 0
  }

  const ObjectFqn: string := "java.lang.Object"

  /** `getGenericArgumentFqn`: the text between the first '<' and the last '>',
      with a wildcard `?` and a missing argument both read as `java.lang.Object`. */
  function GenericArgumentFqn(eventFqn: string): (r: string)
    ensures !IsGeneric(eventFqn) ==> r == ObjectFqn
    ensures r != "?"
  {
    var start := IndexOf(eventFqn, '<');
    var end := LastIndexOf(eventFqn, '>');
    if start >= 0 && end > start then
      var arg := eventFqn[start + 1..end];
      if arg == "?" then ObjectFqn else arg
    else ObjectFqn
  }

  /** For `Name<Arg>` the argument is `Arg` exactly, nested type arguments
      included; a wildcard is read as `Object`. */
  lemma GenericArgumentOfParameterized(name: string, arg: string)
    requires '<' !in name
    ensures IsGeneric(name + "<" + arg + ">")
    ensures GenericArgumentFqn(name + "<" + arg + ">") == if arg == "?" then ObjectFqn else arg
  {
    var s := name + "<" + arg + ">";
    assert forall k :: 0 <= k < |name| ==> s[k] == name[k];
    assert s[|name|] == '<';
    assert s[..|name|] == name;
    assert s[|s| - 1] == '>';
    assert s[|s|..] == [];
    assert s[|name| + 1..|s| - 1] == arg;
  }

  /** A name with no '<' is not generic. */
  lemma PlainNameNotGeneric(name: string)
    requires '<' !in name
    ensures !IsGeneric(name) && GenericArgumentFqn(name) == ObjectFqn
  {
  }

  /** Keys in `orderedBucketKeys` order: by signature key, then by condition key. */
  predicate KeyLt(a: BucketKey, b: BucketKey)
  {
    StrLt(a.signatureKey, b.signatureKey)
    || (a.signatureKey == b.signatureKey && StrLt(a.conditionKey, b.conditionKey))
  }

  const KeyLess: (BucketKey, BucketKey) -> bool := (a, b) => KeyLt(a, b)

  lemma KeyLessStrictTotal()
    ensures StrictTotal(KeyLess)
  {
    forall a ensures !KeyLess(a, a) {
      StrLtIrreflexive(a.signatureKey);
      StrLtIrreflexive(a.conditionKey);
    }
    forall a, b, c | KeyLess(a, b) && KeyLess(b, c) ensures KeyLess(a, c) {
      if StrLt(a.signatureKey, b.signatureKey) && StrLt(b.signatureKey, c.signatureKey) {
        StrLtTransitive(a.signatureKey, b.signatureKey, c.signatureKey);
      } else if a.signatureKey == b.signatureKey && b.signatureKey == c.signatureKey {
        StrLtTransitive(a.conditionKey, b.conditionKey, c.conditionKey);
      }
    }
    forall a, b | a != b ensures KeyLess(a, b) || KeyLess(b, a) {
      if a.signatureKey != b.signatureKey {
        StrLtTotal(a.signatureKey, b.signatureKey);
      } else {
        StrLtTotal(a.conditionKey, b.conditionKey);
      }
    }
  }

  class Model {
    const eventFqn: string
    var guardDeclaredTypes: map<string, string>
    var extractors: map<string, ExtractorModel>
    /** The `LinkedHashSet` of signature keys, in insertion order. */
    var signatures: seq<string>
    var buckets: map<BucketKey, seq<ListenerModel>>
    /** The `LinkedHashMap`'s key order: the order buckets were first created. */
    var bucketOrder: seq<BucketKey>

    ghost predicate Valid()
      reads this
    {
      Distinct(signatures) && BucketsValid()
    }

    /** Bucket keys in creation order, once each, and every bucket sorted. */
    ghost predicate BucketsValid()
      reads this
    {
      && Distinct(bucketOrder)
      && (forall k :: k in buckets <==> k in bucketOrder)
      && (forall k :: k in buckets ==> NonIncreasing(buckets[k], ListenerPriority))
    }

    constructor (eventFqn: string)
      ensures Valid()
      ensures this.eventFqn == eventFqn
      ensures guardDeclaredTypes == map[] && extractors == map[] && signatures == []
      ensures buckets == map[] && bucketOrder == []
    {
      this.eventFqn := eventFqn;
      guardDeclaredTypes := map[];
      extractors := map[];
      signatures := [];
      buckets := map[];
      bucketOrder := [];
    }

    /** `registerGuard`: the first declared type of a guard wins; a different type
        for the same guard later is an error (and changes nothing). */
    method RegisterGuard(name: string, declaredType: string) returns (thrown: Option<Throwable>)
      modifies this
      ensures name !in old(guardDeclaredTypes) ==>
                guardDeclaredTypes == old(guardDeclaredTypes)[name := declaredType] && thrown.None?
      ensures name in old(guardDeclaredTypes) ==> guardDeclaredTypes == old(guardDeclaredTypes)
      ensures thrown.Some? <==> name in old(guardDeclaredTypes) && old(guardDeclaredTypes)[name] != declaredType
      ensures thrown.Some? ==> thrown.value == IllegalStateException(
                "Guard " + name + " has conflicting types: " + old(guardDeclaredTypes)[name] + " vs " + declaredType)
      ensures extractors == old(extractors) && signatures == old(signatures)
      ensures buckets == old(buckets) && bucketOrder == old(bucketOrder)
    {
      if name !in guardDeclaredTypes {
        guardDeclaredTypes := guardDeclaredTypes[name := declaredType];
        return None;
      }
      var prev := guardDeclaredTypes[name];
      if prev != declaredType {
        return Some(IllegalStateException("Guard " + name + " has conflicting types: " + prev + " vs " + declaredType));
      }
      return None;
    }

    /** `registerExtractor`: the first extractor under a local name wins; another
        with a different type or initializer is an error (and changes nothing). */
    method RegisterExtractor(localName: string, declaredType: string, initExpr: string)
      returns (thrown: Option<Throwable>)
      modifies this
      ensures localName !in old(extractors) ==>
                extractors == old(extractors)[localName := ExtractorModel(localName, declaredType, initExpr)]
                && thrown.None?
      ensures localName in old(extractors) ==> extractors == old(extractors)
      ensures thrown.Some? <==> (localName in old(extractors)
                                 && (old(extractors)[localName].declaredType != declaredType
                                     || old(extractors)[localName].initExpression != initExpr))
      ensures thrown.Some? ==> thrown.value == IllegalStateException("Extractor " + localName + " mismatch.")
      ensures guardDeclaredTypes == old(guardDeclaredTypes) && signatures == old(signatures)
      ensures buckets == old(buckets) && bucketOrder == old(bucketOrder)
    {
      if localName !in extractors {
        extractors := extractors[localName := ExtractorModel(localName, declaredType, initExpr)];
        return None;
      }
      var prev := extractors[localName];
      if prev.declaredType != declaredType || prev.initExpression != initExpr {
        return Some(IllegalStateException("Extractor " + localName + " mismatch."));
      }
      return None;
    }

    /** `addListener`: record the signature, then append the listener to its bucket
        (creating the bucket if needed) and sort the bucket by descending priority,
        stably. */
    method AddListener(conditionKey: string, signatureKey: string, lm: ListenerModel)
      requires Valid()
      modifies this
      ensures Valid()
      ensures signatures == if signatureKey in old(signatures) then old(signatures) else old(signatures) + [signatureKey]
      ensures buckets == old(buckets)[BucketKey(conditionKey, signatureKey) :=
                StableSortDesc(old(BucketOf(BucketKey(conditionKey, signatureKey))) + [lm], ListenerPriority)]
      ensures bucketOrder == if BucketKey(conditionKey, signatureKey) in old(buckets) then old(bucketOrder)
                             else old(bucketOrder) + [BucketKey(conditionKey, signatureKey)]
      ensures guardDeclaredTypes == old(guardDeclaredTypes) && extractors == old(extractors)
    {
      AddSignature(signatureKey);
      AddToBucket(BucketKey(conditionKey, signatureKey), lm);
    }

    /** The listeners of a bucket; none for a key without one. */
    function BucketOf(key: BucketKey): seq<ListenerModel>
      reads this
    {
      if key in buckets then buckets[key] else []
    }

    /** `signatures.add(signatureKey)` on the `LinkedHashSet`. */
    method AddSignature(signatureKey: string)
      requires Distinct(signatures)
      modifies this
      ensures Distinct(signatures)
      ensures signatures == if signatureKey in old(signatures) then old(signatures) else old(signatures) + [signatureKey]
      ensures guardDeclaredTypes == old(guardDeclaredTypes) && extractors == old(extractors)
      ensures buckets == old(buckets) && bucketOrder == old(bucketOrder)
    {
      if signatureKey !in signatures {
        DistinctAppend(signatures, signatureKey);
        signatures := signatures + [signatureKey];
      }
    }

    /** `computeIfAbsent(key, ...).add(lm)` followed by the stable sort of that bucket. */
    method AddToBucket(key: BucketKey, lm: ListenerModel)
      requires BucketsValid()
      modifies this
      ensures BucketsValid()
      ensures buckets == old(buckets)[key := StableSortDesc(old(BucketOf(key)) + [lm], ListenerPriority)]
      ensures bucketOrder == if key in old(buckets) then old(bucketOrder) else old(bucketOrder) + [key]
      ensures guardDeclaredTypes == old(guardDeclaredTypes) && extractors == old(extractors)
      ensures signatures == old(signatures)
    {
      if key !in buckets {
        BucketCreated(buckets, bucketOrder, key);
        buckets := buckets[key := []];
        bucketOrder := bucketOrder + [key];
      }
      var sorted := AppendSorted(buckets[key], lm);
      BucketReplaced(buckets, bucketOrder, key, sorted);
      buckets := buckets[key := sorted];
    }

    /** `orderedBucketKeys`: the bucket keys sorted by signature key, then
        condition key. */
    method OrderedBucketKeys() returns (out: seq<BucketKey>)
      requires Valid()
      ensures out == SortBy(bucketOrder, KeyLess)
      ensures forall k :: k in out <==> k in buckets
      ensures |out| == |buckets|
      ensures forall i, j :: 0 <= i < j < |out| ==> KeyLt(out[i], out[j])
    {
      out := SortBy(bucketOrder, KeyLess);
      KeyLessStrictTotal();
      SortByCorrect(bucketOrder, KeyLess);
      assert forall k :: k in out <==> k in multiset(bucketOrder);
      assert |buckets| == |bucketOrder| by {
        DistinctKeysCount(bucketOrder, buckets);
      }
    }
  }

  /** The shape `BucketsValid` asks of the bucket table and the key order. */
  ghost predicate BucketsOk(buckets: map<BucketKey, seq<ListenerModel>>, order: seq<BucketKey>)
  {
    && Distinct(order)
    && (forall k :: k in buckets <==> k in order)
    && (forall k :: k in buckets ==> NonIncreasing(buckets[k], ListenerPriority))
  }

  /** A new, empty bucket goes to the end of the key order. */
  lemma BucketCreated(buckets: map<BucketKey, seq<ListenerModel>>, order: seq<BucketKey>, key: BucketKey)
    requires BucketsOk(buckets, order) && key !in buckets
    ensures BucketsOk(buckets[key := []], order + [key])
  {
    DistinctAppend(order, key);
  }

  /** Replacing a bucket by a sorted list keeps the table valid. */
  lemma BucketReplaced(buckets: map<BucketKey, seq<ListenerModel>>, order: seq<BucketKey>, key: BucketKey, list: seq<ListenerModel>)
    requires BucketsOk(buckets, order) && key in buckets && NonIncreasing(list, ListenerPriority)
    ensures BucketsOk(buckets[key := list], order)
  {
  }

  /** `list.add(lm)` then `list.sort(...)` by descending priority: a sorted list
      stays sorted, and ties keep their registration order. */
  function AppendSorted(list: seq<ListenerModel>, lm: ListenerModel): (r: seq<ListenerModel>)
    requires NonIncreasing(list, ListenerPriority)
    ensures r == StableSortDesc(list + [lm], ListenerPriority)
    ensures NonIncreasing(r, ListenerPriority)
    ensures r == list[..TiesEnd(list, lm.priority, ListenerPriority)] + [lm]
                 + list[TiesEnd(list, lm.priority, ListenerPriority)..]
  {
    AppendThenSort(list, lm, ListenerPriority);
    StableSortDesc(list + [lm], ListenerPriority)
  }

  /** A map whose keys are exactly the elements of a list without repeats has as
      many keys as the list has elements. */
  lemma {:induction false} DistinctKeysCount<K, V>(order: seq<K>, m: map<K, V>)
    requires Distinct(order)
    requires forall k :: k in m <==> k in order
    ensures |m| == |order|
  {
    if order != [] {
      var last := order[|order| - 1];
      var init := order[..|order| - 1];
      var m' := m - {last};
      DropLast(order, m);
      DistinctKeysCount(init, m');
      assert m.Keys == m'.Keys + {last};
    }
  }

  /** Dropping the last element of a list without repeats, and its key from the map. */
  lemma DropLast<K, V>(order: seq<K>, m: map<K, V>)
    requires order != [] && Distinct(order)
    requires forall k :: k in m <==> k in order
    ensures var last := order[|order| - 1];
            var init := order[..|order| - 1];
            && Distinct(init) && last !in init && last in m
            && forall k :: k in m - {last} <==> k in init
  {
    var last := order[|order| - 1];
    var init := order[..|order| - 1];
    assert order == init + [last];
    forall i | 0 <= i < |init| ensures init[i] != last { assert init[i] == order[i]; }
  }
}
