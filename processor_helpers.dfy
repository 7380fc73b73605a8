/** The pure helpers of the annotation processor (`EventListenerProcessor`): the
    64-bit FNV-1a hash it derives listener ids and generated names from, the
    string functions on fully qualified type names, and the assignment of event
    ids by sorted name. */
module ProcessorHelpers {
  import opened JavaStrings

  /** The FNV-1a parameters for 64 bits (FNV offset basis and FNV prime, section 2
      of the IETF draft draft-eastlake-fnv). */
  const FnvOffset: bv64 := 0xcbf2_9ce4_8422_2325
  const FnvPrime: bv64 := 0x100_0000_01b3

  /** A `char` widened to `long`: a code unit, zero-extended. */
  function Code(c: char): bv64
  {
    c as bv64
  }

  /** `h ^= c; h *= prime`, with Java's wrap-around `long` multiplication. */
  function FnvStep(h: bv64, c: char): bv64
  {
    (h ^ Code(c)) * FnvPrime
  }

  /** `fnv1a(s)`: the hash of the code units of `s`, first to last. */
  function Fnv1a(s: string): bv64
  {
    if s == [] then FnvOffset else FnvStep(Fnv1a(s[..|s| - 1]), s[|s| - 1])
  }

  /** Test vectors of the draft: FNV-1a 64 of "" and of "a" (a character below
      0x80 hashes as its one octet would). */
  lemma Fnv1aTestVectors()
    ensures Fnv1a("") == 0xcbf2_9ce4_8422_2325
    ensures Fnv1a("a") == 0xaf63_dc4c_8601_ec8c
  {
    assert "a"[..0] == "";
    assert Code('a') == 0x61;
  }

  /** `fnv1a`, as the loop it is. */
  method Fnv1aLoop(s: string) returns (h: bv64)
    ensures h == Fnv1a(s)
  {
    h := FnvOffset;
    var i := 0;
    while i < |s|
      invariant 0 <= i <= |s|
      invariant h == Fnv1a(s[..i])
    {
      assert s[..i + 1][..i] == s[..i];
      h := FnvStep(h, s[i]);
      i := i + 1;
    }
    assert s[..|s|] == s;
  }

  /** The text `stableId` hashes: `owner#method(event|signature)`. */
  function StableIdKey(ownerFqn: string, methodName: string, eventFqn: string, signatureKey: string): string
  {
    ownerFqn + "#" + methodName + "(" + eventFqn + "|" + signatureKey + ")"
  }

  /** `stableId`: the loop of `fnv1a`, repeated inline in the source, run over the
      listener's key; the id depends on nothing but the owner class, the method,
      the event type and the signature. */
  method StableId(ownerFqn: string, methodName: string, eventFqn: string, signatureKey: string) returns (h: bv64)
    ensures h == Fnv1a(StableIdKey(ownerFqn, methodName, eventFqn, signatureKey))
  {
    h := Fnv1aLoop(StableIdKey(ownerFqn, methodName, eventFqn, signatureKey));
  }

  /** `raw`: the type name without its type arguments, i.e. the longest prefix
      free of '<'. */
  function Raw(fqn: string): (r: string)
    ensures '<' !in r
    ensures r <= fqn
    ensures |r| < |fqn| <==> '<' in fqn
    ensures |r| < |fqn| ==> fqn[|r|] == '<'
  {
    var idx := IndexOf(fqn, '<');
    if idx < 0 then fqn else fqn[..idx]
  }

  lemma RawOfParameterized(name: string, args: string)
    requires '<' !in name
    ensures Raw(name + "<" + args) == name
  {
    var s := name + "<" + args;
    assert forall k :: 0 <= k < |name| ==> s[k] == name[k];
    assert s[|name|] == '<';
    assert s[..|name|] == name;
  }

  /** `simpleName`: the text after the last '.', i.e. the longest suffix free of '.'. */
  function SimpleName(fqn: string): (r: string)
    ensures '.' !in r
    ensures |r| <= |fqn| && fqn[|fqn| - |r|..] == r
    ensures |r| < |fqn| <==> '.' in fqn
    ensures |r| < |fqn| ==> fqn[|fqn| - |r| - 1] == '.'
  {
    var idx := LastIndexOf(fqn, '.');
    if idx < 0 then fqn else fqn[idx + 1..]
  }

  lemma SimpleNameOfQualified(pkg: string, name: string)
    requires '.' !in name
    ensures SimpleName(pkg + "." + name) == name
  {
    var s := pkg + "." + name;
    assert forall k :: 0 <= k < |name| ==> s[|pkg| + 1 + k] == name[k];
    assert s[|pkg|] == '.';
    assert s[|pkg| + 1..] == name;
  }

  predicate IsAsciiAlnum(c: char)
  {
    ('A' <= c <= 'Z') || ('a' <= c <= 'z') || ('0' <= c <= '9')
  }

  /** `sanitizeFqn`: every character other than an ASCII letter, digit or '_'
      (the '.' separators included) becomes '_'. */
  function SanitizeFqn(fqn: string): (r: string)
    ensures |r| == |fqn|
    ensures forall i :: 0 <= i < |r| ==> IsAsciiAlnum(r[i]) || r[i] == '_'
    ensures forall i :: 0 <= i < |r| ==> (r[i] == fqn[i] <==> IsAsciiAlnum(fqn[i]) || fqn[i] == '_')
  {
    seq(|fqn|, i requires 0 <= i < |fqn| => if IsAsciiAlnum(fqn[i]) || fqn[i] == '_' then fqn[i] else '_')
  }

  lemma SanitizeFqnIdempotent(fqn: string)
    ensures SanitizeFqn(SanitizeFqn(fqn)) == SanitizeFqn(fqn)
  {
  }

  /** Ids that number a strictly ascending list in order follow the order of the
      names themselves. */
  lemma IdsFollowNameOrder(order: seq<string>, ids: map<string, int>)
    requires Ascending(order, StrLess)
    requires forall e :: e in ids <==> e in order
    requires forall j :: 0 <= j < |order| ==> order[j] in ids && ids[order[j]] == j
    ensures forall a, b :: a in ids && b in ids ==> (StrLt(a, b) <==> ids[a] < ids[b])
  {
    forall a, b | a in ids && b in ids ensures StrLt(a, b) <==> ids[a] < ids[b] {
      var ia :| 0 <= ia < |order| && order[ia] == a;
      var ib :| 0 <= ib < |order| && order[ib] == b;
      assert ids[a] == ia && ids[b] == ib;
      if ia < ib {
        assert StrLess(order[ia], order[ib]);
      } else if ib < ia {
        assert StrLess(order[ib], order[ia]);
        StrLtIrreflexive(a);
        if StrLt(a, b) {
          StrLtTransitive(a, b, a);
        }
      } else {
        StrLtIrreflexive(a);
      }
    }
  }

  /** Sorting distinct names yields them all, once each, in strictly ascending order. */
  lemma SortedNames(events: seq<string>)
    requires Distinct(events)
    ensures |SortBy(events, StrLess)| == |events|
    ensures multiset(SortBy(events, StrLess)) == multiset(events)
    ensures Ascending(SortBy(events, StrLess), StrLess)
    ensures Distinct(SortBy(events, StrLess))
  {
    StrLessStrictTotal();
    SortByCorrect(events, StrLess);
    AscendingDistinct(SortBy(events, StrLess), StrLess);
  }

  /** The numbering loop: `eventIds.put(eventOrder.get(i), i)` for each i. */
  method NumberInOrder(eventOrder: seq<string>) returns (eventIds: map<string, int>)
    requires Distinct(eventOrder)
    ensures forall e :: e in eventIds <==> e in eventOrder
    ensures forall i :: 0 <= i < |eventOrder| ==> eventOrder[i] in eventIds && eventIds[eventOrder[i]] == i
  {
    eventIds := map[];
    var i := 0;
    while i < |eventOrder|
      invariant 0 <= i <= |eventOrder|
      invariant forall e :: e in eventIds <==> e in eventOrder[..i]
      invariant forall j :: 0 <= j < i ==> eventOrder[j] in eventIds && eventIds[eventOrder[j]] == j
    {
      assert eventOrder[..i + 1] == eventOrder[..i] + [eventOrder[i]];
      eventIds := eventIds[eventOrder[i] := i];
      i := i + 1;
    }
    assert eventOrder[..i] == eventOrder;
  }

  /** The event-id assignment of `process`: the event names (the distinct keys of
      the event map, in its iteration order) are sorted with `Collections.sort`, and
      the i-th name gets id i. */
  method AssignEventIds(events: seq<string>) returns (eventOrder: seq<string>, eventIds: map<string, int>)
    requires Distinct(events)
    ensures eventOrder == SortBy(events, StrLess)
    ensures |eventOrder| == |events| && multiset(eventOrder) == multiset(events)
    ensures forall e :: e in eventIds <==> e in events
    ensures forall i :: 0 <= i < |eventOrder| ==> eventOrder[i] in eventIds && eventIds[eventOrder[i]] == i
    ensures forall e :: e in eventIds ==> 0 <= eventIds[e] < |events|
    ensures forall a, b :: a in eventIds && b in eventIds ==> (StrLt(a, b) <==> eventIds[a] < eventIds[b])
  {
    eventOrder := SortBy(events, StrLess);
    SortedNames(events);
    eventIds := NumberInOrder(eventOrder);
    assert forall e :: e in events <==> e in multiset(eventOrder);
    IdsFollowNameOrder(eventOrder, eventIds);
  }
}
