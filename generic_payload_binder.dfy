/** `GenericPayloadBinder`: the parameter binder that feeds a listener parameter
    from a public accessor of a generic event (`event.getPayload()` and the like).
    Finding the accessor walks the compiler's element model and is not part of this
    model: `Plan` receives the accessor it found, if any. */
module GenericPayloadBinder {
  import opened JavaModel
  import opened ProcessorHelpers

  /** `CANDIDATE_ACCESSORS`. */
  const CandidateAccessors: seq<string> :=
    ["getPacket", "getPayload", "getObject", "payload", "get", "value", "getValue", "object", "data"]

  /** The linear search of `isCandidateName` over a candidate list. */
  function Search(candidates: seq<string>, name: string): (r: bool)
    ensures r <==> name in candidates
  {
    if candidates == [] then false
    else if candidates[0] == name then true
    else Search(candidates[1..], name)
  }

  /** `isCandidateName`: exactly the nine accessor names above. */
  function IsCandidateName(name: string): (r: bool)
    ensures r <==> name in CandidateAccessors
  {
    Search(CandidateAccessors, name)
  }

  /** `patternKey`: the same key for every method and parameter. */
  function PatternKey(m: Method, parameter: JClass): string
  {
    "GENERIC_PAYLOAD"
  }

  lemma PatternKeyIsConstant(m1: Method, p1: JClass, m2: Method, p2: JClass)
    ensures PatternKey(m1, p1) == PatternKey(m2, p2) == "GENERIC_PAYLOAD"
  {
  }

  /** Skips a run of characters that are not ASCII letters or digits. */
  function SkipRun(s: string): (r: string)
    ensures |r| <= |s| && r == s[|s| - |r|..]
    ensures r == [] || IsAsciiAlnum(r[0])
    ensures forall i :: 0 <= i < |s| - |r| ==> !IsAsciiAlnum(s[i])
  {
    if s != [] && !IsAsciiAlnum(s[0]) then
      var r := SkipRun(s[1..]);
      assert s[1..][|s| - 1 - |r|..] == s[|s| - |r|..];
      assert forall i :: 1 <= i < |s| - |r| ==> s[i] == s[1..][i - 1];
      r
    else s
  }

  /** The ASCII letters and digits of `s`, in order. */
  function Alnums(s: string): string
  {
    if s == [] then []
    else if IsAsciiAlnum(s[0]) then [s[0]] + Alnums(s[1..])
    else Alnums(s[1..])
  }

  /** The number of maximal runs of characters other than ASCII letters and digits. */
  function Runs(s: string): nat
    decreases |s|
  {
    if s == [] then 0
    else if IsAsciiAlnum(s[0]) then Runs(s[1..])
    else 1 + Runs(SkipRun(s[1..]))
  }

  /** Skipping a run loses no letter or digit. */
  lemma {:induction false} AlnumsSkipRun(s: string)
    ensures Alnums(SkipRun(s)) == Alnums(s)
  {
    if s != [] && !IsAsciiAlnum(s[0]) {
      AlnumsSkipRun(s[1..]);
    }
  }

  /** `replaceAll("[^A-Za-z0-9]+", "_")`: each maximal run of characters other than
      ASCII letters and digits becomes a single '_'. */
  function Collapse(s: string): (r: string)
    ensures forall i :: 0 <= i < |r| ==> IsAsciiAlnum(r[i]) || r[i] == '_'
    ensures forall i :: 0 <= i < |r| - 1 ==> !(r[i] == '_' && r[i + 1] == '_')
    ensures |r| <= |s|
    ensures r == [] <==> s == []
    ensures s != [] ==> (r[0] == '_' <==> !IsAsciiAlnum(s[0]))
    ensures s != [] && IsAsciiAlnum(s[0]) ==> r[0] == s[0]
    decreases |s|
  {
    if s == [] then []
    else if IsAsciiAlnum(s[0]) then [s[0]] + Collapse(s[1..])
    else ['_'] + Collapse(SkipRun(s[1..]))
  }

  /** Every ASCII letter and digit survives `Collapse`, in order, and no other
      letter or digit appears. */
  lemma {:induction false} CollapseKeepsAlnums(s: string)
    ensures Alnums(Collapse(s)) == Alnums(s)
    decreases |s|
  {
    if s != [] {
      var r := Collapse(s);
      if IsAsciiAlnum(s[0]) {
        CollapseKeepsAlnums(s[1..]);
        assert r[1..] == Collapse(s[1..]);
      } else {
        CollapseKeepsAlnums(SkipRun(s[1..]));
        AlnumsSkipRun(s[1..]);
        assert r[1..] == Collapse(SkipRun(s[1..]));
      }
    }
  }

  /** Besides the letters and digits, `Collapse` writes exactly one '_' per run. */
  lemma {:induction false} CollapseLength(s: string)
    ensures |Collapse(s)| == |Alnums(s)| + Runs(s)
    decreases |s|
  {
    if s != [] {
      if IsAsciiAlnum(s[0]) {
        CollapseLength(s[1..]);
      } else {
        CollapseLength(SkipRun(s[1..]));
        AlnumsSkipRun(s[1..]);
      }
    }
  }

  /** The replacement read left to right, one character at a time: a letter or
      digit is copied, and a character outside that class writes '_' only when it
      starts a run (`inRun` says the previous character was outside the class). */
  function Scan(s: string, inRun: bool): string
  {
    if s == [] then []
    else if IsAsciiAlnum(s[0]) then [s[0]] + Scan(s[1..], false)
    else if inRun then Scan(s[1..], true)
    else ['_'] + Scan(s[1..], true)
  }

  /** Inside a run, the scanner passes over the rest of the run and goes on as
      from a run's end. */
  lemma {:induction false} ScanSkipRun(s: string)
    ensures Scan(s, true) == Scan(SkipRun(s), false)
  {
    if s != [] && !IsAsciiAlnum(s[0]) {
      ScanSkipRun(s[1..]);
    }
  }

  /** `Collapse` agrees with the one-pass scanner on every input. */
  lemma {:induction false} CollapseIsScan(s: string)
    ensures Collapse(s) == Scan(s, false)
    decreases |s|
  {
    if s != [] {
      if IsAsciiAlnum(s[0]) {
        CollapseIsScan(s[1..]);
      } else {
        CollapseIsScan(SkipRun(s[1..]));
        ScanSkipRun(s[1..]);
      }
    }
  }

  /** Text that is only ASCII letters and digits comes through unchanged. */
  lemma {:induction false} CollapseOfAlnum(s: string)
    requires forall i :: 0 <= i < |s| ==> IsAsciiAlnum(s[i])
    ensures Collapse(s) == s
  {
    if s != [] {
      CollapseOfAlnum(s[1..]);
    }
  }

  /** `Character.toLowerCase` on the characters `Collapse` can produce. */
  function LowerAscii(c: char): (r: char)
    ensures 'A' <= c <= 'Z' ==> 'a' <= r <= 'z' && r as int == c as int + 32
    ensures !('A' <= c <= 'Z') ==> r == c
  {
    if 'A' <= c <= 'Z' then (c as int + 32) as char else c
  }

  /** `localVarName`: the simple name, with runs of other characters collapsed
      to '_' and the first character lowercased. An empty simple name (a name
      ending in '.') makes `charAt(0)` throw. */
  function LocalVarName(fqn: string): (r: Result<string>)
    ensures r.Err? <==> SimpleName(fqn) == []
    ensures r.Err? ==> r.error == IndexOutOfBoundsException
    ensures r.Ok? ==> var c := Collapse(SimpleName(fqn));
                      r.value == [LowerAscii(c[0])] + c[1..]
  {
    var base := SimpleName(fqn);
    var s := Collapse(base);
    if s == [] then Err(IndexOutOfBoundsException)
    else
      var c := LowerAscii(s[0]);
      if |s| == 1 then Ok([c]) else Ok([c] + s[1..])
  }

  /** A name `localVarName` returns is a Java identifier of a plain shape: not
      empty, no '.', not starting with an upper-case letter, only ASCII letters,
      digits and single '_' separators. */
  lemma LocalVarNameIsIdentifier(fqn: string)
    ensures var r := LocalVarName(fqn);
            r.Ok? ==> && r.value != []
                      && '.' !in r.value
                      && !('A' <= r.value[0] <= 'Z')
                      && (forall i :: 0 <= i < |r.value| ==> IsAsciiAlnum(r.value[i]) || r.value[i] == '_')
                      && (forall i :: 0 <= i < |r.value| - 1 ==> !(r.value[i] == '_' && r.value[i + 1] == '_'))
  {
    var s := Collapse(SimpleName(fqn));
    if s != [] {
      var c := LowerAscii(s[0]);
      var v := [c] + s[1..];
      if |s| == 1 {
        assert v == [c];
      }
      assert LocalVarName(fqn) == Ok(v);
      assert c == '_' <==> s[0] == '_';
      forall i | 0 <= i < |v| ensures IsAsciiAlnum(v[i]) || v[i] == '_' {
        if i > 0 {
          assert v[i] == s[i];
        }
      }
      forall i | 0 <= i < |v| - 1 ensures !(v[i] == '_' && v[i + 1] == '_') {
        assert v[i + 1] == s[i + 1];
        if i > 0 {
          assert v[i] == s[i];
        }
      }
      forall i | 0 <= i < |v| ensures v[i] != '.' {
        assert IsAsciiAlnum(v[i]) || v[i] == '_';
      }
    }
  }

  /** A qualified name whose simple name is letters and digits gives that simple
      name with its first letter lowercased: `com.example.Packet` gives `packet`. */
  lemma LocalVarNameOfQualified(pkg: string, name: string)
    requires name != [] && forall i :: 0 <= i < |name| ==> IsAsciiAlnum(name[i])
    ensures LocalVarName(pkg + "." + name) == Ok([LowerAscii(name[0])] + name[1..])
  {
    assert '.' !in name by {
      forall i | 0 <= i < |name| ensures name[i] != '.' { assert IsAsciiAlnum(name[i]); }
    }
    var q := pkg + "." + name;
    assert SimpleName(q) == name by { SimpleNameOfQualified(pkg, name); }
    assert Collapse(name) == name by { CollapseOfAlnum(name); }
    var c := LowerAscii(name[0]);
    if |name| == 1 {
      assert [c] + name[1..] == [c];
    }
  }

  /** The scanner copies a prefix of letters and digits, whatever follows. */
  lemma {:induction false} ScanAlnumPrefix(p: string, t: string)
    requires forall i :: 0 <= i < |p| ==> IsAsciiAlnum(p[i])
    ensures Scan(p + t, false) == p + Scan(t, false)
  {
    if p == [] {
      assert p + t == t;
    } else {
      assert (p + t)[0] == p[0] && (p + t)[1..] == p[1..] + t;
      ScanAlnumPrefix(p[1..], t);
      assert [p[0]] + (p[1..] + Scan(t, false)) == p + Scan(t, false);
    }
  }

  /** `$Inner` scans to `_Inner`. */
  lemma ScanDollar(inner: string)
    requires forall i :: 0 <= i < |inner| ==> IsAsciiAlnum(inner[i])
    ensures Scan("$" + inner, false) == "_" + inner
  {
    var tail := "$" + inner;
    assert tail[0] == '$' && tail[1..] == inner;
    assert Scan(tail, false) == "_" + Scan(inner, true);
    ScanSkipRun(inner);
    assert SkipRun(inner) == inner;
    ScanAlnumPrefix(inner, []);
    assert inner + [] == inner;
  }

  /** `Outer$Inner` scans to `Outer_Inner`. */
  lemma ScanNested(outer: string, inner: string)
    requires forall i :: 0 <= i < |outer| ==> IsAsciiAlnum(outer[i])
    requires forall i :: 0 <= i < |inner| ==> IsAsciiAlnum(inner[i])
    ensures Scan(outer + "$" + inner, false) == outer + "_" + inner
  {
    var tail := "$" + inner;
    assert outer + "$" + inner == outer + tail;
    ScanAlnumPrefix(outer, tail);
    ScanDollar(inner);
    assert outer + ("_" + inner) == outer + "_" + inner;
  }

  /** Replacing the first element of a non-empty `a + b`. */
  lemma ReplaceHead(x: char, a: string, b: string)
    requires a != []
    ensures [x] + (a + b)[1..] == [x] + a[1..] + b
  {
    assert (a + b)[1..] == a[1..] + b;
  }

  /** A nested class's binary name `pkg.Outer$Inner` gives `outer_Inner`: the '$'
      becomes '_' and the first letter is lowercased. */
  lemma LocalVarNameOfNested(pkg: string, outer: string, inner: string)
    requires outer != []
    requires forall i :: 0 <= i < |outer| ==> IsAsciiAlnum(outer[i])
    requires forall i :: 0 <= i < |inner| ==> IsAsciiAlnum(inner[i])
    ensures LocalVarName(pkg + "." + outer + "$" + inner)
         == Ok([LowerAscii(outer[0])] + outer[1..] + "_" + inner)
  {
    var name := outer + "$" + inner;
    assert '.' !in name by {
      forall i | 0 <= i < |name| ensures name[i] != '.' {
        if i < |outer| { assert IsAsciiAlnum(outer[i]); }
        else if i > |outer| { assert IsAsciiAlnum(inner[i - |outer| - 1]); }
      }
    }
    SimpleNameOfQualified(pkg, name);
    assert pkg + "." + outer + "$" + inner == pkg + "." + name;
    CollapseIsScan(name);
    ScanNested(outer, inner);
    var c := Collapse(name);
    assert c == (outer + "_") + inner;
    ReplaceHead(LowerAscii(c[0]), outer + "_", inner);
    ReplaceHead(LowerAscii(c[0]), outer, "_");
    assert c[0] == outer[0];
  }

  /** A parameter extractor: local variable, its declared type, its initializer. */
  datatype Extractor = Extractor(localName: string, declaredType: string, initExpression: string)

  /** What `plan` returns: guard bits, extractors, and the argument expression. */
  datatype Binding = Binding(guards: set<string>, extractors: set<Extractor>, argExpr: string)

  const NoAccessorMessage: string :=
    "GenericPayloadBinder supports this parameter but could not find a suitable public accessor method on the event "

  /** `plan`: one extractor calling the accessor, bound to a local named after the
      parameter's declared type, which is also the argument expression. Without an
      accessor it fails. */
  function Plan(eventName: string, accessor: Option<string>, declared: string): (r: Result<Binding>)
    ensures accessor.None? ==> r == Err(IllegalStateException(NoAccessorMessage + eventName))
    ensures accessor.Some? ==> (r.Ok? <==> LocalVarName(declared).Ok?)
    ensures r.Ok? ==> && accessor.Some?
                      && r.value.guards == {}
                      && r.value.extractors
                         == {Extractor(r.value.argExpr, declared, "event." + accessor.value + "()")}
                      && Ok(r.value.argExpr) == LocalVarName(declared)
  {
    match accessor
    case None =>
      Err(IllegalStateException(NoAccessorMessage + eventName))
    case Some(name) =>
      var accessorCall := "event." + name + "()";
      match LocalVarName(declared)
      case Err(e) => Err(e)
      case Ok(local) => Ok(Binding({}, {Extractor(local, declared, accessorCall)}, local))
  }
}
