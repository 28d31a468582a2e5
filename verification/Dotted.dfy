/** Reading and writing nested values by dotted path. */
module Dotted {
  import opened Wrappers
  import opened Json
  import opened Strings

  predicate IsDigits(s: string) {
    s != [] && forall i :: 0 <= i < |s| ==> '0' <= s[i] <= '9'
  }

  function ParseDigits(s: string): nat
    requires forall i :: 0 <= i < |s| ==> '0' <= s[i] <= '9'
  {
    if s == [] then 0 else 10 * ParseDigits(s[..|s| - 1]) + (s[|s| - 1] as int - '0' as int)
  }

  /** One component: a key of a mapping, or an index of a list. */
  function Child(current: Json, component: string): Option<Json> {
    if current.Map? && component in current.fields then Some(current.fields[component])
    else if current.List? && IsDigits(component) && ParseDigits(component) < |current.items|
    then Some(current.items[ParseDigits(component)])
    else None
  }

  function Walk(current: Json, components: seq<string>): Option<Json>
    decreases |components|
  {
    if components == [] then Some(current)
    else
      var child := Child(current, components[0]);
      if child.None? then None else Walk(child.value, components[1..])
  }

  function DottedGet(value: Json, path: string): Option<Json> {
    if path == "" then Some(value) else Walk(value, Split(path, '.'))
  }

  /** The loop of the program walks one component at a time. */
  method ReadDotted(value: Json, path: string) returns (r: Option<Json>)
    ensures r == DottedGet(value, path)
  {
    if path == "" {
      return Some(value);
    }
    var current := value;
    var components := Split(path, '.');
    for i := 0 to |components|
      invariant DottedGet(value, path) == Walk(current, components[i..])
    {
      var child := Child(current, components[i]);
      if child.None? {
        return None;
      }
      assert components[i..][1..] == components[i + 1..];
      current := child.value;
    }
    return Some(current);
  }

  /** Creates mappings along the way, replacing anything that is not one. */
  function SetAt(target: Fields, components: seq<string>, value: Json): Fields
    requires components != []
    decreases |components|
  {
    var key := components[0];
    if |components| == 1 then target[key := value]
    else
      var child := if key in target && target[key].Map? then target[key].fields else map[];
      target[key := Map(SetAt(child, components[1..], value))]
  }

  function DottedSet(target: Fields, path: string, value: Json): Fields {
    SetAt(target, Split(path, '.'), value)
  }

  // ---------- laws ----------

  lemma {:induction false} WalkFindsAt(m: Fields, p: seq<string>)
    requires p != [] && At(m, p).Some?
    ensures Walk(Map(m), p) == At(m, p)
    decreases |p|
  {
    if |p| > 1 {
      WalkFindsAt(m[p[0]].fields, p[1..]);
    } else {
      assert Walk(m[p[0]], p[1..]) == Some(m[p[0]]);
    }
  }

  lemma {:induction false} AtAfterSet(m: Fields, p: seq<string>, v: Json)
    requires p != []
    ensures At(SetAt(m, p, v), p) == Some(v)
    decreases |p|
  {
    if |p| > 1 {
      AtAfterSet(if p[0] in m && m[p[0]].Map? then m[p[0]].fields else map[], p[1..], v);
    }
  }

  predicate Unrelated(p: seq<string>, q: seq<string>) {
    !(p <= q) && !(q <= p)
  }

  /** A write at an unrelated path is not seen. */
  lemma {:induction false} SetFrame(m: Fields, p: seq<string>, q: seq<string>, v: Json)
    requires p != [] && q != [] && Unrelated(p, q)
    ensures At(SetAt(m, q, v), p) == At(m, p)
    decreases |p|
  {
    if p[0] == q[0] && |p| > 1 && |q| > 1 {
      assert p == [p[0]] + p[1..] && q == [q[0]] + q[1..];
      var child := if q[0] in m && m[q[0]].Map? then m[q[0]].fields else map[];
      SetFrame(child, p[1..], q[1..], v);
    }
  }

  /** What the paths share leads through mappings only. */
  predicate SharedMappings(m: Fields, p: seq<string>, q: seq<string>)
    decreases |p|
  {
    p == [] || q == [] || p[0] != q[0] ||
    (p[0] in m && m[p[0]].Map? && SharedMappings(m[p[0]].fields, p[1..], q[1..]))
  }

  lemma UnrelatedRest(p: seq<string>, q: seq<string>)
    requires Unrelated(p, q) && p != [] && q != [] && p[0] == q[0]
    ensures |p| > 1 && |q| > 1 && Unrelated(p[1..], q[1..])
  {
    assert p == [p[0]] + p[1..] && q == [q[0]] + q[1..];
  }

  /** What a reader finds at an unrelated path after a write, lists on the way included. */
  lemma {:induction false} WalkAfterSet(m: Fields, p: seq<string>, q: seq<string>, v: Json)
    requires p != [] && q != [] && Unrelated(p, q)
    ensures Walk(Map(SetAt(m, q, v)), p) == if SharedMappings(m, p, q) then Walk(Map(m), p) else None
    decreases |p|
  {
    if p[0] == q[0] {
      UnrelatedRest(p, q);
      var child := if q[0] in m && m[q[0]].Map? then m[q[0]].fields else map[];
      WalkAfterSet(child, p[1..], q[1..], v);
      assert Walk(Map(map[]), p[1..]).None?;
    }
  }

  /**
   A write leaves the reading of an unrelated path alone exactly if there was nothing to read, or what
   the two paths share leads through mappings only; otherwise the reading is lost.
   */
  lemma UnrelatedReadUnchangedIff(m: Fields, p: string, q: string, v: Json)
    requires p != "" && Unrelated(Split(p, '.'), Split(q, '.'))
    ensures DottedGet(Map(DottedSet(m, q, v)), p) == DottedGet(Map(m), p) <==>
            DottedGet(Map(m), p).None? || SharedMappings(m, Split(p, '.'), Split(q, '.'))
    ensures DottedGet(Map(DottedSet(m, q, v)), p) in {DottedGet(Map(m), p), None}
  {
    WalkAfterSet(m, Split(p, '.'), Split(q, '.'), v);
  }

  /** A list on the way of a write is replaced by a mapping, and its elements are gone. */
  lemma ListReadLost()
    ensures var m := map["a" := List([Num(1.0)])];
            && Unrelated(Split("a.0", '.'), Split("a.x", '.'))
            && DottedGet(Map(m), "a.0") == Some(Num(1.0))
            && DottedGet(Map(DottedSet(m, "a.x", Num(2.0))), "a.0") == None
  {
    var m := map["a" := List([Num(1.0)])];
    var p, q := ["a", "0"], ["a", "x"];
    SplitPair("a", "0");
    SplitPair("a", "x");
    assert p[1] != q[1];
    assert ParseDigits("0") == 0;
    assert p[1..] == ["0"] && p[1..][1..] == [];
    WalkAfterSet(m, p, q, Num(2.0));
  }

  lemma SplitPair(a: string, b: string)
    requires '.' !in a && '.' !in b
    ensures Split(a + "." + b, '.') == [a, b]
  {
    SplitWhole(a, '.');
    SplitWhole(b, '.');
    SplitAppend(a, '.', b);
  }

  /** A write below a path leaves a mapping at that path. */
  lemma {:induction false} SetBelow(m: Fields, p: seq<string>, q: seq<string>, v: Json)
    requires p != [] && p < q
    ensures At(SetAt(m, q, v), p).Some? && At(SetAt(m, q, v), p).value.Map?
    decreases |p|
  {
    if |p| > 1 {
      assert p[0] == q[0] && p[1..] < q[1..];
      SetBelow(if q[0] in m && m[q[0]].Map? then m[q[0]].fields else map[], p[1..], q[1..], v);
    }
  }

  /** Reading back what was written, for every path but the empty one. */
  lemma GetAfterSet(m: Fields, path: string, v: Json)
    ensures path != "" ==> DottedGet(Map(DottedSet(m, path, v)), path) == Some(v)
    ensures path == "" ==> DottedGet(Map(DottedSet(m, path, v)), path) == Some(Map(m["" := v]))
  {
    AtAfterSet(m, Split(path, '.'), v);
    WalkFindsAt(DottedSet(m, path, v), Split(path, '.'));
  }
}
