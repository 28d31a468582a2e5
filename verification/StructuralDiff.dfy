/** Structural differences between two observed states, as lists of pointer-addressed changes. */
module StructuralDiff {
  import opened Wrappers
  import opened Json
  import opened Order
  import opened Strings
  import opened Dotted
  import opened JsonPointer

  datatype Change<P> =
    | Add(path: P, after: Json)
    | Remove(path: P, before: Json)
    | Replace(path: P, before: Json, after: Json)

  // ---------- the program's recursion, on pointer texts ----------

  function DiffValues(before: Json, after: Json, path: string): seq<Change<string>>
    decreases before, 1, 0
  {
    if before.Map? && after.Map? then
      DiffFields(before, after, SortedKeys(before.fields.Keys + after.fields.Keys), path)
    else if before.List? && after.List? then
      DiffItems(before, after, 0, path)
    else if before != after then
      [Replace(if path == "" then "/" else path, before, after)]
    else []
  }

  function DiffFields(before: Json, after: Json, keys: seq<string>, path: string): seq<Change<string>>
    requires before.Map? && after.Map?
    decreases before, 0, |keys|
  {
    if keys == [] then []
    else
      var key := keys[0];
      var child := path + "/" + Escape(key);
      (if key !in before.fields then if key in after.fields then [Add(child, after.fields[key])] else []
       else if key !in after.fields then [Remove(child, before.fields[key])]
       else DiffValues(before.fields[key], after.fields[key], child))
      + DiffFields(before, after, keys[1..], path)
  }

  function DiffItems(before: Json, after: Json, index: nat, path: string): seq<Change<string>>
    requires before.List? && after.List?
    decreases before, 0, |before.items| + |after.items| - index
  {
    if index >= |before.items| && index >= |after.items| then []
    else ItemReport(before, after, index, path) + DiffItems(before, after, index + 1, path)
  }

  /** The report about one list position. */
  function ItemReport(before: Json, after: Json, index: nat, path: string): seq<Change<string>>
    requires before.List? && after.List? && (index < |before.items| || index < |after.items|)
    decreases before, 0, 0
  {
    var child := path + "/" + Decimal(index);
    if index >= |before.items| then [Add(child, after.items[index])]
    else if index >= |after.items| then [Remove(child, before.items[index])]
    else DiffValues(before.items[index], after.items[index], child)
  }

  // ---------- the same recursion, on token paths relative to the values ----------

  /** The member or element that a pointer token selects. */
  function ChildOf(j: Json, token: string): (r: Option<Json>)
    ensures r.Some? <==> ResolveToken(j, token).Ok?
    ensures r.Some? ==> ResolveToken(j, token) == Ok(r.value) && r.value < j
  {
    if ResolveToken(j, token).Ok? then Some(ResolveToken(j, token).value) else None
  }

  predicate SameKind(a: Json, b: Json) {
    (a.Map? && b.Map?) || (a.List? && b.List?)
  }

  function Indices(n: nat): seq<string> {
    if n == 0 then [] else Indices(n - 1) + [Decimal(n - 1)]
  }

  function Max(a: nat, b: nat): nat {
    if a < b then b else a
  }

  /** The tokens at which two containers can differ, in the order of the report. */
  function TokensOf(before: Json, after: Json): seq<string>
    requires SameKind(before, after)
  {
    if before.Map? then SortedKeys(before.fields.Keys + after.fields.Keys)
    else Indices(Max(|before.items|, |after.items|))
  }

  function Under(token: string, changes: seq<Change<seq<string>>>): seq<Change<seq<string>>> {
    seq(|changes|, i requires 0 <= i < |changes| => changes[i].(path := [token] + changes[i].path))
  }

  function TokenDiff(before: Json, after: Json): seq<Change<seq<string>>>
    decreases before, 1, 0
  {
    if SameKind(before, after) then DiffTokens(before, after, TokensOf(before, after))
    else if before != after then [Replace([], before, after)]
    else []
  }

  function DiffTokens(before: Json, after: Json, tokens: seq<string>): seq<Change<seq<string>>>
    decreases before, 0, |tokens|
  {
    if tokens == [] then []
    else DiffToken(before, after, tokens[0]) + DiffTokens(before, after, tokens[1..])
  }

  function DiffToken(before: Json, after: Json, token: string): seq<Change<seq<string>>>
    decreases before, 0, 0
  {
    match (ChildOf(before, token), ChildOf(after, token))
    case (None, None) => []
    case (None, Some(a)) => [Add([token], a)]
    case (Some(b), None) => [Remove([token], b)]
    case (Some(b), Some(a)) => Under(token, TokenDiff(b, a))
  }

  /** The report of the program: token paths written as pointers below `path`. */
  function Rendered(path: string, changes: seq<Change<seq<string>>>): seq<Change<string>> {
    seq(|changes|, i requires 0 <= i < |changes| => RenderedChange(path, changes[i]))
  }

  function RenderedChange(path: string, c: Change<seq<string>>): Change<string> {
    var text := if path + Render(c.path) == "" then "/" else path + Render(c.path);
    match c
    case Add(_, after) => Add(text, after)
    case Remove(_, before) => Remove(text, before)
    case Replace(_, before, after) => Replace(text, before, after)
  }

  // ---------- the two recursions agree ----------

  lemma {:induction false} RenderPrepend(token: string, rest: seq<string>)
    ensures Render([token] + rest) == "/" + Escape(token) + Render(rest)
    decreases |rest|
  {
    if rest == [] {
      assert [token] + rest == [token];
      assert [token][..0] == [];
    } else {
      var front := rest[..|rest| - 1];
      RenderPrepend(token, front);
      assert ([token] + rest)[..|rest|] == [token] + front;
      OneMoreToken("/" + Escape(token), Render(front), Escape(rest[|rest| - 1]));
    }
  }

  lemma OneMoreToken(first: string, middle: string, last: string)
    ensures first + middle + "/" + last == first + (middle + "/" + last)
  {
  }

  lemma RenderedUnder(path: string, token: string, changes: seq<Change<seq<string>>>)
    ensures Rendered(path, Under(token, changes)) == Rendered(path + "/" + Escape(token), changes)
  {
    forall i | 0 <= i < |changes|
      ensures RenderedChange(path, Under(token, changes)[i]) == RenderedChange(path + "/" + Escape(token), changes[i])
    {
      RenderedChangeUnder(path, token, changes[i]);
    }
  }

  lemma RenderedChangeUnder(path: string, token: string, c: Change<seq<string>>)
    ensures RenderedChange(path, c.(path := [token] + c.path)) == RenderedChange(path + "/" + Escape(token), c)
  {
    RenderPrepend(token, c.path);
    LongerPath(path, Escape(token), Render(c.path));
  }

  lemma LongerPath(path: string, token: string, rest: string)
    ensures path + ("/" + token + rest) == path + "/" + token + rest
  {
  }

  lemma RenderedConcat(path: string, a: seq<Change<seq<string>>>, b: seq<Change<seq<string>>>)
    ensures Rendered(path, a + b) == Rendered(path, a) + Rendered(path, b)
  {
  }

  lemma EscapeDigits(s: string)
    requires forall i :: 0 <= i < |s| ==> '0' <= s[i] <= '9'
    ensures Escape(s) == s
  {
    NothingReplaced(s, '~', "~0");
    NothingReplaced(s, '/', "~1");
  }

  lemma {:induction false} NothingReplaced(s: string, c: char, text: string)
    requires c !in s
    ensures ReplaceChar(s, c, text) == s
  {
    if s != [] {
      NothingReplaced(s[1..], c, text);
      assert s == [s[0]] + s[1..];
    }
  }

  lemma {:induction false} IndicesFacts(n: nat)
    ensures |Indices(n)| == n
    ensures forall i :: 0 <= i < n ==> Indices(n)[i] == Decimal(i)
  {
    if n > 0 {
      IndicesFacts(n - 1);
    }
  }

  lemma DecimalChild(j: Json, index: nat)
    requires j.List?
    ensures ChildOf(j, Decimal(index)) == if index < |j.items| then Some(j.items[index]) else None
    ensures Escape(Decimal(index)) == Decimal(index)
  {
    DecimalRoundTrip(index);
    EscapeDigits(Decimal(index));
  }

  /** What `DiffValues` reports is the token-level difference, written as pointers. */
  lemma {:induction false} DiffValuesRenders(before: Json, after: Json, path: string)
    ensures DiffValues(before, after, path) == Rendered(path, TokenDiff(before, after))
    decreases before, 1, 0
  {
    if before.Map? && after.Map? {
      DiffFieldsRenders(before, after, SortedKeys(before.fields.Keys + after.fields.Keys), path);
    } else if before.List? && after.List? {
      IndicesFacts(Max(|before.items|, |after.items|));
      DiffItemsRenders(before, after, 0, TokensOf(before, after), path);
      assert TokensOf(before, after)[0..] == TokensOf(before, after);
    } else if before != after {
      assert path + Render([]) == path;
    }
  }

  lemma {:induction false} DiffFieldsRenders(before: Json, after: Json, keys: seq<string>, path: string)
    requires before.Map? && after.Map?
    ensures DiffFields(before, after, keys, path) == Rendered(path, DiffTokens(before, after, keys))
    decreases before, 0, |keys|
  {
    if keys != [] {
      var key := keys[0];
      DiffFieldsRenders(before, after, keys[1..], path);
      RenderedConcat(path, DiffToken(before, after, key), DiffTokens(before, after, keys[1..]));
      if key in before.fields && key in after.fields {
        DiffValuesRenders(before.fields[key], after.fields[key], path + "/" + Escape(key));
        RenderedUnder(path, key, TokenDiff(before.fields[key], after.fields[key]));
      } else {
        SingletonRenders(path, key);
      }
    }
  }

  lemma SingletonRenders(path: string, token: string)
    ensures path + Render([token]) == path + "/" + Escape(token) != ""
  {
    assert [token][..0] == [];
    assert path + ("" + "/" + Escape(token)) == path + "/" + Escape(token);
  }

  lemma {:induction false} DiffItemsRenders(before: Json, after: Json, index: nat, tokens: seq<string>, path: string)
    requires before.List? && after.List?
    requires index <= |tokens| == Max(|before.items|, |after.items|)
    requires forall i :: 0 <= i < |tokens| ==> tokens[i] == Decimal(i)
    ensures DiffItems(before, after, index, path) == Rendered(path, DiffTokens(before, after, tokens[index..]))
    decreases before, 0, |before.items| + |after.items| - index
  {
    if index < |tokens| {
      var token := Decimal(index);
      DiffItemsRenders(before, after, index + 1, tokens, path);
      assert tokens[index..] == [token] + tokens[index + 1..];
      DiffTokensStep(before, after, token, tokens[index + 1..]);
      RenderedConcat(path, DiffToken(before, after, token), DiffTokens(before, after, tokens[index + 1..]));
      if index < |before.items| && index < |after.items| {
        DiffValuesRenders(before.items[index], after.items[index], path + "/" + token);
      }
      ItemRenders(before, after, index, path);
    }
  }

  lemma ItemRenders(before: Json, after: Json, index: nat, path: string)
    requires before.List? && after.List? && (index < |before.items| || index < |after.items|)
    requires index < |before.items| && index < |after.items| ==>
               DiffValues(before.items[index], after.items[index], path + "/" + Decimal(index))
               == Rendered(path + "/" + Decimal(index), TokenDiff(before.items[index], after.items[index]))
    ensures ItemReport(before, after, index, path) == Rendered(path, DiffToken(before, after, Decimal(index)))
  {
    var token := Decimal(index);
    DecimalChild(before, index);
    DecimalChild(after, index);
    if index < |before.items| && index < |after.items| {
      RenderedUnder(path, token, TokenDiff(before.items[index], after.items[index]));
    } else {
      SingletonRenders(path, token);
    }
  }

  lemma DiffTokensStep(before: Json, after: Json, token: string, rest: seq<string>)
    ensures DiffTokens(before, after, [token] + rest)
            == DiffToken(before, after, token) + DiffTokens(before, after, rest)
  {
    assert ([token] + rest)[1..] == rest;
  }

  // ---------- containers by their children ----------

  lemma TokensFacts(before: Json, after: Json)
    requires SameKind(before, after)
    ensures NoRepeats(TokensOf(before, after))
    ensures forall t :: t in TokensOf(before, after) <==> ChildOf(before, t).Some? || ChildOf(after, t).Some?
  {
    if before.Map? {
      SortedKeysMembers(before.fields.Keys + after.fields.Keys);
      SortedKeysSorted(before.fields.Keys + after.fields.Keys);
    } else {
      IndicesDistinct(Max(|before.items|, |after.items|));
      forall t ensures t in TokensOf(before, after) <==> ChildOf(before, t).Some? || ChildOf(after, t).Some? {
        IndexTokens(before, after, t);
      }
    }
  }

  lemma IndicesDistinct(n: nat)
    ensures NoRepeats(Indices(n))
  {
    IndicesFacts(n);
    forall i, j | 0 <= i < j < n ensures Indices(n)[i] != Indices(n)[j] {
      DecimalRoundTrip(i);
      DecimalRoundTrip(j);
    }
  }

  lemma IndexTokens(before: Json, after: Json, t: string)
    requires before.List? && after.List?
    ensures t in Indices(Max(|before.items|, |after.items|)) <==> ChildOf(before, t).Some? || ChildOf(after, t).Some?
  {
    var n := Max(|before.items|, |after.items|);
    IndicesFacts(n);
    if IsCanonicalIndex(t) {
      CanonicalIsDecimal(t);
      if ParseDigits(t) < n {
        assert Indices(n)[ParseDigits(t)] == t;
      }
    }
    if t in Indices(n) {
      var i :| 0 <= i < n && Indices(n)[i] == t;
      DecimalChild(before, i);
      DecimalChild(after, i);
    }
  }

  /** Containers of one kind with the same children are equal. */
  lemma ChildrenDetermine(a: Json, b: Json)
    requires SameKind(a, b)
    requires forall t :: ChildOf(a, t) == ChildOf(b, t)
    ensures a == b
  {
    if a.Map? {
      forall k ensures k in a.fields <==> k in b.fields {
        assert ChildOf(a, k) == ChildOf(b, k);
      }
      forall k | k in a.fields ensures a.fields[k] == b.fields[k] {
        assert ChildOf(a, k) == ChildOf(b, k);
      }
      assert a.fields == b.fields;
    } else {
      DecimalChild(a, |a.items|);
      DecimalChild(b, |a.items|);
      DecimalChild(a, |b.items|);
      DecimalChild(b, |b.items|);
      assert ChildOf(a, Decimal(|a.items|)) == ChildOf(b, Decimal(|a.items|));
      assert ChildOf(a, Decimal(|b.items|)) == ChildOf(b, Decimal(|b.items|));
      forall i | 0 <= i < |a.items| ensures a.items[i] == b.items[i] {
        DecimalChild(a, i);
        DecimalChild(b, i);
        assert ChildOf(a, Decimal(i)) == ChildOf(b, Decimal(i));
      }
    }
  }

  // ---------- empty exactly when equal ----------

  lemma {:induction false} TokenDiffEmptyIffEqual(before: Json, after: Json)
    ensures TokenDiff(before, after) == [] <==> before == after
    decreases before, 1, 0
  {
    if SameKind(before, after) {
      TokensFacts(before, after);
      DiffTokensEmpty(before, after, TokensOf(before, after));
      if TokenDiff(before, after) == [] {
        forall t ensures ChildOf(before, t) == ChildOf(after, t) {
          if t in TokensOf(before, after) {}
        }
        ChildrenDetermine(before, after);
      }
    }
  }

  lemma {:induction false} DiffTokensEmpty(before: Json, after: Json, tokens: seq<string>)
    ensures DiffTokens(before, after, tokens) == [] <==> forall t :: t in tokens ==>
              ChildOf(before, t) == ChildOf(after, t)
    decreases before, 0, |tokens|
  {
    if tokens != [] {
      DiffTokensEmpty(before, after, tokens[1..]);
      var t := tokens[0];
      if ChildOf(before, t).Some? && ChildOf(after, t).Some? {
        TokenDiffEmptyIffEqual(ChildOf(before, t).value, ChildOf(after, t).value);
      }
      assert DiffToken(before, after, t) == [] <==> ChildOf(before, t) == ChildOf(after, t);
      assert tokens == [t] + tokens[1..];
    }
  }

  /** The report is empty exactly when nothing changed. */
  lemma DiffIsEmptyIffEqual(before: Json, after: Json, path: string)
    ensures DiffValues(before, after, path) == [] <==> before == after
  {
    DiffValuesRenders(before, after, path);
    TokenDiffEmptyIffEqual(before, after);
  }

  // ---------- recorded values are what the paths resolve to ----------

  function BeforeOf<P>(c: Change<P>): Option<Json> {
    if c.Add? then None else Some(c.before)
  }

  function AfterOf<P>(c: Change<P>): Option<Json> {
    if c.Remove? then None else Some(c.after)
  }

  function Resolved(document: Json, tokens: seq<string>): Option<Json> {
    var r := ResolveTokens(document, tokens);
    if r.Ok? then Some(r.value) else None
  }

  ghost predicate Faithful(before: Json, after: Json, c: Change<seq<string>>) {
    Resolved(before, c.path) == BeforeOf(c) && Resolved(after, c.path) == AfterOf(c)
  }

  lemma ResolvedStep(document: Json, t: string, rest: seq<string>)
    ensures Resolved(document, [t] + rest) ==
            if ChildOf(document, t).None? then None else Resolved(ChildOf(document, t).value, rest)
  {
    assert ([t] + rest)[1..] == rest;
  }

  lemma {:induction false} TokenDiffFaithful(before: Json, after: Json)
    ensures forall i :: 0 <= i < |TokenDiff(before, after)| ==> Faithful(before, after, TokenDiff(before, after)[i])
    decreases before, 1, 0
  {
    if SameKind(before, after) {
      DiffTokensFaithful(before, after, TokensOf(before, after));
    }
  }

  lemma {:induction false} DiffTokensFaithful(before: Json, after: Json, tokens: seq<string>)
    ensures forall i :: 0 <= i < |DiffTokens(before, after, tokens)| ==>
                          Faithful(before, after, DiffTokens(before, after, tokens)[i])
    decreases before, 0, |tokens|
  {
    if tokens != [] {
      var t := tokens[0];
      DiffTokensFaithful(before, after, tokens[1..]);
      var own := DiffToken(before, after, t);
      forall i | 0 <= i < |own| ensures Faithful(before, after, own[i]) {
        var rest := own[i].path[1..];
        assert own[i].path == [t] + rest;
        ResolvedStep(before, t, rest);
        ResolvedStep(after, t, rest);
        if ChildOf(before, t).Some? && ChildOf(after, t).Some? {
          var b, a := ChildOf(before, t).value, ChildOf(after, t).value;
          TokenDiffFaithful(b, a);
          assert rest == TokenDiff(b, a)[i].path && Faithful(b, a, TokenDiff(b, a)[i]);
        }
      }
    }
  }

  /**
   Every reported pointer resolves to the recorded value on each side, and fails to resolve on the
   side where the value is missing.  The root replacement is reported at "/", which is not the
   pointer of the whole document.
   */
  lemma PointersResolve(before: Json, after: Json, i: nat)
    requires i < |DiffValues(before, after, "")|
    requires SameKind(before, after)
    ensures var c := DiffValues(before, after, "")[i];
            && (BeforeOf(c).Some? ==> ResolvePointer(before, c.path) == Ok(BeforeOf(c).value))
            && (BeforeOf(c).None? ==> ResolvePointer(before, c.path).Err?)
            && (AfterOf(c).Some? ==> ResolvePointer(after, c.path) == Ok(AfterOf(c).value))
            && (AfterOf(c).None? ==> ResolvePointer(after, c.path).Err?)
  {
    DiffValuesRenders(before, after, "");
    TokenDiffFaithful(before, after);
    var c := TokenDiff(before, after)[i];
    assert Faithful(before, after, c);
    DiffTokensStart(before, after, TokensOf(before, after));
    RenderSplits(c.path);
    assert "" + Render(c.path) == Render(c.path);
    RenderResolves(before, c.path);
    RenderResolves(after, c.path);
  }

  /** Changes below a container name a token first. */
  lemma {:induction false} DiffTokensStart(before: Json, after: Json, tokens: seq<string>)
    ensures forall i :: 0 <= i < |DiffTokens(before, after, tokens)| ==>
                          && DiffTokens(before, after, tokens)[i].path != []
                          && DiffTokens(before, after, tokens)[i].path[0] in tokens
    decreases |tokens|
  {
    if tokens != [] {
      DiffTokensStart(before, after, tokens[1..]);
      var own := DiffToken(before, after, tokens[0]);
      forall i | 0 <= i < |own| ensures own[i].path != [] && own[i].path[0] == tokens[0] {}
    }
  }

  // ---------- no path twice, none above another ----------

  ghost predicate PrefixFree(changes: seq<Change<seq<string>>>) {
    forall i, j :: 0 <= i < |changes| && 0 <= j < |changes| && i != j ==> !(changes[i].path <= changes[j].path)
  }

  lemma {:induction false} TokenDiffPrefixFree(before: Json, after: Json)
    ensures PrefixFree(TokenDiff(before, after))
    decreases before, 1, 0
  {
    if SameKind(before, after) {
      TokensFacts(before, after);
      DiffTokensPrefixFree(before, after, TokensOf(before, after));
    }
  }

  lemma {:induction false} DiffTokensPrefixFree(before: Json, after: Json, tokens: seq<string>)
    requires NoRepeats(tokens)
    ensures PrefixFree(DiffTokens(before, after, tokens))
    decreases before, 0, |tokens|
  {
    if tokens != [] {
      var t := tokens[0];
      var own, rest := DiffToken(before, after, t), DiffTokens(before, after, tokens[1..]);
      DiffTokensPrefixFree(before, after, tokens[1..]);
      DiffTokensStart(before, after, tokens[1..]);
      if ChildOf(before, t).Some? && ChildOf(after, t).Some? {
        TokenDiffPrefixFree(ChildOf(before, t).value, ChildOf(after, t).value);
        UnderPrefixFree(t, TokenDiff(ChildOf(before, t).value, ChildOf(after, t).value));
      }
      forall i | 0 <= i < |own| ensures own[i].path != [] && own[i].path[0] == t {}
      ApartPrefixFree(t, own, rest);
    }
  }

  lemma UnderPrefixFree(t: string, changes: seq<Change<seq<string>>>)
    requires PrefixFree(changes)
    ensures PrefixFree(Under(t, changes))
  {
    var under := Under(t, changes);
    forall i, j | 0 <= i < |changes| && 0 <= j < |changes| && i != j ensures !(under[i].path <= under[j].path) {
      assert under[i].path[1..] == changes[i].path && under[j].path[1..] == changes[j].path;
      assert !(changes[i].path <= changes[j].path);
    }
  }

  lemma ApartPrefixFree(t: string, own: seq<Change<seq<string>>>, rest: seq<Change<seq<string>>>)
    requires PrefixFree(own) && PrefixFree(rest)
    requires forall i :: 0 <= i < |own| ==> own[i].path != [] && own[i].path[0] == t
    requires forall i :: 0 <= i < |rest| ==> rest[i].path != [] && rest[i].path[0] != t
    ensures PrefixFree(own + rest)
  {
    var all := own + rest;
    forall i, j | 0 <= i < |all| && 0 <= j < |all| && i != j ensures !(all[i].path <= all[j].path) {
      if i < |own| && j < |own| {
        assert !(own[i].path <= own[j].path);
      } else if i >= |own| && j >= |own| {
        assert !(rest[i - |own|].path <= rest[j - |own|].path);
      } else {
        assert all[i].path[0] != all[j].path[0];
      }
    }
  }

  /** Reported pointers are distinct and none lies above another. */
  lemma PointersAreApart(before: Json, after: Json, i: nat, j: nat)
    requires SameKind(before, after)
    requires i < |DiffValues(before, after, "")| && j < |DiffValues(before, after, "")| && i != j
    ensures var p, q := DiffValues(before, after, "")[i].path, DiffValues(before, after, "")[j].path;
            p != q && !(p + "/" <= q)
  {
    DiffValuesRenders(before, after, "");
    TokenDiffPrefixFree(before, after);
    var changes := TokenDiff(before, after);
    DiffTokensStart(before, after, TokensOf(before, after));
    var a, b := changes[i].path, changes[j].path;
    assert !(a <= b);
    RenderSplits(a);
    RenderSplits(b);
    assert "" + Render(a) == Render(a) && "" + Render(b) == Render(b);
    RenderReflectsPrefix(a, b);
  }

  // ---------- replay ----------

  /** `j` with `v` at `token`: a member set, an element replaced, or an element appended. */
  function SetChild(j: Json, token: string, v: Json): Option<Json> {
    match j
    case Map(fields) => Some(Map(fields[token := v]))
    case List(items) =>
      if !IsCanonicalIndex(token) || ParseDigits(token) > |items| then None
      else if ParseDigits(token) == |items| then Some(List(items + [v]))
      else Some(List(items[ParseDigits(token) := v]))
    case _ => None
  }

  /** `j` without its member or element at `token`; later elements move up. */
  function RemoveChild(j: Json, token: string): Option<Json> {
    if ChildOf(j, token).None? then None
    else if j.Map? then Some(Map(j.fields - {token}))
    else Some(List(j.items[..ParseDigits(token)] + j.items[ParseDigits(token) + 1..]))
  }

  /** One change applied to a document; `None` if its path does not fit. */
  function ApplyChange(document: Json, c: Change<seq<string>>): Option<Json>
    decreases |c.path|
  {
    if c.path == [] then if c.Replace? then Some(c.after) else None
    else if |c.path| == 1 && c.Add? then
      if ChildOf(document, c.path[0]).Some? then None else SetChild(document, c.path[0], c.after)
    else if |c.path| == 1 && c.Remove? then RemoveChild(document, c.path[0])
    else
      var child := ChildOf(document, c.path[0]);
      if child.None? then None
      else
        var inner := ApplyChange(child.value, c.(path := c.path[1..]));
        if inner.None? then None else SetChild(document, c.path[0], inner.value)
  }

  function ApplyAll(document: Json, changes: seq<Change<seq<string>>>): Option<Json>
    decreases |changes|
  {
    if changes == [] then Some(document)
    else
      var next := ApplyChange(document, changes[0]);
      if next.None? then None else ApplyAll(next.value, changes[1..])
  }

  /** Additions and replacements, in report order. */
  function Forward<P>(changes: seq<Change<P>>): seq<Change<P>> {
    if changes == [] then []
    else (if changes[0].Remove? then [] else [changes[0]]) + Forward(changes[1..])
  }

  /** Removals, last reported first, so that list elements leave from the end. */
  function Backward<P>(changes: seq<Change<P>>): seq<Change<P>> {
    if changes == [] then []
    else Backward(changes[1..]) + (if changes[0].Remove? then [changes[0]] else [])
  }

  lemma {:induction false} ForwardConcat<P>(a: seq<Change<P>>, b: seq<Change<P>>)
    ensures Forward(a + b) == Forward(a) + Forward(b)
  {
    if a == [] {
      assert a + b == b;
    } else {
      ForwardConcat(a[1..], b);
      assert (a + b)[1..] == a[1..] + b;
      Reassociate(if a[0].Remove? then [] else [a[0]], Forward(a[1..]), Forward(b));
    }
  }

  lemma Reassociate<T>(a: seq<T>, b: seq<T>, c: seq<T>)
    ensures a + (b + c) == a + b + c
  {
  }

  lemma {:induction false} BackwardConcat<P>(a: seq<Change<P>>, b: seq<Change<P>>)
    ensures Backward(a + b) == Backward(b) + Backward(a)
  {
    if a == [] {
      assert a + b == b;
    } else {
      BackwardConcat(a[1..], b);
      assert (a + b)[1..] == a[1..] + b;
      Reassociate(Backward(b), Backward(a[1..]), if a[0].Remove? then [a[0]] else []);
    }
  }

  lemma {:induction false} ForwardUnder(t: string, changes: seq<Change<seq<string>>>)
    ensures Forward(Under(t, changes)) == Under(t, Forward(changes))
  {
    if changes != [] {
      ForwardUnder(t, changes[1..]);
      assert Under(t, changes)[1..] == Under(t, changes[1..]);
    }
  }

  lemma {:induction false} BackwardUnder(t: string, changes: seq<Change<seq<string>>>)
    ensures Backward(Under(t, changes)) == Under(t, Backward(changes))
  {
    if changes != [] {
      BackwardUnder(t, changes[1..]);
      assert Under(t, changes)[1..] == Under(t, changes[1..]);
    }
  }

  lemma {:induction false} ApplyConcat(document: Json, a: seq<Change<seq<string>>>, b: seq<Change<seq<string>>>)
    ensures ApplyAll(document, a + b) ==
            if ApplyAll(document, a).None? then None else ApplyAll(ApplyAll(document, a).value, b)
    decreases |a|
  {
    if a == [] {
      assert a + b == b;
    } else {
      assert (a + b)[1..] == a[1..] + b;
      var next := ApplyChange(document, a[0]);
      if next.Some? {
        ApplyConcat(next.value, a[1..], b);
      }
    }
  }

  lemma SetItemAt(j: Json, t: string, v: Json, u: string)
    requires j.List? && ChildOf(j, t).Some?
    ensures ChildOf(SetChild(j, t, v).value, u) == if u == t then Some(v) else ChildOf(j, u)
  {
    CanonicalIsDecimal(t);
    SameIndex(u, ParseDigits(t));
    ListChild(j.items, u);
    ListChild(j.items[ParseDigits(t) := v], u);
  }

  lemma SetChildFacts(j: Json, t: string, v: Json)
    requires ChildOf(j, t).Some?
    ensures SetChild(j, t, v).Some? && SameKind(SetChild(j, t, v).value, j)
    ensures forall u :: ChildOf(SetChild(j, t, v).value, u) == if u == t then Some(v) else ChildOf(j, u)
    ensures v == ChildOf(j, t).value ==> SetChild(j, t, v) == Some(j)
  {
    if j.List? {
      forall u ensures ChildOf(SetChild(j, t, v).value, u) == if u == t then Some(v) else ChildOf(j, u) {
        SetItemAt(j, t, v, u);
      }
      if v == ChildOf(j, t).value { assert j.items[ParseDigits(t) := v] == j.items; }
    } else {
      if v == ChildOf(j, t).value { assert j.fields[t := v] == j.fields; }
    }
  }

  /** A change that says what to do with the place it names. */
  predicate Placeable(c: Change<seq<string>>) {
    c.path != [] || c.Replace?
  }

  predicate AllPlaceable(changes: seq<Change<seq<string>>>) {
    forall i {:trigger Placeable(changes[i])} :: 0 <= i < |changes| ==> Placeable(changes[i])
  }

  lemma PlaceableRest(changes: seq<Change<seq<string>>>)
    requires AllPlaceable(changes) && changes != []
    ensures Placeable(changes[0]) && AllPlaceable(changes[1..])
  {
    forall i | 0 <= i < |changes[1..]| ensures Placeable(changes[1..][i]) {
      assert Placeable(changes[i + 1]);
    }
  }

  /** Changes below a token that is there change that child and nothing else. */
  lemma {:induction false} ApplyUnder(document: Json, t: string, changes: seq<Change<seq<string>>>)
    requires ChildOf(document, t).Some?
    requires ApplyAll(ChildOf(document, t).value, changes).Some?
    requires AllPlaceable(changes)
    ensures ApplyAll(document, Under(t, changes))
            == SetChild(document, t, ApplyAll(ChildOf(document, t).value, changes).value)
    decreases |changes|
  {
    var child := ChildOf(document, t).value;
    SetChildFacts(document, t, child);
    if changes != [] {
      PlaceableRest(changes);
      var c := changes[0];
      var next := ApplyChange(child, c).value;
      var under := Under(t, changes);
      assert under[0].path == [t] + c.path && under[0].path[1..] == c.path;
      assert under[0].(path := c.path) == c;
      SetChildFacts(document, t, next);
      var moved := SetChild(document, t, next).value;
      assert ApplyChange(document, under[0]) == Some(moved);
      assert under[1..] == Under(t, changes[1..]);
      ApplyUnder(moved, t, changes[1..]);
      SetTwice(document, t, next, ApplyAll(next, changes[1..]).value);
    }
  }

  lemma SetTwice(j: Json, t: string, v: Json, w: Json)
    requires ChildOf(j, t).Some?
    ensures SetChild(j, t, v).Some? && SetChild(SetChild(j, t, v).value, t, w) == SetChild(j, t, w)
  {
    if j.Map? {
      assert j.fields[t := v][t := w] == j.fields[t := w];
    } else {
      assert j.items[ParseDigits(t) := v][ParseDigits(t) := w] == j.items[ParseDigits(t) := w];
    }
  }

  /** The document between the two phases: everything of `after`, and what is still to be removed. */
  function Mid(before: Json, after: Json): Json
    decreases before
  {
    if before.Map? && after.Map? then
      Map(map k | k in before.fields.Keys + after.fields.Keys ::
            if k !in after.fields then before.fields[k]
            else if k !in before.fields then after.fields[k]
            else Mid(before.fields[k], after.fields[k]))
    else if before.List? && after.List? then
      List(seq(Max(|before.items|, |after.items|), i requires 0 <= i < Max(|before.items|, |after.items|) =>
                 if i >= |after.items| then before.items[i]
                 else if i >= |before.items| then after.items[i]
                 else Mid(before.items[i], after.items[i])))
    else after
  }

  function MidChild(b: Option<Json>, a: Option<Json>): Option<Json> {
    if a.None? then b else if b.None? then a else Some(Mid(b.value, a.value))
  }

  lemma MidChildren(before: Json, after: Json)
    requires SameKind(before, after)
    ensures SameKind(Mid(before, after), before)
    ensures forall t :: ChildOf(Mid(before, after), t) == MidChild(ChildOf(before, t), ChildOf(after, t))
  {
  }

  /** `document` has taken over the children of `done` at `tokens` and is otherwise like `start`. */
  ghost predicate Between(document: Json, start: Json, done: Json, tokens: seq<string>) {
    && SameKind(document, start)
    && forall t {:trigger ChildOf(document, t)} ::
         ChildOf(document, t) == if t in tokens then ChildOf(done, t) else ChildOf(start, t)
  }

  lemma {:induction false} ForwardReachesMid(before: Json, after: Json)
    ensures ApplyAll(before, Forward(TokenDiff(before, after))) == Some(Mid(before, after))
    decreases before, 1, 0
  {
    if SameKind(before, after) {
      var tokens := TokensOf(before, after);
      TokensFacts(before, after);
      MidChildren(before, after);
      assert tokens[..0] == [];
      var document := ForwardTokens(before, after, before, tokens, 0);
      assert tokens[0..] == tokens;
      forall t ensures ChildOf(document, t) == ChildOf(Mid(before, after), t) {
        if t in tokens {} else {}
      }
      ChildrenDetermine(document, Mid(before, after));
    }
  }

  /** A list that has taken over its first `n` elements is ready for element `n`. */
  lemma AppendPosition(document: Json, before: Json, after: Json, done: Json, n: nat)
    requires SameKind(before, after) && before.List? && done.List?
    requires n < |TokensOf(before, after)|
    requires Between(document, before, done, TokensOf(before, after)[..n])
    requires ChildOf(before, TokensOf(before, after)[n]).None?
    requires n <= |done.items|
    ensures |document.items| == n && TokensOf(before, after)[n] == Decimal(n)
  {
    var tokens := TokensOf(before, after);
    IndicesFacts(|tokens|);
    IndicesFacts(Max(|before.items|, |after.items|));
    IndicesDistinct(|tokens|);
    DecimalChild(before, n);
    assert Decimal(n) !in tokens[..n];
    DecimalChild(document, n);
    assert ChildOf(document, Decimal(n)) == ChildOf(before, Decimal(n));
    if n > 0 {
      assert tokens[..n][n - 1] == Decimal(n - 1);
      DecimalChild(document, n - 1);
      DecimalChild(done, n - 1);
      assert ChildOf(document, Decimal(n - 1)) == ChildOf(done, Decimal(n - 1));
    }
  }

  lemma MidLength(before: Json, after: Json, n: nat)
    requires SameKind(before, after) && before.List? && n < |TokensOf(before, after)|
    ensures Mid(before, after).List? && n <= |Mid(before, after).items|
  {
    IndicesFacts(Max(|before.items|, |after.items|));
  }

  lemma AddFacts(j: Json, t: string, v: Json)
    requires j.Map? || (j.List? && t == Decimal(|j.items|))
    requires ChildOf(j, t).None?
    ensures SetChild(j, t, v).Some? && SameKind(SetChild(j, t, v).value, j)
    ensures forall u :: ChildOf(SetChild(j, t, v).value, u) == if u == t then Some(v) else ChildOf(j, u)
  {
    if j.List? {
      DecimalRoundTrip(|j.items|);
      forall u ensures ChildOf(SetChild(j, t, v).value, u) == if u == t then Some(v) else ChildOf(j, u) {
        SameIndex(u, |j.items|);
        ListChild(j.items, u);
        ListChild(j.items + [v], u);
      }
    }
  }

  lemma {:induction false} ForwardTokens(before: Json, after: Json, document: Json, tokens: seq<string>, n: nat)
    returns (result: Json)
    requires SameKind(before, after) && tokens == TokensOf(before, after) && n <= |tokens|
    requires NoRepeats(tokens)
    requires Between(document, before, Mid(before, after), tokens[..n])
    ensures ApplyAll(document, Forward(DiffTokens(before, after, tokens[n..]))) == Some(result)
    ensures Between(result, before, Mid(before, after), tokens)
    decreases before, 0, |tokens| - n
  {
    if n == |tokens| {
      assert tokens[..n] == tokens;
      result := document;
    } else {
      var t := tokens[n];
      var next := ForwardToken(before, after, document, tokens, n);
      result := ForwardTokens(before, after, next, tokens, n + 1);
      assert tokens[n..] == [t] + tokens[n + 1..];
      DiffTokensStep(before, after, t, tokens[n + 1..]);
      ForwardConcat(DiffToken(before, after, t), DiffTokens(before, after, tokens[n + 1..]));
      ApplyConcat(document, Forward(DiffToken(before, after, t)), Forward(DiffTokens(before, after, tokens[n + 1..])));
    }
  }

  lemma {:induction false} ForwardShared(document: Json, t: string, b: Json, a: Json) returns (next: Json)
    requires ChildOf(document, t) == Some(b)
    ensures ApplyAll(document, Forward(Under(t, TokenDiff(b, a)))) == Some(next)
    ensures SameKind(next, document)
    ensures forall u :: ChildOf(next, u) == if u == t then Some(Mid(b, a)) else ChildOf(document, u)
    decreases b, 2, 0
  {
    ForwardReachesMid(b, a);
    ForwardUnder(t, TokenDiff(b, a));
    PhasesShape(b, a);
    ApplyUnder(document, t, Forward(TokenDiff(b, a)));
    SetChildFacts(document, t, Mid(b, a));
    next := SetChild(document, t, Mid(b, a)).value;
  }

  lemma {:induction false} ForwardToken(before: Json, after: Json, document: Json, tokens: seq<string>, n: nat)
    returns (next: Json)
    requires SameKind(before, after) && tokens == TokensOf(before, after) && n < |tokens|
    requires NoRepeats(tokens)
    requires Between(document, before, Mid(before, after), tokens[..n])
    ensures ApplyAll(document, Forward(DiffToken(before, after, tokens[n]))) == Some(next)
    ensures Between(next, before, Mid(before, after), tokens[..n + 1])
    decreases before, 0, 0
  {
    var t := tokens[n];
    MidChildren(before, after);
    assert t !in tokens[..n];
    assert tokens[..n + 1] == tokens[..n] + [t];
    var b, a := ChildOf(before, t), ChildOf(after, t);
    if b.None? && a.Some? {
      if before.List? { MidLength(before, after, n); AppendPosition(document, before, after, Mid(before, after), n); }
      AddFacts(document, t, a.value);
      next := SetChild(document, t, a.value).value;
      ApplyOne(document, Add([t], a.value));
    } else if b.Some? && a.Some? {
      next := ForwardShared(document, t, b.value, a.value);
    } else {
      next := document;
    }
  }

  lemma ApplyOne(document: Json, c: Change<seq<string>>)
    ensures ApplyAll(document, [c]) == ApplyChange(document, c)
  {
    assert [c][1..] == [];
  }

  /** Only a replacement can sit at the root. */
  lemma TokenDiffShape(before: Json, after: Json)
    ensures AllPlaceable(TokenDiff(before, after))
  {
    var changes := TokenDiff(before, after);
    if SameKind(before, after) {
      DiffTokensStart(before, after, TokensOf(before, after));
      assert changes == DiffTokens(before, after, TokensOf(before, after));
    }
  }

  lemma {:induction false} ForwardMembers<P>(changes: seq<Change<P>>)
    ensures forall c :: c in Forward(changes) ==> c in changes
    ensures forall c :: c in Backward(changes) ==> c in changes
  {
    if changes != [] {
      ForwardMembers(changes[1..]);
    }
  }

  lemma PhasesShape(before: Json, after: Json)
    ensures AllPlaceable(Forward(TokenDiff(before, after)))
    ensures AllPlaceable(Backward(TokenDiff(before, after)))
  {
    var changes := TokenDiff(before, after);
    TokenDiffShape(before, after);
    ForwardMembers(changes);
    PlaceablePart(changes, Forward(changes));
    PlaceablePart(changes, Backward(changes));
  }

  lemma PlaceablePart(changes: seq<Change<seq<string>>>, part: seq<Change<seq<string>>>)
    requires AllPlaceable(changes) && forall c :: c in part ==> c in changes
    ensures AllPlaceable(part)
  {
    forall i | 0 <= i < |part| ensures Placeable(part[i]) {
      assert part[i] in changes;
      var k :| 0 <= k < |changes| && changes[k] == part[i];
      assert Placeable(changes[k]);
    }
  }

  // ---------- the second phase ----------

  lemma {:induction false} BackwardReachesAfter(before: Json, after: Json)
    ensures ApplyAll(Mid(before, after), Backward(TokenDiff(before, after))) == Some(after)
    decreases before, 1, 0
  {
    if SameKind(before, after) {
      var tokens := TokensOf(before, after);
      TokensFacts(before, after);
      MidChildren(before, after);
      var document := BackwardTokens(before, after, tokens, 0);
      assert tokens[0..] == tokens;
      forall t ensures ChildOf(document, t) == ChildOf(after, t) {
        if t in tokens {} else {}
      }
      ChildrenDetermine(document, after);
    }
  }

  /** A list that has given up its elements after `n` ends with element `n`. */
  lemma RemovePosition(document: Json, mid: Json, after: Json, tokens: seq<string>, n: nat)
    requires mid.List? && after.List? && |mid.items| == |tokens| && n < |tokens|
    requires forall i :: 0 <= i < |tokens| ==> tokens[i] == Decimal(i)
    requires NoRepeats(tokens)
    requires Between(document, mid, after, tokens[n + 1..])
    requires ChildOf(after, tokens[n]).None?
    ensures |document.items| == n + 1
  {
    DecimalChild(after, n);
    DecimalChild(after, n + 1);
    DecimalChild(mid, n);
    DecimalChild(mid, n + 1);
    DecimalChild(document, n);
    DecimalChild(document, n + 1);
    assert tokens[n] !in tokens[n + 1..];
    if n + 1 < |tokens| {
      assert tokens[n + 1..][0] == Decimal(n + 1);
    }
  }

  lemma RemoveFacts(j: Json, t: string)
    requires ChildOf(j, t).Some?
    requires j.List? ==> t == Decimal(|j.items| - 1)
    ensures RemoveChild(j, t).Some? && SameKind(RemoveChild(j, t).value, j)
    ensures forall u :: ChildOf(RemoveChild(j, t).value, u) == if u == t then None else ChildOf(j, u)
  {
    if j.List? {
      DecimalRoundTrip(|j.items| - 1);
      var k := RemoveChild(j, t).value;
      assert k.items == j.items[..|j.items| - 1];
      forall u ensures ChildOf(k, u) == if u == t then None else ChildOf(j, u) {
        ShorterListAt(j.items, u);
      }
    }
  }

  lemma ShorterListAt(items: seq<Json>, u: string)
    requires items != []
    ensures ChildOf(List(items[..|items| - 1]), u) ==
            if u == Decimal(|items| - 1) then None else ChildOf(List(items), u)
  {
    var last := |items| - 1;
    ListChild(items, u);
    ListChild(items[..last], u);
    SameIndex(u, last);
  }

  lemma ListChild(items: seq<Json>, u: string)
    ensures ChildOf(List(items), u) ==
            if IsCanonicalIndex(u) && ParseDigits(u) < |items| then Some(items[ParseDigits(u)]) else None
  {
  }

  lemma SameIndex(u: string, index: nat)
    ensures u == Decimal(index) <==> IsCanonicalIndex(u) && ParseDigits(u) == index
  {
    DecimalRoundTrip(index);
    if IsCanonicalIndex(u) {
      CanonicalIsDecimal(u);
    }
  }

  lemma {:induction false} BackwardTokens(before: Json, after: Json, tokens: seq<string>, n: nat) returns (result: Json)
    requires SameKind(before, after) && tokens == TokensOf(before, after) && n <= |tokens|
    requires NoRepeats(tokens)
    ensures ApplyAll(Mid(before, after), Backward(DiffTokens(before, after, tokens[n..]))) == Some(result)
    ensures Between(result, Mid(before, after), after, tokens[n..])
    decreases before, 0, |tokens| - n
  {
    MidChildren(before, after);
    if n == |tokens| {
      result := Mid(before, after);
    } else {
      var t := tokens[n];
      var document := BackwardTokens(before, after, tokens, n + 1);
      result := BackwardToken(before, after, document, tokens, n);
      assert tokens[n..] == [t] + tokens[n + 1..];
      DiffTokensStep(before, after, t, tokens[n + 1..]);
      BackwardConcat(DiffToken(before, after, t), DiffTokens(before, after, tokens[n + 1..]));
      ApplyConcat(Mid(before, after), Backward(DiffTokens(before, after, tokens[n + 1..])),
                  Backward(DiffToken(before, after, t)));
    }
  }

  lemma {:induction false} BackwardShared(document: Json, t: string, b: Json, a: Json) returns (next: Json)
    requires ChildOf(document, t) == Some(Mid(b, a))
    ensures ApplyAll(document, Backward(Under(t, TokenDiff(b, a)))) == Some(next)
    ensures SameKind(next, document)
    ensures forall u :: ChildOf(next, u) == if u == t then Some(a) else ChildOf(document, u)
    decreases b, 2, 0
  {
    BackwardReachesAfter(b, a);
    BackwardUnder(t, TokenDiff(b, a));
    PhasesShape(b, a);
    ApplyUnder(document, t, Backward(TokenDiff(b, a)));
    SetChildFacts(document, t, a);
    next := SetChild(document, t, a).value;
  }

  lemma BetweenStep(document: Json, next: Json, start: Json, done: Json, t: string, rest: seq<string>)
    requires Between(document, start, done, rest) && t !in rest
    requires SameKind(next, document)
    requires forall u :: ChildOf(next, u) == if u == t then ChildOf(done, t) else ChildOf(document, u)
    ensures Between(next, start, done, [t] + rest)
  {
  }

  lemma MidTokens(before: Json, after: Json)
    requires SameKind(before, after)
    ensures SameKind(Mid(before, after), after)
    ensures after.List? ==> IndexedBy(Mid(before, after).items, TokensOf(before, after))
  {
    if before.List? {
      IndicesFacts(Max(|before.items|, |after.items|));
    }
  }

  predicate IndexedBy(items: seq<Json>, tokens: seq<string>) {
    |items| == |tokens| && forall i {:trigger tokens[i]} :: 0 <= i < |tokens| ==> tokens[i] == Decimal(i)
  }

  lemma BackwardRemove(mid: Json, after: Json, document: Json, tokens: seq<string>, n: nat) returns (next: Json)
    requires SameKind(mid, after) && n < |tokens| && NoRepeats(tokens)
    requires after.List? ==> IndexedBy(mid.items, tokens)
    requires Between(document, mid, after, tokens[n + 1..])
    requires ChildOf(after, tokens[n]).None? && ChildOf(document, tokens[n]).Some?
    ensures RemoveChild(document, tokens[n]) == Some(next) && SameKind(next, document)
    ensures forall u :: ChildOf(next, u) == if u == tokens[n] then None else ChildOf(document, u)
  {
    if after.List? {
      RemovePosition(document, mid, after, tokens, n);
    }
    RemoveFacts(document, tokens[n]);
    next := RemoveChild(document, tokens[n]).value;
  }

  lemma {:induction false} BackwardToken(before: Json, after: Json, document: Json, tokens: seq<string>, n: nat)
    returns (next: Json)
    requires SameKind(before, after) && tokens == TokensOf(before, after) && n < |tokens|
    requires NoRepeats(tokens)
    requires Between(document, Mid(before, after), after, tokens[n + 1..])
    ensures ApplyAll(document, Backward(DiffToken(before, after, tokens[n]))) == Some(next)
    ensures Between(next, Mid(before, after), after, tokens[n..])
    decreases before, 0, 0
  {
    var t, rest := tokens[n], tokens[n + 1..];
    MidChildren(before, after);
    assert t !in rest;
    assert tokens[n..] == [t] + rest;
    assert ChildOf(document, t) == MidChild(ChildOf(before, t), ChildOf(after, t));
    var b, a := ChildOf(before, t), ChildOf(after, t);
    if b.Some? && a.None? {
      MidTokens(before, after);
      next := BackwardRemove(Mid(before, after), after, document, tokens, n);
      ApplyOne(document, Remove([t], b.value));
    } else if b.Some? && a.Some? {
      next := BackwardShared(document, t, b.value, a.value);
    } else {
      next := document;
    }
    BetweenStep(document, next, Mid(before, after), after, t, rest);
  }

  /** Replaying the report on `before` reconstructs `after`: first what is new, then the removals from the end. */
  lemma TokenReplayReconstructs(before: Json, after: Json)
    ensures ApplyAll(before, Forward(TokenDiff(before, after)) + Backward(TokenDiff(before, after))) == Some(after)
  {
    ForwardReachesMid(before, after);
    BackwardReachesAfter(before, after);
    ApplyConcat(before, Forward(TokenDiff(before, after)), Backward(TokenDiff(before, after)));
  }

  // ---------- replay in report order ----------

  /** Nowhere does a list lose more than one element. */
  predicate ShrinksGently(before: Json, after: Json)
    decreases before
  {
    if before.Map? && after.Map? then
      forall k :: k in before.fields && k in after.fields ==> ShrinksGently(before.fields[k], after.fields[k])
    else if before.List? && after.List? then
      && |before.items| <= |after.items| + 1
      && forall i :: 0 <= i < |before.items| && i < |after.items| ==> ShrinksGently(before.items[i], after.items[i])
    else true
  }

  /** The report about this child can be applied in its own order. */
  ghost predicate GentleAt(before: Json, after: Json, t: string) {
    var b, a := ChildOf(before, t), ChildOf(after, t);
    && (b.Some? && a.Some? ==> ShrinksGently(b.value, a.value))
    && (b.Some? && a.None? && before.List? && after.List? ==> |before.items| <= |after.items| + 1)
  }

  lemma GentleChildren(before: Json, after: Json, t: string)
    requires SameKind(before, after) && ShrinksGently(before, after)
    ensures GentleAt(before, after, t)
  {
  }

  lemma RoughChild(before: Json, after: Json) returns (t: string)
    requires SameKind(before, after) && !ShrinksGently(before, after)
    ensures t in TokensOf(before, after) && !GentleAt(before, after, t)
  {
    TokensFacts(before, after);
    if before.Map? {
      t :| t in before.fields && t in after.fields && !ShrinksGently(before.fields[t], after.fields[t]);
    } else if |before.items| > |after.items| + 1 {
      t := Decimal(|after.items|);
      DecimalChild(before, |after.items|);
      DecimalChild(after, |after.items|);
    } else {
      var i :| 0 <= i < |before.items| && i < |after.items| && !ShrinksGently(before.items[i], after.items[i]);
      t := Decimal(i);
      DecimalChild(before, i);
      DecimalChild(after, i);
    }
  }

  lemma {:induction false} GentleReplay(before: Json, after: Json)
    requires ShrinksGently(before, after)
    ensures ApplyAll(before, TokenDiff(before, after)) == Some(after)
    decreases before, 1, 0
  {
    if SameKind(before, after) {
      var tokens := TokensOf(before, after);
      TokensFacts(before, after);
      forall t ensures GentleAt(before, after, t) {
        GentleChildren(before, after, t);
      }
      assert tokens[..0] == [];
      var document := GentleTokens(before, after, before, tokens, 0);
      assert tokens[0..] == tokens;
      forall t ensures ChildOf(document, t) == ChildOf(after, t) {
        if t in tokens {} else {}
      }
      ChildrenDetermine(document, after);
    } else if before != after {
      ApplyOne(before, Replace([], before, after));
    }
  }

  lemma {:induction false} GentleTokens(before: Json, after: Json, document: Json, tokens: seq<string>, n: nat)
    returns (result: Json)
    requires SameKind(before, after) && tokens == TokensOf(before, after) && n <= |tokens|
    requires NoRepeats(tokens) && forall t :: GentleAt(before, after, t)
    requires Between(document, before, after, tokens[..n])
    ensures ApplyAll(document, DiffTokens(before, after, tokens[n..])) == Some(result)
    ensures Between(result, before, after, tokens)
    decreases before, 0, |tokens| - n
  {
    if n == |tokens| {
      assert tokens[..n] == tokens;
      result := document;
    } else {
      assert GentleAt(before, after, tokens[n]);
      var next := GentleToken(before, after, document, tokens, n);
      result := GentleTokens(before, after, next, tokens, n + 1);
      ApplyToken(before, after, document, tokens, n);
    }
  }

  lemma ApplyToken(before: Json, after: Json, document: Json, tokens: seq<string>, n: nat)
    requires n < |tokens|
    ensures var own := ApplyAll(document, DiffToken(before, after, tokens[n]));
            ApplyAll(document, DiffTokens(before, after, tokens[n..])) ==
            if own.None? then None else ApplyAll(own.value, DiffTokens(before, after, tokens[n + 1..]))
  {
    var t := tokens[n];
    assert tokens[n..] == [t] + tokens[n + 1..];
    DiffTokensStep(before, after, t, tokens[n + 1..]);
    ApplyConcat(document, DiffToken(before, after, t), DiffTokens(before, after, tokens[n + 1..]));
  }

  lemma {:induction false} GentleShared(document: Json, t: string, b: Json, a: Json) returns (next: Json)
    requires ChildOf(document, t) == Some(b) && ShrinksGently(b, a)
    ensures ApplyAll(document, Under(t, TokenDiff(b, a))) == Some(next)
    ensures SameKind(next, document)
    ensures forall u :: ChildOf(next, u) == if u == t then Some(a) else ChildOf(document, u)
    decreases b, 2, 0
  {
    GentleReplay(b, a);
    TokenDiffShape(b, a);
    ApplyUnder(document, t, TokenDiff(b, a));
    SetChildFacts(document, t, a);
    next := SetChild(document, t, a).value;
  }

  /** In a list that loses one element, that element is the last one when its turn comes. */
  lemma LastElement(document: Json, before: Json, after: Json, n: nat)
    requires before.List? && after.List? && |before.items| <= |after.items| + 1
    requires n < |TokensOf(before, after)|
    requires Between(document, before, after, TokensOf(before, after)[..n])
    requires ChildOf(before, TokensOf(before, after)[n]).Some? && ChildOf(after, TokensOf(before, after)[n]).None?
    ensures TokensOf(before, after)[n] == Decimal(n) && document.List? && |document.items| == n + 1
  {
    var tokens := TokensOf(before, after);
    IndicesFacts(Max(|before.items|, |after.items|));
    IndicesDistinct(|tokens|);
    DecimalChild(before, n);
    DecimalChild(after, n);
    DecimalChild(before, n + 1);
    DecimalChild(document, n);
    DecimalChild(document, n + 1);
    assert Decimal(n) !in tokens[..n];
    assert Decimal(n + 1) !in tokens[..n] by {
      DecimalRoundTrip(n + 1);
      forall i | 0 <= i < n ensures tokens[i] != Decimal(n + 1) { DecimalRoundTrip(i); }
    }
    assert ChildOf(document, Decimal(n)) == ChildOf(before, Decimal(n));
    assert ChildOf(document, Decimal(n + 1)) == ChildOf(before, Decimal(n + 1));
  }

  lemma {:induction false} GentleToken(before: Json, after: Json, document: Json, tokens: seq<string>, n: nat)
    returns (next: Json)
    requires SameKind(before, after) && tokens == TokensOf(before, after) && n < |tokens|
    requires NoRepeats(tokens) && GentleAt(before, after, tokens[n])
    requires Between(document, before, after, tokens[..n])
    ensures ApplyAll(document, DiffToken(before, after, tokens[n])) == Some(next)
    ensures Between(next, before, after, tokens[..n + 1])
    decreases before, 0, 0
  {
    var t := tokens[n];
    assert t !in tokens[..n];
    assert tokens[..n + 1] == tokens[..n] + [t];
    var b, a := ChildOf(before, t), ChildOf(after, t);
    if b.None? && a.Some? {
      next := GentleAdd(before, after, document, n);
    } else if b.Some? && a.Some? {
      next := GentleShared(document, t, b.value, a.value);
    } else if b.Some? {
      if before.List? { LastElement(document, before, after, n); }
      RemoveFacts(document, t);
      next := RemoveChild(document, t).value;
      ApplyOne(document, Remove([t], b.value));
    } else {
      next := document;
    }
  }

  lemma GentleAdd(before: Json, after: Json, document: Json, n: nat) returns (next: Json)
    requires SameKind(before, after) && n < |TokensOf(before, after)|
    requires var t := TokensOf(before, after)[n];
             ChildOf(before, t).None? && ChildOf(after, t).Some? && ChildOf(document, t).None?
    requires Between(document, before, after, TokensOf(before, after)[..n])
    ensures var t := TokensOf(before, after)[n];
            && ApplyAll(document, DiffToken(before, after, t)) == Some(next)
            && SameKind(next, document)
            && forall u :: ChildOf(next, u) == if u == t then ChildOf(after, t) else ChildOf(document, u)
  {
    var t := TokensOf(before, after)[n];
    var a := ChildOf(after, t);
    if before.List? {
      IndicesFacts(Max(|before.items|, |after.items|));
      DecimalChild(after, n);
      AppendPosition(document, before, after, after, n);
    }
    AddFacts(document, t, a.value);
    next := SetChild(document, t, a.value).value;
    ApplyOne(document, Add([t], a.value));
  }

  /** Changes that fail on a child fail below it. */
  lemma {:induction false} ApplyUnderFails(document: Json, t: string, changes: seq<Change<seq<string>>>)
    requires ChildOf(document, t).Some?
    requires ApplyAll(ChildOf(document, t).value, changes).None?
    requires AllPlaceable(changes)
    ensures ApplyAll(document, Under(t, changes)).None?
    decreases |changes|
  {
    PlaceableRest(changes);
    var child := ChildOf(document, t).value;
    var c := changes[0];
    var under := Under(t, changes);
    assert under[0].path == [t] + c.path && under[0].path[1..] == c.path;
    assert under[0].(path := c.path) == c;
    if ApplyChange(child, c).Some? {
      var next := ApplyChange(child, c).value;
      SetChildFacts(document, t, next);
      var moved := SetChild(document, t, next).value;
      assert ApplyChange(document, under[0]) == Some(moved);
      assert under[1..] == Under(t, changes[1..]);
      ApplyUnderFails(moved, t, changes[1..]);
    }
  }

  /** Once a list is shorter than the report expects, one of its removals misses. */
  lemma {:induction false} RemovalsMiss(before: Json, after: Json, document: Json, tokens: seq<string>, n: nat)
    requires before.List? && after.List? && document.List? && tokens == TokensOf(before, after)
    requires |after.items| <= n < |tokens| && |document.items| < |tokens|
    ensures ApplyAll(document, DiffTokens(before, after, tokens[n..])).None?
    decreases |tokens| - n
  {
    IndicesFacts(Max(|before.items|, |after.items|));
    DecimalChild(before, n);
    DecimalChild(after, n);
    DecimalChild(document, n);
    DecimalRoundTrip(n);
    ApplyToken(before, after, document, tokens, n);
    ApplyOne(document, Remove([tokens[n]], before.items[n]));
    if n < |document.items| {
      RemovalsMiss(before, after, RemoveChild(document, tokens[n]).value, tokens, n + 1);
    }
  }

  lemma FirstRemovalThenMiss(before: Json, after: Json, document: Json, tokens: seq<string>, n: nat)
    requires before.List? && after.List? && tokens == TokensOf(before, after)
    requires |before.items| > |after.items| + 1 && n == |after.items| && n <= |tokens|
    requires Between(document, before, after, tokens[..n])
    ensures ApplyAll(document, DiffTokens(before, after, tokens[n..])).None?
  {
    IndicesFacts(Max(|before.items|, |after.items|));
    DecimalChild(before, n);
    DecimalChild(after, n);
    DecimalRoundTrip(n);
    ApplyToken(before, after, document, tokens, n);
    ApplyOne(document, Remove([tokens[n]], before.items[n]));
    WholeLength(document, before, after, tokens, n);
    DecimalChild(document, n);
    RemovalsMiss(before, after, RemoveChild(document, tokens[n]).value, tokens, n + 1);
  }

  lemma WholeLength(document: Json, before: Json, after: Json, tokens: seq<string>, n: nat)
    requires before.List? && after.List? && tokens == TokensOf(before, after)
    requires n == |after.items| < |before.items| && n <= |tokens|
    requires Between(document, before, after, tokens[..n])
    ensures document.List? && |document.items| == |tokens| == |before.items|
  {
    var size := |before.items|;
    IndicesFacts(Max(|before.items|, |after.items|));
    NotAmongFirst(tokens, n, size - 1);
    NotAmongFirst(tokens, n, size);
    DecimalChild(before, size - 1);
    DecimalChild(before, size);
    DecimalChild(document, size - 1);
    DecimalChild(document, size);
    assert ChildOf(document, Decimal(size - 1)) == ChildOf(before, Decimal(size - 1));
    assert ChildOf(document, Decimal(size)) == ChildOf(before, Decimal(size));
  }

  lemma NotAmongFirst(tokens: seq<string>, n: nat, k: nat)
    requires n <= |tokens| && n <= k && forall i :: 0 <= i < |tokens| ==> tokens[i] == Decimal(i)
    ensures Decimal(k) !in tokens[..n]
  {
    DecimalRoundTrip(k);
    forall i | 0 <= i < n ensures tokens[i] != Decimal(k) { DecimalRoundTrip(i); }
  }

  lemma {:induction false} RoughReplay(before: Json, after: Json)
    requires !ShrinksGently(before, after)
    ensures ApplyAll(before, TokenDiff(before, after)).None?
    decreases before, 1, 0
  {
    var tokens := TokensOf(before, after);
    TokensFacts(before, after);
    var t := RoughChild(before, after);
    var m :| 0 <= m < |tokens| && tokens[m] == t;
    assert tokens[..0] == [];
    RoughTokens(before, after, before, tokens, 0, m);
    assert tokens[0..] == tokens;
  }

  /** The report fails at the first child that cannot be replayed, at `m` or before. */
  lemma {:induction false} RoughTokens(before: Json, after: Json, document: Json, tokens: seq<string>, n: nat, m: nat)
    requires SameKind(before, after) && tokens == TokensOf(before, after) && n <= m < |tokens|
    requires NoRepeats(tokens) && !GentleAt(before, after, tokens[m])
    requires Between(document, before, after, tokens[..n])
    ensures ApplyAll(document, DiffTokens(before, after, tokens[n..])).None?
    decreases before, 0, |tokens| - n
  {
    var t := tokens[n];
    assert t !in tokens[..n];
    var b, a := ChildOf(before, t), ChildOf(after, t);
    ApplyToken(before, after, document, tokens, n);
    if GentleAt(before, after, t) {
      var next := GentleToken(before, after, document, tokens, n);
      RoughTokens(before, after, next, tokens, n + 1, m);
    } else if a.Some? {
      RoughReplay(b.value, a.value);
      TokenDiffShape(b.value, a.value);
      ApplyUnderFails(document, t, TokenDiff(b.value, a.value));
    } else {
      FirstGone(before, after, document, tokens, n);
    }
  }

  /** The first element that a shrinking list gives up is the one after the last that stays. */
  lemma FirstGone(before: Json, after: Json, document: Json, tokens: seq<string>, n: nat)
    requires before.List? && after.List? && tokens == TokensOf(before, after) && n < |tokens|
    requires |before.items| > |after.items| + 1 && ChildOf(after, tokens[n]).None?
    requires Between(document, before, after, tokens[..n])
    ensures ApplyAll(document, DiffTokens(before, after, tokens[n..])).None?
  {
    IndicesFacts(Max(|before.items|, |after.items|));
    DecimalChild(after, n);
    NothingGoneBefore(document, before, after, tokens, n);
    FirstRemovalThenMiss(before, after, document, tokens, n);
  }

  lemma NothingGoneBefore(document: Json, before: Json, after: Json, tokens: seq<string>, n: nat)
    requires before.List? && after.List? && tokens == TokensOf(before, after) && n < |before.items| && n <= |tokens|
    requires Between(document, before, after, tokens[..n])
    ensures n <= |after.items|
  {
    if n > |after.items| {
      ElementGone(document, before, after, tokens, n);
      ElementThere(document, before, after, tokens, n);
    }
  }

  lemma ElementGone(document: Json, before: Json, after: Json, tokens: seq<string>, n: nat)
    requires before.List? && after.List? && tokens == TokensOf(before, after) && |after.items| < n <= |tokens|
    requires Between(document, before, after, tokens[..n])
    ensures |document.items| <= |after.items|
  {
    var kept := |after.items|;
    IndicesFacts(Max(|before.items|, |after.items|));
    DecimalChild(after, kept);
    DecimalChild(document, kept);
    assert tokens[..n][kept] == Decimal(kept);
  }

  lemma ElementThere(document: Json, before: Json, after: Json, tokens: seq<string>, n: nat)
    requires before.List? && after.List? && tokens == TokensOf(before, after) && n < |before.items| && n <= |tokens|
    requires Between(document, before, after, tokens[..n])
    ensures |document.items| > n
  {
    IndicesFacts(Max(|before.items|, |after.items|));
    NotAmongFirst(tokens, n, n);
    DecimalChild(before, n);
    DecimalChild(document, n);
    assert ChildOf(document, Decimal(n)) == ChildOf(before, Decimal(n));
  }

  /**
   Applied one after another as reported, the changes reconstruct `after` exactly if no list loses more
   than one element; with two losses the first removal has already moved the second element.
   */
  lemma TokenOrderReplaysIff(before: Json, after: Json)
    ensures ApplyAll(before, TokenDiff(before, after)) == Some(after) <==> ShrinksGently(before, after)
  {
    if ShrinksGently(before, after) {
      GentleReplay(before, after);
    } else {
      RoughReplay(before, after);
    }
  }
}
