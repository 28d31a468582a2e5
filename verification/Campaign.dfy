/** Expansion of campaign matrices, layering of overlays, and assembly of worker results. */
module Campaign {
  import opened Wrappers
  import opened Json
  import opened Order
  import opened Sorting
  import opened Strings
  import opened Slugs
  import opened Dotted
  import opened Merging

  // ---------- Cartesian products ----------

  /** `[i] + rest[k]` for every `i` from `from` below `n`, the right-hand side moving fastest. */
  function Cross(from: nat, n: nat, rest: seq<seq<nat>>): seq<seq<nat>>
    requires from <= n
    decreases n - from
  {
    if from == n then [] else seq(|rest|, k requires 0 <= k < |rest| => [from] + rest[k]) + Cross(from + 1, n, rest)
  }

  /** All ways to pick one index below each size, in the order of nested loops. */
  function Choices(sizes: seq<nat>): seq<seq<nat>> {
    if sizes == [] then [[]] else Cross(0, sizes[0], Choices(sizes[1..]))
  }

  predicate IsChoice(sizes: seq<nat>, c: seq<nat>) {
    |c| == |sizes| && forall k :: 0 <= k < |c| ==> c[k] < sizes[k]
  }

  lemma {:induction false} CrossMembers(from: nat, n: nat, rest: seq<seq<nat>>, c: seq<nat>)
    requires from <= n
    ensures c in Cross(from, n, rest) <==> |c| > 0 && from <= c[0] < n && c[1..] in rest
    decreases n - from
  {
    if from < n {
      CrossMembers(from + 1, n, rest, c);
      var layer := seq(|rest|, k requires 0 <= k < |rest| => [from] + rest[k]);
      if |c| > 0 && c[0] == from && c[1..] in rest {
        var k :| 0 <= k < |rest| && rest[k] == c[1..];
        assert layer[k] == c;
      }
      if c in layer {
        var k :| 0 <= k < |layer| && layer[k] == c;
        assert c[1..] == rest[k];
      }
    }
  }

  lemma {:induction false} CrossDistinct(from: nat, n: nat, rest: seq<seq<nat>>)
    requires from <= n && NoRepeats(rest)
    ensures NoRepeats(Cross(from, n, rest))
    decreases n - from
  {
    if from < n {
      CrossDistinct(from + 1, n, rest);
      var layer := seq(|rest|, k requires 0 <= k < |rest| => [from] + rest[k]);
      var later := Cross(from + 1, n, rest);
      var all := layer + later;
      forall i, j | 0 <= i < j < |all| ensures all[i] != all[j] {
        if j < |layer| {
          assert all[i][1..] == rest[i] && all[j][1..] == rest[j];
        } else if i < |layer| {
          assert all[j] in later;
          CrossMembers(from + 1, n, rest, all[j]);
        }
      }
    }
  }

  /** Every combination is produced exactly once. */
  lemma {:induction false} ChoicesAreTheProduct(sizes: seq<nat>)
    ensures NoRepeats(Choices(sizes))
    ensures forall c :: c in Choices(sizes) <==> IsChoice(sizes, c)
    decreases |sizes|
  {
    if sizes != [] {
      var rest := Choices(sizes[1..]);
      ChoicesAreTheProduct(sizes[1..]);
      CrossDistinct(0, sizes[0], rest);
      forall c ensures c in Choices(sizes) <==> IsChoice(sizes, c) {
        CrossMembers(0, sizes[0], rest, c);
        if |c| > 0 {
          assert IsChoice(sizes[1..], c[1..]) <==>
                 |c| == |sizes| && forall k :: 1 <= k < |c| ==> c[k] < sizes[k] by {
            if IsChoice(sizes[1..], c[1..]) {
              forall k | 1 <= k < |c| ensures c[k] < sizes[k] { assert c[1..][k - 1] < sizes[1..][k - 1]; }
            }
          }
        }
      }
    }
  }

  // ---------- matrix overlays ----------

  datatype Variant = Variant(name: string, overlay: Fields)

  datatype CampaignError = OptionsNotAList(key: string) | DuplicateCase(id: string)

  function Sizes(options: seq<seq<Json>>): seq<nat> {
    seq(|options|, k requires 0 <= k < |options| => |options[k]|)
  }

  function Pick(options: seq<seq<Json>>, c: seq<nat>): seq<Json>
    requires IsChoice(Sizes(options), c)
  {
    seq(|options|, k requires 0 <= k < |options| => options[k][c[k]])
  }

  /** The overlay that sets every key to its chosen value, in key order. */
  function OverlayOf(keys: seq<string>, values: seq<Json>): Fields
    requires |keys| == |values|
  {
    if keys == [] then map[]
    else DottedSet(OverlayOf(keys[..|keys| - 1], values[..|keys| - 1]), keys[|keys| - 1], values[|keys| - 1])
  }

  ghost function OptionsOf(matrix: Fields): seq<seq<Json>>
    requires forall key :: key in matrix ==> matrix[key].List?
  {
    SortedKeysMembers(matrix.Keys);
    var keys := SortedKeys(matrix.Keys);
    seq(|keys|, k requires 0 <= k < |keys| => assert keys[k] in keys; matrix[keys[k]].items)
  }

  predicate Offers(matrix: Fields, key: string, options: seq<Json>) {
    key in matrix && matrix[key] == List(options)
  }

  method ReadOptions(matrix: Fields) returns (r: Result<seq<seq<Json>>, CampaignError>)
    ensures r.Ok? <==> forall key :: key in matrix ==> matrix[key].List?
    ensures r.Ok? ==> r.value == OptionsOf(matrix) && |r.value| == |SortedKeys(matrix.Keys)|
  {
    var keys := SortedKeys(matrix.Keys);
    SortedKeysMembers(matrix.Keys);
    var options: seq<seq<Json>> := [];
    for k := 0 to |keys|
      invariant |options| == k
      invariant forall l {:trigger options[l]} :: 0 <= l < k ==> Offers(matrix, keys[l], options[l])
    {
      assert keys[k] in keys;
      if !matrix[keys[k]].List? {
        return Err(OptionsNotAList(keys[k]));
      }
      options := options + [matrix[keys[k]].items];
      assert Offers(matrix, keys[k], options[k]);
    }
    AllOffered(matrix, keys, options);
    return Ok(options);
  }

  lemma AllOffered(matrix: Fields, keys: seq<string>, options: seq<seq<Json>>)
    requires keys == SortedKeys(matrix.Keys) && |options| == |keys|
    requires forall l {:trigger options[l]} :: 0 <= l < |keys| ==> Offers(matrix, keys[l], options[l])
    ensures forall key :: key in matrix ==> matrix[key].List?
    ensures options == OptionsOf(matrix)
  {
    SortedKeysMembers(matrix.Keys);
    forall key | key in matrix ensures matrix[key].List? {
      assert key in keys;
      var l :| 0 <= l < |keys| && keys[l] == key;
      assert Offers(matrix, keys[l], options[l]);
    }
    forall l | 0 <= l < |keys| ensures options[l] == OptionsOf(matrix)[l] {
      assert Offers(matrix, keys[l], options[l]);
    }
  }

  // ---------- labels ----------

  function CaseId(base: string, name: string): string {
    if name == "" then base else base + "__" + Slug(name)
  }

  /** The last component of a dotted key. */
  function Tail(key: string): string {
    var parts := Split(key, '.');
    parts[|parts| - 1]
  }

  function Heads(keys: seq<string>): seq<string> {
    seq(|keys|, k requires 0 <= k < |keys| => Slug(Tail(keys[k])))
  }

  /** The slugs of the chosen values; `text` writes a value. */
  function ValueSlugs(values: seq<Json>, text: Json -> string): seq<string> {
    seq(|values|, k requires 0 <= k < |values| => Slug(text(values[k])))
  }

  function Label(keys: seq<string>, values: seq<Json>, text: Json -> string): string
    requires |keys| == |values|
  {
    LabelText(Heads(keys), ValueSlugs(values, text))
  }

  lemma HeadsAreSlugs(keys: seq<string>, values: seq<Json>, text: Json -> string)
    ensures AreSlugs(Heads(keys)) && AreSlugs(ValueSlugs(values, text))
  {
    forall k | 0 <= k < |keys| ensures IsSlug(Heads(keys)[k]) {
      SlugIsSlug(Tail(keys[k]));
    }
    forall k | 0 <= k < |values| ensures IsSlug(ValueSlugs(values, text)[k]) {
      SlugIsSlug(text(values[k]));
    }
  }

  /** Making an identifier of a label leaves it as it is, so that case ids are equal exactly if labels are. */
  lemma CaseIdsEqualIff(base: string, keys: seq<string>, a: seq<Json>, b: seq<Json>, text: Json -> string)
    requires |keys| == |a| == |b|
    ensures CaseId(base, Label(keys, a, text)) == CaseId(base, Label(keys, b, text)) <==>
              Label(keys, a, text) == Label(keys, b, text)
  {
    HeadsAreSlugs(keys, a, text);
    HeadsAreSlugs(keys, b, text);
    if keys != [] {
      LabelIsSlug(Heads(keys), ValueSlugs(a, text));
      LabelIsSlug(Heads(keys), ValueSlugs(b, text));
      SlugIsStable(Label(keys, a, text));
      SlugIsStable(Label(keys, b, text));
      if CaseId(base, Label(keys, a, text)) == CaseId(base, Label(keys, b, text)) {
        SameStart(base + "__", Label(keys, a, text), Label(keys, b, text));
      }
    }
  }

  /** The slug of no value has two underscores in a row. */
  predicate Separable(values: seq<Json>, text: Json -> string) {
    forall k :: 0 <= k < |values| ==> NoDouble(Slug(text(values[k])))
  }

  /** Two combinations share a case id exactly if their values have the same slugs. */
  lemma CombinationsCollideIff(base: string, keys: seq<string>, a: seq<Json>, b: seq<Json>, text: Json -> string)
    requires |keys| == |a| == |b| && Separable(a, text) && Separable(b, text)
    ensures CaseId(base, Label(keys, a, text)) == CaseId(base, Label(keys, b, text)) <==>
            forall k :: 0 <= k < |a| ==> Slug(text(a[k])) == Slug(text(b[k]))
  {
    var s, t := ValueSlugs(a, text), ValueSlugs(b, text);
    CaseIdsEqualIff(base, keys, a, b, text);
    HeadsAreSlugs(keys, a, text);
    LabelsEqualIff(Heads(keys), s, t);
    if forall k :: 0 <= k < |a| ==> Slug(text(a[k])) == Slug(text(b[k])) {
      assert s == t;
    }
    if s == t {
      forall k | 0 <= k < |a| ensures Slug(text(a[k])) == Slug(text(b[k])) {
        assert s[k] == t[k];
      }
    }
  }

  function MatrixId(base: string, keys: seq<string>, options: seq<seq<Json>>, c: seq<nat>, text: Json -> string): string
    requires |keys| == |options| && IsChoice(Sizes(options), c)
  {
    CaseId(base, Label(keys, Pick(options, c), text))
  }

  /** No two options of a key have the same slug. */
  ghost predicate DistinctSlugs(options: seq<seq<Json>>, text: Json -> string) {
    forall k, i, j :: 0 <= k < |options| && 0 <= i < j < |options[k]| ==>
      Slug(text(options[k][i])) != Slug(text(options[k][j]))
  }

  ghost predicate DistinctMatrixIds(base: string, keys: seq<string>, options: seq<seq<Json>>, text: Json -> string)
    requires |keys| == |options|
  {
    forall c, d {:trigger MatrixId(base, keys, options, c, text), MatrixId(base, keys, options, d, text)} ::
      IsChoice(Sizes(options), c) && IsChoice(Sizes(options), d) && c != d ==>
        MatrixId(base, keys, options, c, text) != MatrixId(base, keys, options, d, text)
  }

  lemma ChoicesShareId(base: string, keys: seq<string>, options: seq<seq<Json>>, c: seq<nat>, d: seq<nat>,
                       text: Json -> string)
    requires |keys| == |options| && forall k :: 0 <= k < |options| ==> Separable(options[k], text)
    requires IsChoice(Sizes(options), c) && IsChoice(Sizes(options), d)
    ensures MatrixId(base, keys, options, c, text) == MatrixId(base, keys, options, d, text) <==>
            forall k :: 0 <= k < |options| ==> Slug(text(options[k][c[k]])) == Slug(text(options[k][d[k]]))
  {
    var a, b := Pick(options, c), Pick(options, d);
    CombinationsCollideIff(base, keys, a, b, text);
    forall k | 0 <= k < |options|
      ensures Slug(text(a[k])) == Slug(text(options[k][c[k]])) && Slug(text(b[k])) == Slug(text(options[k][d[k]]))
    {
    }
  }

  /** A choice that takes option `i` of key `k` and the first one of every other key. */
  function FirstBut(options: seq<seq<Json>>, k: nat, i: nat): seq<nat> {
    seq(|options|, l requires 0 <= l < |options| => if l == k then i else 0)
  }

  lemma SameSlugsCollide(base: string, keys: seq<string>, options: seq<seq<Json>>, text: Json -> string, k: nat, i: nat,
                         j: nat)
    requires |keys| == |options| && forall l :: 0 <= l < |options| ==> options[l] != [] && Separable(options[l], text)
    requires k < |options| && i < j < |options[k]| && Slug(text(options[k][i])) == Slug(text(options[k][j]))
    ensures !DistinctMatrixIds(base, keys, options, text)
  {
    var c, d := FirstBut(options, k, i), FirstBut(options, k, j);
    assert c[k] != d[k];
    ChoicesShareId(base, keys, options, c, d, text);
  }

  /**
   The combinations of a matrix have case ids of their own exactly if no key has two options with the same
   slug, unless some option has two underscores in a row in its slug.
   */
  lemma MatrixIdsDistinctIff(base: string, keys: seq<string>, options: seq<seq<Json>>, text: Json -> string)
    requires |keys| == |options| && forall k :: 0 <= k < |options| ==> options[k] != [] && Separable(options[k], text)
    ensures DistinctMatrixIds(base, keys, options, text) <==> DistinctSlugs(options, text)
  {
    if DistinctSlugs(options, text) {
      forall c, d | IsChoice(Sizes(options), c) && IsChoice(Sizes(options), d) && c != d
        ensures MatrixId(base, keys, options, c, text) != MatrixId(base, keys, options, d, text)
      {
        ChoicesShareId(base, keys, options, c, d, text);
        var k :| 0 <= k < |c| && c[k] != d[k];
        assert Slug(text(options[k][c[k]])) != Slug(text(options[k][d[k]]));
      }
    }
    if !DistinctSlugs(options, text) {
      var k, i, j :| 0 <= k < |options| && 0 <= i < j < |options[k]|
                     && Slug(text(options[k][i])) == Slug(text(options[k][j]));
      SameSlugsCollide(base, keys, options, text, k, i, j);
    }
  }

  lemma PairSlugs(x: string, y: string, text: Json -> string)
    requires IsSlug(x) && IsSlug(y) && text(Str(x)) == x && text(Str(y)) == y
    ensures ValueSlugs([Str(x), Str(y)], text) == [x, y]
  {
    SlugIsStable(x);
    SlugIsStable(y);
  }

  lemma PairHeads(x: string, y: string)
    requires IsSlug(x) && IsSlug(y) && '.' !in x && '.' !in y
    ensures Heads([x, y]) == [x, y]
  {
    SplitWhole(x, '.');
    SplitWhole(y, '.');
    SlugIsStable(x);
    SlugIsStable(y);
  }

  lemma SampleSlugs(text: Json -> string)
    requires forall s {:trigger Str(s)} :: text(Str(s)) == s
    ensures ValueSlugs([Str("1__b-2"), Str("3")], text) == ["1__b-2", "3"]
    ensures ValueSlugs([Str("1"), Str("2__b-3")], text) == ["1", "2__b-3"]
  {
    UnderscoresCollide();
    PairSlugs("1__b-2", "3", text);
    PairSlugs("1", "2__b-3", text);
  }

  /**
   Two combinations of one matrix that get the same case id although all their slugs differ; texts are written
   as they are.
   */
  lemma UnderscoresShareId(base: string, text: Json -> string)
    requires forall s {:trigger Str(s)} :: text(Str(s)) == s
    ensures ValueSlugs([Str("1__b-2"), Str("3")], text) == ["1__b-2", "3"]
    ensures ValueSlugs([Str("1"), Str("2__b-3")], text) == ["1", "2__b-3"]
    ensures CaseId(base, Label(["a", "b"], [Str("1__b-2"), Str("3")], text))
            == CaseId(base, Label(["a", "b"], [Str("1"), Str("2__b-3")], text))
  {
    UnderscoresCollide();
    SampleSlugs(text);
    PairHeads("a", "b");
  }

  // ---------- expansion ----------

  function LabelPart(key: string, value: Json, text: Json -> string): string {
    Slug(Tail(key)) + "-" + Slug(text(value))
  }

  function LabelParts(keys: seq<string>, values: seq<Json>, text: Json -> string): seq<string>
    requires |keys| == |values|
  {
    seq(|keys|, k requires 0 <= k < |keys| => LabelPart(keys[k], values[k], text))
  }

  lemma LabelOfParts(keys: seq<string>, values: seq<Json>, text: Json -> string)
    requires |keys| == |values|
    ensures Joined(LabelParts(keys, values, text)) == Label(keys, values, text)
  {
    JoinedIsLabel(LabelParts(keys, values, text), Heads(keys), ValueSlugs(values, text));
  }

  lemma LabelPartsStep(keys: seq<string>, values: seq<Json>, k: nat, text: Json -> string)
    requires |keys| == |values| && k < |keys|
    ensures LabelParts(keys[..k + 1], values[..k + 1], text)
            == LabelParts(keys[..k], values[..k], text) + [LabelPart(keys[k], values[k], text)]
  {
  }

  method CombinationVariant(keys: seq<string>, combination: seq<Json>, text: Json -> string) returns (variant: Variant)
    requires |keys| == |combination|
    ensures variant == Variant(Label(keys, combination, text), OverlayOf(keys, combination))
  {
    var overlay: Fields := map[];
    var labels: seq<string> := [];
    for k := 0 to |keys|
      invariant overlay == OverlayOf(keys[..k], combination[..k])
      invariant labels == LabelParts(keys[..k], combination[..k], text)
    {
      assert keys[..k + 1][..k] == keys[..k] && combination[..k + 1][..k] == combination[..k];
      LabelPartsStep(keys, combination, k, text);
      overlay := DottedSet(overlay, keys[k], combination[k]);
      labels := labels + [LabelPart(keys[k], combination[k], text)];
    }
    assert keys[..|keys|] == keys && combination[..|keys|] == combination;
    LabelOfParts(keys, combination, text);
    variant := Variant(Joined(labels), overlay);
  }

  /** One variant for each element of the product of the options, in the order of nested loops. */
  ghost predicate ExpandsTo(keys: seq<string>, options: seq<seq<Json>>, text: Json -> string, variants: seq<Variant>) {
    var choices := Choices(Sizes(options));
    && |options| == |keys|
    && |variants| == |choices|
    && forall i :: 0 <= i < |choices| ==>
                     && IsChoice(Sizes(options), choices[i])
                     && variants[i] == Variant(Label(keys, Pick(options, choices[i]), text),
                                               OverlayOf(keys, Pick(options, choices[i])))
  }

  method MatrixOverlays(matrix: Fields, text: Json -> string) returns (r: Result<seq<Variant>, CampaignError>)
    ensures r.Ok? <==> forall key :: key in matrix ==> matrix[key].List?
    ensures r.Ok? ==> ExpandsTo(SortedKeys(matrix.Keys), OptionsOf(matrix), text, r.value)
  {
    var read := ReadOptions(matrix);
    if read.Err? {
      return Err(read.error);
    }
    var keys, options := SortedKeys(matrix.Keys), read.value;
    var choices := Choices(Sizes(options));
    ChoicesAreTheProduct(Sizes(options));
    var variants: seq<Variant> := [];
    for i := 0 to |choices|
      invariant |variants| == i
      invariant forall l :: 0 <= l < i ==>
                              && IsChoice(Sizes(options), choices[l])
                              && variants[l] == Variant(Label(keys, Pick(options, choices[l]), text),
                                                        OverlayOf(keys, Pick(options, choices[l])))
    {
      assert choices[i] in choices;
      var variant := CombinationVariant(keys, Pick(options, choices[i]), text);
      variants := variants + [variant];
    }
    return Ok(variants);
  }

  /** With independent keys, every key of every expanded overlay reads back its chosen option. */
  lemma ExpansionReadsBack(matrix: Fields, text: Json -> string, variants: seq<Variant>, i: nat, j: nat)
    requires forall key :: key in matrix ==> matrix[key].List?
    requires ExpandsTo(SortedKeys(matrix.Keys), OptionsOf(matrix), text, variants)
    requires Independent(SortedKeys(matrix.Keys))
    requires i < |variants| && j < |SortedKeys(matrix.Keys)|
    ensures var choice := Choices(Sizes(OptionsOf(matrix)))[i];
            && IsChoice(Sizes(OptionsOf(matrix)), choice)
            && DottedGet(Map(variants[i].overlay), SortedKeys(matrix.Keys)[j]) == Some(OptionsOf(matrix)[j][choice[j]])
  {
    var keys, options := SortedKeys(matrix.Keys), OptionsOf(matrix);
    var choice := Choices(Sizes(options))[i];
    SortedKeysSorted(matrix.Keys);
    IndependentKeysReadBack(keys, Pick(options, choice), j);
  }

  /** Nonempty keys of which none is a dotted prefix of another. */
  predicate Independent(keys: seq<string>) {
    && (forall i :: 0 <= i < |keys| ==> keys[i] != "")
    && (forall i, j :: 0 <= i < |keys| && 0 <= j < |keys| ==> !IsAncestor(keys[i], keys[j], '.'))
  }

  lemma SplitInjective(a: string, b: string)
    requires Split(a, '.') == Split(b, '.')
    ensures a == b
  {
    SplitParts(a, '.');
    SplitParts(b, '.');
  }

  lemma IndependentUnrelated(a: string, b: string)
    requires a != b && !IsAncestor(a, b, '.') && !IsAncestor(b, a, '.')
    ensures Unrelated(Split(a, '.'), Split(b, '.'))
  {
    if Split(a, '.') == Split(b, '.') {
      SplitInjective(a, b);
    }
  }

  lemma {:induction false} IndependentKeysHold(keys: seq<string>, values: seq<Json>, j: nat)
    requires |keys| == |values| && j < |keys|
    requires NoRepeats(keys) && Independent(keys)
    ensures At(OverlayOf(keys, values), Split(keys[j], '.')) == Some(values[j])
    decreases |keys|
  {
    var n := |keys| - 1;
    var before := OverlayOf(keys[..n], values[..n]);
    if j == n {
      AtAfterSet(before, Split(keys[n], '.'), values[n]);
    } else {
      IndependentKeysHold(keys[..n], values[..n], j);
      IndependentUnrelated(keys[j], keys[n]);
      SetFrame(before, Split(keys[j], '.'), Split(keys[n], '.'), values[n]);
    }
  }

  /** Every key of a matrix with independent keys reads back the value chosen for it. */
  lemma IndependentKeysReadBack(keys: seq<string>, values: seq<Json>, j: nat)
    requires |keys| == |values| && j < |keys|
    requires NoRepeats(keys) && Independent(keys)
    ensures DottedGet(Map(OverlayOf(keys, values)), keys[j]) == Some(values[j])
  {
    IndependentKeysHold(keys, values, j);
    WalkFindsAt(OverlayOf(keys, values), Split(keys[j], '.'));
  }

  /** Once a longer key has been set, its ancestor holds a mapping for good. */
  lemma {:induction false} AncestorHoldsMapping(keys: seq<string>, values: seq<Json>, i: nat, j: nat)
    requires |keys| == |values| && i < j < |keys|
    requires NoRepeats(keys) && Sorted(Le, keys)
    requires IsAncestor(keys[i], keys[j], '.')
    ensures At(OverlayOf(keys, values), Split(keys[i], '.')).Some?
    ensures At(OverlayOf(keys, values), Split(keys[i], '.')).value.Map?
    decreases |keys|
  {
    var n := |keys| - 1;
    var before := OverlayOf(keys[..n], values[..n]);
    var p, q := Split(keys[i], '.'), Split(keys[n], '.');
    if j == n {
      SetBelow(before, p, q, values[n]);
    } else {
      AncestorHoldsMapping(keys[..n], values[..n], i, j);
      if p < q {
        SetBelow(before, p, q, values[n]);
      } else {
        assert !(q < p) by {
          AncestorIsTextPrefix(keys[n], keys[i], '.');
          assert Le(keys[i], keys[n]);
          if q < p { AncestorSortsFirst(keys[n], keys[i], '.'); }
        }
        IndependentUnrelated(keys[i], keys[n]);
        SetFrame(before, p, q, values[n]);
      }
    }
  }

  /** For choices that are not mappings, independence of the keys is exactly what reading back needs. */
  lemma ReadBackIffIndependent(keys: seq<string>, values: seq<Json>)
    requires |keys| == |values| && NoRepeats(keys) && Sorted(Le, keys)
    requires forall j :: 0 <= j < |values| ==> !values[j].Map?
    ensures Independent(keys) <==>
            forall j :: 0 <= j < |keys| ==> DottedGet(Map(OverlayOf(keys, values)), keys[j]) == Some(values[j])
  {
    var overlay := OverlayOf(keys, values);
    if Independent(keys) {
      forall j | 0 <= j < |keys| ensures DottedGet(Map(overlay), keys[j]) == Some(values[j]) {
        IndependentKeysReadBack(keys, values, j);
      }
    } else if i :| 0 <= i < |keys| && keys[i] == "" {
      assert DottedGet(Map(overlay), keys[i]) == Some(Map(overlay));
    } else {
      var i, j :| 0 <= i < |keys| && 0 <= j < |keys| && IsAncestor(keys[i], keys[j], '.');
      AncestorIsTextPrefix(keys[i], keys[j], '.');
      AncestorSortsFirst(keys[i], keys[j], '.');
      AncestorHoldsMapping(keys, values, i, j);
      WalkFindsAt(overlay, Split(keys[i], '.'));
      assert DottedGet(Map(overlay), keys[i]) != Some(values[i]);
    }
  }

  // ---------- compiled cases ----------

  datatype Entry = Entry(id: string, overlay: Fields, variants: seq<Variant>)

  datatype CampaignCase = CampaignCase(id: string, overlay: Fields)

  function CompiledCase(defaults: Fields, entry: Entry, variant: Variant): CampaignCase {
    CampaignCase(CaseId(entry.id, variant.name), Combined(defaults, entry.overlay, variant.overlay))
  }

  function EntryCases(defaults: Fields, entry: Entry): seq<CampaignCase> {
    seq(|entry.variants|, k requires 0 <= k < |entry.variants| => CompiledCase(defaults, entry, entry.variants[k]))
  }

  function AllCases(defaults: Fields, entries: seq<Entry>): seq<CampaignCase> {
    if entries == [] then []
    else AllCases(defaults, entries[..|entries| - 1]) + EntryCases(defaults, entries[|entries| - 1])
  }

  /** How many cases the first `e` entries have. */
  ghost function CasesBefore(entries: seq<Entry>, e: nat): nat
    requires e <= |entries|
  {
    if e == 0 then 0 else CasesBefore(entries, e - 1) + |entries[e - 1].variants|
  }

  ghost predicate IsVariant(entries: seq<Entry>, e: nat, k: nat) {
    e < |entries| && k < |entries[e].variants|
  }

  /** A case is named after its entry, and after the variant if that has a name. */
  ghost predicate NamedAfter(id: string, entry: Entry, variant: Variant) {
    if variant.name == "" then id == entry.id else id == entry.id + "__" + Slug(variant.name)
  }

  /** The variant has the first word about a path, then the entry, then the defaults. */
  ghost predicate LayeredLeaf(defaults: Fields, entry: Fields, variant: Fields, path: seq<string>, leaf: Json)
    requires path != []
  {
    || LeafAt(variant, path, leaf)
    || (LeavesAlone(variant, path)
        && (LeafAt(entry, path, leaf) || (LeavesAlone(entry, path) && LeafAt(defaults, path, leaf))))
  }

  ghost predicate HoldsLayers(overlay: Fields, defaults: Fields, entry: Fields, variant: Fields) {
    forall path: seq<string>, leaf: Json {:trigger LeafAt(overlay, path, leaf)} :: path != [] ==>
      (LeafAt(overlay, path, leaf) <==> LayeredLeaf(defaults, entry, variant, path, leaf))
  }

  /** Laid over any case, the overlay does what its three layers do one after the other. */
  ghost predicate StandsForLayers(overlay: Fields, defaults: Fields, entry: Fields, variant: Fields) {
    forall base: Fields {:trigger DeepMerge(base, overlay)} ::
      DeepMerge(base, overlay) == DeepMerge(DeepMerge(DeepMerge(base, defaults), entry), variant)
  }

  ghost predicate IsCaseOf(c: CampaignCase, defaults: Fields, entry: Entry, variant: Variant) {
    && NamedAfter(c.id, entry, variant)
    && HoldsLayers(c.overlay, defaults, entry.overlay, variant.overlay)
    && (StandsForLayers(c.overlay, defaults, entry.overlay, variant.overlay)
        <==> Stackable(defaults, entry.overlay, variant.overlay))
  }

  ghost predicate CaseStandsAt(cases: seq<CampaignCase>, defaults: Fields, entries: seq<Entry>, e: nat, k: nat)
    requires IsVariant(entries, e, k)
  {
    var i := CasesBefore(entries, e) + k;
    i < |cases| && IsCaseOf(cases[i], defaults, entries[e], entries[e].variants[k])
  }

  /** One case for each variant of each entry, in authored order. */
  ghost predicate CompiledFrom(cases: seq<CampaignCase>, defaults: Fields, entries: seq<Entry>) {
    && |cases| == CasesBefore(entries, |entries|)
    && forall e: nat, k: nat {:trigger IsVariant(entries, e, k)} :: IsVariant(entries, e, k) ==>
      CaseStandsAt(cases, defaults, entries, e, k)
  }

  lemma {:induction false} PrefixPositions(entries: seq<Entry>, n: nat, e: nat)
    requires e <= n <= |entries|
    ensures CasesBefore(entries[..n], e) == CasesBefore(entries, e)
  {
    if e > 0 {
      PrefixPositions(entries, n, e - 1);
    }
  }

  lemma {:induction false} NumberOfCases(defaults: Fields, entries: seq<Entry>)
    ensures |AllCases(defaults, entries)| == CasesBefore(entries, |entries|)
  {
    if entries != [] {
      NumberOfCases(defaults, entries[..|entries| - 1]);
      PrefixPositions(entries, |entries| - 1, |entries| - 1);
    }
  }

  lemma AppendedAt<T>(a: seq<T>, b: seq<T>, i: nat)
    requires i < |a| + |b|
    ensures (a + b)[i] == if i < |a| then a[i] else b[i - |a|]
  {
  }

  lemma {:induction false} CaseAt(defaults: Fields, entries: seq<Entry>, e: nat, k: nat)
    requires IsVariant(entries, e, k)
    ensures var i := CasesBefore(entries, e) + k;
            && i < |AllCases(defaults, entries)|
            && AllCases(defaults, entries)[i] == CompiledCase(defaults, entries[e], entries[e].variants[k])
    decreases |entries|
  {
    var n := |entries| - 1;
    var front := entries[..n];
    PrefixPositions(entries, n, e);
    if e < n {
      assert front[e] == entries[e];
      CaseAt(defaults, front, e, k);
    } else {
      NumberOfCases(defaults, front);
    }
    AppendedAt(AllCases(defaults, front), EntryCases(defaults, entries[n]), CasesBefore(entries, e) + k);
  }

  lemma LayersHeld(defaults: Fields, entry: Fields, variant: Fields)
    ensures HoldsLayers(Combined(defaults, entry, variant), defaults, entry, variant)
  {
    forall path: seq<string>, leaf: Json | path != []
      ensures LeafAt(Combined(defaults, entry, variant), path, leaf)
              <==> LayeredLeaf(defaults, entry, variant, path, leaf)
    {
      MergeHolds(DeepMerge(defaults, entry), variant, path, leaf);
      MergeHolds(defaults, entry, path, leaf);
    }
  }

  lemma StandsIff(overlay: Fields, defaults: Fields, entry: Fields, variant: Fields)
    requires overlay == Combined(defaults, entry, variant)
    ensures StandsForLayers(overlay, defaults, entry, variant) <==> Stackable(defaults, entry, variant)
  {
    CombinedOverlayIsLayeredIff(defaults, entry, variant);
    if Stackable(defaults, entry, variant) {
      forall base: Fields
        ensures DeepMerge(base, overlay) == DeepMerge(DeepMerge(DeepMerge(base, defaults), entry), variant)
      {
        assert DeepMerge(base, overlay) == OneByOne(base, defaults, entry, variant);
      }
    } else {
      var base: Fields :| DeepMerge(base, overlay) != OneByOne(base, defaults, entry, variant);
      assert DeepMerge(base, overlay) != DeepMerge(DeepMerge(DeepMerge(base, defaults), entry), variant);
    }
  }

  lemma CompiledCaseMeaning(defaults: Fields, entry: Entry, variant: Variant)
    ensures IsCaseOf(CompiledCase(defaults, entry, variant), defaults, entry, variant)
  {
    LayersHeld(defaults, entry.overlay, variant.overlay);
    StandsIff(Combined(defaults, entry.overlay, variant.overlay), defaults, entry.overlay, variant.overlay);
  }

  /** What the cases of a campaign are, in terms of the layers that its author wrote. */
  lemma AllCasesMeaning(defaults: Fields, entries: seq<Entry>)
    ensures CompiledFrom(AllCases(defaults, entries), defaults, entries)
  {
    NumberOfCases(defaults, entries);
    forall e: nat, k: nat | IsVariant(entries, e, k)
      ensures CaseStandsAt(AllCases(defaults, entries), defaults, entries, e, k)
    {
      CaseAt(defaults, entries, e, k);
      CompiledCaseMeaning(defaults, entries[e], entries[e].variants[k]);
    }
  }

  ghost predicate DistinctIds(cases: seq<CampaignCase>) {
    forall i, j :: 0 <= i < j < |cases| ==> cases[i].id != cases[j].id
  }

  ghost function IdsOf(cases: seq<CampaignCase>): set<string> {
    set i | 0 <= i < |cases| :: cases[i].id
  }

  /** The first case whose id an earlier one has already has this id. */
  ghost predicate SharesFirst(cases: seq<CampaignCase>, id: string) {
    exists j :: 0 <= j < |cases| && cases[j].id == id && DistinctIds(cases[..j]) && id in IdsOf(cases[..j])
  }

  lemma SharedIsFirst(cases: seq<CampaignCase>, longer: seq<CampaignCase>, id: string)
    requires SharesFirst(cases, id) && cases <= longer
    ensures SharesFirst(longer, id)
  {
    var j :| 0 <= j < |cases| && cases[j].id == id && DistinctIds(cases[..j]) && id in IdsOf(cases[..j]);
    assert longer[j].id == id && longer[..j] == cases[..j];
  }

  lemma DuplicateFound(before: seq<CampaignCase>, own: seq<CampaignCase>, k: nat, id: string)
    requires k < |own| && own[k].id == id && DistinctIds(before + own[..k]) && id in IdsOf(before + own[..k])
    ensures SharesFirst(before + own, id) && !DistinctIds(before + own)
  {
    var all, j := before + own, |before| + k;
    assert all[..j] == before + own[..k] && all[j] == own[k];
    var i :| 0 <= i < j && (before + own[..k])[i].id == id;
    assert all[i].id == all[j].id;
  }

  method AddEntry(before: seq<CampaignCase>, seenBefore: set<string>, defaults: Fields, entry: Entry)
    returns (duplicate: Option<string>, compiled: seq<CampaignCase>, seen: set<string>)
    requires DistinctIds(before) && seenBefore == IdsOf(before)
    ensures duplicate.None? <==> DistinctIds(before + EntryCases(defaults, entry))
    ensures duplicate.None? ==> compiled == before + EntryCases(defaults, entry) && seen == IdsOf(compiled)
    ensures duplicate.Some? ==> SharesFirst(before + EntryCases(defaults, entry), duplicate.value)
  {
    ghost var own := EntryCases(defaults, entry);
    compiled, seen := before, seenBefore;
    for k := 0 to |entry.variants|
      invariant compiled == before + own[..k]
      invariant DistinctIds(compiled)
      invariant seen == IdsOf(compiled)
    {
      var item := CompiledCase(defaults, entry, entry.variants[k]);
      if item.id in seen {
        DuplicateFound(before, own, k, item.id);
        return Some(item.id), compiled, seen;
      }
      IdsAppend(compiled, item);
      seen := seen + {item.id};
      compiled := compiled + [item];
    }
    assert own[..|own|] == own;
    return None, compiled, seen;
  }

  lemma IdsAppend(cases: seq<CampaignCase>, item: CampaignCase)
    ensures IdsOf(cases + [item]) == IdsOf(cases) + {item.id}
  {
    var longer := cases + [item];
    assert longer[|cases|].id == item.id;
    forall id | id in IdsOf(cases) ensures id in IdsOf(longer) {
      var i :| 0 <= i < |cases| && cases[i].id == id;
      assert longer[i].id == id;
    }
  }

  /** The expansion fails exactly when two cases would share an id. */
  method CompileCampaign(defaults: Fields, entries: seq<Entry>) returns (r: Result<seq<CampaignCase>, CampaignError>)
    ensures r.Ok? <==> DistinctIds(AllCases(defaults, entries))
    ensures r.Ok? ==> r.value == AllCases(defaults, entries) && CompiledFrom(r.value, defaults, entries)
    ensures r.Err? ==> r.error.DuplicateCase? && SharesFirst(AllCases(defaults, entries), r.error.id)
  {
    AllCasesMeaning(defaults, entries);
    var compiled: seq<CampaignCase> := [];
    var seen: set<string> := {};
    for e := 0 to |entries|
      invariant compiled == AllCases(defaults, entries[..e])
      invariant DistinctIds(compiled) && seen == IdsOf(compiled)
    {
      assert entries[..e + 1][..e] == entries[..e];
      var duplicate: Option<string>;
      duplicate, compiled, seen := AddEntry(compiled, seen, defaults, entries[e]);
      if duplicate.Some? {
        CasesPrefix(defaults, entries, e + 1);
        SharedIsFirst(AllCases(defaults, entries[..e + 1]), AllCases(defaults, entries), duplicate.value);
        return Err(DuplicateCase(duplicate.value));
      }
    }
    assert entries[..|entries|] == entries;
    return Ok(compiled);
  }

  lemma {:induction false} CasesPrefix(defaults: Fields, entries: seq<Entry>, n: nat)
    requires n <= |entries|
    ensures AllCases(defaults, entries[..n]) <= AllCases(defaults, entries)
    decreases |entries|
  {
    if n < |entries| {
      CasesPrefix(defaults, entries[..|entries| - 1], n);
      assert entries[..|entries| - 1][..n] == entries[..n];
    } else {
      assert entries[..n] == entries;
    }
  }

  // ---------- worker results ----------

  datatype CaseResult = CaseResult(orchestrationStatus: string, detail: string)

  datatype CampaignSummary = CampaignSummary(status: string, cases: seq<(string, CaseResult)>)

  predicate AllSucceeded(outcomes: seq<CaseResult>) {
    forall i :: 0 <= i < |outcomes| ==> outcomes[i].orchestrationStatus == "succeeded"
  }

  /** What the campaign reports: every case in campaign order, whatever order the workers finish in. */
  function SummaryOf(cases: seq<CampaignCase>, outcomes: seq<CaseResult>): CampaignSummary
    requires |outcomes| == |cases|
  {
    CampaignSummary(
      if AllSucceeded(outcomes) then "succeeded" else "failed",
      seq(|cases|, i requires 0 <= i < |cases| => (cases[i].id, outcomes[i])))
  }

  /** A campaign succeeded exactly if all its cases did, and lists each with its own outcome, in its own place. */
  lemma SummaryMeaning(cases: seq<CampaignCase>, outcomes: seq<CaseResult>)
    requires |outcomes| == |cases|
    ensures var summary := SummaryOf(cases, outcomes);
            && summary.status in {"succeeded", "failed"}
            && (summary.status == "failed" <==>
                  exists i :: 0 <= i < |cases| && outcomes[i].orchestrationStatus != "succeeded")
            && |summary.cases| == |cases|
            && forall i :: 0 <= i < |cases| ==> summary.cases[i].0 == cases[i].id && summary.cases[i].1 == outcomes[i]
  {
  }

  /** `completion` lists the positions of the cases in the order in which their workers finish. */
  method ApplyCampaign(cases: seq<CampaignCase>, outcomes: seq<CaseResult>, completion: seq<nat>)
    returns (summary: CampaignSummary)
    requires DistinctIds(cases) && |outcomes| == |cases|
    requires NoRepeats(completion) && |completion| == |cases|
    requires forall k :: 0 <= k < |completion| ==> completion[k] < |cases|
    ensures summary == SummaryOf(cases, outcomes)
  {
    var results: map<string, CaseResult> := map[];
    for k := 0 to |completion|
      invariant forall l :: 0 <= l < k ==> cases[completion[l]].id in results
      invariant forall i :: 0 <= i < |cases| && cases[i].id in results ==> results[cases[i].id] == outcomes[i]
    {
      results := results[cases[completion[k]].id := outcomes[completion[k]]];
    }
    ManyCoverAll(completion, |cases|);
    forall i | 0 <= i < |cases| ensures cases[i].id in results {
      assert i in completion;
      var k :| 0 <= k < |completion| && completion[k] == i;
    }
    var ordered: seq<(string, CaseResult)> := [];
    for i := 0 to |cases|
      invariant |ordered| == i
      invariant forall l :: 0 <= l < i ==> ordered[l] == (cases[l].id, outcomes[l])
    {
      ordered := ordered + [(cases[i].id, results[cases[i].id])];
    }
    var allSucceeded := forall i :: 0 <= i < |ordered| ==> ordered[i].1.orchestrationStatus == "succeeded";
    var status := if allSucceeded then "succeeded" else "failed";
    assert status == "succeeded" <==> AllSucceeded(outcomes) by {
      forall i | 0 <= i < |cases| ensures ordered[i].1 == outcomes[i] {}
    }
    summary := CampaignSummary(status, ordered);
  }
}
