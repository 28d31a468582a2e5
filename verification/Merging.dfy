/** Layering of mappings: case defaults, campaign entries and variants. */
module Merging {
  import opened Wrappers
  import opened Json

  function DeepMerge(base: Fields, overlay: Fields): (result: Fields)
    ensures result.Keys == base.Keys + overlay.Keys
    decreases Map(overlay)
  {
    map key | key in base.Keys + overlay.Keys :: MergedValue(base, overlay, key)
  }

  function MergedValue(base: Fields, overlay: Fields, key: string): Json
    requires key in base || key in overlay
    decreases Map(overlay), 0
  {
    if key !in overlay then base[key]
    else if overlay[key].Map? && key in base && base[key].Map?
      then Map(DeepMerge(base[key].fields, overlay[key].fields))
    else overlay[key]
  }

  // ---------- idempotence ----------

  lemma {:induction false} SelfMerge(m: Fields)
    ensures DeepMerge(m, m) == m
    decreases Map(m)
  {
    forall key | key in m ensures MergedValue(m, m, key) == m[key] {
      if m[key].Map? {
        SelfMerge(m[key].fields);
      }
    }
  }

  /** Applying the same overlay again changes nothing. */
  lemma {:induction false} MergeIsIdempotent(base: Fields, overlay: Fields)
    ensures DeepMerge(DeepMerge(base, overlay), overlay) == DeepMerge(base, overlay)
    decreases Map(overlay)
  {
    var once := DeepMerge(base, overlay);
    forall key | key in once ensures MergedValue(once, overlay, key) == once[key] {
      assert once[key] == MergedValue(base, overlay, key);
      if key in overlay && overlay[key].Map? {
        if key in base && base[key].Map? {
          MergeIsIdempotent(base[key].fields, overlay[key].fields);
        } else {
          SelfMerge(overlay[key].fields);
        }
      }
    }
  }

  // ---------- who wins ----------

  /** Whatever the overlay holds at a path, except a mapping, is in the result. */
  lemma {:induction false} OverlayLeafWins(base: Fields, overlay: Fields, path: seq<string>)
    requires path != [] && At(overlay, path).Some? && !At(overlay, path).value.Map?
    ensures At(DeepMerge(base, overlay), path) == At(overlay, path)
    decreases |path|
  {
    var key := path[0];
    assert DeepMerge(base, overlay)[key] == MergedValue(base, overlay, key);
    if |path| > 1 && key in base && base[key].Map? {
      OverlayLeafWins(base[key].fields, overlay[key].fields, path[1..]);
    }
  }

  /** Base and overlay are both mappings along `prefix`. */
  predicate BothMappings(base: Fields, overlay: Fields, prefix: seq<string>)
    decreases |prefix|
  {
    prefix == [] ||
    (&& prefix[0] in base && base[prefix[0]].Map?
     && prefix[0] in overlay && overlay[prefix[0]].Map?
     && BothMappings(base[prefix[0]].fields, overlay[prefix[0]].fields, prefix[1..]))
  }

  /** Where the overlay says nothing below a shared mapping, the base stays as it was. */
  lemma {:induction false} BaseSurvivesOutsideOverlay(base: Fields, overlay: Fields, prefix: seq<string>,
                                                      rest: seq<string>)
    requires rest != [] && BothMappings(base, overlay, prefix)
    requires At(overlay, prefix + [rest[0]]).None?
    ensures At(DeepMerge(base, overlay), prefix + rest) == At(base, prefix + rest)
    decreases |prefix|
  {
    var path := prefix + rest;
    var key := path[0];
    if prefix == [] {
      assert prefix + [rest[0]] == [rest[0]];
      assert key !in overlay;
      if key in base { assert DeepMerge(base, overlay)[key] == base[key]; }
    } else {
      assert DeepMerge(base, overlay)[key] == MergedValue(base, overlay, key);
      assert path[1..] == prefix[1..] + rest;
      assert (prefix + [rest[0]])[1..] == prefix[1..] + [rest[0]];
      BaseSurvivesOutsideOverlay(base[key].fields, overlay[key].fields, prefix[1..], rest);
    }
  }

  // ---------- what a merge holds ----------

  /** The layer has this value, which is no mapping, at the path. */
  predicate LeafAt(layer: Fields, path: seq<string>, leaf: Json) {
    path != [] && At(layer, path) == Some(leaf) && !leaf.Map?
  }

  predicate MappingAt(layer: Fields, path: seq<string>) {
    path != [] && At(layer, path).Some? && At(layer, path).value.Map?
  }

  /** The layer says nothing about the path: its mappings along the path end before a key that it does not have. */
  predicate LeavesAlone(layer: Fields, path: seq<string>)
    requires path != []
    decreases |path|
  {
    path[0] !in layer || (|path| > 1 && layer[path[0]].Map? && LeavesAlone(layer[path[0]].fields, path[1..]))
  }

  /** A merge holds what the overlay holds, and what the base holds where the overlay leaves it alone. */
  lemma {:induction false} MergeHolds(base: Fields, overlay: Fields, path: seq<string>, leaf: Json)
    requires path != []
    ensures LeafAt(DeepMerge(base, overlay), path, leaf) <==>
              LeafAt(overlay, path, leaf) || (LeavesAlone(overlay, path) && LeafAt(base, path, leaf))
    ensures MappingAt(DeepMerge(base, overlay), path) <==>
              MappingAt(overlay, path) || (LeavesAlone(overlay, path) && MappingAt(base, path))
    decreases |path|
  {
    var key := path[0];
    if key in DeepMerge(base, overlay) {
      assert DeepMerge(base, overlay)[key] == MergedValue(base, overlay, key);
    }
    if |path| > 1 && key in base && base[key].Map? && key in overlay && overlay[key].Map? {
      MergeHolds(base[key].fields, overlay[key].fields, path[1..], leaf);
    }
  }

  // ---------- two layers ----------

  /** `middle` has no non-mapping where `last` has a mapping. */
  predicate Layerable(middle: Fields, last: Fields)
    decreases Map(last), 1
  {
    forall key :: key in middle && key in last ==> LayerableAt(middle, last, key)
  }

  predicate LayerableAt(middle: Fields, last: Fields, key: string)
    decreases Map(last), 0
  {
    key in middle && key in last && last[key].Map? ==>
      middle[key].Map? && Layerable(middle[key].fields, last[key].fields)
  }

  lemma {:induction false} LayersAssociate(a: Fields, b: Fields, c: Fields)
    requires Layerable(b, c)
    ensures DeepMerge(DeepMerge(a, b), c) == DeepMerge(a, DeepMerge(b, c))
    decreases Map(c)
  {
    var ab, bc := DeepMerge(a, b), DeepMerge(b, c);
    forall key | key in a.Keys + b.Keys + c.Keys
      ensures MergedValue(ab, c, key) == MergedValue(a, bc, key)
    {
      AssociateAt(a, b, c, key);
    }
    assert DeepMerge(ab, c).Keys == DeepMerge(a, bc).Keys;
  }

  lemma {:induction false} AssociateAt(a: Fields, b: Fields, c: Fields, key: string)
    requires LayerableAt(b, c, key)
    requires key in a || key in b || key in c
    ensures MergedValue(DeepMerge(a, b), c, key) == MergedValue(a, DeepMerge(b, c), key)
    decreases Map(c), 0
  {
    if key in b || key in c { assert DeepMerge(b, c)[key] == MergedValue(b, c, key); }
    if key in a || key in b { assert DeepMerge(a, b)[key] == MergedValue(a, b, key); }
    if key in c && c[key].Map? && key in b && key in a && a[key].Map? {
      LayersAssociate(a[key].fields, b[key].fields, c[key].fields);
    }
  }

  lemma FreshKey(m: Fields) returns (key: string)
    ensures key !in m
  {
    key := LongerThanAll(m.Keys);
  }

  lemma {:induction false} LongerThanAll(keys: set<string>) returns (longer: string)
    ensures forall key :: key in keys ==> |key| < |longer|
    decreases |keys|
  {
    if keys == {} {
      longer := "";
    } else {
      var one :| one in keys;
      var rest := LongerThanAll(keys - {one});
      longer := rest + one + "x";
      forall key | key in keys ensures |key| < |longer| {
        if key != one { assert key in keys - {one}; }
      }
    }
  }

  /** Two upper layers can be combined first, under every base, exactly when they are layerable. */
  lemma LayerableIffAssociative(b: Fields, c: Fields)
    ensures Layerable(b, c) <==> forall a: Fields :: DeepMerge(DeepMerge(a, b), c) == DeepMerge(a, DeepMerge(b, c))
  {
    if Layerable(b, c) {
      forall a: Fields ensures DeepMerge(DeepMerge(a, b), c) == DeepMerge(a, DeepMerge(b, c)) {
        LayersAssociate(a, b, c);
      }
    } else {
      var a := ConflictingBase(b, c);
    }
  }

  lemma {:induction false} ConflictingBase(b: Fields, c: Fields) returns (a: Fields)
    requires !Layerable(b, c)
    ensures DeepMerge(DeepMerge(a, b), c) != DeepMerge(a, DeepMerge(b, c))
    decreases Map(c), 1
  {
    var key :| key in b && key in c && !LayerableAt(b, c, key);
    a := ConflictingAt(b, c, key);
    assert DeepMerge(DeepMerge(a, b), c)[key] == MergedValue(DeepMerge(a, b), c, key);
    assert DeepMerge(a, DeepMerge(b, c))[key] == MergedValue(a, DeepMerge(b, c), key);
  }

  lemma {:induction false} ConflictingAt(b: Fields, c: Fields, key: string) returns (a: Fields)
    requires !LayerableAt(b, c, key)
    ensures MergedValue(DeepMerge(a, b), c, key) != MergedValue(a, DeepMerge(b, c), key)
    decreases Map(c), 0
  {
    if b[key].Map? {
      var inner := ConflictingBase(b[key].fields, c[key].fields);
      a := map[key := Map(inner)];
      assert DeepMerge(a, b)[key] == MergedValue(a, b, key) == Map(DeepMerge(inner, b[key].fields));
      assert DeepMerge(b, c)[key] == MergedValue(b, c, key) == Map(DeepMerge(b[key].fields, c[key].fields));
    } else {
      a := FreshChild(key, c[key].fields);
      assert DeepMerge(a, b)[key] == MergedValue(a, b, key) == b[key];
      assert DeepMerge(b, c)[key] == MergedValue(b, c, key) == c[key];
      FreshChildShows(a, key, c[key].fields);
    }
  }

  /** A base whose mapping at `key` holds something that `taken` does not. */
  lemma FreshChild(key: string, taken: Fields) returns (a: Fields)
    ensures key in a && a[key].Map? && exists k :: k in a[key].fields && k !in taken
  {
    var unused := FreshKey(taken);
    a := map[key := Map(map[unused := Null])];
    assert unused in a[key].fields;
  }

  lemma FreshChildShows(a: Fields, key: string, taken: Fields)
    requires key in a && a[key].Map? && exists k :: k in a[key].fields && k !in taken
    ensures Map(DeepMerge(a[key].fields, taken)) != Map(taken)
  {
    var k :| k in a[key].fields && k !in taken;
    assert k in DeepMerge(a[key].fields, taken);
  }

  // ---------- three layers ----------

  /** What three layers must be for their combination to stand for them, at one key. */
  predicate StackableAt(low: Fields, middle: Fields, top: Fields, key: string)
    decreases Map(top), 0
  {
    if key !in top then LayerableAt(low, middle, key)
    else if !top[key].Map? then true
    else if key !in middle then LayerableAt(low, top, key)
    else if !middle[key].Map? then false
    else if key !in low then Layerable(middle[key].fields, top[key].fields)
    else low[key].Map? && Stackable(low[key].fields, middle[key].fields, top[key].fields)
  }

  /** Below a mapping there are mappings or nothing, unless a higher layer has the last word anyway. */
  predicate Stackable(low: Fields, middle: Fields, top: Fields)
    decreases Map(top), 1
  {
    forall key :: key in low.Keys + middle.Keys + top.Keys ==> StackableAt(low, middle, top, key)
  }

  function Combined(low: Fields, middle: Fields, top: Fields): Fields {
    DeepMerge(DeepMerge(low, middle), top)
  }

  function OneByOne(base: Fields, low: Fields, middle: Fields, top: Fields): Fields {
    DeepMerge(DeepMerge(DeepMerge(base, low), middle), top)
  }

  lemma MergedKey(a: Fields, b: Fields, key: string)
    ensures key in DeepMerge(a, b) <==> key in a || key in b
    ensures key in DeepMerge(a, b) ==> DeepMerge(a, b)[key] == MergedValue(a, b, key)
  {
  }

  lemma StackKeys(base: Fields, low: Fields, middle: Fields, top: Fields, key: string)
    ensures key in DeepMerge(base, Combined(low, middle, top)) <==>
              key in base || key in low || key in middle || key in top
    ensures key in OneByOne(base, low, middle, top) <==> key in base || key in low || key in middle || key in top
    ensures key in base || key in low || key in middle || key in top ==>
              && DeepMerge(base, Combined(low, middle, top))[key] == MergedValue(base, Combined(low, middle, top), key)
              && OneByOne(base, low, middle, top)[key] == MergedValue(DeepMerge(DeepMerge(base, low), middle), top, key)
  {
  }

  /** The value that the combined layers have at a key, from the values below it. */
  lemma CombinedValue(low: Fields, middle: Fields, top: Fields, key: string)
    requires key in low || key in middle || key in top
    ensures key in Combined(low, middle, top)
    ensures key !in top ==> Combined(low, middle, top)[key] == MergedValue(low, middle, key)
    ensures key in top && key !in low && key !in middle ==> Combined(low, middle, top)[key] == top[key]
    ensures key in top && !top[key].Map? ==> Combined(low, middle, top)[key] == top[key]
    ensures key in top && key !in middle && key in low ==> Combined(low, middle, top)[key] == MergedValue(low, top, key)
    ensures key in top && top[key].Map? && key in middle && !middle[key].Map? ==>
              Combined(low, middle, top)[key] == top[key]
    ensures key in top && top[key].Map? && key in middle && middle[key].Map? && (key !in low || !low[key].Map?) ==>
              Combined(low, middle, top)[key] == Map(DeepMerge(middle[key].fields, top[key].fields))
    ensures key in top && top[key].Map? && key in middle && middle[key].Map? && key in low && low[key].Map? ==>
              Combined(low, middle, top)[key] == Map(Combined(low[key].fields, middle[key].fields, top[key].fields))
  {
    MergedKey(low, middle, key);
    MergedKey(DeepMerge(low, middle), top, key);
  }

  lemma {:induction false} StackedAt(base: Fields, low: Fields, middle: Fields, top: Fields, key: string)
    requires StackableAt(low, middle, top, key)
    requires key in base || key in low || key in middle || key in top
    ensures MergedValue(base, Combined(low, middle, top), key)
            == MergedValue(DeepMerge(DeepMerge(base, low), middle), top, key)
    decreases Map(top), 0
  {
    MergedKey(base, low, key);
    MergedKey(DeepMerge(base, low), middle, key);
    if key in low || key in middle || key in top {
      CombinedValue(low, middle, top, key);
      if key !in top {
        MergedKey(low, middle, key);
        AssociateAt(base, low, middle, key);
      } else if top[key].Map? && key !in middle {
        MergedKey(low, top, key);
        AssociateAt(base, low, top, key);
      } else if top[key].Map? && key in base && base[key].Map? {
        if key !in low {
          LayersAssociate(base[key].fields, middle[key].fields, top[key].fields);
        } else {
          CombinedIsStacked(base[key].fields, low[key].fields, middle[key].fields, top[key].fields);
        }
      }
    } else {
      assert key !in Combined(low, middle, top);
    }
  }

  lemma {:induction false} CombinedIsStacked(base: Fields, low: Fields, middle: Fields, top: Fields)
    requires Stackable(low, middle, top)
    ensures DeepMerge(base, Combined(low, middle, top)) == OneByOne(base, low, middle, top)
    decreases Map(top), 1
  {
    var left, right := DeepMerge(base, Combined(low, middle, top)), OneByOne(base, low, middle, top);
    assert left.Keys == right.Keys;
    forall key | key in left ensures left[key] == right[key] {
      StackKeys(base, low, middle, top, key);
      StackableKey(low, middle, top, key);
      StackedAt(base, low, middle, top, key);
    }
  }

  lemma StackableKey(low: Fields, middle: Fields, top: Fields, key: string)
    requires Stackable(low, middle, top)
    ensures StackableAt(low, middle, top, key)
  {
    if key !in low && key !in middle && key !in top {
      assert LayerableAt(low, middle, key);
    }
  }

  lemma {:induction false} ConflictingStack(low: Fields, middle: Fields, top: Fields) returns (base: Fields)
    requires !Stackable(low, middle, top)
    ensures DeepMerge(base, Combined(low, middle, top)) != OneByOne(base, low, middle, top)
    decreases Map(top), 1
  {
    var key :| key in low.Keys + middle.Keys + top.Keys && !StackableAt(low, middle, top, key);
    base := ConflictingStackAt(low, middle, top, key);
    StackKeys(base, low, middle, top, key);
  }

  /** On top of `base`, combining the layers and applying them in turn differ at the key. */
  ghost predicate DiffersAt(base: Fields, low: Fields, middle: Fields, top: Fields, key: string) {
    && key in Combined(low, middle, top) && key in top + middle + low
    && MergedValue(base, Combined(low, middle, top), key)
      != MergedValue(DeepMerge(DeepMerge(base, low), middle), top, key)
  }

  lemma ConflictBelowTop(low: Fields, middle: Fields, top: Fields, key: string) returns (base: Fields)
    requires key !in top && !LayerableAt(low, middle, key) && (key in low || key in middle)
    ensures DiffersAt(base, low, middle, top, key)
  {
    CombinedValue(low, middle, top, key);
    base := ConflictingAt(low, middle, key);
    MergedKey(low, middle, key);
    MergedKey(DeepMerge(base, low), middle, key);
  }

  lemma ConflictAroundMiddle(low: Fields, middle: Fields, top: Fields, key: string) returns (base: Fields)
    requires key in top && key !in middle && !LayerableAt(low, top, key)
    ensures DiffersAt(base, low, middle, top, key)
  {
    CombinedValue(low, middle, top, key);
    base := ConflictingAt(low, top, key);
    MergedKey(low, top, key);
    MergedKey(DeepMerge(base, low), middle, key);
  }

  lemma ConflictAtMiddle(low: Fields, middle: Fields, top: Fields, key: string) returns (base: Fields)
    requires key in top && top[key].Map? && key in middle && !middle[key].Map?
    ensures DiffersAt(base, low, middle, top, key)
  {
    CombinedValue(low, middle, top, key);
    base := FreshChild(key, top[key].fields);
    FreshChildShows(base, key, top[key].fields);
    MergedKey(DeepMerge(base, low), middle, key);
  }

  lemma ConflictAtLow(low: Fields, middle: Fields, top: Fields, key: string) returns (base: Fields)
    requires key in top && top[key].Map? && key in middle && middle[key].Map? && key in low && !low[key].Map?
    ensures DiffersAt(base, low, middle, top, key)
  {
    CombinedValue(low, middle, top, key);
    var both := DeepMerge(middle[key].fields, top[key].fields);
    base := FreshChild(key, both);
    FreshChildShows(base, key, both);
    MergedKey(base, low, key);
    MergedKey(DeepMerge(base, low), middle, key);
  }

  lemma MergedMaps(a: Fields, b: Fields, key: string)
    requires key in a && a[key].Map? && key in b && b[key].Map?
    ensures key in DeepMerge(a, b) && DeepMerge(a, b)[key] == Map(DeepMerge(a[key].fields, b[key].fields))
    ensures MergedValue(a, b, key) == Map(DeepMerge(a[key].fields, b[key].fields))
  {
    MergedKey(a, b, key);
  }

  lemma ConflictInsideUpperTwo(base: Fields, low: Fields, middle: Fields, top: Fields, key: string)
    requires key in top && top[key].Map? && key in middle && middle[key].Map? && key !in low
    requires key in base && base[key].Map?
    requires DeepMerge(base[key].fields, DeepMerge(middle[key].fields, top[key].fields))
             != DeepMerge(DeepMerge(base[key].fields, middle[key].fields), top[key].fields)
    ensures DiffersAt(base, low, middle, top, key)
  {
    CombinedValue(low, middle, top, key);
    MergedKey(base, low, key);
    MergedMaps(DeepMerge(base, low), middle, key);
    MergedMaps(DeepMerge(DeepMerge(base, low), middle), top, key);
  }

  lemma ConflictInside(base: Fields, low: Fields, middle: Fields, top: Fields, key: string)
    requires key in top && top[key].Map? && key in middle && middle[key].Map? && key in low && low[key].Map?
    requires key in base && base[key].Map?
    requires DeepMerge(base[key].fields, Combined(low[key].fields, middle[key].fields, top[key].fields))
             != OneByOne(base[key].fields, low[key].fields, middle[key].fields, top[key].fields)
    ensures DiffersAt(base, low, middle, top, key)
  {
    CombinedValue(low, middle, top, key);
    MergedMaps(base, low, key);
    MergedMaps(DeepMerge(base, low), middle, key);
    MergedMaps(DeepMerge(DeepMerge(base, low), middle), top, key);
  }

  lemma {:induction false} ConflictingStackAt(low: Fields, middle: Fields, top: Fields, key: string)
    returns (base: Fields)
    requires !StackableAt(low, middle, top, key)
    requires key in low || key in middle || key in top
    ensures DiffersAt(base, low, middle, top, key)
    decreases Map(top), 0
  {
    if key !in top {
      base := ConflictBelowTop(low, middle, top, key);
    } else if key !in middle {
      base := ConflictAroundMiddle(low, middle, top, key);
    } else if !middle[key].Map? {
      base := ConflictAtMiddle(low, middle, top, key);
    } else if key !in low {
      var inner := ConflictingBase(middle[key].fields, top[key].fields);
      base := map[key := Map(inner)];
      ConflictInsideUpperTwo(base, low, middle, top, key);
    } else if !low[key].Map? {
      base := ConflictAtLow(low, middle, top, key);
    } else {
      var inner := ConflictingStack(low[key].fields, middle[key].fields, top[key].fields);
      base := map[key := Map(inner)];
      ConflictInside(base, low, middle, top, key);
    }
  }

  /**
   A campaign's combined overlay of defaults, entry and variant equals applying them one by one, to every
   case, exactly when the three are stackable.
   */
  lemma CombinedOverlayIsLayeredIff(defaults: Fields, entry: Fields, variant: Fields)
    ensures Stackable(defaults, entry, variant) <==>
            forall caseFields: Fields ::
              DeepMerge(caseFields, Combined(defaults, entry, variant))
                == OneByOne(caseFields, defaults, entry, variant)
  {
    if Stackable(defaults, entry, variant) {
      forall caseFields: Fields
        ensures DeepMerge(caseFields, Combined(defaults, entry, variant))
                == OneByOne(caseFields, defaults, entry, variant)
      {
        CombinedIsStacked(caseFields, defaults, entry, variant);
      }
    } else {
      var caseFields := ConflictingStack(defaults, entry, variant);
    }
  }
}
