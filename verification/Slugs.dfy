/** Identifiers made from arbitrary text, and the labels of matrix variants. */
module Slugs {
  predicate IsSlugChar(c: char) {
    'A' <= c <= 'Z' || 'a' <= c <= 'z' || '0' <= c <= '9' || c in "_.-"
  }

  /** Every maximal run of other characters becomes one hyphen. */
  function Hyphenate(s: string, inRun: bool): string {
    if s == [] then []
    else if IsSlugChar(s[0]) then [s[0]] + Hyphenate(s[1..], false)
    else if inRun then Hyphenate(s[1..], true)
    else ['-'] + Hyphenate(s[1..], true)
  }

  function TrimHyphens(s: string): string {
    if s != [] && s[0] == '-' then TrimHyphens(s[1..])
    else if s != [] && s[|s| - 1] == '-' then TrimHyphens(s[..|s| - 1])
    else s
  }

  function Slug(s: string): string {
    var trimmed := TrimHyphens(Hyphenate(s, false));
    if trimmed == [] then "value" else trimmed
  }

  /** What slugs look like. */
  predicate IsSlug(s: string) {
    s != [] && s[0] != '-' && s[|s| - 1] != '-' && forall i :: 0 <= i < |s| ==> IsSlugChar(s[i])
  }

  lemma {:induction false} HyphenatedChars(s: string, inRun: bool)
    ensures forall i :: 0 <= i < |Hyphenate(s, inRun)| ==> IsSlugChar(Hyphenate(s, inRun)[i])
  {
    if s != [] {
      HyphenatedChars(s[1..], false);
      HyphenatedChars(s[1..], true);
    }
  }

  lemma {:induction false} TrimmedIsSlug(s: string)
    requires forall i :: 0 <= i < |s| ==> IsSlugChar(s[i])
    ensures TrimHyphens(s) == [] || IsSlug(TrimHyphens(s))
  {
    if s != [] && s[0] == '-' {
      TrimmedIsSlug(s[1..]);
    } else if s != [] && s[|s| - 1] == '-' {
      TrimmedIsSlug(s[..|s| - 1]);
    }
  }

  lemma SlugIsSlug(s: string)
    ensures IsSlug(Slug(s))
  {
    HyphenatedChars(s, false);
    TrimmedIsSlug(Hyphenate(s, false));
  }

  // ---------- what slugs keep ----------

  lemma {:induction false} HyphenateAppend(x: string, y: string, inRun: bool)
    requires x != "" && IsSlugChar(x[|x| - 1])
    ensures Hyphenate(x + y, inRun) == Hyphenate(x, inRun) + Hyphenate(y, false)
  {
    assert (x + y)[0] == x[0] && (x + y)[1..] == x[1..] + y;
    if |x| == 1 {
      assert x[1..] == "" && x[1..] + y == y;
    } else {
      HyphenateAppend(x[1..], y, !IsSlugChar(x[0]));
    }
  }

  lemma {:induction false} RunVanishes(run: string, y: string)
    requires forall i :: 0 <= i < |run| ==> !IsSlugChar(run[i])
    requires y == "" || IsSlugChar(y[0])
    ensures Hyphenate(run + y, true) == Hyphenate(y, false)
  {
    if run == "" {
      assert run + y == y;
    } else {
      assert (run + y)[0] == run[0] && (run + y)[1..] == run[1..] + y;
      RunVanishes(run[1..], y);
    }
  }

  lemma RunStarts(run: string, y: string)
    requires run != "" && forall i :: 0 <= i < |run| ==> !IsSlugChar(run[i])
    requires y == "" || IsSlugChar(y[0])
    ensures Hyphenate(run + y, false) == "-" + Hyphenate(y, false)
  {
    assert (run + y)[0] == run[0] && (run + y)[1..] == run[1..] + y;
    RunVanishes(run[1..], y);
  }

  /** Every run of other characters is replaced by a single hyphen, and what stands around it is not touched. */
  lemma RunBecomesHyphen(x: string, run: string, y: string)
    requires x == "" || IsSlugChar(x[|x| - 1])
    requires run != "" && forall i :: 0 <= i < |run| ==> !IsSlugChar(run[i])
    requires y == "" || IsSlugChar(y[0])
    ensures Hyphenate(x + (run + y), false) == Hyphenate(x, false) + ("-" + Hyphenate(y, false))
  {
    RunStarts(run, y);
    if x == "" {
      assert x + (run + y) == run + y;
      assert "" + ("-" + Hyphenate(y, false)) == "-" + Hyphenate(y, false);
    } else {
      HyphenateAppend(x, run + y, false);
    }
  }

  /** Trimming takes hyphens off both ends, and nothing else. */
  lemma {:induction false} TrimMeaning(s: string) returns (left: string, right: string)
    ensures s == left + TrimHyphens(s) + right
    ensures forall i :: 0 <= i < |left| ==> left[i] == '-'
    ensures forall i :: 0 <= i < |right| ==> right[i] == '-'
    ensures TrimHyphens(s) != "" ==> TrimHyphens(s)[0] != '-' && TrimHyphens(s)[|TrimHyphens(s)| - 1] != '-'
  {
    if s != "" && s[0] == '-' {
      left, right := TrimMeaning(s[1..]);
      left := "-" + left;
      assert s == "-" + s[1..];
    } else if s != "" && s[|s| - 1] == '-' {
      left, right := TrimMeaning(s[..|s| - 1]);
      right := right + "-";
      assert s == s[..|s| - 1] + "-";
    } else {
      left, right := "", "";
    }
  }

  predicate OnlyHyphens(s: string) {
    forall i :: 0 <= i < |s| ==> s[i] == '-'
  }

  /** Nothing in the text can be part of a slug but hyphens. */
  predicate NothingToKeep(s: string) {
    forall i :: 0 <= i < |s| ==> !IsSlugChar(s[i]) || s[i] == '-'
  }

  lemma OneMoreChar(c: char, s: string)
    ensures OnlyHyphens([c] + s) <==> c == '-' && OnlyHyphens(s)
    ensures NothingToKeep([c] + s) <==> (!IsSlugChar(c) || c == '-') && NothingToKeep(s)
  {
    assert ([c] + s)[0] == c && ([c] + s)[1..] == s;
    if OnlyHyphens([c] + s) {
      forall i | 0 <= i < |s| ensures s[i] == '-' { assert ([c] + s)[i + 1] == s[i]; }
    }
    if NothingToKeep([c] + s) {
      forall i | 0 <= i < |s| ensures !IsSlugChar(s[i]) || s[i] == '-' { assert ([c] + s)[i + 1] == s[i]; }
    }
  }

  lemma {:induction false} NothingHyphenated(s: string, inRun: bool)
    ensures NothingToKeep(s) <==> OnlyHyphens(Hyphenate(s, inRun))
  {
    if s != "" {
      var next := !IsSlugChar(s[0]);
      NothingHyphenated(s[1..], next);
      assert s == [s[0]] + s[1..];
      OneMoreChar(s[0], s[1..]);
      OneMoreChar(s[0], Hyphenate(s[1..], next));
      OneMoreChar('-', Hyphenate(s[1..], next));
    }
  }

  /** What is left without anything to keep is called `value`; otherwise the slug is the trimmed text. */
  lemma SlugMeaning(s: string)
    ensures Slug(s) == if NothingToKeep(s) then "value" else TrimHyphens(Hyphenate(s, false))
  {
    var h := Hyphenate(s, false);
    NothingHyphenated(s, false);
    var left, right := TrimMeaning(h);
    if TrimHyphens(h) != "" {
      assert h[|left|] == TrimHyphens(h)[0];
    } else {
      assert h == left + right;
    }
  }

  lemma {:induction false} HyphenateKeeps(s: string)
    requires forall i :: 0 <= i < |s| ==> IsSlugChar(s[i])
    ensures Hyphenate(s, false) == s
  {
    if s != [] {
      HyphenateKeeps(s[1..]);
      assert s == [s[0]] + s[1..];
    }
  }

  /** A slug is its own slug. */
  lemma SlugIsStable(s: string)
    requires IsSlug(s)
    ensures Slug(s) == s
  {
    HyphenateKeeps(s);
  }

  // ---------- labels ----------

  /** `head-slug` pairs, joined by two underscores. */
  function LabelText(heads: seq<string>, slugs: seq<string>): string
    requires |heads| == |slugs|
  {
    if heads == [] then ""
    else if |heads| == 1 then heads[0] + "-" + slugs[0]
    else heads[0] + "-" + slugs[0] + "__" + LabelText(heads[1..], slugs[1..])
  }

  /** Parts with two underscores between them. */
  function Joined(parts: seq<string>): string {
    if parts == [] then "" else if |parts| == 1 then parts[0] else parts[0] + "__" + Joined(parts[1..])
  }

  lemma {:induction false} JoinedIsLabel(parts: seq<string>, heads: seq<string>, slugs: seq<string>)
    requires |parts| == |heads| == |slugs|
    requires forall k :: 0 <= k < |parts| ==> parts[k] == heads[k] + "-" + slugs[k]
    ensures Joined(parts) == LabelText(heads, slugs)
  {
    if |parts| > 1 {
      JoinedIsLabel(parts[1..], heads[1..], slugs[1..]);
    }
  }

  predicate AreSlugs(parts: seq<string>) {
    forall i :: 0 <= i < |parts| ==> IsSlug(parts[i])
  }

  lemma JoinedSlugs(a: string, between: string, b: string)
    requires IsSlug(a) && IsSlug(b) && forall i :: 0 <= i < |between| ==> IsSlugChar(between[i])
    ensures IsSlug(a + between + b)
  {
  }

  lemma {:induction false} LabelIsSlug(heads: seq<string>, slugs: seq<string>)
    requires |heads| == |slugs| > 0 && AreSlugs(heads) && AreSlugs(slugs)
    ensures IsSlug(LabelText(heads, slugs))
  {
    JoinedSlugs(heads[0], "-", slugs[0]);
    if |heads| > 1 {
      LabelIsSlug(heads[1..], slugs[1..]);
      JoinedSlugs(heads[0] + "-" + slugs[0], "__", LabelText(heads[1..], slugs[1..]));
    }
  }

  /** No two underscores in a row, which is what separates the parts of a label. */
  predicate NoDouble(s: string) {
    forall i :: 0 <= i < |s| - 1 ==> !(s[i] == '_' && s[i + 1] == '_')
  }

  lemma SameStart(p: string, u: string, v: string)
    requires p + u == p + v
    ensures u == v
  {
    assert (p + u)[|p|..] == u && (p + v)[|p|..] == v;
  }

  lemma HeadDoesNotShift(x: string, y: string, head: string)
    requires IsSlug(head) && head + "-" <= x && head + "-" <= y
    ensures "_" + x != y
  {
    assert ("_" + x)[|head|] == x[|head| - 1] == head[|head| - 1];
    assert y[|head|] == (head + "-")[|head|] == '-';
  }

  /** A part without two underscores in a row is not longer than another one with the same text after it. */
  lemma NotLonger(a: string, x: string, b: string, y: string, head: string)
    requires NoDouble(a) && IsSlug(head) && head + "-" <= x && head + "-" <= y
    requires a + "__" + x == b + "__" + y
    ensures |a| <= |b|
  {
    var whole := a + "__" + x;
    HeadDoesNotShift(x, y, head);
    assert whole == b + "__" + y;
    assert whole[|b| + 2..] == y;
    assert whole[|b|] == '_' && whole[|b| + 1] == '_';
    assert whole[..|a|] == a;
    assert whole[|a| + 1..] == "_" + x;
  }

  lemma LabelStarts(heads: seq<string>, slugs: seq<string>)
    requires |heads| == |slugs| > 0
    ensures heads[0] + "-" <= LabelText(heads, slugs)
  {
  }

  /** Labels over the same heads are equal exactly if all slugs are, if no slug has two underscores in a row. */
  lemma {:induction false} LabelsEqualIff(heads: seq<string>, a: seq<string>, b: seq<string>)
    requires |heads| == |a| == |b| && AreSlugs(heads)
    requires forall k :: 0 <= k < |a| ==> NoDouble(a[k]) && NoDouble(b[k])
    ensures LabelText(heads, a) == LabelText(heads, b) <==> a == b
  {
    if LabelText(heads, a) == LabelText(heads, b) && heads != [] {
      if |heads| == 1 {
        SameStart(heads[0] + "-", a[0], b[0]);
      } else {
        var x, y := LabelText(heads[1..], a[1..]), LabelText(heads[1..], b[1..]);
        LabelStarts(heads[1..], a[1..]);
        LabelStarts(heads[1..], b[1..]);
        SplitLabel(heads, a);
        SplitLabel(heads, b);
        SameStart(heads[0] + "-", a[0] + "__" + x, b[0] + "__" + y);
        NotLonger(a[0], x, b[0], y, heads[1]);
        NotLonger(b[0], y, a[0], x, heads[1]);
        SameParts(a[0], x, b[0], y);
        LabelsEqualIff(heads[1..], a[1..], b[1..]);
        assert a == [a[0]] + a[1..] && b == [b[0]] + b[1..];
      }
    }
  }

  lemma SplitLabel(heads: seq<string>, slugs: seq<string>)
    requires |heads| == |slugs| > 1
    ensures LabelText(heads, slugs) == heads[0] + "-" + (slugs[0] + "__" + LabelText(heads[1..], slugs[1..]))
  {
  }

  lemma SameParts(a: string, x: string, b: string, y: string)
    requires |a| == |b| && a + "__" + x == b + "__" + y
    ensures a == b && x == y
  {
    assert (a + "__" + x)[..|a|] == a && (b + "__" + y)[..|b|] == b;
    assert (a + "__" + x)[|a| + 2..] == x && (b + "__" + y)[|b| + 2..] == y;
  }

  /** With two underscores in a value, different combinations can have the same label. */
  lemma UnderscoresCollide()
    ensures IsSlug("1__b-2") && IsSlug("2__b-3")
    ensures LabelText(["a", "b"], ["1__b-2", "3"]) == LabelText(["a", "b"], ["1", "2__b-3"])
  {
    assert ["a", "b"][1..] == ["b"] && ["1__b-2", "3"][1..] == ["3"] && ["1", "2__b-3"][1..] == ["2__b-3"];
    assert "a" + "-" + "1__b-2" + "__" + ("b" + "-" + "3") == "a-1__b-2__b-3";
    assert "a" + "-" + "1" + "__" + ("b" + "-" + "2__b-3") == "a-1__b-2__b-3";
  }
}
