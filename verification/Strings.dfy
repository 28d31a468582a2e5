/** Code-point order of strings, splitting at a separator, and stripping. */
module Strings {
  import opened Sorting

  // ---------- order ----------

  predicate Le(a: string, b: string) {
    a == [] || (b != [] && (a[0] < b[0] || (a[0] == b[0] && Le(a[1..], b[1..]))))
  }

  lemma {:induction false} LeTotal(a: string, b: string)
    ensures Le(a, b) || Le(b, a)
    ensures Le(a, b) && Le(b, a) ==> a == b
  {
    if a != [] && b != [] && a[0] == b[0] {
      LeTotal(a[1..], b[1..]);
      assert a == [a[0]] + a[1..] && b == [b[0]] + b[1..];
    }
  }

  lemma {:induction false} LeTransitive(a: string, b: string, c: string)
    requires Le(a, b) && Le(b, c)
    ensures Le(a, c)
  {
    if a != [] && b != [] && c != [] && a[0] == b[0] == c[0] {
      LeTransitive(a[1..], b[1..], c[1..]);
    }
  }

  lemma LeIsTotalPreorder()
    ensures TotalPreorder(Le)
  {
    forall x: string, y: string ensures Le(x, y) || Le(y, x) {
      LeTotal(x, y);
    }
    forall x: string, y: string, z: string | Le(x, y) && Le(y, z) ensures Le(x, z) {
      LeTransitive(x, y, z);
    }
  }

  lemma {:induction false} PrefixIsLe(a: string, b: string)
    requires a <= b
    ensures Le(a, b)
  {
    if a != [] {
      PrefixIsLe(a[1..], b[1..]);
    }
  }

  /** The first place where both go on and differ. */
  ghost predicate DifferFirstAt<T>(a: seq<T>, b: seq<T>, k: int) {
    0 <= k < |a| && k < |b| && a[..k] == b[..k] && a[k] != b[k]
  }

  lemma {:induction false} FirstDifference<T>(a: seq<T>, b: seq<T>) returns (k: nat)
    requires !(a <= b) && !(b <= a)
    ensures DifferFirstAt(a, b, k)
  {
    if a[0] != b[0] {
      k := 0;
    } else {
      assert a == [a[0]] + a[1..] && b == [b[0]] + b[1..];
      var rest := FirstDifference(a[1..], b[1..]);
      k := rest + 1;
      assert a[..k] == [a[0]] + a[1..][..rest] && b[..k] == [b[0]] + b[1..][..rest];
    }
  }

  /** Code-point order: the first difference decides, and a proper prefix comes first. */
  ghost predicate Before(a: string, b: string) {
    a < b || exists k :: DifferFirstAt(a, b, k) && a[k] < b[k]
  }

  lemma {:induction false} LeUpTo(a: string, b: string, k: nat)
    requires DifferFirstAt(a, b, k)
    ensures Le(a, b) <==> a[k] < b[k]
  {
    if k > 0 {
      assert a[0] == a[..k][0] == b[..k][0] == b[0];
      assert a[1..][..k - 1] == a[..k][1..] && b[1..][..k - 1] == b[..k][1..];
      LeUpTo(a[1..], b[1..], k - 1);
    }
  }

  lemma LeIsCodePointOrder(a: string, b: string)
    ensures Le(a, b) <==> a == b || Before(a, b)
  {
    if a <= b {
      PrefixIsLe(a, b);
    } else if b <= a {
      PrefixIsLe(b, a);
      LeTotal(a, b);
      forall k ensures !DifferFirstAt(a, b, k) {
        if 0 <= k < |b| { assert a[k] == b[k]; }
      }
    } else {
      var k := FirstDifference(a, b);
      LeUpTo(a, b, k);
      forall l | 0 <= l < k ensures a[l] == b[l] {
        assert a[..k][l] == b[..k][l];
      }
      forall l | k < l <= |a| && l <= |b| ensures a[..l] != b[..l] {
        assert a[..l][k] == a[k] && b[..l][k] == b[k];
      }
    }
  }

  lemma {:induction false} LeastExists(s: set<string>) returns (least: string)
    requires s != {}
    ensures least in s && forall x :: x in s ==> Le(least, x)
    decreases |s|
  {
    var one :| one in s;
    LeTotal(one, one);
    if s == {one} {
      least := one;
    } else {
      var rest := LeastExists(s - {one});
      LeTotal(one, rest);
      least := if Le(one, rest) then one else rest;
      forall x | x in s ensures Le(least, x) {
        if x != one {
          assert x in s - {one};
          LeTransitive(least, rest, x);
        }
      }
    }
  }

  function Least(s: set<string>): (least: string)
    requires s != {}
    ensures least in s && forall x :: x in s ==> Le(least, x)
  {
    LeastDefined(s);
    var least :| least in s && forall x :: x in s ==> Le(least, x);
    least
  }

  lemma LeastDefined(s: set<string>)
    requires s != {}
    ensures exists least :: least in s && forall x :: x in s ==> Le(least, x)
    ensures forall a, b :: a in s && b in s && (forall x :: x in s ==> Le(a, x)) && (forall x :: x in s ==> Le(b, x))
              ==> a == b
  {
    var least := LeastExists(s);
    forall a, b | a in s && b in s && (forall x :: x in s ==> Le(a, x)) && (forall x :: x in s ==> Le(b, x))
      ensures a == b
    {
      LeTotal(a, b);
    }
  }

  /** The members of a set in code-point order. */
  function SortedKeys(s: set<string>): seq<string>
    decreases |s|
  {
    if s == {} then [] else [Least(s)] + SortedKeys(s - {Least(s)})
  }

  lemma {:induction false} SortedKeysMembers(s: set<string>)
    ensures |SortedKeys(s)| == |s|
    ensures forall x :: x in SortedKeys(s) <==> x in s
    decreases |s|
  {
    if s != {} {
      SortedKeysMembers(s - {Least(s)});
    }
  }

  lemma PrependSorted(least: string, rest: seq<string>)
    requires Sorted(Le, rest)
    requires forall x :: x in rest ==> Le(least, x) && x != least
    requires forall i, j :: 0 <= i < j < |rest| ==> rest[i] != rest[j]
    ensures Sorted(Le, [least] + rest)
    ensures forall i, j :: 0 <= i < j < |[least] + rest| ==> ([least] + rest)[i] != ([least] + rest)[j]
  {
    forall i | 0 <= i < |rest| ensures Le(least, rest[i]) && rest[i] != least {
      assert rest[i] in rest;
    }
  }

  lemma {:induction false} SortedKeysSorted(s: set<string>)
    ensures Sorted(Le, SortedKeys(s))
    ensures forall i, j :: 0 <= i < j < |SortedKeys(s)| ==> SortedKeys(s)[i] != SortedKeys(s)[j]
    decreases |s|
  {
    if s != {} {
      var least := Least(s);
      SortedKeysSorted(s - {least});
      SortedKeysMembers(s - {least});
      PrependSorted(least, SortedKeys(s - {least}));
    }
  }

  // ---------- splitting ----------

  /** The parts between separators; always at least one. */
  function Split(s: string, sep: char): (parts: seq<string>)
    ensures |parts| >= 1
  {
    if s == [] then [[]]
    else
      var rest := Split(s[1..], sep);
      if s[0] == sep then [[]] + rest else [[s[0]] + rest[0]] + rest[1..]
  }

  function Join(parts: seq<string>, sep: char): string
    requires |parts| >= 1
  {
    if |parts| == 1 then parts[0] else parts[0] + [sep] + Join(parts[1..], sep)
  }

  lemma Regroup(c: char, rest: string, sep: char, b: string)
    ensures [c] + rest + [sep] + b == [c] + (rest + [sep] + b)
  {
  }

  lemma {:induction false} SplitAppend(a: string, sep: char, b: string)
    ensures Split(a + [sep] + b, sep) == Split(a, sep) + Split(b, sep)
  {
    if a == [] {
      assert a + [sep] + b == [sep] + b;
    } else {
      var c, rest := a[0], a[1..];
      assert a == [c] + rest;
      SplitAppend(rest, sep, b);
      Regroup(c, rest, sep, b);
    }
  }

  lemma {:induction false} SplitWhole(s: string, sep: char)
    requires sep !in s
    ensures Split(s, sep) == [s]
  {
    if s != [] {
      SplitWhole(s[1..], sep);
      assert s == [s[0]] + s[1..];
    }
  }

  lemma {:induction false} SplitParts(s: string, sep: char)
    ensures forall i :: 0 <= i < |Split(s, sep)| ==> sep !in Split(s, sep)[i]
    ensures Join(Split(s, sep), sep) == s
  {
    if s != [] {
      SplitParts(s[1..], sep);
      var rest := Split(s[1..], sep);
      assert s == [s[0]] + s[1..];
      if s[0] == sep {
        assert ([[]] + rest)[1..] == rest;
      } else {
        assert Split(s, sep)[1..] == rest[1..];
      }
    }
  }

  lemma {:induction false} SplitJoin(parts: seq<string>, sep: char)
    requires |parts| >= 1
    requires forall i :: 0 <= i < |parts| ==> sep !in parts[i]
    ensures Split(Join(parts, sep), sep) == parts
  {
    SplitWhole(parts[0], sep);
    if |parts| > 1 {
      SplitJoin(parts[1..], sep);
      SplitAppend(parts[0], sep, Join(parts[1..], sep));
      assert parts == [parts[0]] + parts[1..];
    }
  }

  lemma {:induction false} JoinAppend(a: seq<string>, b: seq<string>, sep: char)
    requires |a| >= 1 && |b| >= 1
    ensures Join(a + b, sep) == Join(a, sep) + [sep] + Join(b, sep)
  {
    if |a| == 1 {
      assert (a + b)[1..] == b;
    } else {
      JoinAppend(a[1..], b, sep);
      assert (a + b)[1..] == a[1..] + b;
    }
  }

  /** `a` is a strict ancestor of `b`: the components of `a` are a proper prefix of those of `b`. */
  predicate IsAncestor(a: string, b: string, sep: char) {
    Split(a, sep) < Split(b, sep)
  }

  /** Testing the text for a prefix that ends with the separator is testing component-wise. */
  lemma AncestorIsTextPrefix(a: string, b: string, sep: char)
    ensures IsAncestor(a, b, sep) <==> a + [sep] <= b
  {
    if a + [sep] <= b {
      var rest := b[|a| + 1..];
      assert b == a + [sep] + rest;
      SplitAppend(a, sep, rest);
    }
    if IsAncestor(a, b, sep) {
      var pa, pb := Split(a, sep), Split(b, sep);
      var rest := pb[|pa|..];
      assert pb == pa + rest;
      SplitParts(a, sep);
      SplitParts(b, sep);
      JoinAppend(pa, rest, sep);
    }
  }

  /** An ancestor sorts before its descendants, whatever sorts in between. */
  lemma AncestorSortsFirst(a: string, b: string, sep: char)
    requires a + [sep] <= b
    ensures Le(a, b) && !Le(b, a)
  {
    PrefixIsLe(a, b);
    LeTotal(a, b);
  }

  // ---------- stripping ----------

  /** The characters that stripping a text removes. */
  predicate IsSpace(c: char) {
    || '\t' <= c <= '\r' || '\U{1C}' <= c <= '\U{20}' || c == '\U{85}' || c == '\U{A0}' || c == '\U{1680}'
    || '\U{2000}' <= c <= '\U{200A}' || c == '\U{2028}' || c == '\U{2029}' || c == '\U{202F}' || c == '\U{205F}'
    || c == '\U{3000}'
  }

  function StripLeft(s: string): string {
    if s != [] && IsSpace(s[0]) then StripLeft(s[1..]) else s
  }

  function StripRight(s: string): string {
    if s != [] && IsSpace(s[|s| - 1]) then StripRight(s[..|s| - 1]) else s
  }

  function Strip(s: string): string {
    StripRight(StripLeft(s))
  }

  lemma StripsNothing(s: string)
    requires forall i :: 0 <= i < |s| ==> !IsSpace(s[i])
    ensures Strip(s) == s
  {
  }
}
