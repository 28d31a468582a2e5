/** The stable sort that the program uses for manifests, keys and paths. */
module Sorting {
  import opened Order

  ghost predicate TotalPreorder<T(!new)>(le: (T, T) -> bool) {
    && (forall x, y :: le(x, y) || le(y, x))
    && (forall x, y, z :: le(x, y) && le(y, z) ==> le(x, z))
  }

  ghost predicate Sorted<T>(le: (T, T) -> bool, s: seq<T>) {
    forall i, j :: 0 <= i < j < |s| ==> le(s[i], s[j])
  }

  /** Inserts `x` after everything that is not greater. */
  function InsertLast<T>(le: (T, T) -> bool, s: seq<T>, x: T): seq<T> {
    if s == [] then [x]
    else if le(s[|s| - 1], x) then s + [x]
    else InsertLast(le, s[..|s| - 1], x) + [s[|s| - 1]]
  }

  function StableSort<T>(le: (T, T) -> bool, s: seq<T>): seq<T> {
    if s == [] then [] else InsertLast(le, StableSort(le, s[..|s| - 1]), s[|s| - 1])
  }

  lemma {:induction false} InsertPermutes<T>(le: (T, T) -> bool, s: seq<T>, x: T)
    ensures Permutation(InsertLast(le, s, x), s + [x])
  {
    if s != [] && !le(s[|s| - 1], x) {
      InsertPermutes(le, s[..|s| - 1], x);
      assert s == s[..|s| - 1] + [s[|s| - 1]];
    }
  }

  lemma {:induction false} SortPermutes<T>(le: (T, T) -> bool, s: seq<T>)
    ensures Permutation(StableSort(le, s), s)
  {
    if s != [] {
      SortPermutes(le, s[..|s| - 1]);
      InsertPermutes(le, StableSort(le, s[..|s| - 1]), s[|s| - 1]);
      assert s == s[..|s| - 1] + [s[|s| - 1]];
    }
  }

  lemma {:induction false} InsertSorts<T(!new)>(le: (T, T) -> bool, s: seq<T>, x: T)
    requires TotalPreorder(le) && Sorted(le, s)
    ensures Sorted(le, InsertLast(le, s, x))
  {
    if s != [] {
      var last := s[|s| - 1];
      var r := InsertLast(le, s, x);
      if le(last, x) {
        forall i, j | 0 <= i < j < |r| ensures le(r[i], r[j]) {
          if j == |s| && i < |s| - 1 { assert le(s[i], last); }
        }
      } else {
        var front := s[..|s| - 1];
        InsertSorts(le, front, x);
        InsertPermutes(le, front, x);
        var inner := InsertLast(le, front, x);
        PermutationMembers(inner, front + [x]);
        forall y | y in inner ensures le(y, last) {
          assert y in front + [x];
          if y in front {
            var i :| 0 <= i < |front| && front[i] == y;
            assert s[i] == y;
          }
        }
        forall i, j | 0 <= i < j < |r| ensures le(r[i], r[j]) {
          if j == |inner| { assert inner[i] in inner; }
        }
      }
    }
  }

  lemma {:induction false} SortSorts<T(!new)>(le: (T, T) -> bool, s: seq<T>)
    requires TotalPreorder(le)
    ensures Sorted(le, StableSort(le, s))
  {
    if s != [] {
      SortSorts(le, s[..|s| - 1]);
      InsertSorts(le, StableSort(le, s[..|s| - 1]), s[|s| - 1]);
    }
  }

  /** Sorting a sorted list changes nothing, so sorting after an append only places the new element. */
  lemma {:induction false} SortOfSorted<T(!new)>(le: (T, T) -> bool, s: seq<T>)
    requires TotalPreorder(le) && Sorted(le, s)
    ensures StableSort(le, s) == s
  {
    if s != [] {
      var front := s[..|s| - 1];
      SortOfSorted(le, front);
      assert s == front + [s[|s| - 1]];
      if front != [] { assert le(front[|front| - 1], s[|s| - 1]); }
    }
  }

  lemma SortAfterAppend<T(!new)>(le: (T, T) -> bool, s: seq<T>, x: T)
    requires TotalPreorder(le) && Sorted(le, s)
    ensures StableSort(le, s + [x]) == InsertLast(le, s, x)
  {
    SortOfSorted(le, s);
    assert (s + [x])[..|s|] == s;
  }
}
