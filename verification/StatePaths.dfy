/** The overlap check on declared and observed state paths. */
module StatePaths {
  import opened Wrappers
  import opened Order
  import opened Sorting
  import opened Strings

  datatype PathError = DuplicatePath(path: string) | OverlappingPaths(path: string, candidate: string)

  /** No path occurs twice and none lies component-wise below another. */
  ghost predicate Nonoverlapping(paths: seq<string>) {
    && NoRepeats(paths)
    && forall x, y {:trigger IsAncestor(x, y, '.')} :: x in paths && y in paths ==> !IsAncestor(x, y, '.')
  }

  /** `candidate.startswith(path + ".")` */
  predicate Covers(path: string, candidate: string) {
    path + ['.'] <= candidate
  }

  /** No path before `index` repeats its predecessor or covers a later path. */
  ghost predicate ClearUpTo(paths: seq<string>, index: nat)
    requires index <= |paths|
  {
    && (forall i {:trigger RepeatsAt(paths, i)} :: 0 < i < index ==> !RepeatsAt(paths, i))
    && (forall i, j {:trigger Covers(paths[i], paths[j])} ::
          0 <= i < index && i < j < |paths| ==> !Covers(paths[i], paths[j]))
  }

  predicate RepeatsAt(paths: seq<string>, i: nat)
    requires 0 < i < |paths|
  {
    paths[i] == paths[i - 1]
  }

  /** Sorting and looking forward only is enough: accepts exactly the path lists without overlap. */
  method ValidateNonoverlappingPaths(entries: seq<string>) returns (r: Result<(), PathError>)
    ensures r.Ok? <==> Nonoverlapping(entries)
    ensures r.Err? && r.error.DuplicatePath? ==> !NoRepeats(entries)
    ensures r.Err? && r.error.OverlappingPaths? ==>
              && r.error.path in entries && r.error.candidate in entries
              && IsAncestor(r.error.path, r.error.candidate, '.')
  {
    var paths := StableSort(Le, entries);
    PathsSorted(entries);
    for index := 0 to |paths|
      invariant ClearUpTo(paths, index)
    {
      if index > 0 && RepeatsAt(paths, index) {
        RepeatIsDuplicate(entries, paths, index);
        return Err(DuplicatePath(paths[index]));
      }
      var candidate := FirstCovered(paths, index);
      if candidate < |paths| {
        CoverIsOverlap(entries, paths, index, candidate);
        return Err(OverlappingPaths(paths[index], paths[candidate]));
      }
    }
    ClearIsNonoverlapping(entries, paths);
    return Ok(());
  }

  /** The position of the first later path below `paths[index]`, or the length of the list. */
  method FirstCovered(paths: seq<string>, index: nat) returns (candidate: nat)
    requires index < |paths|
    ensures index < candidate <= |paths|
    ensures candidate < |paths| ==> Covers(paths[index], paths[candidate])
    ensures forall j :: index < j < candidate ==> !Covers(paths[index], paths[j])
  {
    candidate := index + 1;
    while candidate < |paths| && !Covers(paths[index], paths[candidate])
      invariant index < candidate <= |paths|
      invariant forall j :: index < j < candidate ==> !Covers(paths[index], paths[j])
    {
      candidate := candidate + 1;
    }
  }

  lemma CoverIsOverlap(entries: seq<string>, paths: seq<string>, i: nat, j: nat)
    requires Permutation(paths, entries) && i < j < |paths| && Covers(paths[i], paths[j])
    ensures paths[i] in entries && paths[j] in entries && IsAncestor(paths[i], paths[j], '.')
    ensures !Nonoverlapping(entries)
  {
    PermutationMembers(paths, entries);
    assert paths[i] in paths && paths[j] in paths;
    AncestorIsTextPrefix(paths[i], paths[j], '.');
  }

  lemma RepeatIsDuplicate(entries: seq<string>, paths: seq<string>, index: nat)
    requires Permutation(paths, entries) && 0 < index < |paths| && paths[index] == paths[index - 1]
    ensures !NoRepeats(entries)
  {
    if NoRepeats(entries) {
      PermutationKeepsNoRepeats(entries, paths);
    }
  }

  lemma ClearIsNonoverlapping(entries: seq<string>, paths: seq<string>)
    requires Permutation(paths, entries) && Sorted(Le, paths) && ClearUpTo(paths, |paths|)
    ensures Nonoverlapping(entries)
  {
    SortedAdjacentDistinct(paths);
    PermutationKeepsNoRepeats(paths, entries);
    PermutationMembers(paths, entries);
    forall x, y | x in entries && y in entries ensures !IsAncestor(x, y, '.') {
      ForwardIsEnough(paths, x, y);
    }
  }

  lemma PathsSorted(entries: seq<string>)
    ensures Sorted(Le, StableSort(Le, entries))
    ensures Permutation(StableSort(Le, entries), entries)
  {
    LeIsTotalPreorder();
    SortSorts(Le, entries);
    SortPermutes(Le, entries);
  }

  lemma SortedAdjacentDistinct(paths: seq<string>)
    requires Sorted(Le, paths)
    requires forall i {:trigger RepeatsAt(paths, i)} :: 0 < i < |paths| ==> !RepeatsAt(paths, i)
    ensures NoRepeats(paths)
  {
    forall i, j | 0 <= i < j < |paths| ensures paths[i] != paths[j] {
      assert Le(paths[i], paths[i + 1]);
      assert i + 1 == j || Le(paths[i + 1], paths[j]);
      LeTotal(paths[i], paths[i + 1]);
      assert !RepeatsAt(paths, i + 1);
    }
  }

  lemma ForwardIsEnough(paths: seq<string>, x: string, y: string)
    requires Sorted(Le, paths) && x in paths && y in paths
    requires forall i, j :: 0 <= i < j < |paths| ==> !Covers(paths[i], paths[j])
    ensures !IsAncestor(x, y, '.')
  {
    AncestorIsTextPrefix(x, y, '.');
    var i :| 0 <= i < |paths| && paths[i] == x;
    var j :| 0 <= j < |paths| && paths[j] == y;
    if Covers(x, y) {
      AncestorSortsFirst(x, y, '.');
    }
  }

  /** An unrelated path can sort between an ancestor and its descendant. */
  lemma UnrelatedPathSortsBetween()
    ensures Sorted(Le, ["a", "a-b", "a.b"])
    ensures IsAncestor("a", "a.b", '.') && !IsAncestor("a", "a-b", '.') && !IsAncestor("a-b", "a.b", '.')
    ensures !Nonoverlapping(["a", "a-b", "a.b"])
  {
    AncestorIsTextPrefix("a", "a.b", '.');
    AncestorIsTextPrefix("a", "a-b", '.');
    AncestorIsTextPrefix("a-b", "a.b", '.');
    assert Le("-b", ".b") && Le("a-b", "a.b") && Le("a", "a-b") && Le("a", "a.b");
    var paths := ["a", "a-b", "a.b"];
    assert paths[0] in paths && paths[2] in paths;
  }
}
