/** Sequences without repetition, sorted permutations, and the code-point order of strings. */
module Order {
  ghost predicate NoRepeats<T>(s: seq<T>) {
    forall i, j :: 0 <= i < j < |s| ==> s[i] != s[j]
  }

  ghost predicate Permutation<T>(s: seq<T>, t: seq<T>) {
    multiset(s) == multiset(t)
  }

  /** `s` is strictly increasing in `before`. */
  ghost predicate Increasing<T(!new)>(before: (T, T) -> bool, s: seq<T>) {
    forall i, j :: 0 <= i < j < |s| ==> before(s[i], s[j])
  }

  lemma {:induction false} NoRepeatsCounts<T>(s: seq<T>)
    requires NoRepeats(s)
    ensures forall x :: x in s ==> multiset(s)[x] == 1
  {
    if |s| > 0 {
      var t := s[1..];
      assert s == [s[0]] + t;
      assert multiset(s) == multiset{s[0]} + multiset(t);
      assert s[0] !in t;
      NoRepeatsCounts(t);
      forall x | x in s ensures multiset(s)[x] == 1 {
        if x != s[0] { assert x in t; }
      }
    }
  }

  /** Duplicate-free sequences with the same members are permutations of one another. */
  lemma SameMembersPermute<T>(s: seq<T>, t: seq<T>)
    requires NoRepeats(s) && NoRepeats(t)
    requires forall x :: x in s <==> x in t
    ensures Permutation(s, t)
  {
    NoRepeatsCounts(s);
    NoRepeatsCounts(t);
    forall x ensures multiset(s)[x] == multiset(t)[x] {
      if x in s {
        assert x in t;
      } else {
        assert x !in multiset(s) && x !in multiset(t);
      }
    }
  }

  lemma PermutationMembers<T>(s: seq<T>, t: seq<T>)
    requires Permutation(s, t)
    ensures |s| == |t|
    ensures forall x :: x in s <==> x in t
  {
    assert |multiset(s)| == |s| && |multiset(t)| == |t|;
    forall x ensures x in s <==> x in t {
      assert x in s <==> x in multiset(s);
      assert x in t <==> x in multiset(t);
    }
  }

  lemma RepeatCountsTwice<T>(s: seq<T>, i: nat, j: nat)
    requires i < j < |s| && s[i] == s[j]
    ensures multiset(s)[s[i]] >= 2
  {
    assert s == s[..i] + [s[i]] + s[i + 1..j] + [s[j]] + s[j + 1..];
  }

  lemma PermutationKeepsNoRepeats<T>(s: seq<T>, t: seq<T>)
    requires Permutation(s, t) && NoRepeats(s)
    ensures NoRepeats(t)
  {
    NoRepeatsCounts(s);
    PermutationMembers(s, t);
    forall i, j | 0 <= i < j < |t| ensures t[i] != t[j] {
      assert t[i] in t;
      if t[i] == t[j] {
        RepeatCountsTwice(t, i, j);
      }
    }
  }

  lemma TailsPermute<T>(s: seq<T>, t: seq<T>)
    requires Permutation(s, t) && |s| > 0 && |t| > 0 && s[0] == t[0]
    ensures Permutation(s[1..], t[1..])
  {
    assert s == [s[0]] + s[1..] && t == [t[0]] + t[1..];
    assert multiset(s[1..]) == multiset(s) - multiset{s[0]};
    assert multiset(t[1..]) == multiset(t) - multiset{t[0]};
  }

  /** There is at most one strictly increasing arrangement of a given collection. */
  lemma {:induction false} IncreasingUnique<T(!new)>(before: (T, T) -> bool, s: seq<T>, t: seq<T>)
    requires Permutation(s, t)
    requires Increasing(before, s) && Increasing(before, t)
    requires forall x, y :: before(x, y) ==> !before(y, x)
    ensures s == t
    decreases |s|
  {
    PermutationMembers(s, t);
    if |s| > 0 {
      assert s[0] in t && t[0] in s;
      var j :| 0 <= j < |t| && t[j] == s[0];
      var i :| 0 <= i < |s| && s[i] == t[0];
      assert s[0] == t[0];
      TailsPermute(s, t);
      IncreasingUnique(before, s[1..], t[1..]);
      assert s == [s[0]] + s[1..] && t == [t[0]] + t[1..];
    }
  }

  // ---------- counting ----------

  ghost function Members<T>(s: seq<T>): set<T> {
    set x | x in s
  }

  lemma {:induction false} MembersSize<T>(s: seq<T>)
    ensures |Members(s)| <= |s|
    ensures NoRepeats(s) ==> |Members(s)| == |s|
  {
    if |s| > 0 {
      MembersSize(s[1..]);
      assert s == [s[0]] + s[1..];
      assert Members(s) == Members(s[1..]) + {s[0]};
    }
  }

  lemma SubsetSize<T>(a: set<T>, b: set<T>)
    requires a <= b
    ensures |a| <= |b|
    ensures |a| == |b| ==> a == b
  {
    assert b == a + (b - a);
  }

  ghost function Below(n: nat): (s: set<nat>)
    ensures forall i: nat :: i in s <==> i < n
  {
    if n == 0 then {} else Below(n - 1) + {n - 1}
  }

  lemma {:induction false} BelowSize(n: nat)
    ensures |Below(n)| == n
  {
    if n > 0 {
      BelowSize(n - 1);
      assert Below(n) == Below(n - 1) + {n - 1};
    }
  }

  lemma FewMissSome(s: seq<nat>, n: nat) returns (i: nat)
    requires |s| < n
    ensures i < n && i !in s
  {
    if Below(n) <= Members(s) {
      SubsetSize(Below(n), Members(s));
      BelowSize(n);
      MembersSize(s);
      assert false;
    }
    i :| i in Below(n) && i !in Members(s);
  }

  lemma ManyCoverAll(s: seq<nat>, n: nat)
    requires NoRepeats(s) && |s| == n
    requires forall k :: 0 <= k < |s| ==> s[k] < n
    ensures forall i :: 0 <= i < n ==> i in s
  {
    MembersSize(s);
    BelowSize(n);
    assert Members(s) <= Below(n);
    SubsetSize(Members(s), Below(n));
    forall i | 0 <= i < n ensures i in s {
      assert i in Below(n);
    }
  }
}
