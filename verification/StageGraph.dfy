/**
 Dependency graphs: every node names the set of nodes it depends on.  The two cycle checks of the
 program (the layered sort of the planner and the depth-first search of the control document) and
 its ancestor worklist are all proved against the definitions of this module.
 */
module StageGraph {
  type Graph = map<string, set<string>>

  /** Every dependency names a node. */
  predicate Resolved(g: Graph) {
    forall n :: n in g ==> g[n] <= g.Keys
  }

  /** A walk along dependency edges; `p[i + 1]` is a dependency of `p[i]`. */
  ghost predicate IsPath(g: Graph, p: seq<string>) {
    && |p| >= 1
    && (forall i :: 0 <= i < |p| ==> p[i] in g)
    && (forall i :: 0 <= i < |p| - 1 ==> p[i + 1] in g[p[i]])
  }

  ghost predicate PathFromTo(g: Graph, p: seq<string>, a: string, b: string) {
    IsPath(g, p) && |p| >= 2 && p[0] == a && p[|p| - 1] == b
  }

  /** `a` depends on `b`, directly or through other nodes: the transitive closure of the edges. */
  ghost predicate Reaches(g: Graph, a: string, b: string) {
    exists p :: PathFromTo(g, p, a, b)
  }

  ghost predicate Acyclic(g: Graph) {
    forall n :: n in g ==> !Reaches(g, n, n)
  }

  /** A dependency chain of `k` edges starts at `n`. */
  ghost predicate Chain(g: Graph, n: string, k: nat)
    requires Resolved(g)
    requires n in g
    decreases k
  {
    k == 0 || exists d :: d in g[n] && Chain(g, d, k - 1)
  }

  /** The longest dependency chain below `n` has exactly `k` edges. */
  ghost predicate HasDepth(g: Graph, n: string, k: nat)
    requires Resolved(g)
    requires n in g
  {
    Chain(g, n, k) && !Chain(g, n, k + 1)
  }

  // ---------- walks ----------

  lemma EdgeReaches(g: Graph, a: string, b: string)
    requires a in g && b in g && b in g[a]
    ensures Reaches(g, a, b)
  {
    assert PathFromTo(g, [a, b], a, b);
  }

  lemma ReachesTransitive(g: Graph, a: string, b: string, c: string)
    requires Reaches(g, a, b) && Reaches(g, b, c)
    ensures Reaches(g, a, c)
  {
    var p :| PathFromTo(g, p, a, b);
    var q :| PathFromTo(g, q, b, c);
    assert PathFromTo(g, p + q[1..], a, c);
  }

  /** A set closed under dependencies holds everything that its members reach. */
  lemma {:induction false} ClosedHoldsWalk(g: Graph, s: set<string>, p: seq<string>)
    requires forall n :: n in s ==> n in g && g[n] <= s
    requires IsPath(g, p) && p[0] in s
    ensures forall i :: 0 <= i < |p| ==> p[i] in s
  {
    if |p| > 1 {
      var q := p[1..];
      assert p[1] in g[p[0]];
      forall i | 0 <= i < |q| - 1 ensures q[i + 1] in g[q[i]] {
        assert p[i + 2] in g[p[i + 1]];
      }
      ClosedHoldsWalk(g, s, q);
      forall i | 0 <= i < |p| ensures p[i] in s {
        if i > 0 { assert p[i] == q[i - 1]; }
      }
    }
  }

  lemma ClosedHoldsReached(g: Graph, s: set<string>, a: string, b: string)
    requires forall n :: n in s ==> n in g && g[n] <= s
    requires a in s && Reaches(g, a, b)
    ensures b in s
  {
    var p :| PathFromTo(g, p, a, b);
    ClosedHoldsWalk(g, s, p);
  }

  /** The first step of a walk from `a` goes to a dependency of `a`. */
  lemma ReachesThroughDependency(g: Graph, a: string, b: string) returns (d: string)
    requires Reaches(g, a, b)
    ensures a in g && d in g[a] && d in g
    ensures d == b || Reaches(g, d, b)
  {
    var p :| PathFromTo(g, p, a, b);
    d := p[1];
    assert p[1] in g[p[0]];
    if |p| > 2 {
      var q := p[1..];
      forall i | 0 <= i < |q| - 1 ensures q[i + 1] in g[q[i]] {
        assert p[i + 2] in g[p[i + 1]];
      }
      assert PathFromTo(g, q, d, b);
    }
  }

  // ---------- chains and depths ----------

  lemma {:induction false} ChainShorter(g: Graph, n: string, j: nat, k: nat)
    requires Resolved(g) && n in g
    requires Chain(g, n, k) && j <= k
    ensures Chain(g, n, j)
    decreases k
  {
    if j > 0 {
      var d :| d in g[n] && Chain(g, d, k - 1);
      ChainShorter(g, d, j - 1, k - 1);
    }
  }

  lemma DepthUnique(g: Graph, n: string, j: nat, k: nat)
    requires Resolved(g) && n in g
    requires HasDepth(g, n, j) && HasDepth(g, n, k)
    ensures j == k
  {
    if j < k {
      ChainShorter(g, n, j + 1, k);
    } else if k < j {
      ChainShorter(g, n, k + 1, j);
    }
  }

  lemma {:induction false} ChainWalk(g: Graph, n: string, k: nat) returns (p: seq<string>)
    requires Resolved(g) && n in g && Chain(g, n, k)
    ensures IsPath(g, p) && p[0] == n && |p| == k + 1
    decreases k
  {
    if k == 0 {
      p := [n];
    } else {
      var d :| d in g[n] && Chain(g, d, k - 1);
      var q := ChainWalk(g, d, k - 1);
      p := [n] + q;
      forall i | 0 <= i < |p| - 1 ensures p[i + 1] in g[p[i]] {
        if i > 0 { assert q[i] in g[q[i - 1]]; }
      }
    }
  }

  lemma {:induction false} WalkChain(g: Graph, p: seq<string>)
    requires Resolved(g) && IsPath(g, p)
    ensures Chain(g, p[0], |p| - 1)
    decreases |p|
  {
    if |p| > 1 {
      var q := p[1..];
      forall i | 0 <= i < |q| - 1 ensures q[i + 1] in g[q[i]] {
        assert p[i + 2] in g[p[i + 1]];
      }
      WalkChain(g, q);
      assert p[1] in g[p[0]];
      assert Chain(g, p[1], |p| - 2);
    }
  }

  /** Members of a sequence without repetition, counted. */
  lemma {:induction false} DistinctBound(p: seq<string>, s: set<string>)
    requires forall i :: 0 <= i < |p| ==> p[i] in s
    requires forall i, j :: 0 <= i < j < |p| ==> p[i] != p[j]
    ensures |p| <= |s|
    decreases |p|
  {
    if |p| > 0 {
      DistinctBound(p[1..], s - {p[0]});
    }
  }

  /** Pigeonhole: a walk with more nodes than the set it stays in runs through a cycle. */
  lemma LongWalkHasCycle(g: Graph, p: seq<string>, s: set<string>) returns (n: string)
    requires IsPath(g, p)
    requires forall i :: 0 <= i < |p| ==> p[i] in s
    requires |p| > |s|
    ensures n in s && Reaches(g, n, n)
  {
    if forall i, j :: 0 <= i < j < |p| ==> p[i] != p[j] {
      DistinctBound(p, s);
      assert false;
    }
    var i, j :| 0 <= i < j < |p| && p[i] == p[j];
    var q := p[i..j + 1];
    forall k | 0 <= k < |q| - 1 ensures q[k + 1] in g[q[k]] {
      assert p[i + k + 1] in g[p[i + k]];
    }
    n := p[i];
    assert PathFromTo(g, q, n, n);
  }

  lemma AcyclicBoundsChains(g: Graph, n: string)
    requires Resolved(g) && Acyclic(g) && n in g
    ensures !Chain(g, n, |g.Keys|)
  {
    if Chain(g, n, |g.Keys|) {
      var p := ChainWalk(g, n, |g.Keys|);
      var m := LongWalkHasCycle(g, p, g.Keys);
      assert false;
    }
  }

  /** From a node on a cycle there are chains of every length. */
  lemma {:induction false} CycleChains(g: Graph, n: string, k: nat)
    requires Resolved(g) && n in g && Reaches(g, n, n)
    ensures Chain(g, n, k)
    decreases k
  {
    var p :| PathFromTo(g, p, n, n);
    if k < |p| {
      WalkChain(g, p);
      ChainShorter(g, n, k, |p| - 1);
    } else {
      CycleChains(g, n, k - (|p| - 1));
      var q := ChainWalk(g, n, k - (|p| - 1));
      WalkChain(g, p + q[1..]);
    }
  }

  /** In a finite graph: no cycle exactly when every dependency chain is shorter than the graph. */
  lemma AcyclicIffChainsBounded(g: Graph)
    requires Resolved(g)
    ensures Acyclic(g) <==> forall n :: n in g ==> !Chain(g, n, |g.Keys|)
  {
    if Acyclic(g) {
      forall n | n in g ensures !Chain(g, n, |g.Keys|) {
        AcyclicBoundsChains(g, n);
      }
    } else {
      var n :| n in g && Reaches(g, n, n);
      CycleChains(g, n, |g.Keys|);
    }
  }

  /** In an acyclic graph every node has a depth. */
  lemma {:induction false} DepthExists(g: Graph, n: string, bound: nat) returns (k: nat)
    requires Resolved(g) && n in g && !Chain(g, n, bound)
    ensures k < bound && HasDepth(g, n, k)
    decreases bound
  {
    if Chain(g, n, bound - 1) {
      k := bound - 1;
    } else {
      k := DepthExists(g, n, bound - 1);
    }
  }

  /** A dependency is at least one layer below the node that names it. */
  lemma DependencyIsShallower(g: Graph, n: string, d: string, j: nat, k: nat)
    requires Resolved(g) && n in g && d in g[n]
    requires HasDepth(g, n, k) && HasDepth(g, d, j)
    ensures j < k
  {
    if j >= k {
      assert Chain(g, n, j + 1);
      ChainShorter(g, n, k + 1, j + 1);
    }
  }

  /** Some dependency of `n` lies in `s`. */
  ghost predicate DependsInto(g: Graph, n: string, s: set<string>)
    requires n in g
  {
    exists d :: d in g[n] && d in s
  }

  /** A nonempty set whose members all depend into the set contains a cycle. */
  lemma StuckSetHasCycle(g: Graph, s: set<string>) returns (n: string)
    requires Resolved(g) && s <= g.Keys && s != {}
    requires forall m {:trigger DependsInto(g, m, s)} :: m in s ==> DependsInto(g, m, s)
    ensures n in s && Reaches(g, n, n)
    ensures !Acyclic(g)
  {
    var m :| m in s;
    var p := WalkInside(g, s, m, |s|);
    n := LongWalkHasCycle(g, p, s);
  }

  lemma {:induction false} WalkInside(g: Graph, s: set<string>, n: string, k: nat) returns (p: seq<string>)
    requires Resolved(g) && s <= g.Keys && n in s
    requires forall m {:trigger DependsInto(g, m, s)} :: m in s ==> DependsInto(g, m, s)
    ensures IsPath(g, p) && p[0] == n && |p| == k + 1
    ensures forall i :: 0 <= i < |p| ==> p[i] in s
    decreases k
  {
    if k == 0 {
      p := [n];
    } else {
      assert DependsInto(g, n, s);
      var d :| d in g[n] && d in s;
      var q := WalkInside(g, s, d, k - 1);
      p := [n] + q;
      forall i | 0 <= i < |p| - 1 ensures p[i + 1] in g[p[i]] {
        if i > 0 { assert q[i] in g[q[i - 1]]; }
      }
    }
  }
}
