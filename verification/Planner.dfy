/** The planner's stable topological sort and the launch action it injects before sorting. */
module Planner {
  import opened Wrappers
  import opened Types
  import opened StageGraph
  import opened Order

  ghost predicate UniqueIds(actions: seq<SemanticAction>) {
    forall i, j :: 0 <= i < j < |actions| ==> actions[i].id != actions[j].id
  }

  ghost predicate EdgesResolve(actions: seq<SemanticAction>) {
    forall i, d {:trigger d in actions[i].dependsOn, HasId(actions, d)} ::
      0 <= i < |actions| && d in actions[i].dependsOn ==> HasId(actions, d)
  }

  predicate HasId(actions: seq<SemanticAction>, id: string) {
    exists i :: 0 <= i < |actions| && actions[i].id == id
  }

  function Dependencies(a: SemanticAction): set<string> {
    set d | d in a.dependsOn
  }

  function GraphOf(actions: seq<SemanticAction>): Graph {
    if actions == [] then map[]
    else
      var last := actions[|actions| - 1];
      GraphOf(actions[..|actions| - 1])[last.id := Dependencies(last)]
  }

  /** `g` has exactly the actions' ids as nodes and their dependencies as edges. */
  ghost predicate Models(g: Graph, actions: seq<SemanticAction>) {
    && (forall i :: 0 <= i < |actions| ==> actions[i].id in g && g[actions[i].id] == Dependencies(actions[i]))
    && (forall n :: n in g ==> HasId(actions, n))
  }

  lemma {:induction false} GraphModels(actions: seq<SemanticAction>)
    requires UniqueIds(actions)
    ensures Models(GraphOf(actions), actions)
  {
    if actions != [] {
      var front := actions[..|actions| - 1];
      GraphModels(front);
      var g := GraphOf(actions);
      forall n | n in g ensures HasId(actions, n) {
        if n == actions[|actions| - 1].id {
        } else {
          assert HasId(front, n);
          var i :| 0 <= i < |front| && front[i].id == n;
          assert actions[i].id == n;
        }
      }
      forall i | 0 <= i < |actions| ensures actions[i].id in g && g[actions[i].id] == Dependencies(actions[i]) {
        if i < |front| { assert front[i] == actions[i]; }
      }
    }
  }

  lemma ResolvedEdges(g: Graph, actions: seq<SemanticAction>)
    requires Models(g, actions)
    ensures EdgesResolve(actions) <==> Resolved(g)
  {
    if Resolved(g) {
      forall i, d | 0 <= i < |actions| && d in actions[i].dependsOn ensures HasId(actions, d) {
        assert d in g[actions[i].id];
      }
    }
    if EdgesResolve(actions) {
      forall n | n in g ensures g[n] <= g.Keys {
        assert HasId(actions, n);
        var i :| 0 <= i < |actions| && actions[i].id == n;
        forall d | d in g[n] ensures d in g.Keys {
          assert HasId(actions, d);
        }
      }
    }
  }

  /** What an action list must be for the planner to accept it. */
  ghost predicate Orderable(actions: seq<SemanticAction>) {
    UniqueIds(actions) && EdgesResolve(actions) && Acyclic(GraphOf(actions))
  }

  /** The longest dependency chain below an action. */
  ghost function Depth(actions: seq<SemanticAction>, a: SemanticAction): (k: nat)
    requires Orderable(actions) && a in actions
    ensures a.id in GraphOf(actions) && Resolved(GraphOf(actions))
    ensures HasDepth(GraphOf(actions), a.id, k)
  {
    GraphModels(actions);
    ResolvedEdges(GraphOf(actions), actions);
    DepthDefined(GraphOf(actions), a.id);
    var k: nat :| HasDepth(GraphOf(actions), a.id, k);
    k
  }

  lemma DepthDefined(g: Graph, n: string)
    requires Resolved(g) && n in g && Acyclic(g)
    ensures exists k: nat :: HasDepth(g, n, k)
  {
    AcyclicBoundsChains(g, n);
    var k := DepthExists(g, n, |g.Keys|);
  }

  ghost function Position(actions: seq<SemanticAction>, a: SemanticAction): (i: nat)
    requires a in actions
    ensures i < |actions| && actions[i] == a
  {
    var i: nat :| i < |actions| && actions[i] == a;
    i
  }

  /** Shallower first; within one depth, authored order. */
  ghost predicate Before(actions: seq<SemanticAction>, a: SemanticAction, b: SemanticAction)
    requires Orderable(actions)
  {
    && a in actions && b in actions
    && (|| Depth(actions, a) < Depth(actions, b)
        || (Depth(actions, a) == Depth(actions, b) && Position(actions, a) < Position(actions, b)))
  }

  /** `out` is the rearrangement of `actions` sorted by (longest dependency depth, authored position). */
  ghost predicate IsOrderOf(actions: seq<SemanticAction>, out: seq<SemanticAction>)
    requires Orderable(actions)
  {
    && Permutation(out, actions)
    && (forall i, j :: 0 <= i < j < |out| ==> Before(actions, out[i], out[j]))
  }

  datatype OrderError =
    | DuplicateStage(id: string)
    | MissingDependencies(id: string)
    | StageCycle(involved: set<string>)

  /** `n` lies on a cycle or depends on one. */
  ghost predicate LeadsToCycle(g: Graph, n: string) {
    exists c :: Reaches(g, c, c) && (c == n || Reaches(g, n, c))
  }

  // ---------- the sort ----------

  method DependencyOrder(actions: seq<SemanticAction>) returns (r: Result<seq<SemanticAction>, OrderError>)
    ensures r.Ok? <==> Orderable(actions)
    ensures r.Ok? ==> IsOrderOf(actions, r.value)
    ensures r.Err? && r.error.DuplicateStage? ==> !UniqueIds(actions)
    ensures r.Err? && r.error.MissingDependencies? ==> UniqueIds(actions) && !EdgesResolve(actions)
    ensures r.Err? && r.error.StageCycle? ==>
              && UniqueIds(actions) && EdgesResolve(actions)
              && r.error.involved != {}
              && r.error.involved == set n | n in GraphOf(actions) && LeadsToCycle(GraphOf(actions), n)
  {
    var checked := CheckIds(actions);
    if checked.Err? {
      return Err(checked.error);
    }
    ghost var g := GraphOf(actions);
    GraphModels(actions);
    ResolvedEdges(g, actions);
    var ordered: seq<SemanticAction> := [];
    var emitted: set<string> := {};
    ghost var places: seq<nat>, depths: seq<nat> := [], [];
    ghost var round: nat := 0;
    while |ordered| < |actions|
      invariant Progress(g, actions, ordered, emitted, places, depths, round)
      decreases |actions| - |ordered|
    {
      var ready := ReadyPositions(actions, emitted);
      if ready == [] {
        var involved := (set i | 0 <= i < |actions| :: actions[i].id) - emitted;
        StuckIsCyclic(g, actions, emitted, places, round, involved);
        return Err(StageCycle(involved));
      }
      ghost var emittedBefore, placesBefore := emitted, places;
      LayerDepths(g, actions, ordered, emitted, places, depths, round, ready);
      ordered, emitted, places, depths := EmitLayer(g, actions, ready, ordered, emitted, places, depths, round);
      LayerEmitted(g, actions, emittedBefore, placesBefore, round, ready);
      round := round + 1;
    }
    AllPlaced(g, actions, ordered, emitted, places, depths, round);
    return Ok(ordered);
  }

  /** The duplicate and missing-edge checks that precede the sort. */
  method CheckIds(actions: seq<SemanticAction>) returns (r: Result<(), OrderError>)
    ensures r.Ok? <==> UniqueIds(actions) && EdgesResolve(actions)
    ensures r.Err? ==> !r.error.StageCycle?
    ensures r.Err? && r.error.DuplicateStage? ==> !UniqueIds(actions)
    ensures r.Err? && r.error.MissingDependencies? ==> UniqueIds(actions) && !EdgesResolve(actions)
  {
    var byId: map<string, nat> := map[];
    for index := 0 to |actions|
      invariant forall i :: 0 <= i < index ==> actions[i].id in byId && byId[actions[i].id] == i
      invariant forall n :: n in byId ==> byId[n] < index && actions[byId[n]].id == n
      invariant forall i, j :: 0 <= i < j < index ==> actions[i].id != actions[j].id
    {
      if actions[index].id in byId {
        ghost var first := byId[actions[index].id];
        assert actions[first].id == actions[index].id;
        return Err(DuplicateStage(actions[index].id));
      }
      byId := byId[actions[index].id := index];
    }
    for index := 0 to |actions|
      invariant forall i, d :: 0 <= i < index && d in actions[i].dependsOn ==> HasId(actions, d)
    {
      if exists d :: d in actions[index].dependsOn && d !in byId {
        ghost var d :| d in actions[index].dependsOn && d !in byId;
        assert !HasId(actions, d);
        return Err(MissingDependencies(actions[index].id));
      }
      forall d | d in actions[index].dependsOn ensures HasId(actions, d) {
        assert d in byId && actions[byId[d]].id == d;
      }
    }
    return Ok(());
  }

  predicate IsReady(a: SemanticAction, emitted: set<string>) {
    a.id !in emitted && forall d :: d in a.dependsOn ==> d in emitted
  }

  /**
   The positions whose action is not emitted yet and waits for nothing outside `emitted`.
   The program walks a dictionary filled in authored order, so its sort by position is already met.
   */
  method ReadyPositions(actions: seq<SemanticAction>, emitted: set<string>) returns (ready: seq<nat>)
    ensures IsReadyList(actions, emitted, ready)
  {
    ready := [];
    for i := 0 to |actions|
      invariant forall k :: 0 <= k < |ready| ==> ready[k] < i
      invariant forall k, l :: 0 <= k < l < |ready| ==> ready[k] < ready[l]
      invariant forall j :: 0 <= j < i ==> (j in ready <==> IsReady(actions[j], emitted))
    {
      if IsReady(actions[i], emitted) {
        ready := ready + [i];
      }
    }
  }

  ghost predicate IsReadyList(actions: seq<SemanticAction>, emitted: set<string>, ready: seq<nat>) {
    && (forall k :: 0 <= k < |ready| ==> ready[k] < |actions|)
    && (forall k, l :: 0 <= k < l < |ready| ==> ready[k] < ready[l])
    && (forall i :: 0 <= i < |actions| ==> (i in ready <==> IsReady(actions[i], emitted)))
  }

  /** `ordered` lists the actions at `places`, each with its depth, in strictly increasing order. */
  ghost predicate Placed(g: Graph, actions: seq<SemanticAction>, ordered: seq<SemanticAction>,
                         places: seq<nat>, depths: seq<nat>)
    requires Models(g, actions) && Resolved(g)
  {
    && |places| == |ordered| == |depths|
    && (forall i :: 0 <= i < |places| ==> places[i] < |actions| && ordered[i] == actions[places[i]])
    && (forall i :: 0 <= i < |places| ==> HasDepth(g, actions[places[i]].id, depths[i]))
    && (forall i, j :: 0 <= i < j < |places| ==>
                         depths[i] < depths[j] || (depths[i] == depths[j] && places[i] < places[j]))
  }

  /** The ids in `emitted` are those of the actions at `places`. */
  ghost predicate EmittedAt(actions: seq<SemanticAction>, emitted: set<string>, places: seq<nat>) {
    && (forall i :: 0 <= i < |actions| ==> (actions[i].id in emitted <==> i in places))
    && (forall n :: n in emitted ==> HasId(actions, n))
  }

  /** After `round` rounds exactly the actions without a chain of `round` dependencies are placed. */
  ghost predicate Progress(g: Graph, actions: seq<SemanticAction>, ordered: seq<SemanticAction>, emitted: set<string>,
                           places: seq<nat>, depths: seq<nat>, round: nat) {
    && Models(g, actions) && Resolved(g) && UniqueIds(actions)
    && Placed(g, actions, ordered, places, depths)
    && EmittedAt(actions, emitted, places)
    && (forall i :: 0 <= i < |depths| ==> depths[i] < round)
    && LayersDone(g, actions, places, round)
  }

  ghost predicate LayersDone(g: Graph, actions: seq<SemanticAction>, places: seq<nat>, round: nat)
    requires Models(g, actions) && Resolved(g)
  {
    forall i :: 0 <= i < |actions| ==> (i in places <==> !Chain(g, actions[i].id, round))
  }

  lemma PlacedExtend(g: Graph, actions: seq<SemanticAction>, ordered: seq<SemanticAction>, emitted: set<string>,
                     places: seq<nat>, depths: seq<nat>, place: nat, depth: nat)
    requires Models(g, actions) && Resolved(g) && UniqueIds(actions)
    requires Placed(g, actions, ordered, places, depths) && EmittedAt(actions, emitted, places)
    requires place < |actions| && HasDepth(g, actions[place].id, depth)
    requires forall i :: 0 <= i < |places| ==> depths[i] < depth || (depths[i] == depth && places[i] < place)
    ensures Placed(g, actions, ordered + [actions[place]], places + [place], depths + [depth])
    ensures EmittedAt(actions, emitted + {actions[place].id}, places + [place])
  {
    forall i | 0 <= i < |actions|
      ensures actions[i].id in emitted + {actions[place].id} <==> i in places + [place]
    {
      assert i != place ==> actions[i].id != actions[place].id;
    }
    assert HasId(actions, actions[place].id);
  }

  /** What is placed so far comes before the next position of the layer. */
  lemma LayerFollows(places0: seq<nat>, ready: seq<nat>, k: nat, depths: seq<nat>, earlier: nat, round: nat)
    requires k < |ready| && |places0| == earlier && |depths| == earlier + k
    requires forall i, j :: 0 <= i < j < |ready| ==> ready[i] < ready[j]
    requires forall i :: 0 <= i < earlier ==> depths[i] < round
    requires forall i :: earlier <= i < |depths| ==> depths[i] == round
    ensures var places := places0 + ready[..k];
            forall i :: 0 <= i < |places| ==> depths[i] < round || (depths[i] == round && places[i] < ready[k])
  {
  }

  /** The depths of earlier layers, followed by `k` places of this one. */
  ghost predicate InLayer(depths: seq<nat>, before: nat, k: nat, round: nat) {
    && |depths| == before + k
    && (forall i :: 0 <= i < before ==> depths[i] < round)
    && (forall i :: before <= i < |depths| ==> depths[i] == round)
  }

  lemma EmitStep(g: Graph, actions: seq<SemanticAction>, ready: seq<nat>, k: nat, ordered: seq<SemanticAction>,
                 emitted: set<string>, places0: seq<nat>, places: seq<nat>, depths: seq<nat>, before: nat, round: nat)
    requires Models(g, actions) && Resolved(g) && UniqueIds(actions)
    requires Placed(g, actions, ordered, places, depths) && EmittedAt(actions, emitted, places)
    requires k < |ready| && ready[k] < |actions| && HasDepth(g, actions[ready[k]].id, round)
    requires forall i, l :: 0 <= i < l < |ready| ==> ready[i] < ready[l]
    requires places == places0 + ready[..k] && |places0| == before && InLayer(depths, before, k, round)
    ensures Placed(g, actions, ordered + [actions[ready[k]]], places + [ready[k]], depths + [round])
    ensures EmittedAt(actions, emitted + {actions[ready[k]].id}, places + [ready[k]])
    ensures places + [ready[k]] == places0 + ready[..k + 1] && InLayer(depths + [round], before, k + 1, round)
  {
    LayerFollows(places0, ready, k, depths, before, round);
    PlacedExtend(g, actions, ordered, emitted, places, depths, ready[k], round);
  }

  method EmitLayer(ghost g: Graph, actions: seq<SemanticAction>, ready: seq<nat>,
                   ordered0: seq<SemanticAction>, emitted0: set<string>,
                   ghost places0: seq<nat>, ghost depths0: seq<nat>, ghost round: nat)
    returns (ordered: seq<SemanticAction>, emitted: set<string>, ghost places: seq<nat>, ghost depths: seq<nat>)
    requires Models(g, actions) && Resolved(g) && UniqueIds(actions)
    requires Placed(g, actions, ordered0, places0, depths0) && EmittedAt(actions, emitted0, places0)
    requires forall i :: 0 <= i < |depths0| ==> depths0[i] < round
    requires forall k :: 0 <= k < |ready| ==> ready[k] < |actions|
    requires forall k, l :: 0 <= k < l < |ready| ==> ready[k] < ready[l]
    requires forall k :: 0 <= k < |ready| ==> HasDepth(g, actions[ready[k]].id, round)
    ensures Placed(g, actions, ordered, places, depths) && EmittedAt(actions, emitted, places)
    ensures forall i :: 0 <= i < |depths| ==> depths[i] <= round
    ensures places == places0 + ready && |ordered| == |ordered0| + |ready|
  {
    ordered, emitted, places, depths := ordered0, emitted0, places0, depths0;
    for k := 0 to |ready|
      invariant Placed(g, actions, ordered, places, depths) && EmittedAt(actions, emitted, places)
      invariant places == places0 + ready[..k]
      invariant InLayer(depths, |depths0|, k, round)
    {
      EmitStep(g, actions, ready, k, ordered, emitted, places0, places, depths, |depths0|, round);
      ordered := ordered + [actions[ready[k]]];
      emitted := emitted + {actions[ready[k]].id};
      places := places + [ready[k]];
      depths := depths + [round];
    }
    assert ready[..|ready|] == ready;
  }

  /** An action whose dependencies are all emitted, and that is not, has depth `round`. */
  lemma LayerDepths(g: Graph, actions: seq<SemanticAction>, ordered: seq<SemanticAction>, emitted: set<string>,
                    places: seq<nat>, depths: seq<nat>, round: nat, ready: seq<nat>)
    requires Progress(g, actions, ordered, emitted, places, depths, round)
    requires IsReadyList(actions, emitted, ready)
    ensures forall k :: 0 <= k < |ready| ==> HasDepth(g, actions[ready[k]].id, round)
  {
    forall k | 0 <= k < |ready| ensures HasDepth(g, actions[ready[k]].id, round) {
      var i := ready[k];
      assert i in ready && IsReady(actions[i], emitted);
      DependenciesDecideChain(g, actions, emitted, places, round, i);
    }
  }

  lemma DependenciesDecideChain(g: Graph, actions: seq<SemanticAction>, emitted: set<string>, places: seq<nat>,
                                round: nat, i: nat)
    requires Models(g, actions) && Resolved(g)
    requires EmittedAt(actions, emitted, places) && LayersDone(g, actions, places, round)
    requires i < |actions|
    ensures Chain(g, actions[i].id, round + 1) <==> exists d :: d in actions[i].dependsOn && d !in emitted
  {
    var n := actions[i].id;
    forall d | d in g[n] ensures Chain(g, d, round) <==> d !in emitted {
      assert HasId(actions, d);
      var j :| 0 <= j < |actions| && actions[j].id == d;
      assert j in places <==> !Chain(g, actions[j].id, round);
    }
    forall d | d in actions[i].dependsOn && d !in emitted ensures Chain(g, n, round + 1) {
      assert d in g[n] && Chain(g, d, round);
    }
    if Chain(g, n, round + 1) {
      var d :| d in g[n] && Chain(g, d, round);
      assert d in actions[i].dependsOn && d !in emitted;
    }
  }

  lemma LayerEmitted(g: Graph, actions: seq<SemanticAction>, emitted: set<string>, places: seq<nat>, round: nat,
                     ready: seq<nat>)
    requires Models(g, actions) && Resolved(g)
    requires EmittedAt(actions, emitted, places) && LayersDone(g, actions, places, round)
    requires IsReadyList(actions, emitted, ready)
    ensures LayersDone(g, actions, places + ready, round + 1)
  {
    forall i | 0 <= i < |actions| ensures i in places + ready <==> !Chain(g, actions[i].id, round + 1) {
      DependenciesDecideChain(g, actions, emitted, places, round, i);
      assert i in ready <==> IsReady(actions[i], emitted);
      if Chain(g, actions[i].id, round + 1) {
        ChainShorter(g, actions[i].id, round, round + 1);
      }
    }
  }

  lemma StuckIsCyclic(g: Graph, actions: seq<SemanticAction>, emitted: set<string>,
                      places: seq<nat>, round: nat, involved: set<string>)
    requires Models(g, actions) && Resolved(g)
    requires EmittedAt(actions, emitted, places) && LayersDone(g, actions, places, round)
    requires IsReadyList(actions, emitted, []) && |places| < |actions|
    requires involved == (set i | 0 <= i < |actions| :: actions[i].id) - emitted
    ensures involved != {} && involved == set n | n in g && LeadsToCycle(g, n)
    ensures !Acyclic(g)
  {
    var missed := FewMissSome(places, |actions|);
    assert actions[missed].id in involved;
    InvolvedAreStuck(g, actions, emitted, involved);
    forall m | m in g ensures m in involved <==> LeadsToCycle(g, m) {
      if m in involved {
        StuckLeadsToCycle(g, involved, m);
      } else if LeadsToCycle(g, m) {
        InvolvedHoldsCycles(g, actions, emitted, places, round, m);
      }
    }
    var s := StuckSetHasCycle(g, involved);
  }

  lemma InvolvedAreStuck(g: Graph, actions: seq<SemanticAction>, emitted: set<string>, involved: set<string>)
    requires Models(g, actions) && Resolved(g)
    requires IsReadyList(actions, emitted, [])
    requires involved == (set i | 0 <= i < |actions| :: actions[i].id) - emitted
    ensures involved <= g.Keys
    ensures forall m {:trigger DependsInto(g, m, involved)} :: m in involved ==> DependsInto(g, m, involved)
  {
    forall m | m in involved ensures m in g && DependsInto(g, m, involved) {
      var i :| 0 <= i < |actions| && actions[i].id == m;
      assert i !in [] && !IsReady(actions[i], emitted);
      var d :| d in actions[i].dependsOn && d !in emitted;
      assert d in g[m] && HasId(actions, d);
    }
  }

  lemma InvolvedHoldsCycles(g: Graph, actions: seq<SemanticAction>, emitted: set<string>, places: seq<nat>, round: nat,
                            m: string)
    requires Models(g, actions) && Resolved(g)
    requires EmittedAt(actions, emitted, places) && LayersDone(g, actions, places, round)
    requires m in g && LeadsToCycle(g, m)
    ensures m !in emitted && HasId(actions, m)
  {
    var c :| Reaches(g, c, c) && (c == m || Reaches(g, m, c));
    CycleChainsAbove(g, m, c, round);
    assert HasId(actions, m);
    var i :| 0 <= i < |actions| && actions[i].id == m;
    assert i !in places;
  }

  lemma StuckLeadsToCycle(g: Graph, s: set<string>, n: string)
    requires Resolved(g) && s <= g.Keys && n in s
    requires forall m {:trigger DependsInto(g, m, s)} :: m in s ==> DependsInto(g, m, s)
    ensures LeadsToCycle(g, n)
  {
    var reached := set m | m in s && Reaches(g, n, m);
    assert DependsInto(g, n, s);
    var d :| d in g[n] && d in s;
    EdgeReaches(g, n, d);
    assert d in reached;
    forall m | m in reached ensures DependsInto(g, m, reached) {
      assert DependsInto(g, m, s);
      var e :| e in g[m] && e in s;
      EdgeReaches(g, m, e);
      ReachesTransitive(g, n, m, e);
      assert e in reached;
    }
    var c := StuckSetHasCycle(g, reached);
    assert Reaches(g, c, c) && Reaches(g, n, c);
  }

  lemma CycleChainsAbove(g: Graph, n: string, c: string, k: nat)
    requires Resolved(g) && n in g
    requires Reaches(g, c, c) && (c == n || Reaches(g, n, c))
    ensures Chain(g, n, k)
  {
    if c == n {
      CycleChains(g, n, k);
    } else {
      var p :| PathFromTo(g, p, n, c);
      CycleChains(g, c, k);
      var q := ChainWalk(g, c, k);
      WalkChain(g, p + q[1..]);
      ChainShorter(g, n, k, |p| + k - 1);
    }
  }

  lemma AllPlaced(g: Graph, actions: seq<SemanticAction>, ordered: seq<SemanticAction>, emitted: set<string>,
                  places: seq<nat>, depths: seq<nat>, round: nat)
    requires g == GraphOf(actions) && EdgesResolve(actions)
    requires Progress(g, actions, ordered, emitted, places, depths, round)
    requires |ordered| >= |actions|
    ensures Orderable(actions) && IsOrderOf(actions, ordered)
  {
    forall i, j | 0 <= i < j < |places| ensures places[i] != places[j] {
      if places[i] == places[j] { DepthUnique(g, ordered[i].id, depths[i], depths[j]); }
    }
    PlacesCover(places, |actions|);
    forall n | n in g ensures !Reaches(g, n, n) {
      assert HasId(actions, n);
      if Reaches(g, n, n) { CycleChains(g, n, round); }
    }
    OrderedPermutes(actions, ordered, places);
    forall i, j | 0 <= i < j < |ordered| ensures Before(actions, ordered[i], ordered[j]) {
      PlacedBefore(g, actions, ordered, places, depths, i, j);
    }
  }

  lemma PlacedBefore(g: Graph, actions: seq<SemanticAction>, ordered: seq<SemanticAction>,
                     places: seq<nat>, depths: seq<nat>, i: nat, j: nat)
    requires Orderable(actions) && g == GraphOf(actions) && Models(g, actions) && Resolved(g)
    requires Placed(g, actions, ordered, places, depths) && i < j < |ordered|
    ensures Before(actions, ordered[i], ordered[j])
  {
    assert ordered[i] in actions && ordered[j] in actions;
    DepthUnique(g, ordered[i].id, depths[i], Depth(actions, ordered[i]));
    DepthUnique(g, ordered[j].id, depths[j], Depth(actions, ordered[j]));
    assert Position(actions, ordered[i]) == places[i] && Position(actions, ordered[j]) == places[j];
  }

  lemma PlacesCover(places: seq<nat>, n: nat)
    requires NoRepeats(places) && |places| >= n
    requires forall k :: 0 <= k < |places| ==> places[k] < n
    ensures forall i :: 0 <= i < n ==> i in places
  {
    MembersSize(places);
    BelowSize(n);
    assert Members(places) <= Below(n);
    SubsetSize(Members(places), Below(n));
    ManyCoverAll(places, n);
  }

  lemma OrderedPermutes(actions: seq<SemanticAction>, ordered: seq<SemanticAction>, places: seq<nat>)
    requires UniqueIds(actions) && NoRepeats(places) && |places| == |ordered|
    requires forall k :: 0 <= k < |places| ==> places[k] < |actions| && ordered[k] == actions[places[k]]
    requires forall i :: 0 <= i < |actions| ==> i in places
    ensures Permutation(ordered, actions)
  {
    forall a | a in actions ensures a in ordered {
      var i :| 0 <= i < |actions| && actions[i] == a;
      assert i in places;
      var k :| 0 <= k < |places| && places[k] == i;
      assert ordered[k] == a;
    }
    forall i, j | 0 <= i < j < |ordered| ensures ordered[i] != ordered[j] {
      assert places[i] != places[j];
    }
    SameMembersPermute(ordered, actions);
  }

  // ---------- what the order means ----------

  /** Only one sequence meets the specification, so the sort is deterministic. */
  lemma OrderIsUnique(actions: seq<SemanticAction>, s: seq<SemanticAction>, t: seq<SemanticAction>)
    requires Orderable(actions) && IsOrderOf(actions, s) && IsOrderOf(actions, t)
    ensures s == t
  {
    var before := (a, b) => Orderable(actions) && Before(actions, a, b);
    assert Increasing(before, s) by {
      forall i, j | 0 <= i < j < |s| ensures before(s[i], s[j]) {
        assert Before(actions, s[i], s[j]);
      }
    }
    assert Increasing(before, t) by {
      forall i, j | 0 <= i < j < |t| ensures before(t[i], t[j]) {
        assert Before(actions, t[i], t[j]);
      }
    }
    IncreasingUnique(before, s, t);
  }

  /** Every action comes after all of its dependencies. */
  lemma DependenciesComeFirst(actions: seq<SemanticAction>, out: seq<SemanticAction>, j: nat, d: string)
    requires Orderable(actions) && IsOrderOf(actions, out)
    requires j < |out| && d in out[j].dependsOn
    ensures exists i :: 0 <= i < j && out[i].id == d
  {
    PermutationMembers(out, actions);
    assert out[j] in out;
    assert out[j] in actions;
    var p := Position(actions, out[j]);
    assert HasId(actions, d);
    var q :| 0 <= q < |actions| && actions[q].id == d;
    assert actions[q] in out;
    var i :| 0 <= i < |out| && out[i] == actions[q];
    GraphModels(actions);
    DependencyIsShallower(GraphOf(actions), out[j].id, d, Depth(actions, out[i]), Depth(actions, out[j]));
    assert i != j;
  }

  lemma PermutedUnique(actions: seq<SemanticAction>, out: seq<SemanticAction>)
    requires UniqueIds(actions) && Permutation(out, actions)
    ensures UniqueIds(out)
  {
    PermutationMembers(out, actions);
    assert NoRepeats(actions);
    PermutationKeepsNoRepeats(actions, out);
    forall i, j | 0 <= i < j < |out| ensures out[i].id != out[j].id {
      assert out[i] in out && out[j] in out;
      var p, q := Position(actions, out[i]), Position(actions, out[j]);
      assert p != q;
    }
  }

  lemma PermutedGraph(actions: seq<SemanticAction>, out: seq<SemanticAction>)
    requires UniqueIds(actions) && Permutation(out, actions)
    ensures UniqueIds(out) && GraphOf(out) == GraphOf(actions)
    ensures EdgesResolve(actions) ==> EdgesResolve(out)
  {
    PermutedUnique(actions, out);
    PermutationMembers(out, actions);
    GraphModels(actions);
    GraphModels(out);
    var g, h := GraphOf(actions), GraphOf(out);
    forall n ensures n in g <==> n in h {
      if n in g {
        assert HasId(actions, n);
        var i :| 0 <= i < |actions| && actions[i].id == n;
        assert actions[i] in out;
      }
      if n in h {
        assert HasId(out, n);
        var i :| 0 <= i < |out| && out[i].id == n;
        assert out[i] in out;
        assert out[i] in actions;
      }
    }
    forall n | n in g ensures g[n] == h[n] {
      assert HasId(actions, n);
      var i :| 0 <= i < |actions| && actions[i].id == n;
      assert actions[i] in out;
      var j :| 0 <= j < |out| && out[j] == actions[i];
    }
    ResolvedEdges(g, actions);
    ResolvedEdges(h, out);
  }

  /** Sorting a sorted list changes nothing. */
  lemma OrderIsIdempotent(actions: seq<SemanticAction>, out: seq<SemanticAction>)
    requires Orderable(actions) && IsOrderOf(actions, out)
    ensures Orderable(out) && IsOrderOf(out, out)
  {
    PermutedGraph(actions, out);
    PermutationMembers(out, actions);
    forall i, j | 0 <= i < j < |out| ensures Before(out, out[i], out[j]) {
      assert Before(actions, out[i], out[j]);
      assert out[i] in out && out[j] in out;
      var g := GraphOf(actions);
      DepthUnique(g, out[i].id, Depth(actions, out[i]), Depth(out, out[i]));
      DepthUnique(g, out[j].id, Depth(actions, out[j]), Depth(out, out[j]));
      assert Position(out, out[i]) == i && Position(out, out[j]) == j;
    }
  }

  // ---------- launch injection ----------

  const LAUNCH_ID := "launch-solver"

  function LaunchAction(): SemanticAction {
    SemanticAction(LAUNCH_ID, LaunchSolver, [], [], [], 1, None, [], None, None)
  }

  predicate HasLaunch(actions: seq<SemanticAction>) {
    exists i :: 0 <= i < |actions| && actions[i].kind.LaunchSolver?
  }

  /** The launch has to be injected, and its id is free. */
  predicate Injectable(actions: seq<SemanticAction>) {
    !HasLaunch(actions) && !HasId(actions, LAUNCH_ID)
  }

  /** An authored root action waits for the injected launch. */
  function AfterLaunch(a: SemanticAction): SemanticAction {
    if a.dependsOn == [] then a.(dependsOn := [LAUNCH_ID]) else a
  }

  function AllAfterLaunch(actions: seq<SemanticAction>): seq<SemanticAction> {
    seq(|actions|, i requires 0 <= i < |actions| => AfterLaunch(actions[i]))
  }

  function InjectLaunch(actions: seq<SemanticAction>): seq<SemanticAction> {
    if HasLaunch(actions) then actions else [LaunchAction()] + AllAfterLaunch(actions)
  }

  /**
   A list that launches the solver stays as it is.  Otherwise a launch comes first, with nothing to wait for and
   nothing to check, tried once; the actions that waited for nothing now wait for it, and no other changes.
   */
  lemma InjectionMeaning(actions: seq<SemanticAction>)
    ensures (exists a :: a in actions && a.kind == LaunchSolver) ==> InjectLaunch(actions) == actions
    ensures (forall a :: a in actions ==> a.kind != LaunchSolver) ==>
              var injected := InjectLaunch(actions);
              && |injected| == |actions| + 1
              && injected[0].id == "launch-solver" && injected[0].kind == LaunchSolver && injected[0].dependsOn == []
              && injected[0].maxAttempts == 1 && injected[0].preconditions == injected[0].postconditions == []
              && injected[0].gate == None && injected[0].namedGates == []
              && injected[0].checkpoint == None && injected[0].promoted == None
              && forall i :: 0 <= i < |actions| ==>
                injected[i + 1] == if actions[i].dependsOn == [] then actions[i].(dependsOn := ["launch-solver"])
                                   else actions[i]
  {
    if a :| a in actions && a.kind == LaunchSolver {
      var i :| 0 <= i < |actions| && actions[i] == a;
      assert actions[i].kind.LaunchSolver?;
    }
  }

  /** An authored stage that takes the injected id makes the injected list unsortable. */
  lemma TakenLaunchIdIsDuplicate(actions: seq<SemanticAction>)
    requires !HasLaunch(actions) && HasId(actions, LAUNCH_ID)
    ensures !UniqueIds(InjectLaunch(actions))
  {
    var i :| 0 <= i < |actions| && actions[i].id == LAUNCH_ID;
    var injected := InjectLaunch(actions);
    assert injected[0].id == injected[i + 1].id;
  }

  lemma InjectedIds(actions: seq<SemanticAction>)
    requires UniqueIds(actions) && Injectable(actions)
    ensures UniqueIds(InjectLaunch(actions))
    ensures |InjectLaunch(actions)| == |actions| + 1 && InjectLaunch(actions)[0] == LaunchAction()
    ensures forall i :: 0 <= i < |actions| ==> InjectLaunch(actions)[i + 1] == AfterLaunch(actions[i])
  {
    var injected := InjectLaunch(actions);
    forall i, j | 0 <= i < j < |injected| ensures injected[i].id != injected[j].id {
      assert injected[j].id == actions[j - 1].id;
      if i > 0 { assert injected[i].id == actions[i - 1].id; }
    }
  }

  lemma InjectedEdge(actions: seq<SemanticAction>, injected: seq<SemanticAction>, i: nat, d: string)
    requires EdgesResolve(actions) && i < |actions| && d in AfterLaunch(actions[i]).dependsOn
    requires injected == [LaunchAction()] + AllAfterLaunch(actions)
    ensures HasId(injected, d)
  {
    if actions[i].dependsOn == [] {
      assert injected[0].id == d;
    } else {
      assert HasId(actions, d);
      var j :| 0 <= j < |actions| && actions[j].id == d;
      assert injected[j + 1].id == d;
    }
  }

  lemma InjectedEdges(actions: seq<SemanticAction>)
    requires EdgesResolve(actions) && !HasLaunch(actions)
    ensures EdgesResolve(InjectLaunch(actions))
  {
    var injected := InjectLaunch(actions);
    forall i, d | 0 <= i < |injected| && d in injected[i].dependsOn ensures HasId(injected, d) {
      var k := i - 1;
      assert i > 0 && injected[i] == AfterLaunch(actions[k]);
      InjectedEdge(actions, injected, k, d);
    }
  }

  lemma InjectedGraph(actions: seq<SemanticAction>)
    requires UniqueIds(actions) && EdgesResolve(actions)
    requires Injectable(actions)
    ensures UniqueIds(InjectLaunch(actions)) && EdgesResolve(InjectLaunch(actions))
    ensures Models(GraphOf(actions), actions)
    ensures Models(GraphOf(InjectLaunch(actions)), InjectLaunch(actions))
    ensures IsInjected(GraphOf(actions), GraphOf(InjectLaunch(actions)))
  {
    InjectedIds(actions);
    InjectedEdges(actions);
    GraphModels(actions);
    GraphModels(InjectLaunch(actions));
    ResolvedEdges(GraphOf(actions), actions);
    ResolvedEdges(GraphOf(InjectLaunch(actions)), InjectLaunch(actions));
    InjectedNodes(actions, InjectLaunch(actions), GraphOf(actions), GraphOf(InjectLaunch(actions)));
  }

  lemma InjectedNodes(actions: seq<SemanticAction>, injected: seq<SemanticAction>, g: Graph, h: Graph)
    requires Models(g, actions) && Models(h, injected) && Resolved(g) && Resolved(h)
    requires !HasId(actions, LAUNCH_ID)
    requires |injected| == |actions| + 1 && injected[0] == LaunchAction()
    requires forall i {:trigger AfterLaunch(actions[i])} :: 0 <= i < |actions| ==>
               injected[i + 1] == AfterLaunch(actions[i])
    ensures IsInjected(g, h)
  {
    assert h[injected[0].id] == {};
    forall n | n in g ensures n in h && h[n] == if g[n] == {} then {LAUNCH_ID} else g[n] {
      InjectedNode(actions, injected, g, h, n);
    }
    forall n | n in h ensures n == LAUNCH_ID || n in g {
      InjectedOrigin(actions, injected, g, h, n);
    }
  }

  lemma InjectedOrigin(actions: seq<SemanticAction>, injected: seq<SemanticAction>, g: Graph, h: Graph, n: string)
    requires Models(g, actions) && Models(h, injected) && n in h
    requires |injected| == |actions| + 1 && injected[0] == LaunchAction()
    requires forall i {:trigger AfterLaunch(actions[i])} :: 0 <= i < |actions| ==>
               injected[i + 1] == AfterLaunch(actions[i])
    ensures n == LAUNCH_ID || n in g
  {
    assert HasId(injected, n);
    var i :| 0 <= i < |injected| && injected[i].id == n;
    if i > 0 {
      var k := i - 1;
      assert injected[k + 1] == AfterLaunch(actions[k]);
      assert HasId(actions, n);
    }
  }

  lemma InjectedNode(actions: seq<SemanticAction>, injected: seq<SemanticAction>, g: Graph, h: Graph, n: string)
    requires Models(g, actions) && Models(h, injected) && n in g
    requires |injected| == |actions| + 1
    requires forall i {:trigger AfterLaunch(actions[i])} :: 0 <= i < |actions| ==>
               injected[i + 1] == AfterLaunch(actions[i])
    ensures n in h && h[n] == if g[n] == {} then {LAUNCH_ID} else g[n]
  {
    assert HasId(actions, n);
    var i :| 0 <= i < |actions| && actions[i].id == n;
    var a, b := actions[i], injected[i + 1];
    assert b == AfterLaunch(a);
    assert h[b.id] == Dependencies(b) && g[a.id] == Dependencies(a);
    if a.dependsOn != [] {
      assert a.dependsOn[0] in Dependencies(a);
    }
  }

  /** `h` is `g` with a new root that all former roots depend on. */
  ghost predicate IsInjected(g: Graph, h: Graph) {
    && Resolved(g) && Resolved(h)
    && LAUNCH_ID !in g
    && h.Keys == g.Keys + {LAUNCH_ID}
    && h[LAUNCH_ID] == {}
    && (forall n :: n in g ==> h[n] == if g[n] == {} then {LAUNCH_ID} else g[n])
  }

  /** Injection puts one more layer under every authored action. */
  lemma {:induction false} InjectedChain(g: Graph, h: Graph, n: string, k: nat)
    requires IsInjected(g, h) && n in g
    ensures Chain(h, n, k + 1) <==> Chain(g, n, k)
    decreases k
  {
    if k == 0 {
      assert h[n] != {};
      var d :| d in h[n];
      assert Chain(h, d, 0);
    } else if g[n] == {} {
      assert !Chain(h, LAUNCH_ID, k);
    } else {
      forall d | d in g[n] ensures Chain(h, d, k) <==> Chain(g, d, k - 1) {
        InjectedChain(g, h, d, k - 1);
      }
    }
  }

  lemma InjectedAcyclic(g: Graph, h: Graph)
    requires IsInjected(g, h) && Acyclic(g)
    ensures Acyclic(h)
  {
    forall n | n in h ensures !Reaches(h, n, n) {
      if Reaches(h, n, n) {
        if n == LAUNCH_ID {
          CycleChains(h, n, 1);
        } else {
          CycleChains(h, n, |g.Keys| + 1);
          InjectedChain(g, h, n, |g.Keys|);
          AcyclicBoundsChains(g, n);
        }
      }
    }
  }

  lemma {:induction false} NodeNeedsLaunch(g: Graph, h: Graph, n: string, k: nat)
    requires IsInjected(g, h) && n in g && !Chain(g, n, k)
    ensures Reaches(h, n, LAUNCH_ID)
    decreases k
  {
    if g[n] == {} {
      EdgeReaches(h, n, LAUNCH_ID);
    } else {
      var d :| d in g[n];
      assert k > 0 && !Chain(g, d, k - 1);
      NodeNeedsLaunch(g, h, d, k - 1);
      EdgeReaches(h, n, d);
      ReachesTransitive(h, n, d, LAUNCH_ID);
    }
  }

  lemma InjectedDepth(g: Graph, h: Graph, n: string, k: nat)
    requires IsInjected(g, h) && n in g && HasDepth(g, n, k)
    ensures HasDepth(h, n, k + 1)
  {
    InjectedChain(g, h, n, k);
    InjectedChain(g, h, n, k + 1);
  }

  /** What sorts an action in the injected list: one layer deeper, one place later. */
  lemma InjectedPlace(actions: seq<SemanticAction>, injected: seq<SemanticAction>, a: SemanticAction)
    requires UniqueIds(actions) && Injectable(actions) && injected == InjectLaunch(actions)
    requires a in actions
    ensures AfterLaunch(a) in injected && Position(injected, AfterLaunch(a)) == Position(actions, a) + 1
  {
    InjectedIds(actions);
    var i := Position(actions, a);
    assert injected[i + 1] == AfterLaunch(a);
  }

  lemma InjectedKey(actions: seq<SemanticAction>, injected: seq<SemanticAction>, a: SemanticAction)
    requires Orderable(actions) && Injectable(actions) && injected == InjectLaunch(actions)
    requires a in actions
    ensures Orderable(injected) && AfterLaunch(a) in injected
    ensures Depth(injected, AfterLaunch(a)) == Depth(actions, a) + 1
    ensures Position(injected, AfterLaunch(a)) == Position(actions, a) + 1
  {
    InjectedOrderable(actions);
    InjectedPlace(actions, injected, a);
    var k := Depth(actions, a);
    InjectedDepth(GraphOf(actions), GraphOf(injected), a.id, k);
    DepthUnique(GraphOf(injected), a.id, k + 1, Depth(injected, AfterLaunch(a)));
  }

  /** Injection adds no cycle and leaves a list that the sort accepts. */
  lemma InjectedOrderable(actions: seq<SemanticAction>)
    requires Orderable(actions) && Injectable(actions)
    ensures Orderable(InjectLaunch(actions))
    ensures IsInjected(GraphOf(actions), GraphOf(InjectLaunch(actions)))
  {
    InjectedGraph(actions);
    InjectedAcyclic(GraphOf(actions), GraphOf(InjectLaunch(actions)));
  }

  /** Without an authored launch, injection keeps a sortable list sortable exactly if its id is not taken. */
  lemma InjectionSafeIff(actions: seq<SemanticAction>)
    requires Orderable(actions) && !HasLaunch(actions)
    ensures Orderable(InjectLaunch(actions)) <==> !HasId(actions, LAUNCH_ID)
  {
    if HasId(actions, LAUNCH_ID) {
      TakenLaunchIdIsDuplicate(actions);
    } else {
      InjectedOrderable(actions);
    }
  }

  /** Every authored action depends, directly or not, on the injected launch. */
  lemma EveryActionNeedsLaunch(actions: seq<SemanticAction>, a: SemanticAction)
    requires Orderable(actions) && Injectable(actions)
    requires a in actions
    ensures Reaches(GraphOf(InjectLaunch(actions)), a.id, LAUNCH_ID)
  {
    InjectedOrderable(actions);
    GraphModels(actions);
    AcyclicBoundsChains(GraphOf(actions), a.id);
    NodeNeedsLaunch(GraphOf(actions), GraphOf(InjectLaunch(actions)), a.id, |GraphOf(actions).Keys|);
  }

  /** Ordering the injected list gives the launch first and then the order of the authored list. */
  lemma InjectionCommutesWithOrder(actions: seq<SemanticAction>, out: seq<SemanticAction>)
    requires Orderable(actions) && Injectable(actions)
    requires IsOrderOf(actions, out)
    ensures Orderable(InjectLaunch(actions))
    ensures IsOrderOf(InjectLaunch(actions), [LaunchAction()] + AllAfterLaunch(out))
  {
    InjectedOrderable(actions);
    PermutedUnique(actions, out);
    InjectedPermutes(actions, out);
    PermutationMembers(out, actions);
    assert forall i :: 0 <= i < |out| ==> out[i] in out;
    InjectionKeepsBefore(actions, InjectLaunch(actions));
    InjectedSorted(actions, InjectLaunch(actions), out, [LaunchAction()] + AllAfterLaunch(out));
  }

  /** The launch comes before the injected form of `a`, and what preceded `a` still does. */
  ghost predicate KeepsBefore(actions: seq<SemanticAction>, injected: seq<SemanticAction>, b: SemanticAction,
                              a: SemanticAction)
    requires Orderable(actions) && Orderable(injected)
  {
    && Before(injected, LaunchAction(), AfterLaunch(a))
    && (Before(actions, b, a) ==> Before(injected, AfterLaunch(b), AfterLaunch(a)))
  }

  lemma InjectionKeepsBefore(actions: seq<SemanticAction>, injected: seq<SemanticAction>)
    requires Orderable(actions) && Injectable(actions) && injected == InjectLaunch(actions)
    ensures Orderable(injected)
    ensures forall a, b {:trigger KeepsBefore(actions, injected, b, a)} :: a in actions ==>
              KeepsBefore(actions, injected, b, a)
  {
    InjectedOrderable(actions);
    forall a, b | a in actions ensures KeepsBefore(actions, injected, b, a) {
      InjectedBefore(actions, injected, a, b);
    }
  }

  lemma InjectedSorted(actions: seq<SemanticAction>, injected: seq<SemanticAction>, out: seq<SemanticAction>,
                       result: seq<SemanticAction>)
    requires Orderable(actions) && Orderable(injected)
    requires forall a, b {:trigger KeepsBefore(actions, injected, b, a)} :: a in actions ==>
               KeepsBefore(actions, injected, b, a)
    requires forall i :: 0 <= i < |out| ==> out[i] in actions
    requires forall i, j :: 0 <= i < j < |out| ==> Before(actions, out[i], out[j])
    requires |result| == |out| + 1 && result[0] == LaunchAction()
    requires forall i :: 0 <= i < |out| ==> result[i + 1] == AfterLaunch(out[i])
    ensures forall i, j :: 0 <= i < j < |result| ==> Before(injected, result[i], result[j])
  {
    forall i, j | 0 <= i < j < |result| ensures Before(injected, result[i], result[j]) {
      var q := j - 1;
      var p := if i == 0 then q else i - 1;
      assert result[q + 1] == AfterLaunch(out[q]) && result[p + 1] == AfterLaunch(out[p]);
      assert i > 0 ==> Before(actions, out[p], out[q]);
      assert KeepsBefore(actions, injected, out[p], out[q]);
    }
  }

  lemma LaunchKey(actions: seq<SemanticAction>, injected: seq<SemanticAction>)
    requires Orderable(actions) && Injectable(actions) && injected == InjectLaunch(actions)
    ensures Orderable(injected) && LaunchAction() in injected
    ensures Depth(injected, LaunchAction()) == 0 && Position(injected, LaunchAction()) == 0
  {
    InjectedOrderable(actions);
    InjectedIds(actions);
    var h := GraphOf(injected);
    assert injected[0] in injected;
    assert HasDepth(h, LAUNCH_ID, 0);
    DepthUnique(h, LAUNCH_ID, 0, Depth(injected, LaunchAction()));
  }

  lemma InjectedBefore(actions: seq<SemanticAction>, injected: seq<SemanticAction>, a: SemanticAction,
                       b: SemanticAction)
    requires Orderable(actions) && Injectable(actions) && injected == InjectLaunch(actions)
    requires a in actions
    ensures Orderable(injected) && KeepsBefore(actions, injected, b, a)
  {
    LaunchKey(actions, injected);
    InjectedKey(actions, injected, a);
    if Before(actions, b, a) {
      InjectedKey(actions, injected, b);
    }
  }

  lemma InjectedPermutes(actions: seq<SemanticAction>, out: seq<SemanticAction>)
    requires UniqueIds(actions) && UniqueIds(out) && Permutation(out, actions) && !HasLaunch(actions)
    ensures Permutation([LaunchAction()] + AllAfterLaunch(out), InjectLaunch(actions))
  {
    var s, t := AllAfterLaunch(out), AllAfterLaunch(actions);
    PermutationMembers(out, actions);
    forall x | x in s ensures x in t {
      var i :| 0 <= i < |s| && s[i] == x;
      assert out[i] in out;
      assert out[i] in actions;
      var j :| 0 <= j < |actions| && actions[j] == out[i];
      assert t[j] == x;
    }
    forall x | x in t ensures x in s {
      var i :| 0 <= i < |t| && t[i] == x;
      assert actions[i] in actions;
      assert actions[i] in out;
      var j :| 0 <= j < |out| && out[j] == actions[i];
      assert s[j] == x;
    }
    forall i, j | 0 <= i < j < |s| ensures s[i] != s[j] {
      assert out[i].id != out[j].id;
    }
    forall i, j | 0 <= i < j < |t| ensures t[i] != t[j] {
      assert actions[i].id != actions[j].id;
    }
    SameMembersPermute(s, t);
    assert multiset([LaunchAction()] + s) == multiset{LaunchAction()} + multiset(s);
    assert multiset([LaunchAction()] + t) == multiset{LaunchAction()} + multiset(t);
  }
}
