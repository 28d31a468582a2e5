/** The stage-graph validation of the control document, and its agreement with the planner's sort. */
module StageDag {
  import opened Wrappers
  import opened Types
  import opened StageGraph
  import opened Order
  import opened Planner

  datatype StageInput = StageOutputInput(stage: string, output: string) | OtherInput

  /** The stage types a control document may use; none of them launches the solver. */
  datatype StageType =
    | LoadAssetStage | ReconcileStage | InitializeStage | IterateStage | AdvanceTimeStage
    | SampleStage | GateStage | CheckpointStage | TuiStage

  datatype Stage = Stage(
    id: string, stageType: StageType, requirements: seq<string>, inputs: seq<StageInput>, outputs: seq<string>)

  datatype DagError =
    | DuplicateIds
    | SelfRequirement(id: string)
    | UnknownRequirement(id: string)
    | CycleAt(id: string)
    | NotAnAncestor(id: string, producer: string)
    | UnknownOutput(id: string, producer: string, output: string)

  type Requirements = map<string, seq<string>>

  ghost function Edges(r: Requirements): Graph {
    map n | n in r :: set d | d in r[n]
  }

  // ---------- depth-first cycle check ----------

  /** Nodes whose search is complete: their dependencies are complete and no cycle passes through them. */
  ghost predicate Settled(g: Graph, visited: set<string>) {
    && (forall n :: n in visited ==> n in g && g[n] <= visited)
    && (forall n :: n in visited ==> !Reaches(g, n, n))
  }

  class DepthFirstSearch {
    const requirements: Requirements
    var visiting: set<string>
    var visited: set<string>

    constructor (requirements: Requirements)
      ensures this.requirements == requirements && visiting == {} && visited == {}
    {
      this.requirements := requirements;
      visiting, visited := {}, {};
    }

    /** `stack` is the chain of calls in progress, outermost first. */
    ghost predicate Valid(stack: seq<string>)
      reads this
    {
      && Resolved(Edges(requirements))
      && visiting == Members(stack)
      && visiting !! visited
      && Settled(Edges(requirements), visited)
      && (forall i :: 0 <= i < |stack| ==> stack[i] in requirements)
      && (forall i :: 0 <= i < |stack| - 1 ==> stack[i + 1] in Edges(requirements)[stack[i]])
    }

    method Visit(stageId: string, ghost stack: seq<string>) returns (cycle: Option<string>)
      requires Valid(stack) && stageId in requirements
      requires |stack| > 0 ==> stageId in Edges(requirements)[stack[|stack| - 1]]
      modifies this
      ensures cycle.None? ==> Valid(stack) && visiting == old(visiting)
      ensures cycle.None? ==> stageId in visited && old(visited) <= visited
      ensures cycle.Some? ==> Reaches(Edges(requirements), cycle.value, cycle.value)
      decreases requirements.Keys - visiting
    {
      ghost var g := Edges(requirements);
      if stageId in visiting {
        CallChainCycle(g, stack, stageId);
        return Some(stageId);
      }
      if stageId in visited {
        return None;
      }
      visiting := visiting + {stageId};
      ghost var deeper := stack + [stageId];
      var dependencies := requirements[stageId];
      for i := 0 to |dependencies|
        invariant Valid(deeper) && visiting == old(visiting) + {stageId}
        invariant old(visited) <= visited
        invariant forall j :: 0 <= j < i ==> dependencies[j] in visited
      {
        assert dependencies[i] in g[stageId];
        var inner := Visit(dependencies[i], deeper);
        if inner.Some? {
          return inner;
        }
      }
      SettleNode(g, visited, stageId);
      visiting := visiting - {stageId};
      visited := visited + {stageId};
      return None;
    }
  }

  lemma CallChainCycle(g: Graph, stack: seq<string>, n: string)
    requires Resolved(g) && n in g && n in stack
    requires forall i :: 0 <= i < |stack| ==> stack[i] in g
    requires forall i :: 0 <= i < |stack| - 1 ==> stack[i + 1] in g[stack[i]]
    requires n in g[stack[|stack| - 1]]
    ensures Reaches(g, n, n)
  {
    var i :| 0 <= i < |stack| && stack[i] == n;
    var p := stack[i..] + [n];
    forall k | 0 <= k < |p| - 1 ensures p[k + 1] in g[p[k]] {
      if k < |p| - 2 { assert stack[i + k + 1] in g[stack[i + k]]; }
    }
    assert PathFromTo(g, p, n, n);
  }

  lemma SettleNode(g: Graph, visited: set<string>, n: string)
    requires Settled(g, visited) && n in g && n !in visited
    requires g[n] <= visited
    ensures Settled(g, visited + {n})
  {
    if Reaches(g, n, n) {
      var d := ReachesThroughDependency(g, n, n);
      if d != n {
        ClosedHoldsReached(g, visited, d, n);
      }
    }
  }

  // ---------- ancestors ----------

  /** Everything a stage depends on: exactly the transitive closure of the requirement edges. */
  method Ancestors(requirements: Requirements, stageId: string) returns (result: set<string>)
    requires Resolved(Edges(requirements)) && stageId in requirements
    ensures forall n :: n in result <==> Reaches(Edges(requirements), stageId, n)
  {
    ghost var g := Edges(requirements);
    result := {};
    var pending := requirements[stageId];
    forall d | d in pending ensures d in g && Reaches(g, stageId, d) {
      assert d in g[stageId];
      EdgeReaches(g, stageId, d);
    }
    while pending != []
      invariant forall d :: d in pending ==> d in g && Reaches(g, stageId, d)
      invariant forall d :: d in result ==> d in g && Reaches(g, stageId, d)
      invariant forall d :: d in g[stageId] ==> d in result || d in pending
      invariant forall n, d :: n in result && d in g[n] ==> d in result || d in pending
      decreases g.Keys - result, |pending|
    {
      var dependency := pending[|pending| - 1];
      ghost var whole := pending;
      assert dependency in pending;
      pending := pending[..|pending| - 1];
      assert whole == pending + [dependency];
      if dependency !in result {
        result := result + {dependency};
        forall d | d in requirements[dependency] ensures d in g && Reaches(g, stageId, d) {
          assert d in g[dependency];
          EdgeReaches(g, dependency, d);
          ReachesTransitive(g, stageId, dependency, d);
        }
        pending := pending + requirements[dependency];
      }
    }
    forall n | Reaches(g, stageId, n) ensures n in result {
      var d := ReachesThroughDependency(g, stageId, n);
      if d != n {
        ClosedHoldsReached(g, result, d, n);
      }
    }
  }

  // ---------- the validator ----------

  ghost predicate UniqueStageIds(stages: seq<Stage>) {
    forall i, j :: 0 <= i < j < |stages| ==> stages[i].id != stages[j].id
  }

  function StageById(stages: seq<Stage>): map<string, nat> {
    if stages == [] then map[]
    else StageById(stages[..|stages| - 1])[stages[|stages| - 1].id := |stages| - 1]
  }

  lemma {:induction false} StageByIdFacts(stages: seq<Stage>)
    ensures forall n :: n in StageById(stages) ==>
              StageById(stages)[n] < |stages| && stages[StageById(stages)[n]].id == n
    ensures forall i :: 0 <= i < |stages| ==> stages[i].id in StageById(stages)
    ensures UniqueStageIds(stages) ==> forall i :: 0 <= i < |stages| ==> StageById(stages)[stages[i].id] == i
  {
    if stages != [] {
      StageByIdFacts(stages[..|stages| - 1]);
      var front := stages[..|stages| - 1];
      forall i | 0 <= i < |front| ensures stages[i].id in StageById(stages) {
        assert front[i].id in StageById(front);
      }
      if UniqueStageIds(stages) {
        forall i | 0 <= i < |stages| ensures StageById(stages)[stages[i].id] == i {
          if i < |front| { assert StageById(front)[front[i].id] == i; }
        }
      }
    }
  }

  function RequirementsOf(stages: seq<Stage>): Requirements {
    StageByIdFacts(stages);
    var byId := StageById(stages);
    map n | n in byId :: stages[byId[n]].requirements
  }

  ghost predicate InputServed(stages: seq<Stage>, stage: Stage, input: StageInput) {
    input.StageOutputInput? ==>
      && Reaches(Edges(RequirementsOf(stages)), stage.id, input.stage)
      && exists p :: 0 <= p < |stages| && stages[p].id == input.stage && input.output in stages[p].outputs
  }

  /** What a control document must be: an acyclic graph whose stage inputs come from ancestors. */
  ghost predicate Accepted(stages: seq<Stage>) {
    && UniqueStageIds(stages)
    && Resolved(Edges(RequirementsOf(stages)))
    && Acyclic(Edges(RequirementsOf(stages)))
    && forall i, k :: 0 <= i < |stages| && 0 <= k < |stages[i].inputs| ==>
                        InputServed(stages, stages[i], stages[i].inputs[k])
  }

  method CheckRequirements(stages: seq<Stage>) returns (r: Result<(), DagError>)
    requires UniqueStageIds(stages)
    ensures r.Ok? ==> Resolved(Edges(RequirementsOf(stages)))
    ensures r.Err? ==> !Accepted(stages) && !r.error.CycleAt?
  {
    var requirements := RequirementsOf(stages);
    ghost var g := Edges(requirements);
    StageByIdFacts(stages);
    for i := 0 to |stages|
      invariant forall j, d :: 0 <= j < i && d in stages[j].requirements ==> d in requirements
    {
      assert requirements[stages[i].id] == stages[i].requirements;
      if stages[i].id in stages[i].requirements {
        assert stages[i].id in g[stages[i].id];
        EdgeReaches(g, stages[i].id, stages[i].id);
        return Err(SelfRequirement(stages[i].id));
      }
      if exists d :: d in stages[i].requirements && d !in requirements {
        ghost var d :| d in stages[i].requirements && d !in requirements;
        assert d in g[stages[i].id];
        return Err(UnknownRequirement(stages[i].id));
      }
    }
    return Ok(());
  }

  method CheckAcyclic(stages: seq<Stage>) returns (r: Result<(), DagError>)
    requires UniqueStageIds(stages) && Resolved(Edges(RequirementsOf(stages)))
    ensures r.Ok? <==> Acyclic(Edges(RequirementsOf(stages)))
    ensures r.Err? ==> r.error.CycleAt? && Reaches(Edges(RequirementsOf(stages)), r.error.id, r.error.id)
  {
    var requirements := RequirementsOf(stages);
    StageByIdFacts(stages);
    var search := new DepthFirstSearch(requirements);
    for i := 0 to |stages|
      invariant fresh(search) && search.requirements == requirements
      invariant search.Valid([])
      invariant forall j :: 0 <= j < i ==> stages[j].id in search.visited
    {
      var cycle := search.Visit(stages[i].id, []);
      if cycle.Some? {
        ghost var g := Edges(requirements);
        var d := ReachesThroughDependency(g, cycle.value, cycle.value);
        return Err(CycleAt(cycle.value));
      }
    }
    forall n | n in requirements ensures n in search.visited {
      assert stages[StageById(stages)[n]].id == n;
    }
    return Ok(());
  }

  method CheckInputs(stages: seq<Stage>) returns (r: Result<(), DagError>)
    requires UniqueStageIds(stages) && Resolved(Edges(RequirementsOf(stages)))
    ensures r.Ok? <==> forall i, k :: 0 <= i < |stages| && 0 <= k < |stages[i].inputs| ==>
                                        InputServed(stages, stages[i], stages[i].inputs[k])
    ensures r.Err? ==> r.error.NotAnAncestor? || r.error.UnknownOutput?
  {
    var requirements := RequirementsOf(stages);
    var byId := StageById(stages);
    StageByIdFacts(stages);
    for i := 0 to |stages|
      invariant forall j, k :: 0 <= j < i && 0 <= k < |stages[j].inputs| ==>
                                 InputServed(stages, stages[j], stages[j].inputs[k])
    {
      var available := Ancestors(requirements, stages[i].id);
      for k := 0 to |stages[i].inputs|
        invariant forall l :: 0 <= l < k ==> InputServed(stages, stages[i], stages[i].inputs[l])
      {
        var input := stages[i].inputs[k];
        if input.StageOutputInput? {
          if input.stage !in available {
            assert !InputServed(stages, stages[i], stages[i].inputs[k]);
            return Err(NotAnAncestor(stages[i].id, input.stage));
          }
          var producer := byId[input.stage];
          if input.output !in stages[producer].outputs {
            assert !InputServed(stages, stages[i], stages[i].inputs[k]);
            return Err(UnknownOutput(stages[i].id, input.stage, input.output));
          }
          assert stages[producer].id == input.stage;
        }
      }
    }
    return Ok(());
  }

  method ValidStageDag(stages: seq<Stage>) returns (r: Result<(), DagError>)
    ensures r.Ok? <==> Accepted(stages)
    ensures r.Err? && r.error.CycleAt? ==> Reaches(Edges(RequirementsOf(stages)), r.error.id, r.error.id)
  {
    var ids: set<string> := {};
    for i := 0 to |stages|
      invariant forall j :: 0 <= j < i ==> stages[j].id in ids
      invariant forall n :: n in ids ==> exists j :: 0 <= j < i && stages[j].id == n
      invariant forall j, k :: 0 <= j < k < i ==> stages[j].id != stages[k].id
    {
      if stages[i].id in ids {
        return Err(DuplicateIds);
      }
      ids := ids + {stages[i].id};
    }
    r := CheckRequirements(stages);
    if r.Ok? {
      r := CheckAcyclic(stages);
      if r.Ok? {
        r := CheckInputs(stages);
      }
    }
  }

  // ---------- agreement with the planner ----------

  function KindOf(t: StageType): ActionKind {
    match t
    case LoadAssetStage => LoadAsset
    case ReconcileStage => ReconcileSettings
    case InitializeStage => Initialize
    case IterateStage => Iterate
    case AdvanceTimeStage => AdvanceTime
    case SampleStage => Sample
    case GateStage => Gate
    case CheckpointStage => WriteCheckpoint
    case TuiStage => Tui
  }

  /** The planner's actions for these stages, before the launch is injected: one per stage, in order. */
  ghost predicate Compiles(stages: seq<Stage>, actions: seq<SemanticAction>) {
    && |actions| == |stages|
    && forall i :: 0 <= i < |stages| ==>
                     && actions[i].id == stages[i].id && actions[i].kind == KindOf(stages[i].stageType)
                     && actions[i].dependsOn == stages[i].requirements
  }

  predicate HasStage(stages: seq<Stage>, id: string) {
    exists i :: 0 <= i < |stages| && stages[i].id == id
  }

  lemma CompiledGraph(stages: seq<Stage>, actions: seq<SemanticAction>)
    requires UniqueStageIds(stages) && Compiles(stages, actions)
    ensures UniqueIds(actions) && GraphOf(actions) == Edges(RequirementsOf(stages))
    ensures Models(GraphOf(actions), actions)
  {
    forall i, j | 0 <= i < j < |actions| ensures actions[i].id != actions[j].id {
      assert stages[i].id != stages[j].id;
    }
    GraphModels(actions);
    var g, h := GraphOf(actions), Edges(RequirementsOf(stages));
    forall n ensures n in g <==> n in h {
      CompiledNode(stages, actions, n);
    }
    forall n | n in g ensures g[n] == h[n] {
      CompiledNode(stages, actions, n);
      CompiledEdges(stages, actions, n);
    }
  }

  lemma CompiledNode(stages: seq<Stage>, actions: seq<SemanticAction>, n: string)
    requires UniqueStageIds(stages) && Compiles(stages, actions) && Models(GraphOf(actions), actions)
    ensures n in GraphOf(actions) <==> n in Edges(RequirementsOf(stages))
  {
    StageByIdFacts(stages);
    if n in GraphOf(actions) {
      assert HasId(actions, n);
      var i :| 0 <= i < |actions| && actions[i].id == n;
      assert stages[i].id in StageById(stages);
    }
    if n in Edges(RequirementsOf(stages)) {
      var i := StageById(stages)[n];
      assert actions[i].id == n;
    }
  }

  lemma CompiledEdges(stages: seq<Stage>, actions: seq<SemanticAction>, n: string)
    requires UniqueStageIds(stages) && Compiles(stages, actions) && Models(GraphOf(actions), actions)
    requires n in GraphOf(actions) && n in Edges(RequirementsOf(stages))
    ensures GraphOf(actions)[n] == Edges(RequirementsOf(stages))[n]
  {
    StageByIdFacts(stages);
    var i := StageById(stages)[n];
    assert actions[i].id == n;
    assert GraphOf(actions)[actions[i].id] == Dependencies(actions[i]);
  }

  /** The two independent cycle checks agree on the authored list. */
  lemma AcceptedIsOrderable(stages: seq<Stage>, actions: seq<SemanticAction>)
    requires Accepted(stages) && Compiles(stages, actions)
    ensures Orderable(actions)
  {
    CompiledGraph(stages, actions);
    ResolvedEdges(GraphOf(actions), actions);
  }

  /** No document brings a launch of its own, so the planner always injects one. */
  lemma DocumentsHaveNoLaunch(stages: seq<Stage>, actions: seq<SemanticAction>)
    requires Compiles(stages, actions)
    ensures !HasLaunch(actions)
    ensures HasId(actions, LAUNCH_ID) <==> HasStage(stages, LAUNCH_ID)
  {
    if HasId(actions, LAUNCH_ID) {
      var i :| 0 <= i < |actions| && actions[i].id == LAUNCH_ID;
      assert stages[i].id == LAUNCH_ID;
    }
    if HasStage(stages, LAUNCH_ID) {
      var i :| 0 <= i < |stages| && stages[i].id == LAUNCH_ID;
      assert actions[i].id == LAUNCH_ID;
    }
  }

  /**
   What the planner sorts is the injected list: an accepted document is ordered without error exactly
   if no stage has taken the id of the injected launch.
   */
  lemma AcceptedOrdersIff(stages: seq<Stage>, actions: seq<SemanticAction>)
    requires Accepted(stages) && Compiles(stages, actions)
    ensures Orderable(InjectLaunch(actions)) <==> !HasStage(stages, LAUNCH_ID)
  {
    AcceptedIsOrderable(stages, actions);
    DocumentsHaveNoLaunch(stages, actions);
    InjectionSafeIff(actions);
  }

  /** The order of an accepted document: the launch, then the authored stages in their own order. */
  lemma AcceptedOrder(stages: seq<Stage>, actions: seq<SemanticAction>, out: seq<SemanticAction>)
    requires Accepted(stages) && Compiles(stages, actions) && !HasStage(stages, LAUNCH_ID)
    requires Orderable(actions) && IsOrderOf(actions, out)
    ensures Orderable(InjectLaunch(actions))
    ensures IsOrderOf(InjectLaunch(actions), [LaunchAction()] + AllAfterLaunch(out))
  {
    DocumentsHaveNoLaunch(stages, actions);
    InjectionCommutesWithOrder(actions, out);
  }

  /** A document that the validator accepts and the planner refuses as a duplicate: one stage named like the launch. */
  lemma AcceptedDocumentMayNotOrder() returns (stages: seq<Stage>, actions: seq<SemanticAction>)
    ensures Accepted(stages) && Compiles(stages, actions) && !UniqueIds(InjectLaunch(actions))
  {
    stages := [Stage(LAUNCH_ID, IterateStage, [], [], [])];
    actions := [SemanticAction(LAUNCH_ID, Iterate, [], [], [], 1, None, [], None, None)];
    StageByIdFacts(stages);
    var g := Edges(RequirementsOf(stages));
    assert stages[0].id == LAUNCH_ID;
    forall n | n in g ensures g[n] == {} {
      assert stages[RequirementsSource(stages, n)].requirements == [];
    }
    NoEdgesNoCycle(g);
    DocumentsHaveNoLaunch(stages, actions);
    TakenLaunchIdIsDuplicate(actions);
  }

  function RequirementsSource(stages: seq<Stage>, n: string): (i: nat)
    requires n in StageById(stages)
    ensures i < |stages| && StageById(stages)[n] == i
  {
    StageByIdFacts(stages);
    StageById(stages)[n]
  }

  lemma NoEdgesNoPath(g: Graph, p: seq<string>, a: string, b: string)
    requires forall n :: n in g ==> g[n] == {}
    ensures !PathFromTo(g, p, a, b)
  {
    if |p| >= 2 && p[0] in g {
      assert p[1] !in g[p[0]];
    }
  }

  lemma NoEdgesNoCycle(g: Graph)
    requires forall n :: n in g ==> g[n] == {}
    ensures Resolved(g) && Acyclic(g)
  {
    forall n | n in g ensures !Reaches(g, n, n) {
      if Reaches(g, n, n) {
        var p :| PathFromTo(g, p, n, n);
        NoEdgesNoPath(g, p, n, n);
      }
    }
  }

  /** Injection leaves every authored dependency in place. */
  lemma InjectionKeepsReach(g: Graph, h: Graph, a: string, b: string)
    requires IsInjected(g, h) && Reaches(g, a, b)
    ensures Reaches(h, a, b)
  {
    var p :| PathFromTo(g, p, a, b);
    forall i | 0 <= i < |p| - 1 ensures p[i + 1] in h[p[i]] {
      assert p[i + 1] in g[p[i]];
    }
    assert PathFromTo(h, p, a, b);
  }

  /** Whatever an action depends on, directly or not, is sorted before it. */
  lemma {:induction false} ReachedComesFirst(actions: seq<SemanticAction>, out: seq<SemanticAction>, j: nat, n: string)
    requires Orderable(actions) && IsOrderOf(actions, out)
    requires j < |out| && Reaches(GraphOf(actions), out[j].id, n)
    ensures exists i :: 0 <= i < j && out[i].id == n
    decreases j
  {
    var d := ReachesThroughDependency(GraphOf(actions), out[j].id, n);
    PermutationMembers(out, actions);
    assert out[j] in out;
    assert out[j] in actions;
    GraphModels(actions);
    assert GraphOf(actions)[out[j].id] == Dependencies(out[j]);
    DependenciesComeFirst(actions, out, j, d);
    var i :| 0 <= i < j && out[i].id == d;
    if d != n {
      ReachedComesFirst(actions, out, i, n);
    }
  }

  /** In the order that the planner compiles, the producer of every consumed stage output precedes its consumer. */
  lemma ProducersPrecedeConsumers(stages: seq<Stage>, actions: seq<SemanticAction>, out: seq<SemanticAction>,
                                  s: nat, k: nat, j: nat)
    requires Accepted(stages) && Compiles(stages, actions)
    requires Orderable(InjectLaunch(actions)) && IsOrderOf(InjectLaunch(actions), out)
    requires s < |stages| && k < |stages[s].inputs| && stages[s].inputs[k].StageOutputInput?
    requires j < |out| && out[j].id == stages[s].id
    ensures exists i :: 0 <= i < j && out[i].id == stages[s].inputs[k].stage
  {
    var injected, producer := InjectLaunch(actions), stages[s].inputs[k].stage;
    AcceptedOrdersIff(stages, actions);
    DocumentsHaveNoLaunch(stages, actions);
    AcceptedIsOrderable(stages, actions);
    InjectedOrderable(actions);
    CompiledGraph(stages, actions);
    assert InputServed(stages, stages[s], stages[s].inputs[k]);
    InjectionKeepsReach(GraphOf(actions), GraphOf(injected), stages[s].id, producer);
    ReachedComesFirst(injected, out, j, producer);
  }
}
