/**
 What keeps plan and run id of a run directory fixed: the plan lock and the run metadata, each written once
 and compared ever after.  The process may die between the two writes.
 */
module RunIdentity {
  import opened Wrappers
  import opened Types
  import opened AttemptRecords

  datatype RunMeta = RunMeta(runId: string, planHash: Option<PlanHash>)

  datatype Identity = Identity(planLock: Option<PlanDocument>, meta: Option<RunMeta>)

  const NO_IDENTITY := Identity(None, None)

  /** The construction of an executor; `generated` is the id it makes up if none is requested. */
  datatype Construction = Construction(plan: CompiledPlan, requested: Option<string>, generated: string)

  datatype Refusal = OtherPlan | OtherPlanHash | OtherRunId

  datatype Outcome = Constructed(runId: string) | Refused(why: Refusal) | Died

  /** The plan as it is written to the lock, with its hash filled in. */
  function Document(plan: CompiledPlan): PlanDocument {
    PlanDocument(plan.content, if plan.planHash.Some? then plan.planHash.value else PlanSha(plan.content))
  }

  /** An empty id asks for none. */
  function Asked(c: Construction): Option<string> {
    if c.requested == Some("") then None else c.requested
  }

  function FirstRunId(c: Construction): string {
    if Asked(c).Some? then Asked(c).value else c.generated
  }

  function WithLock(f: Identity, c: Construction): Result<Identity, Refusal> {
    if f.planLock.None? then Ok(f.(planLock := Some(Document(c.plan))))
    else if f.planLock.value != Document(c.plan) then Err(OtherPlan)
    else Ok(f)
  }

  function WithMeta(f: Identity, c: Construction): Result<Identity, Refusal> {
    if f.meta.None? then Ok(f.(meta := Some(RunMeta(FirstRunId(c), c.plan.planHash))))
    else if f.meta.value.planHash != c.plan.planHash then Err(OtherPlanHash)
    else if Asked(c).Some? && Asked(c).value != f.meta.value.runId then Err(OtherRunId)
    else Ok(f)
  }

  function Both(f: Identity, c: Construction): Result<Identity, Refusal> {
    var locked := WithLock(f, c);
    if locked.Err? then locked else WithMeta(locked.value, c)
  }

  /** What one construction can do to the two files. */
  predicate Constructs(f: Identity, c: Construction, g: Identity, r: Outcome) {
    match r
    case Constructed(id) => Both(f, c) == Ok(g) && g.meta.Some? && g.meta.value.runId == id
    case Refused(why) => Both(f, c) == Err(why) && g == if WithLock(f, c).Ok? then WithLock(f, c).value else f
    case Died => g == f || Ok(g) == WithLock(f, c) || Ok(g) == Both(f, c)
  }

  class RunRoot {
    var planLock: Option<PlanDocument>
    var meta: Option<RunMeta>
    /** How often a process has died here. */
    ghost var deaths: nat

    function State(): Identity
      reads this
    {
      Identity(planLock, meta)
    }

    constructor ()
      ensures State() == NO_IDENTITY && deaths == 0
    {
      planLock, meta, deaths := None, None, 0;
    }

    /** The process may die at any time. */
    method MayDie() returns (died: bool)
      modifies this`deaths
      ensures deaths == old(deaths) + One(died)
    {
      died := *;
      deaths := deaths + One(died);
    }

    /** Writes the lock, or compares with it. */
    method WritePlanLock(c: Construction) returns (r: Option<Refusal>)
      modifies this`planLock
      ensures r.None? ==> WithLock(old(State()), c) == Ok(State())
      ensures r.Some? ==> WithLock(old(State()), c) == Err(r.value) && State() == old(State())
    {
      if planLock.Some? {
        return if planLock.value != Document(c.plan) then Some(OtherPlan) else None;
      }
      planLock := Some(Document(c.plan));
      return None;
    }

    /** Writes the metadata, or compares with it. */
    method LoadOrCreateIdentity(c: Construction) returns (r: Result<string, Refusal>)
      modifies this`meta
      ensures r.Ok? ==> WithMeta(old(State()), c) == Ok(State()) && meta.Some? && meta.value.runId == r.value
      ensures r.Err? ==> WithMeta(old(State()), c) == Err(r.error) && State() == old(State())
    {
      if meta.Some? {
        if meta.value.planHash != c.plan.planHash {
          return Err(OtherPlanHash);
        }
        if Asked(c).Some? && Asked(c).value != meta.value.runId {
          return Err(OtherRunId);
        }
        return Ok(meta.value.runId);
      }
      var id := FirstRunId(c);
      meta := Some(RunMeta(id, c.plan.planHash));
      return Ok(id);
    }

    /** The part of the construction of an executor that concerns the identity of the run. */
    method Construct(c: Construction) returns (r: Outcome)
      modifies this
      ensures Constructs(old(State()), c, State(), r)
      ensures deaths == old(deaths) + One(r.Died?)
    {
      var died := MayDie();
      if died {
        return Died;
      }
      var conflict := WritePlanLock(c);
      if conflict.Some? {
        return Refused(conflict.value);
      }
      died := MayDie();
      if died {
        return Died;
      }
      var id := LoadOrCreateIdentity(c);
      if id.Err? {
        return Refused(id.error);
      }
      died := MayDie();
      return if died then Died else Constructed(id.value);
    }

    /** Constructions one after another, by any processes. */
    method ConstructAll(cs: seq<Construction>) returns (outcomes: seq<Outcome>, ghost states: seq<Identity>)
      modifies this
      ensures IsHistory(states, cs, outcomes) && states[0] == old(State()) && states[|cs|] == State()
      ensures deaths == old(deaths) ==> forall k :: 0 <= k < |cs| ==> !outcomes[k].Died?
    {
      outcomes, states := [], [State()];
      for i := 0 to |cs|
        invariant |outcomes| == i && |states| == i + 1
        invariant states[0] == old(State()) && states[i] == State()
        invariant forall k {:trigger cs[k]} :: 0 <= k < i ==> Constructs(states[k], cs[k], states[k + 1], outcomes[k])
        invariant deaths >= old(deaths)
        invariant deaths == old(deaths) ==> forall k :: 0 <= k < i ==> !outcomes[k].Died?
      {
        var r := Construct(cs[i]);
        outcomes, states := outcomes + [r], states + [State()];
      }
    }
  }

  predicate ConstructsAt(states: seq<Identity>, cs: seq<Construction>, outcomes: seq<Outcome>, k: nat)
    requires |outcomes| == |cs| && |states| == |cs| + 1 && k < |cs|
  {
    Constructs(states[k], cs[k], states[k + 1], outcomes[k])
  }

  /** A sequence of constructions with the states between them. */
  ghost predicate IsHistory(states: seq<Identity>, cs: seq<Construction>, outcomes: seq<Outcome>) {
    && |outcomes| == |cs| && |states| == |cs| + 1
    && forall k {:trigger ConstructsAt(states, cs, outcomes, k)} :: 0 <= k < |cs| ==>
      ConstructsAt(states, cs, outcomes, k)
  }

  /** The metadata is written after the lock. */
  predicate Ordered(f: Identity) {
    f.meta.Some? ==> f.planLock.Some?
  }

  /** What has been written stays. */
  predicate Keeps(f: Identity, g: Identity) {
    (f.planLock.Some? ==> g.planLock == f.planLock) && (f.meta.Some? ==> g.meta == f.meta)
  }

  /** The construction asks for another plan or another run id than the directory has. */
  predicate Differs(c: Construction, f: Identity) {
    || f.planLock != Some(Document(c.plan))
    || f.meta.None? || f.meta.value.planHash != c.plan.planHash
    || (Asked(c).Some? && Asked(c).value != f.meta.value.runId)
  }

  lemma {:induction false} HistoryKeeps(states: seq<Identity>, cs: seq<Construction>, outcomes: seq<Outcome>, i: nat,
                                        j: nat)
    requires IsHistory(states, cs, outcomes) && i <= j < |states| && Ordered(states[i])
    ensures Keeps(states[i], states[j]) && Ordered(states[j])
    decreases j
  {
    if i < j {
      HistoryKeeps(states, cs, outcomes, i, j - 1);
      assert ConstructsAt(states, cs, outcomes, j - 1);
    }
  }

  /** A refused construction changes nothing. */
  lemma RefusalChangesNothing(states: seq<Identity>, cs: seq<Construction>, outcomes: seq<Outcome>, j: nat)
    requires IsHistory(states, cs, outcomes) && states[0] == NO_IDENTITY && j < |cs| && outcomes[j].Refused?
    ensures states[j + 1] == states[j] && states[j].planLock.Some?
  {
    HistoryKeeps(states, cs, outcomes, 0, j);
    assert ConstructsAt(states, cs, outcomes, j);
  }

  /**
   The first construction that succeeds decides: afterwards the files of the directory never change, and a
   later construction is refused exactly if it asks for another plan or another run id.  Those that succeed
   have its plan and run id.
   */
  lemma FirstWins(states: seq<Identity>, cs: seq<Construction>, outcomes: seq<Outcome>, i: nat, j: nat)
    requires IsHistory(states, cs, outcomes) && states[0] == NO_IDENTITY
    requires i < j < |cs| && outcomes[i].Constructed?
    ensures states[j] == states[j + 1] == states[i + 1]
    ensures states[i + 1] == Identity(Some(Document(cs[i].plan)), Some(RunMeta(outcomes[i].runId, cs[i].plan.planHash)))
    ensures !outcomes[j].Died? ==> (outcomes[j].Refused? <==> Differs(cs[j], states[i + 1]))
    ensures outcomes[j].Constructed? ==>
              && Document(cs[j].plan) == Document(cs[i].plan) && cs[j].plan.planHash == cs[i].plan.planHash
              && outcomes[j].runId == outcomes[i].runId
  {
    HistoryKeeps(states, cs, outcomes, 0, i);
    assert ConstructsAt(states, cs, outcomes, i);
    HistoryKeeps(states, cs, outcomes, i + 1, j);
    assert ConstructsAt(states, cs, outcomes, j);
  }

  /**
   What a directory is given by the first construction that succeeds: the plan as it was compiled, with the hash
   of its content if it had none, and the run id that was asked for, or else the generated one.
   */
  lemma FirstGives(states: seq<Identity>, cs: seq<Construction>, outcomes: seq<Outcome>)
    requires IsHistory(states, cs, outcomes) && states[0] == NO_IDENTITY && cs != [] && outcomes[0].Constructed?
    ensures states[1].planLock.Some? && states[1].planLock.value.content == cs[0].plan.content
    ensures cs[0].plan.planHash == Some(states[1].planLock.value.planHash)
            || (cs[0].plan.planHash.None? && states[1].planLock.value.planHash == PlanSha(cs[0].plan.content))
    ensures states[1].meta == Some(RunMeta(outcomes[0].runId, cs[0].plan.planHash))
    ensures cs[0].requested in {None, Some("")} ==> outcomes[0].runId == cs[0].generated
    ensures cs[0].requested !in {None, Some("")} ==> cs[0].requested == Some(outcomes[0].runId)
  {
    assert ConstructsAt(states, cs, outcomes, 0);
  }

  /** The first construction is never refused, and what it has written when it dies binds the later ones. */
  lemma FirstBinds(states: seq<Identity>, cs: seq<Construction>, outcomes: seq<Outcome>, j: nat)
    requires IsHistory(states, cs, outcomes) && states[0] == NO_IDENTITY && j < |cs|
    ensures !outcomes[0].Refused?
    ensures outcomes[j].Constructed? && states[1].planLock.Some? ==> Document(cs[j].plan) == Document(cs[0].plan)
    ensures outcomes[j].Constructed? && states[1].meta.Some? ==> outcomes[j].runId == FirstRunId(cs[0])
  {
    assert ConstructsAt(states, cs, outcomes, 0);
    if j > 0 {
      HistoryKeeps(states, cs, outcomes, 1, j);
    }
    assert ConstructsAt(states, cs, outcomes, j);
  }
}
