/**
 The plan executor over a run directory.  The adapter is an arbitrary environment: its snapshots,
 results, failures and answers are chosen freely.  The process may die after any durable write; every
 method therefore may end early with `Crashed`, and what it guarantees about the durable state holds
 at that point as well.
 */
module Executor {
  import opened Wrappers
  import opened Json
  import opened Order
  import opened HashChain
  import opened Types
  import opened Manifests
  import opened Gates
  import opened RunLedger
  import opened AttemptTrace
  import opened RunDirectory
  import opened PlanProgress

  /** `Failed` is an exception that the attempt ends with, `Escaped` one that leaves the attempt open. */
  datatype Flow = Continues | Failed | Escaped | Died

  datatype ExecutionSummary = ExecutionSummary(
    orchestration: string, numerical: GateStatus, scientific: GateStatus, completed: seq<string>,
    failedAction: Option<string>)

  datatype ApplyResult =
    | Finished(summary: ExecutionSummary)
    | ExecutionFailed(summary: ExecutionSummary)
    | LedgerExists
    | CannotResume
    | AdapterRaised
    | DependenciesIncomplete
    | Crashed

  /** How the opening of a session ends. */
  datatype Opening = Opened(completed: set<string>) | NotOpened(result: ApplyResult)

  /** How one entry of the plan ends. */
  datatype Step = Advanced | GaveUp | Blocked | Halted

  /** What another process or another call does with the run directory. */
  datatype Request = Restart(flags: AdapterFlags) | Run(resume: bool)

  function SessionEvent(first: bool): Event {
    if first then RunStarted else RunResumed
  }

  class PlanExecutor {
    const plan: seq<SemanticAction>
    const runId: string
    const planHash: PlanHash

    // files of the run directory
    var log: seq<Entry<EventBody<PlanHash, Event>>>
    var snapshots: seq<SnapshotKey>
    var artifacts: seq<ManifestEntry>
    var checkpoints: seq<ManifestEntry>
    var summary: Option<ExecutionSummary>

    // the process: its adapter, and what it remembers
    var flags: AdapterFlags
    var numerical: GateStatus
    var scientific: GateStatus

    // positions of the resumes for which the adapter accepted the rehydration
    ghost var accepted: set<nat>

    // how often the process has died, something outside has raised, the adapter has refused a rehydration
    ghost var deaths: nat
    ghost var faults: nat
    ghost var refusals: nat

    constructor (plan: seq<SemanticAction>, runId: string, planHash: PlanHash, flags: AdapterFlags)
      requires PlanOk(plan)
      ensures this.plan == plan && this.runId == runId && this.planHash == planHash && this.flags == flags
      ensures Durable() && Remembers() && log == [] && snapshots == [] && artifacts == [] && checkpoints == []
      ensures summary == None && accepted == {} && deaths == faults == refusals == 0
    {
      this.plan, this.runId, this.planHash, this.flags := plan, runId, planHash, flags;
      log, snapshots, artifacts, checkpoints, summary := [], [], [], [], None;
      numerical, scientific := NotEvaluated, NotEvaluated;
      accepted := {};
      deaths, faults, refusals := 0, 0, 0;
    }

    /** Every point at which the process may die. */
    method MayDie() returns (died: bool)
      modifies this`deaths
      ensures deaths == old(deaths) + One(died)
    {
      died := *;
      deaths := deaths + One(died);
    }

    /** Every point at which the adapter, or whatever else is outside the model, may raise. */
    method MayRaise() returns (raises: bool)
      modifies this`faults
      ensures faults == old(faults) + One(raises)
    {
      raises := *;
      faults := faults + One(raises);
    }

    function Ledger(): Events
      reads this
    {
      EventsOf(log)
    }

    predicate Owns(b: EventBody<PlanHash, Event>) {
      b.runId == runId && b.planHash == planHash
    }

    /** What holds of the files at every moment, also right after a crash. */
    ghost predicate Durable()
      reads this
    {
      && PlanOk(plan)
      && Verified(log)
      && (forall i {:trigger Owns(log[i].record.body)} :: 0 <= i < |log| ==> Owns(log[i].record.body))
      && Legal(plan, Ledger())
      && SnapshotsOk(snapshots, Ledger())
      && ManifestOk(artifacts, Ledger())
      && ManifestOk(checkpoints, Ledger())
      && ResumesAccepted(Ledger(), accepted)
      && AllListed(artifacts, checkpoints, Ledger())
    }

    /** The gate status in memory is the one the ledger implies. */
    ghost predicate Synced()
      reads this
    {
      numerical == Replay(Ledger(), "numerical") && scientific == Replay(Ledger(), "scientific")
    }

    /** Between two calls: nothing remembered yet, or in step with the ledger. */
    ghost predicate Remembers()
      reads this
    {
      (numerical == NotEvaluated && scientific == NotEvaluated) || Synced()
    }

    /** A new process over the same directory, possibly with another adapter. */
    method Reopen(flags: AdapterFlags)
      requires Durable()
      modifies this`numerical, this`scientific, this`flags
      ensures Durable() && Remembers() && this.flags == flags
    {
      numerical, scientific := NotEvaluated, NotEvaluated;
      this.flags := flags;
    }

    /** One verified append; the process may die right after it. */
    method WriteEvent(e: Event) returns (died: bool)
      requires Durable() && Allowed(plan, Ledger(), e)
      requires e.RunResumed? && SuccessSet(Ledger()) != {} ==> |log| in accepted
      requires Listed(artifacts, checkpoints, e)
      modifies this`log, this`deaths
      ensures Durable() && Ledger() == old(Ledger()) + [e]
      ensures deaths == old(deaths) + One(died)
    {
      var body := EventBody(runId, planHash, e);
      ghost var before := Ledger();
      var entry := NextEntry(log, body);
      AppendVerifies(log, body);
      LegalAppend(plan, before, e);
      ResumesStep(before, e, accepted);
      FilesStayKnown(snapshots, artifacts, checkpoints, before, e);
      log := log + [entry];
      assert Ledger() == before + [e];
      died := MayDie();
    }

    /** What one append means for the run that the ledger records. */
    method AppendEvent(e: Event) returns (died: bool)
      requires Durable() && Allowed(plan, Ledger(), e)
      requires e.RunResumed? && SuccessSet(Ledger()) != {} ==> |log| in accepted
      requires Listed(artifacts, checkpoints, e)
      modifies this`log, this`deaths
      ensures Durable() && Ledger() == old(Ledger()) + [e]
      ensures !e.GateEvaluated? && old(Synced()) ==> Synced()
      ensures e.GateEvaluated? ==>
                forall c :: Replay(Ledger(), c) == AfterEvaluation(old(Replay(Ledger(), c)), e.group, c)
      ensures Succeeded(Ledger()) == old(Succeeded(Ledger())) + (if e.ActionSucceeded? then [e.action] else [])
      ensures forall a :: Starts(Ledger(), a) == old(Starts(Ledger(), a)) + StartsOf(e, a)
      ensures Open(Ledger()) == NextAttempt(old(Open(Ledger())), e)
      ensures !e.RunStarted? && !e.RunResumed? && !e.RunResumeRejected? ==>
                SessionOf(Ledger()) == old(SessionOf(Ledger()))
      ensures e.RunStarted? || e.RunResumed? ==>
                SessionOf(Ledger()) == Session(e.RunResumed?, old(SuccessSet(Ledger())))
      ensures deaths == old(deaths) + One(died)
    {
      RunLedger.Append(Ledger(), e);
      died := WriteEvent(e);
    }

    /** A snapshot file is written, unless the state has no JSON text; the process may die right after it. */
    method WriteSnapshot(action: string, attempt: nat, phase: Phase) returns (flow: Flow)
      requires Durable()
      requires SnapshotKey(action, attempt, phase) !in snapshots && attempt <= Starts(Ledger(), action)
      modifies this`snapshots, this`deaths, this`faults
      ensures Durable() && !flow.Escaped?
      ensures flow.Failed? ==> snapshots == old(snapshots)
      ensures !flow.Failed? ==> snapshots == old(snapshots) + [SnapshotKey(action, attempt, phase)]
      ensures deaths == old(deaths) + One(flow.Died?)
      ensures faults == old(faults) + One(flow.Failed?)
    {
      var raises := MayRaise();
      if raises {
        return Flow.Failed;
      }
      snapshots := snapshots + [SnapshotKey(action, attempt, phase)];
      var died := MayDie();
      return if died then Flow.Died else Continues;
    }

    /** Replays the recorded gate outcomes into memory. */
    method RestoreGateStatus()
      requires Durable() && Remembers()
      modifies this`numerical, this`scientific
      ensures Durable() && Synced()
    {
      var existing := Ledger();
      ghost var n0, s0 := numerical, scientific;
      for i := 0 to |existing|
        invariant Durable()
        invariant numerical == ReplayFrom(n0, existing[..i], "numerical")
        invariant scientific == ReplayFrom(s0, existing[..i], "scientific")
      {
        ReplayFromStep(n0, existing, i, "numerical");
        ReplayFromStep(s0, existing, i, "scientific");
        var e := existing[i];
        if e.GateEvaluated? && e.group.passed.Some? {
          if e.group.category == "numerical" {
            numerical := if !e.group.passed.value then GateStatus.Failed
                         else if numerical.Failed? then numerical else Passed;
          } else if e.group.category == "scientific" {
            scientific := if !e.group.passed.value then GateStatus.Failed
                          else if scientific.Failed? then scientific else Passed;
          }
        }
      }
      assert existing[..|existing|] == existing;
      RestoreIsIdempotent(existing, "numerical");
      RestoreIsIdempotent(existing, "scientific");
    }

    /** The status in memory after one gate outcome. */
    method UpdateGateStatus(g: GateGroup)
      requires Durable()
      modifies this`numerical, this`scientific
      ensures Durable()
      ensures numerical == if g.category == "numerical" then UpdateStatus(old(numerical), g.passed) else old(numerical)
      ensures scientific == if g.category == "scientific" then UpdateStatus(old(scientific), g.passed)
              else old(scientific)
    {
      if g.passed.Some? {
        if g.category == "numerical" {
          numerical := if !g.passed.value || numerical.Failed? then GateStatus.Failed else Passed;
        } else if g.category == "scientific" {
          scientific := if !g.passed.value || scientific.Failed? then GateStatus.Failed else Passed;
        }
      }
    }

    /** Updates the status in memory, then records the outcome. */
    method RecordGate(action: string, g: GateGroup, ghost attempt: nat, ghost passed: bool, ghost requiredFailed: bool)
      returns (died: bool)
      requires Durable() && Synced() && Open(Ledger()) == InAttempt(action, attempt, passed, requiredFailed, false)
      modifies this`log, this`numerical, this`scientific, this`deaths
      ensures Durable() && Synced() && SameProgress(old(Ledger()), Ledger())
      ensures Open(Ledger()) == InAttempt(action, attempt, passed && g.passed == Some(true),
                                          requiredFailed || (g.required && g.passed == Some(false)), false)
      ensures Ledger() == old(Ledger()) + [GateEvaluated(action, g)]
      ensures deaths == old(deaths) + One(died)
    {
      UpdateGateStatus(g);
      died := AppendEvent(GateEvaluated(action, g));
    }

    /** Records evaluated gates one after another. */
    method RecordGates(action: string, gates: seq<GateGroup>, attempt: nat)
      returns (died: bool, passed: bool, requiredFailed: bool)
      requires Durable() && Synced() && Open(Ledger()) == InAttempt(action, attempt, true, false, false)
      modifies this`log, this`numerical, this`scientific, this`deaths
      ensures Durable() && Synced() && SameProgress(old(Ledger()), Ledger())
      ensures Open(Ledger()) == InAttempt(action, attempt, passed, requiredFailed, false)
      ensures Ledger() <= old(Ledger()) + GateEvents(action, gates)
      ensures !died ==> Ledger() == old(Ledger()) + GateEvents(action, gates)
      ensures !died ==> passed == AllTrue(gates) && requiredFailed == RequiredFalse(gates)
      ensures deaths == old(deaths) + One(died)
    {
      died, passed, requiredFailed := false, true, false;
      ghost var start := Ledger();
      for i := 0 to |gates|
        invariant Durable() && Synced() && SameProgress(start, Ledger())
        invariant Open(Ledger()) == InAttempt(action, attempt, passed, requiredFailed, false)
        invariant passed == AllTrue(gates[..i]) && requiredFailed == RequiredFalse(gates[..i])
        invariant Ledger() == start + GateEvents(action, gates[..i])
        invariant deaths == old(deaths)
      {
        var g := gates[i];
        GateEventsStep(start, action, gates, i);
        RequiredFalseStep(gates, i);
        ghost var before := Ledger();
        died := RecordGate(action, g, attempt, passed, requiredFailed);
        ProgressContinues(start, before, Ledger());
        passed := passed && g.passed == Some(true);
        requiredFailed := requiredFailed || (g.required && g.passed == Some(false));
        if died {
          GatesSoFar(start, Ledger(), action, gates, i + 1);
          return;
        }
      }
      assert gates[..|gates|] == gates;
    }

    /** Evaluates all gates of an action, then records them. */
    method EvaluateGate(action: SemanticAction, observed: Json, attempt: nat)
      returns (flow: Flow, passed: bool, ghost gates: seq<GateGroup>)
      requires Durable() && Synced() && Open(Ledger()) == InAttempt(action.id, attempt, true, false, false)
      modifies this`log, this`numerical, this`scientific, this`deaths
      ensures !flow.Escaped?
      ensures Durable() && SameProgress(old(Ledger()), Ledger())
      ensures !flow.Died? ==> Synced()
      ensures flow.Continues? ==> Recording(Ledger(), action.id, attempt, passed)
      ensures flow.Failed? ==> Attempting(Ledger(), action.id, attempt)
      ensures flow.Continues? ==> Evaluates(action, observed, flags, artifacts, gates)
      ensures flow.Continues? ==> passed == AllTrue(gates) && !RequiredFalse(gates)
      ensures flow.Continues? ==> Ledger() == old(Ledger()) + GateEvents(action.id, gates)
      ensures flow.Failed? ==>
                || (RaisesOn(action, observed, flags, artifacts) && Ledger() == old(Ledger()))
                || (&& Evaluates(action, observed, flags, artifacts, gates) && RequiredFalse(gates)
                    && Ledger() == old(Ledger()) + GateEvents(action.id, gates))
      ensures Ledger() <= old(Ledger()) + GateEvents(action.id, gates)
      ensures deaths == old(deaths) + One(flow.Died?)
      ensures flow.Failed? ==> GateFails(action, observed, flags, artifacts)
    {
      var verified: set<ManifestEntry> := *;
      gates, passed := [], false;
      var groups := GateGroups(action, observed, flags, artifacts, verified);
      if groups.None? {
        RaisedWith(action, observed, artifacts, verified, flags);
        flow := Flow.Failed;
        return;
      }
      gates := groups.value;
      EvaluatedWith(action, observed, artifacts, verified, gates, flags);
      var died, requiredFailed;
      died, passed, requiredFailed := RecordGates(action.id, groups.value, attempt);
      flow := if died then Flow.Died else if requiredFailed then Flow.Failed else Continues;
    }

    /** An event inside the attempt that changes neither its gates nor any progress. */
    method AppendInside(e: Event, ghost action: string, ghost attempt: nat) returns (died: bool)
      requires Durable() && Synced() && Attempting(Ledger(), action, attempt)
      requires NoBoundary(e) && !e.GateEvaluated?
      requires Allowed(plan, Ledger(), e) && Listed(artifacts, checkpoints, e)
      modifies this`log, this`deaths
      ensures Durable() && Synced() && SameProgress(old(Ledger()), Ledger())
      ensures Open(Ledger()) == (if IsRecord(e) then AfterRecord(old(Open(Ledger()))) else old(Open(Ledger())))
      ensures Ledger() == old(Ledger()) + [e]
      ensures deaths == old(deaths) + One(died)
    {
      died := AppendEvent(e);
    }

    method AddToManifest(entry: ManifestEntry, isCheckpoint: bool) returns (died: bool)
      requires Durable() && entry.attempt == Starts(Ledger(), entry.actionId)
      modifies this`artifacts, this`checkpoints, this`deaths
      ensures Durable()
      ensures isCheckpoint ==> checkpoints == Added(old(checkpoints), entry) && artifacts == old(artifacts)
      ensures !isCheckpoint ==> artifacts == Added(old(artifacts), entry) && checkpoints == old(checkpoints)
      ensures Holds(if isCheckpoint then checkpoints else artifacts, entry)
      ensures deaths == old(deaths) + One(died)
    {
      AddedHolds(if isCheckpoint then checkpoints else artifacts, entry);
      if isCheckpoint {
        AddKeepsManifestOk(checkpoints, entry, Ledger());
        AddKeepsListed(artifacts, checkpoints, artifacts, Added(checkpoints, entry), Ledger(), entry);
        checkpoints := Added(checkpoints, entry);
      } else {
        AddKeepsManifestOk(artifacts, entry, Ledger());
        AddKeepsListed(artifacts, checkpoints, Added(artifacts, entry), checkpoints, Ledger(), entry);
        artifacts := Added(artifacts, entry);
      }
      died := MayDie();
    }

    /** The events of a checkpoint that is already in the manifest: recorded, then possibly promoted. */
    method AnnounceCheckpoint(action: SemanticAction, attempt: nat, record: ArtifactRecord, gatePassed: bool)
      returns (died: bool)
      requires Holds(checkpoints, ManifestEntry(record, action.id, attempt))
      requires Durable() && Synced() && Recording(Ledger(), action.id, attempt, gatePassed)
      modifies this`log, this`deaths
      ensures Durable() && Synced() && SameProgress(old(Ledger()), Ledger())
      ensures Recording(Ledger(), action.id, attempt, gatePassed)
      ensures !died ==> Ledger() == old(Ledger()) + EntryEvents(action, attempt, record, true, gatePassed)
      ensures Ledger() <= old(Ledger()) + EntryEvents(action, attempt, record, true, gatePassed)
      ensures deaths == old(deaths) + One(died)
    {
      var entry := ManifestEntry(record, action.id, attempt);
      CheckpointEvents(Ledger(), action, attempt, record, gatePassed);
      died := AppendInside(CheckpointRecorded(action.id, entry), action.id, attempt);
      if died || !Promotes(action, gatePassed) {
        return;
      }
      died := AppendInside(CheckpointPromoted(action.id, entry), action.id, attempt);
    }

    /** One artifact or checkpoint: manifest first, then the ledger, then a possible promotion. */
    method RecordEntry(action: SemanticAction, attempt: nat, record: ArtifactRecord, isCheckpoint: bool,
                       gatePassed: bool)
      returns (died: bool)
      requires Durable() && Synced() && Recording(Ledger(), action.id, attempt, gatePassed)
      requires attempt == Starts(Ledger(), action.id)
      modifies this`log, this`artifacts, this`checkpoints, this`deaths
      ensures Durable() && Synced() && SameProgress(old(Ledger()), Ledger())
      ensures Recording(Ledger(), action.id, attempt, gatePassed)
      ensures !died ==> Ledger() == old(Ledger()) + EntryEvents(action, attempt, record, isCheckpoint, gatePassed)
      ensures Ledger() <= old(Ledger()) + EntryEvents(action, attempt, record, isCheckpoint, gatePassed)
      ensures var entry := ManifestEntry(record, action.id, attempt);
              && artifacts == (if isCheckpoint then old(artifacts) else Added(old(artifacts), entry))
              && checkpoints == (if isCheckpoint then Added(old(checkpoints), entry) else old(checkpoints))
      ensures deaths == old(deaths) + One(died)
    {
      var entry := ManifestEntry(record, action.id, attempt);
      died := AddToManifest(entry, isCheckpoint);
      if died {
        return;
      }
      if isCheckpoint {
        died := AnnounceCheckpoint(action, attempt, record, gatePassed);
      } else {
        died := AppendInside(ArtifactRecorded(action.id, entry), action.id, attempt);
      }
    }

    /** Records the entry at `i` after those before it; this can fail before anything is written. */
    method RecordNext(action: SemanticAction, attempt: nat, records: seq<ArtifactRecord>, i: nat, isCheckpoint: bool,
                      gatePassed: bool, ghost start: Events)
      returns (flow: Flow)
      requires i < |records|
      requires Durable() && Synced() && Recording(Ledger(), action.id, attempt, gatePassed)
      requires attempt == Starts(Ledger(), action.id)
      requires Ledger() == start + RecordEvents(action, attempt, records[..i], isCheckpoint, gatePassed)
      modifies this`log, this`artifacts, this`checkpoints, this`deaths, this`faults
      ensures !flow.Escaped?
      ensures Durable() && Synced() && SameProgress(old(Ledger()), Ledger())
      ensures Recording(Ledger(), action.id, attempt, gatePassed)
      ensures flow.Continues? ==>
                Ledger() == start + RecordEvents(action, attempt, records[..i + 1], isCheckpoint, gatePassed)
      ensures Ledger() <= start + RecordEvents(action, attempt, records, isCheckpoint, gatePassed)
      ensures flow.Continues? ==>
                var entry := ManifestEntry(records[i], action.id, attempt);
                && artifacts == (if isCheckpoint then old(artifacts) else Added(old(artifacts), entry))
                && checkpoints == (if isCheckpoint then Added(old(checkpoints), entry) else old(checkpoints))
      ensures deaths == old(deaths) + One(flow.Died?)
      ensures faults == old(faults) + One(flow.Failed?)
    {
      ghost var before := Ledger();
      var raises := MayRaise();
      if raises {
        RecordsSoFar(start, before, action, attempt, records, i, isCheckpoint, gatePassed);
        return Flow.Failed;
      }
      var died := RecordEntry(action, attempt, records[i], isCheckpoint, gatePassed);
      RecordedStep(start, before, Ledger(), action, attempt, records, i, isCheckpoint, gatePassed);
      return if died then Flow.Died else Continues;
    }

    /** Records a list of artifacts or of checkpoints; this can fail at any entry. */
    method RecordAll(action: SemanticAction, attempt: nat, records: seq<ArtifactRecord>, isCheckpoint: bool,
                     gatePassed: bool)
      returns (flow: Flow)
      requires Durable() && Synced() && Recording(Ledger(), action.id, attempt, gatePassed)
      requires attempt == Starts(Ledger(), action.id)
      modifies this`log, this`artifacts, this`checkpoints, this`deaths, this`faults
      ensures !flow.Escaped?
      ensures Durable() && Synced() && SameProgress(old(Ledger()), Ledger())
      ensures Recording(Ledger(), action.id, attempt, gatePassed)
      ensures flow.Continues? ==>
                Ledger() == old(Ledger()) + RecordEvents(action, attempt, records, isCheckpoint, gatePassed)
      ensures Ledger() <= old(Ledger()) + RecordEvents(action, attempt, records, isCheckpoint, gatePassed)
      ensures flow.Continues? ==> artifacts == AddedIf(!isCheckpoint, old(artifacts), action.id, attempt, records)
      ensures flow.Continues? ==> checkpoints == AddedIf(isCheckpoint, old(checkpoints), action.id, attempt, records)
      ensures deaths == old(deaths) + One(flow.Died?)
      ensures faults == old(faults) + One(flow.Failed?)
    {
      ghost var start, a0, c0 := Ledger(), artifacts, checkpoints;
      for i := 0 to |records|
        invariant Durable() && Synced() && SameProgress(start, Ledger())
        invariant Recording(Ledger(), action.id, attempt, gatePassed)
        invariant Ledger() == start + RecordEvents(action, attempt, records[..i], isCheckpoint, gatePassed)
        invariant artifacts == AddedIf(!isCheckpoint, a0, action.id, attempt, records[..i])
        invariant checkpoints == AddedIf(isCheckpoint, c0, action.id, attempt, records[..i])
        invariant deaths == old(deaths) && faults == old(faults)
      {
        AddedIfStep(!isCheckpoint, a0, action.id, attempt, records, i);
        AddedIfStep(isCheckpoint, c0, action.id, attempt, records, i);
        ghost var before := Ledger();
        flow := RecordNext(action, attempt, records, i, isCheckpoint, gatePassed, start);
        ProgressContinues(start, before, Ledger());
        if !flow.Continues? {
          return;
        }
      }
      assert records[..|records|] == records;
      return Continues;
    }

    /** Records what the adapter returned: artifacts first, then checkpoints. */
    method RecordResult(action: SemanticAction, attempt: nat, result: ActionResult, gatePassed: bool)
      returns (flow: Flow)
      requires Durable() && Synced() && Recording(Ledger(), action.id, attempt, gatePassed)
      requires attempt == Starts(Ledger(), action.id)
      modifies this`log, this`artifacts, this`checkpoints, this`deaths, this`faults
      ensures !flow.Escaped?
      ensures Durable() && Synced() && SameProgress(old(Ledger()), Ledger())
      ensures Recording(Ledger(), action.id, attempt, gatePassed)
      ensures flow.Continues? ==> Ledger() == old(Ledger()) + ResultEvents(action, attempt, result, gatePassed)
      ensures Ledger() <= old(Ledger()) + ResultEvents(action, attempt, result, gatePassed)
      ensures flow.Continues? ==> artifacts == AddedAll(old(artifacts), action.id, attempt, result.artifacts)
      ensures flow.Continues? ==>
                checkpoints == AddedAll(old(checkpoints), action.id, attempt, SavedCheckpoints(action, result))
      ensures deaths == old(deaths) + One(flow.Died?)
      ensures faults == old(faults) + One(flow.Failed?)
    {
      ghost var l := Ledger();
      flow := RecordAll(action, attempt, result.artifacts, false, gatePassed);
      PrefixOfFirst(l, Ledger(), RecordEvents(action, attempt, result.artifacts, false, gatePassed),
                    RecordEvents(action, attempt, SavedCheckpoints(action, result), true, gatePassed));
      if flow.Continues? {
        Regroup(l, RecordEvents(action, attempt, result.artifacts, false, gatePassed),
                RecordEvents(action, attempt, SavedCheckpoints(action, result), true, gatePassed));
        flow := RecordAll(action, attempt, SavedCheckpoints(action, result), true, gatePassed);
      }
    }

    /** Preconditions, the audit event of a text command, and the call of the adapter. */
    method CallAdapter(action: SemanticAction, attempt: nat, before: Fields) returns (flow: Flow, result: ActionResult)
      requires Durable() && Synced() && Open(Ledger()) == InAttempt(action.id, attempt, true, false, false)
      modifies this`log, this`deaths, this`faults
      ensures !flow.Escaped?
      ensures Durable() && Synced() && SameProgress(old(Ledger()), Ledger())
      ensures Open(Ledger()) == InAttempt(action.id, attempt, true, false, false)
      ensures flow.Continues? ==> AllConditions(action.preconditions, ConditionScope(before, None)) == Some(true)
      ensures flow.Continues? ==> Ledger() == old(Ledger()) + RequestEvents(action)
      ensures Ledger() <= old(Ledger()) + RequestEvents(action)
      ensures deaths == old(deaths) + One(flow.Died?)
      ensures faults == old(faults)
              + One(flow.Failed? && AllConditions(action.preconditions, ConditionScope(before, None)) == Some(true))
    {
      result := *;
      if AllConditions(action.preconditions, ConditionScope(before, None)) != Some(true) {
        return Flow.Failed, result;
      }
      if action.kind.Tui? {
        var died := AppendInside(TuiRequested(action.id), action.id, attempt);
        if died {
          return Flow.Died, result;
        }
      }
      // rendering the output templates, and then the call itself
      var raises := MayRaise();
      if raises {
        return Flow.Failed, result;
      }
      return Continues, result;
    }

    /** The snapshot of one phase and its event. */
    method TakeSnapshot(action: string, attempt: nat, phase: Phase, ghost phases: set<Phase>) returns (flow: Flow)
      requires Durable() && Synced() && Attempting(Ledger(), action, attempt)
      requires attempt == Starts(Ledger(), action)
      requires OnlyPhases(snapshots, action, attempt, phases) && phase !in phases
      modifies this`log, this`snapshots, this`deaths, this`faults
      ensures Durable() && Synced() && SameProgress(old(Ledger()), Ledger())
      ensures Open(Ledger()) == old(Open(Ledger()))
      ensures OnlyPhases(snapshots, action, attempt, phases + {phase}) && !flow.Escaped?
      ensures flow.Failed? ==> log == old(log) && snapshots == old(snapshots)
      ensures flow.Continues? ==> Ledger() == old(Ledger()) + [SnapshotRecorded(action, attempt, phase)]
      ensures Ledger() <= old(Ledger()) + [SnapshotRecorded(action, attempt, phase)]
      ensures deaths == old(deaths) + One(flow.Died?)
      ensures faults == old(faults) + One(flow.Failed?)
    {
      assert SnapshotKey(action, attempt, phase) !in snapshots;
      flow := WriteSnapshot(action, attempt, phase);
      if flow.Continues? {
        var died := AppendInside(SnapshotRecorded(action, attempt, phase), action, attempt);
        flow := if died then Flow.Died else Continues;
      }
    }

    /** The audit event after a text command. */
    method ReportTui(action: SemanticAction, attempt: nat, ghost passed: bool) returns (died: bool)
      requires Durable() && Synced() && Recording(Ledger(), action.id, attempt, passed)
      modifies this`log, this`deaths
      ensures Durable() && Synced() && SameProgress(old(Ledger()), Ledger())
      ensures Recording(Ledger(), action.id, attempt, passed)
      ensures Ledger() == old(Ledger()) + ReportEvents(action, attempt)
      ensures deaths == old(deaths) + One(died)
    {
      died := false;
      if action.kind.Tui? {
        died := AppendInside(TuiExecuted(action.id, attempt), action.id, attempt);
      }
    }

    /** The last events of an attempt that went through, unless its result has no JSON text. */
    method Succeed(action: SemanticAction, attempt: nat, ghost passed: bool) returns (flow: Flow)
      requires Durable() && Synced() && Recording(Ledger(), action.id, attempt, passed)
      modifies this`log, this`deaths, this`faults
      ensures Durable() && Synced() && old(Ledger()) <= Ledger() && !flow.Escaped?
      ensures flow.Continues? ==> Completed(old(Ledger()), Ledger(), action.id)
      ensures flow.Continues? ==> Ledger() == old(Ledger()) + LastEvents(action, attempt)
      ensures flow.Failed? ==> SameProgress(old(Ledger()), Ledger()) && Attempting(Ledger(), action.id, attempt)
      ensures Ledger() <= old(Ledger()) + LastEvents(action, attempt)
      ensures deaths == old(deaths) + One(flow.Died?)
      ensures faults == old(faults) + One(flow.Failed?)
    {
      ghost var l := Ledger();
      var died := ReportTui(action, attempt, passed);
      LastEventsSoFar(l, Ledger(), action, attempt);
      if died {
        return Flow.Died;
      }
      flow := RecordSucceeded(action, attempt, passed);
    }

    /** The success event, unless its result has no JSON text. */
    method RecordSucceeded(action: SemanticAction, attempt: nat, ghost passed: bool) returns (flow: Flow)
      requires Durable() && Synced() && Recording(Ledger(), action.id, attempt, passed)
      modifies this`log, this`deaths, this`faults
      ensures Durable() && Synced() && !flow.Escaped?
      ensures flow.Failed? ==> log == old(log)
      ensures !flow.Failed? ==> Ledger() == old(Ledger()) + [ActionSucceeded(action.id, attempt)]
      ensures flow.Continues? ==> Completed(old(Ledger()), Ledger(), action.id)
      ensures deaths == old(deaths) + One(flow.Died?) && faults == old(faults) + One(flow.Failed?)
    {
      var raises := MayRaise();
      if raises {
        return Flow.Failed;
      }
      var died := AppendEvent(ActionSucceeded(action.id, attempt));
      return if died then Flow.Died else Continues;
    }

    /** Gates and records of an attempt whose postconditions hold. */
    method GateAndRecord(action: SemanticAction, attempt: nat, result: ActionResult, scope: Json)
      returns (flow: Flow, passed: bool, ghost gates: seq<GateGroup>)
      requires Durable() && Synced() && Open(Ledger()) == InAttempt(action.id, attempt, true, false, false)
      requires attempt == Starts(Ledger(), action.id)
      modifies this`log, this`artifacts, this`checkpoints, this`numerical, this`scientific, this`deaths, this`faults
      ensures !flow.Escaped?
      ensures Durable() && SameProgress(old(Ledger()), Ledger())
      ensures !flow.Died? ==> Synced()
      ensures flow.Continues? ==> Recording(Ledger(), action.id, attempt, passed)
      ensures flow.Failed? ==> Attempting(Ledger(), action.id, attempt)
      ensures flow.Continues? ==> Evaluates(action, scope, flags, old(artifacts), gates) && passed == AllTrue(gates)
      ensures flow.Continues? ==>
                Ledger() == old(Ledger())
                  + (GateEvents(action.id, gates) + ResultEvents(action, attempt, result, passed))
      ensures Ledger() <= old(Ledger())
              + (GateEvents(action.id, gates) + ResultEvents(action, attempt, result, AllTrue(gates)))
      ensures flow.Continues? ==> artifacts == AddedAll(old(artifacts), action.id, attempt, result.artifacts)
      ensures flow.Continues? ==>
                checkpoints == AddedAll(old(checkpoints), action.id, attempt, SavedCheckpoints(action, result))
      ensures deaths == old(deaths) + One(flow.Died?)
      ensures !flow.Failed? ==> faults == old(faults)
      ensures flow.Continues? ==> !RequiredFalse(gates)
      ensures flow.Failed? ==>
                faults == old(faults) + 1 || (faults == old(faults) && GateFails(action, scope, flags, old(artifacts)))
    {
      ghost var l := Ledger();
      flow, passed, gates := EvaluateGate(action, scope, attempt);
      PrefixOfFirst(l, Ledger(), GateEvents(action.id, gates), ResultEvents(action, attempt, result, AllTrue(gates)));
      if flow.Continues? {
        Regroup(l, GateEvents(action.id, gates), ResultEvents(action, attempt, result, passed));
        flow := RecordResult(action, attempt, result, passed);
      }
    }

    /** Gates, records and the success event. */
    method RecordAndSucceed(action: SemanticAction, attempt: nat, result: ActionResult, scope: Json)
      returns (flow: Flow, ghost gates: seq<GateGroup>)
      requires Durable() && Synced() && Open(Ledger()) == InAttempt(action.id, attempt, true, false, false)
      requires attempt == Starts(Ledger(), action.id)
      modifies this`log, this`artifacts, this`checkpoints, this`numerical, this`scientific, this`deaths, this`faults
      ensures !flow.Escaped?
      ensures Durable() && old(Ledger()) <= Ledger()
      ensures !flow.Died? ==> Synced()
      ensures flow.Continues? ==> Completed(old(Ledger()), Ledger(), action.id)
      ensures flow.Failed? ==> SameProgress(old(Ledger()), Ledger()) && Attempting(Ledger(), action.id, attempt)
      ensures flow.Continues? ==> Evaluates(action, scope, flags, old(artifacts), gates)
      ensures flow.Continues? ==> Ledger() == old(Ledger()) + SuccessEvents(action, attempt, result, gates)
      ensures Ledger() <= old(Ledger()) + SuccessEvents(action, attempt, result, gates)
      ensures flow.Continues? ==> artifacts == AddedAll(old(artifacts), action.id, attempt, result.artifacts)
      ensures flow.Continues? ==>
                checkpoints == AddedAll(old(checkpoints), action.id, attempt, SavedCheckpoints(action, result))
      ensures deaths == old(deaths) + One(flow.Died?)
      ensures !flow.Failed? ==> faults == old(faults)
      ensures flow.Continues? ==> !RequiredFalse(gates)
      ensures flow.Failed? ==>
                faults == old(faults) + 1 || (faults == old(faults) && GateFails(action, scope, flags, old(artifacts)))
    {
      ghost var l := Ledger();
      var passed;
      flow, passed, gates := GateAndRecord(action, attempt, result, scope);
      ghost var recorded := GateEvents(action.id, gates) + ResultEvents(action, attempt, result, AllTrue(gates));
      if !flow.Continues? {
        PrefixOfFirst(l, Ledger(), recorded, LastEvents(action, attempt));
        return;
      }
      ghost var m := Ledger();
      flow := Succeed(action, attempt, passed);
      PartThenPart(l, m, Ledger(), recorded, LastEvents(action, attempt));
      if flow.Continues? {
        CompletedLater(l, m, Ledger(), action.id);
      } else if flow.Failed? {
        ProgressContinues(l, m, Ledger());
      }
    }

    /** Postconditions, gates and records, up to the success event. */
    method Conclude(action: SemanticAction, attempt: nat, result: ActionResult, after: Fields)
      returns (flow: Flow, ghost gates: seq<GateGroup>)
      requires Durable() && Synced() && Open(Ledger()) == InAttempt(action.id, attempt, true, false, false)
      requires attempt == Starts(Ledger(), action.id)
      modifies this`log, this`artifacts, this`checkpoints, this`numerical, this`scientific, this`deaths, this`faults
      ensures !flow.Escaped?
      ensures Durable() && old(Ledger()) <= Ledger()
      ensures !flow.Died? ==> Synced()
      ensures flow.Continues? ==> Completed(old(Ledger()), Ledger(), action.id)
      ensures flow.Failed? ==> SameProgress(old(Ledger()), Ledger()) && Attempting(Ledger(), action.id, attempt)
      ensures flow.Continues? ==>
                && AllConditions(action.postconditions, ConditionScope(after, Some(result))) == Some(true)
                && Evaluates(action, ConditionScope(after, Some(result)), flags, old(artifacts), gates)
      ensures flow.Continues? ==> Ledger() == old(Ledger()) + SuccessEvents(action, attempt, result, gates)
      ensures Ledger() <= old(Ledger()) + SuccessEvents(action, attempt, result, gates)
      ensures flow.Continues? ==> artifacts == AddedAll(old(artifacts), action.id, attempt, result.artifacts)
      ensures flow.Continues? ==>
                checkpoints == AddedAll(old(checkpoints), action.id, attempt, SavedCheckpoints(action, result))
      ensures deaths == old(deaths) + One(flow.Died?)
      ensures !flow.Failed? ==> faults == old(faults)
      ensures flow.Continues? ==> !RequiredFalse(gates)
      ensures flow.Failed? ==>
                || faults == old(faults) + 1
                || (faults == old(faults) && NotConcluded(action, after, result, flags, old(artifacts)))
    {
      var scope := ConditionScope(after, Some(result));
      if AllConditions(action.postconditions, scope) != Some(true) {
        return Flow.Failed, [];
      }
      flow, gates := RecordAndSucceed(action, attempt, result, scope);
    }

    /** One attempt from its preconditions to its success event; `Failed` stands for any raised exception. */
    method TryAttempt(action: SemanticAction, attempt: nat, before: Fields)
      returns (flow: Flow, ghost gates: seq<GateGroup>, ghost result: ActionResult, ghost after: Fields)
      requires Durable() && Synced() && Open(Ledger()) == InAttempt(action.id, attempt, true, false, false)
      requires attempt == Starts(Ledger(), action.id)
      requires OnlyPhases(snapshots, action.id, attempt, {Before})
      modifies this`log, this`snapshots, this`artifacts, this`checkpoints, this`numerical, this`scientific, this`deaths,
        this`faults
      ensures !flow.Escaped?
      ensures Durable() && old(Ledger()) <= Ledger()
      ensures !flow.Died? ==> Synced()
      ensures flow.Continues? ==> Completed(old(Ledger()), Ledger(), action.id)
      ensures flow.Failed? ==> SameProgress(old(Ledger()), Ledger()) && Attempting(Ledger(), action.id, attempt)
      ensures flow.Failed? ==> OnlyPhases(snapshots, action.id, attempt, {Before, After})
      ensures flow.Continues? ==> AllConditions(action.preconditions, ConditionScope(before, None)) == Some(true)
      ensures flow.Continues? ==> Ledger() == old(Ledger()) + AttemptEvents(action, attempt, result, gates)
      ensures Ledger() <= old(Ledger()) + AttemptEvents(action, attempt, result, gates)
      ensures flow.Continues? ==> artifacts == AddedAll(old(artifacts), action.id, attempt, result.artifacts)
      ensures flow.Continues? ==>
                checkpoints == AddedAll(old(checkpoints), action.id, attempt, SavedCheckpoints(action, result))
      ensures deaths == old(deaths) + One(flow.Died?)
      ensures !flow.Failed? ==> faults == old(faults)
      ensures flow.Continues? ==>
                && AllConditions(action.postconditions, ConditionScope(after, Some(result))) == Some(true)
                && Evaluates(action, ConditionScope(after, Some(result)), flags, old(artifacts), gates)
                  && !RequiredFalse(gates)
      ensures flow.Failed? ==>
                || faults == old(faults) + 1
                || (faults == old(faults) && Justifies(Unmet(before, after, result, old(artifacts)), action, flags))
    {
      ghost var l := Ledger();
      flow, gates := Died, [];
      var returned, observed;
      flow, returned, observed := CallAndObserve(action, attempt, before);
      result, after := returned, observed;
      if !flow.Continues? {
        PrefixOfFirst(l, Ledger(), CallEvents(action, attempt), SuccessEvents(action, attempt, result, gates));
        return;
      }
      ghost var m := Ledger();
      flow, gates := Conclude(action, attempt, returned, observed);
      PartThenPart(l, m, Ledger(), CallEvents(action, attempt), SuccessEvents(action, attempt, result, gates));
      if flow.Continues? {
        CompletedLater(l, m, Ledger(), action.id);
      } else if flow.Failed? {
        ProgressContinues(l, m, Ledger());
      }
    }

    /** The call of the adapter and the snapshot after it. */
    method CallAndObserve(action: SemanticAction, attempt: nat, before: Fields)
      returns (flow: Flow, result: ActionResult, after: Fields)
      requires Durable() && Synced() && Open(Ledger()) == InAttempt(action.id, attempt, true, false, false)
      requires attempt == Starts(Ledger(), action.id)
      requires OnlyPhases(snapshots, action.id, attempt, {Before})
      modifies this`log, this`snapshots, this`deaths, this`faults
      ensures !flow.Escaped?
      ensures Durable() && Synced() && SameProgress(old(Ledger()), Ledger())
      ensures Open(Ledger()) == InAttempt(action.id, attempt, true, false, false)
      ensures OnlyPhases(snapshots, action.id, attempt, {Before, After})
      ensures flow.Continues? ==> AllConditions(action.preconditions, ConditionScope(before, None)) == Some(true)
      ensures flow.Continues? ==> Ledger() == old(Ledger()) + CallEvents(action, attempt)
      ensures Ledger() <= old(Ledger()) + CallEvents(action, attempt)
      ensures deaths == old(deaths) + One(flow.Died?)
      ensures faults == old(faults)
              + One(flow.Failed? && AllConditions(action.preconditions, ConditionScope(before, None)) == Some(true))
    {
      ghost var l := Ledger();
      after := *;
      flow, result := CallAdapter(action, attempt, before);
      PrefixOfFirst(l, Ledger(), RequestEvents(action), [SnapshotRecorded(action.id, attempt, After)]);
      if flow.Continues? {
        Regroup(l, RequestEvents(action), [SnapshotRecorded(action.id, attempt, After)]);
        assert {Before} + {After} == {Before, After};
        flow := TakeSnapshot(action.id, attempt, After, {Before});
      }
    }

    /** Opens the next attempt of an action. */
    method OpenAttempt(action: SemanticAction, attempt: nat, invocation: nat) returns (died: bool)
      requires Durable() && Synced() && Idle(Ledger()) && IsNext(plan, Ledger(), action.id)
      requires attempt == Starts(Ledger(), action.id) + 1
      modifies this`log, this`deaths
      ensures Durable() && Synced() && OnlyPhases(snapshots, action.id, attempt, {})
      ensures Ledger() == old(Ledger()) + [ActionStarted(action.id, attempt, invocation)]
      ensures Open(Ledger()) == InAttempt(action.id, attempt, true, false, false)
      ensures Starts(Ledger(), action.id) == attempt && Succeeded(Ledger()) == old(Succeeded(Ledger()))
      ensures SessionOf(Ledger()) == old(SessionOf(Ledger()))
      ensures deaths == old(deaths) + One(died)
    {
      NoSnapshotsYet(snapshots, Ledger(), action.id, attempt);
      died := AppendEvent(ActionStarted(action.id, attempt, invocation));
    }

    /** Opens the next attempt of an action and takes its first snapshot; nothing catches what this raises. */
    method StartAttempt(action: SemanticAction, attempt: nat, invocation: nat) returns (flow: Flow)
      requires Durable() && Synced() && Idle(Ledger()) && IsNext(plan, Ledger(), action.id)
      requires attempt == Starts(Ledger(), action.id) + 1
      modifies this`log, this`snapshots, this`deaths, this`faults, this`deaths, this`faults
      ensures Durable() && Synced() && old(Ledger()) <= Ledger() && !flow.Failed?
      ensures !flow.Died? ==> Open(Ledger()) == InAttempt(action.id, attempt, true, false, false)
      ensures !flow.Died? ==> Starts(Ledger(), action.id) == attempt && Succeeded(Ledger()) == old(Succeeded(Ledger()))
      ensures !flow.Died? ==> SessionOf(Ledger()) == old(SessionOf(Ledger()))
      ensures flow.Continues? ==> OnlyPhases(snapshots, action.id, attempt, {Before})
      ensures flow.Escaped? ==> snapshots == old(snapshots)
      ensures flow.Escaped? ==> Ledger() == old(Ledger()) + [ActionStarted(action.id, attempt, invocation)]
      ensures flow.Continues? ==> Ledger() == old(Ledger()) + StartEvents(action.id, attempt, invocation)
      ensures deaths == old(deaths) + One(flow.Died?)
      ensures faults == old(faults) + One(flow.Escaped?)
      ensures |Ledger()| > |old(Ledger())| && Ledger()[|old(Ledger())|] == ActionStarted(action.id, attempt, invocation)
    {
      var died := OpenAttempt(action, attempt, invocation);
      if died {
        return Flow.Died;
      }
      ghost var begun := Ledger();
      flow := TakeSnapshot(action.id, attempt, Before, {});
      assert {} + {Before} == {Before};
      if flow.Failed? {
        return Escaped;
      }
      if flow.Continues? {
        StartedWith(old(Ledger()), begun, Ledger(), action.id, attempt, invocation);
      }
    }

    /** The failure snapshot and the event that ends a failed attempt; nothing catches what this raises. */
    method FailAttempt(action: SemanticAction, attempt: nat, willRetry: bool) returns (flow: Flow)
      requires Durable() && Synced() && Attempting(Ledger(), action.id, attempt)
      requires attempt == Starts(Ledger(), action.id)
      requires OnlyPhases(snapshots, action.id, attempt, {Before, After})
      modifies this`log, this`snapshots, this`deaths, this`faults
      ensures Durable() && Synced() && old(Ledger()) <= Ledger() && !flow.Continues?
      ensures !flow.Died? ==> Succeeded(Ledger()) == old(Succeeded(Ledger())) && Starts(Ledger(), action.id) == attempt
      ensures !flow.Died? ==> SessionOf(Ledger()) == old(SessionOf(Ledger()))
      ensures flow.Failed? ==> Open(Ledger()).NoAttempt?
      ensures flow.Failed? ==> Ledger() == old(Ledger()) + [ActionFailed(action.id, attempt, willRetry)]
      ensures flow.Failed? ==> snapshots == old(snapshots) + [SnapshotKey(action.id, attempt, Failure)]
      ensures flow.Escaped? ==> log == old(log)
      ensures deaths == old(deaths) + One(flow.Died?)
      ensures !flow.Died? ==> faults == old(faults) + One(flow.Escaped?)
      ensures faults >= old(faults)
    {
      assert SnapshotKey(action.id, attempt, Failure) !in snapshots;
      flow := WriteSnapshot(action.id, attempt, Failure);
      if flow.Died? {
        return;
      }
      if flow.Failed? {
        return Escaped;
      }
      var raises := MayRaise();
      if raises {
        return Escaped;
      }
      var died := AppendEvent(ActionFailed(action.id, attempt, willRetry));
      flow := if died then Flow.Died else Flow.Failed;
    }

    /** An attempt after its first snapshot, with the event that ends it. */
    method TryAndClose(action: SemanticAction, attempt: nat, before: Fields, willRetry: bool)
      returns (flow: Flow, ghost cause: Cause)
      requires Durable() && Synced() && Open(Ledger()) == InAttempt(action.id, attempt, true, false, false)
      requires SessionOf(Ledger()).Session? && attempt == Starts(Ledger(), action.id)
      requires OnlyPhases(snapshots, action.id, attempt, {Before})
      modifies this`log, this`snapshots, this`artifacts, this`checkpoints, this`numerical, this`scientific, this`deaths,
        this`faults
      ensures Durable() && old(Ledger()) <= Ledger()
      ensures !flow.Died? ==> Synced() && SessionOf(Ledger()) == old(SessionOf(Ledger()))
      ensures flow.Continues? ==>
                Open(Ledger()).NoAttempt? && Succeeded(Ledger()) == old(Succeeded(Ledger())) + [action.id]
      ensures Raised(flow) ==> Succeeded(Ledger()) == old(Succeeded(Ledger())) && Starts(Ledger(), action.id) == attempt
      ensures flow.Failed? ==>
                Open(Ledger()).NoAttempt? && LastIs(Ledger(), ActionFailed(action.id, attempt, willRetry))
      ensures flow.Escaped? ==> Attempting(Ledger(), action.id, attempt)
      ensures deaths == old(deaths) + One(flow.Died?)
      ensures flow.Continues? ==> faults == old(faults)
      ensures flow.Failed? ==> Justifies(cause, action, flags) && faults == old(faults) + One(cause.SomethingRaised?)
      ensures flow.Escaped? ==> faults > old(faults)
      ensures faults >= old(faults)
    {
      ghost var gates, result, after;
      ghost var calm, listed := faults, artifacts;
      flow, gates, result, after := TryAttempt(action, attempt, before);
      cause := if faults == calm then Unmet(before, after, result, listed) else SomethingRaised;
      if flow.Failed? {
        flow := FailAttempt(action, attempt, willRetry);
      }
    }

    /** One attempt, from its start event to the event that ends it. */
    method AttemptOnce(action: SemanticAction, attempt: nat, invocation: nat) returns (flow: Flow, ghost cause: Cause)
      requires Durable() && Synced() && Idle(Ledger()) && IsNext(plan, Ledger(), action.id)
      requires attempt == Starts(Ledger(), action.id) + 1
      modifies this`log, this`snapshots, this`artifacts, this`checkpoints, this`numerical, this`scientific, this`deaths,
        this`faults
      ensures Durable() && old(Ledger()) <= Ledger()
      ensures !flow.Died? ==> Synced() && SessionOf(Ledger()) == old(SessionOf(Ledger()))
      ensures flow.Continues? ==> Idle(Ledger()) && Succeeded(Ledger()) == old(Succeeded(Ledger())) + [action.id]
      ensures Raised(flow) ==> Succeeded(Ledger()) == old(Succeeded(Ledger())) && Starts(Ledger(), action.id) == attempt
      ensures flow.Failed? ==>
                Idle(Ledger()) && LastIs(Ledger(), ActionFailed(action.id, attempt, invocation < action.maxAttempts))
      ensures flow.Escaped? ==> Attempting(Ledger(), action.id, attempt)
      ensures deaths == old(deaths) + One(flow.Died?)
      ensures flow.Continues? ==> faults == old(faults)
      ensures flow.Failed? ==> Justifies(cause, action, flags) && faults == old(faults) + One(cause.SomethingRaised?)
      ensures flow.Escaped? ==> faults > old(faults)
      ensures |Ledger()| > |old(Ledger())| && Ledger()[|old(Ledger())|] == ActionStarted(action.id, attempt, invocation)
      ensures faults >= old(faults)
    {
      cause := SomethingRaised;
      flow := StartAttempt(action, attempt, invocation);
      if flow.Continues? {
        var before: Fields := *;
        flow, cause := TryAndClose(action, attempt, before, invocation < action.maxAttempts);
      }
    }

    predicate Raised(flow: Flow) {
      flow.Failed? || flow.Escaped?
    }

    /** One turn of the retry loop, after attempts that failed because of `earlier`. */
    method Retry(action: SemanticAction, prior: nat, invocation: nat, ghost earlier: seq<Cause>)
      returns (flow: Flow, ghost causes: seq<Cause>)
      requires Durable() && Synced() && Idle(Ledger()) && IsNext(plan, Ledger(), action.id)
      requires |earlier| + 1 == invocation <= action.maxAttempts
      requires Starts(Ledger(), action.id) == prior + |earlier| && Explained(Ledger(), action, prior, earlier, flags)
      modifies this`log, this`snapshots, this`artifacts, this`checkpoints, this`numerical, this`scientific
      modifies this`deaths, this`faults
      ensures Durable() && old(Ledger()) <= Ledger()
      ensures !flow.Died? ==> Synced() && SessionOf(Ledger()) == old(SessionOf(Ledger()))
      ensures flow.Continues? ==> Idle(Ledger()) && Succeeded(Ledger()) == old(Succeeded(Ledger())) + [action.id]
      ensures Raised(flow) ==> Succeeded(Ledger()) == old(Succeeded(Ledger()))
      ensures Raised(flow) ==> Starts(Ledger(), action.id) == prior + invocation
      ensures flow.Failed? ==> Idle(Ledger())
      ensures flow.Escaped? ==> Attempting(Ledger(), action.id, prior + invocation) && faults > old(faults)
      ensures Explained(Ledger(), action, prior, causes, flags) && |causes| == |earlier| + One(flow.Failed?)
      ensures StartedWithNumber(Ledger(), action.id, prior + invocation, invocation)
      ensures deaths == old(deaths) + One(flow.Died?) && faults >= old(faults)
      ensures flow.Failed? ==> faults == old(faults) + Faults(causes) - Faults(earlier)
      ensures flow.Continues? ==> faults == old(faults) && causes == earlier
    {
      ghost var before := Ledger();
      ghost var cause;
      flow, cause := AttemptOnce(action, prior + invocation, invocation);
      AttemptLogged(before, Ledger(), action, prior, |earlier|, flow.Failed?);
      causes := earlier;
      if flow.Failed? {
        OneMoreCause(earlier, cause, action, flags);
        causes := earlier + [cause];
      }
    }

    /**
     The retry loop of one action; an exception that nothing catches leaves it at once.  Of each attempt before
     the last one made, `causes` says why it failed.
     */
    method ExecuteAction(action: SemanticAction) returns (flow: Flow, ghost causes: seq<Cause>)
      requires Durable() && Synced() && Idle(Ledger()) && IsNext(plan, Ledger(), action.id)
      requires action.maxAttempts >= 1
      modifies this`log, this`snapshots, this`artifacts, this`checkpoints, this`numerical, this`scientific
      modifies this`deaths, this`faults
      ensures Durable() && old(Ledger()) <= Ledger()
      ensures !flow.Died? ==> Synced() && SessionOf(Ledger()) == old(SessionOf(Ledger()))
      ensures flow.Continues? ==> Idle(Ledger()) && Succeeded(Ledger()) == old(Succeeded(Ledger())) + [action.id]
      ensures Raised(flow) ==> Succeeded(Ledger()) == old(Succeeded(Ledger()))
      ensures flow.Failed? ==>
                Idle(Ledger()) && Starts(Ledger(), action.id) == old(Starts(Ledger(), action.id)) + action.maxAttempts
      ensures flow.Escaped? ==>
                && Attempting(Ledger(), action.id, Starts(Ledger(), action.id))
                && 1 <= Starts(Ledger(), action.id) - old(Starts(Ledger(), action.id)) <= action.maxAttempts
      ensures deaths == old(deaths) + One(flow.Died?)
      ensures Explained(Ledger(), action, old(Starts(Ledger(), action.id)), causes, flags)
      ensures flow.Failed? ==> |causes| == action.maxAttempts && faults == old(faults) + Faults(causes)
      ensures !flow.Failed? ==>
                && |causes| < action.maxAttempts
                && StartedWithNumber(Ledger(), action.id, old(Starts(Ledger(), action.id)) + |causes| + 1, |causes| + 1)
      ensures flow.Continues? ==> faults == old(faults) + Faults(causes)
      ensures flow.Escaped? ==> faults > old(faults)
      ensures faults >= old(faults)
    {
      var prior := Starts(Ledger(), action.id);
      causes := [];
      ghost var start := Ledger();
      for invocation := 1 to action.maxAttempts + 1
        invariant Durable() && Synced() && Idle(Ledger()) && start <= Ledger()
        invariant SessionOf(Ledger()) == SessionOf(start) && Succeeded(Ledger()) == Succeeded(start)
        invariant Starts(Ledger(), action.id) == prior + invocation - 1
        invariant deaths == old(deaths) && faults == old(faults) + Faults(causes)
        invariant |causes| == invocation - 1 && Explained(Ledger(), action, prior, causes, flags)
      {
        flow, causes := Retry(action, prior, invocation, causes);
        if !flow.Failed? {
          return;
        }
      }
      flow := Flow.Failed;
    }

    // ---------- a whole application of the plan ----------

    /** Asks the adapter whether recorded successes may be resumed; a refusal is recorded. */
    method AskRehydrate(completed: set<string>) returns (died: bool, accepts: bool)
      requires Durable() && Synced() && completed == SuccessSet(Ledger()) && completed != {}
      modifies this`log, this`accepted, this`deaths, this`refusals
      ensures Durable() && Synced() && old(accepted) <= accepted
      ensures accepts ==> log == old(log) && |log| in accepted && !died
      ensures !accepts ==> Ledger() == old(Ledger()) + [RunResumeRejected(completed)]
      ensures deaths == old(deaths) + One(died)
      ensures refusals == old(refusals) + One(!accepts)
    {
      died, accepts := false, *;
      refusals := refusals + One(!accepts);
      if accepts {
        AcceptMore(Ledger(), accepted, accepted + {|log|});
        accepted := accepted + {|log|};
        return;
      }
      died := AppendEvent(RunResumeRejected(completed));
    }

    /** The rehydration of an adapter: `None` if it may go on. */
    method Rehydrate(completed: set<string>) returns (refusal: Option<ApplyResult>)
      requires Durable() && Synced() && completed == SuccessSet(Ledger()) && completed != {}
      modifies this`log, this`accepted, this`deaths, this`faults, this`refusals
      ensures Durable() && Synced() && old(accepted) <= accepted
      ensures refusal.None? ==> log == old(log) && |log| in accepted
      ensures refusal.Some? ==> refusal.value.AdapterRaised? || refusal.value.CannotResume? || refusal.value.Crashed?
      ensures refusal == Some(AdapterRaised) ==> log == old(log)
      ensures refusal.Some? && refusal != Some(AdapterRaised) ==>
                Ledger() == old(Ledger()) + [RunResumeRejected(completed)] && refusals > old(refusals)
      ensures deaths == old(deaths) + One(refusal == Some(Crashed))
      ensures faults == old(faults) + One(refusal == Some(AdapterRaised))
    {
      var raises := MayRaise();
      if raises {
        return Some(AdapterRaised);
      }
      var died, accepts := AskRehydrate(completed);
      return if accepts then None else if died then Some(Crashed) else Some(CannotResume);
    }

    /** Recorded successes may be resumed only if the adapter accepts them. */
    method MayResume(completed: set<string>) returns (refusal: Option<ApplyResult>)
      requires Durable() && Synced() && completed == SuccessSet(Ledger())
      modifies this`log, this`accepted, this`deaths, this`faults, this`refusals
      ensures Durable() && Synced() && old(accepted) <= accepted
      ensures refusal.None? ==> log == old(log) && (completed != {} ==> |log| in accepted)
      ensures refusal.Some? ==> refusal.value.AdapterRaised? || refusal.value.CannotResume? || refusal.value.Crashed?
      ensures refusal.Some? ==> old(log) != []
      ensures refusal == Some(AdapterRaised) ==> log == old(log)
      ensures refusal.Some? && refusal != Some(AdapterRaised) ==>
                Ledger() == old(Ledger()) + [RunResumeRejected(completed)] && refusals > old(refusals)
      ensures deaths == old(deaths) + One(refusal == Some(Crashed))
      ensures faults == old(faults) + One(refusal == Some(AdapterRaised))
    {
      if log == [] || completed == {} {
        return None;
      }
      refusal := Rehydrate(completed);
    }

    /** The optional preparation of the adapter. */
    method PrepareAdapter() returns (died: bool, raises: bool)
      requires Durable() && Synced() && Idle(Ledger())
      modifies this`log, this`deaths, this`faults
      ensures Durable() && Synced() && Idle(Ledger())
      ensures Ledger() == old(Ledger()) || Ledger() == old(Ledger()) + [AdapterPrepared]
      ensures Succeeded(Ledger()) == old(Succeeded(Ledger())) && SessionOf(Ledger()) == old(SessionOf(Ledger()))
      ensures deaths == old(deaths) + One(died)
      ensures faults == old(faults) + One(raises)
      ensures raises ==> log == old(log) && !died
    {
      var prepares: bool := *;
      died, raises := false, false;
      if prepares {
        raises := MayRaise();
        if !raises {
          died := AppendEvent(AdapterPrepared);
        }
      }
    }

    /** The event that opens a session. */
    method BeginSession(ghost completed: set<string>) returns (died: bool)
      requires Durable() && Synced() && completed == SuccessSet(Ledger())
      requires completed != {} ==> |log| in accepted
      modifies this`log, this`deaths
      ensures Durable() && Synced() && Idle(Ledger()) && SessionOf(Ledger()) == Session(old(log) != [], completed)
      ensures Ledger() == old(Ledger()) + [SessionEvent(old(log) == [])]
      ensures Succeeded(Ledger()) == old(Succeeded(Ledger())) && deaths == old(deaths) + One(died)
    {
      died := AppendEvent(SessionEvent(log == []));
    }

    /** Start or resume event, then the optional preparation of the adapter. */
    method EnterSession(completed: set<string>) returns (r: Opening)
      requires Durable() && Synced() && completed == SuccessSet(Ledger())
      requires completed != {} ==> |log| in accepted
      modifies this`log, this`deaths, this`faults
      ensures Durable() && Synced() && old(Ledger()) < Ledger()
      ensures Ledger()[old(|log|)] == SessionEvent(old(log) == [])
      ensures r.Opened? ==> Idle(Ledger()) && Succeeded(Ledger()) == old(Succeeded(Ledger()))
      ensures r.Opened? ==> r.completed == completed
      ensures r.Opened? ==> SessionOf(Ledger()) == Session(old(log) != [], completed)
      ensures r.NotOpened? ==> r.result.AdapterRaised? || r.result.Crashed?
      ensures deaths == old(deaths) + One(r == NotOpened(Crashed))
      ensures faults == old(faults) + One(r == NotOpened(AdapterRaised))
      ensures r == NotOpened(AdapterRaised) ==> Ledger() == old(Ledger()) + [SessionEvent(old(log) == [])]
    {
      var died := BeginSession(completed);
      if died {
        return NotOpened(Crashed);
      }
      var raises;
      died, raises := PrepareAdapter();
      return if raises then NotOpened(AdapterRaised) else if died then NotOpened(Crashed) else Opened(completed);
    }

    /** Everything up to the first plan entry. */
    method OpenSession(resume: bool) returns (r: Opening)
      requires Durable() && Synced()
      modifies this`log, this`accepted, this`deaths, this`faults, this`refusals
      ensures Durable() && Synced() && old(Ledger()) <= Ledger() && old(accepted) <= accepted
      ensures old(log) == [] ==> log != []
      ensures old(log) != [] && !resume <==> r == NotOpened(LedgerExists)
      ensures r == NotOpened(LedgerExists) ==> log == old(log)
      ensures r == NotOpened(CannotResume) ==>
                Ledger() == old(Ledger()) + [RunResumeRejected(old(SuccessSet(Ledger())))]
      ensures r.Opened? ==> Idle(Ledger()) && AtEntry(Ledger(), 0) && r.completed == SuccessSet(Ledger())
      ensures r.NotOpened? ==> !r.result.Finished? && !r.result.ExecutionFailed? && !r.result.DependenciesIncomplete?
      ensures deaths == old(deaths) + One(r == NotOpened(Crashed))
      ensures faults == old(faults) + One(r == NotOpened(AdapterRaised))
      ensures r == NotOpened(CannotResume) ==> refusals > old(refusals) && old(log) != []
      ensures r == NotOpened(AdapterRaised) && old(log) == [] ==> Ledger() == [RunStarted]
    {
      if log != [] && !resume {
        return NotOpened(LedgerExists);
      }
      var completed := SuccessSet(Ledger());
      var refusal := MayResume(completed);
      if refusal.Some? {
        return NotOpened(refusal.value);
      }
      r := EnterSession(completed);
      if r.Opened? {
        SessionStart(Ledger(), completed);
      }
    }

    /** An action that had succeeded before this session is passed over. */
    method SkipEntry(action: string) returns (step: Step)
      requires Durable() && Synced() && Idle(Ledger()) && SessionOf(Ledger()) == Session(true, SuccessSet(Ledger()))
      requires action in SuccessSet(Ledger())
      modifies this`log, this`deaths
      ensures Durable() && Synced() && old(Ledger()) <= Ledger() && Idle(Ledger())
      ensures Succeeded(Ledger()) == old(Succeeded(Ledger())) && SessionOf(Ledger()) == old(SessionOf(Ledger()))
      ensures Ledger() == old(Ledger()) + [ActionSkipped(action)]
      ensures step.Advanced? || step.Halted?
      ensures deaths == old(deaths) + One(step.Halted?)
    {
      var died := AppendEvent(ActionSkipped(action));
      step := if died then Halted else Advanced;
    }

    /** All allowed attempts failed, each for a reason, or an exception ended the retries. */
    ghost predicate JustlyGivenUp(action: SemanticAction, causes: seq<Cause>, faulted: bool)
      reads this`flags
    {
      AllJustified(causes, action, flags) && (|causes| == action.maxAttempts || faulted)
    }

    /** An action that has not succeeded is executed; giving up is recorded. */
    method PerformEntry(action: SemanticAction) returns (step: Step, ghost causes: seq<Cause>)
      requires Durable() && Synced() && Idle(Ledger()) && IsNext(plan, Ledger(), action.id)
      requires action.maxAttempts >= 1
      modifies this`log, this`snapshots, this`artifacts, this`checkpoints, this`numerical, this`scientific
      modifies this`deaths, this`faults
      ensures Durable() && old(Ledger()) <= Ledger()
      ensures !step.Blocked?
      ensures !step.Halted? ==> Synced() && Idle(Ledger())
      ensures step.Advanced? ==> Succeeded(Ledger()) == old(Succeeded(Ledger())) + [action.id]
      ensures step.GaveUp? ==> Succeeded(Ledger()) == old(Succeeded(Ledger())) && LastIs(Ledger(), RunFailed(action.id))
      ensures deaths == old(deaths) + One(step.Halted?)
      ensures step.GaveUp? ==> JustlyGivenUp(action, causes, faults > old(faults))
      ensures faults >= old(faults)
    {
      var flow;
      flow, causes := ExecuteAction(action);
      if flow.Died? {
        step := Halted;
      } else if Raised(flow) {
        var died := AppendEvent(RunFailed(action.id));
        step := if died then Halted else GaveUp;
      } else {
        step := Advanced;
      }
    }

    /** One entry of the plan: dependencies, skip, or execution with its retries. */
    method RunEntry(i: nat, completed: set<string>) returns (step: Step, now: set<string>, ghost causes: seq<Cause>)
      requires i < |plan|
      requires Durable() && Synced() && Idle(Ledger()) && AtEntry(Ledger(), i) && completed == SuccessSet(Ledger())
      modifies this`log, this`snapshots, this`artifacts, this`checkpoints, this`numerical, this`scientific
      modifies this`deaths, this`faults
      ensures Durable() && old(Ledger()) <= Ledger()
      ensures !step.Blocked?
      ensures !step.Halted? ==> Synced() && Idle(Ledger()) && now == SuccessSet(Ledger())
      ensures step.Advanced? ==> AtEntry(Ledger(), i + 1)
      ensures i < |old(Succeeded(Ledger()))| ==> Ledger() == old(Ledger()) + [ActionSkipped(plan[i].id)]
      ensures step.GaveUp? ==> |Succeeded(Ledger())| == i && LastIs(Ledger(), RunFailed(plan[i].id))
      ensures deaths == old(deaths) + One(step.Halted?)
      ensures faults >= old(faults)
      ensures step.GaveUp? ==> JustlyGivenUp(plan[i], causes, faults > old(faults))
    {
      var action := plan[i];
      now, causes := completed, [];
      DependenciesSucceeded(plan, Ledger(), i);
      SucceededPositions(plan, Ledger(), i);
      var unsatisfied := set d | d in action.dependsOn && d !in completed;
      if unsatisfied != {} {
        step := Blocked;
        return;
      }
      if action.id in completed {
        step := SkipEntry(action.id);
        return;
      }
      step, causes := PerformEntry(action);
      if step.Advanced? {
        now := completed + {action.id};
      }
    }

    /** The entry with this id is one that was justly given up. */
    ghost predicate FailsFor(id: string, causes: seq<Cause>, faulted: bool)
      reads this`flags
    {
      exists i :: 0 <= i < |plan| && plan[i].id == id && JustlyGivenUp(plan[i], causes, faulted)
    }

    /** The entries of the plan one after another, until one gives up. */
    method RunEntries(earlier: set<string>)
      returns (step: Step, completed: set<string>, failed: Option<string>, ghost causes: seq<Cause>)
      requires Durable() && Synced() && Idle(Ledger()) && earlier == SuccessSet(Ledger()) && AtEntry(Ledger(), 0)
      modifies this`log, this`snapshots, this`artifacts, this`checkpoints, this`numerical, this`scientific
      modifies this`deaths, this`faults
      ensures Durable() && old(Ledger()) <= Ledger()
      ensures !step.Blocked?
      ensures !step.Halted? ==> Synced() && Idle(Ledger()) && completed == SuccessSet(Ledger())
      ensures step.Advanced? ==> failed == None && |Succeeded(Ledger())| >= |plan|
      ensures step.GaveUp? ==>
                failed.Some? && LastIs(Ledger(), RunFailed(failed.value)) && IsNext(plan, Ledger(), failed.value)
      ensures deaths == old(deaths) + One(step.Halted?)
      ensures faults >= old(faults)
      ensures !step.Halted? && failed.Some? ==> FailsFor(failed.value, causes, faults > old(faults))
    {
      completed, failed, step, causes := earlier, None, Advanced, [];
      ghost var start := Ledger();
      for i := 0 to |plan|
        invariant Durable() && Synced() && Idle(Ledger()) && completed == SuccessSet(Ledger())
        invariant start <= Ledger() && AtEntry(Ledger(), i)
        invariant failed == None && step.Advanced?
        invariant deaths == old(deaths) && faults >= old(faults)
      {
        step, completed, causes := RunEntry(i, completed);
        if !step.Advanced? {
          failed := if step.GaveUp? then Some(plan[i].id) else None;
          return;
        }
      }
    }

    /** The success event of a run of which every entry has succeeded. */
    method RecordSuccess(completed: set<string>) returns (died: bool)
      requires Durable() && Synced() && Idle(Ledger()) && completed == SuccessSet(Ledger())
      requires |Succeeded(Ledger())| >= |plan|
      modifies this`log, this`deaths
      ensures Durable() && Synced() && old(Ledger()) <= Ledger()
      ensures Idle(Ledger()) && completed == SuccessSet(Ledger()) && Ends(plan, Ledger(), None)
      ensures deaths == old(deaths) + One(died)
    {
      AllSucceeded(plan, Ledger());
      died := AppendEvent(RunSucceeded(completed));
    }

    /** All entries of the plan, and the success event of the run if none gave up. */
    method RunPlan(earlier: set<string>)
      returns (step: Step, completed: set<string>, failed: Option<string>, ghost causes: seq<Cause>)
      requires Durable() && Synced() && Idle(Ledger()) && earlier == SuccessSet(Ledger()) && AtEntry(Ledger(), 0)
      modifies this`log, this`snapshots, this`artifacts, this`checkpoints, this`numerical, this`scientific
      modifies this`deaths, this`faults
      ensures Durable() && old(Ledger()) <= Ledger()
      ensures !step.Blocked?
      ensures !step.Halted? ==> Synced() && Idle(Ledger()) && completed == SuccessSet(Ledger())
      ensures !step.Halted? ==> Ends(plan, Ledger(), failed)
      ensures deaths == old(deaths) + One(step.Halted?)
      ensures faults >= old(faults)
      ensures !step.Halted? && failed.Some? ==> FailsFor(failed.value, causes, faults > old(faults))
    {
      step, completed, failed, causes := RunEntries(earlier);
      if step.Advanced? {
        var died := RecordSuccess(completed);
        step := if died then Halted else Advanced;
      }
    }

    method RecordCloseFailure(ghost failed: Option<string>) returns (died: bool)
      requires Durable() && Synced() && Ends(plan, Ledger(), failed)
      modifies this`log, this`deaths
      ensures Durable() && Synced() && SuccessSet(Ledger()) == old(SuccessSet(Ledger()))
      ensures Ledger() == old(Ledger()) + [AdapterCloseFailed] && EndsOrCloseFailed(plan, Ledger(), failed)
      ensures deaths == old(deaths) + One(died)
    {
      CloseFailureEnds(plan, Ledger(), failed);
      died := AppendEvent(AdapterCloseFailed);
    }

    /** Closing the adapter may fail; the failure is recorded and replaces nothing. */
    method CloseAdapter(ghost failed: Option<string>) returns (died: bool)
      requires Durable() && Synced() && Ends(plan, Ledger(), failed)
      modifies this`log, this`deaths, this`faults
      ensures Durable() && Synced() && SuccessSet(Ledger()) == old(SuccessSet(Ledger()))
      ensures Ledger() == old(Ledger()) || Ledger() == old(Ledger()) + [AdapterCloseFailed]
      ensures EndsOrCloseFailed(plan, Ledger(), failed)
      ensures deaths == old(deaths) + One(died)
      ensures faults == old(faults) + One(Ledger() != old(Ledger()))
    {
      var raises := MayRaise();
      if !raises {
        return false;
      }
      died := RecordCloseFailure(failed);
    }

    /** The summary says what the ledger says. */
    ghost predicate Describes(s: ExecutionSummary, failed: Option<string>)
      reads this
    {
      && s.orchestration == (if failed.Some? then "failed" else "succeeded")
      && s.numerical == Replay(Ledger(), "numerical")
      && s.scientific == Replay(Ledger(), "scientific")
      && s.completed == Succeeded(Ledger())
      && s.failedAction == failed
    }

    /** The run has ended as `failed` says, with a summary of it in its file. */
    ghost predicate Concluded(s: ExecutionSummary, failed: Option<string>)
      reads this
    {
      Describes(s, failed) && EndsOrCloseFailed(plan, Ledger(), failed) && summary == Some(s)
    }

    /** A result that comes with a summary is that of a run that has ended accordingly. */
    ghost predicate ResultHolds(r: ApplyResult)
      reads this
    {
      && (r.Finished? ==> Concluded(r.summary, None))
      && (r.ExecutionFailed? ==> r.summary.failedAction.Some? && Concluded(r.summary, r.summary.failedAction))
    }

    /** The summary of a run that has ended, written to its file. */
    method Summarize(completed: set<string>, failed: Option<string>) returns (r: ApplyResult)
      requires Durable() && Synced() && completed == SuccessSet(Ledger()) && EndsOrCloseFailed(plan, Ledger(), failed)
      modifies this`summary, this`deaths
      ensures Durable() && Synced() && ResultHolds(r)
      ensures r.Crashed? || (if failed.Some? then r.ExecutionFailed? && r.summary.failedAction == failed
              else r.Finished?)
      ensures deaths == old(deaths) + One(r.Crashed?)
    {
      var text := if failed.Some? then "failed" else "succeeded";
      CompletedIdsAreSucceeded(plan, Ledger());
      var s := ExecutionSummary(text, numerical, scientific, CompletedIds(plan, completed), failed);
      summary := Some(s);
      var died := MayDie();
      if died {
        return Crashed;
      }
      return if failed.Some? then ExecutionFailed(s) else Finished(s);
    }

    /** Starts or resumes the plan on this run directory. */
    method Apply(resume: bool) returns (r: ApplyResult, ghost causes: seq<Cause>)
      requires Durable() && Remembers()
      modifies this
      ensures Durable() && old(Ledger()) <= Ledger() && old(accepted) <= accepted
      ensures old(log) == [] ==> log != []
      ensures !r.DependenciesIncomplete?
      ensures !r.Crashed? ==> Synced()
      ensures old(log) != [] && !resume <==> r.LedgerExists?
      ensures r.LedgerExists? ==> log == old(log)
      ensures r.CannotResume? ==> Ledger() == old(Ledger()) + [RunResumeRejected(old(SuccessSet(Ledger())))]
      ensures ResultHolds(r)
      ensures deaths == old(deaths) + One(r.Crashed?)
      ensures r.AdapterRaised? ==> faults > old(faults)
      ensures r.CannotResume? ==> refusals > old(refusals) && old(log) != []
      ensures r.ExecutionFailed? ==> FailsFor(r.summary.failedAction.value, causes, faults > old(faults))
      ensures r.AdapterRaised? && old(log) == [] ==> Ledger() == [RunStarted]
      ensures flags == old(flags)
    {
      causes := [];
      RestoreGateStatus();
      var opening := OpenSession(resume);
      if opening.NotOpened? {
        r := opening.result;
        return;
      }
      r, causes := RunToEnd(opening.completed);
    }

    /** The part of an application that runs with an open session. */
    method RunToEnd(earlier: set<string>) returns (r: ApplyResult, ghost causes: seq<Cause>)
      requires Durable() && Synced() && Idle(Ledger()) && earlier == SuccessSet(Ledger())
      requires AtEntry(Ledger(), 0)
      modifies this`log, this`snapshots, this`artifacts, this`checkpoints, this`numerical, this`scientific, this`summary
      modifies this`deaths, this`faults
      ensures Durable() && old(Ledger()) <= Ledger()
      ensures r.Finished? || r.ExecutionFailed? || r.Crashed?
      ensures !r.Crashed? ==> Synced()
      ensures ResultHolds(r)
      ensures deaths == old(deaths) + One(r.Crashed?)
      ensures faults >= old(faults)
      ensures r.ExecutionFailed? ==> FailsFor(r.summary.failedAction.value, causes, faults > old(faults))
    {
      var step, completed, failed;
      step, completed, failed, causes := RunPlan(earlier);
      if step.Halted? {
        r := Crashed;
        return;
      }
      r := CloseAndSummarize(completed, failed);
    }

    /** What follows the plan, whether it succeeded or not. */
    method CloseAndSummarize(completed: set<string>, failed: Option<string>) returns (r: ApplyResult)
      requires Durable() && Synced() && completed == SuccessSet(Ledger()) && Ends(plan, Ledger(), failed)
      modifies this`log, this`summary, this`deaths, this`faults
      ensures Durable() && old(Ledger()) <= Ledger() && Synced() && ResultHolds(r)
      ensures r.Crashed? || (if failed.Some? then r.ExecutionFailed? && r.summary.failedAction == failed
              else r.Finished?)
      ensures deaths == old(deaths) + One(r.Crashed?) && faults >= old(faults)
    {
      var died := CloseAdapter(failed);
      if died {
        return Crashed;
      }
      r := Summarize(completed, failed);
    }

    /**
     Any sequence of applications, resumes, crashes and restarts on one run directory, with any adapters.
     After a crash only a new process can go on.
     */
    method Serve(requests: seq<Request>)
      requires Durable() && Remembers()
      modifies this
      ensures Durable() && Remembers() && old(Ledger()) <= Ledger()
      ensures Legal(plan, Ledger()) && ResumesAccepted(Ledger(), accepted)
      ensures |Succeeded(Ledger())| <= |plan| && Succeeded(Ledger()) == Ids(plan)[..|Succeeded(Ledger())|]
      ensures NoRepeats(snapshots) && WellOrdered(artifacts) && WellOrdered(checkpoints)
      ensures AllListed(artifacts, checkpoints, Ledger())
    {
      for i := 0 to |requests|
        invariant Durable() && Remembers() && old(Ledger()) <= Ledger()
      {
        if requests[i].Restart? {
          Reopen(requests[i].flags);
        } else {
          ghost var causes;
          var r;
          r, causes := Apply(requests[i].resume);
          if r.Crashed? {
            var next: AdapterFlags := *;
            Reopen(next);
          }
        }
      }
      SucceededIsPlanPrefix(plan, Ledger());
    }
  }
}
