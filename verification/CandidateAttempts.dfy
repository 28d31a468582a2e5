/**
 Candidate attempts from beginning to end: the store begins an attempt, the plan executor runs it in the
 attempt's directory, and the store finishes it.  Whatever is promoted afterwards is a complete run.
 */
module CandidateAttempts {
  import opened Wrappers
  import opened HashChain
  import opened Types
  import opened Manifests
  import opened AttemptRecords
  import opened DecisionLedger
  import opened StoreOperations
  import opened StoreMeaning
  import opened StoreProtocol
  import opened StoreSimulation
  import StoreGuarantees
  import AttemptStore
  import Gates
  import RunLedger
  import RunDirectory
  import PlanProgress
  import AttemptTrace
  import Strings
  import Executor

  // ---------- what a complete run is ----------

  /** A verified ledger of this run and plan in which the whole plan succeeds, ending with the success of the run. */
  ghost predicate CompleteLedger(log: seq<Entry<RunEvent>>, id: string, plan: PlanHash) {
    var actions, events := plan.content.actions, RunDirectory.EventsOf(log);
    && Verified(log)
    && (forall i :: 0 <= i < |log| ==> BelongsTo(id, plan)(log[i].record.body))
    && RunLedger.Legal(actions, events)
    && RunLedger.Succeeded(events) == RunLedger.Ids(actions)
    && PlanProgress.EndsOrCloseFailed(actions, events, None)
  }

  /** The entries of a manifest among run files. */
  function EntriesIn(files: RunFiles, file: RunFile): seq<ManifestEntry> {
    if file in files && files[file].ManifestText? then files[file].entries else []
  }

  /** The event log is a complete run of the plan, and the manifests list whatever it records. */
  ghost predicate CompleteRun(files: RunFiles, id: string, plan: PlanHash) {
    && Events in files && files[Events].EventText?
    && CompleteLedger(Entries(files[Events].lines), id, plan)
    && RunDirectory.AllListed(EntriesIn(files, ArtifactsManifest), EntriesIn(files, CheckpointsManifest),
                              RunDirectory.EventsOf(Entries(files[Events].lines)))
  }

  /** The files whose digests the attempt has recorded. */
  function RecordedFiles(a: Attempt): RunFiles {
    map k | k in a.runEvidence :: a.runEvidence[k].sha.content
  }

  /** The digests in the record are those of a complete run. */
  ghost predicate VouchesForRun(a: Attempt) {
    CompleteRun(RecordedFiles(a), a.attemptId, a.planHash)
  }

  /** Every attempt that succeeded vouches for a complete run. */
  ghost predicate SuccessesComplete(f: Files) {
    forall id {:trigger f.attempts[id]} ::
      id in f.attempts && f.attempts[id].attempt.status.Succeeded? ==> VouchesForRun(f.attempts[id].attempt)
  }

  lemma ListedInMore(a: seq<ManifestEntry>, c: seq<ManifestEntry>, moreA: seq<ManifestEntry>, moreC: seq<ManifestEntry>,
                     l: RunLedger.Events)
    requires RunDirectory.AllListed(a, c, l)
    requires (a == [] || moreA == a) && (c == [] || moreC == c)
    ensures RunDirectory.AllListed(moreA, moreC, l)
  {
    forall i | 0 <= i < |l| ensures RunDirectory.Listed(moreA, moreC, l[i]) {
      assert RunDirectory.Listed(a, c, l[i]);
    }
  }

  /** Run files that verify against a record which vouches for a complete run are that run. */
  lemma VerifiedRunIsComplete(files: RunFiles, a: Attempt)
    requires VouchesForRun(a) && !a.status.Running? && RunEvidenceOk(files, a)
    ensures CompleteRun(files, a.attemptId, a.planHash)
  {
    var recorded := RecordedFiles(a);
    forall k | k in a.runEvidence ensures k in files && files[k] == recorded[k] {
      assert FileSha(files[k]) == a.runEvidence[k].sha;
    }
    ListedInMore(EntriesIn(recorded, ArtifactsManifest), EntriesIn(recorded, CheckpointsManifest),
                 EntriesIn(files, ArtifactsManifest), EntriesIn(files, CheckpointsManifest),
                 RunDirectory.EventsOf(Entries(files[Events].lines)));
  }

  // ---------- the run ----------

  function StatusText(s: RunLedger.GateStatus): string {
    match s
    case NotEvaluated => "not_evaluated"
    case Passed => "passed"
    case Failed => "failed"
  }

  function SummaryOf(s: Executor.ExecutionSummary): Summary {
    Summary(Some(s.orchestration), Some(StatusText(s.numerical)), Some(StatusText(s.scientific)))
  }

  /** What an application leaves: its ledger, manifests and summary file, and the summary of a success. */
  datatype Execution = Execution(
    crashed: bool, given: Option<Summary>, written: Option<Summary>, log: seq<Entry<RunEvent>>,
    artifacts: seq<ManifestEntry>, checkpoints: seq<ManifestEntry>)

  ghost predicate ExecutionOk(x: Execution, identifier: string, plan: PlanHash) {
    && Verified(x.log) && x.log != []
    && (forall i :: 0 <= i < |x.log| ==> BelongsTo(identifier, plan)(x.log[i].record.body))
    && RunDirectory.AllListed(x.artifacts, x.checkpoints, RunDirectory.EventsOf(x.log))
    && (!x.crashed ==> (x.given.Some? <==> CompleteLedger(x.log, identifier, plan)))
    && (x.given.Some? ==> !x.crashed && x.written == x.given && Tells(x.given.value, RunDirectory.EventsOf(x.log)))
  }

  /** The text of a gate status says what the gates of the category have said. */
  ghost predicate StatusSays(text: string, l: RunLedger.Events, category: string) {
    && (text == "failed" <==> RunLedger.Evaluated(l, category, false))
    && (text == "passed" <==> RunLedger.Evaluated(l, category, true) && !RunLedger.Evaluated(l, category, false))
    && text in {"failed", "passed", "not_evaluated"}
  }

  /** The summary of a run that succeeded. */
  ghost predicate Tells(s: Summary, l: RunLedger.Events) {
    && s.orchestration == Some("succeeded")
    && s.numerical.Some? && StatusSays(s.numerical.value, l, "numerical")
    && s.scientific.Some? && StatusSays(s.scientific.value, l, "scientific")
  }

  /** A run that was not a success: something raised, or an action of the plan was not met in any allowed attempt. */
  ghost predicate HasReason(plan: PlanHash, flags: Gates.AdapterFlags, faulted: bool) {
    faulted || exists i, causes :: 0 <= i < |plan.content.actions| && NeverMet(plan.content.actions[i], causes, flags)
  }

  ghost predicate NeverMet(action: SemanticAction, causes: seq<AttemptTrace.Cause>, flags: Gates.AdapterFlags) {
    AttemptTrace.AllJustified(causes, action, flags) && |causes| == action.maxAttempts
  }

  lemma OwnedByRun(executor: Executor.PlanExecutor)
    requires executor.Durable()
    ensures Verified(executor.log)
    ensures forall i :: 0 <= i < |executor.log| ==>
              BelongsTo(executor.runId, executor.planHash)(executor.log[i].record.body)
  {
    forall i | 0 <= i < |executor.log|
      ensures BelongsTo(executor.runId, executor.planHash)(executor.log[i].record.body)
    {
      assert executor.Owns(executor.log[i].record.body);
    }
  }

  /** The ledger of a successful application is complete. */
  lemma FinishedIsComplete(executor: Executor.PlanExecutor, r: Executor.ApplyResult)
    requires executor.Durable() && r.Finished? && executor.ResultHolds(r)
    requires executor.planHash.content.actions == executor.plan
    ensures CompleteLedger(executor.log, executor.runId, executor.planHash)
  {
    PlanProgress.EndedRunsAreComplete(executor.plan, executor.Ledger());
    OwnedByRun(executor);
  }

  lemma SummaryTells(executor: Executor.PlanExecutor, s: Executor.ExecutionSummary)
    requires executor.Describes(s, None)
    ensures Tells(SummaryOf(s), executor.Ledger())
  {
    RunLedger.ReplayMeaning(executor.Ledger(), "numerical");
    RunLedger.ReplayMeaning(executor.Ledger(), "scientific");
  }

  /** A ledger that ends otherwise is not complete. */
  lemma UnfinishedIsIncomplete(executor: Executor.PlanExecutor, r: Executor.ApplyResult)
    requires executor.Durable() && executor.planHash.content.actions == executor.plan && executor.ResultHolds(r)
    requires r.ExecutionFailed? || (r.AdapterRaised? && executor.Ledger() == [RunLedger.RunStarted])
    ensures !CompleteLedger(executor.log, executor.runId, executor.planHash)
  {
    if r.ExecutionFailed? {
      PlanProgress.FailedRunsAreIncomplete(executor.plan, executor.Ledger(), r.summary.failedAction.value);
    }
  }

  /** The application in a fresh directory, with how often its process died and how often something raised. */
  method ExecutePlan(plan: PlanHash, identifier: string, flags: Gates.AdapterFlags)
    returns (x: Execution, ghost deaths: nat, ghost faults: nat)
    requires RunLedger.PlanOk(plan.content.actions)
    ensures ExecutionOk(x, identifier, plan)
    ensures deaths == One(x.crashed)
    ensures !x.crashed && x.given.None? ==> HasReason(plan, flags, faults > 0)
  {
    var executor := new Executor.PlanExecutor(plan.content.actions, identifier, plan, flags);
    ghost var causes;
    var outcome;
    outcome, causes := executor.Apply(false);
    OwnedByRun(executor);
    var written := if executor.summary.Some? then Some(SummaryOf(executor.summary.value)) else None;
    var given := if outcome.Finished? then Some(SummaryOf(outcome.summary)) else None;
    if outcome.Finished? {
      FinishedIsComplete(executor, outcome);
      SummaryTells(executor, outcome.summary);
    } else if !outcome.Crashed? {
      UnfinishedIsIncomplete(executor, outcome);
    }
    x := Execution(outcome.Crashed?, given, written, executor.log, executor.artifacts, executor.checkpoints);
    deaths, faults := executor.deaths, executor.faults;
    FailureHasReason(executor, outcome, causes, plan, flags);
  }

  lemma FailureHasReason(executor: Executor.PlanExecutor, r: Executor.ApplyResult, causes: seq<AttemptTrace.Cause>,
                         plan: PlanHash, flags: Gates.AdapterFlags)
    requires executor.plan == plan.content.actions && executor.flags == flags
    requires r.AdapterRaised? ==> executor.faults > 0
    requires r.ExecutionFailed? ==>
               r.summary.failedAction.Some?
                 && executor.FailsFor(r.summary.failedAction.value, causes, executor.faults > 0)
    ensures r.AdapterRaised? || r.ExecutionFailed? ==> HasReason(plan, flags, executor.faults > 0)
  {
    if r.ExecutionFailed? && executor.faults == 0 {
      var i :| 0 <= i < |executor.plan| && executor.plan[i].id == r.summary.failedAction.value
               && executor.JustlyGivenUp(executor.plan[i], causes, false);
      assert NeverMet(plan.content.actions[i], causes, flags);
    }
  }

  /** The files that an application writes; a manifest exists once something has been added to it. */
  function WrittenFiles(x: Execution, doc: PlanDocument, identifier: string): RunFiles {
    map[PlanLock := PlanText(doc), RunMetadata := OtherText(identifier), Events := EventText(Lines(x.log))]
    + (if x.artifacts != [] then map[ArtifactsManifest := ManifestText(x.artifacts)] else map[])
    + (if x.checkpoints != [] then map[CheckpointsManifest := ManifestText(x.checkpoints)] else map[])
    + (if x.written.Some? then map[RunSummary := SummaryText(x.written.value)] else map[])
  }

  const RUN_FILES := [PlanLock, RunMetadata, Events, ArtifactsManifest, CheckpointsManifest, RunSummary]

  lemma RunFilesComplete()
    ensures forall k: RunFile :: k in RUN_FILES
  {
    assert RUN_FILES[0] == PlanLock && RUN_FILES[1] == RunMetadata && RUN_FILES[2] == Events;
    assert RUN_FILES[3] == ArtifactsManifest && RUN_FILES[4] == CheckpointsManifest && RUN_FILES[5] == RunSummary;
    forall k: RunFile ensures k in RUN_FILES {
      match k
      case PlanLock =>
      case Events =>
      case RunMetadata =>
      case RunSummary =>
      case ArtifactsManifest =>
      case CheckpointsManifest =>
    }
  }

  /** Of `files`, those in `done` have been written over `base`. */
  ghost predicate PartlyWritten(base: RunFiles, files: RunFiles, done: seq<RunFile>, now: RunFiles) {
    forall k :: if k in files && k in done then k in now && now[k] == files[k]
                else (k in now <==> k in base) && (k in base ==> now[k] == base[k])
  }

  lemma WriteOneMore(base: RunFiles, files: RunFiles, i: nat, now: RunFiles)
    requires i < |RUN_FILES| && PartlyWritten(base, files, RUN_FILES[..i], now)
    ensures PartlyWritten(base, files, RUN_FILES[..i + 1],
                          if RUN_FILES[i] in files then now[RUN_FILES[i] := files[RUN_FILES[i]]] else now)
  {
    forall k ensures k in RUN_FILES[..i + 1] <==> k in RUN_FILES[..i] || k == RUN_FILES[i] {
    }
  }

  lemma AllWritten(base: RunFiles, files: RunFiles, now: RunFiles)
    requires PartlyWritten(base, files, RUN_FILES, now) && forall k: RunFile :: k in RUN_FILES
    ensures now == base + files
  {
  }

  /** Writes `files` over the files of a run. */
  method WriteRun(store: AttemptStore.AttemptStore, id: string, files: RunFiles)
    requires Settled(store.State())
    modifies store
    ensures Settled(store.State())
    ensures store.State() == old(store.State()).(runs := store.runs)
    ensures RunOf(store.State(), id) == RunOf(old(store.State()), id) + files
    ensures store.deaths == old(store.deaths) && store.faults == old(store.faults)
  {
    ghost var base := RunOf(store.State(), id);
    for i := 0 to |RUN_FILES|
      invariant Settled(store.State())
      invariant store.State() == old(store.State()).(runs := store.runs)
      invariant PartlyWritten(base, files, RUN_FILES[..i], RunOf(store.State(), id))
      invariant store.deaths == old(store.deaths) && store.faults == old(store.faults)
    {
      WriteOneMore(base, files, i, RunOf(store.State(), id));
      if RUN_FILES[i] in files {
        WriteRunFile(store, id, RUN_FILES[i], files[RUN_FILES[i]]);
      }
    }
    RunFilesComplete();
    assert RUN_FILES[..|RUN_FILES|] == RUN_FILES;
    AllWritten(base, files, RunOf(store.State(), id));
  }

  // ---------- collecting its files ----------

  lemma OwnedLines(log: seq<Entry<RunEvent>>, id: string, plan: PlanHash)
    requires Verified(log) && forall i :: 0 <= i < |log| ==> BelongsTo(id, plan)(log[i].record.body)
    ensures WellFormed(Lines(log), BelongsTo(id, plan))
  {
    LinesRoundTrip(log);
  }

  /** A run of the executor is readable as that of the attempt exactly if it was given the id that the store uses. */
  lemma ReadableIffOwnId(log: seq<Entry<RunEvent>>, identifier: string, id: string, plan: PlanHash)
    requires Verified(log) && log != []
    requires forall i :: 0 <= i < |log| ==> BelongsTo(identifier, plan)(log[i].record.body)
    ensures WellFormed(Lines(log), BelongsTo(id, plan)) <==> identifier == id
  {
    LinesRoundTrip(log);
    assert BelongsTo(identifier, plan)(log[0].record.body);
    if identifier == id {
      OwnedLines(log, id, plan);
    }
  }

  /** The files of an application in a fresh directory can be collected exactly if the run has the attempt's own id. */
  lemma FreshRunCollects(x: Execution, doc: PlanDocument, a: Attempt, identifier: string)
    requires ExecutionOk(x, identifier, a.planHash)
    ensures EffectiveSummary(WrittenFiles(x, doc, identifier), x.given).Ok?
    ensures EventsReadable(WrittenFiles(x, doc, identifier), a) <==> identifier == a.attemptId
  {
    ReadableIffOwnId(x.log, identifier, a.attemptId, a.planHash);
  }

  /** With a blank before its id, an attempt is not the one that its run belongs to. */
  lemma BlankIdNotCollected(x: Execution, doc: PlanDocument, a: Attempt)
    requires ExecutionOk(x, " a", a.planHash) && SafeComponent(" a") == Ok(a.attemptId)
    ensures a.attemptId == "a" && !EventsReadable(WrittenFiles(x, doc, " a"), a)
  {
    BlankIsTrimmed();
    FreshRunCollects(x, doc, a, " a");
  }

  // ---------- what the operations keep ----------

  lemma BeginKeepsComplete(f: Files, plan: CompiledPlan, attemptId: string, now: string, g: Files)
    requires SuccessesComplete(f) && BeginOutcome(f, plan, attemptId, now, g)
    ensures SuccessesComplete(g)
  {
  }

  lemma SameAttemptsKeepComplete(f: Files, g: Files)
    requires SuccessesComplete(f) && g.attempts == f.attempts
    ensures SuccessesComplete(g)
  {
  }

  lemma DecideKeepsAttempts(f: Files, q: Request, now: string, g: Files)
    requires DecideOutcome(f, q, now, g)
    ensures g.attempts == f.attempts
  {
  }

  lemma RebuildKeepsAttempts(f: Files, g: Files)
    requires RebuildOutcome(f, g)
    ensures g.attempts == f.attempts
  {
  }

  ghost predicate Begun(f: Files, started: AttemptRecord) {
    var id := started.attempt.attemptId;
    && id in f.attempts && f.attempts[id] == started && WellDigested(started)
    && started.attempt.status.Running? && PlanObjectOk(f.plans, started.attempt)
    && SafeComponent(id) == Ok(id) && started.attempt.runEvidence == map[]
  }

  lemma FinishKeepsComplete(f: Files, started: AttemptRecord, summary: Option<Summary>, error: Option<string>,
                            now: string)
    requires SuccessesComplete(f) && Finish(f, started, summary, error, now).Ok?
    requires var r := Finish(f, started, summary, error, now).value.attempts[started.attempt.attemptId];
             r.attempt.status.Succeeded? ==> VouchesForRun(r.attempt)
    ensures SuccessesComplete(Finish(f, started, summary, error, now).value)
  {
  }

  lemma RecordedIsCollected(started: Attempt, files: RunFiles, summary: Option<Summary>, error: Option<string>,
                            now: string)
    requires started.runEvidence == map[]
    ensures RecordedFiles(FinishedAttempt(started, files, summary, error, now)) == files
  {
  }

  /** A finish that hands over the summary of a complete ledger records a complete run. */
  lemma RecordedIsComplete(f: Files, started: AttemptRecord, x: Execution, error: Option<string>, now: string,
                           identifier: string)
    requires Begun(f, started) && x.given.Some? && ExecutionOk(x, identifier, started.attempt.planHash)
    requires LeavesRun(x, RunOf(f, started.attempt.attemptId)) && Finish(f, started, x.given, error, now).Ok?
    ensures VouchesForRun(Finish(f, started, x.given, error, now).value.attempts[started.attempt.attemptId].attempt)
  {
    var id, files := started.attempt.attemptId, RunOf(f, started.attempt.attemptId);
    LinesRoundTrip(x.log);
    RecordedIsCollected(started.attempt, files, x.given, error, now);
    ReadableIffOwnId(x.log, identifier, id, started.attempt.planHash);
    ListedInMore(x.artifacts, x.checkpoints, EntriesIn(files, ArtifactsManifest), EntriesIn(files, CheckpointsManifest),
                 RunDirectory.EventsOf(x.log));
  }

  /** The ledger and the manifests of the application are among the run files. */
  predicate LeavesRun(x: Execution, files: RunFiles) {
    && Events in files && files[Events] == EventText(Lines(x.log))
    && (x.artifacts != [] ==> EntriesIn(files, ArtifactsManifest) == x.artifacts)
    && (x.checkpoints != [] ==> EntriesIn(files, CheckpointsManifest) == x.checkpoints)
  }

  lemma LeavesWrittenRun(x: Execution, base: RunFiles, doc: PlanDocument, identifier: string)
    ensures LeavesRun(x, base + WrittenFiles(x, doc, identifier))
  {
  }

  /** Finishing can only be refused because the event log is not readable as that of the attempt. */
  lemma FinishRefusedIff(f: Files, started: AttemptRecord, summary: Option<Summary>, error: Option<string>, now: string)
    requires Begun(f, started) && EffectiveSummary(RunOf(f, started.attempt.attemptId), summary).Ok?
    ensures Finish(f, started, summary, error, now).Ok? <==>
              EventsReadable(RunOf(f, started.attempt.attemptId), started.attempt)
  {
  }

  // ---------- one candidate ----------

  datatype CandidateResult =
    | NotBegun(error: StoreError)
    | Recorded(record: AttemptRecord)
    | Unfinished(error: StoreError)
    | Died

  /** Something already lies in the directory of the attempt. */
  predicate LeftOver(f: Files, id: string) {
    RunOf(f, id) != map[]
  }

  /** How the attempt stands after its finish, given the files it found. */
  ghost predicate FinishEnds(f: Files, g: Files, started: AttemptRecord, r: CandidateResult) {
    var id := started.attempt.attemptId;
    && id in g.attempts
    && (r.Recorded? || r.Unfinished?)
    && (r.Recorded? ==>
          && g.attempts[id] == r.record && !r.record.attempt.status.Running?
          && RecordedFiles(r.record.attempt) == RunOf(f, id)
          && (r.record.attempt.status.Succeeded? ==> VouchesForRun(r.record.attempt)))
    && (r.Unfinished? ==> g == f)
  }

  /** Without the summary of an application there is the error that it raised. */
  function ErrorOf(given: Option<Summary>): Option<string> {
    if given.Some? then None else Some("failed")
  }

  /** The store's finish of an attempt: with the summary of its application, or as a failure. */
  method FinishRun(store: AttemptStore.AttemptStore, started: AttemptRecord, given: Option<Summary>, now: string,
                   ghost x: Option<Execution>, ghost identifier: string)
    returns (r: CandidateResult)
    requires Settled(store.State()) && Begun(store.State(), started)
    requires x.Some? ==> ExecutionOk(x.value, identifier, started.attempt.planHash)
    requires x.Some? ==> LeavesRun(x.value, RunOf(store.State(), started.attempt.attemptId))
    requires given == if x.Some? then x.value.given else None
    modifies store
    ensures Settled(store.State()) && FinishEnds(old(store.State()), store.State(), started, r)
    ensures old(SuccessesComplete(store.State())) ==> SuccessesComplete(store.State())
    ensures EffectiveSummary(RunOf(old(store.State()), started.attempt.attemptId), given).Ok? ==>
              (r.Recorded? <==> EventsReadable(RunOf(old(store.State()), started.attempt.attemptId), started.attempt))
    ensures r.Recorded? <==> Finish(old(store.State()), started, given, ErrorOf(given), now).Ok?
    ensures r.Recorded? ==> Ok(store.State()) == Finish(old(store.State()), started, given, ErrorOf(given), now)
    ensures store.deaths == old(store.deaths) && store.faults == old(store.faults)
  {
    var error := ErrorOf(given);
    ghost var f := store.State();
    ghost var s := System(f, map[], Free);
    if EffectiveSummary(RunOf(f, started.attempt.attemptId), given).Ok? {
      FinishRefusedIff(f, started, given, error, now);
    }
    var finished := store.FinishAttempt(started, given, error, now);
    if finished.Err? {
      return Unfinished(finished.error);
    }
    FinishSimulated(s, started, given, error, now, store.State());
    LeadsToReachable(s, s.(files := store.State()));
    FinishedVouches(f, started, given, error, now, x, identifier);
    if SuccessesComplete(f) {
      FinishKeepsComplete(f, started, given, error, now);
    }
    return Recorded(finished.value);
  }

  lemma FinishedVouches(f: Files, started: AttemptRecord, given: Option<Summary>, error: Option<string>, now: string,
                        x: Option<Execution>, identifier: string)
    requires Begun(f, started) && Finish(f, started, given, error, now).Ok?
    requires x.Some? ==> ExecutionOk(x.value, identifier, started.attempt.planHash)
    requires x.Some? ==> LeavesRun(x.value, RunOf(f, started.attempt.attemptId))
    requires given == if x.Some? then x.value.given else None
    requires given.None? ==> error.Some?
    ensures var r := Finish(f, started, given, error, now).value.attempts[started.attempt.attemptId];
            && !r.attempt.status.Running? && RecordedFiles(r.attempt) == RunOf(f, started.attempt.attemptId)
            && (r.attempt.status.Succeeded? ==> VouchesForRun(r.attempt))
  {
    var files := RunOf(f, started.attempt.attemptId);
    RecordedIsCollected(started.attempt, files, EffectiveSummary(files, given).value, error, now);
    if given.Some? {
      RecordedIsComplete(f, started, x.value, error, now, identifier);
    }
  }

  /** Constructing the executor may write the first two files of the run before something raises. */
  method FailToRun(store: AttemptStore.AttemptStore, id: string, doc: PlanDocument, identifier: string)
    requires Settled(store.State())
    modifies store
    ensures Settled(store.State()) && store.State() == old(store.State()).(runs := store.runs)
    ensures RunOf(old(store.State()), id).Keys <= RunOf(store.State(), id).Keys
    ensures RunOf(store.State(), id).Keys <= RunOf(old(store.State()), id).Keys + {PlanLock, RunMetadata}
    ensures forall k :: k in RunOf(store.State(), id) ==>
              RunOf(store.State(), id)[k] == if k in RunOf(old(store.State()), id) then RunOf(old(store.State()), id)[k]
                                             else if k == PlanLock then PlanText(doc) else OtherText(identifier)
    ensures store.deaths == old(store.deaths) && store.faults == old(store.faults)
  {
    var files: RunFiles := if id in store.runs then store.runs[id] else map[];
    var locks: bool, identifies: bool := *, *;
    if locks && PlanLock !in files {
      WriteRunFile(store, id, PlanLock, PlanText(doc));
    }
    if identifies && RunMetadata !in files {
      WriteRunFile(store, id, RunMetadata, OtherText(identifier));
    }
  }

  /** The run of a begun attempt, with its files; `None` if it could not start. */
  method RunAttempt(store: AttemptStore.AttemptStore, started: AttemptRecord, doc: PlanDocument, identifier: string,
                    flags: Gates.AdapterFlags)
    returns (x: Option<Execution>, ghost faults: nat)
    requires Settled(store.State()) && Begun(store.State(), started)
    requires doc.planHash == started.attempt.planHash && RunLedger.PlanOk(doc.planHash.content.actions)
    modifies store
    ensures Settled(store.State()) && Begun(store.State(), started)
    ensures store.State() == old(store.State()).(runs := store.runs)
    ensures old(SuccessesComplete(store.State())) ==> SuccessesComplete(store.State())
    ensures x.Some? ==>
              && ExecutionOk(x.value, identifier, started.attempt.planHash)
              && LeavesRun(x.value, RunOf(store.State(), started.attempt.attemptId))
              && RunOf(store.State(), started.attempt.attemptId)
                 == RunOf(old(store.State()), started.attempt.attemptId) + WrittenFiles(x.value, doc, identifier)
    ensures x.None? ==> RunOf(store.State(), started.attempt.attemptId).Keys
                        <= RunOf(old(store.State()), started.attempt.attemptId).Keys + {PlanLock, RunMetadata}
    ensures x.None? ==> faults > 0 || Events in RunOf(old(store.State()), started.attempt.attemptId)
    ensures Events in RunOf(old(store.State()), started.attempt.attemptId) ==> x.None?
    ensures x.Some? && !x.value.crashed && x.value.given.None? ==> HasReason(doc.planHash, flags, faults > 0)
    ensures store.deaths == old(store.deaths) + One(x.Some? && x.value.crashed)
  {
    var id := started.attempt.attemptId;
    var raises := store.MayRaise();
    if raises || (id in store.runs && Events in store.runs[id]) {
      FailToRun(store, id, doc, identifier);
      return None, One(raises);
    }
    var ran;
    ghost var deaths;
    ran, deaths, faults := ExecutePlan(doc.planHash, identifier, flags);
    LeavesWrittenRun(ran, RunOf(store.State(), id), doc, identifier);
    WriteRun(store, id, WrittenFiles(ran, doc, identifier));
    store.deaths := store.deaths + deaths;
    x := Some(ran);
  }

  /** In a fresh directory finishing is refused exactly if a run was recorded under another id than the store uses. */
  ghost predicate RefusedAsForeign(g: Files, id: string, identifier: string, r: CandidateResult) {
    && (r.Recorded? ==> identifier == id || Events !in r.record.attempt.runEvidence)
    && (r.Unfinished? ==> identifier != id && Events in RunOf(g, id))
  }

  /** The attempt from its running record to its finished one. */
  method RunAndFinish(store: AttemptStore.AttemptStore, started: AttemptRecord, doc: PlanDocument, identifier: string,
                      flags: Gates.AdapterFlags, now: string)
    returns (r: CandidateResult, ghost f: Files, ghost x: Option<Execution>, ghost faults: nat)
    requires Settled(store.State()) && Begun(store.State(), started)
    requires doc.planHash == started.attempt.planHash == PlanSha(doc.content)
    requires RunLedger.PlanOk(doc.planHash.content.actions)
    modifies store
    ensures Settled(store.State()) && f.attempts == old(store.attempts)
    ensures old(SuccessesComplete(store.State())) ==> SuccessesComplete(store.State())
    ensures r.Died? || FinishEnds(f, store.State(), started, r)
    ensures !LeftOver(old(store.State()), started.attempt.attemptId) ==>
              RefusedAsForeign(store.State(), started.attempt.attemptId, identifier, r)
    ensures !r.NotBegun? && (r.Died? <==> x.Some? && x.value.crashed)
    ensures store.deaths == old(store.deaths) + One(r.Died?)
    ensures x.Some? ==> ExecutionOk(x.value, identifier, started.attempt.planHash)
    ensures x.None? ==> faults > 0 || Events in RunOf(old(store.State()), started.attempt.attemptId)
    ensures Events in RunOf(old(store.State()), started.attempt.attemptId) ==> x.None?
    ensures !r.Died? && x.Some? && x.value.given.None? ==> HasReason(doc.planHash, flags, faults > 0)
    ensures x.Some? && x.value.given.Some? && identifier == started.attempt.attemptId ==>
              r.Recorded? && RecordsSuccess(store.State(), started.attempt.attemptId, x.value)
  {
    ghost var id := started.attempt.attemptId;
    ghost var untouched := !LeftOver(store.State(), id);
    ghost var base := RunOf(store.State(), id);
    var ran;
    ran, faults := RunAttempt(store, started, doc, identifier, flags);
    f, x := store.State(), ran;
    if ran.Some? && ran.value.crashed {
      r := Died;
      return;
    }
    var given := if ran.Some? then ran.value.given else None;
    if given.Some? && identifier == id {
      SuccessIsRecorded(f, started, ran.value, base, doc, now);
    }
    r := FinishRun(store, started, given, now, ran, identifier);
    if untouched {
      FreshCollects(RunOf(f, id), started.attempt, ran, doc, identifier);
      FreshEnds(f, store.State(), started, r, identifier);
    }
  }

  /** The record of an application that succeeded: it loads, may be promoted, and says what the gates said. */
  ghost predicate RecordsSuccess(f: Files, id: string, x: Execution) {
    && Load(f, id, true).Ok?
    && var a := Load(f, id, true).value.attempt;
       && a.status.Succeeded? && a.orchestration == "succeeded"
       && StatusSays(a.numerical, RunDirectory.EventsOf(x.log), "numerical")
       && StatusSays(a.scientific, RunDirectory.EventsOf(x.log), "scientific")
  }

  /** The run files of an application that succeeded under the attempt's own id verify against its record. */
  lemma WrittenRunVerifies(f: Files, started: AttemptRecord, x: Execution, base: RunFiles, doc: PlanDocument,
                           now: string)
    requires Begun(f, started) && x.given.Some? && ExecutionOk(x, started.attempt.attemptId, started.attempt.planHash)
    requires doc.planHash == started.attempt.planHash == PlanSha(doc.content)
    requires RunOf(f, started.attempt.attemptId) == base + WrittenFiles(x, doc, started.attempt.attemptId)
    ensures var files := RunOf(f, started.attempt.attemptId);
            RunEvidenceOk(files, FinishedAttempt(started.attempt, files, x.given, None, now))
  {
    var id, files := started.attempt.attemptId, RunOf(f, started.attempt.attemptId);
    ReadableIffOwnId(x.log, id, id, started.attempt.planHash);
    HoldsWritten(x, base, doc, id);
    CollectedVerifies(files, started.attempt, x.given, now, doc);
  }

  lemma HoldsWritten(x: Execution, base: RunFiles, doc: PlanDocument, identifier: string)
    ensures var files := base + WrittenFiles(x, doc, identifier);
            && PlanLock in files && files[PlanLock] == PlanText(doc) && RunMetadata in files
            && Events in files && files[Events] == EventText(Lines(x.log))
            && (x.written.Some? ==> RunSummary in files)
  {
  }

  lemma CollectedVerifies(files: RunFiles, started: Attempt, summary: Option<Summary>, now: string, doc: PlanDocument)
    requires started.runEvidence == map[] && doc.planHash == started.planHash == PlanSha(doc.content)
    requires PlanLock in files && files[PlanLock] == PlanText(doc)
    requires RunMetadata in files && RunSummary in files && Events in files
    requires WellFormed(EventLines(files[Events]), BelongsTo(started.attemptId, started.planHash))
    ensures RunEvidenceOk(files, FinishedAttempt(started, files, summary, None, now))
  {
    var a := FinishedAttempt(started, files, summary, None, now);
    assert a.runEvidence == RunEvidence(files);
  }

  lemma SuccessIsRecorded(f: Files, started: AttemptRecord, x: Execution, base: RunFiles, doc: PlanDocument,
                          now: string)
    requires Begun(f, started) && x.given.Some? && ExecutionOk(x, started.attempt.attemptId, started.attempt.planHash)
    requires doc.planHash == started.attempt.planHash == PlanSha(doc.content)
    requires RunOf(f, started.attempt.attemptId) == base + WrittenFiles(x, doc, started.attempt.attemptId)
    ensures Finish(f, started, x.given, None, now).Ok?
    ensures RecordsSuccess(Finish(f, started, x.given, None, now).value, started.attempt.attemptId, x)
  {
    var id := started.attempt.attemptId;
    ReadableIffOwnId(x.log, id, id, started.attempt.planHash);
    FinishRefusedIff(f, started, x.given, None, now);
    FinishRecords(f, started, x.given, None, now);
    WrittenRunVerifies(f, started, x, base, doc, now);
  }

  /** Any valid request to promote it passes all checks that are made before the lock is taken. */
  lemma SuccessMayBePromoted(f: Files, id: string, x: Execution, q: Request)
    requires RecordsSuccess(f, id, x) && SafeComponent(q.attemptId) == Ok(id)
    requires Strings.Strip(q.actor) in {"agent", "engineer"} && Strings.Strip(q.decision) == "promote"
             && Strings.Strip(q.reason) != ""
    requires q.refName.Some? && SafeComponent(q.refName.value).Ok?
    ensures CheckDecision(f, q).Ok?
    ensures var (record, c) := CheckDecision(f, q).value;
            record == f.attempts[id] && AsRequested(c.actor, c.verdict, c.reason, c.refName, q)
  {
    CheckRequestMeaning(f.attempts[id], q);
  }

  lemma FreshCollects(files: RunFiles, a: Attempt, x: Option<Execution>, doc: PlanDocument, identifier: string)
    requires x.Some? ==> ExecutionOk(x.value, identifier, a.planHash)
    requires x.Some? ==> files == map[] + WrittenFiles(x.value, doc, identifier)
    requires x.None? ==> files.Keys <= {} + {PlanLock, RunMetadata}
    ensures EffectiveSummary(files, if x.Some? then x.value.given else None).Ok?
    ensures EventsReadable(files, a) <==> Events !in files || identifier == a.attemptId
  {
    if x.Some? {
      assert map[] + WrittenFiles(x.value, doc, identifier) == WrittenFiles(x.value, doc, identifier);
      FreshRunCollects(x.value, doc, a, identifier);
    }
  }

  lemma FreshEnds(f: Files, g: Files, started: AttemptRecord, r: CandidateResult, identifier: string)
    requires FinishEnds(f, g, started, r)
    requires var files := RunOf(f, started.attempt.attemptId);
             r.Recorded? <==> Events !in files || identifier == started.attempt.attemptId
    ensures RefusedAsForeign(g, started.attempt.attemptId, identifier, r)
  {
    if r.Recorded? {
      assert r.record.attempt.runEvidence.Keys == RecordedFiles(r.record.attempt).Keys;
    }
  }

  lemma BegunRecord(f: Files, g: Files, plan: CompiledPlan, attemptId: string, now: string)
    requires SafeComponent(attemptId).Ok? && CheckPlan(plan).Ok?
    requires CheckBegin(f, SafeComponent(attemptId).value, CheckPlan(plan).value).Ok?
    requires var r := WithDigest(RunningAttempt(SafeComponent(attemptId).value, CheckPlan(plan).value, now));
             g == WriteAttempt(WritePlan(f, CheckPlan(plan).value), r)
    ensures Begun(g, WithDigest(RunningAttempt(SafeComponent(attemptId).value, CheckPlan(plan).value, now)))
  {
    SafeIsStable(attemptId);
  }

  /** One candidate: begin, run, finish. */
  method ApplyCandidate(store: AttemptStore.AttemptStore, plan: CompiledPlan, identifier: string,
                        flags: Gates.AdapterFlags, now: string, later: string)
    returns (r: CandidateResult, ghost x: Option<Execution>, ghost faults: nat)
    requires Settled(store.State()) && RunLedger.PlanOk(plan.content.actions)
    modifies store
    ensures Settled(store.State())
    ensures old(SuccessesComplete(store.State())) ==> SuccessesComplete(store.State())
    ensures r.NotBegun? ==> store.State() == old(store.State())
    ensures r.Recorded? || r.Unfinished? ==>
              SafeComponent(identifier).Ok? && SafeComponent(identifier).value in store.attempts
    ensures r.Recorded? ==>
              && store.attempts[SafeComponent(identifier).value] == r.record && !r.record.attempt.status.Running?
              && (r.record.attempt.status.Succeeded? ==> VouchesForRun(r.record.attempt))
    ensures r.Unfinished? ==> store.attempts[SafeComponent(identifier).value].attempt.status.Running?
    ensures (r.Recorded? || r.Unfinished?) && !LeftOver(old(store.State()), SafeComponent(identifier).value) ==>
              RefusedAsForeign(store.State(), SafeComponent(identifier).value, identifier, r)
    ensures r.NotBegun? <==> !MayBegin(old(store.State()), plan, identifier)
    ensures r.NotBegun? ==> r.error == RefusalOfBegin(old(store.State()), plan, identifier)
    ensures store.deaths == old(store.deaths) + One(r.Died?)
    ensures r.Recorded? || r.Unfinished? ==>
              && (x.None? ==> faults > 0 || Events in RunOf(old(store.State()), SafeComponent(identifier).value))
              && (x.Some? ==> ExecutionOk(x.value, identifier, PlanSha(plan.content)))
              && (x.Some? && x.value.given.None? ==> HasReason(PlanSha(plan.content), flags, faults > 0))
              && (x.Some? && x.value.given.Some? && SafeComponent(identifier) == Ok(identifier) ==>
                    r.Recorded? && RecordsSuccess(store.State(), identifier, x.value))
  {
    x, faults := None, 0;
    ghost var f := store.State();
    ghost var s := System(f, map[], Free);
    var begun := store.Begin(plan, identifier, now);
    BeginSimulated(s, plan, identifier, now, store.State());
    LeadsToReachable(s, s.(files := store.State()));
    if SuccessesComplete(f) {
      BeginKeepsComplete(f, plan, identifier, now, store.State());
    }
    if begun.Refused? {
      r := NotBegun(begun.error);
      return;
    }
    if begun.Crashed? {
      r := Died;
      return;
    }
    BegunRecord(f, store.State(), plan, identifier, now);
    var checkedPlan := CheckPlan(plan);
    ghost var ran;
    r, ran, x, faults := RunAndFinish(store, begun.value, checkedPlan.value, identifier, flags, later);
  }

  // ---------- promotions of candidates ----------

  /** The promoted record is kept under the promoted digest and vouches for a complete run. */
  ghost predicate PromotesCompleteRun(f: Files, d: Decision) {
    && d.attemptId in f.attempts && f.attempts[d.attemptId].digest == d.attemptDigest
    && f.attempts[d.attemptId].attempt.status.Succeeded? && VouchesForRun(f.attempts[d.attemptId].attempt)
  }

  ghost predicate PromotionsComplete(f: Files) {
    forall i {:trigger f.decisions[i]} ::
      0 <= i < |f.decisions| && IsPromotion(f.decisions[i]) ==> PromotesCompleteRun(f, f.decisions[i].record.body)
  }

  lemma PromotedAttemptSucceeded(f: Files, i: nat)
    requires FilesOk(f) && i < |f.decisions| && IsPromotion(f.decisions[i])
    ensures var d := f.decisions[i].record.body;
            && d.attemptId in f.attempts && f.attempts[d.attemptId].attempt.status.Succeeded?
            && f.attempts[d.attemptId].digest == d.attemptDigest
  {
    assert Backed(f, f.decisions[i].record.body);
  }

  lemma SuccessesCompletePromotions(f: Files)
    requires Settled(f) && SuccessesComplete(f)
    ensures PromotionsComplete(f)
  {
    ReachableInvariant(System(f, map[], Free));
    forall i | 0 <= i < |f.decisions| && IsPromotion(f.decisions[i])
      ensures PromotesCompleteRun(f, f.decisions[i].record.body)
    {
      PromotedAttemptSucceeded(f, i);
    }
  }

  datatype CandidateRequest =
    | Candidate(plan: CompiledPlan, identifier: string, flags: Gates.AdapterFlags, now: string, later: string)
    | BeginOnly(plan: CompiledPlan, identifier: string, now: string)
    | WriteFile(attemptId: string, file: RunFile, content: FileContent)
    | Judge(request: Request, now: string)
    | Repair

  method HandleCandidate(store: AttemptStore.AttemptStore, request: CandidateRequest)
    requires Settled(store.State()) && SuccessesComplete(store.State())
    requires request.Candidate? ==> RunLedger.PlanOk(request.plan.content.actions)
    modifies store
    ensures Settled(store.State()) && SuccessesComplete(store.State())
  {
    ghost var f := store.State();
    match request {
      case Candidate(plan, identifier, flags, now, later) =>
        ghost var x, faults;
        var r;
        r, x, faults := ApplyCandidate(store, plan, identifier, flags, now, later);
      case BeginOnly(plan, identifier, now) =>
        Handle(store, BeginRequest(plan, identifier, now));
        BeginKeepsComplete(f, plan, identifier, now, store.State());
      case WriteFile(id, file, content) =>
        WriteRunFile(store, id, file, content);
        SameAttemptsKeepComplete(f, store.State());
      case Judge(q, now) =>
        Handle(store, DecideRequest(q, now));
        DecideKeepsAttempts(f, q, now, store.State());
        SameAttemptsKeepComplete(f, store.State());
      case Repair =>
        Handle(store, RebuildRequest);
        RebuildKeepsAttempts(f, store.State());
        SameAttemptsKeepComplete(f, store.State());
    }
  }

  /**
   In a store whose attempts are finished by candidate applications only, every promotion, in any
   sequence of operations, of writes to run files and of crashes, is of a run that succeeded with the
   whole plan.
   */
  method UseCandidates(store: AttemptStore.AttemptStore, requests: seq<CandidateRequest>)
    requires Settled(store.State()) && SuccessesComplete(store.State())
    requires forall i :: 0 <= i < |requests| && requests[i].Candidate? ==>
               RunLedger.PlanOk(requests[i].plan.content.actions)
    modifies store
    ensures Settled(store.State()) && PromotionsComplete(store.State())
  {
    for i := 0 to |requests|
      invariant Settled(store.State()) && SuccessesComplete(store.State())
    {
      HandleCandidate(store, requests[i]);
    }
    SuccessesCompletePromotions(store.State());
  }

  /** The same for a new store, which holds nothing. */
  method UseNewStore(requests: seq<CandidateRequest>) returns (store: AttemptStore.AttemptStore)
    requires forall i :: 0 <= i < |requests| && requests[i].Candidate? ==>
               RunLedger.PlanOk(requests[i].plan.content.actions)
    ensures fresh(store) && Settled(store.State()) && PromotionsComplete(store.State())
  {
    store := new AttemptStore.AttemptStore();
    EmptyIsSettled();
    UseCandidates(store, requests);
  }

  /** The attempt runs before and is finished after; if it succeeded, its record vouches for a complete run. */
  ghost predicate Finishes(f: Files, g: Files, id: string) {
    && id in f.attempts && f.attempts[id].attempt.status.Running?
    && id in g.attempts && !g.attempts[id].attempt.status.Running?
    && (g.attempts[id].attempt.status.Succeeded? ==> VouchesForRun(g.attempts[id].attempt))
  }

  /**
   Whatever else happens in the store: an attempt that was finished as a candidate application finishes
   it is only ever promoted as a complete run, and whenever it loads its run files are that run.
   */
  lemma PromotedCandidateIsComplete(states: seq<System>, steps: seq<Step>, k: nat, id: string, j: nat, i: nat)
    requires IsRun(states, steps) && k < |steps| && steps[k].FinishStep? && steps[k].started.attempt.attemptId == id
    requires Finishes(states[k].files, states[k + 1].files, id)
    requires j < |states| && i < |states[j].files.decisions| && IsPromotion(states[j].files.decisions[i])
    requires states[j].files.decisions[i].record.body.attemptId == id
    ensures PromotesCompleteRun(states[j].files, states[j].files.decisions[i].record.body)
    ensures Load(states[j].files, id, true).Ok? ==>
              CompleteRun(RunOf(states[j].files, id), id, states[j].files.attempts[id].attempt.planHash)
  {
    var f := states[j].files;
    RunInvariant(states, steps, j);
    PromotedAttemptSucceeded(f, i);
    if j <= k {
      StoreGuarantees.FinishedForever(states, steps, j, k, id);
    } else {
      StoreGuarantees.FinishedForever(states, steps, k + 1, j, id);
    }
    if Load(f, id, true).Ok? {
      VerifiedRunIsComplete(RunOf(f, id), f.attempts[id].attempt);
    }
  }
}
