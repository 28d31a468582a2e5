/** Attempt records, the files they vouch for, and the checks made whenever a record is loaded. */
module AttemptRecords {
  import opened Wrappers
  import opened HashChain
  import opened Types
  import opened Manifests
  import RunLedger

  // ---------- plans ----------

  /** A compiled plan; an empty hash field is `None`. */
  datatype CompiledPlan = CompiledPlan(content: PlanContent, planHash: Option<PlanHash>)

  datatype PlanDocument = PlanDocument(content: PlanContent, planHash: PlanHash)

  // ---------- run files ----------

  datatype RunFile = PlanLock | Events | RunMetadata | RunSummary | ArtifactsManifest | CheckpointsManifest

  type RunEvent = EventBody<PlanHash, RunLedger.Event>

  datatype Summary = Summary(orchestration: Option<string>, numerical: Option<string>, scientific: Option<string>)

  datatype FileContent =
    | PlanText(plan: PlanDocument)
    | EventText(lines: seq<Line<RunEvent>>)
    | SummaryText(summary: Summary)
    | ManifestText(entries: seq<ManifestEntry>)
    | OtherText(text: string)

  datatype FileSha = FileSha(content: FileContent)

  type RunFiles = map<RunFile, FileContent>

  function EventLines(content: FileContent): seq<Line<RunEvent>> {
    if content.EventText? then content.lines else [Malformed]
  }

  /** Events of the run `id` for the plan with hash `plan`. */
  function BelongsTo(id: string, plan: PlanHash): RunEvent -> bool {
    (e: RunEvent) => e.runId == id && e.planHash == plan
  }

  // ---------- attempts ----------

  datatype Status = Running | Succeeded | Failed

  /** Recorded digest of a file; `tail` is the last event digest and is only set for the event log. */
  datatype Evidence = Evidence(sha: FileSha, tail: Option<Digest<RunEvent>>)

  datatype Attempt = Attempt(
    attemptId: string, caseId: string, planHash: PlanHash, status: Status,
    startedAt: string, completedAt: Option<string>, candidate: string, objectives: string,
    planObject: FileSha, runEvidence: map<RunFile, Evidence>,
    orchestration: string, numerical: string, scientific: string,
    summary: Option<Summary>, error: Option<string>)

  datatype AttemptDigest = AttemptSha(of: Attempt)

  datatype AttemptRecord = AttemptRecord(attempt: Attempt, digest: AttemptDigest)

  function WithDigest(a: Attempt): AttemptRecord {
    AttemptRecord(a, AttemptSha(a))
  }

  predicate WellDigested(r: AttemptRecord) {
    r.digest == AttemptSha(r.attempt)
  }

  predicate Promotable(r: AttemptRecord) {
    r.attempt.status.Succeeded? && r.attempt.orchestration == "succeeded"
  }

  // ---------- loading ----------

  datatype StoreError =
    | UnsafeComponent | NotACandidate | PlanHashMismatch | AttemptExists | PlanConflict
    | NoSuchAttempt | InvalidRecordHash | WrongRecordId | PlanEvidenceInvalid | RunEvidenceInvalid
    | AttemptChanged | InvalidSummary | InvalidEvents
    | InvalidActor | InvalidVerdict | EmptyReason | NotPromotable | RefRequired | RefForbidden
    | InvalidLedger | InvalidManifest | ManifestMissing | ManifestStale
    | ObjectConflict | DecisionMismatch

  predicate PlanObjectOk(plans: map<PlanHash, PlanDocument>, a: Attempt) {
    && a.planHash in plans
    && FileSha(PlanText(plans[a.planHash])) == a.planObject
    && plans[a.planHash].planHash == a.planHash
    && PlanSha(plans[a.planHash].content) == a.planHash
  }

  predicate FilesMatch(files: RunFiles, a: Attempt) {
    forall k :: k in a.runEvidence ==> k in files && FileSha(files[k]) == a.runEvidence[k].sha
  }

  predicate PlanLockMatches(files: RunFiles, a: Attempt)
    requires FilesMatch(files, a)
  {
    PlanLock in a.runEvidence ==>
      && files[PlanLock].PlanText?
      && files[PlanLock].plan.planHash == a.planHash
      && PlanSha(files[PlanLock].plan.content) == a.planHash
  }

  /** The event log verifies and ends with the recorded digest. */
  ghost predicate EventsMatch(files: RunFiles, a: Attempt)
    requires FilesMatch(files, a)
  {
    Events in a.runEvidence ==>
      && WellFormed(EventLines(files[Events]), BelongsTo(a.attemptId, a.planHash))
      && TailHash(Entries(EventLines(files[Events]))) == a.runEvidence[Events].tail
  }

  const REQUIRED_EVIDENCE := {PlanLock, Events, RunMetadata, RunSummary}

  ghost predicate RunEvidenceOk(files: RunFiles, a: Attempt) {
    a.status.Running? ||
    (&& FilesMatch(files, a)
     && PlanLockMatches(files, a)
     && EventsMatch(files, a)
     && (a.status.Succeeded? ==> REQUIRED_EVIDENCE <= a.runEvidence.Keys))
  }

  /** A loadable attempt pins its event log: any verified log with the recorded tail is that log. */
  lemma EvidencePinsRun(files: RunFiles, a: Attempt, other: seq<Entry<RunEvent>>)
    requires RunEvidenceOk(files, a) && !a.status.Running? && Events in a.runEvidence
    requires Verified(other) && TailHash(other) == a.runEvidence[Events].tail
    ensures other == Entries(EventLines(files[Events]))
  {
    TailDeterminesLedger(other, Entries(EventLines(files[Events])));
  }
}
