/**
 The durable files of an attempt store and what each write does to them.  Every function here is one
 atomic step of the store: a crash can fall between any two of them.
 */
module StoreOperations {
  import opened Wrappers
  import opened Strings
  import opened HashChain
  import opened Types
  import opened AttemptRecords
  import opened DecisionLedger

  datatype ManifestHash = ManifestSha(refs: Refs, recoveredFrom: Option<Option<Digest<Decision>>>)

  /** `recoveredFrom` is only present in a manifest that a rebuild wrote, and survives later updates. */
  datatype Manifest = Manifest(refs: Refs, recoveredFrom: Option<Option<Digest<Decision>>>, hash: ManifestHash)

  datatype Files = Files(
    plans: map<PlanHash, PlanDocument>,
    attempts: map<string, AttemptRecord>,
    runs: map<string, RunFiles>,
    decisions: Ledger,
    manifest: Option<Manifest>,
    objects: map<AttemptDigest, AttemptRecord>)

  const EMPTY_STORE := Files(map[], map[], map[], [], None, map[])

  function Sealed(refs: Refs, recoveredFrom: Option<Option<Digest<Decision>>>): Manifest {
    Manifest(refs, recoveredFrom, ManifestSha(refs, recoveredFrom))
  }

  function RunOf(f: Files, id: string): RunFiles {
    if id in f.runs then f.runs[id] else map[]
  }

  // ---------- names ----------

  predicate IsAlphanumeric(c: char) {
    'A' <= c <= 'Z' || 'a' <= c <= 'z' || '0' <= c <= '9'
  }

  function SafeComponent(s: string): Result<string, StoreError> {
    var n := Strip(s);
    if && n != [] && IsAlphanumeric(n[0])
       && forall i :: 0 <= i < |n| ==> IsAlphanumeric(n[i]) || n[i] in "_.-"
    then Ok(n)
    else Err(UnsafeComponent)
  }

  /** A safe name is its own safe form. */
  lemma SafeIsStable(s: string)
    requires SafeComponent(s).Ok?
    ensures SafeComponent(SafeComponent(s).value) == SafeComponent(s)
  {
    var n := SafeComponent(s).value;
    forall i | 0 <= i < |n| ensures !IsSpace(n[i]) {
      assert IsAlphanumeric(n[i]) || n[i] in "_.-";
    }
    StripsNothing(n);
  }

  /** An id that the store changes. */
  lemma BlankIsTrimmed()
    ensures SafeComponent(" a") == Ok("a")
  {
    assert StripLeft(" a") == "a";
    assert StripRight("a") == "a";
  }

  // ---------- attempts ----------

  ghost function Load(f: Files, id: string, verifyRun: bool): Result<AttemptRecord, StoreError> {
    if id !in f.attempts then Err(NoSuchAttempt)
    else
      var r := f.attempts[id];
      if !WellDigested(r) then Err(InvalidRecordHash)
      else if r.attempt.attemptId != id then Err(WrongRecordId)
      else if !PlanObjectOk(f.plans, r.attempt) then Err(PlanEvidenceInvalid)
      else if verifyRun && !RunEvidenceOk(RunOf(f, id), r.attempt) then Err(RunEvidenceInvalid)
      else Ok(r)
  }

  function CheckPlan(plan: CompiledPlan): Result<PlanDocument, StoreError> {
    if plan.content.candidate.None? then Err(NotACandidate)
    else if plan.planHash != Some(PlanSha(plan.content)) then Err(PlanHashMismatch)
    else Ok(PlanDocument(plan.content, PlanSha(plan.content)))
  }

  function CheckBegin(f: Files, id: string, doc: PlanDocument): Result<(), StoreError> {
    if id in f.attempts then Err(AttemptExists)
    else if doc.planHash in f.plans && f.plans[doc.planHash] != doc then Err(PlanConflict)
    else Ok(())
  }

  function WritePlan(f: Files, doc: PlanDocument): Files {
    f.(plans := f.plans[doc.planHash := doc])
  }

  function RunningAttempt(id: string, doc: PlanDocument, now: string): Attempt
    requires doc.content.candidate.Some?
  {
    Attempt(id, doc.content.caseId, doc.planHash, Running, now, None, doc.content.candidate.value,
            doc.content.objectives,
            FileSha(PlanText(doc)), map[], "running", "not_evaluated", "not_evaluated", None, None)
  }

  function WriteAttempt(f: Files, r: AttemptRecord): Files {
    f.(attempts := f.attempts[r.attempt.attemptId := r])
  }

  /** The summary that `finish` records: the one handed over, or the one the run left behind. */
  function EffectiveSummary(files: RunFiles, summary: Option<Summary>): Result<Option<Summary>, StoreError> {
    if summary.Some? then Ok(summary)
    else if RunSummary !in files then Ok(None)
    else if files[RunSummary].SummaryText? then Ok(Some(files[RunSummary].summary))
    else Err(InvalidSummary)
  }

  ghost predicate EventsReadable(files: RunFiles, a: Attempt) {
    Events in files ==> WellFormed(EventLines(files[Events]), BelongsTo(a.attemptId, a.planHash))
  }

  ghost function RunEvidence(files: RunFiles): map<RunFile, Evidence> {
    map k | k in files ::
      Evidence(FileSha(files[k]), if k == Events then TailHash(Entries(EventLines(files[k]))) else None)
  }

  function EndedAttempt(started: Attempt, evidence: map<RunFile, Evidence>, summary: Option<Summary>,
                        error: Option<string>, now: string): Attempt
  {
    started.(
      status := if error.None? && summary.Some? then Succeeded else Failed,
      completedAt := Some(now),
      runEvidence := started.runEvidence + evidence,
      orchestration := if summary.None? then "failed"
                       else if summary.value.orchestration.Some? then summary.value.orchestration.value
                       else "succeeded",
      numerical := if summary.None? || summary.value.numerical.None? then "not_evaluated"
                   else summary.value.numerical.value,
      scientific := if summary.None? || summary.value.scientific.None? then "not_evaluated"
                    else summary.value.scientific.value,
      summary := summary,
      error := error)
  }

  ghost function FinishedAttempt(started: Attempt, files: RunFiles, summary: Option<Summary>, error: Option<string>,
                                 now: string): Attempt
  {
    EndedAttempt(started, RunEvidence(files), summary, error, now)
  }

  ghost function Finish(f: Files, started: AttemptRecord, summary: Option<Summary>, error: Option<string>, now: string)
    : Result<Files, StoreError>
  {
    var id := started.attempt.attemptId;
    var current := Load(f, id, false);
    if current.Err? then Err(current.error)
    else if !current.value.attempt.status.Running? || current.value.digest != started.digest then Err(AttemptChanged)
    else
      var files := RunOf(f, id);
      var effective := EffectiveSummary(files, summary);
      if effective.Err? then Err(effective.error)
      else if !EventsReadable(files, started.attempt) then Err(InvalidEvents)
      else Ok(WriteAttempt(f, WithDigest(FinishedAttempt(started.attempt, files, effective.value, error, now))))
  }

  // ---------- decisions ----------

  datatype Request = Request(attemptId: string, actor: string, decision: string, reason: string,
                             refName: Option<string>)

  /** A request whose fields passed the checks made before the store is locked. */
  datatype Checked = Checked(actor: string, verdict: Verdict, reason: string, refName: Option<string>)

  function CheckRequest(r: AttemptRecord, q: Request): Result<Checked, StoreError> {
    var actor, decision, reason := Strip(q.actor), Strip(q.decision), Strip(q.reason);
    if actor != "agent" && actor != "engineer" then Err(InvalidActor)
    else if decision != "promote" && decision != "reject" then Err(InvalidVerdict)
    else if reason == "" then Err(EmptyReason)
    else if decision == "promote" then
      if !Promotable(r) then Err(NotPromotable)
      else if q.refName.None? then Err(RefRequired)
      else
        var name := SafeComponent(q.refName.value);
        if name.Err? then Err(name.error) else Ok(Checked(actor, Promote, reason, Some(name.value)))
    else if q.refName.Some? then Err(RefForbidden)
    else Ok(Checked(actor, Reject, reason, None))
  }

  function CheckManifest(m: Option<Manifest>): Result<Option<Manifest>, StoreError> {
    if m.Some? && m.value.hash != ManifestSha(m.value.refs, m.value.recoveredFrom) then Err(InvalidManifest) else Ok(m)
  }

  function Pins(refs: Refs): map<string, Pin> {
    map name | name in refs :: refs[name].pin
  }

  /** The check made before a promotion: the manifest must say what the ledger says. */
  function CheckConsistent(decisions: Ledger, manifest: Option<Manifest>): Result<(), StoreError> {
    var checked := CheckManifest(manifest);
    if checked.Err? then Err(checked.error)
    else if manifest.None? then
      if Fold(decisions) == map[] then Ok(()) else Err(ManifestMissing)
    else if Pins(manifest.value.refs) != Pins(Fold(decisions)) then Err(ManifestStale)
    else Ok(())
  }

  function NewDecision(decisions: Ledger, r: AttemptRecord, c: Checked, now: string): Decision {
    Decision(now, r.attempt.attemptId, r.digest, r.attempt.planHash, c.actor, c.verdict, c.reason, c.refName,
             if c.refName.Some? then LatestTarget(decisions, c.refName.value) else None)
  }

  /** Everything under the lock up to and including the append to the authoritative ledger. */
  ghost function Append(f: Files, r: AttemptRecord, c: Checked, now: string): Result<Files, StoreError> {
    if !Verified(f.decisions) then Err(InvalidLedger)
    else
      var consistent := if c.refName.Some? then CheckConsistent(f.decisions, f.manifest) else Ok(());
      if consistent.Err? then Err(consistent.error)
      else Ok(f.(decisions := f.decisions + [NextEntry(f.decisions, NewDecision(f.decisions, r, c, now))]))
  }

  /** Keeping the promoted record as a content-addressed object. */
  function WriteObject(f: Files, r: AttemptRecord): Result<Files, StoreError> {
    if r.digest in f.objects then
      if f.objects[r.digest] != r then Err(ObjectConflict) else Ok(f)
    else Ok(f.(objects := f.objects[r.digest := r]))
  }

  /** Replacing the derived manifest after an append. */
  function WriteManifest(f: Files, e: Entry<Decision>): Result<Files, StoreError>
    requires IsPromotion(e)
  {
    var checked := CheckManifest(f.manifest);
    if checked.Err? then Err(checked.error)
    else
      var refs := if f.manifest.Some? then f.manifest.value.refs else map[];
      var recovered := if f.manifest.Some? then f.manifest.value.recoveredFrom else None;
      Ok(f.(manifest := Some(Sealed(refs[e.record.body.refName.value := RefEntryOf(e)], recovered))))
  }

  /** The three writes of one promotion, uninterrupted. */
  ghost function Promotion(f: Files, r: AttemptRecord, c: Checked, now: string): Result<Files, StoreError>
    requires c.verdict.Promote? && c.refName.Some?
  {
    var appended := Append(f, r, c, now);
    if appended.Err? then appended
    else
      var kept := WriteObject(appended.value, r);
      if kept.Err? then kept
      else WriteManifest(kept.value, kept.value.decisions[|kept.value.decisions| - 1])
  }

  // ---------- recovery ----------

  /** What a rebuild does for the decision at `i`: reload the attempt, compare, keep its object. */
  ghost function RebuildObject(f: Files, i: nat): Result<Files, StoreError>
    requires i < |f.decisions|
  {
    var d := f.decisions[i].record.body;
    if !IsPromotion(f.decisions[i]) then Ok(f)
    else
      var loaded := Load(f, d.attemptId, true);
      if loaded.Err? then Err(loaded.error)
      else if loaded.value.digest != d.attemptDigest || loaded.value.attempt.planHash != d.planHash
        then Err(DecisionMismatch)
      else WriteObject(f, loaded.value)
  }

  ghost function RebuildObjects(f: Files, n: nat): (r: Result<Files, StoreError>)
    requires n <= |f.decisions|
    ensures r.Ok? ==> r.value == f.(objects := r.value.objects)
  {
    if n == 0 then Ok(f)
    else
      var before := RebuildObjects(f, n - 1);
      if before.Err? then before else RebuildObject(before.value, n - 1)
  }

  /** The manifest that a rebuild writes, whatever was there before. */
  function RebuiltManifest(decisions: Ledger): Manifest {
    Sealed(Fold(decisions), Some(TailHash(decisions)))
  }

  ghost function Rebuild(f: Files): Result<Files, StoreError> {
    if !Verified(f.decisions) then Err(InvalidLedger)
    else
      var kept := RebuildObjects(f, |f.decisions|);
      if kept.Err? then kept
      else Ok(kept.value.(manifest := Some(RebuiltManifest(f.decisions))))
  }

  // ---------- what the files can be when an operation ends ----------

  /** After a begin: nothing, the plan object only, or the running record as well. */
  ghost predicate BeginOutcome(f: Files, plan: CompiledPlan, attemptId: string, now: string, g: Files) {
    g == f ||
    (&& SafeComponent(attemptId).Ok? && CheckPlan(plan).Ok?
     && CheckBegin(f, SafeComponent(attemptId).value, CheckPlan(plan).value).Ok?
     && var doc := CheckPlan(plan).value;
        || g == WritePlan(f, doc)
        || g == WriteAttempt(WritePlan(f, doc), WithDigest(RunningAttempt(SafeComponent(attemptId).value, doc, now))))
  }

  /** After a decision under the lock: a prefix of its writes. */
  ghost predicate CommitOutcome(f: Files, r: AttemptRecord, c: Checked, now: string, g: Files)
    requires c.verdict.Promote? == c.refName.Some?
  {
    var appended := Append(f, r, c, now);
    g == f ||
    (&& appended.Ok?
     && (|| g == appended.value
         || (c.refName.Some? && (Ok(g) == WriteObject(appended.value, r) || Ok(g) == Promotion(f, r, c, now)))))
  }

  /** The checks of a decision that are made without the lock. */
  ghost function CheckDecision(f: Files, q: Request): Result<(AttemptRecord, Checked), StoreError> {
    var name := SafeComponent(q.attemptId);
    if name.Err? then Err(name.error)
    else
      var loaded := Load(f, name.value, true);
      if loaded.Err? then Err(loaded.error)
      else
        var checked := CheckRequest(loaded.value, q);
        if checked.Err? then Err(checked.error) else Ok((loaded.value, checked.value))
  }

  lemma CheckedVerdict(r: AttemptRecord, q: Request)
    requires CheckRequest(r, q).Ok?
    ensures CheckRequest(r, q).value.verdict.Promote? == CheckRequest(r, q).value.refName.Some?
  {
  }

  /** After a rebuild: the objects of some prefix with the old manifest, or the rebuilt files. */
  ghost predicate RebuildOutcome(f: Files, g: Files) {
    g == f || (Verified(f.decisions) && (Ok(g) == Rebuild(f) || ObjectsRebuilt(f, g)))
  }

  ghost predicate ObjectsRebuilt(f: Files, g: Files) {
    exists n {:trigger RebuildObjects(f, n)} :: 0 <= n <= |f.decisions| && Ok(g) == RebuildObjects(f, n)
  }

  /** The rebuild of the decision at `n` is the first that fails, with this error. */
  ghost predicate RebuildStopsAt(f: Files, n: nat, g: Files, error: StoreError) {
    n < |f.decisions| && Ok(g) == RebuildObjects(f, n) && RebuildObjects(f, n + 1) == Err(error)
  }
}
