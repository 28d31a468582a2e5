/**
 What the operations of the store are for, said of the records that they leave: on their fields, from the
 inputs, without the functions that compute them.
 */
module StoreMeaning {
  import opened Wrappers
  import opened Strings
  import opened HashChain
  import opened Types
  import opened AttemptRecords
  import opened DecisionLedger
  import opened StoreOperations

  // ---------- names ----------

  /** Stripping removes blanks, and all of them, at both ends. */
  lemma {:induction false} StripMeaning(s: string) returns (left: string, right: string)
    ensures s == left + Strip(s) + right
    ensures forall i :: 0 <= i < |left| ==> IsSpace(left[i])
    ensures forall i :: 0 <= i < |right| ==> IsSpace(right[i])
    ensures Strip(s) != "" ==> !IsSpace(Strip(s)[0]) && !IsSpace(Strip(s)[|Strip(s)| - 1])
  {
    left := StripLeftMeaning(s);
    right := StripRightMeaning(StripLeft(s));
    var inner := StripLeft(s);
    assert inner == Strip(s) + right;
    if Strip(s) != "" {
      assert inner[0] == Strip(s)[0];
    }
  }

  lemma {:induction false} StripLeftMeaning(s: string) returns (left: string)
    ensures s == left + StripLeft(s) && forall i :: 0 <= i < |left| ==> IsSpace(left[i])
    ensures StripLeft(s) != "" ==> !IsSpace(StripLeft(s)[0])
  {
    if s != "" && IsSpace(s[0]) {
      var rest := StripLeftMeaning(s[1..]);
      left := [s[0]] + rest;
      assert s == [s[0]] + s[1..];
    } else {
      left := "";
    }
  }

  lemma {:induction false} StripRightMeaning(s: string) returns (right: string)
    ensures s == StripRight(s) + right && forall i :: 0 <= i < |right| ==> IsSpace(right[i])
    ensures StripRight(s) != "" ==> !IsSpace(StripRight(s)[|StripRight(s)| - 1])
  {
    if s != "" && IsSpace(s[|s| - 1]) {
      var rest := StripRightMeaning(s[..|s| - 1]);
      right := rest + [s[|s| - 1]];
      assert s == s[..|s| - 1] + [s[|s| - 1]];
    } else {
      right := "";
    }
  }

  predicate IsLetterOrDigit(c: char) {
    'a' <= c <= 'z' || 'A' <= c <= 'Z' || '0' <= c <= '9'
  }

  /** `[A-Za-z0-9][A-Za-z0-9_.-]*` */
  predicate IsSafe(n: string) {
    n != "" && IsLetterOrDigit(n[0]) && forall i :: 0 < i < |n| ==> IsLetterOrDigit(n[i]) || n[i] in {'_', '.', '-'}
  }

  /** A name is safe if it matches the pattern once stripped, and its safe form is the stripped name. */
  lemma SafeMeaning(s: string)
    ensures SafeComponent(s).Ok? <==> IsSafe(Strip(s))
    ensures SafeComponent(s).Ok? ==> SafeComponent(s).value == Strip(s)
    ensures SafeComponent(s).Err? ==> SafeComponent(s).error == UnsafeComponent
  {
  }

  // ---------- beginning an attempt ----------

  predicate MayBegin(f: Files, plan: CompiledPlan, attemptId: string) {
    && SafeComponent(attemptId).Ok?
    && plan.content.candidate.Some? && plan.planHash == Some(PlanSha(plan.content))
    && SafeComponent(attemptId).value !in f.attempts
    && (PlanSha(plan.content) in f.plans ==>
          f.plans[PlanSha(plan.content)] == PlanDocument(plan.content, PlanSha(plan.content)))
  }

  /** The first check that fails. */
  function RefusalOfBegin(f: Files, plan: CompiledPlan, attemptId: string): StoreError {
    if SafeComponent(attemptId).Err? then UnsafeComponent
    else if plan.content.candidate.None? then NotACandidate
    else if plan.planHash != Some(PlanSha(plan.content)) then PlanHashMismatch
    else if SafeComponent(attemptId).value in f.attempts then AttemptExists
    else PlanConflict
  }

  /** The record of an attempt that has just begun. */
  predicate RecordsBegin(a: Attempt, plan: CompiledPlan, attemptId: string, now: string) {
    && a.status.Running? && a.startedAt == now && a.completedAt.None?
    && SafeComponent(attemptId) == Ok(a.attemptId) && a.caseId == plan.content.caseId
    && plan.planHash == Some(a.planHash) && a.planHash.content == plan.content
    && plan.content.candidate == Some(a.candidate) && a.objectives == plan.content.objectives
    && a.planObject == FileSha(PlanText(PlanDocument(plan.content, a.planHash)))
    && a.runEvidence == map[] && a.summary.None? && a.error.None?
    && a.orchestration == "running" && a.numerical == "not_evaluated" && a.scientific == "not_evaluated"
  }

  // ---------- finishing an attempt ----------

  /** What the finished record keeps of the begun one, and what it says about the files of the run. */
  ghost predicate RecordsRun(a: Attempt, started: Attempt, files: RunFiles) {
    && a.attemptId == started.attemptId && a.caseId == started.caseId && a.planHash == started.planHash
    && a.startedAt == started.startedAt && a.candidate == started.candidate && a.objectives == started.objectives
    && a.planObject == started.planObject
    && a.runEvidence.Keys == started.runEvidence.Keys + files.Keys
    && (forall k :: k in files ==>
          && a.runEvidence[k].sha == FileSha(files[k])
          && a.runEvidence[k].tail == if k == Events then TailHash(Entries(EventLines(files[k]))) else None)
    && (forall k :: k in started.runEvidence && k !in files ==> a.runEvidence[k] == started.runEvidence[k])
  }

  /** The summary that lies in the run. */
  function SummaryLeft(files: RunFiles): Option<Summary> {
    if RunSummary in files && files[RunSummary].SummaryText? then Some(files[RunSummary].summary) else None
  }

  function Default(text: Option<string>, default: string): string {
    if text.Some? then text.value else default
  }

  /**
   An attempt succeeded exactly if no error was handed over and there is a summary; its statuses are the
   summary's.
   */
  predicate RecordsEnd(a: Attempt, files: RunFiles, summary: Option<Summary>, error: Option<string>, now: string) {
    && !a.status.Running?
    && (a.status.Succeeded? <==> error.None? && (summary.Some? || RunSummary in files))
    && a.completedAt == Some(now) && a.error == error
    && a.summary == (if summary.Some? then summary else SummaryLeft(files))
    && (a.summary.None? ==> a.orchestration == "failed" && a.numerical == a.scientific == "not_evaluated")
    && (a.summary.Some? ==>
          && a.orchestration == Default(a.summary.value.orchestration, "succeeded")
          && a.numerical == Default(a.summary.value.numerical, "not_evaluated")
          && a.scientific == Default(a.summary.value.scientific, "not_evaluated"))
  }

  /** Finishing records how the run ended and what it left. */
  lemma FinishRecords(f: Files, started: AttemptRecord, summary: Option<Summary>, error: Option<string>, now: string)
    requires Finish(f, started, summary, error, now).Ok?
    ensures var id, g := started.attempt.attemptId, Finish(f, started, summary, error, now).value;
            && id in g.attempts && WellDigested(g.attempts[id]) && g == f.(attempts := f.attempts[id := g.attempts[id]])
            && RecordsRun(g.attempts[id].attempt, started.attempt, RunOf(f, id))
            && RecordsEnd(g.attempts[id].attempt, RunOf(f, id), summary, error, now)
  {
    var files := RunOf(f, started.attempt.attemptId);
    FinishedRecordsEnd(started.attempt, files, summary, EffectiveSummary(files, summary).value, error, now);
  }

  lemma FinishedRecordsEnd(started: Attempt, files: RunFiles, summary: Option<Summary>, effective: Option<Summary>,
                           error: Option<string>, now: string)
    requires EffectiveSummary(files, summary) == Ok(effective)
    ensures RecordsRun(FinishedAttempt(started, files, effective, error, now), started, files)
    ensures RecordsEnd(FinishedAttempt(started, files, effective, error, now), files, summary, error, now)
  {
  }

  // ---------- decisions ----------

  /** A request whose fields are in order, for this record. */
  predicate MayDecide(r: AttemptRecord, q: Request) {
    && Strip(q.actor) in {"agent", "engineer"} && Strip(q.decision) in {"promote", "reject"} && Strip(q.reason) != ""
    && (Strip(q.decision) == "promote" ==>
          && r.attempt.status.Succeeded? && r.attempt.orchestration == "succeeded"
          && q.refName.Some? && SafeComponent(q.refName.value).Ok?)
    && (Strip(q.decision) == "reject" ==> q.refName.None?)
  }

  /** The first check that fails. */
  function RefusalOfRequest(r: AttemptRecord, q: Request): StoreError {
    if Strip(q.actor) !in {"agent", "engineer"} then InvalidActor
    else if Strip(q.decision) !in {"promote", "reject"} then InvalidVerdict
    else if Strip(q.reason) == "" then EmptyReason
    else if Strip(q.decision) == "reject" then RefForbidden
    else if !(r.attempt.status.Succeeded? && r.attempt.orchestration == "succeeded") then NotPromotable
    else if q.refName.None? then RefRequired
    else UnsafeComponent
  }

  /** What is decided is what was asked for, stripped. */
  predicate AsRequested(actor: string, verdict: Verdict, reason: string, refName: Option<string>, q: Request) {
    && actor == Strip(q.actor) && reason == Strip(q.reason)
    && (if verdict.Promote? then Strip(q.decision) == "promote" else Strip(q.decision) == "reject")
    && (if q.refName.Some? then refName.Some? && SafeComponent(q.refName.value) == Ok(refName.value) else refName.None?)
  }

  lemma CheckRequestMeaning(r: AttemptRecord, q: Request)
    ensures CheckRequest(r, q).Ok? <==> MayDecide(r, q)
    ensures CheckRequest(r, q).Ok? ==>
              var c := CheckRequest(r, q).value; AsRequested(c.actor, c.verdict, c.reason, c.refName, q)
    ensures CheckRequest(r, q).Err? ==> CheckRequest(r, q).error == RefusalOfRequest(r, q)
  {
  }

  /** The appended decision is about that record, with the fields of the checked request. */
  predicate IsAbout(d: Decision, r: AttemptRecord, now: string) {
    d.timestamp == now && d.attemptId == r.attempt.attemptId && d.attemptDigest == r.digest
      && d.planHash == r.attempt.planHash
  }

  /** A promotion names the last promotion of its ref as predecessor, if there is one; a rejection names none. */
  ghost predicate NamesPredecessor(d: Decision, before: Ledger) {
    if d.refName.None? then d.predecessor.None?
    else
      var name := d.refName.value;
      if exists i :: 0 <= i < |before| && Promotes(before[i], name) then
        exists i: nat :: LastPromotionAt(before, name, |before|, i) && d.predecessor == Some(TargetOf(before[i]))
      else d.predecessor.None?
  }

  ghost predicate SaysWhatWasAsked(d: Decision, before: Ledger, r: AttemptRecord, c: Checked, now: string) {
    && IsAbout(d, r, now) && NamesPredecessor(d, before)
    && d.actor == c.actor && d.verdict == c.verdict && d.reason == c.reason && d.refName == c.refName
  }

  lemma DecisionSaysWhatWasAsked(before: Ledger, r: AttemptRecord, c: Checked, now: string)
    ensures SaysWhatWasAsked(NewDecision(before, r, c, now), before, r, c, now)
  {
    if c.refName.Some? {
      var name := c.refName.value;
      if name in Fold(before) {
        var i := FoldedIsLastPromotion(before, name);
        LastPromotionIsFolded(before, name, i);
      } else if i :| 0 <= i < |before| && Promotes(before[i], name) {
        var j := LastPromotionExists(before, name, i);
        LastPromotionIsFolded(before, name, j);
        assert false;
      }
    }
  }

  lemma {:induction false} LastPromotionExists(before: Ledger, name: string, i: nat) returns (j: nat)
    requires i < |before| && Promotes(before[i], name)
    ensures LastPromotionAt(before, name, |before|, j)
    decreases |before| - i
  {
    if l :| i < l < |before| && Promotes(before[l], name) {
      j := LastPromotionExists(before, name, l);
    } else {
      j := i;
    }
  }

  /** What the entry of a ref says about the decision that wrote it. */
  lemma EntryMeaning(e: Entry<Decision>)
    ensures var d, entry := e.record.body, RefEntryOf(e);
            && entry.pin.target.attemptId == d.attemptId && entry.pin.target.attemptDigest == d.attemptDigest
            && entry.pin.target.planHash == d.planHash && entry.pin.target.decisionHash == e.hash
            && entry.pin.predecessor == d.predecessor && entry.objectDigest == d.attemptDigest
              && entry.updatedAt == d.timestamp
  {
  }

  // ---------- loading ----------

  /** A finished run is what its record says: its files, its plan lock and the end of its event log. */
  ghost predicate RunMatches(files: RunFiles, a: Attempt) {
    && (forall k :: k in a.runEvidence ==> k in files && a.runEvidence[k].sha.content == files[k])
    && (PlanLock in a.runEvidence ==>
          files[PlanLock].PlanText?
            && files[PlanLock].plan.planHash == a.planHash == PlanSha(files[PlanLock].plan.content))
    && (Events in a.runEvidence ==>
          && files[Events].EventText?
            && (forall i :: 0 <= i < |files[Events].lines| ==> !files[Events].lines[i].Malformed?)
          && Verified(Entries(files[Events].lines))
          && (forall e :: e in Entries(files[Events].lines) ==>
                e.record.body.runId == a.attemptId && e.record.body.planHash == a.planHash)
          && TailHash(Entries(files[Events].lines)) == a.runEvidence[Events].tail)
    && (a.status.Succeeded? ==> {PlanLock, Events, RunMetadata, RunSummary} <= a.runEvidence.Keys)
  }

  lemma RunEvidenceMeaning(files: RunFiles, a: Attempt)
    requires !a.status.Running?
    ensures RunEvidenceOk(files, a) <==> RunMatches(files, a)
  {
    if Events in a.runEvidence && Events in files {
      var lines := EventLines(files[Events]);
      assert lines == [Malformed] ==> lines[0].Malformed?;
      if forall e :: e in Entries(lines) ==> BelongsTo(a.attemptId, a.planHash)(e.record.body) {
        forall i | 0 <= i < |Entries(lines)| ensures BelongsTo(a.attemptId, a.planHash)(Entries(lines)[i].record.body) {
          assert Entries(lines)[i] in Entries(lines);
        }
      }
    }
  }

  /** Loading gives the record under that id if its digest, id, plan object and, when asked, its run are in order. */
  lemma LoadMeaning(f: Files, id: string, verifyRun: bool)
    ensures Load(f, id, verifyRun).Ok? <==>
            && id in f.attempts && f.attempts[id].digest == AttemptSha(f.attempts[id].attempt)
            && f.attempts[id].attempt.attemptId == id
            && HasPlanObject(f.plans, f.attempts[id].attempt)
            && (verifyRun && !f.attempts[id].attempt.status.Running? ==>
              RunMatches(RunOf(f, id), f.attempts[id].attempt))
    ensures Load(f, id, verifyRun).Ok? ==> Load(f, id, verifyRun).value == f.attempts[id]
  {
    if id in f.attempts && !f.attempts[id].attempt.status.Running? {
      RunEvidenceMeaning(RunOf(f, id), f.attempts[id].attempt);
    }
  }

  /** The plan object is the document with the recorded digest, and its hash is that of its content. */
  predicate HasPlanObject(plans: map<PlanHash, PlanDocument>, a: Attempt) {
    && a.planHash in plans && a.planObject.content == PlanText(plans[a.planHash])
    && plans[a.planHash] == PlanDocument(a.planHash.content, a.planHash)
  }

  /** The first check that fails. */
  ghost function RefusalOfLoad(f: Files, id: string): StoreError {
    if id !in f.attempts then NoSuchAttempt
    else if f.attempts[id].digest != AttemptSha(f.attempts[id].attempt) then InvalidRecordHash
    else if f.attempts[id].attempt.attemptId != id then WrongRecordId
    else if !HasPlanObject(f.plans, f.attempts[id].attempt) then PlanEvidenceInvalid
    else RunEvidenceInvalid
  }

  lemma LoadRefused(f: Files, id: string, verifyRun: bool)
    requires Load(f, id, verifyRun).Err?
    ensures Load(f, id, verifyRun).error == RefusalOfLoad(f, id)
  {
  }

  /** An attempt can be finished exactly if its record is still the begun one and its run can be read. */
  ghost predicate MayFinish(f: Files, started: AttemptRecord, summary: Option<Summary>) {
    var id := started.attempt.attemptId;
    && Load(f, id, false).Ok? && f.attempts[id].attempt.status.Running? && f.attempts[id].digest == started.digest
    && (summary.None? && RunSummary in RunOf(f, id) ==> RunOf(f, id)[RunSummary].SummaryText?)
    && (Events in RunOf(f, id) ==>
          WellFormed(EventLines(RunOf(f, id)[Events]), BelongsTo(id, started.attempt.planHash)))
  }

  lemma FinishRefusedUnless(f: Files, started: AttemptRecord, summary: Option<Summary>, error: Option<string>,
                            now: string)
    ensures Finish(f, started, summary, error, now).Ok? <==> MayFinish(f, started, summary)
    ensures Finish(f, started, summary, error, now).Err? ==>
              Finish(f, started, summary, error, now).error ==
              var id := started.attempt.attemptId;
              if Load(f, id, false).Err? then RefusalOfLoad(f, id)
              else if !f.attempts[id].attempt.status.Running? || f.attempts[id].digest != started.digest
                then AttemptChanged
              else if summary.None? && RunSummary in RunOf(f, id) && !RunOf(f, id)[RunSummary].SummaryText?
                then InvalidSummary
              else InvalidEvents
  {
    if Load(f, started.attempt.attemptId, false).Err? {
      LoadRefused(f, started.attempt.attemptId, false);
    }
  }

  // ---------- the manifest ----------

  predicate Intact(m: Manifest) {
    m.hash == ManifestSha(m.refs, m.recoveredFrom)
  }

  /** The manifest names for each ref what its last promotion says, and no other ref. */
  ghost predicate NamesLastPromotions(refs: Refs, ledger: Ledger) {
    && (forall name :: name in refs ==> exists i: nat :: LastPromotionAt(ledger, name, |ledger|, i)
                                                         && refs[name].pin.target == TargetOf(ledger[i])
                                                         && refs[name].pin.predecessor
                                                           == ledger[i].record.body.predecessor)
    && (forall i :: 0 <= i < |ledger| && IsPromotion(ledger[i]) ==> ledger[i].record.body.refName.value in refs)
  }

  lemma {:induction false} PromotedIsFolded(ledger: Ledger, i: nat)
    requires i < |ledger| && IsPromotion(ledger[i])
    ensures ledger[i].record.body.refName.value in Fold(ledger)
  {
    var name := ledger[i].record.body.refName.value;
    var j := LastPromotionExists(ledger, name, i);
    LastPromotionIsFolded(ledger, name, j);
  }

  lemma FoldNamesLastPromotions(ledger: Ledger)
    ensures NamesLastPromotions(Fold(ledger), ledger)
  {
    forall name | name in Fold(ledger)
      ensures exists i: nat :: LastPromotionAt(ledger, name, |ledger|, i)
                               && Fold(ledger)[name].pin.target == TargetOf(ledger[i])
                               && Fold(ledger)[name].pin.predecessor == ledger[i].record.body.predecessor
    {
      var i := FoldedIsLastPromotion(ledger, name);
      LastPromotionIsFolded(ledger, name, i);
    }
    forall i | 0 <= i < |ledger| && IsPromotion(ledger[i]) ensures ledger[i].record.body.refName.value in Fold(ledger) {
      PromotedIsFolded(ledger, i);
    }
  }

  lemma NamesAreFolded(refs: Refs, ledger: Ledger)
    requires NamesLastPromotions(refs, ledger)
    ensures Pins(refs) == Pins(Fold(ledger))
  {
    forall name | name in refs ensures name in Fold(ledger) && refs[name].pin == Fold(ledger)[name].pin {
      var i: nat :| LastPromotionAt(ledger, name, |ledger|, i) && refs[name].pin.target == TargetOf(ledger[i])
                    && refs[name].pin.predecessor == ledger[i].record.body.predecessor;
      LastPromotionIsFolded(ledger, name, i);
    }
    forall name | name in Fold(ledger) ensures name in refs {
      var i := FoldedIsLastPromotion(ledger, name);
      assert IsPromotion(ledger[i]);
    }
    assert refs.Keys == Fold(ledger).Keys;
  }

  lemma SamePinsNameTheSame(refs: Refs, folded: Refs, ledger: Ledger)
    requires Pins(refs) == Pins(folded) && NamesLastPromotions(folded, ledger)
    ensures NamesLastPromotions(refs, ledger)
  {
    assert refs.Keys == Pins(refs).Keys && folded.Keys == Pins(folded).Keys;
    forall name | name in refs ensures refs[name].pin == folded[name].pin {
      assert Pins(refs)[name] == Pins(folded)[name];
    }
  }

  lemma NamesLikeFold(refs: Refs, ledger: Ledger)
    ensures NamesLastPromotions(refs, ledger) <==> Pins(refs) == Pins(Fold(ledger))
  {
    FoldNamesLastPromotions(ledger);
    if NamesLastPromotions(refs, ledger) {
      NamesAreFolded(refs, ledger);
    }
    if Pins(refs) == Pins(Fold(ledger)) {
      SamePinsNameTheSame(refs, Fold(ledger), ledger);
    }
  }

  /**
   Before a promotion the manifest must be intact and say what the ledger says; without one nothing may be
   promoted yet.
   */
  lemma ConsistencyMeaning(ledger: Ledger, manifest: Option<Manifest>)
    ensures CheckConsistent(ledger, manifest)
            == if manifest.None? then
                 if exists i :: 0 <= i < |ledger| && IsPromotion(ledger[i]) then Err(ManifestMissing) else Ok(())
               else if !Intact(manifest.value) then Err(InvalidManifest)
               else if NamesLastPromotions(manifest.value.refs, ledger) then Ok(()) else Err(ManifestStale)
  {
    if manifest.Some? {
      NamesLikeFold(manifest.value.refs, ledger);
    } else if Fold(ledger) != map[] {
      var name :| name in Fold(ledger);
      var i := FoldedIsLastPromotion(ledger, name);
      assert IsPromotion(ledger[i]);
    } else if i :| 0 <= i < |ledger| && IsPromotion(ledger[i]) {
      PromotedIsFolded(ledger, i);
      assert false;
    }
  }

  /** Publishing a promotion changes the entry of its ref, keeps the others, and leaves the manifest intact. */
  lemma PublishingMeaning(f: Files, e: Entry<Decision>)
    requires IsPromotion(e)
    ensures WriteManifest(f, e).Ok? <==> f.manifest.None? || Intact(f.manifest.value)
    ensures WriteManifest(f, e).Ok? ==>
              var name, g := e.record.body.refName.value, WriteManifest(f, e).value;
              && g == f.(manifest := g.manifest) && g.manifest.Some? && Intact(g.manifest.value)
              && name in g.manifest.value.refs && g.manifest.value.refs[name] == RefEntryOf(e)
              && (forall n :: n != name ==>
                    (n in g.manifest.value.refs <==> f.manifest.Some? && n in f.manifest.value.refs))
              && (forall n :: n != name && n in g.manifest.value.refs ==>
                    g.manifest.value.refs[n] == f.manifest.value.refs[n])
              && g.manifest.value.recoveredFrom == if f.manifest.Some? then f.manifest.value.recoveredFrom else None
  {
  }

  /** A rebuilt manifest is intact, says what the ledger says, and names the end of the ledger it was rebuilt from. */
  lemma RebuiltMeaning(ledger: Ledger)
    ensures Intact(RebuiltManifest(ledger)) && NamesLastPromotions(RebuiltManifest(ledger).refs, ledger)
    ensures RebuiltManifest(ledger).recoveredFrom
            == Some(if ledger == [] then None else Some(ledger[|ledger| - 1].hash))
  {
    FoldNamesLastPromotions(ledger);
  }
}
