/**
 The attempt store as the program runs it: one object whose methods write the durable files step by
 step.  Any write may be the last one before a crash; each method says exactly what the files can be
 at every such point, in terms of the atomic steps of StoreOperations.
 */
module AttemptStore {
  import opened Wrappers
  import opened HashChain
  import opened Types
  import opened AttemptRecords
  import opened DecisionLedger
  import opened StoreOperations
  import opened StoreMeaning

  datatype Outcome<T> = Done(value: T) | Refused(error: StoreError) | Crashed

  const RUN_FILES := [PlanLock, Events, RunMetadata, RunSummary, ArtifactsManifest, CheckpointsManifest]

  /** The evidence checks of a finished attempt. */
  method VerifyRunEvidence(files: RunFiles, a: Attempt) returns (ok: bool)
    ensures ok <==> RunEvidenceOk(files, a)
  {
    if a.status.Running? {
      return true;
    }
    if !FilesMatch(files, a) || !PlanLockMatches(files, a) {
      return false;
    }
    if Events in a.runEvidence {
      var read := Read(EventLines(files[Events]), BelongsTo(a.attemptId, a.planHash));
      if read.Err? || TailHash(read.value) != a.runEvidence[Events].tail {
        return false;
      }
    }
    return a.status.Succeeded? ==> REQUIRED_EVIDENCE <= a.runEvidence.Keys;
  }

  /** Digests of the files that the run left behind. */
  method CollectRunEvidence(files: RunFiles, a: Attempt) returns (r: Result<map<RunFile, Evidence>, StoreError>)
    ensures r.Ok? <==> EventsReadable(files, a)
    ensures r.Ok? ==> r.value == RunEvidence(files)
    ensures r.Err? ==> r.error == InvalidEvents
  {
    var evidence: map<RunFile, Evidence> := map[];
    for i := 0 to |RUN_FILES|
      invariant forall k :: k in evidence <==> k in files && k in RUN_FILES[..i]
      invariant forall k :: k in evidence ==> evidence[k] == RunEvidence(files)[k]
      invariant Events in RUN_FILES[..i] ==> EventsReadable(files, a)
    {
      var name := RUN_FILES[i];
      if name in files {
        var tail: Option<Digest<RunEvent>> := None;
        if name == Events {
          var read := Read(EventLines(files[name]), BelongsTo(a.attemptId, a.planHash));
          if read.Err? {
            return Err(InvalidEvents);
          }
          tail := TailHash(read.value);
        }
        evidence := evidence[name := Evidence(FileSha(files[name]), tail)];
      }
    }
    forall k: RunFile ensures k in RUN_FILES {
      match k
      case PlanLock => assert RUN_FILES[0] == k;
      case Events => assert RUN_FILES[1] == k;
      case RunMetadata => assert RUN_FILES[2] == k;
      case RunSummary => assert RUN_FILES[3] == k;
      case ArtifactsManifest => assert RUN_FILES[4] == k;
      case CheckpointsManifest => assert RUN_FILES[5] == k;
    }
    assert RUN_FILES[..|RUN_FILES|] == RUN_FILES;
    assert evidence == RunEvidence(files);
    return Ok(evidence);
  }

  /** Reading the decision log back: the ledger itself, if it verifies. */
  method ReadDecisions(ledger: Ledger) returns (r: Result<Ledger, StoreError>)
    ensures r == if Verified(ledger) then Ok(ledger) else Err(InvalidLedger)
  {
    LinesRoundTrip(ledger);
    var read := Read(Lines(ledger), (d: Decision) => true);
    return if read.Ok? then Ok(read.value) else Err(InvalidLedger);
  }

  /** The comparison of manifest and ledger that precedes a promotion. */
  method AssertRefManifestConsistent(decisions: Ledger, manifest: Option<Manifest>) returns (r: Result<(), StoreError>)
    ensures r == CheckConsistent(decisions, manifest)
  {
    var expected: map<string, Pin> := map[];
    for i := 0 to |decisions|
      invariant expected == Pins(Fold(decisions[..i]))
    {
      assert decisions[..i + 1] == decisions[..i] + [decisions[i]];
      FoldAppend(decisions[..i], decisions[i]);
      if IsPromotion(decisions[i]) {
        var d := decisions[i].record.body;
        expected := expected[d.refName.value := Pin(TargetOf(decisions[i]), d.predecessor)];
      }
    }
    assert decisions[..|decisions|] == decisions;
    var checked := CheckManifest(manifest);
    if checked.Err? {
      return Err(checked.error);
    }
    if manifest.None? {
      return if expected != map[] then Err(ManifestMissing) else Ok(());
    }
    var refs := manifest.value.refs;
    if refs.Keys != expected.Keys {
      assert Pins(refs).Keys == refs.Keys;
      return Err(ManifestStale);
    }
    if exists name :: name in expected && refs[name].pin != expected[name] {
      ghost var name :| name in expected && refs[name].pin != expected[name];
      assert Pins(refs)[name] != expected[name];
      return Err(ManifestStale);
    }
    assert Pins(refs) == expected;
    return Ok(());
  }

  class AttemptStore {
    var plans: map<PlanHash, PlanDocument>
    var attempts: map<string, AttemptRecord>
    var runs: map<string, RunFiles>
    var decisions: Ledger
    var manifest: Option<Manifest>
    var objects: map<AttemptDigest, AttemptRecord>

    // how often a process that uses the store has died, and how often something outside has raised
    ghost var deaths: nat
    ghost var faults: nat

    ghost function State(): Files
      reads this
    {
      Files(plans, attempts, runs, decisions, manifest, objects)
    }

    constructor ()
      ensures State() == EMPTY_STORE && deaths == faults == 0
    {
      plans, attempts, runs, decisions, manifest, objects := map[], map[], map[], [], None, map[];
      deaths, faults := 0, 0;
    }

    /** The process may die here. */
    method CrashPoint() returns (crashed: bool)
      modifies this`deaths
      ensures deaths == old(deaths) + One(crashed)
    {
      crashed := *;
      deaths := deaths + One(crashed);
    }

    /** Something outside the store may raise here. */
    method MayRaise() returns (raises: bool)
      modifies this`faults
      ensures faults == old(faults) + One(raises)
    {
      raises := *;
      faults := faults + One(raises);
    }

    method LoadRecord(attemptId: string, verifyRun: bool) returns (r: Result<AttemptRecord, StoreError>)
      ensures r == if SafeComponent(attemptId).Err? then Err(UnsafeComponent)
                   else Load(State(), SafeComponent(attemptId).value, verifyRun)
    {
      var name := SafeComponent(attemptId);
      if name.Err? {
        return Err(UnsafeComponent);
      }
      r := LoadNamed(name.value, verifyRun);
    }

    /** Loading by a name that is already safe, as every recorded attempt id is. */
    method LoadNamed(id: string, verifyRun: bool) returns (r: Result<AttemptRecord, StoreError>)
      ensures r == Load(State(), id, verifyRun)
    {
      if id !in attempts {
        return Err(NoSuchAttempt);
      }
      var record := attempts[id];
      if !WellDigested(record) {
        return Err(InvalidRecordHash);
      }
      if record.attempt.attemptId != id {
        return Err(WrongRecordId);
      }
      if !PlanObjectOk(plans, record.attempt) {
        return Err(PlanEvidenceInvalid);
      }
      if verifyRun {
        var ok := VerifyRunEvidence(if id in runs then runs[id] else map[], record.attempt);
        if !ok {
          return Err(RunEvidenceInvalid);
        }
      }
      return Ok(record);
    }

    method Begin(plan: CompiledPlan, attemptId: string, now: string) returns (r: Outcome<AttemptRecord>)
      modifies this
      ensures r.Refused? ==> State() == old(State())
      ensures r.Refused? <==> !MayBegin(old(State()), plan, attemptId)
      ensures r.Refused? ==> r.error == RefusalOfBegin(old(State()), plan, attemptId)
      ensures r.Done? ==>
                && RecordsBegin(r.value.attempt, plan, attemptId, now) && WellDigested(r.value)
                && attempts == old(attempts)[r.value.attempt.attemptId := r.value]
                && plans == old(plans)[r.value.attempt.planHash := PlanDocument(plan.content, r.value.attempt.planHash)]
      ensures r.Done? ==>
                && SafeComponent(attemptId).Ok? && CheckPlan(plan).Ok?
                && CheckBegin(old(State()), SafeComponent(attemptId).value, CheckPlan(plan).value).Ok?
                && r.value == WithDigest(RunningAttempt(SafeComponent(attemptId).value, CheckPlan(plan).value, now))
                && State() == WriteAttempt(WritePlan(old(State()), CheckPlan(plan).value), r.value)
      ensures BeginOutcome(old(State()), plan, attemptId, now, State())
      ensures deaths == old(deaths) + One(r.Crashed?) && faults == old(faults)
    {
      var name := SafeComponent(attemptId);
      if name.Err? {
        return Refused(name.error);
      }
      var checkedPlan := CheckPlan(plan);
      if checkedPlan.Err? {
        return Refused(checkedPlan.error);
      }
      var id, doc := name.value, checkedPlan.value;
      if id in attempts {
        return Refused(AttemptExists);
      }
      if doc.planHash in plans {
        if plans[doc.planHash] != doc {
          return Refused(PlanConflict);
        }
        assert plans == plans[doc.planHash := doc];
      } else {
        plans := plans[doc.planHash := doc];
      }
      var crashed := CrashPoint();
      if crashed {
        return Crashed;
      }
      var record := WithDigest(RunningAttempt(id, doc, now));
      attempts := attempts[id := record];
      crashed := CrashPoint();
      if crashed {
        return Crashed;
      }
      return Done(record);
    }

    method FinishAttempt(started: AttemptRecord, summary: Option<Summary>, error: Option<string>, now: string)
      returns (r: Result<AttemptRecord, StoreError>)
      requires SafeComponent(started.attempt.attemptId) == Ok(started.attempt.attemptId)
      modifies this
      ensures r.Ok? <==> Finish(old(State()), started, summary, error, now).Ok?
      ensures r.Ok? ==> State() == Finish(old(State()), started, summary, error, now).value
                        && State().attempts[started.attempt.attemptId] == r.value
      ensures r.Err? ==> State() == old(State()) && r.error == Finish(old(State()), started, summary, error, now).error
      ensures r.Ok? ==> WellDigested(r.value)
                        && RecordsRun(r.value.attempt, started.attempt, RunOf(old(State()), started.attempt.attemptId))
                        && RecordsEnd(r.value.attempt, RunOf(old(State()), started.attempt.attemptId), summary, error,
                          now)
      ensures deaths == old(deaths) && faults == old(faults)
    {
      var id := started.attempt.attemptId;
      var current := LoadRecord(id, false);
      if current.Err? {
        return Err(current.error);
      }
      if !current.value.attempt.status.Running? || current.value.digest != started.digest {
        return Err(AttemptChanged);
      }
      var files := if id in runs then runs[id] else map[];
      var effective := EffectiveSummary(files, summary);
      if effective.Err? {
        return Err(effective.error);
      }
      var collected := CollectRunEvidence(files, started.attempt);
      if collected.Err? {
        return Err(collected.error);
      }
      var record := WithDigest(EndedAttempt(started.attempt, collected.value, effective.value, error, now));
      attempts := attempts[id := record];
      FinishedRecordsEnd(started.attempt, files, summary, effective.value, error, now);
      return Ok(record);
    }

    /** The checks under the lock and the append to the authoritative ledger. */
    method AppendDecision(record: AttemptRecord, checked: Checked, now: string)
      returns (r: Result<Entry<Decision>, StoreError>)
      requires checked.verdict.Promote? == checked.refName.Some?
      modifies this`decisions
      ensures r.Err? ==> Append(old(State()), record, checked, now) == Err(r.error) && State() == old(State())
      ensures r.Ok? ==>
                && Append(old(State()), record, checked, now) == Ok(State())
                && decisions == old(decisions) + [r.value]
                && SaysWhatWasAsked(r.value.record.body, old(decisions), record, checked, now)
    {
      var read := ReadDecisions(decisions);
      if read.Err? {
        return Err(read.error);
      }
      if checked.refName.Some? {
        var consistent := AssertRefManifestConsistent(read.value, manifest);
        if consistent.Err? {
          return Err(consistent.error);
        }
      }
      var predecessor := FindLatestTarget(read.value, checked.refName);
      var decision := Decision(now, record.attempt.attemptId, record.digest, record.attempt.planHash,
                               checked.actor, checked.verdict, checked.reason, checked.refName, predecessor);
      var entry := NextEntry(read.value, decision);
      DecisionSaysWhatWasAsked(read.value, record, checked, now);
      decisions := decisions + [entry];
      return Ok(entry);
    }

    /** Keeps the record of a promotion as an object. */
    method KeepObject(record: AttemptRecord) returns (error: Option<StoreError>)
      modifies this`objects
      ensures error.None? ==> WriteObject(old(State()), record) == Ok(State())
      ensures error.Some? ==> WriteObject(old(State()), record) == Err(error.value) && State() == old(State())
    {
      if record.digest in objects {
        return if objects[record.digest] != record then Some(ObjectConflict) else None;
      }
      objects := objects[record.digest := record];
      return None;
    }

    /** Points the derived manifest to a promotion. */
    method PublishEntry(name: string, entry: Entry<Decision>) returns (error: Option<StoreError>)
      requires Promotes(entry, name)
      modifies this`manifest
      ensures error.None? ==> WriteManifest(old(State()), entry) == Ok(State())
      ensures error.Some? ==> WriteManifest(old(State()), entry) == Err(error.value) && State() == old(State())
    {
      var checkedManifest := CheckManifest(manifest);
      if checkedManifest.Err? {
        return Some(checkedManifest.error);
      }
      var refs := if manifest.Some? then manifest.value.refs else map[];
      var recovered := if manifest.Some? then manifest.value.recoveredFrom else None;
      manifest := Some(Sealed(refs[name := RefEntryOf(entry)], recovered));
      return None;
    }

    /** The locked half of a decision; `record` and `checked` were obtained before the lock was taken. */
    method CommitDecision(record: AttemptRecord, checked: Checked, now: string) returns (r: Outcome<Entry<Decision>>)
      requires checked.verdict.Promote? == checked.refName.Some?
      modifies this
      ensures CommitOutcome(old(State()), record, checked, now, State())
      ensures Append(old(State()), record, checked, now).Err? ==>
                r == Refused(Append(old(State()), record, checked, now).error) && State() == old(State())
      ensures Append(old(State()), record, checked, now).Ok? ==> State() != old(State())
      ensures r.Refused? && Append(old(State()), record, checked, now).Ok? ==>
                var appended := Append(old(State()), record, checked, now).value;
                && checked.refName.Some?
                && (|| (WriteObject(appended, record) == Err(r.error) && State() == appended)
                    || (CheckManifest(old(manifest)) == Err(r.error) && Ok(State()) == WriteObject(appended, record)))
      ensures r.Done? && checked.refName.None? ==> Ok(State()) == Append(old(State()), record, checked, now)
      ensures r.Done? && checked.refName.Some? ==> Ok(State()) == Promotion(old(State()), record, checked, now)
      ensures r.Done? ==> |State().decisions| == |old(decisions)| + 1 && State().decisions[|old(decisions)|] == r.value
      ensures Append(old(State()), record, checked, now).Ok? ==>
                && |decisions| == |old(decisions)| + 1 && decisions[..|old(decisions)|] == old(decisions)
                && SaysWhatWasAsked(decisions[|old(decisions)|].record.body, old(decisions), record, checked, now)
      ensures deaths == old(deaths) + One(r.Crashed?) && faults == old(faults)
    {
      // The authoritative ledger first ...
      var appended := AppendDecision(record, checked, now);
      if appended.Err? {
        return Refused(appended.error);
      }
      var entry := appended.value;
      var crashed := CrashPoint();
      if crashed {
        return Crashed;
      }
      if checked.refName.Some? {
        // ... then the object ...
        var conflict := KeepObject(record);
        if conflict.Some? {
          return Refused(conflict.value);
        }
        crashed := CrashPoint();
        if crashed {
          return Crashed;
        }
        // ... and the derived manifest last.
        var invalid := PublishEntry(checked.refName.value, entry);
        if invalid.Some? {
          return Refused(invalid.value);
        }
        crashed := CrashPoint();
        if crashed {
          return Crashed;
        }
      }
      return Done(entry);
    }

    /** One decision: load and check the attempt without the lock, then commit under it. */
    method Decide(request: Request, now: string) returns (r: Outcome<Entry<Decision>>)
      modifies this
      ensures CheckDecision(old(State()), request).Err? ==>
                r == Refused(CheckDecision(old(State()), request).error) && State() == old(State())
      ensures CheckDecision(old(State()), request).Ok? ==>
                var (record, c) := CheckDecision(old(State()), request).value;
                && c.verdict.Promote? == c.refName.Some?
                && CommitOutcome(old(State()), record, c, now, State())
                && (Append(old(State()), record, c, now).Err? ==>
                      r == Refused(Append(old(State()), record, c, now).error) && State() == old(State()))
                && (Append(old(State()), record, c, now).Ok? ==> State() != old(State()))
                && (r.Done? ==> Ok(State()) == if c.refName.Some? then Promotion(old(State()), record, c, now)
                                               else Append(old(State()), record, c, now))
      ensures decisions == old(decisions) ||
              (&& |decisions| == |old(decisions)| + 1 && decisions[..|old(decisions)|] == old(decisions)
               && var d := decisions[|old(decisions)|].record.body;
                  && SafeComponent(request.attemptId).Ok? && SafeComponent(request.attemptId).value in old(attempts)
                  && IsAbout(d, old(attempts)[SafeComponent(request.attemptId).value], now)
                  && AsRequested(d.actor, d.verdict, d.reason, d.refName, request)
                  && NamesPredecessor(d, old(decisions)))
      ensures deaths == old(deaths) + One(r.Crashed?) && faults == old(faults)
    {
      var loaded := LoadRecord(request.attemptId, true);
      if loaded.Err? {
        return Refused(loaded.error);
      }
      var checked := CheckRequest(loaded.value, request);
      if checked.Err? {
        return Refused(checked.error);
      }
      CheckedVerdict(loaded.value, request);
      CheckRequestMeaning(loaded.value, request);
      r := CommitDecision(loaded.value, checked.value, now);
    }

    /** The part of a rebuild that concerns one decision. */
    method RebuildDecision(i: nat) returns (r: Result<Option<RefEntry>, StoreError>)
      requires i < |decisions|
      modifies this`objects
      ensures r.Ok? <==> RebuildObject(old(State()), i).Ok?
      ensures r.Ok? ==> State() == RebuildObject(old(State()), i).value
      ensures r.Err? ==> State() == old(State()) && r.error == RebuildObject(old(State()), i).error
      ensures r.Ok? ==> r.value == if IsPromotion(decisions[i]) then Some(RefEntryOf(decisions[i])) else None
    {
      if IsPromotion(decisions[i]) {
        var body := decisions[i].record.body;
        var loaded := LoadNamed(body.attemptId, true);
        if loaded.Err? {
          return Err(loaded.error);
        }
        var record := loaded.value;
        if record.digest != body.attemptDigest || record.attempt.planHash != body.planHash {
          return Err(DecisionMismatch);
        }
        var conflict := KeepObject(record);
        if conflict.Some? {
          return Err(conflict.value);
        }
        return Ok(Some(RefEntry(
          Pin(Target(record.attempt.attemptId, record.digest, record.attempt.planHash, decisions[i].hash),
              body.predecessor),
          record.digest, body.timestamp)));
      }
      return Ok(None);
    }

    /** Recovery: replay the ledger into objects and a fresh manifest. */
    method RebuildRefs() returns (r: Outcome<Manifest>)
      modifies this
      ensures r.Done? ==> Ok(State()) == Rebuild(old(State())) && State().manifest == Some(r.value)
      ensures RebuildOutcome(old(State()), State())
      ensures r.Refused? ==> Rebuild(old(State())).Err?
      ensures r.Refused? ==>
                || (!Verified(old(decisions)) && State() == old(State()) && r.error == InvalidLedger)
                || exists n: nat :: RebuildStopsAt(old(State()), n, State(), r.error)
      ensures deaths == old(deaths) + One(r.Crashed?) && faults == old(faults)
    {
      var read := ReadDecisions(decisions);
      if read.Err? {
        return Refused(read.error);
      }
      ghost var start := State();
      var refs: Refs := map[];
      for i := 0 to |decisions|
        invariant decisions == start.decisions
        invariant Ok(State()) == RebuildObjects(start, i)
        invariant refs == Fold(decisions[..i])
        invariant deaths == old(deaths) && faults == old(faults)
      {
        assert decisions[..i + 1] == decisions[..i] + [decisions[i]];
        FoldAppend(decisions[..i], decisions[i]);
        var kept := RebuildDecision(i);
        if kept.Err? {
          RebuildFailsEarly(start, i + 1, |decisions|);
          assert RebuildStopsAt(start, i, State(), kept.error);
          return Refused(kept.error);
        }
        if kept.value.Some? {
          refs := refs[decisions[i].record.body.refName.value := kept.value.value];
        }
        assert Ok(State()) == RebuildObjects(start, i + 1);
        var crashed := CrashPoint();
        if crashed {
          return Crashed;
        }
      }
      assert decisions[..|decisions|] == decisions;
      var rebuilt := Sealed(refs, Some(TailHash(decisions)));
      manifest := Some(rebuilt);
      var crashed := CrashPoint();
      if crashed {
        return Crashed;
      }
      return Done(rebuilt);
    }
  }

  lemma {:induction false} RebuildFailsEarly(f: Files, i: nat, n: nat)
    requires i <= n <= |f.decisions| && RebuildObjects(f, i).Err?
    ensures RebuildObjects(f, n).Err?
    decreases n
  {
    if i < n {
      RebuildFailsEarly(f, i, n - 1);
    }
  }
}
