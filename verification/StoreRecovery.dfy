/** Rebuilding the derived manifest from the decision ledger, and when it succeeds. */
module StoreRecovery {
  import opened Wrappers
  import opened AttemptRecords
  import opened DecisionLedger
  import opened StoreOperations
  import opened StoreProtocol
  import opened StoreGuarantees

  /** The first `n` promotions have their record kept as an object. */
  ghost predicate ObjectsKept(f: Files, n: nat) {
    forall i :: 0 <= i < n && i < |f.decisions| && IsPromotion(f.decisions[i]) ==>
                  f.decisions[i].record.body.attemptDigest in f.objects
  }

  /** The run files of every attempt promoted among the first `n` decisions still verify. */
  ghost predicate EvidenceIntact(f: Files, n: nat) {
    forall i {:trigger EvidenceHolds(f, f.decisions[i].record.body.attemptId)} ::
      0 <= i < n && i < |f.decisions| && IsPromotion(f.decisions[i]) ==>
        EvidenceHolds(f, f.decisions[i].record.body.attemptId)
  }

  lemma IntactStep(f: Files, n: nat)
    requires 0 < n <= |f.decisions|
    ensures EvidenceIntact(f, n) <==>
            && EvidenceIntact(f, n - 1)
            && (IsPromotion(f.decisions[n - 1]) ==> EvidenceHolds(f, f.decisions[n - 1].record.body.attemptId))
  {
    if EvidenceIntact(f, n) && IsPromotion(f.decisions[n - 1]) {
      assert EvidenceHolds(f, f.decisions[n - 1].record.body.attemptId);
    }
  }

  lemma RebuildOneMore(f: Files, n: nat)
    requires FilesOk(f) && 0 < n <= |f.decisions| && ObjectsKept(f, n - 1)
    ensures RebuildObject(f, n - 1).Ok? <==>
            IsPromotion(f.decisions[n - 1]) ==> EvidenceHolds(f, f.decisions[n - 1].record.body.attemptId)
    ensures RebuildObject(f, n - 1).Ok? ==>
              var g := RebuildObject(f, n - 1).value; FilesOk(g) && ObjectsKept(g, n) && g == f.(objects := g.objects)
  {
    RebuildObjectIff(f, n - 1);
  }

  /** Replaying the first `n` decisions succeeds exactly if the evidence of their promotions is intact. */
  lemma {:induction false} RebuildObjectsIff(f: Files, n: nat)
    requires FilesOk(f) && n <= |f.decisions|
    ensures RebuildObjects(f, n).Ok? <==> EvidenceIntact(f, n)
    ensures RebuildObjects(f, n).Ok? ==>
              FilesOk(RebuildObjects(f, n).value) && ObjectsKept(RebuildObjects(f, n).value, n)
  {
    if n > 0 {
      RebuildObjectsIff(f, n - 1);
      IntactStep(f, n);
      if RebuildObjects(f, n - 1).Ok? {
        var g := RebuildObjects(f, n - 1).value;
        RebuildOneMore(g, n);
        assert EvidenceHolds(g, f.decisions[n - 1].record.body.attemptId)
               == EvidenceHolds(f, f.decisions[n - 1].record.body.attemptId);
      }
    }
  }

  function WithManifest(r: Result<Files, StoreError>, any: Option<Manifest>): Result<Files, StoreError> {
    if r.Err? then r else Ok(r.value.(manifest := any))
  }

  lemma ObjectIgnoresManifest(f: Files, any: Option<Manifest>, i: nat)
    requires i < |f.decisions|
    ensures RebuildObject(f.(manifest := any), i) == WithManifest(RebuildObject(f, i), any)
  {
    var d := f.decisions[i].record.body;
    assert Load(f.(manifest := any), d.attemptId, true) == Load(f, d.attemptId, true);
  }

  lemma {:induction false} RebuildIgnoresManifest(f: Files, any: Option<Manifest>, n: nat)
    requires n <= |f.decisions|
    ensures RebuildObjects(f.(manifest := any), n) == WithManifest(RebuildObjects(f, n), any)
  {
    if n > 0 {
      RebuildIgnoresManifest(f, any, n - 1);
      RebuildContinues(f, n);
      RebuildContinues(f.(manifest := any), n);
      NextIgnoresManifest(RebuildObjects(f, n - 1), RebuildObjects(f, n), any, n - 1,
                          RebuildObjects(f.(manifest := any), n - 1), RebuildObjects(f.(manifest := any), n));
    }
  }

  ghost function Then(before: Result<Files, StoreError>, i: nat): Result<Files, StoreError>
    requires before.Ok? ==> i < |before.value.decisions|
  {
    if before.Err? then before else RebuildObject(before.value, i)
  }

  lemma RebuildContinues(f: Files, n: nat)
    requires 0 < n <= |f.decisions|
    ensures RebuildObjects(f, n) == Then(RebuildObjects(f, n - 1), n - 1)
  {
  }

  lemma NextIgnoresManifest(before: Result<Files, StoreError>, after: Result<Files, StoreError>, any: Option<Manifest>,
                            i: nat, before2: Result<Files, StoreError>, after2: Result<Files, StoreError>)
    requires before.Ok? ==> i < |before.value.decisions|
    requires after == Then(before, i) && before2 == WithManifest(before, any) && after2 == Then(before2, i)
    ensures after2 == WithManifest(after, any)
  {
    if before.Ok? {
      ObjectIgnoresManifest(before.value, any, i);
    }
  }

  lemma {:induction false} RebuildObjectsKeeps(f: Files, n: nat)
    requires FilesOk(f) && n <= |f.decisions|
    requires ObjectsKept(f, |f.decisions|) && RebuildObjects(f, n).Ok?
    ensures RebuildObjects(f, n) == Ok(f)
  {
    if n > 0 {
      RebuildObjectsKeeps(f, n - 1);
      RebuildObjectIff(f, n - 1);
    }
  }

  /** What a rebuild that went through has achieved. */
  ghost predicate Recovered(f: Files, g: Files) {
    && RefsOf(g) == Fold(f.decisions)
    && g == f.(manifest := g.manifest, objects := g.objects)
    && CheckConsistent(g.decisions, g.manifest).Ok?
    && Rebuild(g) == Ok(g)
    && ObjectsKept(g, |f.decisions|)
  }

  lemma RebuildIsRecovery(f: Files)
    requires FilesOk(f) && RebuildObjects(f, |f.decisions|).Ok?
    ensures Rebuild(f).Ok? && Recovered(f, Rebuild(f).value)
  {
    var n := |f.decisions|;
    RebuildObjectsIff(f, n);
    var kept := RebuildObjects(f, n).value;
    var g := Rebuild(f).value;
    RebuildObjectsIff(kept, n);
    assert EvidenceIntact(kept, n) by {
      forall i | 0 <= i < n && IsPromotion(kept.decisions[i])
        ensures EvidenceHolds(kept, kept.decisions[i].record.body.attemptId)
      {
        assert EvidenceHolds(f, f.decisions[i].record.body.attemptId);
      }
    }
    RebuildObjectsKeeps(kept, n);
    RebuildIgnoresManifest(kept, g.manifest, n);
  }

  /**
   From every reachable ledger, any manifest and whatever has been written into run directories, a rebuild
   succeeds exactly if the run files of every promoted attempt still verify.  It then yields the fold of the
   ledger, keeps an object for every promotion, repeats to the same files, and lets promotions pass again.
   */
  lemma RebuildRecoversIff(s: System, any: Option<Manifest>)
    requires Reachable(s)
    ensures var f := s.files.(manifest := any);
            && (Rebuild(f).Ok? <==> EvidenceIntact(f, |f.decisions|))
            && (Rebuild(f).Ok? ==> Recovered(f, Rebuild(f).value))
  {
    ReachableInvariant(s);
    var f, n := s.files.(manifest := any), |s.files.decisions|;
    var f0 := s.files.(manifest := None);
    ManifestReplaced(s.files, None);
    RebuildIgnoresManifest(f0, any, n);
    RebuildObjectsIff(f0, n);
    SameEvidence(f0, f, n);
    if Rebuild(f).Ok? {
      RebuildIsRecovery(f0);
    }
  }

  lemma SameEvidence(f: Files, g: Files, n: nat)
    requires g.attempts == f.attempts && g.runs == f.runs && g.decisions == f.decisions
    ensures EvidenceIntact(g, n) <==> EvidenceIntact(f, n)
  {
    forall i | 0 <= i < |f.decisions|
      ensures EvidenceHolds(g, g.decisions[i].record.body.attemptId)
              == EvidenceHolds(f, f.decisions[i].record.body.attemptId)
    {
    }
  }

  // ---------- runs in which finished directories are left alone ----------

  /** The evidence of all promotions, recorded and pending, is intact. */
  ghost predicate EvidenceInv(s: System) {
    && EvidenceIntact(s.files, |s.files.decisions|)
    && forall pid {:trigger PendingEvidence(s, pid)} :: pid in s.deciders ==> PendingEvidence(s, pid)
  }

  ghost predicate PendingEvidence(s: System, pid: nat)
    requires pid in s.deciders
  {
    s.deciders[pid].checked.verdict.Promote? ==> EvidenceHolds(s.files, s.deciders[pid].record.attempt.attemptId)
  }

  lemma EvidenceStays(s: System, t: System, step: Step, id: string)
    requires Inv(s) && Next(s, t, step) && CarefulAt(s, step) && Finished(s.files, id) && EvidenceHolds(s.files, id)
    ensures EvidenceHolds(t.files, id)
  {
    AttemptsMoveOnce(s, t, step, id);
    CarefulStepKeepsRun(s, t, step, id);
  }

  lemma PromotedIsFinished(f: Files, i: nat)
    requires FilesOk(f) && i < |f.decisions| && IsPromotion(f.decisions[i])
    ensures Finished(f, f.decisions[i].record.body.attemptId)
  {
    assert Backed(f, f.decisions[i].record.body);
  }

  /** An appended promotion is that of a pending decider. */
  lemma AppendedWasPending(s: System, t: System, step: Step)
    requires Inv(s) && Next(s, t, step) && step.AppendStep? && |t.files.decisions| > |s.files.decisions|
    ensures |t.files.decisions| == |s.files.decisions| + 1
    ensures IsPromotion(t.files.decisions[|s.files.decisions|]) ==>
              && s.deciders[step.pid].checked.verdict.Promote?
              && t.files.decisions[|s.files.decisions|].record.body.attemptId
                == s.deciders[step.pid].record.attempt.attemptId
  {
  }

  lemma LedgerEvidenceStays(s: System, t: System, step: Step)
    requires Inv(s) && EvidenceInv(s) && Next(s, t, step) && CarefulAt(s, step)
    ensures EvidenceIntact(t.files, |t.files.decisions|)
  {
    StepWrites(s, t, step);
    forall i | 0 <= i < |t.files.decisions| && IsPromotion(t.files.decisions[i])
      ensures EvidenceHolds(t.files, t.files.decisions[i].record.body.attemptId)
    {
      if i < |s.files.decisions| {
        PromotedIsFinished(s.files, i);
        assert EvidenceHolds(s.files, s.files.decisions[i].record.body.attemptId);
        EvidenceStays(s, t, step, s.files.decisions[i].record.body.attemptId);
      } else {
        AppendedWasPending(s, t, step);
        assert PendingEvidence(s, step.pid) && PendingOk(s.files, s.deciders[step.pid]);
        EvidenceStays(s, t, step, s.deciders[step.pid].record.attempt.attemptId);
      }
    }
  }

  /** A decider that is pending after a step was so before, or has just loaded a record with its evidence. */
  lemma PendingOrigin(s: System, t: System, step: Step, pid: nat)
    requires Inv(s) && Next(s, t, step) && pid in t.deciders
    ensures (pid in s.deciders && t.deciders[pid] == s.deciders[pid]) || (step.LoadStep? && step.pid == pid)
    ensures step.LoadStep? && step.pid == pid && t.deciders[pid].checked.verdict.Promote? ==> PendingEvidence(t, pid)
  {
    if step.LoadStep? && step.pid == pid {
      LoadedHasEvidence(s.files, SafeComponent(step.request.attemptId).value);
    }
  }

  lemma LoadedHasEvidence(f: Files, id: string)
    requires Load(f, id, true).Ok?
    ensures Load(f, id, true).value.attempt.attemptId == id && EvidenceHolds(f, id)
  {
  }

  lemma EvidenceInvPreserved(s: System, t: System, step: Step)
    requires Inv(s) && EvidenceInv(s) && Next(s, t, step) && CarefulAt(s, step)
    ensures EvidenceInv(t)
  {
    LedgerEvidenceStays(s, t, step);
    forall pid | pid in t.deciders ensures PendingEvidence(t, pid) {
      PendingOrigin(s, t, step, pid);
      if pid in s.deciders && t.deciders[pid] == s.deciders[pid] && t.deciders[pid].checked.verdict.Promote? {
        assert PendingEvidence(s, pid) && PendingOk(s.files, s.deciders[pid]);
        EvidenceStays(s, t, step, s.deciders[pid].record.attempt.attemptId);
      }
    }
  }

  lemma {:induction false} CarefulRunKeepsEvidence(states: seq<System>, steps: seq<Step>, j: nat)
    requires IsRun(states, steps) && Careful(states, steps) && j < |states|
    ensures EvidenceInv(states[j])
  {
    if j > 0 {
      CarefulRunKeepsEvidence(states, steps, j - 1);
      RunInvariant(states, steps, j - 1);
      assert Takes(states, steps, j - 1) && CarefulAt(states[j - 1], steps[j - 1]);
      EvidenceInvPreserved(states[j - 1], states[j], steps[j - 1]);
    }
  }

  /**
   If nobody writes into the directories of finished attempts, a rebuild recovers from every ledger and any
   manifest.
   */
  lemma RebuildRecovers(states: seq<System>, steps: seq<Step>, j: nat, any: Option<Manifest>)
    requires IsRun(states, steps) && Careful(states, steps) && j < |states|
    ensures var f := states[j].files.(manifest := any); Rebuild(f).Ok? && Recovered(f, Rebuild(f).value)
  {
    CarefulRunKeepsEvidence(states, steps, j);
    PrefixReachable(states, steps, j);
    RebuildRecoversIff(states[j], any);
    SameEvidence(states[j].files, states[j].files.(manifest := any), |states[j].files.decisions|);
  }

  lemma PrefixReachable(states: seq<System>, steps: seq<Step>, j: nat)
    requires IsRun(states, steps) && j < |states|
    ensures Reachable(states[j])
  {
    var some, few := states[..j + 1], steps[..j];
    forall i | 0 <= i < |few| ensures Takes(some, few, i) {
      assert Takes(states, steps, i);
    }
    assert IsRun(some, few) && some[|some| - 1] == states[j];
  }
}
