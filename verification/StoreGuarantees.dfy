/** What holds in every state that the store can reach, and over all of its runs. */
module StoreGuarantees {
  import opened Wrappers
  import opened HashChain
  import opened AttemptRecords
  import opened DecisionLedger
  import opened StoreOperations
  import opened StoreProtocol

  // ---------- ledger and manifest ----------

  /**
   With the lock free, the manifest says what the ledger says, or misses exactly the newest promotion;
   the check made before a promotion tells the two apart.
   */
  lemma ManifestIsCurrentOrLagsByOne(s: System)
    requires Reachable(s) && s.critical.Free?
    ensures Current(s.files) != Lagging(s.files)
    ensures CheckConsistent(s.files.decisions, s.files.manifest).Ok? <==> Current(s.files)
  {
    ReachableInvariant(s);
    ConsistentIffCurrent(s.files);
  }

  /** One promotion of `name` further, with a manifest that is current again and points to the promoted record. */
  ghost predicate Promoted(f: Files, done: Files, name: string, digest: AttemptDigest) {
    && Current(done) && |done.decisions| == |f.decisions| + 1
    && RefsOf(done).Keys == RefsOf(f).Keys + {name}
    && RefsOf(done)[name].pin.target.attemptDigest == digest
  }

  lemma EntryPublished(f: Files, g: Files, e: Entry<Decision>)
    requires Current(f) && CheckManifest(f.manifest).Ok? && IsPromotion(e)
    requires g == f.(decisions := f.decisions + [e], objects := g.objects)
    ensures WriteManifest(g, e).Ok?
    ensures Promoted(f, WriteManifest(g, e).value, e.record.body.refName.value, e.record.body.attemptDigest)
  {
    PublishedRefs(g, e);
    FoldAppend(f.decisions, e);
    RefsExtend(f, WriteManifest(g, e).value, e);
  }

  lemma PublishedRefs(g: Files, e: Entry<Decision>)
    requires CheckManifest(g.manifest).Ok? && IsPromotion(e)
    ensures WriteManifest(g, e).Ok? && WriteManifest(g, e).value.decisions == g.decisions
    ensures RefsOf(WriteManifest(g, e).value) == RefsOf(g)[e.record.body.refName.value := RefEntryOf(e)]
  {
  }

  lemma RefsExtend(f: Files, done: Files, e: Entry<Decision>)
    requires RefsOf(f) == Fold(f.decisions) && IsPromotion(e) && done.decisions == f.decisions + [e]
    requires RefsOf(done) == RefsOf(f)[e.record.body.refName.value := RefEntryOf(e)]
    requires Fold(done.decisions) == Fold(f.decisions)[e.record.body.refName.value := RefEntryOf(e)]
    ensures Promoted(f, done, e.record.body.refName.value, e.record.body.attemptDigest)
  {
  }

  lemma PromotionWrites(f: Files, r: AttemptRecord, c: Checked, now: string, g: Files, kept: Files)
    requires c.verdict.Promote? && c.refName.Some?
    requires Append(f, r, c, now) == Ok(g) && WriteObject(g, r) == Ok(kept)
    requires g.decisions != []
    ensures kept.decisions == g.decisions
    ensures IsPromotion(g.decisions[|g.decisions| - 1]) ==>
              Promotion(f, r, c, now) == WriteManifest(kept, g.decisions[|g.decisions| - 1])
  {
  }

  lemma PromotionOfCurrent(f: Files, r: AttemptRecord, c: Checked, now: string)
    requires FilesOk(f) && Current(f) && PendingOk(f, Pending(r, c)) && c.refName.Some?
    ensures var done := Promotion(f, r, c, now); done.Ok? && Promoted(f, done.value, c.refName.value, r.digest)
  {
    ConsistentIffCurrent(f);
    AppendKeepsFilesOk(f, r, c, now);
    var g := Append(f, r, c, now).value;
    NoObjectConflict(g, r);
    var kept := WriteObject(g, r).value;
    PromotionWrites(f, r, c, now, g, kept);
    EntryPublished(f, kept, g.decisions[|f.decisions|]);
  }

  /**
   With a current manifest the three writes of a promotion, of a record that its decider may have loaded
   long before, go through and leave the manifest current again.
   */
  lemma PromotionSucceedsWhenCurrent(s: System, pid: nat, now: string)
    requires Reachable(s) && s.critical.Free? && Current(s.files)
    requires pid in s.deciders && s.deciders[pid].checked.refName.Some?
    ensures s.deciders[pid].checked.verdict.Promote?
    ensures var p := s.deciders[pid];
            var done := Promotion(s.files, p.record, p.checked, now);
            done.Ok? && Promoted(s.files, done.value, p.checked.refName.value, p.record.digest)
  {
    ReachableInvariant(s);
    var p := s.deciders[pid];
    assert PendingOk(s.files, p);
    PromotionOfCurrent(s.files, p.record, p.checked, now);
  }

  /** While the manifest lags, promotions are refused and rejections still append. */
  lemma LaggingRefusesPromotions(s: System, r: AttemptRecord, c: Checked, now: string)
    requires Reachable(s) && s.critical.Free? && Lagging(s.files)
    ensures c.refName.Some? ==> Append(s.files, r, c, now).Err?
    ensures c.refName.None? ==>
              && Append(s.files, r, c, now).Ok?
              && Bodies(Append(s.files, r, c, now).value.decisions)
                 == Bodies(s.files.decisions) + [NewDecision(s.files.decisions, r, c, now)]
  {
    ManifestIsCurrentOrLagsByOne(s);
    ReachableInvariant(s);
    AppendVerifies(s.files.decisions, NewDecision(s.files.decisions, r, c, now));
  }

  ghost predicate Quiet(c: Critical) {
    c.Free? || c.Rebuilding?
  }

  /** `longer` adds nothing to `shorter` that promotes. */
  ghost predicate AddsNoPromotion(shorter: Ledger, longer: Ledger) {
    shorter <= longer && forall k :: |shorter| <= k < |longer| ==> !IsPromotion(longer[k])
  }

  lemma RejectionKeepsLagging(f: Files, e: Entry<Decision>)
    requires Lagging(f) && !IsPromotion(e)
    ensures Lagging(f.(decisions := f.decisions + [e]))
  {
    var g := f.(decisions := f.decisions + [e]);
    var k: nat :| LagsAt(f, k);
    assert g.decisions[..k] == f.decisions[..k];
    assert LagsAt(g, k);
  }

  lemma AppendWhileLagging(s: System, t: System, step: Step)
    requires Inv(s) && Next(s, t, step) && step.AppendStep? && Lagging(s.files)
    ensures Lagging(t.files) && t.critical.Free? && AddsNoPromotion(s.files.decisions, t.files.decisions)
  {
    var f, p := s.files, s.deciders[step.pid];
    ConsistentIffCurrent(f);
    if p.checked.refName.None? {
      RejectionKeepsLagging(f, NextEntry(f.decisions, NewDecision(f.decisions, p.record, p.checked, step.now)));
    }
  }

  /** No step but the last one of a rebuild ends a lag, and none of them promotes. */
  lemma LaggingPersists(s: System, t: System, step: Step)
    requires Inv(s) && Next(s, t, step) && Lagging(s.files) && Quiet(s.critical) && !step.RebuildPublishStep?
    ensures Lagging(t.files) && Quiet(t.critical) && AddsNoPromotion(s.files.decisions, t.files.decisions)
  {
    if step.AppendStep? {
      AppendWhileLagging(s, t, step);
    } else {
      OthersKeepLedgerAndManifest(s, t, step);
      var k: nat :| LagsAt(s.files, k);
      assert LagsAt(t.files, k);
    }
  }

  lemma OthersKeepLedgerAndManifest(s: System, t: System, step: Step)
    requires Inv(s) && Next(s, t, step) && Quiet(s.critical) && !step.RebuildPublishStep? && !step.AppendStep?
    ensures t.files.decisions == s.files.decisions && t.files.manifest == s.files.manifest && Quiet(t.critical)
  {
    StepWrites(s, t, step);
  }

  /** A lag ends exactly with the step in which a rebuild publishes. */
  lemma LagEndsIff(s: System, t: System, step: Step)
    requires Inv(s) && Next(s, t, step) && Lagging(s.files) && Quiet(s.critical)
    ensures Current(t.files) <==> step.RebuildPublishStep?
  {
    if step.RebuildPublishStep? {
      RebuildPreserves(s, t, step);
    } else {
      LaggingPersists(s, t, step);
      NextPreserves(s, t, step);
      ConsistentIffCurrent(t.files);
    }
  }

  /** Over any run: from a lagging state on, no promotion is appended until a rebuild has published. */
  lemma {:induction false} NoPromotionUntilRebuilt(states: seq<System>, steps: seq<Step>, i: nat, j: nat)
    requires IsRun(states, steps) && i <= j < |states|
    requires Lagging(states[i].files) && Quiet(states[i].critical)
    requires forall k :: i <= k < j ==> !steps[k].RebuildPublishStep?
    ensures Lagging(states[j].files) && Quiet(states[j].critical)
    ensures AddsNoPromotion(states[i].files.decisions, states[j].files.decisions)
    decreases j
  {
    if i < j {
      NoPromotionUntilRebuilt(states, steps, i, j - 1);
      RunInvariant(states, steps, j - 1);
      assert Takes(states, steps, j - 1);
      StepWhileLagging(states[i].files.decisions, states[j - 1], states[j], steps[j - 1]);
    }
  }

  lemma StepWhileLagging(start: Ledger, s: System, t: System, step: Step)
    requires Inv(s) && Next(s, t, step) && Lagging(s.files) && Quiet(s.critical) && !step.RebuildPublishStep?
    requires AddsNoPromotion(start, s.files.decisions)
    ensures Lagging(t.files) && Quiet(t.critical) && AddsNoPromotion(start, t.files.decisions)
  {
    LaggingPersists(s, t, step);
    NoPromotionsJoin(start, s.files.decisions, t.files.decisions);
  }

  lemma NoPromotionsJoin(a: Ledger, b: Ledger, c: Ledger)
    requires AddsNoPromotion(a, b) && AddsNoPromotion(b, c)
    ensures AddsNoPromotion(a, c)
  {
    forall k | |a| <= k < |c| ensures !IsPromotion(c[k]) {
      if k < |b| {
        assert c[k] == b[k];
      }
    }
  }

  /** A recorded predecessor is what the manifest held for that ref just before the promotion. */
  lemma PredecessorIsManifestTarget(s: System, r: AttemptRecord, c: Checked, now: string)
    requires Reachable(s) && s.critical.Free? && c.refName.Some? && Append(s.files, r, c, now).Ok?
    ensures var e := Append(s.files, r, c, now).value.decisions[|s.files.decisions|];
            var refs, name := RefsOf(s.files), c.refName.value;
            e.record.body.predecessor == if name in refs then Some(refs[name].pin.target) else None
  {
    ManifestIsCurrentOrLagsByOne(s);
  }

  /** From a ref's manifest entry the predecessors visit every promotion of the ref once, newest first. */
  lemma ManifestLeadsThroughHistory(s: System, name: string)
    requires Reachable(s) && s.critical.Free? && Current(s.files) && name in RefsOf(s.files)
    ensures Follows(s.files.decisions, Some(RefsOf(s.files)[name].pin.target),
                    PromotionsDown(s.files.decisions, name, |s.files.decisions|))
    ensures forall visits :: Follows(s.files.decisions, Some(RefsOf(s.files)[name].pin.target), visits) ==>
                               visits == PromotionsDown(s.files.decisions, name, |s.files.decisions|)
  {
    ReachableInvariant(s);
    var ledger := s.files.decisions;
    assert ledger[..|ledger|] == ledger;
    PredecessorsVisitAllPromotions(ledger, name, |ledger|);
    forall visits | Follows(ledger, Some(RefsOf(s.files)[name].pin.target), visits)
      ensures visits == PromotionsDown(ledger, name, |ledger|)
    {
      FollowsIsDeterministic(ledger, Some(RefsOf(s.files)[name].pin.target), visits,
                             PromotionsDown(ledger, name, |ledger|));
    }
  }

  // ---------- attempts move once ----------

  /** One step changes an attempt only from absent to running, or from running to finished. */
  lemma AttemptsMoveOnce(s: System, t: System, step: Step, id: string)
    requires Inv(s) && Next(s, t, step)
    ensures id in s.files.attempts ==>
              && id in t.files.attempts
              && (t.files.attempts[id] == s.files.attempts[id]
                  || (s.files.attempts[id].attempt.status.Running? && !t.files.attempts[id].attempt.status.Running?))
    ensures id !in s.files.attempts && id in t.files.attempts ==> t.files.attempts[id].attempt.status.Running?
  {
    if !step.BeginStep? && !step.FinishStep? {
      StepWrites(s, t, step);
    }
  }

  /** No decision is ever taken back or rewritten. */
  lemma {:induction false} DecisionsAreForever(states: seq<System>, steps: seq<Step>, i: nat, j: nat)
    requires IsRun(states, steps) && i <= j < |states|
    ensures states[i].files.decisions <= states[j].files.decisions
    decreases j
  {
    if i < j {
      DecisionsAreForever(states, steps, i, j - 1);
      assert Takes(states, steps, j - 1);
      StepWrites(states[j - 1], states[j], steps[j - 1]);
    }
  }

  ghost predicate Finished(f: Files, id: string) {
    id in f.attempts && !f.attempts[id].attempt.status.Running?
  }

  lemma RunStepKeepsFinished(states: seq<System>, steps: seq<Step>, j: nat, id: string)
    requires IsRun(states, steps) && j < |steps| && Finished(states[j].files, id)
    ensures Finished(states[j + 1].files, id) && states[j + 1].files.attempts[id] == states[j].files.attempts[id]
  {
    RunInvariant(states, steps, j);
    assert Takes(states, steps, j);
    AttemptsMoveOnce(states[j], states[j + 1], steps[j], id);
  }

  /** Once finished, the record of an attempt never changes again. */
  lemma {:induction false} FinishedForever(states: seq<System>, steps: seq<Step>, i: nat, j: nat, id: string)
    requires IsRun(states, steps) && i <= j < |states| && Finished(states[i].files, id)
    ensures Finished(states[j].files, id) && states[j].files.attempts[id] == states[i].files.attempts[id]
    decreases j
  {
    if i < j {
      FinishedForever(states, steps, i, j - 1, id);
      RunStepKeepsFinished(states, steps, j - 1, id);
    }
  }

  /** Files that verify against the record of an attempt are, file by file, those that were recorded. */
  lemma VerifiedFilesAreRecorded(files: RunFiles, others: RunFiles, a: Attempt)
    requires !a.status.Running? && RunEvidenceOk(files, a) && RunEvidenceOk(others, a)
    ensures forall k :: k in a.runEvidence ==> k in files && k in others && files[k] == others[k]
  {
    forall k | k in a.runEvidence ensures k in files && k in others && files[k] == others[k] {
      assert FileSha(files[k]) == a.runEvidence[k].sha == FileSha(others[k]);
    }
  }

  /** Nobody writes into the directory of a finished attempt. */
  ghost predicate Careful(states: seq<System>, steps: seq<Step>)
    requires |states| == |steps| + 1
  {
    forall k {:trigger CarefulAt(states[k], steps[k])} :: 0 <= k < |steps| ==> CarefulAt(states[k], steps[k])
  }

  ghost predicate CarefulAt(s: System, step: Step) {
    step.RunStep? ==> !Finished(s.files, step.attemptId)
  }

  lemma CarefulStepKeepsRun(s: System, t: System, step: Step, id: string)
    requires Next(s, t, step) && CarefulAt(s, step) && Finished(s.files, id)
    ensures RunOf(t.files, id) == RunOf(s.files, id)
  {
    StepWrites(s, t, step);
  }
}
