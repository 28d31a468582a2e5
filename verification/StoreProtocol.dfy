/**
 The store as several processes use it: attempts begin, run and finish, deciders load a record before
 they take the lock, every write under the lock is its own step, and any process can crash between
 two writes.  The invariant of this module holds in every state of every run.
 */
module StoreProtocol {
  import opened Wrappers
  import opened HashChain
  import opened Types
  import opened AttemptRecords
  import opened DecisionLedger
  import opened StoreOperations

  /** A decider between its unlocked load and the lock. */
  datatype Pending = Pending(record: AttemptRecord, checked: Checked)

  /** What the holder of the store lock has done so far. */
  datatype Critical =
    | Free
    | Appended(record: AttemptRecord, entry: Entry<Decision>)
    | ObjectKept(record: AttemptRecord, entry: Entry<Decision>)
    | Rebuilding(next: nat)

  datatype System = System(files: Files, deciders: map<nat, Pending>, critical: Critical)

  datatype Step =
    | WritePlanStep(plan: CompiledPlan)
    | BeginStep(plan: CompiledPlan, attemptId: string, now: string)
    | RunStep(attemptId: string, file: RunFile, content: FileContent)
    | FinishStep(started: AttemptRecord, summary: Option<Summary>, error: Option<string>, now: string)
    | LoadStep(pid: nat, request: Request)
    | AppendStep(pid: nat, now: string)
    | KeepObjectStep
    | PublishStep
    | StartRebuildStep
    | RebuildObjectStep
    | RebuildPublishStep
    | CrashHolderStep
    | CrashDeciderStep(pid: nat)

  ghost predicate Initial(s: System) {
    s == System(EMPTY_STORE, map[], Free)
  }

  ghost predicate Next(s: System, t: System, step: Step) {
    var f := s.files;
    match step
    case WritePlanStep(plan) =>
      && s.critical.Free? && CheckPlan(plan).Ok?
      && (CheckPlan(plan).value.planHash in f.plans ==>
            f.plans[CheckPlan(plan).value.planHash] == CheckPlan(plan).value)
      && t == s.(files := WritePlan(f, CheckPlan(plan).value))
    case BeginStep(plan, attemptId, now) =>
      && s.critical.Free? && CheckPlan(plan).Ok? && SafeComponent(attemptId).Ok?
      && CheckBegin(f, SafeComponent(attemptId).value, CheckPlan(plan).value).Ok?
      && var id, doc := SafeComponent(attemptId).value, CheckPlan(plan).value;
         t == s.(files := WriteAttempt(WritePlan(f, doc), WithDigest(RunningAttempt(id, doc, now))))
    case RunStep(attemptId, file, content) =>
      t == s.(files := f.(runs := f.runs[attemptId := RunOf(f, attemptId)[file := content]]))
    case FinishStep(started, summary, error, now) =>
      && WellDigested(started)
      && Ok(t.files) == Finish(f, started, summary, error, now)
      && t == s.(files := t.files)
    case LoadStep(pid, request) =>
      && SafeComponent(request.attemptId).Ok?
      && var loaded := Load(f, SafeComponent(request.attemptId).value, true);
         && loaded.Ok? && CheckRequest(loaded.value, request).Ok?
         && t == s.(deciders := s.deciders[pid := Pending(loaded.value, CheckRequest(loaded.value, request).value)])
    case AppendStep(pid, now) =>
      && s.critical.Free? && pid in s.deciders
      && var p := s.deciders[pid];
         var appended := Append(f, p.record, p.checked, now);
         if appended.Err? then t == s.(deciders := s.deciders - {pid})
         else t == System(appended.value, s.deciders - {pid},
                          if p.checked.refName.None? then Free
                          else Appended(p.record, appended.value.decisions[|f.decisions|]))
    case KeepObjectStep =>
      && s.critical.Appended?
      && var kept := WriteObject(f, s.critical.record);
         if kept.Err? then t == s.(critical := Free)
         else t == s.(files := kept.value, critical := ObjectKept(s.critical.record, s.critical.entry))
    case PublishStep =>
      && s.critical.ObjectKept? && IsPromotion(s.critical.entry)
      && var published := WriteManifest(f, s.critical.entry);
         t == s.(files := if published.Ok? then published.value else f, critical := Free)
    case StartRebuildStep =>
      && s.critical.Free?
      && t == if Verified(f.decisions) then s.(critical := Rebuilding(0)) else s
    case RebuildObjectStep =>
      && s.critical.Rebuilding? && s.critical.next < |f.decisions|
      && var kept := RebuildObject(f, s.critical.next);
         if kept.Err? then t == s.(critical := Free)
         else t == s.(files := kept.value, critical := Rebuilding(s.critical.next + 1))
    case RebuildPublishStep =>
      && s.critical.Rebuilding? && s.critical.next == |f.decisions|
      && t == s.(files := f.(manifest := Some(RebuiltManifest(f.decisions))), critical := Free)
    case CrashHolderStep =>
      t == s.(critical := Free)
    case CrashDeciderStep(pid) =>
      t == s.(deciders := s.deciders - {pid})
  }

  ghost predicate Takes(states: seq<System>, steps: seq<Step>, i: nat)
    requires |states| == |steps| + 1 && i < |steps|
  {
    Next(states[i], states[i + 1], steps[i])
  }

  ghost predicate IsPath(states: seq<System>, steps: seq<Step>) {
    && |states| == |steps| + 1
    && forall i {:trigger Takes(states, steps, i)} :: 0 <= i < |steps| ==> Takes(states, steps, i)
  }

  ghost predicate IsRun(states: seq<System>, steps: seq<Step>) {
    IsPath(states, steps) && Initial(states[0])
  }

  ghost predicate Reachable(s: System) {
    exists states, steps :: IsRun(states, steps) && states[|states| - 1] == s
  }

  // ---------- what each step writes ----------

  lemma BeginWrites(s: System, t: System, step: Step)
    requires Next(s, t, step) && (step.WritePlanStep? || step.BeginStep?)
    ensures t == s.(files := s.files.(plans := t.files.plans, attempts := t.files.attempts))
    ensures step.WritePlanStep? ==> t.files.attempts == s.files.attempts
  {
  }

  lemma FinishWrites(s: System, t: System, step: Step)
    requires Next(s, t, step) && step.FinishStep?
    ensures t == s.(files := s.files.(attempts := t.files.attempts))
  {
  }

  lemma AppendWrites(s: System, t: System, step: Step)
    requires Next(s, t, step) && step.AppendStep?
    ensures t.files == s.files.(decisions := t.files.decisions) && s.files.decisions <= t.files.decisions
  {
  }

  lemma LockedWrites(s: System, t: System, step: Step)
    requires Next(s, t, step) && (step.KeepObjectStep? || step.PublishStep?)
    ensures t.files == s.files.(objects := t.files.objects, manifest := t.files.manifest)
  {
  }

  lemma RebuildWrites(s: System, t: System, step: Step)
    requires Next(s, t, step) && (step.StartRebuildStep? || step.RebuildObjectStep? || step.RebuildPublishStep?)
    ensures t.files == s.files.(objects := t.files.objects, manifest := t.files.manifest)
    ensures !step.RebuildPublishStep? ==> t.files.manifest == s.files.manifest
  {
  }

  /** Each part of the store is written by few kinds of steps. */
  lemma StepWrites(s: System, t: System, step: Step)
    requires Next(s, t, step)
    ensures !step.BeginStep? && !step.FinishStep? ==> t.files.attempts == s.files.attempts
    ensures !step.RunStep? ==> t.files.runs == s.files.runs
    ensures s.files.decisions <= t.files.decisions
    ensures !step.AppendStep? ==> t.files.decisions == s.files.decisions
    ensures !step.PublishStep? && !step.RebuildPublishStep? && !step.KeepObjectStep? ==>
              t.files.manifest == s.files.manifest
  {
    match step
    case WritePlanStep(_) => BeginWrites(s, t, step);
    case BeginStep(_, _, _) => BeginWrites(s, t, step);
    case RunStep(_, _, _) =>
    case FinishStep(_, _, _, _) => FinishWrites(s, t, step);
    case LoadStep(_, _) =>
    case AppendStep(_, _) => AppendWrites(s, t, step);
    case KeepObjectStep => LockedWrites(s, t, step);
    case PublishStep => LockedWrites(s, t, step);
    case StartRebuildStep => RebuildWrites(s, t, step);
    case RebuildObjectStep => RebuildWrites(s, t, step);
    case RebuildPublishStep => RebuildWrites(s, t, step);
    case CrashHolderStep =>
    case CrashDeciderStep(_) =>
  }

  // ---------- the invariant ----------

  function RefsOf(f: Files): Refs {
    if f.manifest.Some? then f.manifest.value.refs else map[]
  }

  /** The derived manifest says what the ledger says. */
  ghost predicate Current(f: Files) {
    RefsOf(f) == Fold(f.decisions)
  }

  ghost predicate NewestPromotion(ledger: Ledger, k: nat) {
    && k < |ledger| && IsPromotion(ledger[k])
    && forall j :: k < j < |ledger| ==> !IsPromotion(ledger[j])
  }

  /** The manifest misses the newest promotion at `k`, and nothing else. */
  ghost predicate LagsAt(f: Files, k: nat) {
    NewestPromotion(f.decisions, k) && RefsOf(f) == Fold(f.decisions[..k])
  }

  ghost predicate Lagging(f: Files) {
    exists k: nat :: LagsAt(f, k)
  }

  ghost predicate PlansOk(f: Files) {
    forall h :: h in f.plans ==> f.plans[h] == PlanDocument(f.plans[h].content, h) && PlanSha(f.plans[h].content) == h
  }

  ghost predicate AttemptsOk(f: Files) {
    forall id :: id in f.attempts ==>
                   && WellDigested(f.attempts[id]) && f.attempts[id].attempt.attemptId == id
                   && PlanObjectOk(f.plans, f.attempts[id].attempt)
  }

  ghost predicate ObjectsOk(f: Files) {
    forall d :: d in f.objects ==> f.objects[d].digest == d && WellDigested(f.objects[d])
  }

  /** `r` is the retained, finished and promotable record of its attempt; nothing is said of the files of its run. */
  ghost predicate Retained(f: Files, r: AttemptRecord) {
    var id := r.attempt.attemptId;
    && id in f.attempts && f.attempts[id] == r
    && WellDigested(r) && Promotable(r)
  }

  ghost predicate Backed(f: Files, d: Decision) {
    && d.attemptId in f.attempts
    && Retained(f, f.attempts[d.attemptId])
    && f.attempts[d.attemptId].digest == d.attemptDigest
    && f.attempts[d.attemptId].attempt.planHash == d.planHash
  }

  ghost predicate PromotionsBacked(f: Files) {
    forall i {:trigger Backed(f, f.decisions[i].record.body)} ::
      0 <= i < |f.decisions| && IsPromotion(f.decisions[i]) ==> Backed(f, f.decisions[i].record.body)
  }

  ghost predicate FilesOk(f: Files) {
    && PlansOk(f) && AttemptsOk(f) && ObjectsOk(f)
    && Verified(f.decisions) && Linked(f.decisions) && PromotionsBacked(f)
    && CheckManifest(f.manifest).Ok?
  }

  ghost predicate PendingOk(f: Files, p: Pending) {
    && p.checked.verdict.Promote? == p.checked.refName.Some?
    && (p.checked.verdict.Promote? ==> Retained(f, p.record))
  }

  ghost predicate CriticalOk(f: Files, c: Critical) {
    match c
    case Free => Current(f) || Lagging(f)
    case Appended(r, e) => Unpublished(f, r, e)
    case ObjectKept(r, e) => Unpublished(f, r, e)
    case Rebuilding(next) => next <= |f.decisions| && (Current(f) || Lagging(f))
  }

  /** The holder of the lock has appended `e` and the manifest is as it was before. */
  ghost predicate Unpublished(f: Files, r: AttemptRecord, e: Entry<Decision>) {
    && |f.decisions| > 0 && f.decisions[|f.decisions| - 1] == e
    && IsPromotion(e) && WellDigested(r)
    && RefsOf(f) == Fold(f.decisions[..|f.decisions| - 1])
  }

  ghost predicate Inv(s: System) {
    && FilesOk(s.files)
    && CriticalOk(s.files, s.critical)
    && forall pid :: pid in s.deciders ==> PendingOk(s.files, s.deciders[pid])
  }

  // ---------- what steps leave alone ----------

  /** Finished attempts do not change. */
  ghost predicate KeepsFinished(f: Files, g: Files) {
    forall id :: id in f.attempts && !f.attempts[id].attempt.status.Running? ==>
                   id in g.attempts && g.attempts[id] == f.attempts[id]
  }

  lemma RetainedStays(f: Files, g: Files, r: AttemptRecord)
    requires KeepsFinished(f, g) && Retained(f, r)
    ensures Retained(g, r)
  {
  }

  lemma BackedStays(f: Files, g: Files, d: Decision)
    requires KeepsFinished(f, g) && Backed(f, d)
    ensures Backed(g, d)
  {
    RetainedStays(f, g, f.attempts[d.attemptId]);
  }

  lemma PromotionsStay(f: Files, g: Files)
    requires KeepsFinished(f, g) && PromotionsBacked(f) && g.decisions == f.decisions
    ensures PromotionsBacked(g)
  {
    forall i | 0 <= i < |g.decisions| && IsPromotion(g.decisions[i]) ensures Backed(g, g.decisions[i].record.body) {
      assert Backed(f, f.decisions[i].record.body);
      BackedStays(f, g, g.decisions[i].record.body);
    }
  }

  lemma PendingsStay(s: System, g: Files)
    requires KeepsFinished(s.files, g)
    requires forall pid :: pid in s.deciders ==> PendingOk(s.files, s.deciders[pid])
    ensures forall pid :: pid in s.deciders ==> PendingOk(g, s.deciders[pid])
  {
    forall pid | pid in s.deciders ensures PendingOk(g, s.deciders[pid]) {
      if s.deciders[pid].checked.verdict.Promote? {
        RetainedStays(s.files, g, s.deciders[pid].record);
      }
    }
  }

  /** Steps that change neither ledger nor manifest keep everything said about them. */
  lemma SideStep(s: System, g: Files)
    requires Inv(s) && KeepsFinished(s.files, g)
    requires g.decisions == s.files.decisions && g.manifest == s.files.manifest
    requires PlansOk(g) && AttemptsOk(g) && ObjectsOk(g)
    ensures Inv(s.(files := g))
  {
    PromotionsStay(s.files, g);
    PendingsStay(s, g);
    if Lagging(s.files) {
      var k: nat :| LagsAt(s.files, k);
      assert LagsAt(g, k);
    }
  }

  lemma WritePlanKeeps(s: System, doc: PlanDocument)
    requires Inv(s) && PlanSha(doc.content) == doc.planHash
    requires doc.planHash in s.files.plans ==> s.files.plans[doc.planHash] == doc
    ensures Inv(s.(files := WritePlan(s.files, doc)))
  {
    var g := WritePlan(s.files, doc);
    forall id | id in s.files.attempts ensures PlanObjectOk(g.plans, s.files.attempts[id].attempt) {
      assert PlanObjectOk(s.files.plans, s.files.attempts[id].attempt);
    }
    SideStep(s, g);
  }

  lemma WriteKeepsOthers(f: Files, r: AttemptRecord)
    requires AttemptsOk(f) && WellDigested(r) && PlanObjectOk(f.plans, r.attempt)
    requires r.attempt.attemptId in f.attempts ==> f.attempts[r.attempt.attemptId].attempt.status.Running?
    ensures AttemptsOk(WriteAttempt(f, r)) && KeepsFinished(f, WriteAttempt(f, r))
  {
  }

  /** A record may be written for a new attempt or over a running one. */
  lemma AttemptWritten(s: System, r: AttemptRecord)
    requires Inv(s) && WellDigested(r) && PlanObjectOk(s.files.plans, r.attempt)
    requires r.attempt.attemptId in s.files.attempts ==> s.files.attempts[r.attempt.attemptId].attempt.status.Running?
    ensures Inv(s.(files := WriteAttempt(s.files, r)))
  {
    WriteKeepsOthers(s.files, r);
    SideStep(s, WriteAttempt(s.files, r));
  }

  lemma BeginPreserves(s: System, t: System, step: Step)
    requires Inv(s) && (step.BeginStep? || step.WritePlanStep?) && Next(s, t, step)
    ensures Inv(t)
  {
    var doc := CheckPlan(step.plan).value;
    WritePlanKeeps(s, doc);
    if step.BeginStep? {
      var id := SafeComponent(step.attemptId).value;
      AttemptWritten(s.(files := WritePlan(s.files, doc)), WithDigest(RunningAttempt(id, doc, step.now)));
    }
  }

  lemma FinishPreserves(s: System, t: System, step: Step)
    requires Inv(s) && step.FinishStep? && Next(s, t, step)
    ensures Inv(t)
  {
    var started := step.started;
    var id := started.attempt.attemptId;
    assert s.files.attempts[id] == started;
    AttemptWritten(s, t.files.attempts[id]);
    assert t.files == WriteAttempt(s.files, t.files.attempts[id]);
  }

  lemma RunPreserves(s: System, t: System, step: Step)
    requires Inv(s) && step.RunStep? && Next(s, t, step)
    ensures Inv(t) && KeepsFinished(s.files, t.files)
  {
    SideStep(s, t.files);
  }

  /** What loads and may be promoted is a retained record. */
  lemma LoadedIsRetained(f: Files, id: string)
    requires Load(f, id, true).Ok? && Promotable(Load(f, id, true).value)
    ensures Retained(f, Load(f, id, true).value)
  {
  }

  lemma CheckedAllowsPromotion(r: AttemptRecord, q: Request)
    requires CheckRequest(r, q).Ok? && CheckRequest(r, q).value.verdict.Promote?
    ensures Promotable(r)
  {
  }

  lemma LoadPreserves(s: System, t: System, step: Step)
    requires Inv(s) && step.LoadStep? && Next(s, t, step)
    ensures Inv(t)
  {
    var id := SafeComponent(step.request.attemptId).value;
    var loaded := Load(s.files, id, true).value;
    CheckedVerdict(loaded, step.request);
    var p := Pending(loaded, CheckRequest(loaded, step.request).value);
    if p.checked.verdict.Promote? {
      CheckedAllowsPromotion(loaded, step.request);
      LoadedIsRetained(s.files, id);
    }
    PendingAdded(s, step.pid, p);
  }

  lemma PendingAdded(s: System, pid: nat, p: Pending)
    requires Inv(s) && PendingOk(s.files, p)
    ensures Inv(s.(deciders := s.deciders[pid := p]))
  {
  }

  // ---------- the locked steps ----------

  /** A well-digested record never conflicts with an object kept under its digest. */
  lemma NoObjectConflict(f: Files, r: AttemptRecord)
    requires ObjectsOk(f) && WellDigested(r)
    ensures WriteObject(f, r).Ok?
    ensures ObjectsOk(WriteObject(f, r).value) && r.digest in WriteObject(f, r).value.objects
  {
    if r.digest in f.objects {
      assert f.objects[r.digest].attempt == r.attempt;
    }
  }

  lemma LinkedAppend(ledger: Ledger, e: Entry<Decision>)
    requires Linked(ledger)
    requires e.record.body.verdict.Promote? == e.record.body.refName.Some?
    requires e.record.body.predecessor ==
             if e.record.body.refName.Some? then LatestTarget(ledger, e.record.body.refName.value) else None
    ensures Linked(ledger + [e])
  {
    var longer := ledger + [e];
    forall i | 0 <= i < |longer| ensures LinkedAt(longer, i) {
      if i < |ledger| {
        assert LinkedAt(ledger, i);
        assert longer[..i] == ledger[..i];
      } else {
        assert longer[..i] == ledger;
      }
    }
  }

  /** Two pin maps agree only if the folds behind them do. */
  lemma PinsDetermineFold(a: Refs, ledger: Ledger, k: nat)
    requires k <= |ledger| && a == Fold(ledger[..k])
    requires Pins(a) == Pins(Fold(ledger))
    requires Verified(ledger)
    ensures forall i :: k <= i < |ledger| ==> !IsPromotion(ledger[i])
  {
    if i :| k <= i < |ledger| && IsPromotion(ledger[i]) {
      var name := ledger[i].record.body.refName.value;
      var j := LastFrom(ledger, name, i);
      LastPromotionIsFolded(ledger, name, j);
      assert name in Pins(Fold(ledger)) && name in Pins(a);
      var l := FoldedIsLastPromotion(ledger[..k], name);
      LastPromotionIsFolded(ledger[..k], name, l);
      assert Pins(a)[name].target.decisionHash == ledger[l].hash;
      assert Pins(Fold(ledger))[name].target.decisionHash == ledger[j].hash;
      HashesAreDistinct(ledger, l, j);
      assert false;
    }
  }

  lemma {:induction false} LastFrom(ledger: Ledger, name: string, i: nat) returns (j: nat)
    requires i < |ledger| && Promotes(ledger[i], name)
    ensures i <= j && LastPromotionAt(ledger, name, |ledger|, j)
    decreases |ledger| - i
  {
    if l :| i < l < |ledger| && Promotes(ledger[l], name) {
      j := LastFrom(ledger, name, l);
    } else {
      j := i;
    }
  }

  lemma {:induction false} FoldIgnoresRejections(ledger: Ledger, k: nat)
    requires k <= |ledger|
    requires forall i :: k <= i < |ledger| ==> !IsPromotion(ledger[i])
    ensures Fold(ledger) == Fold(ledger[..k])
  {
    if k < |ledger| {
      var front := ledger[..|ledger| - 1];
      FoldIgnoresRejections(front, k);
      assert front[..k] == ledger[..k];
    } else {
      assert ledger[..k] == ledger;
    }
  }

  /** The consistency check tells the two cases of the invariant apart. */
  lemma ConsistentIffCurrent(f: Files)
    requires FilesOk(f) && (Current(f) || Lagging(f))
    ensures CheckConsistent(f.decisions, f.manifest).Ok? <==> Current(f)
    ensures Lagging(f) ==> !Current(f)
  {
    if Lagging(f) {
      var k: nat :| LagsAt(f, k);
      if Pins(RefsOf(f)) == Pins(Fold(f.decisions)) {
        PinsDetermineFold(RefsOf(f), f.decisions, k);
        assert false;
      }
    }
  }

  lemma AppendKeepsFilesOk(f: Files, r: AttemptRecord, c: Checked, now: string)
    requires FilesOk(f) && PendingOk(f, Pending(r, c)) && Append(f, r, c, now).Ok?
    ensures var g := Append(f, r, c, now).value;
            && FilesOk(g) && KeepsFinished(f, g) && g == f.(decisions := g.decisions)
            && g.decisions == f.decisions + [NextEntry(f.decisions, NewDecision(f.decisions, r, c, now))]
  {
    var d := NewDecision(f.decisions, r, c, now);
    var e := NextEntry(f.decisions, d);
    AppendVerifies(f.decisions, d);
    LinkedAppend(f.decisions, e);
    PromotionsExtend(f, f.(decisions := f.decisions + [e]), e);
  }

  lemma PromotionsExtend(f: Files, g: Files, e: Entry<Decision>)
    requires PromotionsBacked(f) && g == f.(decisions := f.decisions + [e])
    requires IsPromotion(e) ==> Backed(f, e.record.body)
    ensures PromotionsBacked(g)
  {
    forall i | 0 <= i < |g.decisions| && IsPromotion(g.decisions[i]) ensures Backed(g, g.decisions[i].record.body) {
      BackedStays(f, g, g.decisions[i].record.body);
    }
  }

  lemma AppendPreserves(s: System, t: System, step: Step)
    requires Inv(s) && step.AppendStep? && Next(s, t, step)
    ensures Inv(t)
  {
    var f, p := s.files, s.deciders[step.pid];
    var appended := Append(f, p.record, p.checked, step.now);
    if appended.Ok? {
      AppendKeepsFilesOk(f, p.record, p.checked, step.now);
      PendingsStay(s, appended.value);
      AppendedState(f, p.record, p.checked, step.now);
    }
  }

  /** After the append a promotion is unpublished; a rejection leaves the manifest as good as it was. */
  lemma AppendedState(f: Files, r: AttemptRecord, c: Checked, now: string)
    requires FilesOk(f) && PendingOk(f, Pending(r, c)) && (Current(f) || Lagging(f))
    requires Append(f, r, c, now).Ok?
    ensures var g := Append(f, r, c, now).value;
            && (c.refName.Some? ==> Unpublished(g, r, g.decisions[|f.decisions|]))
            && (c.refName.None? ==> Current(g) || Lagging(g))
  {
    if c.refName.Some? {
      ConsistentIffCurrent(f);
      var g := Append(f, r, c, now).value;
      assert g.decisions[..|f.decisions|] == f.decisions;
    } else {
      RejectionChangesNothing(f, NextEntry(f.decisions, NewDecision(f.decisions, r, c, now)));
    }
  }

  lemma RejectionChangesNothing(f: Files, e: Entry<Decision>)
    requires !IsPromotion(e) && (Current(f) || Lagging(f))
    ensures var g := f.(decisions := f.decisions + [e]); Current(g) || Lagging(g)
  {
    var g := f.(decisions := f.decisions + [e]);
    FoldAppend(f.decisions, e);
    if Lagging(f) {
      var k: nat :| LagsAt(f, k);
      assert g.decisions[..k] == f.decisions[..k];
      assert LagsAt(g, k);
    }
  }

  lemma KeepObjectPreserves(s: System, t: System, step: Step)
    requires Inv(s) && step.KeepObjectStep? && Next(s, t, step)
    ensures Inv(t) && t.critical.ObjectKept?
  {
    var f, g := s.files, t.files;
    NoObjectConflict(f, s.critical.record);
    LedgerUntouched(f, g);
    PendingsStay(s, g);
  }

  lemma LedgerUntouched(f: Files, g: Files)
    requires FilesOk(f) && ObjectsOk(g) && g == f.(objects := g.objects)
    ensures FilesOk(g) && KeepsFinished(f, g)
  {
    PromotionsStay(f, g);
  }

  /** A crash after the append leaves exactly the newest promotion out of the manifest. */
  lemma UnpublishedLags(f: Files, r: AttemptRecord, e: Entry<Decision>)
    requires Unpublished(f, r, e)
    ensures Lagging(f)
  {
    assert LagsAt(f, |f.decisions| - 1);
  }

  lemma ManifestReplaced(f: Files, any: Option<Manifest>)
    requires FilesOk(f) && CheckManifest(any).Ok?
    ensures FilesOk(f.(manifest := any)) && KeepsFinished(f, f.(manifest := any))
  {
    PromotionsStay(f, f.(manifest := any));
  }

  lemma PublishPreserves(s: System, t: System, step: Step)
    requires Inv(s) && step.PublishStep? && Next(s, t, step)
    ensures Inv(t) && Current(t.files)
  {
    var f, g, e := s.files, t.files, s.critical.entry;
    var front := f.decisions[..|f.decisions| - 1];
    assert f.decisions == front + [e];
    FoldAppend(front, e);
    ManifestReplaced(f, g.manifest);
    PendingsStay(s, g);
  }

  /** The run files of the attempt still are what its record says. */
  ghost predicate EvidenceHolds(f: Files, id: string) {
    id in f.attempts && RunEvidenceOk(RunOf(f, id), f.attempts[id].attempt)
  }

  lemma PromotedLoads(f: Files, i: nat)
    requires FilesOk(f) && i < |f.decisions| && IsPromotion(f.decisions[i])
    ensures var id := f.decisions[i].record.body.attemptId;
            && id in f.attempts && Load(f, id, true).Ok? == EvidenceHolds(f, id)
            && (Load(f, id, true).Ok? ==> Load(f, id, true).value == f.attempts[id])
  {
    assert Backed(f, f.decisions[i].record.body);
  }

  /** Replaying a recorded promotion fails only if the run files of its attempt are no longer those recorded. */
  lemma RebuildObjectIff(f: Files, i: nat)
    requires FilesOk(f) && i < |f.decisions|
    ensures RebuildObject(f, i).Ok? <==>
            IsPromotion(f.decisions[i]) ==> EvidenceHolds(f, f.decisions[i].record.body.attemptId)
    ensures RebuildObject(f, i).Ok? ==>
              var g := RebuildObject(f, i).value;
              && FilesOk(g) && g == f.(objects := g.objects) && KeepsFinished(f, g)
              && (IsPromotion(f.decisions[i]) ==> f.decisions[i].record.body.attemptDigest in g.objects)
              && f.objects.Keys <= g.objects.Keys
  {
    if IsPromotion(f.decisions[i]) {
      var d := f.decisions[i].record.body;
      PromotedLoads(f, i);
      assert Backed(f, d);
      NoObjectConflict(f, f.attempts[d.attemptId]);
    }
    if RebuildObject(f, i).Ok? {
      LedgerUntouched(f, RebuildObject(f, i).value);
    }
  }

  lemma RebuildPreserves(s: System, t: System, step: Step)
    requires Inv(s) && (step.RebuildObjectStep? || step.RebuildPublishStep? || step.StartRebuildStep?)
             && Next(s, t, step)
    ensures Inv(t)
    ensures step.RebuildObjectStep? ==> t.critical.Free? || t.critical.Rebuilding?
    ensures step.RebuildPublishStep? ==> Current(t.files)
  {
    var f, g := s.files, t.files;
    match step
    case RebuildObjectStep =>
      RebuildObjectIff(f, s.critical.next);
      PendingsStay(s, g);
      if Lagging(f) {
        var k: nat :| LagsAt(f, k);
        assert LagsAt(g, k);
      }
    case RebuildPublishStep =>
      PromotionsStay(f, g);
      PendingsStay(s, g);
    case StartRebuildStep =>
  }

  lemma CrashPreserves(s: System, t: System, step: Step)
    requires Inv(s) && (step.CrashHolderStep? || step.CrashDeciderStep?) && Next(s, t, step)
    ensures Inv(t)
  {
    if step.CrashHolderStep? && (s.critical.Appended? || s.critical.ObjectKept?) {
      UnpublishedLags(s.files, s.critical.record, s.critical.entry);
    }
  }

  lemma NextPreserves(s: System, t: System, step: Step)
    requires Inv(s) && Next(s, t, step)
    ensures Inv(t)
  {
    match step
    case WritePlanStep(_) => BeginPreserves(s, t, step);
    case BeginStep(_, _, _) => BeginPreserves(s, t, step);
    case RunStep(_, _, _) => RunPreserves(s, t, step);
    case FinishStep(_, _, _, _) => FinishPreserves(s, t, step);
    case LoadStep(_, _) => LoadPreserves(s, t, step);
    case AppendStep(_, _) => AppendPreserves(s, t, step);
    case KeepObjectStep => KeepObjectPreserves(s, t, step);
    case PublishStep => PublishPreserves(s, t, step);
    case StartRebuildStep => RebuildPreserves(s, t, step);
    case RebuildObjectStep => RebuildPreserves(s, t, step);
    case RebuildPublishStep => RebuildPreserves(s, t, step);
    case CrashHolderStep => CrashPreserves(s, t, step);
    case CrashDeciderStep(_) => CrashPreserves(s, t, step);
  }

  lemma {:induction false} RunInvariant(states: seq<System>, steps: seq<Step>, i: nat)
    requires IsRun(states, steps) && i < |states|
    ensures Inv(states[i])
  {
    if i > 0 {
      RunInvariant(states, steps, i - 1);
      assert Takes(states, steps, i - 1);
      NextPreserves(states[i - 1], states[i], steps[i - 1]);
    }
  }

  // ---------- what holds in every reachable state ----------

  lemma ReachableInvariant(s: System)
    requires Reachable(s)
    ensures Inv(s)
  {
    var states, steps :| IsRun(states, steps) && states[|states| - 1] == s;
    RunInvariant(states, steps, |states| - 1);
  }
}
