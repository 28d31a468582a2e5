/**
 The store object takes the steps of the protocol: whatever one of its operations leaves behind, after a
 refusal or a crash as well, is reached by protocol steps.  So everything proved about reachable states
 holds of the object.
 */
module StoreSimulation {
  import opened Wrappers
  import opened HashChain
  import opened AttemptRecords
  import opened StoreOperations
  import opened StoreProtocol
  import StoreGuarantees
  import AttemptStore

  // ---------- paths ----------

  /** The protocol can go from `s` to `t`. */
  ghost predicate Leads(s: System, t: System) {
    exists states, steps :: PathBetween(states, steps, s, t)
  }

  ghost predicate PathBetween(states: seq<System>, steps: seq<Step>, s: System, t: System) {
    IsPath(states, steps) && states[0] == s && states[|states| - 1] == t
  }

  lemma Stays(s: System)
    ensures Leads(s, s)
  {
    assert PathBetween([s], [], s, s);
  }

  lemma StepOn(s: System, t: System, u: System, step: Step)
    requires Leads(s, t) && Next(t, u, step)
    ensures Leads(s, u)
  {
    var states, steps :| PathBetween(states, steps, s, t);
    PathExtends(states, steps, u, step);
    assert PathBetween(states + [u], steps + [step], s, u);
  }

  lemma PathExtends(states: seq<System>, steps: seq<Step>, u: System, step: Step)
    requires IsPath(states, steps) && Next(states[|states| - 1], u, step)
    ensures IsPath(states + [u], steps + [step])
  {
    var longer, more := states + [u], steps + [step];
    forall i | 0 <= i < |more| ensures Takes(longer, more, i) {
      if i < |steps| {
        assert Takes(states, steps, i);
      }
    }
  }

  lemma ReachableStep(s: System, t: System, step: Step)
    requires Reachable(s) && Next(s, t, step)
    ensures Reachable(t)
  {
    var states, steps :| IsRun(states, steps) && states[|states| - 1] == s;
    PathExtends(states, steps, t, step);
    assert IsRun(states + [t], steps + [step]);
  }

  lemma {:induction false} PathReachable(states: seq<System>, steps: seq<Step>, k: nat)
    requires IsPath(states, steps) && Reachable(states[0]) && k < |states|
    ensures Reachable(states[k])
  {
    if k > 0 {
      PathReachable(states, steps, k - 1);
      assert Takes(states, steps, k - 1);
      ReachableStep(states[k - 1], states[k], steps[k - 1]);
    }
  }

  lemma LeadsToReachable(s: System, t: System)
    requires Reachable(s) && Leads(s, t)
    ensures Reachable(t)
  {
    var states, steps :| PathBetween(states, steps, s, t);
    PathReachable(states, steps, |states| - 1);
  }

  // ---------- one operation at a time ----------

  lemma BeginSimulated(s: System, plan: CompiledPlan, attemptId: string, now: string, g: Files)
    requires s.critical.Free? && BeginOutcome(s.files, plan, attemptId, now, g)
    ensures Leads(s, s.(files := g))
  {
    Stays(s);
    if g != s.files {
      var doc := CheckPlan(plan).value;
      if g == WritePlan(s.files, doc) {
        StepOn(s, s, s.(files := g), WritePlanStep(plan));
      } else {
        StepOn(s, s, s.(files := g), BeginStep(plan, attemptId, now));
      }
    }
  }

  lemma FinishSimulated(s: System, started: AttemptRecord, summary: Option<Summary>, error: Option<string>, now: string,
                        g: Files)
    requires WellDigested(started) && Ok(g) == Finish(s.files, started, summary, error, now)
    ensures Leads(s, s.(files := g))
  {
    Stays(s);
    StepOn(s, s, s.(files := g), FinishStep(started, summary, error, now));
  }

  lemma RunFileSimulated(s: System, id: string, file: RunFile, content: FileContent)
    ensures var runs := s.files.runs[id := RunOf(s.files, id)[file := content]];
            Leads(s, s.(files := s.files.(runs := runs)))
  {
    Stays(s);
    var runs := s.files.runs[id := RunOf(s.files, id)[file := content]];
    StepOn(s, s, s.(files := s.files.(runs := runs)), RunStep(id, file, content));
  }

  /** The system in which the decider `pid` is done and the files are `g`. */
  function After(s: System, pid: nat, g: Files): System {
    System(g, s.deciders - {pid}, Free)
  }

  lemma PublishSimulated(s: System, pid: nat, now: string, g: Files)
    requires s.critical.Free? && pid in s.deciders && s.deciders[pid].checked.verdict.Promote?
    requires s.deciders[pid].checked.refName.Some?
    requires var p := s.deciders[pid];
             && Append(s.files, p.record, p.checked, now).Ok?
             && var a := Append(s.files, p.record, p.checked, now).value;
                g == a || Ok(g) == WriteObject(a, p.record) || Ok(g) == Promotion(s.files, p.record, p.checked, now)
    ensures Leads(s, After(s, pid, g))
  {
    var p := s.deciders[pid];
    var a := Append(s.files, p.record, p.checked, now).value;
    var entry := a.decisions[|s.files.decisions|];
    var appended := System(a, s.deciders - {pid}, Appended(p.record, entry));
    Stays(s);
    StepOn(s, s, appended, AppendStep(pid, now));
    if g == a {
      StepOn(s, appended, After(s, pid, g), CrashHolderStep);
    } else {
      var o := WriteObject(a, p.record).value;
      var kept := System(o, s.deciders - {pid}, ObjectKept(p.record, entry));
      StepOn(s, appended, kept, KeepObjectStep);
      if g == o {
        StepOn(s, kept, After(s, pid, g), CrashHolderStep);
      } else {
        StepOn(s, kept, After(s, pid, g), PublishStep);
      }
    }
  }

  lemma CommitSimulated(s: System, pid: nat, now: string, g: Files)
    requires s.critical.Free? && pid in s.deciders
    requires s.deciders[pid].checked.verdict.Promote? == s.deciders[pid].checked.refName.Some?
    requires CommitOutcome(s.files, s.deciders[pid].record, s.deciders[pid].checked, now, g)
    ensures Leads(s, After(s, pid, g))
  {
    var p := s.deciders[pid];
    Stays(s);
    if g == s.files {
      StepOn(s, s, After(s, pid, g), CrashDeciderStep(pid));
    } else if p.checked.refName.None? {
      StepOn(s, s, After(s, pid, g), AppendStep(pid, now));
    } else {
      PublishSimulated(s, pid, now, g);
    }
  }

  /** A decision from its load to its last write. */
  ghost predicate DecideOutcome(f: Files, request: Request, now: string, g: Files) {
    g == f ||
    (&& CheckDecision(f, request).Ok?
     && var (record, c) := CheckDecision(f, request).value;
        c.verdict.Promote? == c.refName.Some? && CommitOutcome(f, record, c, now, g))
  }

  lemma LeadsJoin(s: System, t: System, u: System)
    requires Leads(s, t) && Leads(t, u)
    ensures Leads(s, u)
  {
    var states, steps :| PathBetween(states, steps, t, u);
    LeadsAlong(s, states, steps, |states| - 1);
  }

  lemma {:induction false} LeadsAlong(s: System, states: seq<System>, steps: seq<Step>, k: nat)
    requires IsPath(states, steps) && Leads(s, states[0]) && k < |states|
    ensures Leads(s, states[k])
  {
    if k > 0 {
      LeadsAlong(s, states, steps, k - 1);
      assert Takes(states, steps, k - 1);
      StepOn(s, states[k - 1], states[k], steps[k - 1]);
    }
  }

  lemma DecideSimulated(s: System, pid: nat, request: Request, now: string, g: Files)
    requires s.critical.Free? && pid !in s.deciders && DecideOutcome(s.files, request, now, g)
    ensures Leads(s, s.(files := g))
  {
    Stays(s);
    if g != s.files {
      var (record, c) := CheckDecision(s.files, request).value;
      var loaded := s.(deciders := s.deciders[pid := Pending(record, c)]);
      StepOn(s, s, loaded, LoadStep(pid, request));
      CommitSimulated(loaded, pid, now, g);
      assert loaded.deciders - {pid} == s.deciders;
      LeadsJoin(s, loaded, s.(files := g));
    }
  }

  lemma {:induction false} ObjectsSimulated(s: System, n: nat, g: Files)
    requires s.critical.Free? && Verified(s.files.decisions)
    requires n <= |s.files.decisions| && Ok(g) == RebuildObjects(s.files, n)
    ensures Leads(s, System(g, s.deciders, Rebuilding(n)))
    decreases n
  {
    if n == 0 {
      Stays(s);
      StepOn(s, s, s.(critical := Rebuilding(0)), StartRebuildStep);
    } else {
      var before := RebuildObjects(s.files, n - 1).value;
      ObjectsSimulated(s, n - 1, before);
      StepOn(s, System(before, s.deciders, Rebuilding(n - 1)), System(g, s.deciders, Rebuilding(n)), RebuildObjectStep);
    }
  }

  lemma RebuildSimulated(s: System, g: Files)
    requires s.critical.Free? && RebuildOutcome(s.files, g)
    ensures Leads(s, s.(files := g))
  {
    Stays(s);
    var f := s.files;
    if g != f {
      if Ok(g) == Rebuild(f) {
        var kept := RebuildObjects(f, |f.decisions|).value;
        ObjectsSimulated(s, |f.decisions|, kept);
        StepOn(s, System(kept, s.deciders, Rebuilding(|f.decisions|)), s.(files := g), RebuildPublishStep);
      } else {
        var n :| 0 <= n <= |f.decisions| && Ok(g) == RebuildObjects(f, n);
        ObjectsSimulated(s, n, g);
        StepOn(s, System(g, s.deciders, Rebuilding(n)), s.(files := g), CrashHolderStep);
      }
    }
  }

  // ---------- any use of the store ----------

  /** The files are those of a reachable state of the protocol with nobody at work. */
  ghost predicate Settled(f: Files) {
    Reachable(System(f, map[], Free))
  }

  lemma EmptyIsSettled()
    ensures Settled(EMPTY_STORE)
  {
    var s := System(EMPTY_STORE, map[], Free);
    assert IsRun([s], []);
  }

  datatype StoreRequest =
    | BeginRequest(plan: CompiledPlan, attemptId: string, now: string)
    | RunFileRequest(attemptId: string, file: RunFile, content: FileContent)
    | FinishRequest(started: AttemptRecord, summary: Option<Summary>, error: Option<string>, now: string)
    | DecideRequest(request: Request, now: string)
    | RebuildRequest

  /** A file of a run is written; nothing keeps this from happening after the attempt has finished. */
  method WriteRunFile(store: AttemptStore.AttemptStore, id: string, file: RunFile, content: FileContent)
    requires Settled(store.State())
    modifies store
    ensures Settled(store.State())
    ensures store.State()
            == old(store.State()).(runs := old(store.runs)[id := RunOf(old(store.State()), id)[file := content]])
    ensures store.deaths == old(store.deaths) && store.faults == old(store.faults)
  {
    ghost var s := System(store.State(), map[], Free);
    RunFileSimulated(s, id, file, content);
    store.runs := store.runs[id := (if id in store.runs then store.runs[id] else map[])[file := content]];
    LeadsToReachable(s, s.(files := store.State()));
  }

  method Handle(store: AttemptStore.AttemptStore, request: StoreRequest)
    requires Settled(store.State())
    modifies store
    ensures Settled(store.State())
    ensures request.BeginRequest? ==>
              BeginOutcome(old(store.State()), request.plan, request.attemptId, request.now, store.State())
    ensures request.DecideRequest? ==> DecideOutcome(old(store.State()), request.request, request.now, store.State())
    ensures request.RebuildRequest? ==> RebuildOutcome(old(store.State()), store.State())
  {
    ghost var s := System(store.State(), map[], Free);
    match request {
      case BeginRequest(plan, attemptId, now) =>
        var r := store.Begin(plan, attemptId, now);
        BeginSimulated(s, plan, attemptId, now, store.State());
        LeadsToReachable(s, s.(files := store.State()));
      case RunFileRequest(id, file, content) =>
        WriteRunFile(store, id, file, content);
      case FinishRequest(started, summary, error, now) =>
        if WellDigested(started) && SafeComponent(started.attempt.attemptId) == Ok(started.attempt.attemptId) {
          var r := store.FinishAttempt(started, summary, error, now);
          if r.Ok? {
            FinishSimulated(s, started, summary, error, now, store.State());
            LeadsToReachable(s, s.(files := store.State()));
          }
        }
      case DecideRequest(q, now) =>
        var r := store.Decide(q, now);
        DecideSimulated(s, 0, q, now, store.State());
        LeadsToReachable(s, s.(files := store.State()));
      case RebuildRequest =>
        var r := store.RebuildRefs();
        RebuildSimulated(s, store.State());
        LeadsToReachable(s, s.(files := store.State()));
    }
  }

  /** Any sequence of operations, each of which may crash, keeps the files those of a reachable state. */
  method UseStore(store: AttemptStore.AttemptStore, requests: seq<StoreRequest>)
    requires Settled(store.State())
    modifies store
    ensures Settled(store.State())
    ensures Current(store.State()) != Lagging(store.State())
  {
    for i := 0 to |requests|
      invariant Settled(store.State())
    {
      Handle(store, requests[i]);
    }
    StoreGuarantees.ManifestIsCurrentOrLagsByOne(System(store.State(), map[], Free));
  }
}
