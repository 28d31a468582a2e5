/** How far a ledger has come with its plan. */
module PlanProgress {
  import opened Wrappers
  import opened Order
  import opened Types
  import opened Planner
  import opened RunLedger

  /** Whatever the planner orders can be executed in that order. */
  lemma OrderedPlanIsExecutable(actions: seq<SemanticAction>, plan: seq<SemanticAction>)
    requires Orderable(actions) && IsOrderOf(actions, plan)
    requires forall i :: 0 <= i < |actions| ==> actions[i].maxAttempts >= 1
    ensures PlanOk(plan)
  {
    PermutedUnique(actions, plan);
    PermutationMembers(plan, actions);
    forall j, d | 0 <= j < |plan| && d in plan[j].dependsOn ensures Precedes(plan, d, j) {
      DependenciesComeFirst(actions, plan, j, d);
    }
    forall i | 0 <= i < |plan| ensures plan[i].maxAttempts >= 1 {
      assert plan[i] in plan;
      assert plan[i] in actions;
    }
  }

  /** So can the list with the injected launch, if the authored actions may be tried at least once. */
  lemma InjectedPlanIsExecutable(actions: seq<SemanticAction>, plan: seq<SemanticAction>)
    requires Orderable(InjectLaunch(actions)) && IsOrderOf(InjectLaunch(actions), plan)
    requires forall i :: 0 <= i < |actions| ==> actions[i].maxAttempts >= 1
    ensures PlanOk(plan)
  {
    OrderedPlanIsExecutable(InjectLaunch(actions), plan);
  }

  /** Ids of the plan entries in `completed`, in plan order. */
  function CompletedIds(plan: seq<SemanticAction>, completed: set<string>): seq<string> {
    if plan == [] then []
    else (if plan[0].id in completed then [plan[0].id] else []) + CompletedIds(plan[1..], completed)
  }

  lemma {:induction false} CompletedIdsOfPrefix(plan: seq<SemanticAction>, completed: set<string>, n: nat)
    requires n <= |plan|
    requires forall i :: 0 <= i < |plan| ==> (plan[i].id in completed <==> i < n)
    ensures CompletedIds(plan, completed) == Ids(plan)[..n]
  {
    if plan != [] {
      var rest := plan[1..];
      if n > 0 {
        CompletedIdsOfPrefix(rest, completed, n - 1);
        assert Ids(plan)[..n] == [plan[0].id] + Ids(rest)[..n - 1];
      } else {
        CompletedIdsOfPrefix(rest, completed, 0);
      }
    }
  }

  /** The ids that a summary lists are the successes of the ledger, in the order in which they happened. */
  lemma CompletedIdsAreSucceeded(plan: seq<SemanticAction>, l: Events)
    requires PlanOk(plan) && Legal(plan, l)
    ensures CompletedIds(plan, SuccessSet(l)) == Succeeded(l)
  {
    SucceededIsPlanPrefix(plan, l);
    forall i | 0 <= i < |plan| ensures plan[i].id in SuccessSet(l) <==> i < |Succeeded(l)| {
      SucceededPositions(plan, l, i);
    }
    CompletedIdsOfPrefix(plan, SuccessSet(l), |Succeeded(l)|);
  }

  /** An entry of the plan has succeeded exactly when it lies in the succeeded prefix. */
  lemma SucceededPositions(plan: seq<SemanticAction>, l: Events, i: nat)
    requires PlanOk(plan) && Legal(plan, l) && i < |plan|
    ensures plan[i].id in SuccessSet(l) <==> i < |Succeeded(l)|
  {
    SucceededIsPlanPrefix(plan, l);
    if i < |Succeeded(l)| {
      assert Succeeded(l)[i] == Ids(plan)[i];
    }
    if plan[i].id in Succeeded(l) {
      var p :| 0 <= p < |Succeeded(l)| && Succeeded(l)[p] == plan[i].id;
      assert Ids(plan)[p] == plan[p].id;
    }
  }

  /** Once everything before an entry has succeeded, its dependencies are complete. */
  lemma DependenciesSucceeded(plan: seq<SemanticAction>, l: Events, i: nat)
    requires PlanOk(plan) && Legal(plan, l) && i < |plan| && i <= |Succeeded(l)|
    ensures forall d :: d in plan[i].dependsOn ==> d in SuccessSet(l)
  {
    forall d | d in plan[i].dependsOn ensures d in SuccessSet(l) {
      assert Precedes(plan, d, i);
      var p :| 0 <= p < i && plan[p].id == d;
      SucceededPositions(plan, l, p);
    }
  }

  lemma AllSucceeded(plan: seq<SemanticAction>, l: Events)
    requires Legal(plan, l) && |Succeeded(l)| >= |plan|
    ensures Succeeded(l) == Ids(plan)
  {
    SucceededIsPlanPrefix(plan, l);
    assert Ids(plan)[..|plan|] == Ids(plan);
  }

  /** The loop over the plan is at entry `i`: the entries before it have succeeded, and no more in this session. */
  ghost predicate AtEntry(l: Events, i: nat) {
    |Succeeded(l)| == i || (|Succeeded(l)| > i && SessionOf(l) == Session(true, SuccessSet(l)))
  }

  lemma SessionStart(l: Events, earlier: set<string>)
    requires earlier == SuccessSet(l) && (earlier != {} ==> SessionOf(l) == Session(true, earlier))
    ensures AtEntry(l, 0)
  {
    if Succeeded(l) != [] {
      assert Succeeded(l)[0] in SuccessSet(l);
    }
  }

  ghost predicate LastIs(l: Events, e: Event) {
    |l| >= 1 && l[|l| - 1] == e
  }

  /** The run has just ended: with the success of the whole plan, or with the entry that gave up. */
  ghost predicate Ends(plan: seq<SemanticAction>, l: Events, failed: Option<string>) {
    if failed.None? then Succeeded(l) == Ids(plan) && LastIs(l, RunSucceeded(SuccessSet(l)))
    else IsNext(plan, l, failed.value) && LastIs(l, RunFailed(failed.value))
  }

  /** The run has ended, and at most a failure to close the adapter was recorded after it. */
  ghost predicate EndsOrCloseFailed(plan: seq<SemanticAction>, l: Events, failed: Option<string>) {
    || Ends(plan, l, failed)
    || (|l| >= 2 && LastIs(l, AdapterCloseFailed) && Ends(plan, l[..|l| - 1], failed)
        && Succeeded(l) == Succeeded(l[..|l| - 1]))
  }

  lemma CloseFailureEnds(plan: seq<SemanticAction>, l: Events, failed: Option<string>)
    requires Ends(plan, l, failed)
    ensures EndsOrCloseFailed(plan, l + [AdapterCloseFailed], failed)
  {
    var m := l + [AdapterCloseFailed];
    assert m[..|m| - 1] == l;
  }

  /** A run that has ended with success has recorded something, and the success of every action. */
  lemma EndedRunsAreComplete(plan: seq<SemanticAction>, l: Events)
    requires EndsOrCloseFailed(plan, l, None)
    ensures l != [] && Succeeded(l) == Ids(plan)
  {
  }

  /** A run of which an entry gave up is not complete. */
  lemma FailedRunsAreIncomplete(plan: seq<SemanticAction>, l: Events, failed: string)
    requires EndsOrCloseFailed(plan, l, Some(failed))
    ensures Succeeded(l) != Ids(plan)
  {
  }

  /** `m` continues `l` without starting, ending or succeeding anything. */
  ghost predicate SameProgress(l: Events, m: Events) {
    && l <= m
    && Succeeded(m) == Succeeded(l)
    && (forall a :: Starts(m, a) == Starts(l, a))
    && SessionOf(m) == SessionOf(l)
  }

  lemma ProgressContinues(l: Events, m: Events, n: Events)
    requires SameProgress(l, m) && SameProgress(m, n)
    ensures SameProgress(l, n)
  {
  }

  /** `m` continues `l` and ends the attempt of `action` with its success. */
  ghost predicate Completed(l: Events, m: Events, action: string) {
    l <= m && Succeeded(m) == Succeeded(l) + [action] && SessionOf(m) == SessionOf(l) && Open(m).NoAttempt?
  }

  lemma CompletedLater(l: Events, m: Events, n: Events, action: string)
    requires SameProgress(l, m) && Completed(m, n, action)
    ensures Completed(l, n, action)
  {
  }

  ghost predicate Attempting(l: Events, action: string, attempt: nat) {
    Open(l).InAttempt? && Open(l).action == action && Open(l).attempt == attempt
  }

  /** The attempt may record: its gates have said `passed`, and no required one is false. */
  ghost predicate Recording(l: Events, action: string, attempt: nat, passed: bool) {
    Attempting(l, action, attempt) && Open(l).gatesTrue == passed && !Open(l).requiredFailed
  }

  /** A session is open and no attempt is in progress. */
  ghost predicate Idle(l: Events) {
    SessionOf(l).Session? && Open(l).NoAttempt?
  }
}
