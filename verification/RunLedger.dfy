/**
 The event ledger of a run directory as a protocol: which event may follow which history, whatever the
 adapter does and wherever the process dies, and what every such ledger therefore satisfies.
 */
module RunLedger {
  import opened Wrappers
  import opened Types
  import opened Manifests
  import opened Gates

  datatype Phase = Before | After | Failure

  datatype Event =
    | RunStarted
    | RunResumed
    | RunResumeRejected(completed: set<string>)
    | AdapterPrepared
    | ActionStarted(action: string, attempt: nat, invocation: nat)
    | SnapshotRecorded(action: string, attempt: nat, phase: Phase)
    | TuiRequested(action: string)
    | TuiExecuted(action: string, attempt: nat)
    | GateEvaluated(action: string, group: GateGroup)
    | ArtifactRecorded(action: string, entry: ManifestEntry)
    | CheckpointRecorded(action: string, entry: ManifestEntry)
    | CheckpointPromoted(action: string, entry: ManifestEntry)
    | ActionSucceeded(action: string, attempt: nat)
    | ActionFailed(action: string, attempt: nat, willRetry: bool)
    | ActionSkipped(action: string)
    | RunFailed(action: string)
    | RunSucceeded(completed: set<string>)
    | AdapterCloseFailed

  type Events = seq<Event>

  // ---------- reading a history ----------

  /** Ids of the succeeded actions, in ledger order. */
  function Succeeded(l: Events): seq<string> {
    if l == [] then []
    else Succeeded(l[..|l| - 1]) + (if l[|l| - 1].ActionSucceeded? then [l[|l| - 1].action] else [])
  }

  function SuccessSet(l: Events): set<string> {
    set a | a in Succeeded(l)
  }

  function StartsOf(e: Event, a: string): nat {
    if e.ActionStarted? && e.action == a then 1 else 0
  }

  /** How often an action has been started: the number of its attempts so far. */
  function Starts(l: Events, a: string): nat {
    if l == [] then 0 else Starts(l[..|l| - 1], a) + StartsOf(l[|l| - 1], a)
  }

  /** The attempt in progress and what its gates have said so far. */
  datatype Attempt =
    | NoAttempt
    | InAttempt(action: string, attempt: nat, gatesTrue: bool, requiredFailed: bool, recorded: bool)

  function AfterGate(t: Attempt, g: GateGroup): Attempt {
    if t.NoAttempt? then t
    else t.(gatesTrue := t.gatesTrue && g.passed == Some(true),
            requiredFailed := t.requiredFailed || (g.required && g.passed == Some(false)))
  }

  function AfterRecord(t: Attempt): Attempt {
    if t.NoAttempt? then t else t.(recorded := true)
  }

  function NextAttempt(t: Attempt, e: Event): Attempt {
    match e
    case ActionStarted(a, n, _) => InAttempt(a, n, true, false, false)
    case GateEvaluated(_, g) => AfterGate(t, g)
    case ArtifactRecorded(_, _) => AfterRecord(t)
    case CheckpointRecorded(_, _) => AfterRecord(t)
    case ActionSucceeded(_, _) => NoAttempt
    case ActionFailed(_, _, _) => NoAttempt
    case RunFailed(_) => NoAttempt
    case RunStarted => NoAttempt
    case RunResumed => NoAttempt
    case RunResumeRejected(_) => NoAttempt
    case _ => t
  }

  function Open(l: Events): Attempt {
    if l == [] then NoAttempt else NextAttempt(Open(l[..|l| - 1]), l[|l| - 1])
  }

  /** The session that the last start or resume opened, with what had succeeded before it. */
  datatype Session = NoSession | Session(resumed: bool, before: set<string>)

  function SessionOf(l: Events): Session {
    if l == [] then NoSession
    else
      var front := l[..|l| - 1];
      match l[|l| - 1]
      case RunStarted => Session(false, SuccessSet(front))
      case RunResumed => Session(true, SuccessSet(front))
      case RunResumeRejected(_) => NoSession
      case _ => SessionOf(front)
  }

  // ---------- plans ----------

  ghost predicate PlanOk(plan: seq<SemanticAction>) {
    && (forall i, j :: 0 <= i < j < |plan| ==> plan[i].id != plan[j].id)
    && (forall j, d :: 0 <= j < |plan| && d in plan[j].dependsOn ==> Precedes(plan, d, j))
    && (forall i :: 0 <= i < |plan| ==> plan[i].maxAttempts >= 1)
  }

  /** An action with id `d` comes before position `j`. */
  ghost predicate Precedes(plan: seq<SemanticAction>, d: string, j: nat) {
    exists i :: 0 <= i < j && i < |plan| && plan[i].id == d
  }

  function Ids(plan: seq<SemanticAction>): (s: seq<string>)
    ensures |s| == |plan|
  {
    seq(|plan|, i requires 0 <= i < |plan| => plan[i].id)
  }

  /** `a` is the first action of the plan that has not succeeded. */
  ghost predicate IsNext(plan: seq<SemanticAction>, l: Events, a: string) {
    |Succeeded(l)| < |plan| && plan[|Succeeded(l)|].id == a
  }

  // ---------- the protocol ----------

  ghost predicate InAttemptOf(l: Events, a: string) {
    Open(l).InAttempt? && Open(l).action == a
  }

  /** The recorded entry belongs to the attempt in progress, and no required gate of it has failed. */
  ghost predicate MayRecord(l: Events, a: string, entry: ManifestEntry) {
    InAttemptOf(l, a) && entry.actionId == a && entry.attempt == Open(l).attempt && !Open(l).requiredFailed
  }

  /** The event `e` may follow the history `l`. */
  ghost predicate Allowed(plan: seq<SemanticAction>, l: Events, e: Event) {
    match e
    case RunStarted => l == []
    case RunResumed => l != []
    case RunResumeRejected(completed) => completed == SuccessSet(l) && completed != {}
    case AdapterCloseFailed => l != []
    case AdapterPrepared => SessionOf(l).Session?
    case ActionStarted(a, n, _) =>
      SessionOf(l).Session? && Open(l).NoAttempt? && IsNext(plan, l, a) && n == Starts(l, a) + 1
    case SnapshotRecorded(a, n, _) => InAttemptOf(l, a) && Open(l).attempt == n
    case TuiRequested(a) => InAttemptOf(l, a)
    case TuiExecuted(a, n) => InAttemptOf(l, a) && Open(l).attempt == n
    case GateEvaluated(a, _) => InAttemptOf(l, a) && !Open(l).recorded
    case ArtifactRecorded(a, entry) => MayRecord(l, a, entry)
    case CheckpointRecorded(a, entry) => MayRecord(l, a, entry)
    case CheckpointPromoted(a, entry) =>
      MayRecord(l, a, entry) && Open(l).gatesTrue && l[|l| - 1] == CheckpointRecorded(a, entry)
    case ActionSucceeded(a, n) => InAttemptOf(l, a) && Open(l).attempt == n && !Open(l).requiredFailed
    case ActionFailed(a, n, _) => InAttemptOf(l, a) && Open(l).attempt == n
    case ActionSkipped(a) =>
      SessionOf(l).Session? && SessionOf(l).resumed && a in SessionOf(l).before && Open(l).NoAttempt?
    case RunFailed(a) =>
      SessionOf(l).Session? && IsNext(plan, l, a) && Starts(l, a) > 0 && (Open(l).InAttempt? ==> Open(l).action == a)
    case RunSucceeded(completed) =>
      SessionOf(l).Session? && Open(l).NoAttempt? && |Succeeded(l)| == |plan| && completed == SuccessSet(l)
  }

  /** The event at position `n` was allowed when it was appended. */
  ghost predicate AllowedAt(plan: seq<SemanticAction>, l: Events, n: nat)
    requires n < |l|
  {
    Allowed(plan, l[..n], l[n])
  }

  /** Every event was allowed when it was appended. */
  ghost predicate Legal(plan: seq<SemanticAction>, l: Events) {
    forall n {:trigger AllowedAt(plan, l, n)} :: 0 <= n < |l| ==> AllowedAt(plan, l, n)
  }

  lemma LegalAppend(plan: seq<SemanticAction>, l: Events, e: Event)
    requires Legal(plan, l) && Allowed(plan, l, e)
    ensures Legal(plan, l + [e])
  {
    var longer := l + [e];
    forall n | 0 <= n < |longer| ensures AllowedAt(plan, longer, n) {
      if n < |l| {
        assert AllowedAt(plan, l, n);
        assert longer[..n] == l[..n];
      } else {
        assert longer[..n] == l;
      }
    }
  }

  lemma LegalPrefix(plan: seq<SemanticAction>, l: Events, n: nat)
    requires Legal(plan, l) && n <= |l|
    ensures Legal(plan, l[..n])
    ensures n < |l| ==> Allowed(plan, l[..n], l[n])
  {
    var front := l[..n];
    forall k | 0 <= k < n ensures AllowedAt(plan, front, k) {
      assert AllowedAt(plan, l, k);
      assert front[..k] == l[..k];
    }
    if n < |l| {
      assert AllowedAt(plan, l, n);
    }
  }

  lemma Append(l: Events, e: Event)
    ensures Succeeded(l + [e]) == Succeeded(l) + (if e.ActionSucceeded? then [e.action] else [])
    ensures forall a :: Starts(l + [e], a) == Starts(l, a) + StartsOf(e, a)
    ensures Open(l + [e]) == NextAttempt(Open(l), e)
    ensures !e.RunStarted? && !e.RunResumed? && !e.RunResumeRejected? ==> SessionOf(l + [e]) == SessionOf(l)
    ensures e.RunStarted? || e.RunResumed? ==> SessionOf(l + [e]) == Session(e.RunResumed?, SuccessSet(l))
  {
    assert (l + [e])[..|l|] == l;
  }

  // ---------- successes ----------

  /** The attempt in progress is always for the first action that has not succeeded. */
  lemma {:induction false} OpenIsNext(plan: seq<SemanticAction>, l: Events)
    requires Legal(plan, l) && Open(l).InAttempt?
    ensures IsNext(plan, l, Open(l).action)
    decreases |l|
  {
    var front, e := l[..|l| - 1], l[|l| - 1];
    LegalPrefix(plan, l, |l| - 1);
    if !e.ActionStarted? {
      OpenIsNext(plan, front);
    }
  }

  /** The succeeded actions form a prefix of the plan. */
  lemma {:induction false} SucceededIsPlanPrefix(plan: seq<SemanticAction>, l: Events)
    requires Legal(plan, l)
    ensures |Succeeded(l)| <= |plan| && Succeeded(l) == Ids(plan)[..|Succeeded(l)|]
    decreases |l|
  {
    if l != [] {
      var front, e := l[..|l| - 1], l[|l| - 1];
      LegalPrefix(plan, l, |l| - 1);
      SucceededIsPlanPrefix(plan, front);
      if e.ActionSucceeded? {
        OpenIsNext(plan, front);
        var k := |Succeeded(front)|;
        assert Ids(plan)[..k + 1] == Ids(plan)[..k] + [plan[k].id];
      }
    }
  }

  lemma {:induction false} SucceededEvent(l: Events, a: string) returns (i: nat)
    requires a in Succeeded(l)
    ensures i < |l| && l[i].ActionSucceeded? && l[i].action == a
  {
    if l[|l| - 1].ActionSucceeded? && l[|l| - 1].action == a {
      i := |l| - 1;
    } else {
      i := SucceededEvent(l[..|l| - 1], a);
    }
  }

  lemma {:induction false} EventSucceeds(l: Events, i: nat)
    requires i < |l| && l[i].ActionSucceeded?
    ensures |Succeeded(l[..i])| < |Succeeded(l)| && Succeeded(l)[|Succeeded(l[..i])|] == l[i].action
    decreases |l|
  {
    if i < |l| - 1 {
      EventSucceeds(l[..|l| - 1], i);
      assert l[..|l| - 1][..i] == l[..i];
    } else {
      assert l[..i] == l[..|l| - 1];
    }
  }

  /** No action succeeds twice. */
  lemma SucceedsAtMostOnce(plan: seq<SemanticAction>, l: Events, i: nat, j: nat)
    requires PlanOk(plan) && Legal(plan, l)
    requires i < |l| && j < |l| && l[i].ActionSucceeded? && l[j].ActionSucceeded? && l[i].action == l[j].action
    ensures i == j
  {
    if i < j {
      SuccessesDiffer(plan, l, i, j);
    } else if j < i {
      SuccessesDiffer(plan, l, j, i);
    }
  }

  lemma SuccessesDiffer(plan: seq<SemanticAction>, l: Events, i: nat, j: nat)
    requires PlanOk(plan) && Legal(plan, l)
    requires i < j < |l| && l[i].ActionSucceeded? && l[j].ActionSucceeded?
    ensures l[i].action != l[j].action
  {
    SucceededIsPlanPrefix(plan, l);
    EventSucceeds(l, i);
    EventSucceeds(l, j);
    EventSucceeds(l[..j], i);
    assert l[..j][..i] == l[..i];
    var m, n := |Succeeded(l[..i])|, |Succeeded(l[..j])|;
    assert m < n;
    assert Ids(plan)[m] == plan[m].id && Ids(plan)[n] == plan[n].id;
  }

  /** Every start comes after the successes of all dependencies of the action. */
  lemma StartsAfterDependencies(plan: seq<SemanticAction>, l: Events, i: nat, k: nat, d: string) returns (j: nat)
    requires PlanOk(plan) && Legal(plan, l)
    requires i < |l| && l[i].ActionStarted?
    requires k < |plan| && plan[k].id == l[i].action && d in plan[k].dependsOn
    ensures j < i && l[j].ActionSucceeded? && l[j].action == d
  {
    var front := l[..i];
    LegalPrefix(plan, l, i);
    SucceededIsPlanPrefix(plan, front);
    assert k == |Succeeded(front)|;
    assert Precedes(plan, d, k);
    var p :| 0 <= p < k && plan[p].id == d;
    assert Succeeded(front)[p] == Ids(plan)[p];
    j := SucceededEvent(front, d);
  }

  /** An action is never started again once it has succeeded. */
  lemma NoStartAfterSuccess(plan: seq<SemanticAction>, l: Events, i: nat)
    requires PlanOk(plan) && Legal(plan, l) && i < |l| && l[i].ActionStarted?
    ensures l[i].action !in Succeeded(l[..i])
  {
    var front := l[..i];
    LegalPrefix(plan, l, i);
    SucceededIsPlanPrefix(plan, front);
    assert forall p :: 0 <= p < |Succeeded(front)| ==> Succeeded(front)[p] == plan[p].id;
  }

  /** A recorded run success means that every action of the plan has succeeded before it. */
  lemma RunSuccessIsComplete(plan: seq<SemanticAction>, l: Events, i: nat)
    requires Legal(plan, l) && i < |l| && l[i].RunSucceeded?
    ensures Succeeded(l[..i]) == Ids(plan)
    ensures l[i].completed == set a | a in Ids(plan)
  {
    LegalPrefix(plan, l, i);
    SucceededIsPlanPrefix(plan, l[..i]);
    assert Ids(plan)[..|plan|] == Ids(plan);
  }

  // ---------- skips ----------

  lemma {:induction false} SessionOrigin(l: Events) returns (r: nat)
    requires SessionOf(l).Session?
    ensures r < |l| && (l[r].RunStarted? || l[r].RunResumed?)
    ensures l[r].RunResumed? == SessionOf(l).resumed && SessionOf(l).before == SuccessSet(l[..r])
    ensures forall k :: r < k < |l| ==> !l[k].RunStarted? && !l[k].RunResumed? && !l[k].RunResumeRejected?
    decreases |l|
  {
    var front, e := l[..|l| - 1], l[|l| - 1];
    if e.RunStarted? || e.RunResumed? {
      r := |l| - 1;
      assert l[..r] == front;
    } else {
      r := SessionOrigin(front);
      assert front[..r] == l[..r];
    }
  }

  /** A skipped action succeeded before the resume that opened the session in which it is skipped. */
  lemma SkipsAreOldSuccesses(plan: seq<SemanticAction>, l: Events, i: nat) returns (j: nat, r: nat)
    requires Legal(plan, l) && i < |l| && l[i].ActionSkipped?
    ensures j < r < i && l[j].ActionSucceeded? && l[j].action == l[i].action && l[r].RunResumed?
    ensures forall k :: r < k < i ==> !l[k].RunStarted? && !l[k].RunResumed? && !l[k].RunResumeRejected?
  {
    LegalPrefix(plan, l, i);
    r := SessionOrigin(l[..i]);
    assert l[..i][..r] == l[..r];
    j := SucceededEvent(l[..r], l[i].action);
  }

  // ---------- attempt numbers ----------

  /** Attempt numbers of an action, in ledger order. */
  function AttemptNumbers(l: Events, a: string): seq<nat> {
    if l == [] then []
    else AttemptNumbers(l[..|l| - 1], a)
         + (if l[|l| - 1].ActionStarted? && l[|l| - 1].action == a then [l[|l| - 1].attempt] else [])
  }

  /** Across retries, crashes and resumes the attempts of each action are numbered 1, 2, 3, ... */
  lemma {:induction false} AttemptsAreNumberedConsecutively(plan: seq<SemanticAction>, l: Events, a: string)
    requires Legal(plan, l)
    ensures |AttemptNumbers(l, a)| == Starts(l, a)
    ensures forall k :: 0 <= k < |AttemptNumbers(l, a)| ==> AttemptNumbers(l, a)[k] == k + 1
    decreases |l|
  {
    if l != [] {
      LegalPrefix(plan, l, |l| - 1);
      AttemptsAreNumberedConsecutively(plan, l[..|l| - 1], a);
    }
  }

  lemma {:induction false} StartsMonotone(l: Events, n: nat, a: string)
    requires n <= |l|
    ensures Starts(l[..n], a) <= Starts(l, a)
    decreases |l|
  {
    if n < |l| {
      StartsMonotone(l[..|l| - 1], n, a);
      assert l[..|l| - 1][..n] == l[..n];
    } else {
      assert l[..n] == l;
    }
  }

  // ---------- gates and promoted checkpoints ----------

  lemma {:induction false} OpenAttemptOrigin(l: Events) returns (s: nat)
    requires Open(l).InAttempt?
    ensures s < |l| && l[s].ActionStarted? && l[s].action == Open(l).action && l[s].attempt == Open(l).attempt
    ensures forall k :: s < k < |l| ==> NoBoundary(l[k])
    ensures Open(l).gatesTrue <==> forall k :: s < k < |l| && l[k].GateEvaluated? ==> l[k].group.passed == Some(true)
    ensures Open(l).requiredFailed <==>
            exists k :: s < k < |l| && l[k].GateEvaluated? && l[k].group.required && l[k].group.passed == Some(false)
    decreases |l|
  {
    var front, e := l[..|l| - 1], l[|l| - 1];
    if e.ActionStarted? {
      s := |l| - 1;
    } else {
      s := OpenAttemptOrigin(front);
      if Open(front).requiredFailed {
        var k :| s < k < |front| && front[k].GateEvaluated? && front[k].group.required
                 && front[k].group.passed == Some(false);
        assert l[k] == front[k];
      }
      if Open(l).requiredFailed && !Open(front).requiredFailed {
        assert l[|l| - 1].GateEvaluated?;
      }
      if !Open(front).gatesTrue {
        var k :| s < k < |front| && front[k].GateEvaluated? && front[k].group.passed != Some(true);
        assert l[k] == front[k];
      }
    }
  }

  /** The event neither starts nor ends an attempt or a session. */
  predicate NoBoundary(e: Event) {
    && !e.ActionStarted? && !e.ActionSucceeded? && !e.ActionFailed?
    && !e.RunFailed? && !e.RunStarted? && !e.RunResumed? && !e.RunResumeRejected?
  }

  /** Position `k` lies in the attempt that starts at `s`, before the event that ends it. */
  ghost predicate Within(l: Events, s: int, k: int) {
    0 <= s < k < |l| && forall m :: s < m <= k ==> NoBoundary(l[m])
  }

  predicate IsRecord(e: Event) {
    e.ArtifactRecorded? || e.CheckpointRecorded?
  }

  /** Once something is recorded, it stays so until the attempt ends. */
  lemma {:induction false} StaysRecorded(l: Events, i: nat, k: nat)
    requires i < k <= |l| && Open(l[..i]).InAttempt? && IsRecord(l[i])
    requires forall m :: i < m < k ==> NoBoundary(l[m])
    ensures Open(l[..k]).InAttempt? && Open(l[..k]).recorded
    decreases k
  {
    if k > i + 1 {
      StaysRecorded(l, i, k - 1);
    }
    assert l[..k][..k - 1] == l[..k - 1];
  }

  /** All gates of an attempt are evaluated before anything is recorded in it. */
  lemma GatesPrecedeRecords(plan: seq<SemanticAction>, l: Events, s: nat, i: nat, k: nat)
    requires Legal(plan, l) && Within(l, s, i) && Within(l, s, k)
    requires IsRecord(l[i]) && l[k].GateEvaluated?
    ensures k < i
  {
    if i < k {
      LegalPrefix(plan, l, i);
      LegalPrefix(plan, l, k);
      StaysRecorded(l, i, k);
    }
  }

  /**
   A checkpoint is promoted only inside an attempt of its action of which every gate is exactly true;
   a gate without a claim is not enough.
   */
  lemma PromotionsFollowTrueGates(plan: seq<SemanticAction>, l: Events, i: nat) returns (s: nat)
    requires Legal(plan, l) && i < |l| && l[i].CheckpointPromoted?
    ensures Within(l, s, i) && l[s].ActionStarted? && l[s].action == l[i].action && l[s].attempt == l[i].entry.attempt
    ensures l[i - 1] == CheckpointRecorded(l[i].action, l[i].entry)
    ensures forall k :: Within(l, s, k) && l[k].GateEvaluated? ==> k < i - 1 && l[k].group.passed == Some(true)
  {
    LegalPrefix(plan, l, i);
    s := OpenAttemptOrigin(l[..i]);
    assert Within(l, s, i) && l[i - 1] == CheckpointRecorded(l[i].action, l[i].entry);
    assert Within(l, s, i - 1);
    forall k | Within(l, s, k) && l[k].GateEvaluated? ensures k < i - 1 && l[k].group.passed == Some(true) {
      GatesPrecedeRecords(plan, l, s, i - 1, k);
      assert l[..i][k] == l[k];
    }
  }

  /** Nothing is recorded in an attempt of which a required gate evaluates false, before or after. */
  lemma NothingRecordedWithFailedGate(plan: seq<SemanticAction>, l: Events, i: nat) returns (s: nat)
    requires Legal(plan, l) && i < |l| && IsRecord(l[i])
    ensures Within(l, s, i) && l[s].ActionStarted? && l[s].action == l[i].action && l[s].attempt == l[i].entry.attempt
    ensures forall k :: Within(l, s, k) && l[k].GateEvaluated? && l[k].group.required ==>
              l[k].group.passed != Some(false)
  {
    LegalPrefix(plan, l, i);
    s := OpenAttemptOrigin(l[..i]);
    assert Within(l, s, i);
    forall k | Within(l, s, k) && l[k].GateEvaluated? && l[k].group.required ensures l[k].group.passed != Some(false) {
      GatesPrecedeRecords(plan, l, s, i, k);
      assert l[..i][k] == l[k];
    }
  }

  /** An attempt of which a required gate evaluates false does not succeed. */
  lemma NoSuccessWithFailedGate(plan: seq<SemanticAction>, l: Events, i: nat) returns (s: nat)
    requires Legal(plan, l) && i < |l| && l[i].ActionSucceeded?
    ensures s < i && l[s].ActionStarted? && l[s].action == l[i].action && l[s].attempt == l[i].attempt
    ensures forall k :: s < k < i ==> Within(l, s, k)
    ensures forall k :: Within(l, s, k) ==> k < i
    ensures forall k :: Within(l, s, k) && l[k].GateEvaluated? && l[k].group.required ==>
              l[k].group.passed != Some(false)
  {
    LegalPrefix(plan, l, i);
    s := OpenAttemptOrigin(l[..i]);
    forall k | Within(l, s, k) ensures k < i {
      assert !NoBoundary(l[i]);
    }
    forall k | Within(l, s, k) && l[k].GateEvaluated? && l[k].group.required ensures l[k].group.passed != Some(false) {
      assert l[..i][k] == l[k];
    }
  }

  // ---------- gate status ----------

  datatype GateStatus = NotEvaluated | Passed | Failed

  function UpdateStatus(prior: GateStatus, passed: Option<bool>): GateStatus {
    if passed.None? then prior else if !passed.value || prior.Failed? then Failed else Passed
  }

  /** The status of a category after one more gate. */
  function AfterEvaluation(prior: GateStatus, g: GateGroup, category: string): GateStatus {
    if g.category == category then UpdateStatus(prior, g.passed) else prior
  }

  function ReplayFrom(status: GateStatus, l: Events, category: string): GateStatus {
    if l == [] then status
    else
      var before := ReplayFrom(status, l[..|l| - 1], category);
      var e := l[|l| - 1];
      if e.GateEvaluated? then AfterEvaluation(before, e.group, category) else before
  }

  /** The status of a gate category that a ledger implies. */
  function Replay(l: Events, category: string): GateStatus {
    ReplayFrom(NotEvaluated, l, category)
  }

  ghost predicate Evaluated(l: Events, category: string, passed: bool) {
    exists i :: 0 <= i < |l| && l[i].GateEvaluated? && l[i].group.category == category
      && l[i].group.passed == Some(passed)
  }

  lemma EvaluatedStep(l: Events, category: string)
    requires l != []
    ensures var front, e := l[..|l| - 1], l[|l| - 1];
            forall p :: Evaluated(l, category, p) <==>
                        || Evaluated(front, category, p)
                        || (e.GateEvaluated? && e.group.category == category && e.group.passed == Some(p))
  {
    var front := l[..|l| - 1];
    forall p | Evaluated(front, category, p) ensures Evaluated(l, category, p) {
      var i :| 0 <= i < |front| && front[i].GateEvaluated? && front[i].group.category == category
               && front[i].group.passed == Some(p);
      assert l[i] == front[i];
    }
  }

  /** Failed if any gate of the category ever failed; passed if none failed and one passed. */
  lemma {:induction false} ReplayMeaning(l: Events, category: string)
    ensures Replay(l, category) ==
            if Evaluated(l, category, false) then Failed
            else if Evaluated(l, category, true) then Passed
            else NotEvaluated
  {
    if l != [] {
      ReplayMeaning(l[..|l| - 1], category);
      EvaluatedStep(l, category);
    }
  }

  /** Restoring over a status that already reflects the ledger changes nothing. */
  lemma RestoreIsIdempotent(l: Events, category: string)
    ensures ReplayFrom(Replay(l, category), l, category) == Replay(l, category)
  {
    ReplayMeaning(l, category);
    ReplayFromMeaning(Replay(l, category), l, category);
  }

  lemma {:induction false} ReplayFromMeaning(status: GateStatus, l: Events, category: string)
    ensures ReplayFrom(status, l, category) ==
            if status.Failed? || Evaluated(l, category, false) then Failed
            else if Evaluated(l, category, true) then Passed else status
  {
    if l != [] {
      ReplayFromMeaning(status, l[..|l| - 1], category);
      EvaluatedStep(l, category);
    }
  }

  lemma ReplayFromStep(status: GateStatus, l: Events, i: nat, category: string)
    requires i < |l|
    ensures var before, e := ReplayFrom(status, l[..i], category), l[i];
            ReplayFrom(status, l[..i + 1], category)
            == if e.GateEvaluated? then AfterEvaluation(before, e.group, category) else before
  {
    assert l[..i + 1][..i] == l[..i];
  }

}
