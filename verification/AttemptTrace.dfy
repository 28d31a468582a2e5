/** What the conditions of an attempt observe, and what a successful attempt leaves in ledger and manifests. */
module AttemptTrace {
  import opened Wrappers
  import opened Json
  import opened Types
  import opened Manifests
  import opened Gates
  import opened RunLedger

  datatype ActionResult = ActionResult(
    details: Fields, metrics: Fields, artifacts: seq<ArtifactRecord>, checkpoints: seq<ArtifactRecord>)

  // ---------- scopes ----------

  function RecordJson(r: ArtifactRecord): Json {
    Map(map["uri" := Str(r.uri), "role" := Str(r.role)]
        + (if r.sha256.Some? then map["sha256" := Str(r.sha256.value)] else map[])
        + (if r.outputId.Some? then map["metadata" := Map(map["output_id" := Str(r.outputId.value)])] else map[]))
  }

  function RecordsJson(rs: seq<ArtifactRecord>): Json {
    List(seq(|rs|, i requires 0 <= i < |rs| => RecordJson(rs[i])))
  }

  function ResultJson(r: ActionResult): Json {
    Map(map["details" := Map(r.details), "metrics" := Map(r.metrics),
            "artifacts" := RecordsJson(r.artifacts), "checkpoints" := RecordsJson(r.checkpoints)])
  }

  /** What conditions and gates observe: the state, again under "state", and the result with its metrics. */
  function ConditionScope(state: Fields, result: Option<ActionResult>): Json {
    var scope := state["state" := Map(state)];
    if result.None? then Map(scope)
    else
      var withResult := scope["result" := ResultJson(result.value)];
      if result.value.metrics != map[] then Map(withResult["metrics" := Map(result.value.metrics)])
      else if "metrics" !in withResult then Map(withResult["metrics" := Map(map[])])
      else Map(withResult)
  }

  // ---------- what a successful attempt records ----------

  function GateEvents(action: string, gates: seq<GateGroup>): Events {
    if gates == [] then [] else GateEvents(action, gates[..|gates| - 1]) + [GateEvaluated(action, gates[|gates| - 1])]
  }

  predicate AllTrue(gates: seq<GateGroup>) {
    forall i :: 0 <= i < |gates| ==> gates[i].passed == Some(true)
  }

  predicate RequiredFalse(gates: seq<GateGroup>) {
    exists i :: 0 <= i < |gates| && gates[i].required && gates[i].passed == Some(false)
  }

  /** Evaluating a gate of the action raises on what was observed. */
  ghost predicate RaisesOn(action: SemanticAction, observed: Json, flags: AdapterFlags, artifacts: seq<ManifestEntry>) {
    exists verified :: GateGroups(action, observed, flags, artifacts, verified) == None
  }

  /** The gates of the action evaluate to `gates` on what was observed. */
  ghost predicate Evaluates(action: SemanticAction, observed: Json, flags: AdapterFlags,
                            artifacts: seq<ManifestEntry>, gates: seq<GateGroup>)
  {
    exists verified :: GateGroups(action, observed, flags, artifacts, verified) == Some(gates)
  }

  predicate Promotes(action: SemanticAction, gatePassed: bool) {
    action.checkpoint.Some? && action.checkpoint.value.promoteWhenGatesPass && gatePassed
  }

  // ---------- why an attempt fails ----------

  /** Evaluating the gates of the action raises, or one that is required is false. */
  ghost predicate GateFails(action: SemanticAction, observed: Json, flags: AdapterFlags,
                            artifacts: seq<ManifestEntry>) {
    || RaisesOn(action, observed, flags, artifacts)
    || exists gates :: Evaluates(action, observed, flags, artifacts, gates) && RequiredFalse(gates)
  }

  /** A postcondition is not true, or a gate fails, on what was observed after the call. */
  ghost predicate NotConcluded(action: SemanticAction, after: Fields, result: ActionResult, flags: AdapterFlags,
                               artifacts: seq<ManifestEntry>)
  {
    || AllConditions(action.postconditions, ConditionScope(after, Some(result))) != Some(true)
    || GateFails(action, ConditionScope(after, Some(result)), flags, artifacts)
  }

  /** Why an attempt failed: something raised, or what was observed did not meet the action. */
  datatype Cause =
    | SomethingRaised
    | Unmet(before: Fields, after: Fields, result: ActionResult, artifacts: seq<ManifestEntry>)

  ghost predicate Justifies(cause: Cause, action: SemanticAction, flags: AdapterFlags) {
    || cause.SomethingRaised?
    || AllConditions(action.preconditions, ConditionScope(cause.before, None)) != Some(true)
    || NotConcluded(action, cause.after, cause.result, flags, cause.artifacts)
  }

  ghost predicate AllJustified(causes: seq<Cause>, action: SemanticAction, flags: AdapterFlags) {
    forall k {:trigger Justifies(causes[k], action, flags)} :: 0 <= k < |causes| ==> Justifies(causes[k], action, flags)
  }

  /** How many of the attempts failed because something raised. */
  ghost function Faults(causes: seq<Cause>): nat {
    if causes == [] then 0
    else Faults(causes[..|causes| - 1]) + (if causes[|causes| - 1].SomethingRaised? then 1 else 0)
  }

  lemma OneMoreCause(causes: seq<Cause>, cause: Cause, action: SemanticAction, flags: AdapterFlags)
    requires AllJustified(causes, action, flags) && Justifies(cause, action, flags)
    ensures AllJustified(causes + [cause], action, flags)
    ensures Faults(causes + [cause]) == Faults(causes) + (if cause.SomethingRaised? then 1 else 0)
  {
    var more := causes + [cause];
    assert more[..|causes|] == causes;
    forall k | 0 <= k < |more| ensures Justifies(more[k], action, flags) {
      if k < |causes| {
        assert Justifies(causes[k], action, flags);
      }
    }
  }

  /** The ledger has the start of this attempt, with its number within the invocation. */
  ghost predicate StartedWithNumber(l: Events, action: string, attempt: nat, invocation: nat) {
    ActionStarted(action, attempt, invocation) in l
  }

  ghost predicate FailureLogged(l: Events, action: SemanticAction, prior: nat, k: nat) {
    && StartedWithNumber(l, action.id, prior + k + 1, k + 1)
    && ActionFailed(action.id, prior + k + 1, k + 1 < action.maxAttempts) in l
  }

  /** The first `n` attempts after `prior` are numbered 1 to `n`, and all but the last allowed one announce a retry. */
  ghost predicate FailuresLogged(l: Events, action: SemanticAction, prior: nat, n: nat) {
    forall k {:trigger FailureLogged(l, action, prior, k)} :: 0 <= k < n ==> FailureLogged(l, action, prior, k)
  }

  /** Of each of the failed attempts after `prior`, the ledger has the events and `causes` the reason. */
  ghost predicate Explained(l: Events, action: SemanticAction, prior: nat, causes: seq<Cause>, flags: AdapterFlags) {
    AllJustified(causes, action, flags) && FailuresLogged(l, action, prior, |causes|)
  }

  lemma AttemptLogged(l: Events, m: Events, action: SemanticAction, prior: nat, n: nat, failed: bool)
    requires l < m && FailuresLogged(l, action, prior, n)
    requires m[|l|] == ActionStarted(action.id, prior + n + 1, n + 1)
    requires failed ==> m[|m| - 1] == ActionFailed(action.id, prior + n + 1, n + 1 < action.maxAttempts)
    ensures StartedWithNumber(m, action.id, prior + n + 1, n + 1)
    ensures FailuresLogged(m, action, prior, if failed then n + 1 else n)
  {
    forall k | 0 <= k < n ensures FailureLogged(m, action, prior, k) {
      assert FailureLogged(l, action, prior, k);
    }
  }

  function EntryEvents(action: SemanticAction, attempt: nat, record: ArtifactRecord, isCheckpoint: bool,
                       gatePassed: bool)
    : Events
  {
    var entry := ManifestEntry(record, action.id, attempt);
    if !isCheckpoint then [ArtifactRecorded(action.id, entry)]
    else if Promotes(action, gatePassed) then
      [CheckpointRecorded(action.id, entry)] + [CheckpointPromoted(action.id, entry)]
    else [CheckpointRecorded(action.id, entry)]
  }

  function RecordEvents(action: SemanticAction, attempt: nat, records: seq<ArtifactRecord>,
                        isCheckpoint: bool, gatePassed: bool): Events
  {
    if records == [] then []
    else RecordEvents(action, attempt, records[..|records| - 1], isCheckpoint, gatePassed)
         + EntryEvents(action, attempt, records[|records| - 1], isCheckpoint, gatePassed)
  }

  /** The checkpoints of a result, with the one that a promotion action names itself. */
  function SavedCheckpoints(action: SemanticAction, result: ActionResult): seq<ArtifactRecord> {
    result.checkpoints
    + (if action.kind.PromoteCheckpoint? && action.promoted.Some? && action.promoted.value.uri != ""
       then [action.promoted.value] else [])
  }

  function ResultEvents(action: SemanticAction, attempt: nat, result: ActionResult, gatePassed: bool): Events {
    RecordEvents(action, attempt, result.artifacts, false, gatePassed)
    + RecordEvents(action, attempt, SavedCheckpoints(action, result), true, gatePassed)
  }

  /** What opens an attempt. */
  function StartEvents(action: string, attempt: nat, invocation: nat): Events {
    [ActionStarted(action, attempt, invocation)] + [SnapshotRecorded(action, attempt, Before)]
  }

  function RequestEvents(action: SemanticAction): Events {
    if action.kind.Tui? then [TuiRequested(action.id)] else []
  }

  function CallEvents(action: SemanticAction, attempt: nat): Events {
    RequestEvents(action) + [SnapshotRecorded(action.id, attempt, After)]
  }

  function ReportEvents(action: SemanticAction, attempt: nat): Events {
    if action.kind.Tui? then [TuiExecuted(action.id, attempt)] else []
  }

  function LastEvents(action: SemanticAction, attempt: nat): Events {
    ReportEvents(action, attempt) + [ActionSucceeded(action.id, attempt)]
  }

  /** Everything recorded from the gates of a successful attempt to its success event. */
  function SuccessEvents(action: SemanticAction, attempt: nat, result: ActionResult, gates: seq<GateGroup>): Events {
    GateEvents(action.id, gates) + ResultEvents(action, attempt, result, AllTrue(gates)) + LastEvents(action, attempt)
  }

  function AddedAll(entries: seq<ManifestEntry>, action: string, attempt: nat, records: seq<ArtifactRecord>)
    : seq<ManifestEntry>
  {
    if records == [] then entries
    else
      var before := AddedAll(entries, action, attempt, records[..|records| - 1]);
      Added(before, ManifestEntry(records[|records| - 1], action, attempt))
  }

  function AddedIf(adds: bool, entries: seq<ManifestEntry>, action: string, attempt: nat, records: seq<ArtifactRecord>)
    : seq<ManifestEntry>
  {
    if adds then AddedAll(entries, action, attempt, records) else entries
  }

  /** Everything recorded between the first snapshot of a successful attempt and its end. */
  function AttemptEvents(action: SemanticAction, attempt: nat, result: ActionResult, gates: seq<GateGroup>): Events {
    CallEvents(action, attempt) + SuccessEvents(action, attempt, result, gates)
  }

  lemma CheckpointEvents(l: Events, action: SemanticAction, attempt: nat, record: ArtifactRecord, gatePassed: bool)
    ensures var entry := ManifestEntry(record, action.id, attempt);
            var recorded, all := l + [CheckpointRecorded(action.id, entry)],
                                 l + EntryEvents(action, attempt, record, true, gatePassed);
            && recorded <= all
            && (if Promotes(action, gatePassed) then recorded + [CheckpointPromoted(action.id, entry)] == all
                else recorded == all)
  {
  }

  lemma PrefixOfFirst(l: Events, m: Events, first: Events, second: Events)
    requires m <= l + first
    ensures m <= l + (first + second)
  {
    Regroup(l, first, second);
  }

  lemma {:induction false} GatesPrefix(action: string, gates: seq<GateGroup>, n: nat)
    requires n <= |gates|
    ensures GateEvents(action, gates[..n]) <= GateEvents(action, gates)
    decreases |gates|
  {
    if n < |gates| {
      GatesPrefix(action, gates[..|gates| - 1], n);
      assert gates[..|gates| - 1][..n] == gates[..n];
    } else {
      assert gates[..n] == gates;
    }
  }

  lemma {:induction false} RecordsPrefix(action: SemanticAction, attempt: nat, records: seq<ArtifactRecord>, n: nat,
                                         isCheckpoint: bool, gatePassed: bool)
    requires n <= |records|
    ensures RecordEvents(action, attempt, records[..n], isCheckpoint, gatePassed)
            <= RecordEvents(action, attempt, records, isCheckpoint, gatePassed)
    decreases |records|
  {
    if n < |records| {
      RecordsPrefix(action, attempt, records[..|records| - 1], n, isCheckpoint, gatePassed);
      assert records[..|records| - 1][..n] == records[..n];
    } else {
      assert records[..n] == records;
    }
  }

  lemma LongerPrefix(l: Events, m: Events, part: Events, whole: Events)
    requires m <= l + part && part <= whole
    ensures m <= l + whole
  {
  }

  lemma GatesSoFar(l: Events, m: Events, action: string, gates: seq<GateGroup>, n: nat)
    requires n <= |gates| && m <= l + GateEvents(action, gates[..n])
    ensures m <= l + GateEvents(action, gates)
  {
    GatesPrefix(action, gates, n);
    LongerPrefix(l, m, GateEvents(action, gates[..n]), GateEvents(action, gates));
  }

  lemma RecordsSoFar(l: Events, m: Events, action: SemanticAction, attempt: nat, records: seq<ArtifactRecord>, n: nat,
                     isCheckpoint: bool, gatePassed: bool)
    requires n <= |records| && m <= l + RecordEvents(action, attempt, records[..n], isCheckpoint, gatePassed)
    ensures m <= l + RecordEvents(action, attempt, records, isCheckpoint, gatePassed)
  {
    RecordsPrefix(action, attempt, records, n, isCheckpoint, gatePassed);
    LongerPrefix(l, m, RecordEvents(action, attempt, records[..n], isCheckpoint, gatePassed),
                 RecordEvents(action, attempt, records, isCheckpoint, gatePassed));
  }

  lemma StartedWith(l: Events, m: Events, n: Events, action: string, attempt: nat, invocation: nat)
    requires m == l + [ActionStarted(action, attempt, invocation)]
             && n == m + [SnapshotRecorded(action, attempt, Before)]
    ensures n == l + StartEvents(action, attempt, invocation)
  {
  }

  lemma LastEventsSoFar(l: Events, m: Events, action: SemanticAction, attempt: nat)
    requires m == l + ReportEvents(action, attempt)
    ensures m <= l + LastEvents(action, attempt)
            && m + [ActionSucceeded(action.id, attempt)] == l + LastEvents(action, attempt)
  {
  }

  lemma Regroup(l: Events, first: Events, second: Events)
    ensures l + first + second == l + (first + second)
  {
  }

  lemma PartThenPart(l: Events, m: Events, n: Events, first: Events, second: Events)
    requires m == l + first && n <= m + second
    ensures n <= l + (first + second)
    ensures n == m + second ==> n == l + (first + second)
  {
    Regroup(l, first, second);
  }

  lemma EvaluatedWith(action: SemanticAction, observed: Json, artifacts: seq<ManifestEntry>,
                      verified: set<ManifestEntry>, gates: seq<GateGroup>, flags: AdapterFlags)
    requires GateGroups(action, observed, flags, artifacts, verified) == Some(gates)
    ensures Evaluates(action, observed, flags, artifacts, gates)
  {
  }

  lemma RaisedWith(action: SemanticAction, observed: Json, artifacts: seq<ManifestEntry>, verified: set<ManifestEntry>,
                   flags: AdapterFlags)
    requires GateGroups(action, observed, flags, artifacts, verified) == None
    ensures RaisesOn(action, observed, flags, artifacts)
  {
  }

  lemma RequiredFalseStep(gates: seq<GateGroup>, i: nat)
    requires i < |gates|
    ensures RequiredFalse(gates[..i + 1]) <==>
              RequiredFalse(gates[..i]) || (gates[i].required && gates[i].passed == Some(false))
  {
    var longer, front := gates[..i + 1], gates[..i];
    if RequiredFalse(front) {
      var k :| 0 <= k < i && front[k].required && front[k].passed == Some(false);
      assert longer[k] == front[k];
    }
    if gates[i].required && gates[i].passed == Some(false) {
      assert longer[i] == gates[i];
    }
    if RequiredFalse(longer) {
      var k :| 0 <= k < i + 1 && longer[k].required && longer[k].passed == Some(false);
      if k < i {
        assert front[k] == longer[k];
      }
    }
  }

  lemma GateEventsStep(l: Events, action: string, gates: seq<GateGroup>, i: nat)
    requires i < |gates|
    ensures l + GateEvents(action, gates[..i + 1])
            == l + GateEvents(action, gates[..i]) + [GateEvaluated(action, gates[i])]
    ensures AllTrue(gates[..i + 1]) == (AllTrue(gates[..i]) && gates[i].passed == Some(true))
  {
    var longer := gates[..i + 1];
    assert longer[..i] == gates[..i];
    if AllTrue(longer) {
      forall k | 0 <= k < i ensures gates[..i][k].passed == Some(true) {
        assert longer[k] == gates[k];
      }
      assert longer[i].passed == Some(true);
    }
  }

  lemma RecordEventsStep(l: Events, action: SemanticAction, attempt: nat, records: seq<ArtifactRecord>, i: nat,
                         isCheckpoint: bool, gatePassed: bool)
    requires i < |records|
    ensures l + RecordEvents(action, attempt, records[..i + 1], isCheckpoint, gatePassed)
            == l + RecordEvents(action, attempt, records[..i], isCheckpoint, gatePassed)
               + EntryEvents(action, attempt, records[i], isCheckpoint, gatePassed)
  {
    assert records[..i + 1][..i] == records[..i];
  }

  lemma AddedIfStep(adds: bool, entries: seq<ManifestEntry>, action: string, attempt: nat, records: seq<ArtifactRecord>,
                    i: nat)
    requires i < |records|
    ensures var before := AddedIf(adds, entries, action, attempt, records[..i]);
            AddedIf(adds, entries, action, attempt, records[..i + 1])
            == if adds then Added(before, ManifestEntry(records[i], action, attempt)) else before
  {
    assert records[..i + 1][..i] == records[..i];
  }

  /** Where the ledger stands after one more entry, recorded in full or not. */
  lemma RecordedStep(start: Events, before: Events, after: Events, action: SemanticAction, attempt: nat,
                     records: seq<ArtifactRecord>, i: nat, isCheckpoint: bool, gatePassed: bool)
    requires i < |records| && before == start + RecordEvents(action, attempt, records[..i], isCheckpoint, gatePassed)
    requires after <= before + EntryEvents(action, attempt, records[i], isCheckpoint, gatePassed)
    ensures after <= start + RecordEvents(action, attempt, records, isCheckpoint, gatePassed)
    ensures after == before + EntryEvents(action, attempt, records[i], isCheckpoint, gatePassed) ==>
              after == start + RecordEvents(action, attempt, records[..i + 1], isCheckpoint, gatePassed)
  {
    RecordEventsStep(start, action, attempt, records, i, isCheckpoint, gatePassed);
    RecordsSoFar(start, after, action, attempt, records, i + 1, isCheckpoint, gatePassed);
  }

  // ---------- what the events of a successful attempt are, one by one ----------

  lemma {:induction false} GateEventsAt(action: string, gates: seq<GateGroup>, i: nat)
    ensures |GateEvents(action, gates)| == |gates|
    ensures i < |gates| ==> GateEvents(action, gates)[i] == GateEvaluated(action, gates[i])
  {
    if gates != [] {
      GateEventsAt(action, gates[..|gates| - 1], i);
    }
  }

  /** One event per artifact, in order. */
  lemma {:induction false} ArtifactEventsAt(action: SemanticAction, attempt: nat, records: seq<ArtifactRecord>,
                                            gatePassed: bool, i: nat)
    ensures var events := RecordEvents(action, attempt, records, false, gatePassed);
            && |events| == |records|
            && (i < |records| ==>
                  events[i] == ArtifactRecorded(action.id, ManifestEntry(records[i], action.id, attempt)))
    decreases |records|
  {
    if records != [] {
      ArtifactEventsAt(action, attempt, records[..|records| - 1], gatePassed, i);
    }
  }

  /** Without a promotion, one event per checkpoint, in order. */
  lemma {:induction false} CheckpointEventsAt(action: SemanticAction, attempt: nat, records: seq<ArtifactRecord>,
                                              gatePassed: bool, i: nat)
    requires action.checkpoint.None? || !action.checkpoint.value.promoteWhenGatesPass || !gatePassed
    ensures var events := RecordEvents(action, attempt, records, true, gatePassed);
            && |events| == |records|
            && (i < |records| ==>
                  events[i] == CheckpointRecorded(action.id, ManifestEntry(records[i], action.id, attempt)))
    decreases |records|
  {
    if records != [] {
      CheckpointEventsAt(action, attempt, records[..|records| - 1], gatePassed, i);
    }
  }

  /** If the action asks for it and its gates passed, each checkpoint is promoted right after it is recorded. */
  lemma {:induction false} PromotionEventsAt(action: SemanticAction, attempt: nat, records: seq<ArtifactRecord>, i: nat)
    requires action.checkpoint.Some? && action.checkpoint.value.promoteWhenGatesPass
    ensures var events := RecordEvents(action, attempt, records, true, true);
            && |events| == 2 * |records|
            && (i < |records| ==>
                  && events[2 * i] == CheckpointRecorded(action.id, ManifestEntry(records[i], action.id, attempt))
                  && events[2 * i + 1] == CheckpointPromoted(action.id, ManifestEntry(records[i], action.id, attempt)))
    decreases |records|
  {
    if records != [] {
      PromotionEventsAt(action, attempt, records[..|records| - 1], i);
    }
  }

  /** The checkpoints saved are those of the result; a promotion action that names one by its uri adds it at the end. */
  lemma SavedMeaning(action: SemanticAction, result: ActionResult)
    ensures var saved := SavedCheckpoints(action, result);
            if action.kind == PromoteCheckpoint && action.promoted.Some? && action.promoted.value.uri != "" then
              && |saved| == |result.checkpoints| + 1 && saved[..|result.checkpoints|] == result.checkpoints
              && saved[|result.checkpoints|] == action.promoted.value
            else saved == result.checkpoints
  {
  }

  lemma Flattened(a: Events, b: Events, c: Events, d: Events, e: Events, f: Events, g: Events)
    ensures (a + b) + (c + (d + e) + (f + g)) == a + b + c + d + e + f + g
  {
  }

  /** Everything that a successful attempt records, in order. */
  lemma AttemptEventsInOrder(action: SemanticAction, attempt: nat, result: ActionResult, gates: seq<GateGroup>,
                             requested: Events, executed: Events)
    requires action.kind.Tui? ==>
               requested == [TuiRequested(action.id)] && executed == [TuiExecuted(action.id, attempt)]
    requires !action.kind.Tui? ==> requested == [] && executed == []
    ensures AttemptEvents(action, attempt, result, gates)
            == requested + [SnapshotRecorded(action.id, attempt, After)]
               + GateEvents(action.id, gates) + RecordEvents(action, attempt, result.artifacts, false, AllTrue(gates))
               + RecordEvents(action, attempt, SavedCheckpoints(action, result), true, AllTrue(gates))
               + executed + [ActionSucceeded(action.id, attempt)]
  {
    Flattened(requested, [SnapshotRecorded(action.id, attempt, After)], GateEvents(action.id, gates),
              RecordEvents(action, attempt, result.artifacts, false, AllTrue(gates)),
              RecordEvents(action, attempt, SavedCheckpoints(action, result), true, AllTrue(gates)),
              executed, [ActionSucceeded(action.id, attempt)]);
  }

  /** The manifest afterwards has what was listed, and nothing but that and entries of the attempt. */
  lemma {:induction false} AddedAllMembers(entries: seq<ManifestEntry>, action: string, attempt: nat,
                                           records: seq<ArtifactRecord>, x: ManifestEntry)
    ensures x in entries ==> x in AddedAll(entries, action, attempt, records)
    ensures x in AddedAll(entries, action, attempt, records) ==>
              x in entries || (x.actionId == action && x.attempt == attempt && x.record in records)
    decreases |records|
  {
    if records != [] {
      var front, last := records[..|records| - 1], records[|records| - 1];
      AddedAllMembers(entries, action, attempt, front, x);
      AddedMembers(AddedAll(entries, action, attempt, front), ManifestEntry(last, action, attempt));
      assert records == front + [last];
    }
  }

  /** And an entry for every record. */
  lemma AddedAllHolds(entries: seq<ManifestEntry>, action: string, attempt: nat,
                                         records: seq<ArtifactRecord>, i: nat)
    requires i < |records|
    ensures exists x :: && x in AddedAll(entries, action, attempt, records) && x.record.uri == records[i].uri
                        && x.record.role == records[i].role && x.actionId == action && x.attempt == attempt
  {
    EveryRecordHeld(entries, action, attempt, records, i);
    HoldsIff(AddedAll(entries, action, attempt, records), ManifestEntry(records[i], action, attempt));
  }

  lemma {:induction false} EveryRecordHeld(entries: seq<ManifestEntry>, action: string, attempt: nat,
                                           records: seq<ArtifactRecord>, i: nat)
    requires i < |records|
    ensures Holds(AddedAll(entries, action, attempt, records), ManifestEntry(records[i], action, attempt))
    decreases |records|
  {
    var front, last := records[..|records| - 1], ManifestEntry(records[|records| - 1], action, attempt);
    var before := AddedAll(entries, action, attempt, front);
    if i < |front| {
      EveryRecordHeld(entries, action, attempt, front, i);
      AddKeepsHolds(before, last, ManifestEntry(records[i], action, attempt));
    } else {
      AddedHolds(before, last);
    }
  }
}
