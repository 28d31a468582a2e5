/** The files of a run directory besides the plan lock, and how they hang together with its ledger. */
module RunDirectory {
  import opened Order
  import opened HashChain
  import opened Types
  import opened Manifests
  import opened RunLedger

  datatype SnapshotKey = SnapshotKey(action: string, attempt: nat, phase: Phase)

  function EventsOf(log: seq<Entry<EventBody<PlanHash, Event>>>): Events {
    seq(|log|, i requires 0 <= i < |log| => log[i].record.body.event)
  }

  /** The attempt has been started. */
  ghost predicate Known(l: Events, action: string, attempt: nat) {
    attempt <= Starts(l, action)
  }

  /** Snapshots are written once, and never for an attempt that has not started. */
  ghost predicate SnapshotsOk(snapshots: seq<SnapshotKey>, l: Events) {
    && NoRepeats(snapshots)
    && forall k {:trigger Known(l, k.action, k.attempt)} :: k in snapshots ==> Known(l, k.action, k.attempt)
  }

  ghost predicate ManifestOk(entries: seq<ManifestEntry>, l: Events) {
    && WellOrdered(entries)
    && forall e: ManifestEntry {:trigger Known(l, e.actionId, e.attempt)} :: e in entries ==>
      Known(l, e.actionId, e.attempt)
  }

  /** What the event records is listed in its manifest. */
  predicate Listed(artifacts: seq<ManifestEntry>, checkpoints: seq<ManifestEntry>, e: Event) {
    && (e.ArtifactRecorded? ==> Holds(artifacts, e.entry))
    && (e.CheckpointRecorded? || e.CheckpointPromoted? ==> Holds(checkpoints, e.entry))
  }

  /** The derived manifests are never behind the ledger. */
  ghost predicate AllListed(artifacts: seq<ManifestEntry>, checkpoints: seq<ManifestEntry>, l: Events) {
    forall i {:trigger Listed(artifacts, checkpoints, l[i])} :: 0 <= i < |l| ==> Listed(artifacts, checkpoints, l[i])
  }

  /** Whatever the ledger announces as an artifact or a checkpoint of an attempt is in its manifest. */
  lemma AnnouncedIsListed(artifacts: seq<ManifestEntry>, checkpoints: seq<ManifestEntry>, l: Events, i: nat)
    requires AllListed(artifacts, checkpoints, l) && i < |l|
    requires l[i].ArtifactRecorded? || l[i].CheckpointRecorded? || l[i].CheckpointPromoted?
    ensures exists x :: && x in (if l[i].ArtifactRecorded? then artifacts else checkpoints)
                        && x.record.uri == l[i].entry.record.uri && x.record.role == l[i].entry.record.role
                        && x.actionId == l[i].entry.actionId && x.attempt == l[i].entry.attempt
  {
    assert Listed(artifacts, checkpoints, l[i]);
    HoldsIff(if l[i].ArtifactRecorded? then artifacts else checkpoints, l[i].entry);
  }

  /** Of the snapshots of one attempt, only these phases exist. */
  ghost predicate OnlyPhases(snapshots: seq<SnapshotKey>, action: string, attempt: nat, phases: set<Phase>) {
    forall k :: k in snapshots && k.action == action && k.attempt == attempt ==> k.phase in phases
  }

  ghost predicate AcceptedAt(l: Events, accepted: set<nat>, i: nat)
    requires i < |l|
  {
    l[i].RunResumed? && SuccessSet(l[..i]) != {} ==> i in accepted
  }

  /** Every resume that had successes to restore follows an accepted rehydration. */
  ghost predicate ResumesAccepted(l: Events, accepted: set<nat>) {
    forall i {:trigger AcceptedAt(l, accepted, i)} :: 0 <= i < |l| ==> AcceptedAt(l, accepted, i)
  }

  lemma NoSnapshotsYet(snapshots: seq<SnapshotKey>, l: Events, action: string, attempt: nat)
    requires SnapshotsOk(snapshots, l) && attempt > Starts(l, action)
    ensures OnlyPhases(snapshots, action, attempt, {})
  {
    forall k | k in snapshots && k.action == action ensures k.attempt != attempt {
      assert Known(l, k.action, k.attempt);
    }
  }

  lemma AddKeepsManifestOk(entries: seq<ManifestEntry>, e: ManifestEntry, l: Events)
    requires ManifestOk(entries, l) && e.attempt == Starts(l, e.actionId)
    ensures ManifestOk(Added(entries, e), l)
  {
    forall i | 0 <= i < |entries| && entries[i].actionId == e.actionId ensures entries[i].attempt <= e.attempt {
      assert entries[i] in entries;
      assert Known(l, entries[i].actionId, entries[i].attempt);
    }
    AddKeepsWellOrdered(entries, e);
    var result := Added(entries, e);
    PermutationMembers(result, if Holds(entries, e) then entries else entries + [e]);
    forall x: ManifestEntry | x in result ensures Known(l, x.actionId, x.attempt) {
      assert x == e || x in entries;
    }
  }

  lemma AddKeepsListed(a: seq<ManifestEntry>, c: seq<ManifestEntry>, moreA: seq<ManifestEntry>,
                       moreC: seq<ManifestEntry>, l: Events, e: ManifestEntry)
    requires AllListed(a, c, l)
    requires moreA == a || moreA == Added(a, e)
    requires moreC == c || moreC == Added(c, e)
    ensures AllListed(moreA, moreC, l)
  {
    forall i | 0 <= i < |l| ensures Listed(moreA, moreC, l[i]) {
      assert Listed(a, c, l[i]);
      if l[i].ArtifactRecorded? {
        AddKeepsHolds(a, e, l[i].entry);
      } else if l[i].CheckpointRecorded? || l[i].CheckpointPromoted? {
        AddKeepsHolds(c, e, l[i].entry);
      }
    }
  }

  /** Appending an event leaves snapshots and manifests about started attempts. */
  lemma FilesStayKnown(snapshots: seq<SnapshotKey>, artifacts: seq<ManifestEntry>, checkpoints: seq<ManifestEntry>,
                       l: Events, e: Event)
    requires SnapshotsOk(snapshots, l) && ManifestOk(artifacts, l) && ManifestOk(checkpoints, l)
    ensures SnapshotsOk(snapshots, l + [e]) && ManifestOk(artifacts, l + [e]) && ManifestOk(checkpoints, l + [e])
  {
    forall a: string, n: nat | Known(l, a, n) ensures Known(l + [e], a, n) {
      RunLedger.Append(l, e);
    }
    forall k | k in snapshots ensures Known(l + [e], k.action, k.attempt) {
      assert Known(l, k.action, k.attempt);
    }
    forall x: ManifestEntry | x in artifacts || x in checkpoints ensures Known(l + [e], x.actionId, x.attempt) {
      assert Known(l, x.actionId, x.attempt);
    }
  }

  lemma AcceptMore(l: Events, accepted: set<nat>, more: set<nat>)
    requires ResumesAccepted(l, accepted) && accepted <= more
    ensures ResumesAccepted(l, more)
  {
    forall i | 0 <= i < |l| ensures AcceptedAt(l, more, i) {
      assert AcceptedAt(l, accepted, i);
    }
  }

  lemma ResumesStep(l: Events, e: Event, accepted: set<nat>)
    requires ResumesAccepted(l, accepted)
    requires e.RunResumed? && SuccessSet(l) != {} ==> |l| in accepted
    ensures ResumesAccepted(l + [e], accepted)
  {
    var longer := l + [e];
    forall i | 0 <= i < |longer| ensures AcceptedAt(longer, accepted, i) {
      if i < |l| {
        assert AcceptedAt(l, accepted, i);
        assert longer[..i] == l[..i];
      } else {
        assert longer[..i] == l;
      }
    }
  }

  /** An action is skipped only in a session whose resume the adapter had accepted. */
  lemma SkipsFollowAcceptedResumes(plan: seq<SemanticAction>, l: Events, accepted: set<nat>, i: nat)
    returns (j: nat, r: nat)
    requires Legal(plan, l) && ResumesAccepted(l, accepted)
    requires i < |l| && l[i].ActionSkipped?
    ensures j < r < i && l[j].ActionSucceeded? && l[j].action == l[i].action
    ensures l[r].RunResumed? && r in accepted
    ensures forall k :: r < k < i ==> !l[k].RunStarted? && !l[k].RunResumed? && !l[k].RunResumeRejected?
  {
    j, r := SkipsAreOldSuccesses(plan, l, i);
    var front := l[..r];
    EventSucceeds(front, j);
    assert AcceptedAt(l, accepted, r);
    assert front[j] == l[j];
    assert l[j].action in SuccessSet(front);
  }
}
