/**
 Decisions about attempts and what the decision ledger says about named refs: the last promotion of
 every ref, the predecessor links between promotions, and the manifest entry each promotion produces.
 */
module DecisionLedger {
  import opened Wrappers
  import opened HashChain
  import opened Types
  import opened AttemptRecords

  datatype Verdict = Promote | Reject

  /** What a promotion replaces: the previous holder of the ref. */
  datatype Target = Target(attemptId: string, attemptDigest: AttemptDigest, planHash: PlanHash,
                           decisionHash: Digest<Decision>)

  datatype Decision = Decision(
    timestamp: string, attemptId: string, attemptDigest: AttemptDigest, planHash: PlanHash,
    actor: string, verdict: Verdict, reason: string, refName: Option<string>, predecessor: Option<Target>)

  type Ledger = seq<Entry<Decision>>

  /** The fields of a manifest entry that the consistency check compares with the ledger. */
  datatype Pin = Pin(target: Target, predecessor: Option<Target>)

  datatype RefEntry = RefEntry(pin: Pin, objectDigest: AttemptDigest, updatedAt: string)

  type Refs = map<string, RefEntry>

  predicate IsPromotion(e: Entry<Decision>) {
    e.record.body.verdict.Promote? && e.record.body.refName.Some?
  }

  predicate Promotes(e: Entry<Decision>, name: string) {
    e.record.body.verdict.Promote? && e.record.body.refName == Some(name)
  }

  function TargetOf(e: Entry<Decision>): Target {
    var d := e.record.body;
    Target(d.attemptId, d.attemptDigest, d.planHash, e.hash)
  }

  function RefEntryOf(e: Entry<Decision>): RefEntry {
    RefEntry(Pin(TargetOf(e), e.record.body.predecessor), e.record.body.attemptDigest, e.record.body.timestamp)
  }

  /** The authoritative refs: the last promotion of each name. */
  function Fold(ledger: Ledger): Refs {
    if ledger == [] then map[]
    else
      var e := ledger[|ledger| - 1];
      var before := Fold(ledger[..|ledger| - 1]);
      if IsPromotion(e) then before[e.record.body.refName.value := RefEntryOf(e)] else before
  }

  lemma FoldAppend(ledger: Ledger, e: Entry<Decision>)
    ensures Fold(ledger + [e]) ==
            if IsPromotion(e) then Fold(ledger)[e.record.body.refName.value := RefEntryOf(e)] else Fold(ledger)
  {
    assert (ledger + [e])[..|ledger|] == ledger;
  }

  /** The promotion of `name` at `i` is the last one before position `n`. */
  ghost predicate LastPromotionAt(ledger: Ledger, name: string, n: nat, i: nat) {
    && i < n <= |ledger|
    && Promotes(ledger[i], name)
    && forall j :: i < j < n ==> !Promotes(ledger[j], name)
  }

  /** What a new promotion of `name` after `ledger` records as its predecessor. */
  function LatestTarget(ledger: Ledger, name: string): Option<Target> {
    if name in Fold(ledger) then Some(Fold(ledger)[name].pin.target) else None
  }

  /** The fold is "last promotion per ref": the last promotion of a name decides its entry ... */
  lemma {:induction false} LastPromotionIsFolded(ledger: Ledger, name: string, i: nat)
    requires LastPromotionAt(ledger, name, |ledger|, i)
    ensures name in Fold(ledger) && Fold(ledger)[name] == RefEntryOf(ledger[i])
    decreases |ledger|
  {
    if i < |ledger| - 1 {
      var front := ledger[..|ledger| - 1];
      assert !Promotes(ledger[|ledger| - 1], name);
      assert LastPromotionAt(front, name, |front|, i);
      LastPromotionIsFolded(front, name, i);
    }
  }

  /** ... and every entry comes from such a promotion. */
  lemma {:induction false} FoldedIsLastPromotion(ledger: Ledger, name: string) returns (i: nat)
    requires name in Fold(ledger)
    ensures LastPromotionAt(ledger, name, |ledger|, i)
  {
    if Promotes(ledger[|ledger| - 1], name) {
      i := |ledger| - 1;
    } else {
      var front := ledger[..|ledger| - 1];
      i := FoldedIsLastPromotion(front, name);
    }
  }

  /** The reverse search of the program finds the predecessor that the fold defines. */
  method FindLatestTarget(ledger: Ledger, name: Option<string>) returns (r: Option<Target>)
    ensures name.None? ==> r == None
    ensures name.Some? ==> r == LatestTarget(ledger, name.value)
  {
    if name.None? {
      return None;
    }
    var i := |ledger|;
    while i > 0
      invariant 0 <= i <= |ledger|
      invariant forall j :: i <= j < |ledger| ==> !Promotes(ledger[j], name.value)
    {
      i := i - 1;
      if Promotes(ledger[i], name.value) {
        LastPromotionIsFolded(ledger, name.value, i);
        return Some(TargetOf(ledger[i]));
      }
    }
    if name.value in Fold(ledger) {
      ghost var last := FoldedIsLastPromotion(ledger, name.value);
    }
    return None;
  }

  // ---------- predecessor chains ----------

  /** Every entry names as predecessor what the ledger before it held for its ref. */
  ghost predicate Linked(ledger: Ledger) {
    forall i :: 0 <= i < |ledger| ==> LinkedAt(ledger, i)
  }

  ghost predicate LinkedAt(ledger: Ledger, i: nat)
    requires i < |ledger|
  {
    var d := ledger[i].record.body;
    && d.verdict.Promote? == d.refName.Some?
    && d.predecessor == if d.refName.Some? then LatestTarget(ledger[..i], d.refName.value) else None
  }

  /** Positions of the promotions of `name` before `n`, newest first. */
  ghost function PromotionsDown(ledger: Ledger, name: string, n: nat): (r: seq<nat>)
    requires n <= |ledger|
    ensures forall k :: 0 <= k < |r| ==> r[k] < n
  {
    if n == 0 then []
    else if Promotes(ledger[n - 1], name) then [n - 1] + PromotionsDown(ledger, name, n - 1)
    else PromotionsDown(ledger, name, n - 1)
  }

  lemma {:induction false} PromotionsDownFacts(ledger: Ledger, name: string, n: nat)
    requires n <= |ledger|
    ensures forall k :: 0 <= k < |PromotionsDown(ledger, name, n)| ==>
                          Promotes(ledger[PromotionsDown(ledger, name, n)[k]], name)
    ensures forall k, l :: 0 <= k < l < |PromotionsDown(ledger, name, n)| ==>
                             PromotionsDown(ledger, name, n)[k] > PromotionsDown(ledger, name, n)[l]
    ensures forall i :: 0 <= i < n && Promotes(ledger[i], name) ==> i in PromotionsDown(ledger, name, n)
  {
    if n > 0 {
      PromotionsDownFacts(ledger, name, n - 1);
    }
  }

  /**
   `visits` is the walk that starts at `from` and follows predecessors: each visited entry carries the
   decision hash of the link that led to it, and the walk stops at an entry without predecessor.
   */
  ghost predicate Follows(ledger: Ledger, from: Option<Target>, visits: seq<nat>)
    decreases |visits|
  {
    if visits == [] then from.None?
    else
      && from.Some?
      && visits[0] < |ledger|
      && TargetOf(ledger[visits[0]]) == from.value
      && Follows(ledger, ledger[visits[0]].record.body.predecessor, visits[1..])
  }

  lemma {:induction false} LastOfPrefix(ledger: Ledger, name: string, n: nat)
    requires n <= |ledger|
    ensures PromotionsDown(ledger, name, n) == [] <==> LatestTarget(ledger[..n], name).None?
    ensures PromotionsDown(ledger, name, n) != [] ==>
              LatestTarget(ledger[..n], name) == Some(TargetOf(ledger[PromotionsDown(ledger, name, n)[0]]))
  {
    if n > 0 {
      assert ledger[..n][..n - 1] == ledger[..n - 1];
      LastOfPrefix(ledger, name, n - 1);
    }
  }

  lemma {:induction false} PromotionsBelow(ledger: Ledger, name: string, n: nat)
    requires n <= |ledger| && PromotionsDown(ledger, name, n) != []
    ensures var i := PromotionsDown(ledger, name, n)[0];
            i < n && PromotionsDown(ledger, name, n)[1..] == PromotionsDown(ledger, name, i)
  {
    if n > 0 && !Promotes(ledger[n - 1], name) {
      PromotionsBelow(ledger, name, n - 1);
    }
  }

  /**
   Following predecessors from what the ledger holds for a ref visits every promotion of that ref
   exactly once, newest to oldest, and ends at none.
   */
  lemma {:induction false} PredecessorsVisitAllPromotions(ledger: Ledger, name: string, n: nat)
    requires Linked(ledger) && n <= |ledger|
    ensures Follows(ledger, LatestTarget(ledger[..n], name), PromotionsDown(ledger, name, n))
    decreases n
  {
    LastOfPrefix(ledger, name, n);
    var visits := PromotionsDown(ledger, name, n);
    if visits != [] {
      var i := visits[0];
      PromotionsDownFacts(ledger, name, n);
      PromotionsBelow(ledger, name, n);
      assert LinkedAt(ledger, i);
      PredecessorsVisitAllPromotions(ledger, name, i);
    }
  }

  /** The walk is forced: decision hashes are unique, so no other positions fit. */
  lemma {:induction false} FollowsIsDeterministic(ledger: Ledger, from: Option<Target>, u: seq<nat>, v: seq<nat>)
    requires Verified(ledger)
    requires Follows(ledger, from, u) && Follows(ledger, from, v)
    ensures u == v
    decreases |u|
  {
    if u != [] {
      HashesAreDistinct(ledger, u[0], v[0]);
      FollowsIsDeterministic(ledger, ledger[u[0]].record.body.predecessor, u[1..], v[1..]);
      assert u == [u[0]] + u[1..] && v == [v[0]] + v[1..];
    }
  }
}
