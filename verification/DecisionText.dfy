/**
 The decision ledger as text: what a caller's reason and a raised error do to the file that records them.
 The hexadecimal texts of digests are a parameter.
 */
module DecisionText {
  import opened Wrappers
  import opened HashChain
  import opened Json
  import opened Strings
  import opened CanonicalJson
  import opened JsonReader
  import opened RecordText
  import opened Types
  import opened AttemptRecords
  import opened DecisionLedger
  import opened StoreOperations
  import opened StoreProtocol
  import StoreGuarantees

  /** How numbers are written and read, and how digests are written. */
  datatype Texts = Texts(
    number: real -> string,
    value: string -> real,
    attempt: AttemptDigest -> string,
    plan: PlanHash -> string,
    decision: Digest<Decision> -> string)

  ghost predicate TextsOk(t: Texts, floats: iset<real>) {
    && Numerals(t.number, t.value, floats)
    && (forall d {:trigger t.attempt(d)} :: Plain(t.attempt(d)))
    && (forall h {:trigger t.plan(h)} :: Plain(t.plan(h)))
    && (forall d {:trigger t.decision(d)} :: Plain(t.decision(d)))
  }

  // ---------- decision records ----------

  function TextOrNull(s: Option<string>): Json {
    if s.Some? then Str(s.value) else Null
  }

  function TargetDocument(target: Target, t: Texts): Json {
    Map(map["attempt_id" := Str(target.attemptId), "attempt_digest" := Str(t.attempt(target.attemptDigest)),
            "plan_hash" := Str(t.plan(target.planHash)), "decision_hash" := Str(t.decision(target.decisionHash))])
  }

  function HashOrNull(d: Option<Digest<Decision>>, t: Texts): Json {
    if d.Some? then Str(t.decision(d.value)) else Null
  }

  function StampFields(e: Entry<Decision>): Fields {
    map["schema_version" := Str("1"), "sequence" := Num(e.record.sequence as real),
        "timestamp" := Str(e.record.body.timestamp)]
  }

  function SubjectFields(d: Decision, t: Texts): Fields {
    map["attempt_id" := Str(d.attemptId), "attempt_digest" := Str(t.attempt(d.attemptDigest)),
        "plan_hash" := Str(t.plan(d.planHash))]
  }

  function VerdictFields(d: Decision): Fields {
    map["actor" := Str(d.actor), "decision" := Str(if d.verdict.Promote? then "promote" else "reject"),
        "ref_name" := TextOrNull(d.refName)]
  }

  function LinkFields(e: Entry<Decision>, t: Texts): Fields {
    map["predecessor" := if e.record.body.predecessor.Some? then TargetDocument(e.record.body.predecessor.value, t)
                         else Null,
        "previous_decision_hash" := HashOrNull(e.record.previous, t), "decision_hash" := Str(t.decision(e.hash))]
  }

  /** All fields of a decision but its reason. */
  function DecisionFrame(e: Entry<Decision>, t: Texts): Fields {
    StampFields(e) + SubjectFields(e.record.body, t) + VerdictFields(e.record.body) + LinkFields(e, t)
  }

  function DecisionDocument(e: Entry<Decision>, t: Texts): Json {
    Map(DecisionFrame(e, t)["reason" := Str(e.record.body.reason)])
  }

  function Documents(ledger: Ledger, t: Texts): seq<Json> {
    seq(|ledger|, i requires 0 <= i < |ledger| => DecisionDocument(ledger[i], t))
  }

  // ---------- what readers of the file find ----------

  predicate Has(document: Json, key: string, value: Json) {
    document.Map? && key in document.fields && document.fields[key] == value
  }

  /** What is decided about which attempt, and by whom. */
  predicate TellsDecision(document: Json, d: Decision, t: Texts) {
    && Has(document, "attempt_id", Str(d.attemptId)) && Has(document, "attempt_digest", Str(t.attempt(d.attemptDigest)))
    && Has(document, "plan_hash", Str(t.plan(d.planHash))) && Has(document, "timestamp", Str(d.timestamp))
    && Has(document, "actor", Str(d.actor)) && Has(document, "reason", Str(d.reason))
    && Has(document, "decision", Str(if d.verdict.Promote? then "promote" else "reject"))
    && Has(document, "ref_name", if d.refName.Some? then Str(d.refName.value) else Null)
  }

  /** Where it stands in the ledger. */
  predicate TellsPosition(document: Json, e: Entry<Decision>, t: Texts) {
    && Has(document, "schema_version", Str("1")) && Has(document, "sequence", Num(e.record.sequence as real))
    && Has(document, "decision_hash", Str(t.decision(e.hash)))
    && Has(document, "previous_decision_hash",
           if e.record.previous.Some? then Str(t.decision(e.record.previous.value)) else Null)
  }

  /** The decision that it replaces, if any. */
  predicate TellsPredecessor(document: Json, predecessor: Option<Target>, t: Texts) {
    if predecessor.None? then Has(document, "predecessor", Null)
    else
      && document.Map? && "predecessor" in document.fields
      && var target := document.fields["predecessor"];
         && Has(target, "attempt_id", Str(predecessor.value.attemptId))
         && Has(target, "attempt_digest", Str(t.attempt(predecessor.value.attemptDigest)))
         && Has(target, "plan_hash", Str(t.plan(predecessor.value.planHash)))
         && Has(target, "decision_hash", Str(t.decision(predecessor.value.decisionHash)))
  }

  lemma PredecessorTold(target: Target, t: Texts)
    ensures Has(TargetDocument(target, t), "attempt_id", Str(target.attemptId))
    ensures Has(TargetDocument(target, t), "attempt_digest", Str(t.attempt(target.attemptDigest)))
    ensures Has(TargetDocument(target, t), "plan_hash", Str(t.plan(target.planHash)))
    ensures Has(TargetDocument(target, t), "decision_hash", Str(t.decision(target.decisionHash)))
  {
  }

  lemma StampKeys(e: Entry<Decision>)
    ensures StampFields(e).Keys == {"schema_version", "sequence", "timestamp"}
    ensures Has(Map(StampFields(e)), "schema_version", Str("1"))
    ensures Has(Map(StampFields(e)), "sequence", Num(e.record.sequence as real))
    ensures Has(Map(StampFields(e)), "timestamp", Str(e.record.body.timestamp))
  {
  }

  lemma SubjectKeys(d: Decision, t: Texts)
    ensures SubjectFields(d, t).Keys == {"attempt_id", "attempt_digest", "plan_hash"}
    ensures Has(Map(SubjectFields(d, t)), "attempt_id", Str(d.attemptId))
    ensures Has(Map(SubjectFields(d, t)), "attempt_digest", Str(t.attempt(d.attemptDigest)))
    ensures Has(Map(SubjectFields(d, t)), "plan_hash", Str(t.plan(d.planHash)))
  {
  }

  lemma VerdictKeys(d: Decision)
    ensures VerdictFields(d).Keys == {"actor", "decision", "ref_name"}
    ensures Has(Map(VerdictFields(d)), "actor", Str(d.actor))
    ensures Has(Map(VerdictFields(d)), "decision", Str(if d.verdict.Promote? then "promote" else "reject"))
    ensures Has(Map(VerdictFields(d)), "ref_name", if d.refName.Some? then Str(d.refName.value) else Null)
  {
  }

  lemma LinkKeys(e: Entry<Decision>, t: Texts)
    ensures LinkFields(e, t).Keys == {"predecessor", "previous_decision_hash", "decision_hash"}
    ensures Has(Map(LinkFields(e, t)), "predecessor", if e.record.body.predecessor.Some?
                                                      then TargetDocument(e.record.body.predecessor.value, t) else Null)
    ensures Has(Map(LinkFields(e, t)), "previous_decision_hash",
                if e.record.previous.Some? then Str(t.decision(e.record.previous.value)) else Null)
    ensures Has(Map(LinkFields(e, t)), "decision_hash", Str(t.decision(e.hash)))
  {
  }

  /** In a document put together of parts without a key in common, each part is found. */
  lemma PartsFound(a: Fields, b: Fields, c: Fields, d: Fields, reason: Json, key: string, value: Json)
    requires a.Keys !! b.Keys !! c.Keys !! d.Keys
    requires "reason" !in a && "reason" !in b && "reason" !in c && "reason" !in d
    requires Has(Map(a), key, value) || Has(Map(b), key, value) || Has(Map(c), key, value) || Has(Map(d), key, value)
             || (key == "reason" && value == reason)
    ensures Has(Map((a + b + c + d)["reason" := reason]), key, value)
  {
  }

  lemma StampApart(e: Entry<Decision>, t: Texts)
    ensures StampFields(e).Keys !! SubjectFields(e.record.body, t).Keys
    ensures StampFields(e).Keys !! VerdictFields(e.record.body).Keys && StampFields(e).Keys !! LinkFields(e, t).Keys
  {
    StampKeys(e);
    SubjectKeys(e.record.body, t);
    VerdictKeys(e.record.body);
    LinkKeys(e, t);
  }

  lemma SubjectApart(e: Entry<Decision>, t: Texts)
    ensures SubjectFields(e.record.body, t).Keys !! VerdictFields(e.record.body).Keys
    ensures SubjectFields(e.record.body, t).Keys !! LinkFields(e, t).Keys
    ensures VerdictFields(e.record.body).Keys !! LinkFields(e, t).Keys
  {
    SubjectKeys(e.record.body, t);
    VerdictKeys(e.record.body);
    LinkKeys(e, t);
  }

  lemma ReasonApart(e: Entry<Decision>, t: Texts)
    ensures "reason" !in StampFields(e) && "reason" !in SubjectFields(e.record.body, t)
    ensures "reason" !in VerdictFields(e.record.body) && "reason" !in LinkFields(e, t)
  {
    StampKeys(e);
    SubjectKeys(e.record.body, t);
    VerdictKeys(e.record.body);
    LinkKeys(e, t);
  }

  lemma Found(e: Entry<Decision>, t: Texts, key: string, value: Json)
    requires || Has(Map(StampFields(e)), key, value) || Has(Map(SubjectFields(e.record.body, t)), key, value)
             || Has(Map(VerdictFields(e.record.body)), key, value) || Has(Map(LinkFields(e, t)), key, value)
             || (key == "reason" && value == Str(e.record.body.reason))
    ensures Has(DecisionDocument(e, t), key, value)
  {
    StampApart(e, t);
    SubjectApart(e, t);
    ReasonApart(e, t);
    PartsFound(StampFields(e), SubjectFields(e.record.body, t), VerdictFields(e.record.body), LinkFields(e, t),
               Str(e.record.body.reason), key, value);
  }

  /** Every part of a decision is found under its key. */
  lemma DocumentTells(e: Entry<Decision>, t: Texts)
    ensures TellsDecision(DecisionDocument(e, t), e.record.body, t) && TellsPosition(DecisionDocument(e, t), e, t)
    ensures TellsPredecessor(DecisionDocument(e, t), e.record.body.predecessor, t)
  {
    DecisionTold(e, t);
    PositionTold(e, t);
    LinkKeys(e, t);
    var predecessor := e.record.body.predecessor;
    Found(e, t, "predecessor", if predecessor.Some? then TargetDocument(predecessor.value, t) else Null);
    if predecessor.Some? {
      PredecessorTold(predecessor.value, t);
    }
  }

  lemma DecisionTold(e: Entry<Decision>, t: Texts)
    ensures TellsDecision(DecisionDocument(e, t), e.record.body, t)
  {
    var d := e.record.body;
    StampKeys(e);
    SubjectKeys(d, t);
    VerdictKeys(d);
    Found(e, t, "attempt_id", Str(d.attemptId));
    Found(e, t, "attempt_digest", Str(t.attempt(d.attemptDigest)));
    Found(e, t, "plan_hash", Str(t.plan(d.planHash)));
    Found(e, t, "timestamp", Str(d.timestamp));
    Found(e, t, "actor", Str(d.actor));
    Found(e, t, "reason", Str(d.reason));
    Found(e, t, "decision", Str(if d.verdict.Promote? then "promote" else "reject"));
    Found(e, t, "ref_name", if d.refName.Some? then Str(d.refName.value) else Null);
  }

  lemma PositionTold(e: Entry<Decision>, t: Texts)
    ensures TellsPosition(DecisionDocument(e, t), e, t)
  {
    StampKeys(e);
    LinkKeys(e, t);
    Found(e, t, "schema_version", Str("1"));
    Found(e, t, "sequence", Num(e.record.sequence as real));
    Found(e, t, "decision_hash", Str(t.decision(e.hash)));
    Found(e, t, "previous_decision_hash",
          if e.record.previous.Some? then Str(t.decision(e.record.previous.value)) else Null);
  }

  /** The sequence numbers are among the numbers that can be written. */
  ghost predicate Numbered(ledger: Ledger, floats: iset<real>) {
    forall i :: 0 <= i < |ledger| ==> ledger[i].record.sequence as real in floats
  }

  /** Everything in a decision but its reason is free of separators. */
  predicate PlainBut(d: Decision) {
    && Plain(d.timestamp) && Plain(d.attemptId) && Plain(d.actor)
    && (d.refName.Some? ==> Plain(d.refName.value))
    && (d.predecessor.Some? ==> Plain(d.predecessor.value.attemptId))
  }

  ghost predicate FreeFields(m: Fields) {
    forall k :: k in m ==> Plain(k) && SeparatorFree(m[k])
  }

  ghost predicate OverFields(m: Fields, floats: iset<real>) {
    forall k :: k in m ==> Over(m[k], floats)
  }

  lemma UnitedFields(m: Fields, n: Fields, floats: iset<real>)
    ensures FreeFields(m) && FreeFields(n) ==> FreeFields(m + n)
    ensures OverFields(m, floats) && OverFields(n, floats) ==> OverFields(m + n, floats)
  {
  }

  lemma FreeField(m: Fields, key: string, value: Json)
    requires FreeFields(m) && Plain(key)
    ensures FreeFields(m[key := value]) <==> SeparatorFree(value)
  {
    if FreeFields(m[key := value]) {
      assert m[key := value][key] == value;
    }
  }

  lemma ThreeFields(a: string, x: Json, b: string, y: Json, c: string, z: Json)
    requires Plain(a) && Plain(b) && Plain(c) && SeparatorFree(x) && SeparatorFree(y) && SeparatorFree(z)
    ensures FreeFields(map[a := x, b := y, c := z])
  {
  }

  lemma TargetIsFree(target: Target, t: Texts, floats: iset<real>)
    requires TextsOk(t, floats) && Plain(target.attemptId)
    ensures SeparatorFree(TargetDocument(target, t))
  {
  }

  lemma StampIsFree(e: Entry<Decision>)
    requires Plain(e.record.body.timestamp)
    ensures FreeFields(StampFields(e))
  {
    ThreeFields("schema_version", Str("1"), "sequence", Num(e.record.sequence as real),
                "timestamp", Str(e.record.body.timestamp));
  }

  lemma SubjectIsFree(d: Decision, t: Texts, floats: iset<real>)
    requires TextsOk(t, floats) && Plain(d.attemptId)
    ensures FreeFields(SubjectFields(d, t))
  {
    ThreeFields("attempt_id", Str(d.attemptId), "attempt_digest", Str(t.attempt(d.attemptDigest)),
                "plan_hash", Str(t.plan(d.planHash)));
  }

  lemma VerdictIsFree(d: Decision)
    requires PlainBut(d)
    ensures FreeFields(VerdictFields(d))
  {
    ThreeFields("actor", Str(d.actor), "decision", Str(if d.verdict.Promote? then "promote" else "reject"),
                "ref_name", TextOrNull(d.refName));
  }

  lemma LinkIsFree(e: Entry<Decision>, t: Texts, floats: iset<real>)
    requires TextsOk(t, floats) && PlainBut(e.record.body)
    ensures FreeFields(LinkFields(e, t))
  {
    var target := e.record.body.predecessor;
    if target.Some? {
      TargetIsFree(target.value, t, floats);
    }
    ThreeFields("predecessor", if target.Some? then TargetDocument(target.value, t) else Null,
                "previous_decision_hash", HashOrNull(e.record.previous, t), "decision_hash", Str(t.decision(e.hash)));
  }

  lemma FrameIsFree(e: Entry<Decision>, t: Texts, floats: iset<real>)
    requires TextsOk(t, floats) && PlainBut(e.record.body)
    ensures FreeFields(DecisionFrame(e, t))
  {
    var d := e.record.body;
    StampIsFree(e);
    SubjectIsFree(d, t, floats);
    VerdictIsFree(d);
    LinkIsFree(e, t, floats);
    UnitedFields(StampFields(e), SubjectFields(d, t), floats);
    UnitedFields(StampFields(e) + SubjectFields(d, t), VerdictFields(d), floats);
    UnitedFields(StampFields(e) + SubjectFields(d, t) + VerdictFields(d), LinkFields(e, t), floats);
  }

  lemma StampIsOver(e: Entry<Decision>, floats: iset<real>)
    requires e.record.sequence as real in floats
    ensures OverFields(StampFields(e), floats)
  {
  }

  lemma TextsAreOver(d: Decision, t: Texts, floats: iset<real>)
    ensures OverFields(SubjectFields(d, t), floats) && OverFields(VerdictFields(d), floats)
  {
  }

  lemma LinkIsOver(e: Entry<Decision>, t: Texts, floats: iset<real>)
    ensures OverFields(LinkFields(e, t), floats)
  {
    if e.record.body.predecessor.Some? {
      TargetIsOver(e.record.body.predecessor.value, t, floats);
    }
  }

  lemma TargetIsOver(target: Target, t: Texts, floats: iset<real>)
    ensures Over(TargetDocument(target, t), floats)
  {
  }

  lemma FrameIsOver(e: Entry<Decision>, t: Texts, floats: iset<real>)
    requires e.record.sequence as real in floats
    ensures OverFields(DecisionFrame(e, t), floats)
  {
    var d := e.record.body;
    StampIsOver(e, floats);
    TextsAreOver(d, t, floats);
    LinkIsOver(e, t, floats);
    UnitedFields(StampFields(e), SubjectFields(d, t), floats);
    UnitedFields(StampFields(e) + SubjectFields(d, t), VerdictFields(d), floats);
    UnitedFields(StampFields(e) + SubjectFields(d, t) + VerdictFields(d), LinkFields(e, t), floats);
  }

  /** Of the texts that a caller hands over, only the reason can break the line of a decision. */
  lemma DecisionFreeIff(e: Entry<Decision>, t: Texts, floats: iset<real>)
    requires TextsOk(t, floats) && PlainBut(e.record.body)
    ensures SeparatorFree(DecisionDocument(e, t)) <==> Plain(e.record.body.reason)
  {
    FrameIsFree(e, t, floats);
    FreeField(DecisionFrame(e, t), "reason", Str(e.record.body.reason));
  }

  ghost predicate PlainLedger(ledger: Ledger) {
    forall i :: 0 <= i < |ledger| ==> PlainBut(ledger[i].record.body)
  }

  /** No recorded reason has a separator. */
  ghost predicate PlainReasons(ledger: Ledger) {
    forall i :: 0 <= i < |ledger| ==> Plain(ledger[i].record.body.reason)
  }

  lemma DocumentsAreRecords(ledger: Ledger, t: Texts, floats: iset<real>)
    requires Numbered(ledger, floats)
    ensures AreRecords(Documents(ledger, t), floats)
  {
    forall i | 0 <= i < |ledger| ensures Over(DecisionDocument(ledger[i], t), floats) {
      FrameIsOver(ledger[i], t, floats);
    }
  }

  /** The decision file reads back exactly if no recorded reason has a separator. */
  lemma LedgerReadsBackIff(ledger: Ledger, t: Texts, floats: iset<real>)
    requires TextsOk(t, floats) && Numbered(ledger, floats) && PlainLedger(ledger)
    ensures ReadRecords(FileOf(Documents(ledger, t), t.number), t.value)
            == if PlainReasons(ledger) then Some(Documents(ledger, t)) else None
  {
    var documents := Documents(ledger, t);
    DocumentsAreRecords(ledger, t, floats);
    forall i | 0 <= i < |ledger| ensures SeparatorFree(documents[i]) <==> Plain(ledger[i].record.body.reason) {
      DecisionFreeIff(ledger[i], t, floats);
    }
    FileReadsBackIff(documents, t.number, t.value, floats);
  }

  // ---------- what the store writes ----------

  lemma SafeIsPlain(s: string)
    requires SafeComponent(s).Ok?
    ensures Plain(SafeComponent(s).value)
  {
    var n := SafeComponent(s).value;
    forall i | 0 <= i < |n| ensures !IsSeparator(n[i]) {
      assert IsAlphanumeric(n[i]) || n[i] in "_.-";
    }
  }

  /** What a checked request and its record bring into a decision, the reason apart, is free of separators. */
  predicate PlainPending(p: Pending) {
    && Plain(p.record.attempt.attemptId) && Plain(p.checked.actor)
    && (p.checked.refName.Some? ==> Plain(p.checked.refName.value))
  }

  lemma CheckedIsPlain(r: AttemptRecord, q: Request)
    requires CheckRequest(r, q).Ok?
    ensures var c := CheckRequest(r, q).value;
            Plain(c.actor) && (c.refName.Some? ==> Plain(c.refName.value)) && c.reason == Strip(q.reason)
  {
    assert Plain("agent") && Plain("engineer");
    if CheckRequest(r, q).value.refName.Some? {
      SafeIsPlain(q.refName.value);
    }
  }

  lemma LoadedIsPlain(f: Files, id: string)
    requires SafeComponent(id).Ok? && Load(f, SafeComponent(id).value, true).Ok?
    ensures Plain(Load(f, SafeComponent(id).value, true).value.attempt.attemptId)
  {
    SafeIsPlain(id);
  }

  lemma TargetIsPlain(ledger: Ledger, name: string)
    requires PlainLedger(ledger) && LatestTarget(ledger, name).Some?
    ensures Plain(LatestTarget(ledger, name).value.attemptId)
  {
    var i := FoldedIsLastPromotion(ledger, name);
    LastPromotionIsFolded(ledger, name, i);
  }

  lemma AppendKeepsPlain(f: Files, p: Pending, now: string)
    requires PlainLedger(f.decisions) && PlainPending(p) && Plain(now) && Append(f, p.record, p.checked, now).Ok?
    ensures var g := Append(f, p.record, p.checked, now).value;
            && PlainLedger(g.decisions) && |g.decisions| == |f.decisions| + 1
            && g.decisions[..|f.decisions|] == f.decisions
            && g.decisions[|f.decisions|].record.body.reason == p.checked.reason
  {
    if p.checked.refName.Some? && LatestTarget(f.decisions, p.checked.refName.value).Some? {
      TargetIsPlain(f.decisions, p.checked.refName.value);
    }
  }

  /**
   A decision on a readable ledger leaves it readable exactly if the reason that its caller gives, stripped
   of blanks, has none of the three separators.  Otherwise no later reader gets past its line.
   */
  lemma RequestReadsBackIff(f: Files, q: Request, now: string, t: Texts, floats: iset<real>)
    requires TextsOk(t, floats) && Plain(now) && PlainLedger(f.decisions) && PlainReasons(f.decisions)
    requires CheckDecision(f, q).Ok?
    requires var (record, c) := CheckDecision(f, q).value;
             Append(f, record, c, now).Ok? && Numbered(Append(f, record, c, now).value.decisions, floats)
    ensures var (record, c) := CheckDecision(f, q).value;
            var ledger := Append(f, record, c, now).value.decisions;
            ReadRecords(FileOf(Documents(ledger, t), t.number), t.value)
            == if Plain(Strip(q.reason)) then Some(Documents(ledger, t)) else None
  {
    var (record, c) := CheckDecision(f, q).value;
    var ledger := Append(f, record, c, now).value.decisions;
    LoadedIsPlain(f, q.attemptId);
    CheckedIsPlain(record, q);
    AppendKeepsPlain(f, Pending(record, c), now);
    LedgerReadsBackIff(ledger, t, floats);
    forall i | 0 <= i < |f.decisions| ensures ledger[i] == f.decisions[i] {
      assert ledger[..|f.decisions|][i] == ledger[i];
    }
  }

  lemma StripKeeps(s: string)
    requires s != [] && !IsSpace(s[0]) && !IsSpace(s[|s| - 1])
    ensures Strip(s) == s
  {
  }

  /** A request that passes every check of its fields and breaks the file. */
  lemma SeparatorReasonIsAccepted(r: AttemptRecord, id: string)
    ensures var q := Request(id, "engineer", "reject", "a\U{2028}b", None);
            && CheckRequest(r, q) == Ok(Checked("engineer", Reject, "a\U{2028}b", None))
            && !Plain(Strip(q.reason))
  {
    StripKeeps("engineer");
    StripKeeps("reject");
    StripKeeps("a\U{2028}b");
    assert IsSeparator("a\U{2028}b"[1]);
  }

  // ---------- over runs of the store ----------

  ghost predicate PlainStore(s: System) {
    PlainLedger(s.files.decisions) && forall pid :: pid in s.deciders ==> PlainPending(s.deciders[pid])
  }

  /** The clock writes no separators. */
  ghost predicate PlainClock(steps: seq<Step>) {
    forall k :: 0 <= k < |steps| && steps[k].AppendStep? ==> Plain(steps[k].now)
  }

  lemma StepKeepsPlain(s: System, t: System, step: Step)
    requires Next(s, t, step) && PlainStore(s) && (step.AppendStep? ==> Plain(step.now))
    ensures PlainStore(t)
  {
    if step.LoadStep? {
      var id := SafeComponent(step.request.attemptId).value;
      LoadedIsPlain(s.files, step.request.attemptId);
      CheckedIsPlain(Load(s.files, id, true).value, step.request);
    } else if step.AppendStep? {
      if Append(s.files, s.deciders[step.pid].record, s.deciders[step.pid].checked, step.now).Ok? {
        AppendKeepsPlain(s.files, s.deciders[step.pid], step.now);
      }
    } else {
      StepWrites(s, t, step);
    }
  }

  lemma {:induction false} RunKeepsPlain(states: seq<System>, steps: seq<Step>, j: nat)
    requires IsRun(states, steps) && PlainClock(steps) && j < |states|
    ensures PlainStore(states[j])
    decreases j
  {
    if j > 0 {
      RunKeepsPlain(states, steps, j - 1);
      assert Takes(states, steps, j - 1);
      StepKeepsPlain(states[j - 1], states[j], steps[j - 1]);
    }
  }

  /** Over any run of the store its decision file reads back exactly if no recorded reason has a separator. */
  lemma DecisionFileReadsBackIff(states: seq<System>, steps: seq<Step>, j: nat, t: Texts, floats: iset<real>)
    requires IsRun(states, steps) && PlainClock(steps) && j < |states|
    requires TextsOk(t, floats) && Numbered(states[j].files.decisions, floats)
    ensures var ledger := states[j].files.decisions;
            ReadRecords(FileOf(Documents(ledger, t), t.number), t.value)
            == if PlainReasons(ledger) then Some(Documents(ledger, t)) else None
  {
    RunKeepsPlain(states, steps, j);
    LedgerReadsBackIff(states[j].files.decisions, t, floats);
  }

  /** A decision file that does not read back never reads back again. */
  lemma UnreadableForever(states: seq<System>, steps: seq<Step>, i: nat, j: nat, t: Texts, floats: iset<real>)
    requires IsRun(states, steps) && PlainClock(steps) && i <= j < |states|
    requires TextsOk(t, floats) && Numbered(states[j].files.decisions, floats)
    requires !PlainReasons(states[i].files.decisions)
    ensures ReadRecords(FileOf(Documents(states[j].files.decisions, t), t.number), t.value) == None
  {
    DecisionFileReadsBackIff(states, steps, j, t, floats);
    StoreGuarantees.DecisionsAreForever(states, steps, i, j);
    var ledger, longer := states[i].files.decisions, states[j].files.decisions;
    var k :| 0 <= k < |ledger| && !Plain(ledger[k].record.body.reason);
    assert longer[k] == ledger[k];
  }

  // ---------- events ----------

  /**
   An event as its ledger records it; `frame` holds its sequence number, time, run, plan, name, action and
   digests.
   */
  function EventDocument(frame: Fields, payload: Fields): Json {
    Map(frame["payload" := Map(payload)])
  }

  /** The payload of a failed action. */
  function FailurePayload(rest: Fields, error: string): Fields {
    rest["error" := Str(error)]
  }

  /** Of a failure event, only the text of the raised error can break the line. */
  lemma FailureFreeIff(frame: Fields, rest: Fields, error: string)
    requires FreeFields(frame) && FreeFields(rest)
    ensures SeparatorFree(EventDocument(frame, FailurePayload(rest, error))) <==> Plain(error)
  {
    FreeField(rest, "error", Str(error));
    FreeField(frame, "payload", Map(FailurePayload(rest, error)));
  }
}
