/** What the verdicts of conditions and gates mean, said of the observed values and of the manifest. */
module GateMeaning {
  import opened Wrappers
  import opened Json
  import opened Strings
  import opened Dotted
  import opened Types
  import opened Manifests
  import opened Gates

  // ---------- numbers, texts and lists in order ----------

  /** The values that count as numbers: a truth value is one or zero. */
  predicate IsNumber(j: Json, x: real) {
    j == Num(x) || (j == Bool(true) && x == 1.0) || (j == Bool(false) && x == 0.0)
  }

  ghost predicate Numeric(j: Json) {
    exists x :: IsNumber(j, x)
  }

  lemma NumberRead(j: Json, x: real)
    ensures AsNumber(j) == Some(x) <==> IsNumber(j, x)
    ensures AsNumber(j).None? <==> !Numeric(j)
  {
    if AsNumber(j).Some? {
      assert IsNumber(j, AsNumber(j).value);
    }
  }

  /** A condition on numbers says how the number found stands to the number expected. */
  lemma NumbersInOrder(observed: Json, path: string, found: Json, expected: Json, a: real, b: real)
    requires DottedGet(observed, path) == Some(found) && IsNumber(found, a) && IsNumber(expected, b)
    ensures EvaluateCondition(Condition(path, LessThan, expected), observed) == Some(a < b)
    ensures EvaluateCondition(Condition(path, LessThanOrEqual, expected), observed) == Some(a <= b)
    ensures EvaluateCondition(Condition(path, GreaterThan, expected), observed) == Some(a > b)
    ensures EvaluateCondition(Condition(path, GreaterThanOrEqual, expected), observed) == Some(a >= b)
  {
  }

  /** A condition on texts compares them in code-point order. */
  lemma TextsInOrder(observed: Json, path: string, a: string, b: string)
    requires DottedGet(observed, path) == Some(Str(a))
    ensures EvaluateCondition(Condition(path, LessThan, Str(b)), observed) == Some(Before(a, b))
    ensures EvaluateCondition(Condition(path, LessThanOrEqual, Str(b)), observed) == Some(a == b || Before(a, b))
    ensures EvaluateCondition(Condition(path, GreaterThan, Str(b)), observed) == Some(Before(b, a))
    ensures EvaluateCondition(Condition(path, GreaterThanOrEqual, Str(b)), observed) == Some(a == b || Before(b, a))
  {
    LeIsCodePointOrder(a, b);
    LeIsCodePointOrder(b, a);
    LeTotal(a, b);
    LeTotal(a, a);
  }

  lemma {:induction false} ItemsUpTo(op: ConditionOperator, a: Json, b: Json, i: nat, k: nat)
    requires IsOrdering(op) && a.List? && b.List? && i <= k <= |a.items| && k <= |b.items|
    requires a.items[..k] == b.items[..k]
    ensures CompareItems(op, a, b, i) == CompareItems(op, a, b, k)
    decreases k - i
  {
    if i < k {
      assert a.items[i] == a.items[..k][i] == b.items[..k][i] == b.items[i];
      ItemsUpTo(op, a, b, i + 1, k);
    }
  }

  /** A condition on lists: the first items that differ decide, as a condition of its own on them. */
  lemma ListsInOrder(observed: Json, path: string, op: ConditionOperator, a: seq<Json>, b: seq<Json>, k: nat)
    requires DottedGet(observed, path) == Some(List(a)) && IsOrdering(op) && DifferFirstAt(a, b, k)
    ensures EvaluateCondition(Condition(path, op, List(b)), observed)
            == EvaluateCondition(Condition("", op, b[k]), a[k])
  {
    ItemsUpTo(op, List(a), List(b), 0, k);
  }

  lemma ComparedByLength(op: ConditionOperator, a: seq<Json>, b: seq<Json>)
    requires IsOrdering(op) && (a <= b || b <= a)
    ensures Compare(op, List(a), List(b)) == Some(Ordered(op, |a| < |b|, |a| == |b|))
  {
    var k := if |a| <= |b| then |a| else |b|;
    assert a[..k] == b[..k];
    ItemsUpTo(op, List(a), List(b), 0, k);
  }

  /** Of two lists one of which starts the other, the shorter one comes first. */
  lemma ListsByLength(observed: Json, path: string, a: seq<Json>, b: seq<Json>)
    requires DottedGet(observed, path) == Some(List(a)) && (a <= b || b <= a)
    ensures EvaluateCondition(Condition(path, LessThan, List(b)), observed) == Some(|a| < |b|)
    ensures EvaluateCondition(Condition(path, LessThanOrEqual, List(b)), observed) == Some(|a| <= |b|)
    ensures EvaluateCondition(Condition(path, GreaterThan, List(b)), observed) == Some(|a| > |b|)
    ensures EvaluateCondition(Condition(path, GreaterThanOrEqual, List(b)), observed) == Some(|a| >= |b|)
  {
    ComparedByLength(LessThan, a, b);
    ComparedByLength(LessThanOrEqual, a, b);
    ComparedByLength(GreaterThan, a, b);
    ComparedByLength(GreaterThanOrEqual, a, b);
  }

  /** An ordering of anything else raises. */
  lemma NoOrder(observed: Json, path: string, op: ConditionOperator, found: Json, expected: Json)
    requires DottedGet(observed, path) == Some(found) && IsOrdering(op)
    requires !(Numeric(found) && Numeric(expected)) && !(found.Str? && expected.Str?)
    requires !(found.List? && expected.List?)
    ensures EvaluateCondition(Condition(path, op, expected), observed).None?
  {
    NumberRead(found, 0.0);
    NumberRead(expected, 0.0);
  }

  // ---------- the other conditions ----------

  /** Nothing found: every condition but existence is false. */
  lemma NothingFound(c: Condition, observed: Json)
    requires DottedGet(observed, c.path).None? && !c.operator.Exists?
    ensures EvaluateCondition(c, observed) == Some(false)
  {
  }

  /** Values that ask for absence: false, zero and everything empty. A null asks for existence. */
  predicate AsksForAbsence(expected: Json) {
    expected in {Bool(false), Num(0.0), Str(""), List([]), Map(map[])}
  }

  lemma ExistenceAsked(c: Condition, observed: Json)
    requires c.operator.Exists?
    ensures AsksForAbsence(c.expected) ==> EvaluateCondition(c, observed) == Some(DottedGet(observed, c.path).None?)
    ensures !AsksForAbsence(c.expected) ==> EvaluateCondition(c, observed) == Some(DottedGet(observed, c.path).Some?)
  {
  }

  lemma EqualityAsked(observed: Json, path: string, found: Json, expected: Json)
    requires DottedGet(observed, path) == Some(found)
    ensures EvaluateCondition(Condition(path, Equals, expected), observed) == Some(found == expected)
    ensures EvaluateCondition(Condition(path, NotEquals, expected), observed) == Some(found != expected)
  {
  }

  /** The text occurs somewhere in the other. */
  ghost predicate Occurs(part: string, text: string) {
    exists front, back :: text == front + part + back
  }

  lemma ContainsIsOccurrence(text: string, part: string)
    ensures Contains(text, part) <==> Occurs(part, text)
  {
    if Contains(text, part) {
      var i :| 0 <= i <= |text| && part <= text[i..];
      assert text == text[..i] + part + text[i..][|part|..];
    }
    if Occurs(part, text) {
      var front, back :| text == front + part + back;
      assert text[|front|..] == part + back;
    }
  }

  /** Membership: an item of a list, a part of a text, a key of a mapping. */
  lemma MembershipAsked(observed: Json, path: string, found: Json, expected: Json)
    requires DottedGet(observed, path) == Some(found)
    ensures var verdict := EvaluateCondition(Condition(path, In, expected), observed);
            && (expected.List? ==> verdict == Some(exists i :: 0 <= i < |expected.items| && expected.items[i] == found))
            && (expected.Str? && found.Str? ==> verdict == Some(Occurs(found.s, expected.s)))
            && (expected.Map? && found.Str? ==> verdict == Some(found.s in expected.fields.Keys))
            && (expected.Map? && (found.Null? || Numeric(found)) ==> verdict == Some(false))
            && (expected.Map? && (found.List? || found.Map?) ==> verdict == None)
            && (expected.Str? && !found.Str? ==> verdict == None)
            && (expected.Null? || Numeric(expected) ==> verdict == None)
  {
    if expected.Str? && found.Str? {
      ContainsIsOccurrence(expected.s, found.s);
    }
  }

  /** A list of conditions holds exactly if each does, and raises exactly if one does. */
  lemma {:induction false} AllConditionsMeaning(conditions: seq<Condition>, observed: Json)
    ensures AllConditions(conditions, observed).None? <==>
              exists i :: 0 <= i < |conditions| && EvaluateCondition(conditions[i], observed).None?
    ensures AllConditions(conditions, observed) == Some(true) <==>
              forall i :: 0 <= i < |conditions| ==> EvaluateCondition(conditions[i], observed) == Some(true)
  {
    if conditions != [] {
      AllConditionsMeaning(conditions[1..], observed);
      assert conditions == [conditions[0]] + conditions[1..];
    }
  }

  // ---------- threshold and range gates ----------

  lemma MetricPaths(monitor: string)
    ensures "metrics" + "." + monitor == "metrics." + monitor
    ensures "metric_history" + "." + monitor == "metric_history." + monitor
  {
    assert "metrics" + "." == "metrics." && "metric_history" + "." == "metric_history.";
  }

  /** A limit is written as it is, or as the value of a mapping. */
  predicate Limits(limit: Json, b: real) {
    IsNumber(limit, b) || (limit.Map? && "value" in limit.fields && IsNumber(limit.fields["value"], b))
  }

  /** A threshold gate passes exactly if the metric stands in the named relation to the limit. */
  lemma ThresholdMeaning(g: NamedGate, observed: Json, flags: AdapterFlags, artifacts: seq<ManifestEntry>,
                         verified: set<ManifestEntry>, found: Json, a: real, b: real)
    requires g.gateType == "threshold" && Limits(g.limit, b)
    requires DottedGet(observed, "metrics." + g.monitor) == Some(found) && IsNumber(found, a)
    ensures var outcome := EvaluateNamedGate(g, observed, flags, artifacts, verified);
            && (g.operator == "lt" ==> outcome == Some(GateGroup(g.category, g.required, Some(a < b))))
            && (g.operator == "le" ==> outcome == Some(GateGroup(g.category, g.required, Some(a <= b))))
            && (g.operator == "gt" ==> outcome == Some(GateGroup(g.category, g.required, Some(a > b))))
            && (g.operator == "ge" ==> outcome == Some(GateGroup(g.category, g.required, Some(a >= b))))
            && (g.operator !in {"lt", "le", "gt", "ge", "eq"} ==> outcome == None)
  {
    MetricPaths(g.monitor);
    NumbersInOrder(observed, "metrics." + g.monitor, found, LimitValue(g.limit), a, b);
  }

  /** What a limit asks for: the limit itself, or the value of a mapping, null if it has none. */
  predicate AsksFor(limit: Json, expected: Json) {
    if limit.Map? then expected == if "value" in limit.fields then limit.fields["value"] else Null
    else expected == limit
  }

  /** With the operator `eq` it passes exactly if the metric is the limit. */
  lemma ThresholdEquality(g: NamedGate, observed: Json, flags: AdapterFlags, artifacts: seq<ManifestEntry>,
                          verified: set<ManifestEntry>, found: Json, expected: Json)
    requires g.gateType == "threshold" && g.operator == "eq" && AsksFor(g.limit, expected)
    requires DottedGet(observed, "metrics." + g.monitor) == Some(found)
    ensures EvaluateNamedGate(g, observed, flags, artifacts, verified)
            == Some(GateGroup(g.category, g.required, Some(found == expected)))
  {
    MetricPaths(g.monitor);
    assert LimitValue(g.limit) == expected;
    EqualityAsked(observed, "metrics." + g.monitor, found, expected);
  }

  predicate Bounds(bound: Json, b: Option<real>) {
    if b.None? then bound.Null? else Limits(bound, b.value)
  }

  /** A range gate passes exactly if the metric is at least the minimum and at most the maximum, as far as given. */
  lemma RangeMeaning(g: NamedGate, observed: Json, flags: AdapterFlags, artifacts: seq<ManifestEntry>,
                     verified: set<ManifestEntry>, found: Json, a: real, low: Option<real>, high: Option<real>)
    requires g.gateType == "range" && Bounds(g.minimum, low) && Bounds(g.maximum, high)
    requires DottedGet(observed, "metrics." + g.monitor) == Some(found) && IsNumber(found, a)
    ensures EvaluateNamedGate(g, observed, flags, artifacts, verified)
            == Some(GateGroup(g.category, g.required,
                              Some((low.Some? ==> low.value <= a) && (high.Some? ==> a <= high.value))))
  {
    MetricPaths(g.monitor);
    NumberRead(found, a);
    if low.Some? { NumberRead(LimitValue(g.minimum), low.value); }
    if high.Some? { NumberRead(LimitValue(g.maximum), high.value); }
  }

  /** An adapter that evaluates nothing makes no claim about a metric that is not there. */
  lemma NoClaimWithoutMetric(g: NamedGate, observed: Json, flags: AdapterFlags, artifacts: seq<ManifestEntry>,
                             verified: set<ManifestEntry>)
    requires g.gateType in {"threshold", "range", "steady_window"} && !flags.evaluatesSolverResults
    requires DottedGet(observed, "metrics." + g.monitor).None?
    requires DottedGet(observed, "metric_history." + g.monitor).None?
    ensures EvaluateNamedGate(g, observed, flags, artifacts, verified) == Some(GateGroup(g.category, g.required, None))
  {
    MetricPaths(g.monitor);
  }

  /** Any other adapter fails such a threshold. */
  lemma ThresholdWithoutMetric(g: NamedGate, observed: Json, flags: AdapterFlags, artifacts: seq<ManifestEntry>,
                               verified: set<ManifestEntry>)
    requires g.gateType == "threshold" && flags.evaluatesSolverResults
    requires DottedGet(observed, "metrics." + g.monitor).None?
    ensures EvaluateNamedGate(g, observed, flags, artifacts, verified)
            == if g.operator in {"lt", "le", "gt", "ge", "eq"} then Some(GateGroup(g.category, g.required, Some(false)))
               else None
  {
    MetricPaths(g.monitor);
  }

  /** And a range that demands anything. */
  lemma RangeWithoutMetric(g: NamedGate, observed: Json, flags: AdapterFlags, artifacts: seq<ManifestEntry>,
                           verified: set<ManifestEntry>)
    requires g.gateType == "range" && flags.evaluatesSolverResults
    requires DottedGet(observed, "metrics." + g.monitor).None?
    ensures EvaluateNamedGate(g, observed, flags, artifacts, verified)
            == Some(GateGroup(g.category, g.required, Some(g.minimum.Null? && g.maximum.Null?)))
  {
    MetricPaths(g.monitor);
  }

  /** And a window that demands samples. */
  lemma WindowWithoutMetric(g: NamedGate, observed: Json, flags: AdapterFlags, artifacts: seq<ManifestEntry>,
                            verified: set<ManifestEntry>)
    requires g.gateType == "steady_window" && flags.evaluatesSolverResults && g.samples > 0
    requires DottedGet(observed, "metric_history." + g.monitor).None?
    ensures EvaluateNamedGate(g, observed, flags, artifacts, verified)
            == Some(GateGroup(g.category, g.required, Some(false)))
  {
    MetricPaths(g.monitor);
  }

  // ---------- artifact gates ----------

  /** An entry of the manifest for the output of the stage, checked on disk if `verified` is given. */
  ghost predicate OutputListed(g: NamedGate, artifacts: seq<ManifestEntry>, among: set<ManifestEntry>) {
    exists e :: e in artifacts && e.actionId == g.stage && e.record.outputId == Some(g.output) && e in among
  }

  /** An artifact gate claims nothing of a run that only declares its artifacts, unless it is an orchestration gate. */
  lemma ArtifactMeaning(g: NamedGate, observed: Json, flags: AdapterFlags, artifacts: seq<ManifestEntry>,
                        verified: set<ManifestEntry>)
    requires g.gateType == "artifact_exists"
    ensures var outcome := EvaluateNamedGate(g, observed, flags, artifacts, verified);
            && (flags.requiresMaterializedArtifacts ==>
                  outcome == Some(GateGroup(g.category, g.required, Some(OutputListed(g, artifacts, verified)))))
            && (!flags.requiresMaterializedArtifacts && g.category in {"numerical", "scientific"} ==>
                  outcome == Some(GateGroup(g.category, g.required, None)))
            && (!flags.requiresMaterializedArtifacts && g.category !in {"numerical", "scientific"} ==>
                  outcome == Some(GateGroup(g.category, g.required,
                                            Some(OutputListed(g, artifacts, set e | e in artifacts)))))
  {
    var all := set e | e in artifacts;
    OutputFound(g, artifacts, verified);
    OutputFound(g, artifacts, all);
    assert forall i :: 0 <= i < |artifacts| ==> artifacts[i] in all;
  }

  lemma OutputFound(g: NamedGate, artifacts: seq<ManifestEntry>, among: set<ManifestEntry>)
    ensures OutputListed(g, artifacts, among) <==>
              exists i :: 0 <= i < |artifacts| && MatchesOutput(artifacts[i], g) && artifacts[i] in among
  {
    if OutputListed(g, artifacts, among) {
      var e :| e in artifacts && e.actionId == g.stage && e.record.outputId == Some(g.output) && e in among;
      var i :| 0 <= i < |artifacts| && artifacts[i] == e;
      assert MatchesOutput(artifacts[i], g);
    }
  }

  lemma UnknownGate(g: NamedGate, observed: Json, flags: AdapterFlags, artifacts: seq<ManifestEntry>,
                    verified: set<ManifestEntry>)
    requires g.gateType !in {"threshold", "range", "steady_window", "artifact_exists"}
    ensures EvaluateNamedGate(g, observed, flags, artifacts, verified)
            == Some(GateGroup(g.category, g.required, Some(false)))
  {
  }

  // ---------- steady windows ----------

  lemma {:induction false} SumConcat(v: seq<real>, w: seq<real>)
    ensures Sum(v + w) == Sum(v) + Sum(w)
  {
    if w == [] {
      assert v + w == v;
    } else {
      assert (v + w)[..|v + w| - 1] == v + w[..|w| - 1];
      SumConcat(v, w[..|w| - 1]);
    }
  }

  lemma SumOfOne(x: real)
    ensures Sum([x]) == x && Sum([]) == 0.0
  {
    assert [x][..0] == [];
  }

  /** The window of a positive number of samples: that many, from the end. */
  lemma WindowIsTheEnd(samples: seq<Json>, n: int)
    ensures 0 < n <= |samples| ==> |Window(samples, n)| == n
    ensures 0 < n <= |samples| ==> exists front :: samples == front + Window(samples, n)
    ensures n == 0 || n > |samples| ==> Window(samples, n) == samples
    ensures n < 0 ==> |Window(samples, n)| == if -n <= |samples| then |samples| + n else 0
    ensures n < 0 ==> exists front :: samples == front + Window(samples, n)
  {
    var cut := if n == 0 || n > |samples| then 0 else if n > 0 then |samples| - n
               else if -n <= |samples| then -n else |samples|;
    assert Window(samples, n) == samples[cut..];
    assert samples == samples[..cut] + Window(samples, n);
  }

  /** The last `n` of the history, as numbers. */
  ghost predicate LastNumbers(samples: seq<Json>, n: int, w: seq<real>) {
    0 < n == |w| <= |samples| && forall i :: 0 <= i < n ==> IsNumber(samples[|samples| - n + i], w[i])
  }

  lemma LastNumbersRead(samples: seq<Json>, n: int, w: seq<real>)
    requires LastNumbers(samples, n, w)
    ensures |Window(samples, n)| == n && AllNumbers(Window(samples, n)) && Numbers(Window(samples, n)) == w
  {
    var window := Window(samples, n);
    forall i | 0 <= i < n ensures AsNumber(window[i]) == Some(w[i]) {
      assert window[i] == samples[|samples| - n + i];
      NumberRead(window[i], w[i]);
    }
  }

  /** No sample exceeds another by more. */
  ghost predicate SpreadAtMost(w: seq<real>, bound: real) {
    forall i, j :: 0 <= i < |w| && 0 <= j < |w| ==> w[i] - w[j] <= bound
  }

  /** The scale of a window: the magnitude of the mean, or the floor where that is larger. */
  ghost predicate IsScale(w: seq<real>, mean: real, scale: real) {
    && mean * |w| as real == Sum(w)
    && mean <= scale && -mean <= scale && MEAN_FLOOR <= scale
    && (scale == mean || scale == -mean || scale == MEAN_FLOOR)
  }

  lemma ScaleIsFloored(w: seq<real>, mean: real, scale: real)
    requires w != [] && IsScale(w, mean, scale)
    ensures Floored(Mean(w), MEAN_FLOOR) == scale
  {
    WindowMean(w, mean);
  }

  /**
   The verdict of a steady window is about the last `n` samples alone: none exceeds another by more than the
   relative span of the scale.
   */
  lemma SteadyOverLastSamples(samples: seq<Json>, n: int, relativeSpan: real, w: seq<real>, mean: real, scale: real,
                              bound: real)
    requires LastNumbers(samples, n, w) && IsScale(w, mean, scale) && bound == relativeSpan * scale
    ensures SteadyWindow(samples, n, relativeSpan) == Some(SpreadAtMost(w, bound))
  {
    ScaleIsFloored(w, mean, scale);
    SteadyIffPairs(samples, n, relativeSpan, w, bound);
    PairsApart(w, bound);
  }

  lemma SteadyIffPairs(samples: seq<Json>, n: int, relativeSpan: real, w: seq<real>, bound: real)
    requires LastNumbers(samples, n, w)
    requires bound == Tolerance(relativeSpan, Floored(Mean(w), MEAN_FLOOR))
    ensures SteadyWindow(samples, n, relativeSpan) == Some(PairsWithin(w, bound))
  {
    LastNumbersRead(samples, n, w);
    SteadyWindowMeaning(samples, n, relativeSpan);
  }

  lemma PairsApart(w: seq<real>, bound: real)
    ensures PairsWithin(w, bound) <==> SpreadAtMost(w, bound)
  {
    if PairsWithin(w, bound) {
      forall i, j | 0 <= i < |w| && 0 <= j < |w| ensures w[i] - w[j] <= bound {
        assert Within(w[i], w[j], bound);
      }
    }
    if SpreadAtMost(w, bound) {
      forall i, j | 0 <= i < |w| && 0 <= j < |w| ensures Within(w[i], w[j], bound) {
        assert w[i] - w[j] <= bound && w[j] - w[i] <= bound;
      }
    }
  }

  /** Too few samples, or one of the last that is no number: not steady. */
  lemma NotSteady(samples: seq<Json>, n: int, relativeSpan: real)
    requires n > 0
    requires |samples| < n || exists i :: |samples| - n <= i < |samples| && !Numeric(samples[i])
    ensures SteadyWindow(samples, n, relativeSpan) == Some(false)
  {
    if n <= |samples| {
      var i :| |samples| - n <= i < |samples| && !Numeric(samples[i]);
      assert Window(samples, n)[i - (|samples| - n)] == samples[i];
      NumberRead(samples[i], 0.0);
    }
  }

  /** A steady-window gate reads the history of its monitor; a history that is no list counts as empty. */
  lemma SteadyGateReads(g: NamedGate, observed: Json, flags: AdapterFlags, artifacts: seq<ManifestEntry>,
                        verified: set<ManifestEntry>, history: Json)
    requires g.gateType == "steady_window"
    requires DottedGet(observed, "metric_history." + g.monitor) == Some(history)
    ensures var verdict := SteadyWindow(if history.List? then history.items else [], g.samples, g.relativeSpan);
            EvaluateNamedGate(g, observed, flags, artifacts, verified)
            == if verdict.None? then None else Some(GateGroup(g.category, g.required, verdict))
  {
    MetricPaths(g.monitor);
  }

  // ---------- all gates of an action ----------

  lemma {:induction false} NamedGroupsMeaning(gates: seq<NamedGate>, observed: Json, flags: AdapterFlags,
                                              artifacts: seq<ManifestEntry>, verified: set<ManifestEntry>)
    ensures var groups := NamedGroups(gates, observed, flags, artifacts, verified);
            && (groups.None? <==>
                  exists i :: 0 <= i < |gates|
                              && EvaluateNamedGate(gates[i], observed, flags, artifacts, verified).None?)
            && (groups.Some? ==>
                  && |groups.value| == |gates|
                  && forall i :: 0 <= i < |gates| ==>
                    EvaluateNamedGate(gates[i], observed, flags, artifacts, verified) == Some(groups.value[i]))
  {
    if gates != [] {
      NamedGroupsMeaning(gates[1..], observed, flags, artifacts, verified);
      assert gates == [gates[0]] + gates[1..];
      var groups := NamedGroups(gates, observed, flags, artifacts, verified);
      if groups.Some? {
        var rest := NamedGroups(gates[1..], observed, flags, artifacts, verified).value;
        forall i | 0 <= i < |gates|
          ensures EvaluateNamedGate(gates[i], observed, flags, artifacts, verified) == Some(groups.value[i])
        {
          if i > 0 {
            assert gates[i] == gates[1..][i - 1] && groups.value[i] == rest[i - 1];
          }
        }
      }
    }
  }

  /** The groups of an action are its own gate and then its named gates in order; one that raises raises for all. */
  lemma GroupsInOrder(a: SemanticAction, observed: Json, flags: AdapterFlags, artifacts: seq<ManifestEntry>,
                      verified: set<ManifestEntry>)
    ensures var groups := GateGroups(a, observed, flags, artifacts, verified);
            var own := if a.gate.Some? then 1 else 0;
            && (groups.None? <==>
                  || (a.gate.Some? && AllConditions(a.gate.value.conditions, observed).None?)
                  || exists i :: 0 <= i < |a.namedGates|
                                 && EvaluateNamedGate(a.namedGates[i], observed, flags, artifacts, verified).None?)
            && (groups.Some? ==>
                  && |groups.value| == own + |a.namedGates|
                  && (a.gate.Some? ==>
                        groups.value[0] == GateGroup(a.gate.value.category, a.gate.value.required,
                                                     AllConditions(a.gate.value.conditions, observed)))
                  && forall i :: 0 <= i < |a.namedGates| ==>
                    EvaluateNamedGate(a.namedGates[i], observed, flags, artifacts, verified)
                    == Some(groups.value[own + i]))
  {
    NamedGroupsMeaning(a.namedGates, observed, flags, artifacts, verified);
  }
}
