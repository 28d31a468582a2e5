/** Conditions over observed state, gate groups, and the steady-window criterion. */
module Gates {
  import opened Wrappers
  import opened Json
  import opened Strings
  import opened Dotted
  import opened Types
  import opened Manifests

  // ---------- conditions ----------

  function Truthy(j: Json): bool {
    match j
    case Null => false
    case Bool(b) => b
    case Num(r) => r != 0.0
    case Str(s) => s != ""
    case List(items) => items != []
    case Map(fields) => fields != map[]
  }

  function AsNumber(j: Json): Option<real> {
    match j
    case Num(r) => Some(r)
    case Bool(b) => Some(if b then 1.0 else 0.0)
    case _ => None
  }

  predicate IsOrdering(op: ConditionOperator) {
    op.LessThan? || op.LessThanOrEqual? || op.GreaterThan? || op.GreaterThanOrEqual?
  }

  predicate Ordered(op: ConditionOperator, less: bool, equal: bool)
    requires IsOrdering(op)
  {
    match op
    case LessThan => less
    case LessThanOrEqual => less || equal
    case GreaterThan => !less && !equal
    case _ => !less
  }

  /** An ordering comparison; `None` where the program raises a type error. */
  function Compare(op: ConditionOperator, a: Json, b: Json): Option<bool>
    requires IsOrdering(op)
    decreases a
  {
    if AsNumber(a).Some? && AsNumber(b).Some? then
      Some(Ordered(op, AsNumber(a).value < AsNumber(b).value, AsNumber(a).value == AsNumber(b).value))
    else if a.Str? && b.Str? then Some(Ordered(op, Le(a.s, b.s) && a.s != b.s, a.s == b.s))
    else if a.List? && b.List? then CompareItems(op, a, b, 0)
    else None
  }

  function CompareItems(op: ConditionOperator, a: Json, b: Json, i: nat): Option<bool>
    requires IsOrdering(op) && a.List? && b.List? && i <= |a.items|
    decreases a, |a.items| - i
  {
    if i == |a.items| || i >= |b.items| then Some(Ordered(op, |a.items| < |b.items|, |a.items| == |b.items|))
    else if a.items[i] == b.items[i] then CompareItems(op, a, b, i + 1)
    else Compare(op, a.items[i], b.items[i])
  }

  predicate Contains(text: string, part: string) {
    exists i :: 0 <= i <= |text| && part <= text[i..]
  }

  function IsMember(actual: Json, expected: Json): Option<bool> {
    match expected
    case List(items) => Some(actual in items)
    case Str(s) => if actual.Str? then Some(Contains(s, actual.s)) else None
    case Map(fields) =>
      if actual.Str? then Some(actual.s in fields) else if actual.List? || actual.Map? then None else Some(false)
    case _ => None
  }

  /** `None` where evaluating the condition raises. */
  function EvaluateCondition(c: Condition, observed: Json): Option<bool> {
    var actual := DottedGet(observed, c.path);
    if c.operator.Exists? then Some(actual.Some? == (c.expected.Null? || Truthy(c.expected)))
    else if actual.None? then Some(false)
    else if c.operator.Equals? then Some(actual.value == c.expected)
    else if c.operator.NotEquals? then Some(actual.value != c.expected)
    else if c.operator.In? then IsMember(actual.value, c.expected)
    else Compare(c.operator, actual.value, c.expected)
  }

  /** Every condition holds; `None` if one raises before that is known. */
  function AllConditions(conditions: seq<Condition>, observed: Json): Option<bool> {
    if conditions == [] then Some(true)
    else
      var first := EvaluateCondition(conditions[0], observed);
      var rest := AllConditions(conditions[1..], observed);
      if first.None? || rest.None? then None else Some(first.value && rest.value)
  }

  // ---------- gates ----------

  /** The outcome of one gate; `passed` is `None` when no claim is made. */
  datatype GateGroup = GateGroup(category: string, required: bool, passed: Option<bool>)

  /** What the adapter declares about itself. */
  datatype AdapterFlags = AdapterFlags(evaluatesSolverResults: bool, requiresMaterializedArtifacts: bool)

  function LimitValue(j: Json): Json {
    if j.Map? then if "value" in j.fields then j.fields["value"] else Null else j
  }

  function ThresholdOperator(name: string): Option<ConditionOperator> {
    if name == "lt" then Some(LessThan)
    else if name == "le" then Some(LessThanOrEqual)
    else if name == "gt" then Some(GreaterThan)
    else if name == "ge" then Some(GreaterThanOrEqual)
    else if name == "eq" then Some(Equals)
    else None
  }

  /** A bound of a range gate: absent, failed for a missing metric, or compared. */
  function WithinBound(op: ConditionOperator, actual: Option<Json>, bound: Json): Option<bool>
    requires IsOrdering(op)
  {
    if bound.Null? then Some(true)
    else if actual.None? then Some(false)
    else Compare(op, actual.value, LimitValue(bound))
  }

  // ---------- steady window ----------

  /** 1e-300, the floor under the mean in the relative span. */
  const MEAN_FLOOR: real := 1e-300

  function Abs(x: real): real {
    if x < 0.0 then -x else x
  }

  function Sum(w: seq<real>): real {
    if w == [] then 0.0 else Sum(w[..|w| - 1]) + w[|w| - 1]
  }

  function Larger(a: real, b: real): real {
    if a < b then b else a
  }

  function Smaller(a: real, b: real): real {
    if b < a then b else a
  }

  function Maximum(w: seq<real>): real
    requires w != []
  {
    if |w| == 1 then w[0] else Larger(Maximum(w[..|w| - 1]), w[|w| - 1])
  }

  function Minimum(w: seq<real>): real
    requires w != []
  {
    if |w| == 1 then w[0] else Smaller(Minimum(w[..|w| - 1]), w[|w| - 1])
  }

  function Mean(w: seq<real>): real
    requires w != []
  {
    Sum(w) / |w| as real
  }

  /** `max(abs(mean), 1e-300)`; the results below hold for every positive floor. */
  function Floored(mean: real, floor: real): (scale: real)
    requires floor > 0.0
    ensures scale > 0.0
  {
    Larger(Abs(mean), floor)
  }

  predicate SpanTest(span: real, scale: real, relativeSpan: real)
    requires scale > 0.0
  {
    span / scale <= relativeSpan
  }

  predicate IsSteady(w: seq<real>, relativeSpan: real)
    requires w != []
  {
    SpanTest(Maximum(w) - Minimum(w), Floored(Mean(w), MEAN_FLOOR), relativeSpan)
  }

  /** `samples[-n:]` */
  function Window(samples: seq<Json>, n: int): seq<Json> {
    if n == 0 then samples
    else if n > 0 then if n >= |samples| then samples else samples[|samples| - n..]
    else if -n >= |samples| then [] else samples[-n..]
  }

  predicate AllNumbers(w: seq<Json>) {
    forall i :: 0 <= i < |w| ==> AsNumber(w[i]).Some?
  }

  function Numbers(w: seq<Json>): seq<real>
    requires AllNumbers(w)
  {
    seq(|w|, i requires 0 <= i < |w| => AsNumber(w[i]).value)
  }

  /** `None` where the program divides by the length of an empty window. */
  function SteadyWindow(samples: seq<Json>, n: int, relativeSpan: real): Option<bool> {
    var w := Window(samples, n);
    if |w| >= n && AllNumbers(w) then
      if w == [] then None else Some(IsSteady(Numbers(w), relativeSpan))
    else Some(false)
  }

  // ---------- named gates and groups ----------

  predicate ReadsMetric(gateType: string) {
    gateType == "threshold" || gateType == "range" || gateType == "steady_window"
  }

  predicate MatchesOutput(e: ManifestEntry, g: NamedGate) {
    e.actionId == g.stage && e.record.outputId == Some(g.output)
  }

  /** `verified` are the entries whose local file matches the recorded digest; `None` where it raises. */
  function EvaluateNamedGate(g: NamedGate, observed: Json, flags: AdapterFlags,
                             artifacts: seq<ManifestEntry>, verified: set<ManifestEntry>): Option<GateGroup>
  {
    var space := if g.gateType == "steady_window" then "metric_history" else "metrics";
    var actual := DottedGet(observed, space + "." + g.monitor);
    if ReadsMetric(g.gateType) && actual.None? && !flags.evaluatesSolverResults then
      Some(GateGroup(g.category, g.required, None))
    else if g.gateType == "threshold" then
      var op := ThresholdOperator(g.operator);
      if op.None? then None
      else
        var passed := EvaluateCondition(Condition("metrics." + g.monitor, op.value, LimitValue(g.limit)), observed);
        if passed.None? then None else Some(GateGroup(g.category, g.required, passed))
    else if g.gateType == "range" then
      var low := WithinBound(GreaterThanOrEqual, actual, g.minimum);
      var high := WithinBound(LessThanOrEqual, actual, g.maximum);
      if low.None? || high.None? then None else Some(GateGroup(g.category, g.required, Some(low.value && high.value)))
    else if g.gateType == "steady_window" then
      var samples := if actual.Some? && actual.value.List? then actual.value.items else [];
      var passed := SteadyWindow(samples, g.samples, g.relativeSpan);
      if passed.None? then None else Some(GateGroup(g.category, g.required, passed))
    else if g.gateType == "artifact_exists" then
      var found := exists i :: 0 <= i < |artifacts| && MatchesOutput(artifacts[i], g);
      var onDisk := exists i :: 0 <= i < |artifacts| && MatchesOutput(artifacts[i], g) && artifacts[i] in verified;
      Some(GateGroup(g.category, g.required,
                     if flags.requiresMaterializedArtifacts then Some(onDisk)
                     else if g.category == "numerical" || g.category == "scientific" then None
                     else Some(found)))
    else Some(GateGroup(g.category, g.required, Some(false)))
  }

  function NamedGroups(gates: seq<NamedGate>, observed: Json, flags: AdapterFlags,
                       artifacts: seq<ManifestEntry>, verified: set<ManifestEntry>): Option<seq<GateGroup>>
  {
    if gates == [] then Some([])
    else
      var first := EvaluateNamedGate(gates[0], observed, flags, artifacts, verified);
      var rest := NamedGroups(gates[1..], observed, flags, artifacts, verified);
      if first.None? || rest.None? then None else Some([first.value] + rest.value)
  }

  /** All gate outcomes of an action, its own gate first; `None` if evaluating one of them raises. */
  function GateGroups(a: SemanticAction, observed: Json, flags: AdapterFlags,
                      artifacts: seq<ManifestEntry>, verified: set<ManifestEntry>): Option<seq<GateGroup>>
  {
    var named := NamedGroups(a.namedGates, observed, flags, artifacts, verified);
    if a.gate.None? then named
    else
      var own := AllConditions(a.gate.value.conditions, observed);
      if own.None? || named.None? then None
      else Some([GateGroup(a.gate.value.category, a.gate.value.required, own)] + named.value)
  }

  // ---------- real arithmetic ----------

  lemma DivideBound(x: real, d: real, bound: real)
    requires d > 0.0
    ensures x / d <= bound <==> x <= bound * d
    ensures bound <= x / d <==> bound * d <= x
  {
  }

  // ---------- what a passed steady window says ----------

  /** Smallest and largest sample of a window. */
  ghost predicate Extremes(w: seq<real>, low: real, high: real) {
    && low in w && high in w
    && (forall i :: 0 <= i < |w| ==> low <= w[i] <= high)
  }

  ghost predicate IsMean(w: seq<real>, mean: real) {
    mean * |w| as real == Sum(w)
  }

  lemma {:induction false} ExtremesBound(w: seq<real>)
    requires w != []
    ensures forall i :: 0 <= i < |w| ==> Minimum(w) <= w[i] <= Maximum(w)
    ensures Maximum(w) in w && Minimum(w) in w
  {
    if |w| > 1 {
      var front := w[..|w| - 1];
      ExtremesBound(front);
      assert w == front + [w[|w| - 1]];
    }
  }

  /** What the test divides really are the extremes and the mean, and those are unique. */
  lemma WindowExtremes(w: seq<real>, low: real, high: real)
    requires w != []
    ensures Extremes(w, low, high) <==> low == Minimum(w) && high == Maximum(w)
  {
    ExtremesBound(w);
  }

  lemma WindowMean(w: seq<real>, mean: real)
    requires w != []
    ensures IsMean(w, mean) <==> mean == Mean(w)
  {
  }

  lemma {:induction false} SumBounds(w: seq<real>, low: real, high: real)
    requires forall i :: 0 <= i < |w| ==> low <= w[i] <= high
    ensures low * |w| as real <= Sum(w) <= high * |w| as real
  {
    if w != [] {
      SumBounds(w[..|w| - 1], low, high);
      var n := |w[..|w| - 1]| as real;
      assert |w| as real == n + 1.0;
    }
  }

  lemma MeanBetween(w: seq<real>, low: real, high: real, mean: real)
    requires Extremes(w, low, high) && IsMean(w, mean)
    ensures low <= mean <= high
  {
    SumBounds(w, low, high);
  }

  /** How far samples may be apart. */
  function Tolerance(relativeSpan: real, scale: real): real {
    relativeSpan * scale
  }

  predicate Within(x: real, y: real, bound: real) {
    Abs(x - y) <= bound
  }

  /** Not on the other side of zero. */
  predicate SameSide(x: real, mean: real) {
    (mean > 0.0 ==> x >= 0.0) && (mean < 0.0 ==> x <= 0.0)
  }

  ghost predicate PairsWithin(w: seq<real>, bound: real) {
    forall i, j {:trigger Within(w[i], w[j], bound)} :: 0 <= i < |w| && 0 <= j < |w| ==> Within(w[i], w[j], bound)
  }

  ghost predicate NearMean(w: seq<real>, mean: real, bound: real) {
    forall i {:trigger Within(w[i], mean, bound)} :: 0 <= i < |w| ==> Within(w[i], mean, bound)
  }

  ghost predicate KeepsSign(w: seq<real>, mean: real) {
    forall i {:trigger SameSide(w[i], mean)} :: 0 <= i < |w| ==> SameSide(w[i], mean)
  }

  /** The span test holds exactly when all pairs of samples are within the relative span. */
  lemma SpanTestIffPairsClose(w: seq<real>, low: real, high: real, scale: real, relativeSpan: real)
    requires Extremes(w, low, high) && scale > 0.0
    ensures SpanTest(high - low, scale, relativeSpan) <==> PairsWithin(w, Tolerance(relativeSpan, scale))
  {
    DivideBound(high - low, scale, relativeSpan);
    PairsClose(w, low, high, Tolerance(relativeSpan, scale));
  }

  lemma PairsClose(w: seq<real>, low: real, high: real, bound: real)
    requires low in w && high in w
    requires forall i :: 0 <= i < |w| ==> low <= w[i] <= high
    ensures high - low <= bound <==> PairsWithin(w, bound)
  {
    var i :| 0 <= i < |w| && w[i] == high;
    var j :| 0 <= j < |w| && w[j] == low;
    if PairsWithin(w, bound) {
      assert Within(w[i], w[j], bound);
    }
  }

  /** Each sample of a passed window lies within the relative span of the mean. */
  lemma SamplesNearMean(w: seq<real>, low: real, high: real, mean: real, scale: real, relativeSpan: real, i: nat)
    requires Extremes(w, low, high) && IsMean(w, mean) && scale > 0.0 && i < |w|
    requires SpanTest(high - low, scale, relativeSpan)
    ensures Within(w[i], mean, Tolerance(relativeSpan, scale))
  {
    DivideBound(high - low, scale, relativeSpan);
    MeanBetween(w, low, high, mean);
  }

  /** With a span of at most one and a mean above the floor, no sample has the opposite sign. */
  lemma SamplesKeepSign(w: seq<real>, low: real, high: real, mean: real, floor: real, relativeSpan: real, i: nat)
    requires Extremes(w, low, high) && IsMean(w, mean) && floor > 0.0 && i < |w|
    requires SpanTest(high - low, Floored(mean, floor), relativeSpan)
    requires relativeSpan <= 1.0 && Abs(mean) >= floor
    ensures SameSide(w[i], mean)
  {
    var scale := Floored(mean, floor);
    SamplesNearMean(w, low, high, mean, scale, relativeSpan, i);
    ShrinkScale(relativeSpan, scale, Tolerance(relativeSpan, scale));
  }

  /** The span test of a window for any floor, in terms of its samples alone. */
  lemma SpanTestMeaning(w: seq<real>, floor: real, relativeSpan: real)
    requires w != [] && floor > 0.0
    ensures SpanTest(Maximum(w) - Minimum(w), Floored(Mean(w), floor), relativeSpan)
            <==> PairsWithin(w, Tolerance(relativeSpan, Floored(Mean(w), floor)))
  {
    WindowExtremes(w, Minimum(w), Maximum(w));
    SpanTestIffPairsClose(w, Minimum(w), Maximum(w), Floored(Mean(w), floor), relativeSpan);
  }

  lemma PassedSpanTest(w: seq<real>, floor: real, relativeSpan: real)
    requires w != [] && floor > 0.0
    requires SpanTest(Maximum(w) - Minimum(w), Floored(Mean(w), floor), relativeSpan)
    ensures NearMean(w, Mean(w), Tolerance(relativeSpan, Floored(Mean(w), floor)))
    ensures relativeSpan <= 1.0 && Abs(Mean(w)) >= floor ==> KeepsSign(w, Mean(w))
  {
    var low, high, mean := Minimum(w), Maximum(w), Mean(w);
    WindowExtremes(w, low, high);
    WindowMean(w, mean);
    forall i | 0 <= i < |w| ensures Within(w[i], mean, Tolerance(relativeSpan, Floored(mean, floor))) {
      SamplesNearMean(w, low, high, mean, Floored(mean, floor), relativeSpan, i);
    }
    if relativeSpan <= 1.0 && Abs(mean) >= floor {
      forall i | 0 <= i < |w| ensures SameSide(w[i], mean) {
        SamplesKeepSign(w, low, high, mean, floor, relativeSpan, i);
      }
    }
  }

  /** A steady-window gate passes exactly when it has enough numeric samples, all close to each other. */
  lemma SteadyWindowMeaning(samples: seq<Json>, n: int, relativeSpan: real)
    ensures var w := Window(samples, n);
            SteadyWindow(samples, n, relativeSpan) == Some(true) <==>
            && |w| >= n && AllNumbers(w) && w != []
            && PairsWithin(Numbers(w), Tolerance(relativeSpan, Floored(Mean(Numbers(w)), MEAN_FLOOR)))
    ensures 0 < n <= |samples| ==>
              |Window(samples, n)| == n && forall i :: 0 <= i < n ==>
                Window(samples, n)[i] == samples[|samples| - n + i]
  {
    var w := Window(samples, n);
    if AllNumbers(w) && w != [] {
      SpanTestMeaning(Numbers(w), MEAN_FLOOR, relativeSpan);
    }
  }

  /** What a passed steady window promises about every one of its samples. */
  lemma SteadySamplesNearMean(samples: seq<Json>, n: int, relativeSpan: real)
    requires SteadyWindow(samples, n, relativeSpan) == Some(true)
    ensures var w := Numbers(Window(samples, n));
            && NearMean(w, Mean(w), Tolerance(relativeSpan, Floored(Mean(w), MEAN_FLOOR)))
            && (relativeSpan <= 1.0 && Abs(Mean(w)) >= MEAN_FLOOR ==> KeepsSign(w, Mean(w)))
  {
    PassedSpanTest(Numbers(Window(samples, n)), MEAN_FLOOR, relativeSpan);
  }

  lemma ShrinkScale(r: real, s: real, product: real)
    requires r <= 1.0 && s > 0.0 && product == r * s
    ensures product <= s
  {
  }

  // ---------- independence of the unit ----------

  /** All samples in another unit. */
  function Scaled(c: real, w: seq<real>): seq<real> {
    if w == [] then [] else Scaled(c, w[..|w| - 1]) + [c * w[|w| - 1]]
  }

  lemma {:induction false} ScaledLength(c: real, w: seq<real>)
    ensures |Scaled(c, w)| == |w|
    ensures w != [] ==> Scaled(c, w)[..|w| - 1] == Scaled(c, w[..|w| - 1]) && Scaled(c, w)[|w| - 1] == c * w[|w| - 1]
  {
    if w != [] {
      ScaledLength(c, w[..|w| - 1]);
    }
  }

  lemma {:induction false} ScaledAt(c: real, w: seq<real>, i: nat)
    requires i < |w|
    ensures |Scaled(c, w)| == |w| && Scaled(c, w)[i] == c * w[i]
  {
    ScaledLength(c, w);
    if i < |w| - 1 {
      ScaledAt(c, w[..|w| - 1], i);
      assert Scaled(c, w)[i] == Scaled(c, w[..|w| - 1])[i];
    }
  }

  lemma {:induction false} ScaledSum(c: real, w: seq<real>)
    ensures |Scaled(c, w)| == |w|
    ensures Sum(Scaled(c, w)) == c * Sum(w)
  {
    ScaledLength(c, w);
    if w != [] {
      ScaledSum(c, w[..|w| - 1]);
    }
  }

  lemma ScaledBetween(c: real, w: seq<real>, low: real, high: real, i: nat)
    requires i < |w| && low <= w[i] <= high
    ensures |Scaled(c, w)| == |w|
    ensures c > 0.0 ==> c * low <= Scaled(c, w)[i] <= c * high
    ensures c < 0.0 ==> c * high <= Scaled(c, w)[i] <= c * low
  {
    ScaledAt(c, w, i);
  }

  lemma ScaledIn(c: real, w: seq<real>, x: real)
    requires x in w
    ensures c * x in Scaled(c, w)
  {
    var i :| 0 <= i < |w| && w[i] == x;
    ScaledAt(c, w, i);
    assert Scaled(c, w)[i] == c * x;
  }

  lemma ScaledMean(c: real, w: seq<real>, mean: real)
    requires IsMean(w, mean)
    ensures IsMean(Scaled(c, w), c * mean)
  {
    ScaledSum(c, w);
  }

  lemma ScaledAllBetween(c: real, w: seq<real>, low: real, high: real, scaledLow: real, scaledHigh: real)
    requires forall i :: 0 <= i < |w| ==> low <= w[i] <= high
    requires c > 0.0 ==> scaledLow == c * low && scaledHigh == c * high
    requires c < 0.0 ==> scaledLow == c * high && scaledHigh == c * low
    requires c != 0.0
    ensures forall i :: 0 <= i < |Scaled(c, w)| ==> scaledLow <= Scaled(c, w)[i] <= scaledHigh
  {
    ScaledLength(c, w);
    forall i | 0 <= i < |w| ensures scaledLow <= Scaled(c, w)[i] <= scaledHigh {
      ScaledBetween(c, w, low, high, i);
    }
  }

  lemma ScaledExtremes(c: real, w: seq<real>, low: real, high: real)
    requires Extremes(w, low, high) && c != 0.0
    ensures Extremes(Scaled(c, w), if c > 0.0 then c * low else c * high, if c > 0.0 then c * high else c * low)
  {
    ScaledIn(c, w, low);
    ScaledIn(c, w, high);
    ScaledAllBetween(c, w, low, high, if c > 0.0 then c * low else c * high, if c > 0.0 then c * high else c * low);
  }

  lemma TestScales(c: real, low: real, high: real, mean: real, floor: real, relativeSpan: real,
                   scaledLow: real, scaledHigh: real, scaledMean: real)
    requires floor > 0.0 && c != 0.0 && scaledMean == c * mean
    requires Abs(mean) >= floor && Abs(scaledMean) >= floor
    requires scaledLow == if c > 0.0 then c * low else c * high
    requires scaledHigh == if c > 0.0 then c * high else c * low
    ensures SpanTest(scaledHigh - scaledLow, Floored(scaledMean, floor), relativeSpan)
            <==> SpanTest(high - low, Floored(mean, floor), relativeSpan)
  {
  }

  /** The verdict does not depend on the unit of the samples while the mean stays above the floor. */
  lemma SteadyIsScaleInvariant(c: real, w: seq<real>, low: real, high: real, mean: real, floor: real,
                               relativeSpan: real)
    returns (scaledLow: real, scaledHigh: real, scaledMean: real)
    requires Extremes(w, low, high) && IsMean(w, mean) && floor > 0.0 && c != 0.0
    requires Abs(mean) >= floor && Abs(c * mean) >= floor
    ensures Extremes(Scaled(c, w), scaledLow, scaledHigh) && IsMean(Scaled(c, w), scaledMean)
    ensures SpanTest(scaledHigh - scaledLow, Floored(scaledMean, floor), relativeSpan)
            <==> SpanTest(high - low, Floored(mean, floor), relativeSpan)
  {
    scaledLow := if c > 0.0 then c * low else c * high;
    scaledHigh := if c > 0.0 then c * high else c * low;
    scaledMean := c * mean;
    ScaledExtremes(c, w, low, high);
    ScaledMean(c, w, mean);
    TestScales(c, low, high, mean, floor, relativeSpan, scaledLow, scaledHigh, scaledMean);
  }

  lemma ScaledSpanTest(c: real, w: seq<real>, floor: real, relativeSpan: real)
    requires w != [] && floor > 0.0 && c != 0.0
    requires Scaled(c, w) != [] && Abs(Mean(w)) >= floor && Abs(Mean(Scaled(c, w))) >= floor
    ensures var v := Scaled(c, w);
            SpanTest(Maximum(v) - Minimum(v), Floored(Mean(v), floor), relativeSpan)
            <==> SpanTest(Maximum(w) - Minimum(w), Floored(Mean(w), floor), relativeSpan)
  {
    var v, low, high, mean := Scaled(c, w), Minimum(w), Maximum(w), Mean(w);
    WindowExtremes(w, low, high);
    WindowMean(w, mean);
    ScaledMean(c, w, mean);
    WindowMean(v, c * mean);
    var scaledLow, scaledHigh, scaledMean := SteadyIsScaleInvariant(c, w, low, high, mean, floor, relativeSpan);
    WindowExtremes(v, scaledLow, scaledHigh);
    WindowMean(v, scaledMean);
  }

  /** The verdict on a window is the same in every unit that keeps the mean above the floor. */
  lemma SteadyInEveryUnit(c: real, w: seq<real>, relativeSpan: real)
    requires w != [] && c != 0.0
    ensures Scaled(c, w) != []
    ensures Abs(Mean(w)) >= MEAN_FLOOR && Abs(Mean(Scaled(c, w))) >= MEAN_FLOOR ==>
              IsSteady(Scaled(c, w), relativeSpan) == IsSteady(w, relativeSpan)
  {
    ScaledLength(c, w);
    if Abs(Mean(w)) >= MEAN_FLOOR && Abs(Mean(Scaled(c, w))) >= MEAN_FLOOR {
      ScaledSpanTest(c, w, MEAN_FLOOR, relativeSpan);
    }
  }
}
