/** What the conditions and gates of an attempt find at the paths that plans use. */
module ScopeReads {
  import opened Wrappers
  import opened Json
  import opened Manifests
  import opened Dotted
  import opened DottedReads
  import opened JsonPointer
  import opened AttemptTrace

  predicate IsKey(key: string) {
    key != "" && '.' !in key
  }

  /** What stands at a key of a mapping, or nothing. */
  function ValueAt(fields: Fields, key: string): Option<Json> {
    if key in fields then Some(fields[key]) else None
  }

  lemma ScopeKey(scope: Fields, key: string)
    requires IsKey(key)
    ensures DottedGet(Map(scope), key) == ValueAt(scope, key)
  {
    WholeRead(Map(scope));
    MappingReads(Map(scope), "", scope, key);
  }

  lemma Member(scope: Json, path: string, fields: Fields, key: string)
    requires IsKey(key) && DottedGet(scope, path) == Some(Map(fields))
    ensures DottedGet(scope, Below(path, key)) == ValueAt(fields, key)
  {
    MappingReads(scope, path, fields, key);
  }

  /** Keys of the state are read as they are and below `state`, unless the scope has a meaning of its own for them. */
  lemma StateReads(state: Fields, result: Option<ActionResult>, key: string)
    requires IsKey(key)
    ensures DottedGet(ConditionScope(state, result), Below("state", key)) == ValueAt(state, key)
    ensures key != "state" && (result.None? || key !in {"result", "metrics"}) ==>
              DottedGet(ConditionScope(state, result), key) == ValueAt(state, key)
  {
    var scope := ConditionScope(state, result).fields;
    ScopeKey(scope, "state");
    Member(Map(scope), "state", state, key);
    ScopeKey(scope, key);
  }

  /** Metrics are those of the result; if it has none, those that the state may have. */
  lemma MetricReads(state: Fields, result: ActionResult, monitor: string)
    requires IsKey(monitor)
    ensures var found := DottedGet(ConditionScope(state, Some(result)), Below("metrics", monitor));
            && (result.metrics != map[] ==> found == ValueAt(result.metrics, monitor))
            && (result.metrics == map[] && "metrics" !in state ==> found == None)
            && (result.metrics == map[] && "metrics" in state && state["metrics"].Map? ==>
                  found == ValueAt(state["metrics"].fields, monitor))
  {
    var scope := ConditionScope(state, Some(result)).fields;
    ScopeKey(scope, "metrics");
    if result.metrics != map[] {
      Member(Map(scope), "metrics", result.metrics, monitor);
    } else if "metrics" !in state {
      Member(Map(scope), "metrics", map[], monitor);
    } else if state["metrics"].Map? {
      Member(Map(scope), "metrics", state["metrics"].fields, monitor);
    }
  }

  lemma ResultKeys(result: ActionResult)
    ensures ValueAt(ResultJson(result).fields, "details") == Some(Map(result.details))
    ensures ValueAt(ResultJson(result).fields, "metrics") == Some(Map(result.metrics))
    ensures ValueAt(ResultJson(result).fields, "artifacts") == Some(RecordsJson(result.artifacts))
    ensures ValueAt(ResultJson(result).fields, "checkpoints") == Some(RecordsJson(result.checkpoints))
  {
  }

  lemma PartReads(state: Fields, result: ActionResult, part: string)
    requires IsKey(part)
    ensures DottedGet(ConditionScope(state, Some(result)), Below("result", part))
            == ValueAt(ResultJson(result).fields, part)
  {
    var scope := ConditionScope(state, Some(result)).fields;
    ScopeKey(scope, "result");
    Member(Map(scope), "result", ResultJson(result).fields, part);
  }

  /** Below `result`, its details and its metrics. */
  lemma ResultReads(state: Fields, result: ActionResult, key: string)
    requires IsKey(key)
    ensures var scope := ConditionScope(state, Some(result));
            && DottedGet(scope, Below(Below("result", "details"), key)) == ValueAt(result.details, key)
            && DottedGet(scope, Below(Below("result", "metrics"), key)) == ValueAt(result.metrics, key)
  {
    var scope := ConditionScope(state, Some(result));
    ResultKeys(result);
    PartReads(state, result, "details");
    PartReads(state, result, "metrics");
    Member(scope, Below("result", "details"), result.details, key);
    Member(scope, Below("result", "metrics"), result.metrics, key);
  }

  function AsText(text: Option<string>): Option<Json> {
    if text.Some? then Some(Str(text.value)) else None
  }

  /** The fields of a record are below its path. */
  ghost predicate RecordAt(scope: Json, path: string, r: ArtifactRecord) {
    && DottedGet(scope, Below(path, "uri")) == Some(Str(r.uri))
    && DottedGet(scope, Below(path, "role")) == Some(Str(r.role))
    && DottedGet(scope, Below(path, "sha256")) == AsText(r.sha256)
    && DottedGet(scope, Below(Below(path, "metadata"), "output_id")) == AsText(r.outputId)
  }

  /** The artifacts and the checkpoints of the result are numbered from zero. */
  lemma RecordReads(state: Fields, result: ActionResult, part: string, records: seq<ArtifactRecord>, i: nat)
    requires (part == "artifacts" && records == result.artifacts)
             || (part == "checkpoints" && records == result.checkpoints)
    ensures var scope, path := ConditionScope(state, Some(result)), Below(Below("result", part), Decimal(i));
            if i < |records| then RecordAt(scope, path, records[i]) else DottedGet(scope, path) == None
  {
    var scope, list := ConditionScope(state, Some(result)), Below("result", part);
    ResultKeys(result);
    PartReads(state, result, part);
    ListReads(scope, list, RecordsJson(records).items, i);
    if i < |records| {
      RecordKeys(records[i]);
      RecordFields(scope, Below(list, Decimal(i)), records[i], RecordJson(records[i]).fields);
    }
  }

  function Metadata(r: ArtifactRecord): Option<Json> {
    if r.outputId.Some? then Some(Map(map["output_id" := Str(r.outputId.value)])) else None
  }

  lemma RecordKeys(r: ArtifactRecord)
    ensures ValueAt(RecordJson(r).fields, "uri") == Some(Str(r.uri))
    ensures ValueAt(RecordJson(r).fields, "role") == Some(Str(r.role))
    ensures ValueAt(RecordJson(r).fields, "sha256") == AsText(r.sha256)
    ensures ValueAt(RecordJson(r).fields, "metadata") == Metadata(r)
  {
  }

  lemma RecordFields(scope: Json, path: string, r: ArtifactRecord, fields: Fields)
    requires DottedGet(scope, path) == Some(Map(fields))
    requires ValueAt(fields, "uri") == Some(Str(r.uri)) && ValueAt(fields, "role") == Some(Str(r.role))
    requires ValueAt(fields, "sha256") == AsText(r.sha256) && ValueAt(fields, "metadata") == Metadata(r)
    ensures RecordAt(scope, path, r)
  {
    Member(scope, path, fields, "uri");
    Member(scope, path, fields, "role");
    Member(scope, path, fields, "sha256");
    Member(scope, path, fields, "metadata");
    OutputIdRead(scope, Below(path, "metadata"), r);
  }

  lemma OutputIdRead(scope: Json, path: string, r: ArtifactRecord)
    requires DottedGet(scope, path) == Metadata(r)
    ensures DottedGet(scope, Below(path, "output_id")) == AsText(r.outputId)
  {
    if r.outputId.Some? {
      Member(scope, path, map["output_id" := Str(r.outputId.value)], "output_id");
    } else {
      NothingBelow(scope, path, "output_id");
    }
  }
}
