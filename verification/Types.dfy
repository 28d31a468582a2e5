/** Typed plan entities shared by the planner and the executor. */
module Types {
  import opened Wrappers
  import opened Json
  import opened Manifests

  datatype ActionKind =
    | ResolveAssets | LoadAsset | LaunchSolver | ReadMesh | ReadCheckpoint | ReconcileSettings
    | CreateRegister | Initialize | Patch | Iterate | AdvanceTime | Sample | Gate
    | WriteCheckpoint | PromoteCheckpoint | Snapshot | Tui

  datatype ConditionOperator =
    | Exists | Equals | NotEquals | LessThan | LessThanOrEqual | GreaterThan | GreaterThanOrEqual | In

  datatype Condition = Condition(path: string, operator: ConditionOperator, expected: Json)

  datatype GateSpec = GateSpec(conditions: seq<Condition>, category: string, required: bool)

  /** A gate of the monitor document, copied into the parameters of a gate or checkpoint stage. */
  datatype NamedGate = NamedGate(
    gateType: string, category: string, required: bool, monitor: string,
    operator: string, limit: Json, minimum: Json, maximum: Json,
    samples: int, relativeSpan: real, stage: string, output: string)

  datatype CheckpointSpec = CheckpointSpec(name: string, role: string, promoteWhenGatesPass: bool)

  /** One node of the plan; `promoted` is the checkpoint that a promotion action names in its parameters. */
  datatype SemanticAction = SemanticAction(
    id: string,
    kind: ActionKind,
    dependsOn: seq<string>,
    preconditions: seq<Condition>,
    postconditions: seq<Condition>,
    maxAttempts: nat,
    gate: Option<GateSpec>,
    namedGates: seq<NamedGate>,
    checkpoint: Option<CheckpointSpec>,
    promoted: Option<ArtifactRecord>)

  /** The hashed part of a compiled plan; a candidate plan names what it changes. */
  datatype PlanContent = PlanContent(caseId: string, candidate: Option<string>, objectives: string,
                                     actions: seq<SemanticAction>)

  datatype PlanHash = PlanSha(content: PlanContent)
}
