/** Value types of the run ledger: phases, outcomes, the resume cursor and the
    run record.  Both ledgers store these records and advance them alike. */
module Records {

  datatype Option<+T> = None | Some(value: T)

  datatype PhaseName =
    | FeatureRequest | RepositoryDiscovery | Specification | Planning
    | Implementation | Validation | Remediation | Review
    | DraftPr | Ci | Ready | Completed

  const PHASE_SEQUENCE: seq<PhaseName> :=
    [FeatureRequest, RepositoryDiscovery, Specification, Planning,
     Implementation, Validation, Remediation, Review,
     DraftPr, Ci, Ready, Completed]

  /** A phase string as the ledger stores it: the value of a `PhaseName`, or any
      other text.  `Other("")` is the empty string. */
  datatype Label = Named(name: PhaseName) | Other(text: string)

  const NO_LABEL := Other("")

  /** An outcome string; `Unlisted` is any text outside the vocabulary. */
  datatype Outcome = Ok | Skipped | Failed | Blocked | Paused | Unlisted(text: string)

  /** The five outcomes a phase handler can report. */
  type PhaseOutcome = o: Outcome | !o.Unlisted? witness Ok

  predicate Succeeded(o: Outcome) {
    o == Ok || o == Skipped
  }

  datatype RunState = Pending | Running | Paused | Blocked | Complete | Failed | Cancelled

  datatype PhaseCursor = PhaseCursor(
    currentPhase: Label,
    lastCompletedPhase: Option<Label>,
    failedPhase: Option<Label>,
    phaseAttempt: int,
    phaseOutcome: Outcome)

  type Artifacts = map<string, string>

  /** The context passed between phases.  `restored` stands for the artifact
      fields that a resume reads back (profile, specification, plan, task results,
      review verdict), `unrestored` for the hashes, evidence paths and composition
      id that it does not. */
  datatype RunContext = RunContext(
    runId: string,
    featureDescription: string,
    repoPath: string,
    restored: Artifacts,
    validationExitCode: Option<int>,
    prUrl: Option<string>,
    ciOutcome: Option<string>,
    deliveryBranch: Option<string>,
    deliveryHeadSha: Option<string>,
    remediationAttempts: nat,
    remediationExhausted: bool,
    unrestored: Artifacts,
    remoteSkippedReason: Option<string>)

  type ByTask = map<string, map<string, real>>

  datatype Cost = Cost(
    totalTokens: Option<int>,
    totalCostUsd: Option<real>,
    totalElapsedS: Option<real>,
    byTask: Option<ByTask>)

  const NO_COST := Cost(None, None, None, None)

  predicate NonNegative(c: Cost) {
    && (c.totalTokens.Some? ==> c.totalTokens.value >= 0)
    && (c.totalCostUsd.Some? ==> c.totalCostUsd.value >= 0.0)
    && (c.totalElapsedS.Some? ==> c.totalElapsedS.value >= 0.0)
  }

  function Or<T>(preferred: Option<T>, fallback: Option<T>): Option<T> {
    if preferred.Some? then preferred else fallback
  }

  function OverlayCost(update: Cost, base: Cost): Cost {
    Cost(Or(update.totalTokens, base.totalTokens),
         Or(update.totalCostUsd, base.totalCostUsd),
         Or(update.totalElapsedS, base.totalElapsedS),
         Or(update.byTask, base.byTask))
  }

  datatype RunRecord = RunRecord(
    runId: string,
    state: RunState,
    repository: string,
    idempotencyKey: string,
    revision: nat,
    phase: Option<Label>,
    ctx: Option<RunContext>,
    featureDescription: Option<string>,
    cursor: Option<PhaseCursor>,
    cost: Cost)

  /** What `record_phase` asks for on top of a state change. */
  datatype PhaseChange = PhaseChange(phase: Label, outcome: Outcome, attempt: int)

  /** A success moves the checkpoint and clears the failure marker; anything else
      keeps the checkpoint and marks the phase as failed. */
  function AdvanceCursor(prev: Option<PhaseCursor>, change: PhaseChange): PhaseCursor {
    var last := if prev.Some? then prev.value.lastCompletedPhase else None;
    if Succeeded(change.outcome) then
      PhaseCursor(change.phase, Some(change.phase), None, change.attempt, change.outcome)
    else
      PhaseCursor(change.phase, last, Some(change.phase), change.attempt, change.outcome)
  }

  /** The legacy `phase` string: the checkpoint, or the current phase when there is none. */
  function DerivedPhase(c: PhaseCursor): Label {
    if c.lastCompletedPhase.Some? && c.lastCompletedPhase.value != NO_LABEL
    then c.lastCompletedPhase.value
    else c.currentPhase
  }

  /** The record that `_update_state` builds: a new state and revision, the cursor moved
      when a phase is recorded, everything else carried over.  The cost fields are not
      carried over. */
  function Transition(
    rec: RunRecord, state: RunState, change: Option<PhaseChange>, ctx: Option<RunContext>): RunRecord
  {
    var cursor := if change.Some? then Some(AdvanceCursor(rec.cursor, change.value)) else rec.cursor;
    RunRecord(
      rec.runId, state, rec.repository, rec.idempotencyKey, rec.revision + 1,
      if change.Some? then Some(DerivedPhase(cursor.value)) else rec.phase,
      Or(ctx, rec.ctx), rec.featureDescription, cursor, NO_COST)
  }

  /** The optimistic-concurrency guard shared by both ledgers. */
  predicate Matches(rec: RunRecord, expectedRevision: Option<int>, expectedState: Option<RunState>) {
    && (expectedRevision.Some? ==> expectedRevision.value == rec.revision)
    && (expectedState.Some? ==> expectedState.value == rec.state)
  }

  /** One call on a ledger.  `Update` is `record_phase` (with a change) or one of
      the `mark_*` calls (without); `Attribute` is `record_cost_attribution`. */
  datatype Op =
    | Start(runId: string, repository: string, key: string, description: Option<string>)
    | Update(runId: string, state: RunState, change: Option<PhaseChange>, ctx: Option<RunContext>,
             expectedRevision: Option<int>, expectedState: Option<RunState>)
    | Attribute(runId: string, cost: Cost, expectedRevision: Option<int>)

  function RecordPhaseOp(runId: string, change: PhaseChange, ctx: Option<RunContext>): Op {
    Update(runId, Running, Some(change), ctx, None, None)
  }

  function MarkOp(runId: string, state: RunState): Op {
    Update(runId, state, None, None, None, None)
  }

  datatype Response =
    | Written(record: RunRecord)   // the call changed the ledger
    | Existing(record: RunRecord)  // the call returned a record it found
    | UnknownRun                   // the call returned nothing
    | Conflict(actualRevision: nat, actualState: RunState)
    | KeyTaken(owner: string)
    | Invalid                      // a validation error, raised before any change

  predicate Guarded(op: Op, n: int) {
    !op.Start? && op.expectedRevision == Some(n)
  }
}
