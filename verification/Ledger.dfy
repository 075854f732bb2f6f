/** The ledger vocabulary: event types, the event envelope, idempotency keys and
    digests (`src/paa/core/types.py`, `src/paa/ledger/events.py`).

    SHA-256 is represented by free constructors: a key and a digest are the terms
    that would be hashed, so two of them are equal exactly when their inputs are. */
module Ledger {

  datatype Option<+T> = None | Some(value: T)

  /** A JSON object entry as `payload.get` sees it: missing, `null`, or a value. */
  datatype Field<+T> = Absent | Null | Has(value: T) {
    /** `payload.get(key, fallback)` */
    function GetOr(fallback: Option<T>): Option<T> {
      match this
      case Absent => fallback
      case Null => None
      case Has(v) => Some(v)
    }
  }

  type CorrelationId = string
  type Json = string
  type Timestamp = int

  datatype EventType =
    | TaskRequested | TaskQueued
    | ContextHydrationRequested | ContextHydrated | PlanCompiled
    | PolicyCleared | PolicyBlocked | SecurityViolation
    | ExecutionStarted | ExecutionCompleted | ExecutionFailed
    | AwaitingHumanAttestation | HumanGateCleared | HumanGateRejected
    | CritiqueConcluded | ValidationFailed | MutationCommitted
    | StateRollbackTriggered | RecoveryReplayCompleted
    | UserCorrection | ModelEscalated | TaskAbandoned
  {
    /** Membership in `TERMINAL_EVENTS`. */
    predicate IsTerminal() {
      MutationCommitted? || ExecutionFailed? || PolicyBlocked? || SecurityViolation?
      || HumanGateRejected? || TaskAbandoned?
    }
  }

  datatype TaskPhase =
    | Created | Queued | Hydrating | Planning | PolicyReview | Executing | Validating
    | AwaitingHuman | Committed | Failed | Blocked | RolledBack | Abandoned
  {
    predicate IsTerminal() { Committed? || Failed? || Blocked? || Abandoned? }
  }

  datatype Modality = Simple | Standard | Complex | Max

  datatype Role =
    | Orchestrator | Router | ContextBuilderPlanner | StrategicPlanner | PolicyRisk
    | ContextBuilderWorker | Worker | Critic | MemoryCreator | MemoryCurator

  /** A name in none of the formats below, so that no two discriminators are one string. */
  type OtherName = t: string | t != "" && !("gate:" <= t || "step-" <= t || "sweep-v" <= t || "recovery-v" <= t) witness "x"

  /** The names callers put in the `discriminator` column. Each constructor is one
      of the formats in use (`step-3`, `gate:policy_risk:1`, `sweep-v7`, ...); the key reads
      a missing name as the empty string, which is `NoDisc`. */
  datatype Discriminator =
    | NoDisc
    | GateDisc(role: Role, ordinal: nat)
    | StepDisc(index: int)
    | SweepDisc(version: nat)
    | RecoveryDisc(version: nat)
    | OtherDisc(text: OtherName)

  /** The payload entries that replay and the gates read back. */
  datatype Payload = Payload(
    request: Option<Json>,
    workspacePath: string,
    contextPacket: Option<Json>,
    executionSteps: seq<Json>,
    decision: Field<string>,
    reason: Option<string>,
    stepIndex: Option<int>,
    manifestHash: Field<string>,
    tokensConsumed: int,
    verdict: Field<string>,
    appliedPatch: Option<string>,
    resumePhase: Option<TaskPhase>,
    restoredManifestHash: Field<string>,
    restoredStepIndex: Option<int>)

  const EMPTY_PAYLOAD := Payload(None, "", None, [], Absent, None, None, Absent, 0, Absent, None, None, Absent, None)

  /** What a caller hands to the store. */
  datatype Draft = Draft(
    cid: CorrelationId,
    sessionId: Option<string>,
    etype: EventType,
    mode: Modality,
    role: Option<Role>,
    attempt: nat,
    disc: Discriminator,
    payload: Payload,
    at: Timestamp)
  {
    /** `compute_idempotency_key`: everything but the payload and the clock. */
    function Key(): Key { IdempotencyKey(cid, etype, attempt, disc) }
  }

  datatype Key = IdempotencyKey(cid: CorrelationId, etype: EventType, attempt: nat, disc: Discriminator)

  datatype Digest =
    | Genesis
    | H(prev: Digest, cid: CorrelationId, etype: EventType, version: nat, payload: Payload, at: Timestamp)

  /** A row. The four store-assigned columns are optional on the model. */
  datatype LedgerEvent = LedgerEvent(
    draft: Draft,
    sequenceId: Option<nat>,
    stateVersion: Option<nat>,
    prevHash: Option<Digest>,
    eventHash: Option<Digest>)
  {
    predicate VerifyDigest() {
      eventHash.Some? && prevHash.Some? && stateVersion.Some?
      && eventHash.value == DigestOf(prevHash.value, draft, stateVersion.value)
    }
  }

  function DigestOf(prev: Digest, d: Draft, version: nat): Digest {
    H(prev, d.cid, d.etype, version, d.payload, d.at)
  }

  /** `LedgerEvent.sealed` */
  function Seal(d: Draft, sequenceId: nat, version: nat, prev: Digest): LedgerEvent {
    LedgerEvent(d, Some(sequenceId), Some(version), Some(prev), Some(DigestOf(prev, d, version)))
  }

  predicate HasKey(h: seq<LedgerEvent>, key: Key) {
    exists j :: 0 <= j < |h| && h[j].draft.Key() == key
  }

  /** Digest of the newest event, or the genesis constant. */
  function Tip(h: seq<LedgerEvent>): Digest {
    if h == [] || h[|h| - 1].eventHash.None? then Genesis else h[|h| - 1].eventHash.value
  }

  /** One append as a single lineage sees it: suppressed when the key is taken,
      otherwise sealed onto the end. */
  function AppendTo(h: seq<LedgerEvent>, d: Draft, sequenceId: nat): (r: seq<LedgerEvent>)
  {
    if HasKey(h, d.Key()) then h else h + [Seal(d, sequenceId, |h| + 1, Tip(h))]
  }
}
