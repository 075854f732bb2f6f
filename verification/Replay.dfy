/** The projection fold of `src/paa/ledger/replay.py`. Each projection field has its
    own transition function, so a proof about one field unfolds only that field. */
module Replay {
  import opened Ledger

  datatype TaskProjection = TaskProjection(
    correlationId: CorrelationId,
    sessionId: Option<string>,
    phase: TaskPhase,
    modality: Modality,
    stateVersion: nat,
    request: Option<Json>,
    contextPacket: Option<Json>,
    planSteps: seq<Json>,
    currentStepIndex: int,
    completedSteps: seq<int>,
    policyDecision: Option<string>,
    policyReason: Option<string>,
    workspacePath: Option<string>,
    checkpointManifestHash: Option<string>,
    appliedPatch: Option<string>,
    validationVerdict: Option<string>,
    attempts: nat,
    rollbackCount: nat,
    escalationCount: nat,
    tokensConsumed: int,
    userCorrections: nat,
    errors: seq<(EventType, Payload)>,
    awaitingReason: Option<string>,
    createdAt: Option<Timestamp>,
    updatedAt: Option<Timestamp>,
    unknownEvents: seq<EventType>)

  function Initial(cid: CorrelationId): TaskProjection {
    TaskProjection(cid, None, Created, Standard, 0, None, None, [], 0, [], None, None, None, None,
                   None, None, 0, 0, 0, 0, 0, [], None, None, None, [])
  }

  /** `_PHASE_MAP` */
  function PhaseOf(t: EventType): Option<TaskPhase> {
    match t
    case TaskRequested => Some(Created)
    case TaskQueued => Some(Queued)
    case ContextHydrationRequested => Some(Hydrating)
    case ContextHydrated => Some(Planning)
    case PlanCompiled => Some(PolicyReview)
    case PolicyCleared => Some(Executing)
    case ExecutionStarted => Some(Executing)
    case CritiqueConcluded => Some(Validating)
    case ExecutionCompleted => Some(Validating)
    case MutationCommitted => Some(Committed)
    case ExecutionFailed => Some(Failed)
    case PolicyBlocked => Some(Blocked)
    case SecurityViolation => Some(Blocked)
    case HumanGateRejected => Some(Blocked)
    case TaskAbandoned => Some(Abandoned)
    case AwaitingHumanAttestation => Some(AwaitingHuman)
    case StateRollbackTriggered => Some(RolledBack)
    case _ => None
  }

  /** `_NO_PHASE_CHANGE` */
  predicate NoPhaseChange(t: EventType) {
    t.HumanGateCleared? || t.ValidationFailed? || t.UserCorrection? || t.ModelEscalated?
    || t.RecoveryReplayCompleted?
  }

  function NextCompleted(s: TaskProjection, d: Draft): seq<int> {
    if d.etype.PlanCompiled? then []
    else if d.etype.ExecutionCompleted? then
      var idx := CompletedIndex(s, d);
      if idx in s.completedSteps then s.completedSteps else s.completedSteps + [idx]
    else if d.etype.StateRollbackTriggered? && d.payload.restoredStepIndex.Some? then
      KeepBelow(s.completedSteps, d.payload.restoredStepIndex.value)
    else s.completedSteps
  }

  function CompletedIndex(s: TaskProjection, d: Draft): int {
    if d.payload.stepIndex.Some? then d.payload.stepIndex.value else s.currentStepIndex
  }

  predicate Distinct(s: seq<int>) {
    forall i, j :: 0 <= i < j < |s| ==> s[i] != s[j]
  }

  function KeepBelow(steps: seq<int>, bound: int): (r: seq<int>)
    ensures forall i :: i in r <==> i in steps && i < bound
    ensures Distinct(steps) ==> Distinct(r)
  {
    if steps == [] then []
    else
      var init, last := steps[..|steps| - 1], steps[|steps| - 1];
      assert steps == init + [last];
      assert Distinct(steps) ==> last !in init;
      if last < bound then KeepBelow(init, bound) + [last] else KeepBelow(init, bound)
  }

  function NextPhase(s: TaskProjection, d: Draft): TaskPhase {
    if d.etype.ExecutionCompleted? then
      if |NextCompleted(s, d)| < |s.planSteps| then Executing else Validating
    else if d.etype.ValidationFailed? then Executing
    else if d.etype.HumanGateCleared? then
      if d.payload.resumePhase.Some? then d.payload.resumePhase.value else Executing
    else if PhaseOf(d.etype).Some? then PhaseOf(d.etype).value
    else s.phase
  }

  function NextStepIndex(s: TaskProjection, d: Draft): int {
    if d.etype.PlanCompiled? then 0
    else if d.etype.ExecutionStarted? && d.payload.stepIndex.Some? then d.payload.stepIndex.value
    else if d.etype.ExecutionCompleted? then CompletedIndex(s, d) + 1
    else if d.etype.StateRollbackTriggered? && d.payload.restoredStepIndex.Some? then
      d.payload.restoredStepIndex.value
    else s.currentStepIndex
  }

  function NextManifestHash(s: TaskProjection, d: Draft): Option<string> {
    if d.etype.ExecutionStarted? && d.payload.manifestHash.Has? && d.payload.manifestHash.value != "" then
      Some(d.payload.manifestHash.value)
    else if d.etype.MutationCommitted? then d.payload.manifestHash.GetOr(s.checkpointManifestHash)
    else if d.etype.StateRollbackTriggered? then d.payload.restoredManifestHash.GetOr(s.checkpointManifestHash)
    else s.checkpointManifestHash
  }

  function NextWorkspace(s: TaskProjection, d: Draft): Option<string> {
    if (d.etype.TaskRequested? || d.etype.ExecutionStarted?) && d.payload.workspacePath != ""
    then Some(d.payload.workspacePath) else s.workspacePath
  }

  predicate IsPolicyVerdict(t: EventType) {
    t.PolicyCleared? || t.PolicyBlocked? || t.SecurityViolation?
  }

  function VerdictName(t: EventType): string {
    if t.PolicyCleared? then "POLICY_CLEARED"
    else if t.PolicyBlocked? then "POLICY_BLOCKED"
    else "SECURITY_VIOLATION"
  }

  /** The `apply_event` operator. */
  function ApplyEvent(s: TaskProjection, e: LedgerEvent): TaskProjection {
    var d := e.draft;
    var t := d.etype;
    TaskProjection(
      s.correlationId,
      if s.sessionId.None? then d.sessionId else s.sessionId,
      NextPhase(s, d),
      d.mode,
      if e.stateVersion.Some? && e.stateVersion.value != 0 then e.stateVersion.value else s.stateVersion,
      if t.TaskRequested? then d.payload.request else s.request,
      if t.ContextHydrated? then d.payload.contextPacket else s.contextPacket,
      if t.PlanCompiled? then d.payload.executionSteps else s.planSteps,
      NextStepIndex(s, d),
      NextCompleted(s, d),
      if IsPolicyVerdict(t) then d.payload.decision.GetOr(Some(VerdictName(t))) else s.policyDecision,
      if IsPolicyVerdict(t) then d.payload.reason else s.policyReason,
      NextWorkspace(s, d),
      NextManifestHash(s, d),
      if t.MutationCommitted? then d.payload.appliedPatch else s.appliedPatch,
      if t.ValidationFailed? then d.payload.verdict.GetOr(Some("FAIL_REJECT_RETRY"))
      else if t.CritiqueConcluded? then d.payload.verdict.GetOr(None) else s.validationVerdict,
      if t.ExecutionStarted? then s.attempts + 1 else s.attempts,
      if t.StateRollbackTriggered? then s.rollbackCount + 1 else s.rollbackCount,
      if t.ModelEscalated? then s.escalationCount + 1 else s.escalationCount,
      if t.ExecutionCompleted? then s.tokensConsumed + d.payload.tokensConsumed else s.tokensConsumed,
      if t.UserCorrection? then s.userCorrections + 1 else s.userCorrections,
      if t.ExecutionFailed? || t.ValidationFailed? then s.errors + [(t, d.payload)] else s.errors,
      if t.AwaitingHumanAttestation? then d.payload.reason
      else if t.HumanGateCleared? then None else s.awaitingReason,
      if s.createdAt.None? then Some(d.at) else s.createdAt,
      Some(d.at),
      if PhaseOf(t).None? && !NoPhaseChange(t) && t !in s.unknownEvents
      then s.unknownEvents + [t] else s.unknownEvents)
  }

  /** The left fold. */
  ghost function ReplayFrom(s: TaskProjection, events: seq<LedgerEvent>): TaskProjection {
    if events == [] then s
    else ApplyEvent(ReplayFrom(s, events[..|events| - 1]), events[|events| - 1])
  }

  /** The projection of a lineage replayed from genesis. */
  ghost function Project(cid: CorrelationId, h: seq<LedgerEvent>): TaskProjection {
    ReplayFrom(Initial(cid), h)
  }

  /** How many events of one type a history holds. */
  function Count(h: seq<LedgerEvent>, t: EventType): nat {
    if h == [] then 0
    else Count(h[..|h| - 1], t) + if h[|h| - 1].draft.etype == t then 1 else 0
  }

  lemma ProjectSnoc(cid: CorrelationId, h: seq<LedgerEvent>, e: LedgerEvent)
    ensures Project(cid, h + [e]) == ApplyEvent(Project(cid, h), e)
  {
    assert (h + [e])[..|h|] == h;
  }

  /** `replay` */
  method Replay(events: seq<LedgerEvent>, initial: Option<TaskProjection>) returns (r: Option<TaskProjection>)
    ensures r.None? <==> events == [] && initial.None?
    ensures initial.Some? ==> r == Some(ReplayFrom(initial.value, events))
    ensures initial.None? && events != [] ==> r == Some(Project(events[0].draft.cid, events))
  {
    if events == [] && initial.None? { return None; }
    var state := if initial.Some? then initial.value else Initial(events[0].draft.cid);
    ghost var start := state;
    for k := 0 to |events|
      invariant state == ReplayFrom(start, events[..k])
    {
      assert events[..k + 1][..k] == events[..k];
      state := ApplyEvent(state, events[k]);
    }
    assert events[..|events|] == events;
    r := Some(state);
  }

  /** The fold splits at any point, which is what makes a snapshot a legal start. */
  lemma {:induction false} ReplaySplits(s: TaskProjection, a: seq<LedgerEvent>, b: seq<LedgerEvent>)
    ensures ReplayFrom(s, a + b) == ReplayFrom(ReplayFrom(s, a), b)
    decreases |b|
  {
    if b == [] {
      assert a + b == a;
    } else {
      ReplaySplits(s, a, b[..|b| - 1]);
      assert (a + b)[..|a + b| - 1] == a + b[..|b| - 1];
    }
  }

  /** Replay is total on this vocabulary: no lineage ever reports an unknown event. */
  lemma {:induction false} NoUnknownEvents(cid: CorrelationId, h: seq<LedgerEvent>)
    ensures Project(cid, h).unknownEvents == []
  {
    if h != [] {
      NoUnknownEvents(cid, h[..|h| - 1]);
    }
  }

  lemma {:induction false} ProjectKeepsId(cid: CorrelationId, h: seq<LedgerEvent>)
    ensures Project(cid, h).correlationId == cid
  {
    if h != [] {
      ProjectKeepsId(cid, h[..|h| - 1]);
    }
  }
}
