/** What a replayed projection says about its history (`src/paa/ledger/replay.py`), field
    by field and over every history and every start: counters count events, lists list
    them, and every other field holds what the last event to write it wrote. */
module ReplayMeaning {
  import opened Ledger
  import opened Replay

  // -- totals ---------------------------------------------------------------

  /** Tokens reported by the completions of a history. */
  function TokensReported(h: seq<LedgerEvent>): int {
    if h == [] then 0
    else
      var d := h[|h| - 1].draft;
      TokensReported(h[..|h| - 1]) + if d.etype.ExecutionCompleted? then d.payload.tokensConsumed else 0
  }

  /** The failures of a history, oldest first. */
  function Failures(h: seq<LedgerEvent>): seq<(EventType, Payload)> {
    if h == [] then []
    else
      var d := h[|h| - 1].draft;
      Failures(h[..|h| - 1]) + if d.etype.ExecutionFailed? || d.etype.ValidationFailed? then [(d.etype, d.payload)] else []
  }

  lemma {:induction false} TotalsAddUp(s: TaskProjection, h: seq<LedgerEvent>)
    ensures var p := ReplayFrom(s, h);
            && p.tokensConsumed == s.tokensConsumed + TokensReported(h)
            && p.attempts == s.attempts + Count(h, ExecutionStarted)
            && p.rollbackCount == s.rollbackCount + Count(h, StateRollbackTriggered)
            && p.escalationCount == s.escalationCount + Count(h, ModelEscalated)
            && p.userCorrections == s.userCorrections + Count(h, UserCorrection)
            && p.errors == s.errors + Failures(h)
            && p.correlationId == s.correlationId
  {
    hide ApplyEvent;
    if h != [] {
      TotalsAddUp(s, h[..|h| - 1]);
      OneMoreTotal(ReplayFrom(s, h[..|h| - 1]), h[|h| - 1]);
    }
  }

  lemma OneMoreTotal(p: TaskProjection, e: LedgerEvent)
    ensures var p', d := ApplyEvent(p, e), e.draft;
            && p'.tokensConsumed == p.tokensConsumed + (if d.etype == ExecutionCompleted then d.payload.tokensConsumed else 0)
            && p'.attempts == p.attempts + (if d.etype == ExecutionStarted then 1 else 0)
            && p'.rollbackCount == p.rollbackCount + (if d.etype == StateRollbackTriggered then 1 else 0)
            && p'.escalationCount == p.escalationCount + (if d.etype == ModelEscalated then 1 else 0)
            && p'.userCorrections == p.userCorrections + (if d.etype == UserCorrection then 1 else 0)
            && p'.errors == p.errors + (if d.etype == ExecutionFailed || d.etype == ValidationFailed then [(d.etype, d.payload)] else [])
            && p'.correlationId == p.correlationId
  {
    hide NextPhase, NextCompleted, NextStepIndex, NextManifestHash, NextWorkspace, PhaseOf, IsPolicyVerdict;
  }

  // -- the last event to write a field --------------------------------------

  /** The event at `k` is the last one of its kind. */
  predicate LastAt(h: seq<LedgerEvent>, k: int, kind: Draft -> bool) {
    && 0 <= k < |h| && kind(h[k].draft)
    && forall j :: k < j < |h| ==> !kind(h[j].draft)
  }

  predicate NoneOf(h: seq<LedgerEvent>, kind: Draft -> bool) {
    forall j :: 0 <= j < |h| ==> !kind(h[j].draft)
  }

  /** A field moves only with the events of one kind. */
  ghost predicate MovesWith<T(!new)>(field: TaskProjection -> T, kind: Draft -> bool, value: (TaskProjection, Draft) -> T) {
    forall p: TaskProjection, e: LedgerEvent ::
      field(ApplyEvent(p, e)) == if kind(e.draft) then value(p, e.draft) else field(p)
  }

  lemma {:induction false} LastWriter<T(!new)>(field: TaskProjection -> T, kind: Draft -> bool, value: (TaskProjection, Draft) -> T,
                                               s: TaskProjection, h: seq<LedgerEvent>)
    requires MovesWith(field, kind, value)
    ensures NoneOf(h, kind) ==> field(ReplayFrom(s, h)) == field(s)
    ensures forall k :: LastAt(h, k, kind) ==> field(ReplayFrom(s, h)) == value(ReplayFrom(s, h[..k]), h[k].draft)
    decreases |h|
  {
    hide ApplyEvent;
    if h != [] {
      var n := |h| - 1;
      var init := h[..n];
      LastWriter(field, kind, value, s, init);
      assert ReplayFrom(s, h) == ApplyEvent(ReplayFrom(s, init), h[n]);
      assert NoneOf(h, kind) ==> NoneOf(init, kind) && !kind(h[n].draft);
      forall k | LastAt(h, k, kind) ensures field(ReplayFrom(s, h)) == value(ReplayFrom(s, h[..k]), h[k].draft) {
        if k < n {
          assert LastAt(init, k, kind);
          assert init[..k] == h[..k];
        }
      }
    }
  }

  predicate WritesCheckpoint(d: Draft) {
    || (d.etype.ExecutionStarted? && d.payload.manifestHash.Has? && d.payload.manifestHash.value != "")
    || (d.etype.MutationCommitted? && !d.payload.manifestHash.Absent?)
    || (d.etype.StateRollbackTriggered? && !d.payload.restoredManifestHash.Absent?)
  }

  /** The manifest hash recovery compares the disk against is the one carried by the last
      start that names one, commit or rollback that mentions one: `null` there erases it. */
  lemma CheckpointIsLastWritten(s: TaskProjection, h: seq<LedgerEvent>, k: nat)
    ensures NoneOf(h, WritesCheckpoint) ==> ReplayFrom(s, h).checkpointManifestHash == s.checkpointManifestHash
    ensures LastAt(h, k, WritesCheckpoint) ==>
              var d := h[k].draft;
              var carried := if d.etype.StateRollbackTriggered? then d.payload.restoredManifestHash else d.payload.manifestHash;
              && (forall hash :: ReplayFrom(s, h).checkpointManifestHash == Some(hash) <==> carried == Has(hash))
              && (ReplayFrom(s, h).checkpointManifestHash.None? <==> carried.Null?)
  {
    var field := (p: TaskProjection) => p.checkpointManifestHash;
    var value := (p: TaskProjection, d: Draft) => NextManifestHash(p, d);
    assert MovesWith(field, WritesCheckpoint, value) by { hide NextPhase, NextCompleted, NextStepIndex, NextWorkspace, PhaseOf; }
    LastWriter(field, WritesCheckpoint, value, s, h);
  }

  /** Events of any of these types. */
  function AnyOf(types: set<EventType>): Draft -> bool { (d: Draft) => d.etype in types }

  lemma WorkspaceIsLastWritten(s: TaskProjection, h: seq<LedgerEvent>, k: nat)
    ensures NoneOf(h, NamesWorkspace) ==> ReplayFrom(s, h).workspacePath == s.workspacePath
    ensures LastAt(h, k, NamesWorkspace) ==> ReplayFrom(s, h).workspacePath == Some(h[k].draft.payload.workspacePath)
  {
    var field := (p: TaskProjection) => p.workspacePath;
    var value := (p: TaskProjection, d: Draft) => Some(d.payload.workspacePath);
    assert MovesWith(field, NamesWorkspace, value) by { hide NextPhase, NextCompleted, NextStepIndex, NextManifestHash, PhaseOf; }
    LastWriter(field, NamesWorkspace, value, s, h);
  }

  predicate NamesWorkspace(d: Draft) {
    (d.etype.TaskRequested? || d.etype.ExecutionStarted?) && d.payload.workspacePath != ""
  }

  predicate MovesIndex(d: Draft) {
    || d.etype.PlanCompiled? || d.etype.ExecutionCompleted?
    || (d.etype.ExecutionStarted? && d.payload.stepIndex.Some?)
    || (d.etype.StateRollbackTriggered? && d.payload.restoredStepIndex.Some?)
  }

  /** The step index: zero after a plan, the step begun, one past the step completed, or the
      step a rollback returned to. A completion that names no step completes the current one. */
  lemma StepIndexIsLastWritten(s: TaskProjection, h: seq<LedgerEvent>, k: nat)
    ensures NoneOf(h, MovesIndex) ==> ReplayFrom(s, h).currentStepIndex == s.currentStepIndex
    ensures LastAt(h, k, MovesIndex) ==>
              var p, d := ReplayFrom(s, h), h[k].draft;
              && (d.etype.PlanCompiled? ==> p.currentStepIndex == 0)
              && (d.etype.ExecutionStarted? ==> Some(p.currentStepIndex) == d.payload.stepIndex)
              && (d.etype.ExecutionCompleted? ==> p.currentStepIndex == CompletedAt(s, h, k) + 1)
              && (d.etype.StateRollbackTriggered? ==> Some(p.currentStepIndex) == d.payload.restoredStepIndex)
  {
    var field := (p: TaskProjection) => p.currentStepIndex;
    var value := (p: TaskProjection, d: Draft) => NextStepIndex(p, d);
    assert MovesWith(field, MovesIndex, value) by { hide NextPhase, NextCompleted, NextManifestHash, NextWorkspace, PhaseOf; }
    LastWriter(field, MovesIndex, value, s, h);
  }

  /** The step a completion is about: the one it names, or the current one. */
  ghost function CompletedAt(s: TaskProjection, h: seq<LedgerEvent>, k: nat): int
    requires k < |h|
  {
    var named := h[k].draft.payload.stepIndex;
    if named.Some? then named.value else ReplayFrom(s, h[..k]).currentStepIndex
  }

  /** The policy fields: what the last verdict carries. A verdict without a decision is
      recorded under its own name. */
  lemma PolicyIsLastWritten(s: TaskProjection, h: seq<LedgerEvent>, k: nat)
    ensures var p := ReplayFrom(s, h);
            NoneOf(h, AnyOf(VERDICTS)) ==> p.policyDecision == s.policyDecision && p.policyReason == s.policyReason
    ensures LastAt(h, k, AnyOf(VERDICTS)) ==>
              var p, d := ReplayFrom(s, h), h[k].draft;
              && p.policyReason == d.payload.reason
              && (d.payload.decision.Has? ==> p.policyDecision == Some(d.payload.decision.value))
              && (d.payload.decision.Null? ==> p.policyDecision == None)
              && (d.payload.decision.Absent? ==>
                    p.policyDecision == Some(if d.etype == PolicyCleared then "POLICY_CLEARED"
                                             else if d.etype == PolicyBlocked then "POLICY_BLOCKED" else "SECURITY_VIOLATION"))
  {
    var decision := (p: TaskProjection) => p.policyDecision;
    var decided := (p: TaskProjection, d: Draft) => d.payload.decision.GetOr(Some(VerdictName(d.etype)));
    var reason := (p: TaskProjection) => p.policyReason;
    var given := (p: TaskProjection, d: Draft) => d.payload.reason;
    assert MovesWith(decision, AnyOf(VERDICTS), decided) && MovesWith(reason, AnyOf(VERDICTS), given) by {
      hide NextPhase, NextCompleted, NextStepIndex, NextManifestHash, NextWorkspace, PhaseOf;
    }
    LastWriter(decision, AnyOf(VERDICTS), decided, s, h);
    LastWriter(reason, AnyOf(VERDICTS), given, s, h);
  }

  const VERDICTS: set<EventType> := {PolicyCleared, PolicyBlocked, SecurityViolation}

  /** The verdict of the last critique or failed validation; a failed validation that
      carries none counts as a rejection to be retried. */
  lemma VerdictIsLastWritten(s: TaskProjection, h: seq<LedgerEvent>, k: nat)
    ensures NoneOf(h, AnyOf({ValidationFailed, CritiqueConcluded})) ==> ReplayFrom(s, h).validationVerdict == s.validationVerdict
    ensures LastAt(h, k, AnyOf({ValidationFailed, CritiqueConcluded})) ==>
              var p, d := ReplayFrom(s, h), h[k].draft;
              && (d.payload.verdict.Has? ==> p.validationVerdict == Some(d.payload.verdict.value))
              && (d.payload.verdict.Null? ==> p.validationVerdict == None)
              && (d.payload.verdict.Absent? ==>
                    p.validationVerdict == if d.etype == ValidationFailed then Some("FAIL_REJECT_RETRY") else None)
  {
    var kind := AnyOf({ValidationFailed, CritiqueConcluded});
    var field := (p: TaskProjection) => p.validationVerdict;
    var value := (p: TaskProjection, d: Draft) =>
      d.payload.verdict.GetOr(if d.etype.ValidationFailed? then Some("FAIL_REJECT_RETRY") else None);
    assert MovesWith(field, kind, value) by {
      hide NextPhase, NextCompleted, NextStepIndex, NextManifestHash, NextWorkspace, PhaseOf, IsPolicyVerdict;
    }
    LastWriter(field, kind, value, s, h);
  }

  /** What the task waits for: the reason of the last question, until a release. */
  lemma AwaitingIsLastWritten(s: TaskProjection, h: seq<LedgerEvent>, k: nat)
    ensures NoneOf(h, AnyOf({AwaitingHumanAttestation, HumanGateCleared})) ==> ReplayFrom(s, h).awaitingReason == s.awaitingReason
    ensures LastAt(h, k, AnyOf({AwaitingHumanAttestation, HumanGateCleared})) ==>
              ReplayFrom(s, h).awaitingReason
              == if h[k].draft.etype == AwaitingHumanAttestation then h[k].draft.payload.reason else None
  {
    var kind := AnyOf({AwaitingHumanAttestation, HumanGateCleared});
    var field := (p: TaskProjection) => p.awaitingReason;
    var value := (p: TaskProjection, d: Draft) => if d.etype.AwaitingHumanAttestation? then d.payload.reason else None;
    assert MovesWith(field, kind, value) by {
      hide NextPhase, NextCompleted, NextStepIndex, NextManifestHash, NextWorkspace, PhaseOf, IsPolicyVerdict;
    }
    LastWriter(field, kind, value, s, h);
  }

  /** Request, context packet, plan and patch: what the last event of the one type that
      carries it carries. */
  lemma StageResultsAreLastWritten(s: TaskProjection, h: seq<LedgerEvent>, k: nat)
    ensures var p := ReplayFrom(s, h);
            && (NoneOf(h, AnyOf({TaskRequested})) ==> p.request == s.request)
            && (NoneOf(h, AnyOf({ContextHydrated})) ==> p.contextPacket == s.contextPacket)
            && (NoneOf(h, AnyOf({PlanCompiled})) ==> p.planSteps == s.planSteps)
            && (NoneOf(h, AnyOf({MutationCommitted})) ==> p.appliedPatch == s.appliedPatch)
    ensures var p := ReplayFrom(s, h);
            && (LastAt(h, k, AnyOf({TaskRequested})) ==> p.request == h[k].draft.payload.request)
            && (LastAt(h, k, AnyOf({ContextHydrated})) ==> p.contextPacket == h[k].draft.payload.contextPacket)
            && (LastAt(h, k, AnyOf({PlanCompiled})) ==> p.planSteps == h[k].draft.payload.executionSteps)
            && (LastAt(h, k, AnyOf({MutationCommitted})) ==> p.appliedPatch == h[k].draft.payload.appliedPatch)
  {
    hide NextPhase, NextCompleted, NextStepIndex, NextManifestHash, NextWorkspace, PhaseOf, IsPolicyVerdict;
    hide ReplayFrom, LastAt, NoneOf;
    var request := (p: TaskProjection) => p.request;
    var packet := (p: TaskProjection) => p.contextPacket;
    var plan := (p: TaskProjection) => p.planSteps;
    var patch := (p: TaskProjection) => p.appliedPatch;
    LastWriter(request, AnyOf({TaskRequested}), (p: TaskProjection, d: Draft) => d.payload.request, s, h);
    LastWriter(packet, AnyOf({ContextHydrated}), (p: TaskProjection, d: Draft) => d.payload.contextPacket, s, h);
    LastWriter(plan, AnyOf({PlanCompiled}), (p: TaskProjection, d: Draft) => d.payload.executionSteps, s, h);
    LastWriter(patch, AnyOf({MutationCommitted}), (p: TaskProjection, d: Draft) => d.payload.appliedPatch, s, h);
  }

  /** The envelope: newest modality and clock, oldest clock. */
  lemma {:induction false} EnvelopeIsKept(s: TaskProjection, h: seq<LedgerEvent>)
    ensures var p := ReplayFrom(s, h);
            && (h != [] ==> p.modality == h[|h| - 1].draft.mode && p.updatedAt == Some(h[|h| - 1].draft.at))
            && (h == [] ==> p.modality == s.modality && p.updatedAt == s.updatedAt)
            && p.createdAt == (if s.createdAt.Some? || h == [] then s.createdAt else Some(h[0].draft.at))
            && (h != [] && h[|h| - 1].stateVersion.Some? && h[|h| - 1].stateVersion.value > 0 ==>
                  Some(p.stateVersion) == h[|h| - 1].stateVersion)
  {
    hide NextPhase, NextCompleted, NextStepIndex, NextManifestHash, NextWorkspace, PhaseOf, IsPolicyVerdict;
    if h != [] {
      EnvelopeIsKept(s, h[..|h| - 1]);
    }
  }

  /** The session is the first one ever named. */
  lemma {:induction false} SessionIsFirstNamed(s: TaskProjection, h: seq<LedgerEvent>, k: nat)
    requires k <= |h| && forall j :: 0 <= j < k ==> h[j].draft.sessionId.None?
    ensures s.sessionId.Some? ==> ReplayFrom(s, h).sessionId == s.sessionId
    ensures s.sessionId.None? && k == |h| ==> ReplayFrom(s, h).sessionId.None?
    ensures s.sessionId.None? && k < |h| && h[k].draft.sessionId.Some? ==> ReplayFrom(s, h).sessionId == h[k].draft.sessionId
  {
    hide NextPhase, NextCompleted, NextStepIndex, NextManifestHash, NextWorkspace, PhaseOf, IsPolicyVerdict;
    if h != [] {
      SessionIsFirstNamed(s, h[..|h| - 1], if k == |h| then k - 1 else k);
    }
  }

  // -- which steps are done -------------------------------------------------

  /** The event takes step `i` back: a new plan, or a rollback to it or before it. */
  predicate Undoes(d: Draft, i: int) {
    || d.etype.PlanCompiled?
    || (d.etype.StateRollbackTriggered? && d.payload.restoredStepIndex.Some? && d.payload.restoredStepIndex.value <= i)
  }

  predicate NotUndoneFrom(h: seq<LedgerEvent>, from: nat, i: int) {
    forall m :: from <= m < |h| ==> !Undoes(h[m].draft, i)
  }

  ghost predicate CompletedBy(s: TaskProjection, h: seq<LedgerEvent>, j: nat, i: int) {
    j < |h| && h[j].draft.etype.ExecutionCompleted? && CompletedAt(s, h, j) == i && NotUndoneFrom(h, j + 1, i)
  }

  ghost predicate Done(s: TaskProjection, h: seq<LedgerEvent>, i: int) {
    (i in s.completedSteps && NotUndoneFrom(h, 0, i)) || exists j: nat :: CompletedBy(s, h, j, i)
  }

  lemma DoneSnoc(s: TaskProjection, h: seq<LedgerEvent>, e: LedgerEvent, i: int)
    ensures Done(s, h + [e], i)
            <==> (Done(s, h, i) && !Undoes(e.draft, i))
                 || (e.draft.etype.ExecutionCompleted? && CompletedAt(s, h + [e], |h|) == i)
  {
    hide ReplayFrom, Undoes;
    var h', n := h + [e], |h|;
    assert h'[n] == e && forall m :: 0 <= m < n ==> h'[m] == h[m] && h'[..m] == h[..m];
    assert forall from: nat :: from <= n ==> (NotUndoneFrom(h', from, i) <==> NotUndoneFrom(h, from, i) && !Undoes(e.draft, i)) by {
      forall from: nat | from <= n ensures NotUndoneFrom(h', from, i) <==> NotUndoneFrom(h, from, i) && !Undoes(e.draft, i) {
        if NotUndoneFrom(h', from, i) {
          assert !Undoes(h'[n].draft, i);
          forall m | from <= m < |h| ensures !Undoes(h[m].draft, i) { assert !Undoes(h'[m].draft, i); }
        }
      }
    }
    forall j: nat | j < n
      ensures CompletedBy(s, h', j, i) <==> CompletedBy(s, h, j, i) && !Undoes(e.draft, i)
    {
      assert CompletedAt(s, h', j) == CompletedAt(s, h, j);
    }
    assert CompletedBy(s, h', n, i) <==> e.draft.etype.ExecutionCompleted? && CompletedAt(s, h', n) == i;
  }

  /** A step is listed as done exactly when some completion of it has not been taken back. */
  lemma {:induction false} CompletedIff(s: TaskProjection, h: seq<LedgerEvent>, i: int)
    ensures i in ReplayFrom(s, h).completedSteps <==> Done(s, h, i)
  {
    hide Done, ApplyEvent;
    if h == [] {
      NothingDoneYet(s, i);
    } else {
      var init, e := h[..|h| - 1], h[|h| - 1];
      assert h == init + [e];
      CompletedIff(s, init, i);
      DoneSnoc(s, init, e, i);
      assert h[..|h| - 1] == init;
      OneMoreDone(ReplayFrom(s, init), e, i);
    }
  }

  lemma NothingDoneYet(s: TaskProjection, i: int)
    ensures Done(s, [], i) <==> i in s.completedSteps
  {
  }

  lemma OneMoreDone(p: TaskProjection, e: LedgerEvent, i: int)
    ensures i in ApplyEvent(p, e).completedSteps
            <==> (i in p.completedSteps && !Undoes(e.draft, i))
                 || (e.draft.etype.ExecutionCompleted? && CompletedIndex(p, e.draft) == i)
    ensures Distinct(p.completedSteps) ==> Distinct(ApplyEvent(p, e).completedSteps)
  {
    hide NextPhase, NextStepIndex, NextManifestHash, NextWorkspace, PhaseOf, IsPolicyVerdict;
  }

  lemma {:induction false} StaysDistinct(s: TaskProjection, h: seq<LedgerEvent>)
    requires Distinct(s.completedSteps)
    ensures Distinct(ReplayFrom(s, h).completedSteps)
  {
    hide ApplyEvent;
    if h != [] {
      StaysDistinct(s, h[..|h| - 1]);
      OneMoreDone(ReplayFrom(s, h[..|h| - 1]), h[|h| - 1], 0);
    }
  }

  lemma {:induction false} DistinctCount(steps: seq<int>, members: set<int>)
    requires Distinct(steps) && forall i :: i in members <==> i in steps
    ensures |members| == |steps|
  {
    if steps == [] {
      assert forall i :: i in members ==> i in steps;
      assert members <= {};
    } else {
      var n := |steps| - 1;
      assert steps == steps[..n] + [steps[n]];
      DistinctCount(steps[..n], members - {steps[n]});
    }
  }

  // -- the phase ------------------------------------------------------------

  /** A completion leaves the task executing exactly while fewer distinct steps are done
      than planned. */
  lemma CompletionMeansExecutingIff(s: TaskProjection, h: seq<LedgerEvent>, done: set<int>)
    requires h != [] && h[|h| - 1].draft.etype.ExecutionCompleted? && Distinct(s.completedSteps)
    requires forall i :: i in done <==> Done(s, h, i)
    ensures ReplayFrom(s, h).phase == if |done| < |ReplayFrom(s, h).planSteps| then Executing else Validating
  {
    hide Done, NextStepIndex, NextManifestHash, NextWorkspace, IsPolicyVerdict, NextCompleted;
    var p := ReplayFrom(s, h);
    forall i ensures i in done <==> i in p.completedSteps { CompletedIff(s, h, i); }
    StaysDistinct(s, h);
    DistinctCount(p.completedSteps, done);
  }

  /** Notes leave the phase alone; everything else moves it. */
  predicate MovesPhase(d: Draft) { !(d.etype.UserCorrection? || d.etype.ModelEscalated? || d.etype.RecoveryReplayCompleted?) }

  /** A release resumes in the phase it names, and in `EXECUTING` when it names none. */
  predicate Resumes(d: Draft, phase: TaskPhase) {
    d.etype.HumanGateCleared? && if d.payload.resumePhase.None? then phase == Executing else d.payload.resumePhase == Some(phase)
  }

  /** Which events put a task in which phase. */
  predicate LeadsTo(d: Draft, phase: TaskPhase) {
    || Resumes(d, phase)
    || match phase
       case Created => d.etype.TaskRequested?
       case Queued => d.etype.TaskQueued?
       case Hydrating => d.etype.ContextHydrationRequested?
       case Planning => d.etype.ContextHydrated?
       case PolicyReview => d.etype.PlanCompiled?
       case Executing => d.etype.PolicyCleared? || d.etype.ExecutionStarted? || d.etype.ExecutionCompleted? || d.etype.ValidationFailed?
       case Validating => d.etype.CritiqueConcluded? || d.etype.ExecutionCompleted?
       case AwaitingHuman => d.etype.AwaitingHumanAttestation?
       case Committed => d.etype.MutationCommitted?
       case Failed => d.etype.ExecutionFailed?
       case Blocked => d.etype.PolicyBlocked? || d.etype.SecurityViolation? || d.etype.HumanGateRejected?
       case RolledBack => d.etype.StateRollbackTriggered?
       case Abandoned => d.etype.TaskAbandoned?
  }

  /** The phase of a task is one its last event other than a note leads to; only a
      completion leaves two to choose from, and the previous lemma says which. */
  lemma PhaseIsLastWritten(s: TaskProjection, h: seq<LedgerEvent>, k: nat)
    ensures NoneOf(h, MovesPhase) ==> ReplayFrom(s, h).phase == s.phase
    ensures LastAt(h, k, MovesPhase) ==> LeadsTo(h[k].draft, ReplayFrom(s, h).phase)
    ensures LastAt(h, k, MovesPhase) ==>
              (h[k].draft.etype.IsTerminal() ==> ReplayFrom(s, h).phase.IsTerminal())
  {
    hide NextPhase, ReplayFrom, LeadsTo, ApplyEvent, TaskPhase.IsTerminal, EventType.IsTerminal;
    var field := (p: TaskProjection) => p.phase;
    var value := (p: TaskProjection, d: Draft) => NextPhase(p, d);
    forall p: TaskProjection, e: LedgerEvent
      ensures field(ApplyEvent(p, e)) == if MovesPhase(e.draft) then value(p, e.draft) else field(p)
    {
      OnePhase(p, e);
    }
    LastWriter(field, MovesPhase, value, s, h);
    if LastAt(h, k, MovesPhase) { NextPhaseIsLedTo(ReplayFrom(s, h[..k]), h[k].draft); }
  }

  lemma OnePhase(p: TaskProjection, e: LedgerEvent)
    ensures ApplyEvent(p, e).phase == if MovesPhase(e.draft) then NextPhase(p, e.draft) else p.phase
  {
    hide NextCompleted, NextStepIndex, NextManifestHash, NextWorkspace, IsPolicyVerdict;
  }

  lemma NextPhaseIsLedTo(p: TaskProjection, d: Draft)
    requires MovesPhase(d)
    ensures LeadsTo(d, NextPhase(p, d))
    ensures d.etype.IsTerminal() ==> NextPhase(p, d).IsTerminal()
  {
    hide NextCompleted;
  }
}
