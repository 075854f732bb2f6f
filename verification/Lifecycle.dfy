/** The task lifecycle as a law over histories.

    `Allowed` says under which projection and gate history each event may be
    appended: one clause per stage guard of `src/paa/agents/orchestrator.py` and
    `src/paa/ledger/recovery.py`. A history is `Lawful` when every event was allowed
    by the prefix before it. Because the ledger only grows, a crash between two
    appends leaves a prefix, and every prefix of a lawful history is lawful: the
    theorems below therefore hold at every crash point of every run. */
module Lifecycle {
  import opened Ledger
  import opened Replay
  import opened Gates
  import opened ModalityProfiles

  /** Which agents are configured, and the two retry ceilings. */
  datatype Config = Config(
    builder: bool, planner: bool, policy: bool, worker: bool, critic: bool,
    maxStepRetries: int, maxAttempts: int)
  {
    /** `range(max_step_retries + 1)` */
    function StepAttempts(): nat { if maxStepRetries + 1 > 0 then maxStepRetries + 1 else 0 }
  }

  // -- stage guards ---------------------------------------------------------

  predicate HydrationPending(cfg: Config, p: TaskProjection, qs: seq<GateQuestion>) {
    cfg.builder && p.contextPacket.None? && !Asked(qs, ContextBuilderPlanner)
  }

  predicate PolicyPending(cfg: Config, p: TaskProjection, qs: seq<GateQuestion>) {
    cfg.policy && p.policyDecision.None? && !Asked(qs, PolicyRisk)
  }

  predicate HydrateAllows(cfg: Config, p: TaskProjection, qs: seq<GateQuestion>, d: Draft) {
    && HydrationPending(cfg, p, qs)
    && (d.etype.ContextHydrated? ==> d.payload.contextPacket.Some?)
  }

  predicate GateAllows(cfg: Config, p: TaskProjection, qs: seq<GateQuestion>, d: Draft) {
    && d.role.Some? && d.disc == GateDiscriminator(qs, d.role.value)
    && if d.role.value == ContextBuilderPlanner then HydrationPending(cfg, p, qs)
       else
         && d.role.value == PolicyRisk && p.phase != AwaitingHuman
         && PolicyPending(cfg, p, qs) && !HydrationPending(cfg, p, qs)
  }

  predicate PlanAllows(cfg: Config, p: TaskProjection, d: Draft) {
    && cfg.planner && p.planSteps == [] && p.phase != AwaitingHuman
    && d.attempt == 0 && d.disc == NoDisc
    && |d.payload.executionSteps| <= PlanCeiling(d.mode)
  }

  predicate PolicyAllows(cfg: Config, p: TaskProjection, qs: seq<GateQuestion>, d: Draft) {
    && cfg.policy && p.policyDecision.None? && p.phase != AwaitingHuman
    && if d.etype.PolicyCleared? then
         var q := StageQuestion(qs, PolicyRisk);
         && d.payload.decision.Has?
         && if q.Some? then q.value.answered && d.disc == q.value.disc else d.disc == NoDisc
       else !Asked(qs, PolicyRisk)
  }

  predicate StepAllows(cfg: Config, p: TaskProjection, d: Draft) {
    && cfg.worker && p.phase != AwaitingHuman
    && d.payload.stepIndex.Some?
    && var i := d.payload.stepIndex.value;
    && 0 <= i < |p.planSteps| && d.disc == StepDisc(i)
    && (d.etype.CritiqueConcluded? || d.attempt < cfg.StepAttempts())
    && i !in p.completedSteps
    && (cfg.policy ==> p.policyDecision.Some?)
  }

  predicate AllStepsDone(p: TaskProjection) {
    forall i :: 0 <= i < |p.planSteps| ==> i in p.completedSteps
  }

  predicate RollbackFree(h: seq<LedgerEvent>) {
    forall j :: 0 <= j < |h| ==> !h[j].draft.etype.StateRollbackTriggered?
  }

  predicate CommitAllows(cfg: Config, p: TaskProjection, qs: seq<GateQuestion>, h: seq<LedgerEvent>) {
    && p.phase != AwaitingHuman
    && !HydrationPending(cfg, p, qs)
    && (cfg.policy ==> p.policyDecision.Some?)
    && (cfg.worker && RollbackFree(h) ==> AllStepsDone(p))
  }

  predicate NamesOpenQuestion(p: TaskProjection, qs: seq<GateQuestion>, d: Draft) {
    && p.phase == AwaitingHuman
    && OpenQuestion(qs).Some? && d.disc == OpenQuestion(qs).value.disc
    && d.attempt == p.attempts
  }

  predicate RulingAllows(p: TaskProjection, qs: seq<GateQuestion>, d: Draft) {
    && NamesOpenQuestion(p, qs, d)
    && (d.etype.HumanGateCleared? ==> d.payload.resumePhase.Some? && d.payload.resumePhase.value != AwaitingHuman)
  }

  predicate RecoveryAllows(cfg: Config, p: TaskProjection, h: seq<LedgerEvent>, d: Draft)
    requires h != []
  {
    && p.phase != AwaitingHuman
    && if d.etype.StateRollbackTriggered? then
         && p.attempts < cfg.maxAttempts
         && d.attempt == p.rollbackCount && d.disc == RecoveryDisc(|h|)
         && d.payload.restoredStepIndex == Some(LowestCompleted(p.completedSteps))
       else if d.etype.TaskAbandoned? then
         p.attempts >= cfg.maxAttempts && d.disc == RecoveryDisc(|h|)
       else
         && p.attempts < cfg.maxAttempts
         && d.disc.SweepDisc? && d.disc.version <= |h| && d.attempt == 0
         && h[|h| - 1].draft.etype != RecoveryReplayCompleted
  }

  /** `min(completed_steps, default=0)` */
  function LowestCompleted(steps: seq<int>): (m: int)
    ensures steps == [] ==> m == 0
    ensures steps != [] ==> m in steps && forall i :: i in steps ==> m <= i
  {
    if steps == [] then 0
    else if |steps| == 1 then steps[0]
    else
      var rest := LowestCompleted(steps[1..]);
      assert steps == [steps[0]] + steps[1..];
      if steps[0] <= rest then steps[0] else rest
  }

  // -- the law --------------------------------------------------------------

  ghost predicate Allowed(cfg: Config, cid: CorrelationId, h: seq<LedgerEvent>, d: Draft) {
    d.cid == cid && !HasKey(h, d.Key()) && AllowedBy(cfg, Project(cid, h), GateHistory(h), h, d)
  }

  predicate AllowedBy(cfg: Config, p: TaskProjection, qs: seq<GateQuestion>, h: seq<LedgerEvent>, d: Draft) {
    if d.etype.TaskRequested? then h == []
    else if d.etype.TaskQueued? then |h| == 1
    else if d.etype.UserCorrection? then h != [] && d.attempt == p.userCorrections && d.disc == NoDisc
    else if d.etype.ModelEscalated? then h != []
    else if d.etype.HumanGateCleared? || d.etype.HumanGateRejected? then h != [] && RulingAllows(p, qs, d)
    else h != [] && !p.phase.IsTerminal() && StageAllows(cfg, p, qs, h, d)
  }

  predicate StageAllows(cfg: Config, p: TaskProjection, qs: seq<GateQuestion>, h: seq<LedgerEvent>, d: Draft)
    requires h != []
  {
    var t := d.etype;
    if t.ContextHydrationRequested? || t.ContextHydrated? then HydrateAllows(cfg, p, qs, d)
    else if t.AwaitingHumanAttestation? then GateAllows(cfg, p, qs, d)
    else if t.PlanCompiled? then PlanAllows(cfg, p, d)
    else if t.PolicyCleared? || t.PolicyBlocked? || t.SecurityViolation? then PolicyAllows(cfg, p, qs, d)
    else if IsStepEvent(t) then StepAllows(cfg, p, d)
    else if t.MutationCommitted? then CommitAllows(cfg, p, qs, h)
    else if t.ExecutionFailed? then p.phase != AwaitingHuman
    else RecoveryAllows(cfg, p, h, d)
  }

  predicate IsStepEvent(t: EventType) {
    t.ExecutionStarted? || t.CritiqueConcluded? || t.ExecutionCompleted? || t.ValidationFailed?
  }

  /** Histories the guards above let through, event by event. */
  ghost predicate Lawful(cfg: Config, cid: CorrelationId, h: seq<LedgerEvent>) {
    forall k :: 0 <= k < |h| ==> Permitted(cfg, cid, h, k)
  }

  /** The event at `k` carries the next version and was allowed when only the events
      before it were on record. */
  ghost predicate Permitted(cfg: Config, cid: CorrelationId, h: seq<LedgerEvent>, k: nat)
    requires k < |h|
  {
    h[k].stateVersion == Some(k + 1) && Allowed(cfg, cid, h[..k], h[k].draft)
  }

  lemma PermittedDependsOnPrefix(cfg: Config, cid: CorrelationId, h: seq<LedgerEvent>, g: seq<LedgerEvent>, k: nat)
    requires k < |h| && k < |g| && h[..k + 1] == g[..k + 1]
    ensures Permitted(cfg, cid, h, k) <==> Permitted(cfg, cid, g, k)
  {
    hide Allowed;
    assert h[..k] == h[..k + 1][..k] && g[..k] == g[..k + 1][..k];
    assert h[k] == h[..k + 1][k] && g[k] == g[..k + 1][k];
  }

  lemma LawfulSnoc(cfg: Config, cid: CorrelationId, h: seq<LedgerEvent>, e: LedgerEvent)
    requires Lawful(cfg, cid, h) && Allowed(cfg, cid, h, e.draft) && e.stateVersion == Some(|h| + 1)
    ensures Lawful(cfg, cid, h + [e])
  {
    var h' := h + [e];
    assert Permitted(cfg, cid, h', |h|) by { assert h'[..|h|] == h; }
    hide Permitted, Allowed;
    forall k | 0 <= k < |h| ensures Permitted(cfg, cid, h', k) {
      assert h'[..k + 1] == h[..k + 1];
      PermittedDependsOnPrefix(cfg, cid, h', h, k);
    }
  }

  /** A crash leaves a prefix, and prefixes stay lawful. */
  lemma CrashLeavesLawful(cfg: Config, cid: CorrelationId, h: seq<LedgerEvent>, n: nat)
    requires Lawful(cfg, cid, h) && n <= |h|
    ensures Lawful(cfg, cid, h[..n])
    ensures n < |h| ==> Allowed(cfg, cid, h[..n], h[n].draft)
  {
    assert n < |h| ==> Permitted(cfg, cid, h, n);
    assert n < |h| ==> Allowed(cfg, cid, h[..n], h[n].draft);
    hide Permitted, Allowed;
    forall k | 0 <= k < n ensures Permitted(cfg, cid, h[..n], k) {
      assert h[..n][..k + 1] == h[..k + 1];
      PermittedDependsOnPrefix(cfg, cid, h[..n], h, k);
    }
  }

  // -- the inductive invariant ----------------------------------------------

  /** Shape of the question list and its agreement with the phase. */
  predicate GateInv(cfg: Config, p: TaskProjection, qs: seq<GateQuestion>) {
    && (forall i :: 0 <= i < |qs| ==> NamedAfterStage(qs[i]))
    && (forall i, j :: 0 <= i < j < |qs| ==> qs[i].role != qs[j].role)
    && (forall i :: 0 <= i < |qs| - 1 ==> qs[i].answered)
    && (!p.phase.IsTerminal() ==> (p.phase == AwaitingHuman <==> qs != [] && !qs[|qs| - 1].answered))
    && (Asked(qs, ContextBuilderPlanner) ==> cfg.builder && p.contextPacket.None?)
    && (Asked(qs, PolicyRisk) ==> cfg.policy && !HydrationPending(cfg, p, qs))
  }

  predicate NamedAfterStage(q: GateQuestion) {
    (q.role == Some(ContextBuilderPlanner) || q.role == Some(PolicyRisk)) && q.disc == GateDisc(q.role.value, 1)
  }

  /** What the presence of an event says about the projection it led to. */
  predicate TraceInv(p: TaskProjection, qs: seq<GateQuestion>, h: seq<LedgerEvent>) {
    && (forall j :: 0 <= j < |h| ==> Traced(p, qs, h[j].draft, j))
    && (forall i :: 0 <= i < |qs| && qs[i].answered ==> ClearedBy(h, qs[i].disc))
    && (p.planSteps != [] ==> Occurs(h, PlanCompiled))
  }

  predicate Traced(p: TaskProjection, qs: seq<GateQuestion>, d: Draft, j: nat) {
    && (d.etype.IsTerminal() ==> p.phase.IsTerminal())
    && (d.etype.ContextHydrated? ==> p.contextPacket.Some?)
    && (d.etype.PolicyCleared? ==> p.policyDecision.Some?)
    && (d.etype.AwaitingHumanAttestation? ==> d.role.Some? && Asked(qs, d.role.value))
    && (d.etype.HumanGateCleared? ==> AnsweredNamed(qs, d.disc))
    && (d.etype.PlanCompiled? ==>
          && p.planSteps == d.payload.executionSteps && |p.planSteps| <= PlanCeiling(d.mode)
          && d.attempt == 0 && d.disc == NoDisc)
    && (d.etype.UserCorrection? ==> d.attempt < p.userCorrections)
    && (d.etype.StateRollbackTriggered? ==> d.attempt < p.rollbackCount)
    && (d.etype.RecoveryReplayCompleted? ==> d.disc.SweepDisc? && d.disc.version <= j)
  }

  predicate Occurs(h: seq<LedgerEvent>, t: EventType) {
    exists j :: 0 <= j < |h| && h[j].draft.etype == t
  }

  predicate ClearedBy(h: seq<LedgerEvent>, disc: Discriminator) {
    exists j :: 0 <= j < |h| && h[j].draft.etype.HumanGateCleared? && h[j].draft.disc == disc
  }

  predicate AnsweredNamed(qs: seq<GateQuestion>, disc: Discriminator) {
    exists i :: 0 <= i < |qs| && qs[i].disc == disc && qs[i].answered
  }

  /** Step bookkeeping. */
  predicate StepInv(cfg: Config, p: TaskProjection, h: seq<LedgerEvent>) {
    && Distinct(p.completedSteps)
    && (forall i :: i in p.completedSteps ==> 0 <= i < |p.planSteps|)
    && (forall j :: 0 <= j < |h| ==> StepTraced(cfg, p, h[j].draft))
    && (RollbackFree(h) ==> forall j :: 0 <= j < |h| && h[j].draft.etype.ExecutionCompleted? ==>
          h[j].draft.payload.stepIndex.value in p.completedSteps)
    && p.attempts == Count(h, ExecutionStarted)
  }

  predicate StepTraced(cfg: Config, p: TaskProjection, d: Draft) {
    d.etype.ExecutionStarted? || d.etype.ExecutionCompleted? ==>
      && d.payload.stepIndex.Some? && 0 <= d.payload.stepIndex.value < |p.planSteps|
      && d.disc == StepDisc(d.payload.stepIndex.value) && d.attempt < cfg.StepAttempts()
  }

  predicate KeysDistinct(h: seq<LedgerEvent>) {
    forall i, j :: 0 <= i < j < |h| ==> h[i].draft.Key() != h[j].draft.Key()
  }

  ghost predicate LifeInv(cfg: Config, cid: CorrelationId, h: seq<LedgerEvent>) {
    var p, qs := Project(cid, h), GateHistory(h);
    && p.stateVersion == |h| && p.correlationId == cid
    && KeysDistinct(h)
    && GateInv(cfg, p, qs)
    && TraceInv(p, qs, h)
    && StepInv(cfg, p, h)
    && (h != [] ==> h[0].draft.etype.TaskRequested?)
  }

  // -- every allowed append keeps the invariant ------------------------------

  lemma AskedAfter(qs: seq<GateQuestion>, d: Draft, role: Role)
    ensures Asked(GateStep(qs, d), role)
            <==> Asked(qs, role) || (d.etype.AwaitingHumanAttestation? && d.role == Some(role))
  {
    var qs' := GateStep(qs, d);
    if d.etype.AwaitingHumanAttestation? {
      assert qs'[|qs|].role == d.role;
      if Asked(qs, role) {
        var i :| 0 <= i < |qs| && qs[i].role == Some(role);
        assert qs'[i].role == Some(role);
      }
    } else {
      assert |qs'| == |qs| && forall i :: 0 <= i < |qs| ==> qs'[i].role == qs[i].role;
      if Asked(qs, role) {
        var i :| 0 <= i < |qs| && qs[i].role == Some(role);
        assert qs'[i].role == Some(role);
      }
    }
  }

  /** With at most the last question open, a ruling answers exactly that one. */
  lemma RulingAnswersLast(qs: seq<GateQuestion>)
    requires qs != [] && !qs[|qs| - 1].answered && qs[|qs| - 1].disc != NoDisc
    ensures OpenQuestion(qs) == Some(qs[|qs| - 1])
    ensures ReleasedQuestion(qs, qs[|qs| - 1].disc) == Some(|qs| - 1)
  {
  }

  lemma {:induction false} NoneAnsweredUnlessAsked(qs: seq<GateQuestion>, role: Role)
    requires !Asked(qs, role)
    ensures AnsweredCount(qs, role) == 0
  {
    if qs != [] {
      assert qs[|qs| - 1].role != Some(role);
      assert !Asked(qs[..|qs| - 1], role);
      NoneAnsweredUnlessAsked(qs[..|qs| - 1], role);
    }
  }

  /** Hydration cannot be pending while a lineage is parked on another stage's question. */
  lemma ParkedMeansHydrated(cfg: Config, p: TaskProjection, qs: seq<GateQuestion>)
    requires GateInv(cfg, p, qs) && !p.phase.IsTerminal() && HydrationPending(cfg, p, qs)
    ensures p.phase != AwaitingHuman
  {
  }

  /** A step that neither asks nor answers, and does not leave the parked phase open. */
  lemma QuietGateStep(cfg: Config, p: TaskProjection, p': TaskProjection, qs: seq<GateQuestion>)
    requires GateInv(cfg, p, qs)
    requires p'.contextPacket == p.contextPacket
             || (!Asked(qs, ContextBuilderPlanner) && p'.contextPacket.Some?)
    requires p'.phase == p.phase || p'.phase.IsTerminal()
             || (!p.phase.IsTerminal() && p.phase != AwaitingHuman && p'.phase != AwaitingHuman)
    ensures GateInv(cfg, p', qs)
  {
  }

  lemma ApplyMoves(p: TaskProjection, e: LedgerEvent)
    ensures ApplyEvent(p, e).phase == NextPhase(p, e.draft)
    ensures ApplyEvent(p, e).contextPacket
            == if e.draft.etype.ContextHydrated? then e.draft.payload.contextPacket else p.contextPacket
  {
  }

  lemma GateInvStep(cfg: Config, p: TaskProjection, qs: seq<GateQuestion>, h: seq<LedgerEvent>, e: LedgerEvent)
    requires GateInv(cfg, p, qs) && AllowedBy(cfg, p, qs, h, e.draft)
    requires |h| <= 1 ==> p.phase == Created
    ensures GateInv(cfg, ApplyEvent(p, e), GateStep(qs, e.draft))
  {
    ApplyMoves(p, e);
    hide GateInv, NextCompleted, ApplyEvent;
    var d, p', qs' := e.draft, ApplyEvent(p, e), GateStep(qs, e.draft);
    if d.etype.AwaitingHumanAttestation? {
      AskGateStep(cfg, p, qs, h, e);
    } else if d.etype.HumanGateCleared? {
      AnswerGateStep(cfg, p, qs, h, e);
    } else {
      if d.etype.ContextHydrationRequested? || d.etype.ContextHydrated? { ParkedMeansHydrated(cfg, p, qs); }
      QuietGateStep(cfg, p, p', qs);
    }
  }

  lemma AskGateStep(cfg: Config, p: TaskProjection, qs: seq<GateQuestion>, h: seq<LedgerEvent>, e: LedgerEvent)
    requires GateInv(cfg, p, qs) && AllowedBy(cfg, p, qs, h, e.draft) && e.draft.etype.AwaitingHumanAttestation?
    ensures GateInv(cfg, ApplyEvent(p, e), GateStep(qs, e.draft))
  {
    var d := e.draft;
    AskedAfter(qs, d, ContextBuilderPlanner);
    AskedAfter(qs, d, PolicyRisk);
    NoneAnsweredUnlessAsked(qs, d.role.value);
    if d.role.value == ContextBuilderPlanner { ParkedMeansHydrated(cfg, p, qs); }
    forall i | 0 <= i < |qs| ensures qs[i].role != d.role && qs[i].answered { }
  }

  lemma AnswerGateStep(cfg: Config, p: TaskProjection, qs: seq<GateQuestion>, h: seq<LedgerEvent>, e: LedgerEvent)
    requires GateInv(cfg, p, qs) && AllowedBy(cfg, p, qs, h, e.draft) && e.draft.etype.HumanGateCleared?
    ensures GateInv(cfg, ApplyEvent(p, e), GateStep(qs, e.draft))
  {
    AskedAfter(qs, e.draft, ContextBuilderPlanner);
    AskedAfter(qs, e.draft, PolicyRisk);
    RulingAnswersLast(qs);
  }

  lemma AnsweredAfter(qs: seq<GateQuestion>, d: Draft)
    ensures |qs| <= |GateStep(qs, d)|
    ensures forall i :: 0 <= i < |qs| ==>
              && GateStep(qs, d)[i].role == qs[i].role && GateStep(qs, d)[i].disc == qs[i].disc
              && (qs[i].answered ==> GateStep(qs, d)[i].answered)
  {
  }

  lemma TracedStep(cfg: Config, p: TaskProjection, qs: seq<GateQuestion>, h: seq<LedgerEvent>, e: LedgerEvent, d: Draft, j: nat)
    requires AllowedBy(cfg, p, qs, h, e.draft) && Traced(p, qs, d, j)
    requires e.draft.Key() != d.Key() && e.draft.cid == d.cid && h != [] && (|h| == 1 ==> p.phase == Created)
    ensures Traced(ApplyEvent(p, e), GateStep(qs, e.draft), d, j)
  {
    hide NextCompleted, NextStepIndex, NextManifestHash, NextWorkspace, CommitAllows, StepAllows;
    AnsweredAfter(qs, e.draft);
    if d.etype.AwaitingHumanAttestation? {
      AskedAfter(qs, e.draft, d.role.value);
    }
    if d.etype.HumanGateCleared? {
      var i :| 0 <= i < |qs| && qs[i].disc == d.disc && qs[i].answered;
      assert GateStep(qs, e.draft)[i].answered;
    }
  }

  lemma RulingAnswers(cfg: Config, p: TaskProjection, qs: seq<GateQuestion>, d: Draft)
    requires GateInv(cfg, p, qs) && RulingAllows(p, qs, d) && d.etype.HumanGateCleared?
    ensures AnsweredNamed(GateStep(qs, d), d.disc)
  {
    RulingAnswersLast(qs);
    assert GateStep(qs, d)[|qs| - 1].answered;
  }

  lemma TracedNewest(cfg: Config, p: TaskProjection, qs: seq<GateQuestion>, h: seq<LedgerEvent>, e: LedgerEvent)
    requires GateInv(cfg, p, qs) && AllowedBy(cfg, p, qs, h, e.draft)
    ensures Traced(ApplyEvent(p, e), GateStep(qs, e.draft), e.draft, |h|)
  {
    hide NextCompleted, NextStepIndex, NextManifestHash, NextWorkspace, CommitAllows, StepAllows, GateInv, GateStep,
         RulingAllows;
    if e.draft.etype.AwaitingHumanAttestation? {
      AskedAfter(qs, e.draft, e.draft.role.value);
    }
    if e.draft.etype.HumanGateCleared? {
      RulingAnswers(cfg, p, qs, e.draft);
    }
  }

  lemma TraceInvStep(cfg: Config, cid: CorrelationId, p: TaskProjection, qs: seq<GateQuestion>, h: seq<LedgerEvent>, e: LedgerEvent)
    requires GateInv(cfg, p, qs) && TraceInv(p, qs, h) && AllowedBy(cfg, p, qs, h, e.draft)
    requires e.draft.cid == cid && !HasKey(h, e.draft.Key()) && (|h| <= 1 ==> p.phase == Created)
    requires forall j :: 0 <= j < |h| ==> h[j].draft.cid == cid
    ensures TraceInv(ApplyEvent(p, e), GateStep(qs, e.draft), h + [e])
  {
    var p', qs', h' := ApplyEvent(p, e), GateStep(qs, e.draft), h + [e];
    forall j | 0 <= j < |h'| ensures Traced(p', qs', h'[j].draft, j) {
      hide AllowedBy, Traced, GateInv, ApplyEvent, GateStep;
      if j < |h| {
        assert Traced(p, qs, h[j].draft, j);
        TracedStep(cfg, p, qs, h, e, h[j].draft, j);
      } else {
        TracedNewest(cfg, p, qs, h, e);
      }
    }
    hide Traced, ApplyEvent;
    forall i | 0 <= i < |qs'| && qs'[i].answered ensures ClearedBy(h', qs'[i].disc) {
      if i < |qs| && qs[i].answered {
        assert ClearedBy(h, qs[i].disc);
        OccursSnoc(h, e, PlanCompiled, qs[i].disc);
      } else {
        assert h'[|h|] == e;
        RulingAnswersLast(qs);
      }
    }
    PlanOccurs(p, h, e);
  }

  lemma OccursSnoc(h: seq<LedgerEvent>, e: LedgerEvent, t: EventType, disc: Discriminator)
    ensures Occurs(h, t) ==> Occurs(h + [e], t)
    ensures ClearedBy(h, disc) ==> ClearedBy(h + [e], disc)
  {
    if Occurs(h, t) {
      var j :| 0 <= j < |h| && h[j].draft.etype == t;
      assert (h + [e])[j] == h[j];
    }
    if ClearedBy(h, disc) {
      var j :| 0 <= j < |h| && h[j].draft.etype.HumanGateCleared? && h[j].draft.disc == disc;
      assert (h + [e])[j] == h[j];
    }
  }

  lemma PlanOccurs(p: TaskProjection, h: seq<LedgerEvent>, e: LedgerEvent)
    requires p.planSteps != [] ==> Occurs(h, PlanCompiled)
    ensures ApplyEvent(p, e).planSteps != [] ==> Occurs(h + [e], PlanCompiled)
  {
    OccursSnoc(h, e, PlanCompiled, NoDisc);
    assert (h + [e])[|h|] == e;
  }

  lemma StepInvStep(cfg: Config, cid: CorrelationId, p: TaskProjection, qs: seq<GateQuestion>, h: seq<LedgerEvent>, e: LedgerEvent)
    requires StepInv(cfg, p, h) && AllowedBy(cfg, p, qs, h, e.draft)
    requires e.draft.cid == cid && (h == [] ==> p == Initial(cid))
    requires p.planSteps == [] || !e.draft.etype.PlanCompiled?
    ensures StepInv(cfg, ApplyEvent(p, e), h + [e])
  {
    hide NextPhase, NextStepIndex, NextManifestHash, NextWorkspace, CommitAllows, GateAllows, PolicyAllows;
    var p', h' := ApplyEvent(p, e), h + [e];
    assert h'[..|h|] == h && h'[|h|] == e;
    forall j | 0 <= j < |h'| ensures StepTraced(cfg, p', h'[j].draft) {
      if j < |h| { assert StepTraced(cfg, p, h[j].draft); }
    }
    if RollbackFree(h') {
      assert RollbackFree(h) by {
        forall j | 0 <= j < |h| ensures !h[j].draft.etype.StateRollbackTriggered? { assert h'[j] == h[j]; }
      }
      forall j | 0 <= j < |h'| && h'[j].draft.etype.ExecutionCompleted?
        ensures h'[j].draft.payload.stepIndex.value in p'.completedSteps
      {
        if j < |h| {
          assert h[j].draft.payload.stepIndex.value in p.completedSteps;
          assert StepTraced(cfg, p, h[j].draft);
        }
      }
    }
  }

  lemma KeysDistinctSnoc(h: seq<LedgerEvent>, e: LedgerEvent)
    requires KeysDistinct(h) && !HasKey(h, e.draft.Key())
    ensures KeysDistinct(h + [e])
  {
  }

  /** Every lawful history satisfies the invariant. */
  lemma {:induction false} LawfulInv(cfg: Config, cid: CorrelationId, h: seq<LedgerEvent>)
    requires Lawful(cfg, cid, h)
    ensures LifeInv(cfg, cid, h)
    ensures forall j :: 0 <= j < |h| ==> h[j].draft.cid == cid
    decreases |h|
  {
    hide Lawful, Allowed, LifeInv;
    if h == [] {
      EmptyInv(cfg, cid);
    } else {
      LawfulUnfolds(cfg, cid, h);
      var init, e := h[..|h| - 1], h[|h| - 1];
      assert h == init + [e];
      LawfulInv(cfg, cid, init);
      InvStep(cfg, cid, init, e);
    }
  }

  lemma LawfulUnfolds(cfg: Config, cid: CorrelationId, h: seq<LedgerEvent>)
    requires Lawful(cfg, cid, h) && h != []
    ensures var n := |h| - 1;
            && Lawful(cfg, cid, h[..n]) && h[n].stateVersion == Some(n + 1) && Allowed(cfg, cid, h[..n], h[n].draft)
            && h[n].draft.cid == cid
  {
    hide AllowedBy, Project, GateHistory;
    assert Permitted(cfg, cid, h, |h| - 1);
    CrashLeavesLawful(cfg, cid, h, |h| - 1);
  }

  lemma EmptyInv(cfg: Config, cid: CorrelationId)
    ensures LifeInv(cfg, cid, [])
  {
  }

  lemma InvStep(cfg: Config, cid: CorrelationId, h: seq<LedgerEvent>, e: LedgerEvent)
    requires LifeInv(cfg, cid, h) && Allowed(cfg, cid, h, e.draft) && e.stateVersion == Some(|h| + 1)
    requires forall j :: 0 <= j < |h| ==> h[j].draft.cid == cid
    ensures LifeInv(cfg, cid, h + [e])
  {
    hide AllowedBy, GateInv, StepInv, TraceInv, GateStep, NextPhase;
    var p, qs := Project(cid, h), GateHistory(h);
    ProjectSnoc(cid, h, e);
    GateHistorySnoc(h, e);
    if |h| <= 1 { FirstIsCreated(cfg, cid, h); }
    GateInvStep(cfg, p, qs, h, e);
    TraceInvStep(cfg, cid, p, qs, h, e);
    PlanSurvives(cfg, p, qs, h, e);
    StepInvStep(cfg, cid, p, qs, h, e);
    KeysDistinctSnoc(h, e);
    OpensWithRequest(cfg, p, qs, h, e);
  }

  lemma FirstIsCreated(cfg: Config, cid: CorrelationId, h: seq<LedgerEvent>)
    requires LifeInv(cfg, cid, h) && |h| <= 1
    ensures Project(cid, h).phase == Created
  {
    if |h| == 1 { assert h[..0] == []; }
  }

  lemma OpensWithRequest(cfg: Config, p: TaskProjection, qs: seq<GateQuestion>, h: seq<LedgerEvent>, e: LedgerEvent)
    requires AllowedBy(cfg, p, qs, h, e.draft) && (h != [] ==> h[0].draft.etype.TaskRequested?)
    ensures (h + [e])[0].draft.etype.TaskRequested?
  {
  }

  lemma PlanSurvives(cfg: Config, p: TaskProjection, qs: seq<GateQuestion>, h: seq<LedgerEvent>, e: LedgerEvent)
    requires AllowedBy(cfg, p, qs, h, e.draft)
    ensures p.planSteps == [] || !e.draft.etype.PlanCompiled?
  {
  }
}
