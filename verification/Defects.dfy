/** Where the bookkeeping breaks. A rollback forgets completed steps, but their completion
    keys stay on the ledger and swallow the second completion; a release that resumes into
    the parked phase leaves nothing to release; and the critiques of a step share one key,
    so the second one is swallowed. */
module Defects {
  import opened Ledger
  import opened Replay
  import opened Gates
  import opened Lifecycle
  import opened LifecycleSafety
  import opened Orchestrator

  const CONFIG := Config(false, true, false, true, false, 2, 3)
  const CID := "task"

  function Event(etype: EventType, attempt: nat, disc: Discriminator, payload: Payload, version: nat): LedgerEvent {
    Seal(Draft(CID, None, etype, Standard, None, attempt, disc, payload, 0), version, version, Genesis)
  }

  const REQUESTED := Event(TaskRequested, 0, NoDisc, EMPTY_PAYLOAD, 1)
  const PLANNED := Event(PlanCompiled, 0, NoDisc, EMPTY_PAYLOAD.(executionSteps := ["edit"]), 2)
  const STARTED := Event(ExecutionStarted, 0, StepDisc(0), EMPTY_PAYLOAD.(stepIndex := Some(0)), 3)
  const COMPLETED := Event(ExecutionCompleted, 0, StepDisc(0), EMPTY_PAYLOAD.(stepIndex := Some(0)), 4)
  const COMMITTED := Event(MutationCommitted, 0, NoDisc, EMPTY_PAYLOAD, 6)
  const ROLLED_BACK := Event(StateRollbackTriggered, 0, RecoveryDisc(4), EMPTY_PAYLOAD.(restoredStepIndex := Some(0)), 5)

  ghost predicate At(h: seq<LedgerEvent>, phase: TaskPhase, plan: seq<Json>, done: seq<int>, attempts: nat, rollbacks: nat) {
    var p := Project(CID, h);
    && Lawful(CONFIG, CID, h) && GateHistory(h) == []
    && p.phase == phase && p.planSteps == plan && p.completedSteps == done && p.modality == Standard
    && p.attempts == attempts && p.rollbackCount == rollbacks && p.policyDecision.None?
  }

  lemma Extend(h: seq<LedgerEvent>, e: LedgerEvent)
    requires Lawful(CONFIG, CID, h) && GateHistory(h) == []
    requires e.draft.cid == CID && e.stateVersion == Some(|h| + 1) && !HasKey(h, e.draft.Key())
    requires !e.draft.etype.AwaitingHumanAttestation? && !e.draft.etype.HumanGateCleared?
    requires AllowedBy(CONFIG, Project(CID, h), [], h, e.draft)
    ensures Lawful(CONFIG, CID, h + [e]) && Project(CID, h + [e]) == ApplyEvent(Project(CID, h), e) && GateHistory(h + [e]) == []
  {
    LawfulSnoc(CONFIG, CID, h, e);
    ProjectSnoc(CID, h, e);
    GateHistorySnoc(h, e);
  }

  lemma AfterRequest() ensures At([REQUESTED], Created, [], [], 0, 0) {
    assert Lawful(CONFIG, CID, []) && Project(CID, []) == Initial(CID) && GateHistory([]) == [];
    hide Lawful, Project, GateHistory;
    Extend([], REQUESTED);
    assert [] + [REQUESTED] == [REQUESTED];
  }

  lemma AfterPlan() ensures At([REQUESTED, PLANNED], PolicyReview, ["edit"], [], 0, 0) {
    AfterRequest();
    hide Lawful, Project, GateHistory;
    Extend([REQUESTED], PLANNED);
    assert [REQUESTED] + [PLANNED] == [REQUESTED, PLANNED];
  }

  lemma AfterStart() ensures At([REQUESTED, PLANNED, STARTED], Executing, ["edit"], [], 1, 0) {
    AfterPlan();
    hide Lawful, Project, GateHistory;
    Extend([REQUESTED, PLANNED], STARTED);
    assert [REQUESTED, PLANNED] + [STARTED] == [REQUESTED, PLANNED, STARTED];
  }

  lemma AfterCompletion() ensures At([REQUESTED, PLANNED, STARTED, COMPLETED], Validating, ["edit"], [0], 1, 0) {
    AfterStart();
    hide Lawful, Project, GateHistory;
    Extend([REQUESTED, PLANNED, STARTED], COMPLETED);
    assert [REQUESTED, PLANNED, STARTED] + [COMPLETED] == [REQUESTED, PLANNED, STARTED, COMPLETED];
  }

  lemma AfterRollback() ensures At([REQUESTED, PLANNED, STARTED, COMPLETED, ROLLED_BACK], RolledBack, ["edit"], [], 1, 1) {
    AfterCompletion();
    hide Lawful, Project, GateHistory;
    Extend([REQUESTED, PLANNED, STARTED, COMPLETED], ROLLED_BACK);
    assert [REQUESTED, PLANNED, STARTED, COMPLETED] + [ROLLED_BACK] == [REQUESTED, PLANNED, STARTED, COMPLETED, ROLLED_BACK];
    assert KeepBelow([0], 0) == [];
  }

  const BEFORE := [REQUESTED, PLANNED, STARTED, COMPLETED, ROLLED_BACK]

  /** Every step passes at its first attempt. */
  const ALL_PASS := Answers(ContextFails, PlanFails, PolicyRaises, (i: int, a: int) => WorkerOk(0), (i: int, a: int) => CriticRaises)

  lemma AfterCommit() ensures At(BEFORE + [COMMITTED], Committed, ["edit"], [], 1, 1) {
    AfterRollback();
    hide Lawful, Project, GateHistory;
    assert BEFORE[4] == ROLLED_BACK;
    assert !RollbackFree(BEFORE);
    Extend(BEFORE, COMMITTED);
  }

  /** A crash before the commit and a drifted workspace are enough: every agent succeeds on
      the next run, that run commits, and the committed lineage lacks its only step, whose
      completion is on record from before the rollback. */
  lemma RollbackLosesACompletion()
    ensures Lawful(CONFIG, CID, BEFORE) && RunVerdict(CONFIG, ALL_PASS, CID, BEFORE) == Committed
    ensures PassingAttempt(CONFIG, ALL_PASS, 0, 0) == Some(0) && HasKey(BEFORE, ECompleted(CID, 0, 0))
    ensures var p := Project(CID, BEFORE); !CompletionsFree(CONFIG, ALL_PASS, CID, BEFORE, p.planSteps, p.completedSteps)
    ensures Lawful(CONFIG, CID, BEFORE + [COMMITTED])
    ensures var p := Project(CID, BEFORE + [COMMITTED]); p.phase == Committed && !AllStepsDone(p) && !EachStepOnce(p)
  {
    AfterRollback();
    AfterCommit();
    hide Lawful, Project, GateHistory;
    assert BEFORE[3] == COMPLETED;
    assert PassingAttempt(CONFIG, ALL_PASS, 0, 0) == Some(0);
    var p := Project(CID, BEFORE + [COMMITTED]);
    assert p.completedSteps == [] && multiset(p.completedSteps)[0] == 0;
  }

  // -- a release into the gate ------------------------------------------------

  const GATED := Config(true, false, false, false, false, 0, 1)
  const NAME := GateDisc(ContextBuilderPlanner, 1)

  const FILED := Seal(Draft(CID, None, TaskRequested, Standard, None, 0, NoDisc, EMPTY_PAYLOAD, 0), 1, 1, Genesis)
  const ASKED := Seal(Draft(CID, None, AwaitingHumanAttestation, Standard, Some(ContextBuilderPlanner), 0, NAME, EMPTY_PAYLOAD, 0), 2, 2, Genesis)

  /** `clear_human_gate(approved=True, resume_phase=AWAITING_HUMAN)` */
  const RELEASE := Draft(CID, None, HumanGateCleared, Standard, None, 0, NAME, EMPTY_PAYLOAD.(resumePhase := Some(AwaitingHuman)), 0)

  lemma AfterFiling()
    ensures Lawful(GATED, CID, [FILED]) && GateHistory([FILED]) == []
    ensures var p := Project(CID, [FILED]); p.phase == Created && p.contextPacket.None? && p.attempts == 0
  {
    assert Lawful(GATED, CID, []) && Project(CID, []) == Initial(CID) && GateHistory([]) == [];
    assert [] + [FILED] == [FILED];
    ProjectSnoc(CID, [], FILED);
    GateHistorySnoc([], FILED);
    hide Project, GateHistory;
    LawfulSnoc(GATED, CID, [], FILED);
  }

  lemma AfterQuestion()
    ensures Lawful(GATED, CID, [FILED, ASKED])
    ensures GateHistory([FILED, ASKED]) == [GateQuestion(Some(ContextBuilderPlanner), NAME, false, EMPTY_PAYLOAD)]
    ensures var p := Project(CID, [FILED, ASKED]); p.phase == AwaitingHuman && p.attempts == 0
  {
    AfterFiling();
    assert [FILED] + [ASKED] == [FILED, ASKED];
    ProjectSnoc(CID, [FILED], ASKED);
    GateHistorySnoc([FILED], ASKED);
    hide Lawful, Project, GateHistory;
    LawfulSnoc(GATED, CID, [FILED], ASKED);
  }

  const PARKED := [FILED, ASKED]

  /** A lawful parked lineage and a release of its question after which it is stuck: still
      parked, and nothing left to answer. */
  lemma ReleasedLineageIsStuck()
    ensures Lawful(GATED, CID, PARKED) && NamesOpenQuestion(Project(CID, PARKED), GateHistory(PARKED), RELEASE)
    ensures Stuck(GATED, CID, PARKED + [Seal(RELEASE, 3, 3, Tip(PARKED))])
  {
    AfterQuestion();
    hide Lawful, Project, GateHistory;
    assert |PARKED| == 2;
    ReleaseIntoTheGateSticks(GATED, CID, PARKED, RELEASE, 3);
  }

  /** A critic that turns the first attempt down and passes the second: the step is won, and
      the lineage still shows the rejection. */
  lemma RetriedStepShowsRejection() returns (cfg: Config, ans: Answers)
    ensures cfg.critic && StepWonAt(cfg, ans, 0, 1) && ans.critic(0, 1).Recorded() == "PASS"
    ensures forall shown :: ShowsVerdict(cfg, ans, 0, 1, shown) ==> shown != Some("PASS")
  {
    cfg := Config(false, false, false, true, true, 1, 3);
    ans := Answers(ContextFails, PlanFails, PolicyClears, (i: int, a: int) => WorkerOk(0),
                   (i: int, a: int) => CriticVerdict(true, Some(if a == 0 then "FAIL_REJECT_RETRY" else "PASS")));
    assert !ans.worker(0, 0).WorkerError?;
  }
}
