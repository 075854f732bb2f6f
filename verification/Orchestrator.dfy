/** The Chief Orchestrator (`src/paa/agents/orchestrator.py`). Every agent is an
    arbitrary answer: `Answers` fixes what each consultation of one run returns, and
    all contracts hold for every choice. */
module Orchestrator {
  import opened Ledger
  import opened Replay
  import opened Gates
  import opened ModalityProfiles
  import opened Lifecycle
  import opened LifecycleSafety
  import opened Store

  datatype ContextAnswer = ContextFails | EscalateToUser(question: Payload) | Packet(packet: Json)
  datatype PlanAnswer = PlanFails | PlanSteps(steps: seq<Json>)
  datatype PolicyAnswer = PolicyRaises | PolicyBlocks(antiGoal: bool, verdict: Payload) | PolicyGates(question: Payload) | PolicyClears
  datatype WorkerAnswer = WorkerRaises | WorkerError | WorkerOk(tokens: int)
  datatype CriticAnswer = CriticRaises | CriticVerdict(ok: bool, verdict: Option<string>)
  {
    predicate Pass() { CriticVerdict? && ok && verdict == Some("PASS") }

    /** The verdict its event carries. */
    function Recorded(): string
      requires CriticVerdict?
    {
      if verdict.Some? && verdict.value != "" then verdict.value else "FAIL_REJECT_RETRY"
    }
  }

  /** One run consults each stage agent at most once, and the worker and the critic
      at most once per step and attempt. */
  datatype Answers = Answers(
    context: ContextAnswer,
    plan: PlanAnswer,
    policy: PolicyAnswer,
    worker: (int, int) -> WorkerAnswer,
    critic: (int, int) -> CriticAnswer)

  // -- what a run should come to --------------------------------------------

  datatype Flow = Goes | Raises | Parks | Blocks

  function HydrateFlow(cfg: Config, ans: Answers, p: TaskProjection, qs: seq<GateQuestion>): Flow {
    if !HydrationPending(cfg, p, qs) then Goes
    else match ans.context
      case ContextFails => Raises
      case EscalateToUser(_) => Parks
      case Packet(_) => Goes
  }

  predicate PlanPending(cfg: Config, p: TaskProjection) { cfg.planner && p.planSteps == [] }

  function PlanFlow(cfg: Config, ans: Answers, p: TaskProjection, mode: Modality): Flow {
    if PlanPending(cfg, p) && mode != Simple
       && (ans.plan.PlanFails? || |ans.plan.steps| > PlanCeiling(mode))
    then Raises else Goes
  }

  function HydrationKey(cid: CorrelationId): Key { IdempotencyKey(cid, ContextHydrationRequested, 0, NoDisc) }

  function PlanKey(cid: CorrelationId): Key { IdempotencyKey(cid, PlanCompiled, 0, NoDisc) }

  function SimpleStep(p: TaskProjection): Json { if p.request.Some? then p.request.value else "" }

  /** The plan in force after the planning stage: a plan already recorded stands,
      and a second compilation (possible only after an empty one) is suppressed. */
  function PlanAfter(cfg: Config, ans: Answers, p: TaskProjection, mode: Modality, recorded: bool): seq<Json>
    requires PlanFlow(cfg, ans, p, mode) == Goes
  {
    if !PlanPending(cfg, p) || recorded then p.planSteps
    else if mode == Simple then [SimpleStep(p)]
    else ans.plan.steps
  }

  function PolicyFlow(cfg: Config, ans: Answers, p: TaskProjection, qs: seq<GateQuestion>): Flow {
    if !cfg.policy || p.policyDecision.Some? then Goes
    else if Asked(qs, PolicyRisk) then
      if StageQuestion(qs, PolicyRisk).value.answered then Goes else Parks
    else match ans.policy
      case PolicyRaises => Raises
      case PolicyBlocks(_, _) => Blocks
      case PolicyGates(_) => Parks
      case PolicyClears => Goes
  }

  predicate Passes(cfg: Config, ans: Answers, i: int, a: int) {
    ans.worker(i, a).WorkerOk? && (cfg.critic ==> ans.critic(i, a).Pass())
  }

  predicate StepRaises(cfg: Config, ans: Answers, i: int, a: int) {
    ans.worker(i, a).WorkerRaises?
    || (ans.worker(i, a).WorkerOk? && cfg.critic && ans.critic(i, a).CriticRaises?)
  }

  /** The attempt at which a step passes, or `None` when the run fails on it. */
  function PassingAttempt(cfg: Config, ans: Answers, i: int, a: nat): (r: Option<nat>)
    ensures r.Some? ==> a <= r.value < cfg.StepAttempts() && Passes(cfg, ans, i, r.value)
    decreases cfg.StepAttempts() - a
  {
    if a >= cfg.StepAttempts() || StepRaises(cfg, ans, i, a) then None
    else if Passes(cfg, ans, i, a) then Some(a)
    else PassingAttempt(cfg, ans, i, a + 1)
  }

  predicate StepsPass(cfg: Config, ans: Answers, plan: seq<Json>, completed: seq<int>) {
    forall i :: 0 <= i < |plan| && i !in completed ==> PassingAttempt(cfg, ans, i, 0).Some?
  }

  /** The phase a complete run ends in, decided from its start and its answers. */
  ghost function RunVerdict(cfg: Config, ans: Answers, cid: CorrelationId, h: seq<LedgerEvent>): TaskPhase {
    var p, qs := Project(cid, h), GateHistory(h);
    if p.phase.IsTerminal() || p.phase == AwaitingHuman then p.phase
    else if HydrateFlow(cfg, ans, p, qs) == Raises then Failed
    else if HydrateFlow(cfg, ans, p, qs) == Parks then AwaitingHuman
    else DriveVerdict(cfg, ans, p, qs, p.modality, HasKey(h, PlanKey(cid)))
  }

  function DriveVerdict(cfg: Config, ans: Answers, p: TaskProjection, qs: seq<GateQuestion>, mode: Modality, recorded: bool): TaskPhase {
    if PlanFlow(cfg, ans, p, mode) == Raises then Failed
    else match PolicyFlow(cfg, ans, p, qs)
      case Raises => Failed
      case Parks => AwaitingHuman
      case Blocks => Blocked
      case Goes => FinishVerdict(cfg, ans, PlanAfter(cfg, ans, p, mode, recorded), p.completedSteps)
  }

  function FinishVerdict(cfg: Config, ans: Answers, plan: seq<Json>, completed: seq<int>): TaskPhase {
    if cfg.worker && !StepsPass(cfg, ans, plan, completed) then Failed else Committed
  }

  // -- the same, spelled by the answers ---------------------------------------

  /** An attempt that counts: the worker delivers and the critic, if there is one, passes it. */
  predicate AttemptWins(cfg: Config, ans: Answers, i: int, a: int) {
    ans.worker(i, a).WorkerOk? && (cfg.critic ==> ans.critic(i, a).CriticVerdict? && ans.critic(i, a).ok && ans.critic(i, a).verdict == Some("PASS"))
  }

  /** An attempt that is retried: the worker reports an error, or the critic turns it down. */
  predicate AttemptLoses(cfg: Config, ans: Answers, i: int, a: int) {
    || ans.worker(i, a).WorkerError?
    || (ans.worker(i, a).WorkerOk? && cfg.critic && ans.critic(i, a).CriticVerdict? && !ans.critic(i, a).Pass())
  }

  /** Step `i` is won at attempt `a`, within the retries and after losing every earlier one. */
  predicate StepWonAt(cfg: Config, ans: Answers, i: int, a: int) {
    && 0 <= a < cfg.maxStepRetries + 1 && AttemptWins(cfg, ans, i, a)
    && forall b :: 0 <= b < a ==> AttemptLoses(cfg, ans, i, b)
  }

  ghost predicate StepWon(cfg: Config, ans: Answers, i: int) { exists a :: StepWonAt(cfg, ans, i, a) }

  lemma {:induction false} PassingAttemptWins(cfg: Config, ans: Answers, i: int, a: nat)
    requires forall b :: 0 <= b < a ==> AttemptLoses(cfg, ans, i, b)
    ensures var r := PassingAttempt(cfg, ans, i, a);
            && (r.Some? ==> StepWonAt(cfg, ans, i, r.value))
            && (r.None? ==> !StepWon(cfg, ans, i))
    decreases cfg.StepAttempts() - a
  {
    if a < cfg.StepAttempts() && !StepRaises(cfg, ans, i, a) && !Passes(cfg, ans, i, a) {
      PassingAttemptWins(cfg, ans, i, a + 1);
    } else {
      assert forall b :: StepWonAt(cfg, ans, i, b) && b > a ==> AttemptLoses(cfg, ans, i, a);
      assert forall b :: StepWonAt(cfg, ans, i, b) && b < a ==> AttemptLoses(cfg, ans, i, b);
    }
  }

  /** The run gets past hydration. */
  predicate Hydrates(cfg: Config, ans: Answers, p: TaskProjection, qs: seq<GateQuestion>) {
    HydrationPending(cfg, p, qs) ==> ans.context.Packet?
  }

  /** The run gets past planning: there is a plan, or no planner, or nothing to ask it, or
      an answer within the ceiling. */
  predicate Plans(cfg: Config, ans: Answers, p: TaskProjection) {
    || p.planSteps != [] || !cfg.planner || p.modality == Simple
    || (ans.plan.PlanSteps? && |ans.plan.steps| <= PlanCeiling(p.modality))
  }

  /** The run asks the policy agent. */
  predicate Consults(cfg: Config, ans: Answers, p: TaskProjection, qs: seq<GateQuestion>) {
    && Hydrates(cfg, ans, p, qs) && Plans(cfg, ans, p)
    && cfg.policy && p.policyDecision.None? && !Asked(qs, PolicyRisk)
  }

  /** The run may execute: nothing to review, a review or a question on record, or a
      policy agent that clears the plan. */
  predicate MayExecute(cfg: Config, ans: Answers, p: TaskProjection, qs: seq<GateQuestion>) {
    && Hydrates(cfg, ans, p, qs) && Plans(cfg, ans, p)
    && (!cfg.policy || p.policyDecision.Some? || Asked(qs, PolicyRisk) || ans.policy.PolicyClears?)
  }

  /** Every step of the plan that is not done is won. */
  ghost predicate RemainingWon(cfg: Config, ans: Answers, plan: seq<Json>, completed: seq<int>) {
    forall i :: 0 <= i < |plan| && i !in completed ==> StepWon(cfg, ans, i)
  }

  ghost predicate NewStepsWon(cfg: Config, ans: Answers, completed: seq<int>, completed': seq<int>) {
    forall i :: i in completed' && i !in completed ==> StepWon(cfg, ans, i)
  }

  lemma StepsPassIff(cfg: Config, ans: Answers, plan: seq<Json>, completed: seq<int>)
    ensures StepsPass(cfg, ans, plan, completed) <==> RemainingWon(cfg, ans, plan, completed)
  {
    hide PassingAttempt, StepWon;
    forall i ensures PassingAttempt(cfg, ans, i, 0).Some? <==> StepWon(cfg, ans, i) {
      PassingAttemptWins(cfg, ans, i, 0);
      if PassingAttempt(cfg, ans, i, 0).Some? { WonIsWon(cfg, ans, i, PassingAttempt(cfg, ans, i, 0).value); }
    }
  }

  lemma WonIsWon(cfg: Config, ans: Answers, i: int, a: int)
    requires StepWonAt(cfg, ans, i, a)
    ensures StepWon(cfg, ans, i)
  {
  }

  /** What a run of a live, unparked task comes to, by the answers alone. `p` and `p'` are
      the projections before and after, and `recorded` tells whether a plan was compiled. */
  ghost predicate ComesTo(cfg: Config, ans: Answers, p: TaskProjection, qs: seq<GateQuestion>, recorded: bool, p': TaskProjection) {
    && (p'.phase == Blocked <==> Consults(cfg, ans, p, qs) && ans.policy.PolicyBlocks?)
    && (p'.phase == AwaitingHuman <==>
          || (HydrationPending(cfg, p, qs) && ans.context.EscalateToUser?)
          || (Consults(cfg, ans, p, qs) && ans.policy.PolicyGates?))
    && (p'.phase == Committed <==>
          MayExecute(cfg, ans, p, qs) && (cfg.worker ==> RemainingWon(cfg, ans, p'.planSteps, p.completedSteps)))
    && (p'.phase == Blocked || p'.phase == AwaitingHuman || p'.phase == Committed || p'.phase == Failed)
    && (MayExecute(cfg, ans, p, qs) ==> InForce(cfg, ans, p, recorded, p'.planSteps))
  }

  /** The plan a run executes: the one on record; else one step that is the request itself
      for a simple task, and the planner's answer for any other. */
  predicate InForce(cfg: Config, ans: Answers, p: TaskProjection, recorded: bool, plan: seq<Json>) {
    if p.planSteps != [] || !cfg.planner || recorded then plan == p.planSteps
    else if p.modality == Simple then |plan| == 1 && (p.request.Some? ==> plan[0] == p.request.value)
    else ans.plan.PlanSteps? && plan == ans.plan.steps
  }

  /** The event a run that ended in `phase` leaves behind last. */
  predicate EndsOn(cfg: Config, ans: Answers, p: TaskProjection, qs: seq<GateQuestion>, phase: TaskPhase, d: Draft) {
    match phase
    case Blocked =>
      ans.policy.PolicyBlocks? && d.payload == ans.policy.verdict
      && if ans.policy.antiGoal then d.etype.SecurityViolation? else d.etype.PolicyBlocked?
    case AwaitingHuman =>
      d.etype.AwaitingHumanAttestation?
      && if HydrationPending(cfg, p, qs) && ans.context.EscalateToUser?
         then d.role == Some(ContextBuilderPlanner) && d.payload == ans.context.question
         else d.role == Some(PolicyRisk) && ans.policy.PolicyGates? && d.payload == ans.policy.question
    case Committed => d.etype.MutationCommitted?
    case Failed => d.etype.ExecutionFailed?
    case _ => false
  }

  lemma VerdictSpelled(cfg: Config, ans: Answers, p: TaskProjection, qs: seq<GateQuestion>, recorded: bool, p': TaskProjection)
    requires !p.phase.IsTerminal() && p.phase != AwaitingHuman && forall q :: q in qs ==> q.answered
    requires p'.phase == if HydrateFlow(cfg, ans, p, qs) == Raises then Failed
                         else if HydrateFlow(cfg, ans, p, qs) == Parks then AwaitingHuman
                         else DriveVerdict(cfg, ans, p, qs, p.modality, recorded)
    requires HydrateFlow(cfg, ans, p, qs) == Goes && PlanFlow(cfg, ans, p, p.modality) == Goes ==>
               p'.planSteps == PlanAfter(cfg, ans, p, p.modality, recorded)
    ensures ComesTo(cfg, ans, p, qs, recorded, p')
  {
    hide RemainingWon, StepsPass, HydrationPending, Asked;
    StepsPassIff(cfg, ans, p'.planSteps, p.completedSteps);
  }

  // -- appending under the law ----------------------------------------------

  lemma StageAllowed(cfg: Config, cid: CorrelationId, h: seq<LedgerEvent>, d: Draft)
    requires h != [] && !Project(cid, h).phase.IsTerminal() && d.cid == cid
    requires StageAllows(cfg, Project(cid, h), GateHistory(h), h, d) && !HasKey(h, d.Key())
    requires !d.etype.TaskRequested? && !d.etype.TaskQueued? && !d.etype.HumanGateCleared? && !d.etype.HumanGateRejected?
    requires !d.etype.UserCorrection? && !d.etype.ModelEscalated?
    ensures Allowed(cfg, cid, h, d)
  {
  }

  lemma KeyAfterSnoc(h: seq<LedgerEvent>, e: LedgerEvent, key: Key)
    ensures HasKey(h + [e], key) <==> HasKey(h, key) || key == e.draft.Key()
  {
    if HasKey(h, key) {
      var j :| 0 <= j < |h| && h[j].draft.Key() == key;
      assert (h + [e])[j] == h[j];
    }
    assert (h + [e])[|h|] == e;
  }

  function StepKey(cid: CorrelationId, t: EventType, i: int, a: nat): Key { IdempotencyKey(cid, t, a, StepDisc(i)) }

  /** One attempt as the lineage shows it: its start, its critique, and its failure if it
      is lost. All critiques of a step share one key. */
  predicate AttemptRecorded(cfg: Config, ans: Answers, cid: CorrelationId, h: seq<LedgerEvent>, i: int, a: nat) {
    && HasKey(h, StepKey(cid, ExecutionStarted, i, a))
    && (ans.worker(i, a).WorkerOk? && cfg.critic && ans.critic(i, a).CriticVerdict? ==> HasKey(h, StepKey(cid, CritiqueConcluded, i, 0)))
    && (AttemptLoses(cfg, ans, i, a) ==> HasKey(h, StepKey(cid, ValidationFailed, i, a)))
  }

  /** The verdict shown after a step is won under a critic, in a lineage that had nothing of
      the step on record: all critiques of a step share one key, so only the first is kept,
      and a later failure overwrites it. */
  predicate ShowsVerdict(cfg: Config, ans: Answers, i: int, a: int, shown: Option<string>) {
    shown == Some("PASS") <==> forall b :: 0 <= b < a ==> ans.worker(i, b).WorkerError?
  }

  /** What one attempt does to the keys of critiques and failures, and to the verdict shown. */
  ghost predicate AttemptShows(cfg: Config, ans: Answers, cid: CorrelationId, h: seq<LedgerEvent>, h': seq<LedgerEvent>,
                               i: int, a: nat, passed: bool, shown: Option<string>, shown': Option<string>) {
    && (HasKey(h', StepKey(cid, CritiqueConcluded, i, 0))
        <==> HasKey(h, StepKey(cid, CritiqueConcluded, i, 0)) || (cfg.critic && ans.worker(i, a).WorkerOk?))
    && (forall b :: b != a ==> (HasKey(h', StepKey(cid, ValidationFailed, i, b)) <==> HasKey(h, StepKey(cid, ValidationFailed, i, b))))
    && (passed && cfg.critic ==> shown' == if HasKey(h, StepKey(cid, CritiqueConcluded, i, 0)) then shown else Some("PASS"))
    && (!passed && !HasKey(h, StepKey(cid, ValidationFailed, i, a)) ==> shown' == Some("FAIL_REJECT_RETRY"))
  }

  /** A step of which nothing was on record, after `a` lost attempts. */
  predicate LostSoFar(ans: Answers, cid: CorrelationId, h: seq<LedgerEvent>, i: int, a: nat, n: nat, shown: Option<string>) {
    && (HasKey(h, StepKey(cid, CritiqueConcluded, i, 0)) <==> exists b :: 0 <= b < a && !ans.worker(i, b).WorkerError?)
    && (forall b :: a <= b < n ==> !HasKey(h, StepKey(cid, ValidationFailed, i, b)))
    && (a > 0 ==> shown == Some("FAIL_REJECT_RETRY"))
  }

  lemma LostOnceMore(cfg: Config, ans: Answers, cid: CorrelationId, h: seq<LedgerEvent>, h': seq<LedgerEvent>,
                     i: int, a: nat, n: nat, passed: bool, shown: Option<string>, shown': Option<string>)
    requires cfg.critic && a < n && LostSoFar(ans, cid, h, i, a, n, shown) && AttemptShows(cfg, ans, cid, h, h', i, a, passed, shown, shown')
    requires !ans.worker(i, a).WorkerRaises?
    ensures !passed ==> LostSoFar(ans, cid, h', i, a + 1, n, shown')
    ensures passed ==> ShowsVerdict(cfg, ans, i, a, shown')
  {
    hide HasKey;
  }

  /** Nothing of step `i` is on record. */
  predicate NoneOfStep(h: seq<LedgerEvent>, i: int) {
    forall j :: 0 <= j < |h| ==> h[j].draft.disc != StepDisc(i)
  }

  lemma NoneLost(ans: Answers, cid: CorrelationId, h: seq<LedgerEvent>, i: int, n: nat, shown: Option<string>)
    requires NoneOfStep(h, i)
    ensures LostSoFar(ans, cid, h, i, 0, n, shown)
  {
  }

  /** Every attempt below `n`, up to the first that is not lost, is on record. */
  predicate AttemptsRecorded(cfg: Config, ans: Answers, cid: CorrelationId, h: seq<LedgerEvent>, i: int, n: nat) {
    forall a: nat :: a < n && (forall b :: 0 <= b < a ==> AttemptLoses(cfg, ans, i, b)) ==> AttemptRecorded(cfg, ans, cid, h, i, a)
  }

  lemma PrefixKeysGrow(h: seq<LedgerEvent>, h': seq<LedgerEvent>, key: Key)
    requires h <= h' && HasKey(h, key)
    ensures HasKey(h', key)
  {
    var j :| 0 <= j < |h| && h[j].draft.Key() == key;
    assert h'[j] == h[j];
  }

  lemma StillRecorded(cfg: Config, ans: Answers, cid: CorrelationId, h: seq<LedgerEvent>, h': seq<LedgerEvent>, i: int, n: nat)
    requires h <= h' && AttemptsRecorded(cfg, ans, cid, h, i, n)
    ensures AttemptsRecorded(cfg, ans, cid, h', i, n)
  {
    hide AttemptLoses, AttemptRecorded;
    forall a | AttemptRecorded(cfg, ans, cid, h, i, a) ensures AttemptRecorded(cfg, ans, cid, h', i, a) {
      StaysRecorded(cfg, ans, cid, h, h', i, a);
    }
  }

  lemma StaysRecorded(cfg: Config, ans: Answers, cid: CorrelationId, h: seq<LedgerEvent>, h': seq<LedgerEvent>, i: int, a: nat)
    requires h <= h' && AttemptRecorded(cfg, ans, cid, h, i, a)
    ensures AttemptRecorded(cfg, ans, cid, h', i, a)
  {
    hide HasKey, AttemptLoses;
    forall key | HasKey(h, key) ensures HasKey(h', key) { PrefixKeysGrow(h, h', key); }
  }

  lemma NoneRecorded(cfg: Config, ans: Answers, cid: CorrelationId, h: seq<LedgerEvent>, i: int)
    ensures AttemptsRecorded(cfg, ans, cid, h, i, 0)
  {
  }

  /** An attempt is added to those on record; unless it is lost, no later one is made. */
  lemma RecordedNext(cfg: Config, ans: Answers, cid: CorrelationId, h: seq<LedgerEvent>, h': seq<LedgerEvent>, i: int, a: nat, n: nat)
    requires h <= h' && AttemptsRecorded(cfg, ans, cid, h, i, a) && AttemptRecorded(cfg, ans, cid, h', i, a)
    ensures AttemptsRecorded(cfg, ans, cid, h', i, if AttemptLoses(cfg, ans, i, a) then a + 1 else n)
  {
    hide AttemptLoses, AttemptRecorded;
    StillRecorded(cfg, ans, cid, h, h', i, a);
  }

  function ECompleted(cid: CorrelationId, i: int, a: nat): Key { IdempotencyKey(cid, ExecutionCompleted, a, StepDisc(i)) }

  class ChiefOrchestrator {
    const ledger: LedgerStore
    const cfg: Config

    constructor (ledger: LedgerStore, cfg: Config)
      ensures this.ledger == ledger && this.cfg == cfg
    {
      this.ledger, this.cfg := ledger, cfg;
    }

    ghost function Hist(cid: CorrelationId): seq<LedgerEvent>
      reads ledger
    {
      Lineage(ledger.table, cid)
    }

    ghost function P(cid: CorrelationId): TaskProjection
      reads ledger
    {
      Project(cid, Hist(cid))
    }

    ghost function Q(cid: CorrelationId): seq<GateQuestion>
      reads ledger
    {
      GateHistory(Hist(cid))
    }

    /** The store is sound and this lineage has only seen lawful appends. */
    ghost predicate Ready(cid: CorrelationId)
      reads ledger
    {
      ledger.Valid() && ledger.SnapshotsFaithful() && Lawful(cfg, cid, Hist(cid))
    }

    /** `_emit`: one lawful append, or a suppressed redelivery. */
    method Emit(d: Draft) returns (stored: LedgerEvent)
      requires Ready(d.cid)
      requires !HasKey(Hist(d.cid), d.Key()) ==> Allowed(cfg, d.cid, Hist(d.cid), d)
      modifies ledger`table, ledger`heads
      ensures Ready(d.cid)
      ensures forall c :: c != d.cid ==> Hist(c) == old(Hist(c))
      ensures old(HasKey(Hist(d.cid), d.Key())) ==> Hist(d.cid) == old(Hist(d.cid))
      ensures !old(HasKey(Hist(d.cid), d.Key())) ==>
                && stored.draft == d && Hist(d.cid) == old(Hist(d.cid)) + [stored]
                && P(d.cid) == ApplyEvent(old(P(d.cid)), stored) && Q(d.cid) == GateStep(old(Q(d.cid)), d)
      ensures forall key :: HasKey(Hist(d.cid), key) <==> old(HasKey(Hist(d.cid), key)) || key == d.Key()
    {
      hide Lawful, Allowed, Project, GateHistory, LedgerStore.Valid, LedgerStore.SnapshotsFaithful, ApplyEvent, GateStep;
      ghost var h := Hist(d.cid);
      stored := ledger.Append(d);
      if !HasKey(h, d.Key()) {
        ghost var e := stored;
        assert Hist(d.cid) == h + [e];
        LawfulSnoc(cfg, d.cid, h, e);
        ProjectSnoc(d.cid, h, e);
        GateHistorySnoc(h, e);
        forall key ensures HasKey(h + [e], key) <==> HasKey(h, key) || key == d.Key() { KeyAfterSnoc(h, e, key); }
      }
    }

    ghost predicate Live(cid: CorrelationId)
      reads ledger
    {
      Ready(cid) && Hist(cid) != [] && !P(cid).phase.IsTerminal()
    }

    /** What a stage never touches: the other lineages, and the past of this one. */
    twostate predicate OnlyExtends(cid: CorrelationId)
      reads ledger
    {
      old(Hist(cid)) <= Hist(cid) && forall c :: c != cid ==> Hist(c) == old(Hist(c))
    }

    /** No step completion was recorded. */
    twostate predicate SameCompletions(cid: CorrelationId)
      reads ledger
    {
      forall key: Key :: key.etype.ExecutionCompleted? ==> (HasKey(Hist(cid), key) <==> old(HasKey(Hist(cid), key)))
    }

    /** No step was started, criticised or completed. */
    twostate predicate NothingExecuted(cid: CorrelationId)
      reads ledger
    {
      forall k :: |old(Hist(cid))| <= k < |Hist(cid)| ==> !IsStepEvent(Hist(cid)[k].draft.etype)
    }

    ghost function Newest(cid: CorrelationId): Draft
      reads ledger
      requires Hist(cid) != []
    {
      Hist(cid)[|Hist(cid)| - 1].draft
    }

    twostate predicate KeepsPlan(cid: CorrelationId)
      reads ledger
    {
      P(cid).planSteps == old(P(cid)).planSteps && P(cid).completedSteps == old(P(cid)).completedSteps && P(cid).modality == old(P(cid)).modality
    }

    method CurrentQuestions(cid: CorrelationId) returns (questions: seq<GateQuestion>)
      requires Ready(cid)
      ensures questions == Q(cid)
    {
      var events := ledger.ReadCorrelation(cid, 0);
      assert Hist(cid)[0..] == Hist(cid);
      questions := ReadGateHistory(events);
    }

    method CurrentState(cid: CorrelationId) returns (state: TaskProjection)
      requires Ready(cid) && Hist(cid) != []
      ensures state == P(cid)
    {
      var r := ledger.ProjectTask(cid);
      state := r.value;
    }

    /** `_open_gate`: the question always lands and parks its lineage. */
    method OpenGate(cid: CorrelationId, role: Role, question: Payload, mode: Modality, session: Option<string>, at: Timestamp)
      requires Live(cid)
      requires role == ContextBuilderPlanner || role == PolicyRisk
      requires role == ContextBuilderPlanner ==> HydrationPending(cfg, P(cid), Q(cid))
      requires role == PolicyRisk ==>
                 P(cid).phase != AwaitingHuman && PolicyPending(cfg, P(cid), Q(cid)) && !HydrationPending(cfg, P(cid), Q(cid))
      requires P(cid).modality == mode
      modifies ledger`table, ledger`heads
      ensures Live(cid) && OnlyExtends(cid)
      ensures P(cid).phase == AwaitingHuman && |Q(cid)| == |old(Q(cid))| + 1 && KeepsPlan(cid)
      ensures |Hist(cid)| == |old(Hist(cid))| + 1 && NothingExecuted(cid)
      ensures forall key :: old(HasKey(Hist(cid), key)) ==> HasKey(Hist(cid), key)
      ensures Newest(cid).etype.AwaitingHumanAttestation? && Newest(cid).role == Some(role) && Newest(cid).payload == question
    {
      hide Lawful, Project, GateHistory, Allowed, LedgerStore.Valid, LedgerStore.SnapshotsFaithful;
      var questions := CurrentQuestions(cid);
      var d := Draft(cid, session, AwaitingHumanAttestation, mode, Some(role), 0, GateDiscriminator(questions, role), question, at);
      assert GateAllows(cfg, P(cid), Q(cid), d);
      hide GateAllows, ApplyEvent, HasKey, Lineage, HydrationPending, PolicyPending;
      QuestionAllowed(cfg, cid, Hist(cid), d);
      ghost var p := P(cid);
      var e := Emit(d);
      QuestionParks(p, e);
    }

    /** `_hydrate`. A stage whose question is on record is not asked again, whether
        or not a human has answered it. */
    method Hydrate(cid: CorrelationId, state: TaskProjection, ans: Answers, at: Timestamp) returns (raised: bool)
      requires Live(cid) && state == P(cid)
      modifies ledger`table, ledger`heads
      ensures Live(cid) && OnlyExtends(cid)
      ensures !old(HydrationPending(cfg, P(cid), Q(cid))) ==> !raised && Hist(cid) == old(Hist(cid))
      ensures raised <==> HydrateFlow(cfg, ans, state, old(Q(cid))) == Raises
      ensures raised ==> P(cid).phase != AwaitingHuman
      ensures NothingExecuted(cid) && KeepsPlan(cid)
      ensures old(HydrationPending(cfg, P(cid), Q(cid))) ==> HasKey(Hist(cid), HydrationKey(cid))
      ensures HydrateFlow(cfg, ans, state, old(Q(cid))) == Parks ==>
                && P(cid).phase == AwaitingHuman && |Q(cid)| == |old(Q(cid))| + 1
                && Newest(cid).etype.AwaitingHumanAttestation? && Newest(cid).role == Some(ContextBuilderPlanner)
                && Newest(cid).payload == ans.context.question
      ensures HydrateFlow(cfg, ans, state, old(Q(cid))) == Goes ==>
                && !HydrationPending(cfg, P(cid), Q(cid)) && Q(cid) == old(Q(cid))
                && (P(cid).phase == AwaitingHuman <==> state.phase == AwaitingHuman)
                && SameExceptContext(state, P(cid)) && SameCompletions(cid)
                && (HasKey(Hist(cid), PlanKey(cid)) <==> old(HasKey(Hist(cid), PlanKey(cid))))
    {
      hide Lawful, Project, GateHistory, Allowed, LedgerStore.Valid, LedgerStore.SnapshotsFaithful;
      if state.contextPacket.Some? || !cfg.builder { return false; }
      var questions := CurrentQuestions(cid);
      var gate := StageQuestion(questions, ContextBuilderPlanner);
      if gate.Some? { return false; }

      RequestHydration(cid, state, at);
      if ans.context.ContextFails? { return true; }
      if ans.context.EscalateToUser? {
        OpenGate(cid, ContextBuilderPlanner, ans.context.question, state.modality, state.sessionId, at);
        return false;
      }
      RecordPacket(cid, state, ans.context.packet, at);
      return false;
    }

    method RequestHydration(cid: CorrelationId, state: TaskProjection, at: Timestamp)
      requires Live(cid) && HydrationPending(cfg, P(cid), Q(cid))
      requires P(cid).modality == state.modality
      modifies ledger`table, ledger`heads
      ensures Live(cid) && OnlyExtends(cid) && HydrationPending(cfg, P(cid), Q(cid)) && P(cid).phase != AwaitingHuman
      ensures NothingExecuted(cid) && HasKey(Hist(cid), HydrationKey(cid))
      ensures old(P(cid)).phase != AwaitingHuman
      ensures Q(cid) == old(Q(cid)) && SameExceptContext(old(P(cid)), P(cid)) && SameCompletions(cid)
      ensures HasKey(Hist(cid), PlanKey(cid)) <==> old(HasKey(Hist(cid), PlanKey(cid)))
    {
      hide Lawful, Project, GateHistory, Allowed, LedgerStore.Valid, LedgerStore.SnapshotsFaithful;
      GateFacts(cfg, cid, Hist(cid));
      ParkedMeansHydrated(cfg, P(cid), Q(cid));
      hide GateInv;
      var d := Draft(cid, state.sessionId, ContextHydrationRequested, state.modality, Some(ContextBuilderPlanner), 0, NoDisc, EMPTY_PAYLOAD, at);
      if !HasKey(Hist(cid), d.Key()) { StageAllowed(cfg, cid, Hist(cid), d); }
      ghost var p := P(cid);
      var e := Emit(d);
    }

    method RecordPacket(cid: CorrelationId, state: TaskProjection, packet: Json, at: Timestamp)
      requires Live(cid) && HydrationPending(cfg, P(cid), Q(cid))
      requires P(cid).modality == state.modality
      modifies ledger`table, ledger`heads
      ensures Live(cid) && OnlyExtends(cid) && P(cid).contextPacket == Some(packet) && P(cid).phase != AwaitingHuman
      ensures NothingExecuted(cid)
      ensures forall key :: old(HasKey(Hist(cid), key)) ==> HasKey(Hist(cid), key)
      ensures Q(cid) == old(Q(cid)) && SameExceptContext(old(P(cid)), P(cid)) && SameCompletions(cid)
      ensures HasKey(Hist(cid), PlanKey(cid)) <==> old(HasKey(Hist(cid), PlanKey(cid)))
    {
      hide Lawful, Project, GateHistory, Allowed, LedgerStore.Valid, LedgerStore.SnapshotsFaithful;
      var d := Draft(cid, state.sessionId, ContextHydrated, state.modality, Some(ContextBuilderPlanner), 0, NoDisc,
                     EMPTY_PAYLOAD.(contextPacket := Some(packet)), at);
      StageResultLands(cfg, cid, Hist(cid), d);
      StageAllowed(cfg, cid, Hist(cid), d);
      var _ := Emit(d);
    }

    /** `_plan` */
    method Plan(cid: CorrelationId, state: TaskProjection, mode: Modality, ans: Answers, at: Timestamp) returns (raised: bool)
      requires Live(cid) && state == P(cid) && P(cid).phase != AwaitingHuman
      requires P(cid).modality == mode
      modifies ledger`table, ledger`heads
      ensures P(cid).modality == mode
      ensures Live(cid) && OnlyExtends(cid) && P(cid).phase != AwaitingHuman && Q(cid) == old(Q(cid))
      ensures NothingExecuted(cid)
      ensures raised <==> PlanFlow(cfg, ans, state, mode) == Raises
      ensures P(cid).contextPacket == state.contextPacket && P(cid).policyDecision == state.policyDecision
      ensures !raised ==> P(cid).planSteps == PlanAfter(cfg, ans, state, mode, old(HasKey(Hist(cid), PlanKey(cid))))
      ensures P(cid).completedSteps == state.completedSteps && SameCompletions(cid)
    {
      hide Lawful, Project, GateHistory, Allowed, LedgerStore.Valid, LedgerStore.SnapshotsFaithful;
      if state.planSteps != [] || !cfg.planner { return false; }
      if mode == Simple {
        RecordPlan(cid, state, mode, [SimpleStep(state)], at);
        return false;
      }
      if ans.plan.PlanFails? { return true; }
      if |ans.plan.steps| > PlanCeiling(mode) { return true; }
      RecordPlan(cid, state, mode, ans.plan.steps, at);
      return false;
    }

    method RecordPlan(cid: CorrelationId, state: TaskProjection, mode: Modality, steps: seq<Json>, at: Timestamp)
      requires Live(cid) && P(cid).phase != AwaitingHuman && PlanPending(cfg, P(cid)) && |steps| <= PlanCeiling(mode)
      requires P(cid).modality == mode
      modifies ledger`table, ledger`heads
      ensures P(cid).modality == mode
      ensures Live(cid) && OnlyExtends(cid) && P(cid).phase != AwaitingHuman && Q(cid) == old(Q(cid))
      ensures P(cid).contextPacket == old(P(cid)).contextPacket && P(cid).policyDecision == old(P(cid)).policyDecision
      ensures NothingExecuted(cid)
      ensures P(cid).planSteps == if old(HasKey(Hist(cid), PlanKey(cid))) then [] else steps
      ensures P(cid).completedSteps == old(P(cid)).completedSteps && SameCompletions(cid)
    {
      hide Lawful, Project, GateHistory, Allowed, LedgerStore.Valid, LedgerStore.SnapshotsFaithful;
      NoPlanNoSteps(cfg, cid, Hist(cid));
      var d := Draft(cid, state.sessionId, PlanCompiled, mode, Some(StrategicPlanner), 0, NoDisc,
                     EMPTY_PAYLOAD.(executionSteps := steps), at);
      if !HasKey(Hist(cid), d.Key()) { StageAllowed(cfg, cid, Hist(cid), d); }
      var _ := Emit(d);
    }

    /** `_check_policy` */
    method CheckPolicy(cid: CorrelationId, state: TaskProjection, mode: Modality, ans: Answers, at: Timestamp) returns (raised: bool)
      requires Live(cid) && state == P(cid) && !HydrationPending(cfg, P(cid), Q(cid))
      requires P(cid).phase == AwaitingHuman ==>
                 && cfg.policy && state.policyDecision.None?
                 && StageQuestion(Q(cid), PolicyRisk).Some? && !StageQuestion(Q(cid), PolicyRisk).value.answered
      requires P(cid).modality == mode
      modifies ledger`table, ledger`heads
      ensures Ready(cid) && Hist(cid) != [] && OnlyExtends(cid)
      ensures NothingExecuted(cid) && KeepsPlan(cid)
      ensures state.phase == AwaitingHuman ==> !raised && Hist(cid) == old(Hist(cid))
      ensures state.phase != AwaitingHuman ==>
                match PolicyFlow(cfg, ans, state, old(Q(cid)))
                case Raises => raised && Hist(cid) == old(Hist(cid))
                case Blocks => !raised && P(cid).phase == Blocked && EndsOn(cfg, ans, state, old(Q(cid)), Blocked, Newest(cid))
                case Parks =>
                  && !raised && P(cid).phase == AwaitingHuman && |Q(cid)| == |old(Q(cid))| + 1
                  && EndsOn(cfg, ans, state, old(Q(cid)), AwaitingHuman, Newest(cid))
                case Goes =>
                  && !raised && Live(cid) && P(cid).phase != AwaitingHuman && Q(cid) == old(Q(cid))
                  && !HydrationPending(cfg, P(cid), Q(cid))
                  && (cfg.policy ==> P(cid).policyDecision == Decided(state))
                  && P(cid).contextPacket == state.contextPacket && P(cid).planSteps == state.planSteps
                  && P(cid).completedSteps == state.completedSteps && SameCompletions(cid)
    {
      hide Lawful, Project, GateHistory, Allowed, LedgerStore.Valid, LedgerStore.SnapshotsFaithful;
      GateFacts(cfg, cid, Hist(cid));
      hide GateInv;
      if state.policyDecision.Some? || !cfg.policy { return false; }
      var questions := CurrentQuestions(cid);
      var gate := StageQuestion(questions, PolicyRisk);
      if gate.Some? {
        if gate.value.answered {
          RecordClearance(cid, state, mode, gate.value.disc, at);
        } else {
          OpenMeansParked(cfg, cid, Hist(cid), gate.value);
        }
        return false;
      }
      match ans.policy {
        case PolicyRaises => return true;
        case PolicyBlocks(antiGoal, verdict) =>
          RecordBlock(cid, state, mode, if antiGoal then SecurityViolation else PolicyBlocked, verdict, at);
        case PolicyGates(question) =>
          OpenGate(cid, PolicyRisk, question, mode, state.sessionId, at);
        case PolicyClears =>
          RecordClearance(cid, state, mode, NoDisc, at);
      }
      return false;
    }

    method RecordClearance(cid: CorrelationId, state: TaskProjection, mode: Modality, disc: Discriminator, at: Timestamp)
      requires Live(cid) && P(cid).phase != AwaitingHuman && cfg.policy && P(cid).policyDecision.None?
      requires var q := StageQuestion(Q(cid), PolicyRisk);
               if q.Some? then q.value.answered && disc == q.value.disc else disc == NoDisc
      requires P(cid).modality == mode
      modifies ledger`table, ledger`heads
      ensures P(cid).modality == mode
      ensures Live(cid) && OnlyExtends(cid) && P(cid).phase != AwaitingHuman && Q(cid) == old(Q(cid))
      ensures P(cid).policyDecision == Some("STATUS_APPROVED") && NothingExecuted(cid)
      ensures P(cid).contextPacket == old(P(cid)).contextPacket && P(cid).planSteps == old(P(cid)).planSteps
      ensures P(cid).completedSteps == old(P(cid)).completedSteps && SameCompletions(cid)
    {
      hide Lawful, Project, GateHistory, Allowed, LedgerStore.Valid, LedgerStore.SnapshotsFaithful;
      var d := Draft(cid, state.sessionId, PolicyCleared, mode, Some(PolicyRisk), 0, disc,
                     EMPTY_PAYLOAD.(decision := Has("STATUS_APPROVED")), at);
      StageResultLands(cfg, cid, Hist(cid), d);
      StageAllowed(cfg, cid, Hist(cid), d);
      var _ := Emit(d);
    }

    method RecordBlock(cid: CorrelationId, state: TaskProjection, mode: Modality, etype: EventType, verdict: Payload, at: Timestamp)
      requires Live(cid) && P(cid).phase != AwaitingHuman && PolicyPending(cfg, P(cid), Q(cid))
      requires etype.SecurityViolation? || etype.PolicyBlocked?
      requires P(cid).modality == mode
      modifies ledger`table, ledger`heads
      ensures Ready(cid) && Hist(cid) != [] && OnlyExtends(cid) && P(cid).phase == Blocked
      ensures NothingExecuted(cid) && KeepsPlan(cid) && Newest(cid).etype == etype && Newest(cid).payload == verdict
    {
      hide Lawful, Project, GateHistory, Allowed, LedgerStore.Valid, LedgerStore.SnapshotsFaithful;
      var d := Draft(cid, state.sessionId, etype, mode, Some(PolicyRisk), 0, NoDisc, verdict, at);
      ClosingEventLands(cfg, cid, Hist(cid), d);
      StageAllowed(cfg, cid, Hist(cid), d);
      var _ := Emit(d);
    }

    /** One emission of the step loop. */
    method EmitStep(cid: CorrelationId, state: TaskProjection, mode: Modality, etype: EventType, i: int, attempt: nat,
        role: Role, tokens: int, verdict: Field<string>, at: Timestamp)
      requires Live(cid) && IsStepEvent(etype) && StepReady(cfg, P(cid), i)
      requires etype.CritiqueConcluded? || attempt < cfg.StepAttempts()
      requires P(cid).modality == mode
      modifies ledger`table, ledger`heads
      ensures Live(cid) && OnlyExtends(cid) && Q(cid) == old(Q(cid))
      ensures SameDuty(old(P(cid)), P(cid))
      ensures RollbackFree(Hist(cid)) <==> old(RollbackFree(Hist(cid)))
      ensures forall key :: HasKey(Hist(cid), key)
                <==> old(HasKey(Hist(cid), key)) || key == IdempotencyKey(cid, etype, attempt, StepDisc(i))
      ensures P(cid).completedSteps
              == if etype.ExecutionCompleted? && !old(HasKey(Hist(cid), ECompleted(cid, i, attempt)))
                 then old(P(cid)).completedSteps + [i] else old(P(cid)).completedSteps
      ensures P(cid).tokensConsumed
              == old(P(cid)).tokensConsumed
                 + if etype.ExecutionCompleted? && !old(HasKey(Hist(cid), ECompleted(cid, i, attempt))) then tokens else 0
      ensures P(cid).validationVerdict
              == if old(HasKey(Hist(cid), StepKey(cid, etype, i, attempt))) || etype.ExecutionStarted? || etype.ExecutionCompleted?
                 then old(P(cid)).validationVerdict
                 else verdict.GetOr(if etype.ValidationFailed? then Some("FAIL_REJECT_RETRY") else None)
    {
      hide Lawful, Project, GateHistory, Allowed, LedgerStore.Valid, LedgerStore.SnapshotsFaithful;
      var d := Draft(cid, state.sessionId, etype, mode, Some(role), attempt, StepDisc(i),
                     EMPTY_PAYLOAD.(stepIndex := Some(i), tokensConsumed := tokens, verdict := verdict), at);
      if !HasKey(Hist(cid), d.Key()) { StageAllowed(cfg, cid, Hist(cid), d); }
      ghost var h := Hist(cid);
      var e := Emit(d);
      if !HasKey(h, d.Key()) { StepKeepsRollbackFree(h, e); }
    }

    /** The retry loop of one step. It ends at the first attempt that passes, or
        with nothing when the retries run out or an agent raises. */
    method AttemptStep(cid: CorrelationId, state: TaskProjection, mode: Modality, i: int, ans: Answers, at: Timestamp)
      returns (won: Option<nat>)
      requires Live(cid) && StepReady(cfg, P(cid), i)
      requires P(cid).modality == mode
      modifies ledger`table, ledger`heads
      ensures won == PassingAttempt(cfg, ans, i, 0)
      ensures (won.Some? ==> StepWonAt(cfg, ans, i, won.value)) && (won.None? ==> !StepWon(cfg, ans, i))
      ensures AttemptsRecorded(cfg, ans, cid, Hist(cid), i, cfg.StepAttempts())
      ensures won.Some? && cfg.critic && old(NoneOfStep(Hist(cid), i)) ==> ShowsVerdict(cfg, ans, i, won.value, P(cid).validationVerdict)
      ensures Live(cid) && OnlyExtends(cid) && Q(cid) == old(Q(cid))
      ensures SameDuty(old(P(cid)), P(cid))
      ensures RollbackFree(Hist(cid)) <==> old(RollbackFree(Hist(cid)))
      ensures forall key: Key :: key.etype.ExecutionCompleted? && key.disc != StepDisc(i) ==>
                (HasKey(Hist(cid), key) <==> old(HasKey(Hist(cid), key)))
      ensures P(cid).completedSteps
              == if won.Some? && !old(HasKey(Hist(cid), ECompleted(cid, i, won.value)))
                 then old(P(cid)).completedSteps + [i] else old(P(cid)).completedSteps
      ensures P(cid).tokensConsumed
              == old(P(cid)).tokensConsumed
                 + if won.Some? && !old(HasKey(Hist(cid), ECompleted(cid, i, won.value))) then ans.worker(i, won.value).tokens else 0
    {
      hide Lawful, Project, GateHistory, Allowed, LedgerStore.Valid, LedgerStore.SnapshotsFaithful;
      hide GateStep, ApplyEvent, HasKey, RollbackFree, Lineage, HydrationPending, PolicyPending;
      hide StepWonAt, StepWon, AttemptRecorded, AttemptsRecorded;
      hide NoneOfStep, LostSoFar, ShowsVerdict, AttemptShows;
      PassingAttemptWins(cfg, ans, i, 0);
      NoneRecorded(cfg, ans, cid, Hist(cid), i);
      if NoneOfStep(Hist(cid), i) { NoneLost(ans, cid, Hist(cid), i, cfg.StepAttempts(), P(cid).validationVerdict); }
      var attempt: nat := 0;
      while attempt < cfg.StepAttempts()
        invariant attempt <= cfg.StepAttempts()
        invariant AttemptsRecorded(cfg, ans, cid, Hist(cid), i, attempt)
        invariant old(NoneOfStep(Hist(cid), i)) && cfg.critic ==>
                    LostSoFar(ans, cid, Hist(cid), i, attempt, cfg.StepAttempts(), P(cid).validationVerdict)
        invariant PassingAttempt(cfg, ans, i, attempt) == PassingAttempt(cfg, ans, i, 0)
        invariant Live(cid) && OnlyExtends(cid) && Q(cid) == old(Q(cid))
        invariant SameDuty(old(P(cid)), P(cid)) && StepReady(cfg, P(cid), i)
        invariant RollbackFree(Hist(cid)) <==> old(RollbackFree(Hist(cid)))
        invariant P(cid).completedSteps == old(P(cid)).completedSteps && P(cid).tokensConsumed == old(P(cid)).tokensConsumed
        invariant forall key: Key :: key.etype.ExecutionCompleted? ==>
                    (HasKey(Hist(cid), key) <==> old(HasKey(Hist(cid), key)))
      {
        ghost var h, shown := Hist(cid), P(cid).validationVerdict;
        var passed := Attempt(cid, state, mode, i, attempt, ans, at);
        RecordedNext(cfg, ans, cid, h, Hist(cid), i, attempt, cfg.StepAttempts());
        if passed.None? { return None; }
        if old(NoneOfStep(Hist(cid), i)) && cfg.critic {
          LostOnceMore(cfg, ans, cid, h, Hist(cid), i, attempt, cfg.StepAttempts(), passed.value, shown, P(cid).validationVerdict);
        }
        if passed.value { return Some(attempt); }
        attempt := attempt + 1;
      }
      return None;
    }

    /** One round of the retry loop; `None` when an agent raises. */
    method Attempt(cid: CorrelationId, state: TaskProjection, mode: Modality, i: int, attempt: nat, ans: Answers, at: Timestamp)
      returns (passed: Option<bool>)
      requires Live(cid) && StepReady(cfg, P(cid), i) && attempt < cfg.StepAttempts()
      requires P(cid).modality == mode
      modifies ledger`table, ledger`heads
      ensures passed == if StepRaises(cfg, ans, i, attempt) then None else Some(Passes(cfg, ans, i, attempt))
      ensures AttemptRecorded(cfg, ans, cid, Hist(cid), i, attempt)
      ensures Live(cid) && OnlyExtends(cid) && Q(cid) == old(Q(cid)) && SameDuty(old(P(cid)), P(cid))
      ensures RollbackFree(Hist(cid)) <==> old(RollbackFree(Hist(cid)))
      ensures forall key: Key :: key.etype.ExecutionCompleted? && (passed == Some(true) ==> key.disc != StepDisc(i)) ==>
                (HasKey(Hist(cid), key) <==> old(HasKey(Hist(cid), key)))
      ensures P(cid).completedSteps
              == if passed == Some(true) && !old(HasKey(Hist(cid), ECompleted(cid, i, attempt)))
                 then old(P(cid)).completedSteps + [i] else old(P(cid)).completedSteps
      ensures P(cid).tokensConsumed
              == old(P(cid)).tokensConsumed
                 + if passed == Some(true) && !old(HasKey(Hist(cid), ECompleted(cid, i, attempt))) then ans.worker(i, attempt).tokens else 0
      ensures passed.Some? ==>
                AttemptShows(cfg, ans, cid, old(Hist(cid)), Hist(cid), i, attempt, passed.value,
                             old(P(cid)).validationVerdict, P(cid).validationVerdict)
    {
      hide Lawful, Project, GateHistory, Allowed, LedgerStore.Valid, LedgerStore.SnapshotsFaithful;
      hide GateStep, ApplyEvent, HasKey, RollbackFree, Lineage, HydrationPending, PolicyPending;
      EmitStep(cid, state, mode, ExecutionStarted, i, attempt, Role.Worker, 0, Absent, at);
      var result := ans.worker(i, attempt);
      if result.WorkerRaises? { return None; }
      passed := Some(false);
      if result.WorkerOk? {
        passed := Critique(cid, state, mode, i, attempt, ans, at);
        if passed.None? { return; }
      }
      if passed.value {
        EmitStep(cid, state, mode, ExecutionCompleted, i, attempt, Role.Worker, result.tokens, Absent, at);
      } else {
        EmitStep(cid, state, mode, ValidationFailed, i, attempt, Role.Critic, 0, Absent, at);
      }
    }

    /** `_critique`; `None` when the critic raises. */
    method Critique(cid: CorrelationId, state: TaskProjection, mode: Modality, i: int, attempt: nat, ans: Answers, at: Timestamp)
      returns (passed: Option<bool>)
      requires Live(cid) && StepReady(cfg, P(cid), i)
      requires P(cid).modality == mode
      modifies ledger`table, ledger`heads
      ensures Live(cid) && OnlyExtends(cid) && Q(cid) == old(Q(cid)) && SameDuty(old(P(cid)), P(cid))
      ensures passed == if !cfg.critic then Some(true)
                        else if ans.critic(i, attempt).CriticRaises? then None else Some(ans.critic(i, attempt).Pass())
      ensures !cfg.critic ==> Hist(cid) == old(Hist(cid))
      ensures cfg.critic && passed.Some? ==> HasKey(Hist(cid), StepKey(cid, CritiqueConcluded, i, 0))
      ensures P(cid).validationVerdict
              == if cfg.critic && passed.Some? && !old(HasKey(Hist(cid), StepKey(cid, CritiqueConcluded, i, 0)))
                 then Some(ans.critic(i, attempt).Recorded()) else old(P(cid)).validationVerdict
      ensures RollbackFree(Hist(cid)) <==> old(RollbackFree(Hist(cid)))
      ensures P(cid).completedSteps == old(P(cid)).completedSteps && P(cid).tokensConsumed == old(P(cid)).tokensConsumed
      ensures forall key: Key :: !key.etype.CritiqueConcluded? ==> (HasKey(Hist(cid), key) <==> old(HasKey(Hist(cid), key)))
    {
      hide Lawful, Project, GateHistory, Allowed, LedgerStore.Valid, LedgerStore.SnapshotsFaithful;
      hide GateStep, ApplyEvent, HasKey, RollbackFree, Lineage;
      if !cfg.critic { return Some(true); }
      var review := ans.critic(i, attempt);
      if review.CriticRaises? { return None; }
      EmitStep(cid, state, mode, CritiqueConcluded, i, 0, Role.Critic, 0, Has(review.Recorded()), at);
      return Some(review.Pass());
    }

    /** `_execute_steps`. Which indices end up completed is exact: a step counts
        unless its completion was swallowed by one already on the ledger. */
    method ExecuteSteps(cid: CorrelationId, start: TaskProjection, mode: Modality, ans: Answers, at: Timestamp) returns (raised: bool)
      requires Live(cid) && start == P(cid) && start.phase != AwaitingHuman
      requires cfg.policy ==> start.policyDecision.Some?
      requires P(cid).modality == mode
      modifies ledger`table, ledger`heads
      ensures Live(cid) && OnlyExtends(cid) && Q(cid) == old(Q(cid)) && SameDuty(start, P(cid))
      ensures raised <==> cfg.worker && !StepsPass(cfg, ans, start.planSteps, start.completedSteps)
      ensures NewStepsWon(cfg, ans, start.completedSteps, P(cid).completedSteps)
      ensures RollbackFree(Hist(cid)) <==> old(RollbackFree(Hist(cid)))
      ensures !raised && cfg.worker ==> forall i :: 0 <= i < |start.planSteps| ==>
                (i in P(cid).completedSteps
                 <==> i in start.completedSteps
                      || !old(HasKey(Hist(cid), ECompleted(cid, i, PassingAttempt(cfg, ans, i, 0).value))))
    {
      hide Lawful, Project, GateHistory, Allowed, LedgerStore.Valid, LedgerStore.SnapshotsFaithful;
      hide GateStep, ApplyEvent, PassingAttempt, HasKey, RollbackFree, Lineage, HydrationPending, PolicyPending;
      hide StepWonAt, StepWon, AttemptWins, AttemptLoses, Passes, AttemptsRecorded, ShowsVerdict, NoneOfStep;
      if !cfg.worker { return false; }
      var state := start;
      for index := 0 to |start.planSteps|
        invariant Live(cid) && OnlyExtends(cid) && Q(cid) == old(Q(cid)) && SameDuty(start, P(cid)) && state == P(cid)
        invariant RollbackFree(Hist(cid)) <==> old(RollbackFree(Hist(cid)))
        invariant forall i :: 0 <= i < index && i !in start.completedSteps ==> PassingAttempt(cfg, ans, i, 0).Some?
        invariant NewStepsWon(cfg, ans, start.completedSteps, P(cid).completedSteps)
        invariant forall i :: i in P(cid).completedSteps <==>
                    i in start.completedSteps
                    || (0 <= i < index && !old(HasKey(Hist(cid), ECompleted(cid, i, PassingAttempt(cfg, ans, i, 0).value))))
        invariant forall key: Key :: key.etype.ExecutionCompleted? && key.disc.StepDisc? && key.disc.index >= index ==>
                    (HasKey(Hist(cid), key) <==> old(HasKey(Hist(cid), key)))
      {
        if index in state.completedSteps { continue; }
        var won := AttemptStep(cid, state, mode, index, ans, at);
        if won.None? { return true; }
        WonIsWon(cfg, ans, index, won.value);
        state := CurrentState(cid);
      }
      return false;
    }

    /** `_commit` */
    method Commit(cid: CorrelationId, state: TaskProjection, mode: Modality, at: Timestamp)
      requires Live(cid) && CommitAllows(cfg, P(cid), Q(cid), Hist(cid))
      requires P(cid).modality == mode
      modifies ledger`table, ledger`heads
      ensures Ready(cid) && Hist(cid) != [] && OnlyExtends(cid) && P(cid).phase == Committed
      ensures KeepsPlan(cid) && P(cid).policyDecision == old(P(cid)).policyDecision
      ensures Newest(cid).etype.MutationCommitted? && Newest(cid).payload.tokensConsumed == state.tokensConsumed
    {
      hide Lawful, Project, GateHistory, Allowed, LedgerStore.Valid, LedgerStore.SnapshotsFaithful;
      hide CommitAllows;
      var d := Draft(cid, state.sessionId, MutationCommitted, mode, Some(Role.Orchestrator), 0, NoDisc,
                     EMPTY_PAYLOAD.(tokensConsumed := state.tokensConsumed), at);
      ClosingEventLands(cfg, cid, Hist(cid), d);
      StageAllowed(cfg, cid, Hist(cid), d);
      var _ := Emit(d);
    }

    /** The `except PaaError` arm of `run`. */
    method Fail(cid: CorrelationId, session: Option<string>, mode: Modality, attempts: nat, at: Timestamp)
      requires Live(cid) && P(cid).phase != AwaitingHuman
      requires P(cid).modality == mode
      modifies ledger`table, ledger`heads
      ensures Ready(cid) && Hist(cid) != [] && OnlyExtends(cid) && P(cid).phase == Failed
      ensures NothingExecuted(cid) && KeepsPlan(cid) && Newest(cid).etype.ExecutionFailed? && Newest(cid).attempt == attempts
    {
      hide Lawful, Project, GateHistory, Allowed, LedgerStore.Valid, LedgerStore.SnapshotsFaithful;
      var d := Draft(cid, session, ExecutionFailed, mode, Some(Role.Orchestrator), attempts, NoDisc, EMPTY_PAYLOAD, at);
      ClosingEventLands(cfg, cid, Hist(cid), d);
      StageAllowed(cfg, cid, Hist(cid), d);
      var _ := Emit(d);
    }

    /** `run`. Whatever the agents answer, a run that is not cut short leaves closed and
        parked tasks alone, and drives every other one to a terminal phase or to one new
        question, as the answers say (`ComesTo`, `EndsOn`): it blocks exactly when the
        policy agent is asked and blocks, parks exactly on a question, executes nothing that
        was not cleared, and completes only steps that were won. A run that commits has
        completed the whole plan if and only if no completion it needed was on record. */
    method Run(cid: CorrelationId, ans: Answers, at: Timestamp)
      requires Ready(cid)
      modifies ledger`table, ledger`heads
      ensures P(cid).modality == old(P(cid)).modality
      ensures Ready(cid) && OnlyExtends(cid)
      ensures old(Hist(cid)) == [] || old(P(cid)).phase.IsTerminal() || old(P(cid)).phase == AwaitingHuman ==>
                Hist(cid) == old(Hist(cid))
      ensures old(Live(cid)) && old(P(cid)).phase != AwaitingHuman ==>
                && ComesTo(cfg, ans, old(P(cid)), old(Q(cid)), old(HasKey(Hist(cid), PlanKey(cid))), P(cid))
                && Hist(cid) != [] && EndsOn(cfg, ans, old(P(cid)), old(Q(cid)), P(cid).phase, Newest(cid))
                && (!MayExecute(cfg, ans, old(P(cid)), old(Q(cid))) ==> NothingExecuted(cid))
                && NewStepsWon(cfg, ans, old(P(cid)).completedSteps, P(cid).completedSteps)
                && (P(cid).phase == Committed && cfg.policy ==> P(cid).policyDecision == Decided(old(P(cid))))
      ensures old(Hist(cid)) != [] ==> P(cid).phase == RunVerdict(cfg, ans, cid, old(Hist(cid)))
      ensures old(Hist(cid)) != [] && old(P(cid)).phase != AwaitingHuman ==> RunCompletes(cid, old(Hist(cid)), Hist(cid))
      ensures old(Hist(cid)) != [] && !old(P(cid)).phase.IsTerminal() && P(cid).phase == Committed && cfg.worker ==>
                (AllStepsDone(P(cid)) <==> CompletionsFree(cfg, ans, cid, old(Hist(cid)), P(cid).planSteps, old(P(cid)).completedSteps))
    {
      hide Lawful, Project, GateHistory, Allowed, LedgerStore.Valid, LedgerStore.SnapshotsFaithful;
      hide ApplyEvent, GateStep, HasKey, Lineage, CompletionsFree, AllStepsDone, StepWon, ComesTo, MayExecute, DriveVerdict;
      hide PolicyFlow, PlanFlow, PlanAfter, GateInv, FinishVerdict, IsStepEvent, Asked, EventType.IsTerminal, SameExceptContext;
      var first := ledger.ProjectTask(cid);
      if first.None? { return; }
      var start := first.value;
      if start.phase.IsTerminal() { return; }
      GateFacts(cfg, cid, Hist(cid));
      if start.phase == AwaitingHuman && HydrationPending(cfg, P(cid), Q(cid)) {
        ParkedMeansHydrated(cfg, P(cid), Q(cid));
      }
      var mode := start.modality;
      if start.phase != AwaitingHuman {
        NoOpenQuestion(cfg, cid, Hist(cid));
        MayExecuteIff(cfg, ans, start, Q(cid));
      }
      var raised := Hydrate(cid, start, ans, at);
      if raised {
        Fail(cid, start.sessionId, mode, start.attempts, at);
        VerdictSpelled(cfg, ans, start, old(Q(cid)), old(HasKey(Hist(cid), PlanKey(cid))), P(cid));
        return;
      }
      var state := CurrentState(cid);
      if state.phase == AwaitingHuman {
        if start.phase != AwaitingHuman {
          VerdictSpelled(cfg, ans, start, old(Q(cid)), old(HasKey(Hist(cid), PlanKey(cid))), P(cid));
        }
        return;
      }
      ghost var h := Hist(cid);
      Drive(cid, state, mode, ans, at);
      SameFreedom(cfg, ans, cid, old(Hist(cid)), h, P(cid).planSteps, start.completedSteps);
      SameVerdict(cfg, ans, start, state, old(Q(cid)), mode, old(HasKey(Hist(cid), PlanKey(cid))));
      SameEnding(cfg, ans, start, state, old(Q(cid)), P(cid).phase, Newest(cid));
      VerdictSpelled(cfg, ans, start, old(Q(cid)), old(HasKey(Hist(cid), PlanKey(cid))), P(cid));
    }

    /** The part of `run` after hydration: plan, policy review, execution, commit. */
    method Drive(cid: CorrelationId, start: TaskProjection, mode: Modality, ans: Answers, at: Timestamp)
      requires Live(cid) && start == P(cid) && start.phase != AwaitingHuman && !HydrationPending(cfg, P(cid), Q(cid))
      requires P(cid).modality == mode
      modifies ledger`table, ledger`heads
      ensures P(cid).modality == mode
      ensures Ready(cid) && OnlyExtends(cid)
      ensures P(cid).phase == DriveVerdict(cfg, ans, start, old(Q(cid)), mode, old(HasKey(Hist(cid), PlanKey(cid))))
      ensures PlanFlow(cfg, ans, start, mode) == Goes ==>
                P(cid).planSteps == PlanAfter(cfg, ans, start, mode, old(HasKey(Hist(cid), PlanKey(cid))))
      ensures NewStepsWon(cfg, ans, start.completedSteps, P(cid).completedSteps)
      ensures Hist(cid) != [] && EndsOn(cfg, ans, start, old(Q(cid)), P(cid).phase, Newest(cid))
      ensures P(cid).phase == Committed && cfg.policy ==> P(cid).policyDecision == Decided(start)
      ensures PlanFlow(cfg, ans, start, mode) == Raises || PolicyFlow(cfg, ans, start, old(Q(cid))) != Goes ==> NothingExecuted(cid)
      ensures P(cid).phase == AwaitingHuman ==> |Q(cid)| == |old(Q(cid))| + 1
      ensures P(cid).phase == Committed && cfg.worker ==>
                (AllStepsDone(P(cid)) <==> CompletionsFree(cfg, ans, cid, old(Hist(cid)), P(cid).planSteps, start.completedSteps))
    {
      hide Lawful, Project, GateHistory, Allowed, LedgerStore.Valid, LedgerStore.SnapshotsFaithful;
      hide ApplyEvent, GateStep, HasKey, Lineage, PlanFlow, PolicyFlow, CompletionsFree, AllStepsDone, FinishVerdict, StepWon, PlanAfter;
      var raised := Plan(cid, start, mode, ans, at);
      if raised {
        Fail(cid, start.sessionId, mode, start.attempts, at);
        return;
      }
      var state := CurrentState(cid);
      PolicyFlowDependsOnDecision(cfg, ans, start, state, Q(cid));
      ghost var h := Hist(cid);
      Review(cid, state, mode, ans, at);
      SameFreedom(cfg, ans, cid, old(Hist(cid)), h, P(cid).planSteps, start.completedSteps);
    }

    /** The part after planning. */
    method Review(cid: CorrelationId, start: TaskProjection, mode: Modality, ans: Answers, at: Timestamp)
      requires Live(cid) && start == P(cid) && start.phase != AwaitingHuman && !HydrationPending(cfg, P(cid), Q(cid))
      requires P(cid).modality == mode
      modifies ledger`table, ledger`heads
      ensures P(cid).modality == mode
      ensures Ready(cid) && OnlyExtends(cid)
      ensures P(cid).phase == match PolicyFlow(cfg, ans, start, old(Q(cid)))
                              case Raises => Failed
                              case Parks => AwaitingHuman
                              case Blocks => Blocked
                              case Goes => FinishVerdict(cfg, ans, start.planSteps, start.completedSteps)
      ensures P(cid).planSteps == start.planSteps && NewStepsWon(cfg, ans, start.completedSteps, P(cid).completedSteps)
      ensures Hist(cid) != [] && EndsOn(cfg, ans, start, old(Q(cid)), P(cid).phase, Newest(cid))
      ensures PolicyFlow(cfg, ans, start, old(Q(cid))) != Goes ==> NothingExecuted(cid)
      ensures P(cid).phase == Committed && cfg.policy ==> P(cid).policyDecision == Decided(start)
      ensures P(cid).phase == AwaitingHuman ==> |Q(cid)| == |old(Q(cid))| + 1
      ensures P(cid).phase == Committed && cfg.worker ==>
                (AllStepsDone(P(cid)) <==> CompletionsFree(cfg, ans, cid, old(Hist(cid)), P(cid).planSteps, start.completedSteps))
    {
      hide Lawful, Project, GateHistory, Allowed, LedgerStore.Valid, LedgerStore.SnapshotsFaithful;
      hide ApplyEvent, GateStep, HasKey, Lineage, PolicyFlow, CompletionsFree, AllStepsDone, StepWon, StepsPass, HydrationPending, EndsOn;
      NoOpenQuestion(cfg, cid, Hist(cid));
      var raised := CheckPolicy(cid, start, mode, ans, at);
      if raised {
        Fail(cid, start.sessionId, mode, start.attempts, at);
        EndsPlainly(cfg, ans, start, old(Q(cid)), Failed, Newest(cid));
        return;
      }
      var state := CurrentState(cid);
      if state.phase == Blocked || state.phase == AwaitingHuman { return; }
      ghost var h := Hist(cid);
      Finish(cid, state, mode, ans, at);
      EndsPlainly(cfg, ans, start, old(Q(cid)), P(cid).phase, Newest(cid));
      SameFreedom(cfg, ans, cid, old(Hist(cid)), h, P(cid).planSteps, start.completedSteps);
    }

    method Finish(cid: CorrelationId, start: TaskProjection, mode: Modality, ans: Answers, at: Timestamp)
      requires Live(cid) && start == P(cid) && start.phase != AwaitingHuman && !HydrationPending(cfg, P(cid), Q(cid))
      requires cfg.policy ==> start.policyDecision.Some?
      requires P(cid).modality == mode
      modifies ledger`table, ledger`heads
      ensures P(cid).modality == mode
      ensures Ready(cid) && OnlyExtends(cid)
      ensures P(cid).phase == FinishVerdict(cfg, ans, start.planSteps, start.completedSteps)
      ensures P(cid).phase == Committed ==> P(cid).policyDecision == start.policyDecision
      ensures P(cid).planSteps == start.planSteps && NewStepsWon(cfg, ans, start.completedSteps, P(cid).completedSteps)
      ensures Hist(cid) != [] && if P(cid).phase == Committed then Newest(cid).etype.MutationCommitted? else Newest(cid).etype.ExecutionFailed?
      ensures P(cid).phase == Committed && cfg.worker ==>
                (AllStepsDone(P(cid)) <==> CompletionsFree(cfg, ans, cid, old(Hist(cid)), P(cid).planSteps, start.completedSteps))
    {
      hide Lawful, Project, GateHistory, Allowed, LedgerStore.Valid, LedgerStore.SnapshotsFaithful;
      hide ApplyEvent, GateStep, HasKey, Lineage, PassingAttempt, StepWon;
      ghost var h := Hist(cid);
      var raised := ExecuteSteps(cid, start, mode, ans, at);
      if raised {
        Fail(cid, start.sessionId, mode, start.attempts, at);
        return;
      }
      var state := CurrentState(cid);
      if cfg.worker && RollbackFree(Hist(cid)) {
        forall i | 0 <= i < |state.planSteps| ensures i in state.completedSteps {
          if i !in start.completedSteps {
            CompletionLands(cfg, cid, h, ECompleted(cid, i, PassingAttempt(cfg, ans, i, 0).value));
          }
        }
      }
      Commit(cid, state, mode, at);
    }

    /** `submit`, under the fresh identifier `new_correlation_id` hands out. */
    method Submit(cid: CorrelationId, session: Option<string>, request: Payload, mode: Modality, degraded: Modality, at: Timestamp)
      requires Ready(cid) && Hist(cid) == []
      modifies ledger`table, ledger`heads
      ensures Ready(cid) && OnlyExtends(cid)
      ensures |Hist(cid)| == 2 && P(cid).phase == Queued && P(cid).modality == degraded
      ensures var first, second := Hist(cid)[0].draft, Hist(cid)[1].draft;
              && first.etype.TaskRequested? && first.payload == request && first.sessionId == session && first.mode == mode
              && second.etype.TaskQueued? && second.sessionId == session && second.mode == degraded
    {
      hide Lawful, Project, GateHistory, Allowed, LedgerStore.Valid, LedgerStore.SnapshotsFaithful;
      var requested := Draft(cid, session, TaskRequested, mode, Some(Role.Orchestrator), 0, NoDisc, request, at);
      EmptyAllowsRequest(cfg, cid, requested);
      var first := Emit(requested);
      var queued := Draft(cid, session, TaskQueued, degraded, Some(Role.Orchestrator), 0, NoDisc, EMPTY_PAYLOAD, at);
      assert Hist(cid) == [first];
      RequestAllowsQueue(cfg, cid, first, queued);
      var _ := Emit(queued);
    }

    /** An append whose key is known to be free. */
    method AppendFresh(d: Draft) returns (e: LedgerEvent)
      requires ledger.Valid() && ledger.SnapshotsFaithful() && !HasKey(Hist(d.cid), d.Key())
      modifies ledger`table, ledger`heads
      ensures ledger.Valid() && ledger.SnapshotsFaithful() && OnlyExtends(d.cid)
      ensures e.draft == d && e.stateVersion == Some(|old(Hist(d.cid))| + 1) && Hist(d.cid) == old(Hist(d.cid)) + [e]
      ensures P(d.cid) == ApplyEvent(old(P(d.cid)), e) && Q(d.cid) == GateStep(old(Q(d.cid)), d)
    {
      hide Project, GateHistory, LedgerStore.Valid, LedgerStore.SnapshotsFaithful, ApplyEvent, GateStep;
      ghost var h := Hist(d.cid);
      e := ledger.Append(d);
      assert (h + [e])[|h|] == e;
      ProjectSnoc(d.cid, h, e);
      GateHistorySnoc(h, e);
    }

    /** `clear_human_gate`, for every resume phase a caller may name. It answers
        exactly the open question, and keeps the history lawful unless it resumes
        into `AWAITING_HUMAN`. Without a phase the task resumes where the success of the
        stage that asked would have left it. */
    method ClearHumanGate(cid: CorrelationId, approved: bool, resume: Option<TaskPhase>, at: Timestamp) returns (ok: bool)
      requires Ready(cid)
      modifies ledger`table, ledger`heads
      ensures ledger.Valid() && OnlyExtends(cid)
      ensures !approved || resume != Some(AwaitingHuman) ==> Ready(cid)
      ensures ok <==> old(P(cid)).phase == AwaitingHuman && old(OpenQuestion(Q(cid))).Some?
      ensures !ok ==> Hist(cid) == old(Hist(cid))
      ensures ok ==> |Hist(cid)| == |old(Hist(cid))| + 1 && RulesOn(Hist(cid), old(OpenQuestion(Q(cid))).value, approved)
      ensures ok && !approved ==> P(cid).phase == Blocked
      ensures ok && approved ==>
                && OpenQuestion(Q(cid)).None? && |Q(cid)| == |old(Q(cid))|
                && (resume.Some? ==> P(cid).phase == resume.value)
      ensures ok && approved && resume.None? ==>
                var role := old(OpenQuestion(Q(cid))).value.role;
                || (role == Some(ContextBuilderPlanner) && Some(P(cid).phase) == PhaseOf(ContextHydrated) && P(cid).phase == Planning)
                || (role == Some(PolicyRisk) && Some(P(cid).phase) == PhaseOf(PolicyCleared) && P(cid).phase == Executing)
    {
      hide Lawful, Project, GateHistory, Allowed, LedgerStore.Valid, LedgerStore.SnapshotsFaithful;
      EmptyIsNotParked(cid);
      var current := ledger.ProjectTask(cid);
      if current.None? { return false; }
      var state := current.value;
      if state.phase != AwaitingHuman { return false; }
      var questions := CurrentQuestions(cid);
      var question := OpenQuestion(questions);
      if question.None? { return false; }
      OpenQuestionIsStaged(cfg, cid, Hist(cid));
      var phase := if resume.Some? then resume.value else ResumePhase(question.value.role);
      RecordRuling(cid, state, question.value, approved, phase, at);
      return true;
    }

    method RecordRuling(cid: CorrelationId, state: TaskProjection, question: GateQuestion, approved: bool, phase: TaskPhase, at: Timestamp)
      requires Ready(cid) && state == P(cid) && state.phase == AwaitingHuman && OpenQuestion(Q(cid)) == Some(question)
      modifies ledger`table, ledger`heads
      ensures ledger.Valid() && OnlyExtends(cid) && |Hist(cid)| == |old(Hist(cid))| + 1
      ensures !approved || phase != AwaitingHuman ==> Ready(cid)
      ensures P(cid).phase == if approved then phase else Blocked
      ensures RulesOn(Hist(cid), question, approved)
      ensures approved ==> OpenQuestion(Q(cid)).None? && |Q(cid)| == |old(Q(cid))|
    {
      hide Lawful, Project, GateHistory, Allowed, LedgerStore.Valid, LedgerStore.SnapshotsFaithful;
      hide HasKey, Lineage;
      var d := Draft(cid, state.sessionId, if approved then HumanGateCleared else HumanGateRejected, state.modality,
                     Some(Role.Orchestrator), state.attempts, question.disc,
                     EMPTY_PAYLOAD.(resumePhase := Some(phase)), at);
      ghost var h := Hist(cid);
      RulingLands(cfg, cid, h, d);
      var e := AppendFresh(d);
      if !approved || phase != AwaitingHuman {
        RulingAllowed(cfg, cid, h, d);
        LawfulSnoc(cfg, cid, h, e);
      }
    }

    /** A lineage driven by complete runs and approved after each closes within three runs,
        whatever the agents answer: each stage asks at most once. */
    method RunToClose(cid: CorrelationId, first: Answers, second: Answers, third: Answers, at: Timestamp)
      requires Ready(cid) && Hist(cid) != []
      modifies ledger`table, ledger`heads
      ensures Ready(cid) && OnlyExtends(cid) && P(cid).phase.IsTerminal()
    {
      hide Lawful, Project, GateHistory, Allowed, LedgerStore.Valid, LedgerStore.SnapshotsFaithful, RunVerdict;
      RunThenApprove(cid, first, at);
      RunThenApprove(cid, second, at);
      VerdictClosesOrParks(cfg, third, cid, Hist(cid));
      Run(cid, third, at);
      QuestionNamesDistinct(cfg, cid, Hist(cid));
    }

    /** One complete run and an approval: the lineage is closed, or one more question is
        asked and answered and it is no longer parked. */
    method RunThenApprove(cid: CorrelationId, ans: Answers, at: Timestamp)
      requires Ready(cid) && Hist(cid) != []
      modifies ledger`table, ledger`heads
      ensures Ready(cid) && Hist(cid) != [] && OnlyExtends(cid)
      ensures P(cid).phase.IsTerminal() || (P(cid).phase != AwaitingHuman && |Q(cid)| >= 1)
      ensures old(P(cid)).phase.IsTerminal() ==> P(cid).phase.IsTerminal()
      ensures !P(cid).phase.IsTerminal() && old(P(cid)).phase != AwaitingHuman ==> |Q(cid)| == |old(Q(cid))| + 1
    {
      hide Lawful, Project, GateHistory, Allowed, LedgerStore.Valid, LedgerStore.SnapshotsFaithful, RunVerdict;
      VerdictClosesOrParks(cfg, ans, cid, Hist(cid));
      Run(cid, ans, at);
      if P(cid).phase == AwaitingHuman { ParkedHasOpenQuestion(cfg, cid, Hist(cid)); }
      var _ := ClearHumanGate(cid, true, None, at);
    }

    /** `record_correction` */
    method RecordCorrection(cid: CorrelationId, at: Timestamp) returns (ok: bool)
      requires Ready(cid)
      modifies ledger`table, ledger`heads
      ensures Ready(cid) && OnlyExtends(cid)
      ensures ok <==> old(Hist(cid)) != []
      ensures ok ==> |Hist(cid)| == |old(Hist(cid))| + 1 && P(cid).userCorrections == old(P(cid)).userCorrections + 1
      ensures ok ==> Hist(cid)[|old(Hist(cid))|].draft.etype.UserCorrection?
      ensures P(cid).phase == old(P(cid)).phase
    {
      hide Lawful, Project, GateHistory, Allowed, LedgerStore.Valid, LedgerStore.SnapshotsFaithful;
      var current := ledger.ProjectTask(cid);
      if current.None? { return false; }
      var d := Draft(cid, None, UserCorrection, current.value.modality, Some(Role.Orchestrator), current.value.userCorrections,
                     NoDisc, EMPTY_PAYLOAD, at);
      CorrectionLands(cfg, cid, Hist(cid), d);
      CorrectionAllowed(cfg, cid, Hist(cid), d);
      var _ := Emit(d);
      return true;
    }
  }

  lemma QuestionAllowed(cfg: Config, cid: CorrelationId, h: seq<LedgerEvent>, d: Draft)
    requires Lawful(cfg, cid, h) && h != [] && !Project(cid, h).phase.IsTerminal()
    requires d.cid == cid && d.etype.AwaitingHumanAttestation? && GateAllows(cfg, Project(cid, h), GateHistory(h), d)
    ensures Allowed(cfg, cid, h, d) && !HasKey(h, d.Key())
  {
    hide Lawful, Project, GateHistory, Allowed, GateAllows;
    GateRequestLandsOnce(cfg, cid, h, d, 0);
    StageAllowed(cfg, cid, h, d);
  }

  lemma QuestionParks(p: TaskProjection, e: LedgerEvent)
    requires e.draft.etype.AwaitingHumanAttestation?
    ensures var p' := ApplyEvent(p, e);
            && p'.phase == AwaitingHuman && p'.planSteps == p.planSteps && p'.completedSteps == p.completedSteps
            && p'.modality == e.draft.mode
  {
  }

  /** The newest event is the ruling on this question, by its name. */
  predicate RulesOn(h: seq<LedgerEvent>, question: GateQuestion, approved: bool) {
    && h != []
    && var d := h[|h| - 1].draft;
    && d.disc == question.disc
    && if approved then d.etype.HumanGateCleared? else d.etype.HumanGateRejected?
  }

  /** A complete run leaves nothing in between. */
  lemma VerdictClosesOrParks(cfg: Config, ans: Answers, cid: CorrelationId, h: seq<LedgerEvent>)
    ensures RunVerdict(cfg, ans, cid, h).IsTerminal() || RunVerdict(cfg, ans, cid, h) == AwaitingHuman
  {
    hide Project, GateHistory;
  }

  /** Every plan index still to be completed passes at an attempt whose completion is not
      on record yet. */
  predicate CompletionsFree(cfg: Config, ans: Answers, cid: CorrelationId, h: seq<LedgerEvent>, plan: seq<Json>, completed: seq<int>) {
    forall i :: 0 <= i < |plan| && i !in completed ==>
      var a := PassingAttempt(cfg, ans, i, 0); a.Some? && !HasKey(h, ECompleted(cid, i, a.value))
  }

  lemma SameFreedom(cfg: Config, ans: Answers, cid: CorrelationId, h: seq<LedgerEvent>, h': seq<LedgerEvent>, plan: seq<Json>, completed: seq<int>)
    requires forall key: Key :: key.etype.ExecutionCompleted? ==> (HasKey(h', key) <==> HasKey(h, key))
    ensures CompletionsFree(cfg, ans, cid, h', plan, completed) <==> CompletionsFree(cfg, ans, cid, h, plan, completed)
  {
    hide HasKey, PassingAttempt;
  }

  /** Hydration leaves the plan, the policy decision and the steps alone. */
  predicate SameExceptContext(p: TaskProjection, p': TaskProjection) {
    && p'.planSteps == p.planSteps && p'.completedSteps == p.completedSteps && p'.request == p.request
    && p'.policyDecision == p.policyDecision && p'.modality == p.modality
  }

  /** A live task parked on one stage's question has every earlier one answered. */
  lemma OpenMeansParked(cfg: Config, cid: CorrelationId, h: seq<LedgerEvent>, q: GateQuestion)
    requires Lawful(cfg, cid, h) && !Project(cid, h).phase.IsTerminal() && q in GateHistory(h) && !q.answered
    ensures Project(cid, h).phase == AwaitingHuman
  {
    hide Lawful, Project, GateHistory;
    GateFacts(cfg, cid, h);
    var qs := GateHistory(h);
    var i :| 0 <= i < |qs| && qs[i] == q;
  }

  lemma NoPlanNoSteps(cfg: Config, cid: CorrelationId, h: seq<LedgerEvent>)
    requires Lawful(cfg, cid, h) && Project(cid, h).planSteps == []
    ensures Project(cid, h).completedSteps == []
  {
    hide Lawful, Project, GateHistory;
    StepFacts(cfg, cid, h);
    var done := Project(cid, h).completedSteps;
    if done != [] { FirstIsMember(done); }
  }

  lemma FirstIsMember(s: seq<int>)
    requires s != []
    ensures s[0] in s
  {
  }

  /** The decision on record once the review is over: the one that was, or an approval. */
  function Decided(p: TaskProjection): Option<string> {
    if p.policyDecision.Some? then p.policyDecision else Some("STATUS_APPROVED")
  }

  /** What the step loop never changes. */
  predicate SameDuty(p: TaskProjection, p': TaskProjection) {
    && p'.phase != AwaitingHuman && p'.planSteps == p.planSteps
    && p'.contextPacket == p.contextPacket && p'.policyDecision == p.policyDecision && p'.modality == p.modality
  }

  predicate StepReady(cfg: Config, p: TaskProjection, i: int) {
    && cfg.worker && p.phase != AwaitingHuman && 0 <= i < |p.planSteps| && i !in p.completedSteps
    && (cfg.policy ==> p.policyDecision.Some?)
  }

  lemma StepKeepsRollbackFree(h: seq<LedgerEvent>, e: LedgerEvent)
    requires IsStepEvent(e.draft.etype)
    ensures RollbackFree(h + [e]) <==> RollbackFree(h)
  {
    assert forall j :: 0 <= j < |h| ==> (h + [e])[j] == h[j];
    if RollbackFree(h + [e]) {
      forall j | 0 <= j < |h| ensures !h[j].draft.etype.StateRollbackTriggered? { assert (h + [e])[j] == h[j]; }
    }
  }

  lemma SameVerdict(cfg: Config, ans: Answers, p: TaskProjection, p': TaskProjection, qs: seq<GateQuestion>, mode: Modality, recorded: bool)
    requires SameExceptContext(p, p')
    ensures DriveVerdict(cfg, ans, p, qs, mode, recorded) == DriveVerdict(cfg, ans, p', qs, mode, recorded)
    ensures Decided(p) == Decided(p')
    ensures PlanFlow(cfg, ans, p, mode) == PlanFlow(cfg, ans, p', mode) && PolicyFlow(cfg, ans, p, qs) == PolicyFlow(cfg, ans, p', qs)
    ensures PlanFlow(cfg, ans, p, mode) == Goes ==>
              PlanAfter(cfg, ans, p, mode, recorded) == PlanAfter(cfg, ans, p', mode, recorded)
  {
    hide FinishVerdict, StageQuestion;
  }

  lemma EndsPlainly(cfg: Config, ans: Answers, p: TaskProjection, qs: seq<GateQuestion>, phase: TaskPhase, d: Draft)
    requires phase == Committed || phase == Failed
    ensures EndsOn(cfg, ans, p, qs, phase, d) <==> if phase == Committed then d.etype.MutationCommitted? else d.etype.ExecutionFailed?
  {
  }

  /** Once hydration is out of the way, what a run ends on is the same for both projections. */
  lemma SameEnding(cfg: Config, ans: Answers, p: TaskProjection, p': TaskProjection, qs: seq<GateQuestion>, phase: TaskPhase, d: Draft)
    requires HydrateFlow(cfg, ans, p, qs) == Goes && !HydrationPending(cfg, p', qs)
    ensures EndsOn(cfg, ans, p', qs, phase, d) ==> EndsOn(cfg, ans, p, qs, phase, d)
  {
  }

  lemma MayExecuteIff(cfg: Config, ans: Answers, p: TaskProjection, qs: seq<GateQuestion>)
    requires forall q :: q in qs ==> q.answered
    ensures MayExecute(cfg, ans, p, qs)
            <==> HydrateFlow(cfg, ans, p, qs) == Goes && PlanFlow(cfg, ans, p, p.modality) != Raises && PolicyFlow(cfg, ans, p, qs) == Goes
  {
    hide Asked, HydrationPending;
  }

  lemma PolicyFlowDependsOnDecision(cfg: Config, ans: Answers, p: TaskProjection, p': TaskProjection, qs: seq<GateQuestion>)
    requires p'.policyDecision == p.policyDecision
    ensures PolicyFlow(cfg, ans, p, qs) == PolicyFlow(cfg, ans, p', qs)
  {
  }

  lemma NoOpenQuestion(cfg: Config, cid: CorrelationId, h: seq<LedgerEvent>)
    requires Lawful(cfg, cid, h) && !Project(cid, h).phase.IsTerminal() && Project(cid, h).phase != AwaitingHuman
    ensures forall q :: q in GateHistory(h) ==> q.answered
  {
    forall q | q in GateHistory(h) ensures q.answered {
      if !q.answered { OpenMeansParked(cfg, cid, h, q); }
    }
  }

  lemma OpenQuestionIsStaged(cfg: Config, cid: CorrelationId, h: seq<LedgerEvent>)
    requires Lawful(cfg, cid, h) && OpenQuestion(GateHistory(h)).Some?
    ensures OpenQuestion(GateHistory(h)).value.role in {Some(ContextBuilderPlanner), Some(PolicyRisk)}
  {
    hide Lawful, Project, GateHistory;
    GateFacts(cfg, cid, h);
    var qs := GateHistory(h);
    var q := OpenQuestion(qs).value;
    var i :| 0 <= i < |qs| && qs[i] == q;
    assert NamedAfterStage(qs[i]);
  }

  /** `_GATE_RESUME_PHASES` */
  function ResumePhase(role: Option<Role>): TaskPhase {
    if role == Some(ContextBuilderPlanner) then Planning else Executing
  }

  lemma EmptyIsNotParked(cid: CorrelationId)
    ensures Project(cid, []).phase == Created
  {
  }

  lemma EmptyAllowsRequest(cfg: Config, cid: CorrelationId, d: Draft)
    requires d.cid == cid && d.etype.TaskRequested?
    ensures Allowed(cfg, cid, [], d)
  {
  }

  lemma RequestAllowsQueue(cfg: Config, cid: CorrelationId, first: LedgerEvent, d: Draft)
    requires d.cid == cid && d.etype.TaskQueued? && first.draft.etype.TaskRequested?
    ensures Allowed(cfg, cid, [first], d)
  {
  }

  lemma RulingAllowed(cfg: Config, cid: CorrelationId, h: seq<LedgerEvent>, d: Draft)
    requires h != [] && d.cid == cid && !HasKey(h, d.Key())
    requires d.etype.HumanGateCleared? || d.etype.HumanGateRejected?
    requires RulingAllows(Project(cid, h), GateHistory(h), d)
    ensures Allowed(cfg, cid, h, d)
  {
  }

  lemma CorrectionAllowed(cfg: Config, cid: CorrelationId, h: seq<LedgerEvent>, d: Draft)
    requires h != [] && d.cid == cid && !HasKey(h, d.Key())
    requires d.etype.UserCorrection? && d.attempt == Project(cid, h).userCorrections && d.disc == NoDisc
    ensures Allowed(cfg, cid, h, d)
  {
  }
}
