/** Safety of a lineage over every lawful history, hence over every
    interleaving of complete and crashed runs, human rulings and recovery sweeps. */
module LifecycleSafety {
  import opened Collections
  import opened Ledger
  import opened Replay
  import opened Gates
  import opened ModalityProfiles
  import opened Lifecycle

  // -- the parts of the invariant -------------------------------------------

  lemma GateFacts(cfg: Config, cid: CorrelationId, h: seq<LedgerEvent>)
    requires Lawful(cfg, cid, h)
    ensures GateInv(cfg, Project(cid, h), GateHistory(h))
    ensures |h| <= 1 ==> Project(cid, h).phase == Created
  {
    hide Lawful, GateInv, TraceInv, StepInv, KeysDistinct, Project, GateHistory;
    LawfulInv(cfg, cid, h);
    if |h| <= 1 { FirstIsCreated(cfg, cid, h); }
  }

  lemma TraceFacts(cfg: Config, cid: CorrelationId, h: seq<LedgerEvent>)
    requires Lawful(cfg, cid, h)
    ensures TraceInv(Project(cid, h), GateHistory(h), h)
  {
    hide Lawful, GateInv, TraceInv, StepInv, KeysDistinct, Project, GateHistory;
    LawfulInv(cfg, cid, h);
  }

  lemma StepFacts(cfg: Config, cid: CorrelationId, h: seq<LedgerEvent>)
    requires Lawful(cfg, cid, h)
    ensures StepInv(cfg, Project(cid, h), h) && KeysDistinct(h)
    ensures Project(cid, h).stateVersion == |h|
    ensures forall j :: 0 <= j < |h| ==> h[j].draft.cid == cid
  {
    hide Lawful, GateInv, TraceInv, StepInv, KeysDistinct, Project, GateHistory;
    LawfulInv(cfg, cid, h);
  }

  // -- human gates ----------------------------------------------------------

  ghost function OpenQuestions(qs: seq<GateQuestion>): set<int> {
    set i | 0 <= i < |qs| && !qs[i].answered
  }

  /** A live task is parked exactly when one question is open; it never has two. */
  lemma ParkedIffOneOpenQuestion(cfg: Config, cid: CorrelationId, h: seq<LedgerEvent>)
    requires Lawful(cfg, cid, h) && !Project(cid, h).phase.IsTerminal()
    ensures Project(cid, h).phase == AwaitingHuman <==> |OpenQuestions(GateHistory(h))| == 1
    ensures |OpenQuestions(GateHistory(h))| <= 1
  {
    hide Lawful, Project, GateHistory;
    GateFacts(cfg, cid, h);
    var qs := GateHistory(h);
    if qs != [] && !qs[|qs| - 1].answered {
      assert OpenQuestions(qs) == {|qs| - 1};
    } else {
      assert OpenQuestions(qs) == {};
    }
  }

  /** While a question is open only a human ruling (or an audit note that moves
      nothing) can be appended: no run and no recovery sweep writes to the lineage. */
  lemma ParkedTaskWaitsForHuman(cfg: Config, cid: CorrelationId, h: seq<LedgerEvent>, d: Draft)
    requires Lawful(cfg, cid, h) && Project(cid, h).phase == AwaitingHuman && Allowed(cfg, cid, h, d)
    ensures d.etype.HumanGateCleared? || d.etype.HumanGateRejected? || d.etype.UserCorrection? || d.etype.ModelEscalated?
  {
    hide Lawful, Project, GateHistory;
    GateFacts(cfg, cid, h);
    var p, qs := Project(cid, h), GateHistory(h);
    if HydrationPending(cfg, p, qs) { ParkedMeansHydrated(cfg, p, qs); }
  }

  /** Nothing commits past a question: when `MUTATION_COMMITTED` is appended every
      question the lineage asked has been answered by a release that names it. */
  lemma CommitNeedsEveryAnswer(cfg: Config, cid: CorrelationId, h: seq<LedgerEvent>, k: nat)
    requires Lawful(cfg, cid, h) && k < |h| && h[k].draft.etype.MutationCommitted?
    ensures forall q :: q in GateHistory(h[..k]) ==> q.answered && ClearedBy(h[..k], q.disc)
  {
    hide Lawful, Project, GateHistory, Traced;
    CrashLeavesLawful(cfg, cid, h, k);
    var pre := h[..k];
    GateFacts(cfg, cid, pre);
    TraceFacts(cfg, cid, pre);
    var qs := GateHistory(pre);
    forall q | q in qs ensures q.answered && ClearedBy(pre, q.disc) {
      var i :| 0 <= i < |qs| && qs[i] == q;
      assert qs[i].answered;
    }
  }

  /** Questions of one lineage have pairwise distinct names, at most one per stage. */
  lemma QuestionNamesDistinct(cfg: Config, cid: CorrelationId, h: seq<LedgerEvent>)
    requires Lawful(cfg, cid, h)
    ensures forall i, j :: 0 <= i < j < |GateHistory(h)| ==> GateHistory(h)[i].disc != GateHistory(h)[j].disc
    ensures |GateHistory(h)| <= 2
  {
    hide Lawful, Project, GateHistory;
    GateFacts(cfg, cid, h);
    var qs := GateHistory(h);
    forall i, j | 0 <= i < j < |qs| ensures qs[i].disc != qs[j].disc {
      assert NamedAfterStage(qs[i]) && NamedAfterStage(qs[j]);
    }
    assert |qs| > 2 ==> NamedAfterStage(qs[0]) && NamedAfterStage(qs[1]) && NamedAfterStage(qs[2]);
  }

  /** A genuine gate request is never swallowed by its idempotency key, and the
      same request delivered again always is. */
  lemma GateRequestLandsOnce(cfg: Config, cid: CorrelationId, h: seq<LedgerEvent>, d: Draft, sid: nat)
    requires Lawful(cfg, cid, h) && d.cid == cid && d.etype.AwaitingHumanAttestation?
    requires h != [] && !Project(cid, h).phase.IsTerminal() && GateAllows(cfg, Project(cid, h), GateHistory(h), d)
    ensures !HasKey(h, d.Key())
    ensures var h' := AppendTo(h, d, sid);
            && |h'| == |h| + 1
            && GateDiscriminator(GateHistory(h'), d.role.value) == d.disc
            && AppendTo(h', d, sid) == h'
  {
    hide Lawful, Project, GateHistory;
    TraceFacts(cfg, cid, h);
    if HasKey(h, d.Key()) {
      var j :| 0 <= j < |h| && h[j].draft.Key() == d.Key();
      assert Traced(Project(cid, h), GateHistory(h), h[j].draft, j);
      assert Asked(GateHistory(h), h[j].draft.role.value);
      RequestNamesItsRole(cfg, cid, h, j);
      assert false;
    }
    var h' := AppendTo(h, d, sid);
    var e := h'[|h|];
    GateHistorySnoc(h, e);
    QuestionIdentity(GateHistory(h), d.role.value, d.payload);
    assert h'[|h|].draft.Key() == d.Key();
  }

  lemma RequestNamesItsRole(cfg: Config, cid: CorrelationId, h: seq<LedgerEvent>, j: nat)
    requires Lawful(cfg, cid, h) && j < |h| && h[j].draft.etype.AwaitingHumanAttestation?
    ensures h[j].draft.role.Some? && h[j].draft.disc.GateDisc? && h[j].draft.disc.role == h[j].draft.role.value
  {
    hide Lawful, Project, GateHistory;
    CrashLeavesLawful(cfg, cid, h, j);
  }

  /** A ruling on the open question always lands, and answers that question. */
  lemma RulingLands(cfg: Config, cid: CorrelationId, h: seq<LedgerEvent>, d: Draft)
    requires Lawful(cfg, cid, h) && d.cid == cid
    requires d.etype.HumanGateCleared? || d.etype.HumanGateRejected?
    requires NamesOpenQuestion(Project(cid, h), GateHistory(h), d)
    ensures !HasKey(h, d.Key()) && h != []
    ensures d.etype.HumanGateCleared? ==>
              OpenQuestion(GateStep(GateHistory(h), d)).None? && |GateStep(GateHistory(h), d)| == |GateHistory(h)|
  {
    hide Lawful, Project, GateHistory;
    GateFacts(cfg, cid, h);
    TraceFacts(cfg, cid, h);
    var p, qs := Project(cid, h), GateHistory(h);
    RulingAnswersLast(qs);
    if HasKey(h, d.Key()) {
      var j :| 0 <= j < |h| && h[j].draft.Key() == d.Key();
      assert Traced(p, qs, h[j].draft, j);
      QuestionNamesDistinct(cfg, cid, h);
      assert false;
    }
  }

  /** A parked task always has the open question a ruling can answer. */
  lemma ParkedHasOpenQuestion(cfg: Config, cid: CorrelationId, h: seq<LedgerEvent>)
    requires Lawful(cfg, cid, h) && Project(cid, h).phase == AwaitingHuman
    ensures OpenQuestion(GateHistory(h)).Some?
  {
    hide Lawful, Project, GateHistory;
    GateFacts(cfg, cid, h);
  }

  /** What a release leaves behind, for every resume phase a caller may name: the
      parked-iff-open agreement survives exactly when the phase is not
      `AWAITING_HUMAN` itself ... */
  lemma ReleaseKeepsAgreementIff(cfg: Config, cid: CorrelationId, h: seq<LedgerEvent>, d: Draft, sid: nat)
    requires Lawful(cfg, cid, h) && d.cid == cid && d.etype.HumanGateCleared? && d.payload.resumePhase.Some?
    requires NamesOpenQuestion(Project(cid, h), GateHistory(h), d)
    ensures var h' := h + [Seal(d, sid, |h| + 1, Tip(h))];
            && OpenQuestions(GateHistory(h')) == {}
            && ((Project(cid, h').phase == AwaitingHuman <==> |OpenQuestions(GateHistory(h'))| == 1)
                <==> d.payload.resumePhase.value != AwaitingHuman)
  {
    hide Lawful, Project, GateHistory;
    GateFacts(cfg, cid, h);
    var e := Seal(d, sid, |h| + 1, Tip(h));
    RulingAnswersLast(GateHistory(h));
    GateHistorySnoc(h, e);
    ProjectSnoc(cid, h, e);
    assert OpenQuestions(GateHistory(h + [e])) == {};
  }

  /** ... and a release that resumes into `AWAITING_HUMAN` leaves a lineage that nothing can
      move again: parked, with no question left for a ruling to answer. */
  ghost predicate Stuck(cfg: Config, cid: CorrelationId, h: seq<LedgerEvent>) {
    var p, qs := Project(cid, h), GateHistory(h);
    p.phase == AwaitingHuman && OpenQuestion(qs).None? && !HydrationPending(cfg, p, qs) && |h| > 1
  }

  lemma ReleaseIntoTheGateSticks(cfg: Config, cid: CorrelationId, h: seq<LedgerEvent>, d: Draft, sid: nat)
    requires Lawful(cfg, cid, h) && d.cid == cid && d.etype.HumanGateCleared?
    requires NamesOpenQuestion(Project(cid, h), GateHistory(h), d) && d.payload.resumePhase == Some(AwaitingHuman)
    ensures Stuck(cfg, cid, h + [Seal(d, sid, |h| + 1, Tip(h))])
  {
    hide Lawful, Project, GateHistory;
    ReleaseKeepsAgreementIff(cfg, cid, h, d, sid);
    GateFacts(cfg, cid, h);
    var e := Seal(d, sid, |h| + 1, Tip(h));
    var p, qs, p', qs' := Project(cid, h), GateHistory(h), Project(cid, h + [e]), GateHistory(h + [e]);
    ProjectSnoc(cid, h, e);
    GateHistorySnoc(h, e);
    AskedAfter(qs, d, ContextBuilderPlanner);
    assert !HydrationPending(cfg, p, qs) by {
      if HydrationPending(cfg, p, qs) { ParkedMeansHydrated(cfg, p, qs); }
    }
    assert p'.phase == AwaitingHuman && !HydrationPending(cfg, p', qs');
    hide GateInv, ApplyEvent, GateStep;
    assert OpenQuestion(qs').None? by {
      forall i | 0 <= i < |qs'| ensures qs'[i].answered {
        assert i in OpenQuestions(qs') <==> !qs'[i].answered;
      }
    }
  }

  predicate IsNote(t: EventType) { t.UserCorrection? || t.ModelEscalated? }

  lemma StuckAllowsOnlyNotes(cfg: Config, cid: CorrelationId, h: seq<LedgerEvent>, e: LedgerEvent)
    requires Stuck(cfg, cid, h) && Allowed(cfg, cid, h, e.draft)
    ensures IsNote(e.draft.etype) && Stuck(cfg, cid, h + [e])
  {
    hide Project, GateHistory;
    ProjectSnoc(cid, h, e);
    GateHistorySnoc(h, e);
    assert IsNote(e.draft.etype);
    hide Allowed;
  }

  /** Whatever follows such a release, as long as each event is permitted where it stands:
      only notes, and the lineage stays as stuck as it was. */
  lemma {:induction false} ResumingIntoTheGateDeadlocks(cfg: Config, cid: CorrelationId, h: seq<LedgerEvent>, d: Draft, sid: nat, g: seq<LedgerEvent>)
    requires Lawful(cfg, cid, h) && d.cid == cid && d.etype.HumanGateCleared?
    requires NamesOpenQuestion(Project(cid, h), GateHistory(h), d) && d.payload.resumePhase == Some(AwaitingHuman)
    requires h + [Seal(d, sid, |h| + 1, Tip(h))] <= g && forall k :: |h| < k < |g| ==> Permitted(cfg, cid, g, k)
    ensures Stuck(cfg, cid, g) && forall k :: |h| < k < |g| ==> IsNote(g[k].draft.etype)
    decreases |g|
  {
    hide Lawful, Project, GateHistory, Stuck, Allowed, IsNote, NamesOpenQuestion;
    var released := h + [Seal(d, sid, |h| + 1, Tip(h))];
    if |g| == |released| {
      assert g == released;
      ReleaseIntoTheGateSticks(cfg, cid, h, d, sid);
    } else {
      var n := |g| - 1;
      var init := g[..n];
      assert g == init + [g[n]];
      forall k | |h| < k < n ensures Permitted(cfg, cid, init, k) {
        assert init[..k + 1] == g[..k + 1];
        PermittedDependsOnPrefix(cfg, cid, init, g, k);
      }
      ResumingIntoTheGateDeadlocks(cfg, cid, h, d, sid, init);
      assert Permitted(cfg, cid, g, n);
      StuckAllowsOnlyNotes(cfg, cid, init, g[n]);
      forall k | |h| < k < |g| ensures IsNote(g[k].draft.etype) {
        if k < n { assert init[k] == g[k]; }
      }
    }
  }

  // -- terminal phases ------------------------------------------------------

  /** Terminal phases are absorbing: after one, only audit notes are appended and
      the phase never changes again. */
  lemma {:induction false} TerminalIsAbsorbing(cfg: Config, cid: CorrelationId, h: seq<LedgerEvent>, k: nat)
    requires Lawful(cfg, cid, h) && k <= |h| && Project(cid, h[..k]).phase.IsTerminal()
    ensures Project(cid, h).phase == Project(cid, h[..k]).phase
    ensures forall j :: k <= j < |h| ==> h[j].draft.etype.UserCorrection? || h[j].draft.etype.ModelEscalated?
    decreases |h|
  {
    hide Project, Allowed, GateHistory, Lawful, ApplyEvent;
    if k == |h| {
      assert h[..k] == h;
    } else {
      var init, e := h[..|h| - 1], h[|h| - 1];
      CrashLeavesLawful(cfg, cid, h, |h| - 1);
      assert init[..k] == h[..k];
      TerminalIsAbsorbing(cfg, cid, init, k);
      TerminalAllowsOnlyNotes(cfg, cid, init, e.draft);
      assert h == init + [e];
      ProjectSnoc(cid, init, e);
      NotesMoveNothing(Project(cid, init), e);
      forall j | k <= j < |h| ensures h[j].draft.etype.UserCorrection? || h[j].draft.etype.ModelEscalated? {
        if j < |init| { assert init[j] == h[j]; }
      }
    }
  }

  lemma NotesMoveNothing(p: TaskProjection, e: LedgerEvent)
    requires e.draft.etype.UserCorrection? || e.draft.etype.ModelEscalated?
    ensures var p' := ApplyEvent(p, e);
            p'.phase == p.phase && p'.planSteps == p.planSteps && p'.completedSteps == p.completedSteps
  {
  }

  lemma TerminalAllowsOnlyNotes(cfg: Config, cid: CorrelationId, h: seq<LedgerEvent>, d: Draft)
    requires Lawful(cfg, cid, h) && Project(cid, h).phase.IsTerminal() && Allowed(cfg, cid, h, d)
    ensures d.etype.UserCorrection? || d.etype.ModelEscalated?
  {
    hide Lawful, Project, GateHistory;
    GateFacts(cfg, cid, h);
  }

  // -- steps ----------------------------------------------------------------

  predicate EachStepOnce(p: TaskProjection) {
    && (forall i :: 0 <= i < |p.planSteps| ==> multiset(p.completedSteps)[i] == 1)
    && (forall i :: i in p.completedSteps ==> 0 <= i < |p.planSteps|)
  }

  /** Without a rollback, a committed task completed every plan index exactly once,
      and still does after anything appended later. */
  lemma CommitIsComplete(cfg: Config, cid: CorrelationId, h: seq<LedgerEvent>, k: nat)
    requires Lawful(cfg, cid, h) && k < |h| && h[k].draft.etype.MutationCommitted?
    requires cfg.worker && RollbackFree(h[..k])
    ensures EachStepOnce(Project(cid, h[..k])) && EachStepOnce(Project(cid, h))
  {
    hide Lawful, Project, GateHistory;
    CrashLeavesLawful(cfg, cid, h, k);
    var p := Project(cid, h[..k]);
    StepFacts(cfg, cid, h[..k]);
    forall i | 0 <= i < |p.planSteps| ensures multiset(p.completedSteps)[i] == 1 {
      assert i in p.completedSteps;
      DistinctCountsOnce(p.completedSteps, i);
    }
    CommittedStepsPersist(cfg, cid, h, k);
  }

  lemma {:induction false} DistinctCountsOnce(s: seq<int>, x: int)
    requires Distinct(s) && x in s
    ensures multiset(s)[x] == 1
  {
    var n := |s| - 1;
    assert s == s[..n] + [s[n]];
    if s[n] != x {
      DistinctCountsOnce(s[..n], x);
    }
  }

  lemma CommitMovesNoStep(p: TaskProjection, e: LedgerEvent)
    requires e.draft.etype.MutationCommitted?
    ensures ApplyEvent(p, e).planSteps == p.planSteps && ApplyEvent(p, e).completedSteps == p.completedSteps
  {
  }

  lemma {:induction false} CommittedStepsPersist(cfg: Config, cid: CorrelationId, h: seq<LedgerEvent>, k: nat)
    requires Lawful(cfg, cid, h) && k < |h| && h[k].draft.etype.MutationCommitted?
    ensures Project(cid, h).completedSteps == Project(cid, h[..k]).completedSteps
    ensures Project(cid, h).planSteps == Project(cid, h[..k]).planSteps
    decreases |h|
  {
    hide Project, Allowed, GateHistory, Lawful, ApplyEvent;
    var n := |h| - 1;
    var init, e := h[..n], h[n];
    assert h == init + [e];
    if k == n {
      ProjectSnoc(cid, init, e);
      CommitMovesNoStep(Project(cid, init), e);
    } else {
      CrashLeavesLawful(cfg, cid, h, n);
      assert init[..k] == h[..k] && init[k] == h[k];
      CommittedStepsPersist(cfg, cid, init, k);
      TraceFacts(cfg, cid, init);
      assert Traced(Project(cid, init), GateHistory(init), init[k].draft, k);
      TerminalAllowsOnlyNotes(cfg, cid, init, e.draft);
      ProjectSnoc(cid, init, e);
      NotesMoveNothing(Project(cid, init), e);
    }
  }

  // -- attempts -------------------------------------------------------------

  /** The (step, attempt) pairs a history has started. */
  ghost function StartedPairs(h: seq<LedgerEvent>): set<(int, int)> {
    if h == [] then {}
    else
      var d := h[|h| - 1].draft;
      StartedPairs(h[..|h| - 1])
      + if d.etype.ExecutionStarted? && d.payload.stepIndex.Some? then {(d.payload.stepIndex.value, d.attempt)} else {}
  }

  lemma {:induction false} StartedPairsFromHistory(h: seq<LedgerEvent>, pair: (int, int))
    ensures pair in StartedPairs(h) <==>
            exists j :: 0 <= j < |h| && h[j].draft.etype.ExecutionStarted?
                        && h[j].draft.payload.stepIndex == Some(pair.0) && h[j].draft.attempt == pair.1
  {
    if h != [] {
      var init := h[..|h| - 1];
      StartedPairsFromHistory(init, pair);
      assert forall j :: 0 <= j < |init| ==> init[j] == h[j];
    }
  }

  /** Distinct keys make each start a new pair, so the counter counts pairs. */
  lemma {:induction false} StartsArePairs(cfg: Config, cid: CorrelationId, p: TaskProjection, h: seq<LedgerEvent>)
    requires KeysDistinct(h)
    requires forall j :: 0 <= j < |h| ==> h[j].draft.cid == cid && StepTraced(cfg, p, h[j].draft)
    ensures |StartedPairs(h)| == Count(h, ExecutionStarted)
    ensures forall pair :: pair in StartedPairs(h) ==> 0 <= pair.0 < |p.planSteps| && 0 <= pair.1 < cfg.StepAttempts()
  {
    if h != [] {
      var init, d := h[..|h| - 1], h[|h| - 1].draft;
      StartsArePairs(cfg, cid, p, init);
      if d.etype.ExecutionStarted? {
        assert StepTraced(cfg, p, d);
        var pair := (d.payload.stepIndex.value, d.attempt as int);
        StartedPairsFromHistory(init, pair);
        forall j | 0 <= j < |init|
          ensures !(init[j].draft.etype.ExecutionStarted?
                    && init[j].draft.payload.stepIndex == Some(pair.0) && init[j].draft.attempt == pair.1)
        {
          assert init[j] == h[j] && StepTraced(cfg, p, h[j].draft) && h[j].draft.Key() != d.Key();
        }
      }
    }
  }

  ghost function Grid(rows: nat, columns: nat): set<(int, int)> {
    set i, a | 0 <= i < rows && 0 <= a < columns :: (i, a)
  }

  ghost function Row(i: int, columns: nat): set<(int, int)> {
    set a | 0 <= a < columns :: (i, a)
  }

  lemma {:induction false} RowSize(i: int, columns: nat)
    ensures |Row(i, columns)| == columns
  {
    if columns == 0 {
      assert Row(i, 0) == {};
    } else {
      RowSize(i, columns - 1);
      assert Row(i, columns) == Row(i, columns - 1) + {(i, columns - 1)};
    }
  }

  lemma GridSplit(rows: nat, columns: nat)
    requires rows > 0
    ensures Grid(rows, columns) == Grid(rows - 1, columns) + Row(rows - 1, columns)
    ensures Grid(rows - 1, columns) !! Row(rows - 1, columns)
  {
  }

  lemma {:induction false} GridSize(rows: nat, columns: nat)
    ensures |Grid(rows, columns)| == rows * columns
  {
    if rows == 0 {
      assert Grid(0, columns) == {};
    } else {
      GridSize(rows - 1, columns);
      RowSize(rows - 1, columns);
      GridSplit(rows, columns);
      assert (rows - 1) * columns + columns == rows * columns;
    }
  }

  /** However often a task crashes, resumes and rolls back, the attempts its
      projection counts are bounded by the plan times the per-step retries, and
      the plan by the ceiling of the modality it was compiled under. */
  lemma AttemptsAreBounded(cfg: Config, cid: CorrelationId, h: seq<LedgerEvent>)
    requires Lawful(cfg, cid, h)
    ensures Project(cid, h).attempts <= |Project(cid, h).planSteps| * cfg.StepAttempts()
    ensures forall k :: 0 <= k < |h| && h[k].draft.etype.PlanCompiled? ==>
              && Project(cid, h).planSteps == h[k].draft.payload.executionSteps
              && |Project(cid, h).planSteps| <= PlanCeiling(h[k].draft.mode)
              && Project(cid, h).attempts <= PlanCeiling(h[k].draft.mode) * cfg.StepAttempts()
  {
    hide Lawful, Project, GateHistory;
    StepFacts(cfg, cid, h);
    TraceFacts(cfg, cid, h);
    var p := Project(cid, h);
    StartsArePairs(cfg, cid, p, h);
    assert StartedPairs(h) <= Grid(|p.planSteps|, cfg.StepAttempts());
    SubsetSize(StartedPairs(h), Grid(|p.planSteps|, cfg.StepAttempts()));
    GridSize(|p.planSteps|, cfg.StepAttempts());
    forall k | 0 <= k < |h| && h[k].draft.etype.PlanCompiled?
      ensures p.planSteps == h[k].draft.payload.executionSteps
              && |p.planSteps| <= PlanCeiling(h[k].draft.mode)
              && p.attempts <= PlanCeiling(h[k].draft.mode) * cfg.StepAttempts()
    {
      assert Traced(p, GateHistory(h), h[k].draft, k);
      MulMonotone(|p.planSteps|, PlanCeiling(h[k].draft.mode), cfg.StepAttempts());
    }
  }

  lemma MulMonotone(a: int, b: int, c: nat)
    requires a <= b
    ensures a * c <= b * c
  {
  }

  // -- appends that are never swallowed -------------------------------------

  /** A live lineage holds no terminal event, so the event that closes it lands. */
  lemma ClosingEventLands(cfg: Config, cid: CorrelationId, h: seq<LedgerEvent>, d: Draft)
    requires Lawful(cfg, cid, h) && !Project(cid, h).phase.IsTerminal() && d.etype.IsTerminal()
    ensures !HasKey(h, d.Key())
  {
    hide Lawful, Project, GateHistory;
    TraceFacts(cfg, cid, h);
    forall j | 0 <= j < |h| ensures h[j].draft.Key() != d.Key() {
      assert Traced(Project(cid, h), GateHistory(h), h[j].draft, j);
    }
  }

  /** Likewise for the context packet and for the policy clearance. */
  lemma StageResultLands(cfg: Config, cid: CorrelationId, h: seq<LedgerEvent>, d: Draft)
    requires Lawful(cfg, cid, h)
    requires (d.etype.ContextHydrated? && Project(cid, h).contextPacket.None?)
             || (d.etype.PolicyCleared? && Project(cid, h).policyDecision.None?)
    ensures !HasKey(h, d.Key())
  {
    hide Lawful, Project, GateHistory;
    TraceFacts(cfg, cid, h);
    forall j | 0 <= j < |h| ensures h[j].draft.Key() != d.Key() {
      assert Traced(Project(cid, h), GateHistory(h), h[j].draft, j);
    }
  }

  /** Without a rollback, a step that is not completed has no completion on record,
      so its completion lands whatever attempt it comes from. */
  lemma CompletionLands(cfg: Config, cid: CorrelationId, h: seq<LedgerEvent>, key: Key)
    requires Lawful(cfg, cid, h) && RollbackFree(h)
    requires key.etype.ExecutionCompleted? && key.disc.StepDisc? && key.disc.index !in Project(cid, h).completedSteps
    ensures !HasKey(h, key)
  {
    hide Lawful, Project, GateHistory;
    StepFacts(cfg, cid, h);
    forall j | 0 <= j < |h| ensures h[j].draft.Key() != key {
      assert StepTraced(cfg, Project(cid, h), h[j].draft);
    }
  }

  // -- progress -------------------------------------------------------------

  /** What a run that is not cut short does to a task that is neither closed nor parked. */
  ghost predicate RunCompletes(cid: CorrelationId, h: seq<LedgerEvent>, h': seq<LedgerEvent>) {
    Project(cid, h').phase.IsTerminal() || |GateHistory(h')| == |GateHistory(h)| + 1
  }

  /** A correction is keyed by how many came before it, so each one is recorded. */
  lemma CorrectionLands(cfg: Config, cid: CorrelationId, h: seq<LedgerEvent>, d: Draft)
    requires Lawful(cfg, cid, h) && d.etype.UserCorrection? && d.attempt == Project(cid, h).userCorrections
    ensures !HasKey(h, d.Key())
  {
    hide Lawful, Project, GateHistory;
    TraceFacts(cfg, cid, h);
    forall j | 0 <= j < |h| ensures h[j].draft.Key() != d.Key() {
      assert Traced(Project(cid, h), GateHistory(h), h[j].draft, j);
    }
  }
}
