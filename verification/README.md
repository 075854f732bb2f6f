# Verified model of the agent runtime's ledger, budgets, text and memory protocols

The runtime drives tasks by appending events to a hash-chained ledger and deciding every
next step from a projection replayed out of that ledger. Its safety does not sit in one
function: idempotency keys silently drop appends, the projection re-reads what was kept,
stage guards decide from the projection, and a process may die between any two appends.
This project models that lifecycle as one law over histories, implements the store, the
orchestrator and the boot sweep as classes whose methods keep to the law, and proves what
holds over every lawful history. Around it stand the delegation graph, token budgets and
context packing, the compactor and the managed-block editor, the eviction sweep and the
signal claim protocol.

| file | content |
|---|---|
| `Collections.dfy`, `Ledger.dfy`, `Replay.dfy`, `ReplayMeaning.dfy`, `Store.dfy` | events, keys and digests; the replay fold and what each of its fields says about the history; tables, chain verification, snapshots |
| `Gates.dfy`, `Lifecycle.dfy`, `LifecycleSafety.dfy` | gate questions; the law of histories and its invariant; theorems over all lawful histories |
| `Orchestrator.dfy`, `Defects.dfy` | the driver, and where its bookkeeping breaks |
| `Workspace.dfy`, `Recovery.dfy`, `Sweep.dfy`, `SweepConflict.dfy` | the disk, recovery of one lineage from its checkpoint, the boot sweep and the engine, and a world it never settles |
| `Modality.dfy`, `Delegation.dfy`, `Budget.dfy`, `Gatherer.dfy` | plan ceilings, cycle refusal, linked budgets, packing |
| `Compaction.dfy`, `Retention.dfy`, `Fitting.dfy`, `WorldModel.dfy`, `VaultFiles.dfy` | reduction to a fixed point and what it keeps, fitting a budget, managed blocks in a text, the files that hold them |
| `Decay.dfy`, `Confidence.dfy`, `DecayOrder.dfy` | keyset eviction, confidence over idle time, the exact conditions of the sweep's promises |
| `Claims.dfy`, `ClaimReasons.dfy` | competing claimers of one signal, and why each signal ends up as it does |

How the model is set up:

- `Lawful(cfg, cid, h)` says that each event of `h` was permitted by the code's guards on the
  prefix before it. Every prefix is lawful too, so a crash between two appends needs no rule
  of its own, and agents are arbitrary answers (`Answers`). The methods of `ChiefOrchestrator`
  and `RecoveryEngine` are proved to append lawfully, so theorems about lawful histories are
  theorems about every run with any crashes, resumes, rulings, corrections and sweeps.
- A digest is a free term over the digested fields, so equal digests mean equal fields.
- `hide` in a proof keeps a definition folded there; it assumes nothing.
- The claim protocol is a transition system whose atomic steps are the transactions of the
  code, interleaved freely among any number of workers.

Where the code does less than it is meant to, the code is kept, a concrete failing input is
given, and the exact condition under which the promise holds is proved:

- Releasing a gate *into* `AWAITING_HUMAN` leaves a parked lineage with no open question, which
  nothing can ever move again (`ReleaseKeepsAgreementIff`, `ResumingIntoTheGateDeadlocks`; a
  lineage it happens to: `ReleasedLineageIsStuck`).
- After a rollback the completion of a redone step can be dropped by its key, so a lineage
  commits with a plan index missing from `completed_steps` (`RollbackLosesACompletion`); a run
  that commits has completed its plan if and only if no completion it needed was on record
  (`Run`).
- All critiques of a step share one key, whatever the attempt, so only the first is kept. Once a
  step of a fresh lineage is won under a critic, `validation_verdict` shows `PASS` if and only if
  every earlier attempt ended in a worker error (`AttemptStep`; a critic that passes the second
  attempt and is shown as a rejection: `RetriedStepShowsRejection`).
- The boot sweep is idempotent if and only if no two lineages it compares were checkpointed with
  different contents for one path, their roots equal, nested or spelled differently
  (`SweepIdempotentIff`); `NestedRootsNeverSettle` gives two nested workspaces that every sweep
  restores over each other.
- A budget root built by hand with a profile halves if and only if the profile's quota one level
  down is at most half of it (`DescendantIsHalved`, `FirstChild`; a root that does not:
  `HandBuiltRootIsNotHalved`).
- The managed block of a one-line section reads back if and only if neither the section name nor
  the stripped content holds a carriage return, the stripped content no end marker and the
  document no unclosed begin marker (`FileRoundTripIff`; `UnreadableBlocks`; under a section name
  with a carriage return only empty content comes back). Under a name with a
  line feed that is not enough (`TwoLineNameIsUnreadable`); markers that are not met before the
  place they are written at are (`UnambiguousFileReadsBack`). Documents are read in text mode, so
  an update rewrites every carriage return outside the block: "text outside the managed block is
  never overwritten" holds if and only if there is none (`ReplacePreservesIff`,
  `AppendPreservesIff`; `WindowsFileIsRewritten`).
- `superseded_by` is declared `ON DELETE SET NULL`, so evicting a fact frees the facts it had
  superseded, ahead of the scan or behind it. Each promise of the sweep then has its own condition:
  - "Idempotent and interruptible by construction" (`src/paa/memory/decay.py:12-13`) fails
    (`SecondSweepEvictsMore`). At all batch sizes, wherever sweeps are cut, it holds if and only if
    every stale row superseded by a row `s` that eviction can reach has a greater id than every
    row live by then: every live row, and every row superseded by one that eviction can reach
    before `s` (`InterruptibleIff`). No stale row being superseded by a live stale one is the
    simplest such case (`InterruptionIsHarmless`). Enough finished sweeps always reach one and the
    same table (`SweepsSettle`).
  - "Superseded rows are never deleted" fails, and the batch size decides (`BatchSizeMatters`). At
    every batch size exactly the rows that were live and stale at the start are evicted if and only
    if every stale row superseded by one of them has the smaller id (`OnlyDoomedIff`).
  - The swept table is the one-pass filter, row for row with every `superseded_by`, if and only if
    no row at all is superseded by a live stale one (`SweepIsFilterIff`).
- With an embedding sink a batch worker can park a signal whose facts are committed as
  `malformed` (`CommittedIsProcessedIff`, by the run `SinkFailure`); facts are still written once.

## Model

| member | source | states |
|---|---|---|
| `Replay.Replay` | src/paa/ledger/replay.py:302-319 | the replay loop equals the fold from genesis or from the given projection; it refuses only an empty history without a start |
| `Replay.ReplaySplits` | src/paa/ledger/replay.py:302-350 | replaying `a + b` equals replaying `b` from the projection of `a`, for every split |
| `ReplayMeaning.TotalsAddUp` | src/paa/ledger/replay.py:218-283 | over every history and start: tokens are the sum over completions, attempts, rollbacks, escalations and corrections count their events, errors list the failures in order |
| `ReplayMeaning.CheckpointIsLastWritten` | src/paa/ledger/replay.py:218-270 | the manifest hash is what the last start, commit or rollback that names one carries, and an explicit `null` erases it |
| `ReplayMeaning.StepIndexIsLastWritten` | src/paa/ledger/replay.py:208-276 | the step index is zero after a plan, the step begun, one past the step completed, or the step restored, whichever event came last |
| `ReplayMeaning.PolicyIsLastWritten` | src/paa/ledger/replay.py:214-216 | decision and reason are those of the last verdict, under its own name when it carries none |
| `ReplayMeaning.VerdictIsLastWritten` | src/paa/ledger/replay.py:242-250 | the validation verdict is that of the last critique or failed validation, a silent failure counting as a rejection |
| `ReplayMeaning.AwaitingIsLastWritten` | src/paa/ledger/replay.py:258-262 | the awaited reason is that of the last question, until a release |
| `ReplayMeaning.WorkspaceIsLastWritten` | src/paa/ledger/replay.py:200-223 | the workspace is the last one a request or a start names |
| `ReplayMeaning.StageResultsAreLastWritten` | src/paa/ledger/replay.py:200-253 | request, packet, plan and patch are what the last event of their one type carries |
| `ReplayMeaning.EnvelopeIsKept` | src/paa/ledger/replay.py:171-181 | modality, clock and version of the newest event, clock of the oldest |
| `ReplayMeaning.SessionIsFirstNamed` | src/paa/ledger/replay.py:182-183 | the session is the first one any event names |
| `ReplayMeaning.CompletedIff` | src/paa/ledger/replay.py:208-276 | a step is listed as completed if and only if some completion of it stands with no new plan and no rollback to it or before it since |
| `ReplayMeaning.CompletionMeansExecutingIff` | src/paa/ledger/replay.py:227-240 | after a completion the phase is `EXECUTING` exactly while fewer distinct steps are done than planned, else `VALIDATING` |
| `ReplayMeaning.PhaseIsLastWritten` | src/paa/ledger/replay.py:149-197 | the phase is one that the last event other than a note leads to |
| `Replay.NoUnknownEvents` | src/paa/ledger/replay.py:170-287 | every event type of the vocabulary is handled or exempt: no projection ever lists an unknown event |
| `ModalityProfiles.MaxPlanNodesIsTreeSize` | src/paa/core/types.py:309-339 | the closed form equals the level-by-level node count of the tree, the division is exact, and the `B <= 1` branch is the chain's count |
| `Gates.ReleaseAnswersNewest` | src/paa/agents/orchestrator.py:120-139 | a release answers the newest question it concerns, by name or any open one, and nothing exactly when there is none or that one is answered |
| `Gates.ReadGateHistory` | src/paa/agents/orchestrator.py:918-954 | the loop over the lineage computes the fold of questions asked and answered |
| `Gates.StageQuestionIsNewest` | src/paa/agents/orchestrator.py:956-970 | the question returned is the newest one of that stage |
| `Gates.QuestionIdentity` | src/paa/agents/orchestrator.py:972-1013 | asking again before an answer mints the same name, another stage's name never moves, and answering moves the name on |
| `Lifecycle.CrashLeavesLawful` | src/paa/agents/orchestrator.py:263-288 | what a crash leaves of a lawful history is lawful, and its next event was permitted there |
| `Lifecycle.LawfulInv` | src/paa/agents/orchestrator.py:396-1100 | every lawful history satisfies the gate, trace and step invariants that the theorems below rest on |
| `LifecycleSafety.ParkedIffOneOpenQuestion` | src/paa/agents/orchestrator.py:396-439 | a live lineage is `AWAITING_HUMAN` exactly when one question is open, and never has two open |
| `LifecycleSafety.ParkedTaskWaitsForHuman` | src/paa/ledger/recovery.py:278-287 | while it is parked no stage event, commit, failure, rollback or sweep may be appended: only rulings and audit notes |
| `LifecycleSafety.CommitNeedsEveryAnswer` | src/paa/agents/orchestrator.py:600-715 | wherever `MUTATION_COMMITTED` stands, every question asked before it is answered by a release that names it |
| `LifecycleSafety.QuestionNamesDistinct` | src/paa/agents/orchestrator.py:972-1013 | the question names of a lineage are pairwise distinct and there are at most two |
| `LifecycleSafety.GateRequestLandsOnce` | src/paa/ledger/store.py:136-144 | a genuine gate request is never swallowed by its key; the same request delivered again always is |
| `LifecycleSafety.RulingLands` | src/paa/agents/orchestrator.py:1049-1086 | a ruling on the open question is never swallowed, and a release leaves no open question |
| `LifecycleSafety.ReleaseKeepsAgreementIff` | src/paa/agents/orchestrator.py:1015-1086 | for every resume phase, the parked-iff-open agreement survives a release exactly when the phase is not `AWAITING_HUMAN` |
| `LifecycleSafety.ResumingIntoTheGateDeadlocks` | src/paa/agents/orchestrator.py:1015-1086 | in every continuation after a release into `AWAITING_HUMAN` whose events are permitted one by one, all events are audit notes and the lineage stays parked with nothing to answer |
| `Defects.ReleasedLineageIsStuck` | src/paa/agents/orchestrator.py:1070-1086 | a lawful parked lineage and a release of its question after which it is stuck |
| `LifecycleSafety.TerminalIsAbsorbing` | src/paa/core/types.py:187-196 | after a terminal phase only corrections and escalation notes follow and the phase never changes |
| `LifecycleSafety.CommitIsComplete` | src/paa/agents/orchestrator.py:717-829 | with a worker and no rollback, a committed lineage has every plan index completed exactly once, then and ever after, across any crashes and resumes |
| `LifecycleSafety.AttemptsAreBounded` | src/paa/ledger/replay.py:208-240 | over any crashes, resumes and rollbacks `attempts` is at most plan length times (retries + 1), and at most the modality's node ceiling times that |
| `Orchestrator.ChiefOrchestrator.RunToClose` | src/paa/agents/orchestrator.py:396-439 | run, approve, run, approve, run ends in a terminal phase from every lawful lineage, for all agent answers |
| `LifecycleSafety.CompletionLands` | src/paa/agents/orchestrator.py:725-755 | without a rollback the completion of a step not yet completed is never swallowed, whatever its attempt |
| `LifecycleSafety.ClosingEventLands` | src/paa/agents/orchestrator.py:811-829 | a live lineage holds no terminal event, so the one that closes it always lands |
| `LifecycleSafety.CorrectionLands` | src/paa/agents/orchestrator.py:1088-1100 | each correction has a key of its own and is recorded |
| `Store.FindChainProblems` | src/paa/ledger/store.py:385-433 | the resynchronising loop reports nothing if and only if versions are dense from 1, each row links to its predecessor and each digest recomputes |
| `Store.ReportedIff` | src/paa/ledger/store.py:385-433 | each row is reported for its own digest, its own link and its own version against the last sealed one before it, so one gap is reported once |
| `Store.SameTipSameHistory` | src/paa/ledger/events.py:105-129 | two clean chains that end in one digest have equal length and agree on every digested field of every event |
| `Store.AppendRowIsLocal` | src/paa/ledger/store.py:116-201 | an append extends its own lineage by one sealed event, or by nothing on a taken key, and no other lineage changes |
| `Store.AppendRowKeepsSound` | src/paa/ledger/store.py:116-201 | globally unique keys, dense sequence ids and a well-formed chain in every lineage survive every append |
| `Store.DuplicatesChangeNothing` | src/paa/ledger/store.py:136-144 | any delivery sequence with duplicates leaves exactly the ledger of its first occurrences |
| `Store.RedeliveryIsAbsorbed` | src/paa/ledger/store.py:136-144 | delivering again what is on the ledger, in any order, changes nothing |
| `Store.HeadsMirrorAfter` | src/paa/ledger/store.py:292-308 | after an append every head still mirrors its lineage's last event and the last session named, and a terminal flag implies a terminal replayed projection |
| `Store.LedgerStore.FindByKey` | src/paa/ledger/store.py:284-290 | the row with a key is found exactly when there is one |
| `Store.LedgerStore.ChainTip` | src/paa/ledger/store.py:267-282 | the scan returns the length of the lineage and its last digest |
| `Store.LedgerStore.Append` | src/paa/ledger/store.py:116-201 | the whole new table and heads; the store stays sound, heads mirror, saved snapshots stay faithful |
| `Store.LedgerStore.ReadCorrelation` | src/paa/ledger/store.py:312-329 | the rows after a version are exactly the tail of the lineage from that position |
| `Store.LedgerStore.SaveSnapshot` | src/paa/ledger/store.py:450-463 | upsert on (lineage, version): that one entry is replaced or added, all others stay; the snapshots stay faithful if and only if what is saved is the true projection at that version |
| `Store.LedgerStore.LoadSnapshot` | src/paa/ledger/store.py:465-475 | the highest saved version of the lineage, or none exactly when none was saved |
| `Store.LedgerStore.ProjectTask` | src/paa/ledger/replay.py:322-350 | projecting from a faithful snapshot at any version equals projecting from genesis |
| `Store.FaithfulSurvives` | src/paa/ledger/store.py:450-475 | later appends keep every faithful snapshot faithful |
| `Orchestrator.ChiefOrchestrator.Emit` | src/paa/agents/orchestrator.py:263-288 | a lawful append or a suppressed redelivery, with the projection, the questions and the key set that result |
| `Orchestrator.ChiefOrchestrator.OpenGate` | src/paa/agents/orchestrator.py:890-916 | the question always lands and parks the lineage |
| `Orchestrator.ChiefOrchestrator.Hydrate` | src/paa/agents/orchestrator.py:467-540 | which of raise, park or go on happens, and that a finished or questioned stage appends nothing |
| `Orchestrator.ChiefOrchestrator.Plan` | src/paa/agents/orchestrator.py:542-598 | the plan afterwards, including the empty plan left by a suppressed second compilation, and the refusal above the ceiling |
| `Orchestrator.ChiefOrchestrator.CheckPolicy` | src/paa/agents/orchestrator.py:600-715 | raises, blocks, parks or clears exactly as the flow of guards says, with the event, role and payload it leaves; nothing is executed; a parked lineage is left alone |
| `Orchestrator.ChiefOrchestrator.AttemptStep` | src/paa/agents/orchestrator.py:725-781 | the retry loop ends at the first attempt whose worker delivers and whose critic passes, all earlier ones having failed; it completes the index and adds its tokens unless that completion is already on the ledger; every attempt is on record with its start, critique and failure; and exactly when the verdict shown is `PASS` |
| `Orchestrator.ChiefOrchestrator.ExecuteSteps` | src/paa/agents/orchestrator.py:717-781 | raises exactly when a pending step has no passing attempt; an index is completed if and only if it was before or its completion key was free |
| `Orchestrator.VerdictSpelled` | src/paa/agents/orchestrator.py:396-439 | by the answers alone: blocked if and only if the policy agent is asked and blocks; parked if and only if a stage that is asked escalates; committed if and only if hydration, planning and review let the plan through and every remaining step is won within its retries |
| `Orchestrator.ChiefOrchestrator.Run` | src/paa/agents/orchestrator.py:396-439 | for all agent answers the run ends as they spell out, on the event that says so (`SECURITY_VIOLATION` exactly for an anti-goal); it executes nothing that was not cleared, completes only steps that were won, stays in the task's modality, and leaves closed and parked lineages untouched; a run that commits leaves the whole plan completed if and only if no completion it needed was on record |
| `Orchestrator.ChiefOrchestrator.Submit` | src/paa/agents/orchestrator.py:292-349 | exactly the request, with its payload and modality, and then the queue entry under the degraded modality; phase queued |
| `Orchestrator.ChiefOrchestrator.ClearHumanGate` | src/paa/agents/orchestrator.py:1015-1086 | succeeds exactly on a parked lineage with an open question, appends one ruling that carries that question's name, answers it or blocks, and stays lawful unless it resumes into the gate; an approval without a phase resumes where the success event of the stage that asked would have left it |
| `Orchestrator.ChiefOrchestrator.RecordCorrection` | src/paa/agents/orchestrator.py:1088-1100 | each call on an existing lineage adds one correction, counts one and moves no phase |
| `Defects.RetriedStepShowsRejection` | src/paa/agents/orchestrator.py:783-809 | answers under which a step is won with the critic's `PASS` and every lineage they drive shows a rejection |
| `Defects.RollbackLosesACompletion` | src/paa/ledger/replay.py:272-276 | a lawful rolled-back history whose next, all-successful run commits, and the committed history, lawful and lacking its only plan index |
| `Recovery.SettledMeansUnchanged` | src/paa/ledger/recovery.py:267-308 | recovering a settled lineage changes neither ledger, heads nor files |
| `Recovery.RecoverSettles` | src/paa/ledger/recovery.py:267-308 | one recovery settles its lineage, lawfully, and leaves every other lineage and head alone |
| `Sweeping.RollbackRecordsDisk` | src/paa/ledger/recovery.py:398-418 | after a rollback the projection carries the hash of what the workspace then holds, counts the rollback, and lists no step as completed, whatever was |
| `Sweeping.SweepIdempotentIff` | src/paa/ledger/recovery.py:226-265 | a second sweep changes nothing if and only if no two lineages it compares were checkpointed with different contents for a path both roots cover |
| `SweepConflict.NestedRootsNeverSettle` | src/paa/ledger/recovery.py:354-396 | two lineages on nested, differently named roots that a second sweep restores and records again |
| `Sweeping.LaterSweepsChangeNothing` | src/paa/ledger/recovery.py:226-350 | without such a conflict any later sweep over any of the lineages in any order leaves ledger, head flags and the whole disk as they are |
| `Sweeping.OpenSweepFixesEveryFlag` | src/paa/ledger/recovery.py:272-276 | after a sweep over the open heads every head flag in the table equals the terminality of the replayed projection, also where a correction had reopened the head |
| `Sweeping.RecoveryEngine.Checkpoint` | src/paa/ledger/recovery.py:162-224 | one row for (lineage, version) is replaced or added, and it becomes the mark recovery reads exactly when no later version is on record; without a snapshotter nothing changes |
| `Sweeping.RecoveryEngine.ReconcileWorkspace` | src/paa/ledger/recovery.py:354-396 | reports paths exactly when the root exists and its files differ from the checkpoint, and then restores the root on the shared disk |
| `Workspace.RestoreKeepsOther` | src/paa/validation/workspace.py:333-390 | restoring one workspace keeps another, nested or not, that agrees with it on the paths both cover |
| `Sweeping.RecoveryEngine.MarkHeadTerminal` | src/paa/ledger/recovery.py:434-439 | one head flag is set and nothing else |
| `Sweeping.RecoveryEngine.RecoverCorrelation` | src/paa/ledger/recovery.py:267-308 | the new world is `Recover` of the old one, and the outcome names the branch taken |
| `Sweeping.RecoveryEngine.RecordSweep` | src/paa/ledger/recovery.py:310-350 | the sweep event is delivered unless the newest event already is one |
| `Sweeping.RecoveryEngine.BootSweep` | src/paa/ledger/recovery.py:226-265 | the loop computes `Sweep`, and every lineage stays lawful with a mirrored head |
| `Delegation.DelegationGraph.WouldCycle` | src/paa/agents/delegation.py:62-85 | the search terminates, returns none if and only if the target cannot reach the sender, and otherwise a real cycle |
| `Delegation.DelegationGraph.Propose` | src/paa/agents/delegation.py:87-121 | the three refusals exactly, and acceptance keeps the graph acyclic and within the node bound |
| `Delegation.DelegationGraph.Release` | src/paa/agents/delegation.py:123-129 | exactly that edge goes and the graph stays acyclic |
| `Delegation.AddEdgeKeepsAcyclic` | src/paa/agents/delegation.py:87-121 | an edge whose target cannot reach its sender closes no cycle |
| `Delegation.FramesReach` | src/paa/agents/orchestrator.py:857-886 | when edges mirror the call stack, a target reaches the top frame if and only if it is on the stack |
| `Delegation.Mediate` | src/paa/agents/orchestrator.py:833-886 | for every nested call tree from a context at any depth a target is refused as cyclic exactly when it is on the stack, and the stored edges return to the caller's frames |
| `Budget.TokenBudget.CanAfford` | src/paa/context/budget.py:269-276 | true exactly when every budget up to the root has the tokens left |
| `Budget.TokenBudget.TryConsume` | src/paa/context/budget.py:278-292 | accepted exactly when affordable; charges every budget on the path, or none |
| `Budget.TokenBudget.Child` | src/paa/context/budget.py:317-353 | a fresh linked budget: the modality's ceiling, or without one this allocation, over 2 to the levels, rounded down, nothing from 32 on, capped at what the parent still holds |
| `Budget.DescendantIsHalved` | src/paa/context/budget.py:317-353 | a descendant at relative depth d of a root that fits its profile is allocated at most the root's allocation shifted right by d |
| `Budget.FirstChild` | src/paa/context/budget.py:317-353 | the first child of an unspent root is halved if and only if the root fits its profile |
| `Budget.ProfiledRootFits` | src/paa/context/budget.py:225-244 | every root sized by its own profile fits it |
| `Budget.HandBuiltRootIsNotHalved` | src/paa/context/budget.py:186-221 | a hand-built root of 100 tokens that gives all of them to its first child |
| `Budget.Spend` | src/paa/context/budget.py:278-292 | one debit anywhere in a forest keeps every budget equal to the sum of the accepted debits below it |
| `Budget.Grant` | src/paa/context/budget.py:317-353 | a new child joins the books at zero and disturbs nobody's |
| `Budget.SpendingAddsUp` | src/paa/context/budget.py:168-182 | what a budget spent is its own debits plus what its children spent |
| `Gatherer.RankIsBeating` | src/paa/context/gatherer.py:242-278 | the order sorted by is the documented one: required slot, then invariant, then relevance times confidence, then importance, then identifier |
| `Gatherer.RankTotal` | src/paa/context/gatherer.py:242-278 | the rank is a strict total order up to equal ids |
| `Gatherer.SortIsRanked` | src/paa/context/gatherer.py:514-540 | sorting a pool with distinct ids yields the rank order |
| `Gatherer.CandidatePool` | src/paa/context/gatherer.py:418-467 | the loops build the deduplicated admissible pool, hot facts first |
| `Gatherer.PoolHoldsCandidates` | src/paa/context/gatherer.py:418-467 | the pool holds exactly the first believed hot fact of each identifier and the first relevant match of each identifier no believed hot fact has |
| `Gatherer.Pack` | src/paa/context/gatherer.py:469-512 | through a real budget the selection is the greedy one and its cost stays within the ceiling |
| `Gatherer.GreedyIsBest` | src/paa/context/gatherer.py:469-512 | the selection is the lexicographically greatest feasible one in rank order |
| `Gatherer.Compile` | src/paa/context/gatherer.py:514-605 | the packet holds candidates in order of precedence; one left out costs more than the room left at the end and more than everything packed that it precedes; resolved and vacant slots partition the required ones, density is their resolved share, and the directive follows from it |
| `Gatherer.PacketIgnoresOrder` | src/paa/context/gatherer.py:242-278 | permuting or repeating what the sources return never changes the packet |
| `Compaction.ReduceOnce` | src/paa/context/compaction.py:219-257 | the list edits compute the functional pass |
| `Compaction.ReduceFacts` | src/paa/context/compaction.py:219-278 | a pass never lengthens and leaves only brief lines; a text with a line too long shrinks; any other becomes normal, and a normal one shrinks or stays |
| `Compaction.Compact` | src/paa/context/compaction.py:135-164 | for every truncation marker `len(text) + 2` passes reach a fixed point, which is returned, no longer than the input |
| `Compaction.CompactTwice` | src/paa/context/compaction.py:156-164 | compacting is idempotent |
| `Retention.LinesAreWoven` | src/paa/context/compaction.py:219-229 | the lines a text is split into, each with the boundary after it, make up the text: no line holds a boundary and no carriage return is parted from its line feed |
| `Retention.LineKeepsWords` | src/paa/context/compaction.py:259-278 | a reduced line is the words the markdown rules left, one space between; a longer one is cut to the limit with the marker at its end |
| `Retention.PassKeepsLines` | src/paa/context/compaction.py:219-257 | a pass yields the first occurrence of each reduced line, in order, with a single blank line exactly between lines that had one or more between them, and none at an end |
| `Fitting.SearchPrefix` | src/paa/context/compaction.py:308-319 | every answer fits; with a growing estimator it is the largest fitting prefix and none means none fits |
| `Fitting.TruncateToTokens` | src/paa/context/compaction.py:280-306 | fits, no longer than the input, and the longest prefix with the marker, or without it when the marker itself does not fit |
| `Fitting.CutIsCompact` | src/paa/context/compaction.py:184-188 | dropping trailing lines of a compact text leaves a compact text |
| `Fitting.CompactToBudget` | src/paa/context/compaction.py:166-211 | always fits and never longer; the compacted text, else the most whole leading lines that fit, else a truncation of the first; the first two are fixed points |
| `Fitting.CharEstimateIsLeast` | src/paa/context/budget.py:73-97 | the default estimator is the least whole number of tokens that covers the text at the given ratio |
| `Fitting.CharEstimateGrows` | src/paa/context/budget.py:73-97 | the default estimator prices nothing at zero and grows along prefixes |
| `VaultFiles.ReadTranslates` | src/paa/memory/world_model.py:94-99 | a file read as text is its characters in order, carriage returns as line feeds, without the line feed that follows one |
| `VaultFiles.ReplacePreservesIff` | src/paa/memory/world_model.py:122-138 | replacing the block keeps the file around it if and only if that holds no carriage return |
| `VaultFiles.FileParts` | src/paa/memory/world_model.py:158-175 | every file with a block splits into what stands before, in and after it |
| `VaultFiles.AppendPreservesIff` | src/paa/memory/world_model.py:131-136 | appending a block keeps the file as a prefix if and only if it holds no carriage return |
| `VaultFiles.WindowsFileIsRewritten` | src/paa/memory/world_model.py:122-138 | a file with Windows line ends that an update rewrites outside the block |
| `WorldModel.ReadAfterUpdateIff` | src/paa/memory/world_model.py:158-175 | on texts and one-line markers, reading back gives the stripped content if and only if it holds no end marker and no begin marker is unclosed |
| `WorldModel.UnambiguousReadsBack` | src/paa/memory/world_model.py:158-175 | on texts and markers of any shape, the stripped content reads back when neither marker is met early |
| `VaultFiles.FileRoundTripIff` | src/paa/memory/world_model.py:94-138 | for one-line section names the stripped content comes back through the file if and only if, in addition, neither section name nor stripped content holds a carriage return |
| `VaultFiles.UnambiguousFileReadsBack` | src/paa/memory/world_model.py:94-138 | for section names of any shape it comes back when neither marker is met before the place it is written at and there is no carriage return |
| `VaultFiles.TwoLineNameIsUnreadable` | src/paa/memory/world_model.py:67-70 | a section name with a line feed and content that meet the one-line condition and do not read back |
| `VaultFiles.NewRoundTripIff` | src/paa/memory/world_model.py:147-156 | the same, for one-line section names, for a document that did not exist |
| `VaultFiles.UnambiguousNewReadsBack` | src/paa/memory/world_model.py:147-156 | and for names of any shape |
| `VaultFiles.UnreadableBlocks` | src/paa/memory/world_model.py:158-175 | an end marker as content, a document that is one begin marker, content with a carriage return: none reads back |
| `VaultFiles.FileLastUpdateWinsIff` | src/paa/memory/world_model.py:122-138 | two updates of a file equal the second alone if and only if the section name holds no carriage return, the first content no end marker and the document no unclosed begin marker |
| `WorldModel.MarkersAreGood` | src/paa/memory/world_model.py:67-68 | the markers have the shape the theorems need, the end marker never inside the begin marker, if and only if the section name is one line |
| `VaultFiles.Vault.UpdateBeliefState` | src/paa/memory/world_model.py:107-187 | one file changes, to the exact new content, and reads back, new or existing: under one-line section names exactly on the condition above, under any other when the markers are unambiguous |
| `VaultFiles.Vault.ReadManaged` | src/paa/memory/world_model.py:94-99 | the managed text of the translated file, or nothing when there is no document or no block |
| `Decay.DecaySweeper.Sweep` | src/paa/memory/decay.py:150-227 | table and report after the keyset loop, dry or not, and that it equals the one-pass filter exactly when no row is superseded by an evicted one |
| `Confidence.QueriedIsFresh` | src/paa/memory/decay.py:39-65 | a fact queried now or later has its initial confidence |
| `Confidence.IdleFadesStrictly` | src/paa/memory/domains.py:120-126 | where the rate is positive, confidence is strictly smaller the longer the fact has been idle, and never reaches zero |
| `Confidence.StretchesCompose` | src/paa/memory/decay.py:3-14 | deriving over two idle stretches one after the other equals deriving over both at once |
| `Confidence.OneDay` | src/paa/memory/domains.py:107-126 | every idle day multiplies what is left by `e^-rate` |
| `Confidence.StaleStaysStale` | src/paa/memory/domains.py:128-132 | a row that is evictable stays so at every later time unless it is queried |
| `Confidence.NeverEvicted` | src/paa/memory/domains.py:128-132 | immutable and unknown domains are never evictable, nor are domains without a floor |
| `Confidence.QueriedDailyIsKept` | src/paa/memory/decay.py:39-44 | a fact queried within a day is kept whenever a day's share of its confidence is at the floor |
| `Confidence.EventuallyStale` | src/paa/memory/decay.py:39-65 | in a domain that decays and has a floor every row left alone becomes evictable after finitely many days, for good |
| `Confidence.ForgottenAfterAThousandDays` | src/paa/memory/domains.py:120-132 | a semantic fact of confidence 0.9 idle for a thousand days is evictable |
| `Decay.ScanIsIncreasing` | src/paa/memory/decay.py:166-181 | for every table and batch size each row is examined at most once, in id order |
| `Decay.ScanCoversLive` | src/paa/memory/decay.py:166-181 | a finished scan examines every row that was live, though it deletes as it goes |
| `Decay.ScanIsLive` | src/paa/memory/decay.py:166-181 | in a dry run, or when no row is superseded by an evicted one, it examines exactly the live rows |
| `Decay.ReportCountsRows` | src/paa/memory/decay.py:183-225 | then the report counts exactly the live, the doomed, the protected and the unknown-domain rows |
| `Decay.SweepIsFilterIff` | src/paa/memory/decay.py:166-227 | a finished sweep is the one-pass filter if and only if no row is superseded by a row it evicts |
| `Decay.SweepKeepsSettled` | src/paa/memory/decay.py:166-227 | however far it gets, a sweep evicts only rows on stale chains, so no immutable and no unknown-domain row, and keeps the final table the same |
| `DecayOrder.InterruptibleIff` | src/paa/memory/decay.py:8-13 | on every table, at all batch sizes and cuts, an interrupted sweep followed by a full one equals one full sweep, if and only if every stale row superseded by a row eviction can reach comes after all rows live by then |
| `DecayOrder.InterruptionIsHarmless` | src/paa/memory/decay.py:8-13 | it does wherever no stale row is superseded by a live stale one |
| `DecayOrder.OnlyDoomedIff` | src/paa/memory/decay.py:166-227 | at every batch size a finished sweep evicts exactly the rows that were live and stale when it began, if and only if every stale row superseded by one of them has the smaller id |
| `Decay.SweepsSettle` | src/paa/memory/decay.py:8-13 | on every table any mix of interrupted and enough finished sweeps ends at the same table |
| `Decay.BatchSizeMatters` | src/paa/storage/relational/schema_sqlite.sql:280 | a table where batches of one and of two evict different rows and a superseded fact comes back to life |
| `Decay.SecondSweepEvictsMore` | src/paa/storage/relational/schema_sqlite.sql:280 | on that table a second sweep at the same reference time evicts a row the first one kept |
| `Claims.OldestFirst` | src/paa/memory/creator.py:1002-1030 | a claim leaves an unprocessed row out only when the limit is reached, and then a later one |
| `Claims.SelectOldest` | src/paa/memory/creator.py:1002-1030 | the selection loop returns the oldest unprocessed rows up to the limit |
| `Claims.ColdLake.Claim` | src/paa/memory/creator.py:1002-1030 | exactly those rows become `processing` |
| `Claims.ColdLake.Take` | src/paa/coder/runtime_tools.py:566-586 | the conditional update wins exactly on an unprocessed row |
| `Claims.ColdLake.Release` | src/paa/storage/coldlake/signals.py:271-278 | a row goes back exactly when it is still in `processing` |
| `Claims.ColdLake.File` | src/paa/storage/coldlake/signals.py:127-195 | filing is idempotent on the external id and keeps external ids unique |
| `Claims.ColdLake.CommitWithRetry` | src/paa/memory/creator.py:1093-1127 | facts are written once, by the first attempt after contention alone, or not at all: after another fault, or when every permitted attempt met contention |
| `Claims.RunKeepsInv` | src/paa/memory/creator.py:895-1180 | the invariant holds after every run of any number of batch workers and callers, interleaved and crashed at will |
| `Claims.AtMostOneOwner` | src/paa/coder/runtime_tools.py:529-586 | no signal ever has two owners, and an owned one is `processing` |
| `Claims.CommittedAtMostOnce` | src/paa/memory/creator.py:1129-1178 | facts are committed at most once per signal and per external id |
| `Claims.CommittedIsProcessedIff` | src/paa/memory/creator.py:974-990 | in every reachable state committed facts mean `processed`, if and only if no embedding sink is attached |
| `Claims.RememberedIsTrue` | src/paa/coder/runtime_tools.py:519-550 | a caller told `remembered` has exactly one commit for its signal, whoever made it |
| `Claims.NothingIsStuck` | src/paa/coder/runtime_tools.py:588-625 | as long as no process crashes and no exception escapes a worker's own handler, every row in `processing` has an owner |
| `Claims.StrandedForGood` | src/paa/storage/coldlake/signals.py:105-112 | otherwise a row left in `processing` without an owner is never touched again |
| `Claims.SettledForGood` | src/paa/memory/creator.py:1266-1315 | a settled row never becomes claimable again, and without a sink never changes again |
| `ClaimReasons.EverythingHasAReason` | src/paa/memory/creator.py:895-996 | over every run a quarantined row was judged in conflict, a malformed one unreadable or given up by its batch worker, a processed one holds facts or had nothing to remember, and committed facts are those some extraction of that signal found |
| `ClaimReasons.WaitingIsToldTheTruth` | src/paa/coder/runtime_tools.py:519-550 | a waiting caller is told `remembered` if and only if its row is processed and facts of it are committed |
| `ClaimReasons.ContentionIsRetried` | src/paa/memory/creator.py:1093-1127 | contention is met with the same facts as often as the retries allow, and only the next one gives them up |
| `ClaimReasons.UnprocessedCanBeSettled` | src/paa/memory/creator.py:958-1030 | from every state with one idle worker every unprocessed row can be claimed and settled |
| `ClaimReasons.CallerAloneIsRemembered` | src/paa/coder/runtime_tools.py:519-625 | a caller nobody interferes with gets its facts committed to its own row and is told so |
| `ClaimReasons.VerdictTakesEffect` | src/paa/memory/creator.py:895-935 | each verdict settles its signal at once in its own way, and found facts go on to a commit |

## Left out

- SQL dialects, savepoints, locks, async scheduling, logging, metrics and HTTP, CLI and configuration: a transaction is one atomic step, and two writers to one lineage are serialised.
- Model calls, sandbox, policy rules, embeddings and vector stores: agents are arbitrary answers; `_classify` and back-pressure enter as the modality passed to `Submit`.
- Event ids, causation links, session records and gaps in the table's sequence ids; timestamps are opaque values.
- Payloads that do not parse (a bad resume phase, a non-integer index): events carry well-formed payloads.
- A context builder or policy agent added to a lineage half way: the set of configured agents is fixed per lineage. Escalation events are permitted by the law but no method emits them.
- Truncation of a chain's tail: `verify_chain` compares only within the list it reads, and so does the model.
- Requeueing, the sweep's report, an exception inside one lineage of a sweep, and a crash between restoring files and recording the rollback.
- The limit of the open-head query: `BootSweep` is given the list the query returned.
- Modality across recovery: recovery events carry the default modality and replay adopts it.
- Concurrent duplicate delegation edges: the stack correspondence is for nested call and return.
- Injected rankers and summarizers, the tiktoken estimator, pollution and efficiency figures of a packet.
- The markdown patterns of the compactor: an arbitrary rewrite that only deletes characters.
- FileRoundTripIff: exact for section names of one line; for names with a line feed the condition given is sufficient (`UnambiguousFileReadsBack`), and last-write-wins is stated for one-line names only.
- Newline translation when writing, which only Windows does, and the atomic file replacement.
- Names a snapshot excludes, symbolic links, paths that are a file to one lineage and a directory to another, and restores that fail for want of a backup.
- Delegation to a name no agent is registered under, which fails before the graph is asked.
- Postgres UUID or text order of fact ids: ids are numbers, used only through their order, with 0 for the empty cursor; batch sizes below one; archiving of evicted facts; the exponential is any function, in `Confidence` any with the laws of one.
- The extraction and contradiction rules of the memory creator: the verdict on a signal is an arbitrary choice. Batch reports, and the polling interval of a waiting caller.
- The batch loop and the caller's `run` are unrolled into steps of the transition system rather than methods, since other workers act between their awaits.
