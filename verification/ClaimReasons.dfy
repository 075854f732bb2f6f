/** Why a signal ends up the way it does (`src/paa/memory/creator.py`): over every run, a
    settled row traces back to the verdict or the failure that settled it, and committed
    facts to the extraction that produced them. */
module ClaimReasons {
  import opened Ledger
  import opened Claims

  /** At step `k` some worker extracts signal `s` and comes to this verdict. */
  ghost predicate Judged(setup: Setup, n: nat, steps: seq<Step>, k: nat, s: nat, verdict: Verdict) {
    && k < |steps| && steps[k].Extract? && steps[k].verdict == verdict
    && WorksOn(Run(setup, Start(n), steps[..k]), steps[k].w, s) && Run(setup, Start(n), steps[..k]).workers[steps[k].w].phase.Working?
  }

  /** At step `k` a batch worker's exception handler gives signal `s` up. */
  ghost predicate GivenUp(setup: Setup, n: nat, steps: seq<Step>, k: nat, s: nat) {
    && k < |steps| && steps[k].Handle?
    && WorksOn(Run(setup, Start(n), steps[..k]), steps[k].w, s) && Run(setup, Start(n), steps[..k]).workers[steps[k].w].Batch?
    && Run(setup, Start(n), steps[..k]).workers[steps[k].w].phase.Failing?
  }

  predicate WorksOn(world: World, i: nat, s: nat) {
    && i < |world.workers| && Busy(world.workers[i]) && Current(world.workers[i]) == s && s < |world.lake.rows|
  }

  ghost predicate EverJudged(setup: Setup, n: nat, steps: seq<Step>, s: nat, verdict: Verdict) {
    exists k: nat :: Judged(setup, n, steps, k, s, verdict)
  }

  ghost predicate EverGivenUp(setup: Setup, n: nat, steps: seq<Step>, s: nat) {
    exists k: nat :: GivenUp(setup, n, steps, k, s)
  }

  /** Everything on record has its reason. */
  ghost predicate Explained(setup: Setup, n: nat, steps: seq<Step>, world: World) {
    && (forall s :: 0 <= s < |world.lake.rows| ==> RowExplained(setup, n, steps, world.lake, s))
    && (forall j :: 0 <= j < |world.lake.blocks| ==>
          EverJudged(setup, n, steps, world.lake.blocks[j].source, Facts(world.lake.blocks[j].facts)))
    && forall i :: 0 <= i < |world.workers| ==> WorkerExplained(setup, n, steps, world.workers[i])
  }

  /** Quarantined rows were found in conflict; malformed ones unreadable or given up; and
      processed ones hold committed facts or had nothing to remember. */
  ghost predicate RowExplained(setup: Setup, n: nat, steps: seq<Step>, lake: Lake, s: nat)
    requires s < |lake.rows|
  {
    match lake.rows[s].status
    case Quarantined => EverJudged(setup, n, steps, s, Conflict)
    case Malformed => EverJudged(setup, n, steps, s, Bad) || EverGivenUp(setup, n, steps, s)
    case Processed => EverJudged(setup, n, steps, s, Nothing) || HasBlock(lake, s)
    case _ => true
  }

  ghost predicate WorkerExplained(setup: Setup, n: nat, steps: seq<Step>, w: Worker) {
    Busy(w) && w.phase.Committing? ==> EverJudged(setup, n, steps, Current(w), Facts(w.phase.facts))
  }

  lemma StillJudged(setup: Setup, n: nat, steps: seq<Step>, step: Step, s: nat, verdict: Verdict)
    requires EverJudged(setup, n, steps, s, verdict)
    ensures EverJudged(setup, n, steps + [step], s, verdict)
  {
    hide Run, WorksOn;
    var k: nat :| Judged(setup, n, steps, k, s, verdict);
    assert (steps + [step])[..k] == steps[..k] && (steps + [step])[k] == steps[k];
    assert Judged(setup, n, steps + [step], k, s, verdict);
  }

  lemma StillGivenUp(setup: Setup, n: nat, steps: seq<Step>, step: Step, s: nat)
    requires EverGivenUp(setup, n, steps, s)
    ensures EverGivenUp(setup, n, steps + [step], s)
  {
    hide Run, WorksOn;
    var k: nat :| GivenUp(setup, n, steps, k, s);
    assert (steps + [step])[..k] == steps[..k] && (steps + [step])[k] == steps[k];
    assert GivenUp(setup, n, steps + [step], k, s);
  }

  lemma JustJudged(setup: Setup, n: nat, steps: seq<Step>, step: Step, s: nat)
    requires var world := Run(setup, Start(n), steps);
             step.Extract? && WorksOn(world, step.w, s) && world.workers[step.w].phase.Working?
    ensures EverJudged(setup, n, steps + [step], s, step.verdict)
  {
    hide Run, WorksOn;
    assert (steps + [step])[..|steps|] == steps;
    assert Judged(setup, n, steps + [step], |steps|, s, step.verdict);
  }

  lemma JustGivenUp(setup: Setup, n: nat, steps: seq<Step>, step: Step, s: nat)
    requires var world := Run(setup, Start(n), steps);
             step.Handle? && WorksOn(world, step.w, s) && world.workers[step.w].Batch? && world.workers[step.w].phase.Failing?
    ensures EverGivenUp(setup, n, steps + [step], s)
  {
    hide Run, WorksOn;
    assert (steps + [step])[..|steps|] == steps;
    assert GivenUp(setup, n, steps + [step], |steps|, s);
  }

  /** What one step may do to a row's status, and why. */
  predicate Settles(lake: Lake, w: Worker, step: Step, lake': Lake, s: nat)
    requires s < |lake'.rows|
  {
    || (s < |lake.rows| && lake'.rows[s].status == lake.rows[s].status)
    || lake'.rows[s].status.Unprocessed? || lake'.rows[s].status.Processing?
    || (&& Busy(w) && Current(w) == s && s < |lake.rows|
        && match lake'.rows[s].status
           case Quarantined => step.Extract? && w.phase.Working? && step.verdict == Conflict
           case Malformed => (step.Extract? && w.phase.Working? && step.verdict == Bad) || (step.Handle? && w.Batch? && w.phase.Failing?)
           case Processed => (step.Extract? && w.phase.Working? && step.verdict == Nothing) || HasBlock(lake', s)
           case _ => false)
  }

  lemma ActSettles(setup: Setup, lake: Lake, w: Worker, step: Step, s: nat)
    requires s < |Act(setup, lake, w, step).0.rows|
    ensures Settles(lake, w, step, Act(setup, lake, w, step).0, s)
  {
    hide Oldest, Lookup;
    if step.Commit? && Busy(w) && w.phase.Committing? && Current(w) < |lake.rows| && s == Current(w) {
      var lake' := Act(setup, lake, w, step).0;
      assert lake'.blocks[|lake.blocks|].source == s;
    }
  }

  /** Facts reach a commit and a block only from the extraction that found them. */
  lemma ActCarriesFacts(setup: Setup, lake: Lake, w: Worker, step: Step)
    ensures var (lake', w') := Act(setup, lake, w, step);
            && (lake'.blocks == lake.blocks
                || (Busy(w) && w.phase.Committing? && lake'.blocks == lake.blocks + [Block(Current(w), w.phase.facts)]))
            && (Busy(w') && w'.phase.Committing? ==>
                  && Busy(w) && Current(w') == Current(w)
                  && if w.phase.Committing? then w'.phase.facts == w.phase.facts
                     else step.Extract? && w.phase.Working? && step.verdict == Facts(w'.phase.facts) && Current(w) < |lake.rows|)
  {
    hide Oldest, Lookup, HasBlock;
  }

  lemma StaysExplained(setup: Setup, n: nat, steps: seq<Step>, step: Step, lake: Lake, lake': Lake, s: nat)
    requires s < |lake.rows| && s < |lake'.rows| && lake'.rows[s].status == lake.rows[s].status && lake.blocks <= lake'.blocks
    requires RowExplained(setup, n, steps, lake, s)
    ensures RowExplained(setup, n, steps + [step], lake', s)
  {
    hide EverJudged, EverGivenUp;
    forall verdict | EverJudged(setup, n, steps, s, verdict) ensures EverJudged(setup, n, steps + [step], s, verdict) {
      StillJudged(setup, n, steps, step, s, verdict);
    }
    if EverGivenUp(setup, n, steps, s) { StillGivenUp(setup, n, steps, step, s); }
    if HasBlock(lake, s) {
      var k :| 0 <= k < |lake.blocks| && lake.blocks[k].source == s;
      assert lake'.blocks[k] == lake.blocks[k];
    }
  }

  lemma NextRowExplained(setup: Setup, n: nat, steps: seq<Step>, step: Step, s: nat)
    requires var world := Run(setup, Start(n), steps); Explained(setup, n, steps, world) && !step.Ingest? && step.w < |world.workers|
    requires s < |Next(setup, Run(setup, Start(n), steps), step).lake.rows|
    ensures RowExplained(setup, n, steps + [step], Next(setup, Run(setup, Start(n), steps), step).lake, s)
  {
    hide Act, EverJudged, EverGivenUp, Run;
    var world := Run(setup, Start(n), steps);
    var lake, w := world.lake, world.workers[step.w];
    var lake' := Act(setup, lake, w, step).0;
    ActSettles(setup, lake, w, step, s);
    ActCarriesFacts(setup, lake, w, step);
    if s < |lake.rows| && lake'.rows[s].status == lake.rows[s].status {
      StaysExplained(setup, n, steps, step, lake, lake', s);
    } else if lake'.rows[s].status.Final() {
      assert WorksOn(world, step.w, s);
      if step.Extract? && w.phase.Working? { JustJudged(setup, n, steps, step, s); }
      if step.Handle? && w.Batch? && w.phase.Failing? { JustGivenUp(setup, n, steps, step, s); }
    }
  }

  lemma NextBlocksExplained(setup: Setup, n: nat, steps: seq<Step>, step: Step)
    requires var world := Run(setup, Start(n), steps); Explained(setup, n, steps, world) && !step.Ingest? && step.w < |world.workers|
    ensures var world' := Next(setup, Run(setup, Start(n), steps), step);
            && (forall j :: 0 <= j < |world'.lake.blocks| ==>
                  EverJudged(setup, n, steps + [step], world'.lake.blocks[j].source, Facts(world'.lake.blocks[j].facts)))
            && WorkerExplained(setup, n, steps + [step], world'.workers[step.w])
  {
    hide Act, EverJudged, EverGivenUp, Run, RowExplained;
    var world := Run(setup, Start(n), steps);
    var lake, w := world.lake, world.workers[step.w];
    var (lake', w') := Act(setup, lake, w, step);
    ActCarriesFacts(setup, lake, w, step);
    assert WorkerExplained(setup, n, steps, w);
    if Busy(w) && w.phase.Committing? { StillJudged(setup, n, steps, step, Current(w), Facts(w.phase.facts)); }
    forall j | 0 <= j < |lake'.blocks|
      ensures EverJudged(setup, n, steps + [step], lake'.blocks[j].source, Facts(lake'.blocks[j].facts))
    {
      if j < |lake.blocks| {
        assert lake'.blocks[j] == lake.blocks[j];
        StillJudged(setup, n, steps, step, lake.blocks[j].source, Facts(lake.blocks[j].facts));
      }
    }
    if Busy(w') && w'.phase.Committing? && !w.phase.Committing? {
      assert WorksOn(world, step.w, Current(w));
      JustJudged(setup, n, steps, step, Current(w));
    }
  }

  lemma OthersStayExplained(setup: Setup, n: nat, steps: seq<Step>, step: Step, w: Worker)
    requires WorkerExplained(setup, n, steps, w)
    ensures WorkerExplained(setup, n, steps + [step], w)
  {
    hide EverJudged;
    if Busy(w) && w.phase.Committing? { StillJudged(setup, n, steps, step, Current(w), Facts(w.phase.facts)); }
  }

  /** Whole runs: whatever is settled, written or about to be written has its reason. */
  lemma {:induction false} EverythingHasAReason(setup: Setup, n: nat, steps: seq<Step>)
    ensures Explained(setup, n, steps, Run(setup, Start(n), steps))
    decreases |steps|
  {
    hide EverJudged, EverGivenUp, RowExplained, WorkerExplained, Act, Record;
    if steps == [] {
      NothingToExplain(setup, n);
    } else {
      var init, step := steps[..|steps| - 1], steps[|steps| - 1];
      assert steps == init + [step];
      EverythingHasAReason(setup, n, init);
      NextExplained(setup, n, init, step);
    }
  }

  lemma NothingToExplain(setup: Setup, n: nat)
    ensures Explained(setup, n, [], Start(n))
  {
  }

  lemma NextExplained(setup: Setup, n: nat, steps: seq<Step>, step: Step)
    requires Explained(setup, n, steps, Run(setup, Start(n), steps))
    ensures Explained(setup, n, steps + [step], Next(setup, Run(setup, Start(n), steps), step))
  {
    hide EverJudged, EverGivenUp, Act, RowExplained, WorkerExplained, Run, Lookup;
    var world := Run(setup, Start(n), steps);
    var world' := Next(setup, world, step);
    forall i | 0 <= i < |world.workers| ensures WorkerExplained(setup, n, steps + [step], world.workers[i]) {
      OthersStayExplained(setup, n, steps, step, world.workers[i]);
    }
    if !step.Ingest? && step.w < |world.workers| {
      NextBlocksExplained(setup, n, steps, step);
      forall s | 0 <= s < |world'.lake.rows| ensures RowExplained(setup, n, steps + [step], world'.lake, s) {
        NextRowExplained(setup, n, steps, step, s);
      }
    } else {
      forall j | 0 <= j < |world.lake.blocks|
        ensures EverJudged(setup, n, steps + [step], world.lake.blocks[j].source, Facts(world.lake.blocks[j].facts))
      {
        StillJudged(setup, n, steps, step, world.lake.blocks[j].source, Facts(world.lake.blocks[j].facts));
      }
      forall s | 0 <= s < |world'.lake.rows| ensures RowExplained(setup, n, steps + [step], world'.lake, s) {
        if s < |world.lake.rows| {
          StaysExplained(setup, n, steps, step, world.lake, world'.lake, s);
        } else {
          NewRowsNeedNoReason(setup, n, steps + [step], world'.lake, s);
        }
      }
    }
  }

  lemma NewRowsNeedNoReason(setup: Setup, n: nat, steps: seq<Step>, lake: Lake, s: nat)
    requires s < |lake.rows| && lake.rows[s].status.Unprocessed?
    ensures RowExplained(setup, n, steps, lake, s)
  {
  }

  /** And a verdict takes effect at once: each one settles the signal its own way, and found
      facts go on to a commit. */
  lemma VerdictTakesEffect(setup: Setup, world: World, step: Step, s: nat)
    requires step.Extract? && WorksOn(world, step.w, s) && world.workers[step.w].phase.Working?
    ensures var world' := Next(setup, world, step);
            && |world'.lake.rows| == |world.lake.rows| && world'.lake.blocks == world.lake.blocks
            && world'.lake.rows[s].status == (match step.verdict
                                              case Bad => Malformed
                                              case Nothing => Processed
                                              case Conflict => Quarantined
                                              case Facts(_) => world.lake.rows[s].status)
            && (step.verdict.Facts? ==>
                  WorksOn(world', step.w, s) && world'.workers[step.w].phase == Committing(step.verdict.facts, 0))
  {
  }

  // -- what the protocol can always do --------------------------------------

  /** A waiting caller that looks at its row is told exactly whether facts of it were
      committed. */
  lemma WaitingIsToldTheTruth(setup: Setup, n: nat, steps: seq<Step>, i: nat)
    requires i < |Run(setup, Start(n), steps).workers| && Run(setup, Start(n), steps).workers[i].Waiting?
    ensures var world := Run(setup, Start(n), steps);
            var s, told := world.workers[i].signal, Next(setup, world, Settle(i)).workers[i];
            && s < |world.lake.rows| && told.Reported? && told.signal == s
            && (told.remembered
                <==> world.lake.rows[s].status.Processed? && exists k :: 0 <= k < |world.lake.blocks| && world.lake.blocks[k].source == s)
  {
    RunKeepsInv(setup, n, steps);
    hide Run;
    assert Shape(setup, Run(setup, Start(n), steps).lake, Run(setup, Start(n), steps).workers[i]);
  }

  lemma {:induction false} RunCons(setup: Setup, world: World, step: Step, rest: seq<Step>)
    ensures Run(setup, world, [step] + rest) == Run(setup, Next(setup, world, step), rest)
    decreases |rest|
  {
    hide Next;
    var all := [step] + rest;
    if rest == [] {
      assert all == [step] && all[..0] == [];
      assert Run(setup, world, all[..0]) == world;
    } else {
      RunCons(setup, world, step, rest[..|rest| - 1]);
      assert all[..|all| - 1] == [step] + rest[..|rest| - 1];
    }
  }

  function Times(step: Step, k: nat): seq<Step> { seq(k, _ => step) }

  /** Contention is retried as often as allowed with the facts in hand, and only the next
      one gives them up. */
  lemma {:induction false} ContentionIsRetried(setup: Setup, world: World, i: nat, k: nat)
    requires i < |world.workers| && Busy(world.workers[i]) && k <= setup.maxRetries
    requires world.workers[i].phase.Committing? && world.workers[i].phase.attempt == 0
    ensures var facts, world' := world.workers[i].phase.facts, Run(setup, world, Times(Contend(i), k));
            && world'.lake == world.lake && i < |world'.workers| && world'.workers[i] == WithPhase(world.workers[i], Committing(facts, k))
            && (k == setup.maxRetries ==> Next(setup, world', Contend(i)).workers[i] == WithPhase(world.workers[i], Failing(false)))
  {
    if k > 0 {
      ContentionIsRetried(setup, world, i, k - 1);
      RunSnoc(setup, world, Times(Contend(i), k - 1), Contend(i));
      assert Times(Contend(i), k) == Times(Contend(i), k - 1) + [Contend(i)];
    }
  }

  lemma {:induction false} OldestHoldsAll(rows: seq<Signal>, from: nat, limit: nat, s: nat)
    requires from <= s < |rows| <= from + limit && rows[s].status.Unprocessed?
    ensures s in Oldest(rows, from, limit)
    decreases |rows| - from
  {
    if from < s { OldestHoldsAll(rows, from + 1, if rows[from].status.Unprocessed? then limit - 1 else limit, s); }
  }

  lemma {:induction false} BatchDrains(setup: Setup, world: World, i: nat, m: nat)
    requires i < |world.workers| && world.workers[i].Batch? && world.workers[i].phase.Working? && m < |world.workers[i].queue|
    requires forall s :: s in world.workers[i].queue ==> s < |world.lake.rows|
    ensures var s, world' := world.workers[i].queue[m], Run(setup, world, Times(Extract(i, Nothing), m + 1));
            s < |world'.lake.rows| && world'.lake.rows[s].status == Processed
    decreases m
  {
    var queue := world.workers[i].queue;
    assert queue[0] in queue;
    var next := Next(setup, world, Extract(i, Nothing));
    RunCons(setup, world, Extract(i, Nothing), Times(Extract(i, Nothing), m));
    assert Times(Extract(i, Nothing), m + 1) == [Extract(i, Nothing)] + Times(Extract(i, Nothing), m);
    if m > 0 {
      assert next.workers[i].queue == queue[1..];
      assert forall s :: s in queue[1..] ==> s in queue;
      BatchDrains(setup, next, i, m - 1);
    }
  }

  /** As long as one worker is idle no unprocessed row is out of reach: a batch claims it and
      can settle it. */
  lemma UnprocessedCanBeSettled(setup: Setup, world: World, i: nat, s: nat) returns (steps: seq<Step>)
    requires i < |world.workers| && world.workers[i].Idle? && s < |world.lake.rows| && world.lake.rows[s].status.Unprocessed?
    ensures var world' := Run(setup, world, steps); s < |world'.lake.rows| && world'.lake.rows[s].status.Final()
  {
    var limit := |world.lake.rows|;
    OldestHoldsAll(world.lake.rows, 0, limit, s);
    OldestFacts(world.lake.rows, 0, limit);
    var ids := Oldest(world.lake.rows, 0, limit);
    var m :| 0 <= m < |ids| && ids[m] == s;
    var claimed := Next(setup, world, ClaimBatch(i, limit));
    assert claimed.workers[i] == Batch(ids, Working) && |claimed.lake.rows| == |world.lake.rows|;
    BatchDrains(setup, claimed, i, m);
    RunCons(setup, world, ClaimBatch(i, limit), Times(Extract(i, Nothing), m + 1));
    steps := [ClaimBatch(i, limit)] + Times(Extract(i, Nothing), m + 1);
  }

  /** A caller that is left alone gets its own fact remembered, and is told so. */
  lemma CallerAloneIsRemembered(setup: Setup, world: World, i: nat, text: string, facts: seq<string>)
    requires i < |world.workers| && (world.workers[i].Idle? || world.workers[i].Reported?) && Lookup(world.lake.rows, text).None?
    ensures var s := |world.lake.rows|;
            var world' := Run(setup, world, [Remember(i, text), ClaimOne(i), Extract(i, Facts(facts)), Commit(i)]);
            && world'.lake.rows == world.lake.rows + [Signal(Some(text), Processed)]
            && world'.lake.blocks == world.lake.blocks + [Block(s, facts)]
            && i < |world'.workers| && world'.workers[i] == Reported(s, true)
  {
    var s := |world.lake.rows|;
    var a := Next(setup, world, Remember(i, text));
    assert a.lake.rows == world.lake.rows + [Signal(Some(text), Unprocessed)] && a.workers[i] == Filed(s);
    var b := Next(setup, a, ClaimOne(i));
    assert b.workers[i] == Tool(s, Working) && b.lake.rows == world.lake.rows + [Signal(Some(text), Processing)];
    var c := Next(setup, b, Extract(i, Facts(facts)));
    assert c.workers[i] == Tool(s, Committing(facts, 0)) && c.lake == b.lake;
    var d := Next(setup, c, Commit(i));
    assert d.lake.rows == world.lake.rows + [Signal(Some(text), Processed)] && d.workers[i] == Reported(s, true);
    hide Next, Lookup;
    RunOfFour(setup, world, Remember(i, text), ClaimOne(i), Extract(i, Facts(facts)), Commit(i));
  }

  lemma RunOfFour(setup: Setup, world: World, a: Step, b: Step, c: Step, d: Step)
    ensures Run(setup, world, [a, b, c, d]) == Next(setup, Next(setup, Next(setup, Next(setup, world, a), b), c), d)
  {
    hide Next, Run;
    RunSnoc(setup, world, [], a);
    RunSnoc(setup, world, [a], b);
    RunSnoc(setup, world, [a, b], c);
    RunSnoc(setup, world, [a, b, c], d);
    assert [] + [a] == [a] && [a] + [b] == [a, b] && [a, b] + [c] == [a, b, c] && [a, b, c] + [d] == [a, b, c, d];
  }
}
