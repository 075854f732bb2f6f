/** Competing claimers of one signal row: the batch workers of
    `src/paa/memory/creator.py` and the `remember_fact` callers of
    `src/paa/coder/runtime_tools.py`. Each database transaction is one atomic step of a
    transition system, and steps of different workers interleave freely. */
module Claims {
  import opened Ledger

  // -- the signal table -----------------------------------------------------

  datatype Status = Unprocessed | Processing | Processed | Quarantined | Malformed
  {
    predicate Final() { Processed? || Quarantined? || Malformed? }
  }

  /** A row of `cold_lake_signals`; `external` is `(channel, external_id)`. */
  datatype Signal = Signal(external: Option<string>, status: Status)

  /** The facts one commit wrote, all with the same `source_signal_id`. */
  datatype Block = Block(source: nat, facts: seq<string>)

  /** Rows in arrival order; a row's id is its position. */
  datatype Lake = Lake(rows: seq<Signal>, blocks: seq<Block>)

  /** `get_by_external_id` */
  function Lookup(rows: seq<Signal>, external: string): (r: Option<nat>)
    ensures r.Some? ==> r.value < |rows| && rows[r.value].external == Some(external)
    ensures r.None? ==> forall i :: 0 <= i < |rows| ==> rows[i].external != Some(external)
  {
    if rows == [] then None
    else if rows[|rows| - 1].external == Some(external) then Some(|rows| - 1)
    else Lookup(rows[..|rows| - 1], external)
  }

  /** `SignalRepository.record`: the id the caller gets. */
  function Recorded(rows: seq<Signal>, external: Option<string>): nat {
    if external.Some? && Lookup(rows, external.value).Some? then Lookup(rows, external.value).value else |rows|
  }

  function Record(rows: seq<Signal>, external: Option<string>): seq<Signal> {
    if external.Some? && Lookup(rows, external.value).Some? then rows else rows + [Signal(external, Unprocessed)]
  }

  function Mark(rows: seq<Signal>, id: nat, status: Status): (r: seq<Signal>)
    requires id < |rows|
    ensures |r| == |rows| && forall i :: 0 <= i < |rows| ==> r[i] == if i == id then rows[i].(status := status) else rows[i]
  {
    rows[id := rows[id].(status := status)]
  }

  /** The oldest `limit` unprocessed rows. */
  function Oldest(rows: seq<Signal>, from: nat, limit: nat): (ids: seq<nat>)
    requires from <= |rows|
    decreases |rows| - from
  {
    if from == |rows| || limit == 0 then []
    else if rows[from].status.Unprocessed? then [from] + Oldest(rows, from + 1, limit - 1)
    else Oldest(rows, from + 1, limit)
  }

  /** They are unprocessed and in order. */
  lemma {:induction false} OldestFacts(rows: seq<Signal>, from: nat, limit: nat)
    requires from <= |rows|
    ensures var ids := Oldest(rows, from, limit);
            && |ids| <= limit && Distinct(ids)
            && (forall s :: s in ids ==> from <= s < |rows| && rows[s].status.Unprocessed?)
    decreases |rows| - from
  {
    if from < |rows| && limit > 0 {
      var skip := !rows[from].status.Unprocessed?;
      OldestFacts(rows, from + 1, if skip then limit else limit - 1);
    }
  }

  /** Only the limit leaves one out, and then a later one. */
  lemma {:induction false} OldestFirst(rows: seq<Signal>, from: nat, limit: nat, i: nat)
    requires from <= i < |rows| && rows[i].status.Unprocessed? && i !in Oldest(rows, from, limit)
    ensures var ids := Oldest(rows, from, limit); |ids| == limit && forall s :: s in ids ==> s < i
    decreases |rows| - from
  {
    if limit > 0 {
      var skip := !rows[from].status.Unprocessed?;
      OldestFirst(rows, from + 1, if skip then limit else limit - 1, i);
    }
  }

  function MarkAll(rows: seq<Signal>, ids: seq<nat>, status: Status): (r: seq<Signal>)
    ensures |r| == |rows|
    ensures forall i :: 0 <= i < |rows| ==> r[i] == if i in ids then rows[i].(status := status) else rows[i]
  {
    seq(|rows|, i requires 0 <= i < |rows| => if i in ids then rows[i].(status := status) else rows[i])
  }

  // -- workers --------------------------------------------------------------

  /** How far the processing of one signal has come. */
  datatype Phase =
    | Working
    | Committing(facts: seq<string>, attempt: nat)
    | Indexing
    | Failing(committed: bool)

  datatype Worker =
    | Idle
    | Batch(queue: seq<nat>, phase: Phase)
    | Filed(signal: nat)
    | Tool(signal: nat, phase: Phase)
    | Waiting(signal: nat)
    | Reported(signal: nat, remembered: bool)

  /** Signals a worker has claimed and not yet settled. */
  function Held(w: Worker): seq<nat> {
    match w
    case Batch(queue, phase) => if queue != [] && (phase.Indexing? || (phase.Failing? && phase.committed)) then queue[1..] else queue
    case Tool(signal, phase) => [signal]
    case _ => []
  }

  datatype World = World(lake: Lake, workers: seq<Worker>)

  /** `sink` says whether batch workers hand facts to an embedding sink. */
  datatype Setup = Setup(maxRetries: nat, sink: bool)

  datatype Verdict = Bad | Nothing | Conflict | Facts(facts: seq<string>)

  datatype Step =
    | Ingest(external: Option<string>)
    | ClaimBatch(w: nat, limit: nat)
    | Remember(w: nat, text: string)
    | ClaimOne(w: nat)
    | Extract(w: nat, verdict: Verdict)
    | Commit(w: nat)
    | Contend(w: nat)
    | Index(w: nat, ok: bool)
    | Throw(w: nat)
    | Handle(w: nat)
    | Settle(w: nat)
    | Crash(w: nat)

  // -- steps ----------------------------------------------------------------

  /** The worker after it has settled its current signal. */
  function Advance(w: Worker, remembered: bool): Worker
    requires w.Batch? || w.Tool?
  {
    if w.Tool? then Reported(w.signal, remembered)
    else if |w.queue| <= 1 then Idle
    else Batch(w.queue[1..], Working)
  }

  function WithPhase(w: Worker, phase: Phase): Worker
    requires w.Batch? || w.Tool?
  {
    if w.Tool? then Tool(w.signal, phase) else Batch(w.queue, phase)
  }

  predicate Busy(w: Worker) { w.Tool? || (w.Batch? && w.queue != []) }

  function Current(w: Worker): nat
    requires Busy(w)
  {
    if w.Tool? then w.signal else w.queue[0]
  }

  /** `process_signal` up to its decision. */
  function Decide(lake: Lake, w: Worker, verdict: Verdict): (Lake, Worker)
    requires Busy(w) && Current(w) < |lake.rows|
  {
    var s := Current(w);
    match verdict
    case Bad => (lake.(rows := Mark(lake.rows, s, Malformed)), Advance(w, false))
    case Nothing => (lake.(rows := Mark(lake.rows, s, Processed)), Advance(w, false))
    case Conflict => (lake.(rows := Mark(lake.rows, s, Quarantined)), Advance(w, false))
    case Facts(facts) => (lake, WithPhase(w, Committing(facts, 0)))
  }

  /** `_commit`: the facts and the row's status in one transaction. */
  function Committed(setup: Setup, lake: Lake, w: Worker): (Lake, Worker)
    requires Busy(w) && w.phase.Committing? && Current(w) < |lake.rows|
  {
    var s := Current(w);
    (Lake(Mark(lake.rows, s, Processed), lake.blocks + [Block(s, w.phase.facts)]),
     if setup.sink && w.Batch? then WithPhase(w, Indexing) else Advance(w, true))
  }

  /** The exception handlers: the batch loop parks the row whatever its status, the tool
      hands it back only while it is still claimed. */
  function Handled(lake: Lake, w: Worker): (Lake, Worker)
    requires Busy(w) && Current(w) < |lake.rows|
  {
    var s := Current(w);
    if w.Batch? then (lake.(rows := Mark(lake.rows, s, Malformed)), Advance(w, false))
    else (if lake.rows[s].status.Processing? then lake.(rows := Mark(lake.rows, s, Unprocessed)) else lake, Idle)
  }

  predicate HasBlock(lake: Lake, s: nat) { exists k :: 0 <= k < |lake.blocks| && lake.blocks[k].source == s }

  /** What one worker's step does; a step that is not enabled changes nothing. */
  function Act(setup: Setup, lake: Lake, w: Worker, step: Step): (Lake, Worker) {
    match step
    case Ingest(_) => (lake, w)
    case ClaimBatch(_, limit) =>
      if !w.Idle? then (lake, w) else
        var ids := Oldest(lake.rows, 0, limit);
        (lake.(rows := MarkAll(lake.rows, ids, Processing)), if ids == [] then Idle else Batch(ids, Working))
    case Remember(_, text) =>
      if !w.Idle? && !w.Reported? then (lake, w) else
        var rows := Record(lake.rows, Some(text));
        var s := Recorded(lake.rows, Some(text));
        (lake.(rows := rows), if rows[s].status.Unprocessed? then Filed(s) else Waiting(s))
    case ClaimOne(_) =>
      if !w.Filed? || w.signal >= |lake.rows| then (lake, w)
      else if lake.rows[w.signal].status.Unprocessed?
      then (lake.(rows := Mark(lake.rows, w.signal, Processing)), Tool(w.signal, Working))
      else (lake, Waiting(w.signal))
    case Extract(_, verdict) =>
      if Busy(w) && w.phase.Working? && Current(w) < |lake.rows| then Decide(lake, w, verdict) else (lake, w)
    case Commit(_) =>
      if Busy(w) && w.phase.Committing? && Current(w) < |lake.rows| then Committed(setup, lake, w) else (lake, w)
    case Contend(_) =>
      if !(Busy(w) && w.phase.Committing?) then (lake, w)
      else if w.phase.attempt >= setup.maxRetries then (lake, WithPhase(w, Failing(false)))
      else (lake, WithPhase(w, Committing(w.phase.facts, w.phase.attempt + 1)))
    case Index(_, ok) =>
      if !(Busy(w) && w.phase.Indexing?) then (lake, w)
      else if ok then (lake, Advance(w, true))
      else (lake, WithPhase(w, Failing(true)))
    case Throw(_) =>
      if Busy(w) && (w.phase.Working? || w.phase.Committing?) then (lake, WithPhase(w, Failing(false))) else (lake, w)
    case Handle(_) =>
      if Busy(w) && w.phase.Failing? && Current(w) < |lake.rows| then Handled(lake, w) else (lake, w)
    case Settle(_) =>
      if !w.Waiting? || w.signal >= |lake.rows| then (lake, w)
      else (lake, Reported(w.signal, lake.rows[w.signal].status.Processed? && HasBlock(lake, w.signal)))
    case Crash(_) => (lake, Idle) // the process dies, or an exception leaves the handler
  }

  function Next(setup: Setup, world: World, step: Step): World {
    if step.Ingest? then world.(lake := world.lake.(rows := Record(world.lake.rows, step.external)))
    else if step.w >= |world.workers| then world
    else
      var (lake, w) := Act(setup, world.lake, world.workers[step.w], step);
      World(lake, world.workers[step.w := w])
  }

  function Run(setup: Setup, world: World, steps: seq<Step>): World
    decreases |steps|
  {
    if steps == [] then world else Next(setup, Run(setup, world, steps[..|steps| - 1]), steps[|steps| - 1])
  }

  /** An empty table and `n` idle workers. */
  function Start(n: nat): World { World(Lake([], []), seq(n, _ => Idle)) }

  // -- what every step does -------------------------------------------------

  predicate Distinct(s: seq<nat>) { forall j, k :: 0 <= j < k < |s| ==> s[j] != s[k] }

  /** What an atomic step may do to a row, given whether its worker holds the row before
      and after. */
  predicate RowChange(setup: Setup, r: Signal, r': Signal, held: bool, held': bool) {
    && r'.external == r.external
    && (|| (r' == r && (held' ==> held))
        || (held && !held' && !r'.status.Processing?)
        || (r.status.Unprocessed? && r'.status.Processing? && held')
        || (setup.sink && r.status.Final() && r'.status.Malformed? && !held'))
  }

  predicate Effect(setup: Setup, lake: Lake, w: Worker, lake': Lake, w': Worker) {
    && |lake.rows| <= |lake'.rows|
    && (forall s :: 0 <= s < |lake.rows| ==> RowChange(setup, lake.rows[s], lake'.rows[s], s in Held(w), s in Held(w')))
    && (forall s :: |lake.rows| <= s < |lake'.rows| ==> lake'.rows[s].status.Unprocessed?)
    && (forall s :: s in Held(w') ==> s < |lake.rows|)
    && Distinct(Held(w'))
    && BlockChange(lake, w, lake')
  }

  /** Facts are written at most once a step, for a row the worker holds, and the row is
      closed in the same step. */
  predicate BlockChange(lake: Lake, w: Worker, lake': Lake) {
    || lake'.blocks == lake.blocks
    || (&& |lake'.blocks| == |lake.blocks| + 1
        && var b := lake'.blocks[|lake.blocks|];
        && lake'.blocks == lake.blocks + [b]
        && b.source in Held(w) && b.source < |lake'.rows| && lake'.rows[b.source].status.Processed?)
  }

  /** A worker's own bookkeeping. */
  predicate Shape(setup: Setup, lake: Lake, w: Worker) {
    match w
    case Batch(queue, phase) =>
      && queue != [] && (phase.Committing? ==> phase.attempt <= setup.maxRetries)
      && (phase.Indexing? || phase == Failing(true) ==> setup.sink && queue[0] < |lake.rows| && lake.rows[queue[0]].status.Final())
    case Tool(_, phase) => !phase.Indexing? && phase != Failing(true) && (phase.Committing? ==> phase.attempt <= setup.maxRetries)
    case Filed(s) => s < |lake.rows|
    case Waiting(s) => s < |lake.rows|
    case Reported(s, remembered) => remembered ==> HasBlock(lake, s)
    case Idle => true
  }

  /** What a worker holds is claimed, and it holds nothing twice. */
  predicate Holds(lake: Lake, w: Worker) {
    && Distinct(Held(w))
    && forall s :: s in Held(w) ==> s < |lake.rows| && lake.rows[s].status.Processing?
  }

  predicate Acts(setup: Setup, lake: Lake, w: Worker, lake': Lake, w': Worker) {
    Effect(setup, lake, w, lake', w') && Shape(setup, lake', w')
  }

  lemma ClaimActs(setup: Setup, lake: Lake, ids: seq<nat>)
    requires ids != [] && Distinct(ids) && forall s :: s in ids ==> s < |lake.rows| && lake.rows[s].status.Unprocessed?
    ensures Acts(setup, lake, Idle, lake.(rows := MarkAll(lake.rows, ids, Processing)), Batch(ids, Working))
  {
    assert Held(Batch(ids, Working)) == ids && Held(Idle) == [];
    hide Held;
  }

  lemma ClaimBatchActs(setup: Setup, lake: Lake, limit: nat)
    ensures var (lake', w') := Act(setup, lake, Idle, ClaimBatch(0, limit)); Acts(setup, lake, Idle, lake', w')
  {
    var ids := Oldest(lake.rows, 0, limit);
    OldestFacts(lake.rows, 0, limit);
    hide Oldest;
    if ids != [] {
      ClaimActs(setup, lake, ids);
      hide Acts;
    } else {
      assert MarkAll(lake.rows, ids, Processing) == lake.rows;
      PhaseActs(setup, lake, Idle, Idle);
      hide Acts;
    }
  }

  lemma DropFirst(queue: seq<nat>)
    requires queue != [] && Distinct(queue)
    ensures forall s :: s in queue <==> s == queue[0] || s in queue[1..]
    ensures queue[0] !in queue[1..] && Distinct(queue[1..])
  {
    assert queue == [queue[0]] + queue[1..];
  }

  lemma RecordActs(setup: Setup, lake: Lake, w: Worker, text: string)
    requires w.Idle? || w.Reported?
    ensures var (lake', w') := Act(setup, lake, w, Remember(0, text)); Acts(setup, lake, w, lake', w')
  {
  }

  lemma ClaimOneActs(setup: Setup, lake: Lake, w: Worker)
    requires w.Filed? && Shape(setup, lake, w)
    ensures var (lake', w') := Act(setup, lake, w, ClaimOne(0)); Acts(setup, lake, w, lake', w')
  {
  }

  /** Settling the current signal, one way or another. */
  lemma AdvanceActs(setup: Setup, lake: Lake, w: Worker, status: Status)
    requires Busy(w) && Holds(lake, w) && Shape(setup, lake, w) && status.Final() && (w.phase.Working? || w.phase == Failing(false))
    ensures Current(w) < |lake.rows|
    ensures Acts(setup, lake, w, lake.(rows := Mark(lake.rows, Current(w), status)), Advance(w, false))
  {
    assert Current(w) in Held(w);
    if w.Batch? { DropFirst(w.queue); }
    hide Distinct;
  }

  lemma CommitActs(setup: Setup, lake: Lake, w: Worker)
    requires Busy(w) && w.phase.Committing? && Holds(lake, w)
    ensures Current(w) < |lake.rows|
    ensures var (lake', w') := Committed(setup, lake, w); Acts(setup, lake, w, lake', w')
  {
    var s := Current(w);
    assert s in Held(w);
    if w.Batch? { DropFirst(w.queue); }
    hide Distinct;
    var (lake', w') := Committed(setup, lake, w);
    assert Distinct(Held(w')) by { NoneIsDistinct(); }
    assert lake'.blocks[|lake.blocks|].source == s;
    assert HasBlock(lake', s) && BlockChange(lake, w, lake');
    hide BlockChange, HasBlock;
  }

  lemma NoneIsDistinct()
    ensures Distinct([])
  {
  }

  lemma HandleActs(setup: Setup, lake: Lake, w: Worker)
    requires Busy(w) && w.phase.Failing? && Holds(lake, w) && Shape(setup, lake, w)
    ensures Current(w) < |lake.rows|
    ensures var (lake', w') := Handled(lake, w); Acts(setup, lake, w, lake', w')
  {
    if w.Batch? {
      if !w.phase.committed { AdvanceActs(setup, lake, w, Malformed); }
    } else {
      assert w.signal in Held(w);
    }
  }

  /** Moving between phases touches no row. */
  lemma PhaseActs(setup: Setup, lake: Lake, w: Worker, w': Worker)
    requires Holds(lake, w) && Shape(setup, lake, w')
    requires Held(w') == Held(w) || Held(w') == []
    ensures Acts(setup, lake, w, lake, w')
  {
  }

  lemma ActIsLawful(setup: Setup, lake: Lake, w: Worker, step: Step)
    requires !step.Ingest? && Holds(lake, w) && Shape(setup, lake, w)
    ensures var (lake', w') := Act(setup, lake, w, step); Acts(setup, lake, w, lake', w')
  {
    hide Acts, Oldest, Lookup;
    PhaseActs(setup, lake, w, w);
    if step.ClaimBatch? && w.Idle? {
      ClaimBatchActs(setup, lake, step.limit);
    } else if step.Remember? && (w.Idle? || w.Reported?) {
      RecordActs(setup, lake, w, step.text);
    } else if step.ClaimOne? && w.Filed? {
      ClaimOneActs(setup, lake, w);
    } else if step.Commit? && Busy(w) && w.phase.Committing? {
      CommitActs(setup, lake, w);
    } else if step.Handle? && Busy(w) && w.phase.Failing? {
      HandleActs(setup, lake, w);
    } else if step.Extract? && Busy(w) && w.phase.Working? {
      ExtractActs(setup, lake, w, step.verdict);
    } else if step.Contend? || step.Index? || step.Throw? || step.Settle? || step.Crash? {
      QuietActs(setup, lake, w, step);
    }
  }

  lemma ExtractActs(setup: Setup, lake: Lake, w: Worker, verdict: Verdict)
    requires Busy(w) && w.phase.Working? && Holds(lake, w) && Shape(setup, lake, w)
    ensures Current(w) < |lake.rows|
    ensures var (lake', w') := Decide(lake, w, verdict); Acts(setup, lake, w, lake', w')
  {
    hide Acts;
    assert Current(w) in Held(w);
    match verdict
    case Bad => AdvanceActs(setup, lake, w, Malformed);
    case Nothing => AdvanceActs(setup, lake, w, Processed);
    case Conflict => AdvanceActs(setup, lake, w, Quarantined);
    case Facts(facts) => PhaseActs(setup, lake, w, WithPhase(w, Committing(facts, 0)));
  }

  lemma QuietActs(setup: Setup, lake: Lake, w: Worker, step: Step)
    requires Holds(lake, w) && Shape(setup, lake, w)
    requires step.Contend? || step.Index? || step.Throw? || step.Settle? || step.Crash?
    ensures var (lake', w') := Act(setup, lake, w, step); Acts(setup, lake, w, lake', w')
  {
    hide Acts;
    var (lake', w') := Act(setup, lake, w, step);
    PhaseActs(setup, lake, w, w');
  }

  // -- the invariant --------------------------------------------------------

  predicate Disjoint(a: Worker, b: Worker) { forall s :: s in Held(a) ==> s !in Held(b) }

  /** Every committed block closed its own row, and no two blocks are for one row. */
  predicate Booked(setup: Setup, lake: Lake) {
    && (forall k :: 0 <= k < |lake.blocks| ==>
          && lake.blocks[k].source < |lake.rows|
          && var status := lake.rows[lake.blocks[k].source].status;
          status.Processed? || (setup.sink && status.Malformed?))
    && (forall j, k :: 0 <= j < k < |lake.blocks| ==> lake.blocks[j].source != lake.blocks[k].source)
  }

  predicate UniqueExternals(rows: seq<Signal>) {
    forall i, j :: 0 <= i < j < |rows| && rows[i].external.Some? ==> rows[i].external != rows[j].external
  }

  ghost predicate Inv(setup: Setup, world: World) {
    && (forall i :: 0 <= i < |world.workers| ==> Holds(world.lake, world.workers[i]) && Shape(setup, world.lake, world.workers[i]))
    && (forall i, j :: 0 <= i < |world.workers| && 0 <= j < |world.workers| && i != j ==> Disjoint(world.workers[i], world.workers[j]))
    && Booked(setup, world.lake)
    && UniqueExternals(world.lake.rows)
  }

  lemma SelfKeeps(setup: Setup, lake: Lake, w: Worker, lake': Lake, w': Worker)
    requires Holds(lake, w) && Effect(setup, lake, w, lake', w')
    ensures Holds(lake', w')
  {
    forall s | s in Held(w') ensures lake'.rows[s].status.Processing? {
      assert RowChange(setup, lake.rows[s], lake'.rows[s], s in Held(w), s in Held(w'));
    }
  }

  lemma OthersKeep(setup: Setup, lake: Lake, w: Worker, lake': Lake, w': Worker, other: Worker)
    requires Holds(lake, w) && Effect(setup, lake, w, lake', w') && Holds(lake, other) && Disjoint(w, other)
    ensures Holds(lake', other) && Disjoint(w', other)
  {
    forall s | s in Held(other) ensures s < |lake.rows| && lake'.rows[s].status.Processing? && s !in Held(w') {
      assert RowChange(setup, lake.rows[s], lake'.rows[s], s in Held(w), s in Held(w'));
    }
  }

  lemma FinalStays(setup: Setup, lake: Lake, w: Worker, lake': Lake, w': Worker, s: nat)
    requires Holds(lake, w) && Effect(setup, lake, w, lake', w') && s < |lake.rows| && lake.rows[s].status.Final()
    ensures lake'.rows[s] == lake.rows[s] || (setup.sink && lake'.rows[s].status.Malformed?)
  {
    assert RowChange(setup, lake.rows[s], lake'.rows[s], s in Held(w), s in Held(w'));
  }

  lemma ShapesKeep(setup: Setup, lake: Lake, w: Worker, lake': Lake, w': Worker, other: Worker)
    requires Holds(lake, w) && Effect(setup, lake, w, lake', w') && Shape(setup, lake, other)
    ensures Shape(setup, lake', other)
  {
    if other.Batch? && (other.phase.Indexing? || other.phase == Failing(true)) {
      FinalStays(setup, lake, w, lake', w', other.queue[0]);
    } else if other.Reported? && other.remembered {
      BlocksStay(setup, lake, w, lake', w', other.signal);
    }
  }

  lemma BlocksStay(setup: Setup, lake: Lake, w: Worker, lake': Lake, w': Worker, s: nat)
    requires Effect(setup, lake, w, lake', w') && HasBlock(lake, s)
    ensures HasBlock(lake', s)
  {
    var k :| 0 <= k < |lake.blocks| && lake.blocks[k].source == s;
    assert lake'.blocks[k].source == s;
  }

  lemma BookedKeeps(setup: Setup, lake: Lake, w: Worker, lake': Lake, w': Worker)
    requires Holds(lake, w) && Effect(setup, lake, w, lake', w') && Booked(setup, lake)
    ensures Booked(setup, lake')
  {
    hide RowChange;
    forall k | 0 <= k < |lake.blocks|
      ensures lake'.blocks[k] == lake.blocks[k]
      ensures lake.blocks[k].source !in Held(w)
      ensures var status := lake'.rows[lake.blocks[k].source].status; status.Processed? || (setup.sink && status.Malformed?)
    {
      FinalStays(setup, lake, w, lake', w', lake.blocks[k].source);
    }
  }

  lemma RecordUnique(rows: seq<Signal>, external: Option<string>)
    requires UniqueExternals(rows)
    ensures UniqueExternals(Record(rows, external))
  {
    hide Lookup;
  }

  predicate SameExternals(rows: seq<Signal>, rows': seq<Signal>) {
    |rows| == |rows'| && forall i :: 0 <= i < |rows| ==> rows'[i].external == rows[i].external
  }

  lemma ActExternals(setup: Setup, lake: Lake, w: Worker, step: Step)
    requires !step.Remember?
    ensures SameExternals(lake.rows, Act(setup, lake, w, step).0.rows)
  {
    hide Oldest, Lookup;
  }

  lemma ExternalsKeep(setup: Setup, lake: Lake, w: Worker, step: Step)
    requires UniqueExternals(lake.rows)
    ensures UniqueExternals(Act(setup, lake, w, step).0.rows)
  {
    if step.Remember? {
      hide Record;
      RecordUnique(lake.rows, Some(step.text));
    } else {
      ActExternals(setup, lake, w, step);
      hide Act;
    }
  }

  lemma IngestActs(setup: Setup, lake: Lake, external: Option<string>)
    ensures Effect(setup, lake, Idle, lake.(rows := Record(lake.rows, external)), Idle)
  {
    hide Lookup;
  }

  /** Every step of every worker keeps the invariant. */
  lemma NextKeepsInv(setup: Setup, world: World, step: Step)
    requires Inv(setup, world)
    ensures Inv(setup, Next(setup, world, step))
  {
    hide Act, Record, Effect, Shape, Holds, Disjoint, Booked, UniqueExternals;
    var lake, workers := world.lake, world.workers;
    if step.Ingest? {
      var lake' := lake.(rows := Record(lake.rows, step.external));
      IngestActs(setup, lake, step.external);
      RecordUnique(lake.rows, step.external);
      IdleHoldsNothing(lake);
      BookedKeeps(setup, lake, Idle, lake', Idle);
      forall j | 0 <= j < |workers| ensures Holds(lake', workers[j]) && Shape(setup, lake', workers[j]) {
        DisjointFromIdle(workers[j]);
        OthersKeep(setup, lake, Idle, lake', Idle, workers[j]);
        ShapesKeep(setup, lake, Idle, lake', Idle, workers[j]);
      }
    } else if step.w < |workers| {
      var i, w := step.w, workers[step.w];
      var (lake', w') := Act(setup, lake, w, step);
      ActIsLawful(setup, lake, w, step);
      SelfKeeps(setup, lake, w, lake', w');
      BookedKeeps(setup, lake, w, lake', w');
      ExternalsKeep(setup, lake, w, step);
      forall j | 0 <= j < |workers| && j != i
        ensures Holds(lake', workers[j]) && Shape(setup, lake', workers[j]) && Disjoint(w', workers[j]) && Disjoint(workers[j], w')
      {
        OthersKeep(setup, lake, w, lake', w', workers[j]);
        ShapesKeep(setup, lake, w, lake', w', workers[j]);
        DisjointBothWays(w', workers[j]);
      }
    }
  }

  lemma DisjointBothWays(a: Worker, b: Worker)
    requires Disjoint(a, b)
    ensures Disjoint(b, a)
  {
  }

  lemma DisjointFromIdle(w: Worker)
    ensures Disjoint(Idle, w)
  {
  }

  lemma IdleHoldsNothing(lake: Lake)
    ensures Holds(lake, Idle)
  {
  }

  /** Whole runs: any number of workers, any interleaving, any crashes. */
  lemma {:induction false} RunKeepsInv(setup: Setup, n: nat, steps: seq<Step>)
    ensures Inv(setup, Run(setup, Start(n), steps))
    ensures |Run(setup, Start(n), steps).workers| == n
    decreases |steps|
  {
    hide Inv, Act, Record;
    if steps == [] {
      StartIsValid(setup, n);
    } else {
      RunKeepsInv(setup, n, steps[..|steps| - 1]);
      NextKeepsInv(setup, Run(setup, Start(n), steps[..|steps| - 1]), steps[|steps| - 1]);
    }
  }

  lemma StartIsValid(setup: Setup, n: nat)
    ensures Inv(setup, Start(n))
  {
  }

  // -- nothing is left behind -----------------------------------------------

  /** Rows in processing are still someone's, as far as this worker is concerned. */
  predicate Passes(lake: Lake, w: Worker, lake': Lake, w': Worker) {
    forall s :: 0 <= s < |lake'.rows| && lake'.rows[s].status.Processing? && s !in Held(w') ==>
      s < |lake.rows| && lake.rows[s].status.Processing? && s !in Held(w)
  }

  lemma SamePasses(lake: Lake, w: Worker, w': Worker)
    requires Held(w') == Held(w)
    ensures Passes(lake, w, lake, w')
  {
  }

  lemma ClaimPasses(setup: Setup, lake: Lake, w: Worker, step: Step)
    requires Shape(setup, lake, w)
    requires (step.ClaimBatch? && w.Idle?) || (step.Remember? && (w.Idle? || w.Reported?)) || (step.ClaimOne? && w.Filed?)
    ensures var (lake', w') := Act(setup, lake, w, step); Passes(lake, w, lake', w')
  {
    hide Oldest, Lookup;
  }

  lemma SettlePasses(setup: Setup, lake: Lake, w: Worker, status: Status)
    requires Busy(w) && Holds(lake, w) && Current(w) < |lake.rows| && !status.Processing?
    ensures forall remembered :: Passes(lake, w, lake.(rows := Mark(lake.rows, Current(w), status)), Advance(w, remembered))
  {
    hide Distinct;
    if w.Batch? { assert w.queue == [w.queue[0]] + w.queue[1..]; }
  }

  lemma CommitPasses(setup: Setup, lake: Lake, w: Worker)
    requires Busy(w) && Holds(lake, w) && Current(w) < |lake.rows| && w.phase.Committing?
    ensures var (lake', w') := Committed(setup, lake, w); Passes(lake, w, lake', w')
  {
    hide Distinct;
    if w.Batch? { assert w.queue == [w.queue[0]] + w.queue[1..]; }
  }

  lemma ActPasses(setup: Setup, lake: Lake, w: Worker, step: Step)
    requires Holds(lake, w) && Shape(setup, lake, w) && !step.Ingest? && !step.Crash?
    ensures var (lake', w') := Act(setup, lake, w, step); Passes(lake, w, lake', w')
  {
    hide Passes, Oldest, Lookup, Holds, Distinct, HasBlock;
    SamePasses(lake, w, w);
    if (step.ClaimBatch? && w.Idle?) || (step.Remember? && (w.Idle? || w.Reported?)) || (step.ClaimOne? && w.Filed?) {
      ClaimPasses(setup, lake, w, step);
    } else if step.Commit? && Busy(w) && w.phase.Committing? && Current(w) < |lake.rows| {
      CommitPasses(setup, lake, w);
    } else if step.Handle? && Busy(w) && w.phase.Failing? && Current(w) < |lake.rows| {
      HandlePasses(setup, lake, w);
    } else if step.Extract? && Busy(w) && w.phase.Working? && Current(w) < |lake.rows| {
      ExtractPasses(setup, lake, w, step.verdict);
    } else {
      SamePasses(lake, w, Act(setup, lake, w, step).1);
    }
  }

  lemma HandlePasses(setup: Setup, lake: Lake, w: Worker)
    requires Busy(w) && Holds(lake, w) && Current(w) < |lake.rows| && w.phase.Failing?
    ensures var (lake', w') := Handled(lake, w); Passes(lake, w, lake', w')
  {
    SettlePasses(setup, lake, w, Malformed);
  }

  lemma ExtractPasses(setup: Setup, lake: Lake, w: Worker, verdict: Verdict)
    requires Busy(w) && Holds(lake, w) && Current(w) < |lake.rows| && w.phase.Working?
    ensures var (lake', w') := Decide(lake, w, verdict); Passes(lake, w, lake', w')
  {
    hide Passes;
    match verdict
    case Bad => SettlePasses(setup, lake, w, Malformed);
    case Nothing => SettlePasses(setup, lake, w, Processed);
    case Conflict => SettlePasses(setup, lake, w, Quarantined);
    case Facts(facts) => SamePasses(lake, w, WithPhase(w, Committing(facts, 0)));
  }

  /** Every row in processing is held by some worker. */
  ghost predicate AllHeld(world: World) {
    forall s :: 0 <= s < |world.lake.rows| && world.lake.rows[s].status.Processing? ==>
      exists i :: 0 <= i < |world.workers| && s in Held(world.workers[i])
  }

  lemma NextKeepsAllHeld(setup: Setup, world: World, step: Step)
    requires Inv(setup, world) && AllHeld(world) && !step.Crash?
    ensures AllHeld(Next(setup, world, step))
  {
    hide Act, Lookup, Shape, Holds, Disjoint, Booked, UniqueExternals;
    var world' := Next(setup, world, step);
    var workers := world.workers;
    if !step.Ingest? && step.w < |workers| {
      var w := workers[step.w];
      ActPasses(setup, world.lake, w, step);
      var (lake', w') := Act(setup, world.lake, w, step);
      forall s | 0 <= s < |lake'.rows| && lake'.rows[s].status.Processing?
        ensures exists i :: 0 <= i < |workers| && s in Held(world'.workers[i])
      {
        if s in Held(w') {
          assert world'.workers[step.w] == w';
        } else {
          var i :| 0 <= i < |workers| && s in Held(workers[i]);
          assert world'.workers[i] == workers[i];
        }
      }
    }
  }

  // -- what the protocol promises -------------------------------------------

  /** No signal ever has two owners. */
  lemma AtMostOneOwner(setup: Setup, n: nat, steps: seq<Step>, i: nat, j: nat, s: nat)
    requires var workers := Run(setup, Start(n), steps).workers;
             && i < |workers| && j < |workers| && s in Held(workers[i]) && s in Held(workers[j])
    ensures i == j
    ensures var rows := Run(setup, Start(n), steps).lake.rows; s < |rows| && rows[s].status.Processing?
  {
    RunKeepsInv(setup, n, steps);
    hide Run, Shape, Booked, UniqueExternals;
    assert Disjoint(Run(setup, Start(n), steps).workers[i], Run(setup, Start(n), steps).workers[j]) || i == j;
  }

  /** Facts of a signal are committed at most once, and so are those of an assertion made
      under the same external id however often it is repeated. */
  lemma CommittedAtMostOnce(setup: Setup, n: nat, steps: seq<Step>, j: nat, k: nat)
    requires j < k < |Run(setup, Start(n), steps).lake.blocks|
    ensures var lake := Run(setup, Start(n), steps).lake;
            var a, b := lake.blocks[j].source, lake.blocks[k].source;
            && a < |lake.rows| && b < |lake.rows| && a != b
            && (lake.rows[a].external.Some? ==> lake.rows[a].external != lake.rows[b].external)
  {
    RunKeepsInv(setup, n, steps);
    hide Run, Shape, Holds, Disjoint;
  }

  predicate AllProcessed(lake: Lake) {
    forall k :: 0 <= k < |lake.blocks| ==> lake.blocks[k].source < |lake.rows| && lake.rows[lake.blocks[k].source].status.Processed?
  }

  /** The run that breaks the promise when a sink is attached: looking the committed facts
      up for the sink, or marking them embedded, fails, and the batch loop parks the signal.
      (An error of the sink itself is swallowed.) */
  function SinkFailure(): seq<Step> {
    [Ingest(None), ClaimBatch(0, 1), Extract(0, Facts(["fact"])), Commit(0), Index(0, false), Handle(0)]
  }

  /** A signal with committed facts is `processed` in every reachable state if and only
      if no embedding sink is attached. */
  lemma CommittedIsProcessedIff(setup: Setup)
    ensures (forall n: nat, steps :: AllProcessed(Run(setup, Start(n), steps).lake)) <==> !setup.sink
  {
    hide Run, Start;
    if setup.sink {
      SinkFailureParks(setup);
      var lake := Run(setup, Start(1), SinkFailure()).lake;
      assert lake.blocks[0].source == 0 && lake.rows[0].status.Malformed?;
      assert !AllProcessed(lake);
    } else {
      forall n: nat, steps ensures AllProcessed(Run(setup, Start(n), steps).lake) {
        RunKeepsInv(setup, n, steps);
      }
    }
  }

  /** The worlds that run goes through, the last one last. */
  function SinkWorlds(): seq<World> {
    var lake := Lake([Signal(None, Processing)], []);
    var closed := Lake([Signal(None, Processed)], [Block(0, ["fact"])]);
    [World(Lake([], []), [Idle]),
     World(Lake([Signal(None, Unprocessed)], []), [Idle]),
     World(lake, [Batch([0], Working)]),
     World(lake, [Batch([0], Committing(["fact"], 0))]),
     World(closed, [Batch([0], Indexing)]),
     World(closed, [Batch([0], Failing(true))]),
     World(Lake([Signal(None, Malformed)], [Block(0, ["fact"])]), [Idle])]
  }

  lemma SinkStepsUpToCommit(setup: Setup, k: nat)
    requires k < 3
    ensures Next(setup, SinkWorlds()[k], SinkFailure()[k]) == SinkWorlds()[k + 1]
  {
    if k == 1 {
      var rows := SinkWorlds()[1].lake.rows;
      assert Oldest(rows, 0, 1) == [0];
      assert MarkAll(rows, [0], Processing) == [Signal(None, Processing)];
    }
  }

  lemma SinkStepsFromCommit(setup: Setup, k: nat)
    requires setup.sink && 3 <= k < 6
    ensures Next(setup, SinkWorlds()[k], SinkFailure()[k]) == SinkWorlds()[k + 1]
  {
  }

  lemma SinkFailureParks(setup: Setup)
    requires setup.sink
    ensures Run(setup, Start(1), SinkFailure()).lake == Lake([Signal(None, Malformed)], [Block(0, ["fact"])])
  {
    var worlds, steps := SinkWorlds(), SinkFailure();
    assert Start(1) == worlds[0] by { assert Start(1).workers == [Idle]; }
    hide Next, Run;
    forall k | 0 <= k < |steps| ensures Next(setup, worlds[k], steps[k]) == worlds[k + 1] {
      if k < 3 { SinkStepsUpToCommit(setup, k); } else { SinkStepsFromCommit(setup, k); }
    }
    RunFollows(setup, worlds, steps);
  }

  lemma {:induction false} RunFollows(setup: Setup, worlds: seq<World>, steps: seq<Step>)
    requires |worlds| == |steps| + 1 && forall k :: 0 <= k < |steps| ==> Next(setup, worlds[k], steps[k]) == worlds[k + 1]
    ensures Run(setup, worlds[0], steps) == worlds[|steps|]
  {
    hide Next;
    if steps != [] {
      var n := |steps| - 1;
      RunFollows(setup, worlds[..n + 1], steps[..n]);
    }
  }

  lemma RunSnoc(setup: Setup, world: World, steps: seq<Step>, step: Step)
    ensures Run(setup, world, []) == world
    ensures Run(setup, world, steps + [step]) == Next(setup, Run(setup, world, steps), step)
  {
    hide Next;
    assert (steps + [step])[..|steps|] == steps;
  }

  /** A caller told `remembered` is told the truth, whoever wrote the facts: there is
      exactly one commit for its signal. */
  lemma RememberedIsTrue(setup: Setup, n: nat, steps: seq<Step>, i: nat)
    requires i < |Run(setup, Start(n), steps).workers|
    requires var w := Run(setup, Start(n), steps).workers[i]; w.Reported? && w.remembered
    ensures var world := Run(setup, Start(n), steps);
            var s := world.workers[i].signal;
            exists k :: 0 <= k < |world.lake.blocks| && world.lake.blocks[k].source == s
                        && forall j :: 0 <= j < |world.lake.blocks| && world.lake.blocks[j].source == s ==> j == k
  {
    RunKeepsInv(setup, n, steps);
    hide Run;
    var world := Run(setup, Start(n), steps);
    assert Shape(setup, world.lake, world.workers[i]);
    var k :| 0 <= k < |world.lake.blocks| && world.lake.blocks[k].source == world.workers[i].signal;
    assert forall j :: 0 <= j < |world.lake.blocks| && world.lake.blocks[j].source == world.workers[i].signal ==> j == k;
  }

  /** As long as no worker disappears no row is stuck in `processing`: each one has its owner.
      A worker disappears when its process crashes, and also when an exception escapes its
      own handler: the batch loop then drops the rest of its queue, the tool its row. */
  lemma {:induction false} NothingIsStuck(setup: Setup, n: nat, steps: seq<Step>)
    requires forall k :: 0 <= k < |steps| ==> !steps[k].Crash?
    ensures AllHeld(Run(setup, Start(n), steps))
    decreases |steps|
  {
    hide Next, Inv, AllHeld;
    if steps == [] {
      hide *;
      NothingAtStart(n);
      RunSnoc(setup, Start(n), [], Ingest(None));
    } else {
      var before := steps[..|steps| - 1];
      NothingIsStuck(setup, n, before);
      RunKeepsInv(setup, n, before);
      NextKeepsAllHeld(setup, Run(setup, Start(n), before), steps[|steps| - 1]);
    }
  }

  /** In `processing` and nobody's. */
  ghost predicate Stranded(world: World, s: nat) {
    && s < |world.lake.rows| && world.lake.rows[s].status.Processing?
    && forall i :: 0 <= i < |world.workers| ==> s !in Held(world.workers[i])
  }

  lemma NextKeepsStranded(setup: Setup, world: World, step: Step, s: nat)
    requires Inv(setup, world) && Stranded(world, s)
    ensures Stranded(Next(setup, world, step), s)
  {
    hide Act, Record, Shape, Disjoint, Booked, UniqueExternals, Held;
    var lake := world.lake;
    if step.Ingest? {
      IngestActs(setup, lake, step.external);
      assert RowChange(setup, lake.rows[s], Next(setup, world, step).lake.rows[s], s in Held(Idle), s in Held(Idle));
    } else if step.w < |world.workers| {
      var w := world.workers[step.w];
      ActIsLawful(setup, lake, w, step);
      var (lake', w') := Act(setup, lake, w, step);
      assert RowChange(setup, lake.rows[s], lake'.rows[s], s in Held(w), s in Held(w'));
    }
  }

  /** A row whose worker disappeared is never touched again, by anybody. */
  lemma {:induction false} StrandedForGood(setup: Setup, n: nat, steps: seq<Step>, more: seq<Step>, s: nat)
    requires Stranded(Run(setup, Start(n), steps), s)
    ensures Stranded(Run(setup, Start(n), steps + more), s)
    decreases |more|
  {
    hide Run, Next, Inv, Stranded;
    if more == [] {
      assert steps + more == steps;
    } else {
      var init, last := more[..|more| - 1], more[|more| - 1];
      StrandedForGood(setup, n, steps, init, s);
      assert steps + more == (steps + init) + [last];
      RunSnoc(setup, Start(n), steps + init, last);
      RunKeepsInv(setup, n, steps + init);
      NextKeepsStranded(setup, Run(setup, Start(n), steps + init), last, s);
    }
  }

  lemma NothingAtStart(n: nat)
    ensures AllHeld(Start(n))
  {
  }

  /** A settled row never comes back: no later step of any worker makes it claimable,
      and without a sink its status never changes again. */
  lemma {:induction false} SettledForGood(setup: Setup, n: nat, steps: seq<Step>, more: seq<Step>, s: nat)
    requires var rows := Run(setup, Start(n), steps).lake.rows; s < |rows| && rows[s].status.Final()
    ensures var rows, rows' := Run(setup, Start(n), steps).lake.rows, Run(setup, Start(n), steps + more).lake.rows;
            && s < |rows'| && rows'[s].status.Final()
            && (rows'[s] == rows[s] || (setup.sink && rows'[s].status.Malformed?))
    decreases |more|
  {
    hide Run, Next, Inv;
    if more == [] {
      assert steps + more == steps;
    } else {
      var init, last := more[..|more| - 1], more[|more| - 1];
      SettledForGood(setup, n, steps, init, s);
      assert steps + more == (steps + init) + [last];
      RunSnoc(setup, Start(n), steps + init, last);
      RunKeepsInv(setup, n, steps + init);
      NextKeepsFinal(setup, Run(setup, Start(n), steps + init), last, s);
    }
  }

  lemma NextKeepsFinal(setup: Setup, world: World, step: Step, s: nat)
    requires Inv(setup, world) && s < |world.lake.rows| && world.lake.rows[s].status.Final()
    ensures var rows' := Next(setup, world, step).lake.rows;
            && s < |rows'| && (rows'[s] == world.lake.rows[s] || (setup.sink && rows'[s].status.Malformed?))
  {
    hide Act, Record, Shape, Holds, Disjoint, Booked, UniqueExternals;
    if step.Ingest? {
      IngestActs(setup, world.lake, step.external);
      IdleHoldsNothing(world.lake);
      FinalStays(setup, world.lake, Idle, Next(setup, world, step).lake, Idle, s);
    } else if step.w < |world.workers| {
      var w := world.workers[step.w];
      ActIsLawful(setup, world.lake, w, step);
      var (lake', w') := Act(setup, world.lake, w, step);
      FinalStays(setup, world.lake, w, lake', w', s);
    }
  }

  // -- the transactions -----------------------------------------------------

  /** `SELECT … WHERE sync_status = 'unprocessed' ORDER BY received_at … LIMIT ?` */
  method SelectOldest(rows: seq<Signal>, limit: nat) returns (ids: seq<nat>)
    ensures ids == Oldest(rows, 0, limit)
  {
    ids := [];
    var i := 0;
    while i < |rows| && |ids| < limit
      invariant 0 <= i <= |rows| && |ids| <= limit
      invariant ids + Oldest(rows, i, limit - |ids|) == Oldest(rows, 0, limit)
    {
      if rows[i].status.Unprocessed? {
        assert Oldest(rows, i, limit - |ids|) == [i] + Oldest(rows, i + 1, limit - |ids| - 1);
        ids := ids + [i];
      }
      i := i + 1;
    }
  }

  lemma MarkNone(rows: seq<Signal>, status: Status)
    ensures MarkAll(rows, [], status) == rows
  {
  }

  lemma MarkOneMore(rows: seq<Signal>, ids: seq<nat>, id: nat, status: Status)
    requires id < |rows|
    ensures MarkAll(rows, ids + [id], status) == Mark(MarkAll(rows, ids, status), id, status)
  {
  }

  /** What one attempt at a commit meets; only contention is retried. */
  datatype AttemptOutcome = Succeeds | Contends | Faults

  /** The signal and fact tables, with one method for each transaction above. */
  class ColdLake {
    var rows: seq<Signal>
    var blocks: seq<Block>

    function Value(): Lake reads this { Lake(rows, blocks) }

    constructor ()
      ensures Value() == Lake([], [])
    {
      rows, blocks := [], [];
    }

    /** `SignalRepository.record` */
    method File(external: Option<string>) returns (id: nat)
      modifies this
      ensures rows == Record(old(rows), external) && blocks == old(blocks)
      ensures id == Recorded(old(rows), external) && id < |rows| && rows[id].external == external
      ensures UniqueExternals(old(rows)) ==> UniqueExternals(rows)
    {
      if UniqueExternals(rows) { RecordUnique(rows, external); }
      if external.Some? {
        var existing := Lookup(rows, external.value);
        if existing.Some? { return existing.value; }
      }
      id := |rows|;
      rows := rows + [Signal(external, Unprocessed)];
    }

    /** `MemoryCreator._claim` */
    method Claim(limit: nat) returns (ids: seq<nat>)
      modifies this
      ensures ids == Oldest(old(rows), 0, limit)
      ensures rows == MarkAll(old(rows), ids, Processing) && blocks == old(blocks)
    {
      ghost var before := rows;
      ids := SelectOldest(rows, limit);
      OldestFacts(rows, 0, limit);
      hide Oldest;
      var i := 0;
      MarkNone(rows, Processing);
      assert ids[..0] == [];
      while i < |ids|
        invariant 0 <= i <= |ids| && rows == MarkAll(before, ids[..i], Processing) && blocks == old(blocks)
      {
        assert ids[i] in ids;
        MarkOneMore(before, ids[..i], ids[i], Processing);
        assert ids[..i + 1] == ids[..i] + [ids[i]];
        rows := Mark(rows, ids[i], Processing);
        i := i + 1;
      }
      assert ids[..i] == ids;
    }

    /** `_RememberFact._claim`: one row, and only while nobody has it. */
    method Take(id: nat) returns (won: bool)
      modifies this
      ensures won <==> id < |old(rows)| && old(rows)[id].status.Unprocessed?
      ensures rows == (if won then Mark(old(rows), id, Processing) else old(rows)) && blocks == old(blocks)
    {
      won := id < |rows| && rows[id].status.Unprocessed?;
      if won { rows := Mark(rows, id, Processing); }
    }

    /** `SignalRepository.release` */
    method Release(id: nat) returns (changed: bool)
      modifies this
      ensures changed <==> id < |old(rows)| && old(rows)[id].status.Processing?
      ensures rows == (if changed then Mark(old(rows), id, Unprocessed) else old(rows)) && blocks == old(blocks)
    {
      changed := id < |rows| && rows[id].status.Processing?;
      if changed { rows := Mark(rows, id, Unprocessed); }
    }

    /** `_commit_with_retry`: `outcome(a)` is what attempt `a` meets. The facts are written
        once, by the first attempt that meets neither contention nor another fault, or not
        at all: after a fault, or when every permitted attempt met contention. */
    method CommitWithRetry(id: nat, facts: seq<string>, maxRetries: nat, outcome: nat -> AttemptOutcome) returns (ok: bool)
      requires id < |rows|
      modifies this
      ensures ok <==> exists a :: 0 <= a <= maxRetries && outcome(a).Succeeds? && forall b :: 0 <= b < a ==> outcome(b).Contends?
      ensures ok ==> Value() == Lake(Mark(old(rows), id, Processed), old(blocks) + [Block(id, facts)])
      ensures !ok ==> Value() == old(Value())
    {
      var attempt := 0;
      while true
        invariant 0 <= attempt <= maxRetries
        invariant forall a :: 0 <= a < attempt ==> outcome(a).Contends?
        invariant rows == old(rows) && blocks == old(blocks)
        decreases maxRetries - attempt
      {
        if outcome(attempt).Succeeds? {
          rows, blocks := Mark(rows, id, Processed), blocks + [Block(id, facts)];
          return true;
        }
        if outcome(attempt).Faults? { return false; }
        if attempt >= maxRetries { return false; }
        attempt := attempt + 1;
      }
    }
  }
}
