/** Recovering one lineage after a crash (`src/paa/ledger/recovery.py`). */
module Recovery {
  import opened Ledger
  import opened Replay
  import opened Gates
  import opened Lifecycle
  import opened LifecycleSafety
  import opened Store
  import opened Workspace

  // -- checkpoints ----------------------------------------------------------

  /** A row of the checkpoint table. */
  datatype Mark = Mark(root: string, manifest: Manifest, hash: string)

  type MarkTable = map<(CorrelationId, nat), Mark>

  /** What a sweep reads but never writes: `marks` is `_latest_mark` of every lineage.
      `dirOf` resolves a root, so that one directory may be spelled in several ways. */
  datatype Env = Env(cfg: Config, snapshotter: bool, marks: map<CorrelationId, Mark>, hash: Manifest -> string, dirOf: string -> Path, at: Timestamp)
  {
    function DirFor(cid: CorrelationId): Path
      requires cid in marks
    {
      dirOf(marks[cid].root)
    }
  }

  ghost predicate Newest(rows: MarkTable, cid: CorrelationId, k: (CorrelationId, nat)) {
    k in rows && k.0 == cid && forall l :: l in rows && l.0 == cid ==> l.1 <= k.1
  }

  lemma {:induction false} NewestExists(rows: MarkTable, keys: set<(CorrelationId, nat)>, cid: CorrelationId) returns (k: (CorrelationId, nat))
    requires keys <= rows.Keys && exists l :: l in keys && l.0 == cid
    ensures k in keys && k.0 == cid && forall l :: l in keys && l.0 == cid ==> l.1 <= k.1
    decreases keys
  {
    k :| k in keys && k.0 == cid;
    if l :| l in keys && l.0 == cid && l.1 > k.1 {
      k := NewestExists(rows, keys - {k}, cid);
    }
  }

  function NewestMark(rows: MarkTable, cid: CorrelationId): Mark
    requires exists l :: l in rows && l.0 == cid
  {
    assert exists k :: Newest(rows, cid, k) by {
      var k := NewestExists(rows, rows.Keys, cid);
      assert Newest(rows, cid, k);
    }
    var k :| k in rows && k.0 == cid && forall l :: l in rows && l.0 == cid ==> l.1 <= k.1;
    rows[k]
  }

  function NewestMarks(rows: MarkTable): map<CorrelationId, Mark> {
    map k | k in rows :: k.0 := NewestMark(rows, k.0)
  }

  lemma NewestIs(rows: MarkTable, cid: CorrelationId, k: (CorrelationId, nat))
    requires Newest(rows, cid, k)
    ensures NewestMark(rows, cid) == rows[k]
  {
  }

  /** Saving a mark moves a lineage's newest mark exactly when no later one is on record. */
  lemma NewestAfter(rows: MarkTable, cid: CorrelationId, version: nat, mark: Mark)
    ensures var now := NewestMarks(rows[(cid, version) := mark]);
            && now.Keys == NewestMarks(rows).Keys + {cid}
            && (forall c :: c in NewestMarks(rows) && c != cid ==> now[c] == NewestMarks(rows)[c])
            && now[cid] == if exists v :: v > version && (cid, v) in rows then NewestMarks(rows)[cid] else mark
  {
    var rows' := rows[(cid, version) := mark];
    hide NewestMark;
    NewestKeys(rows, cid, version, mark);
    forall c | c in NewestMarks(rows) && c != cid ensures NewestMark(rows', c) == NewestMark(rows, c) {
      NewestOfOther(rows, cid, version, mark, c);
    }
    NewestOfSaved(rows, cid, version, mark);
  }

  lemma NewestKeys(rows: MarkTable, cid: CorrelationId, version: nat, mark: Mark)
    ensures NewestMarks(rows[(cid, version) := mark]).Keys == NewestMarks(rows).Keys + {cid}
  {
    hide NewestMark;
    var rows' := rows[(cid, version) := mark];
    assert (cid, version) in rows' && (cid, version).0 == cid;
    assert forall k :: k in rows' <==> k in rows || k == (cid, version);
  }

  lemma NewestOfOther(rows: MarkTable, cid: CorrelationId, version: nat, mark: Mark, c: CorrelationId)
    requires c != cid && exists l :: l in rows && l.0 == c
    ensures (exists l :: l in rows[(cid, version) := mark] && l.0 == c)
    ensures NewestMark(rows[(cid, version) := mark], c) == NewestMark(rows, c)
  {
    var k := NewestExists(rows, rows.Keys, c);
    hide NewestMark;
    NewestIs(rows, c, k);
    assert k in rows[(cid, version) := mark];
    NewestIs(rows[(cid, version) := mark], c, k);
  }

  lemma NewestOfSaved(rows: MarkTable, cid: CorrelationId, version: nat, mark: Mark)
    ensures (exists l :: l in rows[(cid, version) := mark] && l.0 == cid)
    ensures (exists v :: v > version && (cid, v) in rows) ==> exists l :: l in rows && l.0 == cid
    ensures NewestMark(rows[(cid, version) := mark], cid)
            == if exists v :: v > version && (cid, v) in rows then NewestMark(rows, cid) else mark
  {
    var rows' := rows[(cid, version) := mark];
    assert (cid, version) in rows' && (cid, version).0 == cid;
    hide NewestMark;
    if v :| v > version && (cid, v) in rows {
      assert (cid, v).0 == cid;
      var k := NewestExists(rows, rows.Keys, cid);
      assert k.1 >= (cid, v).1;
      NewestIs(rows, cid, k);
      NewestIs(rows', cid, k);
    } else {
      forall l | l in rows' && l.0 == cid ensures l.1 <= version {
        assert l == (cid, l.1);
      }
      NewestIs(rows', cid, (cid, version));
    }
  }

  ghost predicate ValidMark(env: Env, mark: Mark) {
    mark.hash == env.hash(mark.manifest) && Within(env.dirOf(mark.root), mark.manifest)
  }

  ghost predicate ValidEnv(env: Env) {
    && (forall m, n: Manifest :: env.hash(m) == env.hash(n) ==> m == n)
    && (forall cid :: cid in env.marks ==> ValidMark(env, env.marks[cid]))
  }

  lemma MarksAreValid(env: Env, cid: CorrelationId)
    requires ValidEnv(env) && cid in env.marks
    ensures var mark := env.marks[cid]; mark.hash == env.hash(mark.manifest) && Within(env.DirFor(cid), mark.manifest)
  {
  }

  ghost predicate ValidRows(env: Env, rows: MarkTable) { forall k :: k in rows ==> ValidMark(env, rows[k]) }

  /** The newest of valid rows are valid. */
  lemma NewestAreValid(env: Env, rows: MarkTable)
    requires ValidRows(env, rows)
    ensures forall cid :: cid in NewestMarks(rows) ==> ValidMark(env, NewestMarks(rows)[cid])
  {
    hide ValidMark;
    forall cid | cid in NewestMarks(rows) ensures ValidMark(env, NewestMarks(rows)[cid]) {
      var k := NewestExists(rows, rows.Keys, cid);
      NewestIs(rows, cid, k);
    }
  }

  datatype World = World(table: seq<LedgerEvent>, heads: map<CorrelationId, Head>, disk: Disk)

  // -- one lineage ----------------------------------------------------------

  /** The lineage has a workspace and a checkpoint of it. */
  predicate Marked(env: Env, p: TaskProjection) {
    env.snapshotter && p.workspacePath.Some? && p.workspacePath.value != "" && p.correlationId in env.marks
  }

  /** Its workspace is compared against the checkpoint: the root exists, too. */
  predicate HasCheckpoint(env: Env, disk: Disk, p: TaskProjection) {
    Marked(env, p) && env.DirFor(p.correlationId) in disk.dirs
  }

  predicate Drifted(env: Env, disk: Disk, p: TaskProjection) {
    HasCheckpoint(env, disk, p)
    && env.hash(ManifestOf(disk, env.DirFor(p.correlationId))) != env.marks[p.correlationId].hash
  }

  /** The disk after the lineage's workspace is put back. */
  function PutBack(env: Env, disk: Disk, cid: CorrelationId): Disk
    requires cid in env.marks
  {
    Restore(disk, env.DirFor(cid), env.marks[cid].manifest)
  }

  function RollbackDraft(env: Env, p: TaskProjection): Draft {
    Draft(p.correlationId, p.sessionId, StateRollbackTriggered, Standard, None, p.rollbackCount, RecoveryDisc(p.stateVersion),
          EMPTY_PAYLOAD.(
            restoredManifestHash := if p.correlationId in env.marks then Has(env.marks[p.correlationId].hash) else Null,
            restoredStepIndex := Some(LowestCompleted(p.completedSteps))),
          env.at)
  }

  function SweepDraft(env: Env, p: TaskProjection): Draft {
    Draft(p.correlationId, p.sessionId, RecoveryReplayCompleted, Standard, None, 0, SweepDisc(p.stateVersion), EMPTY_PAYLOAD, env.at)
  }

  function AbandonDraft(env: Env, p: TaskProjection): Draft {
    Draft(p.correlationId, p.sessionId, TaskAbandoned, Standard, None, 0, RecoveryDisc(p.stateVersion), EMPTY_PAYLOAD, env.at)
  }

  predicate Resumable(env: Env, p: TaskProjection) {
    !p.phase.IsTerminal() && p.phase != AwaitingHuman && p.attempts < env.cfg.maxAttempts
  }

  /** What recovering one lineage appends, in order. */
  function RecoveryDrafts(env: Env, p: TaskProjection, h: seq<LedgerEvent>, drifted: bool): seq<Draft> {
    if p.phase.IsTerminal() || p.phase == AwaitingHuman then []
    else if p.attempts >= env.cfg.maxAttempts then [AbandonDraft(env, p)]
    else if drifted then [RollbackDraft(env, p), SweepDraft(env, p)]
    else if h != [] && h[|h| - 1].draft.etype == RecoveryReplayCompleted then []
    else [SweepDraft(env, p)]
  }

  function DeliverHeads(table: seq<LedgerEvent>, heads: map<CorrelationId, Head>, ds: seq<Draft>): map<CorrelationId, Head>
    decreases |ds|
  {
    if ds == [] then heads else DeliverHeads(AppendRow(table, ds[0]), AppendHeads(table, heads, ds[0]), ds[1..])
  }

  /** `recover_correlation` as a function of the world. */
  ghost function Recover(env: Env, w: World, cid: CorrelationId): World {
    var h := Lineage(w.table, cid);
    var p := Project(cid, h);
    var drifted := Resumable(env, p) && Drifted(env, w.disk, p);
    var ds := RecoveryDrafts(env, p, h, drifted);
    World(
      DeliverAll(w.table, ds),
      if p.phase.IsTerminal() && cid in w.heads then w.heads[cid := w.heads[cid].(isTerminal := true)]
      else DeliverHeads(w.table, w.heads, ds),
      if drifted then PutBack(env, w.disk, p.correlationId) else w.disk)
  }

  // -- the lineage after recovery -------------------------------------------

  /** Nothing left to do for this lineage. */
  ghost predicate Settled(env: Env, w: World, cid: CorrelationId) {
    var h := Lineage(w.table, cid);
    var p := Project(cid, h);
    && cid in w.heads
    && if p.phase.IsTerminal() then w.heads[cid].isTerminal
       else if p.phase == AwaitingHuman then true
       else p.attempts < env.cfg.maxAttempts && !Drifted(env, w.disk, p)
            && h != [] && h[|h| - 1].draft.etype == RecoveryReplayCompleted
  }

  lemma SettledMeansUnchanged(env: Env, w: World, cid: CorrelationId)
    requires Settled(env, w, cid)
    ensures Recover(env, w, cid) == w
  {
    hide Project, Lineage;
  }

  /** Each recovery event is new to the ledger and permitted by the lifecycle. */
  lemma RollbackAllowed(env: Env, cid: CorrelationId, h: seq<LedgerEvent>)
    requires Lawful(env.cfg, cid, h) && h != [] && Resumable(env, Project(cid, h)) && Project(cid, h).correlationId == cid
    ensures Allowed(env.cfg, cid, h, RollbackDraft(env, Project(cid, h)))
  {
    hide Lawful, Project, GateHistory;
    var p := Project(cid, h);
    var d := RollbackDraft(env, p);
    StepFacts(env.cfg, cid, h);
    assert d.cid == cid && AllowedBy(env.cfg, p, GateHistory(h), h, d);
    hide AllowedBy;
    RollbackIsNew(env, cid, h);
  }

  lemma RollbackIsNew(env: Env, cid: CorrelationId, h: seq<LedgerEvent>)
    requires Lawful(env.cfg, cid, h)
    ensures !HasKey(h, RollbackDraft(env, Project(cid, h)).Key())
  {
    hide Lawful, Project, GateHistory, StepInv, KeysDistinct;
    TraceFacts(env.cfg, cid, h);
    forall j | 0 <= j < |h| ensures h[j].draft.Key() != RollbackDraft(env, Project(cid, h)).Key() {
      assert Traced(Project(cid, h), GateHistory(h), h[j].draft, j);
    }
  }

  lemma SweepAllowed(env: Env, cid: CorrelationId, h: seq<LedgerEvent>, version: nat, d: Draft)
    requires Lawful(env.cfg, cid, h) && h != [] && Resumable(env, Project(cid, h))
    requires d.cid == cid && d.etype.RecoveryReplayCompleted? && d.attempt == 0 && d.disc == SweepDisc(version)
    requires h[|h| - 1].draft.etype != RecoveryReplayCompleted && |h| - 1 <= version <= |h|
    ensures Allowed(env.cfg, cid, h, d)
  {
    hide Lawful, Project, GateHistory;
    TraceFacts(env.cfg, cid, h);
    forall j | 0 <= j < |h| ensures h[j].draft.Key() != d.Key() {
      assert Traced(Project(cid, h), GateHistory(h), h[j].draft, j);
    }
  }

  lemma AbandonAllowed(env: Env, cid: CorrelationId, h: seq<LedgerEvent>)
    requires Lawful(env.cfg, cid, h) && h != [] && Project(cid, h).correlationId == cid
    requires var p := Project(cid, h); !p.phase.IsTerminal() && p.phase != AwaitingHuman && p.attempts >= env.cfg.maxAttempts
    ensures Allowed(env.cfg, cid, h, AbandonDraft(env, Project(cid, h)))
  {
    hide Lawful, Project, GateHistory;
    StepFacts(env.cfg, cid, h);
    ClosingEventLands(env.cfg, cid, h, AbandonDraft(env, Project(cid, h)));
  }

  // -- one append as the world sees it --------------------------------------

  function Deliver(w: World, d: Draft): World {
    w.(table := AppendRow(w.table, d), heads := AppendHeads(w.table, w.heads, d))
  }

  lemma DeliverOne(w: World, d: Draft)
    ensures DeliverAll(w.table, [d]) == Deliver(w, d).table && DeliverHeads(w.table, w.heads, [d]) == Deliver(w, d).heads
  {
    assert [d][1..] == [];
  }

  lemma DeliverTwo(w: World, a: Draft, b: Draft)
    ensures DeliverAll(w.table, [a, b]) == Deliver(Deliver(w, a), b).table
    ensures DeliverHeads(w.table, w.heads, [a, b]) == Deliver(Deliver(w, a), b).heads
  {
    DeliverOne(Deliver(w, a), b);
    assert [a, b][1..] == [b];
  }

  /** The lineage `cid` and its head are untouched. */
  ghost predicate SameLineage(w: World, w': World, cid: CorrelationId) {
    && Lineage(w'.table, cid) == Lineage(w.table, cid)
    && (cid in w'.heads <==> cid in w.heads) && (cid in w.heads ==> w'.heads[cid] == w.heads[cid])
  }

  ghost predicate GoodLineage(env: Env, w: World, cid: CorrelationId) {
    var h := Lineage(w.table, cid);
    h != [] && Lawful(env.cfg, cid, h) && HeadMirrors(cid, h, w.heads)
  }

  lemma DeliverLawful(env: Env, w: World, d: Draft) returns (e: LedgerEvent)
    requires GoodLineage(env, w, d.cid) && Allowed(env.cfg, d.cid, Lineage(w.table, d.cid), d)
    ensures GoodLineage(env, Deliver(w, d), d.cid)
    ensures e.draft == d && Lineage(Deliver(w, d).table, d.cid) == Lineage(w.table, d.cid) + [e]
    ensures Project(d.cid, Lineage(Deliver(w, d).table, d.cid)) == ApplyEvent(Project(d.cid, Lineage(w.table, d.cid)), e)
    ensures e.stateVersion == Some(|Lineage(w.table, d.cid)| + 1)
    ensures forall c :: c != d.cid ==> SameLineage(w, Deliver(w, d), c)
  {
    hide Lawful, Project, GateHistory, AllowedBy, HeadMirrors, ApplyEvent;
    var h := Lineage(w.table, d.cid);
    KeyInLineage(w.table, d.Key());
    e := Seal(d, |w.table| + 1, |h| + 1, Tip(h));
    LineageSnoc(w.table, e, d.cid);
    LawfulSnoc(env.cfg, d.cid, h, e);
    ProjectSnoc(d.cid, h, e);
    HeadMirrorsAfter(d.cid, h, w.heads, e);
    hide Lineage, Allowed, LedgerEvent.VerifyDigest;
    DeliverIsLocal(w, d, e);
  }

  lemma DeliverIsLocal(w: World, d: Draft, e: LedgerEvent)
    requires !HasKey(w.table, d.Key()) && e == Seal(d, |w.table| + 1, |Lineage(w.table, d.cid)| + 1, Tip(Lineage(w.table, d.cid)))
    ensures forall c :: c != d.cid ==> SameLineage(w, Deliver(w, d), c)
  {
    forall c | c != d.cid ensures SameLineage(w, Deliver(w, d), c) { LineageSnoc(w.table, e, c); }
  }

  /** Recovery changes neither whether a lineage is resumable nor its workspace. */
  ghost predicate SameDuties(env: Env, w: World, w': World, cid: CorrelationId) {
    var p, p' := Project(cid, Lineage(w.table, cid)), Project(cid, Lineage(w'.table, cid));
    && (Resumable(env, p') <==> Resumable(env, p)) && p'.workspacePath == p.workspacePath
    && p'.correlationId == p.correlationId && w.disk.dirs <= w'.disk.dirs
  }

  /** Recovering a lineage once settles it, lawfully, without touching another. */
  lemma RecoverSettles(env: Env, w: World, cid: CorrelationId)
    requires ValidEnv(env) && GoodLineage(env, w, cid)
    ensures var w' := Recover(env, w, cid);
            && GoodLineage(env, w', cid) && Settled(env, w', cid) && SameDuties(env, w, w', cid)
            && forall c :: c != cid ==> SameLineage(w, w', c)
  {
    var h := Lineage(w.table, cid);
    var p := Project(cid, h);
    ProjectKeepsId(cid, h);
    hide Lawful, Project, GateHistory, Allowed, Lineage, ApplyEvent, DeliverAll, DeliverHeads;
    if p.phase.IsTerminal() || p.phase == AwaitingHuman {
      NothingDelivered(w);
    } else if p.attempts >= env.cfg.maxAttempts {
      AbandonAllowed(env, cid, h);
      var d := AbandonDraft(env, p);
      var e := DeliverLawful(env, w, d);
      DeliverOne(w, d);
      AbandonCloses(p, e);
      assert Recover(env, w, cid) == Deliver(w, d);
      assert HeadMirrors(cid, h + [e], Deliver(w, d).heads);
    } else if Drifted(env, w.disk, p) {
      RecoverDrifted(env, w, cid);
    } else if h[|h| - 1].draft.etype == RecoveryReplayCompleted {
      NothingDelivered(w);
    } else {
      RecoverClean(env, w, cid);
    }
  }

  lemma NothingDelivered(w: World)
    ensures DeliverAll(w.table, []) == w.table && DeliverHeads(w.table, w.heads, []) == w.heads
  {
  }

  lemma AbandonCloses(p: TaskProjection, e: LedgerEvent)
    requires e.draft.etype.TaskAbandoned?
    ensures var p' := ApplyEvent(p, e);
            p'.phase == Abandoned && p'.workspacePath == p.workspacePath && p'.correlationId == p.correlationId
  {
  }

  lemma SweepMovesNothing(p: TaskProjection, e: LedgerEvent)
    requires e.draft.etype.RecoveryReplayCompleted?
    ensures var p' := ApplyEvent(p, e);
            && p'.phase == p.phase && p'.attempts == p.attempts && p'.workspacePath == p.workspacePath
            && p'.correlationId == p.correlationId
  {
  }

  lemma RollbackMovesPhase(p: TaskProjection, e: LedgerEvent)
    requires e.draft.etype.StateRollbackTriggered?
    ensures var p' := ApplyEvent(p, e);
            && p'.phase == RolledBack && p'.attempts == p.attempts && p'.workspacePath == p.workspacePath
            && p'.correlationId == p.correlationId
  {
  }

  lemma RecoverClean(env: Env, w: World, cid: CorrelationId)
    requires GoodLineage(env, w, cid)
    requires var h := Lineage(w.table, cid); var p := Project(cid, h);
             Resumable(env, p) && !Drifted(env, w.disk, p) && h[|h| - 1].draft.etype != RecoveryReplayCompleted
    ensures var w' := Recover(env, w, cid);
            && GoodLineage(env, w', cid) && Settled(env, w', cid) && SameDuties(env, w, w', cid)
            && forall c :: c != cid ==> SameLineage(w, w', c)
  {
    var h := Lineage(w.table, cid);
    var p := Project(cid, h);
    ProjectKeepsId(cid, h);
    hide Lawful, Project, GateHistory, Allowed, Lineage, ApplyEvent, DeliverAll, DeliverHeads, HeadMirrors;
    StepFacts(env.cfg, cid, h);
    var d := SweepDraft(env, p);
    SweepAllowed(env, cid, h, |h|, d);
    var e := DeliverLawful(env, w, d);
    DeliverOne(w, d);
    SweepMovesNothing(p, e);
    HeadExists(cid, h + [e], Deliver(w, d).heads);
  }

  lemma HeadExists(cid: CorrelationId, h: seq<LedgerEvent>, heads: map<CorrelationId, Head>)
    requires h != [] && HeadMirrors(cid, h, heads)
    ensures cid in heads
  {
  }

  /** The rollback and then the sweep event, as two deliveries. */
  lemma DeliverRollbackAndSweep(env: Env, w: World, cid: CorrelationId) returns (w1: World, w2: World)
    requires GoodLineage(env, w, cid) && Resumable(env, Project(cid, Lineage(w.table, cid))) && Project(cid, Lineage(w.table, cid)).correlationId == cid
    ensures var p := Project(cid, Lineage(w.table, cid));
            && w1 == Deliver(w, RollbackDraft(env, p)) && w2 == Deliver(w1, SweepDraft(env, p))
            && GoodLineage(env, w2, cid)
            && var p2 := Project(cid, Lineage(w2.table, cid));
            && p2.phase == RolledBack && p2.attempts == p.attempts && p2.workspacePath == p.workspacePath && p2.correlationId == cid
            && var h2 := Lineage(w2.table, cid);
            && h2 != [] && h2[|h2| - 1].draft.etype == RecoveryReplayCompleted
            && forall c :: c != cid ==> SameLineage(w, w1, c) && SameLineage(w1, w2, c)
  {
    var h := Lineage(w.table, cid);
    var p := Project(cid, h);
    hide Lawful, Project, GateHistory, Allowed, Lineage, ApplyEvent, HeadMirrors, Deliver;
    StepFacts(env.cfg, cid, h);
    var a, b := RollbackDraft(env, p), SweepDraft(env, p);
    RollbackAllowed(env, cid, h);
    var e := DeliverLawful(env, w, a);
    w1 := Deliver(w, a);
    RollbackMovesPhase(p, e);
    hide RollbackDraft;
    SweepAllowed(env, cid, h + [e], |h|, b);
    var f := DeliverLawful(env, w1, b);
    w2 := Deliver(w1, b);
    SweepMovesNothing(Project(cid, h + [e]), f);
  }

  lemma RecoverDrifted(env: Env, w: World, cid: CorrelationId)
    requires ValidEnv(env) && GoodLineage(env, w, cid)
    requires var p := Project(cid, Lineage(w.table, cid)); Resumable(env, p) && Drifted(env, w.disk, p)
    ensures var w' := Recover(env, w, cid);
            && GoodLineage(env, w', cid) && Settled(env, w', cid) && SameDuties(env, w, w', cid)
            && forall c :: c != cid ==> SameLineage(w, w', c)
  {
    var h := Lineage(w.table, cid);
    var p := Project(cid, h);
    ProjectKeepsId(cid, h);
    hide Lawful, Project, GateHistory, Allowed, Lineage, DeliverAll, DeliverHeads, HeadMirrors, Deliver, RollbackDraft, SweepDraft, Drifted, PutBack, ValidEnv;
    var w1, w2 := DeliverRollbackAndSweep(env, w, cid);
    DeliverTwo(w, RollbackDraft(env, p), SweepDraft(env, p));
    var w' := Recover(env, w, cid);
    assert w'.table == w2.table && w'.heads == w2.heads;
    forall c | c != cid ensures SameLineage(w, w', c) {
      assert SameLineage(w, w1, c) && SameLineage(w1, w2, c);
    }
    HeadExists(cid, Lineage(w2.table, cid), w2.heads);
    CleanAfterPutBack(env, w.disk, p);
    SameDrift(env, w'.disk, p, Project(cid, Lineage(w'.table, cid)));
  }

  lemma SameDrift(env: Env, disk: Disk, p: TaskProjection, p': TaskProjection)
    requires p'.workspacePath == p.workspacePath && p'.correlationId == p.correlationId
    ensures Drifted(env, disk, p') <==> Drifted(env, disk, p)
  {
    hide ManifestOf;
  }

  /** A workspace that was put back has not drifted. */
  lemma CleanAfterPutBack(env: Env, disk: Disk, p: TaskProjection)
    requires ValidEnv(env) && Drifted(env, disk, p)
    ensures !Drifted(env, PutBack(env, disk, p.correlationId), p)
    ensures disk.dirs <= PutBack(env, disk, p.correlationId).dirs
  {
    MarksAreValid(env, p.correlationId);
    RestoreEstablishes(disk, env.DirFor(p.correlationId), env.marks[p.correlationId].manifest);
    hide ManifestOf;
  }
}
