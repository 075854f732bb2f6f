/** Sweeps over all open lineages: when a sweep is idempotent, and what it does to the
    terminal flags (`boot_sweep` in `src/paa/ledger/recovery.py`). */
module Sweeping {
  import opened Ledger
  import opened Replay
  import opened Gates
  import opened Lifecycle
  import opened LifecycleSafety
  import opened Store
  import opened Workspace
  import opened Recovery

  // -- the sweep ------------------------------------------------------------

  /** `boot_sweep` over the open lineages the head table listed. */
  ghost function Sweep(env: Env, w: World, cids: seq<CorrelationId>): World
    decreases |cids|
  {
    if cids == [] then w else Sweep(env, Recover(env, w, cids[0]), cids[1..])
  }

  ghost predicate GoodWorld(env: Env, w: World, cids: seq<CorrelationId>) {
    ValidDisk(w.disk) && forall cid :: cid in cids ==> GoodLineage(env, w, cid)
  }

  /** The sweep compares this lineage's workspace against a checkpoint if the root exists. */
  ghost predicate Watched(env: Env, w: World, cid: CorrelationId) {
    var p := Project(cid, Lineage(w.table, cid));
    p.correlationId == cid && Resumable(env, p) && Marked(env, p)
  }

  /** Its root exists, or the checkpoint of a watched lineage whose root exists puts a file
      there. */
  ghost predicate Present(env: Env, w: World, cids: seq<CorrelationId>, b: CorrelationId) {
    && Watched(env, w, b)
    && (env.DirFor(b) in w.disk.dirs
        || exists x :: x in cids && Hosts(env, w, x, b))
  }

  ghost predicate Hosts(env: Env, w: World, x: CorrelationId, b: CorrelationId)
    requires b in env.marks
  {
    Watched(env, w, x) && env.DirFor(x) in w.disk.dirs && Touches(env.marks[x].manifest, env.DirFor(b))
  }

  /** The checkpoints say the same about every path both workspaces cover. */
  predicate Compatible(env: Env, a: CorrelationId, b: CorrelationId)
    requires a in env.marks && b in env.marks
  {
    Agree(env.DirFor(a), env.marks[a].manifest, env.DirFor(b), env.marks[b].manifest)
  }

  /** No two lineages the sweep compares were checkpointed with different contents for one
      path, whether their roots are equal, nested or spelled differently. */
  ghost predicate NoConflict(env: Env, w: World, cids: seq<CorrelationId>) {
    forall a, b :: a in cids && b in cids && Present(env, w, cids, a) && Present(env, w, cids, b) ==> Compatible(env, a, b)
  }

  lemma RecoverKeepsWatched(env: Env, w: World, c: CorrelationId, x: CorrelationId)
    requires ValidEnv(env) && GoodLineage(env, w, c)
    ensures Watched(env, Recover(env, w, c), x) <==> Watched(env, w, x)
  {
    RecoverSettles(env, w, c);
    ProjectKeepsId(c, Lineage(w.table, c));
    hide Lawful, Project, Lineage, HeadMirrors, Recover, ApplyEvent;
    var w' := Recover(env, w, c);
    assert x != c ==> SameLineage(w, w', x);
    assert SameDuties(env, w, w', c);
  }

  lemma RecoverKeepsGood(env: Env, w: World, c: CorrelationId, x: CorrelationId)
    requires ValidEnv(env) && GoodLineage(env, w, c) && GoodLineage(env, w, x)
    ensures GoodLineage(env, Recover(env, w, c), x)
  {
    RecoverSettles(env, w, c);
    hide Lawful, Project, Lineage, Recover;
    if x != c { assert SameLineage(w, Recover(env, w, c), x); }
  }

  /** The disk changes only where a drifted workspace is put back. */
  lemma RecoverDisk(env: Env, w: World, c: CorrelationId)
    ensures var p := Project(c, Lineage(w.table, c));
            && p.correlationId == c
            && Recover(env, w, c).disk == if Resumable(env, p) && Drifted(env, w.disk, p) then PutBack(env, w.disk, c) else w.disk
    ensures ValidDisk(w.disk) ==> ValidDisk(Recover(env, w, c).disk) && w.disk.dirs <= Recover(env, w, c).disk.dirs
  {
    ProjectKeepsId(c, Lineage(w.table, c));
    hide Project, Lineage, ValidDisk, Env.DirFor, Restore;
    var p := Project(c, Lineage(w.table, c));
    if ValidDisk(w.disk) && Resumable(env, p) && Drifted(env, w.disk, p) {
      RestoreKeepsValid(w.disk, env.DirFor(c), env.marks[c].manifest);
    }
  }

  lemma RecoverKeepsGoodWorld(env: Env, w: World, c: CorrelationId, all: seq<CorrelationId>)
    requires ValidEnv(env) && GoodWorld(env, w, all) && c in all
    ensures GoodWorld(env, Recover(env, w, c), all)
  {
    hide GoodLineage, Recover, ValidDisk;
    RecoverDisk(env, w, c);
    forall y | y in all ensures GoodLineage(env, Recover(env, w, c), y) { RecoverKeepsGood(env, w, c, y); }
  }

  /** A restore takes place on a root that exists. */
  ghost predicate CanRestore(env: Env, w: World, c: CorrelationId) {
    Watched(env, w, c) && env.DirFor(c) in w.disk.dirs
  }

  lemma DiskStaysOrRestores(env: Env, w: World, c: CorrelationId)
    ensures Recover(env, w, c).disk == w.disk || (CanRestore(env, w, c) && Recover(env, w, c).disk == PutBack(env, w.disk, c))
  {
    hide Recover, Project, Lineage, ValidDisk;
    RecoverDisk(env, w, c);
  }

  /** Who is present does not change while a sweep without conflicts runs. */
  lemma RecoverKeepsPresent(env: Env, w: World, c: CorrelationId, all: seq<CorrelationId>, b: CorrelationId)
    requires ValidEnv(env) && GoodWorld(env, w, all) && c in all && NoConflict(env, w, all)
    ensures Present(env, Recover(env, w, c), all, b) <==> Present(env, w, all, b)
  {
    var w' := Recover(env, w, c);
    hide Recover, GoodLineage, ValidEnv, Watched, ValidDisk;
    forall x ensures Watched(env, w', x) <==> Watched(env, w, x) { RecoverKeepsWatched(env, w, c, x); }
    RecoverDisk(env, w, c);
    DiskStaysOrRestores(env, w, c);
    if Present(env, w, all, b) {
      WatchedIsMarked(env, w, b);
      if env.DirFor(b) !in w.disk.dirs {
        var x :| x in all && Hosts(env, w, x, b);
        WatchedIsMarked(env, w, x);
        assert Hosts(env, w', x, b);
      }
    }
    if Present(env, w', all, b) && w'.disk != w.disk {
      WatchedIsMarked(env, w, b);
      WatchedIsMarked(env, w, c);
      if env.DirFor(b) in w'.disk.dirs {
        ExistsMeansPresent(env, w, c, all, b);
      } else {
        var x :| x in all && Hosts(env, w', x, b);
        WatchedIsMarked(env, w, x);
        TouchedMeansPresent(env, w, c, all, x, b);
      }
    } else if Present(env, w', all, b) {
      SamePresence(env, w, w', all, b);
    }
  }

  lemma SamePresence(env: Env, w: World, w': World, all: seq<CorrelationId>, b: CorrelationId)
    requires w'.disk == w.disk && Present(env, w', all, b) && forall x :: Watched(env, w', x) <==> Watched(env, w, x)
    ensures Present(env, w, all, b)
  {
    WatchedIsMarked(env, w, b);
    hide Watched;
    if env.DirFor(b) !in w.disk.dirs {
      var x :| x in all && Hosts(env, w', x, b);
      WatchedIsMarked(env, w, x);
      assert Hosts(env, w, x, b);
    }
  }

  lemma WatchedIsMarked(env: Env, w: World, x: CorrelationId)
    requires Watched(env, w, x)
    ensures x in env.marks
  {
    hide Project, Lineage;
  }

  lemma ExistsMeansPresent(env: Env, w: World, c: CorrelationId, all: seq<CorrelationId>, b: CorrelationId)
    requires ValidEnv(env) && ValidDisk(w.disk) && c in all && CanRestore(env, w, c) && c in env.marks
    requires Watched(env, w, b) && b in env.marks && env.DirFor(b) in PutBack(env, w.disk, c).dirs
    ensures Present(env, w, all, b)
  {
    hide Watched, ValidDisk, ValidEnv;
    if env.DirFor(b) !in w.disk.dirs {
      WatchedIsMarked(env, w, c);
      MarksAreValid(env, c);
      CreatedIsInside(w.disk, env.DirFor(c), env.marks[c].manifest, env.DirFor(b));
      assert Hosts(env, w, c, b);
    }
  }

  lemma TouchedMeansPresent(env: Env, w: World, c: CorrelationId, all: seq<CorrelationId>, x: CorrelationId, b: CorrelationId)
    requires ValidEnv(env) && ValidDisk(w.disk) && c in all && x in all && CanRestore(env, w, c) && c in env.marks && NoConflict(env, w, all)
    requires Watched(env, w, x) && x in env.marks && env.DirFor(x) in PutBack(env, w.disk, c).dirs
    requires Watched(env, w, b) && b in env.marks && Touches(env.marks[x].manifest, env.DirFor(b))
    ensures Present(env, w, all, b)
  {
    ExistsMeansPresent(env, w, c, all, x);
    WatchedIsMarked(env, w, c);
    hide Watched, ValidDisk, ValidEnv;
    if env.DirFor(x) !in w.disk.dirs {
      MarksAreValid(env, c);
      MarksAreValid(env, x);
      CreatedIsInside(w.disk, env.DirFor(c), env.marks[c].manifest, env.DirFor(x));
      assert Present(env, w, all, c);
      assert Compatible(env, c, x);
      var p :| p in env.marks[x].manifest && Under(env.DirFor(b), p);
      InsideIsUnder(env.DirFor(c), env.DirFor(x), p);
      assert p in env.marks[c].manifest;
      assert Touches(env.marks[c].manifest, env.DirFor(b));
      assert Hosts(env, w, c, b);
    } else {
      assert Hosts(env, w, x, b);
    }
  }

  lemma InsideIsUnder(outer: Path, inner: Path, p: Path)
    requires |outer| < |inner| && inner[..|outer|] == outer && Under(inner, p)
    ensures Under(outer, p)
  {
    assert p[..|outer|] == p[..|inner|][..|outer|];
  }

  lemma RecoverKeepsNoConflict(env: Env, w: World, c: CorrelationId, all: seq<CorrelationId>)
    requires ValidEnv(env) && GoodWorld(env, w, all) && c in all && NoConflict(env, w, all)
    ensures NoConflict(env, Recover(env, w, c), all)
  {
    hide Recover, GoodWorld, ValidEnv, Present, Compatible;
    forall b ensures Present(env, Recover(env, w, c), all, b) <==> Present(env, w, all, b) { RecoverKeepsPresent(env, w, c, all, b); }
    forall a, b | a in all && b in all && Present(env, Recover(env, w, c), all, a) && Present(env, Recover(env, w, c), all, b)
      ensures a in env.marks && b in env.marks && Compatible(env, a, b)
    {
      PresentIsMarked(env, w, all, a);
      PresentIsMarked(env, w, all, b);
    }
  }

  lemma PresentIsMarked(env: Env, w: World, all: seq<CorrelationId>, x: CorrelationId)
    requires Present(env, w, all, x)
    ensures x in env.marks
  {
    hide Project, Lineage;
  }

  /** Restoring `c` leaves no drift in a workspace `x` that had none. */
  lemma RestoreLeavesNoDrift(env: Env, w: World, c: CorrelationId, all: seq<CorrelationId>, x: CorrelationId)
    requires ValidEnv(env) && ValidDisk(w.disk) && c in all && x in all && NoConflict(env, w, all) && CanRestore(env, w, c) && c in env.marks
    requires Watched(env, w, x) && x in env.marks && env.DirFor(x) in PutBack(env, w.disk, c).dirs
    requires env.DirFor(x) in w.disk.dirs ==> ManifestOf(w.disk, env.DirFor(x)) == env.marks[x].manifest
    ensures ManifestOf(PutBack(env, w.disk, c), env.DirFor(x)) == env.marks[x].manifest
  {
    ExistsMeansPresent(env, w, c, all, x);
    WatchedIsMarked(env, w, c);
    MarksAreValid(env, c);
    MarksAreValid(env, x);
    hide Watched, ValidDisk, ValidEnv, ManifestOf, Restore;
    assert Present(env, w, all, c);
    assert Compatible(env, c, x) && Compatible(env, x, c);
    if env.DirFor(x) in w.disk.dirs {
      RestoreKeepsOther(w.disk, env.DirFor(x), env.marks[x].manifest, env.DirFor(c), env.marks[c].manifest);
    } else {
      CreatedIsAsAgreed(w.disk, env.DirFor(c), env.marks[c].manifest, env.DirFor(x), env.marks[x].manifest);
    }
  }

  lemma RecoverKeepsSettled(env: Env, w: World, c: CorrelationId, all: seq<CorrelationId>, x: CorrelationId)
    requires ValidEnv(env) && GoodWorld(env, w, all) && c in all && x in all && Settled(env, w, x) && NoConflict(env, w, all)
    ensures Settled(env, Recover(env, w, c), x)
  {
    hide Lawful, Project, Lineage, Recover, HeadMirrors, GoodLineage, SameDuties, Env.DirFor, ManifestOf, NoConflict;
    if x == c {
      SettledMeansUnchanged(env, w, x);
    } else {
      var w' := Recover(env, w, c);
      RecoverSettles(env, w, c);
      assert SameLineage(w, w', x);
      DiskStaysOrRestores(env, w, c);
      ProjectKeepsId(x, Lineage(w.table, x));
      var p := Project(x, Lineage(w.table, x));
      if Resumable(env, p) && Drifted(env, w'.disk, p) && w'.disk != w.disk {
        WatchedIsMarked(env, w, c);
        MarksAreValid(env, x);
        RestoreLeavesNoDrift(env, w, c, all, x);
      }
    }
  }

  lemma {:induction false} SweepKeepsSettled(env: Env, w: World, cids: seq<CorrelationId>, all: seq<CorrelationId>, x: CorrelationId)
    requires ValidEnv(env) && GoodWorld(env, w, all) && (forall c :: c in cids ==> c in all) && x in all
    requires Settled(env, w, x) && NoConflict(env, w, all)
    ensures Settled(env, Sweep(env, w, cids), x)
    decreases |cids|
  {
    if cids != [] {
      var c, rest := cids[0], cids[1..];
      hide Settled, GoodWorld, Recover, NoConflict, ValidEnv;
      assert c in cids;
      RecoverKeepsSettled(env, w, c, all, x);
      RecoverKeepsGoodWorld(env, w, c, all);
      RecoverKeepsNoConflict(env, w, c, all);
      SweepKeepsSettled(env, Recover(env, w, c), rest, all, x);
    }
  }

  /** A sweep settles every lineage it covers. */
  lemma {:induction false} SweepSettles(env: Env, w: World, cids: seq<CorrelationId>, all: seq<CorrelationId>)
    requires ValidEnv(env) && GoodWorld(env, w, all) && NoConflict(env, w, all) && forall c :: c in cids ==> c in all
    ensures forall cid :: cid in cids ==> Settled(env, Sweep(env, w, cids), cid)
    decreases |cids|
  {
    if cids != [] {
      var c, rest := cids[0], cids[1..];
      assert c in cids && cids == [c] + rest;
      var w' := Recover(env, w, c);
      assert GoodLineage(env, w, c);
      RecoverSettles(env, w, c);
      hide Settled, GoodWorld, GoodLineage, Recover, NoConflict, ValidEnv, SameLineage, SameDuties;
      RecoverKeepsGoodWorld(env, w, c, all);
      RecoverKeepsNoConflict(env, w, c, all);
      SweepSettles(env, w', rest, all);
      SweepKeepsSettled(env, w', rest, all, c);
    }
  }

  lemma {:induction false} SweepOfSettled(env: Env, w: World, cids: seq<CorrelationId>)
    requires forall cid :: cid in cids ==> Settled(env, w, cid)
    ensures Sweep(env, w, cids) == w
    decreases |cids|
  {
    if cids != [] {
      assert cids[0] in cids;
      SettledMeansUnchanged(env, w, cids[0]);
      SweepOfSettled(env, w, cids[1..]);
    }
  }

  lemma {:induction false} RecoverGrows(env: Env, w: World, c: CorrelationId)
    requires ValidEnv(env) && GoodLineage(env, w, c)
    ensures w.table <= Recover(env, w, c).table
    ensures var p := Project(c, Lineage(w.table, c));
            Resumable(env, p) && Drifted(env, w.disk, p) ==> |Recover(env, w, c).table| > |w.table|
  {
    var h := Lineage(w.table, c);
    var p := Project(c, h);
    ProjectKeepsId(c, h);
    hide Lawful, Project, GateHistory, Lineage, ApplyEvent, HeadMirrors, ManifestOf;
    if Resumable(env, p) && Drifted(env, w.disk, p) {
      RollbackAllowed(env, c, h);
      KeyInLineage(w.table, RollbackDraft(env, p).Key());
      DeliverTwo(w, RollbackDraft(env, p), SweepDraft(env, p));
    } else if p.phase.IsTerminal() || p.phase == AwaitingHuman {
      NothingDelivered(w);
    } else if p.attempts >= env.cfg.maxAttempts {
      DeliverOne(w, AbandonDraft(env, p));
    } else {
      NothingDelivered(w);
      DeliverOne(w, SweepDraft(env, p));
    }
  }

  lemma {:induction false} SweepGrows(env: Env, w: World, cids: seq<CorrelationId>, all: seq<CorrelationId>)
    requires ValidEnv(env) && GoodWorld(env, w, all) && forall c :: c in cids ==> c in all
    ensures w.table <= Sweep(env, w, cids).table
    decreases |cids|
  {
    if cids != [] {
      var c := cids[0];
      assert c in cids;
      RecoverGrows(env, w, c);
      RecoverKeepsGoodWorld(env, w, c, all);
      hide GoodWorld, GoodLineage, Recover;
      SweepGrows(env, Recover(env, w, c), cids[1..], all);
    }
  }

  /** A sweep that appends nothing found no drift. */
  lemma {:induction false} QuietSweepFoundNoDrift(env: Env, w: World, cids: seq<CorrelationId>, all: seq<CorrelationId>, x: CorrelationId)
    requires ValidEnv(env) && GoodWorld(env, w, all) && (forall c :: c in cids ==> c in all)
    requires Sweep(env, w, cids).table == w.table && x in cids
    ensures var p := Project(x, Lineage(w.table, x)); !(Resumable(env, p) && Drifted(env, w.disk, p))
    decreases |cids|
  {
    hide GoodLineage, Recover, Project, Lineage, ValidEnv, ValidDisk, Drifted;
    var c, rest := cids[0], cids[1..];
    assert c in cids && cids == [c] + rest;
    var w' := Recover(env, w, c);
    RecoverGrows(env, w, c);
    RecoverDisk(env, w, c);
    RecoverKeepsGoodWorld(env, w, c, all);
    SweepGrows(env, w', rest, all);
    assert w'.table == w.table;
    if x != c { QuietSweepFoundNoDrift(env, w', rest, all, x); }
  }

  lemma {:induction false} SweepKeepsGoodAndWatched(env: Env, w: World, cids: seq<CorrelationId>, all: seq<CorrelationId>)
    requires ValidEnv(env) && GoodWorld(env, w, all) && forall c :: c in cids ==> c in all
    ensures var w' := Sweep(env, w, cids);
            && GoodWorld(env, w', all) && w.disk.dirs <= w'.disk.dirs
            && forall x :: Watched(env, w', x) <==> Watched(env, w, x)
    decreases |cids|
  {
    if cids != [] {
      var c, rest := cids[0], cids[1..];
      assert c in cids;
      var w' := Recover(env, w, c);
      hide GoodLineage, Recover, Watched, ValidDisk;
      RecoverDisk(env, w, c);
      RecoverKeepsGoodWorld(env, w, c, all);
      forall y ensures Watched(env, w', y) <==> Watched(env, w, y) { RecoverKeepsWatched(env, w, c, y); }
      SweepKeepsGoodAndWatched(env, w', rest, all);
    }
  }

  lemma NoDriftMeansAsMarked(env: Env, w: World, x: CorrelationId)
    requires ValidEnv(env) && Watched(env, w, x) && x in env.marks && env.DirFor(x) in w.disk.dirs
    requires !Drifted(env, w.disk, Project(x, Lineage(w.table, x)))
    ensures ManifestOf(w.disk, env.DirFor(x)) == env.marks[x].manifest
  {
    MarksAreValid(env, x);
    hide Project, Lineage, Env.DirFor, ManifestOf;
  }

  /** After a quiet second sweep every lineage present before the first one stands on disk
      as it was checkpointed. */
  lemma QuietMeansAsMarked(env: Env, w: World, cids: seq<CorrelationId>, a: CorrelationId)
    requires ValidEnv(env) && GoodWorld(env, w, cids) && a in cids && Present(env, w, cids, a)
    requires Sweep(env, Sweep(env, w, cids), cids) == Sweep(env, w, cids)
    ensures a in env.marks && ManifestOf(Sweep(env, w, cids).disk, env.DirFor(a)) == env.marks[a].manifest
  {
    var w' := Sweep(env, w, cids);
    SweepKeepsGoodAndWatched(env, w, cids, cids);
    WatchedIsMarked(env, w, a);
    hide Sweep, GoodLineage, Watched, ValidDisk, ManifestOf, Project, Lineage, Drifted;
    if env.DirFor(a) !in w.disk.dirs {
      var x :| x in cids && Hosts(env, w, x, a);
      WatchedIsMarked(env, w, x);
      QuietSweepFoundNoDrift(env, w', cids, cids, x);
      NoDriftMeansAsMarked(env, w', x);
      var p :| p in env.marks[x].manifest && Under(env.DirFor(a), p);
      ListedIsThere(w'.disk, env.DirFor(x), p);
      FileImpliesDir(w'.disk, env.DirFor(a), p);
    }
    QuietSweepFoundNoDrift(env, w', cids, cids, a);
    NoDriftMeansAsMarked(env, w', a);
  }

  lemma ListedIsThere(disk: Disk, dir: Path, p: Path)
    requires p in ManifestOf(disk, dir)
    ensures p in disk.files
  {
  }

  /** The sweep is idempotent exactly when no two lineages it compares were checkpointed
      with different contents for one path. */
  lemma SweepIdempotentIff(env: Env, w: World, cids: seq<CorrelationId>)
    requires ValidEnv(env) && GoodWorld(env, w, cids)
    ensures Sweep(env, Sweep(env, w, cids), cids) == Sweep(env, w, cids) <==> NoConflict(env, w, cids)
  {
    hide Sweep, GoodWorld, Settled, ManifestOf, ValidEnv, Present;
    var w' := Sweep(env, w, cids);
    if NoConflict(env, w, cids) {
      SweepSettles(env, w, cids, cids);
      SweepOfSettled(env, w', cids);
    }
    if Sweep(env, w', cids) == w' {
      forall a, b | a in cids && b in cids && Present(env, w, cids, a) && Present(env, w, cids, b)
        ensures a in env.marks && b in env.marks && Compatible(env, a, b)
      {
        QuietMeansAsMarked(env, w, cids, a);
        QuietMeansAsMarked(env, w, cids, b);
        SameDiskAgrees(w'.disk, env.DirFor(a), env.DirFor(b));
      }
    }
  }

  /** Without such a conflict any later sweep over any of these lineages, in any
      order, leaves ledger, head flags and workspaces as the first one left them. */
  lemma LaterSweepsChangeNothing(env: Env, w: World, cids: seq<CorrelationId>, later: seq<CorrelationId>)
    requires ValidEnv(env) && GoodWorld(env, w, cids) && NoConflict(env, w, cids)
    requires forall c :: c in later ==> c in cids
    ensures Sweep(env, Sweep(env, w, cids), later) == Sweep(env, w, cids)
  {
    SweepSettles(env, w, cids, cids);
    hide Settled, Sweep;
    SweepOfSettled(env, Sweep(env, w, cids), later);
  }

  // -- terminal flags -------------------------------------------------------

  ghost predicate FlagAgrees(w: World, cid: CorrelationId) {
    cid in w.heads && (w.heads[cid].isTerminal <==> Project(cid, Lineage(w.table, cid)).phase.IsTerminal())
  }

  lemma RecoverAgrees(env: Env, w: World, c: CorrelationId, x: CorrelationId)
    requires ValidEnv(env) && GoodLineage(env, w, c) && (x == c || FlagAgrees(w, x))
    ensures FlagAgrees(Recover(env, w, c), x)
  {
    RecoverSettles(env, w, c);
    hide Lawful, Project, Lineage, Recover;
    if x != c { assert SameLineage(w, Recover(env, w, c), x); }
  }

  /** After a sweep the head flags say exactly which replayed lineages are closed,
      including one reopened by a correction appended after its commit. */
  lemma {:induction false} FlagsAgreeAfterSweep(env: Env, w: World, cids: seq<CorrelationId>, all: seq<CorrelationId>, x: CorrelationId)
    requires ValidEnv(env) && GoodWorld(env, w, all) && (forall c :: c in cids ==> c in all) && (x in cids || FlagAgrees(w, x))
    ensures FlagAgrees(Sweep(env, w, cids), x)
    decreases |cids|
  {
    if cids != [] {
      var c, rest := cids[0], cids[1..];
      assert c in cids && cids == [c] + rest;
      if x == c || FlagAgrees(w, x) { RecoverAgrees(env, w, c, x); }
      RecoverKeepsGoodWorld(env, w, c, all);
      hide GoodWorld, GoodLineage, FlagAgrees, Recover;
      FlagsAgreeAfterSweep(env, Recover(env, w, c), rest, all, x);
    }
  }

  /** A sweep over every open head makes every flag in the table agree. */
  lemma OpenSweepFixesEveryFlag(env: Env, w: World, cids: seq<CorrelationId>, x: CorrelationId)
    requires ValidEnv(env) && GoodWorld(env, w, cids) && x in w.heads
    requires HeadMirrors(x, Lineage(w.table, x), w.heads) && (!w.heads[x].isTerminal ==> x in cids)
    ensures FlagAgrees(Sweep(env, w, cids), x)
  {
    hide Project, Lineage, Sweep, GoodWorld;
    FlagsAgreeAfterSweep(env, w, cids, cids, x);
  }

  // -- the engine -----------------------------------------------------------

  datatype RecoveryOutcome = Resumed | RolledBackOutcome | ParkedHuman | AbandonedOutcome | AlreadyTerminal

  /** Paths missing on one side or different between the two manifests. */
  function DriftedPaths(expected: Manifest, actual: Manifest): (r: set<Path>)
    ensures r == {} <==> expected == actual
  {
    var r := (set p | p in expected && (p !in actual || expected[p] != actual[p])) + (set p | p in actual && p !in expected);
    assert r == {} ==> expected == actual by {
      if r == {} {
        assert forall p :: p in expected ==> p !in r;
        assert forall p :: p in actual ==> p !in r;
      }
    }
    r
  }

  class RecoveryEngine {
    const store: LedgerStore
    /** Everything a sweep reads but its checkpoints, which are in `rows`. */
    const setup: Env
    var rows: MarkTable
    var disk: Disk

    constructor (store: LedgerStore, setup: Env, rows: MarkTable, disk: Disk)
      ensures this.store == store && this.setup == setup && this.rows == rows && this.disk == disk
    {
      this.store, this.setup, this.rows, this.disk := store, setup, rows, disk;
    }

    /** What a sweep that starts now reads. */
    function Now(): Env
      reads this
    {
      setup.(marks := NewestMarks(rows))
    }

    ghost function W(): World
      reads this, store
    {
      World(store.table, store.heads, disk)
    }

    ghost predicate Sound()
      reads this, store
    {
      store.Valid() && store.SnapshotsFaithful() && ValidEnv(Now()) && ValidRows(Now(), rows)
    }

    /** `checkpoint`: one row of the checkpoint table, replaced or added. `None` is the
        snapshotter's refusal of a root that is no directory. */
    method Checkpoint(cid: CorrelationId, version: nat, root: string) returns (hash: Option<string>)
      requires Sound()
      modifies this`rows
      ensures Sound()
      ensures !setup.snapshotter ==> rows == old(rows) && hash == Some("")
      ensures setup.snapshotter && setup.dirOf(root) !in disk.dirs ==> rows == old(rows) && hash == None
      ensures setup.snapshotter && setup.dirOf(root) in disk.dirs ==>
                var manifest := ManifestOf(disk, setup.dirOf(root));
                && hash == Some(setup.hash(manifest))
                && rows == old(rows)[(cid, version) := Mark(root, manifest, hash.value)]
                && cid in Now().marks
                && Now().marks[cid] == if exists v :: v > version && (cid, v) in old(rows) then old(Now().marks)[cid] else Mark(root, manifest, hash.value)
    {
      if !setup.snapshotter { return Some(""); }
      if setup.dirOf(root) !in disk.dirs { return None; }
      var manifest := ManifestOf(disk, setup.dirOf(root));
      hash := Some(setup.hash(manifest));
      hide NewestMarks, NewestMark, ManifestOf, LedgerStore.Valid, LedgerStore.SnapshotsFaithful;
      var mark := Mark(root, manifest, hash.value);
      NewestAfter(rows, cid, version, mark);
      ManifestIsWithin(disk, setup.dirOf(root));
      var saved := rows[(cid, version) := mark];
      SavedRowsAreValid(Now(), rows, cid, version, mark);
      NewestAreValid(Now(), saved);
      rows := saved;
    }

    /** `_reconcile_workspace`: restores on divergence and reports what had drifted. */
    method ReconcileWorkspace(p: TaskProjection) returns (drifted: set<Path>)
      requires ValidEnv(Now())
      modifies this`disk
      ensures drifted != {} <==> Drifted(Now(), old(disk), p)
      ensures disk == if drifted != {} then PutBack(Now(), old(disk), p.correlationId) else old(disk)
    {
      if !Now().snapshotter || p.workspacePath.None? || p.workspacePath.value == "" { return {}; }
      if p.correlationId !in Now().marks { return {}; }
      var mark := Now().marks[p.correlationId];
      var dir := Now().dirOf(mark.root);
      if dir !in disk.dirs { return {}; }
      var actual := ManifestOf(disk, dir);
      if Now().hash(actual) == mark.hash { return {}; }
      MarksAreValid(Now(), p.correlationId);
      drifted := DriftedPaths(mark.manifest, actual);
      disk := Restore(disk, dir, mark.manifest);
    }

    method MarkHeadTerminal(cid: CorrelationId)
      requires Sound() && Project(cid, Lineage(store.table, cid)).phase.IsTerminal()
      modifies store`heads
      ensures Sound()
      ensures store.heads == if cid in old(store.heads) then old(store.heads)[cid := old(store.heads)[cid].(isTerminal := true)]
                             else old(store.heads)
    {
      hide Project, Lineage, SoundTable;
      if cid in store.heads {
        store.heads := store.heads[cid := store.heads[cid].(isTerminal := true)];
      }
    }

    /** `recover_correlation` */
    method RecoverCorrelation(cid: CorrelationId) returns (outcome: RecoveryOutcome)
      requires Sound() && GoodLineage(Now(), W(), cid)
      modifies store`table, store`heads, this`disk
      ensures Sound() && W() == Recover(Now(), old(W()), cid)
      ensures var p := Project(cid, old(Lineage(store.table, cid)));
              outcome == if p.phase.IsTerminal() then AlreadyTerminal
                         else if p.phase == AwaitingHuman then ParkedHuman
                         else if p.attempts >= Now().cfg.maxAttempts then AbandonedOutcome
                         else if Drifted(Now(), old(disk), p) then RolledBackOutcome else Resumed
    {
      hide Lawful, GateHistory, Lineage, ApplyEvent, HeadMirrors, ValidEnv, LedgerStore.Valid, LedgerStore.SnapshotsFaithful;
      hide Env.DirFor, Drifted, PutBack, RollbackDraft;
      var state := store.ProjectTask(cid);
      var p := state.value;
      ghost var w := W();
      ghost var h := Lineage(store.table, cid);
      ProjectKeepsId(cid, h);
      hide Project;
      NothingDelivered(w);
      if p.phase.IsTerminal() {
        MarkHeadTerminal(cid);
        GoodHeadExists(Now(), w, cid);
        return AlreadyTerminal;
      }
      if p.phase == AwaitingHuman { return ParkedHuman; }
      if p.attempts >= Now().cfg.maxAttempts {
        DeliverOne(w, AbandonDraft(Now(), p));
        var _ := store.Append(AbandonDraft(Now(), p));
        return AbandonedOutcome;
      }
      var drifted := ReconcileWorkspace(p);
      if drifted != {} {
        RecoverAppendsTwo(Now(), w, cid);
        var _ := store.Append(RollbackDraft(Now(), p));
        RecordSweep(p);
        return RolledBackOutcome;
      }
      RecoverAppendsOne(Now(), w, cid);
      RecordSweep(p);
      return Resumed;
    }

    /** `_record_sweep`: skipped when the newest event already is a sweep record. */
    method RecordSweep(p: TaskProjection)
      requires Sound() && Lineage(store.table, p.correlationId) != []
      modifies store`table, store`heads
      ensures Sound()
      ensures var h := old(Lineage(store.table, p.correlationId));
              W() == if h[|h| - 1].draft.etype == RecoveryReplayCompleted then old(W()) else Deliver(old(W()), SweepDraft(Now(), p))
    {
      hide ApplyEvent, HeadMirrors, Project, LedgerStore.SnapshotsFaithful, LedgerStore.Valid;
      var events := store.ReadCorrelation(p.correlationId, 0);
      assert events == Lineage(store.table, p.correlationId);
      if events[|events| - 1].draft.etype == RecoveryReplayCompleted { return; }
      var _ := store.Append(SweepDraft(Now(), p));
    }

    /** `boot_sweep` over the lineages the head query returned, in its order. */
    method BootSweep(cids: seq<CorrelationId>)
      requires Sound() && GoodWorld(Now(), W(), cids)
      modifies store`table, store`heads, this`disk
      ensures Sound() && W() == Sweep(Now(), old(W()), cids)
      ensures GoodWorld(Now(), W(), cids)
    {
      hide GoodLineage, Recover, LedgerStore.Valid, LedgerStore.SnapshotsFaithful, ValidEnv;
      for i := 0 to |cids|
        invariant Sound() && GoodWorld(Now(), W(), cids) && rows == old(rows)
        invariant Sweep(Now(), W(), cids[i..]) == Sweep(Now(), old(W()), cids)
      {
        assert cids[i] in cids && cids[i..][0] == cids[i] && cids[i..][1..] == cids[i + 1..];
        ghost var w := W();
        var _ := RecoverCorrelation(cids[i]);
        RecoverKeepsGoodWorld(Now(), w, cids[i], cids);
      }
    }
  }

  lemma SavedRowsAreValid(env: Env, rows: MarkTable, cid: CorrelationId, version: nat, mark: Mark)
    requires ValidRows(env, rows) && ValidMark(env, mark)
    ensures ValidRows(env, rows[(cid, version) := mark])
  {
  }

  lemma GoodHeadExists(env: Env, w: World, cid: CorrelationId)
    requires GoodLineage(env, w, cid)
    ensures cid in w.heads
  {
    hide Lawful, Project;
  }

  lemma RecoverAppendsTwo(env: Env, w: World, cid: CorrelationId)
    requires GoodLineage(env, w, cid)
    requires var p := Project(cid, Lineage(w.table, cid)); Resumable(env, p) && Drifted(env, w.disk, p)
    ensures var p := Project(cid, Lineage(w.table, cid)); var w' := Recover(env, w, cid);
            var w1 := Deliver(w, RollbackDraft(env, p));
            && w' == Deliver(w1, SweepDraft(env, p)).(disk := w'.disk)
            && Lineage(w1.table, cid) != [] && Lineage(w1.table, cid)[|Lineage(w1.table, cid)| - 1].draft.etype == StateRollbackTriggered
  {
    var h := Lineage(w.table, cid);
    var p := Project(cid, h);
    ProjectKeepsId(cid, h);
    hide Lawful, Project, GateHistory, Lineage, ApplyEvent, HeadMirrors, Allowed;
    RollbackAllowed(env, cid, h);
    var e := DeliverLawful(env, w, RollbackDraft(env, p));
    DeliverTwo(w, RollbackDraft(env, p), SweepDraft(env, p));
  }

  /** What a rollback puts on record agrees with the disk it leaves: the hash of what is in
      the workspace. It restores to the first completed step, so no step counts as done any
      more, and it counts itself. The event carries the default modality. */
  lemma RollbackRecordsDisk(env: Env, w: World, cid: CorrelationId)
    requires ValidEnv(env) && GoodLineage(env, w, cid)
    requires var p := Project(cid, Lineage(w.table, cid)); Resumable(env, p) && Drifted(env, w.disk, p)
    ensures var p, w' := Project(cid, Lineage(w.table, cid)), Recover(env, w, cid);
            var p' := Project(cid, Lineage(w'.table, cid));
            && p'.checkpointManifestHash == Some(env.hash(ManifestOf(w'.disk, env.DirFor(p.correlationId))))
            && p'.completedSteps == [] && p'.currentStepIndex == LowestCompleted(p.completedSteps)
            && p'.rollbackCount == p.rollbackCount + 1 && p'.phase == RolledBack && p'.modality == Standard
            && (p.sessionId.Some? ==> cid in w'.heads && w'.heads[cid].sessionId == p.sessionId)
  {
    var h := Lineage(w.table, cid);
    var p := Project(cid, h);
    ProjectKeepsId(cid, h);
    hide Lawful, Project, GateHistory, Allowed, Lineage, ApplyEvent, HeadMirrors, Deliver, Drifted, ValidEnv, DeliverAll, DeliverHeads;
    StepFacts(env.cfg, cid, h);
    RollbackAllowed(env, cid, h);
    var a, b := RollbackDraft(env, p), SweepDraft(env, p);
    var e := DeliverLawful(env, w, a);
    var w1 := Deliver(w, a);
    RollbackMovesPhase(p, e);
    PutBackIsMarked(env, w.disk, p);
    RollbackUndoesAll(p, e);
    SweepAllowed(env, cid, h + [e], |h|, b);
    var f := DeliverLawful(env, w1, b);
    SweepNotesOnly(Project(cid, h + [e]), f);
    DeliverTwo(w, a, b);
    if p.sessionId.Some? { HeadSession(cid, h + [e], f, Deliver(w1, b).heads); }
  }

  lemma RollbackUndoesAll(p: TaskProjection, e: LedgerEvent)
    requires e.draft.etype.StateRollbackTriggered? && e.draft.payload.restoredStepIndex == Some(LowestCompleted(p.completedSteps))
    requires e.draft.payload.restoredManifestHash.Has?
    ensures var p' := ApplyEvent(p, e);
            && p'.checkpointManifestHash == Some(e.draft.payload.restoredManifestHash.value)
            && p'.completedSteps == [] && p'.currentStepIndex == LowestCompleted(p.completedSteps)
            && p'.rollbackCount == p.rollbackCount + 1
  {
    NothingBelow(p.completedSteps, LowestCompleted(p.completedSteps));
  }

  lemma {:induction false} NothingBelow(steps: seq<int>, bound: int)
    requires forall i :: i in steps ==> bound <= i
    ensures KeepBelow(steps, bound) == []
  {
    if steps != [] {
      var init, last := steps[..|steps| - 1], steps[|steps| - 1];
      assert steps == init + [last] && last in steps;
      forall i | i in init ensures bound <= i { assert i in steps; }
      NothingBelow(init, bound);
    }
  }

  lemma SweepNotesOnly(p: TaskProjection, e: LedgerEvent)
    requires e.draft.etype.RecoveryReplayCompleted? && e.draft.mode == Standard
    ensures var p' := ApplyEvent(p, e);
            && p'.checkpointManifestHash == p.checkpointManifestHash && p'.completedSteps == p.completedSteps
            && p'.currentStepIndex == p.currentStepIndex && p'.rollbackCount == p.rollbackCount && p'.phase == p.phase
            && p'.modality == Standard
  {
  }

  lemma PutBackIsMarked(env: Env, disk: Disk, p: TaskProjection)
    requires ValidEnv(env) && Drifted(env, disk, p)
    ensures p.correlationId in env.marks
    ensures env.hash(ManifestOf(PutBack(env, disk, p.correlationId), env.DirFor(p.correlationId))) == env.marks[p.correlationId].hash
  {
    MarksAreValid(env, p.correlationId);
    RestoreEstablishes(disk, env.DirFor(p.correlationId), env.marks[p.correlationId].manifest);
    hide ManifestOf;
  }

  lemma HeadSession(cid: CorrelationId, h: seq<LedgerEvent>, e: LedgerEvent, heads: map<CorrelationId, Head>)
    requires HeadMirrors(cid, h + [e], heads) && e.draft.sessionId.Some?
    ensures cid in heads && heads[cid].sessionId == e.draft.sessionId
  {
    hide Project;
    assert (h + [e])[|h + [e]| - 1] == e;
  }

  lemma RecoverAppendsOne(env: Env, w: World, cid: CorrelationId)
    requires Lineage(w.table, cid) != []
    requires var p := Project(cid, Lineage(w.table, cid)); Resumable(env, p) && !Drifted(env, w.disk, p)
    ensures var h := Lineage(w.table, cid); var p := Project(cid, h);
            Recover(env, w, cid)
            == if h[|h| - 1].draft.etype == RecoveryReplayCompleted then w else Deliver(w, SweepDraft(env, p))
  {
    hide Project, Lineage;
    NothingDelivered(w);
    DeliverOne(w, SweepDraft(env, Project(cid, Lineage(w.table, cid))));
  }
}
