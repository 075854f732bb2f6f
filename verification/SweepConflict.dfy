/** A world the boot sweep never settles: two lineages checkpointed on nested roots with
    different contents for one file. Each sweep restores one over the other. */
module SweepConflict {
  import opened Ledger
  import opened Replay
  import opened Gates
  import opened Lifecycle
  import opened Store
  import opened Workspace
  import opened Recovery
  import opened Sweeping

  const OUTER := ["w"]
  const INNER := ["w", "sub"]
  const FILE := ["w", "sub", "x"]

  const CONFIG := Config(false, false, false, false, false, 0, 1)

  function Request(cid: CorrelationId): Draft {
    Draft(cid, None, TaskRequested, Standard, None, 0, NoDisc, EMPTY_PAYLOAD.(workspacePath := "ws"), 0)
  }

  function Submitted(cid: CorrelationId, sid: nat): LedgerEvent { Seal(Request(cid), sid, 1, Genesis) }

  function Listing(digest: string): Manifest { map[FILE := digest] }

  function Setting(hash: Manifest -> string): Env {
    Env(CONFIG, true,
        map["a" := Mark("/w", Listing("1"), hash(Listing("1"))), "b" := Mark("/w/sub", Listing("2"), hash(Listing("2")))],
        hash, root => if root == "/w" then OUTER else INNER, 0)
  }

  function Nested(): World {
    var a, b := Submitted("a", 1), Submitted("b", 2);
    World([a, b], HeadAfter(HeadAfter(map[], a), b), Disk(map[], {[], OUTER, INNER}))
  }

  lemma SubmittedIsGood(env: Env, w: World, cid: CorrelationId, sid: nat)
    requires env.cfg == CONFIG && Lineage(w.table, cid) == [Submitted(cid, sid)] && HeadMirrors(cid, Lineage(w.table, cid), w.heads)
    ensures GoodLineage(env, w, cid)
    ensures Ready(env, w, cid)
  {
    var e := Submitted(cid, sid);
    assert Lawful(CONFIG, cid, []) && Project(cid, []) == Initial(cid);
    assert [] + [e] == [e];
    ProjectSnoc(cid, [], e);
    hide Project, Lineage, GateHistory, HeadMirrors;
    LawfulSnoc(CONFIG, cid, [], e);
  }

  lemma NestedLineages()
    ensures Lineage(Nested().table, "a") == [Submitted("a", 1)] && Lineage(Nested().table, "b") == [Submitted("b", 2)]
  {
    var a, b := Submitted("a", 1), Submitted("b", 2);
    hide Submitted;
    assert a.draft.cid == "a" && b.draft.cid == "b" by { SubmittedNames(); }
    LineageSnoc([], a, "a");
    LineageSnoc([], a, "b");
    LineageSnoc([a], b, "a");
    LineageSnoc([a], b, "b");
    assert [] + [a] == [a] && [a] + [b] == [a, b] && [] + [b] == [b];
    assert Nested().table == [a, b];
  }

  lemma SubmittedNames()
    ensures forall cid, sid :: Submitted(cid, sid).draft.cid == cid
  {
  }

  lemma NestedDiskIsValid()
    ensures ValidDisk(Nested().disk)
  {
    var dirs := Nested().disk.dirs;
    forall q, k | q in dirs && 0 <= k <= |q| ensures q[..k] in dirs {
      if k == 0 { assert q[..k] == []; } else if k == |q| { assert q[..k] == q; } else { assert q == INNER && q[..k] == OUTER; }
    }
  }

  lemma NestedIsGood(env: Env)
    requires env.cfg == CONFIG
    ensures var w := Nested(); ValidDisk(w.disk) && GoodLineage(env, w, "a") && GoodLineage(env, w, "b") && Ready(env, w, "a") && Ready(env, w, "b")
  {
    NestedLineages();
    NestedDiskIsValid();
    HeadsAreMirrored();
    var w := Nested();
    hide Lineage, Project, HeadMirrors, Lawful, GoodLineage, ValidDisk, Nested, Submitted;
    SubmittedIsGood(env, w, "a", 1);
    SubmittedIsGood(env, w, "b", 2);
  }

  /** A resumable lineage with a workspace. */
  ghost predicate Ready(env: Env, w: World, cid: CorrelationId) {
    var p := Project(cid, Lineage(w.table, cid));
    Resumable(env, p) && p.workspacePath == Some("ws") && p.correlationId == cid
  }

  lemma HeadsAreMirrored()
    ensures forall cid :: HeadMirrors(cid, Lineage(Nested().table, cid), Nested().heads)
  {
    var a, b := Submitted("a", 1), Submitted("b", 2);
    assert forall cid :: HeadMirrors(cid, Lineage([], cid), map[]);
    HeadsMirrorAfter([], map[], a);
    assert [] + [a] == [a] && [a] + [b] == [a, b];
    hide HeadMirrors, Lineage, HeadAfter;
    HeadsMirrorAfter([a], HeadAfter(map[], a), b);
  }

  /** The roots differ, neither spelling nor directory is shared, and still a second sweep
      over the two, in whatever order, appends again. */
  lemma NestedRootsNeverSettle(hash: Manifest -> string, cids: seq<CorrelationId>)
    requires forall m, n: Manifest :: hash(m) == hash(n) ==> m == n
    requires forall c :: c in cids <==> c == "a" || c == "b"
    ensures var env, w := Setting(hash), Nested();
            && ValidEnv(env) && GoodWorld(env, w, cids)
            && env.marks.Keys == {"a", "b"} && env.DirFor("a") != env.DirFor("b")
            && Sweep(env, Sweep(env, w, cids), cids) != Sweep(env, w, cids)
  {
    var env, w := Setting(hash), Nested();
    SettingConflicts(hash);
    NestedIsGood(env);
    assert w.disk.dirs == {[], OUTER, INNER};
    hide *;
    IncompatibleNeverSettle(env, w, cids);
  }

  lemma IncompatibleNeverSettle(env: Env, w: World, cids: seq<CorrelationId>)
    requires ValidEnv(env) && ValidDisk(w.disk) && GoodLineage(env, w, "a") && GoodLineage(env, w, "b")
    requires forall c :: c in cids <==> c == "a" || c == "b"
    requires Ready(env, w, "a") && Ready(env, w, "b") && env.snapshotter && env.marks.Keys == {"a", "b"}
    requires env.DirFor("a") == OUTER && env.DirFor("b") == INNER && w.disk.dirs == {[], OUTER, INNER} && !Compatible(env, "a", "b")
    ensures GoodWorld(env, w, cids) && env.DirFor("a") != env.DirFor("b")
    ensures Sweep(env, Sweep(env, w, cids), cids) != Sweep(env, w, cids)
  {
    hide Sweep, Recover, Lineage, Project, GoodLineage, ValidDisk, ValidEnv, Compatible;
    assert Present(env, w, cids, "a") && Present(env, w, cids, "b");
    SweepIdempotentIff(env, w, cids);
  }

  lemma SettingConflicts(hash: Manifest -> string)
    requires forall m, n: Manifest :: hash(m) == hash(n) ==> m == n
    ensures var env := Setting(hash);
            && ValidEnv(env) && env.cfg == CONFIG && env.snapshotter && env.marks.Keys == {"a", "b"}
            && env.DirFor("a") == OUTER && env.DirFor("b") == INNER && !Compatible(env, "a", "b")
  {
    assert Under(OUTER, FILE) && Under(INNER, FILE);
    assert FILE in Listing("1") && FILE in Listing("2") && Listing("1")[FILE] != Listing("2")[FILE];
  }
}
