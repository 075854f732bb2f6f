/** Confidence decay and eviction from hot serving (`src/paa/memory/decay.py`), over the
    fact table of `src/paa/storage/relational/schema_sqlite.sql`. A row's `superseded_by`
    is a foreign key with `ON DELETE SET NULL`, so evicting a row brings the rows it
    superseded back to life, possibly ahead of the scan and possibly behind it. */
module Decay {
  import opened Ledger
  import opened Collections

  // -- policies -------------------------------------------------------------

  /** Row ids enter only through their order; 0 is the empty cursor, below every id. */
  type Id = nat

  datatype Domain =
    | Working | LongTermDistilled | Episodic | Semantic | Procedural | Task | Session
    | Temporal | Narrative | Reflection | Strategic | Skill | Tool | Relationship
    | Identity | Operational | Environmental | Workspace
    | Unlisted(name: string)

  datatype DomainPolicy = DomainPolicy(decayLambda: real, pruneFloor: real, immutable: bool)
  {
    /** `confidence_at`, for the idle times there are: none is negative. */
    function ConfidenceAt(exp: real -> real, initial: real, idle: real): real {
      if decayLambda <= 0.0 then initial else initial * Share(exp, decayLambda, idle)
    }
  }

  /** What is left of a confidence of one after `idle` days. */
  function Share(exp: real -> real, rate: real, idle: real): real { exp(-rate * idle) }

  /** `domain_policy`; `None` is the `KeyError` of an unknown name. */
  function PolicyOf(d: Domain): Option<DomainPolicy> {
    match d
    case Working => Some(DomainPolicy(0.0, 0.0, false))
    case LongTermDistilled => Some(DomainPolicy(0.001, 0.15, false))
    case Episodic => Some(DomainPolicy(0.0, 0.0, true))
    case Semantic => Some(DomainPolicy(0.002, 0.30, false))
    case Procedural => Some(DomainPolicy(0.0, 0.40, false))
    case Task => Some(DomainPolicy(0.0, 0.0, false))
    case Session => Some(DomainPolicy(0.0, 0.0, false))
    case Temporal => Some(DomainPolicy(0.01, 0.15, false))
    case Narrative => Some(DomainPolicy(0.0, 0.0, false))
    case Reflection => Some(DomainPolicy(0.002, 0.20, false))
    case Strategic => Some(DomainPolicy(0.0, 0.0, true))
    case Skill => Some(DomainPolicy(0.0, 0.40, false))
    case Tool => Some(DomainPolicy(0.05, 0.15, false))
    case Relationship => Some(DomainPolicy(0.004, 0.10, false))
    case Identity => Some(DomainPolicy(0.0, 0.0, true))
    case Operational => Some(DomainPolicy(1.0, 0.0, false))
    case Environmental => Some(DomainPolicy(0.0, 0.0, false))
    case Workspace => Some(DomainPolicy(0.0, 0.0, false))
    case Unlisted(_) => None
  }

  datatype Row = Row(supersededBy: Option<Id>, domain: Domain, initialConfidence: real, lastQueried: real, fact: string)

  type Table = map<Id, Row>

  /** The reference time of a sweep, in days, and the exponential. */
  datatype Clock = Clock(now: real, exp: real -> real)
  {
    function IdleDays(lastQueried: real): real {
      if now > lastQueried then now - lastQueried else 0.0
    }

    function EffectiveConfidence(p: DomainPolicy, initial: real, lastQueried: real): real {
      p.ConfidenceAt(exp, initial, IdleDays(lastQueried))
    }

    /** What makes the sweep put a scanned row on its list. */
    predicate Evictable(row: Row) {
      match PolicyOf(row.domain)
      case None => false
      case Some(p) => !p.immutable && EffectiveConfidence(p, row.initialConfidence, row.lastQueried) < p.pruneFloor
    }
  }

  // -- the table ------------------------------------------------------------

  predicate Live(t: Table, id: Id) { id in t && t[id].supersededBy.None? }

  function Freed(row: Row, gone: set<Id>): Row {
    if row.supersededBy.Some? && row.supersededBy.value in gone then row.(supersededBy := None) else row
  }

  /** `DELETE … WHERE id = ?` for each id, with `ON DELETE SET NULL`. */
  function Remove(t: Table, gone: set<Id>): Table {
    map id | id in t && id !in gone :: Freed(t[id], gone)
  }

  lemma RemoveTwice(t: Table, a: set<Id>, b: set<Id>)
    ensures Remove(Remove(t, a), b) == Remove(t, a + b)
  {
  }

  lemma FreedKeepsEvictable(clock: Clock, row: Row, gone: set<Id>)
    ensures clock.Evictable(Freed(row, gone)) == clock.Evictable(row)
  {
    hide PolicyOf;
    var row' := Freed(row, gone);
    assert row'.domain == row.domain && row'.initialConfidence == row.initialConfidence && row'.lastQueried == row.lastQueried;
  }

  // -- keyset pages ---------------------------------------------------------

  predicate Increasing(s: seq<Id>) { forall i, j :: 0 <= i < j < |s| ==> s[i] < s[j] }

  function Members(s: seq<Id>): set<Id> { set i | 0 <= i < |s| :: s[i] }

  lemma MembersOfConcat(a: seq<Id>, b: seq<Id>)
    ensures Members(a + b) == Members(a) + Members(b)
  {
    forall x | x in Members(a) + Members(b) ensures x in Members(a + b) {
      if x in Members(a) {
        var i :| 0 <= i < |a| && a[i] == x;
        assert (a + b)[i] == x;
      } else {
        var i :| 0 <= i < |b| && b[i] == x;
        assert (a + b)[|a| + i] == x;
      }
    }
  }

  function Least(s: set<Id>): (m: Id)
    requires s != {}
    ensures m in s && forall x :: x in s ==> m <= x
  {
    LeastExists(s);
    var m :| m in s && forall x :: x in s ==> m <= x;
    m
  }

  lemma {:induction false} LeastExists(s: set<Id>)
    requires s != {}
    ensures exists m :: m in s && forall x :: x in s ==> m <= x
  {
    var a :| a in s;
    if s == {a} {
      assert a in s;
    } else {
      var rest := s - {a};
      assert rest != {};
      LeastExists(rest);
      var b :| b in rest && forall x :: x in rest ==> b <= x;
      LeastOfTwo(s, a, b);
    }
  }

  lemma LeastOfTwo(s: set<Id>, a: Id, b: Id)
    requires a in s && b in s && forall x :: x in s - {a} ==> b <= x
    ensures exists m :: m in s && forall x :: x in s ==> m <= x
  {
    var m := if a <= b then a else b;
    forall x | x in s ensures m <= x {
      if x != a { assert x in s - {a}; }
    }
    assert m in s;
  }

  /** `ORDER BY id` */
  function Sorted(s: set<Id>): (r: seq<Id>)
    ensures Increasing(r) && Members(r) == s && |r| == |s|
  {
    if s == {} then [] else
      var m := Least(s);
      var rest := Sorted(s - {m});
      LeastFirst(s, m, rest);
      [m] + rest
  }

  lemma LeastFirst(s: set<Id>, m: Id, rest: seq<Id>)
    requires m in s && (forall x :: x in s ==> m <= x)
    requires Increasing(rest) && Members(rest) == s - {m} && |rest| == |s| - 1
    ensures Increasing([m] + rest) && Members([m] + rest) == s
  {
    MembersOfConcat([m], rest);
    assert Members([m]) == {m} by { assert [m][0] == m; }
    var r := [m] + rest;
    forall i, j | 0 <= i < j < |r| ensures r[i] < r[j] {
      assert rest[j - 1] in Members(rest);
    }
  }

  /** Live ids past the cursor. */
  function Ahead(t: Table, cursor: Id): set<Id> {
    set id | id in t && id > cursor && t[id].supersededBy.None?
  }

  /** One `SELECT … WHERE superseded_by IS NULL AND id > ? ORDER BY id LIMIT ?`. */
  function Page(t: Table, cursor: Id, batch: nat): (p: seq<Id>) {
    var all := Sorted(Ahead(t, cursor));
    if |all| <= batch then all else all[..batch]
  }

  lemma PageFacts(t: Table, cursor: Id, batch: nat)
    requires batch >= 1
    ensures var p := Page(t, cursor, batch);
            && Increasing(p) && Members(p) <= Ahead(t, cursor)
            && (p == [] <==> Ahead(t, cursor) == {})
            && (p != [] ==> p[|p| - 1] > cursor && forall x :: x in Ahead(t, cursor) && x <= p[|p| - 1] ==> x in Members(p))
  {
    PrefixFacts(Sorted(Ahead(t, cursor)), if |Ahead(t, cursor)| <= batch then |Ahead(t, cursor)| else batch);
  }

  /** The first ids of an increasing list: they are the smallest. */
  lemma PrefixFacts(all: seq<Id>, n: nat)
    requires Increasing(all) && n <= |all| && (n == 0 ==> all == [])
    ensures var p := all[..n];
            && Increasing(p) && Members(p) <= Members(all) && (n == |all| ==> p == all)
            && (p == [] <==> Members(all) == {})
            && (p != [] ==> p[|p| - 1] in Members(all) && forall x :: x in Members(all) && x <= p[|p| - 1] ==> x in Members(p))
  {
    var p := all[..n];
    assert forall i :: 0 <= i < |all| ==> all[i] in Members(all);
    forall x | x in Members(p) ensures x in Members(all) {
      var i :| 0 <= i < |p| && p[i] == x;
      assert all[i] == x;
    }
    if p != [] {
      assert p[n - 1] == all[n - 1];
      forall x | x in Members(all) && x <= p[n - 1] ensures x in Members(p) {
        var i :| 0 <= i < |all| && all[i] == x;
        assert i < n && p[i] == x;
      }
    }
  }

  // -- one sweep ------------------------------------------------------------

  function Stale(clock: Clock, t: Table, ids: set<Id>): set<Id> {
    set id | id in ids && id in t && clock.Evictable(t[id])
  }

  /** What a scan that starts at `cursor` and gets through `pages` pages examines. */
  function Scan(clock: Clock, t: Table, cursor: Id, batch: nat, dry: bool, pages: nat): (seen: seq<Id>)
    decreases pages
  {
    var page := Page(t, cursor, batch);
    if pages == 0 || page == [] then [] else
      var t' := if dry then t else Remove(t, Stale(clock, t, Members(page)));
      page + Scan(clock, t', page[|page| - 1], batch, dry, pages - 1)
  }

  /** The rows a scan evicts. */
  function Evicted(clock: Clock, t: Table, batch: nat, pages: nat): set<Id> {
    Stale(clock, t, Members(Scan(clock, t, 0, batch, false, pages)))
  }

  /** The table after a sweep that got through `pages` pages; `|t|` pages finish it. */
  function Swept(clock: Clock, t: Table, batch: nat, pages: nat): Table {
    Remove(t, Evicted(clock, t, batch, pages))
  }

  /** Ids past the cursor; a page uses up at least one. */
  function Beyond(t: Table, cursor: Id): set<Id> { set id | id in t && id > cursor }

  lemma NextPageIsShorter(clock: Clock, t: Table, cursor: Id, batch: nat, gone: set<Id>)
    requires batch >= 1 && Page(t, cursor, batch) != []
    ensures var page := Page(t, cursor, batch);
            |Beyond(Remove(t, gone), page[|page| - 1])| < |Beyond(t, cursor)|
  {
    PageFacts(t, cursor, batch);
    var page := Page(t, cursor, batch);
    var last := page[|page| - 1];
    assert last in Members(page);
    assert last in Beyond(t, cursor);
    SubsetSize(Beyond(Remove(t, gone), last), Beyond(t, cursor) - {last});
  }

  lemma RemoveNothing(t: Table)
    ensures Remove(t, {}) == t
  {
  }

  /** Each row is examined at most once, in id order. */
  lemma {:induction false} ScanIsIncreasing(clock: Clock, t: Table, cursor: Id, batch: nat, dry: bool, pages: nat)
    requires batch >= 1
    ensures var seen := Scan(clock, t, cursor, batch, dry, pages);
            Increasing(seen) && Members(seen) <= Beyond(t, cursor)
    decreases pages
  {
    hide Page, Clock.Evictable;
    PageFacts(t, cursor, batch);
    var page := Page(t, cursor, batch);
    if pages != 0 && page != [] {
      var t' := if dry then t else Remove(t, Stale(clock, t, Members(page)));
      var last := page[|page| - 1];
      var rest := Scan(clock, t', last, batch, dry, pages - 1);
      ScanIsIncreasing(clock, t', last, batch, dry, pages - 1);
      hide Increasing, Members, Scan;
      IncreasingConcat(page, rest);
      MembersOfConcat(page, rest);
    }
  }

  lemma IncreasingConcat(a: seq<Id>, b: seq<Id>)
    requires Increasing(a) && Increasing(b) && a != [] && forall x :: x in Members(b) ==> x > a[|a| - 1]
    ensures Increasing(a + b)
  {
    assert forall i :: 0 <= i < |b| ==> b[i] in Members(b);
  }

  /** A scan that is not cut short examines every row that was live, deletions or not. */
  lemma {:induction false} ScanCoversLive(clock: Clock, t: Table, cursor: Id, batch: nat, dry: bool, pages: nat)
    requires batch >= 1 && pages >= |Beyond(t, cursor)|
    ensures Ahead(t, cursor) <= Members(Scan(clock, t, cursor, batch, dry, pages))
    ensures dry ==> Ahead(t, cursor) == Members(Scan(clock, t, cursor, batch, dry, pages))
    decreases pages
  {
    hide Page, Clock.Evictable;
    PageFacts(t, cursor, batch);
    var page := Page(t, cursor, batch);
    if page != [] {
      var last := page[|page| - 1];
      assert last in Members(page) && last in Beyond(t, cursor);
      var gone := Stale(clock, t, Members(page));
      var t' := if dry then t else Remove(t, gone);
      RemoveNothing(t);
      NextPageIsShorter(clock, t, cursor, batch, if dry then {} else gone);
      var rest := Scan(clock, t', last, batch, dry, pages - 1);
      ScanCoversLive(clock, t', last, batch, dry, pages - 1);
      MembersOfConcat(page, rest);
      forall x | x in Ahead(t, cursor) ensures x in Members(page + rest) {
        if x > last { assert x in Ahead(t', last); }
      }
    } else {
      assert Ahead(t, cursor) == {};
    }
  }

  // -- what a sweep may evict -----------------------------------------------

  /** The rows a sweep is for: live and decayed below the floor. */
  function Doomed(clock: Clock, t: Table): set<Id> {
    set id | id in t && t[id].supersededBy.None? && clock.Evictable(t[id])
  }

  /** A run of stale rows, each superseded by the next, the last one live. */
  predicate StaleChain(clock: Clock, t: Table, id: Id, path: seq<Id>) {
    && path != [] && path[0] == id
    && (forall i :: 0 <= i < |path| ==> path[i] in t && clock.Evictable(t[path[i]]))
    && (forall i :: 0 <= i < |path| - 1 ==> t[path[i]].supersededBy == Some(path[i + 1]))
    && t[path[|path| - 1]].supersededBy.None?
  }

  ghost predicate Sinks(clock: Clock, t: Table, id: Id) {
    exists path :: StaleChain(clock, t, id, path)
  }

  /** The rows eviction can ever reach. */
  ghost function Sinking(clock: Clock, t: Table): set<Id> {
    set id | id in t && Sinks(clock, t, id)
  }

  /** Where repeated sweeping leads. */
  ghost function Settled(clock: Clock, t: Table): Table { Remove(t, Sinking(clock, t)) }

  lemma ChainSurvives(clock: Clock, t: Table, gone: set<Id>, id: Id, path: seq<Id>)
    requires gone <= Doomed(clock, t) && StaleChain(clock, t, id, path) && id !in gone
    ensures Sinks(clock, Remove(t, gone), id)
  {
    hide Clock.Evictable;
    var t' := Remove(t, gone);
    var n := |path| - 1;
    var path' := if path[n] in gone then path[..n] else path;
    forall i | 0 <= i < |path'| ensures path'[i] in t' && clock.Evictable(t'[path'[i]]) {
      assert path'[i] == path[i] && (i < n ==> t[path[i]].supersededBy == Some(path[i + 1]));
      FreedKeepsEvictable(clock, t[path[i]], gone);
    }
    assert StaleChain(clock, t', id, path');
  }

  lemma ChainComesFrom(clock: Clock, t: Table, gone: set<Id>, id: Id, path: seq<Id>)
    requires gone <= Doomed(clock, t) && StaleChain(clock, Remove(t, gone), id, path)
    ensures Sinks(clock, t, id)
  {
    hide Clock.Evictable;
    var t' := Remove(t, gone);
    var last := path[|path| - 1];
    forall i | 0 <= i < |path| ensures path[i] in t && clock.Evictable(t[path[i]]) {
      FreedKeepsEvictable(clock, t[path[i]], gone);
    }
    var path' := if t[last].supersededBy.None? then path else path + [t[last].supersededBy.value];
    assert StaleChain(clock, t, id, path');
  }

  /** Evicting live stale rows takes nothing else out of reach, and brings nothing new
      into it. */
  lemma SinkingAfterRemove(clock: Clock, t: Table, gone: set<Id>)
    requires gone <= Doomed(clock, t)
    ensures Sinking(clock, Remove(t, gone)) == Sinking(clock, t) - gone
  {
    hide StaleChain, Doomed;
    var t' := Remove(t, gone);
    forall id | id in t' ensures Sinks(clock, t', id) <==> Sinks(clock, t, id) {
      if Sinks(clock, t, id) {
        var path :| StaleChain(clock, t, id, path);
        ChainSurvives(clock, t, gone, id, path);
      }
      if Sinks(clock, t', id) {
        var path :| StaleChain(clock, t', id, path);
        ChainComesFrom(clock, t, gone, id, path);
      }
    }
  }

  lemma DoomedSinks(clock: Clock, t: Table)
    ensures Doomed(clock, t) <= Sinking(clock, t)
    ensures Sinking(clock, t) == {} <==> Doomed(clock, t) == {}
  {
    hide Clock.Evictable;
    forall id | id in Doomed(clock, t) ensures id in Sinking(clock, t) {
      assert StaleChain(clock, t, id, [id]);
    }
    if id :| id in Sinking(clock, t) {
      var path :| StaleChain(clock, t, id, path);
      assert path[|path| - 1] in Doomed(clock, t);
    }
  }

  lemma StaleOfPage(clock: Clock, t: Table, cursor: Id, batch: nat)
    requires batch >= 1
    ensures Stale(clock, t, Members(Page(t, cursor, batch))) <= Doomed(clock, t)
  {
    hide Page, Clock.Evictable;
    PageFacts(t, cursor, batch);
  }

  /** The rows of a scan that are stale, split at the first page. */
  lemma StaleSplits(clock: Clock, t: Table, gone: set<Id>, a: seq<Id>, b: seq<Id>)
    requires gone == Stale(clock, t, Members(a))
    requires forall x :: x in Members(b) ==> x in t && x !in gone
    ensures Stale(clock, t, Members(a + b)) == gone + Stale(clock, Remove(t, gone), Members(b))
  {
    hide Clock.Evictable;
    MembersOfConcat(a, b);
    var t' := Remove(t, gone);
    forall x | x in Members(b) ensures x in t' && clock.Evictable(t'[x]) == clock.Evictable(t[x]) {
      FreedKeepsEvictable(clock, t[x], gone);
    }
  }

  /** However far it gets, a scan evicts only rows at the bottom of stale chains, and
      leaves the rest of each chain to be evicted later. */
  lemma {:induction false} ScanKeepsSettled(clock: Clock, t: Table, cursor: Id, batch: nat, pages: nat)
    requires batch >= 1
    ensures var gone := Stale(clock, t, Members(Scan(clock, t, cursor, batch, false, pages)));
            && gone <= Sinking(clock, t)
            && Sinking(clock, Remove(t, gone)) == Sinking(clock, t) - gone
    decreases pages
  {
    hide Page, Clock.Evictable, Sinks;
    var page := Page(t, cursor, batch);
    if pages == 0 || page == [] {
      assert Stale(clock, t, Members([])) == {};
      RemoveNothing(t);
    } else {
      PageFacts(t, cursor, batch);
      var gone := Stale(clock, t, Members(page));
      var t', last := Remove(t, gone), page[|page| - 1];
      StaleOfPage(clock, t, cursor, batch);
      DoomedSinks(clock, t);
      SinkingAfterRemove(clock, t, gone);
      var rest := Scan(clock, t', last, batch, false, pages - 1);
      ScanKeepsSettled(clock, t', last, batch, pages - 1);
      ScanIsIncreasing(clock, t', last, batch, false, pages - 1);
      StaleSplits(clock, t, gone, page, rest);
      RemoveTwice(t, gone, Stale(clock, t', Members(rest)));
    }
  }

  // -- theorems about sweeps ------------------------------------------------

  /** A sweep, cut short anywhere, keeps every row that is not on a stale chain (so every
      immutable and every unknown-domain row) and does not change where sweeping leads. */
  lemma SweepKeepsSettled(clock: Clock, t: Table, batch: nat, pages: nat)
    requires batch >= 1
    ensures Evicted(clock, t, batch, pages) <= Sinking(clock, t)
    ensures Settled(clock, Swept(clock, t, batch, pages)) == Settled(clock, t)
  {
    hide Scan, Clock.Evictable, Sinking, Remove;
    ScanKeepsSettled(clock, t, 0, batch, pages);
    var gone := Evicted(clock, t, batch, pages);
    RemoveTwice(t, gone, Sinking(clock, t) - gone);
    assert gone + (Sinking(clock, t) - gone) == Sinking(clock, t);
  }

  /** A finished sweep evicts every row that was live and stale when it began. */
  lemma SweepEvictsDoomed(clock: Clock, t: Table, batch: nat, pages: nat)
    requires batch >= 1 && 0 !in t && pages >= |t|
    ensures Doomed(clock, t) <= Evicted(clock, t, batch, pages)
  {
    hide Scan, Clock.Evictable;
    SubsetSize(Beyond(t, 0), t.Keys);
    ScanCoversLive(clock, t, 0, batch, false, pages);
  }

  /** No row is superseded by one about to be evicted. */
  predicate Unreferenced(clock: Clock, t: Table) {
    forall id :: id in t ==> t[id].supersededBy.None? || t[id].supersededBy.value !in Doomed(clock, t)
  }

  /** One pass over the table that drops the live stale rows and touches no other. */
  function Filter(clock: Clock, t: Table): Table {
    map id | id in t && id !in Doomed(clock, t) :: t[id]
  }

  /** No stale row is superseded by one about to be evicted; what else is freed stays. */
  predicate NoStaleReferences(clock: Clock, t: Table) {
    forall id :: id in t && clock.Evictable(t[id]) ==> t[id].supersededBy.None? || t[id].supersededBy.value !in Doomed(clock, t)
  }

  lemma NoStaleReferencesSinking(clock: Clock, t: Table)
    requires NoStaleReferences(clock, t)
    ensures Sinking(clock, t) == Doomed(clock, t)
  {
    hide Clock.Evictable;
    DoomedSinks(clock, t);
    forall id | id in Sinking(clock, t) ensures id in Doomed(clock, t) {
      var path :| StaleChain(clock, t, id, path);
      if |path| > 1 { ChainReferences(clock, t, id, path); }
    }
  }

  lemma ChainReferences(clock: Clock, t: Table, id: Id, path: seq<Id>)
    requires StaleChain(clock, t, id, path) && |path| > 1
    ensures !NoStaleReferences(clock, t)
  {
    hide Clock.Evictable;
    var n := |path| - 1;
    assert path[n] in Doomed(clock, t);
    assert t[path[n - 1]].supersededBy == Some(path[n - 1 + 1]);
  }

  /** A finished sweep equals the one-pass filter if and only if no row is superseded by
      a row it evicts; the batch size does not matter then. */
  lemma SweepIsFilterIff(clock: Clock, t: Table, batch: nat, pages: nat)
    requires batch >= 1 && 0 !in t && pages >= |t|
    ensures Swept(clock, t, batch, pages) == Filter(clock, t) <==> Unreferenced(clock, t)
    ensures Unreferenced(clock, t) ==> Evicted(clock, t, batch, pages) == Doomed(clock, t)
  {
    hide Evicted, Clock.Evictable, Sinking;
    SweepEvictsDoomed(clock, t, batch, pages);
    var gone := Evicted(clock, t, batch, pages);
    if Unreferenced(clock, t) {
      SweepKeepsSettled(clock, t, batch, pages);
      NoStaleReferencesSinking(clock, t);
      assert gone == Doomed(clock, t);
      assert Remove(t, gone) == Filter(clock, t);
    } else {
      var id :| id in t && t[id].supersededBy.Some? && t[id].supersededBy.value in Doomed(clock, t);
      assert id in Filter(clock, t) && Filter(clock, t)[id].supersededBy.Some?;
      assert id in Remove(t, gone) ==> Remove(t, gone)[id].supersededBy.None?;
    }
  }

  // -- repeated sweeps ------------------------------------------------------

  /** One scheduled sweep; it may be cut short. */
  datatype SweepRun = SweepRun(batch: nat, pages: nat)

  function SweptAll(clock: Clock, t: Table, runs: seq<SweepRun>): Table
    decreases |runs|
  {
    if runs == [] then t else SweptAll(clock, Swept(clock, t, runs[0].batch, runs[0].pages), runs[1..])
  }

  /** How many of the runs are sure to finish on a table of `size` rows. */
  function Finished(runs: seq<SweepRun>, size: nat): nat {
    if runs == [] then 0 else (if runs[0].pages >= size then 1 else 0) + Finished(runs[1..], size)
  }

  lemma {:induction false} FinishedGrows(runs: seq<SweepRun>, small: nat, size: nat)
    requires small <= size
    ensures Finished(runs, small) >= Finished(runs, size)
  {
    if runs != [] { FinishedGrows(runs[1..], small, size); }
  }

  lemma SettledMeansNoDoomed(clock: Clock, t: Table)
    ensures Doomed(clock, t) == {} ==> Settled(clock, t) == t
  {
    hide Sinking, Clock.Evictable;
    DoomedSinks(clock, t);
    RemoveNothing(t);
  }

  lemma SweepShrinks(clock: Clock, t: Table, batch: nat, pages: nat)
    requires batch >= 1 && 0 !in t
    ensures 0 !in Swept(clock, t, batch, pages)
    ensures |Swept(clock, t, batch, pages)| <= |t|
    ensures pages >= |t| && Doomed(clock, t) != {} ==> |Swept(clock, t, batch, pages)| < |t|
    ensures Doomed(clock, t) == {} ==> Swept(clock, t, batch, pages) == t
  {
    hide Evicted, Clock.Evictable;
    var t' := Swept(clock, t, batch, pages);
    SubsetSize(t'.Keys, t.Keys);
    if pages >= |t| && Doomed(clock, t) != {} {
      var id :| id in Doomed(clock, t);
      SweepEvictsDoomed(clock, t, batch, pages);
      SubsetSize(t'.Keys, t.Keys - {id});
    }
    if Doomed(clock, t) == {} {
      DoomedSinks(clock, t);
      SweepKeepsSettled(clock, t, batch, pages);
      RemoveNothing(t);
    }
  }

  /** Whatever the batch sizes and however many sweeps are cut short in between, enough
      finished ones always end at the same table. */
  lemma {:induction false} SweepsSettle(clock: Clock, t: Table, runs: seq<SweepRun>)
    requires 0 !in t && (forall i :: 0 <= i < |runs| ==> runs[i].batch >= 1)
    requires Doomed(clock, t) == {} || Finished(runs, |t|) >= |t|
    ensures SweptAll(clock, t, runs) == Settled(clock, t)
    decreases |runs|
  {
    hide Swept, Settled, Clock.Evictable, Doomed;
    SettledMeansNoDoomed(clock, t);
    if runs == [] {
      EmptyHasNoDoomed(clock, t);
    } else {
      var run := runs[0];
      var t' := Swept(clock, t, run.batch, run.pages);
      SweepShrinks(clock, t, run.batch, run.pages);
      SweepKeepsSettled(clock, t, run.batch, run.pages);
      FinishedGrows(runs[1..], |t'|, |t|);
      SweepsSettle(clock, t', runs[1..]);
    }
  }

  lemma EmptyHasNoDoomed(clock: Clock, t: Table)
    ensures |t| == 0 ==> Doomed(clock, t) == {}
  {
    hide Clock.Evictable;
  }

  // -- the sweeper ----------------------------------------------------------

  datatype Report = Report(scanned: nat, evicted: nat, skippedImmutable: nat, errors: nat)

  /** What examining one row adds to the report. */
  function Count(clock: Clock, row: Row, r: Report): Report {
    match PolicyOf(row.domain)
    case None => r.(scanned := r.scanned + 1, errors := r.errors + 1)
    case Some(p) =>
      if p.immutable then r.(scanned := r.scanned + 1, skippedImmutable := r.skippedImmutable + 1)
      else if clock.Evictable(row) then r.(scanned := r.scanned + 1, evicted := r.evicted + 1)
      else r.(scanned := r.scanned + 1)
  }

  function Tally(clock: Clock, t: Table, seen: seq<Id>): (r: Report)
    requires Members(seen) <= t.Keys
    decreases |seen|
  {
    if seen == [] then Report(0, 0, 0, 0)
    else
      var n := |seen| - 1;
      MembersOfConcat(seen[..n], seen[n..]);
      assert seen == seen[..n] + seen[n..];
      assert seen[n] in Members(seen);
      Count(clock, t[seen[n]], Tally(clock, t, seen[..n]))
  }

  /** The rows of a scan no policy is known for, and those a policy protects. */
  function Unknown(t: Table, ids: set<Id>): set<Id> {
    set id | id in ids && id in t && PolicyOf(t[id].domain).None?
  }

  function Protected(t: Table, ids: set<Id>): set<Id> {
    set id | id in ids && id in t && PolicyOf(t[id].domain).Some? && PolicyOf(t[id].domain).value.immutable
  }

  /** The report of a scan in id order counts sets of rows. */
  lemma {:induction false} TallyCounts(clock: Clock, t: Table, seen: seq<Id>)
    requires Members(seen) <= t.Keys && Increasing(seen)
    ensures var ids := Members(seen);
            Tally(clock, t, seen) == Report(|ids|, |Stale(clock, t, ids)|, |Protected(t, ids)|, |Unknown(t, ids)|)
    decreases |seen|
  {
    hide PolicyOf, Clock.EffectiveConfidence, Stale, Protected, Unknown;
    if seen == [] {
      assert Members(seen) == {};
      OfNone(clock, t);
    } else {
      var n := |seen| - 1;
      assert seen == seen[..n] + [seen[n]];
      assert [seen[n]][0] == seen[n];
      MembersOfConcat(seen[..n], [seen[n]]);
      assert Members(seen) == Members(seen[..n]) + {seen[n]};
      TallyCounts(clock, t, seen[..n]);
      OneMore(clock, t, Members(seen[..n]), seen[n]);
    }
  }

  lemma OfNone(clock: Clock, t: Table)
    ensures Stale(clock, t, {}) == {} && Protected(t, {}) == {} && Unknown(t, {}) == {}
  {
  }

  /** A set that gains `x` or nothing. */
  lemma Gains(was: set<Id>, now: set<Id>, x: Id, c: bool)
    requires x !in was && now == was + if c then {x} else {}
    ensures |now| == |was| + if c then 1 else 0
  {
  }

  lemma OneMore(clock: Clock, t: Table, was: set<Id>, x: Id)
    requires x in t && x !in was
    ensures var policy := PolicyOf(t[x].domain);
            && |Stale(clock, t, was + {x})| == |Stale(clock, t, was)| + (if clock.Evictable(t[x]) then 1 else 0)
            && |Protected(t, was + {x})| == |Protected(t, was)| + (if policy.Some? && policy.value.immutable then 1 else 0)
            && |Unknown(t, was + {x})| == |Unknown(t, was)| + (if policy.None? then 1 else 0)
  {
    hide PolicyOf, Clock.Evictable, Stale, Protected, Unknown;
    var policy, ids := PolicyOf(t[x].domain), was + {x};
    StaleGains(clock, t, was, x);
    Gains(Stale(clock, t, was), Stale(clock, t, ids), x, clock.Evictable(t[x]));
    ProtectedGains(t, was, x);
    Gains(Protected(t, was), Protected(t, ids), x, policy.Some? && policy.value.immutable);
    UnknownGains(t, was, x);
    Gains(Unknown(t, was), Unknown(t, ids), x, policy.None?);
  }

  lemma StaleGains(clock: Clock, t: Table, was: set<Id>, x: Id)
    requires x in t && x !in was
    ensures x !in Stale(clock, t, was)
    ensures Stale(clock, t, was + {x}) == Stale(clock, t, was) + if clock.Evictable(t[x]) then {x} else {}
  {
    hide Clock.Evictable;
  }

  lemma ProtectedGains(t: Table, was: set<Id>, x: Id)
    requires x in t && x !in was
    ensures x !in Protected(t, was)
    ensures var p := PolicyOf(t[x].domain);
            Protected(t, was + {x}) == Protected(t, was) + if p.Some? && p.value.immutable then {x} else {}
  {
    hide PolicyOf;
  }

  lemma UnknownGains(t: Table, was: set<Id>, x: Id)
    requires x in t && x !in was
    ensures x !in Unknown(t, was)
    ensures Unknown(t, was + {x}) == Unknown(t, was) + if PolicyOf(t[x].domain).None? then {x} else {}
  {
    hide PolicyOf;
  }

  /** In a dry run, and whenever no row is superseded by one that is evicted, a finished
      sweep examines exactly the live rows. */
  lemma {:induction false} ScanIsLive(clock: Clock, t: Table, cursor: Id, batch: nat, dry: bool, pages: nat)
    requires batch >= 1 && pages >= |Beyond(t, cursor)| && (dry || Unreferenced(clock, t))
    ensures Members(Scan(clock, t, cursor, batch, dry, pages)) == Ahead(t, cursor)
    decreases pages
  {
    hide Page, Clock.Evictable;
    ScanCoversLive(clock, t, cursor, batch, dry, pages);
    var page := Page(t, cursor, batch);
    if pages != 0 && page != [] && !dry {
      PageFacts(t, cursor, batch);
      var gone := Stale(clock, t, Members(page));
      var t', last := Remove(t, gone), page[|page| - 1];
      StaleOfPage(clock, t, cursor, batch);
      assert forall id :: id in t' ==> t'[id] == t[id];
      NextPageIsShorter(clock, t, cursor, batch, gone);
      ScanIsLive(clock, t', last, batch, dry, pages - 1);
      MembersOfConcat(page, Scan(clock, t', last, batch, dry, pages - 1));
    }
  }

  /** `DecayReport` of such a sweep: every count is a number of rows of the table. */
  lemma ReportCountsRows(clock: Clock, t: Table, batch: nat, dry: bool)
    requires batch >= 1 && 0 !in t && (dry || Unreferenced(clock, t))
    ensures var seen := Scan(clock, t, 0, batch, dry, |t|);
            && Members(seen) <= t.Keys
            && Tally(clock, t, seen)
               == Report(|Ahead(t, 0)|, |Doomed(clock, t)|, |Protected(t, Ahead(t, 0))|, |Unknown(t, Ahead(t, 0))|)
  {
    hide Clock.Evictable, Scan, Tally;
    SubsetSize(Beyond(t, 0), t.Keys);
    ScanIsLive(clock, t, 0, batch, dry, |t|);
    var seen := Scan(clock, t, 0, batch, dry, |t|);
    ScanIsIncreasing(clock, t, 0, batch, dry, |t|);
    TallyCounts(clock, t, seen);
    assert Stale(clock, t, Ahead(t, 0)) == Doomed(clock, t);
  }

  /** Counts do not depend on which rows have been freed since. */
  lemma CountFreed(clock: Clock, row: Row, gone: set<Id>, r: Report)
    ensures Count(clock, Freed(row, gone), r) == Count(clock, row, r)
  {
    hide PolicyOf, Clock.Evictable;
    FreedKeepsEvictable(clock, row, gone);
  }

  lemma TallySnoc(clock: Clock, t: Table, seen: seq<Id>, x: Id)
    requires Members(seen) <= t.Keys && x in t
    ensures Members(seen + [x]) == Members(seen) + {x}
    ensures Tally(clock, t, seen + [x]) == Count(clock, t[x], Tally(clock, t, seen))
  {
    hide Count;
    assert [x][0] == x;
    MembersOfConcat(seen, [x]);
    assert (seen + [x])[..|seen|] == seen;
  }

  /** The sweep loop between two pages: `seen` has been examined out of `t`, what is left
      of it is `now`, and `pages` more pages are enough. */
  ghost predicate Scanning(clock: Clock, t: Table, batch: nat, dry: bool, seen: seq<Id>, now: Table, cursor: Id, pages: nat) {
    && Members(seen) <= t.Keys
    && now == Remove(t, if dry then {} else Stale(clock, t, Members(seen)))
    && (forall x :: x in Members(seen) ==> x <= cursor)
    && pages >= |Beyond(now, cursor)|
    && 0 !in now
    && seen + Scan(clock, now, cursor, batch, dry, pages) == Scan(clock, t, 0, batch, dry, |t|)
  }

  lemma BeforeFirstPage(clock: Clock, t: Table, batch: nat, dry: bool)
    requires 0 !in t
    ensures Scanning(clock, t, batch, dry, [], t, 0, |t|) && Tally(clock, t, []) == Report(0, 0, 0, 0)
  {
    hide Scan, Clock.Evictable;
    RemoveNothing(t);
    assert Members([]) == {} && Stale(clock, t, {}) == {};
    SubsetSize(Beyond(t, 0), t.Keys);
  }

  lemma AfterPage(clock: Clock, t: Table, batch: nat, dry: bool, seen: seq<Id>, now: Table, cursor: Id, pages: nat)
    requires batch >= 1 && Scanning(clock, t, batch, dry, seen, now, cursor, pages)
    ensures var rows := Page(now, cursor, batch);
            var doomed := Stale(clock, now, Members(rows));
            var now' := if dry then now else Remove(now, doomed);
            && Members(rows) <= now.Keys
            && (rows == [] ==> seen == Scan(clock, t, 0, batch, dry, |t|))
            && (rows != [] ==> pages > 0 && Scanning(clock, t, batch, dry, seen + rows, now', rows[|rows| - 1], pages - 1))
  {
    hide Page, Clock.Evictable, Scan, Stale;
    PageFacts(now, cursor, batch);
    ScanUnfolds(clock, now, cursor, batch, dry, pages, seen);
    var rows := Page(now, cursor, batch);
    if rows != [] {
      var last := rows[|rows| - 1];
      assert last in Members(rows);
      assert last in Beyond(now, cursor);
      var doomed := Stale(clock, now, Members(rows));
      NextPageIsShorter(clock, now, cursor, batch, if dry then {} else doomed);
      RemoveNothing(now);
      MembersOfConcat(seen, rows);
      if !dry { SeenSplits(clock, t, seen, rows, now); }
      LastIsGreatest(rows);
    }
  }

  lemma SeenSplits(clock: Clock, t: Table, seen: seq<Id>, rows: seq<Id>, now: Table)
    requires now == Remove(t, Stale(clock, t, Members(seen))) && Members(rows) <= now.Keys
    ensures Remove(now, Stale(clock, now, Members(rows))) == Remove(t, Stale(clock, t, Members(seen + rows)))
  {
    var before := Stale(clock, t, Members(seen));
    hide Clock.Evictable, Stale;
    StaleSplits(clock, t, before, seen, rows);
    RemoveTwice(t, before, Stale(clock, now, Members(rows)));
  }

  lemma LastIsGreatest(rows: seq<Id>)
    requires Increasing(rows) && rows != []
    ensures forall x :: x in Members(rows) ==> x <= rows[|rows| - 1]
  {
  }

  lemma ScanUnfolds(clock: Clock, t: Table, cursor: Id, batch: nat, dry: bool, pages: nat, seen: seq<Id>)
    ensures var rows := Page(t, cursor, batch);
            && (rows == [] ==> Scan(clock, t, cursor, batch, dry, pages) == [])
            && (rows != [] && pages > 0 ==>
                  seen + Scan(clock, t, cursor, batch, dry, pages)
                  == seen + rows + Scan(clock, if dry then t else Remove(t, Stale(clock, t, Members(rows))), rows[|rows| - 1], batch, dry, pages - 1))
  {
    hide Page, Stale, Remove;
    var rows := Page(t, cursor, batch);
    if rows != [] && pages > 0 {
      var rest := Scan(clock, if dry then t else Remove(t, Stale(clock, t, Members(rows))), rows[|rows| - 1], batch, dry, pages - 1);
      assert seen + (rows + rest) == seen + rows + rest;
    }
  }

  class DecaySweeper {
    const exp: real -> real
    const batch: nat
    var table: Table

    predicate Valid() reads this { batch >= 1 && 0 !in table }

    constructor (exp: real -> real, batch: nat, table: Table)
      requires batch >= 1 && 0 !in table
      ensures Valid() && this.exp == exp && this.batch == batch && this.table == table
    {
      this.exp := exp;
      this.batch := batch;
      this.table := table;
    }

    /** The rows of one page: how they count, and which of them to evict. */
    method Examine(clock: Clock, ghost t0: Table, rows: seq<Id>, ghost seen: seq<Id>, report: Report) returns (report': Report, doomed: set<Id>)
      requires Members(rows) <= table.Keys && Members(seen) <= t0.Keys && report == Tally(clock, t0, seen)
      requires exists gone :: table == Remove(t0, gone)
      ensures Members(seen + rows) <= t0.Keys && report' == Tally(clock, t0, seen + rows)
      ensures doomed == Stale(clock, table, Members(rows))
    {
      hide Tally, PolicyOf, Clock.EffectiveConfidence;
      ghost var gone :| table == Remove(t0, gone);
      report', doomed := report, {};
      assert seen + rows[..0] == seen;
      assert Members([]) == {};
      for i := 0 to |rows|
        invariant Members(seen + rows[..i]) <= t0.Keys && report' == Tally(clock, t0, seen + rows[..i])
        invariant doomed == Stale(clock, table, Members(rows[..i]))
      {
        var id := rows[i];
        assert id in Members(rows);
        ghost var before := rows[..i];
        assert rows[..i + 1] == before + [id] && seen + rows[..i + 1] == seen + before + [id];
        TallySnoc(clock, t0, seen + before, id);
        assert [id][0] == id;
        MembersOfConcat(before, [id]);
        assert Members([id]) == {id};
        var row := table[id];
        CountFreed(clock, t0[id], gone, report');
        assert Count(clock, row, report') == Tally(clock, t0, seen + rows[..i + 1]);
        report' := report'.(scanned := report'.scanned + 1);
        var policy := PolicyOf(row.domain);
        if policy.None? {
          report' := report'.(errors := report'.errors + 1);
        } else if policy.value.immutable {
          report' := report'.(skippedImmutable := report'.skippedImmutable + 1);
        } else if clock.EffectiveConfidence(policy.value, row.initialConfidence, row.lastQueried) < policy.value.pruneFloor {
          doomed := doomed + {id};
          report' := report'.(evicted := report'.evicted + 1);
        }
      }
      assert rows[..|rows|] == rows;
    }

    /** `sweep`: keyset pages, deleting while scanning. */
    method Sweep(now: real, dryRun: bool) returns (report: Report)
      requires Valid()
      modifies this
      ensures Valid()
      ensures var clock := Clock(now, exp);
              var t := old(table);
              var seen := Scan(clock, t, 0, batch, dryRun, |t|);
              && Members(seen) <= t.Keys && report == Tally(clock, t, seen)
              && table == (if dryRun then t else Swept(clock, t, batch, |t|))
              && (!dryRun ==> (table == Filter(clock, t) <==> Unreferenced(clock, t)))
    {
      hide Tally, Clock.Evictable, Page, Stale, Remove, Filter, Unreferenced;
      var clock := Clock(now, exp);
      ghost var t := table;
      ghost var pages: nat := |t|;
      ghost var seen: seq<Id> := [];
      report := Report(0, 0, 0, 0);
      var cursor := 0;
      BeforeFirstPage(clock, t, batch, dryRun);
      while true
        invariant Scanning(clock, t, batch, dryRun, seen, table, cursor, pages)
        invariant report == Tally(clock, t, seen)
        decreases pages
      {
        var rows := Page(table, cursor, batch);
        AfterPage(clock, t, batch, dryRun, seen, table, cursor, pages);
        if rows == [] { break; }
        var last, doomed := rows[|rows| - 1], {};
        report, doomed := Examine(clock, t, rows, seen, report);
        RemoveNothing(table);
        cursor := last;
        if doomed != {} && !dryRun { table := Remove(table, doomed); }
        seen, pages := seen + rows, pages - 1;
      }
      SweepIsFilterIff(clock, t, batch, |t|);
    }
  }

  // -- the counterexample ---------------------------------------------------

  /** Fact 2 was superseded by fact 1; both are stale, and fact 3 is kept for ever. */
  function ChainedTable(): Table {
    map[1 := Row(None, Semantic, 0.0, 0.0, "b"),
        2 := Row(Some(1), Semantic, 0.0, 0.0, "a"),
        3 := Row(None, Episodic, 1.0, 0.0, "c")]
  }

  lemma FirstIsMember(q: seq<Id>)
    requires q != []
    ensures q[0] in Members(q)
  {
  }

  lemma {:induction false} SortedIs(s: set<Id>, q: seq<Id>)
    requires Increasing(q) && Members(q) == s
    ensures Sorted(s) == q
  {
    if s != {} {
      var i :| 0 <= i < |q| && q[i] == Least(s);
      assert q[0] in Members(q);
      assert i > 0 ==> q[0] < q[i];
      assert q == [q[0]] + q[1..];
      MembersOfConcat([q[0]], q[1..]);
      assert Members([q[0]]) == {q[0]} by { assert [q[0]][0] == q[0]; }
      assert forall j :: 0 <= j < |q[1..]| ==> q[1..][j] > q[0];
      SortedIs(s - {q[0]}, q[1..]);
    } else if q != [] {
      FirstIsMember(q);
    }
  }

  lemma PageIs(t: Table, cursor: Id, batch: nat, q: seq<Id>)
    requires Increasing(q) && Members(q) == Ahead(t, cursor)
    ensures Page(t, cursor, batch) == if |q| <= batch then q else q[..batch]
  {
    SortedIs(Ahead(t, cursor), q);
  }

  lemma ChainedRows(clock: Clock)
    ensures var t := ChainedTable();
            clock.Evictable(t[1]) && clock.Evictable(t[2]) && !clock.Evictable(t[3])
  {
  }

  lemma MembersOfUpToThree(a: Id, b: Id, c: Id)
    ensures Members([a]) == {a} && Members([a, b]) == {a, b} && Members([a, b, c]) == {a, b, c}
  {
    assert [a][0] == a && [a, b][0] == a && [a, b][1] == b;
    var s := [a, b, c];
    assert s[0] == a && s[1] == b && s[2] == c;
  }

  /** One row at a time, the scan reaches the row its first eviction frees. */
  lemma SmallPages(clock: Clock, pages: nat)
    requires pages >= 3
    ensures Scan(clock, ChainedTable(), 0, 1, false, pages) == [1, 2, 3]
  {
    hide Page, Clock.Evictable, Sorted, Members;
    var t := ChainedTable();
    ChainedRows(clock);
    MembersOfUpToThree(1, 3, 3);
    assert Ahead(t, 0) == {1, 3};
    PageIs(t, 0, 1, [1, 3]);
    var t1 := Remove(t, {1});
    assert Stale(clock, t, {1}) == {1};
    assert [1, 3][..1] == [1];
    assert Scan(clock, t, 0, 1, false, pages) == [1] + Scan(clock, t1, 1, 1, false, pages - 1);
    FreedKeepsEvictable(clock, t[2], {1});
    SmallPagesRest(clock, t1, pages - 1);
  }

  lemma SmallPagesRest(clock: Clock, t: Table, pages: nat)
    requires pages >= 2 && t.Keys == {2, 3} && t[2].supersededBy.None? && t[3].supersededBy.None?
    requires clock.Evictable(t[2]) && !clock.Evictable(t[3])
    ensures Scan(clock, t, 1, 1, false, pages) == [2, 3]
  {
    hide Page, Clock.Evictable, Sorted, Members;
    MembersOfUpToThree(2, 3, 3);
    assert Ahead(t, 1) == {2, 3};
    PageIs(t, 1, 1, [2, 3]);
    var t1 := Remove(t, {2});
    assert Stale(clock, t, {2}) == {2};
    assert [2, 3][..1] == [2];
    assert Scan(clock, t, 1, 1, false, pages) == [2] + Scan(clock, t1, 2, 1, false, pages - 1);
    MembersOfUpToThree(3, 3, 3);
    assert Ahead(t1, 2) == {3};
    PageIs(t1, 2, 1, [3]);
    PageFacts(t1, 3, 1);
    assert Ahead(t1, 3) == {};
    assert Stale(clock, t1, {3}) == {};
    RemoveNothing(t1);
    assert Scan(clock, t1, 2, 1, false, pages - 1) == [3] + Scan(clock, t1, 3, 1, false, pages - 2);
  }

  /** In one page of two, the freed row is already behind the cursor. */
  lemma LargePages(clock: Clock, pages: nat)
    requires pages >= 1
    ensures Scan(clock, ChainedTable(), 0, 2, false, pages) == [1, 3]
  {
    hide Page, Clock.Evictable, Sorted, Members;
    var t := ChainedTable();
    ChainedRows(clock);
    MembersOfUpToThree(1, 3, 3);
    assert Ahead(t, 0) == {1, 3};
    PageIs(t, 0, 2, [1, 3]);
    assert Stale(clock, t, {1, 3}) == {1};
    var t1 := Remove(t, {1});
    PageFacts(t1, 3, 2);
    assert Ahead(t1, 3) == {};
    assert Scan(clock, t, 0, 2, false, pages) == [1, 3] + Scan(clock, t1, 3, 2, false, pages - 1);
  }

  /** The batch size decides which rows survive, and a fact that was superseded when the
      sweep began is evicted by it. */
  lemma BatchSizeMatters(clock: Clock, pages: nat)
    requires pages >= 3
    ensures var t := ChainedTable();
            && Evicted(clock, t, 1, pages) == {1, 2} && Evicted(clock, t, 2, pages) == {1}
            && 2 in Swept(clock, t, 2, pages) && t[2].supersededBy == Some(1) && Swept(clock, t, 2, pages)[2].supersededBy == None
  {
    hide Scan, Clock.Evictable, Members;
    SmallPages(clock, pages);
    LargePages(clock, pages);
    ChainedRows(clock);
    MembersOfUpToThree(1, 2, 3);
    MembersOfUpToThree(1, 3, 3);
  }

  /** A second sweep at the same reference time can evict more: the row the first one
      freed behind its cursor. */
  lemma SecondSweepEvictsMore(clock: Clock, pages: nat)
    requires pages >= 3
    ensures var once := Swept(clock, ChainedTable(), 2, pages);
            2 in once && 2 !in Swept(clock, once, 2, pages)
  {
    hide Scan, Clock.Evictable, Members;
    var t := ChainedTable();
    ChainedRows(clock);
    LargePages(clock, pages);
    MembersOfUpToThree(1, 3, 3);
    assert Evicted(clock, t, 2, pages) == {1};
    FreedKeepsEvictable(clock, t[2], {1});
    SweepMoreAfter(clock, Remove(t, {1}), pages);
  }

  lemma SweepMoreAfter(clock: Clock, once: Table, pages: nat)
    requires pages >= 3 && once.Keys == {2, 3} && once[2].supersededBy.None? && clock.Evictable(once[2])
    ensures 2 !in Swept(clock, once, 2, pages)
  {
    hide Evicted, Clock.Evictable;
    assert |once| == |once.Keys| == 2;
    assert 2 in Doomed(clock, once);
    SweepEvictsDoomed(clock, once, 2, pages);
  }
}
