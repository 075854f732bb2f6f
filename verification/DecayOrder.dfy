/** Exactly when eviction sweeps can be interrupted and repeated, and exactly when they leave
    superseded rows alone (`src/paa/memory/decay.py`). */
module DecayOrder {
  import opened Ledger
  import opened Collections
  import opened Decay

  // -- idempotent and interruptible -----------------------------------------

  lemma SweptKeys(clock: Clock, t: Table, batch: nat, cut: nat)
    requires 0 !in t
    ensures 0 !in Swept(clock, t, batch, cut) && |Swept(clock, t, batch, cut)| <= |t|
  {
    hide Evicted;
    SubsetSize(Swept(clock, t, batch, cut).Keys, t.Keys);
  }

  /** Interruptible, and so idempotent, at every batch size. */
  ghost predicate Interruptible(clock: Clock, t: Table, pages: nat) {
    forall batch: nat, batch': nat, cut: nat :: batch >= 1 && batch' >= 1 ==>
      Swept(clock, Swept(clock, t, batch, cut), batch', pages) == Swept(clock, t, batch', pages)
  }

  /** A stale row superseded by the sinking row `s`. */
  ghost predicate Waits(clock: Clock, t: Table, id: Id, s: Id) {
    id in t && clock.Evictable(t[id]) && t[id].supersededBy == Some(s) && s in Sinking(clock, t)
  }

  /** A row that is live before `s` is evicted, if eviction goes by ids: one that is live, or
      one superseded by a sinking row with a smaller id. */
  ghost predicate LiveBefore(clock: Clock, t: Table, x: Id, s: Id) {
    x in t && (t[x].supersededBy.None? || (t[x].supersededBy.value < s && t[x].supersededBy.value in Sinking(clock, t)))
  }

  /** Every stale row is freed ahead of all rows that are live by then. */
  ghost predicate InOrder(clock: Clock, t: Table) {
    forall id, s, x :: Waits(clock, t, id, s) && LiveBefore(clock, t, x, s) && x != id ==> x < id
  }

  /** The same for the rows freed next. */
  ghost predicate FreesAhead(clock: Clock, t: Table) {
    forall id, x :: FreedNext(clock, t, id) && Live(t, x) ==> x < id
  }

  predicate FreedNext(clock: Clock, t: Table, id: Id) {
    id in t && clock.Evictable(t[id]) && t[id].supersededBy.Some? && t[id].supersededBy.value in Doomed(clock, t)
  }

  // - enough

  /** In order, all that is left to evict lies past the page. */
  lemma SinkingIsAhead(clock: Clock, t: Table, id: Id, x: Id)
    requires InOrder(clock, t) && id in Sinking(clock, t) && id !in Doomed(clock, t) && x in t && t[x].supersededBy.None?
    ensures x < id
  {
    var s := NextOnChain(clock, t, id);
    hide Clock.Evictable, Sinking, Sinks, Doomed;
    assert Waits(clock, t, id, s) && LiveBefore(clock, t, x, s);
  }

  /** A sinking row that is not live is superseded by a sinking row. */
  lemma NextOnChain(clock: Clock, t: Table, id: Id) returns (s: Id)
    requires id in Sinking(clock, t) && id !in Doomed(clock, t)
    ensures Waits(clock, t, id, s) && t[id].supersededBy.Some?
  {
    hide Clock.Evictable;
    var path :| StaleChain(clock, t, id, path);
    s := path[1];
    assert StaleChain(clock, t, s, path[1..]);
    assert t[path[0]].supersededBy == Some(path[0 + 1]);
  }

  /** Evicting the doomed rows up to `last` keeps the order. */
  lemma InOrderAfterPage(clock: Clock, t: Table, gone: set<Id>, last: Id)
    requires InOrder(clock, t) && gone <= Doomed(clock, t) && last in t && t[last].supersededBy.None?
    requires forall d :: d in Doomed(clock, t) ==> (d in gone <==> d <= last)
    ensures var t' := Remove(t, gone);
            InOrder(clock, t') && forall d :: d in Sinking(clock, t') ==> d > last
  {
    var t' := Remove(t, gone);
    SinkingAfterRemove(clock, t, gone);
    hide Clock.Evictable, Sinking, Doomed;
    forall d | d in Sinking(clock, t') ensures d > last {
      if d !in Doomed(clock, t) { SinkingIsAhead(clock, t, d, last); }
    }
    forall id, s, x | Waits(clock, t', id, s) && LiveBefore(clock, t', x, s) && x != id ensures x < id {
      FreedKeepsEvictable(clock, t[id], gone);
      assert Waits(clock, t, id, s);
      assert LiveBefore(clock, t, x, s) by { DoomedSinks(clock, t); }
    }
  }

  /** Then a scan evicts everything there is to evict, and wherever it is cut the order is
      kept. */
  lemma {:induction false} InOrderScan(clock: Clock, t: Table, cursor: Id, batch: nat, pages: nat)
    requires batch >= 1 && InOrder(clock, t) && forall d :: d in Doomed(clock, t) ==> d > cursor
    ensures var gone := Stale(clock, t, Members(Scan(clock, t, cursor, batch, false, pages)));
            && InOrder(clock, Remove(t, gone))
            && (pages >= |Beyond(t, cursor)| ==> Sinking(clock, Remove(t, gone)) == {})
    decreases pages
  {
    hide *;
    var page := Page(t, cursor, batch);
    if pages == 0 || page == [] {
      ScanStops(clock, t, cursor, batch, pages);
      RemoveNothing(t);
      NothingLeft(clock, t, cursor, batch, pages);
    } else {
      ScanStep(clock, t, cursor, batch, pages);
      StaleOfPage(clock, t, cursor, batch);
      DoomedOfPage(clock, t, cursor, batch);
      var gone, last := Stale(clock, t, Members(page)), page[|page| - 1];
      var t' := Remove(t, gone);
      var rest := Scan(clock, t', last, batch, false, pages - 1);
      InOrderAfterPage(clock, t, gone, last);
      DoomedSinks(clock, t');
      NextPageIsShorter(clock, t, cursor, batch, gone);
      InOrderScan(clock, t', last, batch, pages - 1);
      ScanIsIncreasing(clock, t', last, batch, false, pages - 1);
      RestSurvives(clock, t, gone, rest, last);
      StaleSplits(clock, t, gone, page, rest);
      RemoveTwice(t, gone, Stale(clock, t', Members(rest)));
    }
  }

  lemma NothingLeft(clock: Clock, t: Table, cursor: Id, batch: nat, pages: nat)
    requires batch >= 1 && (pages == 0 || Page(t, cursor, batch) == []) && forall d :: d in Doomed(clock, t) ==> d > cursor
    ensures pages >= |Beyond(t, cursor)| ==> Sinking(clock, t) == {}
  {
    PageFacts(t, cursor, batch);
    DoomedSinks(clock, t);
    hide Clock.Evictable, Sinking, Page;
    assert Doomed(clock, t) <= Ahead(t, cursor) <= Beyond(t, cursor);
    assert pages >= |Beyond(t, cursor)| ==> Beyond(t, cursor) == {} || Ahead(t, cursor) == {};
  }

  /** A page past which every doomed row lies evicts them up to its last id. */
  lemma DoomedOfPage(clock: Clock, t: Table, cursor: Id, batch: nat)
    requires batch >= 1 && Page(t, cursor, batch) != [] && forall d :: d in Doomed(clock, t) ==> d > cursor
    ensures var page := Page(t, cursor, batch);
            var last := page[|page| - 1];
            && last in t && t[last].supersededBy.None?
            && forall d :: d in Doomed(clock, t) ==> (d in Stale(clock, t, Members(page)) <==> d <= last)
  {
    hide Page, Clock.Evictable;
    PageFacts(t, cursor, batch);
    LastIsGreatest(Page(t, cursor, batch));
    LastIsMember(Page(t, cursor, batch));
  }

  lemma LastIsMember(page: seq<Id>)
    requires page != []
    ensures page[|page| - 1] in Members(page)
  {
  }

  lemma InOrderSettles(clock: Clock, t: Table, batch: nat, pages: nat)
    requires batch >= 1 && 0 !in t && pages >= |t| && InOrder(clock, t)
    ensures Swept(clock, t, batch, pages) == Settled(clock, t)
  {
    DoomedIsPositive(clock, t);
    SubsetSize(Beyond(t, 0), t.Keys);
    hide *;
    InOrderScan(clock, t, 0, batch, pages);
    ScanKeepsSettled(clock, t, 0, batch, pages);
    AllSunk(clock, t, batch, pages);
  }

  lemma DoomedIsPositive(clock: Clock, t: Table)
    requires 0 !in t
    ensures forall d :: d in Doomed(clock, t) ==> d > 0
  {
  }

  lemma AllSunk(clock: Clock, t: Table, batch: nat, pages: nat)
    requires var gone := Stale(clock, t, Members(Scan(clock, t, 0, batch, false, pages)));
             && gone <= Sinking(clock, t) && Sinking(clock, Remove(t, gone)) == Sinking(clock, t) - gone
             && Sinking(clock, Remove(t, gone)) == {}
    ensures Swept(clock, t, batch, pages) == Settled(clock, t)
  {
    hide Scan, Sinking, Stale, Members;
    assert Evicted(clock, t, batch, pages) == Sinking(clock, t);
  }

  lemma InOrderAfterCut(clock: Clock, t: Table, batch: nat, cut: nat)
    requires batch >= 1 && 0 !in t && InOrder(clock, t)
    ensures InOrder(clock, Swept(clock, t, batch, cut))
  {
    DoomedIsPositive(clock, t);
    InOrderScan(clock, t, 0, batch, cut);
    hide InOrder, Scan;
  }

  // - necessary

  /** When the next row to go is `p`, a row with a smaller id that waits for another sinking
      row leaves a greater one live. */
  lemma GreaterStaysLive(clock: Clock, t: Table, id: Id, s: Id, p: Id) returns (x: Id)
    requires FreesAhead(clock, t) && Waits(clock, t, id, s) && s != p && p in Doomed(clock, t) && id < p
    requires forall d :: d in Doomed(clock, t) ==> d >= p
    ensures x in Remove(t, {p}) && Remove(t, {p})[x].supersededBy.None? && x > id
  {
    hide Clock.Evictable;
    var path :| StaleChain(clock, t, s, path);
    var n := |path| - 1;
    assert path[n] in Doomed(clock, t);
    if path[n] != p {
      x := path[n];
    } else {
      x := path[n - 1];
      assert t[path[n - 1]].supersededBy == Some(path[n - 1 + 1]);
      assert FreedNext(clock, t, x) && Live(t, p);
    }
  }

  /** Disorder outlives the next eviction, unless it is about the rows freed next. */
  lemma DisorderRemains(clock: Clock, t: Table, p: Id)
    requires !InOrder(clock, t) && FreesAhead(clock, t) && p in Doomed(clock, t) && forall d :: d in Doomed(clock, t) ==> d >= p
    ensures !InOrder(clock, Remove(t, {p}))
  {
    var t' := Remove(t, {p});
    var id, s, x :| Waits(clock, t, id, s) && LiveBefore(clock, t, x, s) && x != id && x > id;
    hide Clock.Evictable, Sinking, FreesAhead, Sinks;
    if s == p {
      var y := SinksBeforeDoomed(clock, t, id, x, p);
      var z := NextOnChain(clock, t, y);
      StillDisorder(clock, t, y, z, p);
    } else if x == p {
      StillDisorder(clock, t, id, s, p);
    } else {
      SinkingAfterRemove(clock, t, {p});
      FreedKeepsEvictable(clock, t[id], {p});
      hide Doomed;
      assert Waits(clock, t', id, s) && LiveBefore(clock, t', x, s);
    }
  }

  /** Only a sinking row with a smaller id than the next to go can make disorder about it. */
  lemma SinksBeforeDoomed(clock: Clock, t: Table, id: Id, x: Id, p: Id) returns (y: Id)
    requires FreesAhead(clock, t) && Waits(clock, t, id, p) && p in Doomed(clock, t) && LiveBefore(clock, t, x, p) && x > id
    requires forall d :: d in Doomed(clock, t) ==> d >= p
    ensures y in Sinking(clock, t) && y < p && y !in Doomed(clock, t)
  {
    hide Clock.Evictable, Sinking;
    assert FreedNext(clock, t, id) && (t[x].supersededBy.None? ==> Live(t, x));
    y := t[x].supersededBy.value;
  }

  lemma StillDisorder(clock: Clock, t: Table, id: Id, s: Id, p: Id)
    requires FreesAhead(clock, t) && Waits(clock, t, id, s) && p in Doomed(clock, t) && id < p
    requires forall d :: d in Doomed(clock, t) ==> d >= p
    ensures !InOrder(clock, Remove(t, {p}))
  {
    SinkingAfterRemove(clock, t, {p});
    FreedKeepsEvictable(clock, t[id], {p});
    assert Live(t, p) && (s == p ==> FreedNext(clock, t, id));
    var x := GreaterStaysLive(clock, t, id, s, p);
    hide Clock.Evictable, Sinking, Doomed;
    assert Waits(clock, Remove(t, {p}), id, s) && LiveBefore(clock, Remove(t, {p}), x, s);
  }

  /** One row a page, a scan of rows out of order comes to a point where the next eviction
      frees a stale row behind a live one. */
  lemma {:induction false} ComesToDisorder(clock: Clock, t: Table, cursor: Id) returns (k: nat)
    requires !InOrder(clock, t) && forall d :: d in Doomed(clock, t) ==> d > cursor
    ensures !FreesAhead(clock, Remove(t, Stale(clock, t, Members(Scan(clock, t, cursor, 1, false, k)))))
    decreases |Beyond(t, cursor)|
  {
    hide *;
    if !FreesAhead(clock, t) {
      k := 0;
      ScanStops(clock, t, cursor, 1, 0);
      RemoveNothing(t);
    } else {
      var d := SomeDoomed(clock, t);
      DoomedIsAhead(clock, t, cursor, d);
      var p := PageOfOne(t, cursor, d);
      var gone := Stale(clock, t, {p});
      var t' := Remove(t, gone);
      NextPageIsShorter(clock, t, cursor, 1, gone);
      OneEvicted(clock, t, cursor, p);
      if gone != {} { DisorderRemains(clock, t, p); } else { RemoveNothing(t); }
      var rest := ComesToDisorder(clock, t', p);
      k := rest + 1;
      ScanStep(clock, t, cursor, 1, k);
      var seen := Scan(clock, t', p, 1, false, rest);
      ScanIsIncreasing(clock, t', p, 1, false, rest);
      RestSurvives(clock, t, gone, seen, p);
      StaleSplits(clock, t, gone, [p], seen);
      RemoveTwice(t, gone, Stale(clock, t', Members(seen)));
    }
  }

  lemma SomeDoomed(clock: Clock, t: Table) returns (d: Id)
    requires !InOrder(clock, t)
    ensures d in Doomed(clock, t)
  {
    DoomedSinks(clock, t);
    hide Clock.Evictable, Sinking, Doomed;
    assert Sinking(clock, t) != {};
    d :| d in Doomed(clock, t);
  }

  /** The smallest live row past the cursor, when all doomed rows are past it: it is the
      next to go or stays, and what is doomed afterwards lies past it. */
  lemma OneEvicted(clock: Clock, t: Table, cursor: Id, p: Id)
    requires FreesAhead(clock, t) && Page(t, cursor, 1) == [p] && Members([p]) == {p} && p in t && t[p].supersededBy.None?
    requires forall d :: d in Doomed(clock, t) ==> d > cursor
    ensures var gone := Stale(clock, t, {p});
            && (gone == {} || (gone == {p} && p in Doomed(clock, t)))
            && (forall d :: d in Doomed(clock, t) ==> d >= p)
            && forall d :: d in Doomed(clock, Remove(t, gone)) ==> d > p
  {
    PageFacts(t, cursor, 1);
    hide Page, Clock.Evictable, FreesAhead;
    assert forall d :: d in Doomed(clock, t) ==> d in Ahead(t, cursor);
    assert forall d :: d in Doomed(clock, t) ==> d >= p;
    forall d | d in Doomed(clock, Remove(t, Stale(clock, t, {p}))) ensures d > p { DoomedAfterOne(clock, t, p, d); }
  }

  lemma DoomedAfterOne(clock: Clock, t: Table, p: Id, d: Id)
    requires FreesAhead(clock, t) && p in t && t[p].supersededBy.None? && forall d :: d in Doomed(clock, t) ==> d >= p
    requires d in Doomed(clock, Remove(t, Stale(clock, t, {p})))
    ensures d > p
  {
    hide Clock.Evictable;
    FreedKeepsEvictable(clock, t[d], Stale(clock, t, {p}));
    if t[d].supersededBy.Some? {
      assert FreedNext(clock, t, d) && Live(t, p);
    } else {
      assert d in Doomed(clock, t) && d !in Stale(clock, t, {p});
      assert d in {p} ==> d in Stale(clock, t, {p});
    }
  }

  /** From there a sweep with one page for everything leaves the freed row behind. */
  lemma FreedRowIsMissed(clock: Clock, t: Table, batch: nat, pages: nat) returns (id: Id)
    requires !FreesAhead(clock, t) && batch >= 1 && batch >= |t| && 0 !in t && pages >= |t|
    ensures id in Doomed(clock, Swept(clock, t, batch, pages))
  {
    var x: Id;
    id, x :| FreedNext(clock, t, id) && Live(t, x) && x >= id;
    SweepEvictsDoomed(clock, t, batch, pages);
    MissedByOnePage(clock, t, batch, pages, id, x);
    FreedKeepsEvictable(clock, t[id], Evicted(clock, t, batch, pages));
    hide Clock.Evictable, Evicted;
  }

  lemma MissedByOnePage(clock: Clock, t: Table, batch: nat, pages: nat, id: Id, x: Id)
    requires batch >= 1 && batch >= |t| && 0 !in t && id in t && t[id].supersededBy.Some? && x in t && t[x].supersededBy.None? && id <= x
    ensures id !in Evicted(clock, t, batch, pages)
  {
    SubsetSize(Ahead(t, 0), t.Keys);
    PageFacts(t, 0, batch);
    var page := Page(t, 0, batch);
    assert Members(page) == Ahead(t, 0) && x in Members(page);
    LastIsGreatest(page);
    hide Page, Clock.Evictable, Sorted;
    if pages > 0 {
      ScanStep(clock, t, 0, batch, pages);
      var last := page[|page| - 1];
      var t' := Remove(t, Stale(clock, t, Members(page)));
      var rest := Scan(clock, t', last, batch, false, pages - 1);
      ScanIsIncreasing(clock, t', last, batch, false, pages - 1);
      hide Scan, Increasing;
      MembersOfConcat(page, rest);
      assert id !in Members(rest) && id !in Members(page);
    } else {
      NoMembers();
    }
  }

  lemma NoMembers()
    ensures Members([]) == {}
  {
  }

  /** The exact condition, on every table: sweeps can be cut short anywhere and repeated, at
      all batch sizes, if and only if every stale row superseded by a sinking row comes after
      all rows that are live before that row is evicted. */
  lemma InterruptibleIff(clock: Clock, t: Table, pages: nat)
    requires 0 !in t && pages >= |t|
    ensures Interruptible(clock, t, pages) <==> InOrder(clock, t)
  {
    DoomedIsPositive(clock, t);
    hide InOrder, Swept, Settled, Doomed, Clock.Evictable;
    if InOrder(clock, t) {
      forall batch: nat, batch': nat, cut: nat | batch >= 1 && batch' >= 1
        ensures Swept(clock, Swept(clock, t, batch, cut), batch', pages) == Swept(clock, t, batch', pages)
      {
        SweptKeys(clock, t, batch, cut);
        InOrderAfterCut(clock, t, batch, cut);
        SweepKeepsSettled(clock, t, batch, cut);
        InOrderSettles(clock, t, batch', pages);
        InOrderSettles(clock, Swept(clock, t, batch, cut), batch', pages);
      }
    } else {
      Disturbed(clock, t, pages);
    }
  }

  lemma Disturbed(clock: Clock, t: Table, pages: nat)
    requires 0 !in t && pages >= |t| && !InOrder(clock, t)
    ensures !Interruptible(clock, t, pages)
  {
    DoomedIsPositive(clock, t);
    var k := ComesToDisorder(clock, t, 0);
    var all := |t| + 1;
    var cut := Swept(clock, t, 1, k);
    SweptKeys(clock, t, 1, k);
    var id := FreedRowIsMissed(clock, cut, all, pages);
    var once := Swept(clock, t, all, pages);
    SweptKeys(clock, t, all, pages);
    hide InOrder, FreesAhead, Scan, Clock.Evictable;
    if Interruptible(clock, t, pages) {
      assert Swept(clock, cut, all, pages) == once;
      assert Swept(clock, once, all, pages) == once;
      SweepEvictsDoomed(clock, once, all, pages);
    }
  }

  /** The simplest way to be in order: no stale row is superseded by a doomed one. Then an
      interrupted sweep followed by a full one ends where one full sweep does. */
  lemma InterruptionIsHarmless(clock: Clock, t: Table, pages: nat)
    requires 0 !in t && pages >= |t| && NoStaleReferences(clock, t)
    ensures Interruptible(clock, t, pages)
  {
    NoStaleReferencesSinking(clock, t);
    InterruptibleIff(clock, t, pages);
    hide Clock.Evictable, Interruptible, Sinking, Doomed;
    assert forall id, s :: !Waits(clock, t, id, s);
  }

  // -- rows that were superseded when the sweep began -----------------------

  /** Every stale row superseded by a doomed one comes before it in the scan. */
  predicate FreedBehind(clock: Clock, t: Table, cursor: Id) {
    forall id :: id in t && clock.Evictable(t[id]) && t[id].supersededBy.Some? && t[id].supersededBy.value > cursor ==>
      t[id].supersededBy.value in Doomed(clock, t) ==> id < t[id].supersededBy.value
  }

  /** Then whatever a page frees is behind the cursor already. */
  lemma FreedBehindAfterPage(clock: Clock, t: Table, cursor: Id, gone: set<Id>, last: Id)
    requires FreedBehind(clock, t, cursor) && cursor <= last && gone <= Doomed(clock, t) && forall d :: d in gone ==> cursor < d <= last
    ensures var t' := Remove(t, gone);
            && FreedBehind(clock, t', last)
            && forall id :: id in Doomed(clock, t') && id > last ==> id in Doomed(clock, t)
  {
    hide Clock.Evictable;
    var t' := Remove(t, gone);
    forall id | id in t' ensures clock.Evictable(t'[id]) == clock.Evictable(t[id]) { FreedKeepsEvictable(clock, t[id], gone); }
    forall id | id in Doomed(clock, t') && id > last ensures id in Doomed(clock, t) { }
    forall id | id in t' && clock.Evictable(t'[id]) && t'[id].supersededBy.Some? && t'[id].supersededBy.value > last
                && t'[id].supersededBy.value in Doomed(clock, t')
      ensures id < t'[id].supersededBy.value
    {
      assert t'[id] == t[id];
    }
  }

  lemma ScanStep(clock: Clock, t: Table, cursor: Id, batch: nat, pages: nat)
    requires pages > 0 && Page(t, cursor, batch) != []
    ensures var page := Page(t, cursor, batch);
            Scan(clock, t, cursor, batch, false, pages)
            == page + Scan(clock, Remove(t, Stale(clock, t, Members(page))), page[|page| - 1], batch, false, pages - 1)
  {
    hide Page, Stale, Remove, Members;
  }

  lemma PageIsPast(clock: Clock, t: Table, cursor: Id, batch: nat)
    requires batch >= 1 && Page(t, cursor, batch) != []
    ensures var page := Page(t, cursor, batch);
            cursor <= page[|page| - 1] && forall d :: d in Stale(clock, t, Members(page)) ==> cursor < d <= page[|page| - 1]
  {
    hide Page, Clock.Evictable;
    PageFacts(t, cursor, batch);
    LastIsGreatest(Page(t, cursor, batch));
  }

  lemma RestSurvives(clock: Clock, t: Table, gone: set<Id>, rest: seq<Id>, last: Id)
    requires Members(rest) <= Beyond(Remove(t, gone), last)
    ensures forall x :: x in Members(rest) ==> x in t && x !in gone
  {
    hide Clock.Evictable, Members;
  }

  lemma StaleIsMember(clock: Clock, t: Table, ids: set<Id>, x: Id, last: Id)
    requires x in Stale(clock, t, ids) && ids <= Beyond(t, last)
    ensures x > last
  {
  }

  lemma {:induction false} ScanEvictsOnlyDoomed(clock: Clock, t: Table, cursor: Id, batch: nat, pages: nat)
    requires batch >= 1 && FreedBehind(clock, t, cursor)
    ensures Stale(clock, t, Members(Scan(clock, t, cursor, batch, false, pages))) <= Doomed(clock, t)
    decreases pages
  {
    hide *;
    var page := Page(t, cursor, batch);
    if pages == 0 || page == [] {
      ScanStops(clock, t, cursor, batch, pages);
    } else {
      StaleOfPage(clock, t, cursor, batch);
      PageIsPast(clock, t, cursor, batch);
      ScanStep(clock, t, cursor, batch, pages);
      var gone, last := Stale(clock, t, Members(page)), page[|page| - 1];
      var t' := Remove(t, gone);
      var rest := Scan(clock, t', last, batch, false, pages - 1);
      FreedBehindAfterPage(clock, t, cursor, gone, last);
      ScanEvictsOnlyDoomed(clock, t', last, batch, pages - 1);
      ScanIsIncreasing(clock, t', last, batch, false, pages - 1);
      RestSurvives(clock, t, gone, rest, last);
      StaleSplits(clock, t, gone, page, rest);
      forall x | x in Stale(clock, t', Members(rest)) ensures x in Doomed(clock, t) {
        StaleIsMember(clock, t', Members(rest), x, last);
      }
    }
  }

  lemma ScanStops(clock: Clock, t: Table, cursor: Id, batch: nat, pages: nat)
    requires pages == 0 || Page(t, cursor, batch) == []
    ensures Stale(clock, t, Members(Scan(clock, t, cursor, batch, false, pages))) == {}
  {
    hide Page, Clock.Evictable;
    assert Members([]) == {};
  }

  /** One row a page, the scan comes to every stale row ahead of the doomed row that
      superseded it. */
  lemma {:induction false} SmallPagesReachFreed(clock: Clock, t: Table, cursor: Id, pages: nat, d: Id, id: Id)
    requires pages >= |Beyond(t, cursor)| && d in Doomed(clock, t) && cursor < d < id
    requires id in t && clock.Evictable(t[id]) && t[id].supersededBy == Some(d)
    ensures id in Members(Scan(clock, t, cursor, 1, false, pages))
    decreases pages
  {
    hide *;
    DoomedIsAhead(clock, t, cursor, d);
    var p := PageOfOne(t, cursor, d);
    NothingBeyond(t, cursor);
    ScanStep(clock, t, cursor, 1, pages);
    var gone := Stale(clock, t, {p});
    var t' := Remove(t, gone);
    NextPageIsShorter(clock, t, cursor, 1, gone);
    FreedAfterOne(clock, t, p, d, id);
    if p == d {
      ScanCoversLive(clock, t', p, 1, false, pages - 1);
    } else {
      SmallPagesReachFreed(clock, t', p, pages - 1, d, id);
    }
    MembersOfConcat([p], Scan(clock, t', p, 1, false, pages - 1));
  }

  lemma NothingBeyond(t: Table, cursor: Id)
    ensures Beyond(t, cursor) != {} ==> |Beyond(t, cursor)| > 0
  {
  }

  lemma DoomedIsAhead(clock: Clock, t: Table, cursor: Id, d: Id)
    requires d in Doomed(clock, t) && cursor < d
    ensures d in Ahead(t, cursor) && Beyond(t, cursor) != {}
  {
    assert d in Beyond(t, cursor);
  }

  lemma PageOfOne(t: Table, cursor: Id, d: Id) returns (p: Id)
    requires d in Ahead(t, cursor)
    ensures Page(t, cursor, 1) == [p] && Members([p]) == {p} && p <= d && p > cursor && p in t && t[p].supersededBy.None?
  {
    PageFacts(t, cursor, 1);
    var page := Page(t, cursor, 1);
    p := page[0];
    assert page == [p];
    assert [p][0] == p;
    assert Members(page) == {p};
  }

  /** After a page of one row `p`, up to the doomed row `d`, the row it superseded is freed
      or still waits for it. */
  lemma FreedAfterOne(clock: Clock, t: Table, p: Id, d: Id, id: Id)
    requires p in t && t[p].supersededBy.None? && p <= d < id && d in Doomed(clock, t)
    requires id in t && clock.Evictable(t[id]) && t[id].supersededBy == Some(d)
    ensures var t' := Remove(t, Stale(clock, t, {p}));
            && id in t' && clock.Evictable(t'[id])
            && (p == d ==> id in Ahead(t', p))
            && (p != d ==> t'[id].supersededBy == Some(d) && d in Doomed(clock, t'))
  {
    hide Clock.Evictable;
    var gone := Stale(clock, t, {p});
    FreedKeepsEvictable(clock, t[id], gone);
    FreedKeepsEvictable(clock, t[d], gone);
  }

  /** No finished sweep, at any batch size, evicts a row that was superseded when it began,
      if and only if every stale row superseded by a doomed one has the smaller id. */
  lemma OnlyDoomedIff(clock: Clock, t: Table, pages: nat)
    requires 0 !in t && pages >= |t|
    ensures (forall batch: nat :: batch >= 1 ==> Evicted(clock, t, batch, pages) == Doomed(clock, t)) <==> FreedBehind(clock, t, 0)
  {
    hide Clock.Evictable, Scan;
    if FreedBehind(clock, t, 0) {
      forall batch: nat | batch >= 1 ensures Evicted(clock, t, batch, pages) == Doomed(clock, t) {
        ScanEvictsOnlyDoomed(clock, t, 0, batch, pages);
        SweepEvictsDoomed(clock, t, batch, pages);
      }
    } else {
      var id :| id in t && clock.Evictable(t[id]) && t[id].supersededBy.Some? && t[id].supersededBy.value in Doomed(clock, t)
                && id >= t[id].supersededBy.value;
      var d := t[id].supersededBy.value;
      SubsetSize(Beyond(t, 0), t.Keys);
      SmallPagesReachFreed(clock, t, 0, pages, d, id);
      assert id in Evicted(clock, t, 1, pages) && id !in Doomed(clock, t);
    }
  }
}
