/** Bounded context packets (`src/paa/context/gatherer.py`): filter, deduplicate,
    rank by a total order, pack greedily under a token ceiling. */
module Gatherer {
  import opened Ledger
  import opened Budget

  datatype Element = Element(
    id: string, content: string, relevance: real, confidence: real, importance: real,
    slot: Option<string>, domain: string, tokenCost: Option<nat>)

  datatype Settings = Settings(
    confidenceFloor: real, relevanceFloor: real, invariantImportance: real, densityProceed: real, densityHydrate: real)

  datatype Directive = ProceedToPlanner | TriggerBackgroundHydration | HardStopEscalateToUser

  datatype Packet = Packet(
    elements: seq<Element>, density: real, allocatedTokens: nat, directive: Directive, vacantSlots: seq<string>, tokenCeiling: nat)

  /** Everything one compilation is given besides the candidates. */
  datatype Request = Request(
    settings: Settings, estimate: string -> nat, requiredSlots: seq<string>, blockedDomains: set<string>, ceiling: nat)

  /** `tokens`: a declared cost stands, whatever the estimator says. */
  function Cost(req: Request, e: Element): (tokens: nat)
    ensures e.tokenCost.Some? ==> tokens == e.tokenCost.value
    ensures e.tokenCost.None? ==> tokens == req.estimate(e.content)
  {
    if e.tokenCost.Some? then e.tokenCost.value else req.estimate(e.content)
  }

  // -- ranking --------------------------------------------------------------

  /** Strict lexicographic order on identifiers. */
  predicate IdBefore(a: string, b: string) {
    b != "" && (a == "" || a[0] < b[0] || (a[0] == b[0] && IdBefore(a[1..], b[1..])))
  }

  lemma {:induction false} IdTotal(a: string, b: string)
    ensures a == b || IdBefore(a, b) || IdBefore(b, a)
    ensures !(IdBefore(a, b) && IdBefore(b, a)) && !IdBefore(a, a)
  {
    if a != "" { IdIrreflexive(a); }
    if a != "" && b != "" {
      IdTotal(a[1..], b[1..]);
      if a[0] == b[0] && a[1..] == b[1..] { assert a == [a[0]] + a[1..] && b == [b[0]] + b[1..]; }
    }
  }

  lemma {:induction false} IdIrreflexive(a: string)
    ensures !IdBefore(a, a)
  {
    if a != "" { IdIrreflexive(a[1..]); }
  }

  lemma {:induction false} IdTransitive(a: string, b: string, c: string)
    requires IdBefore(a, b) && IdBefore(b, c)
    ensures IdBefore(a, c)
  {
    if a != "" && a[0] == b[0] && b[0] == c[0] { IdTransitive(a[1..], b[1..], c[1..]); }
  }

  function Tier(req: Request, e: Element): int {
    if e.slot.Some? && e.slot.value in req.requiredSlots then 0
    else if e.importance >= req.settings.invariantImportance then 1
    else 2
  }

  function Score(e: Element): real { e.relevance * e.confidence }

  /** `_rank_key` compared: tier, then score, then importance, then identifier. */
  predicate RankBefore(req: Request, e: Element, f: Element) {
    Tier(req, e) < Tier(req, f)
    || (Tier(req, e) == Tier(req, f)
        && (Score(e) > Score(f)
            || (Score(e) == Score(f)
                && (e.importance > f.importance || (e.importance == f.importance && IdBefore(e.id, f.id))))))
  }

  lemma RankTotal(req: Request, e: Element, f: Element)
    ensures e.id == f.id || RankBefore(req, e, f) || RankBefore(req, f, e)
    ensures !(RankBefore(req, e, f) && RankBefore(req, f, e)) && !RankBefore(req, e, e)
  {
    hide Score, Tier;
    IdTotal(e.id, f.id);
  }

  lemma RankTransitive(req: Request, e: Element, f: Element, g: Element)
    requires RankBefore(req, e, f) && RankBefore(req, f, g)
    ensures RankBefore(req, e, g)
  {
    hide Score, Tier;
    if IdBefore(e.id, f.id) && IdBefore(f.id, g.id) { IdTransitive(e.id, f.id, g.id); }
  }

  predicate Ranked(req: Request, s: seq<Element>) {
    forall i, j :: 0 <= i < j < |s| ==> RankBefore(req, s[i], s[j])
  }

  predicate DistinctIds(s: seq<Element>) {
    forall i, j :: 0 <= i < j < |s| ==> s[i].id != s[j].id
  }

  function InsertRanked(req: Request, e: Element, s: seq<Element>): (r: seq<Element>)
    ensures multiset(r) == multiset(s) + multiset{e}
  {
    if s == [] then [e]
    else if RankBefore(req, e, s[0]) then [e] + s
    else
      assert s == [s[0]] + s[1..];
      [s[0]] + InsertRanked(req, e, s[1..])
  }

  lemma {:induction false} InsertKeepsRanked(req: Request, e: Element, s: seq<Element>)
    requires Ranked(req, s) && forall i :: 0 <= i < |s| ==> s[i].id != e.id
    ensures Ranked(req, InsertRanked(req, e, s))
  {
    var r := InsertRanked(req, e, s);
    if s != [] {
      RankTotal(req, e, s[0]);
      if RankBefore(req, e, s[0]) {
        forall i, j | 0 <= i < j < |r| ensures RankBefore(req, r[i], r[j]) {
          if i == 0 && j > 1 { RankTransitive(req, e, s[0], s[j - 1]); }
        }
      } else {
        InsertKeepsRanked(req, e, s[1..]);
        var rest := InsertRanked(req, e, s[1..]);
        forall j | 0 <= j < |rest| ensures RankBefore(req, s[0], rest[j]) {
          assert rest[j] in multiset(rest);
          assert rest[j] == e || rest[j] in s[1..];
        }
      }
    }
  }

  /** `pool.sort(key=...)` */
  function SortRanked(req: Request, s: seq<Element>): (r: seq<Element>)
    ensures multiset(r) == multiset(s)
  {
    if s == [] then []
    else
      assert s == [s[0]] + s[1..];
      InsertRanked(req, s[0], SortRanked(req, s[1..]))
  }

  lemma {:induction false} SortIsRanked(req: Request, s: seq<Element>)
    requires DistinctIds(s)
    ensures Ranked(req, SortRanked(req, s))
  {
    if s != [] {
      SortIsRanked(req, s[1..]);
      var rest := SortRanked(req, s[1..]);
      forall i | 0 <= i < |rest| ensures rest[i].id != s[0].id {
        assert rest[i] in multiset(rest);
        assert rest[i] in s[1..];
      }
      InsertKeepsRanked(req, s[0], rest);
    }
  }

  lemma HeadIsMember(s: seq<Element>)
    requires s != []
    ensures s[0] in s
  {
  }

  /** A ranked list is determined by its elements. */
  lemma {:induction false} RankedIsUnique(req: Request, a: seq<Element>, b: seq<Element>)
    requires Ranked(req, a) && Ranked(req, b) && forall e :: e in a <==> e in b
    ensures a == b
    decreases |a|
  {
    if a == [] {
      if b != [] { HeadIsMember(b); }
    } else {
      assert a[0] in a && a[0] in b;
      assert b[0] in b && b[0] in a;
      var k :| 0 <= k < |a| && a[k] == b[0];
      var m :| 0 <= m < |b| && b[m] == a[0];
      RankTotal(req, a[0], b[0]);
      assert a[0] == b[0];
      forall e ensures e in a[1..] <==> e in b[1..] {
        RankTotal(req, e, a[0]);
        RankTotal(req, a[0], a[0]);
        if e in a[1..] {
          var i :| 0 <= i < |a[1..]| && a[1..][i] == e;
          assert a[i + 1] == e && RankBefore(req, a[0], a[i + 1]);
          assert e in b && e != b[0];
        }
        if e in b[1..] {
          var i :| 0 <= i < |b[1..]| && b[1..][i] == e;
          assert b[i + 1] == e && RankBefore(req, b[0], b[i + 1]);
          assert e in a && e != a[0];
        }
      }
      RankedIsUnique(req, a[1..], b[1..]);
      assert a == [a[0]] + a[1..] && b == [b[0]] + b[1..];
    }
  }

  // -- the candidate pool ---------------------------------------------------

  predicate Admissible(req: Request, hot: bool, e: Element) {
    && e.domain !in req.blockedDomains
    && (if hot then e.confidence >= req.settings.confidenceFloor else e.relevance >= req.settings.relevanceFloor)
  }

  predicate HasId(pool: seq<Element>, id: string) {
    exists i :: 0 <= i < |pool| && pool[i].id == id
  }

  function Admit(req: Request, pool: seq<Element>, hot: bool, es: seq<Element>): seq<Element>
    decreases |es|
  {
    if es == [] then pool
    else Admit(req, if Admissible(req, hot, es[0]) && !HasId(pool, es[0].id) then pool + [es[0]] else pool, hot, es[1..])
  }

  function PoolOf(req: Request, hot: seq<Element>, semantic: seq<Element>): seq<Element> {
    Admit(req, Admit(req, [], true, hot), false, semantic)
  }

  /** Within one source an identifier names one fact. */
  predicate FunctionalIds(es: seq<Element>) {
    forall e, f :: e in es && f in es && e.id == f.id ==> e == f
  }

  lemma {:induction false} AdmitMembers(req: Request, pool: seq<Element>, hot: bool, es: seq<Element>)
    requires DistinctIds(pool) && FunctionalIds(es)
    ensures DistinctIds(Admit(req, pool, hot, es))
    ensures forall e :: e in Admit(req, pool, hot, es) <==> e in pool || (e in es && Admissible(req, hot, e) && !HasId(pool, e.id))
    decreases |es|
  {
    if es != [] {
      var e0, rest := es[0], es[1..];
      assert es == [e0] + rest;
      assert FunctionalIds(rest) by { assert forall e :: e in rest ==> e in es; }
      if Admissible(req, hot, e0) && !HasId(pool, e0.id) {
        var longer := pool + [e0];
        AdmitMembers(req, longer, hot, rest);
        assert longer[|pool|] == e0;
        forall id ensures HasId(longer, id) <==> HasId(pool, id) || id == e0.id {
          if HasId(pool, id) {
            var i :| 0 <= i < |pool| && pool[i].id == id;
            assert longer[i] == pool[i];
          }
        }
        forall e ensures e in Admit(req, longer, hot, rest) <==> e in pool || (e in es && Admissible(req, hot, e) && !HasId(pool, e.id)) {
          if e in rest && e.id == e0.id { assert e in es && e0 in es; }
        }
      } else {
        AdmitMembers(req, pool, hot, rest);
      }
    }
  }

  /** `_candidate_pool` */
  method CandidatePool(req: Request, hot: seq<Element>, semantic: seq<Element>) returns (pool: seq<Element>)
    ensures pool == PoolOf(req, hot, semantic)
  {
    var seen: set<string> := {};
    pool := [];
    for i := 0 to |hot|
      invariant Admit(req, pool, true, hot[i..]) == Admit(req, [], true, hot)
      invariant forall id :: id in seen <==> HasId(pool, id)
    {
      assert hot[i..][1..] == hot[i + 1..];
      pool, seen := Consider(req, true, hot[i], pool, seen);
    }
    ghost var admitted := pool;
    for i := 0 to |semantic|
      invariant Admit(req, pool, false, semantic[i..]) == Admit(req, admitted, false, semantic)
      invariant forall id :: id in seen <==> HasId(pool, id)
    {
      assert semantic[i..][1..] == semantic[i + 1..];
      pool, seen := Consider(req, false, semantic[i], pool, seen);
    }
  }

  method Consider(req: Request, hot: bool, e: Element, pool: seq<Element>, seen: set<string>)
    returns (pool': seq<Element>, seen': set<string>)
    requires forall id :: id in seen <==> HasId(pool, id)
    ensures pool' == if Admissible(req, hot, e) && !HasId(pool, e.id) then pool + [e] else pool
    ensures forall id :: id in seen' <==> HasId(pool', id)
  {
    pool', seen' := pool, seen;
    if e.domain in req.blockedDomains { return; }
    if (hot && e.confidence < req.settings.confidenceFloor) || (!hot && e.relevance < req.settings.relevanceFloor) { return; }
    if e.id in seen { return; }
    seen' := seen + {e.id};
    pool' := pool + [e];
    assert pool'[|pool|] == e;
    forall id | HasId(pool, id) ensures HasId(pool', id) {
      var i :| 0 <= i < |pool| && pool[i].id == id;
      assert pool'[i] == pool[i];
    }
  }

  // -- packing --------------------------------------------------------------

  function Greedy(req: Request, ranked: seq<Element>, room: int): seq<Element>
    decreases |ranked|
  {
    if ranked == [] then []
    else if Cost(req, ranked[0]) <= room then [ranked[0]] + Greedy(req, ranked[1..], room - Cost(req, ranked[0]))
    else Greedy(req, ranked[1..], room)
  }

  function TotalCost(req: Request, es: seq<Element>): nat {
    if es == [] then 0 else Cost(req, es[0]) + TotalCost(req, es[1..])
  }

  lemma {:induction false} TotalCostSnoc(req: Request, es: seq<Element>, e: Element)
    ensures TotalCost(req, es + [e]) == TotalCost(req, es) + Cost(req, e)
  {
    if es == [] {
      assert [] + [e] == [e];
    } else {
      TotalCostSnoc(req, es[1..], e);
      assert (es + [e])[1..] == es[1..] + [e];
    }
  }

  /** A debit on a budget without a parent. */
  method Debit(budget: TokenBudget, cost: nat) returns (ok: bool)
    requires budget.Valid() && budget.path == {budget}
    modifies budget`consumed
    ensures budget.Valid() && budget.path == {budget}
    ensures ok == (cost <= old(budget.Remaining()))
    ensures budget.consumed == old(budget.consumed) + if ok then cost else 0
  {
    assert budget.Affords(cost) <==> cost <= budget.Remaining() by { assert budget in budget.path; }
    var r := budget.TryConsume(cost);
    assert budget in budget.path;
    ok := r == Some(true);
  }

  /** `_pack` through a real budget: what is selected is the greedy choice and its
      cost never exceeds the ceiling. */
  method Pack(req: Request, ranked: seq<Element>) returns (selected: seq<Element>, spent: nat)
    ensures selected == Greedy(req, ranked, req.ceiling)
    ensures spent == TotalCost(req, selected) && spent <= req.ceiling
  {
    var budget := new TokenBudget.Root(req.ceiling, 0, None);
    selected, spent := [], 0;
    hide Greedy, TotalCost, Cost, TokenBudget.Valid;
    for i := 0 to |ranked|
      invariant budget.Valid() && budget.path == {budget} && budget.allocation == req.ceiling && fresh(budget)
      invariant spent == budget.consumed == TotalCost(req, selected)
      invariant selected + Greedy(req, ranked[i..], budget.Remaining()) == Greedy(req, ranked, req.ceiling)
    {
      GreedyStep(req, ranked, i, budget.Remaining(), selected);
      var cost := Cost(req, ranked[i]);
      var ok := Debit(budget, cost);
      if !ok {
        continue;
      }
      TotalCostSnoc(req, selected, ranked[i]);
      selected := selected + [ranked[i]];
      spent := spent + cost;
    }
    GreedyOfNone(req, budget.Remaining());
    assert ranked[|ranked|..] == [] && selected + [] == selected;
  }

  lemma GreedyOfNone(req: Request, room: int)
    ensures Greedy(req, [], room) == []
  {
  }

  lemma GreedyStep(req: Request, ranked: seq<Element>, i: nat, room: int, selected: seq<Element>)
    requires i < |ranked|
    ensures var cost, rest := Cost(req, ranked[i]), ranked[i + 1..];
            selected + Greedy(req, ranked[i..], room)
            == if cost <= room then selected + [ranked[i]] + Greedy(req, rest, room - cost) else selected + Greedy(req, rest, room)
  {
    hide Cost;
    assert ranked[i..][1..] == ranked[i + 1..];
    var rest := Greedy(req, ranked[i + 1..], room - Cost(req, ranked[i]));
    assert selected + ([ranked[i]] + rest) == selected + [ranked[i]] + rest;
  }

  /** A selection marks which ranked candidates are taken. */
  function Taken(ranked: seq<Element>, marks: seq<bool>): seq<Element>
    requires |marks| == |ranked|
  {
    if ranked == [] then []
    else (if marks[0] then [ranked[0]] else []) + Taken(ranked[1..], marks[1..])
  }

  function GreedyMarks(req: Request, ranked: seq<Element>, room: int): (marks: seq<bool>)
    ensures |marks| == |ranked|
    decreases |ranked|
  {
    if ranked == [] then []
    else if Cost(req, ranked[0]) <= room then [true] + GreedyMarks(req, ranked[1..], room - Cost(req, ranked[0]))
    else [false] + GreedyMarks(req, ranked[1..], room)
  }

  lemma {:induction false} GreedyTakesItsMarks(req: Request, ranked: seq<Element>, room: int)
    ensures Taken(ranked, GreedyMarks(req, ranked, room)) == Greedy(req, ranked, room)
    decreases |ranked|
  {
    if ranked != [] {
      var fits := Cost(req, ranked[0]) <= room;
      GreedyTakesItsMarks(req, ranked[1..], if fits then room - Cost(req, ranked[0]) else room);
    }
  }

  /** First index at which two selections differ, and the first one takes the item. */
  predicate PrefersAt(a: seq<bool>, b: seq<bool>, i: nat) {
    i < |a| && i < |b| && a[..i] == b[..i] && a[i] && !b[i]
  }

  /** The greedy selection is the lexicographically greatest feasible one. */
  lemma {:induction false} GreedyIsBest(req: Request, ranked: seq<Element>, room: int, marks: seq<bool>)
    requires |marks| == |ranked| && TotalCost(req, Taken(ranked, marks)) <= room
    ensures marks == GreedyMarks(req, ranked, room) || exists i: nat :: PrefersAt(GreedyMarks(req, ranked, room), marks, i)
    decreases |ranked|
  {
    if ranked != [] {
      var best := GreedyMarks(req, ranked, room);
      var cost := Cost(req, ranked[0]);
      var rest := Taken(ranked[1..], marks[1..]);
      if marks[0] {
        assert Taken(ranked, marks) == [ranked[0]] + rest;
        assert ([ranked[0]] + rest)[1..] == rest;
        SameHead(req, ranked, room, marks, room - cost);
      } else {
        assert Taken(ranked, marks) == rest;
        if cost <= room {
          assert PrefersAt(best, marks, 0);
        } else {
          SameHead(req, ranked, room, marks, room);
        }
      }
    }
  }

  lemma SameHead(req: Request, ranked: seq<Element>, room: int, marks: seq<bool>, left: int)
    requires |marks| == |ranked| > 0 && TotalCost(req, Taken(ranked[1..], marks[1..])) <= left
    requires GreedyMarks(req, ranked, room) == [marks[0]] + GreedyMarks(req, ranked[1..], left)
    ensures marks == GreedyMarks(req, ranked, room) || exists i: nat :: PrefersAt(GreedyMarks(req, ranked, room), marks, i)
    decreases |ranked|, 0
  {
    var best, tail := GreedyMarks(req, ranked, room), GreedyMarks(req, ranked[1..], left);
    GreedyIsBest(req, ranked[1..], left, marks[1..]);
    assert marks == [marks[0]] + marks[1..];
    if marks[1..] != tail {
      var i: nat :| PrefersAt(tail, marks[1..], i);
      assert best[..i + 1] == [marks[0]] + tail[..i];
      assert marks[..i + 1] == [marks[0]] + marks[1..][..i];
      assert PrefersAt(best, marks, i + 1);
    }
  }

  // -- what is packed and what is left out ------------------------------------

  /** The fact fills a slot the request declares. */
  predicate Resolves(req: Request, e: Element) { e.slot.Some? && e.slot.value in req.requiredSlots }

  predicate IsInvariant(req: Request, e: Element) { e.importance >= req.settings.invariantImportance }

  /** `f` comes before `e`: it alone fills a required slot; or neither does and it alone is
      an invariant; or they are equal in that and it has the higher relevance times
      confidence, then the higher importance, then the smaller identifier. */
  predicate Beats(req: Request, f: Element, e: Element) {
    || (Resolves(req, f) && !Resolves(req, e))
    || (!Resolves(req, f) && !Resolves(req, e) && IsInvariant(req, f) && !IsInvariant(req, e))
    || (Resolves(req, f) == Resolves(req, e) && (Resolves(req, f) || IsInvariant(req, f) == IsInvariant(req, e))
        && var x, y := f.relevance * f.confidence, e.relevance * e.confidence;
           || x > y
           || (x == y && f.importance > e.importance)
           || (x == y && f.importance == e.importance && IdBefore(f.id, e.id)))
  }

  /** The order that is sorted by is this one. */
  lemma RankIsBeating(req: Request, f: Element, e: Element)
    ensures RankBefore(req, f, e) <==> Beats(req, f, e)
  {
    assert Score(f) == f.relevance * f.confidence && Score(e) == e.relevance * e.confidence;
    assert Tier(req, f) == if Resolves(req, f) then 0 else if IsInvariant(req, f) then 1 else 2;
    assert Tier(req, e) == if Resolves(req, e) then 0 else if IsInvariant(req, e) then 1 else 2;
    hide Score, Tier, Resolves, IsInvariant;
  }

  /** A hot fact good enough to be packed, and a semantic match good enough. */
  predicate Believed(req: Request, e: Element) { e.domain !in req.blockedDomains && e.confidence >= req.settings.confidenceFloor }

  predicate Relevant(req: Request, e: Element) { e.domain !in req.blockedDomains && e.relevance >= req.settings.relevanceFloor }

  /** The fact is a candidate: the first believed hot fact of its identifier, or the first
      relevant match of an identifier no believed hot fact has. */
  ghost predicate Candidate(req: Request, hot: seq<Element>, semantic: seq<Element>, e: Element) {
    || Offers(hot, e, h => Believed(req, h))
    || (Offers(semantic, e, m => Relevant(req, m)) && forall h :: h in hot && Believed(req, h) ==> h.id != e.id)
  }

  ghost predicate Offers(es: seq<Element>, e: Element, good: Element -> bool) {
    exists i :: FirstOf(es, i, e, good)
  }

  predicate FirstOf(es: seq<Element>, i: int, e: Element, good: Element -> bool) {
    && 0 <= i < |es| && es[i] == e && good(e)
    && forall j :: 0 <= j < i && good(es[j]) ==> es[j].id != e.id
  }

  lemma SameOffers(es: seq<Element>, e: Element, good: Element -> bool, good': Element -> bool)
    requires forall x :: good(x) == good'(x)
    ensures Offers(es, e, good) <==> Offers(es, e, good')
  {
    forall i ensures FirstOf(es, i, e, good) <==> FirstOf(es, i, e, good') {}
  }

  lemma {:induction false} AdmitIff(req: Request, pool: seq<Element>, hot: bool, es: seq<Element>, e: Element)
    ensures e in Admit(req, pool, hot, es)
            <==> e in pool || (!HasId(pool, e.id) && Offers(es, e, x => Admissible(req, hot, x)))
    decreases |es|
  {
    hide Admissible, Offers;
    var good := x => Admissible(req, hot, x);
    if es == [] {
      OffersNothing(e, good);
    } else {
      var e0, rest := es[0], es[1..];
      var taken := good(e0) && !HasId(pool, e0.id);
      var pool' := if taken then pool + [e0] else pool;
      AdmitIff(req, pool', hot, rest, e);
      if taken { HasIdSnoc(pool, e0, e.id); }
      OffersCons(es, e, good);
    }
  }

  lemma OffersNothing(e: Element, good: Element -> bool)
    ensures !Offers([], e, good)
  {
  }

  lemma HasIdSnoc(pool: seq<Element>, e: Element, id: string)
    ensures HasId(pool + [e], id) <==> HasId(pool, id) || id == e.id
  {
    assert (pool + [e])[|pool|] == e;
    if HasId(pool, id) {
      var i :| 0 <= i < |pool| && pool[i].id == id;
      assert (pool + [e])[i] == pool[i];
    }
  }

  lemma OffersCons(es: seq<Element>, e: Element, good: Element -> bool)
    requires es != []
    ensures Offers(es, e, good)
            <==> (es[0] == e && good(e)) || ((good(es[0]) ==> es[0].id != e.id) && Offers(es[1..], e, good))
  {
    var rest := es[1..];
    if es[0] == e && good(e) { assert FirstOf(es, 0, e, good); }
    if i :| FirstOf(es, i, e, good) && i > 0 {
      assert FirstOf(rest, i - 1, e, good) by { assert forall j :: 0 <= j < i - 1 ==> rest[j] == es[j + 1]; }
    }
    if i :| FirstOf(rest, i, e, good) && (good(es[0]) ==> es[0].id != e.id) {
      assert FirstOf(es, i + 1, e, good) by { assert forall j :: 0 < j < i + 1 ==> es[j] == rest[j - 1]; }
    }
  }

  /** The pool holds exactly the candidates, each identifier once. */
  lemma PoolHoldsCandidates(req: Request, hot: seq<Element>, semantic: seq<Element>, e: Element)
    ensures e in PoolOf(req, hot, semantic) <==> Candidate(req, hot, semantic, e)
  {
    hide Offers, FirstOf, Admit;
    var first := Admit(req, [], true, hot);
    AdmitIff(req, [], true, hot, e);
    AdmitIff(req, first, false, semantic, e);
    SameOffers(hot, e, x => Admissible(req, true, x), h => Believed(req, h));
    SameOffers(semantic, e, x => Admissible(req, false, x), m => Relevant(req, m));
    FirstIdsAreBelieved(req, hot, e.id);
  }

  lemma {:induction false} FirstIdsAreBelieved(req: Request, hot: seq<Element>, id: string)
    ensures HasId(Admit(req, [], true, hot), id) <==> exists h :: h in hot && Believed(req, h) && h.id == id
  {
    hide Admit;
    AdmittedIds(req, [], true, hot, id);
  }

  lemma {:induction false} AdmittedIds(req: Request, pool: seq<Element>, hot: bool, es: seq<Element>, id: string)
    ensures HasId(Admit(req, pool, hot, es), id) <==> HasId(pool, id) || exists e :: e in es && Admissible(req, hot, e) && e.id == id
    ensures DistinctIds(pool) ==> DistinctIds(Admit(req, pool, hot, es))
    decreases |es|
  {
    hide Admissible;
    if es != [] {
      var e0, rest := es[0], es[1..];
      assert es == [e0] + rest;
      var taken := Admissible(req, hot, e0) && !HasId(pool, e0.id);
      AdmittedIds(req, if taken then pool + [e0] else pool, hot, rest, id);
      HasIdSnoc(pool, e0, id);
    }
  }

  /** Whatever fits is worth at most the room that was left. */
  lemma {:induction false} GreedyFits(req: Request, ranked: seq<Element>, room: int, e: Element)
    requires e in Greedy(req, ranked, room)
    ensures e in ranked && Cost(req, e) <= room
    decreases |ranked|
  {
    hide Cost;
    if ranked != [] && (Cost(req, ranked[0]) > room || e != ranked[0]) {
      GreedyFits(req, ranked[1..], if Cost(req, ranked[0]) <= room then room - Cost(req, ranked[0]) else room, e);
    }
  }

  /** A candidate is left out only because it costs more than the room that is left at the
      end, hence more than everything taken after it. */
  lemma {:induction false} LeftOutCostsMore(req: Request, ranked: seq<Element>, room: nat, f: Element)
    requires Ranked(req, ranked) && f in ranked && f !in Greedy(req, ranked, room)
    ensures Cost(req, f) + TotalCost(req, Greedy(req, ranked, room)) > room
    ensures forall e :: e in Greedy(req, ranked, room) && RankBefore(req, f, e) ==> Cost(req, e) < Cost(req, f)
    decreases |ranked|
  {
    hide Cost, RankBefore;
    var e0, rest := ranked[0], ranked[1..];
    assert ranked == [e0] + rest;
    var fits := Cost(req, e0) <= room;
    var left := if fits then room - Cost(req, e0) else room;
    var g := Greedy(req, rest, left);
    assert Greedy(req, ranked, room) == if fits then [e0] + g else g;
    assert fits ==> ([e0] + g)[1..] == g;
    if f == e0 {
      forall e | e in g ensures Cost(req, e) < Cost(req, f) { GreedyFits(req, rest, left, e); }
    } else {
      LeftOutCostsMore(req, rest, left, f);
      var k :| 0 <= k < |rest| && rest[k] == f;
      assert ranked[k + 1] == f && RankBefore(req, e0, f);
      RankTotal(req, e0, f);
    }
  }

  // -- slots and routing ----------------------------------------------------

  /** `list(dict.fromkeys(required_slots))` */
  function OrderedSlots(slots: seq<string>): (r: seq<string>)
    ensures forall s :: s in r <==> s in slots
    ensures forall i, j :: 0 <= i < j < |r| ==> r[i] != r[j]
  {
    if slots == [] then []
    else
      var n := |slots| - 1;
      var init := OrderedSlots(slots[..n]);
      assert slots == slots[..n] + [slots[n]];
      if slots[n] in init then init else init + [slots[n]]
  }

  function Resolved(req: Request, selected: seq<Element>): set<string> {
    set e | e in selected && e.slot.Some? && e.slot.value in req.requiredSlots :: e.slot.value
  }

  function Vacant(ordered: seq<string>, resolved: set<string>): (r: seq<string>)
    ensures forall s :: s in r <==> s in ordered && s !in resolved
  {
    if ordered == [] then []
    else
      var n := |ordered| - 1;
      var init, last := ordered[..n], ordered[n];
      assert ordered == init + [last];
      if last in resolved then Vacant(init, resolved) else Vacant(init, resolved) + [last]
  }

  lemma {:induction false} VacantCount(ordered: seq<string>, resolved: set<string>)
    requires forall i, j :: 0 <= i < j < |ordered| ==> ordered[i] != ordered[j]
    ensures |Vacant(ordered, resolved)| + |resolved * (set s | s in ordered)| == |ordered|
  {
    if ordered == [] {
      assert resolved * (set s | s in ordered) == {};
    } else {
      var n := |ordered| - 1;
      var init, last := ordered[..n], ordered[n];
      VacantCount(init, resolved);
      assert ordered == init + [last];
      OneMoreSlot(init, last, resolved);
    }
  }

  lemma OneMoreSlot(init: seq<string>, last: string, resolved: set<string>)
    requires last !in init
    ensures |resolved * (set s | s in init + [last])| == |resolved * (set s | s in init)| + if last in resolved then 1 else 0
  {
    var known := resolved * (set s | s in init);
    assert resolved * (set s | s in init + [last]) == if last in resolved then known + {last} else known;
  }

  /** `a` is declared before `b` is. */
  ghost predicate DeclaredBefore(slots: seq<string>, a: string, b: string) {
    exists k :: 0 <= k <= |slots| && a in slots[..k] && b !in slots[..k]
  }

  ghost predicate InDeclaredOrder(slots: seq<string>, some: seq<string>) {
    forall i, j :: 0 <= i < j < |some| ==> DeclaredBefore(slots, some[i], some[j])
  }

  lemma {:induction false} OrderedAsDeclared(slots: seq<string>)
    ensures InDeclaredOrder(slots, OrderedSlots(slots))
  {
    if slots != [] {
      var n := |slots| - 1;
      var init, r := OrderedSlots(slots[..n]), OrderedSlots(slots);
      OrderedAsDeclared(slots[..n]);
      forall i, j | 0 <= i < j < |r| ensures DeclaredBefore(slots, r[i], r[j]) {
        if j < |init| {
          var k :| 0 <= k <= n && r[i] in slots[..n][..k] && r[j] !in slots[..n][..k];
          assert slots[..n][..k] == slots[..k];
        } else {
          assert r[i] in init && r[j] !in init;
          assert r[i] in slots[..n] && r[j] !in slots[..n];
        }
      }
    }
  }

  lemma {:induction false} VacantAsDeclared(slots: seq<string>, ordered: seq<string>, resolved: set<string>)
    requires InDeclaredOrder(slots, ordered)
    ensures InDeclaredOrder(slots, Vacant(ordered, resolved))
  {
    hide DeclaredBefore;
    if ordered != [] {
      var n := |ordered| - 1;
      VacantAsDeclared(slots, ordered[..n], resolved);
      var init := Vacant(ordered[..n], resolved);
      forall i | 0 <= i < |init| ensures DeclaredBefore(slots, init[i], ordered[n]) {
        assert init[i] in ordered[..n];
        var k :| 0 <= k < n && ordered[..n][k] == init[i];
        assert ordered[k] == init[i];
      }
    }
  }

  function Density(filled: nat, required: nat): real {
    if required == 0 then 1.0 else filled as real / required as real
  }

  function Route(settings: Settings, density: real): Directive {
    if density >= settings.densityProceed then ProceedToPlanner
    else if density >= settings.densityHydrate then TriggerBackgroundHydration
    else HardStopEscalateToUser
  }

  // -- the compilation ------------------------------------------------------

  function PacketOf(req: Request, hot: seq<Element>, semantic: seq<Element>): Packet {
    var selected := Greedy(req, SortRanked(req, PoolOf(req, hot, semantic)), req.ceiling);
    var ordered := OrderedSlots(req.requiredSlots);
    var resolved := Resolved(req, selected);
    var density := Density(|resolved|, |ordered|);
    Packet(selected, density, TotalCost(req, selected), Route(req.settings, density), Vacant(ordered, resolved), req.ceiling)
  }

  /** The packet holds candidates in order of precedence, and leaves one out only because it
      does not fit: it costs more than the room left at the end, and more than everything
      packed that it comes before. */
  ghost predicate PacksTheBest(req: Request, hot: seq<Element>, semantic: seq<Element>, packed: seq<Element>) {
    && (forall e :: e in packed ==> Candidate(req, hot, semantic, e))
    && (forall i, j :: 0 <= i < j < |packed| ==> Beats(req, packed[i], packed[j]))
    && (forall f :: Candidate(req, hot, semantic, f) && f !in packed ==>
          && Cost(req, f) + TotalCost(req, packed) > req.ceiling
          && forall e :: e in packed && Beats(req, f, e) ==> Cost(req, e) < Cost(req, f))
  }

  lemma GreedyPacksTheBest(req: Request, hot: seq<Element>, semantic: seq<Element>)
    ensures PacksTheBest(req, hot, semantic, Greedy(req, SortRanked(req, PoolOf(req, hot, semantic)), req.ceiling))
  {
    hide Candidate, Greedy, Cost, TotalCost, RankBefore, Beats, PoolOf, SortRanked;
    var pool := PoolOf(req, hot, semantic);
    var ranked := SortRanked(req, pool);
    var packed := Greedy(req, ranked, req.ceiling);
    PoolIsDistinct(req, hot, semantic);
    SortIsRanked(req, pool);
    GreedyIsRanked(req, ranked, req.ceiling);
    forall e ensures e in ranked <==> Candidate(req, hot, semantic, e) {
      PoolHoldsCandidates(req, hot, semantic, e);
      assert e in multiset(ranked) <==> e in multiset(pool);
    }
    forall e | e in packed ensures Candidate(req, hot, semantic, e) { GreedyFits(req, ranked, req.ceiling, e); }
    forall e, f ensures RankBefore(req, f, e) <==> Beats(req, f, e) { RankIsBeating(req, f, e); }
    forall f | Candidate(req, hot, semantic, f) && f !in packed
      ensures Cost(req, f) + TotalCost(req, packed) > req.ceiling
      ensures forall e :: e in packed && Beats(req, f, e) ==> Cost(req, e) < Cost(req, f)
    {
      LeftOutCostsMore(req, ranked, req.ceiling, f);
    }
  }

  lemma PoolIsDistinct(req: Request, hot: seq<Element>, semantic: seq<Element>)
    ensures DistinctIds(PoolOf(req, hot, semantic))
  {
    hide Admit;
    AdmittedIds(req, [], true, hot, "");
    AdmittedIds(req, Admit(req, [], true, hot), false, semantic, "");
  }

  lemma {:induction false} GreedyIsRanked(req: Request, ranked: seq<Element>, room: int)
    requires Ranked(req, ranked)
    ensures Ranked(req, Greedy(req, ranked, room))
    decreases |ranked|
  {
    hide RankBefore, Cost;
    if ranked != [] {
      var left := if Cost(req, ranked[0]) <= room then room - Cost(req, ranked[0]) else room;
      var g := Greedy(req, ranked[1..], left);
      GreedyIsRanked(req, ranked[1..], left);
      forall k | 0 <= k < |g| ensures RankBefore(req, ranked[0], g[k]) {
        GreedyFits(req, ranked[1..], left, g[k]);
      }
    }
  }

  /** `_compile` without an injected ranker. The packet holds the best candidates under its
      ceiling; resolved and vacant slots partition the declared ones, and the directive
      follows from the share of them that is resolved. */
  method Compile(req: Request, hot: seq<Element>, semantic: seq<Element>) returns (packet: Packet)
    ensures packet == PacketOf(req, hot, semantic)
    ensures PacksTheBest(req, hot, semantic, packet.elements)
    ensures packet.allocatedTokens == TotalCost(req, packet.elements) <= req.ceiling
    ensures var resolved := Resolved(req, packet.elements);
            && (forall s :: s in req.requiredSlots <==> s in resolved || s in packet.vacantSlots)
            && (forall s :: !(s in resolved && s in packet.vacantSlots))
            && InDeclaredOrder(req.requiredSlots, packet.vacantSlots)
            && |resolved| + |packet.vacantSlots| == |OrderedSlots(req.requiredSlots)|
            && 0.0 <= packet.density <= 1.0 && (packet.vacantSlots == [] ==> packet.density == 1.0)
            && packet.density * |set s | s in req.requiredSlots| as real == |resolved| as real
    ensures packet.directive == ProceedToPlanner <==> packet.density >= req.settings.densityProceed
    ensures packet.directive == HardStopEscalateToUser <==>
              packet.density < req.settings.densityProceed && packet.density < req.settings.densityHydrate
  {
    hide InDeclaredOrder, PacksTheBest, Greedy, SortRanked, PoolOf, TotalCost, Density, Vacant, OrderedSlots, Resolved;
    var ordered := OrderedSlots(req.requiredSlots);
    var pool := CandidatePool(req, hot, semantic);
    var ranked := SortRanked(req, pool);
    var selected, spent := Pack(req, ranked);
    var resolved := Resolved(req, selected);
    var density := Density(|resolved|, |ordered|);
    packet := Packet(selected, density, spent, Route(req.settings, density), Vacant(ordered, resolved), req.ceiling);
    GreedyPacksTheBest(req, hot, semantic);
    SlotsAddUp(req, selected);
    DensityIsShare(|resolved|, |ordered|, |set s | s in req.requiredSlots|);
  }

  lemma DensityIsShare(filled: nat, required: nat, slots: nat)
    requires filled <= required == slots
    ensures 0.0 <= Density(filled, required) <= 1.0
    ensures filled == required ==> Density(filled, required) == 1.0
    ensures Density(filled, required) * slots as real == filled as real
  {
    DensityInRange(filled, required);
  }

  /** Resolved and vacant slots partition the declared ones, in declared order. */
  lemma SlotsAddUp(req: Request, selected: seq<Element>)
    ensures var ordered, resolved := OrderedSlots(req.requiredSlots), Resolved(req, selected);
            var vacant := Vacant(ordered, resolved);
            && (forall s :: s in req.requiredSlots <==> s in resolved || s in vacant)
            && (forall s :: !(s in resolved && s in vacant))
            && InDeclaredOrder(req.requiredSlots, vacant)
            && |resolved| + |vacant| == |ordered| == |set s | s in req.requiredSlots|
  {
    hide Vacant, OrderedSlots, InDeclaredOrder;
    var ordered, resolved := OrderedSlots(req.requiredSlots), Resolved(req, selected);
    assert resolved * (set s | s in ordered) == resolved;
    VacantCount(ordered, resolved);
    OrderedCount(ordered);
    OrderedAsDeclared(req.requiredSlots);
    VacantAsDeclared(req.requiredSlots, ordered, resolved);
    assert (set s | s in ordered) == (set s | s in req.requiredSlots);
  }

  lemma {:induction false} OrderedCount(ordered: seq<string>)
    requires forall i, j :: 0 <= i < j < |ordered| ==> ordered[i] != ordered[j]
    ensures |set s | s in ordered| == |ordered|
  {
    if ordered != [] {
      var n := |ordered| - 1;
      OrderedCount(ordered[..n]);
      assert ordered == ordered[..n] + [ordered[n]];
      assert (set s | s in ordered) == (set s | s in ordered[..n]) + {ordered[n]};
    }
  }

  lemma DensityInRange(filled: nat, required: nat)
    requires filled <= required
    ensures 0.0 <= Density(filled, required) <= 1.0
    ensures filled == required ==> Density(filled, required) == 1.0
    ensures Density(filled, required) * required as real == filled as real
  {
    if required > 0 {
      var f, r := filled as real, required as real;
      assert r / r == 1.0;
      assert r / r - f / r == (r - f) / r;
    }
  }

  /** Determinism: the packet depends only on which facts each source returned, not
      on the order (or multiplicity) in which it returned them. */
  lemma PacketIgnoresOrder(req: Request, hot: seq<Element>, hot': seq<Element>, semantic: seq<Element>, semantic': seq<Element>)
    requires FunctionalIds(hot) && FunctionalIds(semantic)
    requires (forall e :: e in hot <==> e in hot') && (forall e :: e in semantic <==> e in semantic')
    ensures PacketOf(req, hot, semantic) == PacketOf(req, hot', semantic')
  {
    var a, a' := Admit(req, [], true, hot), Admit(req, [], true, hot');
    AdmitMembers(req, [], true, hot);
    AdmitMembers(req, [], true, hot');
    forall id ensures HasId(a, id) <==> HasId(a', id) {
      if HasId(a, id) {
        var i :| 0 <= i < |a| && a[i].id == id;
        assert a[i] in a';
      }
      if HasId(a', id) {
        var i :| 0 <= i < |a'| && a'[i].id == id;
        assert a'[i] in a;
      }
    }
    var pool, pool' := PoolOf(req, hot, semantic), PoolOf(req, hot', semantic');
    AdmitMembers(req, a, false, semantic);
    AdmitMembers(req, a', false, semantic');
    SortIsRanked(req, pool);
    SortIsRanked(req, pool');
    var s, s' := SortRanked(req, pool), SortRanked(req, pool');
    forall e ensures e in s <==> e in s' {
      assert e in s <==> e in multiset(s);
      assert e in s' <==> e in multiset(s');
      assert e in pool <==> e in multiset(pool);
      assert e in pool' <==> e in multiset(pool');
    }
    RankedIsUnique(req, s, s');
  }
}
