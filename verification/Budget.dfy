/** Linked token budgets (`src/paa/context/budget.py`). A budget is an object with a
    link to the budget that granted it; a debit is charged all the way up. */
module Budget {
  import opened Ledger
  import opened ModalityProfiles

  // -- halving --------------------------------------------------------------

  /** `x >> d` */
  function Shift(x: nat, d: nat): nat {
    if d == 0 then x else Shift(x / 2, d - 1)
  }

  lemma {:induction false} ShiftComposes(x: nat, a: nat, b: nat)
    ensures Shift(Shift(x, a), b) == Shift(x, a + b)
  {
    if a > 0 { ShiftComposes(x / 2, a - 1, b); }
  }

  lemma {:induction false} ShiftMonotone(x: nat, y: nat, d: nat)
    requires x <= y
    ensures Shift(x, d) <= Shift(y, d)
  {
    if d > 0 { ShiftMonotone(x / 2, y / 2, d - 1); }
  }

  /** `q` is `x` over 2 to the `d`, rounded down. */
  predicate IsHalving(x: nat, d: nat, q: nat) { q * Power(2, d) <= x < (q + 1) * Power(2, d) }

  lemma {:induction false} ShiftHalves(x: nat, d: nat)
    ensures IsHalving(x, d, Shift(x, d))
  {
    if d > 0 {
      ShiftHalves(x / 2, d - 1);
      var q, half := Shift(x, d), Power(2, d - 1);
      Doubled(q, half);
      Doubled(q + 1, half);
    }
  }

  lemma Doubled(q: nat, half: int)
    ensures q * (2 * half) == 2 * (q * half)
  {
  }

  const MAX_SHIFT_DEPTH: nat := 32

  /** `token_quota_at_depth` */
  function Quota(p: Profile, depth: nat): nat {
    if depth < MAX_SHIFT_DEPTH then Shift(p.tokenCeiling, depth) else 0
  }

  // -- budgets --------------------------------------------------------------

  class TokenBudget {
    const allocation: nat
    var consumed: nat
    const depth: nat
    const profile: Option<Profile>
    const parent: TokenBudget?
    /** Distance to the root, and the budgets a debit here is charged to. */
    ghost const height: nat
    ghost const path: set<TokenBudget>

    /** The links form a finite chain to a root. Nothing here changes after construction. */
    ghost predicate Linked()
      decreases height
    {
      && this in path
      && (parent == null ==> path == {this} && height == 0)
      && (parent != null ==>
            height == parent.height + 1 && path == {this} + parent.path && this !in parent.path && parent.Linked())
    }

    /** No budget on the chain is overspent. */
    ghost predicate Valid()
      reads path
    {
      Linked() && forall b :: b in path ==> b.consumed <= b.allocation
    }

    constructor Root(allocation: nat, depth: nat, profile: Option<Profile>)
      ensures Valid() && consumed == 0 && path == {this} && parent == null
      ensures this.allocation == allocation && this.depth == depth && this.profile == profile
    {
      this.allocation, this.depth, this.profile, this.parent := allocation, depth, profile, null;
      consumed, height, path := 0, 0, {this};
    }

    constructor Linked'(allocation: nat, depth: nat, profile: Option<Profile>, parent: TokenBudget)
      requires parent.Valid()
      ensures Valid() && consumed == 0 && path == {this} + parent.path && this.parent == parent
      ensures this.allocation == allocation && this.depth == depth && this.profile == profile
    {
      this.allocation, this.depth, this.profile, this.parent := allocation, depth, profile, parent;
      consumed, height, path := 0, parent.height + 1, {this} + parent.path;
    }

    function Remaining(): int
      reads this
    {
      allocation - consumed
    }

    ghost predicate Affords(tokens: nat)
      reads path
    {
      forall b :: b in path ==> tokens <= b.Remaining()
    }

    /** `can_afford`; a negative request is refused with `None`. */
    method CanAfford(tokens: int) returns (r: Option<bool>)
      requires Valid()
      ensures r.None? <==> tokens < 0
      ensures r.Some? ==> r.value == Affords(tokens)
      decreases height
    {
      if tokens < 0 { return None; }
      if tokens > Remaining() { return Some(false); }
      if parent == null { return Some(true); }
      r := parent.CanAfford(tokens);
    }

    /** `try_consume`: charges every budget up to the root, or none of them. */
    method TryConsume(tokens: int) returns (r: Option<bool>)
      requires Valid()
      modifies path`consumed
      ensures Valid()
      ensures r.None? <==> tokens < 0
      ensures r.Some? ==> r.value == old(Affords(tokens))
      ensures r == Some(true) ==> forall b :: b in path ==> b.consumed == old(b.consumed) + tokens
      ensures r != Some(true) ==> forall b :: b in path ==> b.consumed == old(b.consumed)
      decreases height
    {
      if tokens < 0 { return None; }
      if tokens > Remaining() { return Some(false); }
      if parent != null {
        r := parent.TryConsume(tokens);
        if r == Some(false) { return; }
      }
      consumed := consumed + tokens;
      return Some(true);
    }

    /** `child`: a halved envelope, capped at what this budget still holds. */
    method Child(levels: int) returns (r: Option<TokenBudget>)
      requires Valid()
      ensures r.None? <==> levels < 0
      ensures r.Some? ==>
                && fresh(r.value) && r.value.Valid() && r.value.parent == this && r.value.consumed == 0
                && r.value.depth == depth + levels && r.value.profile == profile
                && r.value.allocation == (if QuotaBelow(levels) <= Remaining() then QuotaBelow(levels) else Remaining())
                && r.value.Halved()
      ensures r.Some? ==>
                exists quota: nat :: IsShare(levels, quota) && r.value.allocation == (if quota <= Remaining() then quota else Remaining())
    {
      if levels < 0 { return None; }
      var quota := QuotaBelow(levels);
      QuotaIsShare(levels);
      var c := new TokenBudget.Linked'(if quota <= Remaining() then quota else Remaining(), depth + levels, profile, this);
      r := Some(c);
    }

    function QuotaBelow(levels: nat): nat {
      if profile.Some? then Quota(profile.value, depth + levels)
      else if levels < MAX_SHIFT_DEPTH then Shift(allocation, levels)
      else 0
    }

    /** The share due `levels` below: the modality's ceiling halved once per level of depth,
        or without a modality this allocation halved once per level between, rounded down;
        nothing from 32 halvings on. */
    predicate IsShare(levels: nat, quota: nat) {
      var base := if profile.Some? then profile.value.tokenCeiling else allocation;
      var halvings := if profile.Some? then depth + levels else levels;
      if halvings < 32 then IsHalving(base, halvings, quota) else quota == 0
    }

    lemma QuotaIsShare(levels: nat)
      ensures IsShare(levels, QuotaBelow(levels))
    {
      hide Shift, IsHalving;
      ShiftHalves(if profile.Some? then profile.value.tokenCeiling else allocation, if profile.Some? then depth + levels else levels);
    }

    /** What `child` promises about the envelope it hands out. */
    ghost predicate Halved() {
      parent != null ==>
        && parent.depth <= depth && profile == parent.profile
        && allocation <= parent.QuotaBelow(depth - parent.depth) && allocation <= parent.allocation
    }

    /** Every link up to `root` was made by `child`. */
    ghost predicate DescendsFrom(root: TokenBudget)
      requires Linked()
      decreases height
    {
      this == root || (parent != null && Halved() && parent.DescendsFrom(root))
    }
  }

  /** The allocation of a root fits its profile: one level down the profile's quota is no
      more than half of it. Every root without a profile does, and every root the profile
      itself sized. */
  predicate Fits(profile: Option<Profile>, depth: nat, allocation: nat) {
    profile.Some? && allocation > 0 ==> Quota(profile.value, depth + 1) <= Shift(allocation, 1)
  }

  lemma ProfiledRootFits(p: Profile, depth: nat)
    ensures Fits(Some(p), depth, Quota(p, depth))
  {
    ShiftComposes(p.tokenCeiling, depth, 1);
  }

  /** A descendant at relative depth `d` of a root that fits its profile is allocated at
      most `root.allocated >> d`. */
  lemma {:induction false} DescendantIsHalved(b: TokenBudget, root: TokenBudget)
    requires b.Linked() && b.DescendsFrom(root) && Fits(root.profile, root.depth, root.allocation)
    ensures root.depth <= b.depth && b.profile == root.profile && b.allocation <= root.allocation
    ensures b.allocation <= Shift(root.allocation, b.depth - root.depth)
    decreases b.height
  {
    if b != root {
      var up := b.parent;
      DescendantIsHalved(up, root);
      var step, rest := b.depth - up.depth, up.depth - root.depth;
      if b.profile.Some? {
        if root.allocation > 0 && b.depth > root.depth {
          QuotaIsHalved(b.profile.value, root.depth, root.allocation, b.depth - root.depth);
        }
      } else {
        ShiftMonotone(up.allocation, Shift(root.allocation, rest), step);
        ShiftComposes(root.allocation, rest, step);
      }
    }
  }

  lemma QuotaIsHalved(p: Profile, depth: nat, allocation: nat, d: nat)
    requires Fits(Some(p), depth, allocation) && allocation > 0 && d > 0
    ensures Quota(p, depth + d) <= Shift(allocation, d)
  {
    if depth + d < MAX_SHIFT_DEPTH {
      ShiftComposes(p.tokenCeiling, depth + 1, d - 1);
      ShiftMonotone(Quota(p, depth + 1), Shift(allocation, 1), d - 1);
      ShiftComposes(allocation, 1, d - 1);
    }
  }

  /** The condition is exact: the first child of an unspent root is halved if and only if
      the root fits its profile. */
  method FirstChild(root: TokenBudget) returns (c: TokenBudget)
    requires root.Valid() && root.consumed == 0
    ensures fresh(c) && c.Valid() && c.parent == root && c.depth == root.depth + 1 && c.DescendsFrom(root)
    ensures c.allocation <= Shift(root.allocation, 1) <==> Fits(root.profile, root.depth, root.allocation)
  {
    var r := root.Child(1);
    c := r.value;
    assert Shift(root.allocation, 1) == Shift(root.allocation / 2, 0);
  }

  /** A root of 100 tokens built by hand under the standard profile gives all of it to its
      first child. */
  method HandBuiltRootIsNotHalved() returns (root: TokenBudget, c: TokenBudget)
    ensures root.Valid() && root.allocation == 100 && root.profile == Some(ProfileOf(Standard)) && root.depth == 0
    ensures c.Valid() && c.parent == root && c.depth == 1 && c.DescendsFrom(root) && c.allocation == 100 > Shift(root.allocation, 1)
  {
    root := new TokenBudget.Root(100, 0, Some(ProfileOf(Standard)));
    var r := root.Child(1);
    c := r.value;
    assert Shift(100, 1) == Shift(50, 0) == 50;
    var ceiling := ProfileOf(Standard).tokenCeiling;
    assert Shift(ceiling, 1) == Shift(ceiling / 2, 0) == ceiling / 2;
  }

  // -- conservation over a tree of budgets ----------------------------------

  /** An accepted debit and the budget it was asked of. */
  datatype Debit = Debit(at: TokenBudget, tokens: nat)

  /** What a history of debits charges to a budget: those made at it or below it. */
  ghost function Charged(log: seq<Debit>, b: TokenBudget): nat {
    if log == [] then 0
    else Charged(log[..|log| - 1], b) + if b in log[|log| - 1].at.path then log[|log| - 1].tokens else 0
  }

  ghost function Own(log: seq<Debit>, b: TokenBudget): nat {
    if log == [] then 0
    else Own(log[..|log| - 1], b) + if b == log[|log| - 1].at then log[|log| - 1].tokens else 0
  }

  ghost function ChargedAll(log: seq<Debit>, bs: seq<TokenBudget>): nat {
    if bs == [] then 0 else Charged(log, bs[0]) + ChargedAll(log, bs[1..])
  }

  /** A forest of budgets closed under parents, each spent by exactly its debits. */
  ghost predicate Conserved(forest: set<TokenBudget>, log: seq<Debit>)
    reads forest
  {
    && (forall b :: b in forest ==> b.Linked() && b.path <= forest && b.consumed <= b.allocation)
    && (forall d :: d in log ==> d.at in forest)
    && (forall b :: b in forest ==> b.consumed == Charged(log, b))
  }

  /** One debit anywhere in the forest keeps the books: accepted, it is charged to
      the whole path and nothing else; refused, it is charged to nobody. */
  method Spend(ghost forest: set<TokenBudget>, ghost log: seq<Debit>, b: TokenBudget, tokens: int)
    returns (r: Option<bool>, ghost log': seq<Debit>)
    requires Conserved(forest, log) && b in forest
    modifies b.path`consumed
    ensures Conserved(forest, log')
    ensures r.None? <==> tokens < 0
    ensures log' == if r == Some(true) then log + [Debit(b, tokens)] else log
    ensures r.Some? ==> r.value == old(b.Affords(tokens))
  {
    r := b.TryConsume(tokens);
    log' := log;
    if r == Some(true) {
      log' := log + [Debit(b, tokens)];
      assert log'[..|log|] == log;
    }
  }

  /** A granted child starts with clean books and disturbs nobody's. */
  method Grant(ghost forest: set<TokenBudget>, ghost log: seq<Debit>, b: TokenBudget, levels: nat) returns (c: TokenBudget)
    requires Conserved(forest, log) && b in forest
    ensures fresh(c) && c.parent == b && c.Halved() && Conserved(forest + {c}, log)
  {
    var r := b.Child(levels);
    c := r.value;
    NothingBelow(forest, log, c);
  }

  lemma {:induction false} NothingBelow(forest: set<TokenBudget>, log: seq<Debit>, c: TokenBudget)
    requires forall d :: d in log ==> d.at in forest && d.at.path <= forest
    requires c !in forest
    ensures Charged(log, c) == 0
    decreases |log|
  {
    if log != [] {
      assert log[|log| - 1] in log;
      NothingBelow(forest, log[..|log| - 1], c);
    }
  }

  /** On the way up from a budget to one of its ancestors there is exactly one child
      of that ancestor. */
  lemma {:induction false} OneChildOnPath(n: TokenBudget, b: TokenBudget) returns (c: TokenBudget)
    requires n.Linked() && b in n.path && n != b
    ensures c in n.path && c.parent == b
    ensures forall x :: x in n.path && x.parent == b ==> x == c
    decreases n.height
  {
    if n.parent == b {
      c := n;
      NoChildAbove(b, b);
    } else {
      c := OneChildOnPath(n.parent, b);
    }
  }

  /** A budget's own path holds no child of it. */
  lemma {:induction false} NoChildAbove(n: TokenBudget, b: TokenBudget)
    requires n.Linked() && n.height <= b.height
    ensures forall x :: x in n.path ==> x.parent != b
    decreases n.height
  {
    if n.parent != null { NoChildAbove(n.parent, b); }
  }

  ghost predicate Children(kids: seq<TokenBudget>, b: TokenBudget, log: seq<Debit>) {
    && (forall i :: 0 <= i < |kids| ==> kids[i].parent == b)
    && (forall i, j :: 0 <= i < j < |kids| ==> kids[i] != kids[j])
    && (forall d, c :: d in log && c in d.at.path && c.parent == b ==> c in kids)
  }

  lemma {:induction false} ChargedAllSnoc(log: seq<Debit>, d: Debit, kids: seq<TokenBudget>)
    requires forall i, j :: 0 <= i < j < |kids| ==> kids[i] != kids[j]
    requires forall i, j :: 0 <= i < j < |kids| ==> !(kids[i] in d.at.path && kids[j] in d.at.path)
    ensures ChargedAll(log + [d], kids)
            == ChargedAll(log, kids) + if exists i :: 0 <= i < |kids| && kids[i] in d.at.path then d.tokens else 0
    decreases |kids|
  {
    if kids != [] {
      assert (log + [d])[..|log|] == log;
      var rest := kids[1..];
      ChargedAllSnoc(log, d, rest);
      if kids[0] in d.at.path {
        forall i | 0 <= i < |rest| ensures rest[i] !in d.at.path { assert rest[i] == kids[i + 1]; }
      } else if exists i :: 0 <= i < |kids| && kids[i] in d.at.path {
        var i :| 0 <= i < |kids| && kids[i] in d.at.path;
        assert rest[i - 1] == kids[i];
      } else {
        forall i | 0 <= i < |rest| ensures rest[i] !in d.at.path { assert rest[i] == kids[i + 1]; }
      }
    }
  }

  /** What a budget has spent is what was asked of it directly plus what its
      children have spent. */
  lemma {:induction false} SpendingAddsUp(log: seq<Debit>, b: TokenBudget, kids: seq<TokenBudget>)
    requires b.Linked() && (forall d :: d in log ==> d.at.Linked()) && Children(kids, b, log)
    ensures Charged(log, b) == Own(log, b) + ChargedAll(log, kids)
    decreases |log|
  {
    if log == [] {
      NothingCharged(kids);
    } else {
      var init, d := log[..|log| - 1], log[|log| - 1];
      assert log == init + [d] && d in log;
      SpendingAddsUp(init, b, kids);
      forall i, j | 0 <= i < j < |kids| ensures !(kids[i] in d.at.path && kids[j] in d.at.path) {
        AtMostOneChild(d.at, b, kids[i], kids[j]);
      }
      ChargedAllSnoc(init, d, kids);
      if b in d.at.path && d.at != b {
        var c := OneChildOnPath(d.at, b);
        assert c in kids;
        var i :| 0 <= i < |kids| && kids[i] == c;
      } else if d.at == b {
        NoChildAbove(b, b);
      } else {
        forall i | 0 <= i < |kids| ensures kids[i] !in d.at.path { ChildImpliesParent(d.at, kids[i], b); }
      }
    }
  }

  lemma {:induction false} NothingCharged(kids: seq<TokenBudget>)
    ensures ChargedAll([], kids) == 0
  {
    if kids != [] { NothingCharged(kids[1..]); }
  }

  lemma {:induction false} ChildImpliesParent(n: TokenBudget, c: TokenBudget, b: TokenBudget)
    requires n.Linked() && c.parent == b
    ensures c in n.path ==> b in n.path
    decreases n.height
  {
    if n.parent != null { ChildImpliesParent(n.parent, c, b); }
  }

  lemma AtMostOneChild(n: TokenBudget, b: TokenBudget, x: TokenBudget, y: TokenBudget)
    requires n.Linked() && b.Linked() && x != y && x.parent == b && y.parent == b
    ensures !(x in n.path && y in n.path)
  {
    if x in n.path {
      ChildImpliesParent(n, x, b);
      if n == b {
        NoChildAbove(b, b);
      } else {
        var c := OneChildOnPath(n, b);
      }
    }
  }
}
