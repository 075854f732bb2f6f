/** Modality envelopes (`src/paa/core/types.py`). */
module ModalityProfiles {
  import opened Ledger

  datatype Profile = Profile(recursionCeiling: int, tokenCeiling: nat, branchFactor: int)

  /** The `MODALITY_PROFILES` columns that bound plans and token quotas. */
  function ProfileOf(m: Modality): Profile {
    match m
    case Simple => Profile(0, 0, 1)
    case Standard => Profile(1, 2048, 2)
    case Complex => Profile(2, 4096, 2)
    case Max => Profile(4, 16384, 2)
  }

  function Power(b: int, e: nat): int {
    if e == 0 then 1 else b * Power(b, e - 1)
  }

  /** `max_plan_nodes`: `None` stands for the refused negative ceiling. */
  function MaxPlanNodes(p: Profile): (r: Option<int>) {
    if p.recursionCeiling < 0 then None
    else if p.branchFactor <= 1 then Some(p.recursionCeiling + 1)
    else Some((Power(p.branchFactor, p.recursionCeiling + 1) - 1) / (p.branchFactor - 1))
  }

  /** Nodes of a complete tree of depth `d` and branching `b`, level by level. */
  function TreeNodes(b: int, d: nat): int {
    if d == 0 then 1 else TreeNodes(b, d - 1) + Power(b, d)
  }

  lemma {:induction false} GeometricSum(b: int, d: nat)
    ensures TreeNodes(b, d) * (b - 1) == Power(b, d + 1) - 1
  {
    if d == 0 {
      assert Power(b, 1) == b * Power(b, 0);
    } else {
      GeometricSum(b, d - 1);
      calc {
        TreeNodes(b, d) * (b - 1);
        (TreeNodes(b, d - 1) + Power(b, d)) * (b - 1);
        TreeNodes(b, d - 1) * (b - 1) + Power(b, d) * (b - 1);
        Power(b, d) - 1 + Power(b, d) * b - Power(b, d);
        Power(b, d + 1) - 1;
      }
    }
  }

  lemma MulAtLeast(a: int, m: int)
    requires m > 0 && a >= 1
    ensures a * m >= m
  {
  }

  lemma DivExact(q: int, m: int)
    requires m > 0
    ensures (q * m) / m == q && (q * m) % m == 0
  {
    var k, r := (q * m) / m, (q * m) % m;
    assert q * m == k * m + r;
    assert (q - k) * m == r by { assert (q - k) * m == q * m - k * m; }
    if q - k >= 1 {
      MulAtLeast(q - k, m);
    } else if q - k <= -1 {
      MulAtLeast(k - q, m);
    }
  }

  /** The closed form counts the tree exactly: the division leaves no remainder,
      and the `B <= 1` branch is the same count for a chain. */
  lemma MaxPlanNodesIsTreeSize(p: Profile)
    requires p.recursionCeiling >= 0 && p.branchFactor >= 1
    ensures MaxPlanNodes(p) == Some(TreeNodes(p.branchFactor, p.recursionCeiling))
    ensures p.branchFactor > 1 ==> (Power(p.branchFactor, p.recursionCeiling + 1) - 1) % (p.branchFactor - 1) == 0
  {
    var b, d := p.branchFactor, p.recursionCeiling;
    if b == 1 {
      ChainNodes(d);
    } else {
      GeometricSum(b, d);
      DivExact(TreeNodes(b, d), b - 1);
    }
  }

  lemma {:induction false} ChainNodes(d: nat)
    ensures TreeNodes(1, d) == d + 1 && Power(1, d) == 1
  {
    if d > 0 { ChainNodes(d - 1); }
  }

  function PlanCeiling(m: Modality): (n: int)
    ensures MaxPlanNodes(ProfileOf(m)) == Some(n)
  {
    match m
    case Simple => 1
    case Standard => assert Power(2, 2) == 2 * Power(2, 1); 3
    case Complex => assert Power(2, 3) == 2 * (2 * Power(2, 1)); 7
    case Max => assert Power(2, 5) == 2 * (2 * (2 * (2 * Power(2, 1)))); 31
  }
}
