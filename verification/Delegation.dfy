/** The delegation graph (`src/paa/agents/delegation.py`) and its use under nested
    calls (`ChiefOrchestrator.mediate_delegation`). */
module Delegation {
  import opened Ledger

  type Edges = map<string, set<string>>

  predicate Edge(edges: Edges, a: string, b: string) {
    a in edges && b in edges[a]
  }

  predicate IsWalk(edges: Edges, walk: seq<string>) {
    walk != [] && forall i :: 0 <= i < |walk| - 1 ==> Edge(edges, walk[i], walk[i + 1])
  }

  predicate WalkBetween(edges: Edges, walk: seq<string>, a: string, b: string) {
    IsWalk(edges, walk) && walk[0] == a && walk[|walk| - 1] == b
  }

  /** Reflexive and transitive reachability. */
  ghost predicate Reaches(edges: Edges, a: string, b: string) {
    exists walk :: WalkBetween(edges, walk, a, b)
  }

  /** No edge leads back to its own start. */
  ghost predicate Acyclic(edges: Edges) {
    forall a, b :: Edge(edges, a, b) ==> !Reaches(edges, b, a)
  }

  lemma ReachesSelf(edges: Edges, a: string)
    ensures Reaches(edges, a, a)
  {
    assert WalkBetween(edges, [a], a, a);
  }

  lemma ReachesTransitive(edges: Edges, a: string, b: string, c: string)
    requires Reaches(edges, a, b) && Reaches(edges, b, c)
    ensures Reaches(edges, a, c)
  {
    var p :| WalkBetween(edges, p, a, b);
    var q :| WalkBetween(edges, q, b, c);
    assert WalkBetween(edges, p + q[1..], a, c);
  }

  lemma EdgeReaches(edges: Edges, a: string, b: string)
    requires Edge(edges, a, b)
    ensures Reaches(edges, a, b)
  {
    assert WalkBetween(edges, [a, b], a, b);
  }

  /** A set closed under edges cannot be left. */
  lemma {:induction false} ClosedSetTrapsWalks(edges: Edges, closed: set<string>, walk: seq<string>, i: nat)
    requires IsWalk(edges, walk) && i < |walk| && walk[0] in closed
    requires forall a, b :: a in closed && Edge(edges, a, b) ==> b in closed
    ensures walk[i] in closed
  {
    if i > 0 {
      ClosedSetTrapsWalks(edges, closed, walk, i - 1);
      assert Edge(edges, walk[i - 1], walk[i]);
    }
  }

  function AddEdge(edges: Edges, a: string, b: string): (r: Edges)
    ensures forall x, y :: Edge(r, x, y) <==> Edge(edges, x, y) || (x == a && y == b)
  {
    edges[a := (if a in edges then edges[a] else {}) + {b}]
  }

  function DropEdge(edges: Edges, a: string, b: string): (r: Edges)
    ensures forall x, y :: Edge(r, x, y) <==> Edge(edges, x, y) && !(x == a && y == b)
  {
    if a in edges then edges[a := edges[a] - {b}] else edges
  }

  /** A walk in the larger graph either avoids the new edge or brackets it. */
  lemma {:induction false} WalkAroundNewEdge(edges: Edges, s: string, t: string, walk: seq<string>)
    requires IsWalk(AddEdge(edges, s, t), walk)
    ensures Reaches(edges, walk[0], walk[|walk| - 1])
            || (Reaches(edges, walk[0], s) && Reaches(edges, t, walk[|walk| - 1]))
    decreases |walk|
  {
    var n := |walk| - 1;
    if n == 0 {
      ReachesSelf(edges, walk[0]);
    } else {
      var x, y := walk[n - 1], walk[n];
      assert IsWalk(AddEdge(edges, s, t), walk[..n]);
      WalkAroundNewEdge(edges, s, t, walk[..n]);
      assert Edge(AddEdge(edges, s, t), x, y);
      if Edge(edges, x, y) {
        EdgeReaches(edges, x, y);
        if Reaches(edges, walk[0], x) { ReachesTransitive(edges, walk[0], x, y); }
        else { ReachesTransitive(edges, t, x, y); }
      } else {
        ReachesSelf(edges, t);
      }
    }
  }

  /** Adding an edge whose target cannot reach its sender keeps the graph acyclic. */
  lemma AddEdgeKeepsAcyclic(edges: Edges, s: string, t: string)
    requires Acyclic(edges) && !Reaches(edges, t, s)
    ensures Acyclic(AddEdge(edges, s, t))
  {
    var larger := AddEdge(edges, s, t);
    forall a, b | Edge(larger, a, b) ensures !Reaches(larger, b, a) {
      if Reaches(larger, b, a) {
        var walk :| WalkBetween(larger, walk, b, a);
        WalkAroundNewEdge(edges, s, t, walk);
        if Edge(edges, a, b) && !Reaches(edges, b, a) {
          EdgeReaches(edges, a, b);
          ReachesTransitive(edges, t, a, b);
          ReachesTransitive(edges, t, b, s);
        }
        assert false;
      }
    }
  }

  lemma FewerEdgesStayAcyclic(edges: Edges, fewer: Edges)
    requires Acyclic(edges) && forall x, y :: Edge(fewer, x, y) ==> Edge(edges, x, y)
    ensures Acyclic(fewer)
  {
    forall a, b | Edge(fewer, a, b) ensures !Reaches(fewer, b, a) {
      if Reaches(fewer, b, a) {
        var walk :| WalkBetween(fewer, walk, b, a);
        assert WalkBetween(edges, walk, b, a);
      }
    }
  }

  /** The path reported for a refused edge: a walk from target back to sender,
      closed by the refused edge itself. */
  predicate IsCycleReport(edges: Edges, sender: string, target: string, path: seq<string>) {
    && |path| >= 2 && path[|path| - 1] == target
    && WalkBetween(edges, path[..|path| - 1], target, sender)
  }

  ghost function Nodes(edges: Edges, target: string): set<string> {
    edges.Keys + (set a, b | a in edges && b in edges[a] :: b) + {target}
  }

  datatype Refusal = TooDeep | ClosesCycle(path: seq<string>) | TooManyNodes

  class DelegationGraph {
    const maxDepth: int
    const maxNodes: int
    var edges: Edges
    var nodeCount: nat

    ghost predicate Valid()
      reads this
    {
      Acyclic(edges) && (nodeCount == 0 || nodeCount <= maxNodes)
    }

    constructor (maxDepth: int, maxNodes: int)
      ensures Valid() && edges == map[] && nodeCount == 0
      ensures this.maxDepth == maxDepth && this.maxNodes == maxNodes
    {
      this.maxDepth, this.maxNodes, edges, nodeCount := maxDepth, maxNodes, map[], 0;
    }

    /** `would_cycle`: the search terminates, answers exactly whether the target can
        already reach the sender, and a positive answer is a genuine cycle. */
    method WouldCycle(sender: string, target: string) returns (cycle: Option<seq<string>>)
      ensures cycle.None? <==> !Reaches(edges, target, sender)
      ensures cycle.Some? ==> IsCycleReport(edges, sender, target, cycle.value)
    {
      if sender == target {
        ReachesSelf(edges, sender);
        assert [sender, target][..1] == [sender];
        return Some([sender, target]);
      }
      var stack: seq<(string, seq<string>)> := [(target, [target])];
      var seen: set<string> := {};
      assert stack[0].0 == target;
      while stack != []
        invariant forall i :: 0 <= i < |stack| ==> WalkBetween(edges, stack[i].1, target, stack[i].0)
        invariant forall i :: 0 <= i < |stack| ==> stack[i].0 in Nodes(edges, target)
        invariant seen <= Nodes(edges, target) && sender !in seen
        invariant target in seen || OnStack(stack, target)
        invariant forall a, b :: a in seen && Edge(edges, a, b) ==> b in seen || OnStack(stack, b)
        decreases Nodes(edges, target) - seen, |stack|
      {
        var top := stack[|stack| - 1];
        var rest := stack[..|stack| - 1];
        var node, path := top.0, top.1;
        PopKeeps(stack);
        if node == sender {
          assert (path + [target])[..|path|] == path;
          return Some(path + [target]);
        }
        stack := rest;
        if node !in seen {
          seen := seen + {node};
          stack := PushSuccessors(node, path, stack, target);
        }
      }
      if Reaches(edges, target, sender) {
        var walk :| WalkBetween(edges, walk, target, sender);
        ClosedSetTrapsWalks(edges, seen, walk, |walk| - 1);
      }
      return None;
    }

    /** The inner loop of the search: one stack entry per successor. */
    method PushSuccessors(node: string, path: seq<string>, before: seq<(string, seq<string>)>, ghost target: string)
      returns (stack: seq<(string, seq<string>)>)
      requires WalkBetween(edges, path, target, node)
      ensures before <= stack
      ensures forall i :: |before| <= i < |stack| ==> Edge(edges, node, stack[i].0) && WalkBetween(edges, stack[i].1, target, stack[i].0)
      ensures forall b :: Edge(edges, node, b) ==> OnStack(stack, b)
    {
      stack := before;
      var left := if node in edges then edges[node] else {};
      while left != {}
        invariant before <= stack
        invariant left <= if node in edges then edges[node] else {}
        invariant forall i :: |before| <= i < |stack| ==> Edge(edges, node, stack[i].0) && WalkBetween(edges, stack[i].1, target, stack[i].0)
        invariant forall b :: Edge(edges, node, b) ==> b in left || OnStack(stack, b)
        decreases left
      {
        var successor :| successor in left;
        left := left - {successor};
        ghost var was := stack;
        stack := stack + [(successor, path + [successor])];
        assert stack[|was|].0 == successor;
        forall b | OnStack(was, b) ensures OnStack(stack, b) {
          var i :| 0 <= i < |was| && was[i].0 == b;
          assert stack[i].0 == b;
        }
      }
    }

    /** `propose`: the three bounds in order; an accepted edge keeps the graph acyclic. */
    method Propose(sender: string, target: string, depth: int) returns (refusal: Option<Refusal>)
      requires Valid()
      modifies this`edges, this`nodeCount
      ensures Valid()
      ensures refusal == Some(TooDeep) <==> depth > maxDepth
      ensures (refusal.Some? && refusal.value.ClosesCycle?) <==> depth <= maxDepth && old(Reaches(edges, target, sender))
      ensures refusal.Some? && refusal.value.ClosesCycle? ==> IsCycleReport(edges, sender, target, refusal.value.path)
      ensures refusal.None? <==> depth <= maxDepth && !old(Reaches(edges, target, sender)) && old(nodeCount) < maxNodes
      ensures refusal.Some? ==> edges == old(edges) && nodeCount == old(nodeCount)
      ensures refusal.None? ==> edges == AddEdge(old(edges), sender, target) && nodeCount == old(nodeCount) + 1
    {
      if depth > maxDepth { return Some(TooDeep); }
      var cycle := WouldCycle(sender, target);
      if cycle.Some? {
        assert WalkBetween(edges, cycle.value[..|cycle.value| - 1], target, sender);
        return Some(ClosesCycle(cycle.value));
      }
      if nodeCount + 1 > maxNodes { return Some(TooManyNodes); }
      AddEdgeKeepsAcyclic(edges, sender, target);
      edges := AddEdge(edges, sender, target);
      nodeCount := nodeCount + 1;
      return None;
    }

    /** `release` */
    method Release(sender: string, target: string)
      requires Valid()
      modifies this`edges
      ensures Valid() && edges == DropEdge(old(edges), sender, target)
    {
      FewerEdgesStayAcyclic(edges, DropEdge(edges, sender, target));
      edges := DropEdge(edges, sender, target);
    }
  }

  predicate OnStack(stack: seq<(string, seq<string>)>, b: string) {
    exists i :: 0 <= i < |stack| && stack[i].0 == b
  }

  lemma PopKeeps(stack: seq<(string, seq<string>)>)
    requires stack != []
    ensures forall b :: OnStack(stack, b) ==> OnStack(stack[..|stack| - 1], b) || b == stack[|stack| - 1].0
  {
    forall b | OnStack(stack, b) && b != stack[|stack| - 1].0 ensures OnStack(stack[..|stack| - 1], b) {
      var i :| 0 <= i < |stack| && stack[i].0 == b;
      assert stack[..|stack| - 1][i].0 == b;
    }
  }

  // -- nested calls ---------------------------------------------------------

  /** The calls an agent makes while it runs, each of which may make calls of its own. */
  datatype CallTree = Call(target: string, calls: seq<CallTree>)

  predicate OnFrames(frames: seq<string>, a: string, b: string) {
    exists i :: 0 <= i < |frames| - 1 && frames[i] == a && frames[i + 1] == b
  }

  predicate NoRepeats(frames: seq<string>) {
    forall i, j :: 0 <= i < j < |frames| ==> frames[i] != frames[j]
  }

  /** The stored edges are exactly the hops of the call stack. */
  ghost predicate MirrorsFrames(edges: Edges, frames: seq<string>) {
    forall a, b :: Edge(edges, a, b) <==> OnFrames(frames, a, b)
  }

  /** From a frame one can walk up to every later frame, and nowhere else. */
  lemma FramesReach(edges: Edges, frames: seq<string>, target: string)
    requires frames != [] && NoRepeats(frames) && MirrorsFrames(edges, frames)
    ensures Reaches(edges, target, frames[|frames| - 1]) <==> target in frames
  {
    var top := frames[|frames| - 1];
    if target in frames {
      var k :| 0 <= k < |frames| && frames[k] == target;
      var walk := frames[k..];
      forall i | 0 <= i < |walk| - 1 ensures Edge(edges, walk[i], walk[i + 1]) {
        assert frames[k + i] == walk[i] && frames[k + i + 1] == walk[i + 1];
        assert OnFrames(frames, walk[i], walk[i + 1]);
      }
      assert WalkBetween(edges, walk, target, top);
    } else if Reaches(edges, target, top) {
      var walk :| WalkBetween(edges, walk, target, top);
      ClosedSetTrapsWalks(edges, {target}, walk, |walk| - 1);
    }
  }

  lemma PushFrame(edges: Edges, frames: seq<string>, target: string)
    requires frames != [] && MirrorsFrames(edges, frames)
    ensures MirrorsFrames(AddEdge(edges, frames[|frames| - 1], target), frames + [target])
  {
    var n := |frames|;
    var longer := frames + [target];
    forall a, b ensures OnFrames(longer, a, b) <==> OnFrames(frames, a, b) || (a == frames[n - 1] && b == target) {
      if OnFrames(frames, a, b) {
        var i :| 0 <= i < n - 1 && frames[i] == a && frames[i + 1] == b;
        assert longer[i] == a && longer[i + 1] == b;
      }
      assert longer[n - 1] == frames[n - 1] && longer[n] == target;
    }
  }

  lemma PopFrame(edges: Edges, frames: seq<string>, target: string)
    requires frames != [] && NoRepeats(frames + [target]) && MirrorsFrames(edges, frames + [target])
    ensures MirrorsFrames(DropEdge(edges, frames[|frames| - 1], target), frames)
  {
    var n := |frames|;
    var longer := frames + [target];
    forall a, b ensures OnFrames(frames, a, b) <==> OnFrames(longer, a, b) && !(a == frames[n - 1] && b == target) {
      if OnFrames(longer, a, b) {
        var i :| 0 <= i < |longer| - 1 && longer[i] == a && longer[i + 1] == b;
        if i < n - 1 {
          assert frames[i] == a && frames[i + 1] == b;
          assert longer[i + 1] != longer[n];
        }
      }
      if OnFrames(frames, a, b) {
        var i :| 0 <= i < n - 1 && frames[i] == a && frames[i + 1] == b;
        assert longer[i] == a && longer[i + 1] == b && longer[i + 1] != longer[n];
      }
    }
  }

  /** `mediate_delegation` for the agent on top of the stack. A target is refused as
      a cycle exactly when it is already on the stack, and however many nested
      calls run, the stored edges come back to the caller's own frames. `depth` is the
      recursion depth of the caller's context, which need not start at zero. */
  method Mediate(graph: DelegationGraph, frames: seq<string>, depth: nat, call: CallTree) returns (refusal: Option<Refusal>)
    requires graph.Valid() && frames != [] && NoRepeats(frames) && MirrorsFrames(graph.edges, frames)
    modifies graph`edges, graph`nodeCount
    ensures graph.Valid() && MirrorsFrames(graph.edges, frames)
    ensures refusal == Some(TooDeep) <==> depth + 1 > graph.maxDepth
    ensures refusal.Some? && refusal.value.ClosesCycle? <==> depth + 1 <= graph.maxDepth && call.target in frames
    ensures refusal.None? <==> depth + 1 <= graph.maxDepth && call.target !in frames && old(graph.nodeCount) < graph.maxNodes
    ensures old(graph.nodeCount) <= graph.nodeCount && (refusal.Some? ==> graph.nodeCount == old(graph.nodeCount))
    decreases call
  {
    var sender := frames[|frames| - 1];
    FramesReach(graph.edges, frames, call.target);
    refusal := graph.Propose(sender, call.target, depth + 1);
    if refusal.Some? { return; }
    PushFrame(old(graph.edges), frames, call.target);
    for i := 0 to |call.calls|
      invariant graph.Valid() && MirrorsFrames(graph.edges, frames + [call.target])
      invariant old(graph.nodeCount) < graph.nodeCount
    {
      var _ := Mediate(graph, frames + [call.target], depth + 1, call.calls[i]);
    }
    PopFrame(graph.edges, frames, call.target);
    graph.Release(sender, call.target);
  }
}
