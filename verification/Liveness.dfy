/**
  Building the flow graph of a function and computing liveness on it, in place,
  as `FlowGraph.__init__` and `FlowGraph.calculate_liveness` do.
 */
module Liveness {
  import opened MachineCode
  import opened Dataflow
  import opened FlowGraphs

  /** ----- leaders ----- */

  predicate TargetedBefore(p: Program, l: nat, i: nat)
    requires l < |p| && i <= |p|
  {
    exists j :: 0 <= j < i && p[l].id in p[j].jumps
  }

  predicate LeaderSoFar(p: Program, l: nat, i: nat)
    requires l < |p| && i <= |p|
  {
    (l < i && AfterJump(p, l)) || TargetedBefore(p, l, i)
  }

  /** The leaders that the first `i` instructions show. */
  function LeadersSoFar(p: Program, i: nat): (s: set<nat>)
    requires i <= |p|
    ensures forall l :: l in s ==> l < |p|
  {
    set l: nat | l < |p| && LeaderSoFar(p, l, i)
  }

  function Leaders(p: Program): (s: set<nat>)
    ensures forall l :: l in s ==> l < |p|
  {
    set l: nat | l < |p| && Leader(p, l)
  }

  lemma TargetsGrow(p: Program, l: nat, i: nat)
    requires l < |p| && i < |p|
    ensures TargetedBefore(p, l, i + 1) <==> TargetedBefore(p, l, i) || p[l].id in p[i].jumps
  {
    if p[l].id in p[i].jumps {
      assert 0 <= i < i + 1;
    } else if TargetedBefore(p, l, i + 1) {
      var j :| 0 <= j < i + 1 && p[l].id in p[j].jumps;
      assert j < i;
    }
  }

  /** One more instruction finds exactly the leaders that it shows. */
  lemma LeadersGrow(p: Program, i: nat)
    requires i < |p|
    ensures LeadersSoFar(p, i + 1) == LeadersSoFar(p, i) + (if AfterJump(p, i) then {i} else {}) + Targets(p, i)
  {
    hide TargetedBefore;
    forall l: nat | l < |p|
      ensures TargetedBefore(p, l, i + 1) <==> TargetedBefore(p, l, i) || p[l].id in p[i].jumps
    {
      TargetsGrow(p, l, i);
    }
  }

  lemma AllLeadersFound(p: Program)
    ensures LeadersSoFar(p, |p|) == Leaders(p)
  {
    forall l: nat | l < |p|
      ensures LeaderSoFar(p, l, |p|) <==> Leader(p, l)
    {
      assert TargetedBefore(p, l, |p|) <==> Targeted(p, l);
    }
  }

  lemma NoLeadersYet(p: Program)
    ensures LeadersSoFar(p, 0) == {}
  {
  }

  /** ----- jump targets ----- */

  function JumpsTo(p: Program, jumps: seq<nat>): (s: set<nat>)
    ensures forall j :: j in s ==> j < |p|
  {
    set j: nat | j < |p| && p[j].id in jumps
  }

  lemma IndexIsOnly(p: Program, id: nat)
    requires UniqueIds(p) && IndexOf(p, id) < |p|
    ensures forall l :: 0 <= l < |p| && p[l].id == id ==> l == IndexOf(p, id)
  {
  }

  lemma JumpsToNone(p: Program)
    ensures JumpsTo(p, []) == {}
  {
  }

  lemma JumpsToNext(p: Program, jumps: seq<nat>, k: nat)
    requires UniqueIds(p) && k < |jumps| && HasId(p, jumps[k])
    ensures IndexOf(p, jumps[k]) < |p|
    ensures JumpsTo(p, jumps[..k + 1]) == JumpsTo(p, jumps[..k]) + {IndexOf(p, jumps[k])}
  {
    var t := IndexOf(p, jumps[k]);
    IndexOfPresent(p, jumps[k]);
    IndexIsOnly(p, jumps[k]);
    hide *;
    assert jumps[..k + 1] == jumps[..k] + [jumps[k]];
    forall j | 0 <= j < |p|
      ensures p[j].id in jumps[..k + 1] <==> p[j].id in jumps[..k] || j == t
    {
    }
    JumpsToInsert(p, jumps[..k], jumps[..k + 1], t);
  }

  lemma JumpsToInsert(p: Program, some: seq<nat>, more: seq<nat>, t: nat)
    requires t < |p|
    requires forall j :: 0 <= j < |p| ==> (p[j].id in more <==> p[j].id in some || j == t)
    ensures JumpsTo(p, more) == JumpsTo(p, some) + {t}
  {
  }

  lemma JumpsToAll(p: Program, i: nat)
    requires i < |p|
    ensures JumpsTo(p, p[i].jumps) == Targets(p, i)
  {
  }

  lemma NoJumpsNoTargets(p: Program, i: nat)
    requires i < |p| && p[i].jumps == []
    ensures Targets(p, i) == {}
  {
  }

  /** ----- the node that an instruction is in ----- */

  /** The node of instruction `i + 1` is that of `i`, unless `i + 1` is a leader. */
  lemma {:induction false} NodeExtends(p: Program, l: nat, i: nat)
    requires l <= i < |p| && i < EndOf(p, l)
    ensures i + 1 < |p| && !Leader(p, i + 1) ==> i + 1 < EndOf(p, l)
    ensures i + 1 == |p| || Leader(p, i + 1) ==> EndOf(p, l) == i + 1
    decreases i - l
  {
    hide Leader;
    if l < i {
      InsideBlock(p, l);
      NodeExtends(p, l + 1, i);
    }
  }

  lemma JumpEndsNode(p: Program, l: nat, i: nat)
    requires l <= i < |p| && i < EndOf(p, l) && p[i].jumps != []
    ensures EndOf(p, l) == i + 1
  {
    NodeExtends(p, l, i);
  }

  /** Instruction `i` is in the node that starts at `node`. */
  ghost predicate InNode(p: Program, node: nat, i: nat) {
    node <= i < |p| && Leader(p, node) && i < EndOf(p, node)
  }

  /** After instruction `i`, the current node is the one that `i` is in. */
  lemma NodeMoves(p: Program, previous: nat, node: nat, i: nat)
    requires i < |p|
    requires i > 0 ==> InNode(p, previous, i - 1)
    requires node == if Leader(p, i) then i else previous
    ensures InNode(p, node, i)
  {
    if i > 0 {
      NodeExtends(p, previous, i - 1);
    }
  }

  lemma {:induction false} NoLeaderInside(p: Program, l: nat, m: nat)
    requires l < m < |p| && m < EndOf(p, l)
    ensures !Leader(p, m)
    decreases m - l
  {
    hide Leader;
    if l + 1 < m {
      InsideBlock(p, l);
      NoLeaderInside(p, l + 1, m);
    }
  }

  lemma OnlyNode(p: Program, l: nat, m: nat, i: nat)
    requires InNode(p, l, i) && InNode(p, m, i)
    ensures l == m
  {
    hide Leader, EndOf;
    if l < m {
      NoLeaderInside(p, l, m);
    } else if m < l {
      NoLeaderInside(p, m, l);
    }
  }

  /** ----- the graph while it is built ----- */

  /** A node when it is created: it holds its leader only. */
  function NewNode(p: Program, l: nat): Node
    requires l < |p|
  {
    Node([l], p[l].Gen(), p[l].Kill(), {})
  }

  function NewNodes(p: Program, leaders: set<nat>): (g: Graph)
    requires forall l :: l in leaders ==> l < |p|
    ensures g.Keys == leaders
  {
    map l | l in leaders :: NewNode(p, l)
  }

  /** Node `l` once the edges of the first `i` instructions are there. */
  function LinkedNode(p: Program, l: nat, i: nat): Node
    requires l < |p|
  {
    NewNode(p, l).(succ := if EndOf(p, l) <= i then Targets(p, EndOf(p, l) - 1) else {})
  }

  function LinkedNodes(p: Program, i: nat): (g: Graph)
    ensures g.Keys == Leaders(p)
  {
    map l | l in Leaders(p) :: LinkedNode(p, l, i)
  }

  /** How far node `l` reaches once the first `i` instructions have been bundled. */
  function Reach(p: Program, l: nat, i: nat): (e: nat)
    requires l < |p|
    ensures l < e <= |p|
  {
    if i <= l + 1 then l + 1 else if i <= EndOf(p, l) then i else EndOf(p, l)
  }

  function BundledNode(p: Program, l: nat, i: nat): Node
    requires l < |p|
  {
    var e := Reach(p, l, i);
    Node(Positions(l, e), NodeGen(p, l, e), NodeKill(p, l, e), Targets(p, EndOf(p, l) - 1))
  }

  function BundledNodes(p: Program, i: nat): (g: Graph)
    ensures g.Keys == Leaders(p)
  {
    map l | l in Leaders(p) :: BundledNode(p, l, i)
  }

  lemma NewIsLinked(p: Program)
    ensures NewNodes(p, Leaders(p)) == LinkedNodes(p, 0)
  {
    hide EndOf, Leaders;
  }

  /** Linking instruction `i` changes the node it is in, if it jumps. */
  lemma LinkNext(p: Program, node: nat, i: nat)
    requires InNode(p, node, i)
    ensures node in Leaders(p)
    ensures p[i].jumps == [] ==> LinkedNodes(p, i + 1) == LinkedNodes(p, i)
    ensures p[i].jumps != [] ==> LinkedNode(p, node, i).succ == {}
    ensures p[i].jumps != [] ==>
      LinkedNodes(p, i + 1) == LinkedNodes(p, i)[node := LinkedNode(p, node, i).(succ := Targets(p, i))]
  {
    forall l | l in Leaders(p) && EndOf(p, l) == i + 1
      ensures l == node
    {
      OnlyNode(p, l, node, i);
    }
    if p[i].jumps == [] {
      NoJumpsNoTargets(p, i);
    } else {
      JumpEndsNode(p, node, i);
    }
    hide EndOf, Leader, Targets, NewNode;
  }

  lemma LinkedIsBundledAt(p: Program, l: nat)
    requires l in Leaders(p) && l < |p|
    ensures LinkedNode(p, l, |p|) == BundledNode(p, l, 0)
  {
    hide Leader;
    OneInstruction(p, l);
  }

  lemma LinkedIsBundled(p: Program)
    ensures LinkedNodes(p, |p|) == BundledNodes(p, 0)
  {
    hide EndOf, Leader, Targets, LinkedNode, BundledNode;
    forall l | l in Leaders(p)
      ensures LinkedNode(p, l, |p|) == BundledNode(p, l, 0)
    {
      LinkedIsBundledAt(p, l);
    }
  }

  lemma ReachNext(p: Program, node: nat, i: nat, l: nat)
    requires InNode(p, node, i) && l < |p| && Leader(p, l)
    ensures Reach(p, l, i + 1) == if l == node && node < i then i + 1 else Reach(p, l, i)
    ensures l == node && node < i ==> Reach(p, l, i) == i
  {
    hide Leader;
    if l != node && l < i < EndOf(p, l) {
      OnlyNode(p, l, node, i);
    }
  }

  lemma LeadersHave(p: Program, node: nat, i: nat)
    requires InNode(p, node, i)
    ensures node in Leaders(p) && node <= i && forall l :: l in Leaders(p) ==> l < |p| && Leader(p, l)
  {
  }

  /** Bundling instruction `i` extends the node it is in, unless it is that node's leader. */
  lemma BundleNext(p: Program, node: nat, i: nat)
    requires InNode(p, node, i)
    ensures node in Leaders(p)
    ensures node == i ==> BundledNodes(p, i + 1) == BundledNodes(p, i)
    ensures node < i ==> Reach(p, node, i) == i && Reach(p, node, i + 1) == i + 1
    ensures node < i ==> BundledNodes(p, i + 1) == BundledNodes(p, i)[node := BundledNode(p, node, i + 1)]
  {
    hide EndOf, Leader, Targets, NodeGen, NodeKill, Reach, Leaders;
    LeadersHave(p, node, i);
    forall l | l in Leaders(p)
      ensures Reach(p, l, i + 1) == if l == node && node < i then i + 1 else Reach(p, l, i)
      ensures l == node && node < i ==> Reach(p, l, i) == i
    {
      ReachNext(p, node, i, l);
    }
  }

  lemma BundledIsNode(p: Program, l: nat)
    requires l in Leaders(p)
    ensures BundledNode(p, l, |p|) == NodeAt(p, l)
  {
  }

  lemma BundledIsGraph(p: Program)
    ensures IsGraphOf(BundledNodes(p, |p|), p)
    ensures Closed(BundledNodes(p, |p|))
  {
    forall l | l in Leaders(p)
      ensures BundledNode(p, l, |p|) == NodeAt(p, l)
    {
      BundledIsNode(p, l);
    }
    TargetsAreLeaders(p);
    hide EndOf, Leader, Targets, BundledNode, NodeAt;
  }

  lemma TargetsAreLeaders(p: Program)
    ensures forall l, s :: l in Leaders(p) && s in Targets(p, EndOf(p, l) - 1) ==> s in Leaders(p)
  {
    forall l, s | l in Leaders(p) && s in Targets(p, EndOf(p, l) - 1)
      ensures s in Leaders(p)
    {
      TargetIsLeader(p, EndOf(p, l) - 1, s);
    }
  }

  /** Every instruction is in a node. */
  lemma {:induction false} NodeExists(p: Program, i: nat) returns (l: nat)
    requires i < |p|
    ensures InNode(p, l, i)
  {
    if Leader(p, i) {
      l := i;
    } else {
      l := NodeExists(p, i - 1);
      NodeExtends(p, l, i - 1);
    }
  }

  /** The live_out set of a node is what is live after its last instruction. */
  lemma NodeLiveOut(p: Program, g: Graph, liveIn: Flow, liveOut: Flow, l: nat, r: Register)
    requires IsGraphOf(g, p) && Closed(g) && liveIn.Keys == liveOut.Keys == g.Keys && Climbing(g, liveIn, liveOut) && l in g
    requires SolvedExcept(g, liveIn, liveOut, {})
    ensures r in liveOut[l] <==> LiveAfter(p, EndOf(p, l) - 1, r)
  {
    hide Leader, EndOf, NodeGen, NodeKill, Climbing, SolvedExcept, Targets, Live;
    LastOfBlock(p, l);
    assert g[l] == NodeAt(p, l);
    OutIsNeeded(g, liveIn, liveOut, l, r);
    forall s | s in g[l].succ
      ensures Needs(g, s, r) <==> Live(p, s, r)
    {
      hide Needs;
      NodesAgreeWithInstructions(g, p, s, r);
    }
    hide Needs;
  }

  /** ----- the flow graph ----- */

  class FlowGraph {
    const instrs: Program
    var nodes: Graph
    var liveIn: Flow
    var liveOut: Flow
    var insLiveIn: Flow
    var insLiveOut: Flow

    ghost predicate Valid()
      reads this
    {
      IsGraphOf(nodes, instrs) && Closed(nodes)
    }

    constructor (p: Program)
      requires WellFormed(p)
      ensures instrs == p && Valid()
    {
      instrs := p;
      nodes := map[];
      liveIn := map[];
      liveOut := map[];
      insLiveIn := map[];
      insLiveOut := map[];
      new;
      hide IsGraphOf, Closed, NewNodes, LinkedNodes, BundledNodes, Leaders;
      FindLeaders();
      AddEdges();
      Bundle();
      BundledIsGraph(instrs);
    }

    /** `get_node`: create the node of a leader on first sight. */
    method GetNode(l: nat)
      requires l < |instrs|
      requires forall k :: k in nodes ==> k < |instrs|
      requires nodes == NewNodes(instrs, nodes.Keys)
      modifies this`nodes
      ensures forall k :: k in nodes ==> k < |instrs|
      ensures nodes == NewNodes(instrs, old(nodes.Keys) + {l})
    {
      if l !in nodes {
        nodes := nodes[l := NewNode(instrs, l)];
      }
      assert nodes.Keys == old(nodes.Keys) + {l};
    }

    /** The nodes of the instructions that `i` jumps to. */
    method GetTargets(i: nat)
      requires WellFormed(instrs) && i < |instrs|
      requires forall k :: k in nodes ==> k < |instrs|
      requires nodes == NewNodes(instrs, nodes.Keys)
      modifies this`nodes
      ensures forall k :: k in nodes ==> k < |instrs|
      ensures nodes == NewNodes(instrs, old(nodes.Keys) + Targets(instrs, i))
    {
      hide NewNode;
      var jumps := instrs[i].jumps;
      assert old(nodes.Keys) + JumpsTo(instrs, []) == old(nodes.Keys);
      for k := 0 to |jumps|
        invariant nodes.Keys == old(nodes.Keys) + JumpsTo(instrs, jumps[..k])
        invariant nodes == NewNodes(instrs, nodes.Keys)
      {
        JumpsToNext(instrs, jumps, k);
        GetNode(IndexOf(instrs, jumps[k]));
      }
      assert jumps[..|jumps|] == jumps;
      JumpsToAll(instrs, i);
    }

    method FindLeaders()
      requires WellFormed(instrs) && nodes == map[]
      modifies this`nodes
      ensures nodes == NewNodes(instrs, Leaders(instrs))
    {
      hide NewNode, Leader, LeaderSoFar, Targets;
      NoLeadersYet(instrs);
      var inNode := false;
      for i := 0 to |instrs|
        invariant inNode <==> i > 0 && instrs[i - 1].jumps == []
        invariant nodes == NewNodes(instrs, LeadersSoFar(instrs, i))
      {
        LeadersGrow(instrs, i);
        if !inNode {
          GetNode(i);
          inNode := true;
        }
        if instrs[i].jumps != [] {
          GetTargets(i);
          inNode := false;
        } else {
          NoJumpsNoTargets(instrs, i);
        }
        assert nodes.Keys == LeadersSoFar(instrs, i + 1);
      }
      AllLeadersFound(instrs);
    }

    /** Edges from each node to the targets of its jumps. */
    method AddEdges()
      requires WellFormed(instrs) && nodes == NewNodes(instrs, Leaders(instrs))
      modifies this`nodes
      ensures nodes == LinkedNodes(instrs, |instrs|)
    {
      hide Leader, EndOf, Targets, NewNode, LinkedNode;
      NewIsLinked(instrs);
      var node := 0;
      for i := 0 to |instrs|
        invariant i > 0 ==> InNode(instrs, node, i - 1)
        invariant nodes == LinkedNodes(instrs, i)
      {
        ghost var previous := node;
        if i in nodes {
          node := i;
        }
        NodeMoves(instrs, previous, node, i);
        LinkNext(instrs, node, i);
        if instrs[i].jumps != [] {
          assert nodes[node].succ + Targets(instrs, i) == Targets(instrs, i);
          AddTargets(node, i);
        }
      }
    }

    /** Edges from `node` to the nodes that instruction `i` jumps to. */
    method AddTargets(node: nat, i: nat)
      requires WellFormed(instrs) && i < |instrs| && node in nodes
      modifies this`nodes
      ensures nodes == old(nodes)[node := old(nodes)[node].(succ := old(nodes)[node].succ + Targets(instrs, i))]
    {
      hide JumpsTo, Targets;
      var jumps := instrs[i].jumps;
      ghost var was := nodes[node];
      JumpsToNone(instrs);
      assert was.succ + JumpsTo(instrs, []) == was.succ;
      for k := 0 to |jumps|
        invariant nodes == old(nodes)[node := was.(succ := was.succ + JumpsTo(instrs, jumps[..k]))]
      {
        JumpsToNext(instrs, jumps, k);
        nodes := nodes[node := nodes[node].(succ := nodes[node].succ + {IndexOf(instrs, jumps[k])})];
        assert nodes[node].succ == was.succ + JumpsTo(instrs, jumps[..k + 1]);
      }
      assert jumps[..|jumps|] == jumps;
      JumpsToAll(instrs, i);
    }

    /** `add_instruction` for every instruction that is not a leader. */
    method Bundle()
      requires WellFormed(instrs) && nodes == LinkedNodes(instrs, |instrs|)
      modifies this`nodes
      ensures nodes == BundledNodes(instrs, |instrs|)
    {
      hide Leader, EndOf, Targets, LinkedNode, BundledNode, Reach;
      LinkedIsBundled(instrs);
      var node := 0;
      for i := 0 to |instrs|
        invariant i > 0 ==> InNode(instrs, node, i - 1)
        invariant nodes == BundledNodes(instrs, i)
      {
        ghost var previous := node;
        var isLeader := i in nodes;
        if isLeader {
          node := i;
        }
        NodeMoves(instrs, previous, node, i);
        BundleNext(instrs, node, i);
        if !isLeader {
          AddInstruction(node, i);
        }
      }
    }

    /** `add_instruction`: bundle instruction `i` into the node. */
    method AddInstruction(node: nat, i: nat)
      requires i < |instrs| && node < i && node in nodes
      requires Reach(instrs, node, i) == i && Reach(instrs, node, i + 1) == i + 1
      requires nodes[node] == BundledNode(instrs, node, i)
      modifies this`nodes
      ensures nodes == old(nodes)[node := BundledNode(instrs, node, i + 1)]
    {
      var n := nodes[node];
      nodes := nodes[node := Node(
        n.instructions + [i],
        n.gen + (instrs[i].Gen() - n.kill),
        n.kill + instrs[i].Kill(),
        n.succ)];
      assert Positions(node, i) + [i] == Positions(node, i + 1);
    }

    /** ----- calculate_liveness ----- */

    ghost predicate Iterating()
      reads this
    {
      Valid() && liveIn.Keys == liveOut.Keys == nodes.Keys && Climbing(nodes, liveIn, liveOut)
    }

    /** Recompute the sets of one node. */
    method Update(l: nat)
      requires Iterating() && l in nodes
      modifies this`liveIn, this`liveOut
      ensures Iterating()
      ensures Below(old(liveIn), liveIn) && Below(old(liveOut), liveOut)
      ensures liveIn == old(liveIn)[l := liveIn[l]] && liveOut == old(liveOut)[l := liveOut[l]]
      ensures liveIn == old(liveIn) && liveOut == old(liveOut) ==> SolvedAt(nodes[l], liveIn, liveOut, l)
    {
      hide IsGraphOf, Climbing, UnionOver, Below;
      UpdateClimbs(nodes, liveIn, liveOut, l);
      liveIn := liveIn[l := NewIn(nodes[l], liveOut[l])];
      liveOut := liveOut[l := UnionOver(nodes[l].succ, liveIn)];
    }

    /** One pass over all nodes, in any order. */
    method Pass() returns (change: bool)
      requires Iterating()
      modifies this`liveIn, this`liveOut
      ensures Iterating()
      ensures Below(old(liveIn), liveIn) && Below(old(liveOut), liveOut)
      ensures change <==> liveIn != old(liveIn) || liveOut != old(liveOut)
      ensures !change ==> SolvedExcept(nodes, liveIn, liveOut, {})
    {
      hide IsGraphOf, Climbing, SolvedAt;
      change := false;
      var todo := nodes.Keys;
      while todo != {}
        invariant todo <= nodes.Keys
        invariant Iterating()
        invariant Below(old(liveIn), liveIn) && Below(old(liveOut), liveOut)
        invariant change <==> liveIn != old(liveIn) || liveOut != old(liveOut)
        invariant !change ==> SolvedExcept(nodes, liveIn, liveOut, todo)
      {
        var l :| l in todo;
        todo := todo - {l};
        var in0, out0 := liveIn, liveOut;
        Update(l);
        BelowIsAntisymmetric(old(liveIn), in0, liveIn);
        BelowIsAntisymmetric(old(liveOut), out0, liveOut);
        change := change || in0[l] != liveIn[l] || out0[l] != liveOut[l];
      }
    }

    /** The instruction-level result: exactly what is live before and after instruction `i`. */
    ghost predicate Correct(i: nat)
      reads this
      requires i < |instrs|
    {
      && i in insLiveIn && i in insLiveOut
      && (forall r :: r in insLiveIn[i] <==> Live(instrs, i, r))
      && (forall r :: r in insLiveOut[i] <==> LiveAfter(instrs, i, r))
    }

    method CalculateLiveness()
      requires Valid()
      modifies this`liveIn, this`liveOut, this`insLiveIn, this`insLiveOut
      ensures Valid()
      ensures forall i :: 0 <= i < |instrs| ==> Correct(i)
    {
      hide IsGraphOf, Climbing, SolvedExcept, Closed, Correct, Missing, Universe;
      liveIn := map l | l in nodes :: {};
      liveOut := map l | l in nodes :: {};
      NothingClimbs(nodes, liveIn, liveOut);
      var change := true;
      while change
        invariant Iterating()
        invariant !change ==> SolvedExcept(nodes, liveIn, liveOut, {})
        decreases Missing(nodes, liveIn), Missing(nodes, liveOut), change
      {
        ghost var liveIn0, liveOut0 := liveIn, liveOut;
        change := Pass();
        ClimbingBounded(nodes, liveIn, liveOut);
        GrowthIsProgress(nodes, liveIn0, liveIn);
        GrowthIsProgress(nodes, liveOut0, liveOut);
      }
      FixInstructions();
    }

    /** In one pass backwards through every node, fix its instructions. */
    method FixInstructions()
      requires Iterating()
      requires SolvedExcept(nodes, liveIn, liveOut, {})
      modifies this`insLiveIn, this`insLiveOut
      ensures forall i :: 0 <= i < |instrs| ==> Correct(i)
    {
      hide Climbing, SolvedAt, SolvedExcept, IsGraphOf, Closed, Leader, EndOf, Correct;
      AllNodes();
      var todo := nodes.Keys;
      while todo != {}
        invariant todo <= nodes.Keys
        invariant forall l, i :: l in nodes && l !in todo && InNode(instrs, l, i) ==> Correct(i)
      {
        var l :| l in todo;
        todo := todo - {l};
        FixNode(l);
      }
      forall i | 0 <= i < |instrs|
        ensures Correct(i)
      {
        var l := NodeExists(instrs, i);
      }
    }

    lemma AllNodes()
      requires Valid()
      ensures forall l: nat {:trigger l in nodes} :: l in nodes <==> l < |instrs| && Leader(instrs, l)
    {
    }

    method FixNode(l: nat)
      requires Iterating() && l in nodes
      requires SolvedExcept(nodes, liveIn, liveOut, {})
      modifies this`insLiveIn, this`insLiveOut
      ensures forall i {:trigger Correct(i)} :: 0 <= i < |instrs| && old(Correct(i)) ==> Correct(i)
      ensures forall i :: InNode(instrs, l, i) ==> Correct(i)
    {
      hide Climbing, SolvedExcept, Closed, Leader, EndOf, NodeGen, NodeKill, Targets, Live, LiveAfter;
      var members := nodes[l].instructions;
      ghost var e := EndOf(instrs, l);
      assert nodes[l] == NodeAt(instrs, l);
      hide IsGraphOf;
      var k := |members| - 1;
      forall r
        ensures r in liveOut[l] <==> LiveAfter(instrs, l + k, r)
      {
        NodeLiveOut(instrs, nodes, liveIn, liveOut, l, r);
      }
      SetLive(members[k], liveOut[l]);
      while k > 0
        invariant 0 <= k < |members|
        invariant forall i {:trigger Correct(i)} :: 0 <= i < |instrs| && old(Correct(i)) ==> Correct(i)
        invariant forall i :: l + k <= i < e ==> Correct(i)
      {
        k := k - 1;
        StepInNode(instrs, l, l + k);
        assert Correct(l + k + 1) && members[k + 1] == l + k + 1;
        SetLive(members[k], insLiveIn[members[k + 1]]);
      }
    }

    method SetLive(i: nat, out: set<Register>)
      requires i < |instrs| && forall r :: r in out <==> LiveAfter(instrs, i, r)
      modifies this`insLiveIn, this`insLiveOut
      ensures Correct(i)
      ensures forall k {:trigger Correct(k)} :: 0 <= k < |instrs| && old(Correct(k)) ==> Correct(k)
    {
      hide Live, LiveAfter;
      insLiveOut := insLiveOut[i := out];
      insLiveIn := insLiveIn[i := instrs[i].Gen() + (out - instrs[i].Kill())];
      forall r
        ensures r in insLiveIn[i] <==> Live(instrs, i, r)
      {
        LiveEquation(instrs, i, r);
      }
    }
  }

  lemma BelowIsAntisymmetric(a: Flow, b: Flow, c: Flow)
    requires Below(a, b) && Below(b, c)
    ensures Below(a, c)
    ensures a == c ==> a == b
  {
    if a == c {
      forall l | l in a
        ensures a[l] == b[l]
      {
        assert a[l] <= b[l] <= c[l];
      }
    }
  }

  lemma StepInNode(p: Program, l: nat, k: nat)
    requires l <= k < |p| && k + 1 < EndOf(p, l)
    ensures forall r :: LiveAfter(p, k, r) <==> Live(p, k + 1, r)
  {
    hide Leader;
    SuccessorInNode(p, l, k);
  }

  lemma {:induction false} SuccessorInNode(p: Program, l: nat, k: nat)
    requires l <= k < |p| && k + 1 < EndOf(p, l)
    ensures CfgSucc(p, k) == {k + 1}
    decreases k - l
  {
    InsideBlock(p, l);
    if l < k {
      SuccessorInNode(p, l + 1, k);
    }
  }
}
