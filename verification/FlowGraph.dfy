/**
  The flow graph of a function and liveness analysis on it.  Instructions are
  bundled into nodes that start at a leader; liveness is a fixpoint over the
  nodes, then one backwards pass inside each node.
 */
module FlowGraphs {
  import opened MachineCode
  import opened Dataflow

  /** ----- the control flow that the graph represents ----- */

  predicate Targeted(p: Program, i: nat)
    requires i < |p|
  {
    exists j :: 0 <= j < |p| && p[i].id in p[j].jumps
  }

  predicate AfterJump(p: Program, i: nat)
    requires i < |p|
  {
    i == 0 || p[i - 1].jumps != []
  }

  predicate Leader(p: Program, i: nat)
    requires i < |p|
  {
    AfterJump(p, i) || Targeted(p, i)
  }

  function Targets(p: Program, i: nat): set<nat>
    requires i < |p|
  {
    set j | 0 <= j < |p| && p[j].id in p[i].jumps
  }

  /** Successors as the flow graph sees them: a node without a jump ends the flow. */
  function CfgSucc(p: Program, i: nat): set<nat>
    requires i < |p|
  {
    if p[i].jumps != [] then Targets(p, i)
    else if i + 1 < |p| && !Leader(p, i + 1) then {i + 1}
    else {}
  }

  /** Successors as the machine executes: without a jump, control falls through. */
  function MachineSucc(p: Program, i: nat): set<nat>
    requires i < |p|
  {
    if p[i].jumps != [] then Targets(p, i)
    else if i + 1 < |p| then {i + 1}
    else {}
  }

  predicate LeadersFollowJumps(p: Program) {
    forall i :: 0 < i < |p| && Leader(p, i) ==> p[i - 1].jumps != []
  }

  function Simple(id: nat, jumps: seq<nat>): Instr {
    Instr(id, Ordinary(0), [], [], [], [], {}, jumps, false)
  }

  /** A loop whose start is fallen into: the graph has no edge to it. */
  lemma FallThroughIsMissed()
    ensures var p := [Simple(0, []), Simple(1, []), Simple(2, [1])];
      WellFormed(p) && CfgSucc(p, 0) == {} && MachineSucc(p, 0) == {1}
  {
    var p := [Simple(0, []), Simple(1, []), Simple(2, [1])];
    assert p[1].id in p[2].jumps;
    assert Targeted(p, 1);
  }

  /** The flow graph misses no control flow exactly when every leader after the first
      follows a jump. */
  lemma FallThroughExact(p: Program)
    ensures (forall i :: 0 <= i < |p| ==> CfgSucc(p, i) == MachineSucc(p, i)) <==> LeadersFollowJumps(p)
  {
    if forall i :: 0 <= i < |p| ==> CfgSucc(p, i) == MachineSucc(p, i) {
      forall i | 0 < i < |p| && Leader(p, i)
        ensures p[i - 1].jumps != []
      {
        assert CfgSucc(p, i - 1) == MachineSucc(p, i - 1);
        assert i !in CfgSucc(p, i - 1) || p[i - 1].jumps != [];
      }
    }
  }

  /** ----- what liveness means ----- */

  /** Control can go in `n` steps from `i` to a use of `r`, without a redefinition on the way. */
  ghost predicate UsedIn(p: Program, i: nat, r: Register, n: nat)
    decreases n
  {
    && i < |p|
    && if n == 0 then r in p[i].Gen()
       else r !in p[i].Kill() && exists j :: j in CfgSucc(p, i) && UsedIn(p, j, r, n - 1)
  }

  ghost predicate Live(p: Program, i: nat, r: Register) {
    exists n: nat :: UsedIn(p, i, r, n)
  }

  ghost predicate LiveAfter(p: Program, i: nat, r: Register)
    requires i < |p|
  {
    exists j :: j in CfgSucc(p, i) && Live(p, j, r)
  }

  lemma LiveEquation(p: Program, i: nat, r: Register)
    requires i < |p|
    ensures Live(p, i, r) <==> r in p[i].Gen() || (r !in p[i].Kill() && LiveAfter(p, i, r))
  {
    if Live(p, i, r) {
      var n: nat :| UsedIn(p, i, r, n);
      if n > 0 {
        var j :| j in CfgSucc(p, i) && UsedIn(p, j, r, n - 1);
        assert Live(p, j, r);
      }
    }
    if r in p[i].Gen() {
      assert UsedIn(p, i, r, 0);
    } else if r !in p[i].Kill() && LiveAfter(p, i, r) {
      var j :| j in CfgSucc(p, i) && Live(p, j, r);
      var n: nat :| UsedIn(p, j, r, n);
      assert UsedIn(p, i, r, n + 1);
    }
  }

  /** A way through the code to an instruction that uses `r`, none before it defining `r`. */
  predicate WayToUse(p: Program, way: seq<nat>, r: Register) {
    && way != []
    && (forall k :: 0 <= k < |way| ==> way[k] < |p|)
    && (forall k :: 0 < k < |way| ==> way[k] in CfgSucc(p, way[k - 1]))
    && (forall k :: 0 <= k < |way| - 1 ==> r !in p[way[k]].Kill())
    && r in p[way[|way| - 1]].Gen()
  }

  lemma {:induction false} UsedInIsWay(p: Program, i: nat, r: Register, n: nat) returns (way: seq<nat>)
    requires UsedIn(p, i, r, n)
    ensures WayToUse(p, way, r) && way[0] == i
    decreases n
  {
    way := [i];
    if n > 0 {
      var j :| j in CfgSucc(p, i) && UsedIn(p, j, r, n - 1);
      var rest := UsedInIsWay(p, j, r, n - 1);
      hide CfgSucc;
      way := [i] + rest;
    }
  }

  lemma {:induction false} WayIsUsedIn(p: Program, way: seq<nat>, r: Register)
    requires WayToUse(p, way, r)
    ensures UsedIn(p, way[0], r, |way| - 1)
    decreases |way|
  {
    hide CfgSucc;
    if |way| > 1 {
      var rest := way[1..];
      assert WayToUse(p, rest, r) by {
        assert forall k :: 0 < k < |rest| ==> rest[k] in CfgSucc(p, rest[k - 1]) by {
          assert forall k :: 0 < k < |rest| ==> rest[k] == way[k + 1] && rest[k - 1] == way[k];
        }
      }
      WayIsUsedIn(p, rest, r);
    }
  }

  /** A register is live exactly where some way leads to a use of it before any definition. */
  lemma LiveWhen(p: Program, i: nat, r: Register)
    ensures Live(p, i, r) <==> exists way :: WayToUse(p, way, r) && way[0] == i
  {
    hide UsedIn;
    if Live(p, i, r) {
      var n: nat :| UsedIn(p, i, r, n);
      var way := UsedInIsWay(p, i, r, n);
    }
    forall way | WayToUse(p, way, r) && way[0] == i
      ensures Live(p, i, r)
    {
      WayIsUsedIn(p, way, r);
      assert UsedIn(p, i, r, |way| - 1);
    }
  }

  /** ----- nodes: runs of instructions from a leader to before the next one ----- */

  /** The end of the node that instruction `k` is in. */
  function EndOf(p: Program, k: nat): (e: nat)
    requires k < |p|
    ensures k < e <= |p|
    decreases |p| - k
  {
    if k + 1 == |p| || Leader(p, k + 1) then k + 1 else EndOf(p, k + 1)
  }

  function KillOf(p: Program, l: nat, e: nat): set<Register>
    requires l <= e <= |p|
    decreases e
  {
    if l == e then {} else KillOf(p, l, e - 1) + p[e - 1].Kill()
  }

  /** The effect of bundling the instructions from `l` up to `e`, one at a time. */
  function GenOf(p: Program, l: nat, e: nat): set<Register>
    requires l <= e <= |p|
    decreases e
  {
    if l == e then {} else GenOf(p, l, e - 1) + (p[e - 1].Gen() - KillOf(p, l, e - 1))
  }

  /** `node.gen` and `node.kill` of the node `l..e`. */
  function NodeGen(p: Program, l: nat, e: nat): set<Register>
    requires l <= e <= |p|
  {
    GenOf(p, l, e)
  }

  function NodeKill(p: Program, l: nat, e: nat): set<Register>
    requires l <= e <= |p|
  {
    KillOf(p, l, e)
  }

  lemma {:induction false} KillFromFront(p: Program, l: nat, e: nat)
    requires l < e <= |p|
    ensures KillOf(p, l, e) == p[l].Kill() + KillOf(p, l + 1, e)
    decreases e
  {
    if l + 1 < e {
      KillFromFront(p, l, e - 1);
    }
  }

  /** Bundling forwards agrees with the backwards equation of the first instruction. */
  lemma {:induction false} GenFromFront(p: Program, l: nat, e: nat)
    requires l < e <= |p|
    ensures GenOf(p, l, e) == p[l].Gen() + (GenOf(p, l + 1, e) - p[l].Kill())
    decreases e
  {
    if l + 1 < e {
      GenFromFront(p, l, e - 1);
      KillFromFront(p, l, e - 1);
    } else {
      assert GenOf(p, l, e) == p[l].Gen();
      assert GenOf(p, l + 1, e) == {};
    }
  }

  lemma InsideBlock(p: Program, k: nat)
    requires k < |p| && k + 1 < EndOf(p, k)
    ensures p[k].jumps == [] && CfgSucc(p, k) == {k + 1} && EndOf(p, k + 1) == EndOf(p, k)
  {
  }

  lemma EndOfBlock(p: Program, k: nat)
    requires k < |p| && k + 1 == EndOf(p, k)
    ensures CfgSucc(p, k) == Targets(p, k)
  {
    if p[k].jumps == [] {
      assert Targets(p, k) == {};
    }
  }

  lemma {:induction false} LastOfBlock(p: Program, k: nat)
    requires k < |p|
    ensures CfgSucc(p, EndOf(p, k) - 1) == Targets(p, EndOf(p, k) - 1)
    decreases |p| - k
  {
    if k + 1 < EndOf(p, k) {
      InsideBlock(p, k);
      LastOfBlock(p, k + 1);
    } else {
      EndOfBlock(p, k);
    }
  }

  lemma TargetIsLeader(p: Program, i: nat, s: nat)
    requires i < |p| && s in Targets(p, i)
    ensures Leader(p, s)
  {
    assert Targeted(p, s);
  }

  /** ----- from instructions to nodes ----- */

  function Positions(l: nat, e: nat): (s: seq<nat>)
    requires l <= e
  {
    seq(e - l, k requires 0 <= k < e - l => l + k)
  }

  /** The node of the leader `l`: its instructions, their combined effect, and where its jumps go. */
  function NodeAt(p: Program, l: nat): Node
    requires l < |p|
  {
    var e := EndOf(p, l);
    Node(Positions(l, e), NodeGen(p, l, e), NodeKill(p, l, e), Targets(p, e - 1))
  }

  /** The graph with a node for every leader. */
  ghost predicate IsGraphOf(g: Graph, p: Program) {
    && (forall l: nat {:trigger l in g} :: l in g <==> l < |p| && Leader(p, l))
    && (forall l {:trigger g[l]} :: l in g ==> l < |p| && g[l] == NodeAt(p, l))
  }

  /** `r` is used in `k..e` before it is redefined, or passes through to a node where it is needed. */
  ghost predicate Needed(g: Graph, p: Program, k: nat, r: Register)
    requires k < |p|
  {
    || r in NodeGen(p, k, EndOf(p, k))
    || (r !in NodeKill(p, k, EndOf(p, k)) && exists s :: s in Targets(p, EndOf(p, k) - 1) && Needs(g, s, r))
  }

  lemma OneInstruction(p: Program, k: nat)
    requires k < |p|
    ensures NodeGen(p, k, k + 1) == p[k].Gen() && NodeKill(p, k, k + 1) == p[k].Kill()
  {
    assert GenOf(p, k, k) == {} && KillOf(p, k, k) == {};
  }

  /** One step backwards over an instruction that does not end its node. */
  lemma NeededStep(g: Graph, p: Program, k: nat, r: Register)
    requires k < |p| && k + 1 < EndOf(p, k)
    ensures Needed(g, p, k, r) <==> r in p[k].Gen() || (r !in p[k].Kill() && Needed(g, p, k + 1, r))
  {
    InsideBlock(p, k);
    GenFromFront(p, k, EndOf(p, k));
    KillFromFront(p, k, EndOf(p, k));
  }

  lemma NeededAtEnd(g: Graph, p: Program, k: nat, r: Register)
    requires k < |p| && k + 1 == EndOf(p, k)
    ensures Needed(g, p, k, r) <==>
      r in p[k].Gen() || (r !in p[k].Kill() && exists s :: s in CfgSucc(p, k) && Needs(g, s, r))
  {
    EndOfBlock(p, k);
    OneInstruction(p, k);
  }

  lemma NeededAtLeader(g: Graph, p: Program, l: nat, r: Register)
    requires IsGraphOf(g, p) && l in g
    ensures l < |p| && (Needed(g, p, l, r) <==> Needs(g, l, r))
  {
    NeedsEquation(g, l, r);
    assert g[l] == NodeAt(p, l);
  }

  lemma EndsAtLeaders(g: Graph, p: Program, k: nat, s: nat)
    requires IsGraphOf(g, p)
    requires k < |p| && k + 1 == EndOf(p, k) && s in CfgSucc(p, k)
    ensures s in g
  {
    EndOfBlock(p, k);
    TargetIsLeader(p, k, s);
  }

  /** What is live according to the instructions is needed according to the nodes. */
  lemma {:induction false} LiveIsNeeded(g: Graph, p: Program, k: nat, r: Register, n: nat)
    requires IsGraphOf(g, p) && UsedIn(p, k, r, n)
    ensures Needed(g, p, k, r)
    decreases n
  {
    if k + 1 < EndOf(p, k) {
      NeededStep(g, p, k, r);
    } else {
      NeededAtEnd(g, p, k, r);
    }
    if n > 0 {
      var s :| s in CfgSucc(p, k) && UsedIn(p, s, r, n - 1);
      LiveIsNeeded(g, p, s, r, n - 1);
      if k + 1 < EndOf(p, k) {
        InsideBlock(p, k);
      } else {
        EndsAtLeaders(g, p, k, s);
        NeededAtLeader(g, p, s, r);
      }
    }
  }

  /** What a node generates, or lets through to where it is live, is live in the node. */
  lemma {:induction false} NodeSound(p: Program, k: nat, r: Register)
    requires k < |p|
    requires r in NodeGen(p, k, EndOf(p, k)) || (r !in NodeKill(p, k, EndOf(p, k)) && LiveAfter(p, EndOf(p, k) - 1, r))
    ensures Live(p, k, r)
    decreases |p| - k
  {
    var e := EndOf(p, k);
    LiveEquation(p, k, r);
    if k + 1 < e {
      GenFromFront(p, k, e);
      KillFromFront(p, k, e);
      InsideBlock(p, k);
      if r !in p[k].Gen() {
        NodeSound(p, k + 1, r);
        assert k + 1 in CfgSucc(p, k);
      }
    } else {
      OneInstruction(p, k);
    }
  }

  lemma NeedsStep(g: Graph, p: Program, l: nat, r: Register, n: nat) returns (s: nat)
    requires IsGraphOf(g, p) && NeedsIn(g, l, r, n)
    ensures l < |p|
    ensures n == 0 ==> r in NodeGen(p, l, EndOf(p, l))
    ensures n > 0 ==> r !in NodeKill(p, l, EndOf(p, l)) && s in Targets(p, EndOf(p, l) - 1) && NeedsIn(g, s, r, n - 1)
  {
    hide Leader, Targets, EndOf;
    assert l in g;
    assert g[l] == NodeAt(p, l);
    s := l;
    if n > 0 {
      s :| s in g[l].succ && NeedsIn(g, s, r, n - 1);
    }
  }

  /** What is needed according to the nodes is live according to the instructions. */
  lemma {:induction false} NeededIsLive(g: Graph, p: Program, l: nat, r: Register, n: nat)
    requires IsGraphOf(g, p) && NeedsIn(g, l, r, n)
    ensures Live(p, l, r)
    decreases n
  {
    hide Leader, Targets, EndOf;
    var s := NeedsStep(g, p, l, r, n);
    if n > 0 {
      NeededIsLive(g, p, s, r, n - 1);
      LastOfBlock(p, l);
      assert LiveAfter(p, EndOf(p, l) - 1, r);
    }
    NodeSound(p, l, r);
  }

  /** Composing gen and kill over nodes loses nothing: the node equations and the
      instruction equations have the same least solution at every leader. */
  lemma NodesAgreeWithInstructions(g: Graph, p: Program, l: nat, r: Register)
    requires IsGraphOf(g, p) && l in g
    ensures Needs(g, l, r) <==> Live(p, l, r)
  {
    if Needs(g, l, r) {
      var n: nat :| NeedsIn(g, l, r, n);
      NeededIsLive(g, p, l, r, n);
    }
    if Live(p, l, r) {
      var n: nat :| UsedIn(p, l, r, n);
      LiveIsNeeded(g, p, l, r, n);
      NeededAtLeader(g, p, l, r);
    }
  }
}
