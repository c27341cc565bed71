/**
  The liveness equations over the nodes of a graph, and what their least
  solution means.
 */
module Dataflow {
  import opened MachineCode

  type Flow = map<nat, set<Register>>

  /** A node bundles instructions (by position); `gen` and `kill` are their combined effect. */
  datatype Node = Node(instructions: seq<nat>, gen: set<Register>, kill: set<Register>, succ: set<nat>)

  type Graph = map<nat, Node>

  ghost predicate Closed(g: Graph) {
    forall l {:trigger g[l]} :: l in g ==> g[l].succ <= g.Keys
  }

  /** `r` is generated `n` nodes ahead of `l`, and killed nowhere before. */
  ghost predicate NeedsIn(g: Graph, l: nat, r: Register, n: nat)
    decreases n
  {
    && l in g
    && if n == 0 then r in g[l].gen
       else r !in g[l].kill && exists s :: s in g[l].succ && NeedsIn(g, s, r, n - 1)
  }

  ghost predicate Needs(g: Graph, l: nat, r: Register) {
    exists n: nat :: NeedsIn(g, l, r, n)
  }

  lemma NeedsEquation(g: Graph, l: nat, r: Register)
    requires l in g
    ensures Needs(g, l, r) <==> r in g[l].gen || (r !in g[l].kill && exists s :: s in g[l].succ && Needs(g, s, r))
  {
    if Needs(g, l, r) {
      var n: nat :| NeedsIn(g, l, r, n);
      if n > 0 {
        var s :| s in g[l].succ && NeedsIn(g, s, r, n - 1);
        assert Needs(g, s, r);
      }
    }
    if r in g[l].gen {
      assert NeedsIn(g, l, r, 0);
    } else if r !in g[l].kill && exists s :: s in g[l].succ && Needs(g, s, r) {
      var s :| s in g[l].succ && Needs(g, s, r);
      var n: nat :| NeedsIn(g, s, r, n);
      assert NeedsIn(g, l, r, n + 1);
    }
  }

  function UnionOver(succ: set<nat>, flow: Flow): set<Register>
    requires succ <= flow.Keys
  {
    set s, r | s in succ && r in flow[s] :: r
  }

  /** The equations at node `l`: live_in = gen + (live_out - kill), live_out = union of successors' live_in. */
  predicate SolvedAt(node: Node, liveIn: Flow, liveOut: Flow, l: nat)
    requires node.succ <= liveIn.Keys && l in liveIn && l in liveOut
  {
    && liveIn[l] == node.gen + (liveOut[l] - node.kill)
    && liveOut[l] == UnionOver(node.succ, liveIn)
  }

  /** live_in[l] contains what is generated, and what passes from the successors. */
  ghost predicate CoveredAt(node: Node, liveIn: Flow, l: nat, r: Register)
    requires node.succ <= liveIn.Keys && l in liveIn
  {
    r in node.gen || (r !in node.kill && exists s :: s in node.succ && r in liveIn[s]) ==> r in liveIn[l]
  }

  lemma SolvedIsCovered(node: Node, liveIn: Flow, liveOut: Flow, l: nat, r: Register)
    requires node.succ <= liveIn.Keys && l in liveIn && l in liveOut && SolvedAt(node, liveIn, liveOut, l)
    ensures CoveredAt(node, liveIn, l, r)
  {
  }

  /** Every solution of the equations contains all that is needed. */
  lemma {:induction false} SolutionContains(g: Graph, liveIn: Flow, l: nat, r: Register, n: nat)
    requires Closed(g) && liveIn.Keys == g.Keys
    requires forall k {:trigger g[k]} :: k in g ==> CoveredAt(g[k], liveIn, k, r)
    requires NeedsIn(g, l, r, n)
    ensures r in liveIn[l]
    decreases n
  {
    assert CoveredAt(g[l], liveIn, l, r);
    if n > 0 {
      var s :| s in g[l].succ && NeedsIn(g, s, r, n - 1);
      SolutionContains(g, liveIn, s, r, n - 1);
    }
  }

  /** ----- the iteration ----- */

  /** All registers that can ever be live. */
  ghost function Universe(g: Graph): set<Register> {
    set l, r | l in g && r in g[l].gen :: r
  }

  /** What holds of the sets while the iteration climbs: they are below the solution. */
  ghost predicate Climbing(g: Graph, liveIn: Flow, liveOut: Flow)
    requires Closed(g) && liveIn.Keys == liveOut.Keys == g.Keys
  {
    forall l {:trigger liveIn[l]} {:trigger liveOut[l]} :: l in g ==> ClimbingAt(g, liveIn, liveOut, l)
  }

  /** The equations hold at every node outside `todo`. */
  ghost predicate SolvedExcept(g: Graph, liveIn: Flow, liveOut: Flow, todo: set<nat>)
    requires Closed(g) && liveIn.Keys == liveOut.Keys == g.Keys
  {
    forall l {:trigger g[l]} :: l in g && l !in todo ==> SolvedAt(g[l], liveIn, liveOut, l)
  }

  ghost predicate ClimbingAt(g: Graph, liveIn: Flow, liveOut: Flow, l: nat)
    requires Closed(g) && liveIn.Keys == liveOut.Keys == g.Keys && l in g
  {
    && liveIn[l] <= g[l].gen + (liveOut[l] - g[l].kill)
    && liveOut[l] <= UnionOver(g[l].succ, liveIn)
    && liveIn[l] <= Universe(g)
    && forall r :: r in liveIn[l] ==> Needs(g, l, r)
  }

  ghost predicate Below(a: Flow, b: Flow) {
    a.Keys == b.Keys && forall l {:trigger a[l]} {:trigger b[l]} :: l in a ==> a[l] <= b[l]
  }

  function NewIn(node: Node, out: set<Register>): set<Register> {
    node.gen + (out - node.kill)
  }

  lemma NothingClimbs(g: Graph, liveIn: Flow, liveOut: Flow)
    requires Closed(g) && liveIn.Keys == liveOut.Keys == g.Keys
    requires forall l :: l in g ==> liveIn[l] == {} && liveOut[l] == {}
    ensures Climbing(g, liveIn, liveOut)
  {
  }

  lemma UnionGrows(succ: set<nat>, a: Flow, b: Flow)
    requires Below(a, b) && succ <= a.Keys
    ensures UnionOver(succ, a) <= UnionOver(succ, b)
  {
  }

  lemma InIsNeeded(g: Graph, liveIn: Flow, liveOut: Flow, l: nat)
    requires Closed(g) && liveIn.Keys == liveOut.Keys == g.Keys && Climbing(g, liveIn, liveOut) && l in g
    ensures liveIn[l] <= NewIn(g[l], liveOut[l]) <= Universe(g)
    ensures forall r :: r in NewIn(g[l], liveOut[l]) ==> Needs(g, l, r)
  {
    assert ClimbingAt(g, liveIn, liveOut, l);
    forall r | r in NewIn(g[l], liveOut[l])
      ensures Needs(g, l, r) && r in Universe(g)
    {
      NeedsEquation(g, l, r);
      if r !in g[l].gen {
        var s :| s in g[l].succ && r in liveIn[s];
        assert ClimbingAt(g, liveIn, liveOut, s);
      }
    }
  }

  /** Recomputing one node keeps the sets below the solution, and they only grow. */
  lemma UpdateClimbs(g: Graph, liveIn: Flow, liveOut: Flow, l: nat)
    requires Closed(g) && liveIn.Keys == liveOut.Keys == g.Keys && Climbing(g, liveIn, liveOut) && l in g
    ensures var liveIn1 := liveIn[l := NewIn(g[l], liveOut[l])];
            var liveOut1 := liveOut[l := UnionOver(g[l].succ, liveIn1)];
            Climbing(g, liveIn1, liveOut1) && Below(liveIn, liveIn1) && Below(liveOut, liveOut1)
  {
    var liveIn1 := liveIn[l := NewIn(g[l], liveOut[l])];
    var liveOut1 := liveOut[l := UnionOver(g[l].succ, liveIn1)];
    InIsNeeded(g, liveIn, liveOut, l);
    assert Below(liveIn, liveIn1);
    assert ClimbingAt(g, liveIn, liveOut, l);
    UnionGrows(g[l].succ, liveIn, liveIn1);
    assert Below(liveOut, liveOut1);
    forall k | k in g
      ensures ClimbingAt(g, liveIn1, liveOut1, k)
    {
      assert ClimbingAt(g, liveIn, liveOut, k);
      UnionGrows(g[k].succ, liveIn, liveIn1);
    }
  }

  /** The pairs still missing from a flow. */
  ghost function Missing(g: Graph, flow: Flow): set<(nat, Register)>
    requires flow.Keys == g.Keys
  {
    set l, r | l in g && r in Universe(g) - flow[l] :: (l, r)
  }

  lemma GrowthIsProgress(g: Graph, a: Flow, b: Flow)
    requires Below(a, b) && a.Keys == g.Keys
    requires forall l :: l in g ==> b[l] <= Universe(g)
    ensures Missing(g, b) <= Missing(g, a)
    ensures a != b ==> Missing(g, b) < Missing(g, a)
  {
    if a != b {
      var l :| l in g && a[l] != b[l];
      var r :| r in b[l] && r !in a[l];
      assert (l, r) in Missing(g, a) && (l, r) !in Missing(g, b);
    }
  }

  lemma ClimbingBounded(g: Graph, liveIn: Flow, liveOut: Flow)
    requires Closed(g) && liveIn.Keys == liveOut.Keys == g.Keys && Climbing(g, liveIn, liveOut)
    ensures forall l :: l in g ==> liveIn[l] <= Universe(g) && liveOut[l] <= Universe(g)
  {
    forall l | l in g
      ensures liveIn[l] <= Universe(g) && liveOut[l] <= Universe(g)
    {
      assert ClimbingAt(g, liveIn, liveOut, l);
      forall r | r in liveOut[l]
        ensures r in Universe(g)
      {
        var s :| s in g[l].succ && r in liveIn[s];
        assert ClimbingAt(g, liveIn, liveOut, s);
      }
    }
  }

  /** A climbing solution is the least one: it holds what is needed and nothing else. */
  lemma SolutionIsLeast(g: Graph, liveIn: Flow, liveOut: Flow, l: nat, r: Register)
    requires Closed(g) && liveIn.Keys == liveOut.Keys == g.Keys && Climbing(g, liveIn, liveOut) && l in g
    requires SolvedExcept(g, liveIn, liveOut, {})
    ensures r in liveIn[l] <==> Needs(g, l, r)
  {
    assert ClimbingAt(g, liveIn, liveOut, l);
    if Needs(g, l, r) {
      forall k | k in g
        ensures CoveredAt(g[k], liveIn, k, r)
      {
        SolvedIsCovered(g[k], liveIn, liveOut, k, r);
      }
      var n: nat :| NeedsIn(g, l, r, n);
      SolutionContains(g, liveIn, l, r, n);
    }
  }

  lemma OutIsNeeded(g: Graph, liveIn: Flow, liveOut: Flow, l: nat, r: Register)
    requires Closed(g) && liveIn.Keys == liveOut.Keys == g.Keys && Climbing(g, liveIn, liveOut) && l in g
    requires SolvedExcept(g, liveIn, liveOut, {})
    ensures r in liveOut[l] <==> exists s :: s in g[l].succ && Needs(g, s, r)
  {
    assert SolvedAt(g[l], liveIn, liveOut, l);
    forall s | s in g[l].succ
      ensures r in liveIn[s] <==> Needs(g, s, r)
    {
      SolutionIsLeast(g, liveIn, liveOut, s, r);
    }
    hide SolvedExcept, Climbing, Needs;
  }
}
