/**
  Two graphs on which nothing would be spilled, and moves on them whose
  coalescing makes a node that must be.
 */
module CoalescingFails {
  import opened MachineCode
  import opened Graphs
  import opened PqTest
  import opened Coalescing
  import opened AllocatorSteps
  import opened OneClass
  import opened Initialization
  import opened Shedding
  import opened CoalescingTest
  import FreezeRun

  const R0 := FreezeRun.R0
  const R1 := FreezeRun.R1
  const A := FreezeRun.A
  const B := FreezeRun.B

  /** ----- Briggs' test forgets the registers next to the nodes ----- */

  function TwoRegisters(): Target {
    FreezeRun.TwoRegisters()
  }

  /** The one move copies B to A. */
  function OneMove(t: Target): Context {
    Context(t, (m: Move) => B, (m: Move) => A)
  }

  /** A is next to one register, B to the other. */
  function Beside(): Graph {
    Graph({R0, R1, A, B}, {}, map[R0 := {A}, R1 := {B}, A := {R0}, B := {R1}])
  }

  lemma OneEach()
    ensures TwoRegisters().Q(0, 0) == 1 && |TwoRegisters().regs(0)| == 2 && TwoRegisters().Sensible()
  {
    FreezeRun.OneEach();
    FreezeRun.TwoOfThem();
    FreezeRun.TargetIsSensible();
  }

  lemma BesideIsGraph()
    ensures Beside().WellFormed()
  {
  }

  /** A graph that can be emptied is emptied node by node. */
  lemma TwoGo(g: Graph, fixed: set<Node>, a: Node, b: Node, q: nat, k: nat)
    requires a in g.adj && b in g.adj && a != b
    requires LightIn(g, a, fixed + {a, b}, q, k) && LightIn(g, b, fixed + {b}, q, k)
    ensures Sheds(g, fixed, {a, b}, q, k)
  {
    hide LightIn, Sheds;
    var none: set<Node> := {};
    NothingSheds(g, fixed, q, k);
    assert {b} - {b} == none && {a, b} - {a} == {b};
    ShedsOne(g, fixed, {b}, b, q, k);
    ShedsOne(g, fixed, {a, b}, a, q, k);
  }

  /**
    A and B have one neighbour each, a register; neither would be spilled. The test
    sees no neighbour that fails, and makes them one node with two registers next to
    it, of which there are two.
   */
  lemma BriggsForgetsRegisters()
    ensures var t := TwoRegisters(); var c := OneMove(t); var s := Initial(c, Beside(), {0});
      && Startable(c, Beside(), {0}, {}) && Shaped(s) && SameClass(t, s, 0)
      && NoSpill(t, s.graph, s.precolored, 0) && !HasEdge(t, s, A, B) && ShouldCombine(t, s, A, B)
      && s.graph.Combine(A, B).WellFormed() && !NoSpill(t, s.graph.Combine(A, B), s.precolored, 0)
  {
    hide Target.Sensible, Startable, Shaped, Graph.WellFormed, Initial, Sheds, HasEdge, ShouldCombine, Graph.Combine, SameClass;
    var c := OneMove(TwoRegisters());
    BesideIsGraph();
    BesideStarts();
    StartIs(c, Beside(), {0});
    assert Precolored(Beside()) == {R0, R1};
    BesideEmpties();
    BesideCombines(Initial(c, Beside(), {0}));
    BesideIsStuck(Initial(c, Beside(), {0}));
  }

  /** Where a round starts, when all nodes have the same class. */
  lemma StartIs(c: Context, g: Graph, ms: set<Move>)
    requires g.WellFormed() && g.masked == {} && c.t.sub(0, 0) && forall n :: c.t.classOf(n) == 0
    ensures var s := Initial(c, g, ms);
      && Shaped(s) && s.graph == g && s.precolored == Precolored(g) && SameClass(c.t, s, 0)
      && s.tempMap.Keys == g.adj.Keys && forall r :: r in s.tempMap ==> s.tempMap[r] == r
  {
    InitialShaped(c, g, ms);
    hide Shaped, Passes, Passing;
  }

  lemma BesideStarts()
    ensures Startable(OneMove(TwoRegisters()), Beside(), {0}, {})
  {
    OneEach();
    BesideIsGraph();
    hide Target.Sensible;
  }

  lemma BesideAround()
    ensures var g, fixed := Beside(), {R0, R1};
      && g.nodes - fixed == {A, B} && A in g.adj && B in g.adj && A != B
      && Around(g, A, fixed + {A, B}) == {R0} && Around(g, B, fixed + {B}) == {R1}
  {
  }

  lemma BesideEmpties()
    ensures Beside().WellFormed() && NoSpill(TwoRegisters(), Beside(), {R0, R1}, 0)
  {
    BesideIsGraph();
    OneEach();
    BesideAround();
    hide Target.Sensible, Graph.WellFormed, Sheds, Beside, Around;
    TwoGo(Beside(), {R0, R1}, A, B, 1, 2);
  }

  ghost predicate BesideState(s: State) {
    && Shaped(s) && s.graph == Beside() && s.precolored == {R0, R1} && SameClass(TwoRegisters(), s, 0)
    && forall r :: r in s.tempMap ==> s.tempMap[r] == r
  }

  lemma BesideNear(s: State)
    requires BesideState(s)
    ensures !HasEdge(TwoRegisters(), s, A, B) && Hard(TwoRegisters(), s, A, B) == {} && Fixed(s, A, B) == {R0, R1}
  {
    assert s.graph.Adjacent(A) == {R0} && s.graph.Adjacent(B) == {R1};
    hide Shaped, Graph.WellFormed, Blocked;
  }

  lemma BesideCombines(s: State)
    requires BesideState(s)
    ensures !HasEdge(TwoRegisters(), s, A, B) && ShouldCombine(TwoRegisters(), s, A, B)
  {
    assert A in s.graph.nodes - s.precolored && B in s.graph.nodes;
    BesideNear(s);
    OneEach();
    hide Shaped, Graph.WellFormed, HasEdge, ShouldCombine, Hard, Fixed, Target.Sensible, Beside;
    BriggsCounts(TwoRegisters(), s, A, B, 0);
  }

  lemma BesideIsStuck(s: State)
    requires BesideState(s)
    ensures s.graph.Combine(A, B).WellFormed() && !NoSpill(TwoRegisters(), s.graph.Combine(A, B), s.precolored, 0)
  {
    assert A in s.graph.nodes - s.precolored && B in s.graph.nodes - s.precolored && A != B;
    ShapedGraph(s);
    BesideNear(s);
    OneEach();
    hide Shaped, Graph.WellFormed, Graph.Combine, HasEdge, Sheds, Hard, Fixed, Target.Sensible, Beside;
    CombinedNodes(s.graph, A, B, s.precolored);
    TwoAreTwo();
    if NoSpill(TwoRegisters(), s.graph.Combine(A, B), s.precolored, 0) {
      RegistersStay(TwoRegisters(), s, A, B, 0);
    }
  }

  lemma TwoAreTwo()
    ensures |{R0, R1}| == 2
  {
  }

  /** ----- the test for a register takes one of its aliases for it ----- */

  const R2 := Physical(2)
  const R3 := Physical(3)

  /** Four registers, the first two of which overlap. */
  function Overlapping(): Target {
    Target((k: Class) => if k == 0 then {R0, R1, R2, R3} else {}, (a, b) => a == b,
      (r: Register) => if r == R0 || r == R1 then {R0, R1} else {r}, (r: Register) => 0)
  }

  /** A is next to B, and B to the second register; the move copies the first one to A. */
  function Chain(): Graph {
    Graph({R0, R1, A, B}, {}, map[R0 := {}, R1 := {B}, A := {B}, B := {A, R1}])
  }

  lemma OverlappingIsSensible()
    ensures Overlapping().Sensible()
  {
  }

  lemma FourOfThem()
    ensures |Overlapping().regs(0)| == 4
  {
    assert Overlapping().regs(0) == {R0, R1, R2, R3};
  }

  lemma TakenEach(r: Register)
    requires r in Overlapping().regs(0)
    ensures Overlapping().Takes(0, r) == if r == R0 || r == R1 then 2 else 1
  {
    var t := Overlapping();
    if r == R0 || r == R1 {
      assert t.alias(r) * t.regs(0) == {R0, R1};
    } else {
      assert t.alias(r) * t.regs(0) == {r};
    }
  }

  lemma TwoEach()
    ensures Overlapping().Q(0, 0) == 2 && |Overlapping().regs(0)| == 4 && Overlapping().Sensible()
  {
    var t := Overlapping();
    OverlappingIsSensible();
    FourOfThem();
    assert R0 in t.regs(0);
    hide Target.Sensible, Overlapping, Target.Takes;
    var r := t.MostTakenReached(0, t.regs(0));
    TakenEach(r);
    TakenEach(R0);
    t.MostTakenBounds(0, t.regs(0), R0);
  }

  lemma ChainIsGraph()
    ensures Chain().WellFormed()
  {
  }

  /**
    B fails the test and has no edge to the register, but to an alias of it. The
    test takes that for an edge, and B ends up next to both, which together count
    for all four registers.
   */
  lemma AliasTakenForRegister()
    ensures var t := Overlapping(); var c := Context(t, (m: Move) => R0, (m: Move) => A); var s := Initial(c, Chain(), {0});
      && Startable(c, Chain(), {0}, {}) && Shaped(s) && SameClass(t, s, 0)
      && NoSpill(t, s.graph, s.precolored, 0) && !HasEdge(t, s, R0, A) && ShouldCombine(t, s, R0, A)
      && s.graph.Combine(R0, A).WellFormed() && !NoSpill(t, s.graph.Combine(R0, A), s.precolored, 0)
  {
    hide Target.Sensible, Startable, Shaped, Graph.WellFormed, Initial, Sheds, HasEdge, ShouldCombine, Graph.Combine, SameClass;
    var c := Context(Overlapping(), (m: Move) => R0, (m: Move) => A);
    ChainIsGraph();
    ChainStarts(c);
    StartIs(c, Chain(), {0});
    assert Precolored(Chain()) == {R0, R1};
    ChainEmpties();
    ChainCombines(Initial(c, Chain(), {0}));
    ChainIsStuck(Initial(c, Chain(), {0}));
  }

  lemma ChainRegisters()
    ensures forall n :: n in Chain().nodes && n.Physical? ==> n in Overlapping().regs(Overlapping().classOf(n))
    ensures forall a, b :: a in Chain().nodes && a.Physical? && b in Chain().adj[a] && b.Physical? ==> b !in Overlapping().alias(a)
  {
  }

  lemma ChainStarts(c: Context)
    requires c.t == Overlapping() && c.src(0) == R0 && c.dst(0) == A
    ensures Startable(c, Chain(), {0}, {})
  {
    OverlappingIsSensible();
    ChainIsGraph();
    hide Target.Sensible, Graph.WellFormed;
    ChainRegisters();
  }

  lemma ChainAround()
    ensures var g, fixed := Chain(), {R0, R1};
      && g.nodes - fixed == {A, B} && A in g.adj && B in g.adj && A != B
      && Around(g, A, fixed + {A, B}) == {B} && Around(g, B, fixed + {B}) == {R1}
  {
  }

  lemma ChainEmpties()
    ensures Chain().WellFormed() && NoSpill(Overlapping(), Chain(), {R0, R1}, 0)
  {
    ChainIsGraph();
    TwoEach();
    ChainAround();
    hide Target.Sensible, Graph.WellFormed, Sheds, Chain, Around;
    TwoGo(Chain(), {R0, R1}, A, B, 2, 4);
  }

  ghost predicate ChainState(s: State) {
    && Shaped(s) && s.graph == Chain() && s.precolored == {R0, R1} && SameClass(Overlapping(), s, 0)
    && s.tempMap.Keys == Chain().nodes && forall r :: r in s.tempMap ==> s.tempMap[r] == r
  }

  lemma ChainNear(s: State)
    requires ChainState(s)
    ensures s.graph.Adjacent(A) == {B} && s.graph.Adjacent(R0) == {} && R1 in s.graph.Adjacent(B)
    ensures A in s.graph.adj && B in s.graph.adj && R0 in s.graph.adj && s.cls[R0] == s.cls[A] == 0
    ensures s.tempMap.Keys == {R0, R1, A, B} && s.tempMap[R1] == R1 && s.tempMap[R0] == R0
    ensures Overlapping().alias(R0) == {R0, R1} && !(R0 in s.graph.Adjacent(A)) && !(R1 in s.graph.Adjacent(A)) && s.graph.Adjacent(R1) == {B}
  {
  }

  lemma SubItself()
    ensures Overlapping().sub(0, 0)
  {
  }

  lemma AliasIsEdge(s: State)
    requires ChainState(s) && B in s.graph.adj && R0 in s.graph.adj
    ensures HasEdge(Overlapping(), s, B, R0)
  {
    ChainNear(s);
    hide Shaped, Graph.WellFormed, Chain, Overlapping, Graph.Adjacent;
    assert R1 in Overlapping().alias(R0) && R1 in s.tempMap && s.tempMap[R1] in s.graph.Adjacent(B);
  }

  lemma ChainNoEdge(s: State)
    requires ChainState(s) && A in s.graph.adj && R0 in s.graph.adj
    ensures !HasEdge(Overlapping(), s, R0, A)
  {
    ChainNear(s);
    hide Shaped, Graph.WellFormed, Chain, Overlapping, Graph.Adjacent;
    assert A !in {R0, R1} && A != B;
  }

  lemma ChainCombines(s: State)
    requires ChainState(s)
    ensures !HasEdge(Overlapping(), s, R0, A) && ShouldCombine(Overlapping(), s, R0, A)
  {
    ChainNear(s);
    assert OkWith(Overlapping(), s, B, R0) by {
      AliasIsEdge(s);
    }
    ChainNoEdge(s);
    hide Shaped, Graph.WellFormed, Colorable, Chain, Overlapping, OkWith, HasEdge, Graph.Adjacent;
    assert forall x :: x in s.graph.Adjacent(A) ==> x == B;
    assert R0 in s.precolored && Overlapping().sub(s.cls[R0], s.cls[A]) by {
      SubItself();
    }
  }

  lemma ChainIsStuck(s: State)
    requires ChainState(s)
    ensures s.graph.Combine(R0, A).WellFormed() && !NoSpill(Overlapping(), s.graph.Combine(R0, A), s.precolored, 0)
  {
    ShapedGraph(s);
    CombinedNodes(s.graph, R0, A, s.precolored);
    ChainCombined();
    TwoEach();
    TwoAreTwo();
    hide Shaped, Graph.WellFormed, Graph.Combine, Sheds, Target.Sensible, Chain;
    if NoSpill(Overlapping(), s.graph.Combine(R0, A), s.precolored, 0) {
      LightAmongFixed(s.graph.Combine(R0, A), s.precolored, {B}, B, 2, 4);
    }
  }

  lemma ChainCombined()
    ensures var c := Chain().Combine(R0, A);
      c.nodes - {R0, R1} == {B} && B in c.adj && B !in c.adj[B] && Around(c, B, {R0, R1}) == {R0, R1}
  {
  }
}
