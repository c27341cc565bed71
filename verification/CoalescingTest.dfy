/**
  What the tests of `coalesc` are for: when two nodes are combined, and that the
  graph can still be emptied afterwards.
 */
module CoalescingTest {
  import opened MachineCode
  import opened Graphs
  import opened PqTest
  import opened Coalescing
  import opened ColoringInvariant
  import opened MovesInvariant
  import opened MeaningInvariant
  import opened AllocatorSteps
  import opened OneClass
  import opened Shedding

  /** With one class the pq-test counts neighbours. */
  lemma {:induction false} BlockedIsCount(t: Target, cls: Classes, k: Class, ns: set<Node>)
    requires ns <= cls.Keys && forall n :: n in ns ==> cls[n] == k
    ensures Blocked(t, cls, k, ns) == |ns| * t.Q(k, k)
    decreases ns
  {
    if ns != {} {
      var n :| n in ns;
      BlockedSplit(t, cls, k, ns, n);
      BlockedIsCount(t, cls, k, ns - {n});
      assert |ns| == |ns - {n}| + 1;
      Distribute(|ns - {n}|, t.Q(k, k));
    }
  }

  lemma Distribute(a: nat, q: nat)
    ensures (a + 1) * q == a * q + q
  {
  }

  lemma PassesIsLight(t: Target, s: State, k: Class, n: Node)
    requires Shaped(s) && SameClass(t, s, k) && n in s.graph.adj && n !in s.precolored
    ensures Colorable(t, s, n) <==> LightIn(s.graph, n, s.graph.nodes, t.Q(k, k), |t.regs(k)|)
  {
    BlockedIsCount(t, s.cls, k, s.graph.Adjacent(n));
    assert Around(s.graph, n, s.graph.nodes) == s.graph.Adjacent(n);
  }

  /** The nodes without a colour can be simplified one after the other: nothing would be spilled. */
  ghost predicate NoSpill(t: Target, g: Graph, precolored: set<Node>, k: Class)
    requires g.WellFormed()
  {
    Sheds(g, precolored, g.nodes - precolored, t.Q(k, k), |t.regs(k)|)
  }

  /** No register but itself is an alias of the node's, and the node is where its register is. */
  ghost predicate Alone(t: Target, s: State, u: Node) {
    t.alias(u) == {u} && (u in s.tempMap ==> s.tempMap[u] == u)
  }

  /** What the shape of a state says about its graph. */
  lemma ShapedGraph(s: State)
    requires Shaped(s)
    ensures s.graph.WellFormed() && s.precolored <= s.graph.nodes <= s.graph.adj.Keys && s.cls.Keys == s.graph.adj.Keys
    ensures s.precolored + (s.graph.nodes - s.precolored) == s.graph.nodes
  {
  }

  lemma NoEdge(t: Target, s: State, u: Node, v: Node)
    requires Shaped(s) && u in s.graph.nodes && v in s.graph.nodes && !HasEdge(t, s, u, v)
    ensures v !in s.graph.adj[u]
  {
  }

  lemma CombinedNodes(g: Graph, u: Node, v: Node, precolored: set<Node>)
    requires g.WellFormed() && u in g.nodes && v in g.nodes && u != v
    ensures g.Combine(u, v).WellFormed() && g.Combine(u, v).nodes - precolored == g.nodes - precolored - {v}
    ensures u in g.Combine(u, v).nodes && g.nodes - precolored - {v} <= g.Combine(u, v).adj.Keys
  {
    CombineWellFormed(g, u, v);
  }

  /** The neighbours that are asked about pass the test, or are next to the precoloured node. */
  lemma AskedNeighbours(t: Target, s: State, u: Node, v: Node, k: Class)
    requires Shaped(s) && SameClass(t, s, k) && Alone(t, s, u)
    requires u in s.precolored && v in s.graph.nodes && ShouldCombine(t, s, u, v)
    ensures forall x :: x in s.graph.Adjacent(v) && x !in s.precolored ==>
      x in s.graph.adj && (LightIn(s.graph, x, s.graph.nodes, t.Q(k, k), |t.regs(k)|) || u in s.graph.adj[x])
  {
    forall x | x in s.graph.Adjacent(v) && x !in s.precolored
      ensures x in s.graph.adj && (LightIn(s.graph, x, s.graph.nodes, t.Q(k, k), |t.regs(k)|) || u in s.graph.adj[x])
    {
      assert OkWith(t, s, x, u);
      PassesIsLight(t, s, k, x);
      hide LightIn, Colorable;
    }
  }

  /**
    The test for a precoloured node is safe with one class and without aliases:
    what would not have been spilled is not spilled because of it.
   */
  lemma PrecolouredTestIsSafe(t: Target, s: State, u: Node, v: Node, k: Class)
    requires Shaped(s) && SameClass(t, s, k) && Alone(t, s, u)
    requires u in s.precolored && v in s.graph.nodes - s.precolored && !HasEdge(t, s, u, v)
    requires ShouldCombine(t, s, u, v) && NoSpill(t, s.graph, s.precolored, k)
    ensures s.graph.Combine(u, v).WellFormed() && NoSpill(t, s.graph.Combine(u, v), s.precolored, k)
  {
    hide Shaped, Sheds, LightIn, ShouldCombine, HasEdge, SameClass, Graph.Combine, Graph.WellFormed;
    var g, fixed, rest := s.graph, s.precolored, s.graph.nodes - s.precolored;
    ShapedGraph(s);
    NoEdge(t, s, u, v);
    AskedNeighbours(t, s, u, v, k);
    StaysWithFixed(g, fixed, rest, u, v, t.Q(k, k), |t.regs(k)|);
    CombinedNodes(g, u, v, fixed);
  }

  /** ----- Briggs' test ----- */

  /** The precoloured neighbours of two nodes. */
  function Fixed(s: State, u: Node, v: Node): set<Node>
    requires u in s.graph.adj && v in s.graph.adj
  {
    (s.graph.Adjacent(u) + s.graph.Adjacent(v)) * s.precolored
  }

  /** Those that fail the pq-test. */
  ghost function Hard(t: Target, s: State, u: Node, v: Node): set<Node>
    requires Shaped(s) && u in s.graph.adj && v in s.graph.adj
  {
    set n | n in s.graph.Adjacent(u) + s.graph.Adjacent(v) && !Colorable(t, s, n)
  }

  /** The combined node has a register left, whatever these get. */
  ghost predicate Leaves(t: Target, k: Class, ns: set<Node>) {
    Light(t.Q(k, k), |t.regs(k)|, |ns|)
  }

  lemma BriggsCounts(t: Target, s: State, u: Node, v: Node, k: Class)
    requires Shaped(s) && SameClass(t, s, k) && u in s.graph.nodes - s.precolored && v in s.graph.nodes
    ensures ShouldCombine(t, s, u, v) <==> Leaves(t, k, Hard(t, s, u, v))
  {
    BlockedIsCount(t, s.cls, k, Hard(t, s, u, v));
    hide Colorable;
  }

  lemma CountedIsHard(t: Target, s: State, u: Node, v: Node, k: Class)
    requires Shaped(s) && SameClass(t, s, k) && u in s.graph.adj && v in s.graph.adj
    ensures (set x | x in s.graph.Adjacent(u) + s.graph.Adjacent(v) &&
      (x in s.precolored || !LightIn(s.graph, x, s.graph.nodes, t.Q(k, k), |t.regs(k)|))) == Fixed(s, u, v) + Hard(t, s, u, v)
  {
    forall x | x in s.graph.Adjacent(u) + s.graph.Adjacent(v) && x !in s.precolored
      ensures Colorable(t, s, x) <==> LightIn(s.graph, x, s.graph.nodes, t.Q(k, k), |t.regs(k)|)
    {
      PassesIsLight(t, s, k, x);
    }
    hide LightIn;
  }

  lemma RoomyIsSafe(t: Target, s: State, u: Node, v: Node, k: Class)
    requires Shaped(s) && SameClass(t, s, k)
    requires u in s.graph.nodes - s.precolored && v in s.graph.nodes - s.precolored && u != v && v !in s.graph.adj[u]
    requires NoSpill(t, s.graph, s.precolored, k) && Leaves(t, k, Fixed(s, u, v) + Hard(t, s, u, v))
    ensures s.graph.Combine(u, v).WellFormed() && NoSpill(t, s.graph.Combine(u, v), s.precolored, k)
  {
    hide Shaped, Sheds, LightIn, Light, SameClass, Graph.Combine, Graph.WellFormed, Fixed, Hard;
    ShapedGraph(s);
    CountedIsHard(t, s, u, v, k);
    StaysCombined(s.graph, s.precolored, s.graph.nodes - s.precolored, u, v, t.Q(k, k), |t.regs(k)|);
    CombinedNodes(s.graph, u, v, s.precolored);
  }

  lemma RegistersStay(t: Target, s: State, u: Node, v: Node, k: Class)
    requires Shaped(s) && u in s.graph.nodes - s.precolored && v in s.graph.nodes - s.precolored && u != v
    requires s.graph.Combine(u, v).WellFormed() && NoSpill(t, s.graph.Combine(u, v), s.precolored, k)
    ensures Leaves(t, k, Fixed(s, u, v))
  {
    hide Shaped, Sheds, Light, Graph.Combine, Graph.WellFormed, Fixed;
    ShapedGraph(s);
    FixedAround(s, u, v);
    CombinedNodes(s.graph, u, v, s.precolored);
    LightAmongFixed(s.graph.Combine(u, v), s.precolored, s.graph.Combine(u, v).nodes - s.precolored, u, t.Q(k, k), |t.regs(k)|);
  }

  lemma FixedAround(s: State, u: Node, v: Node)
    requires Shaped(s) && u in s.graph.nodes - s.precolored && v in s.graph.nodes - s.precolored && u != v
    ensures var c := s.graph.Combine(u, v); u in c.adj && u !in c.adj[u] && Around(c, u, s.precolored) == Fixed(s, u, v)
  {
    ShapedGraph(s);
    AroundCombined(s.graph, u, v, s.precolored);
  }

  /**
    Briggs' test counts the neighbours that fail the pq-test. Precoloured ones never
    fail it, although they stay. With one class the test is safe where these are
    counted too, in particular where there are none; and combining is never safe
    where these alone leave no register.
   */
  lemma BriggsTestIsSafe(t: Target, s: State, u: Node, v: Node, k: Class)
    requires Shaped(s) && SameClass(t, s, k)
    requires u in s.graph.nodes - s.precolored && v in s.graph.nodes - s.precolored && u != v && !HasEdge(t, s, u, v)
    requires ShouldCombine(t, s, u, v) && NoSpill(t, s.graph, s.precolored, k)
    ensures s.graph.Combine(u, v).WellFormed()
    ensures Fixed(s, u, v) == {} ==> NoSpill(t, s.graph.Combine(u, v), s.precolored, k)
    ensures Leaves(t, k, Fixed(s, u, v) + Hard(t, s, u, v)) ==> NoSpill(t, s.graph.Combine(u, v), s.precolored, k)
    ensures NoSpill(t, s.graph.Combine(u, v), s.precolored, k) ==> Leaves(t, k, Fixed(s, u, v))
  {
    hide Shaped, SameClass, HasEdge, ShouldCombine, Leaves, Fixed, Hard, NoSpill, Graph.Combine, Graph.WellFormed;
    ShapedGraph(s);
    NoEdge(t, s, u, v);
    CombinedNodes(s.graph, u, v, s.precolored);
    BriggsCounts(t, s, u, v, k);
    if Fixed(s, u, v) == {} {
      assert Fixed(s, u, v) + Hard(t, s, u, v) == Hard(t, s, u, v);
    }
    if Leaves(t, k, Fixed(s, u, v) + Hard(t, s, u, v)) {
      RoomyIsSafe(t, s, u, v, k);
    }
    if NoSpill(t, s.graph.Combine(u, v), s.precolored, k) {
      RegistersStay(t, s, u, v, k);
    }
  }

  /** Exactly: the combined node must leave a register among the nodes that stay as long as it does. */
  lemma CombinedNoSpillWhen(t: Target, s: State, u: Node, v: Node, core: set<Node>, k: Class)
    requires Shaped(s) && u in s.graph.nodes - s.precolored && v in s.graph.nodes - s.precolored && u != v
    requires s.graph.Combine(u, v).WellFormed() && u in s.graph.Combine(u, v).nodes - s.precolored
    requires IsCore(s.graph.Combine(u, v), s.precolored, s.graph.Combine(u, v).nodes - s.precolored, u, core, t.Q(k, k), |t.regs(k)|)
    requires NoSpill(t, s.graph, s.precolored, k)
    ensures NoSpill(t, s.graph.Combine(u, v), s.precolored, k) <==>
      Leaves(t, k, (s.graph.adj[u] + s.graph.adj[v]) * (s.precolored + core))
  {
    hide Shaped, Sheds, Light, IsCore, Graph.Combine, Graph.WellFormed;
    ShapedGraph(s);
    CombinedNodes(s.graph, u, v, s.precolored);
    CombinedShedsWhen(s.graph, s.precolored, s.graph.nodes - s.precolored, u, v, core, t.Q(k, k), |t.regs(k)|);
  }

  /** ----- what becomes of a move ----- */

  /** The node is next to the register, or to one of its aliases. */
  ghost predicate Touches(t: Target, s: State, x: Node, u: Node)
    requires x in s.graph.adj
  {
    u in s.graph.Adjacent(x) || exists r :: r in t.alias(u) && r in s.tempMap && s.tempMap[r] in s.graph.Adjacent(x)
  }

  /** Aliases of registers are registers, whose nodes are on the graph. */
  ghost predicate RegistersOnGraph(t: Target, s: State) {
    forall u, r :: u in s.precolored && r in t.alias(u) && r in s.tempMap ==> s.tempMap[r] in s.graph.nodes
  }

  lemma TouchesIsEdge(t: Target, s: State, u: Node, x: Node)
    requires Shaped(s) && RegistersOnGraph(t, s) && u in s.precolored && x in s.graph.nodes - s.precolored
    ensures HasEdge(t, s, u, x) <==> Touches(t, s, x, u)
    ensures HasEdge(t, s, x, u) <==> Touches(t, s, x, u)
  {
    ShapedGraph(s);
    forall w | w in s.graph.nodes
      ensures x in s.graph.Adjacent(w) <==> w in s.graph.Adjacent(x)
    {
    }
  }

  /** The two nodes may not be one: both are registers, or an edge is between them. */
  ghost predicate Barred(t: Target, s: State, u: Node, v: Node)
    requires v in s.graph.adj
  {
    v in s.precolored || u in s.graph.Adjacent(v) || (u in s.precolored && Touches(t, s, v, u))
  }

  /** A neighbour that a register may be lost for: it fails the pq-test, and is not next to the register yet. */
  ghost predicate Hindered(t: Target, s: State, u: Node, x: Node)
    requires Shaped(s) && x in s.graph.adj
  {
    x !in s.precolored && Blocked(t, s.cls, s.cls[x], s.graph.Adjacent(x)) >= |t.regs(s.cls[x])| && !Touches(t, s, x, u)
  }

  /** The neighbours of both that fail the pq-test. */
  ghost function Failing(t: Target, s: State, u: Node, v: Node): set<Node>
    requires Shaped(s) && u in s.graph.adj && v in s.graph.adj
  {
    set x | x in s.graph.Adjacent(u) + s.graph.Adjacent(v) && x !in s.precolored
      && Blocked(t, s.cls, s.cls[x], s.graph.Adjacent(x)) >= |t.regs(s.cls[x])|
  }

  /** The nodes are left apart for now: the register is of no class that fits, or some neighbour is
      hindered; or the neighbours that fail could take all registers. */
  ghost predicate Refused(t: Target, s: State, u: Node, v: Node)
    requires Shaped(s) && u in s.graph.nodes && v in s.graph.nodes && (u in s.precolored || Comparable(t, s.cls[u], s.cls[v]))
  {
    if u in s.precolored then
      !t.sub(s.cls[u], s.cls[v]) || exists x :: x in s.graph.Adjacent(v) && Hindered(t, s, u, x)
    else
      var k := if t.sub(s.cls[u], s.cls[v]) then s.cls[u] else s.cls[v];
      Blocked(t, s.cls, k, Failing(t, s, u, v)) >= |t.regs(k)|
  }

  lemma RefusedIsNot(t: Target, s: State, u: Node, v: Node)
    requires Shaped(s) && RegistersOnGraph(t, s) && u in s.graph.nodes && v in s.graph.nodes - s.precolored
    requires u in s.precolored || Comparable(t, s.cls[u], s.cls[v])
    ensures Refused(t, s, u, v) <==> !ShouldCombine(t, s, u, v)
  {
    ShapedGraph(s);
    if u in s.precolored {
      forall x | x in s.graph.Adjacent(v)
        ensures Hindered(t, s, u, x) <==> !OkWith(t, s, x, u)
      {
        if x !in s.precolored {
          TouchesIsEdge(t, s, u, x);
        }
        hide HasEdge, Touches, RegistersOnGraph;
      }
    } else {
      assert Failing(t, s, u, v) == set n | n in s.graph.Adjacent(u) + s.graph.Adjacent(v) && !Colorable(t, s, n);
    }
  }

  lemma BarredIs(t: Target, s: State, u: Node, v: Node)
    requires Shaped(s) && RegistersOnGraph(t, s) && u in s.graph.nodes && v in s.graph.nodes && u != v
    requires v in s.precolored ==> u in s.precolored
    ensures Barred(t, s, u, v) <==> v in s.precolored || HasEdge(t, s, u, v)
  {
    ShapedGraph(s);
    if v !in s.precolored && u in s.precolored {
      TouchesIsEdge(t, s, u, v);
    }
  }

  lemma AddWorklistSets(t: Target, s: State, u: Node)
    requires Shaped(s) && u in s.graph.adj
    ensures var o := AddWorklist(t, s, u); o.Ok? ==> o.s.coalesced == s.coalesced && o.s.constrained == s.constrained
  {
  }

  lemma CombineSets(t: Target, s: State, u: Node, v: Node)
    requires Shaped(s) && u != v && u in s.graph.nodes && v in s.freeze + s.spill && Comparable(t, s.cls[u], s.cls[v])
    ensures CombineNodes(t, s, u, v).coalesced == s.coalesced && CombineNodes(t, s, u, v).constrained == s.constrained
  {
    var k := CommonClass(t, s.cls[u], s.cls[v]);
    MergeShaped(s, u, v, k);
    hide Shaped, Colorable;
  }

  lemma GoodRegisters(c: Context, s: State, pairs: Pairs)
    requires Good(c, s, pairs)
    ensures Shaped(s) && (PhysicalAliases(c.t) ==> RegistersOnGraph(c.t, s))
  {
  }

  /** Aliases of physical registers are physical. */
  ghost predicate PhysicalAliases(t: Target) {
    forall a: Register, b: Register :: a.Physical? && b in t.alias(a) ==> b.Physical?
  }

  /**
    What `coalesc` makes of a move, said of the graph. Unless it raises, a move
    within one node is coalesced; one between nodes that may not be one is
    constrained; of the others, it is parked exactly when the two are refused, and
    coalesced otherwise.
   */
  lemma CoalesceDecides(c: Context, s: State, pairs: Pairs, m: Move)
    requires Good(c, s, pairs) && m in s.worklist && PhysicalAliases(c.t)
    ensures c.src(m) in s.tempMap && c.dst(m) in s.tempMap
    ensures var (u, v) := Couple(c, s, m); var o := Coalesce(c, s, m); var x, y := s.tempMap[c.dst(m)], s.tempMap[c.src(m)];
      && u in s.graph.nodes && v in s.graph.nodes && ((u == y && v == x) || (u == x && v == y && y !in s.precolored))
      && (u == v ==> o.Raised? || m in o.s.coalesced)
      && (u != v && Barred(c.t, s, u, v) ==> o.Raised? || m in o.s.constrained)
      && (u != v && !Barred(c.t, s, u, v) ==>
            if u !in s.precolored && !Comparable(c.t, s.cls[u], s.cls[v]) then o.Raised?
            else if Refused(c.t, s, u, v) then o == Ok(Activate(s, m))
            else o.Raised? || m in o.s.coalesced)
  {
    hide StackPassed, WaitingPass, Meaning, MovesLinked, MovesPlaced, Barred, Refused, HasEdge, ShouldCombine, RegistersOnGraph, Comparable, AddWorklist,
      CombineNodes;
    GoodRegisters(c, s, pairs);
    LinkedEnds(c, s, m);
    CoupleEnds(c, s, pairs, m);
    var (u, v) := Couple(c, s, m);
    if u == v {
      var p := Retire(c, s, m, AsCoalesced);
      RetireShaped(c, s, m, AsCoalesced);
      AddWorklistSets(c.t, p, u);
    } else {
      BarredIs(c.t, s, u, v);
      if Barred(c.t, s, u, v) {
        ConstrainedSets(c, s, m, u, v);
      } else if u in s.precolored || Comparable(c.t, s.cls[u], s.cls[v]) {
        RefusedIsNot(c.t, s, u, v);
        if ShouldCombine(c.t, s, u, v) {
          ShouldIsComparable(c.t, s, u, v);
          CombinedSets(c, s, m, u, v);
        }
      }
    }
  }

  lemma ConstrainedSets(c: Context, s: State, m: Move, u: Node, v: Node)
    requires Shaped(s) && c.src(m) in s.tempMap && c.dst(m) in s.tempMap && u in s.graph.adj && v in s.graph.adj
    ensures var p := Retire(c, s, m, AsConstrained);
      && Shaped(p) && m in p.constrained
      && var o := AddWorklist(c.t, p, u);
      o.Ok? ==> Shaped(o.s) && v in o.s.graph.adj && var o' := AddWorklist(c.t, o.s, v); o'.Ok? ==> m in o'.s.constrained
  {
    var p := Retire(c, s, m, AsConstrained);
    RetireShaped(c, s, m, AsConstrained);
    hide Shaped, Colorable, AddWorklist;
    AddWorklistShaped(c.t, p, u);
    AddWorklistSets(c.t, p, u);
    var o := AddWorklist(c.t, p, u);
    if o.Ok? {
      AddWorklistSets(c.t, o.s, v);
    }
  }

  lemma CombinedSets(c: Context, s: State, m: Move, u: Node, v: Node)
    requires Shaped(s) && c.src(m) in s.tempMap && c.dst(m) in s.tempMap
    requires u in s.graph.nodes && v in s.freeze + s.spill && u != v && Comparable(c.t, s.cls[u], s.cls[v])
    ensures var p := Retire(c, s, m, AsCoalesced);
      && Shaped(p) && Shaped(CombineNodes(c.t, p, u, v)) && u in CombineNodes(c.t, p, u, v).graph.adj
      && var o := AddWorklist(c.t, CombineNodes(c.t, p, u, v), u); o.Ok? ==> m in o.s.coalesced
  {
    var p := Retire(c, s, m, AsCoalesced);
    RetireShaped(c, s, m, AsCoalesced);
    CombineNodesShaped(c.t, p, u, v);
    CombineSets(c.t, p, u, v);
    hide Shaped, CombineNodes;
    AddWorklistSets(c.t, CombineNodes(c.t, p, u, v), u);
  }

  /** ----- the pq-test with one class ----- */

  /** Without aliases a register takes one of its class. */
  lemma TakesOne(t: Target, k: Class)
    requires t.Sensible() && t.regs(k) != {} && forall r :: r in t.regs(k) ==> t.alias(r) == {r}
    ensures t.Q(k, k) == 1
  {
    var r := t.MostTakenReached(k, t.regs(k));
    assert t.alias(r) * t.regs(k) == {r};
  }

  /** With one class and without aliases the test is that of the degree: a node passes exactly with
      fewer neighbours than there are registers. */
  lemma DegreeTest(t: Target, s: State, k: Class, n: Node)
    requires t.Sensible() && Shaped(s) && SameClass(t, s, k) && n in s.graph.adj && n !in s.precolored
    requires t.regs(k) != {} && forall r :: r in t.regs(k) ==> t.alias(r) == {r}
    ensures Colorable(t, s, n) <==> |s.graph.Adjacent(n)| < |t.regs(k)|
  {
    TakesOne(t, k);
    BlockedIsCount(t, s.cls, k, s.graph.Adjacent(n));
  }
}
