/**
  What combining nodes must not lose: interfering registers stay in different,
  adjacent nodes; every register is in a node of a subclass of its own class;
  precoloured nodes stay what they are; a coalesced move has both ends in one node.
 */
module MeaningInvariant {
  import opened MachineCode
  import opened Graphs
  import opened PqTest
  import opened Coalescing

  type Pairs = set<(Register, Register)>

  /** The node of a physical register is that register, and stays in a class that has it. */
  ghost predicate PrecoloredKept(t: Target, s: State)
    requires Shaped(s)
  {
    && (forall n :: n in s.precolored ==> n.Physical? && n in s.tempMap && s.tempMap[n] == n)
    && (forall r :: r in s.tempMap && r.Physical? ==> r in s.precolored)
    && (forall n :: n in s.precolored ==> n in t.regs(s.cls[n]))
  }

  ghost predicate ClassesKept(t: Target, s: State)
    requires Shaped(s)
  {
    forall r :: r in s.tempMap ==> t.sub(s.cls[s.tempMap[r]], t.classOf(r))
  }

  /** Adjacent precoloured nodes do not share storage. */
  ghost predicate PrecoloredApart(t: Target, s: State)
    requires Shaped(s)
  {
    forall a, b :: a in s.precolored && b in s.precolored && b in s.graph.adj[a] ==> b !in t.alias(a)
  }

  /** Registers that interfere are in adjacent nodes. */
  ghost predicate ApartKept(s: State, pairs: Pairs)
    requires Shaped(s)
  {
    forall a, b :: (a, b) in pairs ==>
      a in s.tempMap && b in s.tempMap && s.tempMap[b] in s.graph.adj[s.tempMap[a]]
  }

  ghost predicate TogetherKept(c: Context, s: State, except: set<Move>) {
    forall m :: m in s.coalesced && m !in except ==>
      c.src(m) in s.tempMap && c.dst(m) in s.tempMap && s.tempMap[c.src(m)] == s.tempMap[c.dst(m)]
  }

  ghost predicate Meaning(c: Context, s: State, pairs: Pairs, except: set<Move>)
    requires Shaped(s)
  {
    && PrecoloredKept(c.t, s)
    && ClassesKept(c.t, s)
    && PrecoloredApart(c.t, s)
    && ApartKept(s, pairs)
    && TogetherKept(c, s, except)
  }

  /** Steps that combine nothing keep all of it. */
  lemma SameNodesKeepMeaning(c: Context, s: State, p: State, pairs: Pairs, except: set<Move>)
    requires Shaped(s) && Shaped(p) && Meaning(c, s, pairs, except)
    requires p.graph.adj == s.graph.adj && p.cls == s.cls && p.tempMap == s.tempMap && p.precolored == s.precolored
    requires p.coalesced == s.coalesced
    ensures Meaning(c, p, pairs, except)
  {
  }

  /** Nodes that pass the coalescing test can be merged. */
  ghost predicate Mergeable(t: Target, s: State, u: Node, v: Node, k: Class)
    requires Shaped(s)
  {
    && u != v && u in s.graph.nodes && v in s.freeze + s.spill
    && !HasEdge(t, s, u, v)
    && t.sub(k, s.cls[u]) && t.sub(k, s.cls[v])
    && (u in s.precolored ==> k == s.cls[u])
  }

  lemma MergeKeepsPrecolored(t: Target, s: State, u: Node, v: Node, k: Class)
    requires t.Sensible() && Shaped(s) && PrecoloredKept(t, s) && Mergeable(t, s, u, v, k)
    ensures Shaped(Merge(s, u, v, k)) && PrecoloredKept(t, Merge(s, u, v, k))
  {
    MergeShaped(s, u, v, k);
  }

  lemma MergeKeepsClasses(t: Target, s: State, u: Node, v: Node, k: Class)
    requires t.Sensible() && Shaped(s) && ClassesKept(t, s) && Mergeable(t, s, u, v, k)
    ensures Shaped(Merge(s, u, v, k)) && ClassesKept(t, Merge(s, u, v, k))
  {
    MergeShaped(s, u, v, k);
  }

  /** The alias test keeps a precoloured node away from the aliases of its new neighbours. */
  lemma MergeKeepsPrecoloredApart(t: Target, s: State, u: Node, v: Node, k: Class)
    requires t.Sensible() && Shaped(s) && PrecoloredKept(t, s) && PrecoloredApart(t, s) && Mergeable(t, s, u, v, k)
    ensures Shaped(Merge(s, u, v, k)) && PrecoloredApart(t, Merge(s, u, v, k))
  {
    MergeShaped(s, u, v, k);
    var p := Merge(s, u, v, k);
    forall a, b | a in p.precolored && b in p.precolored && b in p.graph.adj[a]
      ensures b !in t.alias(a)
    {
      if b !in s.graph.adj[a] {
        assert a == u || b == u;
        var other := if a == u then b else a;
        assert v in s.graph.Adjacent(other) && other in s.graph.Adjacent(v);
        assert s.tempMap[other] == other;
        assert other !in t.alias(u);
      }
    }
  }

  lemma EdgeIsMoved(g: Graph, u: Node, v: Node, x: Node, y: Node)
    requires g.WellFormed() && u in g.adj && v in g.adj && u != v && v !in g.adj[u] && x in g.adj && y in g.adj[x]
    ensures var x', y' := if x == v then u else x, if y == v then u else y;
      x' in g.Combine(u, v).adj && y' in g.Combine(u, v).adj[x']
  {
    assert x in g.adj[y];
  }

  lemma MergeKeepsApart(t: Target, s: State, u: Node, v: Node, k: Class, pairs: Pairs)
    requires Shaped(s) && ApartKept(s, pairs) && Mergeable(t, s, u, v, k)
    ensures Shaped(Merge(s, u, v, k)) && ApartKept(Merge(s, u, v, k), pairs)
  {
    MergeShaped(s, u, v, k);
    var p := Merge(s, u, v, k);
    assert v !in s.graph.adj[u] && u !in s.graph.adj[v];
    forall a, b | (a, b) in pairs
      ensures a in p.tempMap && b in p.tempMap && p.tempMap[b] in p.graph.adj[p.tempMap[a]]
    {
      EdgeIsMoved(s.graph, u, v, s.tempMap[a], s.tempMap[b]);
    }
  }

  lemma MergeKeepsMeaning(c: Context, s: State, u: Node, v: Node, k: Class, pairs: Pairs, m: Move)
    requires c.t.Sensible() && Shaped(s) && Meaning(c, s, pairs, {m}) && Mergeable(c.t, s, u, v, k)
    requires c.src(m) in s.tempMap && c.dst(m) in s.tempMap
    requires {s.tempMap[c.src(m)], s.tempMap[c.dst(m)]} == {u, v}
    ensures Shaped(Merge(s, u, v, k)) && Meaning(c, Merge(s, u, v, k), pairs, {})
  {
    hide PrecoloredKept, ClassesKept, PrecoloredApart, ApartKept, Mergeable, Shaped;
    MergeKeepsPrecolored(c.t, s, u, v, k);
    MergeKeepsClasses(c.t, s, u, v, k);
    MergeKeepsPrecoloredApart(c.t, s, u, v, k);
    MergeKeepsApart(c.t, s, u, v, k, pairs);
    assert s.tempMap[c.src(m)] in {u, v} && s.tempMap[c.dst(m)] in {u, v};
  }
}
