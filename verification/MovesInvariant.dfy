/**
  The moves of the allocator: each is in exactly one of five sets, the pending
  ones are linked to the nodes at their ends, and only nodes without pending
  moves are simplified.
 */
module MovesInvariant {
  import opened MachineCode
  import opened Graphs
  import opened PqTest
  import opened Coalescing

  ghost predicate InOneSet(s: State) {
    && s.worklist !! s.active !! s.coalesced !! s.constrained !! s.frozen
  }

  /** A move is on a node exactly when it is pending and the node is one of its ends. */
  ghost predicate LinkedAt(c: Context, s: State, n: Node)
    requires Shaped(s) && KnowsMoves(c, s) && n in s.graph.adj
  {
    forall m :: m in s.moves[n] <==> m in s.Linked() && IsEnd(c, s, m, n)
  }

  ghost predicate MovesLinked(c: Context, s: State)
    requires Shaped(s)
  {
    && KnowsMoves(c, s)
    && InOneSet(s)
    && forall n :: n in s.graph.adj ==> LinkedAt(c, s, n)
  }

  /** Nodes off the graph or about to leave it have no pending moves; those to be frozen do. */
  ghost predicate MovesPlaced(s: State, frozen: set<Node>, simplified: set<Node>)
    requires Shaped(s)
  {
    && (forall n :: n in s.graph.masked + s.simplify && n !in simplified ==> !MoveRelated(s, n))
    && (forall n :: n in s.freeze && n !in frozen ==> MoveRelated(s, n))
  }

  /** The ends of a pending move are on the graph, and are not about to be simplified. */
  lemma EndsOnGraph(c: Context, s: State, m: Move, n: Node)
    requires Shaped(s) && MovesLinked(c, s) && MovesPlaced(s, {}, {})
    requires m in s.Linked() && IsEnd(c, s, m, n)
    ensures n in s.graph.nodes && n in s.precolored + s.freeze + s.spill && m in s.moves[n]
  {
    assert LinkedAt(c, s, n);
  }

  lemma RetireSets(c: Context, s: State, m: Move, kind: Retirement)
    requires c.src(m) in s.tempMap && c.dst(m) in s.tempMap && InOneSet(s) && m in s.Linked()
    ensures var p := Retire(c, s, m, kind);
      InOneSet(p) && p.AllMoves() == s.AllMoves() && p.Linked() == s.Linked() - {m}
  {
    var p := Retire(c, s, m, kind);
    assert p.coalesced + p.constrained + p.frozen == s.coalesced + s.constrained + s.frozen + {m};
  }

  lemma RetireLinked(c: Context, s: State, m: Move, kind: Retirement)
    requires Shaped(s) && MovesLinked(c, s) && m in s.Linked()
    ensures var p := Retire(c, s, m, kind);
      Shaped(p) && MovesLinked(c, p) && p.AllMoves() == s.AllMoves() && p.Linked() == s.Linked() - {m}
  {
    RetireShaped(c, s, m, kind);
    RetireSets(c, s, m, kind);
    var p := Retire(c, s, m, kind);
    hide InOneSet, State.Linked, State.AllMoves;
    assert KnowsMoves(c, p);
    forall n | n in p.graph.adj
      ensures LinkedAt(c, p, n)
    {
      assert LinkedAt(c, s, n);
    }
  }

  lemma RetirePlaced(c: Context, s: State, m: Move, kind: Retirement, frozen: set<Node>, simplified: set<Node>)
    requires Shaped(s) && c.src(m) in s.tempMap && c.dst(m) in s.tempMap && MovesPlaced(s, frozen, simplified)
    ensures var p := Retire(c, s, m, kind);
      Shaped(p) && MovesPlaced(p, frozen + {s.tempMap[c.src(m)], s.tempMap[c.dst(m)]}, simplified)
  {
    RetireShaped(c, s, m, kind);
  }

  lemma ActivateKeeps(c: Context, s: State, m: Move)
    requires Shaped(s) && MovesLinked(c, s) && m in s.worklist
    ensures var p := Activate(s, m);
      Shaped(p) && MovesLinked(c, p) && p.AllMoves() == s.AllMoves() && p.Linked() == s.Linked()
  {
    var p := Activate(s, m);
    forall n | n in p.graph.adj
      ensures LinkedAt(c, p, n)
    {
      assert LinkedAt(c, s, n);
    }
  }

  lemma PromoteLinked(t: Target, c: Context, s: State, ns: set<Node>)
    requires Shaped(s) && ns <= s.graph.nodes && MovesLinked(c, s)
    ensures var p := Promote(t, s, ns);
      Shaped(p) && MovesLinked(c, p) && p.AllMoves() == s.AllMoves() && p.Linked() == s.Linked()
  {
    PromoteShaped(t, s, ns);
    hide Colorable;
    var p := Promote(t, s, ns);
    assert Enabled(t, s, ns) <= s.active;
    forall n | n in p.graph.adj
      ensures LinkedAt(c, p, n)
    {
      assert LinkedAt(c, s, n);
    }
  }

  lemma PromotePlaced(t: Target, s: State, ns: set<Node>, frozen: set<Node>, simplified: set<Node>)
    requires Shaped(s) && ns <= s.graph.nodes && MovesPlaced(s, frozen, simplified)
    ensures Shaped(Promote(t, s, ns)) && MovesPlaced(Promote(t, s, ns), frozen, simplified)
  {
    PromoteShaped(t, s, ns);
    hide Colorable;
  }

  lemma PushKeepsMoves(c: Context, s: State, n: Node)
    requires Shaped(s) && n in s.simplify && MovesLinked(c, s) && MovesPlaced(s, {}, {})
    ensures Shaped(Push(s, n)) && MovesLinked(c, Push(s, n)) && MovesPlaced(Push(s, n), {}, {})
  {
    PushShaped(s, n);
    var p := Push(s, n);
    forall x | x in p.graph.adj
      ensures LinkedAt(c, p, x)
    {
      assert LinkedAt(c, s, x);
    }
  }

  lemma MergeLinked(c: Context, s: State, u: Node, v: Node, k: Class)
    requires Shaped(s) && u != v && u in s.graph.nodes && v in s.freeze + s.spill && MovesLinked(c, s)
    ensures var p := Merge(s, u, v, k); Shaped(p) && MovesLinked(c, p)
  {
    MergeShaped(s, u, v, k);
    var p := Merge(s, u, v, k);
    forall n | n in p.graph.adj
      ensures LinkedAt(c, p, n)
    {
      assert LinkedAt(c, s, n) && LinkedAt(c, s, v);
      MergeLinkedAt(c, s, u, v, k, n);
    }
  }

  lemma MergeLinkedAt(c: Context, s: State, u: Node, v: Node, k: Class, n: Node)
    requires Shaped(s) && u != v && u in s.graph.nodes && v in s.freeze + s.spill && KnowsMoves(c, s)
    requires n in s.graph.adj && n != v && LinkedAt(c, s, n) && LinkedAt(c, s, v)
    requires Shaped(Merge(s, u, v, k)) && KnowsMoves(c, Merge(s, u, v, k)) && n in Merge(s, u, v, k).graph.adj
    ensures LinkedAt(c, Merge(s, u, v, k), n)
  {
  }

  lemma MergePlaced(s: State, u: Node, v: Node, k: Class, frozen: set<Node>)
    requires Shaped(s) && u != v && u in s.graph.nodes - s.simplify && v in s.freeze + s.spill && MovesPlaced(s, frozen, {})
    ensures var p := Merge(s, u, v, k); Shaped(p) && MovesPlaced(p, frozen + {u}, {})
  {
    MergeShaped(s, u, v, k);
  }

  lemma SameMovesKeepLinked(c: Context, s: State, p: State)
    requires Shaped(s) && Shaped(p) && MovesLinked(c, s)
    requires p.graph.adj == s.graph.adj && p.tempMap == s.tempMap && p.moves == s.moves
    requires p.worklist == s.worklist && p.active == s.active && p.coalesced == s.coalesced
    requires p.constrained == s.constrained && p.frozen == s.frozen
    ensures MovesLinked(c, p) && p.AllMoves() == s.AllMoves() && p.Linked() == s.Linked()
  {
    forall n | n in p.graph.adj
      ensures LinkedAt(c, p, n)
    {
      assert LinkedAt(c, s, n);
    }
  }

  lemma DemotePlaced(s: State, u: Node)
    requires Shaped(s) && u in s.freeze && MovesPlaced(s, {u}, {})
    ensures Shaped(Demote(s, u)) && MovesPlaced(Demote(s, u), {u}, {})
  {
    DemoteShaped(s, u);
  }
}
