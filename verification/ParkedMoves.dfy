/**
  Moves that wait: simplifying a node tries again exactly those that it may have
  made possible, so that what stays parked would still be refused.
 */
module ParkedMoves {
  import opened MachineCode
  import opened Graphs
  import opened PqTest
  import opened Coalescing
  import opened ColoringInvariant
  import opened MovesInvariant
  import opened MeaningInvariant
  import opened AllocatorSteps
  import opened CoalescingTest

  /** The nodes of a move would not be combined now. */
  ghost predicate StillRefused(t: Target, s: State, u: Node, v: Node)
    requires Shaped(s) && u in s.graph.nodes && v in s.graph.nodes
  {
    || u == v || v in s.precolored
    || (u !in s.precolored && !Comparable(t, s.cls[u], s.cls[v]))
    || Refused(t, s, u, v)
  }

  ghost predicate ParkedStayRefused(c: Context, s: State)
    requires Shaped(s) && KnowsMoves(c, s)
  {
    forall m :: m in s.active ==>
      var (u, v) := Couple(c, s, m); u in s.graph.nodes && v in s.graph.nodes && StillRefused(c.t, s, u, v)
  }

  /** A node that fails is on the spill worklist. */
  lemma FailingSpills(c: Context, s: State, x: Node)
    requires Shaped(s) && WaitingPass(c.t, s, {}) && x in s.graph.nodes - s.precolored && !Colorable(c.t, s, x)
    ensures x in s.spill
  {
    hide Colorable;
  }

  /** A node that is not next to the one that goes has the neighbours it had. */
  lemma FarIsSame(t: Target, s: State, n: Node, x: Node)
    requires Shaped(s) && n in s.simplify && x in s.graph.adj && n !in s.graph.adj[x]
    ensures Shaped(Push(s, n)) && (Colorable(t, Push(s, n), x) <==> Colorable(t, s, x))
  {
    PushShaped(s, n);
    assert Push(s, n).graph.Adjacent(x) == s.graph.Adjacent(x);
  }

  /** What passes once the node has gone, and did not before, is promoted. */
  lemma NowPasses(c: Context, s: State, n: Node, x: Node)
    requires Shaped(s) && n in s.simplify && WaitingPass(c.t, s, {})
    requires x in s.graph.nodes - s.precolored && x != n && !Colorable(c.t, s, x)
    ensures var p := Push(s, n);
      Shaped(p) && x in p.graph.adj && n in p.graph.adj && (Colorable(c.t, p, x) ==> x in Promoted(c.t, p, p.graph.Adjacent(n)))
  {
    PushShaped(s, n);
    FailingSpills(c, s, x);
    var p := Push(s, n);
    if n in s.graph.adj[x] {
      assert x in p.graph.Adjacent(n);
    } else {
      FarIsSame(c.t, s, n, x);
    }
    hide Colorable;
  }

  /** A move that stays parked has no promoted node next to one of its ends. */
  lemma ParkedIsFar(c: Context, p: State, n: Node, m: Move, w: Node, x: Node)
    requires Shaped(p) && n in p.graph.adj && MovesLinked(c, p) && m in p.Linked() && w in p.graph.adj && x in p.graph.adj
    requires c.src(m) in p.tempMap && c.dst(m) in p.tempMap && IsEnd(c, p, m, w) && x in p.graph.nodes && w in p.graph.Adjacent(x)
    requires m in Promote(c.t, p, p.graph.Adjacent(n)).active
    ensures x !in Promoted(c.t, p, p.graph.Adjacent(n))
  {
    assert LinkedAt(c, p, w);
    assert m in p.moves[w];
    hide Colorable, MovesLinked, KnowsMoves, InOneSet;
  }

  /** What stays as it was around an end of a parked move. */
  lemma StillFails(c: Context, s: State, pairs: Pairs, n: Node, m: Move, w: Node, x: Node)
    requires Good(c, s, pairs) && n in s.simplify && m in Simplify(c.t, s, n).active
    requires c.src(m) in s.tempMap && c.dst(m) in s.tempMap && IsEnd(c, s, m, w) && w in s.graph.nodes
    requires x in s.graph.Adjacent(w) && x !in s.precolored && !Colorable(c.t, s, x)
    ensures x != n && Shaped(Push(s, n)) && x in Push(s, n).graph.adj && !Colorable(c.t, Push(s, n), x)
  {
    PushShaped(s, n);
    PushKeepsMoves(c, s, n);
    assert Colorable(c.t, s, n);
    var p := Push(s, n);
    NowPasses(c, s, n, x);
    NeighbourStays(s, n, w, x);
    hide Colorable, Almost, Good, MovesLinked, MovesPlaced, Shaped, Promoted, StackPassed, WaitingPass, Meaning;
    ParkedIsFar(c, p, n, m, w, x);
  }

  lemma NeighbourStays(s: State, n: Node, w: Node, x: Node)
    requires Shaped(s) && n in s.simplify && w in s.graph.nodes && x in s.graph.Adjacent(w) && x != n
    ensures w != n ==> w in Push(s, n).graph.Adjacent(x)
    ensures x in Push(s, n).graph.nodes
  {
  }

  /** The two ends of a parked move after a node has been simplified. */
  lemma RegisterStillRefused(c: Context, s: State, pairs: Pairs, n: Node, m: Move, u: Node, v: Node)
    requires Good(c, s, pairs) && n in s.simplify && m in Simplify(c.t, s, n).active
    requires c.src(m) in s.tempMap && c.dst(m) in s.tempMap && IsEnd(c, s, m, v) && u in s.precolored && v in s.graph.nodes && v != n
    requires Refused(c.t, s, u, v)
    ensures Shaped(Push(s, n)) && u in Push(s, n).graph.nodes && v in Push(s, n).graph.nodes && Refused(c.t, Push(s, n), u, v)
  {
    PushShaped(s, n);
    var p := Push(s, n);
    RegisterStays(s, n, u, v);
    if c.t.sub(s.cls[u], s.cls[v]) {
      var x :| x in s.graph.Adjacent(v) && Hindered(c.t, s, u, x);
      StillFails(c, s, pairs, n, m, v, x);
      HinderedStays(c.t, s, n, u, v, x);
    }
  }

  lemma RegisterStays(s: State, n: Node, u: Node, v: Node)
    requires Shaped(s) && n in s.simplify && u in s.precolored && v in s.graph.nodes && v != n
    ensures u in Push(s, n).graph.nodes && v in Push(s, n).graph.nodes
  {
  }

  lemma HinderedStays(t: Target, s: State, n: Node, u: Node, v: Node, x: Node)
    requires Shaped(s) && n in s.simplify && v in s.graph.nodes && x in s.graph.Adjacent(v) && x != n && Hindered(t, s, u, x)
    requires Shaped(Push(s, n)) && x in Push(s, n).graph.adj && !Colorable(t, Push(s, n), x)
    ensures x in Push(s, n).graph.Adjacent(v) && Hindered(t, Push(s, n), u, x)
  {
    hide Shaped;
    assert Push(s, n).graph.Adjacent(x) <= s.graph.Adjacent(x);
  }

  lemma FailingStays(c: Context, s: State, pairs: Pairs, n: Node, m: Move, u: Node, v: Node)
    requires Good(c, s, pairs) && n in s.simplify && m in Simplify(c.t, s, n).active
    requires c.src(m) in s.tempMap && c.dst(m) in s.tempMap && IsEnd(c, s, m, u) && IsEnd(c, s, m, v)
    requires u in s.graph.nodes - {n} && v in s.graph.nodes - {n}
    ensures Shaped(Push(s, n)) && u in Push(s, n).graph.adj && v in Push(s, n).graph.adj
    ensures Failing(c.t, Push(s, n), u, v) == Failing(c.t, s, u, v)
  {
    PushShaped(s, n);
    var p := Push(s, n);
    var before, after := Failing(c.t, s, u, v), Failing(c.t, p, u, v);
    forall x | x in before
      ensures x in after
    {
      FailsBefore(c, s, pairs, n, m, u, v, x);
    }
    forall x | x in after
      ensures x in before
    {
      FailsAfter(c.t, s, n, u, v, x);
    }
  }

  lemma FailsBefore(c: Context, s: State, pairs: Pairs, n: Node, m: Move, u: Node, v: Node, x: Node)
    requires Good(c, s, pairs) && n in s.simplify && m in Simplify(c.t, s, n).active
    requires c.src(m) in s.tempMap && c.dst(m) in s.tempMap && IsEnd(c, s, m, u) && IsEnd(c, s, m, v)
    requires u in s.graph.nodes - {n} && v in s.graph.nodes - {n} && x in Failing(c.t, s, u, v)
    ensures Shaped(Push(s, n)) && u in Push(s, n).graph.adj && v in Push(s, n).graph.adj && x in Failing(c.t, Push(s, n), u, v)
  {
    PushShaped(s, n);
    var w := if x in s.graph.Adjacent(u) then u else v;
    StillFails(c, s, pairs, n, m, w, x);
    hide Shaped, StackPassed, WaitingPass, MovesLinked, MovesPlaced, Meaning, Simplify;
    assert x in Push(s, n).graph.Adjacent(w);
  }

  lemma FailsAfter(t: Target, s: State, n: Node, u: Node, v: Node, x: Node)
    requires Shaped(s) && Shaped(Push(s, n)) && n in s.simplify && u in s.graph.nodes - {n} && v in s.graph.nodes - {n}
    requires u in Push(s, n).graph.adj && v in Push(s, n).graph.adj && x in Failing(t, Push(s, n), u, v)
    ensures x in Failing(t, s, u, v)
  {
    if Colorable(t, s, x) {
      PushKeepsColorable(t, s, n, x);
    }
  }

  lemma PairStillRefused(c: Context, s: State, pairs: Pairs, n: Node, m: Move, u: Node, v: Node)
    requires Good(c, s, pairs) && n in s.simplify && m in Simplify(c.t, s, n).active
    requires c.src(m) in s.tempMap && c.dst(m) in s.tempMap && IsEnd(c, s, m, u) && IsEnd(c, s, m, v)
    requires u in s.graph.nodes - {n} - s.precolored && v in s.graph.nodes - {n} && Comparable(c.t, s.cls[u], s.cls[v])
    requires Refused(c.t, s, u, v)
    ensures Shaped(Push(s, n)) && u in Push(s, n).graph.nodes && v in Push(s, n).graph.nodes && Refused(c.t, Push(s, n), u, v)
  {
    PushShaped(s, n);
    FailingStays(c, s, pairs, n, m, u, v);
    hide Failing, Shaped, StackPassed, WaitingPass, MovesLinked, MovesPlaced, Meaning;
  }

  /** Promotion changes worklists only. */
  lemma PromotedRefuses(t: Target, p: State, ns: set<Node>, u: Node, v: Node)
    requires Shaped(p) && ns <= p.graph.nodes && u in p.graph.nodes && v in p.graph.nodes && StillRefused(t, p, u, v)
    ensures var q := Promote(t, p, ns);
      Shaped(q) && u in q.graph.nodes && v in q.graph.nodes && StillRefused(t, q, u, v)
  {
    PromoteShaped(t, p, ns);
    var q := Promote(t, p, ns);
    hide Shaped, Colorable;
    if u in p.precolored {
      if t.sub(p.cls[u], p.cls[v]) && v !in p.precolored && u != v {
        var x :| x in p.graph.Adjacent(v) && Hindered(t, p, u, x);
        assert Hindered(t, q, u, x);
      }
    } else if Comparable(t, p.cls[u], p.cls[v]) {
      assert Failing(t, q, u, v) == Failing(t, p, u, v);
    }
  }

  lemma CoupleIsEnds(c: Context, s: State, m: Move)
    requires c.src(m) in s.tempMap && c.dst(m) in s.tempMap
    ensures var (u, v) := Couple(c, s, m); IsEnd(c, s, m, u) && IsEnd(c, s, m, v)
  {
  }

  /** The ends of a waiting move are on the graph and are not simplified. */
  lemma EndsStay(c: Context, s: State, pairs: Pairs, n: Node, m: Move, w: Node)
    requires Good(c, s, pairs) && n in s.simplify && m in s.active
    requires c.src(m) in s.tempMap && c.dst(m) in s.tempMap && IsEnd(c, s, m, w)
    ensures w in s.graph.nodes && w != n
  {
    EndsOnGraph(c, s, m, w);
  }

  /**
    After a node has been simplified, every move that is still parked would still be
    refused: the moves that it may have made possible have been put back.
   */
  lemma SimplifyKeepsParked(c: Context, s: State, pairs: Pairs, n: Node)
    requires Good(c, s, pairs) && n in s.simplify && ParkedStayRefused(c, s)
    ensures Good(c, Simplify(c.t, s, n), pairs) && ParkedStayRefused(c, Simplify(c.t, s, n))
  {
    SimplifyKeeps(c, s, pairs, n);
    var q := Simplify(c.t, s, n);
    forall m | m in q.active
      ensures var (u, v) := Couple(c, q, m); u in q.graph.nodes && v in q.graph.nodes && StillRefused(c.t, q, u, v)
    {
      OneStaysRefused(c, s, pairs, n, m);
    }
  }

  lemma OneStaysRefused(c: Context, s: State, pairs: Pairs, n: Node, m: Move)
    requires Good(c, s, pairs) && n in s.simplify && ParkedStayRefused(c, s) && m in Simplify(c.t, s, n).active
    requires Shaped(Simplify(c.t, s, n))
    ensures var q := Simplify(c.t, s, n);
      && c.src(m) in q.tempMap && c.dst(m) in q.tempMap
      && var (u, v) := Couple(c, q, m); u in q.graph.nodes && v in q.graph.nodes && StillRefused(c.t, q, u, v)
  {
    PushShaped(s, n);
    var p := Push(s, n);
    var (u, v) := Couple(c, s, m);
    CoupleIsEnds(c, s, m);
    EndsStay(c, s, pairs, n, m, u);
    EndsStay(c, s, pairs, n, m, v);
    assert StillRefused(c.t, s, u, v);
    hide Shaped, StackPassed, WaitingPass, MovesLinked, MovesPlaced, Meaning, Refused, Promoted, ParkedStayRefused;
    if u != v && v !in s.precolored {
      if u in s.precolored {
        RegisterStillRefused(c, s, pairs, n, m, u, v);
      } else if Comparable(c.t, s.cls[u], s.cls[v]) {
        PairStillRefused(c, s, pairs, n, m, u, v);
      }
    }
    PromotedRefuses(c.t, p, p.graph.Adjacent(n), u, v);
  }
}
