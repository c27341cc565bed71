/**
  Taking nodes off a graph one by one, each while it has few neighbours left:
  when that empties the graph, and when it still does after two nodes have been
  combined.
 */
module Shedding {
  import opened Graphs

  /** Each of `n` neighbours takes up to `q` of `k` registers, and one is left. */
  predicate Light(q: nat, k: nat, n: nat) {
    n * q < k
  }

  lemma LightMonotone(q: nat, k: nat, m: nat, n: nat)
    requires Light(q, k, n) && m <= n
    ensures Light(q, k, m)
  {
    assert m * q <= n * q;
  }

  lemma FewerIsSmaller(a: set<Node>, b: set<Node>)
    requires a <= b
    ensures |a| <= |b|
  {
    assert b == a + (b - a);
  }

  /** What is left around a node. */
  function Around(g: Graph, n: Node, left: set<Node>): set<Node>
    requires n in g.adj
  {
    g.adj[n] * left
  }

  ghost predicate LightIn(g: Graph, n: Node, left: set<Node>, q: nat, k: nat)
    requires n in g.adj
  {
    Light(q, k, |Around(g, n, left)|)
  }

  lemma LightInLess(g: Graph, n: Node, left: set<Node>, h: Graph, less: set<Node>, q: nat, k: nat)
    requires n in g.adj && n in h.adj && LightIn(g, n, left, q, k) && Around(h, n, less) <= Around(g, n, left)
    ensures LightIn(h, n, less, q, k)
  {
    FewerIsSmaller(Around(h, n, less), Around(g, n, left));
    LightMonotone(q, k, |Around(h, n, less)|, |Around(g, n, left)|);
  }

  /** All of `rest` can be taken off, one by one, while `fixed` stays. */
  ghost predicate Sheds(g: Graph, fixed: set<Node>, rest: set<Node>, q: nat, k: nat)
    requires rest <= g.adj.Keys
    decreases rest
  {
    rest == {} || exists n :: n in rest && LightIn(g, n, fixed + rest, q, k) && Sheds(g, fixed, rest - {n}, q, k)
  }

  lemma ShedsNext(g: Graph, fixed: set<Node>, rest: set<Node>, q: nat, k: nat) returns (n: Node)
    requires rest <= g.adj.Keys && rest != {} && Sheds(g, fixed, rest, q, k)
    ensures n in rest && LightIn(g, n, fixed + rest, q, k) && Sheds(g, fixed, rest - {n}, q, k)
  {
    hide LightIn;
    n :| n in rest && LightIn(g, n, fixed + rest, q, k) && Sheds(g, fixed, rest - {n}, q, k);
  }

  lemma ShedsOne(g: Graph, fixed: set<Node>, rest: set<Node>, n: Node, q: nat, k: nat)
    requires rest <= g.adj.Keys && n in rest && LightIn(g, n, fixed + rest, q, k) && Sheds(g, fixed, rest - {n}, q, k)
    ensures Sheds(g, fixed, rest, q, k)
  {
    hide LightIn;
  }

  lemma NothingSheds(g: Graph, fixed: set<Node>, q: nat, k: nat)
    ensures Sheds(g, fixed, {}, q, k)
  {
  }

  lemma LessAround(g: Graph, h: Graph, fixed: set<Node>, rest: set<Node>, less: set<Node>, n: Node, x: Node)
    requires x in g.adj && x in h.adj && n in rest && Around(h, x, fixed + less) <= Around(g, x, fixed + rest)
    ensures Around(h, x, fixed + (less - {n})) <= Around(g, x, fixed + (rest - {n}))
  {
    forall y | y in Around(h, x, fixed + (less - {n}))
      ensures y in Around(g, x, fixed + (rest - {n}))
    {
      assert y in Around(h, x, fixed + less);
      assert y in Around(g, x, fixed + rest);
    }
  }

  /** With fewer nodes and edges, it still can. */
  lemma {:induction false} ShedsLess(g: Graph, fixed: set<Node>, rest: set<Node>, h: Graph, less: set<Node>, q: nat, k: nat)
    requires rest <= g.adj.Keys && less <= h.adj.Keys && less <= rest && Sheds(g, fixed, rest, q, k)
    requires forall n :: n in less ==> Around(h, n, fixed + less) <= Around(g, n, fixed + rest)
    ensures Sheds(h, fixed, less, q, k)
    decreases rest
  {
    hide Sheds, LightIn, Around;
    if less == {} {
      NothingSheds(h, fixed, q, k);
    } else {
      var n := ShedsNext(g, fixed, rest, q, k);
      var fewer := less - {n};
      forall x | x in fewer
        ensures Around(h, x, fixed + fewer) <= Around(g, x, fixed + (rest - {n}))
      {
        LessAround(g, h, fixed, rest, less, n, x);
      }
      ShedsLess(g, fixed, rest - {n}, h, fewer, q, k);
      if n in less {
        LightInLess(g, n, fixed + rest, h, fixed + less, q, k);
        ShedsOne(h, fixed, less, n, q, k);
      } else {
        assert fewer == less;
      }
    }
  }

  /** What is light from the start can go first. */
  lemma {:induction false} ShedFirst(g: Graph, fixed: set<Node>, rest: set<Node>, first: set<Node>, q: nat, k: nat)
    requires rest <= g.adj.Keys && first <= rest && Sheds(g, fixed, rest - first, q, k)
    requires forall n :: n in first ==> LightIn(g, n, fixed + rest, q, k)
    ensures Sheds(g, fixed, rest, q, k)
    decreases first
  {
    if first != {} {
      var n :| n in first;
      assert rest - {n} - (first - {n}) == rest - first;
      forall x | x in first - {n}
        ensures LightIn(g, x, fixed + (rest - {n}), q, k)
      {
        LightInLess(g, x, fixed + rest, g, fixed + (rest - {n}), q, k);
      }
      hide LightIn;
      ShedFirst(g, fixed, rest - {n}, first - {n}, q, k);
    } else {
      assert rest - first == rest;
    }
  }

  /** Nodes that hold each other on the graph are never taken off. */
  lemma {:induction false} StuckStay(g: Graph, fixed: set<Node>, rest: set<Node>, stuck: set<Node>, q: nat, k: nat)
    requires rest <= g.adj.Keys && stuck <= rest && stuck != {}
    requires forall n :: n in stuck ==> !LightIn(g, n, fixed + stuck, q, k)
    ensures !Sheds(g, fixed, rest, q, k)
    decreases rest
  {
    if Sheds(g, fixed, rest, q, k) {
      var n :| n in rest && LightIn(g, n, fixed + rest, q, k) && Sheds(g, fixed, rest - {n}, q, k);
      if n in stuck {
        LightInLess(g, n, fixed + rest, g, fixed + stuck, q, k);
      } else {
        hide LightIn;
        StuckStay(g, fixed, rest - {n}, stuck, q, k);
      }
    }
  }

  /** Nodes that go while others stay, and then the others. */
  lemma {:induction false} ShedAbove(g: Graph, fixed: set<Node>, below: set<Node>, above: set<Node>, q: nat, k: nat)
    requires below <= g.adj.Keys && above <= g.adj.Keys && below !! above
    requires Sheds(g, fixed + below, above, q, k) && Sheds(g, fixed, below, q, k)
    ensures Sheds(g, fixed, below + above, q, k)
    decreases above
  {
    if above == {} {
      assert below + above == below;
    } else {
      var n :| n in above && LightIn(g, n, fixed + below + above, q, k) && Sheds(g, fixed + below, above - {n}, q, k);
      hide LightIn;
      ShedAbove(g, fixed, below, above - {n}, q, k);
      assert below + above - {n} == below + (above - {n});
      assert fixed + (below + above) == fixed + below + above;
    }
  }

  /** The nodes that stay as long as `u` does: they hold each other, all others can go. */
  ghost predicate IsCore(g: Graph, fixed: set<Node>, rest: set<Node>, u: Node, core: set<Node>, q: nat, k: nat)
    requires rest <= g.adj.Keys && u in rest
  {
    && core <= rest - {u}
    && (forall n :: n in core ==> !LightIn(g, n, fixed + {u} + core, q, k))
    && Sheds(g, fixed + ({u} + core), rest - {u} - core, q, k)
  }

  /** Where all others can be taken off once `u` is gone, all can exactly when `u` is light among the
      nodes that stay as long as it does. */
  lemma ShedsWhen(g: Graph, fixed: set<Node>, rest: set<Node>, u: Node, core: set<Node>, q: nat, k: nat)
    requires rest <= g.adj.Keys && u in rest && u !in g.adj[u] && IsCore(g, fixed, rest, u, core, q, k)
    requires Sheds(g, fixed, rest - {u}, q, k)
    ensures Sheds(g, fixed, rest, q, k) <==> LightIn(g, u, fixed + core, q, k)
  {
    hide Sheds, LightIn;
    var low := {u} + core;
    LightAlone(g, u, fixed, core, q, k);
    if LightIn(g, u, fixed + core, q, k) {
      FewerShed(g, fixed, rest - {u}, core, q, k);
      assert low - {u} == core;
      ShedsOne(g, fixed, low, u, q, k);
      ShedAbove(g, fixed, low, rest - {u} - core, q, k);
      assert low + (rest - {u} - core) == rest;
    } else {
      assert fixed + {u} + core == fixed + low;
      StuckStay(g, fixed, rest, low, q, k);
    }
  }

  lemma LightAlone(g: Graph, u: Node, fixed: set<Node>, core: set<Node>, q: nat, k: nat)
    requires u in g.adj && u !in g.adj[u]
    ensures LightIn(g, u, fixed + ({u} + core), q, k) <==> LightIn(g, u, fixed + core, q, k)
  {
    assert Around(g, u, fixed + ({u} + core)) == Around(g, u, fixed + core);
  }

  /** A node that can be taken off is light among those that stay. */
  lemma LightAmongFixed(g: Graph, fixed: set<Node>, rest: set<Node>, u: Node, q: nat, k: nat)
    requires rest <= g.adj.Keys && u in rest && u !in g.adj[u] && Sheds(g, fixed, rest, q, k)
    ensures LightIn(g, u, fixed, q, k)
  {
    hide Sheds, LightIn;
    var none: set<Node> := {};
    assert {u} + none == {u} && fixed + none == fixed;
    LightAlone(g, u, fixed, none, q, k);
    if !LightIn(g, u, fixed, q, k) {
      StuckStay(g, fixed, rest, {u}, q, k);
    }
  }

  /** ----- two nodes become one ----- */

  lemma CombinedAround(g: Graph, u: Node, v: Node, x: Node, left: set<Node>)
    requires g.WellFormed() && u in g.adj && v in g.adj && u != v && x in g.adj && x != u && x != v && v !in left
    ensures var c := g.Combine(u, v);
      && x in c.adj
      && (u !in left ==> Around(c, x, left) == Around(g, x, left))
      && (v !in g.adj[x] || u in g.adj[x] ==> Around(c, x, left) == Around(g, x, left))
      && Around(c, x, left) <= Around(g, x, left) + {u}
  {
  }

  /** No neighbour of the two gets more neighbours by it. */
  lemma CombinedNoMore(g: Graph, u: Node, v: Node, x: Node, left: set<Node>)
    requires g.WellFormed() && u in g.adj && v in g.adj && u != v && x in g.adj && x != u && x != v
    ensures var c := g.Combine(u, v); x in c.adj && |Around(c, x, left - {v})| <= |Around(g, x, left + {v})|
  {
    var c := g.Combine(u, v);
    var a, b := Around(c, x, left - {v}), Around(g, x, left + {v});
    if v in g.adj[x] {
      assert a <= b - {v} + {u};
      FewerIsSmaller(a, b - {v} + {u});
      assert v in b;
      assert |b - {v} + {u}| <= |b|;
    } else {
      assert a <= b;
      FewerIsSmaller(a, b);
    }
  }

  /**
    A node is combined with one that stays. If all nodes could be taken off before,
    they still can, where every neighbour of the one that goes is light or next to
    the one that stays already.
   */
  lemma StaysWithFixed(g: Graph, fixed: set<Node>, rest: set<Node>, u: Node, v: Node, q: nat, k: nat)
    requires g.WellFormed() && fixed !! rest && fixed + rest == g.nodes && u in fixed && v in rest && v !in g.adj[u]
    requires Sheds(g, fixed, rest, q, k)
    requires forall x :: x in g.Adjacent(v) * rest ==> LightIn(g, x, g.nodes, q, k) || u in g.adj[x]
    ensures rest - {v} <= g.Combine(u, v).adj.Keys && Sheds(g.Combine(u, v), fixed, rest - {v}, q, k)
  {
    hide Sheds, LightIn;
    var c, now := g.Combine(u, v), rest - {v};
    var first := set x | x in g.Adjacent(v) * rest && LightIn(g, x, g.nodes, q, k);
    assert v !in first;
    var later := now - first;
    AllLightStay(g, fixed, rest, u, v, first, q, k);
    forall x | x in later
      ensures Around(c, x, fixed + later) <= Around(g, x, fixed + rest)
    {
      CombinedAround(g, u, v, x, fixed + later);
      if v in g.adj[x] {
        assert x in g.adj[v] && x in g.Adjacent(v) * rest;
      }
    }
    hide LightIn, Around;
    ShedsLess(g, fixed, rest, c, later, q, k);
    ShedFirst(c, fixed, now, first, q, k);
  }

  /** A node that was light is light after its neighbours have become one. */
  lemma LightStays(g: Graph, fixed: set<Node>, rest: set<Node>, u: Node, v: Node, x: Node, q: nat, k: nat)
    requires g.WellFormed() && fixed + rest == g.nodes && v in rest && v !in fixed && u in g.adj && u != v && x in rest && x != u && x != v
    requires LightIn(g, x, g.nodes, q, k)
    ensures x in g.Combine(u, v).adj && LightIn(g.Combine(u, v), x, fixed + (rest - {v}), q, k)
  {
    CombinedNoMore(g, u, v, x, fixed + rest);
    assert fixed + rest + {v} == g.nodes && fixed + rest - {v} == fixed + (rest - {v});
    LightMonotone(q, k, |Around(g.Combine(u, v), x, fixed + (rest - {v}))|, |Around(g, x, g.nodes)|);
  }

  lemma AllLightStay(g: Graph, fixed: set<Node>, rest: set<Node>, u: Node, v: Node, first: set<Node>, q: nat, k: nat)
    requires g.WellFormed() && fixed + rest == g.nodes && v in rest && v !in fixed && u in g.adj && u != v
    requires first <= rest - {u, v} && forall x :: x in first ==> LightIn(g, x, g.nodes, q, k)
    ensures first <= g.Combine(u, v).adj.Keys
    ensures forall x :: x in first ==> LightIn(g.Combine(u, v), x, fixed + (rest - {v}), q, k)
  {
    hide LightIn;
    forall x | x in first
      ensures x in g.Combine(u, v).adj && LightIn(g.Combine(u, v), x, fixed + (rest - {v}), q, k)
    {
      LightStays(g, fixed, rest, u, v, x, q, k);
    }
  }

  /**
    Two nodes are combined that may both be taken off. If all could be taken off
    before, they still can, where the new node is light among those neighbours that
    stay or are not light themselves.
   */
  lemma StaysCombined(g: Graph, fixed: set<Node>, rest: set<Node>, u: Node, v: Node, q: nat, k: nat)
    requires g.WellFormed() && fixed !! rest && fixed + rest == g.nodes && u in rest && v in rest && u != v && v !in g.adj[u]
    requires Sheds(g, fixed, rest, q, k)
    requires Light(q, k, |set x | x in g.Adjacent(u) + g.Adjacent(v) && (x in fixed || !LightIn(g, x, g.nodes, q, k))|)
    ensures rest - {v} <= g.Combine(u, v).adj.Keys && Sheds(g.Combine(u, v), fixed, rest - {v}, q, k)
  {
    hide Sheds, LightIn;
    var c, now := g.Combine(u, v), rest - {v};
    var near := g.Adjacent(u) + g.Adjacent(v);
    var hard := set x | x in near && (x in fixed || !LightIn(g, x, g.nodes, q, k));
    var first := near - hard;
    var later := now - first;
    assert first <= now - {u};
    AllLightStay(g, fixed, rest, u, v, first, q, k);
    assert Around(c, u, fixed + later) <= hard;
    CombinedIsLight(c, u, fixed + later, hard, q, k);
    hide Around;
    OthersShed(g, fixed, rest, u, v, q, k);
    FewerShed(c, fixed, rest - {v} - {u}, later - {u}, q, k);
    ShedsOne(c, fixed, later, u, q, k);
    ShedFirst(c, fixed, now, first, q, k);
  }

  lemma FewerShed(g: Graph, fixed: set<Node>, rest: set<Node>, less: set<Node>, q: nat, k: nat)
    requires rest <= g.adj.Keys && less <= rest && Sheds(g, fixed, rest, q, k)
    ensures Sheds(g, fixed, less, q, k)
  {
    hide Sheds;
    forall n | n in less
      ensures Around(g, n, fixed + less) <= Around(g, n, fixed + rest)
    {
    }
    ShedsLess(g, fixed, rest, g, less, q, k);
  }

  lemma CombinedIsLight(c: Graph, u: Node, left: set<Node>, hard: set<Node>, q: nat, k: nat)
    requires u in c.adj && Around(c, u, left) <= hard && Light(q, k, |hard|)
    ensures LightIn(c, u, left, q, k)
  {
    FewerIsSmaller(Around(c, u, left), hard);
    LightMonotone(q, k, |Around(c, u, left)|, |hard|);
  }

  /** Without the two, everything can be taken off as before. */
  lemma OthersShed(g: Graph, fixed: set<Node>, rest: set<Node>, u: Node, v: Node, q: nat, k: nat)
    requires g.WellFormed() && fixed !! rest && fixed + rest == g.nodes && u in rest && v in rest && u != v
    requires Sheds(g, fixed, rest, q, k)
    ensures rest - {v} <= g.Combine(u, v).adj.Keys && Sheds(g.Combine(u, v), fixed, rest - {v} - {u}, q, k)
  {
    var c, less := g.Combine(u, v), rest - {v} - {u};
    forall x | x in less
      ensures Around(c, x, fixed + less) <= Around(g, x, fixed + rest)
    {
      CombinedAround(g, u, v, x, fixed + less);
    }
    ShedsLess(g, fixed, rest, c, less, q, k);
  }

  /** Exactly: the combined node must be light among the nodes that stay as long as it does. */
  lemma CombinedShedsWhen(g: Graph, fixed: set<Node>, rest: set<Node>, u: Node, v: Node, core: set<Node>, q: nat, k: nat)
    requires g.WellFormed() && fixed !! rest && fixed + rest == g.nodes && u in rest && v in rest && u != v
    requires Sheds(g, fixed, rest, q, k)
    requires rest - {v} <= g.Combine(u, v).adj.Keys && IsCore(g.Combine(u, v), fixed, rest - {v}, u, core, q, k)
    ensures Sheds(g.Combine(u, v), fixed, rest - {v}, q, k) <==>
      Light(q, k, |(g.adj[u] + g.adj[v]) * (fixed + core)|)
  {
    hide Sheds, IsCore;
    var c := g.Combine(u, v);
    OthersShed(g, fixed, rest, u, v, q, k);
    CoreIsInside(c, fixed, rest - {v}, u, core, q, k);
    AroundCombined(g, u, v, fixed + core);
    ShedsWhen(c, fixed, rest - {v}, u, core, q, k);
  }

  lemma CoreIsInside(g: Graph, fixed: set<Node>, rest: set<Node>, u: Node, core: set<Node>, q: nat, k: nat)
    requires rest <= g.adj.Keys && u in rest && IsCore(g, fixed, rest, u, core, q, k)
    ensures core <= rest - {u}
  {
  }

  lemma AroundCombined(g: Graph, u: Node, v: Node, left: set<Node>)
    requires g.WellFormed() && u in g.adj && v in g.adj && u != v && u !in left && v !in left
    ensures var c := g.Combine(u, v); u in c.adj && u !in c.adj[u] && Around(c, u, left) == (g.adj[u] + g.adj[v]) * left
  {
  }
}
