/**
  Undirected graphs whose nodes can be masked (taken out for a while) and
  combined.  `Graph` is the abstract graph with all its edges; the class
  `MaskableGraph` keeps the edges to masked and unmasked nodes apart.
 */
module Graphs {
  import opened MachineCode

  /** A node is known by the register it was made for. */
  type Node = Register

  /** `adj` holds all edges, also those of masked nodes. */
  datatype Graph = Graph(nodes: set<Node>, masked: set<Node>, adj: map<Node, set<Node>>) {
    function All(): set<Node> { nodes + masked }

    ghost predicate WellFormed() {
      && nodes !! masked
      && adj.Keys == All()
      && (forall n {:trigger adj[n]} :: n in adj ==> adj[n] <= All() && n !in adj[n])
      && (forall n, m {:trigger n in adj[m]} :: n in adj && m in adj && n in adj[m] ==> m in adj[n])
    }

    /** The unmasked neighbours. */
    function Adjacent(n: Node): set<Node>
      requires n in adj
    {
      adj[n] * nodes
    }

    function HasEdge(n: Node, m: Node): bool
      requires n in adj
    {
      m in Adjacent(n)
    }

    function AddNode(n: Node): Graph {
      if n in All() then this else Graph(nodes + {n}, masked, adj[n := {}])
    }

    function AddEdge(n: Node, m: Node): Graph
      requires n in adj && m in adj
    {
      if n == m then this else this.(adj := adj[n := adj[n] + {m}][m := adj[m] + {n}])
    }

    function Mask(n: Node): Graph {
      Graph(nodes - {n}, masked + {n}, adj)
    }

    function Unmask(n: Node): Graph {
      Graph(nodes + {n}, masked - {n}, adj)
    }

    /** All edges of `m`, masked or not, become edges of `n`; `m` disappears. */
    function Combine(n: Node, m: Node): Graph
      requires n in adj && m in adj
    {
      Graph(nodes - {m}, masked - {m}, map x | x in adj && x != m :: Redirect(n, m, x))
    }

    function Redirect(n: Node, m: Node, x: Node): set<Node>
      requires n in adj && m in adj && x in adj
    {
      if x == n then adj[n] + adj[m] - {n, m}
      else if m in adj[x] then adj[x] - {m} + {n}
      else adj[x]
    }
  }

  lemma AddNodeWellFormed(g: Graph, n: Node)
    requires g.WellFormed()
    ensures g.AddNode(n).WellFormed()
  {
  }

  lemma AddEdgeWellFormed(g: Graph, n: Node, m: Node)
    requires g.WellFormed() && n in g.adj && m in g.adj
    ensures g.AddEdge(n, m).WellFormed()
  {
  }

  lemma CombineWellFormed(g: Graph, n: Node, m: Node)
    requires g.WellFormed() && n in g.nodes && m in g.adj && n != m
    ensures g.Combine(n, m).WellFormed()
  {
    var c := g.Combine(n, m);
    forall x | x in c.adj
      ensures c.adj[x] <= c.All() && x !in c.adj[x]
    {
    }
    forall x, y | x in c.adj && y in c.adj && x in c.adj[y]
      ensures y in c.adj[x]
    {
      assert x in g.adj[y] || y in g.adj[x] || x == n || y == n;
    }
  }

  /** Masking and unmasking a node restores the graph, with every edge. */
  lemma UnmaskRestores(g: Graph, n: Node)
    requires g.WellFormed() && n in g.nodes
    ensures g.Mask(n).Unmask(n) == g
  {
  }

  /** The edges that lead into `s`. */
  function Into(adj: map<Node, set<Node>>, s: set<Node>): (r: map<Node, set<Node>>)
    ensures r.Keys == adj.Keys
    ensures forall n :: n in adj ==> r[n] == adj[n] * s
  {
    map n | n in adj :: adj[n] * s
  }

  lemma IntoIs(adj: map<Node, set<Node>>, s: set<Node>, r: map<Node, set<Node>>)
    requires r.Keys == adj.Keys
    requires forall n :: n in adj ==> r[n] == adj[n] * s
    ensures r == Into(adj, s)
  {
  }

  /** An edge between two nodes of the set. */
  lemma EdgeInside(g: Graph, n: Node, m: Node, s: set<Node>)
    requires g.WellFormed() && n in g.adj && m in g.adj && n in s && m in s
    ensures var a := Into(g.adj, s);
      Into(g.AddEdge(n, m).adj, s) == if n != m && m !in a[n] then a[n := a[n] + {m}][m := a[m] + {n}] else a
  {
    var a := Into(g.adj, s);
    IntoIs(g.AddEdge(n, m).adj, s, if n != m && m !in a[n] then a[n := a[n] + {m}][m := a[m] + {n}] else a);
  }

  /** An edge between two nodes outside the set. */
  lemma EdgeOutside(g: Graph, n: Node, m: Node, s: set<Node>)
    requires n in g.adj && m in g.adj && n !in s && m !in s
    ensures Into(g.AddEdge(n, m).adj, s) == Into(g.adj, s)
  {
    IntoIs(g.AddEdge(n, m).adj, s, Into(g.adj, s));
  }

  lemma IntoDistributes(adj: map<Node, set<Node>>, s: set<Node>, n: Node, m: Node)
    requires n in adj && m in adj
    ensures Into(adj, s)[m] == adj[m] * s
    ensures Into(adj, s)[n] + Into(adj, s)[m] == (adj[n] + adj[m]) * s
  {
  }

  lemma EdgesAreMutual(g: Graph, n: Node)
    requires g.WellFormed() && n in g.adj
    ensures forall x {:trigger g.adj[x]} :: x in g.adj && x !in g.adj[n] ==> n !in g.adj[x]
  {
  }

  /** The nodes in `moved` have their edge to `m` replaced by one to `n`. */
  function Moved(adj: map<Node, set<Node>>, n: Node, m: Node, moved: set<Node>): (r: map<Node, set<Node>>)
    ensures r.Keys == adj.Keys
  {
    map x | x in adj :: if x in moved then adj[x] - {m} + {n} else adj[x]
  }

  lemma NothingMoved(adj: map<Node, set<Node>>, n: Node, m: Node)
    ensures Moved(adj, n, m, {}) == Moved(adj, n, m, {} - {n}) == adj
  {
    assert {} - {n} == {};
  }

  lemma MovedElsewhere(adj: map<Node, set<Node>>, n: Node, m: Node, moved: set<Node>, x: Node)
    requires x in adj && x !in moved
    ensures Moved(adj, n, m, moved)[x] == adj[x]
  {
  }

  lemma MovedOne(adj: map<Node, set<Node>>, n: Node, m: Node, moved: set<Node>, x: Node)
    requires x in adj && x !in moved
    ensures Moved(adj, n, m, moved)[x] == adj[x]
    ensures Moved(adj, n, m, moved + {x}) == Moved(adj, n, m, moved)[x := adj[x] - {m} + {n}]
  {
  }

  function EdgeMoved(adj: map<Node, set<Node>>, n: Node, m: Node, a: Node): map<Node, set<Node>>
    requires n in adj && m in adj && a in adj
  {
    if a == n then adj[m := adj[m] - {n}][n := adj[n] - {m}]
    else adj[m := adj[m] - {a}][a := adj[a] - {m} + {n}][n := adj[n] + {a}]
  }

  /** The edges of `n` once the edges of `m` to `moved` have become its own. */
  function Gained(adj: map<Node, set<Node>>, n: Node, m: Node, moved: set<Node>): set<Node>
    requires n in adj
  {
    (if n in moved then adj[n] - {m} else adj[n]) + (moved - {n})
  }

  lemma GainedNothing(adj: map<Node, set<Node>>, n: Node, m: Node)
    requires n in adj && m in adj
    ensures Moved(adj, n, m, {} - {n})[m := adj[m]][n := Gained(adj, n, m, {})] == adj
  {
    NothingMoved(adj, n, m);
    assert Gained(adj, n, m, {}) == adj[n];
  }

  lemma GainedOne(adj: map<Node, set<Node>>, n: Node, m: Node, moved: set<Node>, todo: set<Node>, a: Node)
    requires n != m && a != m && n in adj && m in adj && a in adj && a in todo && a !in moved && m !in moved
    ensures var before := Moved(adj, n, m, moved - {n})[m := todo][n := Gained(adj, n, m, moved)];
            EdgeMoved(before, n, m, a)
              == Moved(adj, n, m, moved + {a} - {n})[m := todo - {a}][n := Gained(adj, n, m, moved + {a})]
  {
    var before := Moved(adj, n, m, moved - {n})[m := todo][n := Gained(adj, n, m, moved)];
    if a == n {
      assert moved + {a} - {n} == moved - {n};
      assert Gained(adj, n, m, moved) - {m} == Gained(adj, n, m, moved + {a});
    } else {
      assert moved + {a} - {n} == moved - {n} + {a};
      MovedOne(adj, n, m, moved - {n}, a);
      assert Gained(adj, n, m, moved) + {a} == Gained(adj, n, m, moved + {a});
    }
  }

  /** Moving the masked edges and then the others is what combining means. */
  lemma CombinedEdges(g: Graph, n: Node, m: Node, adj1: map<Node, set<Node>>, adjMap: map<Node, set<Node>>, maskedAdj: map<Node, set<Node>>)
    requires g.WellFormed() && n in g.nodes && m in g.nodes && n != m
    requires adj1 == Moved(Into(g.adj, g.nodes), n, m, g.adj[m] * g.masked)
    requires adjMap == Moved(adj1, n, m, adj1[m] - {n})[m := {}][n := Gained(adj1, n, m, adj1[m])]
    requires maskedAdj == Into(g.adj, g.masked)[m := {}][n := (g.adj[n] + g.adj[m]) * g.masked]
    ensures g.Combine(n, m).masked == g.masked && g.Combine(n, m).nodes == g.nodes - {m}
    ensures adjMap - {m} == Into(g.Combine(n, m).adj, g.nodes - {m})
    ensures maskedAdj - {m} == Into(g.Combine(n, m).adj, g.masked)
  {
    var c := g.Combine(n, m);
    assert c.adj.Keys == adjMap.Keys - {m} && c.adj.Keys == maskedAdj.Keys - {m};
    hide Graph.Redirect, Gained, Moved, Graph.WellFormed;
    forall x | x in c.adj
      ensures adjMap[x] == c.adj[x] * (g.nodes - {m})
      ensures maskedAdj[x] == c.adj[x] * g.masked
    {
      CombinedEdgesAt(g, n, m, adj1, x);
    }
    IntoIs(c.adj, g.nodes - {m}, adjMap - {m});
    IntoIs(c.adj, g.masked, maskedAdj - {m});
  }

  lemma CombinedEdgesAt(g: Graph, n: Node, m: Node, adj1: map<Node, set<Node>>, x: Node)
    requires g.WellFormed() && n in g.nodes && m in g.nodes && n != m && x in g.adj && x != m
    requires adj1 == Moved(Into(g.adj, g.nodes), n, m, g.adj[m] * g.masked)
    ensures adj1[m] == g.adj[m] * g.nodes
    ensures (if x == n then Gained(adj1, n, m, adj1[m]) else Moved(adj1, n, m, adj1[m] - {n})[x])
      == g.Redirect(n, m, x) * (g.nodes - {m})
    ensures (if x == n then (g.adj[n] + g.adj[m]) * g.masked else g.adj[x] * g.masked) == g.Redirect(n, m, x) * g.masked
  {
    CombinedAt(g, n, m, x);
    EdgesAreMutual(g, m);
    assert adj1[n] == g.adj[n] * g.nodes && adj1[m] == g.adj[m] * g.nodes;
    hide Graph.WellFormed, Graph.Redirect;
    if x == n {
      assert Gained(adj1, n, m, adj1[m]) == adj1[n] - {m} + (adj1[m] - {n});
    } else {
      assert adj1[x] == if x in g.adj[m] * g.masked then g.adj[x] * g.nodes - {m} + {n} else g.adj[x] * g.nodes;
    }
  }

  lemma CombinedAt(g: Graph, n: Node, m: Node, x: Node)
    requires g.WellFormed() && n in g.nodes && m in g.nodes && n != m && x in g.adj && x != m
    ensures var unmasked := g.adj[x] * g.nodes;
      g.Redirect(n, m, x) * (g.nodes - {m}) ==
        if x == n then unmasked - {m} + (g.adj[m] * g.nodes - {n})
        else if x in g.adj[m] then unmasked - {m} + {n}
        else unmasked
    ensures g.Redirect(n, m, x) * g.masked ==
        if x == n then (g.adj[n] + g.adj[m]) * g.masked else g.adj[x] * g.masked
  {
    EdgesAreMutual(g, m);
  }

  /** `adjMap` holds the unmasked neighbours of every node, `maskedAdj` the masked ones. */
  class MaskableGraph {
    var nodes: set<Node>
    var maskedNodes: set<Node>
    var adjMap: map<Node, set<Node>>
    var maskedAdj: map<Node, set<Node>>
    ghost var model: Graph

    ghost predicate Valid()
      reads this
    {
      && model.WellFormed()
      && nodes == model.nodes && maskedNodes == model.masked
      && adjMap == Into(model.adj, nodes)
      && maskedAdj == Into(model.adj, maskedNodes)
    }

    constructor ()
      ensures Valid() && model == Graph({}, {}, map[])
    {
      nodes, maskedNodes, adjMap, maskedAdj := {}, {}, map[], map[];
      model := Graph({}, {}, map[]);
    }

    method AddNode(n: Node)
      requires Valid() && n !in maskedNodes
      modifies this
      ensures Valid() && model == old(model).AddNode(n)
    {
      AddNodeWellFormed(model, n);
      if n !in nodes {
        nodes := nodes + {n};
        adjMap, maskedAdj := adjMap[n := {}], maskedAdj[n := {}];
        model := model.AddNode(n);
        IntoIs(model.adj, nodes, adjMap);
        IntoIs(model.adj, maskedNodes, maskedAdj);
      }
    }

    method AddEdge(n: Node, m: Node)
      requires Valid() && n in nodes && m in nodes
      modifies this
      ensures Valid() && model == old(model).AddEdge(n, m)
    {
      AddEdgeWellFormed(model, n, m);
      EdgeInside(model, n, m, nodes);
      EdgeOutside(model, n, m, maskedNodes);
      hide Into, Graph.WellFormed, Graph.AddEdge;
      if n != m && m !in adjMap[n] {
        adjMap := adjMap[n := adjMap[n] + {m}];
        adjMap := adjMap[m := adjMap[m] + {n}];
      }
      model := model.AddEdge(n, m);
    }

    method HasEdge(n: Node, m: Node) returns (has: bool)
      requires Valid() && n in nodes && m in nodes
      ensures has == model.HasEdge(n, m)
    {
      has := m in adjMap[n];
    }

    /** Neighbours move the node from one adjacency map to the other. */
    method MaskNode(n: Node)
      requires Valid() && n in nodes
      modifies this
      ensures Valid() && model == old(model).Mask(n)
    {
      ghost var g := model;
      var todo := adjMap[n] + maskedAdj[n];
      maskedNodes := maskedNodes + {n};
      while todo != {}
        invariant model == old(model) && nodes == old(nodes) && maskedNodes == old(maskedNodes) + {n}
        invariant todo <= g.adj[n]
        invariant adjMap.Keys == maskedAdj.Keys == g.adj.Keys
        invariant forall x {:trigger adjMap[x]} :: x in g.adj ==>
          adjMap[x] == g.adj[x] * (if x in todo then g.nodes else g.nodes - {n})
        invariant forall x {:trigger maskedAdj[x]} :: x in g.adj ==>
          maskedAdj[x] == g.adj[x] * (if x in todo then g.masked else g.masked + {n})
      {
        var x :| x in todo;
        todo := todo - {x};
        adjMap := adjMap[x := adjMap[x] - {n}];
        maskedAdj := maskedAdj[x := maskedAdj[x] + {n}];
      }
      nodes := nodes - {n};
      model := model.Mask(n);
      EdgesAreMutual(g, n);
      IntoIs(model.adj, nodes, adjMap);
      IntoIs(model.adj, maskedNodes, maskedAdj);
    }

    method UnmaskNode(n: Node)
      requires Valid() && n in maskedNodes
      modifies this
      ensures Valid() && model == old(model).Unmask(n)
    {
      ghost var g := model;
      maskedNodes := maskedNodes - {n};
      nodes := nodes + {n};
      var todo := adjMap[n] + maskedAdj[n];
      while todo != {}
        invariant model == old(model) && nodes == old(nodes) + {n} && maskedNodes == old(maskedNodes) - {n}
        invariant todo <= g.adj[n]
        invariant adjMap.Keys == maskedAdj.Keys == g.adj.Keys
        invariant forall x {:trigger adjMap[x]} :: x in g.adj ==>
          adjMap[x] == g.adj[x] * (if x in todo then g.nodes else g.nodes + {n})
        invariant forall x {:trigger maskedAdj[x]} :: x in g.adj ==>
          maskedAdj[x] == g.adj[x] * (if x in todo then g.masked else g.masked - {n})
      {
        var x :| x in todo;
        todo := todo - {x};
        adjMap := adjMap[x := adjMap[x] + {n}];
        maskedAdj := maskedAdj[x := maskedAdj[x] - {n}];
      }
      model := model.Unmask(n);
      EdgesAreMutual(g, n);
      IntoIs(model.adj, nodes, adjMap);
      IntoIs(model.adj, maskedNodes, maskedAdj);
    }

    /** The edges of `m` to masked nodes become edges of `n`. */
    method MoveMaskedEdges(n: Node, m: Node)
      requires n != m && n in maskedAdj && m in maskedAdj && maskedAdj[m] <= adjMap.Keys
      modifies this`adjMap, this`maskedAdj
      ensures adjMap == Moved(old(adjMap), n, m, old(maskedAdj[m]))
      ensures maskedAdj == old(maskedAdj)[m := {}][n := old(maskedAdj[n] + maskedAdj[m])]
    {
      hide Moved;
      ghost var adj, masked, moved := adjMap, maskedAdj, {};
      NothingMoved(adj, n, m);
      assert masked[n] + moved == masked[n];
      assert masked == masked[m := masked[m]][n := masked[n]];
      var todo := maskedAdj[m];
      while todo != {}
        invariant todo !! moved && todo + moved == masked[m]
        invariant adjMap == Moved(adj, n, m, moved)
        invariant maskedAdj == masked[m := todo][n := masked[n] + moved]
      {
        var x :| x in todo;
        MovedOne(adj, n, m, moved, x);
        todo, moved := todo - {x}, moved + {x};
        adjMap := adjMap[x := adjMap[x] - {m} + {n}];
        maskedAdj := maskedAdj[m := maskedAdj[m] - {x}];
        maskedAdj := maskedAdj[n := maskedAdj[n] + {x}];
        assert masked[n] + moved == masked[n] + (moved - {x}) + {x};
      }
    }

    /** The edges of `m` to unmasked nodes are deleted, and added to `n`. */
    method MoveEdges(n: Node, m: Node)
      requires n != m && n in adjMap && m in adjMap && adjMap[m] <= adjMap.Keys && m !in adjMap[m]
      modifies this`adjMap
      ensures adjMap == Moved(old(adjMap), n, m, old(adjMap[m]) - {n})[m := {}][n := Gained(old(adjMap), n, m, old(adjMap[m]))]
    {
      ghost var adj, moved := adjMap, {};
      GainedNothing(adj, n, m);
      var todo := adjMap[m];
      while todo != {}
        invariant todo !! moved && todo + moved == adj[m]
        invariant adjMap == Moved(adj, n, m, moved - {n})[m := todo][n := Gained(adj, n, m, moved)]
      {
        var a :| a in todo;
        GainedOne(adj, n, m, moved, todo, a);
        todo, moved := todo - {a}, moved + {a};
        MoveEdge(n, m, a);
      }
    }

    /** `del_edge(m, a)`, then `add_edge(n, a)`. */
    method MoveEdge(n: Node, m: Node, a: Node)
      requires n != m && a != m && n in adjMap && m in adjMap && a in adjMap
      modifies this`adjMap
      ensures adjMap == EdgeMoved(old(adjMap), n, m, a)
    {
      adjMap := adjMap[m := adjMap[m] - {a}];
      adjMap := adjMap[a := adjMap[a] - {m}];
      if a != n {
        adjMap := adjMap[n := adjMap[n] + {a}];
        adjMap := adjMap[a := adjMap[a] + {n}];
      }
    }

    /** Merge `m` into `n`; a masked `m` is unmasked first. */
    method Combine(n: Node, m: Node)
      requires Valid() && n in nodes && m in nodes + maskedNodes && n != m
      modifies this
      ensures Valid()
      ensures model == (if m in old(maskedNodes) then old(model).Unmask(m) else old(model)).Combine(n, m)
    {
      if m in maskedNodes {
        UnmaskNode(m);
      }
      CombineUnmasked(n, m);
    }

    method CombineUnmasked(n: Node, m: Node)
      requires Valid() && n in nodes && m in nodes && n != m
      modifies this
      ensures Valid() && model == old(model).Combine(n, m)
    {
      CombineWellFormed(model, n, m);
      assert n in model.adj && m in model.adj;
      hide Into, Graph.Redirect, Graph.WellFormed;
      Reroute(n, m);
      nodes := nodes - {m};
      adjMap, maskedAdj := adjMap - {m}, maskedAdj - {m};
      model := model.Combine(n, m);
    }

    method Reroute(n: Node, m: Node)
      requires Valid() && n in nodes && m in nodes && n != m
      modifies this`adjMap, this`maskedAdj
      ensures var c := model.Combine(n, m);
        && c.nodes == nodes - {m} && c.masked == maskedNodes
        && adjMap - {m} == Into(c.adj, nodes - {m})
        && maskedAdj - {m} == Into(c.adj, maskedNodes)
    {
      assert model.adj[m] <= model.All() && m !in model.adj[m];
      hide Gained, Moved, Into, Graph.Combine, Graph.WellFormed;
      IntoDistributes(model.adj, maskedNodes, n, m);
      MovedElsewhere(adjMap, n, m, maskedAdj[m], m);
      MoveMaskedEdges(n, m);
      ghost var adj1 := adjMap;
      MoveEdges(n, m);
      CombinedEdges(model, n, m, adj1, adjMap, maskedAdj);
    }
  }
}
