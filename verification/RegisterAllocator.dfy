/**
  The allocator itself: worklists, move sets and the select stack are fields
  that every step updates in place.
 */
module RegisterAllocator {
  import opened MachineCode
  import opened Graphs
  import opened PqTest
  import opened Coalescing
  import opened ColoringInvariant
  import opened MovesInvariant
  import opened MeaningInvariant
  import opened AllocatorSteps
  import opened AllocatorRuns
  import opened Initialization
  import opened Assignment

  /** How one run over the worklists ends. */
  datatype Verdict = Done | MustSpill | Failed

  /** ----- promotion, one node at a time ----- */

  lemma PromoteNone(t: Target, s: State)
    requires Shaped(s)
    ensures Promote(t, s, {}) == s
  {
    var p := Promote(t, s, {});
    assert Promoted(t, s, {}) == {} && Enabled(t, s, {}) == {};
    assert p.spill == s.spill && p.freeze == s.freeze && p.simplify == s.simplify;
    assert p.active == s.active && p.worklist == s.worklist;
  }

  /** The moves of a node and its neighbours. */
  ghost function Near(s: State, n: Node): set<Move>
    requires Shaped(s) && n in s.graph.adj
  {
    set x, m | x in {n} + s.graph.Adjacent(n) && m in s.moves[x] :: m
  }

  /** `decrement_degree` of one more node. */
  ghost function PromoteOne(t: Target, s: State, n: Node): State
    requires Shaped(s) && n in s.graph.nodes
  {
    if n in s.spill && Colorable(t, s, n) then
      var enabled := Near(s, n) * s.active;
      var q := s.(spill := s.spill - {n}, active := s.active - enabled, worklist := s.worklist + enabled);
      if MoveRelated(s, n) then q.(freeze := s.freeze + {n}) else q.(simplify := s.simplify + {n})
    else s
  }

  lemma PromotedNext(t: Target, s: State, ns: set<Node>, n: Node)
    requires Shaped(s) && ns <= s.graph.nodes && n in s.graph.nodes && n !in ns
    ensures n !in Promoted(t, s, ns)
    ensures Promoted(t, s, ns + {n}) == Promoted(t, s, ns) + (if n in s.spill && Colorable(t, s, n) then {n} else {})
  {
    hide Colorable;
  }

  lemma EnabledNext(t: Target, s: State, ns: set<Node>, n: Node)
    requires Shaped(s) && ns <= s.graph.nodes && n in s.graph.nodes && n !in ns
    ensures Enabled(t, s, ns + {n}) == Enabled(t, s, ns) + (if n in s.spill && Colorable(t, s, n) then Near(s, n) * s.active else {})
  {
    PromotedNext(t, s, ns, n);
    hide Colorable, Promoted;
  }

  /** These nodes leave the spill worklist, and these moves get another chance. */
  function Release(s: State, promoted: set<Node>, enabled: set<Move>): State
    requires promoted <= s.moves.Keys
  {
    s.(spill := s.spill - promoted,
       freeze := s.freeze + (set n | n in promoted && MoveRelated(s, n)),
       simplify := s.simplify + (set n | n in promoted && !MoveRelated(s, n)),
       active := s.active - enabled,
       worklist := s.worklist + enabled)
  }

  lemma PromoteIsRelease(t: Target, s: State, ns: set<Node>)
    requires Shaped(s) && ns <= s.graph.nodes
    ensures Promoted(t, s, ns) <= s.moves.Keys
    ensures Promote(t, s, ns) == Release(s, Promoted(t, s, ns), Enabled(t, s, ns))
  {
  }

  lemma ReleaseOne(s: State, promoted: set<Node>, enabled: set<Move>, n: Node, near: set<Move>)
    requires promoted <= s.moves.Keys && n in s.moves && n !in promoted
    ensures var p := Release(s, promoted, enabled);
      var q := p.(spill := p.spill - {n}, active := p.active - near * p.active, worklist := p.worklist + near * p.active);
      (if MoveRelated(p, n) then q.(freeze := p.freeze + {n}) else q.(simplify := p.simplify + {n}))
        == Release(s, promoted + {n}, enabled + near * s.active)
  {
    SplitRelated(s, promoted, n);
    assert s.active - enabled - near * (s.active - enabled) == s.active - (enabled + near * s.active);
    assert s.worklist + enabled + near * (s.active - enabled) == s.worklist + (enabled + near * s.active);
  }

  lemma SplitRelated(s: State, promoted: set<Node>, n: Node)
    requires promoted <= s.moves.Keys && n in s.moves && n !in promoted
    ensures s.spill - promoted - {n} == s.spill - (promoted + {n})
    ensures s.freeze + (set x | x in promoted + {n} && MoveRelated(s, x))
      == s.freeze + (set x | x in promoted && MoveRelated(s, x)) + (if MoveRelated(s, n) then {n} else {})
    ensures s.simplify + (set x | x in promoted + {n} && !MoveRelated(s, x))
      == s.simplify + (set x | x in promoted && !MoveRelated(s, x)) + (if MoveRelated(s, n) then {} else {n})
  {
  }

  lemma PromoteLeaves(t: Target, s: State, ns: set<Node>, n: Node)
    requires Shaped(s) && ns <= s.graph.nodes && n in s.graph.nodes && n !in ns
    ensures var p := Promote(t, s, ns);
      && Shaped(p) && p.spill == s.spill - Promoted(t, s, ns) && Near(p, n) == Near(s, n)
      && (Colorable(t, p, n) <==> Colorable(t, s, n))
  {
    PromoteShaped(t, s, ns);
    SameGraphKeeps(t, s, Promote(t, s, ns));
  }

  lemma PromoteNext(t: Target, s: State, ns: set<Node>, n: Node)
    requires Shaped(s) && ns <= s.graph.nodes && n in s.graph.nodes && n !in ns
    ensures Shaped(Promote(t, s, ns)) && PromoteOne(t, Promote(t, s, ns), n) == Promote(t, s, ns + {n})
  {
    var p := Promote(t, s, ns);
    PromoteShaped(t, s, ns);
    PromoteLeaves(t, s, ns, n);
    hide Colorable, Promoted, Enabled, Near, Release, Promote, StackPassed, Shaped;
    PromoteIsRelease(t, s, ns);
    PromoteIsRelease(t, s, ns + {n});
    PromotedNext(t, s, ns, n);
    EnabledNext(t, s, ns, n);
    var promoted, enabled := Promoted(t, s, ns), Enabled(t, s, ns);
    if n in s.spill && Colorable(t, s, n) {
      ReleaseOne(s, promoted, enabled, n, Near(s, n));
    } else {
      assert promoted + {} == promoted && enabled + {} == enabled;
    }
  }

  lemma MostTakenInsert(t: Target, b: Class, s: set<Register>, r: Register)
    ensures t.MostTaken(b, s + {r}) == if t.Takes(b, r) > t.MostTaken(b, s) then t.Takes(b, r) else t.MostTaken(b, s)
  {
    t.MostTakenMonotone(b, s, s + {r});
    t.MostTakenBounds(b, s + {r}, r);
    var x := t.MostTakenReached(b, s + {r});
    if x != r {
      t.MostTakenBounds(b, s, x);
    }
  }

  lemma DividedNext(done: set<Node>, n: Node, colored: set<Node>, passing: set<Node>, related: set<Node>)
    ensures (done + {n}) * colored == done * colored + {n} * colored
    ensures (done + {n}) * (passing - related) == done * (passing - related) + {n} * (passing - related)
    ensures (done + {n}) * (passing * related) == done * (passing * related) + {n} * (passing * related)
    ensures done + {n} - colored - passing == done - colored - passing + ({n} - colored - passing)
  {
  }

  lemma DividedAll(done: set<Node>, colored: set<Node>, passing: set<Node>, related: set<Node>)
    requires colored + passing <= done
    ensures done * colored == colored && done * (passing - related) == passing - related
    ensures done * (passing * related) == passing * related
  {
  }

  lemma Unlinked(moves: map<Node, set<Move>>, a: Node, b: Node, m: Move)
    requires a in moves && b in moves
    ensures var once := moves[a := moves[a] - {m}];
      once[b := once[b] - {m}] == map n | n in moves :: if a == n || b == n then moves[n] - {m} else moves[n]
  {
    assert moves[a] - {m} - {m} == moves[a] - {m};
  }

  lemma UnlinkedEnds(c: Context, s: State, m: Move, kind: Retirement)
    requires c.src(m) in s.tempMap && c.dst(m) in s.tempMap
    requires s.tempMap[c.src(m)] in s.moves && s.tempMap[c.dst(m)] in s.moves
    ensures
      var a, b := s.tempMap[c.src(m)], s.tempMap[c.dst(m)];
      var once := s.moves[a := s.moves[a] - {m}];
      once[b := once[b] - {m}] == Retire(c, s, m, kind).moves
  {
    var a, b := s.tempMap[c.src(m)], s.tempMap[c.dst(m)];
    Unlinked(s.moves, a, b, m);
  }

  class GraphColoringRegisterAllocator {
    const c: Context
    var graph: Graph
    var cls: Classes
    var tempMap: map<Register, Node>
    var moves: map<Node, set<Move>>
    var precolored: set<Node>
    var simplify: set<Node>
    var freeze: set<Node>
    var spill: set<Node>
    var worklist: set<Move>
    var active: set<Move>
    var coalesced: set<Move>
    var constrained: set<Move>
    var frozen: set<Move>
    var stack: seq<Node>
    var reg: Registers

    ghost function Model(): State
      reads this
    {
      State(graph, cls, tempMap, moves, precolored, simplify, freeze, spill,
            worklist, active, coalesced, constrained, frozen, stack)
    }

    constructor (c: Context)
      ensures this.c == c
    {
      this.c := c;
      graph, cls, tempMap, moves := Graph({}, {}, map[]), map[], map[], map[];
      precolored, simplify, freeze, spill := {}, {}, {}, {};
      worklist, active, coalesced, constrained, frozen := {}, {}, {}, {}, {};
      stack, reg := [], map[];
    }

    /** ----- init_data ----- */

    /** `link_move` for every move. */
    method LinkMoves(ms: seq<Move>)
      requires tempMap == map r | r in graph.adj :: r
      requires forall m :: m in ms ==> c.src(m) in graph.adj && c.dst(m) in graph.adj
      requires moves == map n | n in graph.adj :: {}
      modifies this`moves, this`worklist
      ensures worklist == set m | m in ms
      ensures moves == OwnMoves(c, graph, worklist)
    {
      hide OwnMoves, Graph.WellFormed;
      worklist := {};
      NoMovesYet(c, graph);
      for i := 0 to |ms|
        invariant worklist == set m | m in ms[..i]
        invariant moves == OwnMoves(c, graph, worklist)
      {
        var m := ms[i];
        assert ms[..i + 1] == ms[..i] + [m];
        LinkOne(c, graph, worklist, m);
        var src, dst := tempMap[c.src(m)], tempMap[c.dst(m)];
        moves := moves[src := moves[src] + {m}];
        moves := moves[dst := moves[dst] + {m}];
        worklist := worklist + {m};
      }
      assert ms[..|ms|] == ms;
      assert worklist == set m | m in ms;
    }

    method PassesTest(n: Node) returns (yes: bool)
      requires graph.WellFormed() && cls == OwnClasses(c.t, graph) && n in graph.adj && n !in precolored
      ensures yes == Passes(c.t, graph, n)
    {
      yes := IsColorable(n);
    }

    /** The node goes to the worklist it belongs on. */
    method PlaceNode(n: Node)
      requires graph.WellFormed() && cls == OwnClasses(c.t, graph) && moves.Keys == graph.adj.Keys
      requires n in graph.adj && n !in precolored
      modifies this`precolored, this`simplify, this`freeze, this`spill
      ensures precolored == old(precolored) + {n} * Precolored(graph)
      ensures simplify == old(simplify) + {n} * (Passing(c.t, graph) - Related(moves))
      ensures freeze == old(freeze) + {n} * (Passing(c.t, graph) * Related(moves))
      ensures spill == old(spill) + ({n} - Precolored(graph) - Passing(c.t, graph))
    {
      var passes := PassesTest(n);
      hide Passes, Graph.WellFormed, OwnClasses;
      if n.Physical? {
        precolored := precolored + {n};
      } else if !passes {
        spill := spill + {n};
      } else if moves[n] != {} {
        freeze := freeze + {n};
      } else {
        simplify := simplify + {n};
      }
    }

    /** Divides the nodes over the worklists. */
    method DivideNodes()
      requires graph.WellFormed() && graph.masked == {} && cls == OwnClasses(c.t, graph) && moves.Keys == graph.adj.Keys
      modifies this`precolored, this`simplify, this`freeze, this`spill
      ensures precolored == Precolored(graph)
      ensures simplify == Passing(c.t, graph) - Related(moves)
      ensures freeze == Passing(c.t, graph) * Related(moves)
      ensures spill == graph.adj.Keys - Precolored(graph) - Passing(c.t, graph)
    {
      assert graph.adj.Keys == graph.nodes;
      assert Precolored(graph) + Passing(c.t, graph) <= graph.nodes;
      hide Passes, OwnClasses, Passing, Related, Precolored, Graph.WellFormed;
      ghost var passing, related := Passing(c.t, graph), Related(moves);
      precolored, simplify, freeze, spill := {}, {}, {}, {};
      ghost var done := {};
      var todo := graph.nodes;
      while todo != {}
        invariant todo !! done && todo + done == graph.nodes
        invariant precolored <= done && precolored == done * Precolored(graph)
        invariant simplify == done * (passing - related)
        invariant freeze == done * (passing * related)
        invariant spill == done - Precolored(graph) - passing
      {
        var n :| n in todo;
        DividedNext(done, n, Precolored(graph), passing, related);
        todo, done := todo - {n}, done + {n};
        PlaceNode(n);
      }
      assert done == graph.nodes;
      DividedAll(done, Precolored(graph), passing, related);
    }

    /** Nothing has happened to the graph yet. */
    method Reset(g: Graph)
      modifies this
      ensures graph == g && tempMap == (map r | r in g.adj :: r) && cls == OwnClasses(c.t, g)
      ensures moves == (map n | n in g.adj :: {}) && stack == []
      ensures coalesced == constrained == frozen == active == {}
    {
      graph := g;
      tempMap := map r | r in g.adj :: r;
      cls := OwnClasses(c.t, g);
      moves := map n | n in g.adj :: {};
      stack := [];
      coalesced, constrained, frozen, active := {}, {}, {}, {};
    }

    method InitData(g: Graph, ms: seq<Move>)
      requires g.WellFormed() && g.masked == {}
      requires forall m :: m in ms ==> c.src(m) in g.nodes && c.dst(m) in g.nodes
      modifies this
      ensures worklist == (set m | m in ms) && Model() == Initial(c, g, worklist)
    {
      hide Passes, OwnClasses, OwnMoves, Passing, Related, Precolored;
      assert g.adj.Keys == g.nodes;
      Reset(g);
      hide Graph.WellFormed;
      LinkMoves(ms);
      DivideNodes();
    }

    /** ----- queries ----- */

    /** `q`: the most registers of class `b` that one register of class `k` takes. */
    method MostTaken(b: Class, k: Class) returns (most: nat)
      ensures most == c.t.Q(b, k)
    {
      most := 0;
      ghost var done := {};
      var todo := c.t.regs(k);
      while todo != {}
        invariant todo !! done && todo + done == c.t.regs(k)
        invariant most == c.t.MostTaken(b, done)
      {
        var r :| r in todo;
        MostTakenInsert(c.t, b, done, r);
        todo, done := todo - {r}, done + {r};
        if c.t.Takes(b, r) > most {
          most := c.t.Takes(b, r);
        }
      }
      assert done == c.t.regs(k);
    }

    method CountBlocked(b: Class, s: set<Node>) returns (n: nat)
      requires s <= cls.Keys
      ensures n == Blocked(c.t, cls, b, s)
    {
      n := 0;
      ghost var done := {};
      var todo := s;
      while todo != {}
        invariant todo !! done && todo + done == s
        invariant n == Blocked(c.t, cls, b, done)
      {
        var x :| x in todo;
        assert done + {x} - {x} == done;
        BlockedSplit(c.t, cls, b, done + {x}, x);
        todo, done := todo - {x}, done + {x};
        var q := MostTaken(b, cls[x]);
        n := n + q;
      }
      assert done == s;
    }

    method IsColorable(n: Node) returns (yes: bool)
      requires graph.WellFormed() && cls.Keys == graph.adj.Keys && n in graph.adj
      ensures yes == (n in precolored || Blocked(c.t, cls, cls[n], graph.Adjacent(n)) < |c.t.regs(cls[n])|)
      ensures Shaped(Model()) ==> yes == Colorable(c.t, Model(), n)
    {
      if n in precolored {
        yes := true;
      } else {
        var blocked := CountBlocked(cls[n], graph.Adjacent(n));
        yes := blocked < |c.t.regs(cls[n])|;
      }
    }

    method FindEdge(a: Node, b: Node) returns (yes: bool)
      requires Shaped(Model()) && a in graph.adj && b in graph.adj
      ensures yes == HasEdge(c.t, Model(), a, b)
    {
      yes := b in graph.Adjacent(a)
        || (a in precolored && exists r :: r in c.t.alias(a) && r in tempMap && b in graph.Adjacent(tempMap[r]))
        || (b in precolored && exists r :: r in c.t.alias(b) && r in tempMap && tempMap[r] in graph.Adjacent(a));
    }

    /** ----- simplify ----- */

    /** `enable_moves` for the node and its neighbours. */
    method EnableMoves(n: Node)
      requires Shaped(Model()) && n in graph.adj
      modifies this`worklist, this`active
      ensures var enabled := Near(old(Model()), n) * old(active);
        Model() == old(Model()).(active := old(active) - enabled, worklist := old(worklist) + enabled)
    {
      ghost var seen, done := {}, {};
      var todo := {n} + graph.Adjacent(n);
      while todo != {}
        invariant todo !! done && todo + done == {n} + graph.Adjacent(n)
        invariant seen == (set x, m | x in done && m in moves[x] :: m) * old(active)
        invariant active == old(active) - seen && worklist == old(worklist) + seen
      {
        var x :| x in todo;
        todo, done := todo - {x}, done + {x};
        var enabled := moves[x] * active;
        active := active - enabled;
        worklist := worklist + enabled;
        seen := seen + enabled;
      }
      assert done == {n} + graph.Adjacent(n);
    }

    method DecrementDegree(n: Node)
      requires Shaped(Model()) && n in graph.nodes
      modifies this`spill, this`freeze, this`simplify, this`worklist, this`active
      ensures Model() == PromoteOne(c.t, old(Model()), n)
    {
      var passes := IsColorable(n);
      if n in spill && passes {
        EnableMoves(n);
        spill := spill - {n};
        if moves[n] != {} {
          freeze := freeze + {n};
        } else {
          simplify := simplify + {n};
        }
      }
    }

    method DecrementAll(ns: set<Node>)
      requires Shaped(Model()) && ns <= graph.nodes
      modifies this`spill, this`freeze, this`simplify, this`worklist, this`active
      ensures Model() == Promote(c.t, old(Model()), ns)
    {
      ghost var s := Model();
      ghost var done := {};
      PromoteNone(c.t, s);
      var todo := ns;
      while todo != {}
        invariant todo !! done && todo + done == ns
        invariant Shaped(Model()) && Model() == Promote(c.t, s, done)
      {
        var n :| n in todo;
        todo, done := todo - {n}, done + {n};
        PromoteNext(c.t, s, done - {n}, n);
        assert done - {n} + {n} == done;
        PromoteShaped(c.t, s, done);
        hide Promote, PromoteOne, Shaped;
        DecrementDegree(n);
      }
      assert done == ns;
    }

    method SimplifyNode() returns (n: Node)
      requires Shaped(Model()) && simplify != {}
      modifies this
      ensures n in old(simplify) && Model() == Simplify(c.t, old(Model()), n)
    {
      n :| n in simplify;
      PushShaped(Model(), n);
      assert n in graph.adj;
      simplify := simplify - {n};
      stack := stack + [n];
      graph := graph.Mask(n);
      DecrementAll(graph.Adjacent(n));
    }

    /** ----- coalesce ----- */

    /** `add_worklist`; without `ok`, the node was not on the freeze worklist. */
    method AddToWorklist(u: Node) returns (ok: bool)
      requires Shaped(Model()) && u in graph.adj
      modifies this`freeze, this`simplify
      ensures var o := AddWorklist(c.t, old(Model()), u); ok == o.Ok? && (ok ==> Model() == o.s)
    {
      var passes := IsColorable(u);
      ok := true;
      if u !in precolored && moves[u] == {} && passes {
        if u !in freeze {
          return false;
        }
        freeze := freeze - {u};
        simplify := simplify + {u};
      }
    }

    /** The move leaves its worklist for a final set. */
    method FileMove(m: Move, kind: Retirement)
      modifies this`worklist, this`active, this`coalesced, this`constrained, this`frozen
      ensures worklist == old(worklist) - {m} && active == old(active) - {m}
      ensures coalesced == if kind == AsCoalesced then old(coalesced) + {m} else old(coalesced)
      ensures constrained == if kind == AsConstrained then old(constrained) + {m} else old(constrained)
      ensures frozen == if kind == AsFrozen then old(frozen) + {m} else old(frozen)
    {
      worklist, active := worklist - {m}, active - {m};
      match kind {
        case AsCoalesced => coalesced := coalesced + {m};
        case AsConstrained => constrained := constrained + {m};
        case AsFrozen => frozen := frozen + {m};
      }
    }

    /** `unlink_move`, together with the change of the move sets. */
    method UnlinkMove(m: Move, kind: Retirement)
      requires moves.Keys == graph.adj.Keys && c.src(m) in tempMap && c.dst(m) in tempMap
      requires tempMap[c.src(m)] in graph.adj && tempMap[c.dst(m)] in graph.adj
      modifies this`moves, this`worklist, this`active, this`coalesced, this`constrained, this`frozen
      ensures Model() == Retire(c, old(Model()), m, kind)
    {
      UnlinkedEnds(c, Model(), m, kind);
      var a, b := tempMap[c.src(m)], tempMap[c.dst(m)];
      moves := moves[a := moves[a] - {m}];
      moves := moves[b := moves[b] - {m}];
      FileMove(m, kind);
    }

    method IsOkWith(x: Node, u: Node) returns (yes: bool)
      requires Shaped(Model()) && x in graph.adj && u in graph.adj
      ensures yes == OkWith(c.t, Model(), x, u)
    {
      var passes := IsColorable(x);
      var edge := FindEdge(x, u);
      yes := x in precolored || passes || edge;
    }

    method AllOkWith(ns: set<Node>, u: Node) returns (yes: bool)
      requires Shaped(Model()) && ns <= graph.adj.Keys && u in graph.adj
      ensures yes == forall x :: x in ns ==> OkWith(c.t, Model(), x, u)
    {
      var todo := ns;
      yes := true;
      while todo != {} && yes
        invariant todo <= ns
        invariant yes <==> forall x :: x in ns - todo ==> OkWith(c.t, Model(), x, u)
      {
        var x :| x in todo;
        todo := todo - {x};
        yes := IsOkWith(x, u);
      }
    }

    /** The nodes that do not pass the pq-test. */
    method Hard(ns: set<Node>) returns (hard: set<Node>)
      requires Shaped(Model()) && ns <= graph.adj.Keys
      ensures hard == set n | n in ns && !Colorable(c.t, Model(), n)
    {
      var todo := ns;
      hard := {};
      while todo != {}
        invariant todo <= ns
        invariant hard == set n | n in ns - todo && !Colorable(c.t, Model(), n)
      {
        var x :| x in todo;
        todo := todo - {x};
        var passes := IsColorable(x);
        if !passes {
          hard := hard + {x};
        }
      }
    }

    /** The test before combining; without `ok`, the nodes have no common class. */
    method TestCombine(u: Node, v: Node) returns (ok: bool, yes: bool)
      requires Shaped(Model()) && u in graph.adj && v in graph.adj
      ensures ok <==> u in precolored || Comparable(c.t, cls[u], cls[v])
      ensures ok ==> yes == ShouldCombine(c.t, Model(), u, v)
    {
      ok, yes := true, false;
      if u in precolored {
        if c.t.sub(cls[u], cls[v]) {
          yes := AllOkWith(graph.Adjacent(v), u);
        }
      } else if !c.t.sub(cls[u], cls[v]) && !c.t.sub(cls[v], cls[u]) {
        ok := false;
      } else {
        var b := if c.t.sub(cls[u], cls[v]) then cls[u] else cls[v];
        var hard := Hard(graph.Adjacent(u) + graph.Adjacent(v));
        var blocked := CountBlocked(b, hard);
        yes := blocked < |c.t.regs(b)|;
      }
    }

    /** `v` is on one of the two worklists at most. */
    method LeaveWorklist(v: Node)
      requires v in freeze ==> v !in spill
      modifies this`freeze, this`spill
      ensures freeze == old(freeze) - {v} && spill == old(spill) - {v}
    {
      if v in freeze {
        freeze := freeze - {v};
      } else {
        spill := spill - {v};
      }
    }

    method MergeNodes(u: Node, v: Node, k: Class)
      requires u in graph.adj && v in graph.adj && u in moves && v in moves
      requires v in freeze ==> v !in spill
      modifies this
      ensures Model() == Merge(old(Model()), u, v, k)
    {
      hide Graph.Combine;
      LeaveWorklist(v);
      graph := graph.Combine(u, v);
      tempMap := map r | r in tempMap :: if tempMap[r] == v then u else tempMap[r];
      moves := (moves - {v})[u := moves[u] + moves[v]];
      cls := (cls - {v})[u := k];
    }

    /** The neighbours of the combined node may have become colourable, the node itself not. */
    method SettleNode(u: Node)
      requires Shaped(Model()) && u in graph.adj
      modifies this
      ensures Model() == Settle(c.t, old(Model()), u)
    {
      PromoteShaped(c.t, Model(), graph.Adjacent(u));
      hide Shaped, Promote, Colorable;
      DecrementAll(graph.Adjacent(u));
      var passes := IsColorable(u);
      if !passes && u in freeze {
        freeze := freeze - {u};
        spill := spill + {u};
      }
    }

    method CombineInto(u: Node, v: Node)
      requires Shaped(Model()) && u != v && u in graph.nodes && v in freeze + spill
      requires Comparable(c.t, cls[u], cls[v])
      modifies this
      ensures Model() == CombineNodes(c.t, old(Model()), u, v)
    {
      var k := if c.t.sub(cls[u], cls[v]) then cls[u] else cls[v];
      MergeShaped(Model(), u, v, k);
      hide Settle, Merge;
      MergeNodes(u, v, k);
      hide Shaped;
      SettleNode(u);
    }

    /** The move cannot be coalesced: both its nodes are looked at again. */
    method Constrain(m: Move, u: Node, v: Node) returns (ok: bool)
      requires Shaped(Model()) && c.src(m) in tempMap && c.dst(m) in tempMap && u in graph.adj && v in graph.adj
      modifies this
      ensures Shaped(Retire(c, old(Model()), m, AsConstrained))
      ensures var o := AddWorklist(c.t, Retire(c, old(Model()), m, AsConstrained), u);
        if o.Raised? then !ok else
        && Shaped(o.s) && v in o.s.graph.adj
        && var o' := AddWorklist(c.t, o.s, v); ok == o'.Ok? && (ok ==> Model() == o'.s)
    {
      RetireLeaves(c, Model(), m, AsConstrained);
      AddWorklistShaped(c.t, Retire(c, Model(), m, AsConstrained), u);
      hide Shaped, AddWorklist, Retire;
      UnlinkMove(m, AsConstrained);
      ok := AddToWorklist(u);
      if ok {
        ok := AddToWorklist(v);
      }
    }

    method Combine(m: Move, u: Node, v: Node) returns (ok: bool)
      requires Shaped(Model()) && c.src(m) in tempMap && c.dst(m) in tempMap
      requires u != v && u in graph.nodes && v in freeze + spill && u in cls && v in cls && Comparable(c.t, cls[u], cls[v])
      modifies this
      ensures var p := Retire(c, old(Model()), m, AsCoalesced);
        && Shaped(p) && Shaped(CombineNodes(c.t, p, u, v)) && u in CombineNodes(c.t, p, u, v).graph.adj
        && var o := AddWorklist(c.t, CombineNodes(c.t, p, u, v), u); ok == o.Ok? && (ok ==> Model() == o.s)
    {
      RetireLeaves(c, Model(), m, AsCoalesced);
      CombineNodesShaped(c.t, Retire(c, Model(), m, AsCoalesced), u, v);
      hide Shaped, AddWorklist, Retire, CombineNodes;
      UnlinkMove(m, AsCoalesced);
      CombineInto(u, v);
      ok := AddToWorklist(u);
    }

    method CoalesceMove() returns (m: Move, ok: bool)
      requires c.t.Sensible() && Shaped(Model()) && MovesLinked(c, Model()) && MovesPlaced(Model(), {}, {}) && worklist != {}
      modifies this
      ensures m in old(worklist)
      ensures var o := Coalesce(c, old(Model()), m); ok == o.Ok? && (ok ==> Model() == o.s)
    {
      hide Shaped, MovesLinked, MovesPlaced, HasEdge, CombineNodes, AddWorklist, Retire, Conservative;
      m :| m in worklist;
      CoalesceFinds(c, Model(), m);
      RetireLeaves(c, Model(), m, AsCoalesced);
      var x, y := tempMap[c.dst(m)], tempMap[c.src(m)];
      var u, v := if y in precolored then y else x, if y in precolored then x else y;
      var edge := FindEdge(u, v);
      if u == v {
        UnlinkMove(m, AsCoalesced);
        ok := AddToWorklist(u);
      } else if v in precolored || edge {
        ok := Constrain(m, u, v);
      } else {
        var yes;
        ok, yes := TestCombine(u, v);
        if ok && yes {
          ok := Combine(m, u, v);
        } else if ok {
          worklist, active := worklist - {m}, active + {m};
        }
      }
    }

    /** ----- freeze ----- */

    method FreezeOne(u: Node, m: Move) returns (ok: bool)
      requires Shaped(Model()) && c.src(m) in tempMap && c.dst(m) in tempMap
      modifies this
      ensures var o := FreezeMove(c, old(Model()), u, m); ok == o.Ok? && (ok ==> Model() == o.s)
    {
      RetireShaped(c, Model(), m, AsFrozen);
      UnlinkMove(m, AsFrozen);
      var src, dst := tempMap[c.src(m)], tempMap[c.dst(m)];
      ok := AddToWorklist(if u == dst then src else dst);
    }

    /** Gives up these moves of `u`, in this order. */
    method FreezeAll(u: Node, ms: seq<Move>) returns (ok: bool)
      requires Shaped(Model()) && forall m :: m in ms ==> c.src(m) in tempMap && c.dst(m) in tempMap
      modifies this
      ensures var o := FreezeMoves(c, old(Model()), u, ms); ok == o.Ok? && (ok ==> Model() == o.s)
    {
      hide Shaped, FreezeMove, FreezeMoves;
      ghost var s := Model();
      ok := true;
      var k := 0;
      assert ms[0..] == ms;
      while k < |ms|
        invariant k <= |ms| && ok
        invariant Shaped(Model()) && tempMap == s.tempMap
        invariant FreezeMoves(c, s, u, ms) == FreezeMoves(c, Model(), u, ms[k..])
      {
        FreezeMovesNext(c, Model(), u, ms[k..]);
        assert ms[k..][0] == ms[k] && ms[k..][1..] == ms[k + 1..];
        ok := FreezeOne(u, ms[k]);
        if !ok {
          return;
        }
        k := k + 1;
      }
      NoMovesLeft(c, Model(), u);
      assert ms[k..] == [];
    }

    /** Takes a node and gives up all its moves, in the order `ms`. */
    method FreezeNode() returns (u: Node, ms: seq<Move>, ok: bool)
      requires Shaped(Model()) && MovesLinked(c, Model()) && freeze != {}
      modifies this
      ensures u in old(freeze) && u in old(moves) && IsOrderOf(ms, old(moves)[u])
      ensures var o := Freeze(c, old(Model()), u, ms); ok == o.Ok? && (ok ==> Model() == o.s)
    {
      u :| u in freeze;
      ThawShaped(Model(), u);
      assert LinkedAt(c, Model(), u);
      assert u in moves && forall m :: m in moves[u] ==> c.src(m) in tempMap && c.dst(m) in tempMap;
      hide Shaped, MovesLinked, FreezeMoves;
      ms := ListOf(moves[u]);
      freeze, simplify := freeze - {u}, simplify + {u};
      ok := FreezeAll(u, ms);
    }

    static method ListOf(s: set<Move>) returns (ms: seq<Move>)
      ensures IsOrderOf(ms, s)
    {
      ms := [];
      var todo := s;
      while todo != {}
        invariant todo <= s && IsOrderOf(ms, s - todo)
      {
        var m :| m in todo;
        todo, ms := todo - {m}, ms + [m];
      }
    }

    /** ----- the main loop, up to spilling ----- */

    /** One step; without `ok`, the allocator has raised. */
    method OneStep(ghost pairs: Pairs) returns (ok: bool)
      requires Good(c, Model(), pairs) && (simplify != {} || worklist != {} || freeze != {})
      modifies this
      ensures ok ==> StepTo(c, pairs, old(Model()), Model())
      ensures !ok ==> Raises(c, pairs, old(Model()))
    {
      hide Simplify, Coalesce, Freeze, StackPassed, WaitingPass, Meaning;
      ok := true;
      if simplify != {} {
        var _ := SimplifyNode();
      } else if worklist != {} {
        var m, done := CoalesceMove();
        ok := done;
      } else {
        var u, ms, done := FreezeNode();
        ok := done;
      }
    }

    /** Runs until only spilling, or nothing, is left to do, or a step raises. */
    method ColorRound(ghost pairs: Pairs) returns (v: Verdict, ghost run: seq<State>)
      requires Good(c, Model(), pairs)
      modifies this
      ensures run != [] && IsRun(c, pairs, run) && run[0] == old(Model())
      ensures if v.Failed? then Raises(c, pairs, run[|run| - 1]) else run[|run| - 1] == Model()
      ensures !v.Failed? ==>
        && Good(c, Model(), pairs) && simplify == {} && worklist == {} && freeze == {}
        && Model().AllMoves() == old(Model().AllMoves()) && tempMap.Keys == old(tempMap.Keys)
      ensures v.MustSpill? ==> spill != {}
      ensures v.Done? ==> Emptied(c, Model(), pairs)
    {
      hide Almost, StepTo, Lighter, Raises, IsRun;
      run := [Model()];
      RunStarts(c, pairs, Model());
      while simplify != {} || worklist != {} || freeze != {}
        invariant Good(c, Model(), pairs)
        invariant run != [] && IsRun(c, pairs, run) && run[0] == old(Model()) && run[|run| - 1] == Model()
        invariant Model().AllMoves() == old(Model().AllMoves()) && tempMap.Keys == old(tempMap.Keys)
        decreases Budget(Model())
      {
        ghost var s := Model();
        var ok := OneStep(pairs);
        if !ok {
          return Failed, run;
        }
        RunExtended(c, pairs, run, Model());
        run := run + [Model()];
        StepKeeps(c, pairs, s, Model());
        LighterCostsLess(Model(), s);
      }
      v := if spill != {} then MustSpill else Done;
    }

    /** A register of the node's class that no neighbour on the graph shares. */
    method PickRegister(node: Node) returns (r: Register)
      requires node in graph.adj && node in cls && graph.Adjacent(node) <= reg.Keys
      requires c.t.regs(cls[node]) - TakenBy(c.t, graph.Adjacent(node), reg) != {}
      ensures r in c.t.regs(cls[node]) - TakenBy(c.t, graph.Adjacent(node), reg)
    {
      var taken := {};
      ghost var done := {};
      var todo := graph.Adjacent(node);
      while todo != {}
        invariant todo !! done && todo + done == graph.Adjacent(node)
        invariant taken == TakenBy(c.t, done, reg)
      {
        var m :| m in todo;
        todo, done := todo - {m}, done + {m};
        taken := taken + c.t.alias(reg[m]);
      }
      assert done == graph.Adjacent(node);
      var ok := c.t.regs(cls[node]) - taken;
      assert ok != {};
      r :| r in ok;
    }

    /** Puts the node on top of the stack back, and gives it a register. */
    method PopNode(ghost s: State, ghost pairs: Pairs)
      requires Emptied(c, s, pairs) && 0 < |stack| <= |s.stack| && stack == s.stack[..|stack|]
      requires cls == s.cls && graph.adj == s.graph.adj && graph.nodes == Back(s, |stack|)
      requires Colors(c.t, s, |stack|, reg)
      modifies this`graph, this`stack, this`reg
      ensures stack == s.stack[..|old(stack)| - 1]
      ensures graph.adj == s.graph.adj && graph.nodes == Back(s, |stack|)
      ensures Colors(c.t, s, |stack|, reg)
    {
      hide Almost, Emptied, Shaped, TakenBy, Colors, Back;
      var k := |stack| - 1;
      var node := stack[k];
      stack := stack[..k];
      EmptiedIsShaped(c, s, pairs);
      RegisterIsFree(c, s, pairs, k, reg);
      BackNext(c, s, k);
      graph := graph.Unmask(node);
      assert graph.Adjacent(node) == Above(s, k);
      var r := PickRegister(node);
      ColorsNext(c, s, pairs, k, reg, r);
      reg := reg[node := r];
    }

    /** Puts all nodes back, the last one first. */
    method AssignColors(ghost pairs: Pairs)
      requires Emptied(c, Model(), pairs)
      modifies this`graph, this`stack, this`reg
      ensures stack == [] && Colors(c.t, old(Model()), 0, reg)
    {
      hide Almost, Emptied, Shaped, TakenBy, Colors, Back;
      ghost var s := Model();
      reg := map n | n in precolored :: n;
      EmptiedIsShaped(c, s, pairs);
      ColorsStart(c, s, pairs);
      assert s.stack == s.stack[..|s.stack|];
      while stack != []
        decreases |stack|
        invariant |stack| <= |s.stack| && stack == s.stack[..|stack|]
        invariant Colors(c.t, s, |stack|, reg)
        invariant graph.adj == s.graph.adj && graph.nodes == Back(s, |stack|)
      {
        PopNode(s, pairs);
      }
    }
  }
}
