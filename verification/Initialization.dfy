/**
  Where a round of the allocator starts: every register has its own node, all
  moves are still to be tried, and the nodes are divided over the worklists.
 */
module Initialization {
  import opened MachineCode
  import opened Graphs
  import opened PqTest
  import opened Coalescing
  import opened ColoringInvariant
  import opened MovesInvariant
  import opened MeaningInvariant
  import opened AllocatorSteps

  function OwnClasses(t: Target, g: Graph): (cls: Classes)
    ensures cls.Keys == g.adj.Keys
    ensures forall n :: n in cls ==> cls[n] == t.classOf(n)
  {
    map n | n in g.adj :: t.classOf(n)
  }

  function OwnMoves(c: Context, g: Graph, ms: set<Move>): (moves: map<Node, set<Move>>)
    ensures moves.Keys == g.adj.Keys
    ensures forall n, m :: n in moves ==> (m in moves[n] <==> m in ms && (c.src(m) == n || c.dst(m) == n))
  {
    map n | n in g.adj :: set m | m in ms && (c.src(m) == n || c.dst(m) == n)
  }

  lemma NoMovesYet(c: Context, g: Graph)
    ensures OwnMoves(c, g, {}) == map n | n in g.adj :: {}
  {
    var moves: map<Node, set<Move>> := map n | n in g.adj :: {};
    assert forall n :: n in g.adj ==> OwnMoves(c, g, {})[n] == {};
    assert moves == OwnMoves(c, g, {});
  }

  lemma LinkOne(c: Context, g: Graph, ms: set<Move>, m: Move)
    requires c.src(m) in g.adj && c.dst(m) in g.adj
    ensures var moves := OwnMoves(c, g, ms);
      var once := moves[c.src(m) := moves[c.src(m)] + {m}];
      once[c.dst(m) := once[c.dst(m)] + {m}] == OwnMoves(c, g, ms + {m})
  {
    var moves := OwnMoves(c, g, ms);
    var once := moves[c.src(m) := moves[c.src(m)] + {m}];
    var twice := once[c.dst(m) := once[c.dst(m)] + {m}];
    forall n | n in g.adj
      ensures twice[n] == OwnMoves(c, g, ms + {m})[n]
    {
    }
  }

  ghost predicate Passes(t: Target, g: Graph, n: Node)
    requires n in g.adj && g.WellFormed()
  {
    Blocked(t, OwnClasses(t, g), t.classOf(n), g.Adjacent(n)) < |t.regs(t.classOf(n))|
  }

  function Precolored(g: Graph): set<Node> {
    set n | n in g.adj && n.Physical?
  }

  /** The nodes without a colour that pass the pq-test. */
  ghost function Passing(t: Target, g: Graph): set<Node>
    requires g.WellFormed()
  {
    set n | n in g.adj && n.Virtual? && Passes(t, g, n)
  }

  function Related(moves: map<Node, set<Move>>): set<Node> {
    set n | n in moves && moves[n] != {}
  }

  /** The state that `init_data` builds from the interference graph and the moves. */
  ghost function Initial(c: Context, g: Graph, ms: set<Move>): State
    requires g.WellFormed()
  {
    var moves := OwnMoves(c, g, ms);
    var passing, related := Passing(c.t, g), Related(moves);
    State(g, OwnClasses(c.t, g), map r | r in g.adj :: r, moves,
      Precolored(g), passing - related, passing * related, g.adj.Keys - Precolored(g) - passing,
      ms, {}, {}, {}, {}, [])
  }

  /** What the target and the interference graph must satisfy. */
  ghost predicate Startable(c: Context, g: Graph, ms: set<Move>, pairs: Pairs) {
    && c.t.Sensible()
    && g.WellFormed() && g.masked == {}
    && (forall m :: m in ms ==> c.src(m) in g.nodes && c.dst(m) in g.nodes)
    && (forall n :: n in g.nodes && n.Physical? ==> n in c.t.regs(c.t.classOf(n)))
    && (forall a, b :: a in g.nodes && a.Physical? && b in g.adj[a] && b.Physical? ==> b !in c.t.alias(a))
    && (forall a, b :: (a, b) in pairs ==> a in g.nodes && b in g.adj[a])
  }

  lemma InitialShaped(c: Context, g: Graph, ms: set<Move>)
    requires g.WellFormed() && g.masked == {}
    ensures Shaped(Initial(c, g, ms))
  {
    hide Passes;
    assert Parts(Initial(c, g, ms));
  }

  lemma InitialColorable(c: Context, g: Graph, ms: set<Move>, n: Node)
    requires g.WellFormed() && g.masked == {} && n in g.adj
    ensures Shaped(Initial(c, g, ms))
    ensures Colorable(c.t, Initial(c, g, ms), n) <==> n.Physical? || Passes(c.t, g, n)
  {
    InitialShaped(c, g, ms);
    hide Shaped;
  }

  lemma InitialWaiting(c: Context, g: Graph, ms: set<Move>)
    requires g.WellFormed() && g.masked == {}
    ensures var s := Initial(c, g, ms);
      && Shaped(s) && StackPassed(c.t, s) && WaitingPass(c.t, s, {})
      && forall n :: n in s.spill ==> !Colorable(c.t, s, n)
  {
    var s := Initial(c, g, ms);
    InitialShaped(c, g, ms);
    hide Passes, Colorable, Shaped;
    forall n | n in s.simplify + s.freeze + s.spill
      ensures Colorable(c.t, s, n) <==> Passes(c.t, g, n)
    {
      InitialColorable(c, g, ms, n);
    }
  }

  lemma InitialMoves(c: Context, g: Graph, ms: set<Move>, pairs: Pairs)
    requires Startable(c, g, ms, pairs)
    ensures var s := Initial(c, g, ms); Shaped(s) && MovesLinked(c, s) && MovesPlaced(s, {}, {})
  {
    var s := Initial(c, g, ms);
    InitialShaped(c, g, ms);
    hide Passes;
    forall n | n in s.graph.adj
      ensures LinkedAt(c, s, n)
    {
    }
  }

  lemma InitialMeaning(c: Context, g: Graph, ms: set<Move>, pairs: Pairs)
    requires Startable(c, g, ms, pairs)
    ensures var s := Initial(c, g, ms); Shaped(s) && Meaning(c, s, pairs, {})
  {
    InitialShaped(c, g, ms);
    hide Passes;
  }

  /** The invariant holds at the start, and nothing is missing. */
  lemma InitialGood(c: Context, g: Graph, ms: set<Move>, pairs: Pairs)
    requires Startable(c, g, ms, pairs)
    ensures var s := Initial(c, g, ms);
      && Good(c, s, pairs) && s.AllMoves() == ms && s.tempMap.Keys == g.nodes
      && forall n :: n in s.spill ==> !Colorable(c.t, s, n)
  {
    InitialWaiting(c, g, ms);
    InitialMoves(c, g, ms, pairs);
    InitialMeaning(c, g, ms, pairs);
    hide Passes, Colorable, StackPassed, WaitingPass, MovesLinked, MovesPlaced, Meaning;
  }
}
