/**
  A run of the allocator that raises. With two registers, a move that was tried
  too early waits until another move has combined its two nodes; freezing the
  combined node then finds nothing to thaw.
 */
module FreezeRun {
  import opened MachineCode
  import opened Graphs
  import opened PqTest
  import opened Coalescing
  import opened MovesInvariant
  import opened MeaningInvariant
  import opened AllocatorSteps
  import opened OneClass
  import opened AllocatorRuns
  import opened Initialization

  const R0 := Physical(0)
  const R1 := Physical(1)
  const A := Virtual(0)
  const B := Virtual(1)
  const T := Virtual(2)
  const U := Virtual(3)

  /** One class of two registers without aliases. */
  function TwoRegisters(): Target {
    Target((k: Class) => if k == 0 then {R0, R1} else {}, (a, b) => a == b, (r: Register) => {r}, (r: Register) => 0)
  }

  /** Moves 0 and 2 copy B to A, move 1 copies U to T. */
  function Moves(): Context {
    Context(TwoRegisters(), (m: Move) => if m == 1 then U else B, (m: Move) => if m == 1 then T else A)
  }

  function Start(): Graph {
    Graph({R0, R1, A, B, T, U}, {},
      map[R0 := {T, U}, R1 := {T, U}, A := {T}, B := {U}, T := {R0, R1, A}, U := {R0, R1, B}])
  }

  lemma TargetIsSensible()
    ensures TwoRegisters().Sensible()
  {
  }

  lemma StartIsWellFormed()
    ensures Start().WellFormed()
  {
  }

  lemma StartIsSound()
    ensures TwoRegisters().Sensible() && Start().WellFormed() && Startable(Moves(), Start(), {0, 1, 2}, {})
  {
    TargetIsSensible();
    StartIsWellFormed();
    hide Target.Sensible, Graph.WellFormed;
  }

  lemma OneEach()
    ensures TwoRegisters().Q(0, 0) == 1
  {
    var r := TwoRegisters().MostTakenReached(0, TwoRegisters().regs(0));
    assert TwoRegisters().alias(r) * TwoRegisters().regs(0) == {r};
  }

  ghost predicate OneClassOnly(s: State) {
    forall n :: n in s.cls ==> s.cls[n] == 0
  }

  lemma {:induction false} BlockedIsSize(cls: Classes, ns: set<Node>)
    requires ns <= cls.Keys && forall n :: n in ns ==> cls[n] == 0
    ensures Blocked(TwoRegisters(), cls, 0, ns) == |ns|
    decreases ns
  {
    if ns != {} {
      var n :| n in ns;
      BlockedSplit(TwoRegisters(), cls, 0, ns, n);
      BlockedIsSize(cls, ns - {n});
      OneEach();
    }
  }

  lemma MoveEnds()
    ensures Moves().src(0) == Moves().src(2) == B && Moves().dst(0) == Moves().dst(2) == A
    ensures Moves().src(1) == U && Moves().dst(1) == T
  {
  }

  /** Only the number of neighbours counts. */
  lemma ColorableWhen(s: State, n: Node)
    requires Shaped(s) && OneClassOnly(s) && n in s.graph.adj
    ensures Colorable(TwoRegisters(), s, n) <==> n in s.precolored || |s.graph.Adjacent(n)| < 2
  {
    hide Target.Sensible, Blocked;
    BlockedIsSize(s.cls, s.graph.Adjacent(n));
    TwoOfThem();
  }

  lemma TwoOfThem()
    ensures |TwoRegisters().regs(0)| == 2
  {
    assert TwoRegisters().regs(0) == {R0, R1};
  }

  /** The state in which the nodes of a move have become one. */
  ghost function Joined(s: State, m: Move, u: Node, v: Node): State
    requires Moves().src(m) in s.tempMap && Moves().dst(m) in s.tempMap
    requires u in s.graph.adj && v in s.graph.adj && u in s.moves && v in s.moves
  {
    Merge(Retire(Moves(), s, m, AsCoalesced), u, v, 0)
  }

  lemma JoinedShaped(s: State, m: Move, u: Node, v: Node)
    requires Shaped(s) && u != v && u in s.graph.nodes && v in s.freeze + s.spill
    requires Moves().src(m) in s.tempMap && Moves().dst(m) in s.tempMap
    ensures u in s.graph.adj && v in s.graph.adj && u in s.moves && v in s.moves
    ensures Shaped(Joined(s, m, u, v)) && u in Joined(s, m, u, v).graph.adj
  {
    RetireShaped(Moves(), s, m, AsCoalesced);
    MergeShaped(Retire(Moves(), s, m, AsCoalesced), u, v, 0);
  }

  /** A move whose nodes are combined, without a change of any other worklist. */
  lemma QuietCombine(s: State, m: Move, u: Node, v: Node)
    requires Good(Moves(), s, {}) && OneClassOnly(s) && m in s.worklist
    requires Moves().src(m) in s.tempMap && Moves().dst(m) in s.tempMap
    requires s.tempMap[Moves().dst(m)] == u && s.tempMap[Moves().src(m)] == v && u != v
    requires u in s.graph.nodes && v in s.freeze + s.spill && u !in s.precolored && v !in s.precolored
    requires u in s.graph.adj && v in s.graph.adj && u in s.moves && v in s.moves
    requires |Hard(s, u, v)| < 2 && v !in s.graph.Adjacent(u)
    requires var p := Joined(s, m, u, v);
      && Shaped(p) && u in p.graph.adj
      && (forall n :: n in p.spill && n in p.graph.Adjacent(u) ==> !Colorable(TwoRegisters(), p, n))
      && (u in p.freeze ==> Colorable(TwoRegisters(), p, u))
      && !WantsThaw(TwoRegisters(), p, u)
    ensures Coalesce(Moves(), s, m) == Ok(Joined(s, m, u, v))
  {
    NoEdge(s, u, v);
    ShouldCombineWhen(s, u, v);
    var r := Retire(Moves(), s, m, AsCoalesced);
    RetireShaped(Moves(), s, m, AsCoalesced);
    var p := Merge(r, u, v, 0);
    hide HasEdge, ShouldCombine, Colorable, Hard;
    NothingPromoted(p, p.graph.Adjacent(u));
  }

  lemma NothingPromoted(p: State, ns: set<Node>)
    requires Shaped(p) && ns <= p.graph.nodes && forall n :: n in p.spill && n in ns ==> !Colorable(TwoRegisters(), p, n)
    ensures Promote(TwoRegisters(), p, ns) == p
  {
    hide Colorable, Shaped;
    assert Promoted(TwoRegisters(), p, ns) == {};
    assert Enabled(TwoRegisters(), p, ns) == {};
    var q := Promote(TwoRegisters(), p, ns);
    assert q.spill == p.spill && q.freeze == p.freeze && q.simplify == p.simplify;
  }

  /** ----- the run ----- */

  /** What matters of a state: its graph, where the registers B and U are, and its worklists. */
  ghost predicate Looks(s: State, g: Graph, b: Node, u: Node, freeze: set<Node>, spill: set<Node>, worklist: set<Move>, active: set<Move>) {
    && s.graph == g && OneClassOnly(s) && {A, B, T, U} <= s.tempMap.Keys
    && s.tempMap[A] == A && s.tempMap[B] == b && s.tempMap[T] == T && s.tempMap[U] == u
    && s.precolored == {R0, R1} && s.simplify == {} && s.freeze == freeze && s.spill == spill
    && s.worklist == worklist && s.active == active
  }

  ghost predicate Is(s: State, g: Graph, b: Node, u: Node, freeze: set<Node>, spill: set<Node>, worklist: set<Move>, active: set<Move>) {
    Good(Moves(), s, {}) && Looks(s, g, b, u, freeze, spill, worklist, active)
  }

  lemma StartNeighbours()
    ensures Start().adj.Keys == Start().nodes == {R0, R1, A, B, T, U}
    ensures Start().Adjacent(A) == {T} && Start().Adjacent(B) == {U}
    ensures Start().Adjacent(T) == {R0, R1, A} && Start().Adjacent(U) == {R0, R1, B}
    ensures |Start().Adjacent(A)| == 1 && |Start().Adjacent(B)| == 1 && |Start().Adjacent(T)| == 3 && |Start().Adjacent(U)| == 3
  {
    assert |{R0, R1, A}| == 3 && |{R0, R1, B}| == 3;
  }

  lemma StartPasses(n: Node)
    requires n in Start().adj
    ensures Start().WellFormed() && (Passes(TwoRegisters(), Start(), n) <==> |Start().Adjacent(n)| < 2)
  {
    StartIsSound();
    hide Blocked, Target.Sensible, Startable;
    BlockedIsSize(OwnClasses(TwoRegisters(), Start()), Start().Adjacent(n));
    TwoOfThem();
  }

  lemma PassingIs()
    ensures Start().WellFormed() && Passing(TwoRegisters(), Start()) == {A, B}
  {
    StartIsWellFormed();
    StartNeighbours();
    hide Passes, Graph.WellFormed, Start, Graph.Adjacent;
    forall n
      ensures n in Passing(TwoRegisters(), Start()) <==> n == A || n == B
    {
      if n in Start().adj {
        StartPasses(n);
      }
    }
  }

  /** All virtual registers have moves. */
  lemma RelatedAre()
    ensures Related(OwnMoves(Moves(), Start(), {0, 1, 2})) == {A, B, T, U}
  {
    var moves := OwnMoves(Moves(), Start(), {0, 1, 2});
    assert 0 in moves[A] && 0 in moves[B] && 1 in moves[T] && 1 in moves[U];
    assert moves[R0] == {} && moves[R1] == {};
  }

  /** What the initial state is made of. */
  lemma InitialParts(c: Context, g: Graph, ms: set<Move>)
    requires g.WellFormed()
    ensures var s, moves, passing := Initial(c, g, ms), OwnMoves(c, g, ms), Passing(c.t, g);
      && s.graph == g && s.cls == OwnClasses(c.t, g) && s.moves == moves && s.precolored == Precolored(g)
      && s.tempMap == (map r | r in g.adj :: r)
      && s.simplify == passing - Related(moves) && s.freeze == passing * Related(moves)
      && s.spill == g.adj.Keys - Precolored(g) - passing
      && s.worklist == ms && s.active == {} && s.stack == []
  {
  }

  lemma StartSets()
    ensures Precolored(Start()) == {R0, R1} && Start().adj.Keys == Start().nodes == {R0, R1, A, B, T, U} && Start().masked == {}
  {
  }

  lemma StartLooks()
    ensures Start().WellFormed() && Is(Initial(Moves(), Start(), {0, 1, 2}), Start(), B, U, {A, B}, {T, U}, {0, 1, 2}, {})
  {
    StartIsSound();
    hide Start, Good, Startable, Graph.WellFormed, Target.Sensible, Passing, OwnMoves, Passes, Colorable, Initial, Precolored, Related;
    InitialGood(Moves(), Start(), {0, 1, 2}, {});
    PassingIs();
    RelatedAre();
    StartSets();
    InitialParts(Moves(), Start(), {0, 1, 2});
    var s := Initial(Moves(), Start(), {0, 1, 2});
    assert s.freeze == {A, B} && s.simplify == {} && s.spill == {T, U};
  }

  /** ----- first step: A and B cannot be combined yet ----- */

  ghost function Hard(s: State, u: Node, v: Node): set<Node>
    requires Shaped(s) && u in s.graph.adj && v in s.graph.adj
  {
    set n | n in s.graph.Adjacent(u) + s.graph.Adjacent(v) && !Colorable(TwoRegisters(), s, n)
  }

  lemma ShouldCombineWhen(s: State, u: Node, v: Node)
    requires Shaped(s) && OneClassOnly(s) && u in s.graph.adj && v in s.graph.adj && u !in s.precolored
    ensures ShouldCombine(TwoRegisters(), s, u, v) <==> |Hard(s, u, v)| < 2
  {
    assert Hard(s, u, v) <= s.cls.Keys;
    hide Colorable, Blocked, Target.Sensible, Graph.WellFormed;
    BlockedIsSize(s.cls, Hard(s, u, v));
    TwoOfThem();
  }

  lemma NoEdge(s: State, u: Node, v: Node)
    requires Shaped(s) && u in s.graph.adj && v in s.graph.adj && u !in s.precolored && v !in s.precolored
    ensures HasEdge(TwoRegisters(), s, u, v) <==> v in s.graph.Adjacent(u)
  {
  }

  /** A move that is put off. */
  lemma PutOff(s: State, m: Move, u: Node, v: Node)
    requires Good(Moves(), s, {}) && OneClassOnly(s) && m in s.worklist
    requires Moves().src(m) in s.tempMap && Moves().dst(m) in s.tempMap
    requires s.tempMap[Moves().dst(m)] == u && s.tempMap[Moves().src(m)] == v && u != v
    requires u in s.graph.adj && v in s.graph.adj && u !in s.precolored && v !in s.precolored
    requires v !in s.graph.Adjacent(u) && |Hard(s, u, v)| >= 2
    ensures Coalesce(Moves(), s, m) == Ok(Activate(s, m))
  {
    NoEdge(s, u, v);
    ShouldCombineWhen(s, u, v);
    hide HasEdge, ShouldCombine, Hard, Blocked;
  }

  lemma TwoHard(s: State, u: Node, v: Node, x: Node, y: Node)
    requires Shaped(s) && u in s.graph.adj && v in s.graph.adj && x in s.graph.adj && y in s.graph.adj && x != y
    requires s.graph.Adjacent(u) == {x} && s.graph.Adjacent(v) == {y}
    requires !Colorable(TwoRegisters(), s, x) && !Colorable(TwoRegisters(), s, y)
    ensures |Hard(s, u, v)| == 2
  {
    hide Colorable, Shaped, Graph.Adjacent;
    assert Hard(s, u, v) == {x, y};
  }

  lemma FirstHard(s: State)
    requires Shaped(s) && OneClassOnly(s) && s.graph == Start() && s.precolored == {R0, R1}
    ensures A in s.graph.adj && B in s.graph.adj && |Hard(s, A, B)| == 2
  {
    StartNeighbours();
    hide Colorable, Start, Shaped, Graph.Adjacent;
    ColorableWhen(s, T);
    ColorableWhen(s, U);
    TwoHard(s, A, B, T, U);
  }

  lemma Stepped(s: State, p: State, m: Move)
    requires Good(Moves(), s, {}) && s.simplify == {} && m in s.worklist && Coalesce(Moves(), s, m) == Ok(p)
    ensures StepTo(Moves(), {}, s, p) && Good(Moves(), p, {})
  {
    hide Coalesce, Almost;
    StepKeeps(Moves(), {}, s, p);
  }

  lemma FirstCoalesce(s: State)
    requires Is(s, Start(), B, U, {A, B}, {T, U}, {0, 1, 2}, {})
    ensures Shaped(s) && MovesLinked(Moves(), s) && MovesPlaced(s, {}, {}) && Moves().t.Sensible()
    ensures Coalesce(Moves(), s, 0) == Ok(Activate(s, 0))
  {
    hide Start, Hard, Colorable, Coalesce, Activate;
    FirstHard(s);
    StartNeighbours();
    PutOff(s, 0, A, B);
  }

  lemma FirstStep(s: State)
    requires Is(s, Start(), B, U, {A, B}, {T, U}, {0, 1, 2}, {})
    ensures StepTo(Moves(), {}, s, Activate(s, 0)) && Is(Activate(s, 0), Start(), B, U, {A, B}, {T, U}, {1, 2}, {0})
  {
    hide Start, Coalesce, Almost, Good, StepTo, Moves, Shaped, MovesLinked, MovesPlaced, Target.Sensible;
    FirstCoalesce(s);
    Stepped(s, Activate(s, 0), 0);
    PutOffLooks(s);
  }

  lemma PutOffLooks(s: State)
    requires Looks(s, Start(), B, U, {A, B}, {T, U}, {0, 1, 2}, {})
    ensures Looks(Activate(s, 0), Start(), B, U, {A, B}, {T, U}, {1, 2}, {0})
  {
    hide Start;
    var p := Activate(s, 0);
    assert p.worklist == {1, 2} && p.active == {0};
  }

  /** ----- second step: T and U become one ----- */

  function Second(): Graph {
    Graph({R0, R1, A, B, T}, {}, map[R0 := {T}, R1 := {T}, A := {T}, B := {T}, T := {R0, R1, A, B}])
  }

  lemma SecondNeighbours()
    ensures Second().adj.Keys == Second().nodes == {R0, R1, A, B, T}
    ensures Second().Adjacent(A) == {T} && Second().Adjacent(B) == {T} && Second().Adjacent(T) == {R0, R1, A, B}
    ensures |Second().Adjacent(A)| == 1 && |Second().Adjacent(B)| == 1 && |Second().Adjacent(T)| == 4
  {
    assert |{R0, R1, A, B}| == 4;
  }

  lemma SecondGraph()
    ensures Start().Combine(T, U) == Second()
  {
    var g := Start().Combine(T, U);
    assert g.adj.Keys == Second().adj.Keys;
    assert forall x :: x in g.adj ==> g.adj[x] == Second().adj[x];
  }

  lemma JoinedLooks(s: State, m: Move, x: Node, y: Node, g: Graph, b: Node, u: Node, freeze: set<Node>, spill: set<Node>, worklist: set<Move>, active: set<Move>)
    requires Looks(s, g, b, u, freeze, spill, worklist, active) && y != A && y != T
    requires Moves().src(m) in s.tempMap && Moves().dst(m) in s.tempMap
    requires x in s.graph.adj && y in s.graph.adj && x in s.moves && y in s.moves
    ensures Looks(Joined(s, m, x, y), g.Combine(x, y), if b == y then x else b, if u == y then x else u,
      freeze - {y}, spill - {y}, worklist - {m}, active - {m})
  {
  }

  lemma SecondLooks(s: State)
    requires Shaped(s) && Looks(s, Start(), B, U, {A, B}, {T, U}, {1, 2}, {0})
    ensures Moves().src(1) in s.tempMap && Moves().dst(1) in s.tempMap && T in s.graph.adj && U in s.graph.adj && T in s.moves && U in s.moves
    ensures Looks(Joined(s, 1, T, U), Second(), B, T, {A, B}, {T}, {2}, {0})
  {
    StartNeighbours();
    assert T in s.moves && U in s.moves && T in s.graph.adj && U in s.graph.adj;
    MoveEnds();
    hide Moves;
    SecondGraph();
    hide Start, Second, Graph.Combine, Graph.Adjacent, Joined, Shaped, Looks;
    JoinedLooks(s, 1, T, U, Start(), B, U, {A, B}, {T, U}, {1, 2}, {0});
    SecondSets();
  }

  lemma SecondSets()
    ensures var nodes: set<Node>, spill: set<Node> := {A, B}, {T, U}; nodes - {U} == {A, B} && spill - {U} == {T}
    ensures var pending: set<Move>, waiting: set<Move> := {1, 2}, {0}; pending - {1} == {2} && waiting - {1} == {0}
  {
  }

  lemma SecondHard(s: State)
    requires Shaped(s) && OneClassOnly(s) && s.graph == Start() && s.precolored == {R0, R1}
    ensures T in s.graph.adj && U in s.graph.adj && |Hard(s, T, U)| == 0
  {
    StartNeighbours();
    hide Colorable, Start, Shaped, Graph.Adjacent;
    ColorableWhen(s, R0);
    ColorableWhen(s, R1);
    ColorableWhen(s, A);
    ColorableWhen(s, B);
    assert Hard(s, T, U) == {};
  }

  /** The combined node still has too many neighbours, and nothing else changes its place. */
  lemma SecondReady(s: State)
    requires Shaped(s) && Looks(s, Start(), B, U, {A, B}, {T, U}, {1, 2}, {0})
    ensures Moves().src(1) in s.tempMap && Moves().dst(1) in s.tempMap && T in s.graph.adj && U in s.graph.adj && T in s.moves && U in s.moves
    ensures var p := Joined(s, 1, T, U);
      && Shaped(p) && T in p.graph.adj && !Colorable(TwoRegisters(), p, T) && !WantsThaw(TwoRegisters(), p, T)
      && (forall n :: n in p.spill ==> n !in p.graph.Adjacent(T)) && T !in p.freeze
  {
    StartNeighbours();
    SecondNeighbours();
    hide Start, Second, Joined, Shaped, Graph.Adjacent;
    JoinedShaped(s, 1, T, U);
    SecondLooks(s);
    var p := Joined(s, 1, T, U);
    ColorableWhen(p, T);
    hide Colorable;
  }

  lemma SecondCoalesce(s: State)
    requires Is(s, Start(), B, U, {A, B}, {T, U}, {1, 2}, {0})
    ensures Shaped(s) && MovesLinked(Moves(), s) && MovesPlaced(s, {}, {}) && Moves().t.Sensible()
    ensures Moves().src(1) in s.tempMap && Moves().dst(1) in s.tempMap && T in s.graph.adj && U in s.graph.adj && T in s.moves && U in s.moves
    ensures Coalesce(Moves(), s, 1) == Ok(Joined(s, 1, T, U))
  {
    StartNeighbours();
    hide Start, Second, Hard, Colorable, Coalesce, Joined, WantsThaw, Graph.WellFormed;
    SecondReady(s);
    SecondHard(s);
    QuietCombine(s, 1, T, U);
  }

  lemma SecondStep(s: State)
    requires Is(s, Start(), B, U, {A, B}, {T, U}, {1, 2}, {0})
    ensures exists p :: StepTo(Moves(), {}, s, p) && Is(p, Second(), B, T, {A, B}, {T}, {2}, {0})
  {
    SecondCoalesce(s);
    var p := Joined(s, 1, T, U);
    SecondLooks(s);
    hide Start, Second, Coalesce, Almost, Good, StepTo, Moves, Shaped, MovesLinked, MovesPlaced, Target.Sensible, Joined;
    Stepped(s, p, 1);
  }

  /** ----- third step: A and B become one, and the first move is left inside ----- */

  function Third(): Graph {
    Graph({R0, R1, A, T}, {}, map[R0 := {T}, R1 := {T}, A := {T}, T := {R0, R1, A}])
  }

  lemma ThirdNeighbours()
    ensures Third().adj.Keys == Third().nodes == {R0, R1, A, T}
    ensures Third().Adjacent(A) == {T} && Third().Adjacent(T) == {R0, R1, A}
    ensures |Third().Adjacent(A)| == 1 && |Third().Adjacent(T)| == 3
  {
    assert |{R0, R1, A}| == 3;
  }

  lemma ThirdGraph()
    ensures Second().Combine(A, B) == Third()
  {
    var g := Second().Combine(A, B);
    assert g.adj.Keys == Third().adj.Keys;
    assert forall x :: x in g.adj ==> g.adj[x] == Third().adj[x];
  }

  lemma ThirdLooks(s: State)
    requires Shaped(s) && Looks(s, Second(), B, T, {A, B}, {T}, {2}, {0})
    ensures Moves().src(2) in s.tempMap && Moves().dst(2) in s.tempMap && A in s.graph.adj && B in s.graph.adj && A in s.moves && B in s.moves
    ensures Looks(Joined(s, 2, A, B), Third(), A, T, {A}, {T}, {}, {0})
  {
    SecondNeighbours();
    assert A in s.moves && B in s.moves && A in s.graph.adj && B in s.graph.adj;
    MoveEnds();
    hide Moves;
    ThirdGraph();
    hide Second, Third, Graph.Combine, Graph.Adjacent, Joined, Shaped, Looks;
    JoinedLooks(s, 2, A, B, Second(), B, T, {A, B}, {T}, {2}, {0});
    ThirdSets();
  }

  lemma ThirdSets()
    ensures var nodes: set<Node>, spill: set<Node> := {A, B}, {T}; nodes - {B} == {A} && spill - {B} == {T}
    ensures var pending: set<Move>, waiting: set<Move> := {2}, {0}; pending - {2} == {} && waiting - {2} == {0}
  {
  }

  lemma ThirdHard(s: State)
    requires Shaped(s) && OneClassOnly(s) && s.graph == Second() && s.precolored == {R0, R1}
    ensures A in s.graph.adj && B in s.graph.adj && |Hard(s, A, B)| < 2
  {
    SecondNeighbours();
    hide Colorable, Second, Shaped, Graph.Adjacent;
    assert Hard(s, A, B) <= {T};
    FewHard(Hard(s, A, B));
  }

  lemma FewHard(ns: set<Node>)
    requires ns <= {T}
    ensures |ns| < 2
  {
    assert ns == {} || ns == {T};
  }

  /** The first move keeps the combined node on the freeze worklist. */
  lemma ThirdReady(s: State)
    requires Good(Moves(), s, {}) && Looks(s, Second(), B, T, {A, B}, {T}, {2}, {0})
    ensures Moves().src(2) in s.tempMap && Moves().dst(2) in s.tempMap && A in s.graph.adj && B in s.graph.adj && A in s.moves && B in s.moves
    ensures var p := Joined(s, 2, A, B);
      && Shaped(p) && A in p.graph.adj && Colorable(TwoRegisters(), p, A) && !WantsThaw(TwoRegisters(), p, A)
      && (forall n :: n in p.spill ==> !Colorable(TwoRegisters(), p, n))
  {
    SecondNeighbours();
    FirstMoveStays(s);
    assert Shaped(s);
    hide Second, Joined, Shaped, Graph.Adjacent, Good;
    JoinedShaped(s, 2, A, B);
    ThirdLooks(s);
    ThirdTests(Joined(s, 2, A, B));
  }

  lemma ThirdTests(p: State)
    requires Shaped(p) && Looks(p, Third(), A, T, {A}, {T}, {}, {0}) && A in p.moves && 0 in p.moves[A]
    ensures A in p.graph.adj && Colorable(TwoRegisters(), p, A) && !WantsThaw(TwoRegisters(), p, A)
    ensures forall n :: n in p.spill ==> n in p.graph.adj && !Colorable(TwoRegisters(), p, n)
  {
    ThirdNeighbours();
    hide Third, Shaped, Graph.Adjacent;
    ColorableWhen(p, A);
    ColorableWhen(p, T);
    hide Colorable;
  }

  lemma FirstMoveStays(s: State)
    requires Good(Moves(), s, {}) && Looks(s, Second(), B, T, {A, B}, {T}, {2}, {0})
    ensures Moves().src(2) in s.tempMap && Moves().dst(2) in s.tempMap && A in s.graph.adj && B in s.graph.adj && A in s.moves && B in s.moves
    ensures A in Joined(s, 2, A, B).moves && 0 in Joined(s, 2, A, B).moves[A]
  {
    SecondNeighbours();
    hide Second, Good, Merge, Retire;
    MovesOf(s, A, 0);
    KnownNode(s, B);
    JoinedMoves(s);
  }

  lemma KnownNode(s: State, n: Node)
    requires Good(Moves(), s, {}) && n in s.graph.adj
    ensures n in s.moves && Shaped(s) && MovesLinked(Moves(), s)
  {
  }

  /** The moves of a node are the pending ones that end there. */
  lemma MovesOf(s: State, n: Node, m: Move)
    requires Good(Moves(), s, {}) && n in s.graph.adj && Moves().src(m) in s.tempMap && Moves().dst(m) in s.tempMap
    ensures n in s.moves && (m in s.moves[n] <==> m in s.Linked() && IsEnd(Moves(), s, m, n))
  {
    assert LinkedAt(Moves(), s, n);
  }

  lemma JoinedMoves(s: State)
    requires Moves().src(2) in s.tempMap && Moves().dst(2) in s.tempMap
    requires A in s.graph.adj && B in s.graph.adj && A in s.moves && B in s.moves && 0 in s.moves[A]
    ensures A in Joined(s, 2, A, B).moves && 0 in Joined(s, 2, A, B).moves[A]
  {
  }

  lemma ThirdCoalesce(s: State)
    requires Is(s, Second(), B, T, {A, B}, {T}, {2}, {0})
    ensures Shaped(s) && MovesLinked(Moves(), s) && MovesPlaced(s, {}, {}) && Moves().t.Sensible()
    ensures Moves().src(2) in s.tempMap && Moves().dst(2) in s.tempMap && A in s.graph.adj && B in s.graph.adj && A in s.moves && B in s.moves
    ensures Coalesce(Moves(), s, 2) == Ok(Joined(s, 2, A, B))
  {
    SecondNeighbours();
    hide Second, Third, Hard, Colorable, Coalesce, Joined, WantsThaw, Graph.WellFormed;
    ThirdReady(s);
    ThirdHard(s);
    QuietCombine(s, 2, A, B);
  }

  lemma ThirdStep(s: State)
    requires Is(s, Second(), B, T, {A, B}, {T}, {2}, {0})
    ensures exists p :: StepTo(Moves(), {}, s, p) && Is(p, Third(), A, T, {A}, {T}, {}, {0})
  {
    ThirdCoalesce(s);
    var p := Joined(s, 2, A, B);
    ThirdLooks(s);
    hide Second, Third, Coalesce, Almost, Good, StepTo, Moves, Shaped, MovesLinked, MovesPlaced, Target.Sensible, Joined;
    Stepped(s, p, 2);
  }

  /** ----- the end ----- */

  lemma OnlyMove(s: State)
    requires Is(s, Third(), A, T, {A}, {T}, {}, {0})
    ensures Shaped(s) && MovesLinked(Moves(), s) && A in s.moves && s.moves[A] == {0} && IsOrderOf([0], s.moves[A])
  {
    hide Third, Good, Shaped, MovesLinked, Moves;
    ThirdNeighbours();
    KnownNode(s, A);
    MoveEnds();
    forall m: Move
      ensures m in s.moves[A] <==> m == 0
    {
      if m == 0 || m in s.moves[A] {
        LinkedEnds(s, A, m);
        MovesOf(s, A, m);
      }
    }
    assert forall m: Move :: m in [0] <==> m == 0;
  }

  lemma LinkedEnds(s: State, n: Node, m: Move)
    requires Good(Moves(), s, {}) && n in s.graph.adj && n in s.moves && (m in s.moves[n] || m in s.Linked())
    ensures Moves().src(m) in s.tempMap && Moves().dst(m) in s.tempMap
  {
    assert LinkedAt(Moves(), s, n);
  }

  lemma LastIsChecked(s: State)
    requires Is(s, Third(), A, T, {A}, {T}, {}, {0})
    ensures Checked(Moves(), s, {}, 0)
  {
    ThirdNeighbours();
    hide Third, Graph.Adjacent;
    ColorableWhen(s, T);
  }

  lemma FreezeFails(s: State, ms: seq<Move>)
    requires Is(s, Third(), A, T, {A}, {T}, {}, {0})
    requires A in s.moves && IsOrderOf(ms, s.moves[A])
    ensures Shaped(s) && MovesLinked(Moves(), s)
    ensures Freeze(Moves(), s, A, ms) == Raised
  {
    OnlyMove(s);
    LastIsChecked(s);
    hide Third, Almost, Freeze;
    FreezeChecked(Moves(), s, {}, A, ms, 0);
    assert ms[|ms| - 1] in s.moves[A];
  }

  /** Only freezing is left to do, of one node, and it raises in every order of its moves. */
  ghost predicate Stuck(s: State) {
    && s.simplify == {} && s.worklist == {} && s.freeze == {A}
    && Shaped(s) && MovesLinked(Moves(), s) && A in s.moves && (exists ms :: IsOrderOf(ms, s.moves[A]))
    && forall ms :: IsOrderOf(ms, s.moves[A]) ==> Freeze(Moves(), s, A, ms) == Raised
  }

  lemma LastIsStuck(s: State)
    requires Is(s, Third(), A, T, {A}, {T}, {}, {0})
    ensures Stuck(s)
  {
    hide Third, Good, Freeze, IsOrderOf, Shaped, MovesLinked, Moves;
    OnlyMove(s);
    forall ms | IsOrderOf(ms, s.moves[A])
      ensures Freeze(Moves(), s, A, ms) == Raised
    {
      FreezeFails(s, ms);
    }
  }

  /**
    From the initial state of a sound graph, three steps of the main loop lead to
    a state in which only freezing is left to do, and that raises.
   */
  lemma FreezeRaises() returns (run: seq<State>)
    ensures Startable(Moves(), Start(), {0, 1, 2}, {}) && Start().WellFormed()
    ensures IsRun(Moves(), {}, run) && run[0] == Initial(Moves(), Start(), {0, 1, 2}) && Stuck(run[|run| - 1])
  {
    StartIsSound();
    hide StepTo, Start, Second, Third, Good, Freeze, Initial, Shaped, Startable, Graph.WellFormed, Stuck, Looks;
    StartLooks();
    var s0 := Initial(Moves(), Start(), {0, 1, 2});
    FirstStep(s0);
    var s1 := Activate(s0, 0);
    SecondStep(s1);
    var s2 :| StepTo(Moves(), {}, s1, s2) && Is(s2, Second(), B, T, {A, B}, {T}, {2}, {0});
    ThirdStep(s2);
    var s3 :| StepTo(Moves(), {}, s2, s3) && Is(s3, Third(), A, T, {A}, {T}, {}, {0});
    LastIsStuck(s3);
    run := [s0, s1, s2, s3];
  }
}
