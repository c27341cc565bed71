/**
  The state of iterated register coalescing and its steps: simplify, coalesce,
  freeze.  Every step is built from a few primitive changes.
 */
module Coalescing {
  import opened MachineCode
  import opened Graphs
  import opened PqTest

  /** A move instruction, known by its identity. */
  type Move = nat

  /** What stays fixed: the target, and the source and destination of every move. */
  datatype Context = Context(t: Target, src: Move -> Register, dst: Move -> Register)

  datatype State = State(
    graph: Graph,
    cls: Classes,
    tempMap: map<Register, Node>,
    moves: map<Node, set<Move>>,
    precolored: set<Node>,
    simplify: set<Node>,
    freeze: set<Node>,
    spill: set<Node>,
    worklist: set<Move>,
    active: set<Move>,
    coalesced: set<Move>,
    constrained: set<Move>,
    frozen: set<Move>,
    stack: seq<Node>)
  {
    function Linked(): set<Move> { worklist + active }

    function AllMoves(): set<Move> { worklist + active + coalesced + constrained + frozen }

    function Stacked(): set<Node> { set n | n in stack }
  }

  datatype Retirement = AsCoalesced | AsConstrained | AsFrozen

  /** ----- shape: maps are total on the nodes, and worklists partition the unmasked ones ----- */

  ghost predicate Distinct(s: seq<Node>) {
    forall i, j :: 0 <= i < j < |s| ==> s[i] != s[j]
  }

  ghost predicate Parts(s: State) {
    && s.graph.nodes == s.precolored + s.simplify + s.freeze + s.spill
    && s.precolored !! s.simplify && s.precolored !! s.freeze && s.precolored !! s.spill
    && s.simplify !! s.freeze && s.simplify !! s.spill && s.freeze !! s.spill
  }

  ghost predicate Shaped(s: State) {
    && s.graph.WellFormed()
    && s.cls.Keys == s.moves.Keys == s.graph.adj.Keys
    && (forall r :: r in s.tempMap ==> s.tempMap[r] in s.graph.adj)
    && Parts(s)
    && s.graph.masked == s.Stacked() && Distinct(s.stack)
  }

  ghost predicate KnowsMoves(c: Context, s: State) {
    forall m :: m in s.AllMoves() ==> c.src(m) in s.tempMap && c.dst(m) in s.tempMap
  }

  predicate IsEnd(c: Context, s: State, m: Move, n: Node)
    requires c.src(m) in s.tempMap && c.dst(m) in s.tempMap
  {
    s.tempMap[c.src(m)] == n || s.tempMap[c.dst(m)] == n
  }

  /** ----- primitive changes ----- */

  /** `unlink_move`, and the move leaves its set for a final one. */
  function Retire(c: Context, s: State, m: Move, kind: Retirement): State
    requires c.src(m) in s.tempMap && c.dst(m) in s.tempMap
  {
    s.(moves := map n | n in s.moves :: if IsEnd(c, s, m, n) then s.moves[n] - {m} else s.moves[n],
       worklist := s.worklist - {m},
       active := s.active - {m},
       coalesced := if kind == AsCoalesced then s.coalesced + {m} else s.coalesced,
       constrained := if kind == AsConstrained then s.constrained + {m} else s.constrained,
       frozen := if kind == AsFrozen then s.frozen + {m} else s.frozen)
  }

  /** The move waits until its nodes become simpler. */
  function Activate(s: State, m: Move): State {
    s.(worklist := s.worklist - {m}, active := s.active + {m})
  }

  function Thaw(s: State, n: Node): State {
    s.(freeze := s.freeze - {n}, simplify := s.simplify + {n})
  }

  function Demote(s: State, n: Node): State {
    s.(freeze := s.freeze - {n}, spill := s.spill + {n})
  }

  /** Take a node out of the graph and put it on the select stack. */
  function Push(s: State, n: Node): State {
    s.(simplify := s.simplify - {n}, stack := s.stack + [n], graph := s.graph.Mask(n))
  }

  /** `v` becomes part of `u`, in class `k`. */
  function Merge(s: State, u: Node, v: Node, k: Class): State
    requires u in s.graph.adj && v in s.graph.adj && u in s.moves && v in s.moves
  {
    s.(freeze := s.freeze - {v},
       spill := s.spill - {v},
       graph := s.graph.Combine(u, v),
       tempMap := map r | r in s.tempMap :: if s.tempMap[r] == v then u else s.tempMap[r],
       moves := (s.moves - {v})[u := s.moves[u] + s.moves[v]],
       cls := (s.cls - {v})[u := k])
  }

  /** ----- tests ----- */

  /** The pq-test on the current graph. */
  ghost predicate Colorable(t: Target, s: State, n: Node)
    requires Shaped(s) && n in s.graph.adj
  {
    n in s.precolored || Blocked(t, s.cls, s.cls[n], s.graph.Adjacent(n)) < |t.regs(s.cls[n])|
  }

  predicate MoveRelated(s: State, n: Node)
    requires n in s.moves
  {
    s.moves[n] != {}
  }

  /** An edge between the nodes, or to an alias of a precoloured one. */
  ghost predicate HasEdge(t: Target, s: State, a: Node, b: Node)
    requires Shaped(s) && a in s.graph.adj && b in s.graph.adj
  {
    || b in s.graph.Adjacent(a)
    || (a in s.precolored && exists r :: r in t.alias(a) && r in s.tempMap && b in s.graph.Adjacent(s.tempMap[r]))
    || (b in s.precolored && exists r :: r in t.alias(b) && r in s.tempMap && s.tempMap[r] in s.graph.Adjacent(a))
  }

  /** `decrement_degree` for all of `ns`: those that became colourable leave the spill worklist,
      and the waiting moves around them get another chance. */
  ghost function Promoted(t: Target, s: State, ns: set<Node>): set<Node>
    requires Shaped(s) && ns <= s.graph.nodes
  {
    set n | n in ns && n in s.spill && Colorable(t, s, n)
  }

  ghost function Enabled(t: Target, s: State, ns: set<Node>): set<Move>
    requires Shaped(s) && ns <= s.graph.nodes
  {
    set n, x, m | n in Promoted(t, s, ns) && x in {n} + s.graph.Adjacent(n) && m in s.moves[x] && m in s.active :: m
  }

  ghost function Promote(t: Target, s: State, ns: set<Node>): State
    requires Shaped(s) && ns <= s.graph.nodes
  {
    var promoted, enabled := Promoted(t, s, ns), Enabled(t, s, ns);
    s.(spill := s.spill - promoted,
       freeze := s.freeze + (set n | n in promoted && MoveRelated(s, n)),
       simplify := s.simplify + (set n | n in promoted && !MoveRelated(s, n)),
       active := s.active - enabled,
       worklist := s.worklist + enabled)
  }

  /** ----- shape is kept ----- */

  lemma RetireShaped(c: Context, s: State, m: Move, kind: Retirement)
    requires Shaped(s) && c.src(m) in s.tempMap && c.dst(m) in s.tempMap
    ensures Shaped(Retire(c, s, m, kind))
  {
  }

  lemma ThawShaped(s: State, n: Node)
    requires Shaped(s) && n in s.freeze
    ensures Shaped(Thaw(s, n))
  {
  }

  lemma DemoteShaped(s: State, n: Node)
    requires Shaped(s) && n in s.freeze
    ensures Shaped(Demote(s, n))
  {
  }

  lemma PushShaped(s: State, n: Node)
    requires Shaped(s) && n in s.simplify
    ensures Shaped(Push(s, n))
  {
    var p := Push(s, n);
    assert n in s.graph.nodes;
    assert p.graph.masked == p.Stacked() by {
      assert forall x :: x in p.stack <==> x in s.stack || x == n;
    }
    assert Parts(p);
  }

  lemma MergeShaped(s: State, u: Node, v: Node, k: Class)
    requires Shaped(s) && u != v && u in s.graph.nodes && v in s.freeze + s.spill
    ensures Shaped(Merge(s, u, v, k))
  {
    CombineWellFormed(s.graph, u, v);
    var p := Merge(s, u, v, k);
    assert v !in s.Stacked();
    assert p.graph.masked == s.graph.masked;
    assert Parts(p);
  }

  lemma PromoteShaped(t: Target, s: State, ns: set<Node>)
    requires Shaped(s) && ns <= s.graph.nodes
    ensures Shaped(Promote(t, s, ns))
  {
    var p := Promote(t, s, ns);
    hide Colorable;
    assert Parts(p);
  }
}
