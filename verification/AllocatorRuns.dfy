/**
  Whole runs of the allocator: from any state that meets the invariant, every
  sequence of steps keeps it, loses no move and no register, and is short.
 */
module AllocatorRuns {
  import opened MachineCode
  import opened Graphs
  import opened PqTest
  import opened Coalescing
  import opened ColoringInvariant
  import opened MovesInvariant
  import opened MeaningInvariant
  import opened AllocatorSteps

  /** The step that the main loop takes: simplify before coalesce before freeze. */
  ghost predicate StepTo(c: Context, pairs: Pairs, s: State, p: State) {
    Good(c, s, pairs) &&
    if s.simplify != {} then
      exists n :: n in s.simplify && p == Simplify(c.t, s, n)
    else if s.worklist != {} then
      exists m :: m in s.worklist && Coalesce(c, s, m) == Ok(p)
    else
      exists u, ms :: u in s.freeze && IsOrderOf(ms, s.moves[u]) && Freeze(c, s, u, ms) == Ok(p)
  }

  /** The step that the main loop takes next may raise. */
  ghost predicate Raises(c: Context, pairs: Pairs, s: State) {
    && Good(c, s, pairs) && s.simplify == {}
    && if s.worklist != {} then
         exists m :: m in s.worklist && Coalesce(c, s, m) == Raised
       else
         exists u, ms :: u in s.freeze && IsOrderOf(ms, s.moves[u]) && Freeze(c, s, u, ms) == Raised
  }

  /** Nodes on the graph and pending moves; then the moves that may be tried. */
  ghost predicate Lighter(p: State, s: State) {
    var before, after := |s.graph.nodes| + |s.Linked()|, |p.graph.nodes| + |p.Linked()|;
    after < before || (after == before && |p.worklist| < |s.worklist|)
  }

  /** How many steps a state can still take, at most. */
  ghost function Budget(s: State): nat {
    (|s.graph.nodes| + |s.Linked()|) * (|s.AllMoves()| + 1) + |s.worklist|
  }

  lemma {:induction false} SmallerSet<T>(a: set<T>, b: set<T>)
    requires a <= b
    ensures |a| <= |b| && (a != b ==> |a| < |b|)
  {
    assert b == a + (b - a);
  }

  lemma SimplifyIsLighter(c: Context, s: State, pairs: Pairs, n: Node)
    requires Good(c, s, pairs) && n in s.simplify
    ensures Lighter(Simplify(c.t, s, n), s) && Simplify(c.t, s, n).tempMap == s.tempMap
  {
    SimplifyKeeps(c, s, pairs, n);
    PushShaped(s, n);
    SmallerSet(s.graph.nodes - {n}, s.graph.nodes);
  }

  lemma HandledIsLighter(c: Context, s: State, pairs: Pairs, m: Move, p: State)
    requires m in s.worklist && Handled(c, s, pairs, m, p)
    ensures Lighter(p, s)
  {
    SmallerSet(p.graph.nodes, s.graph.nodes);
    SmallerSet(s.Linked() - {m}, s.Linked());
    SmallerSet(s.worklist - {m}, s.worklist);
  }

  lemma RetireLeaves(c: Context, s: State, m: Move, kind: Retirement)
    requires Shaped(s) && c.src(m) in s.tempMap && c.dst(m) in s.tempMap
    ensures s.moves.Keys == s.graph.adj.Keys && s.tempMap[c.src(m)] in s.graph.adj && s.tempMap[c.dst(m)] in s.graph.adj
    ensures var p := Retire(c, s, m, kind);
      && Shaped(p) && p.graph == s.graph && p.cls == s.cls && p.precolored == s.precolored
      && p.freeze == s.freeze && p.spill == s.spill && p.tempMap == s.tempMap
  {
    RetireShaped(c, s, m, kind);
  }

  /** What coalescing finds at the ends of the move it has popped. */
  lemma CoalesceFinds(c: Context, s: State, m: Move)
    requires Shaped(s) && MovesLinked(c, s) && MovesPlaced(s, {}, {}) && m in s.worklist
    ensures c.src(m) in s.tempMap && c.dst(m) in s.tempMap
    ensures var (u, v) := Couple(c, s, m);
      && u in s.graph.nodes && v in s.graph.nodes && u in s.graph.adj && v in s.graph.adj
      && u in s.cls && v in s.cls
      && (v !in s.precolored ==> v in s.freeze + s.spill)
  {
    var (u, v) := Couple(c, s, m);
    EndsOnGraph(c, s, m, u);
    EndsOnGraph(c, s, m, v);
  }

  lemma CombineKeepsRegisters(t: Target, s: State, u: Node, v: Node)
    requires Shaped(s) && u != v && u in s.graph.nodes && v in s.freeze + s.spill && Comparable(t, s.cls[u], s.cls[v])
    ensures CombineNodes(t, s, u, v).tempMap.Keys == s.tempMap.Keys
  {
    hide Colorable;
  }

  lemma CoalesceKeepsRegisters(c: Context, s: State, pairs: Pairs, m: Move)
    requires Good(c, s, pairs) && m in s.worklist
    ensures var o := Coalesce(c, s, m); o.Ok? ==> o.s.tempMap.Keys == s.tempMap.Keys
  {
    hide HasEdge, ShouldCombine, CombineNodes, MovesLinked, MovesPlaced, Meaning, Colorable, StackPassed, WaitingPass, Shaped,
         AddWorklist, Retire;
    CoalesceFinds(c, s, m);
    var (u, v) := Couple(c, s, m);
    CoupleEnds(c, s, pairs, m);
    RetireLeaves(c, s, m, AsCoalesced);
    RetireLeaves(c, s, m, AsConstrained);
    var p, q := Retire(c, s, m, AsCoalesced), Retire(c, s, m, AsConstrained);
    if u == v {
      AddWorklistShaped(c.t, p, u);
    } else if v in s.precolored || HasEdge(c.t, s, u, v) {
      AddWorklistShaped(c.t, q, u);
      var o := AddWorklist(c.t, q, u);
      if o.Ok? {
        AddWorklistShaped(c.t, o.s, v);
      }
    } else if u in s.precolored || Comparable(c.t, s.cls[u], s.cls[v]) {
      if ShouldCombine(c.t, s, u, v) {
        ShouldIsComparable(c.t, s, u, v);
        CombineKeepsRegisters(c.t, p, u, v);
        CombineNodesShaped(c.t, p, u, v);
        AddWorklistShaped(c.t, CombineNodes(c.t, p, u, v), u);
      }
    }
  }

  lemma {:induction false} FreezeKeepsRegisters(c: Context, s: State, u: Node, ms: seq<Move>)
    requires Shaped(s) && forall m :: m in ms ==> c.src(m) in s.tempMap && c.dst(m) in s.tempMap
    ensures var o := FreezeMoves(c, s, u, ms); o.Ok? ==> o.s.tempMap == s.tempMap
    decreases |ms|
  {
    hide Shaped, FreezeMove;
    if ms != [] {
      FreezeMoveShaped(c, s, u, ms[0]);
      var o := FreezeMove(c, s, u, ms[0]);
      if o.Ok? {
        FreezeKeepsRegisters(c, o.s, u, ms[1..]);
      }
    }
  }

  lemma FreezeIsLighter(c: Context, s: State, pairs: Pairs, u: Node, ms: seq<Move>)
    requires Good(c, s, pairs) && u in s.freeze && IsOrderOf(ms, s.moves[u])
    ensures var o := Freeze(c, s, u, ms); o.Ok? ==> Lighter(o.s, s) && o.s.tempMap == s.tempMap
  {
    FreezeKeeps(c, s, pairs, u, ms);
    ThawShaped(s, u);
    assert LinkedAt(c, s, u);
    FreezeKeepsRegisters(c, Thaw(s, u), u, ms);
    var o := Freeze(c, s, u, ms);
    hide Shaped, MovesLinked, MovesPlaced, Meaning, FreezeMoves;
    if o.Ok? {
      SmallerSet(o.s.Linked(), s.Linked());
    }
  }

  /** Every step of the main loop keeps the invariant, loses nothing, and makes progress. */
  lemma StepKeeps(c: Context, pairs: Pairs, s: State, p: State)
    requires StepTo(c, pairs, s, p)
    ensures Good(c, p, pairs) && p.AllMoves() == s.AllMoves() && p.tempMap.Keys == s.tempMap.Keys && Lighter(p, s)
  {
    hide Simplify, Coalesce, Freeze, Handled, Lighter, Meaning, MovesLinked, StackPassed, WaitingPass, MovesPlaced;
    if s.simplify != {} {
      var n :| n in s.simplify && p == Simplify(c.t, s, n);
      SimplifyKeeps(c, s, pairs, n);
      SimplifyIsLighter(c, s, pairs, n);
    } else if s.worklist != {} {
      var m :| m in s.worklist && Coalesce(c, s, m) == Ok(p);
      CoalesceKeeps(c, s, pairs, m);
      HandledKeeps(c, s, pairs, m, p);
      CoalesceKeepsRegisters(c, s, pairs, m);
    } else {
      var u, ms :| u in s.freeze && IsOrderOf(ms, s.moves[u]) && Freeze(c, s, u, ms) == Ok(p);
      FreezeKeeps(c, s, pairs, u, ms);
      FreezeIsLighter(c, s, pairs, u, ms);
    }
  }

  lemma HandledKeeps(c: Context, s: State, pairs: Pairs, m: Move, p: State)
    requires m in s.worklist && Handled(c, s, pairs, m, p)
    ensures Good(c, p, pairs) && p.AllMoves() == s.AllMoves() && Lighter(p, s)
  {
    HandledIsLighter(c, s, pairs, m, p);
  }

  lemma LighterCostsLess(p: State, s: State)
    requires Lighter(p, s) && p.AllMoves() == s.AllMoves()
    ensures Budget(p) < Budget(s)
  {
    SmallerSet(p.worklist, p.AllMoves());
    CheaperPair(|p.graph.nodes| + |p.Linked()|, |p.worklist|, |s.graph.nodes| + |s.Linked()|, |s.worklist|, |s.AllMoves()| + 1);
  }

  /** A pair that is smaller in lexicographic order is a smaller number in base `base`. */
  lemma CheaperPair(a: nat, b: nat, a': nat, b': nat, base: nat)
    requires a < a' || (a == a' && b < b')
    requires b < base
    ensures a * base + b < a' * base + b'
  {
    if a < a' {
      assert (a + 1) * base <= a' * base;
    }
  }

  /** A sequence of steps. */
  ghost predicate IsRun(c: Context, pairs: Pairs, run: seq<State>) {
    && run != []
    && forall i :: 0 <= i < |run| - 1 ==> StepTo(c, pairs, run[i], run[i + 1])
  }

  lemma RunExtended(c: Context, pairs: Pairs, run: seq<State>, p: State)
    requires IsRun(c, pairs, run) && StepTo(c, pairs, run[|run| - 1], p)
    ensures IsRun(c, pairs, run + [p])
  {
    hide StepTo;
    var more := run + [p];
    forall i | 0 <= i < |more| - 1
      ensures StepTo(c, pairs, more[i], more[i + 1])
    {
      if i < |run| - 1 {
        assert StepTo(c, pairs, run[i], run[i + 1]);
      }
    }
  }

  lemma RunStarts(c: Context, pairs: Pairs, s: State)
    ensures IsRun(c, pairs, [s])
  {
  }

  /** Every run from a good state stays good, loses no move and no register, and is within its budget. */
  lemma {:induction false} RunKeeps(c: Context, pairs: Pairs, run: seq<State>)
    requires IsRun(c, pairs, run) && Good(c, run[0], pairs)
    ensures var last := run[|run| - 1];
      && Good(c, last, pairs)
      && last.AllMoves() == run[0].AllMoves()
      && last.tempMap.Keys == run[0].tempMap.Keys
      && |run| - 1 + Budget(last) <= Budget(run[0])
    decreases |run|
  {
    hide Almost, StepTo, Lighter, Budget;
    if |run| > 1 {
      var init := run[..|run| - 1];
      assert forall i :: 0 <= i < |init| ==> init[i] == run[i];
      RunKeeps(c, pairs, init);
      assert StepTo(c, pairs, run[|run| - 2], run[|run| - 2 + 1]);
      StepKeeps(c, pairs, run[|run| - 2], run[|run| - 1]);
      LighterCostsLess(run[|run| - 1], run[|run| - 2]);
    }
  }
}
