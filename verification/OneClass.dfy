/**
  With one register class, the worklists are exactly what `check_invariants`
  says, no step but freeze can raise, and freeze raises exactly when the move
  it gives up last has both ends in the frozen node.
 */
module OneClass {
  import opened MachineCode
  import opened Graphs
  import opened PqTest
  import opened Coalescing
  import opened ColoringInvariant
  import opened MovesInvariant
  import opened MeaningInvariant
  import opened AllocatorSteps

  ghost predicate SameClass(t: Target, s: State, k: Class) {
    t.sub(k, k) && forall n :: n in s.cls ==> s.cls[n] == k
  }

  ghost predicate SpillFails(t: Target, s: State)
    requires Shaped(s)
  {
    forall n :: n in s.spill ==> !Colorable(t, s, n)
  }

  /** The assertions of `check_invariants`, with what they need to be kept. */
  ghost predicate Checked(c: Context, s: State, pairs: Pairs, k: Class) {
    Good(c, s, pairs) && SameClass(c.t, s, k) && SpillFails(c.t, s)
  }

  /** `check_invariants`: simplify and freeze nodes pass the test and are told apart by their moves,
      spill nodes fail it, and every move is in exactly one set. */
  lemma CheckInvariants(c: Context, s: State, pairs: Pairs, k: Class)
    requires Checked(c, s, pairs, k)
    ensures forall u :: u in s.simplify ==> Colorable(c.t, s, u) && !MoveRelated(s, u)
    ensures forall u :: u in s.freeze ==> Colorable(c.t, s, u) && MoveRelated(s, u)
    ensures forall u :: u in s.spill ==> !Colorable(c.t, s, u)
    ensures s.active !! s.worklist !! s.coalesced !! s.constrained !! s.frozen
    ensures forall m, n :: n in s.graph.nodes && m in s.moves[n] ==> m in s.active || m in s.worklist
  {
    forall m, n | n in s.graph.nodes && m in s.moves[n]
      ensures m in s.active || m in s.worklist
    {
      assert LinkedAt(c, s, n);
    }
  }

  /** In one class, the test only counts neighbours. */
  lemma {:induction false} BlockedBySize(t: Target, cls: Classes, cls': Classes, k: Class, a: set<Node>, b: set<Node>)
    requires a <= cls.Keys && forall n :: n in a ==> cls[n] == k
    requires b <= cls'.Keys && forall n :: n in b ==> cls'[n] == k
    requires |a| <= |b|
    ensures Blocked(t, cls, k, a) <= Blocked(t, cls', k, b)
    decreases a
  {
    if a != {} {
      var n :| n in a;
      assert b != {};
      var m :| m in b;
      BlockedSplit(t, cls, k, a, n);
      BlockedSplit(t, cls', k, b, m);
      assert |a - {n}| == |a| - 1 && |b - {m}| == |b| - 1;
      BlockedBySize(t, cls, cls', k, a - {n}, b - {m});
    }
  }

  lemma MoreNeighbours(t: Target, s: State, n: Node, p: State, x: Node, k: Class)
    requires Shaped(s) && SameClass(t, s, k) && n in s.graph.adj && n !in s.precolored && !Colorable(t, s, n)
    requires Shaped(p) && SameClass(t, p, k) && x in p.graph.adj && x !in p.precolored
    requires |s.graph.Adjacent(n)| <= |p.graph.Adjacent(x)|
    ensures !Colorable(t, p, x)
  {
    BlockedBySize(t, s.cls, p.cls, k, s.graph.Adjacent(n), p.graph.Adjacent(x));
  }

  /** ----- promotion leaves only failing nodes on the spill worklist ----- */

  ghost predicate SpillFailsExcept(t: Target, s: State, ns: set<Node>)
    requires Shaped(s)
  {
    forall n :: n in s.spill && n !in ns ==> !Colorable(t, s, n)
  }

  lemma PromoteCleans(t: Target, s: State, ns: set<Node>)
    requires Shaped(s) && ns <= s.graph.nodes && SpillFailsExcept(t, s, ns)
    ensures Shaped(Promote(t, s, ns)) && SpillFails(t, Promote(t, s, ns))
  {
    PromoteShaped(t, s, ns);
    SameGraphKeeps(t, s, Promote(t, s, ns));
    hide Colorable;
  }

  lemma SameGraphKeepsSpill(t: Target, s: State, p: State)
    requires Shaped(s) && Shaped(p) && SameGraph(s, p) && SpillFails(t, s) && p.spill <= s.spill
    ensures SpillFails(t, p)
  {
    SameGraphKeeps(t, s, p);
    hide Colorable;
  }

  lemma SimplifyChecked(c: Context, s: State, pairs: Pairs, n: Node, k: Class)
    requires Checked(c, s, pairs, k) && n in s.simplify
    ensures Checked(c, Simplify(c.t, s, n), pairs, k)
  {
    SimplifyKeeps(c, s, pairs, n);
    PushShaped(s, n);
    var p := Push(s, n);
    forall x | x in p.spill && x !in p.graph.Adjacent(n)
      ensures !Colorable(c.t, p, x)
    {
      assert n !in s.graph.adj[x];
      assert p.graph.Adjacent(x) == s.graph.Adjacent(x);
    }
    PromoteCleans(c.t, p, p.graph.Adjacent(n));
  }

  lemma OnGraphIsKnown(s: State, n: Node)
    requires Shaped(s) && n in s.graph.nodes
    ensures n in s.graph.adj
    ensures n in s.precolored + s.freeze + s.spill ==> n !in s.simplify
  {
  }

  /** ----- add_worklist cannot raise ----- */

  lemma AddWorklistChecked(c: Context, s: State, pairs: Pairs, u: Node, frozen: set<Node>, simplified: set<Node>, k: Class)
    requires Almost(c, s, pairs, frozen, simplified) && SameClass(c.t, s, k) && SpillFails(c.t, s)
    requires u in s.graph.nodes && u !in s.simplify
    ensures var o := AddWorklist(c.t, s, u);
      o.Ok? && Shaped(o.s) && SameClass(c.t, o.s, k) && SpillFails(c.t, o.s) && o.s.graph == s.graph
        && o.s.simplify <= s.simplify + {u}
  {
    if u in s.freeze {
      ThawShaped(s, u);
      SameGraphKeepsSpill(c.t, s, Thaw(s, u));
    }
  }

  lemma RetireChecked(c: Context, s: State, pairs: Pairs, m: Move, kind: Retirement, k: Class)
    requires Shaped(s) && c.src(m) in s.tempMap && c.dst(m) in s.tempMap && SameClass(c.t, s, k) && SpillFails(c.t, s)
    ensures var p := Retire(c, s, m, kind); Shaped(p) && SameClass(c.t, p, k) && SpillFails(c.t, p)
  {
    RetireShaped(c, s, m, kind);
    SameGraphKeepsSpill(c.t, s, Retire(c, s, m, kind));
  }

  /** ----- combining ----- */

  lemma {:induction false} SubsetCount(a: set<Node>, b: set<Node>)
    requires a <= b
    ensures |a| <= |b|
  {
    assert b == a + (b - a);
  }

  /** Merging two nodes in one class makes no failing node pass, except common neighbours. */
  lemma MergeChecked(t: Target, s: State, u: Node, v: Node, k: Class)
    requires t.Sensible() && Shaped(s) && SameClass(t, s, k) && SpillFails(t, s)
    requires u != v && u in s.graph.nodes && v in s.freeze + s.spill && v !in s.graph.Adjacent(u)
    ensures var p := Merge(s, u, v, k);
      Shaped(p) && SameClass(t, p, k) && SpillFailsExcept(t, p, p.graph.Adjacent(u))
  {
    MergeShaped(s, u, v, k);
    var p := Merge(s, u, v, k);
    forall x | x in p.spill && x !in p.graph.Adjacent(u)
      ensures !Colorable(t, p, x)
    {
      MergeFails(t, s, u, v, k, x);
    }
  }

  lemma MergeFails(t: Target, s: State, u: Node, v: Node, k: Class, x: Node)
    requires t.Sensible() && Shaped(s) && SameClass(t, s, k)
    requires u != v && u in s.graph.nodes && v in s.freeze + s.spill && v !in s.graph.Adjacent(u)
    requires Shaped(Merge(s, u, v, k)) && SameClass(t, Merge(s, u, v, k), k)
    requires x in s.spill && x != v && !Colorable(t, s, x)
    requires x in Merge(s, u, v, k).graph.adj && x !in Merge(s, u, v, k).graph.Adjacent(u)
    ensures !Colorable(t, Merge(s, u, v, k), x)
  {
    var p := Merge(s, u, v, k);
    if x == u {
      CombinedNeighbours(s.graph, u, v);
      SubsetCount(s.graph.Adjacent(u), p.graph.Adjacent(u));
    } else {
      MergedAdjacent(s, u, v, k, x);
      NotNeighbour(s.graph, u, v, x);
    }
    MoreNeighbours(t, s, x, p, x, k);
  }

  lemma CombinedNeighbours(g: Graph, u: Node, v: Node)
    requires g.WellFormed() && u in g.nodes && v in g.nodes && u != v && v !in g.Adjacent(u)
    ensures g.Adjacent(u) <= g.Combine(u, v).Adjacent(u)
  {
  }

  lemma NotNeighbour(g: Graph, u: Node, v: Node, x: Node)
    requires g.WellFormed() && u in g.nodes && v in g.nodes && u != v && x in g.nodes && x != u && x != v
    requires x !in g.Combine(u, v).Adjacent(u)
    ensures v !in g.Adjacent(x)
  {
  }

  lemma SettleChecked(t: Target, s: State, u: Node, k: Class)
    requires Shaped(s) && u in s.graph.nodes && SameClass(t, s, k) && SpillFailsExcept(t, s, s.graph.Adjacent(u))
    ensures var p := Settle(t, s, u); Shaped(p) && SameClass(t, p, k) && SpillFails(t, p) && p.graph == s.graph
  {
    PromoteCleans(t, s, s.graph.Adjacent(u));
    var p := Promote(t, s, s.graph.Adjacent(u));
    if !Colorable(t, p, u) && u in p.freeze {
      DemoteShaped(p, u);
      SameGraphKeeps(t, p, Demote(p, u));
      hide Colorable;
    }
  }

  lemma CombineChecked(c: Context, s: State, pairs: Pairs, m: Move, u: Node, v: Node, k: Class)
    requires Checked(c, s, pairs, k) && m in s.Linked()
    requires {s.tempMap[c.src(m)], s.tempMap[c.dst(m)]} == {u, v}
    requires u != v && u in s.graph.nodes && u !in s.simplify && v in s.freeze + s.spill && !HasEdge(c.t, s, u, v)
    ensures var p := Retire(c, s, m, AsCoalesced);
      && Shaped(p) && Comparable(c.t, p.cls[u], p.cls[v]) && Shaped(CombineNodes(c.t, p, u, v))
      && u in CombineNodes(c.t, p, u, v).graph.adj
      && var o := AddWorklist(c.t, CombineNodes(c.t, p, u, v), u); o.Ok? && Checked(c, o.s, pairs, k)
  {
    var p := Retire(c, s, m, AsCoalesced);
    RetireReady(c, s, pairs, m, u, v);
    RetireChecked(c, s, pairs, m, AsCoalesced, k);
    CombineNodesKeep(c, p, pairs, m, u, v);
    MergeChecked(c.t, p, u, v, k);
    SettleChecked(c.t, Merge(p, u, v, k), u, k);
    var q := CombineNodes(c.t, p, u, v);
    CombinedAside(c.t, p, u, v);
    AddWorklistKeeps(c, q, pairs, u, {u}, {});
    AddWorklistChecked(c, q, pairs, u, {u}, {}, k);
    assert {u} - {u} == {};
  }

  /** The combined node is not on the simplify worklist yet. */
  lemma CombinedAside(t: Target, s: State, u: Node, v: Node)
    requires Shaped(s) && u != v && u in s.graph.nodes && u !in s.simplify && v in s.freeze + s.spill
    requires Comparable(t, s.cls[u], s.cls[v])
    ensures u in CombineNodes(t, s, u, v).graph.nodes && u !in CombineNodes(t, s, u, v).simplify
  {
    var p := Merge(s, u, v, CommonClass(t, s.cls[u], s.cls[v]));
    MergeShaped(s, u, v, CommonClass(t, s.cls[u], s.cls[v]));
    assert u !in p.graph.Adjacent(u);
  }

  lemma EndsAreKnown(c: Context, s: State, m: Move)
    requires KnowsMoves(c, s) && m in s.AllMoves()
    ensures c.src(m) in s.tempMap && c.dst(m) in s.tempMap
  {
  }

  lemma CheckedIsGood(c: Context, s: State, pairs: Pairs, k: Class)
    requires Checked(c, s, pairs, k)
    ensures Good(c, s, pairs) && c.t.Sensible() && Shaped(s) && KnowsMoves(c, s) && MovesLinked(c, s) && MovesPlaced(s, {}, {})
    ensures forall u :: u in s.freeze ==> u in s.moves
  {
  }

  /** Trying the move does not raise, keeps what is checked, and finishes with the move or parks it. */
  ghost predicate CoalescesWell(c: Context, s: State, pairs: Pairs, m: Move, k: Class) {
    && c.t.Sensible() && Shaped(s) && MovesLinked(c, s) && MovesPlaced(s, {}, {}) && m in s.worklist
    && var o := Coalesce(c, s, m);
    o.Ok? && Checked(c, o.s, pairs, k) && Handled(c, s, pairs, m, o.s)
  }

  lemma IdentityWell(c: Context, s: State, pairs: Pairs, m: Move, u: Node, v: Node, k: Class)
    requires Checked(c, s, pairs, k) && m in s.worklist && KnowsMoves(c, s)
    requires c.src(m) in s.tempMap && c.dst(m) in s.tempMap && Couple(c, s, m) == (u, v)
    requires u == v
    ensures CoalescesWell(c, s, pairs, m, k)
  {
    CheckedIsGood(c, s, pairs, k);
    EndsAreKnown(c, s, m);
    hide Almost, KnowsMoves, Target.Sensible;
    CoalesceKeeps(c, s, pairs, m);
    CoupleEnds(c, s, pairs, m);
    hide Shaped, MovesLinked, MovesPlaced, HasEdge, CombineNodes, AddWorklist, ShouldCombine, Handled, Retire, SpillFails;
    RetireKeeps(c, s, pairs, m, AsCoalesced, {}, {});
    RetireChecked(c, s, pairs, m, AsCoalesced, k);
    RetireAside(c, s, m, AsCoalesced);
    AddWorklistChecked(c, Retire(c, s, m, AsCoalesced), pairs, u, {} + {u, u}, {}, k);
  }

  lemma ConstrainedWell(c: Context, s: State, pairs: Pairs, m: Move, u: Node, v: Node, k: Class)
    requires Checked(c, s, pairs, k) && m in s.worklist && KnowsMoves(c, s)
    requires c.src(m) in s.tempMap && c.dst(m) in s.tempMap && Couple(c, s, m) == (u, v)
    requires u != v && u in s.graph.adj && v in s.graph.adj && Shaped(s) && (v in s.precolored || HasEdge(c.t, s, u, v))
    ensures CoalescesWell(c, s, pairs, m, k)
  {
    CheckedIsGood(c, s, pairs, k);
    EndsAreKnown(c, s, m);
    hide Almost, KnowsMoves, Target.Sensible;
    CoalesceKeeps(c, s, pairs, m);
    CoupleEnds(c, s, pairs, m);
    hide Shaped, MovesLinked, MovesPlaced, HasEdge, CombineNodes, AddWorklist, ShouldCombine, Handled, Retire, SpillFails;
    ConstrainChecked(c, s, pairs, m, k);
  }

  lemma CombinedWell(c: Context, s: State, pairs: Pairs, m: Move, u: Node, v: Node, k: Class)
    requires Checked(c, s, pairs, k) && m in s.worklist && KnowsMoves(c, s)
    requires c.src(m) in s.tempMap && c.dst(m) in s.tempMap && Couple(c, s, m) == (u, v)
    requires u != v && u in s.graph.adj && v in s.graph.adj && Shaped(s) && v !in s.precolored && !HasEdge(c.t, s, u, v) && ShouldCombine(c.t, s, u, v)
    ensures CoalescesWell(c, s, pairs, m, k)
  {
    CheckedIsGood(c, s, pairs, k);
    EndsAreKnown(c, s, m);
    hide Almost, KnowsMoves, Target.Sensible;
    CoalesceKeeps(c, s, pairs, m);
    CoupleEnds(c, s, pairs, m);
    hide Shaped, MovesLinked, MovesPlaced, HasEdge, CombineNodes, AddWorklist, ShouldCombine, Handled, Retire, SpillFails;
    CombineChecked(c, s, pairs, m, u, v, k);
  }

  lemma ParkedWell(c: Context, s: State, pairs: Pairs, m: Move, u: Node, v: Node, k: Class)
    requires Checked(c, s, pairs, k) && m in s.worklist && KnowsMoves(c, s)
    requires c.src(m) in s.tempMap && c.dst(m) in s.tempMap && Couple(c, s, m) == (u, v)
    requires u != v && u in s.graph.adj && v in s.graph.adj && Shaped(s) && v !in s.precolored && !HasEdge(c.t, s, u, v) && !ShouldCombine(c.t, s, u, v)
    ensures CoalescesWell(c, s, pairs, m, k)
  {
    CheckedIsGood(c, s, pairs, k);
    EndsAreKnown(c, s, m);
    hide Almost, KnowsMoves, Target.Sensible;
    CoalesceKeeps(c, s, pairs, m);
    CoupleEnds(c, s, pairs, m);
    hide Shaped, MovesLinked, MovesPlaced, HasEdge, CombineNodes, AddWorklist, ShouldCombine, Handled, Retire, SpillFails;
    ParkChecked(c, s, m, k);
  }

  /** With one register class, coalescing never raises and keeps what is checked. */
  lemma CoalesceChecked(c: Context, s: State, pairs: Pairs, m: Move, k: Class)
    requires Checked(c, s, pairs, k) && m in s.worklist
    ensures CoalescesWell(c, s, pairs, m, k)
  {
    CheckedIsGood(c, s, pairs, k);
    hide Almost, CoalescesWell, MovesLinked, MovesPlaced;
    EndsAreKnown(c, s, m);
    var (u, v) := Couple(c, s, m);
    assert u in s.graph.adj && v in s.graph.adj;
    hide Shaped, HasEdge, ShouldCombine;
    if u == v {
      IdentityWell(c, s, pairs, m, u, v, k);
    } else if v in s.precolored || HasEdge(c.t, s, u, v) {
      ConstrainedWell(c, s, pairs, m, u, v, k);
    } else if ShouldCombine(c.t, s, u, v) {
      CombinedWell(c, s, pairs, m, u, v, k);
    } else {
      ParkedWell(c, s, pairs, m, u, v, k);
    }
  }

  lemma RetireAside(c: Context, s: State, m: Move, kind: Retirement)
    requires c.src(m) in s.tempMap && c.dst(m) in s.tempMap
    ensures Retire(c, s, m, kind).graph == s.graph && Retire(c, s, m, kind).simplify == s.simplify
  {
  }

  lemma ParkChecked(c: Context, s: State, m: Move, k: Class)
    requires Shaped(s) && SameClass(c.t, s, k) && SpillFails(c.t, s)
    ensures Shaped(Activate(s, m)) && SameClass(c.t, Activate(s, m), k) && SpillFails(c.t, Activate(s, m))
  {
    SameGraphKeepsSpill(c.t, s, Activate(s, m));
  }

  lemma ConstrainChecked(c: Context, s: State, pairs: Pairs, m: Move, k: Class)
    requires Checked(c, s, pairs, k) && m in s.worklist
    requires var (u, v) := Couple(c, s, m); u != v
    ensures var (u, v) := Couple(c, s, m);
      && Shaped(Retire(c, s, m, AsConstrained))
      && var o := AddWorklist(c.t, Retire(c, s, m, AsConstrained), u);
        && o.Ok? && Shaped(o.s) && v in o.s.graph.adj
        && var o' := AddWorklist(c.t, o.s, v); o'.Ok? && Shaped(o'.s) && SameClass(c.t, o'.s, k) && SpillFails(c.t, o'.s)
  {
    var (u, v) := Couple(c, s, m);
    CoupleEnds(c, s, pairs, m);
    OnGraphIsKnown(s, u);
    OnGraphIsKnown(s, v);
    hide Shaped, MovesLinked, MovesPlaced, Meaning, StackPassed, WaitingPass, AddWorklist, Retire, SpillFails;
    RetireKeeps(c, s, pairs, m, AsConstrained, {}, {});
    RetireChecked(c, s, pairs, m, AsConstrained, k);
    var p := Retire(c, s, m, AsConstrained);
    RetireAside(c, s, m, AsConstrained);
    AddWorklistKeeps(c, p, pairs, u, {u, v}, {});
    AddWorklistChecked(c, p, pairs, u, {u, v}, {}, k);
    var o := AddWorklist(c.t, p, u);
    assert v in o.s.graph.nodes && v !in o.s.simplify;
    AddWorklistChecked(c, o.s, pairs, v, {u, v} - {u}, {}, k);
  }

  /** ----- freeze ----- */

  /** Both ends of the move are in one node already. */
  predicate IsIdentity(c: Context, s: State, m: Move)
    requires c.src(m) in s.tempMap && c.dst(m) in s.tempMap
  {
    s.tempMap[c.src(m)] == s.tempMap[c.dst(m)]
  }

  /** Giving up a move raises only for an identity move that is the last of the frozen node. */
  lemma FreezeMoveChecked(c: Context, s: State, pairs: Pairs, u: Node, m: Move, k: Class)
    requires Almost(c, s, pairs, {}, {u}) && SameClass(c.t, s, k) && SpillFails(c.t, s)
    requires u in s.simplify && m in s.moves[u]
    ensures m in s.Linked()
    ensures var o := FreezeMove(c, s, u, m);
      && (o.Raised? <==> IsIdentity(c, s, m) && s.moves[u] == {m})
      && (o.Ok? ==> Shaped(o.s) && SameClass(c.t, o.s, k) && SpillFails(c.t, o.s) && u in o.s.simplify && o.s.tempMap == s.tempMap)
  {
    assert LinkedAt(c, s, u);
    var v := OtherEnd(c, s, m, u);
    RetireShaped(c, s, m, AsFrozen);
    if v == u {
      FreezeIdentity(c, s, pairs, u, m, k);
    } else {
      FreezeOther(c, s, pairs, u, m, k);
    }
  }

  lemma FreezeIdentity(c: Context, s: State, pairs: Pairs, u: Node, m: Move, k: Class)
    requires Almost(c, s, pairs, {}, {u}) && SameClass(c.t, s, k) && SpillFails(c.t, s)
    requires u in s.simplify && m in s.moves[u]
    requires c.src(m) in s.tempMap && c.dst(m) in s.tempMap && s.tempMap[c.src(m)] == s.tempMap[c.dst(m)] == u
    ensures var o := FreezeMove(c, s, u, m);
      && (o.Raised? <==> s.moves[u] == {m})
      && (o.Ok? ==> Shaped(o.s) && SameClass(c.t, o.s, k) && SpillFails(c.t, o.s) && u in o.s.simplify && o.s.tempMap == s.tempMap)
  {
    RetireChecked(c, s, pairs, m, AsFrozen, k);
    var p := Retire(c, s, m, AsFrozen);
    SameGraphKeeps(c.t, s, p);
    assert Colorable(c.t, s, u);
    hide MovesLinked, MovesPlaced, Meaning, StackPassed, WaitingPass, SpillFails, Colorable;
    assert p.moves[u] == s.moves[u] - {m};
  }

  lemma FreezeOther(c: Context, s: State, pairs: Pairs, u: Node, m: Move, k: Class)
    requires Almost(c, s, pairs, {}, {u}) && SameClass(c.t, s, k) && SpillFails(c.t, s)
    requires u in s.simplify && m in s.moves[u] && m in s.Linked()
    requires c.src(m) in s.tempMap && c.dst(m) in s.tempMap && IsEnd(c, s, m, u) && OtherEnd(c, s, m, u) != u
    ensures var o := FreezeMove(c, s, u, m);
      o.Ok? && Shaped(o.s) && SameClass(c.t, o.s, k) && SpillFails(c.t, o.s) && u in o.s.simplify && o.s.tempMap == s.tempMap
  {
    var v := OtherEnd(c, s, m, u);
    assert LinkedAt(c, s, v);
    assert MoveRelated(s, v) && v in s.graph.nodes && v !in s.simplify;
    RetireKeeps(c, s, pairs, m, AsFrozen, {}, {u});
    RetireChecked(c, s, pairs, m, AsFrozen, k);
    FreezeMoveShaped(c, s, u, m);
    var p := Retire(c, s, m, AsFrozen);
    hide Shaped, MovesLinked, MovesPlaced, Meaning, StackPassed, WaitingPass, SpillFails;
    AddWorklistChecked(c, p, pairs, v, {} + {s.tempMap[c.src(m)], s.tempMap[c.dst(m)]}, {u}, k);
  }

  lemma {:induction false} FreezeMovesChecked(c: Context, s: State, pairs: Pairs, u: Node, ms: seq<Move>, k: Class)
    requires Almost(c, s, pairs, {}, {u}) && SameClass(c.t, s, k) && SpillFails(c.t, s)
    requires u in s.simplify && IsOrderOf(ms, s.moves[u])
    requires forall m :: m in ms ==> c.src(m) in s.tempMap && c.dst(m) in s.tempMap
    ensures var o := FreezeMoves(c, s, u, ms);
      && (o.Raised? <==> ms != [] && IsIdentity(c, s, ms[|ms| - 1]))
      && (o.Ok? ==> Shaped(o.s) && SameClass(c.t, o.s, k) && SpillFails(c.t, o.s))
    decreases |ms|
  {
    if ms != [] {
      FreezeMoveChecked(c, s, pairs, u, ms[0], k);
      FreezeMoveKeeps(c, s, pairs, u, ms[0]);
      var o := FreezeMove(c, s, u, ms[0]);
      OrderTail(ms, s.moves[u]);
      LastOfOrder(ms, s.moves[u]);
      if o.Ok? {
        FreezeMovesChecked(c, o.s, pairs, u, ms[1..], k);
      }
    }
  }

  lemma LastOfOrder(ms: seq<Move>, s: set<Move>)
    requires IsOrderOf(ms, s) && ms != []
    ensures s == {ms[0]} <==> |ms| == 1
    ensures |ms| > 1 ==> ms[1..][|ms| - 2] == ms[|ms| - 1]
  {
    if |ms| > 1 {
      assert ms[1] in s && ms[1] != ms[0];
    }
  }

  /** With one register class, freezing a node raises exactly when the move it gives up last
      has both ends in that node; otherwise it keeps what is checked. */
  lemma FreezeChecked(c: Context, s: State, pairs: Pairs, u: Node, ms: seq<Move>, k: Class)
    requires Checked(c, s, pairs, k) && u in s.freeze && IsOrderOf(ms, s.moves[u])
    ensures ms != [] && c.src(ms[|ms| - 1]) in s.tempMap && c.dst(ms[|ms| - 1]) in s.tempMap
    ensures var o := Freeze(c, s, u, ms);
      && (o.Raised? <==> IsIdentity(c, s, ms[|ms| - 1]))
      && (o.Ok? ==> Checked(c, o.s, pairs, k) && o.s.Linked() < s.Linked())
  {
    ThawReady(c, s, pairs, u, ms, k);
    hide Shaped, MovesLinked, MovesPlaced, Meaning, StackPassed, WaitingPass, SpillFails, FreezeMoves, Thaw, Almost, SameClass;
    FreezeKeeps(c, s, pairs, u, ms);
    FreezeMovesChecked(c, Thaw(s, u), pairs, u, ms, k);
  }

  /** Taking the node off its worklist leaves what giving up its moves needs. */
  lemma ThawReady(c: Context, s: State, pairs: Pairs, u: Node, ms: seq<Move>, k: Class)
    requires Checked(c, s, pairs, k) && u in s.freeze && IsOrderOf(ms, s.moves[u])
    ensures Shaped(s) && MovesLinked(c, s) && ms != []
    ensures var p := Thaw(s, u);
      && Almost(c, p, pairs, {}, {u}) && SameClass(c.t, p, k) && SpillFails(c.t, p)
      && u in p.simplify && u in p.moves && p.moves[u] == s.moves[u] && p.tempMap == s.tempMap
      && p.Linked() == s.Linked() && p.precolored == s.precolored
    ensures forall m :: m in ms ==> c.src(m) in s.tempMap && c.dst(m) in s.tempMap
  {
    assert LinkedAt(c, s, u) && MoveRelated(s, u);
    FrozenHasMoves(c, s, u, ms);
    hide MovesLinked, MovesPlaced, Meaning, StackPassed, WaitingPass, Almost, LinkedAt;
    ThawKeeps(c, s, pairs, u, {}, {});
    ThawShaped(s, u);
    hide Shaped, SpillFails;
    SameGraphKeepsSpill(c.t, s, Thaw(s, u));
    assert {} + {u} == {u};
  }

  lemma FrozenHasMoves(c: Context, s: State, u: Node, ms: seq<Move>)
    requires Shaped(s) && KnowsMoves(c, s) && u in s.graph.adj && LinkedAt(c, s, u) && MoveRelated(s, u) && IsOrderOf(ms, s.moves[u])
    ensures ms != [] && forall m :: m in ms ==> c.src(m) in s.tempMap && c.dst(m) in s.tempMap
  {
    var m :| m in s.moves[u];
    assert m in ms;
  }
}
