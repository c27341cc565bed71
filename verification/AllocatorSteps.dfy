/**
  The steps of iterated register coalescing, and the invariant that every one
  of them keeps.
 */
module AllocatorSteps {
  import opened MachineCode
  import opened Graphs
  import opened PqTest
  import opened Coalescing
  import opened ColoringInvariant
  import opened MovesInvariant
  import opened MeaningInvariant

  /** A step may raise: an element that should be on a worklist is not. */
  datatype Outcome = Ok(s: State) | Raised

  /** The invariant, up to the nodes whose place on a worklist is being updated. */
  ghost predicate Almost(c: Context, s: State, pairs: Pairs, frozen: set<Node>, simplified: set<Node>) {
    && c.t.Sensible()
    && Shaped(s)
    && StackPassed(c.t, s)
    && WaitingPass(c.t, s, {})
    && MovesLinked(c, s)
    && MovesPlaced(s, frozen, simplified)
    && Meaning(c, s, pairs, {})
  }

  ghost predicate Good(c: Context, s: State, pairs: Pairs) {
    Almost(c, s, pairs, {}, {})
  }

  /** ----- simplify ----- */

  ghost function Simplify(t: Target, s: State, n: Node): State
    requires Shaped(s) && n in s.simplify
  {
    PushShaped(s, n);
    var p := Push(s, n);
    Promote(t, p, p.graph.Adjacent(n))
  }

  lemma PromoteKeeps(c: Context, s: State, pairs: Pairs, ns: set<Node>, frozen: set<Node>, simplified: set<Node>)
    requires Almost(c, s, pairs, frozen, simplified) && ns <= s.graph.nodes
    ensures Almost(c, Promote(c.t, s, ns), pairs, frozen, simplified)
    ensures Promote(c.t, s, ns).AllMoves() == s.AllMoves() && Promote(c.t, s, ns).Linked() == s.Linked()
  {
    var p := Promote(c.t, s, ns);
    PromoteShaped(c.t, s, ns);
    SameGraphKeeps(c.t, s, p);
    PromoteKeepsWaiting(c.t, s, ns, {});
    PromoteLinked(c.t, c, s, ns);
    PromotePlaced(c.t, s, ns, frozen, simplified);
    SameNodesKeepMeaning(c, s, p, pairs, {});
  }

  lemma SimplifyKeeps(c: Context, s: State, pairs: Pairs, n: Node)
    requires Good(c, s, pairs) && n in s.simplify
    ensures Good(c, Simplify(c.t, s, n), pairs)
    ensures Simplify(c.t, s, n).AllMoves() == s.AllMoves() && Simplify(c.t, s, n).Linked() == s.Linked()
  {
    var p := Push(s, n);
    PushShaped(s, n);
    assert Colorable(c.t, s, n);
    PushKeepsStack(c.t, s, n);
    PushKeepsMoves(c, s, n);
    forall x | x in p.simplify + p.freeze
      ensures Colorable(c.t, p, x)
    {
      PushKeepsColorable(c.t, s, n, x);
    }
    SameNodesKeepMeaning(c, s, p, pairs, {});
    PromoteKeeps(c, p, pairs, p.graph.Adjacent(n), {}, {});
  }

  /** ----- add_worklist, also the tail of freeze ----- */

  ghost predicate WantsThaw(t: Target, s: State, u: Node)
    requires Shaped(s) && u in s.graph.adj
  {
    u !in s.precolored && !MoveRelated(s, u) && Colorable(t, s, u)
  }

  ghost function AddWorklist(t: Target, s: State, u: Node): Outcome
    requires Shaped(s) && u in s.graph.adj
  {
    if !WantsThaw(t, s, u) then Ok(s)
    else if u in s.freeze then Ok(Thaw(s, u))
    else Raised
  }

  lemma ThawKeeps(c: Context, s: State, pairs: Pairs, u: Node, frozen: set<Node>, simplified: set<Node>)
    requires Almost(c, s, pairs, frozen, simplified) && u in s.freeze
    ensures Almost(c, Thaw(s, u), pairs, frozen, if MoveRelated(s, u) then simplified + {u} else simplified)
    ensures Thaw(s, u).AllMoves() == s.AllMoves() && Thaw(s, u).Linked() == s.Linked()
  {
    hide Meaning, MovesLinked, StackPassed;
    var p := Thaw(s, u);
    ThawShaped(s, u);
    FewerWaiting(c.t, s, p);
    SameMovesKeepLinked(c, s, p);
    SameNodesKeepMeaning(c, s, p, pairs, {});
  }

  lemma AddWorklistKeeps(c: Context, s: State, pairs: Pairs, u: Node, frozen: set<Node>, simplified: set<Node>)
    requires Almost(c, s, pairs, frozen, simplified) && u in s.graph.adj
    ensures var o := AddWorklist(c.t, s, u);
      o.Ok? ==>
        && Almost(c, o.s, pairs, frozen - {u}, simplified)
        && o.s.AllMoves() == s.AllMoves() && o.s.Linked() == s.Linked() && o.s.graph == s.graph
  {
    if WantsThaw(c.t, s, u) && u in s.freeze {
      ThawKeeps(c, s, pairs, u, frozen, simplified);
    } else {
      assert u in s.freeze ==> Colorable(c.t, s, u);
    }
  }

  /** ----- coalesc ----- */

  /** The two nodes of a move; a precoloured one comes first. */
  function Couple(c: Context, s: State, m: Move): (Node, Node)
    requires c.src(m) in s.tempMap && c.dst(m) in s.tempMap
  {
    var x, y := s.tempMap[c.dst(m)], s.tempMap[c.src(m)];
    if y in s.precolored then (y, x) else (x, y)
  }

  ghost predicate OkWith(t: Target, s: State, x: Node, u: Node)
    requires Shaped(s) && x in s.graph.adj && u in s.graph.adj
  {
    x in s.precolored || Colorable(t, s, x) || HasEdge(t, s, x, u)
  }

  predicate Comparable(t: Target, a: Class, b: Class) {
    t.sub(a, b) || t.sub(b, a)
  }

  function CommonClass(t: Target, a: Class, b: Class): Class
    requires Comparable(t, a, b)
  {
    if t.sub(a, b) then a else b
  }

  /** Briggs' test: few neighbours of the combined node are not colourable themselves. */
  ghost predicate Conservative(t: Target, s: State, u: Node, v: Node)
    requires Shaped(s) && u in s.graph.adj && v in s.graph.adj && Comparable(t, s.cls[u], s.cls[v])
  {
    var b := CommonClass(t, s.cls[u], s.cls[v]);
    var hard := set n | n in s.graph.Adjacent(u) + s.graph.Adjacent(v) && !Colorable(t, s, n);
    Blocked(t, s.cls, b, hard) < |t.regs(b)|
  }

  ghost predicate ShouldCombine(t: Target, s: State, u: Node, v: Node)
    requires Shaped(s) && u in s.graph.adj && v in s.graph.adj
  {
    if u in s.precolored then
      t.sub(s.cls[u], s.cls[v]) && forall x :: x in s.graph.Adjacent(v) ==> OkWith(t, s, x, u)
    else
      Comparable(t, s.cls[u], s.cls[v]) && Conservative(t, s, u, v)
  }

  /** After the merge: promote the neighbours, and see whether the combined node still passes. */
  ghost function Settle(t: Target, s: State, u: Node): State
    requires Shaped(s) && u in s.graph.adj
  {
    PromoteShaped(t, s, s.graph.Adjacent(u));
    var p := Promote(t, s, s.graph.Adjacent(u));
    if !Colorable(t, p, u) && u in p.freeze then Demote(p, u) else p
  }

  /** `combine(u, v)` once the move is unlinked. */
  ghost function CombineNodes(t: Target, s: State, u: Node, v: Node): State
    requires Shaped(s) && u != v && u in s.graph.nodes && v in s.freeze + s.spill
    requires Comparable(t, s.cls[u], s.cls[v])
  {
    var k := CommonClass(t, s.cls[u], s.cls[v]);
    MergeShaped(s, u, v, k);
    Settle(t, Merge(s, u, v, k), u)
  }

  lemma CombineNodesShaped(t: Target, s: State, u: Node, v: Node)
    requires Shaped(s) && u != v && u in s.graph.nodes && v in s.freeze + s.spill
    requires Comparable(t, s.cls[u], s.cls[v])
    ensures Shaped(CombineNodes(t, s, u, v)) && u in CombineNodes(t, s, u, v).graph.adj
  {
    var k := CommonClass(t, s.cls[u], s.cls[v]);
    MergeShaped(s, u, v, k);
    var p := Merge(s, u, v, k);
    PromoteShaped(t, p, p.graph.Adjacent(u));
    var q := Promote(t, p, p.graph.Adjacent(u));
    hide Shaped;
    if u in q.freeze {
      DemoteShaped(q, u);
    }
  }

  ghost function Coalesce(c: Context, s: State, m: Move): Outcome
    requires c.t.Sensible() && Shaped(s) && MovesLinked(c, s) && MovesPlaced(s, {}, {}) && m in s.worklist
  {
    var (u, v) := Couple(c, s, m);
    EndsOnGraph(c, s, m, u);
    EndsOnGraph(c, s, m, v);
    if u == v then
      RetireShaped(c, s, m, AsCoalesced);
      AddWorklist(c.t, Retire(c, s, m, AsCoalesced), u)
    else if v in s.precolored || HasEdge(c.t, s, u, v) then
      RetireShaped(c, s, m, AsConstrained);
      var o := AddWorklist(c.t, Retire(c, s, m, AsConstrained), u);
      if o.Raised? then Raised else
      assert Shaped(o.s) by {
        if u in s.freeze {
          ThawShaped(Retire(c, s, m, AsConstrained), u);
        }
      }
      AddWorklist(c.t, o.s, v)
    else if u !in s.precolored && !Comparable(c.t, s.cls[u], s.cls[v]) then
      Raised
    else if ShouldCombine(c.t, s, u, v) then
      RetireShaped(c, s, m, AsCoalesced);
      var p := Retire(c, s, m, AsCoalesced);
      CombineNodesShaped(c.t, p, u, v);
      AddWorklist(c.t, CombineNodes(c.t, p, u, v), u)
    else
      Ok(Activate(s, m))
  }

  lemma RetireKeeps(c: Context, s: State, pairs: Pairs, m: Move, kind: Retirement, frozen: set<Node>, simplified: set<Node>)
    requires Almost(c, s, pairs, frozen, simplified) && m in s.Linked()
    requires kind == AsCoalesced ==> s.tempMap[c.src(m)] == s.tempMap[c.dst(m)]
    ensures var p := Retire(c, s, m, kind);
      && Almost(c, p, pairs, frozen + {s.tempMap[c.src(m)], s.tempMap[c.dst(m)]}, simplified)
      && p.AllMoves() == s.AllMoves() && p.Linked() == s.Linked() - {m}
  {
    var p := Retire(c, s, m, kind);
    RetireLinked(c, s, m, kind);
    RetirePlaced(c, s, m, kind, frozen, simplified);
    FewerWaiting(c.t, s, p);
    SameNodesKeepMeaning(c, s, p.(coalesced := s.coalesced), pairs, {});
    assert Meaning(c, p, pairs, {});
  }

  /** Both ends of a move that is finished with may become ready for simplification. */
  lemma BothAddedKeep(c: Context, s: State, pairs: Pairs, u: Node, v: Node)
    requires Almost(c, s, pairs, {u, v}, {}) && u in s.graph.adj && v in s.graph.adj
    ensures var o := AddWorklist(c.t, s, u);
      o.Ok? ==> Shaped(o.s) && v in o.s.graph.adj && var o' := AddWorklist(c.t, o.s, v);
        o'.Ok? ==> Good(c, o'.s, pairs) && o'.s.AllMoves() == s.AllMoves() && o'.s.Linked() == s.Linked() && o'.s.graph == s.graph
  {
    assert Shaped(s);
    AddWorklistKeeps(c, s, pairs, u, {u, v}, {});
    var o := AddWorklist(c.t, s, u);
    if o.Ok? {
      assert Shaped(o.s);
      hide Shaped, StackPassed, WaitingPass, MovesLinked, MovesPlaced, Meaning, AddWorklist, Almost;
      AddWorklistKeeps(c, o.s, pairs, v, {u, v} - {u}, {});
      assert {u, v} - {u} - {v} == {};
    }
  }

  lemma ConstrainKeeps(c: Context, s: State, pairs: Pairs, m: Move)
    requires Good(c, s, pairs) && m in s.worklist
    ensures c.src(m) in s.tempMap && c.dst(m) in s.tempMap && Shaped(Retire(c, s, m, AsConstrained))
    ensures var (u, v) := Couple(c, s, m);
      u in s.graph.adj && v in s.graph.adj && Retire(c, s, m, AsConstrained).graph == s.graph
    ensures var (u, v) := Couple(c, s, m);
      var o := AddWorklist(c.t, Retire(c, s, m, AsConstrained), u);
      o.Ok? ==> Shaped(o.s) && v in o.s.graph.adj && var o' := AddWorklist(c.t, o.s, v);
        o'.Ok? ==> Handled(c, s, pairs, m, o'.s)
  {
    var (u, v) := Couple(c, s, m);
    hide StackPassed, WaitingPass, MovesLinked, MovesPlaced, Meaning, AddWorklist;
    RetireKeeps(c, s, pairs, m, AsConstrained, {}, {});
    assert {} + {s.tempMap[c.src(m)], s.tempMap[c.dst(m)]} == {u, v};
    BothAddedKeep(c, Retire(c, s, m, AsConstrained), pairs, u, v);
  }

  /** Two nodes that may be combined can be merged. */
  lemma CombineIsMergeable(c: Context, s: State, m: Move, u: Node, v: Node)
    requires c.t.Sensible() && Shaped(s) && c.src(m) in s.tempMap && c.dst(m) in s.tempMap
    requires u != v && u in s.graph.nodes && v in s.freeze + s.spill && !HasEdge(c.t, s, u, v)
    requires Comparable(c.t, s.cls[u], s.cls[v]) && (u in s.precolored ==> c.t.sub(s.cls[u], s.cls[v]))
    ensures var s1 := Retire(c, s, m, AsCoalesced);
      Shaped(s1) && Mergeable(c.t, s1, u, v, CommonClass(c.t, s.cls[u], s.cls[v]))
  {
    RetireShaped(c, s, m, AsCoalesced);
  }

  /** The merge itself, up to the place of the combined node on the worklists. */
  ghost predicate Combined(c: Context, s: State, pairs: Pairs, u: Node) {
    && c.t.Sensible()
    && Shaped(s)
    && StackPassed(c.t, s)
    && WaitingPass(c.t, s, {u})
    && MovesLinked(c, s)
    && MovesPlaced(s, {u}, {})
    && Meaning(c, s, pairs, {})
    && u in s.graph.nodes && u !in s.simplify
  }

  /** Ready to merge: the move is retired, its nodes are about to become one. */
  ghost predicate Ready(c: Context, s: State, pairs: Pairs, m: Move, u: Node, v: Node, k: Class) {
    && c.t.Sensible()
    && Shaped(s)
    && StackPassed(c.t, s)
    && WaitingPass(c.t, s, {})
    && MovesLinked(c, s)
    && MovesPlaced(s, {u, v}, {})
    && Meaning(c, s, pairs, {m})
    && Mergeable(c.t, s, u, v, k)
    && u !in s.simplify
    && c.src(m) in s.tempMap && c.dst(m) in s.tempMap
    && {s.tempMap[c.src(m)], s.tempMap[c.dst(m)]} == {u, v}
  }

  lemma RetireReady(c: Context, s: State, pairs: Pairs, m: Move, u: Node, v: Node)
    requires Good(c, s, pairs) && m in s.Linked()
    requires {s.tempMap[c.src(m)], s.tempMap[c.dst(m)]} == {u, v}
    requires u != v && u in s.graph.nodes && u !in s.simplify && v in s.freeze + s.spill && !HasEdge(c.t, s, u, v)
    requires Comparable(c.t, s.cls[u], s.cls[v]) && (u in s.precolored ==> c.t.sub(s.cls[u], s.cls[v]))
    ensures var s1 := Retire(c, s, m, AsCoalesced);
      && Ready(c, s1, pairs, m, u, v, CommonClass(c.t, s.cls[u], s.cls[v]))
      && s1.AllMoves() == s.AllMoves() && s1.Linked() == s.Linked() - {m} && s1.graph == s.graph
  {
    hide Shaped, StackPassed, WaitingPass, MovesLinked, MovesPlaced, Meaning, Mergeable, HasEdge, Comparable, State.Linked, State.AllMoves;
    LinkedEnds(c, s, m);
    var s1 := Retire(c, s, m, AsCoalesced);
    CombineIsMergeable(c, s, m, u, v);
    RetireLinked(c, s, m, AsCoalesced);
    RetirePlaced(c, s, m, AsCoalesced, {}, {});
    assert {} + {s.tempMap[c.src(m)], s.tempMap[c.dst(m)]} == {u, v};
    FewerWaiting(c.t, s, s1);
    RetireMeaning(c, s, pairs, m);
  }

  lemma LinkedEnds(c: Context, s: State, m: Move)
    requires Shaped(s) && MovesLinked(c, s) && m in s.Linked()
    ensures c.src(m) in s.tempMap && c.dst(m) in s.tempMap
  {
  }

  lemma RetireMeaning(c: Context, s: State, pairs: Pairs, m: Move)
    requires Shaped(s) && Meaning(c, s, pairs, {}) && c.src(m) in s.tempMap && c.dst(m) in s.tempMap
    ensures Shaped(Retire(c, s, m, AsCoalesced)) && Meaning(c, Retire(c, s, m, AsCoalesced), pairs, {m})
  {
    RetireShaped(c, s, m, AsCoalesced);
  }

  lemma MergeCombined(c: Context, s: State, pairs: Pairs, m: Move, u: Node, v: Node, k: Class)
    requires Ready(c, s, pairs, m, u, v, k)
    ensures var p := Merge(s, u, v, k);
      Combined(c, p, pairs, u) && p.AllMoves() == s.AllMoves() && p.Linked() == s.Linked() && p.graph.nodes == s.graph.nodes - {v}
  {
    hide Meaning, MovesLinked, MovesPlaced, StackPassed, WaitingPass;
    var p := Merge(s, u, v, k);
    MergeKeepsMeaning(c, s, u, v, k, pairs, m);
    MergeLinked(c, s, u, v, k);
    PlacedAround(s, u, v, k);
    MergeKeepsStack(c.t, s, u, v, k);
    MergeKeepsWaiting(c.t, s, u, v, k);
  }

  /** The node that is gone need not be excepted any more. */
  lemma PlacedAround(s: State, u: Node, v: Node, k: Class)
    requires Shaped(s) && u != v && u in s.graph.nodes - s.simplify && v in s.freeze + s.spill && MovesPlaced(s, {u, v}, {})
    ensures var p := Merge(s, u, v, k); Shaped(p) && MovesPlaced(p, {u}, {})
  {
    MergePlaced(s, u, v, k, {u, v});
    assert {u, v} + {u} == {u, v};
  }

  lemma SettleKeeps(c: Context, s: State, pairs: Pairs, u: Node)
    requires Combined(c, s, pairs, u)
    ensures u in s.graph.adj
    ensures var p := Settle(c.t, s, u);
        Almost(c, p, pairs, {u}, {}) && p.AllMoves() == s.AllMoves() && p.Linked() == s.Linked() && p.graph == s.graph
  {
    var p := Promote(c.t, s, s.graph.Adjacent(u));
    PromoteShaped(c.t, s, s.graph.Adjacent(u));
    SameGraphKeeps(c.t, s, p);
    PromoteKeepsWaiting(c.t, s, s.graph.Adjacent(u), {u});
    PromoteLinked(c.t, c, s, s.graph.Adjacent(u));
    PromotePlaced(c.t, s, s.graph.Adjacent(u), {u}, {});
    SameNodesKeepMeaning(c, s, p, pairs, {});
    hide Promote;
    if !Colorable(c.t, p, u) && u in p.freeze {
      DemoteKeeps(c, p, pairs, u);
    }
  }

  lemma DemoteKeeps(c: Context, s: State, pairs: Pairs, u: Node)
    requires Combined(c, s, pairs, u) && u in s.freeze
    ensures var q := Demote(s, u);
      Almost(c, q, pairs, {u}, {}) && q.AllMoves() == s.AllMoves() && q.Linked() == s.Linked()
  {
    var q := Demote(s, u);
    DemoteKeepsWaiting(c.t, s, u);
    DemotePlaced(s, u);
    SameMovesKeepLinked(c, s, q);
    SameNodesKeepMeaning(c, s, q, pairs, {});
    hide Meaning, MovesLinked, StackPassed, WaitingPass, MovesPlaced, Shaped;
  }

  lemma CombineNodesKeep(c: Context, s: State, pairs: Pairs, m: Move, u: Node, v: Node)
    requires u in s.cls && v in s.cls && Comparable(c.t, s.cls[u], s.cls[v])
    requires Ready(c, s, pairs, m, u, v, CommonClass(c.t, s.cls[u], s.cls[v]))
    ensures var p := CombineNodes(c.t, s, u, v);
      && Almost(c, p, pairs, {u}, {}) && u in p.graph.adj && p.AllMoves() == s.AllMoves()
      && p.Linked() == s.Linked() && p.graph.nodes == s.graph.nodes - {v}
  {
    var k := CommonClass(c.t, s.cls[u], s.cls[v]);
    MergeCombined(c, s, pairs, m, u, v, k);
    SettleKeeps(c, Merge(s, u, v, k), pairs, u);
  }

  lemma CombineKeeps(c: Context, s: State, pairs: Pairs, m: Move, u: Node, v: Node)
    requires Good(c, s, pairs) && m in s.Linked()
    requires {s.tempMap[c.src(m)], s.tempMap[c.dst(m)]} == {u, v}
    requires u != v && u in s.graph.nodes && u !in s.simplify && v in s.freeze + s.spill && !HasEdge(c.t, s, u, v)
    requires Comparable(c.t, s.cls[u], s.cls[v]) && (u in s.precolored ==> c.t.sub(s.cls[u], s.cls[v]))
    ensures var p := Retire(c, s, m, AsCoalesced);
      && Shaped(p) && Shaped(CombineNodes(c.t, p, u, v)) && u in CombineNodes(c.t, p, u, v).graph.adj
      && var o := AddWorklist(c.t, CombineNodes(c.t, p, u, v), u);
        o.Ok? ==> Handled(c, s, pairs, m, o.s)
  {
    var p := Retire(c, s, m, AsCoalesced);
    RetireReady(c, s, pairs, m, u, v);
    CombineNodesKeep(c, p, pairs, m, u, v);
    AddWorklistKeeps(c, CombineNodes(c.t, p, u, v), pairs, u, {u}, {});
    assert {u} - {u} == {};
  }

  /** Where the coalescing test finds the ends of a pending move. */
  lemma CoupleEnds(c: Context, s: State, pairs: Pairs, m: Move)
    requires Good(c, s, pairs) && m in s.Linked()
    ensures var (u, v) := Couple(c, s, m);
      && {s.tempMap[c.src(m)], s.tempMap[c.dst(m)]} == {u, v}
      && u in s.precolored + s.freeze + s.spill && v in s.precolored + s.freeze + s.spill
      && u in s.graph.nodes && v in s.graph.nodes && u !in s.simplify
      && (u == v ==> s.tempMap[c.src(m)] == s.tempMap[c.dst(m)] == u)
  {
    var (u, v) := Couple(c, s, m);
    EndsOnGraph(c, s, m, u);
    EndsOnGraph(c, s, m, v);
  }

  /** The invariant is kept, and the move is finished with or parked. */
  ghost predicate Handled(c: Context, s: State, pairs: Pairs, m: Move, p: State) {
    && Good(c, p, pairs) && p.AllMoves() == s.AllMoves() && p.graph.nodes <= s.graph.nodes
    && (p.Linked() == s.Linked() - {m}
        || (p.graph.nodes == s.graph.nodes && p.Linked() == s.Linked() && p.worklist == s.worklist - {m}))
  }

  lemma IdentityKeeps(c: Context, s: State, pairs: Pairs, m: Move, u: Node)
    requires Good(c, s, pairs) && m in s.Linked() && u in s.graph.adj
    requires s.tempMap[c.src(m)] == s.tempMap[c.dst(m)] == u
    ensures Shaped(Retire(c, s, m, AsCoalesced))
    ensures var o := AddWorklist(c.t, Retire(c, s, m, AsCoalesced), u); o.Ok? ==> Handled(c, s, pairs, m, o.s)
  {
    RetireKeeps(c, s, pairs, m, AsCoalesced, {}, {});
    AddWorklistKeeps(c, Retire(c, s, m, AsCoalesced), pairs, u, {u}, {});
    assert {} + {u, u} == {u} && {u} - {u} == {};
  }

  /** The step after popping a move keeps the invariant, and either finishes with the move or parks it. */
  lemma CoalesceKeeps(c: Context, s: State, pairs: Pairs, m: Move)
    requires Good(c, s, pairs) && m in s.worklist
    ensures var o := Coalesce(c, s, m); o.Ok? ==> Handled(c, s, pairs, m, o.s)
  {
    var (u, v) := Couple(c, s, m);
    CoupleEnds(c, s, pairs, m);
    hide Shaped, MovesLinked, MovesPlaced, Meaning, StackPassed, WaitingPass, HasEdge, CombineNodes, AddWorklist, ShouldCombine;
    hide Handled, Retire;
    if u == v {
      IdentityKeeps(c, s, pairs, m, u);
    } else if v in s.precolored || HasEdge(c.t, s, u, v) {
      ConstrainKeeps(c, s, pairs, m);
    } else if u !in s.precolored && !Comparable(c.t, s.cls[u], s.cls[v]) {
    } else if ShouldCombine(c.t, s, u, v) {
      ShouldIsComparable(c.t, s, u, v);
      CombineKeeps(c, s, pairs, m, u, v);
    } else {
      ParkKeeps(c, s, pairs, m);
    }
  }

  lemma ShouldIsComparable(t: Target, s: State, u: Node, v: Node)
    requires Shaped(s) && u in s.graph.adj && v in s.graph.adj && ShouldCombine(t, s, u, v)
    ensures Comparable(t, s.cls[u], s.cls[v]) && (u in s.precolored ==> t.sub(s.cls[u], s.cls[v]))
  {
  }

  lemma ParkKeeps(c: Context, s: State, pairs: Pairs, m: Move)
    requires Good(c, s, pairs) && m in s.worklist
    ensures Handled(c, s, pairs, m, Activate(s, m))
  {
    var p := Activate(s, m);
    ActivateKeeps(c, s, m);
    FewerWaiting(c.t, s, p);
    SameNodesKeepMeaning(c, s, p, pairs, {});
  }

  /** ----- freeze ----- */

  function OtherEnd(c: Context, s: State, m: Move, u: Node): Node
    requires c.src(m) in s.tempMap && c.dst(m) in s.tempMap
  {
    if s.tempMap[c.dst(m)] == u then s.tempMap[c.src(m)] else s.tempMap[c.dst(m)]
  }

  /** Give up one move of `u`; its other end may become ready for simplification. */
  ghost function FreezeMove(c: Context, s: State, u: Node, m: Move): Outcome
    requires Shaped(s) && c.src(m) in s.tempMap && c.dst(m) in s.tempMap
  {
    RetireShaped(c, s, m, AsFrozen);
    AddWorklist(c.t, Retire(c, s, m, AsFrozen), OtherEnd(c, s, m, u))
  }

  /** Give up the moves of `u` in this order. */
  ghost function FreezeMoves(c: Context, s: State, u: Node, ms: seq<Move>): Outcome
    requires Shaped(s) && forall m :: m in ms ==> c.src(m) in s.tempMap && c.dst(m) in s.tempMap
    decreases |ms|
  {
    if ms == [] then Ok(s) else
      var o := FreezeMove(c, s, u, ms[0]);
      if o.Raised? then Raised else
      FreezeMoveShaped(c, s, u, ms[0]);
      FreezeMoves(c, o.s, u, ms[1..])
  }

  lemma FreezeMoveShaped(c: Context, s: State, u: Node, m: Move)
    requires Shaped(s) && c.src(m) in s.tempMap && c.dst(m) in s.tempMap
    ensures var o := FreezeMove(c, s, u, m); o.Ok? ==> Shaped(o.s) && o.s.tempMap == s.tempMap
  {
    hide Shaped, Retire, AddWorklist;
    RetireShaped(c, s, m, AsFrozen);
    RetireKeepsNodes(c, s, m, AsFrozen, u);
    AddWorklistShaped(c.t, Retire(c, s, m, AsFrozen), OtherEnd(c, s, m, u));
  }

  lemma RetireKeepsNodes(c: Context, s: State, m: Move, kind: Retirement, u: Node)
    requires Shaped(s) && c.src(m) in s.tempMap && c.dst(m) in s.tempMap
    ensures Retire(c, s, m, kind).tempMap == s.tempMap && OtherEnd(c, s, m, u) in Retire(c, s, m, kind).graph.adj
  {
  }

  lemma AddWorklistShaped(t: Target, s: State, u: Node)
    requires Shaped(s) && u in s.graph.adj
    ensures var o := AddWorklist(t, s, u); o.Ok? ==>
        Shaped(o.s) && o.s.graph == s.graph && o.s.tempMap == s.tempMap && o.s.moves == s.moves && o.s.freeze <= s.freeze
  {
    if u in s.freeze {
      ThawShaped(s, u);
    }
  }

  lemma NoMovesLeft(c: Context, s: State, u: Node)
    requires Shaped(s)
    ensures FreezeMoves(c, s, u, []) == Ok(s)
  {
  }

  /** Giving up moves starts with the first one. */
  lemma FreezeMovesNext(c: Context, s: State, u: Node, ms: seq<Move>)
    requires Shaped(s) && ms != [] && forall m :: m in ms ==> c.src(m) in s.tempMap && c.dst(m) in s.tempMap
    ensures var o := FreezeMove(c, s, u, ms[0]);
      && (o.Raised? ==> FreezeMoves(c, s, u, ms) == Raised)
      && (o.Ok? ==> Shaped(o.s) && o.s.tempMap == s.tempMap && FreezeMoves(c, s, u, ms) == FreezeMoves(c, o.s, u, ms[1..]))
  {
    hide Shaped, FreezeMove;
    FreezeMoveShaped(c, s, u, ms[0]);
  }

  /** The order of the moves is one of the orders of a set. */
  ghost predicate IsOrderOf(ms: seq<Move>, s: set<Move>) {
    && (forall m :: m in ms <==> m in s)
    && (forall i, j :: 0 <= i < j < |ms| ==> ms[i] != ms[j])
  }

  ghost function Freeze(c: Context, s: State, u: Node, ms: seq<Move>): Outcome
    requires Shaped(s) && MovesLinked(c, s) && u in s.freeze && IsOrderOf(ms, s.moves[u])
  {
    ThawShaped(s, u);
    assert LinkedAt(c, s, u);
    FreezeMoves(c, Thaw(s, u), u, ms)
  }

  lemma FreezeMoveKeeps(c: Context, s: State, pairs: Pairs, u: Node, m: Move)
    requires Almost(c, s, pairs, {}, {u}) && u in s.graph.adj && m in s.moves[u] && u !in s.freeze
    ensures m in s.Linked()
    ensures var o := FreezeMove(c, s, u, m);
      o.Ok? ==>
        && Almost(c, o.s, pairs, {}, {u}) && o.s.AllMoves() == s.AllMoves() && o.s.Linked() == s.Linked() - {m}
        && o.s.graph == s.graph && u !in o.s.freeze && o.s.moves[u] == s.moves[u] - {m}
  {
    assert LinkedAt(c, s, u);
    FreezeMoveAt(c, s, u, m);
    hide Meaning, MovesLinked, MovesPlaced, StackPassed, WaitingPass, Almost, Retire, AddWorklist;
    var v := OtherEnd(c, s, m, u);
    RetireKeeps(c, s, pairs, m, AsFrozen, {}, {u});
    var p := Retire(c, s, m, AsFrozen);
    assert {} + {s.tempMap[c.src(m)], s.tempMap[c.dst(m)]} == {u, v} && {u, v} - {v} <= {u};
    RetireKeepsNodes(c, s, m, AsFrozen, u);
    AddWorklistKeeps(c, p, pairs, v, {u, v}, {u});
    hide OtherEnd;
    var o := AddWorklist(c.t, p, v);
    if o.Ok? {
      FrozenSides(c, o.s, pairs, {u, v} - {v}, u);
    }
  }

  /** A node that is not on the freeze worklist need not be left out of it. */
  lemma FrozenSides(c: Context, s: State, pairs: Pairs, frozen: set<Node>, u: Node)
    requires Almost(c, s, pairs, frozen, {u}) && frozen <= {u} && u !in s.freeze
    ensures Almost(c, s, pairs, {}, {u})
  {
  }

  lemma FreezeMoveAt(c: Context, s: State, u: Node, m: Move)
    requires Shaped(s) && KnowsMoves(c, s) && u in s.graph.adj && u !in s.freeze && LinkedAt(c, s, u) && m in s.moves[u]
    ensures m in s.Linked()
    ensures c.src(m) in s.tempMap && c.dst(m) in s.tempMap && u in {s.tempMap[c.src(m)], s.tempMap[c.dst(m)]}
    ensures var o := FreezeMove(c, s, u, m);
      o.Ok? ==> Shaped(o.s) && o.s.graph == s.graph && u !in o.s.freeze && u in o.s.moves && o.s.moves[u] == s.moves[u] - {m}
  {
    hide Shaped, KnowsMoves, LinkedAt, Retire, WantsThaw, State.Linked;
    HasMove(c, s, u, m);
    RetireShaped(c, s, m, AsFrozen);
    RetireAt(c, s, u, m);
    RetireKeepsNodes(c, s, m, AsFrozen, u);
    AddWorklistShaped(c.t, Retire(c, s, m, AsFrozen), OtherEnd(c, s, m, u));
  }

  lemma HasMove(c: Context, s: State, u: Node, m: Move)
    requires Shaped(s) && KnowsMoves(c, s) && u in s.graph.adj && LinkedAt(c, s, u) && m in s.moves[u]
    ensures u in s.moves && m in s.Linked() && c.src(m) in s.tempMap && c.dst(m) in s.tempMap && IsEnd(c, s, m, u)
  {
  }

  lemma RetireAt(c: Context, s: State, u: Node, m: Move)
    requires c.src(m) in s.tempMap && c.dst(m) in s.tempMap && u in s.moves && IsEnd(c, s, m, u)
    ensures var p := Retire(c, s, m, AsFrozen);
      p.graph == s.graph && p.freeze == s.freeze && u in p.moves && p.moves[u] == s.moves[u] - {m}
  {
  }

  lemma AlmostShaped(c: Context, s: State, pairs: Pairs, frozen: set<Node>, simplified: set<Node>)
    requires Almost(c, s, pairs, frozen, simplified)
    ensures Shaped(s) && s.graph.adj.Keys == s.moves.Keys
  {
  }

  /** All moves of `u` are given up. */
  ghost predicate FrozenWell(c: Context, s: State, pairs: Pairs, u: Node, o: Outcome)
    requires u in s.moves
  {
    o.Ok? ==>
      && Good(c, o.s, pairs) && o.s.AllMoves() == s.AllMoves() && o.s.graph == s.graph
      && o.s.Linked() == s.Linked() - s.moves[u]
  }

  lemma {:induction false} FreezeMovesKeep(c: Context, s: State, pairs: Pairs, u: Node, ms: seq<Move>)
    requires Almost(c, s, pairs, {}, {u}) && u in s.graph.adj && u !in s.freeze && IsOrderOf(ms, s.moves[u])
    requires forall m :: m in ms ==> c.src(m) in s.tempMap && c.dst(m) in s.tempMap
    ensures u in s.moves && Shaped(s)
    ensures FrozenWell(c, s, pairs, u, FreezeMoves(c, s, u, ms))
    decreases |ms|
  {
    hide Shaped, MovesLinked, MovesPlaced, Meaning, StackPassed, WaitingPass, FreezeMove, FreezeMoves, Retire, Almost, Good;
    AlmostShaped(c, s, pairs, {}, {u});
    if ms == [] {
      NothingToFreeze(c, s, pairs, u);
      NoMovesLeft(c, s, u);
    } else {
      FirstFrozen(c, s, pairs, u, ms);
      var o := FreezeMove(c, s, u, ms[0]);
      if o.Ok? {
        FreezeMovesKeep(c, o.s, pairs, u, ms[1..]);
      }
    }
  }

  /** Giving up the first move leaves what giving up the others needs. */
  lemma FirstFrozen(c: Context, s: State, pairs: Pairs, u: Node, ms: seq<Move>)
    requires Almost(c, s, pairs, {}, {u}) && u in s.graph.adj && u !in s.freeze && IsOrderOf(ms, s.moves[u]) && ms != []
    requires forall m :: m in ms ==> c.src(m) in s.tempMap && c.dst(m) in s.tempMap
    ensures var o := FreezeMove(c, s, u, ms[0]);
      && (o.Raised? ==> FreezeMoves(c, s, u, ms) == Raised)
      && (o.Ok? ==>
            && Almost(c, o.s, pairs, {}, {u}) && u in o.s.graph.adj && u !in o.s.freeze && u in o.s.moves && IsOrderOf(ms[1..], o.s.moves[u])
            && o.s.tempMap == s.tempMap && FreezeMoves(c, s, u, ms) == FreezeMoves(c, o.s, u, ms[1..])
            && o.s.AllMoves() == s.AllMoves() && o.s.graph == s.graph && o.s.Linked() == s.Linked() - {ms[0]}
            && o.s.moves[u] == s.moves[u] - {ms[0]})
  {
    AlmostShaped(c, s, pairs, {}, {u});
    hide Shaped, MovesLinked, MovesPlaced, Meaning, StackPassed, WaitingPass, FreezeMove, FreezeMoves, Retire, Almost;
    FreezeMoveKeeps(c, s, pairs, u, ms[0]);
    FreezeMovesNext(c, s, u, ms);
    OrderTail(ms, s.moves[u]);
  }

  lemma NothingToFreeze(c: Context, s: State, pairs: Pairs, u: Node)
    requires Almost(c, s, pairs, {}, {u}) && u in s.graph.adj && IsOrderOf([], s.moves[u])
    ensures Good(c, s, pairs) && s.Linked() == s.Linked() - s.moves[u]
  {
    hide Meaning, MovesLinked, StackPassed, WaitingPass;
    assert s.moves[u] == {};
  }

  lemma OrderTail(ms: seq<Move>, s: set<Move>)
    requires IsOrderOf(ms, s) && ms != []
    ensures IsOrderOf(ms[1..], s - {ms[0]})
  {
    assert forall m :: m in ms <==> m == ms[0] || m in ms[1..];
  }

  lemma FreezeKeeps(c: Context, s: State, pairs: Pairs, u: Node, ms: seq<Move>)
    requires Good(c, s, pairs) && u in s.freeze && IsOrderOf(ms, s.moves[u])
    ensures var o := Freeze(c, s, u, ms);
      o.Ok? ==>
        && Good(c, o.s, pairs) && o.s.AllMoves() == s.AllMoves() && o.s.graph == s.graph
        && o.s.Linked() < s.Linked()
  {
    assert LinkedAt(c, s, u);
    assert MoveRelated(s, u);
    ThawKeeps(c, s, pairs, u, {}, {});
    assert {} + {u} == {u};
    FreezeMovesKeep(c, Thaw(s, u), pairs, u, ms);
    assert s.Linked() - s.moves[u] < s.Linked() by {
      var m :| m in s.moves[u];
    }
  }
}
