/**
  Why colouring never gets stuck: the nodes that wait for simplification pass
  the pq-test, every node on the select stack passed it when it was pushed, and
  no step of the allocator changes that.
 */
module ColoringInvariant {
  import opened MachineCode
  import opened Graphs
  import opened PqTest
  import opened Coalescing

  /** The neighbours that the `k`-th node of the stack had when it was pushed, as they are now. */
  ghost function Above(s: State, k: nat): set<Node>
    requires Shaped(s) && k < |s.stack|
  {
    s.graph.adj[s.stack[k]] - (set n | n in s.stack[..k])
  }

  ghost predicate PassedAt(t: Target, s: State, k: nat)
    requires Shaped(s) && k < |s.stack|
  {
    OnStack(s, k);
    Blocked(t, s.cls, s.cls[s.stack[k]], Above(s, k)) < |t.regs(s.cls[s.stack[k]])|
  }

  ghost predicate StackPassed(t: Target, s: State)
    requires Shaped(s)
  {
    forall k :: 0 <= k < |s.stack| ==> PassedAt(t, s, k)
  }

  ghost predicate WaitingPass(t: Target, s: State, except: set<Node>)
    requires Shaped(s)
  {
    forall n :: n in s.simplify + s.freeze && n !in except ==> Colorable(t, s, n)
  }

  lemma OnStack(s: State, k: nat)
    requires Shaped(s) && k < |s.stack|
    ensures s.stack[k] in s.graph.masked && s.stack[k] in s.graph.adj
    ensures Above(s, k) <= s.cls.Keys
  {
    assert s.stack[k] in s.Stacked();
  }

  lemma PushKeepsStack(t: Target, s: State, n: Node)
    requires Shaped(s) && n in s.simplify && Colorable(t, s, n)
    requires StackPassed(t, s)
    ensures Shaped(Push(s, n)) && StackPassed(t, Push(s, n))
  {
    PushShaped(s, n);
    var p := Push(s, n);
    forall k | 0 <= k < |p.stack|
      ensures PassedAt(t, p, k)
    {
      if k < |s.stack| {
        assert PassedAt(t, s, k);
        assert p.stack[..k] == s.stack[..k];
      } else {
        assert p.stack[..k] == s.stack;
        assert Above(p, k) == s.graph.Adjacent(n);
      }
    }
  }

  lemma PushKeepsColorable(t: Target, s: State, n: Node, x: Node)
    requires Shaped(s) && n in s.simplify && x in s.graph.adj && Colorable(t, s, x)
    ensures Shaped(Push(s, n)) && Colorable(t, Push(s, n), x)
  {
    PushShaped(s, n);
    if x !in s.precolored {
      BlockedMonotone(t, s.cls, s.cls, s.cls[x], Push(s, n).graph.Adjacent(x), s.graph.Adjacent(x));
    }
  }

  /** What merging does to a set of neighbours of another node. */
  function Merged(a: set<Node>, u: Node, v: Node): set<Node> {
    if v in a then a - {v} + {u} else a
  }

  lemma MergedAdjacent(s: State, u: Node, v: Node, k: Class, x: Node)
    requires Shaped(s) && u != v && u in s.graph.nodes && v in s.freeze + s.spill
    requires x in s.graph.adj && x != u && x != v
    ensures x in Merge(s, u, v, k).graph.adj
    ensures Merge(s, u, v, k).graph.adj[x] == Merged(s.graph.adj[x], u, v)
    ensures Merge(s, u, v, k).graph.Adjacent(x) == Merged(s.graph.Adjacent(x), u, v)
  {
  }

  lemma MergedBlocksNoMore(t: Target, cls: Classes, b: Class, a: set<Node>, u: Node, v: Node, k: Class)
    requires t.Sensible() && a <= cls.Keys && u in cls && v in cls && u != v
    requires t.sub(k, cls[u]) && t.sub(k, cls[v])
    ensures Merged(a, u, v) <= ((cls - {v})[u := k]).Keys
    ensures Blocked(t, (cls - {v})[u := k], b, Merged(a, u, v)) <= Blocked(t, cls, b, a)
  {
    var m := Merged(a, u, v);
    BlockedCombine(t, cls, b, a, u, v, k);
    BlockedMonotone(t, (cls - {v})[u := k], cls[u := k], b, m, m);
  }

  lemma MergeKeepsColorable(t: Target, s: State, u: Node, v: Node, k: Class, x: Node)
    requires t.Sensible()
    requires Shaped(s) && u != v && u in s.graph.nodes && v in s.freeze + s.spill
    requires t.sub(k, s.cls[u]) && t.sub(k, s.cls[v])
    requires x in s.graph.adj && x != u && x != v && Colorable(t, s, x)
    ensures Shaped(Merge(s, u, v, k)) && x in Merge(s, u, v, k).graph.adj && Colorable(t, Merge(s, u, v, k), x)
  {
    MergeShaped(s, u, v, k);
    MergedAdjacent(s, u, v, k, x);
    MergedBlocksNoMore(t, s.cls, s.cls[x], s.graph.Adjacent(x), u, v, k);
  }

  lemma MergeKeepsStack(t: Target, s: State, u: Node, v: Node, k: Class)
    requires t.Sensible()
    requires Shaped(s) && u != v && u in s.graph.nodes && v in s.freeze + s.spill
    requires t.sub(k, s.cls[u]) && t.sub(k, s.cls[v])
    requires StackPassed(t, s)
    ensures Shaped(Merge(s, u, v, k)) && StackPassed(t, Merge(s, u, v, k))
  {
    MergeShaped(s, u, v, k);
    var p := Merge(s, u, v, k);
    forall i | 0 <= i < |p.stack|
      ensures PassedAt(t, p, i)
    {
      assert PassedAt(t, s, i);
      MergeKeepsPassed(t, s, u, v, k, i);
    }
  }

  lemma MergeKeepsPassed(t: Target, s: State, u: Node, v: Node, k: Class, i: nat)
    requires t.Sensible()
    requires Shaped(s) && u != v && u in s.graph.nodes && v in s.freeze + s.spill
    requires t.sub(k, s.cls[u]) && t.sub(k, s.cls[v])
    requires i < |s.stack| && PassedAt(t, s, i)
    ensures Shaped(Merge(s, u, v, k)) && PassedAt(t, Merge(s, u, v, k), i)
  {
    MergeShaped(s, u, v, k);
    var p := Merge(s, u, v, k);
    var x := s.stack[i];
    OnStack(s, i);
    MergedAdjacent(s, u, v, k, x);
    assert u !in s.Stacked() && v !in s.Stacked();
    assert Above(p, i) == Merged(Above(s, i), u, v);
    MergedBlocksNoMore(t, s.cls, s.cls[x], Above(s, i), u, v, k);
  }

  /** Changes to worklists and moves only. */
  ghost predicate SameGraph(s: State, p: State) {
    s.graph == p.graph && s.cls == p.cls && s.precolored == p.precolored && s.stack == p.stack
  }

  lemma SameGraphKeeps(t: Target, s: State, p: State)
    requires Shaped(s) && Shaped(p) && SameGraph(s, p)
    ensures StackPassed(t, s) ==> StackPassed(t, p)
    ensures forall n :: n in s.graph.adj ==> (Colorable(t, s, n) <==> Colorable(t, p, n))
  {
    if StackPassed(t, s) {
      forall k | 0 <= k < |p.stack|
        ensures PassedAt(t, p, k)
      {
        assert PassedAt(t, s, k);
      }
    }
  }

  lemma FewerWaiting(t: Target, s: State, p: State)
    requires Shaped(s) && Shaped(p) && SameGraph(s, p) && WaitingPass(t, s, {}) && StackPassed(t, s)
    requires p.simplify + p.freeze <= s.simplify + s.freeze
    ensures WaitingPass(t, p, {}) && StackPassed(t, p)
  {
    SameGraphKeeps(t, s, p);
    hide Colorable;
    forall n | n in p.simplify + p.freeze
      ensures Colorable(t, p, n)
    {
      assert Colorable(t, s, n);
    }
  }

  /** Promoted nodes pass the test. */
  lemma PromoteKeepsWaiting(t: Target, s: State, ns: set<Node>, except: set<Node>)
    requires Shaped(s) && ns <= s.graph.nodes && WaitingPass(t, s, except)
    ensures Shaped(Promote(t, s, ns)) && WaitingPass(t, Promote(t, s, ns), except)
  {
    PromoteShaped(t, s, ns);
    SameGraphKeeps(t, s, Promote(t, s, ns));
    hide Colorable;
  }

  lemma DemoteKeepsWaiting(t: Target, s: State, u: Node)
    requires Shaped(s) && WaitingPass(t, s, {u}) && StackPassed(t, s) && u in s.freeze
    ensures Shaped(Demote(s, u)) && WaitingPass(t, Demote(s, u), {}) && StackPassed(t, Demote(s, u))
  {
    var p := Demote(s, u);
    DemoteShaped(s, u);
    SameGraphKeeps(t, s, p);
    hide Colorable, StackPassed;
    forall n | n in p.simplify + p.freeze
      ensures Colorable(t, p, n)
    {
      assert Colorable(t, s, n);
    }
  }

  lemma MergeKeepsWaiting(t: Target, s: State, u: Node, v: Node, k: Class)
    requires t.Sensible()
    requires Shaped(s) && u != v && u in s.graph.nodes && v in s.freeze + s.spill
    requires t.sub(k, s.cls[u]) && t.sub(k, s.cls[v])
    requires WaitingPass(t, s, {})
    ensures Shaped(Merge(s, u, v, k)) && WaitingPass(t, Merge(s, u, v, k), {u})
  {
    var p := Merge(s, u, v, k);
    MergeShaped(s, u, v, k);
    hide Colorable;
    forall x | x in p.simplify + p.freeze && x != u
      ensures Colorable(t, p, x)
    {
      assert Colorable(t, s, x);
      assert x != v;
      MergeKeepsColorable(t, s, u, v, k, x);
    }
  }
}
