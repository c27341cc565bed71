/**
  Why two chains of rules between the same non-terminals are a problem: a chain
  rule that was followed at a high cost is not followed again at a lower one.
 */
module BurgTricky {
  import opened Burg
  import opened BurgMarking
  import opened BurgChains
  import opened BurgSelection

  const Leaf := Tree(0, 0, [])

  function Open(name: Name): Tree { Tree(name, 0, []) }

  function Always(): Tree -> bool { (t: Tree) => true }

  /** Non-terminal 2 is reached from 1 directly at cost 10, or through 3 at cost 2; 4 follows from 2. */
  const Tricky := System({0}, [
    Rule(1, Leaf, 0, Always()),
    Rule(2, Open(1), 10, Always()),
    Rule(4, Open(2), 1, Always()),
    Rule(3, Open(1), 1, Always()),
    Rule(2, Open(3), 1, Always()),
    Rule(4, Leaf, 5, Always())])

  /** The same, as facts about a system. */
  ghost predicate IsTricky(s: System) {
    && s.terminals == {0} && |s.rules| == 6
    && s.rules[0] == Rule(1, Leaf, 0, Always()) && s.rules[1] == Rule(2, Open(1), 10, Always())
    && s.rules[2] == Rule(4, Open(2), 1, Always()) && s.rules[3] == Rule(3, Open(1), 1, Always())
    && s.rules[4] == Rule(2, Open(3), 1, Always()) && s.rules[5] == Rule(4, Leaf, 5, Always())
  }

  predicate Rising(s: seq<nat>) {
    forall i, j :: 0 <= i < j < |s| ==> s[i] < s[j]
  }

  /** A rising sequence is known by its members. */
  lemma {:induction false} RisingIsUnique(a: seq<nat>, b: seq<nat>)
    requires Rising(a) && Rising(b) && forall x: nat :: x in a <==> x in b
    ensures a == b
    decreases |a|
  {
    assert a != [] ==> a[0] in a;
    assert b != [] ==> b[0] in b;
    if a != [] && b != [] {
      assert a[0] in b && b[0] in a;
      assert a[0] == b[0];
      forall x: nat
        ensures x in a[1..] <==> x in b[1..]
      {
        assert x in a <==> x == a[0] || x in a[1..];
        assert x in b <==> x == b[0] || x in b[1..];
      }
      RisingIsUnique(a[1..], b[1..]);
    }
  }

  lemma TrickyChains(s: System, n: Name)
    requires IsTricky(s)
    ensures Chains(s, n) == (if n == 1 then [1, 3] else if n == 2 then [2] else if n == 3 then [4] else [])
  {
    var rs := if n == 1 then [1, 3] else if n == 2 then [2] else if n == 3 then [4] else [];
    forall x: nat
      ensures x in rs <==> s.IsChain(x) && s.rules[x].tree.name == n
    {
      assert x < |s.rules| ==> x == 0 || x == 1 || x == 2 || x == 3 || x == 4 || x == 5;
    }
    RisingIsUnique(Chains(s, n), rs);
  }

  lemma TrickyRoots(s: System)
    requires IsTricky(s)
    ensures Roots(s, 0) == [0, 5]
  {
    assert RootsTo(s, 0, 0) == [] && RootsTo(s, 0, 1) == [0] && RootsTo(s, 0, 2) == [0] && RootsTo(s, 0, 3) == [0];
    assert RootsTo(s, 0, 4) == [0] && RootsTo(s, 0, 5) == [0] && RootsTo(s, 0, 6) == [0, 5];
  }

  lemma ChainsOfOne(s: System, m: Mark, r: nat, cost: nat)
    requires r < |s.rules|
    ensures MarkChains(s, m, [r], cost) == if r in m.seen then m else MarkTree(s, m, r, cost)
  {
    assert [r][1..] == [];
  }

  /** A rule whose one chain rule is `next`. */
  lemma MarkThen(s: System, m: Mark, r: nat, cost: nat, n: Mark, next: nat, end: Mark)
    requires r < |s.rules| && next < |s.rules| && r !in m.seen && Chains(s, To(s, r)) == [next]
    requires n == SetCost(m, To(s, r), cost + s.rules[r].cost, r).(seen := m.seen + {r})
    requires end == if next in n.seen then n else MarkTree(s, n, next, cost + s.rules[r].cost)
    ensures MarkTree(s, m, r, cost) == end
  {
    hide MarkTree, MarkChains, SetCost, Chains;
    MarkUnfolded(s, m, r, cost);
    ChainsOfOne(s, n, next, cost + s.rules[r].cost);
  }

  lemma MarkUnfolded(s: System, m: Mark, r: nat, cost: nat)
    requires r < |s.rules| && r !in m.seen
    ensures
      var total := cost + s.rules[r].cost;
      var n := SetCost(m, To(s, r), total, r).(seen := m.seen + {r});
      && MarkTree(s, m, r, cost) == MarkChains(s, n, Chains(s, To(s, r)), total)
      && (Chains(s, To(s, r)) == [] ==> MarkTree(s, m, r, cost) == n)
  {
  }

  /** From 2, after it got its first label: 4 gets a label from there. */
  lemma DearPath(s: System, m1: Mark) returns (m3: Mark)
    requires IsTricky(s) && m1.labels == map[1 := Label(0, 0)] && m1.seen == {0}
    ensures m3 == MarkTree(s, m1, 1, 0) && m3.seen == {0, 1, 2}
    ensures m3.labels == map[1 := Label(0, 0), 2 := Label(10, 1), 4 := Label(11, 2)]
  {
    hide MarkTree, MarkChains, Chains;
    TrickyChains(s, 2);
    TrickyChains(s, 4);
    var m2 := SetCost(m1, 2, 10, 1).(seen := m1.seen + {1});
    m3 := SetCost(m2, 4, 11, 2).(seen := m2.seen + {2});
    MarkUnfolded(s, m2, 2, 10);
    MarkThen(s, m1, 1, 0, m2, 2, m3);
  }

  /** From 3: 2 gets a cheaper label, and 4 does not. */
  lemma CheapPath(s: System, m3: Mark) returns (m5: Mark)
    requires IsTricky(s) && m3.labels == map[1 := Label(0, 0), 2 := Label(10, 1), 4 := Label(11, 2)] && m3.seen == {0, 1, 2}
    ensures m5 == MarkTree(s, m3, 3, 0)
    ensures m5.labels == map[1 := Label(0, 0), 2 := Label(2, 4), 3 := Label(1, 3), 4 := Label(11, 2)]
  {
    TrickyChains(s, 3);
    TrickyChains(s, 2);
    var m4 := SetCost(m3, 3, 1, 3).(seen := m3.seen + {3});
    m5 := SetCost(m4, 2, 2, 4).(seen := m4.seen + {4});
    MarkThen(s, m4, 4, 1, m5, 2, m5);
    MarkThen(s, m3, 3, 0, m4, 4, m5);
  }

  /** From 1 the dear rule to 2 is followed first, and 4 gets its label from there. */
  lemma FirstMark(s: System) returns (p: Mark)
    requires IsTricky(s)
    ensures p == MarkTree(s, Unmarked, 0, 0)
    ensures p.labels == map[1 := Label(0, 0), 2 := Label(2, 4), 3 := Label(1, 3), 4 := Label(11, 2)]
  {
    TrickyChains(s, 1);
    var m1 := SetCost(Unmarked, 1, 0, 0).(seen := Unmarked.seen + {0});
    assert m1.seen == {0};
    var m3 := DearPath(s, m1);
    var m5 := CheapPath(s, m3);
    p := m5;
    ChainsOfOne(s, m3, 3, 0);
    assert [1, 3][1..] == [3];
  }

  lemma LeafRules(s: System)
    requires IsTricky(s)
    ensures s.Covered(Leaf)
    ensures Usable(s, Leaf, 0) && RuleCost(s, Leaf, 0) == 0 && Usable(s, Leaf, 5) && RuleCost(s, Leaf, 5) == 0
  {
    assert s.Kids(Leaf, Leaf) == [];
  }

  lemma LeafLabels(s: System)
    requires IsTricky(s)
    ensures s.Covered(Leaf)
    ensures LabelsOf(s, Leaf).labels == map[1 := Label(0, 0), 2 := Label(2, 4), 3 := Label(1, 3), 4 := Label(5, 5)]
  {
    hide Usable, RuleCost, MarkTree, IsTricky;
    TrickyRoots(s);
    LeafRules(s);
    var first := FirstMark(s);
    var last := LastMark(s, first.(seen := {}));
    LabelsStep(s, 1);
    LabelsStep(s, 2);
    hide LabelsTo;
    assert Unmarked.(seen := {}) == Unmarked;
  }

  /** The leaf rule for 4 is cheaper than the label. */
  lemma LastMark(s: System, m: Mark) returns (p: Mark)
    requires IsTricky(s) && m.seen == {}
    requires m.labels == map[1 := Label(0, 0), 2 := Label(2, 4), 3 := Label(1, 3), 4 := Label(11, 2)]
    ensures p == MarkTree(s, m, 5, 0)
    ensures p.labels == map[1 := Label(0, 0), 2 := Label(2, 4), 3 := Label(1, 3), 4 := Label(5, 5)]
  {
    TrickyChains(s, 4);
    p := MarkTree(s, m, 5, 0);
  }

  lemma LabelsStep(s: System, n: nat)
    requires s.Covered(Leaf) && 0 < n <= |Roots(s, Leaf.name)|
    ensures var r := Roots(s, Leaf.name)[n - 1];
      r in Roots(s, Leaf.name) && LabelsTo(s, Leaf, n) ==
        if Usable(s, Leaf, r) then MarkTree(s, LabelsTo(s, Leaf, n - 1).(seen := {}), r, RuleCost(s, Leaf, r)) else LabelsTo(s, Leaf, n - 1)
    ensures LabelsTo(s, Leaf, 0) == Unmarked
  {
  }

  /** The tiling that is emitted for 4 costs 5, although there is one that costs 3. */
  lemma NotCheapest()
    ensures Tricky.Covered(Leaf) && 4 in LabelsOf(Tricky, Leaf).labels
    ensures CostOf(Tricky, TilingOf(Tricky, Leaf, 4)) == 5
    ensures exists d :: Derives(Tricky, Leaf, 4, d) && CostOf(Tricky, d) == 3
  {
    var s := Tricky;
    LeafLabels(s);
    var emitted := TilingOf(s, Leaf, 4);
    assert emitted.rule == 5;
    TilingIsSound(s, Leaf, 4);
    assert emitted.kids == [] by {
      assert s.Kids(Leaf, Leaf) == [];
    }
    assert KidsCostOf(s, emitted, 0) == 0;
    CheapTiling();
  }

  lemma OneMore(d: Tiling, r: nat, g: Name)
    requires Tricky.IsChain(r) && Tricky.rules[r].nonTerm == g && Derives(Tricky, Leaf, Tricky.rules[r].tree.name, d)
    ensures Derives(Tricky, Leaf, g, Tile(r, [d])) && CostOf(Tricky, Tile(r, [d])) == CostOf(Tricky, d) + Tricky.rules[r].cost
  {
    Tricky.ChainHasOneKid(Leaf, r);
    var t := Tile(r, [d]);
    assert KidsCostOf(Tricky, t, 1) == KidsCostOf(Tricky, t, 0) + CostOf(Tricky, d);
  }

  lemma CheapTiling()
    ensures exists d :: Derives(Tricky, Leaf, 4, d) && CostOf(Tricky, d) == 3
  {
    var d0 := Tile(0, []);
    assert Tricky.Kids(Leaf, Leaf) == [];
    assert Derives(Tricky, Leaf, 1, d0);
    assert KidsCostOf(Tricky, d0, 0) == 0;
    OneMore(d0, 3, 3);
    OneMore(Tile(3, [d0]), 4, 2);
    OneMore(Tile(4, [Tile(3, [d0])]), 2, 4);
  }
}
