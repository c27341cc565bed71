/**
  Tree matching is sound and complete: a node has a label for a goal exactly
  when some tiling derives it, and following the labels ends in a tiling that
  costs no more than the label.  With at most one chain of rules between two
  non-terminals, no tiling is cheaper.
 */
module BurgSelection {
  import opened Burg
  import opened BurgMarking
  import opened BurgChains

  /** The rules that can be used at the root of a tree, and what their kids cost. */
  function Base(sys: System, t: Tree): (base: map<nat, nat>)
    requires sys.Covered(t)
    ensures forall r: nat :: r in base <==> r in Roots(sys, t.name) && Usable(sys, t, r)
    ensures forall r: nat :: r in base ==> base[r] == RuleCost(sys, t, r)
  {
    map r: nat | r in Roots(sys, t.name) && Usable(sys, t, r) :: RuleCost(sys, t, r)
  }

  predicate ChainClosedAt(sys: System, m: Mark, r: nat)
    requires r < |sys.rules|
  {
    From(sys, r) in m.labels ==> To(sys, r) in m.labels
  }

  ghost predicate ChainClosed(sys: System, m: Mark) {
    forall r: nat :: sys.IsChain(r) ==> ChainClosedAt(sys, m, r)
  }

  predicate Used(sys: System, m: Mark, r: nat, cost: nat)
    requires r < |sys.rules|
  {
    To(sys, r) in m.labels && m.labels[To(sys, r)].cost <= cost + sys.rules[r].cost
  }

  /** What the labels of a node satisfy, once its rules up to `n` have been tried. */
  ghost predicate WellLabelled(sys: System, t: Tree, n: nat, m: Mark)
    requires sys.Covered(t) && n <= |Roots(sys, t.name)|
  {
    && Ranked(sys, Base(sys, t), m)
    && ChainClosed(sys, m)
    && (forall k :: 0 <= k < n && Roots(sys, t.name)[k] in Base(sys, t) ==>
          Used(sys, m, Roots(sys, t.name)[k], Base(sys, t)[Roots(sys, t.name)[k]]))
    && (UniquePaths(sys) ==> Tight(sys, m, {}))
  }

  lemma MarkCloses(sys: System, m: Mark, r: nat, cost: nat)
    requires r < |sys.rules| && m.seen == {} && ChainClosed(sys, m)
    ensures ChainClosed(sys, MarkTree(sys, m, r, cost))
  {
    MarkExplores(sys, m, r, cost);
    MarkGrows(sys, m, r, cost);
    var p := MarkTree(sys, m, r, cost);
    hide MarkTree, Grown;
    forall x: nat | sys.IsChain(x)
      ensures ChainClosedAt(sys, p, x)
    {
      if From(sys, x) in m.labels {
        assert ChainClosedAt(sys, m, x);
        GrownMeans(m, p, cost + sys.rules[r].cost, To(sys, x));
      } else if From(sys, x) in p.labels {
        ClosedThere(sys, m, p, x);
      }
    }
  }

  lemma ClosedThere(sys: System, m: Mark, p: Mark, x: nat)
    requires m.seen == {} && Explored(sys, m, p) && Accounted(sys, m, p)
    requires sys.IsChain(x) && From(sys, x) in p.labels && From(sys, x) !in m.labels
    ensures To(sys, x) in p.labels
  {
    var y: nat :| y in p.seen && y !in m.seen && y < |sys.rules| && To(sys, y) == From(sys, x);
    assert ExploredAt(sys, p, y);
    var rs := Chains(sys, From(sys, x));
    assert x in rs;
    var k :| 0 <= k < |rs| && rs[k] == x;
    assert ExploredAt(sys, p, x);
  }

  /** The `n`-th rule for the root, when it can be used. */
  lemma RootIsGrounded(sys: System, t: Tree, n: nat, m: Mark)
    requires sys.Covered(t) && n < |Roots(sys, t.name)|
    ensures var r := Roots(sys, t.name)[n];
      && r in Roots(sys, t.name) && sys.IsTreeRule(r) && sys.rules[r].tree.name == t.name
      && (Usable(sys, t, r) ==> Grounded(sys, Base(sys, t), m, r, RuleCost(sys, t, r)))
  {
    var r := Roots(sys, t.name)[n];
    assert r in Roots(sys, t.name);
  }

  lemma MarkUses(sys: System, t: Tree, n: nat, m: Mark, r: nat, cost: nat)
    requires sys.Covered(t) && n < |Roots(sys, t.name)| && WellLabelled(sys, t, n, m) && m.seen == {}
    requires r == Roots(sys, t.name)[n] && sys.IsTreeRule(r) && Grounded(sys, Base(sys, t), m, r, cost)
    ensures WellLabelled(sys, t, n + 1, MarkTree(sys, m, r, cost))
  {
    hide MarkTree, Base, Ranked, ChainClosed, UniquePaths, Tight, Grown;
    var base, p := Base(sys, t), MarkTree(sys, m, r, cost);
    MarkRanks(sys, base, m, r, cost);
    MarkCloses(sys, m, r, cost);
    MarkGrows(sys, m, r, cost);
    if UniquePaths(sys) {
      assert Fresh(sys, m, To(sys, r));
      MarkTight(sys, m, {}, r, cost);
    }
    forall k | 0 <= k < n + 1 && Roots(sys, t.name)[k] in base
      ensures Used(sys, p, Roots(sys, t.name)[k], base[Roots(sys, t.name)[k]])
    {
      if k < n {
        assert Used(sys, m, Roots(sys, t.name)[k], base[Roots(sys, t.name)[k]]);
        GrownMeans(m, p, cost + sys.rules[r].cost, To(sys, Roots(sys, t.name)[k]));
      }
    }
  }

  lemma UnseenLabels(sys: System, t: Tree, n: nat, m: Mark)
    requires sys.Covered(t) && n <= |Roots(sys, t.name)| && WellLabelled(sys, t, n, m)
    ensures WellLabelled(sys, t, n, m.(seen := {}))
  {
    SeenDoesNotRank(sys, Base(sys, t), m, {});
    var p := m.(seen := {});
    hide Ranked, Base;
    forall r: nat | sys.IsChain(r)
      ensures ChainClosedAt(sys, p, r) && (UniquePaths(sys) ==> TightAt(sys, p, r))
    {
      assert ChainClosedAt(sys, m, r);
      assert UniquePaths(sys) ==> TightAt(sys, m, r);
    }
    forall k | 0 <= k < n && Roots(sys, t.name)[k] in Base(sys, t)
      ensures Used(sys, p, Roots(sys, t.name)[k], Base(sys, t)[Roots(sys, t.name)[k]])
    {
      assert Used(sys, m, Roots(sys, t.name)[k], Base(sys, t)[Roots(sys, t.name)[k]]);
    }
  }

  lemma {:induction false} LabelsToAreWell(sys: System, t: Tree, n: nat)
    requires sys.Covered(t) && n <= |Roots(sys, t.name)|
    ensures WellLabelled(sys, t, n, LabelsTo(sys, t, n))
    decreases n
  {
    if n > 0 {
      LabelsToAreWell(sys, t, n - 1);
      var m, r := LabelsTo(sys, t, n - 1), Roots(sys, t.name)[n - 1];
      RootIsGrounded(sys, t, n - 1, m);
      if Usable(sys, t, r) {
        UnseenLabels(sys, t, n - 1, m);
        MarkUses(sys, t, n - 1, m.(seen := {}), r, RuleCost(sys, t, r));
      } else {
        hide LabelsTo, Usable, Ranked, ChainClosed, UniquePaths, Tight, Used;
        assert r !in Base(sys, t);
      }
    }
  }

  lemma LabelsAreWell(sys: System, t: Tree)
    requires sys.Covered(t)
    ensures WellLabelled(sys, t, |Roots(sys, t.name)|, LabelsOf(sys, t))
  {
    LabelsToAreWell(sys, t, |Roots(sys, t.name)|);
  }

  /** ----- complete, and cheapest ----- */

  lemma {:induction false} KidsCostLess(sys: System, t: Tree, d: Tiling, n: nat)
    requires sys.Covered(t) && sys.IsTreeRule(d.rule) && n <= |d.kids| == sys.Width(t, d.rule)
    requires forall k :: 0 <= k < n ==> KidLabelled(sys, t, d.rule, k) && KidCheaper(sys, t, d, k)
    ensures KidsCost(sys, t, d.rule, n) <= KidsCostOf(sys, d, n)
    decreases n
  {
    if n > 0 {
      KidsCostLess(sys, t, d, n - 1);
      assert KidLabelled(sys, t, d.rule, n - 1) && KidCheaper(sys, t, d, n - 1);
    }
  }

  predicate KidCheaper(sys: System, t: Tree, d: Tiling, k: nat)
    requires sys.Covered(t) && sys.IsTreeRule(d.rule) && k < |d.kids| == sys.Width(t, d.rule)
  {
    sys.KidCovered(t, d.rule, k);
    KidLabelled(sys, t, d.rule, k) ==>
      LabelsOf(sys, sys.Kid(t, d.rule, k)).labels[sys.Goal(t, d.rule, k)].cost <= CostOf(sys, d.kids[k])
  }

  /** The label for the goal exists, and with unique chains is as cheap as the tiling. */
  ghost predicate Serves(sys: System, t: Tree, goal: Name, d: Tiling)
    requires sys.Covered(t)
  {
    goal in LabelsOf(sys, t).labels && (UniquePaths(sys) ==> LabelsOf(sys, t).labels[goal].cost <= CostOf(sys, d))
  }

  lemma {:induction false} EveryTilingIsServed(sys: System, t: Tree, goal: Name, d: Tiling)
    requires sys.Covered(t) && Derives(sys, t, goal, d)
    ensures Serves(sys, t, goal, d)
    decreases d
  {
    hide UniquePaths, Usable, LabelsOf;
    var r := d.rule;
    forall k | 0 <= k < |d.kids|
      ensures sys.Covered(sys.Kid(t, r, k)) && Serves(sys, sys.Kid(t, r, k), sys.Goal(t, r, k), d.kids[k])
    {
      sys.KidCovered(t, r, k);
      EveryTilingIsServed(sys, sys.Kid(t, r, k), sys.Goal(t, r, k), d.kids[k]);
    }
    LabelsAreWell(sys, t);
    if sys.IsChain(r) {
      ServedByChain(sys, t, goal, d);
    } else {
      ServedByRule(sys, t, goal, d);
    }
  }

  lemma ServedByChain(sys: System, t: Tree, goal: Name, d: Tiling)
    requires sys.Covered(t) && Derives(sys, t, goal, d) && sys.IsChain(d.rule)
    requires |d.kids| == sys.Width(t, d.rule)
    requires forall k :: 0 <= k < |d.kids| ==>
      sys.Covered(sys.Kid(t, d.rule, k)) && Serves(sys, sys.Kid(t, d.rule, k), sys.Goal(t, d.rule, k), d.kids[k])
    requires WellLabelled(sys, t, |Roots(sys, t.name)|, LabelsOf(sys, t))
    ensures Serves(sys, t, goal, d)
  {
    hide UniquePaths, Base, LabelsOf, Ranked, Derives;
    assert sys.rules[d.rule].nonTerm == goal by {
      DerivesRoot(sys, t, goal, d);
    }
    sys.ChainHasOneKid(t, d.rule);
    assert Serves(sys, sys.Kid(t, d.rule, 0), sys.Goal(t, d.rule, 0), d.kids[0]);
    assert ChainClosedAt(sys, LabelsOf(sys, t), d.rule);
    assert UniquePaths(sys) ==> TightAt(sys, LabelsOf(sys, t), d.rule);
    assert CostOf(sys, d) == CostOf(sys, d.kids[0]) + sys.rules[d.rule].cost by {
      assert KidsCostOf(sys, d, 1) == KidsCostOf(sys, d, 0) + CostOf(sys, d.kids[0]);
    }
  }

  lemma DerivesRoot(sys: System, t: Tree, goal: Name, d: Tiling)
    requires Derives(sys, t, goal, d)
    ensures sys.Applies(t, d.rule) && sys.rules[d.rule].nonTerm == goal && |d.kids| == sys.Width(t, d.rule)
  {
  }

  lemma ServedByRule(sys: System, t: Tree, goal: Name, d: Tiling)
    requires sys.Covered(t) && Derives(sys, t, goal, d) && sys.IsTreeRule(d.rule)
    requires |d.kids| == sys.Width(t, d.rule)
    requires forall k :: 0 <= k < |d.kids| ==>
      sys.Covered(sys.Kid(t, d.rule, k)) && Serves(sys, sys.Kid(t, d.rule, k), sys.Goal(t, d.rule, k), d.kids[k])
    requires WellLabelled(sys, t, |Roots(sys, t.name)|, LabelsOf(sys, t))
    ensures Serves(sys, t, goal, d)
  {
    hide UniquePaths, LabelsOf, Ranked, Derives, ChainClosed, Tight;
    DerivesRoot(sys, t, goal, d);
    var r := d.rule;
    forall k | 0 <= k < |d.kids|
      ensures KidLabelled(sys, t, r, k) && (UniquePaths(sys) ==> KidCheaper(sys, t, d, k))
    {
      assert Serves(sys, sys.Kid(t, r, k), sys.Goal(t, r, k), d.kids[k]);
    }
    assert r in Roots(sys, t.name);
    assert Usable(sys, t, r);
    var i :| 0 <= i < |Roots(sys, t.name)| && Roots(sys, t.name)[i] == r;
    assert Used(sys, LabelsOf(sys, t), r, Base(sys, t)[r]);
    assert Base(sys, t)[r] == KidsCost(sys, t, r, sys.Width(t, r));
    if UniquePaths(sys) {
      KidsCostLess(sys, t, d, |d.kids|);
    }
  }

  /** ----- what following the labels yields ----- */

  function StampOf(m: Mark, g: Name): nat {
    if g in m.stamps then m.stamps[g] else 0
  }

  function CostIn(m: Mark, g: Name): nat {
    if g in m.labels then m.labels[g].cost else 0
  }

  /** The label of a goal: its rule yields the goal, and what it leaves has labels. */
  lemma LabelIs(sys: System, t: Tree, g: Name)
    requires sys.Covered(t) && g in LabelsOf(sys, t).labels
    ensures var m := LabelsOf(sys, t); var l := m.labels[g];
      && l.rule < |sys.rules| && To(sys, l.rule) == g && sys.Applies(t, l.rule)
      && if sys.IsChain(l.rule) then
          && From(sys, l.rule) in m.labels
          && (CostIn(m, From(sys, l.rule)) + sys.rules[l.rule].cost < l.cost
              || (CostIn(m, From(sys, l.rule)) + sys.rules[l.rule].cost == l.cost && StampOf(m, From(sys, l.rule)) < StampOf(m, g)))
        else
          && (forall k :: 0 <= k < sys.Width(t, l.rule) ==> KidLabelled(sys, t, l.rule, k))
          && l.cost == KidsCost(sys, t, l.rule, sys.Width(t, l.rule)) + sys.rules[l.rule].cost
  {
    LabelsAreWell(sys, t);
    hide UniquePaths, LabelsOf;
    assert RankedAt(sys, Base(sys, t), LabelsOf(sys, t), g);
    var r := LabelsOf(sys, t).labels[g].rule;
    if !sys.IsChain(r) {
      assert r in Roots(sys, t.name) && Usable(sys, t, r);
    }
  }

  /** `apply_rules`: the tiling that the labels lead to. */
  function TilingOf(sys: System, t: Tree, g: Name): Tiling
    requires sys.Covered(t) && g in LabelsOf(sys, t).labels
    decreases t, CostIn(LabelsOf(sys, t), g) + 1, StampOf(LabelsOf(sys, t), g), 0
  {
    LabelIs(sys, t, g);
    var r := LabelsOf(sys, t).labels[g].rule;
    if sys.IsChain(r) then Tile(r, [TilingOf(sys, t, From(sys, r))])
    else Tile(r, TilingsOfKids(sys, t, r, sys.Width(t, r)))
  }

  function TilingsOfKids(sys: System, t: Tree, r: nat, n: nat): (ds: seq<Tiling>)
    requires sys.Covered(t) && sys.IsTreeRule(r) && n <= sys.Width(t, r)
    requires forall k :: 0 <= k < n ==> KidLabelled(sys, t, r, k)
    ensures |ds| == n
    decreases t, 0, 0, n
  {
    if n == 0 then [] else
      sys.KidCovered(t, r, n - 1);
      assert KidLabelled(sys, t, r, n - 1);
      TilingsOfKids(sys, t, r, n - 1) + [TilingOf(sys, sys.Kid(t, r, n - 1), sys.Goal(t, r, n - 1))]
  }

  lemma {:induction false} KidsAreSound(sys: System, t: Tree, r: nat, n: nat, d: Tiling)
    requires sys.Covered(t) && sys.IsTreeRule(r) && n <= sys.Width(t, r) == |d.kids|
    requires forall k :: 0 <= k < n ==> KidLabelled(sys, t, r, k)
    requires TilingsOfKids(sys, t, r, n) == d.kids[..n]
    ensures forall k :: 0 <= k < n ==> Derives(sys, sys.Kid(t, r, k), sys.Goal(t, r, k), d.kids[k])
    ensures KidsCostOf(sys, d, n) <= KidsCost(sys, t, r, n)
    decreases t, 0, 0, n
  {
    if n > 0 {
      sys.KidCovered(t, r, n - 1);
      assert KidLabelled(sys, t, r, n - 1);
      assert d.kids[..n] == d.kids[..n - 1] + [d.kids[n - 1]];
      KidsAreSound(sys, t, r, n - 1, d);
      TilingIsSound(sys, sys.Kid(t, r, n - 1), sys.Goal(t, r, n - 1));
    }
  }

  /** Following the labels ends, in a tiling for the goal that costs no more than its label. */
  lemma {:induction false} TilingIsSound(sys: System, t: Tree, g: Name)
    requires sys.Covered(t) && g in LabelsOf(sys, t).labels
    ensures Derives(sys, t, g, TilingOf(sys, t, g))
    ensures CostOf(sys, TilingOf(sys, t, g)) <= LabelsOf(sys, t).labels[g].cost
    decreases t, CostIn(LabelsOf(sys, t), g) + 1, StampOf(LabelsOf(sys, t), g), 0
  {
    LabelIs(sys, t, g);
    hide LabelsOf, Usable, System.Matches;
    var r := LabelsOf(sys, t).labels[g].rule;
    var d := TilingOf(sys, t, g);
    if sys.IsChain(r) {
      TilingIsSound(sys, t, From(sys, r));
      sys.ChainHasOneKid(t, r);
      assert KidsCostOf(sys, d, 1) == KidsCostOf(sys, d, 0) + CostOf(sys, d.kids[0]);
    } else {
      assert d.kids[..|d.kids|] == d.kids;
      KidsAreSound(sys, t, r, sys.Width(t, r), d);
    }
  }

  /** A node has a label for a goal exactly when some tiling derives the goal. */
  lemma LabelledWhenDerivable(sys: System, t: Tree, g: Name)
    requires sys.Covered(t)
    ensures g in LabelsOf(sys, t).labels <==> exists d :: Derives(sys, t, g, d)
  {
    if g in LabelsOf(sys, t).labels {
      TilingIsSound(sys, t, g);
    }
    forall d | Derives(sys, t, g, d)
      ensures g in LabelsOf(sys, t).labels
    {
      EveryTilingIsServed(sys, t, g, d);
    }
  }

  /** With at most one chain of rules between two non-terminals, the tiling that is emitted is as
      cheap as any, and the label is its cost. */
  lemma TilingIsCheapest(sys: System, t: Tree, g: Name, d: Tiling)
    requires sys.Covered(t) && UniquePaths(sys) && Derives(sys, t, g, d)
    ensures g in LabelsOf(sys, t).labels
    ensures CostOf(sys, TilingOf(sys, t, g)) == LabelsOf(sys, t).labels[g].cost <= CostOf(sys, d)
  {
    EveryTilingIsServed(sys, t, g, d);
    TilingIsSound(sys, t, g);
    EveryTilingIsServed(sys, t, g, TilingOf(sys, t, g));
  }
}
