/**
  What marking a node does: labels only get cheaper, chain rules are followed
  to the end, and a label that was made by a chain rule is younger or dearer
  than the label it was made from.
 */
module BurgMarking {
  import opened Burg

  function From(sys: System, r: nat): Name
    requires r < |sys.rules|
  {
    sys.rules[r].tree.name
  }

  function To(sys: System, r: nat): Name
    requires r < |sys.rules|
  {
    sys.rules[r].nonTerm
  }

  /** Labels only get cheaper, and those that change cost at least `bound`. */
  ghost predicate Grown(m: Mark, p: Mark, bound: nat) {
    && m.seen <= p.seen
    && (forall g :: g in m.labels ==> GrownAt(m, p, g))
    && (forall g :: g in p.labels ==> KeptAt(m, p, g) || p.labels[g].cost >= bound)
  }

  predicate GrownAt(m: Mark, p: Mark, g: Name)
    requires g in m.labels
  {
    g in p.labels && p.labels[g].cost <= m.labels[g].cost
  }

  predicate KeptAt(m: Mark, p: Mark, g: Name)
    requires g in p.labels
  {
    g in m.labels && p.labels[g] == m.labels[g]
  }

  lemma GrownTwice(m: Mark, p: Mark, q: Mark, bound: nat, bound': nat)
    requires Grown(m, p, bound) && Grown(p, q, bound') && bound <= bound'
    ensures Grown(m, q, bound)
  {
    forall g | g in m.labels
      ensures GrownAt(m, q, g)
    {
      assert GrownAt(m, p, g) && GrownAt(p, q, g);
    }
    forall g | g in q.labels
      ensures KeptAt(m, q, g) || q.labels[g].cost >= bound
    {
      assert KeptAt(p, q, g) || q.labels[g].cost >= bound';
    }
  }

  lemma GrownByNothing(m: Mark, bound: nat)
    ensures Grown(m, m, bound)
  {
  }

  lemma SetCostGrows(m: Mark, goal: Name, cost: nat, r: nat)
    ensures var p := SetCost(m, goal, cost, r);
      && Grown(m, p.(seen := m.seen + {r}), cost)
      && goal in p.labels && p.labels[goal].cost <= cost
  {
  }

  lemma {:induction false} MarkGrows(sys: System, m: Mark, r: nat, cost: nat)
    requires r < |sys.rules| && r !in m.seen
    ensures var p := MarkTree(sys, m, r, cost);
      && Grown(m, p, cost + sys.rules[r].cost)
      && To(sys, r) in p.labels && p.labels[To(sys, r)].cost <= cost + sys.rules[r].cost
    decreases Unseen(sys, m), 0
  {
    hide Grown, SetCost;
    SeeingOne(sys, m, r);
    var total := cost + sys.rules[r].cost;
    SetCostGrows(m, To(sys, r), total, r);
    var s := SetCost(m, To(sys, r), total, r).(seen := m.seen + {r});
    ChainsGrow(sys, s, Chains(sys, To(sys, r)), total);
    var p := MarkTree(sys, m, r, cost);
    GrownTwice(m, s, p, total, total);
    assert GrownAt(s, p, To(sys, r)) by {
      GrownMeans(s, p, total, To(sys, r));
    }
  }

  lemma GrownMeans(m: Mark, p: Mark, bound: nat, g: Name)
    requires Grown(m, p, bound)
    ensures g in m.labels ==> GrownAt(m, p, g)
    ensures g in p.labels ==> KeptAt(m, p, g) || p.labels[g].cost >= bound
    ensures m.seen <= p.seen
  {
  }

  lemma {:induction false} ChainsGrow(sys: System, m: Mark, rs: seq<nat>, cost: nat)
    requires AreRules(sys, rs)
    ensures Grown(m, MarkChains(sys, m, rs, cost), cost)
    decreases Unseen(sys, m), |rs| + 1
  {
    hide Grown;
    if rs == [] {
      GrownByNothing(m, cost);
    } else if rs[0] in m.seen {
      ChainsGrow(sys, m, rs[1..], cost);
    } else {
      MarkGrows(sys, m, rs[0], cost);
      var p := MarkTree(sys, m, rs[0], cost);
      SeeingMore(sys, m, p);
      ChainsGrow(sys, p, rs[1..], cost);
      GrownLower(m, p, cost + sys.rules[rs[0]].cost, cost);
      GrownTwice(m, p, MarkChains(sys, p, rs[1..], cost), cost, cost);
    }
  }

  lemma GrownLower(m: Mark, p: Mark, bound: nat, lower: nat)
    requires Grown(m, p, bound) && lower <= bound
    ensures Grown(m, p, lower)
  {
  }

  /** ----- every chain rule is followed ----- */

  /** What has been seen since `m` has its label, and its chain rules have been seen too. */
  ghost predicate Explored(sys: System, m: Mark, p: Mark) {
    forall r: nat :: r in p.seen && r !in m.seen ==> ExploredAt(sys, p, r)
  }

  predicate ExploredAt(sys: System, p: Mark, r: nat) {
    && r < |sys.rules|
    && To(sys, r) in p.labels
    && forall k :: 0 <= k < |Chains(sys, To(sys, r))| ==> Chains(sys, To(sys, r))[k] in p.seen
  }

  /** New labels come from rules that have been seen. */
  ghost predicate Accounted(sys: System, m: Mark, p: Mark) {
    forall g :: g in p.labels && g !in m.labels ==> exists r: nat :: r in p.seen && r !in m.seen && r < |sys.rules| && To(sys, r) == g
  }

  lemma ExploredStays(sys: System, p: Mark, q: Mark, r: nat, bound: nat)
    requires Grown(p, q, bound) && ExploredAt(sys, p, r)
    ensures ExploredAt(sys, q, r)
  {
    GrownMeans(p, q, bound, To(sys, r));
  }

  lemma {:induction false} MarkExplores(sys: System, m: Mark, r: nat, cost: nat)
    requires r < |sys.rules| && r !in m.seen
    ensures Explored(sys, m, MarkTree(sys, m, r, cost)) && Accounted(sys, m, MarkTree(sys, m, r, cost))
    decreases Unseen(sys, m), 0
  {
    hide Grown, SetCost;
    SeeingOne(sys, m, r);
    var total := cost + sys.rules[r].cost;
    var s := SetCost(m, To(sys, r), total, r).(seen := m.seen + {r});
    ChainsExplore(sys, s, Chains(sys, To(sys, r)), total);
    MarkGrows(sys, m, r, cost);
    var p := MarkTree(sys, m, r, cost);
    assert p == MarkChains(sys, s, Chains(sys, To(sys, r)), total);
    hide MarkChains, MarkTree;
    ExploredFirst(sys, m, s, p, r, total);
  }

  /** One more label, then what its chain rules explore. */
  lemma ExploredFirst(sys: System, m: Mark, s: Mark, p: Mark, r: nat, total: nat)
    requires r < |sys.rules| && r !in m.seen && s == SetCost(m, To(sys, r), total, r).(seen := m.seen + {r})
    requires s.seen <= p.seen && To(sys, r) in p.labels && Explored(sys, s, p) && Accounted(sys, s, p)
    requires forall k :: 0 <= k < |Chains(sys, To(sys, r))| ==> Chains(sys, To(sys, r))[k] in p.seen
    ensures Explored(sys, m, p) && Accounted(sys, m, p)
  {
    assert r in p.seen;
    assert ExploredAt(sys, p, r);
    hide ExploredAt;
    forall x: nat | x in p.seen && x !in m.seen
      ensures ExploredAt(sys, p, x)
    {
      assert x == r || x !in s.seen;
    }
    forall g | g in p.labels && g !in m.labels
      ensures exists x: nat :: x in p.seen && x !in m.seen && x < |sys.rules| && To(sys, x) == g
    {
      assert g == To(sys, r) || g !in s.labels;
    }
  }

  lemma {:induction false} ChainsExplore(sys: System, m: Mark, rs: seq<nat>, cost: nat)
    requires AreRules(sys, rs)
    ensures var p := MarkChains(sys, m, rs, cost);
      && Explored(sys, m, p) && Accounted(sys, m, p)
      && forall k :: 0 <= k < |rs| ==> rs[k] in p.seen
    decreases Unseen(sys, m), |rs| + 1
  {
    hide Grown, Unseen, MarkTree;
    if rs != [] {
      if rs[0] in m.seen {
        ChainsExplore(sys, m, rs[1..], cost);
      } else {
        MarkExplores(sys, m, rs[0], cost);
        var p := MarkTree(sys, m, rs[0], cost);
        SeeingMore(sys, m, p);
        ChainsExplore(sys, p, rs[1..], cost);
        ChainsGrow(sys, p, rs[1..], cost);
        var q := MarkChains(sys, p, rs[1..], cost);
        hide MarkChains;
        ExploredTwice(sys, m, p, q, cost);
      }
      assert forall k :: 1 <= k < |rs| ==> rs[k] == rs[1..][k - 1];
    }
  }

  lemma ExploredTwice(sys: System, m: Mark, p: Mark, q: Mark, bound: nat)
    requires m.seen <= p.seen && Grown(p, q, bound)
    requires Explored(sys, m, p) && Accounted(sys, m, p) && Explored(sys, p, q) && Accounted(sys, p, q)
    ensures Explored(sys, m, q) && Accounted(sys, m, q)
  {
    GrownMeans(p, q, bound, 0);
    forall x: nat | x in q.seen && x !in m.seen
      ensures ExploredAt(sys, q, x)
    {
      if x in p.seen {
        assert ExploredAt(sys, p, x);
        ExploredStays(sys, p, q, x, bound);
      }
    }
    hide ExploredAt, Grown;
    forall g | g in q.labels && g !in m.labels
      ensures exists x: nat :: x in q.seen && x !in m.seen && x < |sys.rules| && To(sys, x) == g
    {
      if g in p.labels {
        var x: nat :| x in p.seen && x !in m.seen && x < |sys.rules| && To(sys, x) == g;
        assert x in q.seen;
      } else {
        var x: nat :| x in q.seen && x !in p.seen && x < |sys.rules| && To(sys, x) == g;
        assert x !in m.seen;
      }
    }
  }

  /** ----- where labels come from ----- */

  /** A chain label is dearer than, or as dear as but younger than, the label it was made from;
      any other label is that of a rule in `base`, with what its kids cost. */
  predicate RankedAt(sys: System, base: map<nat, nat>, m: Mark, g: Name)
    requires g in m.labels
  {
    var r := m.labels[g].rule;
    && r < |sys.rules| && To(sys, r) == g
    && g in m.stamps && m.stamps[g] < m.clock
    && if sys.IsChain(r) then
        && From(sys, r) in m.labels && From(sys, r) in m.stamps
        && (m.labels[From(sys, r)].cost + sys.rules[r].cost < m.labels[g].cost
            || (m.labels[From(sys, r)].cost + sys.rules[r].cost == m.labels[g].cost && m.stamps[From(sys, r)] < m.stamps[g]))
      else
        r in base && m.labels[g].cost == base[r] + sys.rules[r].cost
  }

  ghost predicate Ranked(sys: System, base: map<nat, nat>, m: Mark) {
    forall g :: g in m.labels ==> RankedAt(sys, base, m, g)
  }

  /** Where marking with a rule may start. */
  predicate Grounded(sys: System, base: map<nat, nat>, m: Mark, r: nat, cost: nat)
    requires r < |sys.rules|
  {
    if sys.IsChain(r) then From(sys, r) in m.labels && m.labels[From(sys, r)].cost <= cost
    else r in base && base[r] == cost
  }

  lemma SetCostRanks(sys: System, base: map<nat, nat>, m: Mark, r: nat, cost: nat)
    requires Ranked(sys, base, m) && r < |sys.rules| && Grounded(sys, base, m, r, cost)
    ensures Ranked(sys, base, SetCost(m, To(sys, r), cost + sys.rules[r].cost, r))
  {
    var p := SetCost(m, To(sys, r), cost + sys.rules[r].cost, r);
    forall g | g in p.labels
      ensures RankedAt(sys, base, p, g)
    {
      if g in m.labels {
        assert RankedAt(sys, base, m, g);
        OldLabelRanks(sys, base, m, r, cost, g);
      }
      if sys.IsChain(r) {
        assert RankedAt(sys, base, m, From(sys, r));
      }
      NewLabelRanks(sys, base, m, r, cost);
    }
  }

  lemma OldLabelRanks(sys: System, base: map<nat, nat>, m: Mark, r: nat, cost: nat, g: Name)
    requires g in m.labels && RankedAt(sys, base, m, g) && r < |sys.rules|
    ensures var p := SetCost(m, To(sys, r), cost + sys.rules[r].cost, r);
      g != To(sys, r) || p == m ==> RankedAt(sys, base, p, g)
  {
  }

  lemma NewLabelRanks(sys: System, base: map<nat, nat>, m: Mark, r: nat, cost: nat)
    requires r < |sys.rules| && Grounded(sys, base, m, r, cost)
    requires sys.IsChain(r) ==> RankedAt(sys, base, m, From(sys, r))
    ensures var p := SetCost(m, To(sys, r), cost + sys.rules[r].cost, r);
      p != m ==> To(sys, r) in p.labels && RankedAt(sys, base, p, To(sys, r))
  {
  }

  lemma SeenDoesNotRank(sys: System, base: map<nat, nat>, m: Mark, seen: set<nat>)
    requires Ranked(sys, base, m)
    ensures Ranked(sys, base, m.(seen := seen))
  {
    forall g | g in m.labels
      ensures RankedAt(sys, base, m.(seen := seen), g)
    {
      assert RankedAt(sys, base, m, g);
    }
  }

  lemma {:induction false} MarkRanks(sys: System, base: map<nat, nat>, m: Mark, r: nat, cost: nat)
    requires Ranked(sys, base, m) && r < |sys.rules| && r !in m.seen && Grounded(sys, base, m, r, cost)
    ensures Ranked(sys, base, MarkTree(sys, m, r, cost))
    decreases Unseen(sys, m), 0
  {
    hide Ranked, Numbers, SetCost, Chains, MarkChains;
    SeeingOne(sys, m, r);
    var total := cost + sys.rules[r].cost;
    SetCostRanks(sys, base, m, r, cost);
    SetCostGrows(m, To(sys, r), total, r);
    SeenDoesNotRank(sys, base, SetCost(m, To(sys, r), total, r), m.seen + {r});
    var s := SetCost(m, To(sys, r), total, r).(seen := m.seen + {r});
    ChainsRank(sys, base, s, Chains(sys, To(sys, r)), To(sys, r), total);
  }

  lemma {:induction false} ChainsRank(sys: System, base: map<nat, nat>, m: Mark, rs: seq<nat>, n: Name, cost: nat)
    requires Ranked(sys, base, m) && AreRules(sys, rs)
    requires forall k :: 0 <= k < |rs| ==> sys.IsChain(rs[k]) && From(sys, rs[k]) == n
    requires n in m.labels && m.labels[n].cost <= cost
    ensures Ranked(sys, base, MarkChains(sys, m, rs, cost))
    decreases Unseen(sys, m), |rs| + 1
  {
    hide Ranked;
    if rs != [] {
      if rs[0] in m.seen {
        ChainsRank(sys, base, m, rs[1..], n, cost);
      } else {
        MarkRanks(sys, base, m, rs[0], cost);
        MarkGrows(sys, m, rs[0], cost);
        var p := MarkTree(sys, m, rs[0], cost);
        GrownMeans(m, p, cost + sys.rules[rs[0]].cost, n);
        SeeingMore(sys, m, p);
        ChainsRank(sys, base, p, rs[1..], n, cost);
      }
    }
  }
}
