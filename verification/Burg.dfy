/**
  Bottom-up rewriting: trees, patterns and rules, what it means to tile a tree,
  and how nodes are labelled with the cheapest rule for every non-terminal.
 */
module Burg {

  type Name = nat

  /** An expression tree, or a pattern; in a pattern, a non-terminal is an open end. */
  datatype Tree = Tree(name: Name, value: int, children: seq<Tree>)

  datatype Rule = Rule(nonTerm: Name, tree: Tree, cost: nat, accepts: Tree -> bool)

  /** Every name that is not a terminal is a non-terminal. */
  datatype System = System(terminals: set<Name>, rules: seq<Rule>) {
    /** The trees to cover consist of terminals. */
    predicate Covered(t: Tree)
      decreases t
    {
      t.name in terminals && forall k :: 0 <= k < |t.children| ==> Covered(t.children[k])
    }

    /** A chain rule turns one non-terminal into another. */
    predicate IsChain(r: nat) {
      r < |rules| && rules[r].tree.name !in terminals && rules[r].tree.children == []
    }

    /** The rule may be used where a tree has the terminal at its root. */
    predicate IsTreeRule(r: nat) {
      r < |rules| && rules[r].tree.name in terminals
    }

    /** `tree_terminal_equal`: children are compared as far as both have them. */
    predicate Matches(t: Tree, p: Tree)
      decreases p
    {
      t.name in terminals && p.name in terminals ==>
        && t.name == p.name
        && forall k :: 0 <= k < |p.children| && k < |t.children| ==> Matches(t.children[k], p.children[k])
    }

    /** The subtrees at the open ends of the first `n` children. */
    function KidsTo(t: Tree, p: Tree, n: nat): (kids: seq<Tree>)
      requires n <= |t.children| && n <= |p.children|
      ensures forall k :: k in kids ==> k < t
      decreases p, n
    {
      if n == 0 then [] else
        var last := Kids(t.children[n - 1], p.children[n - 1]);
        assert forall k :: k in last ==> k == t.children[n - 1] || k < t.children[n - 1];
        KidsTo(t, p, n - 1) + last
    }

    /** `get_kids`: the subtrees at the open ends of a pattern. */
    function Kids(t: Tree, p: Tree): (kids: seq<Tree>)
      ensures forall k :: k in kids ==> k == t || k < t
      ensures p.name in terminals ==> forall k :: k in kids ==> k < t
      decreases p, |p.children| + 1
    {
      if p.name !in terminals then [t]
      else KidsTo(t, p, if |t.children| < |p.children| then |t.children| else |p.children|)
    }

    function EndsTo(p: Tree, n: nat): seq<Name>
      requires n <= |p.children|
      decreases p, n
    {
      if n == 0 then [] else EndsTo(p, n - 1) + Ends(p.children[n - 1])
    }

    /** `get_nts`: the names at the open ends of a pattern. */
    function Ends(p: Tree): seq<Name>
      decreases p, |p.children| + 1
    {
      if p.name !in terminals then [p.name] else EndsTo(p, |p.children|)
    }

    /** How many pairs of a subtree and a goal a rule leaves. */
    function Width(t: Tree, r: nat): nat
      requires r < |rules|
    {
      var kids, ends := Kids(t, rules[r].tree), Ends(rules[r].tree);
      if |kids| < |ends| then |kids| else |ends|
    }

    function Kid(t: Tree, r: nat, k: nat): (kid: Tree)
      requires r < |rules| && k < Width(t, r)
      ensures kid == t || kid < t
      ensures rules[r].tree.name in terminals ==> kid < t
    {
      var kids := Kids(t, rules[r].tree);
      assert kids[k] in kids;
      kids[k]
    }

    function Goal(t: Tree, r: nat, k: nat): Name
      requires r < |rules| && k < Width(t, r)
    {
      Ends(rules[r].tree)[k]
    }

    /** A rule can be used on a tree: chain rules always, the others when they match and accept. */
    predicate Applies(t: Tree, r: nat) {
      && r < |rules|
      && (IsChain(r) || (rules[r].tree.name == t.name && Matches(t, rules[r].tree) && rules[r].accepts(t)))
    }

    lemma ChainHasOneKid(t: Tree, r: nat)
      requires IsChain(r)
      ensures Width(t, r) == 1 && Kid(t, r, 0) == t && Goal(t, r, 0) == rules[r].tree.name
    {
    }

    lemma {:induction false} KidsToCovered(t: Tree, p: Tree, n: nat)
      requires n <= |t.children| && n <= |p.children| && Covered(t)
      ensures forall k :: k in KidsTo(t, p, n) ==> Covered(k)
      decreases p, n
    {
      if n > 0 {
        KidsToCovered(t, p, n - 1);
        KidsCovered(t.children[n - 1], p.children[n - 1]);
      }
    }

    lemma {:induction false} KidsCovered(t: Tree, p: Tree)
      requires Covered(t)
      ensures forall k :: k in Kids(t, p) ==> Covered(k)
      decreases p, |p.children| + 1
    {
      if p.name in terminals {
        KidsToCovered(t, p, if |t.children| < |p.children| then |t.children| else |p.children|);
      }
    }

    lemma KidCovered(t: Tree, r: nat, k: nat)
      requires r < |rules| && k < Width(t, r) && Covered(t)
      ensures Covered(Kid(t, r, k))
    {
      KidsCovered(t, rules[r].tree);
    }
  }

  /** ----- tilings ----- */

  /** A rule for the root, and tilings of what it leaves. */
  datatype Tiling = Tile(rule: nat, kids: seq<Tiling>)

  predicate Derives(sys: System, t: Tree, goal: Name, d: Tiling)
    decreases d
  {
    && sys.Applies(t, d.rule)
    && sys.rules[d.rule].nonTerm == goal
    && |d.kids| == sys.Width(t, d.rule)
    && forall k :: 0 <= k < |d.kids| ==> Derives(sys, sys.Kid(t, d.rule, k), sys.Goal(t, d.rule, k), d.kids[k])
  }

  function KidsCostOf(sys: System, d: Tiling, n: nat): nat
    requires n <= |d.kids|
    decreases d, n
  {
    if n == 0 then 0 else KidsCostOf(sys, d, n - 1) + CostOf(sys, d.kids[n - 1])
  }

  function CostOf(sys: System, d: Tiling): nat
    decreases d, |d.kids| + 1
  {
    KidsCostOf(sys, d, |d.kids|) + if d.rule < |sys.rules| then sys.rules[d.rule].cost else 0
  }

  /** ----- labels ----- */

  datatype Label = Label(cost: nat, rule: nat)

  /** The labels of a node and when each was set; the rules seen while marking. */
  datatype Mark = Mark(labels: map<Name, Label>, stamps: map<Name, nat>, clock: nat, seen: set<nat>)

  const Unmarked := Mark(map[], map[], 0, {})

  /** `set_cost`: only a cheaper rule replaces a label. */
  function SetCost(m: Mark, goal: Name, cost: nat, rule: nat): Mark {
    if goal in m.labels && m.labels[goal].cost <= cost then m
    else m.(labels := m.labels[goal := Label(cost, rule)], stamps := m.stamps[goal := m.clock], clock := m.clock + 1)
  }

  function Numbers(n: nat): (s: set<nat>)
    ensures forall k: nat :: k in s <==> k < n
    ensures |s| == n
  {
    if n == 0 then {} else Numbers(n - 1) + {n - 1}
  }

  predicate AreRules(sys: System, rs: seq<nat>) {
    forall k :: 0 <= k < |rs| ==> rs[k] < |sys.rules|
  }

  function ChainsTo(sys: System, nt: Name, k: nat): (rs: seq<nat>)
    requires k <= |sys.rules|
    ensures forall j :: 0 <= j < |rs| ==> rs[j] < k
    ensures forall r: nat :: r in rs <==> r < k && sys.IsChain(r) && sys.rules[r].tree.name == nt
    ensures forall i, j :: 0 <= i < j < |rs| ==> rs[i] < rs[j]
  {
    if k == 0 then []
    else ChainsTo(sys, nt, k - 1) + (if sys.IsChain(k - 1) && sys.rules[k - 1].tree.name == nt then [k - 1] else [])
  }

  /** `chain_rules_for_nt`: the chain rules from a non-terminal, in the order they were added. */
  function Chains(sys: System, nt: Name): (rs: seq<nat>)
    ensures AreRules(sys, rs)
    ensures forall r: nat :: r in rs <==> sys.IsChain(r) && sys.rules[r].tree.name == nt
    ensures forall i, j :: 0 <= i < j < |rs| ==> rs[i] < rs[j]
  {
    ChainsTo(sys, nt, |sys.rules|)
  }

  function RootsTo(sys: System, name: Name, k: nat): (rs: seq<nat>)
    requires k <= |sys.rules|
    ensures forall r: nat :: r in rs <==> r < k && sys.rules[r].tree.name == name
  {
    if k == 0 then []
    else RootsTo(sys, name, k - 1) + (if sys.rules[k - 1].tree.name == name then [k - 1] else [])
  }

  /** `get_rules_for_root`: the rules whose pattern starts with a name. */
  function Roots(sys: System, name: Name): (rs: seq<nat>)
    ensures forall r: nat :: r in rs <==> r < |sys.rules| && sys.rules[r].tree.name == name
  {
    RootsTo(sys, name, |sys.rules|)
  }

  function Unseen(sys: System, m: Mark): nat {
    |Numbers(|sys.rules|) - m.seen|
  }

  lemma {:induction false} FewerUnseen(a: set<nat>, b: set<nat>)
    requires a <= b
    ensures |a| <= |b| && (a != b ==> |a| < |b|)
  {
    assert b == a + (b - a);
  }

  lemma SeeingOne(sys: System, m: Mark, r: nat)
    requires r < |sys.rules| && r !in m.seen
    ensures Unseen(sys, m.(seen := m.seen + {r})) < Unseen(sys, m)
  {
    var all := Numbers(|sys.rules|);
    assert r in all - m.seen;
    FewerUnseen(all - (m.seen + {r}), all - m.seen);
  }

  lemma SeeingMore(sys: System, m: Mark, p: Mark)
    requires m.seen <= p.seen
    ensures Unseen(sys, p) <= Unseen(sys, m)
  {
    var all := Numbers(|sys.rules|);
    FewerUnseen(all - p.seen, all - m.seen);
  }

  /** `mark_tree`: label with a rule, then with the chain rules that it enables. */
  function MarkTree(sys: System, m: Mark, r: nat, cost: nat): (p: Mark)
    requires r < |sys.rules| && r !in m.seen
    ensures m.seen + {r} <= p.seen
    decreases Unseen(sys, m), 0
  {
    SeeingOne(sys, m, r);
    var total := cost + sys.rules[r].cost;
    var set_ := SetCost(m, sys.rules[r].nonTerm, total, r);
    MarkChains(sys, set_.(seen := m.seen + {r}), Chains(sys, sys.rules[r].nonTerm), total)
  }

  /** The chain rules in `rs` that have not been seen yet. */
  function MarkChains(sys: System, m: Mark, rs: seq<nat>, cost: nat): (p: Mark)
    requires AreRules(sys, rs)
    ensures m.seen <= p.seen
    decreases Unseen(sys, m), |rs| + 1
  {
    if rs == [] then m
    else
      var p := if rs[0] in m.seen then m else MarkTree(sys, m, rs[0], cost);
      SeeingMore(sys, m, p);
      MarkChains(sys, p, rs[1..], cost)
  }

  /** ----- the labels of a tree ----- */

  /** The cost of the first `n` kids, according to their labels. */
  function KidsCost(sys: System, t: Tree, r: nat, n: nat): nat
    requires sys.Covered(t) && sys.IsTreeRule(r) && n <= sys.Width(t, r)
    requires forall k :: 0 <= k < n ==> KidLabelled(sys, t, r, k)
    decreases t, 1, n
  {
    if n == 0 then 0 else
      sys.KidCovered(t, r, n - 1);
      assert KidLabelled(sys, t, r, n - 1);
      KidsCost(sys, t, r, n - 1) + LabelsOf(sys, sys.Kid(t, r, n - 1)).labels[sys.Goal(t, r, n - 1)].cost
  }

  /** The kid has a label for the goal that the rule leaves for it. */
  predicate KidLabelled(sys: System, t: Tree, r: nat, k: nat)
    requires sys.Covered(t) && sys.IsTreeRule(r) && k < sys.Width(t, r)
    decreases t, 0, 0
  {
    sys.KidCovered(t, r, k);
    sys.Goal(t, r, k) in LabelsOf(sys, sys.Kid(t, r, k)).labels
  }

  /** The rule matches, accepts, and its kids have labels for what it leaves. */
  predicate Usable(sys: System, t: Tree, r: nat)
    requires sys.Covered(t) && r < |sys.rules| && sys.rules[r].tree.name == t.name
    decreases t, 1, 0
  {
    && sys.Matches(t, sys.rules[r].tree)
    && sys.rules[r].accepts(t)
    && forall k :: 0 <= k < sys.Width(t, r) ==> KidLabelled(sys, t, r, k)
  }

  /** What the kids of a usable rule cost. */
  function RuleCost(sys: System, t: Tree, r: nat): nat
    requires sys.Covered(t) && r < |sys.rules| && sys.rules[r].tree.name == t.name
    decreases t, 2, 0
  {
    if Usable(sys, t, r) then KidsCost(sys, t, r, sys.Width(t, r)) else 0
  }

  function LabelsTo(sys: System, t: Tree, n: nat): Mark
    requires sys.Covered(t) && n <= |Roots(sys, t.name)|
    decreases t, 3, n
  {
    if n == 0 then Unmarked else
      var m, r := LabelsTo(sys, t, n - 1), Roots(sys, t.name)[n - 1];
      assert r in Roots(sys, t.name);
      if Usable(sys, t, r) then MarkTree(sys, m.(seen := {}), r, RuleCost(sys, t, r)) else m
  }

  /** `burm_label`: the labels of the root of a tree. */
  function LabelsOf(sys: System, t: Tree): Mark
    requires sys.Covered(t)
    decreases t, 4, 0
  {
    LabelsTo(sys, t, |Roots(sys, t.name)|)
  }
}
