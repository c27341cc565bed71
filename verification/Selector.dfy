/**
  The rule system and the tree selector: rules are added to maps that are
  updated in place, trees are labelled bottom up, and the rules that the labels
  lead to are applied.
 */
module Selector {
  import opened Burg
  import opened BurgMarking
  import opened BurgChains
  import opened BurgSelection
  import BurgCover

  /** ----- adding rules ----- */

  /** The system with one more rule: the rules before it are where they were. */
  lemma {:induction false} RootsKept(sys: System, r: Rule, name: Name, k: nat)
    requires k <= |sys.rules|
    ensures RootsTo(sys.(rules := sys.rules + [r]), name, k) == RootsTo(sys, name, k)
  {
    if k > 0 {
      RootsKept(sys, r, name, k - 1);
    }
  }

  lemma ChainsNext(sys: System, name: Name, k: nat)
    requires 0 < k <= |sys.rules|
    ensures ChainsTo(sys, name, k) ==
      ChainsTo(sys, name, k - 1) + (if sys.IsChain(k - 1) && sys.rules[k - 1].tree.name == name then [k - 1] else [])
  {
    hide System.IsChain;
  }

  lemma NoChains(sys: System, name: Name)
    ensures ChainsTo(sys, name, 0) == []
  {
  }

  lemma SameRule(sys: System, r: Rule, k: nat)
    requires k < |sys.rules|
    ensures var more := sys.(rules := sys.rules + [r]); more.IsChain(k) == sys.IsChain(k) && more.rules[k] == sys.rules[k]
  {
  }

  lemma {:induction false} ChainsKept(sys: System, r: Rule, name: Name, k: nat)
    requires k <= |sys.rules|
    ensures ChainsTo(sys.(rules := sys.rules + [r]), name, k) == ChainsTo(sys, name, k)
  {
    hide ChainsTo, System.IsChain;
    var more := sys.(rules := sys.rules + [r]);
    if k == 0 {
      NoChains(sys, name);
      NoChains(more, name);
    } else {
      ChainsKept(sys, r, name, k - 1);
      ChainsNext(sys, name, k);
      ChainsNext(more, name, k);
      SameRule(sys, r, k - 1);
    }
  }

  lemma OneMoreRule(sys: System, r: Rule, name: Name)
    ensures var more := sys.(rules := sys.rules + [r]);
      && Roots(more, name) == Roots(sys, name) + (if r.tree.name == name then [|sys.rules|] else [])
      && Chains(more, name) == Chains(sys, name) + (if r.tree.name == name && more.IsChain(|sys.rules|) then [|sys.rules|] else [])
  {
    RootsKept(sys, r, name, |sys.rules|);
    ChainsKept(sys, r, name, |sys.rules|);
  }

  lemma {:induction false} NewTerminalRoots(sys: System, t: Name, name: Name, k: nat)
    requires k <= |sys.rules|
    ensures RootsTo(sys.(terminals := sys.terminals + {t}), name, k) == RootsTo(sys, name, k)
  {
    if k > 0 {
      NewTerminalRoots(sys, t, name, k - 1);
    }
  }

  lemma {:induction false} NewTerminal(sys: System, t: Name, name: Name, k: nat)
    requires k <= |sys.rules| && forall j :: 0 <= j < k ==> sys.rules[j].tree.name != t
    ensures ChainsTo(sys.(terminals := sys.terminals + {t}), name, k) == ChainsTo(sys, name, k)
    ensures RootsTo(sys.(terminals := sys.terminals + {t}), name, k) == RootsTo(sys, name, k)
  {
    NewTerminalRoots(sys, t, name, k);
    NewTerminalChains(sys, t, name, k);
  }

  lemma {:induction false} NewTerminalChains(sys: System, t: Name, name: Name, k: nat)
    requires k <= |sys.rules| && forall j :: 0 <= j < k ==> sys.rules[j].tree.name != t
    ensures ChainsTo(sys.(terminals := sys.terminals + {t}), name, k) == ChainsTo(sys, name, k)
  {
    hide ChainsTo, System.IsChain;
    var more := sys.(terminals := sys.terminals + {t});
    if k == 0 {
      NoChains(sys, name);
      NoChains(more, name);
    } else {
      NewTerminalChains(sys, t, name, k - 1);
      ChainsNext(sys, name, k);
      ChainsNext(more, name, k);
      SameChain(sys, t, k - 1);
    }
  }

  lemma SameChain(sys: System, t: Name, r: nat)
    requires r < |sys.rules| && sys.rules[r].tree.name != t
    ensures sys.(terminals := sys.terminals + {t}).IsChain(r) == sys.IsChain(r)
  {
  }

  /** No rule starts with, or leads from, a name that is new. */
  lemma {:induction false} NewName(sys: System, name: Name, k: nat)
    requires k <= |sys.rules| && forall j :: 0 <= j < k ==> sys.rules[j].tree.name != name
    ensures RootsTo(sys, name, k) == [] && ChainsTo(sys, name, k) == []
  {
    if k > 0 {
      NewName(sys, name, k - 1);
    }
  }

  /** The two maps list, for every known name, the rules that start with it and the chain rules that lead from it. */
  ghost predicate Indexed(sys: System, nonTerminals: set<Name>, ruleMap: map<Name, seq<nat>>, chainRules: map<Name, seq<nat>>) {
    && sys.terminals !! nonTerminals
    && ruleMap.Keys == sys.terminals + nonTerminals && chainRules.Keys == nonTerminals
    && (forall r :: 0 <= r < |sys.rules| ==> sys.rules[r].tree.name in ruleMap && sys.rules[r].nonTerm in nonTerminals)
    && (forall n :: n in ruleMap ==> ruleMap[n] == Roots(sys, n))
    && (forall n :: n in chainRules ==> chainRules[n] == Chains(sys, n))
  }

  lemma IndexedKeys(sys: System, nonTerminals: set<Name>, ruleMap: map<Name, seq<nat>>, chainRules: map<Name, seq<nat>>)
    requires Indexed(sys, nonTerminals, ruleMap, chainRules)
    ensures sys.terminals !! nonTerminals && ruleMap.Keys == sys.terminals + nonTerminals && chainRules.Keys == nonTerminals
  {
  }

  lemma AllWithTerminal(sys: System, name: Name)
    requires forall j :: 0 <= j < |sys.rules| ==> sys.rules[j].tree.name != name
    ensures var more := sys.(terminals := sys.terminals + {name});
      forall n {:trigger Roots(more, n)} {:trigger Chains(more, n)} :: Roots(more, n) == Roots(sys, n) && Chains(more, n) == Chains(sys, n)
    ensures Roots(sys, name) == []
  {
    var more := sys.(terminals := sys.terminals + {name});
    NewName(sys, name, |sys.rules|);
    forall n
      ensures Roots(more, n) == Roots(sys, n) && Chains(more, n) == Chains(sys, n)
    {
      NewTerminal(sys, name, n, |sys.rules|);
    }
  }

  lemma IndexedTerminal(sys: System, nonTerminals: set<Name>, ruleMap: map<Name, seq<nat>>, chainRules: map<Name, seq<nat>>, name: Name)
    requires Indexed(sys, nonTerminals, ruleMap, chainRules) && name !in ruleMap
    ensures Indexed(sys.(terminals := sys.terminals + {name}), nonTerminals, ruleMap[name := []], chainRules)
  {
    hide Roots, Chains;
    AllWithTerminal(sys, name);
  }

  lemma IndexedNonTerminal(sys: System, nonTerminals: set<Name>, ruleMap: map<Name, seq<nat>>, chainRules: map<Name, seq<nat>>, name: Name)
    requires Indexed(sys, nonTerminals, ruleMap, chainRules) && name !in ruleMap
    ensures Indexed(sys, nonTerminals + {name}, ruleMap[name := []], chainRules[name := []])
  {
    NewName(sys, name, |sys.rules|);
  }

  lemma AllWithRule(sys: System, r: Rule)
    ensures var more := sys.(rules := sys.rules + [r]);
      && (forall n {:trigger Roots(more, n)} :: n != r.tree.name ==> Roots(more, n) == Roots(sys, n))
      && (forall n {:trigger Chains(more, n)} :: n != r.tree.name || !more.IsChain(|sys.rules|) ==> Chains(more, n) == Chains(sys, n))
      && Roots(more, r.tree.name) == Roots(sys, r.tree.name) + [|sys.rules|]
      && (more.IsChain(|sys.rules|) ==> Chains(more, r.tree.name) == Chains(sys, r.tree.name) + [|sys.rules|])
  {
    var more := sys.(rules := sys.rules + [r]);
    forall n
      ensures Roots(more, n) == Roots(sys, n) + (if r.tree.name == n then [|sys.rules|] else [])
      ensures Chains(more, n) == Chains(sys, n) + (if r.tree.name == n && more.IsChain(|sys.rules|) then [|sys.rules|] else [])
    {
      OneMoreRule(sys, r, n);
    }
    hide Roots, Chains;
    forall n
      ensures Roots(sys, n) + [] == Roots(sys, n) && Chains(sys, n) + [] == Chains(sys, n)
    {
    }
  }

  lemma IndexedRule(sys: System, nonTerminals: set<Name>, ruleMap: map<Name, seq<nat>>, chainRules: map<Name, seq<nat>>, r: Rule)
    requires Indexed(sys, nonTerminals, ruleMap, chainRules) && r.tree.name in ruleMap && r.nonTerm in nonTerminals
    ensures var n := r.tree.name;
      Indexed(sys.(rules := sys.rules + [r]), nonTerminals, ruleMap[n := ruleMap[n] + [|sys.rules|]],
        if n !in sys.terminals && r.tree.children == [] then chainRules[n := chainRules[n] + [|sys.rules|]] else chainRules)
  {
    hide Roots, Chains;
    AllWithRule(sys, r);
  }

  class BurgSystem {
    var terminals: set<Name>
    var nonTerminals: set<Name>
    var rules: seq<Rule>
    var ruleMap: map<Name, seq<nat>>
    var chainRules: map<Name, seq<nat>>

    ghost function Model(): System
      reads this
    {
      System(terminals, rules)
    }

    ghost predicate Valid()
      reads this
    {
      Indexed(Model(), nonTerminals, ruleMap, chainRules)
    }

    constructor ()
      ensures Valid() && Model() == System({}, []) && nonTerminals == {}
    {
      terminals, nonTerminals, rules, ruleMap, chainRules := {}, {}, [], map[], map[];
    }

    method AddTerminal(name: Name) returns (ok: bool)
      requires Valid()
      modifies this`terminals, this`ruleMap
      ensures Valid() && (ok <==> name !in nonTerminals)
      ensures terminals == if ok then old(terminals) + {name} else old(terminals)
    {
      ok := name !in nonTerminals;
      if ok && name !in terminals {
        IndexedTerminal(Model(), nonTerminals, ruleMap, chainRules, name);
        hide Indexed;
        terminals := terminals + {name};
        ruleMap := ruleMap[name := []];
      } else if ok {
        assert terminals + {name} == terminals;
      }
    }

    /** `non_term`: a name becomes a non-terminal, unless it is a terminal. */
    method InstallNonTerm(name: Name) returns (ok: bool)
      requires Valid()
      modifies this`nonTerminals, this`ruleMap, this`chainRules
      ensures Valid() && (ok <==> name !in terminals)
      ensures nonTerminals == if ok then old(nonTerminals) + {name} else old(nonTerminals)
    {
      ok := name !in terminals;
      if ok && name !in nonTerminals {
        IndexedNonTerminal(Model(), nonTerminals, ruleMap, chainRules, name);
        hide Indexed;
        nonTerminals := nonTerminals + {name};
        ruleMap, chainRules := ruleMap[name := []], chainRules[name := []];
      } else if ok {
        assert nonTerminals + {name} == nonTerminals;
      }
    }

    /** Adds a rule; without `ok`, the rule makes a terminal or starts with an unknown name. */
    method AddRule(nonTerm: Name, tree: Tree, cost: nat, accepts: Tree -> bool) returns (ok: bool)
      requires Valid()
      modifies this
      ensures ok <==> nonTerm !in old(terminals) && (tree.children == [] || tree.name in old(terminals + nonTerminals) + {nonTerm})
      ensures ok ==> Valid() && Model() == old(Model()).(rules := old(rules) + [Rule(nonTerm, tree, cost, accepts)])
      ensures ok ==> nonTerminals == old(nonTerminals) + {nonTerm} + (if tree.name in terminals then {} else {tree.name})
    {
      hide Indexed;
      var chain := tree.children == [] && tree.name !in terminals;
      if chain {
        var installed := InstallNonTerm(tree.name);
      }
      ok := InstallNonTerm(nonTerm);
      if !ok || tree.name !in terminals + nonTerminals {
        return false;
      }
      Register(Rule(nonTerm, tree, cost, accepts));
    }

    /** The rule gets the next number, and is found under its root name. */
    method Register(rule: Rule)
      requires Valid() && rule.nonTerm in nonTerminals && rule.tree.name in terminals + nonTerminals
      modifies this`rules, this`ruleMap, this`chainRules
      ensures Valid() && rules == old(rules) + [rule]
    {
      hide Indexed;
      IndexedKeys(Model(), nonTerminals, ruleMap, chainRules);
      IndexedRule(Model(), nonTerminals, ruleMap, chainRules, rule);
      if rule.tree.children == [] && rule.tree.name !in terminals {
        chainRules := chainRules[rule.tree.name := chainRules[rule.tree.name] + [|rules|]];
      }
      ruleMap := ruleMap[rule.tree.name := ruleMap[rule.tree.name] + [|rules|]];
      rules := rules + [rule];
    }
  }

  /** ----- the selector ----- */

  type States = map<Tree, Mark>

  /** The tree and everything below it is labelled. */
  predicate Present(states: States, t: Tree)
    decreases t
  {
    t in states && forall k :: 0 <= k < |t.children| ==> Present(states, t.children[k])
  }

  ghost predicate Correct(sys: System, states: States) {
    forall t :: t in states ==> sys.Covered(t) && states[t] == LabelsOf(sys, t)
  }

  lemma {:induction false} PresentGrows(states: States, more: States, t: Tree)
    requires Present(states, t) && states.Keys <= more.Keys
    ensures Present(more, t)
    decreases t
  {
    forall k | 0 <= k < |t.children|
      ensures Present(more, t.children[k])
    {
      PresentGrows(states, more, t.children[k]);
    }
  }

  lemma {:induction false} KidsToPresent(sys: System, states: States, t: Tree, p: Tree, n: nat)
    requires n <= |t.children| && n <= |p.children| && forall k :: 0 <= k < |t.children| ==> Present(states, t.children[k])
    ensures forall k :: k in sys.KidsTo(t, p, n) ==> Present(states, k)
    decreases p, n
  {
    if n > 0 {
      KidsToPresent(sys, states, t, p, n - 1);
      KidsPresent(sys, states, t.children[n - 1], p.children[n - 1]);
    }
  }

  lemma {:induction false} KidsPresent(sys: System, states: States, t: Tree, p: Tree)
    requires Present(states, t)
    ensures forall k :: k in sys.Kids(t, p) ==> Present(states, k)
    decreases p, |p.children| + 1
  {
    if p.name in sys.terminals {
      KidsToPresent(sys, states, t, p, if |t.children| < |p.children| then |t.children| else |p.children|);
    }
  }

  /** The kids of a rule that is not a chain rule are labelled once the children are. */
  lemma KidIsPresent(sys: System, states: States, t: Tree, r: nat, k: nat)
    requires sys.IsTreeRule(r) && k < sys.Width(t, r)
    requires forall i :: 0 <= i < |t.children| ==> Present(states, t.children[i])
    ensures sys.Kid(t, r, k) in states
  {
    var p := sys.rules[r].tree;
    KidsToPresent(sys, states, t, p, if |t.children| < |p.children| then |t.children| else |p.children|);
    assert sys.Kid(t, r, k) in sys.Kids(t, p);
  }

  /** What is emitted for a tiling: the kids first, then the rule at the root. */
  function EmissionOfKids(sys: System, t: Tree, d: Tiling, n: nat): seq<(Tree, nat)>
    requires d.rule < |sys.rules| && n <= |d.kids| == sys.Width(t, d.rule)
    decreases d, n
  {
    if n == 0 then [] else
      EmissionOfKids(sys, t, d, n - 1) + Emission(sys, sys.Kid(t, d.rule, n - 1), d.kids[n - 1])
  }

  function Emission(sys: System, t: Tree, d: Tiling): seq<(Tree, nat)>
    decreases d, |d.kids| + 1
  {
    if d.rule < |sys.rules| && |d.kids| == sys.Width(t, d.rule) then EmissionOfKids(sys, t, d, |d.kids|) + [(t, d.rule)] else []
  }

  lemma MarkTreeStarts(sys: System, m: Mark, r: nat, cost: nat)
    requires r < |sys.rules| && r !in m.seen
    ensures var total := cost + sys.rules[r].cost;
      var s := SetCost(m, sys.rules[r].nonTerm, total, r).(seen := m.seen + {r});
      && Unseen(sys, s) == Unseen(sys, m.(seen := m.seen + {r}))
      && MarkTree(sys, m, r, cost) == MarkChains(sys, s, Chains(sys, sys.rules[r].nonTerm), total)
  {
    hide Chains, Numbers, MarkChains;
  }

  lemma SetTwice(states: States, t: Tree, a: Mark, b: Mark)
    ensures states[t := a][t := b] == states[t := b] && states[t := a][t] == a
  {
  }

  predicate LabelledKid(sys: System, t: Tree, r: nat, k: nat)
    requires sys.Covered(t) && sys.IsTreeRule(r) && k < sys.Width(t, r)
  {
    KidLabelled(sys, t, r, k)
  }

  lemma KidsCostNext(sys: System, t: Tree, r: nat, n: nat)
    requires sys.Covered(t) && sys.IsTreeRule(r) && n < sys.Width(t, r)
    requires forall k :: 0 <= k < n + 1 ==> LabelledKid(sys, t, r, k)
    ensures forall k :: 0 <= k < n + 1 ==> KidLabelled(sys, t, r, k)
    ensures sys.Covered(sys.Kid(t, r, n)) && sys.Goal(t, r, n) in LabelsOf(sys, sys.Kid(t, r, n)).labels
    ensures KidsCost(sys, t, r, n + 1) == KidsCost(sys, t, r, n) + LabelsOf(sys, sys.Kid(t, r, n)).labels[sys.Goal(t, r, n)].cost
  {
    sys.KidCovered(t, r, n);
    assert LabelledKid(sys, t, r, n);
    assert forall k :: 0 <= k < n + 1 ==> LabelledKid(sys, t, r, k) ==> KidLabelled(sys, t, r, k);
  }

  lemma UsableIs(sys: System, t: Tree, r: nat)
    requires sys.Covered(t) && r < |sys.rules| && sys.rules[r].tree.name == t.name
    ensures sys.IsTreeRule(r)
    ensures Usable(sys, t, r) <==>
      (sys.Matches(t, sys.rules[r].tree) && sys.rules[r].accepts(t) && forall k :: 0 <= k < sys.Width(t, r) ==> LabelledKid(sys, t, r, k))
    ensures Usable(sys, t, r) ==>
      (forall k :: 0 <= k < sys.Width(t, r) ==> KidLabelled(sys, t, r, k)) && RuleCost(sys, t, r) == KidsCost(sys, t, r, sys.Width(t, r))
  {
    assert forall k :: 0 <= k < sys.Width(t, r) ==> (LabelledKid(sys, t, r, k) <==> KidLabelled(sys, t, r, k));
    if sys.Matches(t, sys.rules[r].tree) && sys.rules[r].accepts(t) && forall k :: 0 <= k < sys.Width(t, r) ==> LabelledKid(sys, t, r, k) {
      assert forall k :: 0 <= k < sys.Width(t, r) ==> KidLabelled(sys, t, r, k);
      assert Usable(sys, t, r);
    }
  }

  /** ----- the order of what is emitted ----- */

  /** What an emission leaves when every rule takes as many results off a stack as its tree has kids
      for it, and puts back a tiling. */
  function Assembled(sys: System, stack: seq<Tiling>, e: seq<(Tree, nat)>): seq<Tiling>
    decreases |e|
  {
    if e == [] then stack else
      var (t, r) := e[0];
      var n := if r < |sys.rules| then sys.Width(t, r) else 0;
      if |stack| < n then stack else
      Assembled(sys, stack[..|stack| - n] + [Tile(r, stack[|stack| - n..])], e[1..])
  }

  /** The tiling has as many kids everywhere as its rules leave. */
  predicate Fitting(sys: System, t: Tree, d: Tiling)
    decreases d
  {
    && d.rule < |sys.rules| && |d.kids| == sys.Width(t, d.rule)
    && forall k :: 0 <= k < |d.kids| ==> Fitting(sys, sys.Kid(t, d.rule, k), d.kids[k])
  }

  lemma {:induction false} DerivesFitting(sys: System, t: Tree, goal: Name, d: Tiling)
    requires Derives(sys, t, goal, d)
    ensures Fitting(sys, t, d)
    decreases d
  {
    forall k | 0 <= k < |d.kids|
      ensures Fitting(sys, sys.Kid(t, d.rule, k), d.kids[k])
    {
      DerivesFitting(sys, sys.Kid(t, d.rule, k), sys.Goal(t, d.rule, k), d.kids[k]);
    }
  }

  lemma {:induction false} KidsAssembled(sys: System, t: Tree, d: Tiling, n: nat, stack: seq<Tiling>, rest: seq<(Tree, nat)>)
    requires Fitting(sys, t, d) && n <= |d.kids|
    ensures Assembled(sys, stack, EmissionOfKids(sys, t, d, n) + rest) == Assembled(sys, stack + d.kids[..n], rest)
    decreases d, n
  {
    hide Assembled;
    if n == 0 {
      assert EmissionOfKids(sys, t, d, 0) + rest == rest && stack + d.kids[..0] == stack;
    } else {
      var kid := Emission(sys, sys.Kid(t, d.rule, n - 1), d.kids[n - 1]);
      assert EmissionOfKids(sys, t, d, n) + rest == EmissionOfKids(sys, t, d, n - 1) + (kid + rest);
      KidsAssembled(sys, t, d, n - 1, stack, kid + rest);
      TilingAssembled(sys, sys.Kid(t, d.rule, n - 1), d.kids[n - 1], stack + d.kids[..n - 1], rest);
      assert stack + d.kids[..n - 1] + [d.kids[n - 1]] == stack + d.kids[..n];
    }
  }

  /** The emission of a tiling is its postfix form: every rule comes right after what it builds on, in
      order, and the tiling can be read back from it. */
  lemma {:induction false} TilingAssembled(sys: System, t: Tree, d: Tiling, stack: seq<Tiling>, rest: seq<(Tree, nat)>)
    requires Fitting(sys, t, d)
    ensures Assembled(sys, stack, Emission(sys, t, d) + rest) == Assembled(sys, stack + [d], rest)
    decreases d, |d.kids| + 1
  {
    var n := |d.kids|;
    var kids, last := EmissionOfKids(sys, t, d, n), [(t, d.rule)];
    assert kids + last + rest == kids + (last + rest);
    KidsAssembled(sys, t, d, n, stack, last + rest);
    assert d.kids[..n] == d.kids;
    assert (last + rest)[0] == (t, d.rule) && (last + rest)[1..] == rest;
    var s := stack + d.kids;
    assert s[|s| - n..] == d.kids && s[..|s| - n] == stack;
    assert Tile(d.rule, d.kids) == d;
  }

  datatype Selection = Selected(tiling: Tiling) | NotCovered

  class TreeSelector {
    const sys: System
    var states: States
    var emitted: seq<(Tree, nat)>

    constructor (sys: System)
      ensures this.sys == sys && states == map[] && emitted == []
    {
      this.sys := sys;
      states, emitted := map[], [];
    }

    /** Label the node with a rule, and follow the chain rules that have not been seen. */
    method MarkTree(t: Tree, r: nat, cost: nat)
      requires t in states && r < |sys.rules| && r !in states[t].seen
      modifies this`states
      ensures states == old(states)[t := Burg.MarkTree(sys, old(states)[t], r, cost)]
      decreases Unseen(sys, states[t]), 0
    {
      hide SetCost, Chains, Unseen, Burg.MarkTree, Burg.MarkChains;
      var total := cost + sys.rules[r].cost;
      SeeingOne(sys, states[t], r);
      MarkTreeStarts(sys, states[t], r, cost);
      SetTwice(states, t, SetCost(states[t], sys.rules[r].nonTerm, total, r).(seen := states[t].seen + {r}),
        Burg.MarkTree(sys, states[t], r, cost));
      states := states[t := SetCost(states[t], sys.rules[r].nonTerm, total, r).(seen := states[t].seen + {r})];
      MarkChains(t, Chains(sys, sys.rules[r].nonTerm), total);
    }

    method MarkChains(t: Tree, rs: seq<nat>, cost: nat)
      requires t in states && AreRules(sys, rs)
      modifies this`states
      ensures states == old(states)[t := Burg.MarkChains(sys, old(states)[t], rs, cost)]
      decreases Unseen(sys, states[t]), |rs| + 1
    {
      if rs != [] {
        if rs[0] !in states[t].seen {
          SeeingMore(sys, states[t], Burg.MarkTree(sys, states[t], rs[0], cost));
          MarkTree(t, rs[0], cost);
        }
        MarkChains(t, rs[1..], cost);
      } else {
        assert states == states[t := states[t]];
      }
    }

    /** Whether the kids have labels for what the rule leaves, and what they cost. */
    method TryRule(t: Tree, r: nat) returns (ready: bool, cost: nat)
      requires sys.Covered(t) && sys.IsTreeRule(r) && sys.rules[r].tree.name == t.name
      requires forall k :: 0 <= k < sys.Width(t, r) ==> sys.Kid(t, r, k) in states
      requires forall s :: s in states && s < t ==> sys.Covered(s) && states[s] == LabelsOf(sys, s)
      ensures ready <==> forall k :: 0 <= k < sys.Width(t, r) ==> LabelledKid(sys, t, r, k)
      ensures ready ==> (forall k :: 0 <= k < sys.Width(t, r) ==> KidLabelled(sys, t, r, k)) && cost == KidsCost(sys, t, r, sys.Width(t, r))
    {
      hide LabelsOf;
      ready, cost := true, 0;
      var k := 0;
      while k < sys.Width(t, r)
        invariant k <= sys.Width(t, r)
        invariant ready <==> forall i :: 0 <= i < k ==> LabelledKid(sys, t, r, i)
        invariant ready ==> (forall i :: 0 <= i < k ==> KidLabelled(sys, t, r, i)) && cost == KidsCost(sys, t, r, k)
      {
        sys.KidCovered(t, r, k);
        var kid, goal := sys.Kid(t, r, k), sys.Goal(t, r, k);
        assert LabelledKid(sys, t, r, k) <==> goal in LabelsOf(sys, kid).labels;
        if ready && goal in states[kid].labels {
          assert forall i :: 0 <= i < k + 1 ==> LabelledKid(sys, t, r, i);
          KidsCostNext(sys, t, r, k);
          cost := cost + states[kid].labels[goal].cost;
        } else {
          ready := false;
        }
        k := k + 1;
      }
    }

    /** `burm_label`: labels the tree bottom up. */
    method BurmLabel(t: Tree)
      requires sys.Covered(t) && Correct(sys, states)
      modifies this`states
      ensures Correct(sys, states) && Present(states, t) && old(states.Keys) <= states.Keys
      decreases t, 1
    {
      hide LabelsOf, Correct;
      var k := 0;
      while k < |t.children|
        invariant k <= |t.children| && Correct(sys, states) && old(states.Keys) <= states.Keys
        invariant forall i :: 0 <= i < k ==> Present(states, t.children[i])
      {
        ghost var before := states;
        BurmLabel(t.children[k]);
        forall i | 0 <= i < k
          ensures Present(states, t.children[i])
        {
          PresentGrows(before, states, t.children[i]);
        }
        k := k + 1;
      }
      LabelRoot(t);
    }

    /** Tries every rule that starts with the name of the root. */
    method LabelRoot(t: Tree)
      requires sys.Covered(t) && Correct(sys, states)
      requires forall i :: 0 <= i < |t.children| ==> Present(states, t.children[i])
      modifies this`states
      ensures Correct(sys, states) && Present(states, t) && old(states.Keys) <= states.Keys
      decreases t, 0
    {
      ghost var before := states;
      states := states[t := Unmarked];
      var roots := Roots(sys, t.name);
      var n := 0;
      hide LabelsOf;
      while n < |roots|
        invariant n <= |roots|
        invariant states == before[t := LabelsTo(sys, t, n)]
      {
        RootIsGrounded(sys, t, n, states[t]);
        BelowIsLabelled(sys, before, states, t, roots[n]);
        UsableIs(sys, t, roots[n]);
        TryRoot(t, roots[n], before, LabelsTo(sys, t, n));
        n := n + 1;
      }
      LabelledCorrect(sys, before, t);
    }

    /** One rule: when it can be used, its label is set and the chain rules are followed. */
    method TryRoot(t: Tree, r: nat, ghost before: States, ghost m: Mark)
      requires sys.Covered(t) && sys.IsTreeRule(r) && sys.rules[r].tree.name == t.name
      requires states == before[t := m]
      requires forall k :: 0 <= k < sys.Width(t, r) ==> sys.Kid(t, r, k) in states
      requires forall s :: s in states && s < t ==> sys.Covered(s) && states[s] == LabelsOf(sys, s)
      modifies this`states
      ensures states == before[t := if Usable(sys, t, r) then Burg.MarkTree(sys, m.(seen := {}), r, RuleCost(sys, t, r)) else m]
    {
      UsableIs(sys, t, r);
      hide LabelsOf, Usable, RuleCost, KidsCost, Burg.MarkTree;
      if sys.Matches(t, sys.rules[r].tree) {
        var ready, cost := TryRule(t, r);
        if ready && sys.rules[r].accepts(t) {
          states := states[t := states[t].(seen := {})];
          SetTwice(before, t, m, m.(seen := {}));
          SetTwice(before, t, m.(seen := {}), Burg.MarkTree(sys, m.(seen := {}), r, cost));
          MarkTree(t, r, cost);
        }
      }
    }

    /** `apply_rules`: follows the labels, and emits the rules below before the one above. */
    method ApplyRules(t: Tree, goal: Name) returns (d: Tiling)
      requires sys.Covered(t) && Correct(sys, states) && Present(states, t) && goal in LabelsOf(sys, t).labels
      modifies this`emitted
      ensures d == TilingOf(sys, t, goal) && emitted == old(emitted) + Emission(sys, t, d)
      decreases t, CostIn(LabelsOf(sys, t), goal) + 1, StampOf(LabelsOf(sys, t), goal), 0
    {
      assert t in states && states[t] == LabelsOf(sys, t);
      LabelIs(sys, t, goal);
      hide LabelsOf, Correct;
      var r := states[t].labels[goal].rule;
      ghost var e := emitted;
      if sys.IsChain(r) {
        sys.ChainHasOneKid(t, r);
        var kid := ApplyRules(t, sys.rules[r].tree.name);
        d := Tile(r, [kid]);
        ChainEmission(sys, t, r, kid);
      } else {
        var kids := ApplyKids(t, r);
        d := Tile(r, kids);
        RuleEmission(sys, t, d);
      }
      emitted := emitted + [(t, r)];
    }

    method ApplyKids(t: Tree, r: nat) returns (ds: seq<Tiling>)
      requires sys.Covered(t) && Correct(sys, states) && Present(states, t)
      requires sys.IsTreeRule(r)
      requires forall k :: 0 <= k < sys.Width(t, r) ==> KidLabelled(sys, t, r, k)
      modifies this`emitted
      ensures ds == TilingsOfKids(sys, t, r, sys.Width(t, r))
      ensures emitted == old(emitted) + EmissionOfKids(sys, t, Tile(r, ds), |ds|)
      decreases t, 0, 0, 1
    {
      hide LabelsOf, Correct, Fitting, Assembled, Derives;
      ghost var e := emitted;
      ds := [];
      var k := 0;
      while k < sys.Width(t, r)
        invariant k <= sys.Width(t, r) && ds == TilingsOfKids(sys, t, r, k)
        invariant emitted == e + EmittedKids(sys, t, r, ds)
      {
        sys.KidCovered(t, r, k);
        KidPresent(sys, states, t, r, k);
        assert KidLabelled(sys, t, r, k);
        var d := ApplyRules(sys.Kid(t, r, k), sys.Goal(t, r, k));
        EmittedKidsNext(sys, t, r, ds, d);
        ds := ds + [d];
        k := k + 1;
      }
      EmittedAllKids(sys, t, r, ds);
    }

    /** Labels the tree and applies the rules for the goal.  It is refused exactly when no tiling
        derives the goal; otherwise the emission is that of a tiling whose patterns put together are the
        tree, the cheapest one when there is at most one chain of rules between two non-terminals. */
    method Gen(t: Tree, goal: Name) returns (r: Selection)
      requires sys.Covered(t) && Correct(sys, states)
      modifies this
      ensures Correct(sys, states)
      ensures r.NotCovered? <==> forall d :: !Derives(sys, t, goal, d)
      ensures r.NotCovered? ==> emitted == old(emitted)
      ensures r.Selected? ==> Derives(sys, t, goal, r.tiling) && emitted == old(emitted) + Emission(sys, t, r.tiling)
      ensures r.Selected? ==> Assembled(sys, [], emitted[|old(emitted)|..]) == [r.tiling]
      ensures r.Selected? ==> forall arity: map<Name, nat> :: BurgCover.AllRegular(sys, arity) && BurgCover.Regular(sys, arity, t) ==>
        BurgCover.SameTree(BurgCover.Expanded(sys, r.tiling), t)
      ensures r.Selected? && UniquePaths(sys) ==> forall d :: Derives(sys, t, goal, d) ==> CostOf(sys, r.tiling) <= CostOf(sys, d)
    {
      BurmLabel(t);
      LabelledWhenDerivable(sys, t, goal);
      assert states[t] == LabelsOf(sys, t);
      hide LabelsOf, Correct, Derives, UniquePaths;
      if goal !in states[t].labels {
        return NotCovered;
      }
      var d := ApplyRules(t, goal);
      r := Selected(d);
      TilingIsSound(sys, t, goal);
      EmittedIsRead(sys, t, goal, d, old(emitted), emitted);
      forall arity: map<Name, nat> | BurgCover.AllRegular(sys, arity) && BurgCover.Regular(sys, arity, t)
        ensures BurgCover.SameTree(BurgCover.Expanded(sys, d), t)
      {
        BurgCover.TilingIsTree(sys, arity, t, goal, d);
      }
      forall x | UniquePaths(sys) && Derives(sys, t, goal, x)
        ensures CostOf(sys, d) <= CostOf(sys, x)
      {
        TilingIsCheapest(sys, t, goal, x);
      }
    }
  }

  lemma EmittedIsRead(sys: System, t: Tree, goal: Name, d: Tiling, before: seq<(Tree, nat)>, after: seq<(Tree, nat)>)
    requires Derives(sys, t, goal, d) && after == before + Emission(sys, t, d)
    ensures Assembled(sys, [], after[|before|..]) == [d]
  {
    DerivesFitting(sys, t, goal, d);
    var none: seq<(Tree, nat)> := [];
    TilingAssembled(sys, t, d, [], none);
    assert after[|before|..] == Emission(sys, t, d) + none;
    assert [] + [d] == [d];
  }

  lemma BelowIsLabelled(sys: System, before: States, states: States, t: Tree, r: nat)
    requires Correct(sys, before) && sys.IsTreeRule(r) && t in states && states == before[t := states[t]]
    requires forall i :: 0 <= i < |t.children| ==> Present(before, t.children[i])
    ensures forall k :: 0 <= k < sys.Width(t, r) ==> sys.Kid(t, r, k) in states
    ensures forall s :: s in states && s < t ==> sys.Covered(s) && states[s] == LabelsOf(sys, s)
  {
    forall k | 0 <= k < sys.Width(t, r)
      ensures sys.Kid(t, r, k) in states
    {
      KidIsPresent(sys, before, t, r, k);
    }
  }

  lemma LabelledCorrect(sys: System, before: States, t: Tree)
    requires sys.Covered(t) && Correct(sys, before) && forall i :: 0 <= i < |t.children| ==> Present(before, t.children[i])
    ensures var after := before[t := LabelsOf(sys, t)]; Correct(sys, after) && Present(after, t)
  {
    var after := before[t := LabelsOf(sys, t)];
    forall i | 0 <= i < |t.children|
      ensures Present(after, t.children[i])
    {
      PresentGrows(before, after, t.children[i]);
    }
  }

  lemma KidPresent(sys: System, states: States, t: Tree, r: nat, k: nat)
    requires r < |sys.rules| && k < sys.Width(t, r) && Present(states, t)
    ensures Present(states, sys.Kid(t, r, k))
  {
    KidsPresent(sys, states, t, sys.rules[r].tree);
    assert sys.Kid(t, r, k) in sys.Kids(t, sys.rules[r].tree);
  }

  lemma ChainEmission(sys: System, t: Tree, r: nat, kid: Tiling)
    requires sys.IsChain(r)
    ensures Emission(sys, t, Tile(r, [kid])) == Emission(sys, t, kid) + [(t, r)]
  {
    sys.ChainHasOneKid(t, r);
    var d := Tile(r, [kid]);
    assert EmissionOfKids(sys, t, d, 1) == EmissionOfKids(sys, t, d, 0) + Emission(sys, t, kid);
  }

  lemma RuleEmission(sys: System, t: Tree, d: Tiling)
    requires d.rule < |sys.rules| && |d.kids| == sys.Width(t, d.rule)
    ensures Emission(sys, t, d) == EmissionOfKids(sys, t, d, |d.kids|) + [(t, d.rule)]
  {
  }

  /** What the first kids emit. */
  function EmittedKids(sys: System, t: Tree, r: nat, ds: seq<Tiling>): seq<(Tree, nat)>
    requires r < |sys.rules| && |ds| <= sys.Width(t, r)
  {
    if ds == [] then [] else
      EmittedKids(sys, t, r, ds[..|ds| - 1]) + Emission(sys, sys.Kid(t, r, |ds| - 1), ds[|ds| - 1])
  }

  lemma EmittedKidsNext(sys: System, t: Tree, r: nat, ds: seq<Tiling>, d: Tiling)
    requires r < |sys.rules| && |ds| < sys.Width(t, r)
    ensures EmittedKids(sys, t, r, ds + [d]) == EmittedKids(sys, t, r, ds) + Emission(sys, sys.Kid(t, r, |ds|), d)
  {
    assert (ds + [d])[..|ds|] == ds;
  }

  lemma {:induction false} EmittedSoFar(sys: System, t: Tree, r: nat, ds: seq<Tiling>, n: nat)
    requires r < |sys.rules| && n <= |ds| == sys.Width(t, r)
    ensures EmissionOfKids(sys, t, Tile(r, ds), n) == EmittedKids(sys, t, r, ds[..n])
  {
    if n > 0 {
      EmittedSoFar(sys, t, r, ds, n - 1);
      assert ds[..n][..n - 1] == ds[..n - 1];
    }
  }

  lemma EmittedAllKids(sys: System, t: Tree, r: nat, ds: seq<Tiling>)
    requires r < |sys.rules| && |ds| == sys.Width(t, r)
    ensures EmissionOfKids(sys, t, Tile(r, ds), |ds|) == EmittedKids(sys, t, r, ds)
  {
    EmittedSoFar(sys, t, r, ds, |ds|);
    assert ds[..|ds|] == ds;
  }
}
