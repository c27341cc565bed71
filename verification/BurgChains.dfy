/**
  Chain rules and cost: when there is at most one chain of rules between two
  non-terminals, marking leaves no label that a chain rule could improve.
 */
module BurgChains {
  import opened Burg
  import opened BurgMarking

  /** A sequence of chain rules that leads from one non-terminal to another. */
  predicate IsPath(sys: System, from: Name, path: seq<nat>, to: Name)
    decreases |path|
  {
    if path == [] then from == to
    else sys.IsChain(path[0]) && From(sys, path[0]) == from && IsPath(sys, To(sys, path[0]), path[1..], to)
  }

  ghost predicate UniquePaths(sys: System) {
    forall from, to, p, q :: IsPath(sys, from, p, to) && IsPath(sys, from, q, to) ==> p == q
  }

  /** The rule ends some path from the non-terminal. */
  ghost predicate Reached(sys: System, from: Name, r: nat) {
    exists p, to :: p != [] && IsPath(sys, from, p, to) && p[|p| - 1] == r
  }

  lemma {:induction false} PathEnd(sys: System, from: Name, p: seq<nat>, to: Name)
    requires IsPath(sys, from, p, to) && p != []
    ensures p[|p| - 1] < |sys.rules| && To(sys, p[|p| - 1]) == to
    decreases |p|
  {
    if |p| == 1 {
      assert p[1..] == [];
    } else {
      PathEnd(sys, To(sys, p[0]), p[1..], to);
    }
  }

  lemma PathStarts(sys: System, r: nat, p: seq<nat>, to: Name)
    requires sys.IsChain(r) && IsPath(sys, To(sys, r), p, to)
    ensures IsPath(sys, From(sys, r), [r] + p, to)
  {
    assert ([r] + p)[1..] == p;
  }

  /** A rule is not reached from where it leads to. */
  lemma NoCycle(sys: System, r: nat)
    requires UniquePaths(sys) && r < |sys.rules|
    ensures !Reached(sys, To(sys, r), r)
  {
    if Reached(sys, To(sys, r), r) {
      var p, to :| p != [] && IsPath(sys, To(sys, r), p, to) && p[|p| - 1] == r;
      PathEnd(sys, To(sys, r), p, to);
      assert IsPath(sys, To(sys, r), [], To(sys, r));
    }
  }

  /** Different chain rules from one non-terminal reach different rules. */
  lemma Apart(sys: System, n: Name, r: nat, x: nat, y: nat)
    requires UniquePaths(sys) && sys.IsChain(x) && sys.IsChain(y) && From(sys, x) == From(sys, y) == n && x != y
    requires r == x || Reached(sys, To(sys, x), r)
    ensures r != y && !Reached(sys, To(sys, y), r)
  {
    var p := PathTo(sys, x, r);
    if r == y || Reached(sys, To(sys, y), r) {
      var q := PathTo(sys, y, r);
    }
  }

  lemma PathTo(sys: System, x: nat, r: nat) returns (p: seq<nat>)
    requires sys.IsChain(x) && (r == x || Reached(sys, To(sys, x), r))
    ensures p != [] && p[0] == x && r < |sys.rules| && IsPath(sys, From(sys, x), p, To(sys, r))
  {
    if r == x {
      p := [x];
      assert IsPath(sys, To(sys, x), [], To(sys, x));
      PathStarts(sys, x, [], To(sys, x));
    } else {
      var q, to :| q != [] && IsPath(sys, To(sys, x), q, to) && q[|q| - 1] == r;
      PathEnd(sys, To(sys, x), q, to);
      p := [x] + q;
      PathStarts(sys, x, q, to);
    }
  }

  /** What is reached after a chain rule is reached from before it. */
  lemma ReachedBefore(sys: System, x: nat, r: nat)
    requires sys.IsChain(x) && (r == x || Reached(sys, To(sys, x), r))
    ensures Reached(sys, From(sys, x), r)
  {
    var p := PathTo(sys, x, r);
    if r == x {
      assert IsPath(sys, To(sys, x), [], To(sys, x));
      PathStarts(sys, x, [], To(sys, x));
      assert [x] + [] == [x];
      assert [x][|[x]| - 1] == r;
    } else {
      var q, to :| q != [] && IsPath(sys, To(sys, x), q, to) && q[|q| - 1] == r;
      PathStarts(sys, x, q, to);
      assert ([x] + q)[|[x] + q| - 1] == r;
    }
  }

  /** ----- labels that no chain rule can improve ----- */

  predicate TightAt(sys: System, m: Mark, r: nat)
    requires r < |sys.rules|
  {
    From(sys, r) in m.labels ==>
      To(sys, r) in m.labels && m.labels[To(sys, r)].cost <= m.labels[From(sys, r)].cost + sys.rules[r].cost
  }

  /** All chain rules outside `pending` have been taken into account. */
  ghost predicate Tight(sys: System, m: Mark, pending: set<nat>) {
    forall r: nat :: sys.IsChain(r) && r !in pending ==> TightAt(sys, m, r)
  }

  /** Nothing that is reached from `n` has been seen. */
  ghost predicate Fresh(sys: System, m: Mark, n: Name) {
    forall r: nat :: r in m.seen ==> !Reached(sys, n, r)
  }

  /** What is seen after marking with `r` is `r` or reached from it. */
  ghost predicate OnlyReached(sys: System, m: Mark, p: Mark, r: nat)
    requires r < |sys.rules|
  {
    forall x: nat :: x in p.seen && x !in m.seen ==> x == r || Reached(sys, To(sys, r), x)
  }

  /** Setting a label leaves the chain rules from its non-terminal to be looked at, if it changes anything. */
  lemma SetCostTight(sys: System, m: Mark, pending: set<nat>, r: nat, total: nat)
    requires Tight(sys, m, pending) && r < |sys.rules|
    ensures var s := SetCost(m, To(sys, r), total, r).(seen := m.seen + {r});
      if s.labels == m.labels then Tight(sys, s, pending)
      else
        && Tight(sys, s, pending + (set x: nat | x in Chains(sys, To(sys, r))))
        && s.labels[To(sys, r)].cost == total
  {
    var s := SetCost(m, To(sys, r), total, r).(seen := m.seen + {r});
    var more := if s.labels == m.labels then pending else pending + (set x: nat | x in Chains(sys, To(sys, r)));
    forall x: nat | sys.IsChain(x) && x !in more
      ensures TightAt(sys, s, x)
    {
      assert TightAt(sys, m, x);
    }
    if s.labels == m.labels {
      assert more == pending;
    }
  }

  /** The rules that are left to follow from `n`. */
  predicate Siblings(sys: System, n: Name, rs: seq<nat>) {
    && AreRules(sys, rs)
    && (forall k :: 0 <= k < |rs| ==> sys.IsChain(rs[k]) && From(sys, rs[k]) == n)
    && (forall i, j :: 0 <= i < j < |rs| ==> rs[i] != rs[j])
  }

  /** None of them, and nothing that is reached from them, has been seen. */
  ghost predicate FreshAll(sys: System, m: Mark, rs: seq<nat>)
    requires AreRules(sys, rs)
  {
    forall k :: 0 <= k < |rs| ==> rs[k] !in m.seen && Fresh(sys, m, To(sys, rs[k]))
  }

  lemma ChainsAreFresh(sys: System, m: Mark, n: Name, rs: seq<nat>)
    requires Siblings(sys, n, rs) && Fresh(sys, m, n)
    ensures FreshAll(sys, m, rs)
  {
    forall k | 0 <= k < |rs|
      ensures rs[k] !in m.seen && Fresh(sys, m, To(sys, rs[k]))
    {
      ReachedBefore(sys, rs[k], rs[k]);
      forall r: nat | r in m.seen
        ensures !Reached(sys, To(sys, rs[k]), r)
      {
        if Reached(sys, To(sys, rs[k]), r) {
          ReachedBefore(sys, rs[k], r);
        }
      }
    }
  }

  lemma SeeingKeepsFresh(sys: System, m: Mark, s: Mark, r: nat)
    requires UniquePaths(sys) && r < |sys.rules| && Fresh(sys, m, To(sys, r)) && s.seen == m.seen + {r}
    ensures Fresh(sys, s, To(sys, r))
  {
    NoCycle(sys, r);
  }

  lemma SiblingsStayFresh(sys: System, m: Mark, p: Mark, n: Name, rs: seq<nat>)
    requires UniquePaths(sys) && Siblings(sys, n, rs) && rs != [] && FreshAll(sys, m, rs) && OnlyReached(sys, m, p, rs[0])
    ensures Siblings(sys, n, rs[1..]) && FreshAll(sys, p, rs[1..])
  {
    forall k | 0 <= k < |rs[1..]|
      ensures rs[1..][k] !in p.seen && Fresh(sys, p, To(sys, rs[1..][k]))
    {
      var y := rs[k + 1];
      forall r: nat | r in p.seen
        ensures r != y && !Reached(sys, To(sys, y), r)
      {
        if r !in m.seen {
          Apart(sys, n, r, rs[0], y);
        }
      }
    }
  }

  /** After the first label is set: nothing that its chain rules reach has been seen. */
  lemma MarkStarts(sys: System, m: Mark, pending: set<nat>, r: nat, total: nat)
    requires UniquePaths(sys) && r < |sys.rules| && Fresh(sys, m, To(sys, r)) && Tight(sys, m, pending)
    ensures var s := SetCost(m, To(sys, r), total, r).(seen := m.seen + {r});
      var rs := Chains(sys, To(sys, r));
      && Siblings(sys, To(sys, r), rs) && FreshAll(sys, s, rs)
      && To(sys, r) in s.labels && s.labels[To(sys, r)].cost <= total
      && (s.labels != m.labels ==> s.labels[To(sys, r)].cost == total)
      && Tight(sys, s, if s.labels != m.labels then pending + (set x: nat | x in rs) else pending)
  {
    SetCostTight(sys, m, pending, r, total);
    SetCostGrows(m, To(sys, r), total, r);
    var s := SetCost(m, To(sys, r), total, r).(seen := m.seen + {r});
    hide UniquePaths, Tight, Fresh, FreshAll, Reached, SetCost, Siblings, Grown;
    SeeingKeepsFresh(sys, m, s, r);
    ChainsAreSiblings(sys, To(sys, r));
    ChainsAreFresh(sys, s, To(sys, r), Chains(sys, To(sys, r)));
  }

  lemma {:induction false} MarkTight(sys: System, m: Mark, pending: set<nat>, r: nat, cost: nat)
    requires UniquePaths(sys) && r < |sys.rules| && r !in m.seen && Fresh(sys, m, To(sys, r)) && Tight(sys, m, pending)
    ensures Tight(sys, MarkTree(sys, m, r, cost), pending) && OnlyReached(sys, m, MarkTree(sys, m, r, cost), r)
    decreases Unseen(sys, m), 0
  {
    hide UniquePaths, Tight, Fresh, FreshAll, Reached, SetCost, Siblings, OnlyReached;
    SeeingOne(sys, m, r);
    var n, total := To(sys, r), cost + sys.rules[r].cost;
    MarkStarts(sys, m, pending, r, total);
    var s := SetCost(m, n, total, r).(seen := m.seen + {r});
    ChainsTight(sys, s, pending, n, Chains(sys, n), total, s.labels != m.labels);
    OnlyReachedFirst(sys, m, s, MarkTree(sys, m, r, cost), r);
  }

  lemma ChainsAreSiblings(sys: System, n: Name)
    ensures Siblings(sys, n, Chains(sys, n))
  {
    var rs := Chains(sys, n);
    forall k | 0 <= k < |rs|
      ensures sys.IsChain(rs[k]) && From(sys, rs[k]) == n
    {
      assert rs[k] in rs;
    }
  }

  lemma OnlyReachedFirst(sys: System, m: Mark, s: Mark, p: Mark, r: nat)
    requires r < |sys.rules| && s.seen == m.seen + {r}
    requires forall x: nat :: x in p.seen && x !in s.seen ==> Reached(sys, To(sys, r), x)
    ensures OnlyReached(sys, m, p, r)
  {
  }

  lemma {:induction false} ChainsTight(sys: System, m: Mark, pending: set<nat>, n: Name, rs: seq<nat>, cost: nat, changed: bool)
    requires UniquePaths(sys) && Siblings(sys, n, rs) && FreshAll(sys, m, rs)
    requires n in m.labels && m.labels[n].cost <= cost && (changed ==> m.labels[n].cost == cost)
    requires Tight(sys, m, if changed then pending + (set x: nat | x in rs) else pending)
    ensures Tight(sys, MarkChains(sys, m, rs, cost), pending)
    ensures forall x: nat :: x in MarkChains(sys, m, rs, cost).seen && x !in m.seen ==> Reached(sys, n, x)
    decreases Unseen(sys, m), |rs| + 1
  {
    assert AreRules(sys, rs);
    hide UniquePaths, Tight, Fresh, FreshAll, Siblings, Reached, Grown, OnlyReached, AreRules;
    if rs == [] {
      assert pending + (set x: nat | x in rs) == pending;
    } else {
      FirstIsFresh(sys, m, n, rs);
      var all := if changed then pending + (set x: nat | x in rs) else pending;
      MarkTight(sys, m, all, rs[0], cost);
      AfterFirst(sys, m, pending, n, rs, cost, changed);
      var p := MarkTree(sys, m, rs[0], cost);
      ChainsTight(sys, p, pending, n, rs[1..], cost, changed);
      forall x: nat | x in MarkChains(sys, m, rs, cost).seen && x !in m.seen
        ensures Reached(sys, n, x)
      {
        if x in p.seen {
          ReachedFromFirst(sys, m, p, n, rs, x);
        }
      }
    }
  }

  lemma FirstIsFresh(sys: System, m: Mark, n: Name, rs: seq<nat>)
    requires Siblings(sys, n, rs) && FreshAll(sys, m, rs) && rs != []
    ensures rs[0] < |sys.rules| && rs[0] !in m.seen && Fresh(sys, m, To(sys, rs[0]))
  {
  }

  lemma ReachedFromFirst(sys: System, m: Mark, p: Mark, n: Name, rs: seq<nat>, x: nat)
    requires Siblings(sys, n, rs) && rs != [] && OnlyReached(sys, m, p, rs[0]) && x in p.seen && x !in m.seen
    ensures Reached(sys, n, x)
  {
    ReachedBefore(sys, rs[0], x);
  }

  /** What holds for the chain rules that are left once the first one has been followed. */
  lemma AfterFirst(sys: System, m: Mark, pending: set<nat>, n: Name, rs: seq<nat>, cost: nat, changed: bool)
    requires UniquePaths(sys) && Siblings(sys, n, rs) && rs != [] && FreshAll(sys, m, rs) && rs[0] !in m.seen
    requires n in m.labels && m.labels[n].cost <= cost && (changed ==> m.labels[n].cost == cost)
    requires var p := MarkTree(sys, m, rs[0], cost);
      OnlyReached(sys, m, p, rs[0]) && Tight(sys, p, if changed then pending + (set x: nat | x in rs) else pending)
    ensures var p := MarkTree(sys, m, rs[0], cost);
      && Siblings(sys, n, rs[1..]) && FreshAll(sys, p, rs[1..])
      && n in p.labels && p.labels[n].cost <= cost && (changed ==> p.labels[n].cost == cost)
      && Tight(sys, p, if changed then pending + (set x: nat | x in rs[1..]) else pending)
      && Unseen(sys, p) <= Unseen(sys, m)
  {
    hide UniquePaths, Tight, Fresh, FreshAll, Reached, Grown, OnlyReached, MarkTree;
    var p := MarkTree(sys, m, rs[0], cost);
    MarkGrows(sys, m, rs[0], cost);
    GrownMeans(m, p, cost + sys.rules[rs[0]].cost, n);
    SeeingMore(sys, m, p);
    SiblingsStayFresh(sys, m, p, n, rs);
    if changed {
      OneLess(sys, p, pending, n, rs, cost);
    }
  }

  /** The first chain rule has been taken into account. */
  lemma OneLess(sys: System, p: Mark, pending: set<nat>, n: Name, rs: seq<nat>, cost: nat)
    requires Siblings(sys, n, rs) && rs != [] && Tight(sys, p, pending + (set x: nat | x in rs))
    requires n in p.labels && p.labels[n].cost == cost
    requires To(sys, rs[0]) in p.labels && p.labels[To(sys, rs[0])].cost <= cost + sys.rules[rs[0]].cost
    ensures Tight(sys, p, pending + (set x: nat | x in rs[1..]))
  {
    forall r: nat | sys.IsChain(r) && r !in pending + (set x: nat | x in rs[1..])
      ensures TightAt(sys, p, r)
    {
      if r != rs[0] {
        assert r !in rs;
      }
    }
  }
}
