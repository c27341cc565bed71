/**
  What it means that patterns match: every terminal of a pattern that the tree
  reaches is the terminal of the tree at the same place, and the patterns of a
  tiling, put together, are the tree.
 */
module BurgCover {
  import opened Burg
  import opened BurgKids

  /** ----- matching, by where the terminals are ----- */

  /** The path leads through terminals of the pattern to a terminal. */
  predicate ClosedAt(sys: System, p: Tree, path: Path)
    decreases path
  {
    && p.name in sys.terminals
    && (path == [] || (path[0] < |p.children| && ClosedAt(sys, p.children[path[0]], path[1..])))
  }

  lemma {:induction false} ClosedLeads(sys: System, p: Tree, path: Path)
    requires ClosedAt(sys, p, path)
    ensures Leads(p, path)
    decreases path
  {
    if path != [] {
      ClosedLeads(sys, p.children[path[0]], path[1..]);
    }
  }

  /** The same terminal wherever a path leads through terminals of the pattern and in the tree. */
  ghost predicate SameAtPaths(sys: System, t: Tree, p: Tree) {
    forall path: Path {:trigger ClosedAt(sys, p, path)} :: ClosedAt(sys, p, path) && Leads(t, path) ==>
      Leads(p, path) && Subtree(t, path).name == Subtree(p, path).name
  }

  /** A pattern matches a tree of terminals exactly when its terminals are those of the tree. */
  lemma {:induction false} MatchesWhen(sys: System, t: Tree, p: Tree)
    requires sys.Covered(t)
    ensures sys.Matches(t, p) <==> SameAtPaths(sys, t, p)
    decreases p
  {
    if p.name in sys.terminals {
      forall k | 0 <= k < |p.children| && k < |t.children|
        ensures sys.Matches(t.children[k], p.children[k]) <==> SameAtPaths(sys, t.children[k], p.children[k])
      {
        MatchesWhen(sys, t.children[k], p.children[k]);
      }
      if sys.Matches(t, p) {
        MatchedPaths(sys, t, p);
      }
      if SameAtPaths(sys, t, p) {
        PathsMatched(sys, t, p);
      }
    }
  }

  lemma MatchedPaths(sys: System, t: Tree, p: Tree)
    requires p.name in sys.terminals && t.name == p.name
    requires forall k :: 0 <= k < |p.children| && k < |t.children| ==> SameAtPaths(sys, t.children[k], p.children[k])
    ensures SameAtPaths(sys, t, p)
  {
    forall path: Path {:trigger ClosedAt(sys, p, path)} | ClosedAt(sys, p, path) && Leads(t, path)
      ensures Leads(p, path) && Subtree(t, path).name == Subtree(p, path).name
    {
      ClosedLeads(sys, p, path);
      if path != [] {
        assert ClosedAt(sys, p.children[path[0]], path[1..]);
      }
    }
  }

  lemma PathsMatched(sys: System, t: Tree, p: Tree)
    requires sys.Covered(t) && p.name in sys.terminals && SameAtPaths(sys, t, p)
    ensures t.name == p.name
    ensures forall k :: 0 <= k < |p.children| && k < |t.children| ==> SameAtPaths(sys, t.children[k], p.children[k])
  {
    var here: Path := [];
    assert ClosedAt(sys, p, here) && Leads(t, here);
    forall k | 0 <= k < |p.children| && k < |t.children|
      ensures SameAtPaths(sys, t.children[k], p.children[k])
    {
      forall path: Path {:trigger ClosedAt(sys, p.children[k], path)} | ClosedAt(sys, p.children[k], path) && Leads(t.children[k], path)
        ensures Leads(p.children[k], path) && Subtree(t.children[k], path).name == Subtree(p.children[k], path).name
      {
        ClosedLeads(sys, p.children[k], path);
        assert ([k] + path)[1..] == path;
        assert ClosedAt(sys, p, [k] + path) && Leads(t, [k] + path);
      }
    }
  }

  /** A rule with a terminal at its root can be used on a tree exactly when the terminals of its pattern
      are those of the tree, and its condition holds. */
  lemma AppliesWhen(sys: System, t: Tree, r: nat)
    requires sys.Covered(t) && sys.IsTreeRule(r)
    ensures sys.Applies(t, r) <==> SameAtPaths(sys, t, sys.rules[r].tree) && sys.rules[r].accepts(t)
  {
    MatchesWhen(sys, t, sys.rules[r].tree);
    if SameAtPaths(sys, t, sys.rules[r].tree) {
      PathsMatched(sys, t, sys.rules[r].tree);
    }
  }

  /** ----- the goals, by where the open ends are ----- */

  ghost predicate EndsAt(sys: System, p: Tree, ends: seq<Name>, paths: seq<Path>) {
    && |ends| == |paths|
    && forall i {:trigger paths[i]} :: 0 <= i < |paths| ==> Leads(p, paths[i]) && ends[i] == Subtree(p, paths[i]).name
  }

  /** Every open end of the pattern is at a place in the tree. */
  predicate Reached(sys: System, t: Tree, p: Tree)
    decreases p
  {
    p.name in sys.terminals ==>
      forall k :: 0 <= k < |p.children| ==>
        if k < |t.children| then Reached(sys, t.children[k], p.children[k]) else sys.Ends(p.children[k]) == []
  }

  lemma {:induction false} OpenIsReached(sys: System, t: Tree, p: Tree, path: Path)
    requires Reached(sys, t, p) && OpenAt(sys, p, path)
    ensures Leads(t, path)
    decreases p
  {
    if p.name in sys.terminals {
      var k := path[0];
      if k < |t.children| {
        OpenIsReached(sys, t.children[k], p.children[k], path[1..]);
      } else {
        OpenHasEnd(sys, p.children[k], path[1..]);
      }
    }
  }

  lemma {:induction false} OpenHasEnd(sys: System, p: Tree, path: Path)
    requires OpenAt(sys, p, path)
    ensures sys.Ends(p) != []
    decreases p
  {
    if p.name in sys.terminals {
      OpenHasEnd(sys, p.children[path[0]], path[1..]);
      EndsAmong(sys, p, path[0], |p.children|);
    }
  }

  /** The ends of the children, in order. */
  lemma {:induction false} EndsAmong(sys: System, p: Tree, k: nat, n: nat)
    requires k < n <= |p.children|
    ensures |sys.EndsTo(p, k)| + |sys.Ends(p.children[k])| == |sys.EndsTo(p, k + 1)| <= |sys.EndsTo(p, n)|
    ensures sys.EndsTo(p, n)[|sys.EndsTo(p, k)|..|sys.EndsTo(p, k + 1)|] == sys.Ends(p.children[k])
    decreases n
  {
    if k + 1 < n {
      EndsAmong(sys, p, k, n - 1);
    }
  }

  lemma EndsBelow(sys: System, p: Tree, k: nat, ends: seq<Name>, paths: seq<Path>)
    requires k < |p.children| && EndsAt(sys, p.children[k], ends, paths)
    ensures EndsAt(sys, p, ends, Below(k, paths))
  {
    var below := Below(k, paths);
    forall i {:trigger below[i]} | 0 <= i < |below|
      ensures Leads(p, below[i]) && ends[i] == Subtree(p, below[i]).name
    {
      assert below[i] == [k] + paths[i] && below[i][1..] == paths[i];
    }
  }

  lemma EndsJoined(sys: System, p: Tree, a: seq<Name>, ps: seq<Path>, b: seq<Name>, qs: seq<Path>)
    requires EndsAt(sys, p, a, ps) && EndsAt(sys, p, b, qs)
    ensures EndsAt(sys, p, a + b, ps + qs)
  {
  }

  /** No open ends where the tree has no more children. */
  lemma {:induction false} EndsStop(sys: System, t: Tree, p: Tree, n: nat)
    requires p.name in sys.terminals && Reached(sys, t, p) && |t.children| <= n <= |p.children|
    ensures sys.EndsTo(p, n) == sys.EndsTo(p, |t.children|)
  {
    if n > |t.children| {
      EndsStop(sys, t, p, n - 1);
      assert sys.EndsTo(p, n - 1) + [] == sys.EndsTo(p, n - 1);
    }
  }

  lemma {:induction false} GoalsToKids(sys: System, t: Tree, p: Tree, n: nat) returns (paths: seq<Path>)
    requires n <= |t.children| && n <= |p.children| && p.name in sys.terminals && Reached(sys, t, p)
    ensures OpenPaths(sys, t, p, sys.KidsTo(t, p, n), paths) && AllPathsTo(sys, t, p, n, paths)
    ensures EndsAt(sys, p, sys.EndsTo(p, n), paths)
    decreases p, n
  {
    if n == 0 {
      paths := [];
    } else {
      var front := GoalsToKids(sys, t, p, n - 1);
      var last := GoalsAtKids(sys, t.children[n - 1], p.children[n - 1]);
      ChildPaths(sys, t, p, n - 1, sys.Kids(t.children[n - 1], p.children[n - 1]), last);
      var below := Below(n - 1, last);
      JoinedPaths(sys, t, p, n - 1, sys.KidsTo(t, p, n - 1), front, sys.Kids(t.children[n - 1], p.children[n - 1]), below);
      MorePaths(sys, t, p, n - 1, front, last);
      EndsBelow(sys, p, n - 1, sys.Ends(p.children[n - 1]), last);
      EndsJoined(sys, p, sys.EndsTo(p, n - 1), front, sys.Ends(p.children[n - 1]), below);
      paths := front + below;
    }
  }

  /** `get_kids` and `get_nts` go together: where the tree reaches all open ends, the k-th goal is the
      non-terminal at the place of the k-th kid, from left to right. */
  lemma {:induction false} GoalsAtKids(sys: System, t: Tree, p: Tree) returns (paths: seq<Path>)
    requires Reached(sys, t, p)
    ensures OpenPaths(sys, t, p, sys.Kids(t, p), paths) && AllPaths(sys, t, p, paths)
    ensures EndsAt(sys, p, sys.Ends(p), paths)
    decreases p, |p.children| + 1
  {
    if p.name !in sys.terminals {
      paths := [[]];
    } else {
      var n := if |t.children| < |p.children| then |t.children| else |p.children|;
      paths := GoalsToKids(sys, t, p, n);
      if |t.children| < |p.children| {
        EndsStop(sys, t, p, |p.children|);
      }
      assert forall path: Path {:trigger OpenAt(sys, p, path)} :: OpenAt(sys, p, path) && Leads(t, path) ==> path != [] && path[0] < n;
    }
  }

  /** A pattern with an open end that the tree does not reach: the kid goes with the wrong goal. */
  lemma MissingChildShiftsGoals()
    ensures var sys, none := System({0, 1, 2}, []), [];
      var t := Tree(0, 0, [Tree(1, 0, none), Tree(2, 0, none)]);
      var p := Tree(0, 0, [Tree(1, 0, [Tree(3, 0, none)]), Tree(4, 0, none)]);
      && sys.Matches(t, p) && !Reached(sys, t, p)
      && sys.Kids(t, p) == [Tree(2, 0, none)] && sys.Ends(p) == [3, 4]
  {
    var sys := System({0, 1, 2}, []);
    var none: seq<Tree> := [];
    var noNames: seq<Name> := [];
    var a, b, open, other := Tree(1, 0, none), Tree(2, 0, none), Tree(3, 0, none), Tree(4, 0, none);
    var t, q := Tree(0, 0, [a, b]), Tree(1, 0, [open]);
    var p := Tree(0, 0, [q, other]);
    assert sys.Kids(a, q) == sys.KidsTo(a, q, 0) == none;
    assert sys.KidsTo(t, p, 1) == sys.KidsTo(t, p, 0) + sys.Kids(a, q);
    assert sys.KidsTo(t, p, 2) == sys.KidsTo(t, p, 1) + sys.Kids(b, other);
    assert sys.EndsTo(q, 0) == noNames && sys.EndsTo(q, 1) == noNames + [3];
    assert sys.Ends(q) == [3];
    assert sys.EndsTo(p, 1) == sys.EndsTo(p, 0) + [3];
    assert sys.EndsTo(p, 2) == sys.EndsTo(p, 1) + [4];
    assert !Reached(sys, a, q);
  }

  /** ----- patterns put together ----- */

  /** The pattern with trees in place of its open ends, from left to right. */
  function Fill(sys: System, p: Tree, fs: seq<Tree>): Tree
    requires |fs| == |sys.Ends(p)|
    decreases p
  {
    if p.name !in sys.terminals then fs[0]
    else
      Tree(p.name, p.value, seq(|p.children|, k requires 0 <= k < |p.children| =>
        EndsAmong(sys, p, k, |p.children|);
        Fill(sys, p.children[k], fs[|sys.EndsTo(p, k)|..|sys.EndsTo(p, k + 1)|])))
  }

  /** What a tiling is made of: its patterns, one in the other. */
  function Expanded(sys: System, d: Tiling): Tree
    decreases d
  {
    if d.rule < |sys.rules| && |d.kids| == |sys.Ends(sys.rules[d.rule].tree)| then
      Fill(sys, sys.rules[d.rule].tree, seq(|d.kids|, k requires 0 <= k < |d.kids| => Expanded(sys, d.kids[k])))
    else Tree(0, 0, [])
  }

  /** The same names wherever both trees are. */
  ghost predicate Agree(a: Tree, b: Tree) {
    forall path: Path {:trigger Leads(a, path)} :: Leads(a, path) && Leads(b, path) ==> Subtree(a, path).name == Subtree(b, path).name
  }

  lemma AgreeNode(a: Tree, b: Tree)
    requires a.name == b.name && forall k :: 0 <= k < |a.children| && k < |b.children| ==> Agree(a.children[k], b.children[k])
    ensures Agree(a, b)
  {
    forall path: Path {:trigger Leads(a, path)} | Leads(a, path) && Leads(b, path)
      ensures Subtree(a, path).name == Subtree(b, path).name
    {
      if path != [] {
        assert Leads(a.children[path[0]], path[1..]);
      }
    }
  }

  /** As many kids as open ends. */
  lemma {:induction false} KidsCounted(sys: System, t: Tree, p: Tree, k: nat)
    requires Reached(sys, t, p) && p.name in sys.terminals && k <= |p.children| && k <= |t.children|
    ensures |sys.KidsTo(t, p, k)| == |sys.EndsTo(p, k)|
    decreases p, k
  {
    if k > 0 {
      KidsCounted(sys, t, p, k - 1);
      AllKidsCounted(sys, t.children[k - 1], p.children[k - 1]);
    }
  }

  lemma {:induction false} AllKidsCounted(sys: System, t: Tree, p: Tree)
    requires Reached(sys, t, p)
    ensures |sys.Kids(t, p)| == |sys.Ends(p)|
    decreases p, |p.children| + 1
  {
    if p.name in sys.terminals {
      if |t.children| < |p.children| {
        KidsCounted(sys, t, p, |t.children|);
        EndsStop(sys, t, p, |p.children|);
      } else {
        KidsCounted(sys, t, p, |p.children|);
      }
    }
  }

  lemma {:induction false} KidsAmong(sys: System, t: Tree, p: Tree, k: nat, n: nat)
    requires k < n <= |p.children| && n <= |t.children|
    ensures |sys.KidsTo(t, p, k)| + |sys.Kids(t.children[k], p.children[k])| == |sys.KidsTo(t, p, k + 1)| <= |sys.KidsTo(t, p, n)|
    ensures sys.KidsTo(t, p, n)[|sys.KidsTo(t, p, k)|..|sys.KidsTo(t, p, k + 1)|] == sys.Kids(t.children[k], p.children[k])
    decreases n
  {
    if k + 1 < n {
      KidsAmong(sys, t, p, k, n - 1);
    }
  }

  /** What is filled into one child of a pattern. */
  function Part(sys: System, p: Tree, fs: seq<Tree>, k: nat): (part: seq<Tree>)
    requires p.name in sys.terminals && k < |p.children| && |fs| == |sys.Ends(p)|
    ensures |part| == |sys.Ends(p.children[k])|
  {
    EndsAmong(sys, p, k, |p.children|);
    fs[|sys.EndsTo(p, k)|..|sys.EndsTo(p, k + 1)|]
  }

  lemma PartFilled(sys: System, p: Tree, fs: seq<Tree>, k: nat)
    requires p.name in sys.terminals && k < |p.children| && |fs| == |sys.Ends(p)|
    ensures |Fill(sys, p, fs).children| == |p.children| && Fill(sys, p, fs).children[k] == Fill(sys, p.children[k], Part(sys, p, fs, k))
    ensures forall x :: 0 <= x < |Part(sys, p, fs, k)| ==> Part(sys, p, fs, k)[x] in fs
  {
    EndsAmong(sys, p, k, |p.children|);
    hide System.EndsTo, System.Ends;
  }

  lemma PartAgrees(sys: System, t: Tree, p: Tree, fs: seq<Tree>, k: nat)
    requires Reached(sys, t, p) && p.name in sys.terminals && k < |p.children| && k < |t.children|
    requires |fs| == |sys.Ends(p)| == |sys.Kids(t, p)|
    requires forall i :: 0 <= i < |fs| ==> Agree(fs[i], sys.Kids(t, p)[i])
    ensures var part, kids := Part(sys, p, fs, k), sys.Kids(t.children[k], p.children[k]);
      |part| == |kids| && forall x :: 0 <= x < |part| ==> Agree(part[x], kids[x])
  {
    hide Agree, Fill, Reached, System.Kids, System.Ends, System.KidsTo, System.EndsTo;
    KidsOfPart(sys, t, p, k);
    var i, j := |sys.EndsTo(p, k)|, |sys.EndsTo(p, k + 1)|;
    var part, kids := Part(sys, p, fs, k), sys.Kids(t.children[k], p.children[k]);
    forall x | 0 <= x < |part|
      ensures Agree(part[x], kids[x])
    {
      assert part[x] == fs[i + x] && kids[x] == sys.Kids(t, p)[i + x];
    }
  }

  /** The kids of a child are among the kids of the pattern where its ends are among the ends. */
  lemma KidsOfPart(sys: System, t: Tree, p: Tree, k: nat)
    requires Reached(sys, t, p) && p.name in sys.terminals && k < |p.children| && k < |t.children|
    ensures var i, j := |sys.EndsTo(p, k)|, |sys.EndsTo(p, k + 1)|;
      i + |sys.Ends(p.children[k])| == j <= |sys.Kids(t, p)| && sys.Kids(t.children[k], p.children[k]) == sys.Kids(t, p)[i..j]
  {
    hide Reached;
    EndsAmong(sys, p, k, |p.children|);
    KidsAmong(sys, t, p, k, if |t.children| < |p.children| then |t.children| else |p.children|);
    KidsCounted(sys, t, p, k);
    KidsCounted(sys, t, p, k + 1);
  }

  /** A matching pattern, filled with what agrees with the kids, agrees with the tree. */
  lemma {:induction false} FilledAgrees(sys: System, t: Tree, p: Tree, fs: seq<Tree>)
    requires sys.Covered(t) && sys.Matches(t, p) && Reached(sys, t, p)
    requires |fs| == |sys.Ends(p)| == |sys.Kids(t, p)|
    requires forall k :: 0 <= k < |fs| ==> Agree(fs[k], sys.Kids(t, p)[k])
    ensures Agree(Fill(sys, p, fs), t)
    decreases p
  {
    hide Agree, Fill;
    if p.name in sys.terminals {
      FillNode(sys, p, fs);
      forall k | 0 <= k < |p.children| && k < |t.children|
        ensures Agree(Fill(sys, p, fs).children[k], t.children[k])
      {
        PartAgrees(sys, t, p, fs, k);
        PartFilled(sys, p, fs, k);
        FilledAgrees(sys, t.children[k], p.children[k], Part(sys, p, fs, k));
      }
      AgreeNode(Fill(sys, p, fs), t);
    } else {
      assert sys.Kids(t, p) == [t];
      assert Agree(fs[0], t);
      FillOpen(sys, p, fs);
    }
  }

  lemma FillNode(sys: System, p: Tree, fs: seq<Tree>)
    requires p.name in sys.terminals && |fs| == |sys.Ends(p)|
    ensures Fill(sys, p, fs).name == p.name && |Fill(sys, p, fs).children| == |p.children|
  {
  }

  lemma FillOpen(sys: System, p: Tree, fs: seq<Tree>)
    requires p.name !in sys.terminals && |fs| == |sys.Ends(p)|
    ensures Fill(sys, p, fs) == fs[0]
  {
  }

  /** Every rule of the tiling finds all its open ends. */
  predicate AllReached(sys: System, t: Tree, d: Tiling)
    decreases d
  {
    && d.rule < |sys.rules| && Reached(sys, t, sys.rules[d.rule].tree)
    && |d.kids| == sys.Width(t, d.rule)
    && forall k :: 0 <= k < |d.kids| ==> AllReached(sys, sys.Kid(t, d.rule, k), d.kids[k])
  }

  /**
    The patterns of a tiling, put in place of each other's open ends, have the same
    terminal as the tree at every place that both have.
   */
  lemma {:induction false} TilingRebuilds(sys: System, t: Tree, goal: Name, d: Tiling)
    requires sys.Covered(t) && Derives(sys, t, goal, d) && AllReached(sys, t, d)
    ensures Agree(Expanded(sys, d), t)
    decreases d
  {
    hide Agree;
    var r := d.rule;
    var p := sys.rules[r].tree;
    AllKidsCounted(sys, t, p);
    var fs := seq(|d.kids|, k requires 0 <= k < |d.kids| => Expanded(sys, d.kids[k]));
    forall k | 0 <= k < |d.kids|
      ensures Agree(fs[k], sys.Kids(t, p)[k])
    {
      sys.KidCovered(t, r, k);
      TilingRebuilds(sys, sys.Kid(t, r, k), sys.Goal(t, r, k), d.kids[k]);
    }
    if sys.IsChain(r) {
      sys.ChainHasOneKid(t, r);
      assert p.name !in sys.terminals;
      FilledAgreesOpen(sys, t, p, fs);
    } else {
      FilledAgrees(sys, t, p, fs);
    }
  }

  lemma FilledAgreesOpen(sys: System, t: Tree, p: Tree, fs: seq<Tree>)
    requires p.name !in sys.terminals && |fs| == 1 && Agree(fs[0], sys.Kids(t, p)[0])
    ensures |sys.Ends(p)| == 1 && Agree(Fill(sys, p, fs), t)
  {
    assert sys.Kids(t, p)[0] == t;
  }

  /** ----- terminals with a fixed number of children ----- */

  /** Every terminal has as many children as its name says. */
  predicate Regular(sys: System, arity: map<Name, nat>, t: Tree)
    decreases t
  {
    && (t.name in sys.terminals ==> t.name in arity && |t.children| == arity[t.name])
    && forall k :: 0 <= k < |t.children| ==> Regular(sys, arity, t.children[k])
  }

  predicate AllRegular(sys: System, arity: map<Name, nat>) {
    forall r :: 0 <= r < |sys.rules| ==> Regular(sys, arity, sys.rules[r].tree)
  }

  lemma {:induction false} RegularIsReached(sys: System, arity: map<Name, nat>, t: Tree, p: Tree)
    requires sys.Covered(t) && Regular(sys, arity, t) && Regular(sys, arity, p) && sys.Matches(t, p)
    ensures Reached(sys, t, p)
    decreases p
  {
    if p.name in sys.terminals {
      forall k | 0 <= k < |p.children|
        ensures Reached(sys, t.children[k], p.children[k])
      {
        RegularIsReached(sys, arity, t.children[k], p.children[k]);
      }
    }
  }

  lemma {:induction false} KidsToRegular(sys: System, arity: map<Name, nat>, t: Tree, p: Tree, n: nat)
    requires n <= |t.children| && n <= |p.children| && Regular(sys, arity, t)
    ensures forall k :: k in sys.KidsTo(t, p, n) ==> Regular(sys, arity, k)
    decreases p, n
  {
    if n > 0 {
      KidsToRegular(sys, arity, t, p, n - 1);
      KidsRegular(sys, arity, t.children[n - 1], p.children[n - 1]);
    }
  }

  lemma {:induction false} KidsRegular(sys: System, arity: map<Name, nat>, t: Tree, p: Tree)
    requires Regular(sys, arity, t)
    ensures forall k :: k in sys.Kids(t, p) ==> Regular(sys, arity, k)
    decreases p, |p.children| + 1
  {
    if p.name in sys.terminals {
      KidsToRegular(sys, arity, t, p, if |t.children| < |p.children| then |t.children| else |p.children|);
    }
  }

  /** Where terminals have fixed numbers of children, every tiling finds all open ends. */
  lemma {:induction false} RegularAllReached(sys: System, arity: map<Name, nat>, t: Tree, goal: Name, d: Tiling)
    requires sys.Covered(t) && Regular(sys, arity, t) && Derives(sys, t, goal, d)
    requires AllRegular(sys, arity)
    ensures AllReached(sys, t, d)
    decreases d
  {
    var p := sys.rules[d.rule].tree;
    if p.name in sys.terminals {
      RegularIsReached(sys, arity, t, p);
    }
    KidsRegular(sys, arity, t, p);
    forall k | 0 <= k < |d.kids|
      ensures AllReached(sys, sys.Kid(t, d.rule, k), d.kids[k])
    {
      sys.KidCovered(t, d.rule, k);
      assert sys.Kid(t, d.rule, k) in sys.Kids(t, p);
      RegularAllReached(sys, arity, sys.Kid(t, d.rule, k), sys.Goal(t, d.rule, k), d.kids[k]);
    }
  }

  /** The same tree, but for the values. */
  predicate SameTree(a: Tree, b: Tree)
    decreases a
  {
    && a.name == b.name && |a.children| == |b.children|
    && forall k :: 0 <= k < |a.children| ==> SameTree(a.children[k], b.children[k])
  }

  lemma {:induction false} RegularAgree(sys: System, arity: map<Name, nat>, a: Tree, b: Tree)
    requires Regular(sys, arity, a) && Regular(sys, arity, b) && sys.Covered(a) && sys.Covered(b) && Agree(a, b)
    ensures SameTree(a, b)
    decreases a
  {
    var here: Path := [];
    assert Leads(a, here) && Leads(b, here);
    forall k | 0 <= k < |a.children|
      ensures SameTree(a.children[k], b.children[k])
    {
      forall path: Path {:trigger Leads(a.children[k], path)} | Leads(a.children[k], path) && Leads(b.children[k], path)
        ensures Subtree(a.children[k], path).name == Subtree(b.children[k], path).name
      {
        assert ([k] + path)[1..] == path;
        assert Leads(a, [k] + path) && Leads(b, [k] + path);
      }
      RegularAgree(sys, arity, a.children[k], b.children[k]);
    }
  }

  lemma {:induction false} FilledIsRegular(sys: System, arity: map<Name, nat>, p: Tree, fs: seq<Tree>)
    requires Regular(sys, arity, p) && |fs| == |sys.Ends(p)|
    requires forall k :: 0 <= k < |fs| ==> Regular(sys, arity, fs[k]) && sys.Covered(fs[k])
    ensures Regular(sys, arity, Fill(sys, p, fs)) && sys.Covered(Fill(sys, p, fs))
    decreases p
  {
    hide Fill;
    if p.name in sys.terminals {
      FillNode(sys, p, fs);
      var f := Fill(sys, p, fs);
      forall k | 0 <= k < |p.children|
        ensures Regular(sys, arity, f.children[k]) && sys.Covered(f.children[k])
      {
        var part := Part(sys, p, fs, k);
        PartFilled(sys, p, fs, k);
        forall x | 0 <= x < |part|
          ensures Regular(sys, arity, part[x]) && sys.Covered(part[x])
        {
          assert part[x] in fs;
        }
        FilledIsRegular(sys, arity, p.children[k], part);
      }
    } else {
      FillOpen(sys, p, fs);
    }
  }

  lemma {:induction false} ExpandedIsRegular(sys: System, arity: map<Name, nat>, t: Tree, goal: Name, d: Tiling)
    requires sys.Covered(t) && Derives(sys, t, goal, d) && AllReached(sys, t, d)
    requires AllRegular(sys, arity)
    ensures Regular(sys, arity, Expanded(sys, d)) && sys.Covered(Expanded(sys, d))
    decreases d
  {
    var p := sys.rules[d.rule].tree;
    AllKidsCounted(sys, t, p);
    var fs := seq(|d.kids|, k requires 0 <= k < |d.kids| => Expanded(sys, d.kids[k]));
    forall k | 0 <= k < |d.kids|
      ensures Regular(sys, arity, fs[k]) && sys.Covered(fs[k])
    {
      sys.KidCovered(t, d.rule, k);
      ExpandedIsRegular(sys, arity, sys.Kid(t, d.rule, k), sys.Goal(t, d.rule, k), d.kids[k]);
    }
    FilledIsRegular(sys, arity, p, fs);
  }

  /** Where terminals have fixed numbers of children, the patterns of a tiling put together are the
      tree: nothing of it is dropped, and nothing else is emitted for it. */
  lemma TilingIsTree(sys: System, arity: map<Name, nat>, t: Tree, goal: Name, d: Tiling)
    requires sys.Covered(t) && Regular(sys, arity, t) && Derives(sys, t, goal, d)
    requires AllRegular(sys, arity)
    ensures SameTree(Expanded(sys, d), t)
  {
    RegularAllReached(sys, arity, t, goal, d);
    TilingRebuilds(sys, t, goal, d);
    ExpandedIsRegular(sys, arity, t, goal, d);
    RegularAgree(sys, arity, Expanded(sys, d), t);
  }
}
