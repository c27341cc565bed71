/**
  Which subtrees a pattern leaves open, by where they are: paths of child
  numbers that lead to the open ends, from left to right.
 */
module BurgKids {
  import opened Burg

  type Path = seq<nat>

  predicate Leads(t: Tree, path: Path)
    decreases path
  {
    path == [] || (path[0] < |t.children| && Leads(t.children[path[0]], path[1..]))
  }

  function Subtree(t: Tree, path: Path): Tree
    requires Leads(t, path)
    decreases path
  {
    if path == [] then t else Subtree(t.children[path[0]], path[1..])
  }

  /** The first non-terminal on the way is at the end of it. */
  predicate OpenAt(sys: System, p: Tree, path: Path)
    decreases path
  {
    if p.name !in sys.terminals then path == []
    else path != [] && path[0] < |p.children| && OpenAt(sys, p.children[path[0]], path[1..])
  }

  /** Further left in the tree. */
  predicate Before(a: Path, b: Path)
    decreases a
  {
    a != [] && b != [] && (a[0] < b[0] || (a[0] == b[0] && Before(a[1..], b[1..])))
  }

  /** The paths lead to the open ends whose first step is below n, all of them, from left to right. */
  ghost predicate OpenPaths(sys: System, t: Tree, p: Tree, kids: seq<Tree>, paths: seq<Path>) {
    && |paths| == |kids|
    && (forall i {:trigger paths[i]} :: 0 <= i < |paths| ==> OpenAt(sys, p, paths[i]) && Leads(t, paths[i]) && kids[i] == Subtree(t, paths[i]))
    && (forall i, j :: 0 <= i < j < |paths| ==> Before(paths[i], paths[j]))
  }

  ghost predicate AllPaths(sys: System, t: Tree, p: Tree, paths: seq<Path>) {
    forall path: Path {:trigger OpenAt(sys, p, path)} :: OpenAt(sys, p, path) && Leads(t, path) ==> path in paths
  }

  ghost predicate AllPathsTo(sys: System, t: Tree, p: Tree, n: nat, paths: seq<Path>) {
    && (forall i {:trigger paths[i]} :: 0 <= i < |paths| ==> paths[i] != [] && paths[i][0] < n)
    && forall path: Path {:trigger OpenAt(sys, p, path)} ::
        OpenAt(sys, p, path) && Leads(t, path) && path != [] && path[0] < n ==> path in paths
  }

  function Below(k: nat, paths: seq<Path>): (r: seq<Path>)
    ensures |r| == |paths|
    ensures forall i {:trigger r[i]} :: 0 <= i < |paths| ==> r[i] == [k] + paths[i]
  {
    seq(|paths|, i requires 0 <= i < |paths| => [k] + paths[i])
  }

  lemma OneDown(sys: System, t: Tree, p: Tree, k: nat, path: Path)
    requires p.name in sys.terminals && k < |p.children| && k < |t.children|
    ensures OpenAt(sys, p, [k] + path) <==> OpenAt(sys, p.children[k], path)
    ensures Leads(t, [k] + path) <==> Leads(t.children[k], path)
    ensures Leads(t, [k] + path) ==> Subtree(t, [k] + path) == Subtree(t.children[k], path)
  {
    assert ([k] + path)[1..] == path;
  }

  lemma BelowBefore(k: nat, a: Path, b: Path)
    ensures Before([k] + a, [k] + b) <==> Before(a, b)
  {
    assert ([k] + a)[1..] == a && ([k] + b)[1..] == b;
  }

  /** The paths of one child, with the number of the child in front. */
  lemma ChildPaths(sys: System, t: Tree, p: Tree, k: nat, kids: seq<Tree>, paths: seq<Path>)
    requires p.name in sys.terminals && k < |p.children| && k < |t.children|
    requires OpenPaths(sys, t.children[k], p.children[k], kids, paths)
    ensures OpenPaths(sys, t, p, kids, Below(k, paths))
  {
    var below := Below(k, paths);
    forall i | 0 <= i < |below|
      ensures OpenAt(sys, p, below[i]) && Leads(t, below[i]) && kids[i] == Subtree(t, below[i])
    {
      OneDown(sys, t, p, k, paths[i]);
    }
    forall i, j | 0 <= i < j < |below|
      ensures Before(below[i], below[j])
    {
      BelowBefore(k, paths[i], paths[j]);
    }
  }

  lemma JoinedPaths(sys: System, t: Tree, p: Tree, n: nat, a: seq<Tree>, ps: seq<Path>, b: seq<Tree>, qs: seq<Path>)
    requires OpenPaths(sys, t, p, a, ps) && OpenPaths(sys, t, p, b, qs)
    requires forall i {:trigger ps[i]} :: 0 <= i < |ps| ==> ps[i] != [] && ps[i][0] < n
    requires forall i {:trigger qs[i]} :: 0 <= i < |qs| ==> qs[i] != [] && qs[i][0] == n
    ensures OpenPaths(sys, t, p, a + b, ps + qs)
  {
    var all := ps + qs;
    forall i, j | 0 <= i < j < |all|
      ensures Before(all[i], all[j])
    {
      if i < |ps| <= j {
        assert all[i] == ps[i] && all[j] == qs[j - |ps|];
      }
    }
    assert forall i {:trigger all[i]} :: 0 <= i < |all| ==> all[i] == if i < |ps| then ps[i] else qs[i - |ps|];
  }

  lemma {:induction false} KidsToInOrder(sys: System, t: Tree, p: Tree, n: nat) returns (paths: seq<Path>)
    requires n <= |t.children| && n <= |p.children| && p.name in sys.terminals
    ensures OpenPaths(sys, t, p, sys.KidsTo(t, p, n), paths) && AllPathsTo(sys, t, p, n, paths)
    decreases p, n
  {
    if n == 0 {
      paths := [];
    } else {
      var front := KidsToInOrder(sys, t, p, n - 1);
      var last := KidsInOrder(sys, t.children[n - 1], p.children[n - 1]);
      ChildPaths(sys, t, p, n - 1, sys.Kids(t.children[n - 1], p.children[n - 1]), last);
      var below := Below(n - 1, last);
      JoinedPaths(sys, t, p, n - 1, sys.KidsTo(t, p, n - 1), front, sys.Kids(t.children[n - 1], p.children[n - 1]), below);
      paths := front + below;
      MorePaths(sys, t, p, n - 1, front, last);
    }
  }

  lemma MorePaths(sys: System, t: Tree, p: Tree, k: nat, front: seq<Path>, last: seq<Path>)
    requires p.name in sys.terminals && k < |p.children| && k < |t.children|
    requires AllPathsTo(sys, t, p, k, front) && AllPaths(sys, t.children[k], p.children[k], last)
    ensures AllPathsTo(sys, t, p, k + 1, front + Below(k, last))
  {
    var all := front + Below(k, last);
    forall path: Path {:trigger OpenAt(sys, p, path)} | OpenAt(sys, p, path) && Leads(t, path) && path != [] && path[0] < k + 1
      ensures path in all
    {
      if path[0] == k {
        assert path == [k] + path[1..];
        OneDown(sys, t, p, k, path[1..]);
        var i :| 0 <= i < |last| && last[i] == path[1..];
        assert all[|front| + i] == path;
      }
    }
  }

  /**
    `get_kids`: from left to right, the subtrees of the tree at all open ends of
    the pattern that the tree reaches.
   */
  lemma {:induction false} KidsInOrder(sys: System, t: Tree, p: Tree) returns (paths: seq<Path>)
    ensures OpenPaths(sys, t, p, sys.Kids(t, p), paths) && AllPaths(sys, t, p, paths)
    decreases p, |p.children| + 1
  {
    if p.name !in sys.terminals {
      paths := [[]];
    } else {
      paths := KidsToInOrder(sys, t, p, if |t.children| < |p.children| then |t.children| else |p.children|);
      assert forall path: Path {:trigger OpenAt(sys, p, path)} :: OpenAt(sys, p, path) && Leads(t, path) ==> path != [] && path[0] < |t.children|;
    }
  }
}
