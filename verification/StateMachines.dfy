/**
  Finite state machines with two exits a state, one for each value of an event:
  the depth-first search for a path, the events that follow a path, and where
  they lead.
 */
module StateMachines {
  import opened Basics

  datatype Exits<S> = Exits(low: S, high: S)

  type StateMachine<S> = map<S, Exits<S>>

  ghost predicate StaysIn<S>(m: StateMachine<S>, s: S) {
    s in m && m[s].low in m && m[s].high in m
  }

  ghost predicate Closed<S(!new)>(m: StateMachine<S>) {
    forall s {:trigger StaysIn(m, s)} :: s in m ==> StaysIn(m, s)
  }

  function Next<S(==)>(m: StateMachine<S>, s: S, event: bool): S
    requires s in m
  {
    if event then m[s].high else m[s].low
  }

  ghost predicate Leads<S>(m: StateMachine<S>, s: S, d: S) {
    s in m && (d == m[s].low || d == m[s].high)
  }

  ghost predicate Walk<S>(m: StateMachine<S>, w: seq<S>) {
    && |w| > 0
    && (forall k :: 0 <= k < |w| ==> w[k] in m)
    && (forall k {:trigger w[k]} :: 0 <= k < |w| - 1 ==> Leads(m, w[k], w[k + 1]))
  }

  ghost predicate WalkFromTo<S>(m: StateMachine<S>, w: seq<S>, source: S, target: S) {
    Walk(m, w) && w[0] == source && w[|w| - 1] == target
  }

  ghost predicate Simple<S>(w: seq<S>) {
    forall i, j :: 0 <= i < j < |w| ==> w[i] != w[j]
  }

  lemma {:induction false} SimpleFits<S(!new)>(w: seq<S>, all: set<S>)
    requires Simple(w) && forall k :: 0 <= k < |w| ==> w[k] in all
    ensures |w| <= |all|
  {
    if |w| > 0 {
      SimpleFits(w[1..], all - {w[0]});
    }
  }

  /** ----- the search ----- */

  /** The shorter of two paths, where an empty one stands for no path. */
  function Shorter<S>(a: seq<S>, b: seq<S>): seq<S> {
    if a == [] then b else if b == [] || |a| <= |b| then a else b
  }

  function NextPath<S(==,!new)>(m: StateMachine<S>, state: S, target: S, path: seq<S>): (r: seq<S>)
    requires Closed(m) && state in m && Simple(path + [state]) && forall k :: 0 <= k < |path| ==> path[k] in m
    ensures r != [] ==> path + [state] <= r && Simple(r) && WalkFromTo(m, r[|path|..], state, target)
    decreases |m| - |path|
  {
    SimpleFits(path + [state], m.Keys);
    assert StaysIn(m, state);
    if state == target then path + [state] else
      Shorter(Branch(m, state, target, path, m[state].low), Branch(m, state, target, path, m[state].high))
  }

  /** What one exit of a state leads to: nothing when it loops back. */
  function Branch<S(==,!new)>(m: StateMachine<S>, state: S, target: S, path: seq<S>, x: S): (r: seq<S>)
    requires Closed(m) && state in m && Simple(path + [state]) && forall k :: 0 <= k < |path| ==> path[k] in m
    requires Leads(m, state, x) && |path| < |m|
    ensures r != [] ==> path + [state] <= r && Simple(r) && WalkFromTo(m, r[|path|..], state, target)
    decreases |m| - |path|, 0
  {
    if x == state || x in path then [] else
      assert StaysIn(m, state);
      var r := NextPath(m, x, target, path + [state]);
      assert r != [] ==> r[|path|..] == [state] + r[|path| + 1..];
      r
  }

  function FindPath<S(==,!new)>(m: StateMachine<S>, source: S, target: S): (r: seq<S>)
    requires Closed(m) && source in m
    ensures r != [] ==> Simple(r) && WalkFromTo(m, r, source, target)
  {
    var r := NextPath(m, source, target, []);
    assert r[0..] == r;
    r
  }

  /** No simple walk that keeps clear of the path so far is shorter than what the search returns. */
  lemma {:induction false} NoSimpleWalkIsShorter<S(!new)>(m: StateMachine<S>, state: S, target: S, path: seq<S>, w: seq<S>)
    requires Closed(m) && state in m && Simple(path + w) && forall k :: 0 <= k < |path| ==> path[k] in m
    requires WalkFromTo(m, w, state, target)
    ensures Simple(path + [state])
    ensures NextPath(m, state, target, path) != [] && |NextPath(m, state, target, path)| <= |path| + |w|
    decreases |w|
  {
    assert forall k :: 0 <= k < |path| + 1 ==> (path + [state])[k] == (path + w)[k];
    if state != target {
      assert path + [state] + w[1..] == path + w;
      var x := w[1];
      assert (path + w)[|path| + 1] == x && (path + w)[|path|] == state;
      assert x !in path by {
        assert forall k :: 0 <= k < |path| ==> (path + w)[k] == path[k];
      }
      NoSimpleWalkIsShorter(m, x, target, path + [state], w[1..]);
    }
  }

  /** Cutting out its loops makes a walk simple. */
  lemma {:induction false} WithoutLoops<S(!new)>(m: StateMachine<S>, w: seq<S>) returns (v: seq<S>)
    requires Walk(m, w)
    ensures Simple(v) && WalkFromTo(m, v, w[0], w[|w| - 1]) && |v| <= |w|
    decreases |w|
  {
    if Simple(w) {
      v := w;
    } else {
      var i, j :| 0 <= i < j < |w| && w[i] == w[j];
      var u := w[..i] + w[j..];
      assert forall k {:trigger u[k]} :: 0 <= k < |u| - 1 ==> Leads(m, u[k], u[k + 1]);
      v := WithoutLoops(m, u);
    }
  }

  /** The path found is no longer than any walk, and one is found when there is any. */
  lemma FoundPathIsShortest<S(!new)>(m: StateMachine<S>, source: S, target: S, w: seq<S>)
    requires Closed(m) && WalkFromTo(m, w, source, target)
    ensures FindPath(m, source, target) != [] && |FindPath(m, source, target)| <= |w|
  {
    var v := WithoutLoops(m, w);
    assert [] + v == v;
    NoSimpleWalkIsShorter(m, source, target, [], v);
  }

  /** ----- events ----- */

  /** The events that lead from one state to another: two when both exits do. */
  function Between<S(==)>(m: StateMachine<S>, s: S, d: S): seq<bool>
    requires s in m
  {
    (if m[s].low == d then [false] else []) + (if m[s].high == d then [true] else [])
  }

  function Along<S(==)>(m: StateMachine<S>, path: seq<S>): seq<bool>
    requires forall k :: 0 <= k < |path| ==> path[k] in m
  {
    if |path| < 2 then [] else Along(m, path[..|path| - 1]) + Between(m, path[|path| - 2], path[|path| - 1])
  }

  function GetEvents<S(==)>(m: StateMachine<S>, path: seq<S>): Option<seq<bool>>
    requires forall k :: 0 <= k < |path| ==> path[k] in m
  {
    if |Along(m, path)| == |path| - 1 then Some(Along(m, path)) else None
  }

  function HandleEvents<S(==,!new)>(m: StateMachine<S>, s: S, events: seq<bool>): (r: S)
    requires Closed(m) && s in m
    ensures r in m
  {
    if events == [] then s else
      assert StaysIn(m, s);
      HandleEvents(m, Next(m, s, events[0]), events[1..])
  }

  lemma {:induction false} HandledInTurn<S(!new)>(m: StateMachine<S>, s: S, a: seq<bool>, b: seq<bool>)
    requires Closed(m) && s in m
    ensures HandleEvents(m, s, a + b) == HandleEvents(m, HandleEvents(m, s, a), b)
  {
    assert StaysIn(m, s);
    if a == [] {
      assert a + b == b;
    } else {
      assert (a + b)[1..] == a[1..] + b && (a + b)[0] == a[0];
      HandledInTurn(m, Next(m, s, a[0]), a[1..], b);
    }
  }

  ghost predicate ExitsDiffer<S>(m: StateMachine<S>, s: S) {
    s in m && m[s].low != m[s].high
  }

  ghost predicate AllExitsDiffer<S(!new)>(m: StateMachine<S>) {
    forall s {:trigger ExitsDiffer(m, s)} :: s in m ==> ExitsDiffer(m, s)
  }

  /** Along a walk there is an event for each step, and a second one exactly where both exits lead on. */
  lemma {:induction false} EventsOfWalk<S(!new)>(m: StateMachine<S>, w: seq<S>)
    requires Walk(m, w)
    ensures |Along(m, w)| >= |w| - 1
    ensures |Along(m, w)| == |w| - 1 <==> forall k {:trigger w[k]} :: 0 <= k < |w| - 1 ==> ExitsDiffer(m, w[k])
  {
    if |w| > 1 {
      var p := w[..|w| - 1];
      assert Walk(m, p) by {
        assert forall k {:trigger p[k]} :: 0 <= k < |p| - 1 ==> p[k + 1] == w[k + 1];
      }
      EventsOfWalk(m, p);
      assert Leads(m, w[|w| - 2], w[|w| - 1]);
      assert (forall k {:trigger p[k]} :: 0 <= k < |p| - 1 ==> ExitsDiffer(m, p[k]))
        <==> (forall k {:trigger w[k]} :: 0 <= k < |w| - 2 ==> ExitsDiffer(m, w[k])) by {
        assert forall k :: 0 <= k < |w| - 2 ==> p[k] == w[k];
      }
    }
  }

  /** The events of a walk follow it, state by state, when the exits differ. */
  lemma {:induction false} EventsFollowWalk<S(!new)>(m: StateMachine<S>, w: seq<S>, k: nat)
    requires Closed(m) && Walk(m, w) && k < |w|
    requires forall i {:trigger w[i]} :: 0 <= i < |w| - 1 ==> ExitsDiffer(m, w[i])
    ensures |Along(m, w)| == |w| - 1
    ensures HandleEvents(m, w[0], Along(m, w)[..k]) == w[k]
    decreases |w|
  {
    EventsOfWalk(m, w);
    if |w| > 1 {
      var p := w[..|w| - 1];
      assert forall i {:trigger p[i]} :: 0 <= i < |p| - 1 ==> p[i] == w[i] && p[i + 1] == w[i + 1];
      var j := if k < |p| then k else |p| - 1;
      EventsFollowWalk(m, p, j);
      assert Along(m, w)[..j] == Along(m, p)[..j];
      if k == |p| {
        var e := Between(m, w[k - 1], w[k]);
        assert Leads(m, w[k - 1], w[k]);
        assert Along(m, w)[..k] == Along(m, p)[..j] + e;
        HandledInTurn(m, w[0], Along(m, p)[..j], e);
        assert HandleEvents(m, w[k - 1], e) == Next(m, w[k - 1], e[0]);
      }
    }
  }

  /** The states that events lead through. */
  lemma {:induction false} WalkOfEvents<S(!new)>(m: StateMachine<S>, s: S, events: seq<bool>) returns (w: seq<S>)
    requires Closed(m) && s in m
    ensures WalkFromTo(m, w, s, HandleEvents(m, s, events)) && |w| == |events| + 1
    decreases |events|
  {
    if events == [] {
      w := [s];
    } else {
      assert StaysIn(m, s);
      var v := WalkOfEvents(m, Next(m, s, events[0]), events[1..]);
      w := [s] + v;
    }
  }

  /** The search finds a path exactly when some events lead to the target. */
  lemma PathIsFound<S(!new)>(m: StateMachine<S>, source: S, target: S)
    requires Closed(m) && source in m
    ensures FindPath(m, source, target) != [] ==> exists w :: WalkFromTo(m, w, source, target)
    ensures (exists w :: WalkFromTo(m, w, source, target)) ==> FindPath(m, source, target) != []
  {
    if w :| WalkFromTo(m, w, source, target) {
      FoundPathIsShortest(m, source, target, w);
    }
  }

  /**
    Where the exits of every state differ, the events of the path found lead to
    the target, and no other events that do are fewer.
   */
  lemma FoundEventsReachTarget<S(!new)>(m: StateMachine<S>, source: S, events: seq<bool>)
    requires Closed(m) && AllExitsDiffer(m) && source in m
    ensures
      var target := HandleEvents(m, source, events);
      var path := FindPath(m, source, target);
      && path != []
      && GetEvents(m, path).Some?
      && HandleEvents(m, source, GetEvents(m, path).value) == target
      && |GetEvents(m, path).value| == |path| - 1 <= |events|
  {
    var target := HandleEvents(m, source, events);
    var w := WalkOfEvents(m, source, events);
    FoundPathIsShortest(m, source, target, w);
    var path := FindPath(m, source, target);
    EventsFollowWalk(m, path, |path| - 1);
    assert Along(m, path)[..|path| - 1] == Along(m, path);
  }

  /** The events of a walk are refused exactly when both exits of a state on it lead on. */
  lemma EventsAreRefused<S(!new)>(m: StateMachine<S>, w: seq<S>)
    requires Walk(m, w)
    ensures GetEvents(m, w).None? <==> exists k :: 0 <= k < |w| - 1 && !ExitsDiffer(m, w[k])
  {
    EventsOfWalk(m, w);
  }
}
