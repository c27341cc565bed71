/**
  Whole runs with one register class: they keep the invariant of
  `check_invariants`, and raise in one way only.
 */
module OneClassRuns {
  import opened MachineCode
  import opened Graphs
  import opened PqTest
  import opened Coalescing
  import opened MovesInvariant
  import opened MeaningInvariant
  import opened AllocatorSteps
  import opened AllocatorRuns
  import opened Initialization
  import opened OneClass

  /** With one class the initial state passes the checks. */
  lemma InitialChecked(c: Context, g: Graph, ms: set<Move>, pairs: Pairs, k: Class)
    requires Startable(c, g, ms, pairs) && forall n :: n in g.adj ==> c.t.classOf(n) == k
    ensures Checked(c, Initial(c, g, ms), pairs, k)
  {
    InitialGood(c, g, ms, pairs);
    hide Passing, Colorable, Almost;
  }

  /** Every step keeps what is checked. */
  lemma StepChecked(c: Context, pairs: Pairs, s: State, p: State, k: Class)
    requires StepTo(c, pairs, s, p) && Checked(c, s, pairs, k)
    ensures Checked(c, p, pairs, k)
  {
    CheckedIsGood(c, s, pairs, k);
    hide Almost, Simplify, Coalesce, Freeze, SpillFails, SameClass, Shaped, MovesLinked, MovesPlaced, Target.Sensible;
    if s.simplify != {} {
      var n :| n in s.simplify && p == Simplify(c.t, s, n);
      SimplifyChecked(c, s, pairs, n, k);
    } else if s.worklist != {} {
      var m :| m in s.worklist && Coalesce(c, s, m) == Ok(p);
      CoalesceChecked(c, s, pairs, m, k);
    } else {
      var u, ms :| u in s.freeze && IsOrderOf(ms, s.moves[u]) && Freeze(c, s, u, ms) == Ok(p);
      FreezeChecked(c, s, pairs, u, ms, k);
    }
  }

  lemma {:induction false} RunChecked(c: Context, pairs: Pairs, run: seq<State>, k: Class)
    requires IsRun(c, pairs, run) && Checked(c, run[0], pairs, k)
    ensures Checked(c, run[|run| - 1], pairs, k)
    decreases |run|
  {
    hide StepTo, Checked;
    if |run| > 1 {
      var init := run[..|run| - 1];
      assert IsRun(c, pairs, init) by {
        forall i | 0 <= i < |init| - 1
          ensures StepTo(c, pairs, init[i], init[i + 1])
        {
          assert StepTo(c, pairs, run[i], run[i + 1]);
        }
      }
      RunChecked(c, pairs, init, k);
      assert StepTo(c, pairs, run[|run| - 2], run[|run| - 1]);
      StepChecked(c, pairs, run[|run| - 2], run[|run| - 1], k);
    }
  }

  /** Only freezing is left, and some node gives up last a move with both ends in one node. */
  ghost predicate IdentityIsLast(c: Context, s: State) {
    && Shaped(s) && KnowsMoves(c, s) && s.simplify == {} && s.worklist == {}
    && exists u, ms :: u in s.freeze && LastIsIdentity(c, s, u, ms)
  }

  ghost predicate LastIsIdentity(c: Context, s: State, u: Node, ms: seq<Move>) {
    && u in s.moves && IsOrderOf(ms, s.moves[u]) && ms != []
    && c.src(ms[|ms| - 1]) in s.tempMap && c.dst(ms[|ms| - 1]) in s.tempMap && IsIdentity(c, s, ms[|ms| - 1])
  }

  /** With one class, a run can raise exactly where freezing meets such a move. */
  lemma RaisesWhen(c: Context, pairs: Pairs, run: seq<State>, k: Class)
    requires IsRun(c, pairs, run) && Checked(c, run[0], pairs, k)
    ensures Raises(c, pairs, run[|run| - 1]) <==> IdentityIsLast(c, run[|run| - 1])
  {
    RunChecked(c, pairs, run, k);
    var s := run[|run| - 1];
    CheckedIsGood(c, s, pairs, k);
    hide IsRun, Almost, Checked, Coalesce, Freeze, KnowsMoves, Shaped, IsOrderOf, IsIdentity;
    if s.simplify == {} {
      if s.worklist != {} {
        forall m | m in s.worklist
          ensures Coalesce(c, s, m) != Raised
        {
          CoalesceChecked(c, s, pairs, m, k);
        }
      } else {
        forall u, ms | u in s.freeze && IsOrderOf(ms, s.moves[u])
          ensures Freeze(c, s, u, ms) == Raised <==> LastIsIdentity(c, s, u, ms)
        {
          FreezeChecked(c, s, pairs, u, ms, k);
        }
      }
    }
  }
}
