/**
  Which node is spilled: the one with the fewest operands for its degree.
 */
module SpillChoice {
  import opened Basics
  import opened MachineCode
  import opened Graphs
  import opened PqTest
  import opened Coalescing
  import opened ColoringInvariant
  import opened MeaningInvariant
  import opened OneClass
  import opened RegisterAllocator
  import Interference

  function TempsOf(tempMap: map<Register, Node>, node: Node): set<Register> {
    set r | r in tempMap && tempMap[r] == node
  }

  /** How often the program has one of these registers as an operand. */
  ghost function OperandsOf(p: Program, rs: set<Register>): nat {
    if rs == {} then 0 else
      var r :| r in rs;
      Interference.TimesUsed(p, |p|, r) + OperandsOf(p, rs - {r})
  }

  lemma {:induction false} OperandsSplit(p: Program, rs: set<Register>, r: Register)
    requires r in rs
    ensures OperandsOf(p, rs) == Interference.TimesUsed(p, |p|, r) + OperandsOf(p, rs - {r})
    decreases rs
  {
    var x :| x in rs && OperandsOf(p, rs) == Interference.TimesUsed(p, |p|, x) + OperandsOf(p, rs - {x});
    if x != r {
      OperandsSplit(p, rs - {x}, r);
      OperandsSplit(p, rs - {r}, x);
      assert rs - {x} - {r} == rs - {r} - {x};
    }
  }

  ghost function Operands(p: Program, s: State, n: Node): nat {
    OperandsOf(p, TempsOf(s.tempMap, n))
  }

  function Degree(g: Graph, n: Node): nat
    requires n in g.adj
  {
    |g.Adjacent(n)|
  }

  /** The quotient of operands and degree is the lowest of the nodes that may be spilled. */
  ghost predicate Cheapest(p: Program, s: State, node: Node)
    requires s.spill <= s.graph.adj.Keys
  {
    CheapestOf(p, s, s.spill, node)
  }

  ghost predicate CheapestOf(p: Program, s: State, ns: set<Node>, node: Node)
    requires ns <= s.graph.adj.Keys
  {
    && node in ns
    && forall n :: n in ns ==> Operands(p, s, node) * Degree(s.graph, n) <= Operands(p, s, n) * Degree(s.graph, node)
  }

  /** Comparing quotients is transitive. */
  lemma LowerYet(a: nat, d: nat, b: nat, e: nat, c: nat, f: nat)
    requires a * e <= b * d && b * f <= c * e && e > 0
    ensures a * f <= c * d
  {
    calc {
      (a * f) * e;
      == (a * e) * f;
      <= { Scaled(a * e, b * d, f); }
      (b * d) * f;
      == (b * f) * d;
      <= { Scaled(b * f, c * e, d); }
      (c * e) * d;
      == (c * d) * e;
    }
    if a * f > c * d {
      Scaled(c * d + 1, a * f, e);
    }
  }

  lemma Scaled(x: int, y: int, n: nat)
    requires x <= y
    ensures x * n <= y * n
  {
  }

  lemma CheaperYet(p: Program, s: State, ns: set<Node>, best: Node, n: Node)
    requires ns <= s.graph.adj.Keys && n in s.graph.adj && CheapestOf(p, s, ns, best) && Degree(s.graph, best) > 0
    requires Operands(p, s, n) * Degree(s.graph, best) <= Operands(p, s, best) * Degree(s.graph, n)
    ensures CheapestOf(p, s, ns + {n}, n)
  {
    hide Operands, Degree;
    forall m | m in ns
      ensures Operands(p, s, n) * Degree(s.graph, m) <= Operands(p, s, m) * Degree(s.graph, n)
    {
      LowerYet(Operands(p, s, n), Degree(s.graph, n), Operands(p, s, best), Degree(s.graph, best), Operands(p, s, m), Degree(s.graph, m));
    }
  }

  /** A node without neighbours that cannot be coloured has a class without registers. */
  lemma StuckHasNoRegisters(c: Context, s: State, pairs: Pairs, k: Class, n: Node)
    requires Checked(c, s, pairs, k) && n in s.spill
    ensures n in s.graph.adj
    ensures Degree(s.graph, n) == 0 ==> c.t.regs(k) == {}
  {
    hide StackPassed, WaitingPass, Meaning;
  }

  /** How often the temporaries of a node are operands. */
  method CountOperands(p: Program, rs: set<Register>, useMap: map<Register, seq<nat>>, defMap: map<Register, seq<nat>>) returns (n: nat)
    requires Interference.Counted(p, |p|, useMap, defMap)
    ensures n == OperandsOf(p, rs)
  {
    n := 0;
    var todo := rs;
    while todo != {}
      invariant n + OperandsOf(p, todo) == OperandsOf(p, rs)
    {
      var r :| r in todo;
      OperandsSplit(p, todo, r);
      n := n + |Interference.Occurrences(useMap, r)| + |Interference.Occurrences(defMap, r)|;
      todo := todo - {r};
    }
  }

  /** Selects the node to spill; a node without neighbours makes the division fail. */
  method SelectSpill(p: Program, a: GraphColoringRegisterAllocator, useMap: map<Register, seq<nat>>, defMap: map<Register, seq<nat>>)
      returns (r: Option<Node>)
    requires a.spill != {} && a.spill <= a.graph.adj.Keys && Interference.Counted(p, |p|, useMap, defMap)
    ensures r.None? <==> exists n :: n in a.spill && Degree(a.graph, n) == 0
    ensures r.Some? ==> r.value in a.spill && Cheapest(p, a.Model(), r.value)
  {
    hide Interference.Counted, Degree;
    ghost var s := a.Model();
    ghost var done := {};
    var todo := a.spill;
    r := None;
    var count := 0;
    while todo != {}
      invariant todo !! done && todo + done == a.spill
      invariant forall n :: n in done ==> Degree(s.graph, n) > 0
      invariant r.None? <==> done == {}
      invariant r.Some? ==> CheapestOf(p, s, done, r.value) && count == Operands(p, s, r.value)
    {
      var n :| n in todo;
      var times := CountOperands(p, TempsOf(a.tempMap, n), useMap, defMap);
      assert times == Operands(p, s, n);
      if Degree(a.graph, n) == 0 {
        return None;
      }
      if r.None? || times * Degree(a.graph, r.value) < count * Degree(a.graph, n) {
        if r.Some? {
          CheaperYet(p, s, done, r.value, n);
        }
        r, count := Some(n), times;
      }
      todo, done := todo - {n}, done + {n};
    }
    assert done == a.spill;
  }
}
