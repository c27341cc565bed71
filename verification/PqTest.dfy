/**
  The pq-test: whether a node can be coloured whatever its neighbours get, in
  the presence of several register classes and register aliases.
 */
module PqTest {
  import opened MachineCode
  import opened Graphs

  type Class = nat

  /** The registers of the target: their classes, subclasses and aliases (a register is its own alias). */
  datatype Target = Target(
    regs: Class -> set<Register>,
    sub: (Class, Class) -> bool,
    alias: Register -> set<Register>,
    classOf: Register -> Class)
  {
    ghost predicate Sensible() {
      && (forall c :: sub(c, c))
      && (forall a, b, c :: sub(a, b) && sub(b, c) ==> sub(a, c))
      && (forall a, b :: sub(a, b) ==> regs(a) <= regs(b))
      && (forall a, b :: b in alias(a) ==> a in alias(b))
      && (forall c, r :: r in regs(c) ==> r.Physical? && r in alias(r))
    }

    /** How many registers of class `b` are taken when a neighbour gets `r`. */
    function Takes(b: Class, r: Register): nat {
      |alias(r) * regs(b)|
    }

    ghost function MostTaken(b: Class, s: set<Register>): nat {
      if s == {} then 0 else
        var r :| r in s;
        var rest := MostTaken(b, s - {r});
        if Takes(b, r) > rest then Takes(b, r) else rest
    }

    /** `q`: how many registers of class `b` one register of class `c` can take at most. */
    ghost function Q(b: Class, c: Class): nat {
      MostTaken(b, regs(c))
    }

    lemma {:induction false} MostTakenBounds(b: Class, s: set<Register>, r: Register)
      requires r in s
      ensures Takes(b, r) <= MostTaken(b, s)
      decreases s
    {
      var x :| x in s && MostTaken(b, s) == (var rest := MostTaken(b, s - {x}); if Takes(b, x) > rest then Takes(b, x) else rest);
      if r != x {
        MostTakenBounds(b, s - {x}, r);
      }
    }

    lemma {:induction false} MostTakenReached(b: Class, s: set<Register>) returns (r: Register)
      requires s != {}
      ensures r in s && Takes(b, r) == MostTaken(b, s)
      decreases s
    {
      var x :| x in s && MostTaken(b, s) == (var rest := MostTaken(b, s - {x}); if Takes(b, x) > rest then Takes(b, x) else rest);
      r := x;
      if Takes(b, x) < MostTaken(b, s) {
        assert MostTaken(b, s - {x}) > 0;
        r := MostTakenReached(b, s - {x});
      }
    }

    lemma MostTakenMonotone(b: Class, s: set<Register>, s': set<Register>)
      requires s <= s'
      ensures MostTaken(b, s) <= MostTaken(b, s')
    {
      if s != {} {
        var r := MostTakenReached(b, s);
        MostTakenBounds(b, s', r);
      }
    }

    /** A subclass takes no more than its superclass. */
    lemma QMonotone(b: Class, c: Class, c': Class)
      requires Sensible() && sub(c, c')
      ensures Q(b, c) <= Q(b, c')
    {
      MostTakenMonotone(b, regs(c), regs(c'));
    }
  }

  type Classes = map<Node, Class>

  /** The registers of class `b` that the nodes in `s` can take together, at most. */
  ghost function Blocked(t: Target, cls: Classes, b: Class, s: set<Node>): nat
    requires s <= cls.Keys
  {
    if s == {} then 0 else
      var n :| n in s;
      t.Q(b, cls[n]) + Blocked(t, cls, b, s - {n})
  }

  lemma {:induction false} BlockedSplit(t: Target, cls: Classes, b: Class, s: set<Node>, n: Node)
    requires s <= cls.Keys && n in s
    ensures Blocked(t, cls, b, s) == t.Q(b, cls[n]) + Blocked(t, cls, b, s - {n})
    decreases s
  {
    var x :| x in s && Blocked(t, cls, b, s) == t.Q(b, cls[x]) + Blocked(t, cls, b, s - {x});
    if x != n {
      BlockedSplit(t, cls, b, s - {x}, n);
      BlockedSplit(t, cls, b, s - {n}, x);
      assert s - {x} - {n} == s - {n} - {x};
    }
  }

  /** Fewer neighbours, and neighbours in smaller classes, block less. */
  lemma {:induction false} BlockedMonotone(t: Target, cls: Classes, cls': Classes, b: Class, s: set<Node>, s': set<Node>)
    requires s <= cls.Keys && s' <= cls'.Keys && s <= s'
    requires forall n :: n in s ==> t.Q(b, cls[n]) <= t.Q(b, cls'[n])
    ensures Blocked(t, cls, b, s) <= Blocked(t, cls', b, s')
    decreases s'
  {
    if s' != {} {
      var n :| n in s';
      BlockedSplit(t, cls', b, s', n);
      if n in s {
        BlockedSplit(t, cls, b, s, n);
        BlockedMonotone(t, cls, cls', b, s - {n}, s' - {n});
      } else {
        BlockedMonotone(t, cls, cls', b, s, s' - {n});
      }
    }
  }

  /** Replacing two neighbours by one of a common subclass blocks no more. */
  lemma BlockedCombine(t: Target, cls: Classes, b: Class, s: set<Node>, u: Node, v: Node, c: Class)
    requires t.Sensible() && s <= cls.Keys && u in cls && v in cls && u != v
    requires t.sub(c, cls[u]) && t.sub(c, cls[v])
    ensures var s' := if v in s then s - {v} + {u} else s;
            Blocked(t, cls[u := c], b, s') <= Blocked(t, cls, b, s)
  {
    t.QMonotone(b, c, cls[u]);
    t.QMonotone(b, c, cls[v]);
    var cls' := cls[u := c];
    if v !in s {
      BlockedMonotone(t, cls', cls, b, s, s);
    } else if u in s {
      assert s - {v} + {u} == s - {v};
      BlockedMonotone(t, cls', cls, b, s - {v}, s);
    } else {
      var rest := s - {v};
      BlockedSplit(t, cls, b, s, v);
      BlockedSplit(t, cls', b, rest + {u}, u);
      assert rest + {u} - {u} == rest;
      BlockedMonotone(t, cls', cls, b, rest, rest);
    }
  }

  /** ----- why the test is enough ----- */

  ghost function TakenBy(t: Target, s: set<Node>, color: map<Node, Register>): set<Register>
    requires s <= color.Keys
  {
    set n, r | n in s && r in t.alias(color[n]) :: r
  }

  lemma TakenSplit(t: Target, color: map<Node, Register>, b: Class, s: set<Node>, n: Node)
    requires s <= color.Keys && n in s
    ensures |TakenBy(t, s, color) * t.regs(b)| <= |TakenBy(t, s - {n}, color) * t.regs(b)| + t.Takes(b, color[n])
  {
    var rest, now := TakenBy(t, s - {n}, color) * t.regs(b), t.alias(color[n]) * t.regs(b);
    assert TakenBy(t, s, color) * t.regs(b) == rest + now;
    assert |rest + now| <= |rest| + |now|;
  }

  /** The neighbours take at most as many registers as the test has counted. */
  lemma {:induction false} TakenIsBlocked(t: Target, cls: Classes, color: map<Node, Register>, b: Class, s: set<Node>)
    requires s <= cls.Keys && s <= color.Keys
    requires forall n :: n in s ==> t.Takes(b, color[n]) <= t.Q(b, cls[n])
    ensures |TakenBy(t, s, color) * t.regs(b)| <= Blocked(t, cls, b, s)
    decreases s
  {
    if s == {} {
      assert TakenBy(t, s, color) * t.regs(b) == {};
    } else {
      var n :| n in s;
      BlockedSplit(t, cls, b, s, n);
      TakenIsBlocked(t, cls, color, b, s - {n});
      TakenSplit(t, color, b, s, n);
    }
  }

  lemma {:induction false} SubsetSize(a: set<Register>, b: set<Register>)
    requires a <= b
    ensures |a| <= |b| && |b - a| == |b| - |a|
  {
    assert b == a + (b - a);
  }

  /** A node that passes the test has a register left, whatever its neighbours got. */
  lemma RegisterLeft(t: Target, cls: Classes, color: map<Node, Register>, b: Class, s: set<Node>)
    requires s <= cls.Keys && s <= color.Keys
    requires forall n :: n in s ==> t.Takes(b, color[n]) <= t.Q(b, cls[n])
    requires Blocked(t, cls, b, s) < |t.regs(b)|
    ensures t.regs(b) - TakenBy(t, s, color) != {}
  {
    TakenIsBlocked(t, cls, color, b, s);
    var taken := TakenBy(t, s, color) * t.regs(b);
    SubsetSize(taken, t.regs(b));
    assert t.regs(b) - TakenBy(t, s, color) == t.regs(b) - taken;
  }
}
