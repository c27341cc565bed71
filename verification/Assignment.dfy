/**
  Handing out registers: nodes come back from the select stack, the last one
  first, and each of them still finds a register that none of its neighbours
  shares.
 */
module Assignment {
  import opened MachineCode
  import opened Graphs
  import opened PqTest
  import opened Coalescing
  import opened ColoringInvariant
  import opened MovesInvariant
  import opened MeaningInvariant
  import opened AllocatorSteps
  import opened Recoloring

  type Registers = map<Node, Register>

  /** Nothing is left to do but taking nodes from the stack. */
  ghost predicate Emptied(c: Context, s: State, pairs: Pairs) {
    Good(c, s, pairs) && s.simplify == {} && s.freeze == {} && s.spill == {}
  }

  /** The nodes on the graph once the stack has been popped down to `k`. */
  function Back(s: State, k: nat): set<Node>
    requires k <= |s.stack|
  {
    s.graph.nodes + set n | n in s.stack[k..]
  }

  /** The registers of the nodes that are back: of their own class, and apart where adjacent. */
  ghost predicate Colors(t: Target, s: State, k: nat, reg: Registers)
    requires Shaped(s) && k <= |s.stack|
  {
    && reg.Keys == Back(s, k)
    && (forall n :: n in s.precolored ==> n in reg && reg[n] == n)
    && (forall n :: n in reg ==> n in s.cls && reg[n] in t.regs(s.cls[n]))
    && (forall a, b :: a in reg && b in reg && a in s.graph.adj && b in s.graph.adj[a] ==> reg[b] !in t.alias(reg[a]))
  }

  lemma ColorsStart(c: Context, s: State, pairs: Pairs)
    requires Emptied(c, s, pairs)
    ensures Colors(c.t, s, |s.stack|, map n | n in s.precolored :: n)
  {
    assert s.stack[|s.stack|..] == [];
    hide StackPassed, WaitingPass, MovesLinked, MovesPlaced, ClassesKept, ApartKept, TogetherKept;
  }

  lemma EmptiedIsShaped(c: Context, s: State, pairs: Pairs)
    requires Emptied(c, s, pairs)
    ensures Shaped(s) && Back(s, |s.stack|) == s.graph.nodes
  {
    assert s.stack[|s.stack|..] == [];
  }

  lemma BackNext(c: Context, s: State, k: nat)
    requires Shaped(s) && k < |s.stack|
    ensures s.stack[k] in s.graph.masked && s.stack[k] in s.graph.adj && s.stack[k] in s.cls
    ensures s.stack[k] !in Back(s, k + 1) && Back(s, k) == Back(s, k + 1) + {s.stack[k]}
    ensures Above(s, k) == s.graph.adj[s.stack[k]] * Back(s, k) == s.graph.adj[s.stack[k]] * Back(s, k + 1)
  {
    OnStack(s, k);
    assert s.stack == s.stack[..k] + [s.stack[k]] + s.stack[k + 1..];
    assert s.stack[k..] == [s.stack[k]] + s.stack[k + 1..];
    forall n | n in s.graph.All()
      ensures n in Back(s, k) <==> n !in s.stack[..k]
    {
      if n in s.graph.masked {
        assert n in s.stack;
      }
    }
  }

  /** The node that comes back always finds a free register. */
  lemma RegisterIsFree(c: Context, s: State, pairs: Pairs, k: nat, reg: Registers)
    requires Emptied(c, s, pairs) && k < |s.stack| && Colors(c.t, s, k + 1, reg)
    ensures Above(s, k) <= reg.Keys && s.stack[k] in s.cls
    ensures c.t.regs(s.cls[s.stack[k]]) - TakenBy(c.t, Above(s, k), reg) != {}
  {
    BackNext(c, s, k);
    OnStack(s, k);
    assert PassedAt(c.t, s, k);
    var b := s.cls[s.stack[k]];
    hide StackPassed, WaitingPass, MovesLinked, MovesPlaced, Meaning, Shaped, TakenBy;
    forall n | n in Above(s, k)
      ensures c.t.Takes(b, reg[n]) <= c.t.Q(b, s.cls[n])
    {
      c.t.MostTakenBounds(b, c.t.regs(s.cls[n]), reg[n]);
    }
    RegisterLeft(c.t, s.cls, reg, b, Above(s, k));
  }

  /** The register that is chosen meets none of a neighbour that is back. */
  lemma ChosenIsApart(t: Target, s: State, k: nat, reg: Registers, r: Register, other: Node)
    requires t.Sensible() && Shaped(s) && k < |s.stack| && s.stack[k] in s.graph.adj && s.stack[k] in s.cls && other in Above(s, k) && Above(s, k) <= reg.Keys
    requires r in t.regs(s.cls[s.stack[k]]) - TakenBy(t, Above(s, k), reg)
    ensures r !in t.alias(reg[other]) && reg[other] !in t.alias(r)
  {
  }

  lemma ColorsNext(c: Context, s: State, pairs: Pairs, k: nat, reg: Registers, r: Register)
    requires Emptied(c, s, pairs) && k < |s.stack| && Colors(c.t, s, k + 1, reg)
    requires Above(s, k) <= reg.Keys && s.stack[k] in s.cls
    requires r in c.t.regs(s.cls[s.stack[k]]) - TakenBy(c.t, Above(s, k), reg)
    ensures Colors(c.t, s, k, reg[s.stack[k] := r])
  {
    hide StackPassed, WaitingPass, MovesLinked, MovesPlaced, Meaning, TakenBy;
    var x, reg' := s.stack[k], reg[s.stack[k] := r];
    BackNext(c, s, k);
    forall a, b | a in reg' && b in reg' && a in s.graph.adj && b in s.graph.adj[a]
      ensures reg'[b] !in c.t.alias(reg'[a])
    {
      if a == x || b == x {
        var other := if a == x then b else a;
        assert other in s.graph.adj[x] && other != x;
        ChosenIsApart(c.t, s, k, reg, r, other);
      }
    }
  }

  /** The register of every temporary: that of its node. */
  function Chosen(tempMap: map<Register, Node>, reg: Registers): Coloring {
    r => if r in tempMap && tempMap[r] in reg then reg[tempMap[r]] else r
  }

  lemma ChosenAt(c: Context, s: State, pairs: Pairs, reg: Registers, r: Register)
    requires Emptied(c, s, pairs) && Colors(c.t, s, 0, reg) && r in s.tempMap
    ensures s.tempMap[r] in reg && Chosen(s.tempMap, reg)(r) == reg[s.tempMap[r]]
    ensures reg[s.tempMap[r]] in c.t.regs(c.t.classOf(r))
  {
    hide StackPassed, WaitingPass, MovesLinked, MovesPlaced, ApartKept, TogetherKept, PrecoloredApart;
    assert s.stack[0..] == s.stack;
    assert Back(s, 0) == s.graph.All();
    var n := s.tempMap[r];
    assert c.t.regs(s.cls[n]) <= c.t.regs(c.t.classOf(r));
  }

  /** The chosen registers: of the right class, apart for interfering registers, and the same
      at both ends of a coalesced move; physical registers stay what they are. */
  lemma ChosenIsProper(c: Context, s: State, pairs: Pairs, reg: Registers)
    requires Emptied(c, s, pairs) && Colors(c.t, s, 0, reg)
    ensures var color := Chosen(s.tempMap, reg);
      && (forall r :: r in s.tempMap ==> color(r) in c.t.regs(c.t.classOf(r)))
      && (forall a, b :: (a, b) in pairs ==> Separate(c.t.alias, color(a), color(b)))
      && (forall m :: m in s.coalesced ==> color(c.src(m)) == color(c.dst(m)))
      && (forall r: Register :: r.Physical? ==> color(r) == r)
  {
    var color := Chosen(s.tempMap, reg);
    forall r | r in s.tempMap
      ensures color(r) == reg[s.tempMap[r]] && color(r) in c.t.regs(c.t.classOf(r))
    {
      ChosenAt(c, s, pairs, reg, r);
    }
    hide StackPassed, WaitingPass, MovesLinked, MovesPlaced, ClassesKept;
    forall a, b | (a, b) in pairs
      ensures Separate(c.t.alias, color(a), color(b))
    {
      ChosenAt(c, s, pairs, reg, a);
      ChosenAt(c, s, pairs, reg, b);
      assert color(a) in c.t.alias(color(a));
    }
  }
}
