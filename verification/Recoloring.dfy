/**
  What register allocation does to a program once every temporary has a
  register: recolour the instructions and drop the coalesced moves.  The result
  simulates the program it was made from.
 */
module Recoloring {
  import opened MachineCode
  import opened FlowGraphs
  import opened Machine

  type Coloring = Register -> Register

  function Colored(color: Coloring, rs: seq<Register>): (s: seq<Register>)
    ensures |s| == |rs|
    ensures forall k :: 0 <= k < |rs| ==> s[k] == color(rs[k])
  {
    seq(|rs|, k requires 0 <= k < |rs| => color(rs[k]))
  }

  function Recolor(i: Instr, color: Coloring): Instr {
    i.(uses := Colored(color, i.uses), extraUses := Colored(color, i.extraUses),
       defs := Colored(color, i.defs), extraDefs := Colored(color, i.extraDefs))
  }

  /** The first `k` instructions, recoloured, without the coalesced moves. */
  function EmitTo(p: Program, coalesced: set<nat>, color: Coloring, k: nat): Program
    requires k <= |p|
  {
    if k == 0 then []
    else EmitTo(p, coalesced, color, k - 1) + (if p[k - 1].id in coalesced then [] else [Recolor(p[k - 1], color)])
  }

  function Emit(p: Program, coalesced: set<nat>, color: Coloring): Program {
    EmitTo(p, coalesced, color, |p|)
  }

  /** Where instruction `k`, or the next one that is kept, ends up. */
  function Rank(p: Program, coalesced: set<nat>, color: Coloring, k: nat): nat
    requires k <= |p|
  {
    |EmitTo(p, coalesced, color, k)|
  }

  lemma {:induction false} EmitExtends(p: Program, coalesced: set<nat>, color: Coloring, k: nat, m: nat)
    requires k <= m <= |p|
    ensures EmitTo(p, coalesced, color, k) <= EmitTo(p, coalesced, color, m)
  {
    if k < m {
      EmitExtends(p, coalesced, color, k, m - 1);
    }
  }

  lemma KeptAtRank(p: Program, coalesced: set<nat>, color: Coloring, k: nat)
    requires k < |p| && p[k].id !in coalesced
    ensures var q, r := Emit(p, coalesced, color), Rank(p, coalesced, color, k);
            r < |q| && q[r] == Recolor(p[k], color) && Rank(p, coalesced, color, k + 1) == r + 1
  {
    EmitExtends(p, coalesced, color, k + 1, |p|);
  }

  lemma {:induction false} EmittedFrom(p: Program, coalesced: set<nat>, color: Coloring, k: nat, r: nat) returns (j: nat)
    requires k <= |p| && r < Rank(p, coalesced, color, k)
    ensures j < k && p[j].id !in coalesced && r == Rank(p, coalesced, color, j)
    ensures EmitTo(p, coalesced, color, k)[r].id == p[j].id
  {
    if r == Rank(p, coalesced, color, k - 1) {
      j := k - 1;
    } else {
      j := EmittedFrom(p, coalesced, color, k - 1, r);
    }
  }

  /** A jump to a kept instruction arrives at the same instruction. */
  lemma JumpArrives(p: Program, coalesced: set<nat>, color: Coloring, id: nat)
    requires UniqueIds(p) && HasId(p, id) && id !in coalesced
    ensures IndexOf(p, id) < |p|
    ensures IndexOf(Emit(p, coalesced, color), id) == Rank(p, coalesced, color, IndexOf(p, id))
  {
    var k := IndexOf(p, id);
    IndexOfPresent(p, id);
    KeptAtRank(p, coalesced, color, k);
    var q, r := Emit(p, coalesced, color), IndexOf(Emit(p, coalesced, color), id);
    assert q[Rank(p, coalesced, color, k)].id == id;
    var j := EmittedFrom(p, coalesced, color, |p|, r);
    assert p[j].id == id;
  }

  /** ----- what the colouring must respect ----- */

  ghost predicate LiveOutOrKilled(p: Program, i: nat, r: Register)
    requires i < |p|
  {
    LiveAfter(p, i, r) || r in p[i].Kill()
  }

  /** Instruction `i` makes `a` and `b` interfere. */
  ghost predicate InterfereAt(p: Program, i: nat, a: Register, b: Register)
    requires i < |p|
  {
    || (LiveOutOrKilled(p, i, a) && (LiveOutOrKilled(p, i, b) || b in p[i].clobbers))
    || (LiveOutOrKilled(p, i, b) && a in p[i].clobbers)
  }

  ghost predicate Interfere(p: Program, a: Register, b: Register) {
    a != b && exists i :: 0 <= i < |p| && InterfereAt(p, i, a, b)
  }

  predicate Separate(aliases: Aliasing, a: Register, b: Register) {
    a != b && b !in aliases(a)
  }

  /** Interfering registers get registers that do not share storage. */
  ghost predicate Proper(p: Program, aliases: Aliasing, color: Coloring) {
    forall a, b :: Interfere(p, a, b) ==> Separate(aliases, color(a), color(b))
  }

  /** What the program and the allocator's choices must satisfy. */
  ghost predicate Allocatable(p: Program, coalesced: set<nat>, color: Coloring) {
    && WellFormed(p)
    && LeadersFollowJumps(p)
    && (forall i :: 0 <= i < |p| ==> p[i].WellFormedMove() && p[i].WellFormedSpill())
    && (forall i, c :: 0 <= i < |p| && c in p[i].clobbers ==> c.Physical?)
    && (forall r: Register :: r.Physical? ==> color(r) == r)
    && (forall i :: 0 <= i < |p| && p[i].id in coalesced ==> p[i].ismove && color(p[i].Used()[0]) == color(p[i].Defined()[0]))
    && (forall i, k :: 0 <= i < |p| && 0 <= k < |p[i].jumps| ==> p[i].jumps[k] !in coalesced)
  }

  /** ----- the simulation ----- */

  /** The allocated program is at the same place, and every live register has its value. */
  ghost predicate Match(p: Program, coalesced: set<nat>, color: Coloring, s: State, t: State) {
    && s.pc <= |p|
    && t.pc == Rank(p, coalesced, color, s.pc)
    && t.mem == s.mem && t.slots == s.slots && t.clock == s.clock
    && forall r :: Live(p, s.pc, r) ==> t.regs(color(r)) == s.regs(r)
  }

  lemma ColoredConcat(color: Coloring, a: seq<Register>, b: seq<Register>)
    ensures Colored(color, a) + Colored(color, b) == Colored(color, a + b)
  {
  }

  lemma RecolorRegisters(i: Instr, color: Coloring)
    ensures Recolor(i, color).Used() == Colored(color, i.Used())
    ensures Recolor(i, color).Defined() == Colored(color, i.Defined())
  {
    ColoredConcat(color, i.uses, i.extraUses);
    ColoredConcat(color, i.defs, i.extraDefs);
  }

  lemma InputsAgree(p: Program, i: nat, color: Coloring, sregs: Register -> int, tregs: Register -> int)
    requires i < |p|
    requires forall r :: Live(p, i, r) ==> tregs(color(r)) == sregs(r)
    ensures Inputs(tregs, Colored(color, p[i].Used())) == Inputs(sregs, p[i].Used())
  {
    var used := p[i].Used();
    forall k | 0 <= k < |used|
      ensures tregs(color(used[k])) == sregs(used[k])
    {
      LiveEquation(p, i, used[k]);
    }
    assert Inputs(tregs, Colored(color, used)) == Inputs(sregs, used);
  }

  /** A register that is live after instruction `i` but not written by it keeps its place. */
  lemma Untouched(p: Program, aliases: Aliasing, color: Coloring, i: nat, r: Register, d: Register)
    requires i < |p| && Proper(p, aliases, color)
    requires LiveAfter(p, i, r) && r != d && (d in p[i].Kill() || d in p[i].clobbers)
    ensures Separate(aliases, color(d), color(r))
  {
    assert InterfereAt(p, i, d, r);
    assert Interfere(p, d, r);
  }

  lemma DistinctDefs(p: Program, aliases: Aliasing, color: Coloring, i: nat, d: Register, e: Register)
    requires i < |p| && Proper(p, aliases, color)
    requires d in p[i].Kill() && e in p[i].Kill() && color(d) == color(e)
    ensures d == e
  {
    if d != e {
      assert InterfereAt(p, i, d, e);
      assert Interfere(p, d, e);
    }
  }

  lemma {:induction false} FirstIndexColored(color: Coloring, defs: seq<Register>, r: Register)
    requires r in defs
    requires forall d :: d in defs && color(d) == color(r) ==> d == r
    ensures color(r) in Colored(color, defs)
    ensures FirstIndex(Colored(color, defs), color(r)) == FirstIndex(defs, r)
  {
    var colored := Colored(color, defs);
    assert colored[FirstIndex(defs, r)] == color(r);
    var k, m := FirstIndex(colored, color(r)), FirstIndex(defs, r);
    assert color(defs[k]) == color(r);
    assert colored[m] == color(r) && defs[k] == r;
  }

  /** Writing the results of instruction `i` leaves every live register with its value. */
  lemma WritesAgree(p: Program, aliases: Aliasing, coalesced: set<nat>, color: Coloring, i: nat, r: Register,
      sregs: Register -> int, tregs: Register -> int, outs: nat -> int, junk: Register -> int)
    requires i < |p| && Allocatable(p, coalesced, color) && Proper(p, aliases, color)
    requires forall r :: Live(p, i, r) ==> tregs(color(r)) == sregs(r)
    requires LiveAfter(p, i, r)
    ensures Write(tregs, aliases, Colored(color, p[i].Defined()), outs, p[i].clobbers, junk)(color(r))
         == Write(sregs, NoAliases, p[i].Defined(), outs, p[i].clobbers, junk)(r)
  {
    var defs, clobbers := p[i].Defined(), p[i].clobbers;
    var colored := Colored(color, defs);
    if r in defs {
      forall d | d in defs && color(d) == color(r)
        ensures d == r
      {
        DistinctDefs(p, aliases, color, i, d, r);
      }
      FirstIndexColored(color, defs, r);
    } else {
      forall d | d in defs
        ensures Separate(aliases, color(d), color(r))
      {
        Untouched(p, aliases, color, i, r, d);
      }
      assert color(r) !in colored;
      if r in clobbers {
        assert color(r) == r;
        assert Spoils(aliases, clobbers + (set d | d in colored), color(r));
        assert Spoils(NoAliases, clobbers + (set d | d in defs), r);
      } else {
        forall c | c in clobbers
          ensures Separate(aliases, c, color(r))
        {
          Untouched(p, aliases, color, i, r, c);
        }
        assert !Spoils(aliases, clobbers + (set d | d in colored), color(r));
        assert !Spoils(NoAliases, clobbers + (set d | d in defs), r);
        LiveEquation(p, i, r);
      }
    }
  }

  /** A coalesced move has nothing left to do. */
  lemma CoalescedMoveAgrees(p: Program, coalesced: set<nat>, color: Coloring, isa: Isa, s: State, t: State)
    requires Allocatable(p, coalesced, color) && Match(p, coalesced, color, s, t)
    requires s.pc < |p| && p[s.pc].id in coalesced
    ensures Match(p, coalesced, color, Step(isa, NoAliases, p, s), t)
  {
    var i := s.pc;
    var s' := Step(isa, NoAliases, p, s);
    var src, dst := p[i].Used()[0], p[i].Defined()[0];
    assert p[i].Defined() == [dst];
    LiveEquation(p, i, src);
    forall r | Live(p, s'.pc, r)
      ensures t.regs(color(r)) == s'.regs(r)
    {
      FollowsInFlow(p, i);
      assert LiveAfter(p, i, r);
      LiveEquation(p, i, r);
    }
  }

  /** Without a jump, the flow graph leads to the next instruction. */
  lemma FollowsInFlow(p: Program, i: nat)
    requires i < |p| && LeadersFollowJumps(p) && p[i].jumps == []
    ensures i + 1 < |p| ==> i + 1 in CfgSucc(p, i)
  {
  }

  /** Wherever the machine goes next, the flow graph goes too. */
  lemma NextInFlow(p: Program, i: nat, branch: nat, r: Register)
    requires i < |p| && WellFormed(p) && LeadersFollowJumps(p)
    requires Live(p, Next(p, i, branch), r)
    ensures LiveAfter(p, i, r)
  {
    var jumps := p[i].jumps;
    var j := Next(p, i, branch);
    if jumps == [] {
      FollowsInFlow(p, i);
    } else {
      IndexOfPresent(p, jumps[branch % |jumps|]);
      assert p[j].id in jumps;
    }
    assert j < |p| by {
      var n: nat :| UsedIn(p, j, r, n);
    }
    assert j in CfgSucc(p, i);
  }

  lemma NextAgrees(p: Program, coalesced: set<nat>, color: Coloring, i: nat, branch: nat)
    requires Allocatable(p, coalesced, color) && i < |p| && p[i].id !in coalesced
    ensures Next(p, i, branch) <= |p|
    ensures Rank(p, coalesced, color, i) < |Emit(p, coalesced, color)|
    ensures Next(Emit(p, coalesced, color), Rank(p, coalesced, color, i), branch) == Rank(p, coalesced, color, Next(p, i, branch))
  {
    KeptAtRank(p, coalesced, color, i);
    var jumps := p[i].jumps;
    if jumps != [] {
      JumpArrives(p, coalesced, color, jumps[branch % |jumps|]);
    }
  }

  /** One step of a kept instruction is one step of the allocated program. */
  lemma KeptStepAgrees(p: Program, aliases: Aliasing, coalesced: set<nat>, color: Coloring, isa: Isa, s: State, t: State)
    requires Allocatable(p, coalesced, color) && Proper(p, aliases, color) && Match(p, coalesced, color, s, t)
    requires s.pc < |p| && p[s.pc].id !in coalesced
    ensures Match(p, coalesced, color, Step(isa, NoAliases, p, s), Step(isa, aliases, Emit(p, coalesced, color), t))
  {
    var i, q := s.pc, Emit(p, coalesced, color);
    var s', t' := Step(isa, NoAliases, p, s), Step(isa, aliases, q, t);
    KeptAtRank(p, coalesced, color, i);
    RecolorRegisters(p[i], color);
    InputsAgree(p, i, color, s.regs, t.regs);
    var e := Execute(isa, p[i], Inputs(s.regs, p[i].Used()), s.mem, s.slots, s.clock);
    assert e == Execute(isa, q[t.pc], Inputs(t.regs, q[t.pc].Used()), t.mem, t.slots, t.clock);
    hide Execute;
    NextAgrees(p, coalesced, color, i, e.branch);
    forall r | Live(p, s'.pc, r)
      ensures t'.regs(color(r)) == s'.regs(r)
    {
      NextInFlow(p, i, e.branch, r);
      WritesAgree(p, aliases, coalesced, color, i, r, s.regs, t.regs, e.outs, r => isa.junk(s.clock, r));
    }
  }

  /** ----- whole runs ----- */

  /** How many of the first `n` steps execute an instruction that is kept. */
  function KeptSteps(isa: Isa, p: Program, coalesced: set<nat>, s: State, n: nat): (k: nat)
    ensures k <= n
    decreases n
  {
    if n == 0 then 0
    else (if s.pc < |p| && p[s.pc].id !in coalesced then 1 else 0)
         + KeptSteps(isa, p, coalesced, Step(isa, NoAliases, p, s), n - 1)
  }

  lemma StepAgrees(p: Program, aliases: Aliasing, coalesced: set<nat>, color: Coloring, isa: Isa, s: State, t: State)
    requires Allocatable(p, coalesced, color) && Proper(p, aliases, color) && Match(p, coalesced, color, s, t)
    ensures Match(p, coalesced, color, Step(isa, NoAliases, p, s),
      if s.pc < |p| && p[s.pc].id !in coalesced then Step(isa, aliases, Emit(p, coalesced, color), t) else t)
  {
    hide Allocatable, Proper, Match, Step;
    if s.pc < |p| && p[s.pc].id !in coalesced {
      KeptStepAgrees(p, aliases, coalesced, color, isa, s, t);
    } else if s.pc < |p| {
      CoalescedMoveAgrees(p, coalesced, color, isa, s, t);
    } else {
      HaltedStays(isa, NoAliases, p, s, 1);
    }
  }

  /** Register allocation preserves meaning: along every run, at every point, the allocated
      program is at the corresponding instruction with the same memory, and holds the value
      of every live register in that register's colour. */
  lemma {:induction false} RunAgrees(p: Program, aliases: Aliasing, coalesced: set<nat>, color: Coloring, isa: Isa,
      s: State, t: State, n: nat)
    requires Allocatable(p, coalesced, color) && Proper(p, aliases, color) && Match(p, coalesced, color, s, t)
    ensures Match(p, coalesced, color, Run(isa, NoAliases, p, s, n),
      Run(isa, aliases, Emit(p, coalesced, color), t, KeptSteps(isa, p, coalesced, s, n)))
    decreases n
  {
    hide Allocatable, Proper, Match, Step, Emit;
    if n > 0 {
      StepAgrees(p, aliases, coalesced, color, isa, s, t);
      var s' := Step(isa, NoAliases, p, s);
      if s.pc < |p| && p[s.pc].id !in coalesced {
        RunAgrees(p, aliases, coalesced, color, isa, s', Step(isa, aliases, Emit(p, coalesced, color), t), n - 1);
      } else {
        RunAgrees(p, aliases, coalesced, color, isa, s', t, n - 1);
      }
    }
  }

  /** A run executes its first kept instruction within `|p| + 1` steps, or halts. */
  lemma {:induction false} FirstKept(p: Program, coalesced: set<nat>, color: Coloring, isa: Isa, s: State, n: nat) returns (k: nat)
    requires Allocatable(p, coalesced, color) && s.pc <= |p| && s.pc + n == |p|
    ensures KeptSteps(isa, p, coalesced, s, k) == 1 || (KeptSteps(isa, p, coalesced, s, k) == 0 && Run(isa, NoAliases, p, s, k).pc == |p|)
    decreases n
  {
    hide Step, Allocatable;
    if s.pc == |p| {
      k := 0;
    } else if p[s.pc].id !in coalesced {
      k := 1;
      assert KeptSteps(isa, p, coalesced, Step(isa, NoAliases, p, s), 0) == 0;
    } else {
      CoalescedAdvances(p, coalesced, color, isa, s);
      var k' := FirstKept(p, coalesced, color, isa, Step(isa, NoAliases, p, s), n - 1);
      k := k' + 1;
    }
  }

  lemma {:induction false} KeptCompose(p: Program, coalesced: set<nat>, isa: Isa, s: State, m: nat, n: nat)
    ensures KeptSteps(isa, p, coalesced, s, m + n)
         == KeptSteps(isa, p, coalesced, s, m) + KeptSteps(isa, p, coalesced, Run(isa, NoAliases, p, s, m), n)
    decreases m
  {
    hide Step;
    if m > 0 {
      KeptCompose(p, coalesced, isa, Step(isa, NoAliases, p, s), m - 1, n);
    }
  }

  /** Every step of the allocated program is a step of the original, or that has halted. */
  lemma {:induction false} EveryKeptStep(p: Program, aliases: Aliasing, coalesced: set<nat>, color: Coloring, isa: Isa,
      s: State, t: State, m: nat) returns (n: nat)
    requires Allocatable(p, coalesced, color) && Proper(p, aliases, color) && Match(p, coalesced, color, s, t)
    ensures KeptSteps(isa, p, coalesced, s, n) == m || Run(isa, NoAliases, p, s, n).pc == |p|
    decreases m
  {
    hide Allocatable, Proper, Step, Emit;
    if m == 0 {
      n := 0;
    } else {
      var n' := EveryKeptStep(p, aliases, coalesced, color, isa, s, t, m - 1);
      n := n';
      if Run(isa, NoAliases, p, s, n').pc != |p| {
        RunAgrees(p, aliases, coalesced, color, isa, s, t, n');
        var s' := Run(isa, NoAliases, p, s, n');
        var k := FirstKept(p, coalesced, color, isa, s', |p| - s'.pc);
        RunCompose(isa, NoAliases, p, s, n', k);
        KeptCompose(p, coalesced, isa, s, n', k);
        n := n' + k;
      }
    }
  }

  lemma RankAtEnd(p: Program, coalesced: set<nat>, color: Coloring, k: nat)
    requires k <= |p| && Rank(p, coalesced, color, k) == |Emit(p, coalesced, color)|
    ensures k < |p| ==> p[k].id in coalesced && Rank(p, coalesced, color, k + 1) == |Emit(p, coalesced, color)|
  {
    if k < |p| {
      EmitExtends(p, coalesced, color, k + 1, |p|);
    }
  }

  /** Once the allocated program has halted, only coalesced moves are left. */
  lemma {:induction false} MovesFinish(p: Program, aliases: Aliasing, coalesced: set<nat>, color: Coloring, isa: Isa,
      s: State, t: State, n: nat)
    requires Allocatable(p, coalesced, color) && Proper(p, aliases, color) && Match(p, coalesced, color, s, t)
    requires t.pc == |Emit(p, coalesced, color)| && s.pc + n == |p|
    ensures Run(isa, NoAliases, p, s, n).pc == |p| && Run(isa, NoAliases, p, s, n).mem == t.mem
    decreases n
  {
    hide Allocatable, Proper, Step, Emit;
    if n > 0 {
      RankAtEnd(p, coalesced, color, s.pc);
      StepAgrees(p, aliases, coalesced, color, isa, s, t);
      var s' := Step(isa, NoAliases, p, s);
      CoalescedAdvances(p, coalesced, color, isa, s);
      MovesFinish(p, aliases, coalesced, color, isa, s', t, n - 1);
    }
  }

  lemma CoalescedAdvances(p: Program, coalesced: set<nat>, color: Coloring, isa: Isa, s: State)
    requires Allocatable(p, coalesced, color) && s.pc < |p| && p[s.pc].id in coalesced
    ensures Step(isa, NoAliases, p, s).pc == s.pc + 1
  {
  }

  /** The allocated program halts exactly when the original does, with the same memory. */
  lemma AllocationPreservesMeaning(p: Program, aliases: Aliasing, coalesced: set<nat>, color: Coloring, isa: Isa,
      s: State, t: State, mem: Memory)
    requires Allocatable(p, coalesced, color) && Proper(p, aliases, color) && Match(p, coalesced, color, s, t)
    ensures HaltsWith(isa, NoAliases, p, s, mem) <==> HaltsWith(isa, aliases, Emit(p, coalesced, color), t, mem)
  {
    hide Allocatable, Proper, Step, EmitTo;
    var q := Emit(p, coalesced, color);
    if HaltsWith(isa, NoAliases, p, s, mem) {
      var n: nat :| Run(isa, NoAliases, p, s, n).pc >= |p| && Run(isa, NoAliases, p, s, n).mem == mem;
      RunAgrees(p, aliases, coalesced, color, isa, s, t, n);
      assert Run(isa, aliases, q, t, KeptSteps(isa, p, coalesced, s, n)).pc >= |q|;
    }
    if HaltsWith(isa, aliases, q, t, mem) {
      var m: nat :| Run(isa, aliases, q, t, m).pc >= |q| && Run(isa, aliases, q, t, m).mem == mem;
      var n := EveryKeptStep(p, aliases, coalesced, color, isa, s, t, m);
      RunAgrees(p, aliases, coalesced, color, isa, s, t, n);
      var s' := Run(isa, NoAliases, p, s, n);
      if s'.pc == |p| {
        HaltsOnce(isa, aliases, q, t, m, KeptSteps(isa, p, coalesced, s, n));
      } else {
        EmitExtends(p, coalesced, color, s'.pc, |p|);
        MovesFinish(p, aliases, coalesced, color, isa, s', Run(isa, aliases, q, t, m), |p| - s'.pc);
        RunCompose(isa, NoAliases, p, s, n, |p| - s'.pc);
      }
    }
  }
}
