/**
  What abstract machine code does: a register machine with memory and stack
  slots.  Instructions compute from the registers they use; registers they
  clobber, or that alias a register they write, are left with junk.
 */
module Machine {
  import opened MachineCode

  type Memory = map<int, int>

  datatype Outcome = Outcome(outs: nat -> int, mem: Memory, branch: nat)

  /** The meaning of the target's instructions, and the junk that the n-th of them leaves behind. */
  datatype Isa = Isa(eval: (nat, seq<int>, Memory) -> Outcome, junk: (nat, Register) -> int)

  /** `clock` counts ordinary instructions: moves, loads and stores leave no junk that matters. */
  datatype State = State(pc: nat, regs: Register -> int, mem: Memory, slots: nat -> int, clock: nat)

  /** The registers that share storage with a register, apart from itself. */
  type Aliasing = Register -> set<Register>

  /** Virtual registers are all independent. */
  const NoAliases: Aliasing := r => {}

  function Inputs(regs: Register -> int, used: seq<Register>): (values: seq<int>)
    ensures |values| == |used|
    ensures forall k :: 0 <= k < |used| ==> values[k] == regs(used[k])
  {
    seq(|used|, k requires 0 <= k < |used| => regs(used[k]))
  }

  function FirstIndex(s: seq<Register>, r: Register): (k: nat)
    requires r in s
    ensures k < |s| && s[k] == r
    ensures forall j :: 0 <= j < k ==> s[j] != r
  {
    if s[0] == r then 0 else FirstIndex(s[1..], r) + 1
  }

  /** Writing any of `written` spoils `r`. */
  predicate Spoils(aliases: Aliasing, written: set<Register>, r: Register) {
    exists c :: c in written && (r == c || r in aliases(c))
  }

  function Write(regs: Register -> int, aliases: Aliasing, defs: seq<Register>, outs: nat -> int,
      clobbers: set<Register>, junk: Register -> int): Register -> int
  {
    r => if r in defs then outs(FirstIndex(defs, r))
         else if Spoils(aliases, clobbers + (set d | d in defs), r) then junk(r)
         else regs(r)
  }

  datatype Effect = Effect(outs: nat -> int, mem: Memory, slots: nat -> int, branch: nat, clock: nat)

  /** What an instruction computes from its inputs, apart from writing its registers. */
  function Execute(isa: Isa, i: Instr, inputs: seq<int>, mem: Memory, slots: nat -> int, clock: nat): Effect {
    if i.ismove && inputs != [] then
      Effect(_ => inputs[0], mem, slots, 0, clock)
    else match i.op
      case Load(n) => Effect(_ => slots(n), mem, slots, 0, clock)
      case Store(n) =>
        Effect(_ => 0, mem, if inputs == [] then slots else (k: nat) => if k == n then inputs[0] else slots(k), 0, clock)
      case Ordinary(code) =>
        var o := isa.eval(code, inputs, mem);
        Effect(o.outs, o.mem, slots, o.branch, clock + 1)
  }

  function Step(isa: Isa, aliases: Aliasing, p: Program, s: State): State {
    if s.pc >= |p| then s else
    var i := p[s.pc];
    var e := Execute(isa, i, Inputs(s.regs, i.Used()), s.mem, s.slots, s.clock);
    var regs := Write(s.regs, aliases, i.Defined(), e.outs, i.clobbers, r => isa.junk(s.clock, r));
    State(Next(p, s.pc, e.branch), regs, e.mem, e.slots, e.clock)
  }

  /** Without jumps control falls through; otherwise one of the jumps is taken. */
  function Next(p: Program, pc: nat, branch: nat): nat
    requires pc < |p|
  {
    var jumps := p[pc].jumps;
    if jumps == [] then pc + 1 else IndexOf(p, jumps[branch % |jumps|])
  }

  function Run(isa: Isa, aliases: Aliasing, p: Program, s: State, n: nat): State
    decreases n
  {
    if n == 0 then s else Run(isa, aliases, p, Step(isa, aliases, p, s), n - 1)
  }

  lemma {:induction false} RunCompose(isa: Isa, aliases: Aliasing, p: Program, s: State, m: nat, n: nat)
    ensures Run(isa, aliases, p, s, m + n) == Run(isa, aliases, p, Run(isa, aliases, p, s, m), n)
    decreases m
  {
    hide Step;
    if m > 0 {
      RunCompose(isa, aliases, p, Step(isa, aliases, p, s), m - 1, n);
    }
  }

  lemma {:induction false} HaltedStays(isa: Isa, aliases: Aliasing, p: Program, s: State, n: nat)
    requires s.pc >= |p|
    ensures Run(isa, aliases, p, s, n) == s
    decreases n
  {
    if n > 0 {
      HaltedStays(isa, aliases, p, s, n - 1);
    }
  }

  /** Execution leaves the program with this memory. */
  ghost predicate HaltsWith(isa: Isa, aliases: Aliasing, p: Program, s: State, mem: Memory) {
    exists n: nat :: Run(isa, aliases, p, s, n).pc >= |p| && Run(isa, aliases, p, s, n).mem == mem
  }

  /** Two halting runs of the same program end in the same state. */
  lemma HaltsOnce(isa: Isa, aliases: Aliasing, p: Program, s: State, m: nat, n: nat)
    requires Run(isa, aliases, p, s, m).pc >= |p| && Run(isa, aliases, p, s, n).pc >= |p|
    ensures Run(isa, aliases, p, s, m) == Run(isa, aliases, p, s, n)
  {
    if m <= n {
      RunCompose(isa, aliases, p, s, m, n - m);
      HaltedStays(isa, aliases, p, Run(isa, aliases, p, s, m), n - m);
    } else {
      RunCompose(isa, aliases, p, s, n, m - n);
      HaltedStays(isa, aliases, p, Run(isa, aliases, p, s, n), m - n);
    }
  }
}
