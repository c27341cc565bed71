/**
  Spilling preserves meaning: the rewritten program simulates the original,
  with every live spilled temporary in the one stack slot.
 */
module SpillMeaning {
  import opened MachineCode
  import opened FlowGraphs
  import opened Machine
  import opened Recoloring
  import opened Spilling
  import opened SpillLayout

  /** What spilling relies on, besides what it has to do. */
  ghost predicate Sound(p: Program, spilled: set<Register>, slot: nat, work: seq<Job>, temps: nat, ids: nat) {
    && Task(p, spilled, slot, work, temps, ids)
    && LeadersFollowJumps(p)
    && (forall i, c :: 0 <= i < |p| && c in p[i].clobbers ==> c.Physical?)
    && (forall a, b :: a in spilled && b in spilled ==> !Interfere(p, a, b))
  }

  /** The rewritten program is at the start of the same instruction's block; the slot holds
      whichever spilled temporary is live. */
  ghost predicate Mirrors(p: Program, spilled: set<Register>, slot: nat, work: seq<Job>, temps: nat, s: State, t: State) {
    && s.pc <= |p|
    && t.pc == Start(slot, p, work, s.pc)
    && t.mem == s.mem && t.clock == s.clock
    && (forall k: nat :: k != slot ==> t.slots(k) == s.slots(k))
    && (forall r :: Old(r, temps) && r !in spilled ==> t.regs(r) == s.regs(r))
    && (forall r :: r in spilled && Live(p, s.pc, r) ==> t.slots(slot) == s.regs(r))
  }

  /** ----- running spill code ----- */

  function Loaded(pre: seq<Instr>): set<Register> {
    set j, r | 0 <= j < |pre| && r in pre[j].defs :: r
  }

  lemma LoadStep(isa: Isa, q: Program, slot: nat, t: State)
    requires t.pc < |q| && IsLoad(slot, q[t.pc])
    ensures var t', f := Step(isa, NoAliases, q, t), q[t.pc].defs[0];
      && t'.pc == t.pc + 1 && t'.mem == t.mem && t'.slots == t.slots && t'.clock == t.clock
      && forall r :: t'.regs(r) == if r == f then t.slots(slot) else t.regs(r)
  {
    assert q[t.pc].Defined() == [q[t.pc].defs[0]];
  }

  lemma {:induction false} RunLoads(isa: Isa, q: Program, slot: nat, t: State, pre: seq<Instr>)
    requires t.pc + |pre| <= |q| && q[t.pc..t.pc + |pre|] == pre
    requires forall j :: 0 <= j < |pre| ==> IsLoad(slot, pre[j])
    ensures var t' := Run(isa, NoAliases, q, t, |pre|);
      && t'.pc == t.pc + |pre| && t'.mem == t.mem && t'.slots == t.slots && t'.clock == t.clock
      && forall r :: t'.regs(r) == if r in Loaded(pre) then t.slots(slot) else t.regs(r)
    decreases |pre|
  {
    if pre != [] {
      assert q[t.pc] == pre[0];
      LoadStep(isa, q, slot, t);
      hide Step, Loaded;
      var t1 := Step(isa, NoAliases, q, t);
      assert q[t1.pc..t1.pc + |pre[1..]|] == pre[1..];
      RunLoads(isa, q, slot, t1, pre[1..]);
      LoadedFirst(slot, pre);
    } else {
      assert Loaded(pre) == {};
    }
  }

  lemma LoadedFirst(slot: nat, pre: seq<Instr>)
    requires pre != [] && IsLoad(slot, pre[0])
    ensures Loaded(pre) == {pre[0].defs[0]} + Loaded(pre[1..])
  {
    forall r
      ensures r in Loaded(pre) <==> r == pre[0].defs[0] || r in Loaded(pre[1..])
    {
      if r in Loaded(pre) {
        var j :| 0 <= j < |pre| && r in pre[j].defs;
        assert j > 0 ==> r in pre[1..][j - 1].defs;
      }
      if r in Loaded(pre[1..]) {
        var j :| 0 <= j < |pre[1..]| && r in pre[1..][j].defs;
        assert r in pre[j + 1].defs;
      }
      if r == pre[0].defs[0] {
        assert r in pre[0].defs;
      }
    }
  }

  lemma StoreStep(isa: Isa, q: Program, slot: nat, t: State)
    requires t.pc < |q| && IsStore(slot, q[t.pc])
    ensures var t' := Step(isa, NoAliases, q, t);
      && t'.pc == t.pc + 1 && t'.mem == t.mem && t'.clock == t.clock
      && (forall r :: t'.regs(r) == t.regs(r))
      && (forall k: nat :: t'.slots(k) == if k == slot then t.regs(q[t.pc].uses[0]) else t.slots(k))
  {
    assert q[t.pc].Used() == [q[t.pc].uses[0]];
    assert q[t.pc].Defined() == [];
  }

  lemma {:induction false} RunStores(isa: Isa, q: Program, slot: nat, t: State, post: seq<Instr>, v: int)
    requires t.pc + |post| <= |q| && q[t.pc..t.pc + |post|] == post
    requires forall j :: 0 <= j < |post| ==> IsStore(slot, post[j]) && t.regs(post[j].uses[0]) == v
    ensures var t' := Run(isa, NoAliases, q, t, |post|);
      && t'.pc == t.pc + |post| && t'.mem == t.mem && t'.clock == t.clock
      && (forall r :: t'.regs(r) == t.regs(r))
      && (forall k: nat :: k != slot ==> t'.slots(k) == t.slots(k))
      && t'.slots(slot) == if post == [] then t.slots(slot) else v
    decreases |post|
  {
    if post != [] {
      assert q[t.pc] == post[0];
      StoreStep(isa, q, slot, t);
      hide Step;
      var t1 := Step(isa, NoAliases, q, t);
      assert q[t1.pc..t1.pc + |post[1..]|] == post[1..];
      RunStores(isa, q, slot, t1, post[1..], v);
    }
  }

  /** ----- one instruction ----- */

  lemma SpilledInstruction(p: Program, spilled: set<Register>, slot: nat, work: seq<Job>, temps: nat, ids: nat, i: nat)
    requires Sound(p, spilled, slot, work, temps, ids) && i < |p|
    ensures BlockFor(slot, p[i], work, BlockOf(slot, p[i], work))
    ensures forall r :: Mentions(p[i], r) ==> Old(r, temps)
    ensures forall r :: r in spilled && Mentions(p[i], r) ==> Done(work, p[i].id, r)
    ensures forall r :: Done(work, p[i].id, r) ==> r in spilled
  {
    BlockIs(slot, p[i], work, temps, ids, spilled);
  }

  /** An old register is renamed exactly when it is spilled and in the instruction. */
  lemma Keeps(p: Program, spilled: set<Register>, slot: nat, work: seq<Job>, temps: nat, ids: nat, i: nat, r: Register)
    requires Sound(p, spilled, slot, work, temps, ids) && i < |p| && Old(r, temps)
    ensures r !in spilled ==> Renamed(work, p[i].id, r) == r
    ensures r in spilled && Mentions(p[i], r) ==> !Old(Renamed(work, p[i].id, r), temps)
    ensures forall x :: Old(x, temps) && Renamed(work, p[i].id, x) == Renamed(work, p[i].id, r) ==> x == r
  {
    SpilledInstruction(p, spilled, slot, work, temps, ids, i);
    var k := RenamedIs(work, p[i].id, r);
    NamesAreDistinct(work, temps, ids, spilled, p[i].id, r);
  }

  /** After the loads, every register that the instruction uses has its value, under its new name. */
  ghost predicate Reloaded(p: Program, i: nat, naming: Coloring, temps: nat, s: State, t: State, t1: State)
    requires i < |p|
  {
    && t1.mem == t.mem && t1.clock == t.clock && t1.slots == t.slots
    && (forall r :: Old(r, temps) ==> t1.regs(r) == t.regs(r))
    && (forall r :: r in p[i].Gen() ==> t1.regs(naming(r)) == s.regs(r))
  }

  lemma LoadsMirror(p: Program, spilled: set<Register>, slot: nat, work: seq<Job>, temps: nat, ids: nat, isa: Isa, s: State, t: State)
    requires Sound(p, spilled, slot, work, temps, ids) && Mirrors(p, spilled, slot, work, temps, s, t) && s.pc < |p|
    ensures var i := s.pc; var n := |BlockOf(slot, p[i], work).pre|;
      var t1 := Run(isa, NoAliases, Expand(slot, p, work), t, n);
      t1.pc == MainAt(slot, p, work, i) && Reloaded(p, i, Naming(work, p[i].id), temps, s, t, t1)
  {
    var i, q := s.pc, Expand(slot, p, work);
    var pre := BlockOf(slot, p[i], work).pre;
    SpilledInstruction(p, spilled, slot, work, temps, ids, i);
    BlockInPlace(slot, p, work, i);
    RunLoads(isa, q, slot, t, pre);
    var t1 := Run(isa, NoAliases, q, t, |pre|);
    hide BlockOf, Expand, Interfere, Run, Sound, Loaded, Loading, Storing, Names, Live, Start, MainAt, Recolor, BlockFor;
    forall r | Old(r, temps)
      ensures r !in Loaded(pre)
    {
      LoadsAreNew(p, spilled, slot, work, temps, ids, i, r);
    }
    forall r | r in p[i].Gen()
      ensures t1.regs(Renamed(work, p[i].id, r)) == s.regs(r)
    {
      LiveEquation(p, i, r);
      LoadsUsed(p, spilled, slot, work, temps, ids, i, r);
    }
  }

  lemma LoadsUsed(p: Program, spilled: set<Register>, slot: nat, work: seq<Job>, temps: nat, ids: nat, i: nat, r: Register)
    requires Sound(p, spilled, slot, work, temps, ids) && i < |p| && r in p[i].Gen()
    ensures Old(r, temps)
    ensures if r in spilled then Renamed(work, p[i].id, r) in Loaded(BlockOf(slot, p[i], work).pre)
      else Renamed(work, p[i].id, r) == r
  {
    hide BlockOf, Renamed, Sound, Done, Recolor, Storing;
    var pre := BlockOf(slot, p[i], work).pre;
    SpilledInstruction(p, spilled, slot, work, temps, ids, i);
    assert Mentions(p[i], r);
    Keeps(p, spilled, slot, work, temps, ids, i, r);
    if r in spilled {
      assert Renamed(work, p[i].id, r) in Names(work, p[i].id, p[i].Gen());
      var j :| 0 <= j < |pre| && pre[j].defs == [Renamed(work, p[i].id, r)];
      assert Renamed(work, p[i].id, r) in pre[j].defs;
    }
  }

  lemma LoadsAreNew(p: Program, spilled: set<Register>, slot: nat, work: seq<Job>, temps: nat, ids: nat, i: nat, r: Register)
    requires Sound(p, spilled, slot, work, temps, ids) && i < |p| && Old(r, temps)
    ensures r !in Loaded(BlockOf(slot, p[i], work).pre)
  {
    hide BlockOf, Renamed, Sound, Done, Recolor, Storing;
    var pre := BlockOf(slot, p[i], work).pre;
    SpilledInstruction(p, spilled, slot, work, temps, ids, i);
    if r in Loaded(pre) {
      var j :| 0 <= j < |pre| && r in pre[j].defs;
      assert r in Names(work, p[i].id, p[i].Gen());
      var x :| x in p[i].Gen() && Done(work, p[i].id, x) && Renamed(work, p[i].id, x) == r;
      Keeps(p, spilled, slot, work, temps, ids, i, x);
    }
  }

  /** ----- the instruction itself ----- */

  /** What an instruction computes does not depend on the slot. */
  lemma ExecuteMirrors(isa: Isa, i: Instr, color: Coloring, slot: nat, inputs: seq<int>, mem: Memory,
      slots: nat -> int, slots': nat -> int, clock: nat)
    requires i.op != Load(slot) && i.op != Store(slot)
    requires forall k: nat :: k != slot ==> slots'(k) == slots(k)
    ensures var e, e' := Execute(isa, i, inputs, mem, slots, clock), Execute(isa, Recolor(i, color), inputs, mem, slots', clock);
      && (forall k: nat :: e'.outs(k) == e.outs(k))
      && e'.mem == e.mem && e'.branch == e.branch && e'.clock == e.clock
      && (forall k: nat :: k != slot ==> e'.slots(k) == e.slots(k))
      && e'.slots(slot) == slots'(slot)
  {
  }

  lemma SameInputs(p: Program, i: nat, naming: Coloring, sregs: Register -> int, tregs: Register -> int)
    requires i < |p| && forall r :: r in p[i].Gen() ==> tregs(naming(r)) == sregs(r)
    ensures Inputs(tregs, Colored(naming, p[i].Used())) == Inputs(sregs, p[i].Used())
  {
    var used := p[i].Used();
    forall k | 0 <= k < |used|
      ensures tregs(naming(used[k])) == sregs(used[k])
    {
      assert used[k] in p[i].Gen();
    }
  }

  /** A register that is not spilled, or that the instruction defines, has its new value under its name. */
  lemma WritesMirror(p: Program, spilled: set<Register>, slot: nat, work: seq<Job>, temps: nat, ids: nat, i: nat, r: Register,
      sregs: Register -> int, tregs: Register -> int, outs: nat -> int, outs': nat -> int, junk: Register -> int, junk': Register -> int)
    requires Sound(p, spilled, slot, work, temps, ids) && i < |p| && Old(r, temps)
    requires r in p[i].Kill() || (r !in spilled && tregs(r) == sregs(r))
    requires (forall k: nat :: outs'(k) == outs(k)) && (forall x :: junk'(x) == junk(x))
    ensures var naming := Naming(work, p[i].id);
      Write(tregs, NoAliases, Colored(naming, p[i].Defined()), outs', p[i].clobbers, junk')(naming(r))
        == Write(sregs, NoAliases, p[i].Defined(), outs, p[i].clobbers, junk)(r)
  {
    var defs, naming := p[i].Defined(), Naming(work, p[i].id);
    var colored := Colored(naming, defs);
    Keeps(p, spilled, slot, work, temps, ids, i, r);
    assert forall d :: d in defs ==> Mentions(p[i], d);
    SpilledInstruction(p, spilled, slot, work, temps, ids, i);
    hide Renamed, BlockOf, Task, Interfere, LeadersFollowJumps;
    if r in defs {
      FirstIndexColored(naming, defs, r);
    } else {
      assert naming(r) == r;
      assert forall k :: 0 <= k < |defs| ==> colored[k] == naming(defs[k]) && defs[k] in defs;
      assert r !in colored;
      assert Spoils(NoAliases, p[i].clobbers + (set d | d in colored), r) <==> r in p[i].clobbers;
      assert Spoils(NoAliases, p[i].clobbers + (set d | d in defs), r) <==> r in p[i].clobbers;
    }
  }

  lemma CodeNeedsNames(slot: nat, code: seq<Instr>, names: set<Register>)
    ensures (Loading(slot, code, names) || Storing(slot, code, names)) && code != [] ==> names != {}
  {
    if Loading(slot, code, names) && code != [] {
      assert code[0].defs[0] in names;
    } else if Storing(slot, code, names) && code != [] {
      assert code[0].uses[0] in names;
    }
  }

  /** A jump arrives at a block that loads nothing. */
  lemma TargetLoadsNothing(p: Program, spilled: set<Register>, slot: nat, work: seq<Job>, temps: nat, ids: nat, j: nat, i: nat)
    requires Sound(p, spilled, slot, work, temps, ids) && i < |p| && j < |p| && p[i].id in p[j].jumps
    ensures BlockOf(slot, p[i], work).pre == []
  {
    SpilledInstruction(p, spilled, slot, work, temps, ids, i);
    hide BlockOf, Renamed, Done, Recolor, Loading, Storing, Interfere, LeadersFollowJumps;
    assert p[i].Gen() !! spilled;
    assert Names(work, p[i].id, p[i].Gen()) == {};
    CodeNeedsNames(slot, BlockOf(slot, p[i], work).pre, {});
  }

  /** A jump stores nothing. */
  lemma JumpStoresNothing(p: Program, spilled: set<Register>, slot: nat, work: seq<Job>, temps: nat, ids: nat, i: nat)
    requires Sound(p, spilled, slot, work, temps, ids) && i < |p| && p[i].jumps != []
    ensures BlockOf(slot, p[i], work).post == []
  {
    SpilledInstruction(p, spilled, slot, work, temps, ids, i);
    hide BlockOf, Renamed, Done, Recolor, Loading, Storing, Interfere, LeadersFollowJumps;
    assert p[i].Kill() !! spilled;
    assert Names(work, p[i].id, p[i].Kill()) == {};
    CodeNeedsNames(slot, BlockOf(slot, p[i], work).post, {});
  }

  lemma IdsAreUnique(p: Program, spilled: set<Register>, slot: nat, work: seq<Job>, temps: nat, ids: nat)
    requires Sound(p, spilled, slot, work, temps, ids)
    ensures IdsBelow(Expand(slot, p, work), ids + 2 * |work|)
  {
    ExpandIds(slot, p, work, temps, ids);
  }

  /** Where control goes after the instruction, in both programs. */
  lemma NextMirrors(p: Program, spilled: set<Register>, slot: nat, work: seq<Job>, temps: nat, ids: nat, i: nat, branch: nat)
    requires Sound(p, spilled, slot, work, temps, ids) && i < |p|
    ensures Next(p, i, branch) <= |p|
    ensures var q, at := Expand(slot, p, work), MainAt(slot, p, work, i);
      at < |q| && Next(q, at, branch) + |BlockOf(slot, p[i], work).post| == Start(slot, p, work, Next(p, i, branch))
  {
    BlockInPlace(slot, p, work, i);
    SpilledInstruction(p, spilled, slot, work, temps, ids, i);
    var jumps := p[i].jumps;
    if jumps != [] {
      var id := jumps[branch % |jumps|];
      JumpStoresNothing(p, spilled, slot, work, temps, ids, i);
      IndexOfPresent(p, id);
      var j := IndexOf(p, id);
      TargetLoadsNothing(p, spilled, slot, work, temps, ids, i, j);
      IdsAreUnique(p, spilled, slot, work, temps, ids);
      FoundAt(slot, p, work, j);
    }
  }

  /** After the instruction itself: everything agrees, under the new names, but the slot. */
  ghost predicate Computed(p: Program, spilled: set<Register>, slot: nat, work: seq<Job>, temps: nat, i: nat, s': State, t: State, t2: State)
    requires i < |p|
  {
    && s'.pc <= |p|
    && t2.pc + |BlockOf(slot, p[i], work).post| == Start(slot, p, work, s'.pc)
    && t2.mem == s'.mem && t2.clock == s'.clock
    && (forall k: nat :: k != slot ==> t2.slots(k) == s'.slots(k))
    && t2.slots(slot) == t.slots(slot)
    && (forall r :: Old(r, temps) && (r in p[i].Kill() || r !in spilled) ==> t2.regs(Renamed(work, p[i].id, r)) == s'.regs(r))
  }

  lemma MainMirrors(p: Program, spilled: set<Register>, slot: nat, work: seq<Job>, temps: nat, ids: nat, isa: Isa, s: State, t: State, t1: State)
    requires Sound(p, spilled, slot, work, temps, ids) && Mirrors(p, spilled, slot, work, temps, s, t) && s.pc < |p|
    requires t1.pc == MainAt(slot, p, work, s.pc) && Reloaded(p, s.pc, Naming(work, p[s.pc].id), temps, s, t, t1)
    ensures Computed(p, spilled, slot, work, temps, s.pc, Step(isa, NoAliases, p, s), t, Step(isa, NoAliases, Expand(slot, p, work), t1))
  {
    var i, q, naming := s.pc, Expand(slot, p, work), Naming(work, p[s.pc].id);
    BlockInPlace(slot, p, work, i);
    SpilledInstruction(p, spilled, slot, work, temps, ids, i);
    assert q[t1.pc] == Recolor(p[i], naming);
    RecolorRegisters(p[i], naming);
    SameInputs(p, i, naming, s.regs, t1.regs);
    assert p[i].op != Load(slot) && p[i].op != Store(slot);
    hide BlockOf, Expand, Sound, Renamed, Loading, Storing, Names, Interfere;
    var inputs := Inputs(s.regs, p[i].Used());
    ExecuteMirrors(isa, p[i], naming, slot, inputs, s.mem, s.slots, t1.slots, s.clock);
    var e, e' := Execute(isa, p[i], inputs, s.mem, s.slots, s.clock), Execute(isa, Recolor(p[i], naming), inputs, s.mem, t1.slots, s.clock);
    NextMirrors(p, spilled, slot, work, temps, ids, i, e.branch);
    hide Execute, Next, Inputs;
    var s', t2 := Step(isa, NoAliases, p, s), Step(isa, NoAliases, q, t1);
    forall r | Old(r, temps) && (r in p[i].Kill() || r !in spilled)
      ensures t2.regs(Renamed(work, p[i].id, r)) == s'.regs(r)
    {
      WritesMirror(p, spilled, slot, work, temps, ids, i, r, s.regs, t1.regs, e.outs, e'.outs,
        x => isa.junk(s.clock, x), x => isa.junk(t1.clock, x));
    }
  }

  /** Of the spilled temporaries, only one can be live after an instruction or defined by it. */
  lemma OneAtATime(p: Program, spilled: set<Register>, slot: nat, work: seq<Job>, temps: nat, ids: nat, i: nat, a: Register, b: Register)
    requires Sound(p, spilled, slot, work, temps, ids) && i < |p| && a in spilled && b in spilled
    requires LiveOutOrKilled(p, i, a) && LiveOutOrKilled(p, i, b)
    ensures a == b
  {
    assert InterfereAt(p, i, a, b);
    assert a != b ==> Interfere(p, a, b);
  }

  /** A temporary that is live after the instruction without being defined by it was live before, unchanged. */
  lemma PassesThrough(p: Program, isa: Isa, s: State, r: Register)
    requires s.pc < |p| && WellFormed(p) && LeadersFollowJumps(p)
    requires r.Virtual? && forall c :: c in p[s.pc].clobbers ==> c.Physical?
    requires Live(p, Step(isa, NoAliases, p, s).pc, r)
    ensures LiveAfter(p, s.pc, r)
    ensures r !in p[s.pc].Kill() ==> Live(p, s.pc, r) && Step(isa, NoAliases, p, s).regs(r) == s.regs(r)
  {
    var i := s.pc;
    var e := Execute(isa, p[i], Inputs(s.regs, p[i].Used()), s.mem, s.slots, s.clock);
    NextInFlow(p, i, e.branch, r);
    LiveEquation(p, i, r);
    hide Live, LiveAfter, Execute, Next, Inputs;
    if r !in p[i].Kill() {
      assert !Spoils(NoAliases, p[i].clobbers + (set d | d in p[i].Defined()), r);
    }
  }

  lemma StoredValues(p: Program, spilled: set<Register>, slot: nat, work: seq<Job>, temps: nat, ids: nat, i: nat, d: Register, j: nat)
    requires Sound(p, spilled, slot, work, temps, ids) && i < |p| && d in p[i].Kill() && d in spilled
    requires j < |BlockOf(slot, p[i], work).post|
    ensures var store := BlockOf(slot, p[i], work).post[j]; IsStore(slot, store) && store.uses[0] == Renamed(work, p[i].id, d)
  {
    SpilledInstruction(p, spilled, slot, work, temps, ids, i);
    hide BlockOf, Renamed, Sound, Done, Recolor, Interfere, Loading;
    var store := BlockOf(slot, p[i], work).post[j];
    var x :| x in p[i].Kill() && Done(work, p[i].id, x) && Renamed(work, p[i].id, x) == store.uses[0];
    OneAtATime(p, spilled, slot, work, temps, ids, i, x, d);
  }

  lemma SomethingStored(p: Program, spilled: set<Register>, slot: nat, work: seq<Job>, temps: nat, ids: nat, i: nat)
    requires Sound(p, spilled, slot, work, temps, ids) && i < |p|
    ensures p[i].Kill() * spilled == {} <==> BlockOf(slot, p[i], work).post == []
  {
    SpilledInstruction(p, spilled, slot, work, temps, ids, i);
    hide BlockOf, Renamed, Sound, Done, Recolor, Interfere, Loading, Storing;
    var post, names := BlockOf(slot, p[i], work).post, Names(work, p[i].id, p[i].Kill());
    CodeNeedsNames(slot, post, names);
    NamesNeedCode(slot, post, names);
    if p[i].Kill() * spilled != {} {
      var d :| d in p[i].Kill() * spilled;
      assert Renamed(work, p[i].id, d) in names;
    } else {
      forall r | r in p[i].Kill()
        ensures !Done(work, p[i].id, r)
      {
        assert r !in p[i].Kill() * spilled;
      }
      assert names == {};
    }
  }

  lemma NamesNeedCode(slot: nat, code: seq<Instr>, names: set<Register>)
    ensures Storing(slot, code, names) && names != {} ==> code != []
  {
    if names != {} {
      var r :| r in names;
    }
  }

  /** A spilled temporary that is live after the instruction: defined by it, or still in the slot. */
  lemma LiveSpilled(p: Program, spilled: set<Register>, slot: nat, work: seq<Job>, temps: nat, ids: nat, isa: Isa, s: State, t: State, r: Register)
    requires Sound(p, spilled, slot, work, temps, ids) && Mirrors(p, spilled, slot, work, temps, s, t) && s.pc < |p|
    requires r in spilled && Live(p, Step(isa, NoAliases, p, s).pc, r)
    ensures p[s.pc].Kill() * spilled <= {r}
    ensures p[s.pc].Kill() * spilled == {} ==> t.slots(slot) == Step(isa, NoAliases, p, s).regs(r)
  {
    PassesThrough(p, isa, s, r);
    hide Step, BlockOf, Renamed, Live, LiveAfter, Interfere, Complete, Numbered, Orderly;
    forall d | d in p[s.pc].Kill() * spilled
      ensures d == r
    {
      OneAtATime(p, spilled, slot, work, temps, ids, s.pc, r, d);
    }
  }

  lemma OthersMirror(p: Program, spilled: set<Register>, slot: nat, work: seq<Job>, temps: nat, ids: nat, s': State, t: State, t2: State, i: nat, r: Register)
    requires Sound(p, spilled, slot, work, temps, ids) && i < |p| && Computed(p, spilled, slot, work, temps, i, s', t, t2)
    requires Old(r, temps) && r !in spilled
    ensures t2.regs(r) == s'.regs(r)
  {
    Keeps(p, spilled, slot, work, temps, ids, i, r);
  }

  lemma RunStoresOf(p: Program, spilled: set<Register>, slot: nat, work: seq<Job>, temps: nat, ids: nat, isa: Isa, s': State, t: State, t2: State, i: nat, d: Register)
    requires Sound(p, spilled, slot, work, temps, ids) && i < |p| && Computed(p, spilled, slot, work, temps, i, s', t, t2)
    requires t2.pc == MainAt(slot, p, work, i) + 1 && d in p[i].Kill() && d in spilled
    ensures var post := BlockOf(slot, p[i], work).post;
      var t' := Run(isa, NoAliases, Expand(slot, p, work), t2, |post|);
      && t'.pc == t2.pc + |post| && t'.mem == t2.mem && t'.clock == t2.clock
      && (forall r :: t'.regs(r) == t2.regs(r))
      && (forall k: nat :: k != slot ==> t'.slots(k) == t2.slots(k))
      && t'.slots(slot) == s'.regs(d)
  {
    hide BlockOf, Expand, Renamed, Step, Sound, Run, Start, Computed;
    var post := BlockOf(slot, p[i], work).post;
    BlockInPlace(slot, p, work, i);
    SomethingStored(p, spilled, slot, work, temps, ids, i);
    assert d in p[i].Kill() * spilled;
    ComputedAt(p, spilled, slot, work, temps, ids, i, s', t, t2, d);
    forall j | 0 <= j < |post|
      ensures IsStore(slot, post[j]) && t2.regs(post[j].uses[0]) == s'.regs(d)
    {
      StoredValues(p, spilled, slot, work, temps, ids, i, d, j);
    }
    RunStores(isa, Expand(slot, p, work), slot, t2, post, s'.regs(d));
  }

  lemma ComputedAt(p: Program, spilled: set<Register>, slot: nat, work: seq<Job>, temps: nat, ids: nat, i: nat, s': State, t: State, t2: State, d: Register)
    requires Sound(p, spilled, slot, work, temps, ids) && i < |p| && Computed(p, spilled, slot, work, temps, i, s', t, t2)
    requires d in p[i].Kill()
    ensures t2.regs(Renamed(work, p[i].id, d)) == s'.regs(d)
  {
    assert Mentions(p[i], d);
  }

  lemma StoresMirror(p: Program, spilled: set<Register>, slot: nat, work: seq<Job>, temps: nat, ids: nat, isa: Isa, s: State, t: State, t2: State)
    requires Sound(p, spilled, slot, work, temps, ids) && Mirrors(p, spilled, slot, work, temps, s, t) && s.pc < |p|
    requires var s' := Step(isa, NoAliases, p, s); Computed(p, spilled, slot, work, temps, s.pc, s', t, t2)
    requires p[s.pc].jumps == [] ==> t2.pc == MainAt(slot, p, work, s.pc) + 1
    ensures var n := |BlockOf(slot, p[s.pc], work).post|;
      Mirrors(p, spilled, slot, work, temps, Step(isa, NoAliases, p, s), Run(isa, NoAliases, Expand(slot, p, work), t2, n))
  {
    hide BlockOf, Expand, Renamed, Step, Sound, Live, Run;
    var i, s' := s.pc, Step(isa, NoAliases, p, s);
    SomethingStored(p, spilled, slot, work, temps, ids, i);
    forall r | Old(r, temps) && r !in spilled
      ensures t2.regs(r) == s'.regs(r)
    {
      OthersMirror(p, spilled, slot, work, temps, ids, s', t, t2, i, r);
    }
    forall r | r in spilled && Live(p, s'.pc, r)
      ensures p[i].Kill() * spilled <= {r}
      ensures p[i].Kill() * spilled == {} ==> t.slots(slot) == s'.regs(r)
    {
      LiveSpilled(p, spilled, slot, work, temps, ids, isa, s, t, r);
    }
    RunNothing(isa, Expand(slot, p, work), t2);
    if p[i].Kill() * spilled != {} {
      var d :| d in p[i].Kill() * spilled;
      if p[i].jumps != [] {
        JumpStoresNothing(p, spilled, slot, work, temps, ids, i);
      }
      RunStoresOf(p, spilled, slot, work, temps, ids, isa, s', t, t2, i, d);
      assert forall r :: r in spilled && Live(p, s'.pc, r) ==> r == d;
    }
  }

  lemma RunNothing(isa: Isa, q: Program, t: State)
    ensures Run(isa, NoAliases, q, t, 0) == t
  {
  }

  /** ----- blocks, runs ----- */

  /** One step of the original is one block of the rewritten program. */
  lemma BlockMirrors(p: Program, spilled: set<Register>, slot: nat, work: seq<Job>, temps: nat, ids: nat, isa: Isa, s: State, t: State)
    requires Sound(p, spilled, slot, work, temps, ids) && Mirrors(p, spilled, slot, work, temps, s, t) && s.pc < |p|
    ensures var n := |BlockOf(slot, p[s.pc], work).Flat()|;
      n > 0 && Mirrors(p, spilled, slot, work, temps, Step(isa, NoAliases, p, s), Run(isa, NoAliases, Expand(slot, p, work), t, n))
  {
    hide BlockOf, Sound, Renamed, Mirrors, Expand, Computed, Reloaded, Run, Step;
    assert s.pc <= |p|;
    var q, b := Expand(slot, p, work), BlockOf(slot, p[s.pc], work);
    LoadsMirror(p, spilled, slot, work, temps, ids, isa, s, t);
    var t1 := Run(isa, NoAliases, q, t, |b.pre|);
    MainMirrors(p, spilled, slot, work, temps, ids, isa, s, t, t1);
    FallsThrough(p, spilled, slot, work, temps, ids, isa, s.pc, t1);
    StoresMirror(p, spilled, slot, work, temps, ids, isa, s, t, Step(isa, NoAliases, q, t1));
    RunThree(isa, q, t, |b.pre|, |b.post|);
    assert |b.Flat()| == |b.pre| + 1 + |b.post|;
  }

  lemma RunThree(isa: Isa, q: Program, t: State, m: nat, n: nat)
    ensures Run(isa, NoAliases, q, t, m + 1 + n) == Run(isa, NoAliases, q, Step(isa, NoAliases, q, Run(isa, NoAliases, q, t, m)), n)
  {
    hide Step;
    RunCompose(isa, NoAliases, q, t, m, 1 + n);
    RunCompose(isa, NoAliases, q, Run(isa, NoAliases, q, t, m), 1, n);
    RunNothing(isa, q, Step(isa, NoAliases, q, Run(isa, NoAliases, q, t, m)));
  }

  lemma FallsThrough(p: Program, spilled: set<Register>, slot: nat, work: seq<Job>, temps: nat, ids: nat, isa: Isa, i: nat, t1: State)
    requires Sound(p, spilled, slot, work, temps, ids) && i < |p| && t1.pc == MainAt(slot, p, work, i)
    ensures p[i].jumps == [] ==> Step(isa, NoAliases, Expand(slot, p, work), t1).pc == t1.pc + 1
  {
    BlockInPlace(slot, p, work, i);
    SpilledInstruction(p, spilled, slot, work, temps, ids, i);
  }

  /** How many steps the rewritten program takes for `n` steps of the original. */
  function BlockSteps(isa: Isa, p: Program, slot: nat, work: seq<Job>, s: State, n: nat): nat
    decreases n
  {
    if n == 0 || s.pc >= |p| then 0
    else |BlockOf(slot, p[s.pc], work).Flat()| + BlockSteps(isa, p, slot, work, Step(isa, NoAliases, p, s), n - 1)
  }

  /** Spilling preserves meaning: along every run the rewritten program mirrors the original. */
  lemma {:induction false} SpilledRunMirrors(p: Program, spilled: set<Register>, slot: nat, work: seq<Job>, temps: nat, ids: nat, isa: Isa,
      s: State, t: State, n: nat)
    requires Sound(p, spilled, slot, work, temps, ids) && Mirrors(p, spilled, slot, work, temps, s, t)
    ensures Mirrors(p, spilled, slot, work, temps, Run(isa, NoAliases, p, s, n),
      Run(isa, NoAliases, Expand(slot, p, work), t, BlockSteps(isa, p, slot, work, s, n)))
    ensures Run(isa, NoAliases, p, s, n).pc < |p| ==> BlockSteps(isa, p, slot, work, s, n) >= n
    decreases n
  {
    hide Sound, Mirrors, Step, BlockOf, Expand;
    if s.pc >= |p| {
      HaltedStays(isa, NoAliases, p, s, n);
    } else if n > 0 {
      var s', b := Step(isa, NoAliases, p, s), |BlockOf(slot, p[s.pc], work).Flat()|;
      BlockMirrors(p, spilled, slot, work, temps, ids, isa, s, t);
      var t' := Run(isa, NoAliases, Expand(slot, p, work), t, b);
      SpilledRunMirrors(p, spilled, slot, work, temps, ids, isa, s', t', n - 1);
      RunCompose(isa, NoAliases, Expand(slot, p, work), t, b, BlockSteps(isa, p, slot, work, s', n - 1));
    }
  }

  lemma MirrorsHalted(p: Program, spilled: set<Register>, slot: nat, work: seq<Job>, temps: nat, s: State, t: State)
    requires Mirrors(p, spilled, slot, work, temps, s, t)
    ensures t.mem == s.mem && s.pc <= |p|
    ensures s.pc == |p| <==> t.pc >= |Expand(slot, p, work)|
  {
    if s.pc < |p| {
      BlockInPlace(slot, p, work, s.pc);
    }
  }

  /** The rewritten program halts exactly when the original does, with the same memory. */
  lemma SpillingPreservesMeaning(p: Program, spilled: set<Register>, slot: nat, work: seq<Job>, temps: nat, ids: nat, isa: Isa,
      s: State, t: State, mem: Memory)
    requires Sound(p, spilled, slot, work, temps, ids) && Mirrors(p, spilled, slot, work, temps, s, t)
    ensures HaltsWith(isa, NoAliases, p, s, mem) <==> HaltsWith(isa, NoAliases, Expand(slot, p, work), t, mem)
  {
    hide Sound, Mirrors, Step, Run, BlockSteps, Expand;
    var q := Expand(slot, p, work);
    if HaltsWith(isa, NoAliases, p, s, mem) {
      var n: nat :| Run(isa, NoAliases, p, s, n).pc >= |p| && Run(isa, NoAliases, p, s, n).mem == mem;
      SpilledRunMirrors(p, spilled, slot, work, temps, ids, isa, s, t, n);
      MirrorsHalted(p, spilled, slot, work, temps, Run(isa, NoAliases, p, s, n), Run(isa, NoAliases, q, t, BlockSteps(isa, p, slot, work, s, n)));
    }
    if HaltsWith(isa, NoAliases, q, t, mem) {
      var m: nat :| Run(isa, NoAliases, q, t, m).pc >= |q| && Run(isa, NoAliases, q, t, m).mem == mem;
      SpilledRunMirrors(p, spilled, slot, work, temps, ids, isa, s, t, m);
      var n := BlockSteps(isa, p, slot, work, s, m);
      MirrorsHalted(p, spilled, slot, work, temps, Run(isa, NoAliases, p, s, m), Run(isa, NoAliases, q, t, n));
      if Run(isa, NoAliases, q, t, n).pc < |q| {
        RunCompose(isa, NoAliases, q, t, m, n - m);
        HaltedStays(isa, NoAliases, q, Run(isa, NoAliases, q, t, m), n - m);
      }
      HaltsOnce(isa, NoAliases, q, t, m, n);
    }
  }
}
