/**
  The programs that the register allocator is for, and why a program that was
  rewritten for spilling is one of them again.
 */
module Compilability {
  import opened MachineCode
  import opened FlowGraphs
  import opened Machine
  import opened Recoloring
  import opened Graphs
  import opened PqTest
  import opened Spilling
  import opened SpillLayout
  import opened SpillMeaning
  import opened SpillPremises
  import opened Rewriter

  /** One instruction: forms of moves and spill code, known registers, temporaries as operands
      only, and no temporary defined by a jump. */
  ghost predicate WellBehaved(t: Target, temps: nat, slots: nat, i: Instr) {
    && i.WellFormedMove() && i.WellFormedSpill()
    && (forall c :: c in i.clobbers ==> c.Physical? && c in t.regs(t.classOf(c)))
    && (forall r :: Mentions(i, r) ==> Old(r, temps) && (r.Physical? ==> r in t.regs(t.classOf(r))))
    && (forall r :: r in i.extraUses + i.extraDefs ==> r.Physical?)
    && (i.jumps != [] ==> forall r :: r in i.Kill() ==> r.Physical?)
    && (!i.op.Ordinary? ==> i.op.slot < slots)
  }

  /** Jump targets are not moves and use no temporaries. */
  ghost predicate PlainTargets(p: Program) {
    forall i, j :: 0 <= i < |p| && 0 <= j < |p| && p[i].id in p[j].jumps ==> Plain(p[i])
  }

  ghost predicate Plain(i: Instr) {
    !i.ismove && forall r :: r in i.Gen() ==> r.Physical?
  }

  /** What the allocator needs of a program, apart from the numbers of its registers, identities and slots. */
  ghost predicate Compilable(t: Target, p: Program, temps: nat, ids: nat, slots: nat) {
    && t.Sensible()
    && WellFormed(p) && LeadersFollowJumps(p)
    && CleanEntry(p) && PhysicalApart(p, t.alias)
    && (forall i :: 0 <= i < |p| ==> p[i].id < ids && WellBehaved(t, temps, slots, p[i]))
    && PlainTargets(p)
  }

  /** A change of class for temporaries that the program does not have does not matter. */
  ghost predicate SameForOld(t: Target, t': Target, temps: nat) {
    && t'.regs == t.regs && t'.sub == t.sub && t'.alias == t.alias
    && forall r :: Old(r, temps) ==> t'.classOf(r) == t.classOf(r)
  }

  lemma StaysSensible(t: Target, t': Target, temps: nat)
    requires t.Sensible() && SameForOld(t, t', temps)
    ensures t'.Sensible()
  {
  }

  /** The temporaries of a node: virtual, known, and never live at the same time. */
  ghost predicate OneNode(p: Program, temps: nat, spilled: set<Register>) {
    && (forall r :: r in spilled ==> r.Virtual? && Old(r, temps))
    && (forall a, b :: a in spilled && b in spilled ==> !Interfere(p, a, b))
  }

  lemma IsSound(t: Target, p: Program, temps: nat, ids: nat, slots: nat, spilled: set<Register>, q: Program, work: seq<Job>)
    requires Compilable(t, p, temps, ids, slots) && OneNode(p, temps, spilled) && Rewritten(p, slots, q, work, temps, ids, spilled)
    ensures Sound(p, spilled, slots, work, temps, ids)
  {
    hide Interfere, LeadersFollowJumps, CleanEntry, PhysicalApart, Complete, Orderly, Numbered, UniqueIds, Expand;
    assert Bounded(p, temps, ids);
    assert UnusedSlot(p, slots) by {
      forall i | 0 <= i < |p|
        ensures p[i].op != Load(slots) && p[i].op != Store(slots)
      {
        assert WellBehaved(t, temps, slots, p[i]);
      }
    }
    assert Spillable(p, spilled) by {
      forall i, j | 0 <= i < |p| && 0 <= j < |p| && p[i].id in p[j].jumps
        ensures p[i].Gen() !! spilled
      {
        assert Plain(p[i]);
      }
    }
  }

  /** ----- the instructions of a block ----- */

  lemma NamesAreKnown(work: seq<Job>, temps: nat, ids: nat, at: nat, r: Register)
    requires Numbered(work, temps, ids) && Old(r, temps)
    ensures Old(Renamed(work, at, r), temps + |work|)
    ensures Renamed(work, at, r).Physical? ==> Renamed(work, at, r) == r
  {
    var k := RenamedIs(work, at, r);
  }

  lemma PhysicalKeepsName(p: Program, spilled: set<Register>, slot: nat, work: seq<Job>, temps: nat, ids: nat, i: nat, r: Register)
    requires Sound(p, spilled, slot, work, temps, ids) && i < |p| && r.Physical?
    ensures Renamed(work, p[i].id, r) == r
  {
    Keeps(p, spilled, slot, work, temps, ids, i, r);
  }

  lemma ColoredMembers(rs: seq<Register>, color: Coloring)
    ensures forall r :: r in Colored(color, rs) ==> exists x :: x in rs && color(x) == r
    ensures forall x :: x in rs ==> color(x) in Colored(color, rs)
  {
    forall r | r in Colored(color, rs)
      ensures exists x :: x in rs && color(x) == r
    {
      var k :| 0 <= k < |rs| && Colored(color, rs)[k] == r;
      assert rs[k] in rs && color(rs[k]) == r;
    }
    forall x | x in rs
      ensures color(x) in Colored(color, rs)
    {
      var k :| 0 <= k < |rs| && rs[k] == x;
      assert Colored(color, rs)[k] == color(x);
    }
  }

  /** What a renamed instruction mentions. */
  lemma RenamedOnes(p: Program, spilled: set<Register>, slot: nat, work: seq<Job>, temps: nat, ids: nat, i: nat, x: Register)
    requires Sound(p, spilled, slot, work, temps, ids) && i < |p| && Mentions(p[i], x)
    ensures var y := Naming(work, p[i].id)(x); Old(y, temps + |work|) && (y.Physical? ==> y == x) && (x.Physical? ==> y == x)
  {
    SpilledInstruction(p, spilled, slot, work, temps, ids, i);
    NamesAreKnown(work, temps, ids, p[i].id, x);
    if x.Physical? {
      PhysicalKeepsName(p, spilled, slot, work, temps, ids, i, x);
    }
  }

  lemma RenamedMentions(p: Program, spilled: set<Register>, slot: nat, work: seq<Job>, temps: nat, ids: nat, i: nat)
    requires Sound(p, spilled, slot, work, temps, ids) && i < |p|
    ensures var main := Recolor(p[i], Naming(work, p[i].id));
      && (forall r :: Mentions(main, r) ==> Old(r, temps + |work|) && (r.Physical? ==> Mentions(p[i], r)))
      && ((forall r :: r in p[i].Gen() ==> r.Physical?) ==> forall r :: r in main.Gen() ==> r.Physical?)
      && ((forall r :: r in p[i].Kill() ==> r.Physical?) ==> forall r :: r in main.Kill() ==> r.Physical?)
      && ((forall r :: r in p[i].extraUses + p[i].extraDefs ==> r.Physical?) ==> forall r :: r in main.extraUses + main.extraDefs ==> r.Physical?)
  {
    hide Sound, BlockOf, Renamed, Loading, Storing, Names, Recolor, Naming;
    var naming := Naming(work, p[i].id);
    forall x | Mentions(p[i], x)
      ensures Old(naming(x), temps + |work|) && (naming(x).Physical? ==> naming(x) == x) && (x.Physical? ==> naming(x) == x)
    {
      RenamedOnes(p, spilled, slot, work, temps, ids, i, x);
    }
    RecoloredMentions(p[i], naming, temps + |work|);
    RecoloredPhysical(p[i], naming);
  }

  lemma RecoloredMentions(i: Instr, naming: Register -> Register, temps: nat)
    requires forall x :: Mentions(i, x) ==> Old(naming(x), temps) && (naming(x).Physical? ==> naming(x) == x)
    ensures forall r :: Mentions(Recolor(i, naming), r) ==> Old(r, temps) && (r.Physical? ==> Mentions(i, r))
  {
    RecolorRegisters(i, naming);
    ColoredMembers(i.Used(), naming);
    ColoredMembers(i.Defined(), naming);
  }

  lemma RecoloredPhysical(i: Instr, naming: Register -> Register)
    requires forall x :: Mentions(i, x) ==> (x.Physical? ==> naming(x) == x)
    ensures var main := Recolor(i, naming);
      && ((forall r :: r in i.Gen() ==> r.Physical?) ==> forall r :: r in main.Gen() ==> r.Physical?)
      && ((forall r :: r in i.Kill() ==> r.Physical?) ==> forall r :: r in main.Kill() ==> r.Physical?)
      && ((forall r :: r in i.extraUses + i.extraDefs ==> r.Physical?) ==> forall r :: r in main.extraUses + main.extraDefs ==> r.Physical?)
  {
    hide Colored;
    RecolorRegisters(i, naming);
    StaysPhysical(i.Used(), naming);
    StaysPhysical(i.Defined(), naming);
    assert forall x :: x in i.extraUses ==> x in i.Used();
    assert forall x :: x in i.extraDefs ==> x in i.Defined();
    StaysPhysical(i.extraUses, naming);
    StaysPhysical(i.extraDefs, naming);
  }

  lemma StaysPhysical(rs: seq<Register>, naming: Register -> Register)
    requires forall x :: x in rs ==> (x.Physical? ==> naming(x) == x)
    ensures (forall r :: r in rs ==> r.Physical?) ==> forall r :: r in Colored(naming, rs) ==> r.Physical?
  {
    ColoredMembers(rs, naming);
  }

  lemma RenamedBehaves(t: Target, t': Target, p: Program, spilled: set<Register>, slot: nat, work: seq<Job>, temps: nat, ids: nat, i: nat)
    requires Sound(p, spilled, slot, work, temps, ids) && i < |p| && SameForOld(t, t', temps)
    requires WellBehaved(t, temps, slot, p[i])
    ensures WellBehaved(t', temps + |work|, slot + 1, Recolor(p[i], Naming(work, p[i].id)))
  {
    hide Sound, Renamed, Naming;
    var naming := Naming(work, p[i].id);
    RenamedMentions(p, spilled, slot, work, temps, ids, i);
    RecolorRegisters(p[i], naming);
    var main := Recolor(p[i], naming);
    assert |main.Used()| == |p[i].Used()| && |main.Defined()| == |p[i].Defined()|;
    hide Recolor, Colored;
    assert p[i].Used() == [] ==> main.Used() == [];
    assert main.WellFormedMove() && main.WellFormedSpill() by {
      RecolorKeeps(p[i], naming);
    }
  }

  lemma RecolorKeeps(i: Instr, color: Coloring)
    ensures var m := Recolor(i, color);
      m.op == i.op && m.clobbers == i.clobbers && m.jumps == i.jumps && m.ismove == i.ismove && m.id == i.id
  {
  }

  lemma SpillCodeForm(t': Target, slot: nat, temps: nat, ins: Instr, r: Register)
    requires (IsLoad(slot, ins) && ins.defs[0] == r) || (IsStore(slot, ins) && ins.uses[0] == r)
    requires r.Virtual? && Old(r, temps)
    ensures WellBehaved(t', temps, slot + 1, ins)
  {
    assert forall x :: Mentions(ins, x) ==> x == r;
  }

  lemma SpillCodeBehaves(t': Target, p: Program, spilled: set<Register>, slot: nat, work: seq<Job>, temps: nat, ids: nat, i: nat, at: nat)
    requires Sound(p, spilled, slot, work, temps, ids) && InBlock(slot, p, work, i, at) && at < |Expand(slot, p, work)|
    requires at != MainAt(slot, p, work, i)
    ensures WellBehaved(t', temps + |work|, slot + 1, Expand(slot, p, work)[at])
  {
    hide BlockOf, Expand, Sound, Names, WellBehaved, Recolor;
    InstructionAt(p, spilled, slot, work, temps, ids, i, at);
    var ins := Expand(slot, p, work)[at];
    if at < MainAt(slot, p, work, i) {
      var k := at - Start(slot, p, work, i);
      LoadedName(p, spilled, slot, work, temps, ids, i, k);
      SpillRegister(p, spilled, slot, work, temps, ids, i, ins.defs[0]);
      SpillCodeForm(t', slot, temps + |work|, ins, ins.defs[0]);
    } else {
      SpillRegister(p, spilled, slot, work, temps, ids, i, ins.uses[0]);
      SpillCodeForm(t', slot, temps + |work|, ins, ins.uses[0]);
    }
  }

  lemma LoadedName(p: Program, spilled: set<Register>, slot: nat, work: seq<Job>, temps: nat, ids: nat, i: nat, k: nat)
    requires Sound(p, spilled, slot, work, temps, ids) && i < |p| && k < |BlockOf(slot, p[i], work).pre|
    ensures var ins := BlockOf(slot, p[i], work).pre[k]; IsLoad(slot, ins) && ins.defs[0] in Names(work, p[i].id, p[i].Gen())
  {
    hide BlockOf, Sound, Names, Recolor, Storing;
    SpilledInstruction(p, spilled, slot, work, temps, ids, i);
  }

  lemma SpillRegister(p: Program, spilled: set<Register>, slot: nat, work: seq<Job>, temps: nat, ids: nat, i: nat, r: Register)
    requires Sound(p, spilled, slot, work, temps, ids) && i < |p|
    requires r in Names(work, p[i].id, p[i].Gen()) + Names(work, p[i].id, p[i].Kill())
    ensures r.Virtual? && Old(r, temps + |work|)
  {
    hide Interfere, LeadersFollowJumps, WellFormed, BlockOf;
    SpilledInstruction(p, spilled, slot, work, temps, ids, i);
    var x :| x in p[i].Gen() + p[i].Kill() && Done(work, p[i].id, x) && Renamed(work, p[i].id, x) == r;
    var k := RenamedIs(work, p[i].id, x);
  }

  /** ----- the rewritten program ----- */

  lemma AllBehave(t: Target, t': Target, p: Program, spilled: set<Register>, slot: nat, work: seq<Job>, temps: nat, ids: nat)
    requires Sound(p, spilled, slot, work, temps, ids) && SameForOld(t, t', temps)
    requires forall i :: 0 <= i < |p| ==> WellBehaved(t, temps, slot, p[i])
    ensures forall at :: 0 <= at < |Expand(slot, p, work)| ==> WellBehaved(t', temps + |work|, slot + 1, Expand(slot, p, work)[at])
  {
    hide Sound, Expand, WellBehaved, BlockOf, Recolor;
    forall at | 0 <= at < |Expand(slot, p, work)|
      ensures WellBehaved(t', temps + |work|, slot + 1, Expand(slot, p, work)[at])
    {
      var i := AllInBlocks(slot, p, work, at);
      InstructionAt(p, spilled, slot, work, temps, ids, i, at);
      if at == MainAt(slot, p, work, i) {
        RenamedBehaves(t, t', p, spilled, slot, work, temps, ids, i);
      } else {
        SpillCodeBehaves(t', p, spilled, slot, work, temps, ids, i, at);
      }
    }
  }

  /** Jumps come from renamed instructions, and go to renamed targets. */
  lemma JumpsAreOld(p: Program, spilled: set<Register>, slot: nat, work: seq<Job>, temps: nat, ids: nat, at: nat, id: nat) returns (i: nat)
    requires Sound(p, spilled, slot, work, temps, ids) && at < |Expand(slot, p, work)| && id in Expand(slot, p, work)[at].jumps
    ensures i < |p| && id in p[i].jumps
  {
    hide Sound, Expand, BlockOf;
    i := AllInBlocks(slot, p, work, at);
    InstructionAt(p, spilled, slot, work, temps, ids, i, at);
  }

  lemma StaysWellFormed(p: Program, spilled: set<Register>, slot: nat, work: seq<Job>, temps: nat, ids: nat)
    requires Sound(p, spilled, slot, work, temps, ids)
    ensures WellFormed(Expand(slot, p, work))
  {
    var q := Expand(slot, p, work);
    IdsAreUnique(p, spilled, slot, work, temps, ids);
    forall at, k | 0 <= at < |q| && 0 <= k < |q[at].jumps|
      ensures HasId(q, q[at].jumps[k])
    {
      hide Expand, BlockOf;
      var i := JumpsAreOld(p, spilled, slot, work, temps, ids, at, q[at].jumps[k]);
      var n :| 0 <= n < |p[i].jumps| && p[i].jumps[n] == q[at].jumps[k];
      var j :| 0 <= j < |p| && p[j].id == p[i].jumps[n];
      BlockInPlace(slot, p, work, j);
      assert q[MainAt(slot, p, work, j)].id == q[at].jumps[k];
    }
  }

  lemma StaysPlain(p: Program, spilled: set<Register>, slot: nat, work: seq<Job>, temps: nat, ids: nat)
    requires Sound(p, spilled, slot, work, temps, ids) && PlainTargets(p)
    ensures PlainTargets(Expand(slot, p, work))
  {
    hide Sound, Expand, BlockOf, Plain;
    var q := Expand(slot, p, work);
    forall at, from | 0 <= at < |q| && 0 <= from < |q| && q[at].id in q[from].jumps
      ensures Plain(q[at])
    {
      var i := JumpsAreOld(p, spilled, slot, work, temps, ids, from, q[at].id);
      var j := TargetBlock(p, spilled, slot, work, temps, ids, i, at);
      assert Plain(p[j]);
      BlocksAreNotEmpty(slot, p, work, j);
      InstructionAt(p, spilled, slot, work, temps, ids, j, at);
      PlainRenamed(p, spilled, slot, work, temps, ids, j);
    }
  }

  lemma PlainRenamed(p: Program, spilled: set<Register>, slot: nat, work: seq<Job>, temps: nat, ids: nat, j: nat)
    requires Sound(p, spilled, slot, work, temps, ids) && j < |p| && Plain(p[j])
    ensures Plain(Recolor(p[j], Naming(work, p[j].id)))
  {
    RenamedMentions(p, spilled, slot, work, temps, ids, j);
    RecolorKeeps(p[j], Naming(work, p[j].id));
  }

  /** A rewritten program can be allocated again, and means the same. */
  lemma SpillingKeepsCompilable(t: Target, t': Target, p: Program, temps: nat, ids: nat, slots: nat, spilled: set<Register>, q: Program, work: seq<Job>)
    requires Compilable(t, p, temps, ids, slots) && OneNode(p, temps, spilled) && Rewritten(p, slots, q, work, temps, ids, spilled)
    requires SameForOld(t, t', temps)
    ensures Compilable(t', q, temps + |work|, ids + 2 * |work|, slots + 1)
  {
    IsSound(t, p, temps, ids, slots, spilled, q, work);
    assert q == Expand(slots, p, work) && IdsBelow(q, ids + 2 * |work|);
    hide Sound, Expand, Rewritten, WellBehaved, CleanEntry, PhysicalApart, LeadersFollowJumps, PlainTargets, OneNode, WellFormed;
    StaysSensible(t, t', temps);
    AllBehave(t, t', p, spilled, slots, work, temps, ids);
    StaysWellFormed(p, spilled, slots, work, temps, ids);
    StaysPlain(p, spilled, slots, work, temps, ids);
    EntryStaysClean(p, spilled, slots, work, temps, ids);
    PhysicalStaysApart(p, spilled, slots, work, temps, ids, t.alias);
    LeadersStillFollowJumps(p, spilled, slots, work, temps, ids);
  }

  /** Started at its first instruction in the same state, `q` does what `p` does. */
  ghost predicate SameMeaning(p: Program, aliases: Aliasing, q: Program, aliases': Aliasing) {
    forall isa, s: State, mem {:trigger HaltsWith(isa, aliases', q, s, mem)} :: s.pc == 0 ==>
      (HaltsWith(isa, aliases, p, s, mem) <==> HaltsWith(isa, aliases', q, s, mem))
  }

  lemma SpillingKeepsMeaning(t: Target, p: Program, temps: nat, ids: nat, slots: nat, spilled: set<Register>, q: Program, work: seq<Job>)
    requires Compilable(t, p, temps, ids, slots) && OneNode(p, temps, spilled) && Rewritten(p, slots, q, work, temps, ids, spilled)
    ensures SameMeaning(p, NoAliases, q, NoAliases)
  {
    IsSound(t, p, temps, ids, slots, spilled, q, work);
    assert q == Expand(slots, p, work);
    hide Sound, Expand, Rewritten, WellBehaved, PhysicalApart, LeadersFollowJumps, PlainTargets, WellFormed, HaltsWith;
    forall isa, s: State, mem | s.pc == 0
      ensures HaltsWith(isa, NoAliases, p, s, mem) <==> HaltsWith(isa, NoAliases, q, s, mem)
    {
      assert Mirrors(p, spilled, slots, work, temps, s, s) by {
        assert Start(slots, p, work, 0) == 0;
      }
      SpillingPreservesMeaning(p, spilled, slots, work, temps, ids, isa, s, s, mem);
    }
  }
}
