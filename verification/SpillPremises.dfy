/**
  A rewritten program can be allocated again: control flow, liveness and
  interference of the old registers are those of the original.
 */
module SpillPremises {
  import opened MachineCode
  import opened FlowGraphs
  import opened Machine
  import opened Recoloring
  import opened Spilling
  import opened SpillLayout
  import opened SpillMeaning

  /** Position `at` of the result is in block `i`. */
  predicate InBlock(slot: nat, p: Program, work: seq<Job>, i: nat, at: nat) {
    i < |p| && Start(slot, p, work, i) <= at < Start(slot, p, work, i + 1)
  }

  lemma AllInBlocks(slot: nat, p: Program, work: seq<Job>, at: nat) returns (i: nat)
    requires at < |Expand(slot, p, work)|
    ensures InBlock(slot, p, work, i, at)
  {
    i := BlockAround(slot, p, work, |p|, at);
  }

  /** A position is a load, the instruction itself, or a store. */
  lemma InstructionAt(p: Program, spilled: set<Register>, slot: nat, work: seq<Job>, temps: nat, ids: nat, i: nat, at: nat)
    requires Sound(p, spilled, slot, work, temps, ids) && InBlock(slot, p, work, i, at)
    ensures at < |Expand(slot, p, work)|
    ensures var ins, b, main := Expand(slot, p, work)[at], BlockOf(slot, p[i], work), MainAt(slot, p, work, i);
      && (at < main ==> IsLoad(slot, ins) && at - Start(slot, p, work, i) < |b.pre| && ins == b.pre[at - Start(slot, p, work, i)])
      && (at == main ==> ins == Recolor(p[i], Naming(work, p[i].id)))
      && (at > main ==> IsStore(slot, ins) && ins.uses[0] in Names(work, p[i].id, p[i].Kill()))
  {
    hide BlockOf, Expand, Sound, Recolor, Names, BlockFor, IsLoad, IsStore;
    SpilledInstruction(p, spilled, slot, work, temps, ids, i);
    BlockInPlace(slot, p, work, i);
    WithinBlock(Expand(slot, p, work), slot, p[i], work, BlockOf(slot, p[i], work), Start(slot, p, work, i), at);
  }

  lemma WithinBlock(q: Program, slot: nat, i: Instr, work: seq<Job>, b: Block, start: nat, at: nat)
    requires BlockFor(slot, i, work, b) && start <= at < start + |b.pre| + 1 + |b.post| <= |q|
    requires var main := start + |b.pre|;
      q[start..main] == b.pre && q[main] == b.main && q[main + 1..main + 1 + |b.post|] == b.post
    ensures var ins, main := q[at], start + |b.pre|;
      && (at < main ==> IsLoad(slot, ins) && at - start < |b.pre| && ins == b.pre[at - start])
      && (at == main ==> ins == Recolor(i, Naming(work, i.id)))
      && (at > main ==> IsStore(slot, ins) && ins.uses[0] in Names(work, i.id, i.Kill()))
  {
    var main := start + |b.pre|;
    if at > main {
      assert q[at] == q[main + 1..main + 1 + |b.post|][at - main - 1];
    } else if at < main {
      assert q[at] == q[start..main][at - start];
    }
  }

  lemma NextPosition(q: Program, at: nat, next: nat)
    requires at < |q| && next in CfgSucc(q, at)
    ensures next < |q|
    ensures q[at].jumps == [] ==> next == at + 1
    ensures q[at].jumps != [] ==> q[next].id in q[at].jumps
  {
  }

  /** Whoever has the identity of a jump target is the start of that target's block. */
  lemma TargetBlock(p: Program, spilled: set<Register>, slot: nat, work: seq<Job>, temps: nat, ids: nat, i: nat, at: nat) returns (j: nat)
    requires Sound(p, spilled, slot, work, temps, ids) && i < |p|
    requires at < |Expand(slot, p, work)| && Expand(slot, p, work)[at].id in p[i].jumps
    ensures j < |p| && p[j].id in p[i].jumps && at == Start(slot, p, work, j) == MainAt(slot, p, work, j)
  {
    var q := Expand(slot, p, work);
    var k :| 0 <= k < |p[i].jumps| && p[i].jumps[k] == q[at].id;
    IndexOfPresent(p, q[at].id);
    j := IndexOf(p, q[at].id);
    IdsAreUnique(p, spilled, slot, work, temps, ids);
    FoundAt(slot, p, work, j);
    IndexOfUnique(q, at);
    TargetLoadsNothing(p, spilled, slot, work, temps, ids, i, j);
  }

  /** ----- liveness ----- */

  /** What may be live at a position of block `i`: old registers as in the original; a fresh one
      between its load and its use, or between its definition and its store. */
  ghost predicate Expected(p: Program, spilled: set<Register>, slot: nat, work: seq<Job>, temps: nat, i: nat, at: nat, r: Register)
    requires InBlock(slot, p, work, i, at)
  {
    var b, start, main := BlockOf(slot, p[i], work), Start(slot, p, work, i), MainAt(slot, p, work, i);
    && r !in spilled
    && (Old(r, temps) ==> if at <= main then Live(p, i, r) else LiveAfter(p, i, r))
    && (!Old(r, temps) ==> if at <= main then r in Loaded(b.pre[..at - start]) else r in Names(work, p[i].id, p[i].Kill()))
  }

  lemma StartOfBlock(p: Program, spilled: set<Register>, slot: nat, work: seq<Job>, temps: nat, i: nat, r: Register)
    requires i < |p| && InBlock(slot, p, work, i, Start(slot, p, work, i)) && Expected(p, spilled, slot, work, temps, i, Start(slot, p, work, i), r)
    ensures Old(r, temps) && r !in spilled && Live(p, i, r)
  {
  }

  lemma BlocksAreNotEmpty(slot: nat, p: Program, work: seq<Job>, i: nat)
    requires i < |p|
    ensures InBlock(slot, p, work, i, Start(slot, p, work, i)) && InBlock(slot, p, work, i, MainAt(slot, p, work, i))
  {
    BlockInPlace(slot, p, work, i);
  }

  /** What the instruction itself uses and defines. */
  lemma RenamedUses(p: Program, spilled: set<Register>, slot: nat, work: seq<Job>, temps: nat, ids: nat, i: nat, r: Register)
    requires Sound(p, spilled, slot, work, temps, ids) && i < |p|
    ensures var main := Recolor(p[i], Naming(work, p[i].id));
      r in main.Gen() ==> r !in spilled && if Old(r, temps) then r in p[i].Gen() else r in Names(work, p[i].id, p[i].Gen())
  {
    var naming := Naming(work, p[i].id);
    RecolorRegisters(p[i], naming);
    SpilledInstruction(p, spilled, slot, work, temps, ids, i);
    var main := Recolor(p[i], naming);
    hide Recolor, Sound, BlockOf, Renamed, Done, Loading, Storing;
    assert forall k :: 0 <= k < |p[i].Used()| ==> Mentions(p[i], p[i].Used()[k]);
    if r in main.Gen() {
      var k :| 0 <= k < |p[i].Used()| && naming(p[i].Used()[k]) == r;
      NameOf(p, spilled, slot, work, temps, ids, i, p[i].Used()[k]);
    }
  }

  lemma RenamedDefinitions(p: Program, spilled: set<Register>, slot: nat, work: seq<Job>, temps: nat, ids: nat, i: nat, r: Register)
    requires Sound(p, spilled, slot, work, temps, ids) && i < |p|
    ensures var main := Recolor(p[i], Naming(work, p[i].id));
      && (Old(r, temps) && r !in spilled && r in p[i].Kill() ==> r in main.Kill())
      && (Old(r, temps) && r in main.Kill() ==> r in p[i].Kill())
      && (r in Names(work, p[i].id, p[i].Kill()) ==> r in main.Kill() && !Old(r, temps))
  {
    var naming := Naming(work, p[i].id);
    RecolorRegisters(p[i], naming);
    SpilledInstruction(p, spilled, slot, work, temps, ids, i);
    var main := Recolor(p[i], naming);
    hide Recolor, Sound, BlockOf, Renamed, Done, Loading, Storing;
    assert forall k :: 0 <= k < |p[i].Defined()| ==> Mentions(p[i], p[i].Defined()[k]);
    if r in main.Kill() {
      var k :| 0 <= k < |p[i].Defined()| && naming(p[i].Defined()[k]) == r;
      NameOf(p, spilled, slot, work, temps, ids, i, p[i].Defined()[k]);
    }
    if Old(r, temps) && r !in spilled && r in p[i].Kill() {
      var k :| 0 <= k < |p[i].Defined()| && p[i].Defined()[k] == r;
      NameOf(p, spilled, slot, work, temps, ids, i, r);
      assert Colored(naming, p[i].Defined())[k] == r;
    }
    if r in Names(work, p[i].id, p[i].Kill()) {
      var d :| d in p[i].Kill() && Done(work, p[i].id, d) && Renamed(work, p[i].id, d) == r;
      var k :| 0 <= k < |p[i].Defined()| && p[i].Defined()[k] == d;
      NameOf(p, spilled, slot, work, temps, ids, i, d);
      assert Colored(naming, p[i].Defined())[k] == r;
    }
  }

  lemma RenamedRegisters(p: Program, spilled: set<Register>, slot: nat, work: seq<Job>, temps: nat, ids: nat, i: nat, r: Register)
    requires Sound(p, spilled, slot, work, temps, ids) && i < |p|
    ensures var main := Recolor(p[i], Naming(work, p[i].id));
      && (r in main.Gen() ==> r !in spilled && if Old(r, temps) then r in p[i].Gen() else r in Names(work, p[i].id, p[i].Gen()))
      && (Old(r, temps) && r !in spilled && r in p[i].Kill() ==> r in main.Kill())
      && (Old(r, temps) && r in main.Kill() ==> r in p[i].Kill())
      && (r in Names(work, p[i].id, p[i].Kill()) ==> r in main.Kill() && !Old(r, temps))
  {
    hide Recolor, Sound, Naming, Names, Old;
    RenamedUses(p, spilled, slot, work, temps, ids, i, r);
    RenamedDefinitions(p, spilled, slot, work, temps, ids, i, r);
  }

  lemma NameOf(p: Program, spilled: set<Register>, slot: nat, work: seq<Job>, temps: nat, ids: nat, i: nat, x: Register)
    requires Sound(p, spilled, slot, work, temps, ids) && i < |p| && Mentions(p[i], x)
    ensures Old(x, temps)
    ensures var r := Renamed(work, p[i].id, x);
      && (x in spilled <==> !Old(r, temps)) && (x in spilled <==> Done(work, p[i].id, x))
      && (x !in spilled ==> r == x) && r !in spilled
  {
    SpilledInstruction(p, spilled, slot, work, temps, ids, i);
    Keeps(p, spilled, slot, work, temps, ids, i, x);
  }

  lemma LoadedNext(pre: seq<Instr>, n: nat)
    requires n < |pre|
    ensures forall r :: r in Loaded(pre[..n + 1]) ==> r in Loaded(pre[..n]) || r in pre[n].defs
  {
    forall r | r in Loaded(pre[..n + 1])
      ensures r in Loaded(pre[..n]) || r in pre[n].defs
    {
      var j :| 0 <= j < n + 1 && r in pre[..n + 1][j].defs;
      if j < n {
        assert pre[..n][j] == pre[j];
      }
    }
  }

  lemma ExpectedHere(p: Program, spilled: set<Register>, slot: nat, work: seq<Job>, temps: nat, ids: nat, i: nat, at: nat, r: Register)
    requires Sound(p, spilled, slot, work, temps, ids) && InBlock(slot, p, work, i, at)
    requires at < |Expand(slot, p, work)| && r in Expand(slot, p, work)[at].Gen()
    ensures Expected(p, spilled, slot, work, temps, i, at, r)
  {
    hide Sound, BlockOf, Expand, Recolor, Names, Live, LiveAfter;
    InstructionAt(p, spilled, slot, work, temps, ids, i, at);
    RenamedRegisters(p, spilled, slot, work, temps, ids, i, r);
    LiveEquation(p, i, r);
    var b := BlockOf(slot, p[i], work);
    SpilledInstruction(p, spilled, slot, work, temps, ids, i);
    NewIsNotSpilled(p, spilled, slot, work, temps, ids, r);
    if at == MainAt(slot, p, work, i) {
      assert b.pre[..at - Start(slot, p, work, i)] == b.pre;
      AllLoaded(slot, b.pre, Names(work, p[i].id, p[i].Gen()));
    } else if at > MainAt(slot, p, work, i) {
      assert r == Expand(slot, p, work)[at].uses[0];
    }
  }

  lemma AllLoaded(slot: nat, pre: seq<Instr>, names: set<Register>)
    requires Loading(slot, pre, names)
    ensures Loaded(pre) == names
  {
    forall r | r in names
      ensures r in Loaded(pre)
    {
      var j :| 0 <= j < |pre| && pre[j].defs == [r];
      assert r in pre[j].defs;
    }
  }

  lemma NewIsNotSpilled(p: Program, spilled: set<Register>, slot: nat, work: seq<Job>, temps: nat, ids: nat, r: Register)
    requires Sound(p, spilled, slot, work, temps, ids)
    ensures !Old(r, temps) ==> r !in spilled
  {
  }

  /** From one position of a block back to the one before. */
  lemma ExpectedInside(p: Program, spilled: set<Register>, slot: nat, work: seq<Job>, temps: nat, ids: nat, i: nat, at: nat, r: Register)
    requires Sound(p, spilled, slot, work, temps, ids) && InBlock(slot, p, work, i, at) && InBlock(slot, p, work, i, at + 1)
    requires at < |Expand(slot, p, work)| && r !in Expand(slot, p, work)[at].Kill()
    requires Expected(p, spilled, slot, work, temps, i, at + 1, r)
    ensures Expected(p, spilled, slot, work, temps, i, at, r)
  {
    hide Sound, BlockOf, Expand, Recolor, Names, Live, LiveAfter, Loaded;
    InstructionAt(p, spilled, slot, work, temps, ids, i, at);
    RenamedRegisters(p, spilled, slot, work, temps, ids, i, r);
    LiveEquation(p, i, r);
    var b, n := BlockOf(slot, p[i], work), at - Start(slot, p, work, i);
    if at < MainAt(slot, p, work, i) {
      LoadedNext(b.pre, n);
    }
  }

  /** From the start of another block back to the end of this one. */
  lemma ExpectedOutside(p: Program, spilled: set<Register>, slot: nat, work: seq<Job>, temps: nat, ids: nat, i: nat, at: nat, j: nat, r: Register)
    requires Sound(p, spilled, slot, work, temps, ids) && InBlock(slot, p, work, i, at) && at >= MainAt(slot, p, work, i)
    requires at < |Expand(slot, p, work)| && r !in Expand(slot, p, work)[at].Kill()
    requires j in CfgSucc(p, i) && Live(p, j, r) && Old(r, temps) && r !in spilled
    ensures Expected(p, spilled, slot, work, temps, i, at, r)
  {
    hide Sound, BlockOf, Expand, Recolor, Names, Live;
    InstructionAt(p, spilled, slot, work, temps, ids, i, at);
    RenamedRegisters(p, spilled, slot, work, temps, ids, i, r);
    LiveEquation(p, i, r);
    assert LiveAfter(p, i, r);
  }

  lemma LeavesBlock(p: Program, spilled: set<Register>, slot: nat, work: seq<Job>, temps: nat, ids: nat, i: nat, at: nat, next: nat) returns (j: nat)
    requires Sound(p, spilled, slot, work, temps, ids) && InBlock(slot, p, work, i, at)
    requires at < |Expand(slot, p, work)| && next in CfgSucc(Expand(slot, p, work), at)
    requires !(next == at + 1 && InBlock(slot, p, work, i, next) && Expand(slot, p, work)[at].jumps == [])
    ensures at >= MainAt(slot, p, work, i)
    ensures j < |p| && j in CfgSucc(p, i) && next == Start(slot, p, work, j)
  {
    hide Sound, BlockOf, Names, Leader, WellFormed;
    var q := Expand(slot, p, work);
    NextPosition(q, at, next);
    InstructionAt(p, spilled, slot, work, temps, ids, i, at);
    BlockInPlace(slot, p, work, i);
    if q[at].jumps != [] {
      j := TargetBlock(p, spilled, slot, work, temps, ids, i, next);
    } else {
      j := i + 1;
      if at > MainAt(slot, p, work, i) && p[i].jumps != [] {
        JumpStoresNothing(p, spilled, slot, work, temps, ids, i);
      }
      assert j < |p|;
      SoundFlow(p, spilled, slot, work, temps, ids);
      FollowsInFlow(p, i);
    }
  }

  lemma SoundFlow(p: Program, spilled: set<Register>, slot: nat, work: seq<Job>, temps: nat, ids: nat)
    requires Sound(p, spilled, slot, work, temps, ids)
    ensures LeadersFollowJumps(p) && WellFormed(p)
  {
  }

  /** Nothing is live in the result that is not expected. */
  lemma {:induction false} LiveIsExpected(p: Program, spilled: set<Register>, slot: nat, work: seq<Job>, temps: nat, ids: nat, i: nat, at: nat, r: Register, n: nat)
    requires Sound(p, spilled, slot, work, temps, ids) && InBlock(slot, p, work, i, at)
    requires UsedIn(Expand(slot, p, work), at, r, n)
    ensures Expected(p, spilled, slot, work, temps, i, at, r)
    decreases n
  {
    hide Sound, BlockOf, Expand, Recolor, Names, Live, CfgSucc, Expected;
    var q := Expand(slot, p, work);
    if n == 0 {
      ExpectedHere(p, spilled, slot, work, temps, ids, i, at, r);
    } else {
      var next :| next in CfgSucc(q, at) && UsedIn(q, next, r, n - 1);
      if next == at + 1 && InBlock(slot, p, work, i, next) && q[at].jumps == [] {
        LiveIsExpected(p, spilled, slot, work, temps, ids, i, next, r, n - 1);
        ExpectedInside(p, spilled, slot, work, temps, ids, i, at, r);
      } else {
        var j := LeavesBlock(p, spilled, slot, work, temps, ids, i, at, next);
        BlocksAreNotEmpty(slot, p, work, j);
        LiveIsExpected(p, spilled, slot, work, temps, ids, j, next, r, n - 1);
        StartOfBlock(p, spilled, slot, work, temps, j, r);
        ExpectedOutside(p, spilled, slot, work, temps, ids, i, at, j, r);
      }
    }
  }

  /** ----- the premises of the allocator ----- */

  /** No temporary has a value when the function is entered. */
  ghost predicate CleanEntry(p: Program) {
    forall r: Register :: r.Virtual? ==> !Live(p, 0, r)
  }

  /** Storage that physical registers share holds only one live value at a time. */
  ghost predicate PhysicalApart(p: Program, aliases: Aliasing) {
    forall i, a: Register, b: Register {:trigger TogetherAt(p, i, a, b)} ::
      0 <= i < |p| && a != b && a.Physical? && b.Physical? && TogetherAt(p, i, a, b) ==> b !in aliases(a)
  }

  ghost predicate TogetherAt(p: Program, i: nat, a: Register, b: Register)
    requires i < |p|
  {
    InterfereAt(p, i, a, b) || (Live(p, i, a) && Live(p, i, b))
  }

  lemma EntryStaysClean(p: Program, spilled: set<Register>, slot: nat, work: seq<Job>, temps: nat, ids: nat)
    requires Sound(p, spilled, slot, work, temps, ids) && CleanEntry(p)
    ensures CleanEntry(Expand(slot, p, work))
  {
    hide Sound, BlockOf, Expected;
    var q := Expand(slot, p, work);
    forall r: Register | r.Virtual?
      ensures !Live(q, 0, r)
    {
      if Live(q, 0, r) {
        var n: nat :| UsedIn(q, 0, r, n);
        var i := AllInBlocks(slot, p, work, 0);
        BlocksAreNotEmpty(slot, p, work, 0);
        LiveIsExpected(p, spilled, slot, work, temps, ids, 0, 0, r, n);
        StartOfBlock(p, spilled, slot, work, temps, 0, r);
      }
    }
  }

  lemma PhysicalIsOld(p: Program, spilled: set<Register>, slot: nat, work: seq<Job>, temps: nat, ids: nat, r: Register)
    requires Sound(p, spilled, slot, work, temps, ids) && r.Physical?
    ensures Old(r, temps) && r !in spilled
  {
  }

  /** A physical register that is live after a position: where it is live in the original. */
  lemma PhysicalAfter(p: Program, spilled: set<Register>, slot: nat, work: seq<Job>, temps: nat, ids: nat, i: nat, at: nat, r: Register)
    requires Sound(p, spilled, slot, work, temps, ids) && InBlock(slot, p, work, i, at) && r.Physical?
    requires at < |Expand(slot, p, work)| && LiveAfter(Expand(slot, p, work), at, r)
    ensures if at < MainAt(slot, p, work, i) then Live(p, i, r) else LiveAfter(p, i, r)
  {
    hide Sound, BlockOf, Expand, Recolor, Names, CfgSucc, Live;
    var q := Expand(slot, p, work);
    var next :| next in CfgSucc(q, at) && Live(q, next, r);
    var n := LiveMeans(q, next, r);
    PhysicalIsOld(p, spilled, slot, work, temps, ids, r);
    if next == at + 1 && InBlock(slot, p, work, i, next) && q[at].jumps == [] {
      LiveIsExpected(p, spilled, slot, work, temps, ids, i, next, r, n);
    } else {
      var j := LeavesBlock(p, spilled, slot, work, temps, ids, i, at, next);
      BlocksAreNotEmpty(slot, p, work, j);
      LiveIsExpected(p, spilled, slot, work, temps, ids, j, next, r, n);
      StartOfBlock(p, spilled, slot, work, temps, j, r);
    }
  }

  lemma LiveMeans(q: Program, at: nat, r: Register) returns (n: nat)
    requires Live(q, at, r)
    ensures UsedIn(q, at, r, n)
  {
    n :| UsedIn(q, at, r, n);
  }

  lemma LoadDefines(slot: nat, pre: seq<Instr>, k: nat, r: Register)
    requires k < |pre| && IsLoad(slot, pre[k])
    ensures r in pre[k].Kill() ==> r in Loaded(pre)
  {
    assert forall x :: x in pre[k].defs ==> x in Loaded(pre);
  }

  lemma PhysicalKilled(p: Program, spilled: set<Register>, slot: nat, work: seq<Job>, temps: nat, ids: nat, i: nat, at: nat, r: Register)
    requires Sound(p, spilled, slot, work, temps, ids) && InBlock(slot, p, work, i, at) && r.Physical?
    requires at < |Expand(slot, p, work)|
    ensures r in Expand(slot, p, work)[at].Kill() ==> at == MainAt(slot, p, work, i) && r in p[i].Kill()
    ensures r in Expand(slot, p, work)[at].clobbers ==> at == MainAt(slot, p, work, i) && r in p[i].clobbers
  {
    hide Sound, BlockOf, Expand, Names, Loaded;
    InstructionAt(p, spilled, slot, work, temps, ids, i, at);
    PhysicalIsOld(p, spilled, slot, work, temps, ids, r);
    RenamedRegisters(p, spilled, slot, work, temps, ids, i, r);
    if at < MainAt(slot, p, work, i) {
      LoadsAreNew(p, spilled, slot, work, temps, ids, i, r);
      LoadDefines(slot, BlockOf(slot, p[i], work).pre, at - Start(slot, p, work, i), r);
    }
  }

  /** Physical registers meet only where they meet in the original. */
  lemma PhysicalMeets(p: Program, spilled: set<Register>, slot: nat, work: seq<Job>, temps: nat, ids: nat, i: nat, at: nat, a: Register, b: Register)
    requires Sound(p, spilled, slot, work, temps, ids) && InBlock(slot, p, work, i, at) && a.Physical? && b.Physical?
    requires at < |Expand(slot, p, work)| && TogetherAt(Expand(slot, p, work), at, a, b)
    ensures TogetherAt(p, i, a, b)
  {
    hide Sound, BlockOf, Expand, Live, LiveAfter;
    var q := Expand(slot, p, work);
    forall r | r in {a, b}
      ensures Live(q, at, r) ==> if at <= MainAt(slot, p, work, i) then Live(p, i, r) else LiveAfter(p, i, r)
      ensures LiveAfter(q, at, r) ==> if at < MainAt(slot, p, work, i) then Live(p, i, r) else LiveAfter(p, i, r)
      ensures r in q[at].Kill() ==> at == MainAt(slot, p, work, i) && r in p[i].Kill()
      ensures r in q[at].clobbers ==> at == MainAt(slot, p, work, i) && r in p[i].clobbers
    {
      PhysicalKilled(p, spilled, slot, work, temps, ids, i, at, r);
      if LiveAfter(q, at, r) {
        PhysicalAfter(p, spilled, slot, work, temps, ids, i, at, r);
      }
      if Live(q, at, r) {
        PhysicalBefore(p, spilled, slot, work, temps, ids, i, at, r);
      }
    }
  }

  lemma PhysicalBefore(p: Program, spilled: set<Register>, slot: nat, work: seq<Job>, temps: nat, ids: nat, i: nat, at: nat, r: Register)
    requires Sound(p, spilled, slot, work, temps, ids) && InBlock(slot, p, work, i, at) && r.Physical?
    requires Live(Expand(slot, p, work), at, r)
    ensures if at <= MainAt(slot, p, work, i) then Live(p, i, r) else LiveAfter(p, i, r)
  {
    hide Sound, BlockOf, Expand, Live;
    var n := LiveMeans(Expand(slot, p, work), at, r);
    PhysicalIsOld(p, spilled, slot, work, temps, ids, r);
    LiveIsExpected(p, spilled, slot, work, temps, ids, i, at, r, n);
  }

  lemma PhysicalStaysApart(p: Program, spilled: set<Register>, slot: nat, work: seq<Job>, temps: nat, ids: nat, aliases: Aliasing)
    requires Sound(p, spilled, slot, work, temps, ids) && PhysicalApart(p, aliases)
    ensures PhysicalApart(Expand(slot, p, work), aliases)
  {
    hide Sound, BlockOf, Expand, TogetherAt;
    var q := Expand(slot, p, work);
    forall at, a: Register, b: Register | 0 <= at < |q| && a != b && a.Physical? && b.Physical? && TogetherAt(q, at, a, b)
      ensures b !in aliases(a)
    {
      var i := AllInBlocks(slot, p, work, at);
      PhysicalMeets(p, spilled, slot, work, temps, ids, i, at, a, b);
    }
  }

  /** Every leader of the result still follows a jump. */
  lemma LeadersStillFollowJumps(p: Program, spilled: set<Register>, slot: nat, work: seq<Job>, temps: nat, ids: nat)
    requires Sound(p, spilled, slot, work, temps, ids)
    ensures LeadersFollowJumps(Expand(slot, p, work))
  {
    hide Sound, BlockOf, Expand;
    var q := Expand(slot, p, work);
    forall at | 0 < at < |q| && Leader(q, at)
      ensures q[at - 1].jumps != []
    {
      if Targeted(q, at) {
        TargetFollowsJump(p, spilled, slot, work, temps, ids, at);
      }
    }
  }

  lemma TargetFollowsJump(p: Program, spilled: set<Register>, slot: nat, work: seq<Job>, temps: nat, ids: nat, at: nat)
    requires Sound(p, spilled, slot, work, temps, ids)
    requires 0 < at < |Expand(slot, p, work)| && Targeted(Expand(slot, p, work), at)
    ensures Expand(slot, p, work)[at - 1].jumps != []
  {
    hide Sound, BlockOf, WellFormed;
    var q := Expand(slot, p, work);
    var k :| 0 <= k < |q| && q[at].id in q[k].jumps;
    var i := AllInBlocks(slot, p, work, k);
    InstructionAt(p, spilled, slot, work, temps, ids, i, k);
    var j := TargetBlock(p, spilled, slot, work, temps, ids, i, at);
    assert Targeted(p, j);
    SoundFlow(p, spilled, slot, work, temps, ids);
    assert Leader(p, j);
    assert j > 0 by {
      assert Start(slot, p, work, 0) == 0;
    }
    JumpStoresNothing(p, spilled, slot, work, temps, ids, j - 1);
    BlockInPlace(slot, p, work, j - 1);
    SpilledInstruction(p, spilled, slot, work, temps, ids, j - 1);
    assert q[at - 1] == BlockOf(slot, p[j - 1], work).main;
  }
}
