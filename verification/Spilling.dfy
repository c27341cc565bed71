/**
  Spilling rewrites every instruction that mentions a spilled temporary into a
  block: loads of fresh registers, the instruction on those registers, stores.
 */
module Spilling {
  import opened MachineCode
  import opened Recoloring

  /** One rewrite: in instruction `at`, `tmp` becomes `sub`; the spill code gets these identities. */
  datatype Job = Job(at: nat, tmp: Register, sub: Register, loadId: nat, storeId: nat)

  datatype Block = Block(pre: seq<Instr>, main: Instr, post: seq<Instr>) {
    function Flat(): seq<Instr> { pre + [main] + post }
  }

  function Swap(rs: seq<Register>, old_: Register, sub: Register): (s: seq<Register>)
    ensures |s| == |rs|
  {
    seq(|rs|, k requires 0 <= k < |rs| => if rs[k] == old_ then sub else rs[k])
  }

  /** `replace_register` changes the operands only. */
  function Replace(i: Instr, old_: Register, sub: Register): Instr {
    i.(uses := Swap(i.uses, old_, sub), defs := Swap(i.defs, old_, sub))
  }

  function LoadOf(slot: nat, job: Job): Instr {
    Instr(job.loadId, Load(slot), [], [], [job.sub], [], {}, [], false)
  }

  function StoreOf(slot: nat, job: Job): Instr {
    Instr(job.storeId, Store(slot), [job.sub], [], [], [], {}, [], false)
  }

  function Before(slot: nat, main: Instr, job: Job): seq<Instr> {
    if job.sub in main.Used() then [LoadOf(slot, job)] else []
  }

  function After(slot: nat, main: Instr, job: Job): seq<Instr> {
    if job.sub in main.Defined() then [StoreOf(slot, job)] else []
  }

  /** Spill code is put right before and right after the instruction. */
  function Apply(slot: nat, b: Block, job: Job): Block {
    if b.main.id != job.at then b else
      var main := Replace(b.main, job.tmp, job.sub);
      Block(b.pre + Before(slot, main, job), main, After(slot, main, job) + b.post)
  }

  /** What has become of an instruction after all this work. */
  function BlockOf(slot: nat, i: Instr, work: seq<Job>): (b: Block)
    ensures b.main.id == i.id
  {
    if work == [] then Block([], i, [])
    else Apply(slot, BlockOf(slot, i, work[..|work| - 1]), work[|work| - 1])
  }

  /** The blocks of the first `k` instructions. */
  function ExpandTo(slot: nat, p: Program, work: seq<Job>, k: nat): Program
    requires k <= |p|
  {
    if k == 0 then [] else ExpandTo(slot, p, work, k - 1) + BlockOf(slot, p[k - 1], work).Flat()
  }

  function Expand(slot: nat, p: Program, work: seq<Job>): Program {
    ExpandTo(slot, p, work, |p|)
  }

  /** Where the block of instruction `k` starts. */
  function Start(slot: nat, p: Program, work: seq<Job>, k: nat): nat
    requires k <= |p|
  {
    |ExpandTo(slot, p, work, k)|
  }

  function MainAt(slot: nat, p: Program, work: seq<Job>, k: nat): nat
    requires k < |p|
  {
    Start(slot, p, work, k) + |BlockOf(slot, p[k], work).pre|
  }

  /** ----- what the rewriting has to be given ----- */

  /** The work is numbered with registers from `temps` and identities from `ids` on. */
  predicate Numbered(work: seq<Job>, temps: nat, ids: nat) {
    forall k :: 0 <= k < |work| ==>
      work[k].sub == Virtual(temps + k) && work[k].loadId == ids + 2 * k && work[k].storeId == ids + 2 * k + 1
  }

  predicate Old(r: Register, temps: nat) {
    r.Virtual? ==> r.num < temps
  }

  predicate Mentions(i: Instr, r: Register) {
    r in i.Used() || r in i.Defined()
  }

  /** No register or identity of the program is from the fresh ones. */
  ghost predicate Bounded(p: Program, temps: nat, ids: nat) {
    && (forall i :: 0 <= i < |p| ==> p[i].id < ids)
    && (forall i, r :: 0 <= i < |p| && Mentions(p[i], r) ==> Old(r, temps))
  }

  predicate Done(work: seq<Job>, at: nat, tmp: Register) {
    exists k :: 0 <= k < |work| && work[k].at == at && work[k].tmp == tmp
  }

  /** Every job is about one of the spilled temporaries, and no job is done twice. */
  predicate Orderly(work: seq<Job>, spilled: set<Register>) {
    && (forall k :: 0 <= k < |work| ==> work[k].tmp in spilled)
    && (forall j, k :: 0 <= j < k < |work| ==> work[j].at != work[k].at || work[j].tmp != work[k].tmp)
  }

  predicate Complete(p: Program, work: seq<Job>, spilled: set<Register>) {
    forall i, r :: 0 <= i < |p| && r in spilled && Mentions(p[i], r) ==> Done(work, p[i].id, r)
  }

  /** Spilled temporaries are operands, jump targets do not use them, and jumps do not define them. */
  predicate Spillable(p: Program, spilled: set<Register>) {
    && (forall r :: r in spilled ==> r.Virtual?)
    && (forall i, r :: 0 <= i < |p| && r in spilled ==> r !in p[i].extraUses && r !in p[i].extraDefs)
    && (forall i, j :: 0 <= i < |p| && 0 <= j < |p| && p[i].id in p[j].jumps ==> p[i].Gen() !! spilled)
    && (forall i :: 0 <= i < |p| && p[i].jumps != [] ==> p[i].Kill() !! spilled)
  }

  predicate UnusedSlot(p: Program, slot: nat) {
    forall i :: 0 <= i < |p| ==> p[i].op != Load(slot) && p[i].op != Store(slot)
  }

  ghost predicate Task(p: Program, spilled: set<Register>, slot: nat, work: seq<Job>, temps: nat, ids: nat) {
    && WellFormed(p)
    && Bounded(p, temps, ids)
    && Spillable(p, spilled)
    && UnusedSlot(p, slot)
    && Numbered(work, temps, ids)
    && Orderly(work, spilled)
    && Complete(p, work, spilled)
    && (forall r :: r in spilled ==> Old(r, temps))
    && (forall k :: 0 <= k < |work| ==> HasId(p, work[k].at))
  }

  /** ----- what a block looks like ----- */

  /** The register that stands for `r` in instruction `at`. */
  function Renamed(work: seq<Job>, at: nat, r: Register): Register {
    if work == [] then r
    else if work[|work| - 1].at == at && work[|work| - 1].tmp == r then work[|work| - 1].sub
    else Renamed(work[..|work| - 1], at, r)
  }

  function Naming(work: seq<Job>, at: nat): Coloring {
    r => Renamed(work, at, r)
  }

  lemma {:induction false} RenamedIs(work: seq<Job>, at: nat, r: Register) returns (k: nat)
    ensures if Done(work, at, r) then k < |work| && work[k].at == at && work[k].tmp == r && Renamed(work, at, r) == work[k].sub
      else Renamed(work, at, r) == r
  {
    var n := |work| - 1;
    k := 0;
    if n >= 0 {
      var init := work[..n];
      if work[n].at == at && work[n].tmp == r {
        k := n;
      } else {
        k := RenamedIs(init, at, r);
        assert Done(work, at, r) ==> Done(init, at, r);
        if Done(init, at, r) {
          assert work[k] == init[k];
        }
      }
    }
  }

  /** A name is fresh for a spilled temporary, and tells it from every other old register. */
  lemma NamesAreDistinct(work: seq<Job>, temps: nat, ids: nat, spilled: set<Register>, at: nat, r: Register)
    requires Numbered(work, temps, ids) && Orderly(work, spilled)
    ensures Done(work, at, r) ==> r in spilled && !Old(Renamed(work, at, r), temps)
    ensures forall x :: Old(x, temps) && Renamed(work, at, x) == Renamed(work, at, r) && Old(r, temps) ==> x == r
  {
    var k := RenamedIs(work, at, r);
    forall x | Old(x, temps) && Renamed(work, at, x) == Renamed(work, at, r) && Old(r, temps)
      ensures x == r
    {
      var l := RenamedIs(work, at, x);
    }
  }

  lemma SwapColored(rs: seq<Register>, init: Coloring, all: Coloring, tmp: Register, sub: Register)
    requires forall k :: 0 <= k < |rs| ==> all(rs[k]) == if init(rs[k]) == tmp then sub else init(rs[k])
    ensures Swap(Colored(init, rs), tmp, sub) == Colored(all, rs)
  {
  }

  lemma NamingNext(work: seq<Job>, temps: nat, ids: nat, spilled: set<Register>, at: nat, r: Register)
    requires work != [] && Numbered(work, temps, ids) && Orderly(work, spilled) && Old(r, temps)
    requires forall x :: x in spilled ==> Old(x, temps)
    ensures var n := |work| - 1; var before := Renamed(work[..n], at, r);
      Renamed(work, at, r) == if work[n].at == at && before == work[n].tmp then work[n].sub else before
  {
    var n := |work| - 1;
    var k := RenamedIs(work[..n], at, r);
    if work[n].at == at && Renamed(work[..n], at, r) == work[n].tmp {
      if Done(work[..n], at, r) {
        assert false;
      }
    }
  }

  /** The operands of an instruction are known. */
  ghost predicate Fits(i: Instr, spilled: set<Register>, temps: nat) {
    && (forall r :: Mentions(i, r) ==> Old(r, temps))
    && (forall r :: r in spilled ==> Old(r, temps) && r !in i.extraUses && r !in i.extraDefs)
  }

  lemma ExtrasStay(rs: seq<Register>, color: Coloring)
    requires forall r :: r in rs ==> color(r) == r
    ensures Colored(color, rs) == rs
  {
  }

  lemma {:induction false} MainIs(slot: nat, i: Instr, work: seq<Job>, temps: nat, ids: nat, spilled: set<Register>)
    requires Numbered(work, temps, ids) && Orderly(work, spilled) && Fits(i, spilled, temps)
    ensures BlockOf(slot, i, work).main == Recolor(i, Naming(work, i.id))
    decreases |work|
  {
    hide Recolor;
    if work == [] {
      NoNames(i);
    } else {
      var n := |work| - 1;
      MainIs(slot, i, work[..n], temps, ids, spilled);
      RecolorNext(i, work, temps, ids, spilled);
    }
  }

  lemma NoNames(i: Instr)
    ensures Recolor(i, Naming([], i.id)) == i
  {
    ExtrasStay(i.uses, Naming([], i.id));
    ExtrasStay(i.defs, Naming([], i.id));
    ExtrasStay(i.extraUses, Naming([], i.id));
    ExtrasStay(i.extraDefs, Naming([], i.id));
  }

  lemma RecolorNext(i: Instr, work: seq<Job>, temps: nat, ids: nat, spilled: set<Register>)
    requires work != [] && Numbered(work, temps, ids) && Orderly(work, spilled) && Fits(i, spilled, temps)
    ensures var n := |work| - 1; var before := Recolor(i, Naming(work[..n], i.id));
      Recolor(i, Naming(work, i.id)) == if work[n].at == i.id then Replace(before, work[n].tmp, work[n].sub) else before
  {
    var n := |work| - 1;
    var init, all := Naming(work[..n], i.id), Naming(work, i.id);
    forall r | Mentions(i, r)
      ensures all(r) == if work[n].at == i.id && init(r) == work[n].tmp then work[n].sub else init(r)
    {
      NamingNext(work, temps, ids, spilled, i.id, r);
    }
    ExtrasKept(i, work, temps, ids, spilled);
    ExtrasKept(i, work[..n], temps, ids, spilled);
    hide Renamed, Naming;
    if work[n].at == i.id {
      SwapColored(i.uses, init, all, work[n].tmp, work[n].sub);
      SwapColored(i.defs, init, all, work[n].tmp, work[n].sub);
    } else {
      assert Colored(all, i.uses) == Colored(init, i.uses);
      assert Colored(all, i.defs) == Colored(init, i.defs);
    }
  }

  lemma ExtrasKept(i: Instr, work: seq<Job>, temps: nat, ids: nat, spilled: set<Register>)
    requires Numbered(work, temps, ids) && Orderly(work, spilled) && Fits(i, spilled, temps)
    ensures Colored(Naming(work, i.id), i.extraUses) == i.extraUses
    ensures Colored(Naming(work, i.id), i.extraDefs) == i.extraDefs
  {
    forall r | r in i.extraUses + i.extraDefs
      ensures Renamed(work, i.id, r) == r
    {
      var k := RenamedIs(work, i.id, r);
    }
    ExtrasStay(i.extraUses, Naming(work, i.id));
    ExtrasStay(i.extraDefs, Naming(work, i.id));
  }

  /** The names in instruction `at` of those registers that have one. */
  function Names(work: seq<Job>, at: nat, regs: set<Register>): set<Register> {
    set r | r in regs && Done(work, at, r) :: Renamed(work, at, r)
  }

  lemma DoneNext(work: seq<Job>, at: nat, r: Register)
    requires work != []
    ensures var n := |work| - 1;
      Done(work, at, r) <==> Done(work[..n], at, r) || (work[n].at == at && work[n].tmp == r)
  {
    var n := |work| - 1;
    if Done(work[..n], at, r) {
      var k :| 0 <= k < n && work[..n][k].at == at && work[..n][k].tmp == r;
      assert work[k].at == at;
    }
    if Done(work, at, r) && !(work[n].at == at && work[n].tmp == r) {
      var k :| 0 <= k <= n && work[k].at == at && work[k].tmp == r;
      assert work[..n][k] == work[k];
    }
  }

  lemma NamesNext(work: seq<Job>, spilled: set<Register>, at: nat, regs: set<Register>)
    requires work != [] && Orderly(work, spilled)
    ensures var n := |work| - 1;
      Names(work, at, regs) == Names(work[..n], at, regs) + (if work[n].at == at && work[n].tmp in regs then {work[n].sub} else {})
  {
    var n := |work| - 1;
    hide Done;
    forall r
      ensures Done(work, at, r) <==> Done(work[..n], at, r) || (work[n].at == at && work[n].tmp == r)
      ensures work[n].at == at && work[n].tmp == r ==> !Done(work[..n], at, r)
    {
      DoneNext(work, at, r);
      NotTwice(work, spilled, at, r);
    }
    hide Orderly;
    forall x
      ensures x in Names(work, at, regs) <==>
        x in Names(work[..n], at, regs) + (if work[n].at == at && work[n].tmp in regs then {work[n].sub} else {})
    {
    }
  }

  lemma NotTwice(work: seq<Job>, spilled: set<Register>, at: nat, r: Register)
    requires work != [] && Orderly(work, spilled)
    ensures var n := |work| - 1; work[n].at == at && work[n].tmp == r ==> !Done(work[..n], at, r)
  {
    var n := |work| - 1;
    if Done(work[..n], at, r) {
      var k :| 0 <= k < n && work[..n][k].at == at && work[..n][k].tmp == r;
      assert work[k].at != work[n].at || work[k].tmp != work[n].tmp;
    }
  }

  predicate IsLoad(slot: nat, i: Instr) {
    |i.defs| == 1 && i == Instr(i.id, Load(slot), [], [], i.defs, [], {}, [], false)
  }

  predicate IsStore(slot: nat, i: Instr) {
    |i.uses| == 1 && i == Instr(i.id, Store(slot), i.uses, [], [], [], {}, [], false)
  }

  /** Loads of exactly these registers. */
  predicate Loading(slot: nat, pre: seq<Instr>, regs: set<Register>) {
    && (forall j :: 0 <= j < |pre| ==> IsLoad(slot, pre[j]) && pre[j].defs[0] in regs)
    && (forall r :: r in regs ==> exists j :: 0 <= j < |pre| && pre[j].defs == [r])
  }

  predicate Storing(slot: nat, post: seq<Instr>, regs: set<Register>) {
    && (forall j :: 0 <= j < |post| ==> IsStore(slot, post[j]) && post[j].uses[0] in regs)
    && (forall r :: r in regs ==> exists j :: 0 <= j < |post| && post[j].uses == [r])
  }

  lemma LoadingMore(slot: nat, pre: seq<Instr>, regs: set<Register>, i: Instr)
    requires Loading(slot, pre, regs) && IsLoad(slot, i)
    ensures Loading(slot, pre + [i], regs + {i.defs[0]})
  {
    forall r | r in regs + {i.defs[0]}
      ensures exists j :: 0 <= j < |pre + [i]| && (pre + [i])[j].defs == [r]
    {
      if r in regs {
        var j :| 0 <= j < |pre| && pre[j].defs == [r];
        assert (pre + [i])[j].defs == [r];
      } else {
        assert (pre + [i])[|pre|].defs == [r];
      }
    }
  }

  lemma StoringMore(slot: nat, post: seq<Instr>, regs: set<Register>, i: Instr)
    requires Storing(slot, post, regs) && IsStore(slot, i)
    ensures Storing(slot, [i] + post, regs + {i.uses[0]})
  {
    forall r | r in regs + {i.uses[0]}
      ensures exists j :: 0 <= j < |[i] + post| && ([i] + post)[j].uses == [r]
    {
      if r in regs {
        var j :| 0 <= j < |post| && post[j].uses == [r];
        assert ([i] + post)[j + 1].uses == [r];
      } else {
        assert ([i] + post)[0].uses == [r];
      }
    }
  }

  /** The new name is among the renamed registers exactly when the temporary was among the registers. */
  lemma NameOccurs(rs: seq<Register>, work: seq<Job>, temps: nat, ids: nat, spilled: set<Register>, at: nat)
    requires work != [] && Numbered(work, temps, ids) && Orderly(work, spilled) && work[|work| - 1].at == at
    requires forall r :: r in rs ==> Old(r, temps)
    requires forall r :: r in spilled ==> Old(r, temps)
    ensures var last := work[|work| - 1]; last.sub in Colored(Naming(work, at), rs) <==> last.tmp in rs
  {
    var last, colored := work[|work| - 1], Colored(Naming(work, at), rs);
    assert Renamed(work, at, last.tmp) == last.sub;
    NamesAreDistinct(work, temps, ids, spilled, at, last.tmp);
    if last.tmp in rs {
      var k :| 0 <= k < |rs| && rs[k] == last.tmp;
      assert colored[k] == last.sub;
    }
    if last.sub in colored {
      var k :| 0 <= k < |colored| && colored[k] == last.sub;
      assert rs[k] == last.tmp;
    }
  }

  /** A block loads the used temporaries, and stores the defined ones. */
  predicate BlockFor(slot: nat, i: Instr, work: seq<Job>, b: Block) {
    && b.main == Recolor(i, Naming(work, i.id))
    && Loading(slot, b.pre, Names(work, i.id, i.Gen()))
    && Storing(slot, b.post, Names(work, i.id, i.Kill()))
  }

  lemma {:induction false} BlockIs(slot: nat, i: Instr, work: seq<Job>, temps: nat, ids: nat, spilled: set<Register>)
    requires Numbered(work, temps, ids) && Orderly(work, spilled) && Fits(i, spilled, temps)
    ensures BlockFor(slot, i, work, BlockOf(slot, i, work))
    decreases |work|
  {
    if work == [] {
      NoNames(i);
      NothingNamed(i.id, i.Gen());
      NothingNamed(i.id, i.Kill());
    } else {
      hide BlockFor, Numbered, Fits, Apply, Orderly;
      InitIsTask(work, temps, ids, spilled);
      BlockIs(slot, i, work[..|work| - 1], temps, ids, spilled);
      BlockNext(slot, i, work, temps, ids, spilled);
    }
  }

  lemma NothingNamed(at: nat, regs: set<Register>)
    ensures Names([], at, regs) == {}
  {
  }

  lemma InitIsTask(work: seq<Job>, temps: nat, ids: nat, spilled: set<Register>)
    requires work != [] && Numbered(work, temps, ids) && Orderly(work, spilled)
    ensures Numbered(work[..|work| - 1], temps, ids) && Orderly(work[..|work| - 1], spilled)
  {
  }

  lemma BlockNext(slot: nat, i: Instr, work: seq<Job>, temps: nat, ids: nat, spilled: set<Register>)
    requires work != [] && Numbered(work, temps, ids) && Orderly(work, spilled) && Fits(i, spilled, temps)
    requires var init := work[..|work| - 1]; BlockFor(slot, i, init, BlockOf(slot, i, init))
    ensures BlockFor(slot, i, work, BlockOf(slot, i, work))
  {
    var n := |work| - 1;
    var before, b, last := BlockOf(slot, i, work[..n]), BlockOf(slot, i, work), work[n];
    MainIs(slot, i, work, temps, ids, spilled);
    NamesNext(work, spilled, i.id, i.Gen());
    NamesNext(work, spilled, i.id, i.Kill());
    if last.at == i.id {
      SpillCodeFor(slot, i, work, temps, ids, spilled);
      hide Numbered, Fits, Orderly, Recolor, Names;
      LoadingNext(slot, i, before.pre, b.pre, last, Names(work[..n], i.id, i.Gen()));
      StoringNext(slot, i, before.post, b.post, last, Names(work[..n], i.id, i.Kill()));
    }
  }

  /** What the last job of an instruction inserts depends on the original operands. */
  lemma SpillCodeFor(slot: nat, i: Instr, work: seq<Job>, temps: nat, ids: nat, spilled: set<Register>)
    requires work != [] && Numbered(work, temps, ids) && Orderly(work, spilled) && Fits(i, spilled, temps)
    requires work[|work| - 1].at == i.id && BlockOf(slot, i, work).main == Recolor(i, Naming(work, i.id))
    ensures var last, before, b := work[|work| - 1], BlockOf(slot, i, work[..|work| - 1]), BlockOf(slot, i, work);
      && b.pre == before.pre + (if last.tmp in i.Gen() then [LoadOf(slot, last)] else [])
      && b.post == (if last.tmp in i.Kill() then [StoreOf(slot, last)] else []) + before.post
  {
    RecolorRegisters(i, Naming(work, i.id));
    NameOccurs(i.Used(), work, temps, ids, spilled, i.id);
    NameOccurs(i.Defined(), work, temps, ids, spilled, i.id);
    hide Numbered, Fits, Orderly, Recolor, Naming, Renamed;
  }

  lemma LoadingNext(slot: nat, i: Instr, before: seq<Instr>, after: seq<Instr>, last: Job, names: set<Register>)
    requires Loading(slot, before, names)
    requires after == before + (if last.tmp in i.Gen() then [LoadOf(slot, last)] else [])
    ensures Loading(slot, after, names + (if last.tmp in i.Gen() then {last.sub} else {}))
  {
    if last.tmp in i.Gen() {
      LoadingMore(slot, before, names, LoadOf(slot, last));
    } else {
      assert names + {} == names && after == before;
    }
  }

  lemma StoringNext(slot: nat, i: Instr, before: seq<Instr>, after: seq<Instr>, last: Job, names: set<Register>)
    requires Storing(slot, before, names)
    requires after == (if last.tmp in i.Kill() then [StoreOf(slot, last)] else []) + before
    ensures Storing(slot, after, names + (if last.tmp in i.Kill() then {last.sub} else {}))
  {
    if last.tmp in i.Kill() {
      StoringMore(slot, before, names, StoreOf(slot, last));
    } else {
      assert names + {} == names && after == before;
    }
  }
}
