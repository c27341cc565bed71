/**
  The debug interface of Murax: values and addresses are loaded into registers,
  and memory is written and read, by instructions that the debugger pushes into
  the hart.
 */
module Murax {
  import opened Basics
  import opened Arithmetic
  import opened RiscV

  predicate InRange(value: int, bits: nat)
    requires bits == 12
  {
    -2048 <= value < 2048
  }

  function Addi(rd: nat, rs1: nat, value: int): nat {
    value % 0x1000 * 0x10_0000 + rs1 * 0x8000 + rd * 0x80 + 0x13
  }

  function Lui(rd: nat, value: int): nat {
    value % W - value % 0x1000 + rd * 0x80 + 0x37
  }

  /** What rounds up the upper part when the lower one is going to be negative. */
  function Carried(value: int): int {
    if value / 0x800 % 2 != 0 then value + 0x1000 else value
  }

  function Sw(offset: int): nat {
    offset % 0x1000 / 32 * 32 * 0x10_0000 + 0x10_0000 + 2 * 0x8000 + 2 * 0x1000 + offset % 32 * 0x80 + 0x23
  }

  const Lw: nat := 0x8000 + 2 * 0x1000 + 0x80 + 0x3

  lemma AddiExecuted(h: Hart, rd: nat, rs1: nat, value: int)
    requires HartOk(h) && rd < 32 && rs1 < 32
    ensures Addi(rd, rs1, value) % W == Addi(rd, rs1, value)
    ensures Executed(h, Addi(rd, rs1, value)) == WithReg(h, rd, h.regs[rs1] + SignExtended(value % 0x1000))
  {
    Fields(value % 0x1000, rs1, 0, rd, 0x13);
    SmallRemainder(Addi(rd, rs1, value), W);
    SmallRemainder(value % 0x1000, 0x1000);
  }

  lemma LuiExecuted(h: Hart, rd: nat, value: int)
    requires HartOk(h) && rd < 32
    ensures Lui(rd, value) % W == Lui(rd, value)
    ensures Executed(h, Lui(rd, value)) == WithReg(h, rd, value % W - value % 0x1000)
  {
    UpperPart(value);
    LuiFields(value % W / 0x1000, rd);
  }

  lemma LuiFields(u: nat, rd: nat)
    requires u < 0x10_0000 && rd < 32
    ensures var ins := u * 0x1000 + rd * 0x80 + 0x37;
      ins % W == ins && ins % 128 == 0x37 && ins / 128 % 32 == rd && ins / 0x1000 % 0x10_0000 == u
  {
    var ins := u * 0x1000 + rd * 0x80 + 0x37;
    Remainder(ins, W, 0, ins);
    Remainder(ins, 128, u * 32 + rd, 0x37);
    Remainder(u * 32 + rd, 32, u, rd);
    Remainder(ins, 0x1000, u, rd * 0x80 + 0x37);
    Remainder(u, 0x10_0000, 0, u);
  }

  lemma UpperPart(value: int)
    ensures var u := value % W / 0x1000;
      u < 0x10_0000 && value % W - value % 0x1000 == u * 0x1000
  {
    var q := value / W;
    assert value % W == value - q * W;
    SameLowBits(value, q);
    var r := value % W;
    assert r == r / 0x1000 * 0x1000 + r % 0x1000;
  }

  lemma SameLowBits(value: int, q: int)
    ensures (value - q * W) % 0x1000 == value % 0x1000
  {
  }

  lemma SwFields(offset: int)
    ensures var ins, o := Sw(offset), offset % 0x1000;
      && ins < W && ins % 128 == 0x23 && ins / 0x1000 % 8 == 2
      && ins / 0x8000 % 32 == 2 && ins / 0x10_0000 % 32 == 1
      && ins / 0x200_0000 % 128 * 32 + ins / 128 % 32 == o
  {
    var ins, o := Sw(offset), offset % 0x1000;
    var high, low := o / 32, o % 32;
    assert offset % 32 == low by {
      assert offset == offset / 0x1000 * 0x1000 + o;
      ShiftByMultiple(o, offset / 0x1000 * 128, 32);
    }
    Fields(high * 32 + 1, 2, 2, low, 0x23);
    assert ins == (high * 32 + 1) * 0x10_0000 + 2 * 0x8000 + 2 * 0x1000 + low * 0x80 + 0x23;
    Remainder(high * 32 + 1, 32, high, 1);
  }

  lemma SwExecuted(h: Hart, offset: int)
    requires HartOk(h) && -2048 <= offset < 2048
    ensures Sw(offset) % W == Sw(offset)
    ensures Executed(h, Sw(offset)) == h.(mem := Stored(h.mem, h.regs[2] + offset, h.regs[1], 4))
  {
    SwFields(offset);
    assert SignExtended(offset % 0x1000) == offset;
  }

  lemma LwExecuted(h: Hart)
    requires HartOk(h)
    ensures Executed(h, Lw) == WithReg(h, 1, Loaded(h.mem, h.regs[1], 4))
  {
    Fields(0, 1, 2, 1, 0x03);
  }

  lemma LowPart(value: int)
    ensures (value + 0x1000) % 0x1000 == value % 0x1000
    ensures value / 0x800 % 2 != 0 <==> value % 0x1000 >= 0x800
  {
    var a, low := value / 0x1000, value % 0x1000;
    Remainder(value + 0x1000, 0x1000, a + 1, low);
    Remainder(value, 0x800, 2 * a + low / 0x800, low % 0x800);
    Remainder(2 * a + low / 0x800, 2, a, low / 0x800);
  }

  /** Two instructions add up to the value. */
  lemma UpperAndLower(value: int)
    ensures var v := Carried(value);
      ((v % W - v % 0x1000) + SignExtended(v % 0x1000)) % W == value % W
  {
    LowPart(value);
    var v := Carried(value);
    var q := v / W;
    assert v % W == v - W * q;
    assert (v % W - v % 0x1000) + SignExtended(v % 0x1000) == value + W * (0 - q);
    ShiftByMultiple(value, 0 - q, W);
  }

  lemma SmallLoaded(h: Hart, r: nat, value: int)
    requires HartOk(h) && r < 32 && InRange(value, 12)
    ensures Executed(h, Addi(r, 0, value) % W) == WithReg(h, r, value)
  {
    hide Executed;
    AddiExecuted(h, r, 0, value);
    assert SignExtended(value % 0x1000) == value;
  }

  lemma BothLoaded(h: Hart, r: nat, value: int)
    requires HartOk(h) && r < 32
    ensures var v := Carried(value); var g := Executed(Executed(h, Lui(r, v) % W), Addi(r, r, v) % W);
      && (r > 0 ==> g == WithReg(h, r, value))
      && (r == 0 ==> g.regs == h.regs && g.mem == h.mem)
  {
    hide Executed, Addi, Lui, Carried, SignExtended;
    var v := Carried(value);
    LuiExecuted(h, r, v);
    var g := WithReg(h, r, v % W - v % 0x1000);
    AddiExecuted(g, r, r, v);
    SumWraps(v % W - v % 0x1000, SignExtended(v % 0x1000));
    UpperAndLower(value);
  }

  lemma SumWraps(a: int, b: int)
    ensures (a % W + b) % W == (a + b) % W
  {
    assert a == W * (a / W) + a % W;
    ShiftByMultiple(a % W + b, a / W, W);
  }

  lemma RegSet(h: Hart, r: nat, value: int)
    requires HartOk(h) && 0 < r < 32
    ensures WithReg(h, r, value).regs == h.regs[r := value % W]
    ensures WithReg(h, r, value).mem == h.mem && WithReg(h, r, value).result == value % W
  {
  }

  lemma WordStored(h: Hart, offset: int, adr: int, value: int)
    requires HartOk(h) && -2048 <= offset < 2048
    requires h.regs[1] == value % W && (h.regs[2] + offset) % W == adr % W
    ensures Executed(h, Sw(offset) % W) == h.(mem := Stored(h.mem, adr % W, value % W, 4))
  {
    hide Executed, Sw;
    SwExecuted(h, offset);
    SameAddress(h.mem, h.regs[2] + offset, adr % W, value % W, 4);
  }

  lemma WordLoaded(h: Hart, adr: int)
    requires HartOk(h) && h.regs[1] == adr % W
    ensures var g := Executed(h, Lw % W); g.mem == h.mem && g.regs[2] == h.regs[2] && g.result == Loaded(h.mem, adr % W, 4)
  {
    hide Executed, WithReg;
    LwExecuted(h);
    WordFits(h.mem, adr % W);
    RegSet(h, 1, Loaded(h.mem, adr % W, 4));
  }

  class MuraxOCD {
    var lastwradr: Option<int>
    var hart: Hart

    constructor (h: Hart)
      requires HartOk(h)
      ensures Valid() && hart == h && lastwradr == None
    {
      lastwradr, hart := None, h;
    }

    /** A cached address, which nothing sets so far, would be in the register that stores go by. */
    ghost predicate Valid()
      reads this
    {
      HartOk(hart) && (lastwradr.Some? ==> hart.regs[2] == lastwradr.value % W)
    }

    method PushIns(ins: nat)
      requires HartOk(hart)
      modifies this`hart
      ensures HartOk(hart) && hart == Executed(old(hart), ins % W)
    {
      hart := Executed(hart, ins % W);
    }

    /** Leaves the value, modulo 2^32, in the register; register 0 stays 0. */
    method WriteReg(regnr: nat, value: int)
      requires HartOk(hart) && regnr < 32
      modifies this`hart
      ensures HartOk(hart) && hart.mem == old(hart.mem)
      ensures regnr > 0 ==> hart == WithReg(old(hart), regnr, value)
      ensures regnr == 0 ==> hart.regs == old(hart.regs)
    {
      hide Executed, Addi, Lui, Carried;
      if InRange(value, 12) {
        SmallLoaded(hart, regnr, value);
        PushIns(Addi(regnr, 0, value));
      } else {
        var v := Carried(value);
        BothLoaded(hart, regnr, value);
        PushIns(Lui(regnr, v));
        PushIns(Addi(regnr, regnr, v));
      }
    }

    /** Stores a word at an address, both modulo 2^32. */
    method WriteMem(adr: int, value: int)
      requires Valid()
      modifies this`hart
      ensures HartOk(hart) && hart.mem == Stored(old(hart.mem), adr % W, value % W, 4)
      ensures lastwradr.None? || InRange(adr - lastwradr.value, 12) ==> Valid()
    {
      hide Executed, Sw, WithReg;
      ghost var h := hart;
      WriteReg(1, value);
      RegSet(h, 1, value);
      var offset := 0;
      if lastwradr.Some? && InRange(adr - lastwradr.value, 12) {
        offset := adr - lastwradr.value;
        SumWraps(lastwradr.value, offset);
      } else {
        ghost var g := hart;
        WriteReg(2, adr);
        RegSet(g, 2, adr);
        SumWraps(adr, 0);
      }
      WordStored(hart, offset, adr, value);
      PushIns(Sw(offset));
    }

    /** Loads the word at an address; the result of the load is what is read back. */
    method ReadMem(adr: int) returns (value: nat)
      requires Valid()
      modifies this`hart
      ensures Valid() && hart.mem == old(hart.mem)
      ensures value == Loaded(hart.mem, adr % W, 4)
    {
      hide Executed, WithReg;
      RegSet(hart, 1, adr);
      WriteReg(1, adr);
      WordLoaded(hart, adr);
      PushIns(Lw);
      value := hart.result;
    }
  }

  lemma {:induction false} SameAddress(mem: Memory, a: int, b: int, value: nat, n: nat)
    requires a % W == b % W
    ensures Stored(mem, a, value, n) == Stored(mem, b, value, n)
    decreases n
  {
    if n > 0 {
      SameAddress(mem[a % W := value % 256], a + 1, b + 1, value / 256, n - 1);
    }
  }
}
