/**
  A 32-bit RISC-V hart as far as a debugger needs it: integer registers, byte
  memory, and the instructions of sections 2.4 and 2.6 of the RISC-V
  Unprivileged ISA that the debug memory loaders use.
 */
module RiscV {
  import opened Basics
  import opened Arithmetic

  const W: nat := 0x1_0000_0000

  type Memory = map<nat, byte>

  function Byte(mem: Memory, a: int): byte {
    var at := a % W;
    if at in mem then mem[at] else 0
  }

  /** The n low bytes of a value, least significant first, from an address on. */
  function Stored(mem: Memory, a: int, value: nat, n: nat): Memory
    decreases n
  {
    if n == 0 then mem else Stored(mem[a % W := value % 256], a + 1, value / 256, n - 1)
  }

  function Loaded(mem: Memory, a: int, n: nat): nat
    decreases n
  {
    if n == 0 then 0 else Byte(mem, a) + 256 * Loaded(mem, a + 1, n - 1)
  }

  function ByteOf(value: nat, k: nat): nat {
    if k == 0 then value % 256 else ByteOf(value / 256, k - 1)
  }

  /** How far an address lies behind another one, going up and round. */
  function Offset(a: int, b: int): nat {
    (b - a) % W
  }

  /** A store sets the bytes of its value and no others. */
  lemma {:induction false} StoredByte(mem: Memory, a: int, value: nat, n: nat, b: int)
    requires n <= W
    ensures Byte(Stored(mem, a, value, n), b) == if Offset(a, b) < n then ByteOf(value, Offset(a, b)) else Byte(mem, b)
    decreases n
  {
    if n > 0 {
      var next := mem[a % W := value % 256];
      StoredByte(next, a + 1, value / 256, n - 1, b);
      NextOffset(a, b);
    }
  }

  lemma NextOffset(a: int, b: int)
    ensures Offset(a, b) == 0 <==> a % W == b % W
    ensures Offset(a + 1, b) == if Offset(a, b) == 0 then W - 1 else Offset(a, b) - 1
  {
  }

  /** What was stored is what is loaded, modulo what fits. */
  lemma {:induction false} LoadedFromBytes(mem: Memory, a: int, value: nat, n: nat)
    requires forall k {:trigger ByteOf(value, k)} :: 0 <= k < n ==> Byte(mem, a + k) == ByteOf(value, k)
    ensures Loaded(mem, a, n) == value % Pow256(n)
    decreases n
  {
    if n > 0 {
      assert Byte(mem, a + 0) == ByteOf(value, 0);
      forall k {:trigger ByteOf(value / 256, k)} | 0 <= k < n - 1
        ensures Byte(mem, a + 1 + k) == ByteOf(value / 256, k)
      {
        assert ByteOf(value, k + 1) == ByteOf(value / 256, k);
      }
      LoadedFromBytes(mem, a + 1, value / 256, n - 1);
      SplitRemainder(value, Pow256(n - 1));
    }
  }

  function Pow256(n: nat): (r: nat)
    ensures r > 0
  {
    if n == 0 then 1 else 256 * Pow256(n - 1)
  }

  lemma SplitRemainder(value: nat, p: nat)
    requires p > 0
    ensures value % (256 * p) == value % 256 + 256 * ((value / 256) % p)
  {
    var h := value / 256;
    var q, r := h / p, h % p;
    assert h == p * q + r;
    assert value == (256 * p) * q + (value % 256 + 256 * r);
    Remainder(value, 256 * p, q, value % 256 + 256 * r);
  }

  lemma LoadedAfterStored(mem: Memory, a: int, value: nat)
    ensures Loaded(Stored(mem, a, value, 4), a, 4) == value % W
  {
    var after := Stored(mem, a, value, 4);
    forall k {:trigger ByteOf(value, k)} | 0 <= k < 4
      ensures Byte(after, a + k) == ByteOf(value, k)
    {
      StoredByte(mem, a, value, 4, a + k);
    }
    LoadedFromBytes(after, a, value, 4);
    Pow256Of4();
  }

  lemma {:induction false} LoadedFits(mem: Memory, a: int, n: nat)
    ensures Loaded(mem, a, n) < Pow256(n)
    decreases n
  {
    if n > 0 {
      LoadedFits(mem, a + 1, n - 1);
    }
  }

  lemma WordFits(mem: Memory, a: int)
    ensures Loaded(mem, a, 4) < W
  {
    LoadedFits(mem, a, 4);
    Pow256Of4();
  }

  lemma Pow256Of4()
    ensures Pow256(4) == W
  {
    assert Pow256(4) == 256 * Pow256(3) == 256 * (256 * Pow256(2)) == 256 * (256 * (256 * Pow256(1)));
    assert Pow256(1) == 256 * Pow256(0);
  }

  /** ----- the hart ----- */

  datatype Hart = Hart(regs: seq<nat>, mem: Memory, result: nat)

  predicate HartOk(h: Hart) {
    |h.regs| == 32 && h.regs[0] == 0 && forall r :: 0 <= r < 32 ==> h.regs[r] < W
  }

  function SignExtended(imm: nat): int
    requires imm < 4096
  {
    if imm < 2048 then imm else imm - 4096
  }

  /** Register 0 stays 0. */
  function WithReg(h: Hart, r: nat, value: int): Hart
    requires HartOk(h) && r < 32
  {
    h.(regs := if r == 0 then h.regs else h.regs[r := value % W], result := value % W)
  }

  /** ADDI, LUI, LW and SW; the result of an instruction is what the debugger can read back. */
  function Executed(h: Hart, ins: nat): (r: Hart)
    requires HartOk(h)
    ensures HartOk(r)
  {
    var opcode, rd, funct3, rs1, rs2 := ins % 128, ins / 128 % 32, ins / 0x1000 % 8, ins / 0x8000 % 32, ins / 0x10_0000 % 32;
    var immI, immS := ins / 0x10_0000 % 0x1000, ins / 0x200_0000 % 128 * 32 + ins / 128 % 32;
    if opcode == 0x13 && funct3 == 0 then WithReg(h, rd, h.regs[rs1] + SignExtended(immI))
    else if opcode == 0x37 then WithReg(h, rd, ins / 0x1000 % 0x10_0000 * 0x1000)
    else if opcode == 0x03 && funct3 == 2 then WithReg(h, rd, Loaded(h.mem, h.regs[rs1] + SignExtended(immI), 4))
    else if opcode == 0x23 && funct3 == 2 then h.(mem := Stored(h.mem, h.regs[rs1] + SignExtended(immS), h.regs[rs2], 4))
    else h
  }

  /** The fields of an instruction, put together and taken apart. */
  lemma Fields(imm: nat, rs1: nat, funct3: nat, rd: nat, opcode: nat)
    requires imm < 0x1000 && rs1 < 32 && funct3 < 8 && rd < 32 && opcode < 128
    ensures
      var ins := imm * 0x10_0000 + rs1 * 0x8000 + funct3 * 0x1000 + rd * 0x80 + opcode;
      && ins < W && ins % 128 == opcode && ins / 128 % 32 == rd && ins / 0x1000 % 8 == funct3
      && ins / 0x8000 % 32 == rs1 && ins / 0x10_0000 == imm && ins / 0x200_0000 == imm / 32
  {
    var ins := imm * 0x10_0000 + rs1 * 0x8000 + funct3 * 0x1000 + rd * 0x80 + opcode;
    var c := imm * 32 + rs1;
    var b := c * 8 + funct3;
    var a := b * 32 + rd;
    Remainder(ins, 128, a, opcode);
    Remainder(ins, 0x1000, b, rd * 0x80 + opcode);
    Remainder(ins, 0x8000, c, funct3 * 0x1000 + rd * 0x80 + opcode);
    Remainder(ins, 0x10_0000, imm, rs1 * 0x8000 + funct3 * 0x1000 + rd * 0x80 + opcode);
    Remainder(ins, 0x200_0000, imm / 32, imm % 32 * 0x10_0000 + rs1 * 0x8000 + funct3 * 0x1000 + rd * 0x80 + opcode);
    Remainder(a, 32, b, rd);
    Remainder(b, 8, c, funct3);
    Remainder(c, 32, imm, rs1);
  }
}
