/**
  The debug interface of Pulp: memory is reached over the system bus of section
  3.12 of RISC-V External Debug Support 0.13.2, whose address register counts up
  by itself. The debugger remembers the last address it wrote to, and does not
  set it again when the next one follows.
 */
module Pulp {
  import opened Basics
  import opened Arithmetic
  import opened RiscV

  const DMCONTROLREG: nat := 0x10
  const SYSTEMBUSCONTROLREG: nat := 0x38
  const SYSTEMBUSADR0: nat := 0x39
  const SYSTEMBUSDATA0: nat := 0x3c

  /** The system bus registers of a debug module, and the memory behind the bus. */
  datatype DebugModule = DebugModule(access: nat, autoIncrement: bool, readOnAddress: bool, address: nat, data: nat, mem: Memory)

  /** How many bytes an access is wide. */
  function Width(access: nat): nat {
    if access == 0 then 1 else 2 * Width(access - 1)
  }

  function Bumped(dm: DebugModule): DebugModule {
    if dm.autoIncrement then dm.(address := (dm.address + Width(dm.access)) % W) else dm
  }

  function RegisterWritten(dm: DebugModule, reg: nat, value: nat): DebugModule {
    if reg == SYSTEMBUSCONTROLREG then
      dm.(access := value / 0x2_0000 % 8, autoIncrement := value / 0x1_0000 % 2 == 1, readOnAddress := value / 0x10_0000 % 2 == 1)
    else if reg == SYSTEMBUSADR0 then
      var next := dm.(address := value);
      if dm.readOnAddress then Bumped(next.(data := Loaded(dm.mem, value, Width(dm.access)))) else next
    else if reg == SYSTEMBUSDATA0 then
      Bumped(dm.(data := value, mem := Stored(dm.mem, dm.address, value, Width(dm.access))))
    else dm
  }

  /** The debugger's memory of its last write, and the debug module. */
  datatype Bus = Bus(last: Option<int>, dm: DebugModule)

  /** The last address remembered is the one before that to which the next data goes. */
  predicate InSync(b: Bus) {
    b.last.Some? ==>
      b.dm.access == 2 && b.dm.autoIncrement && b.dm.address == (b.last.value + 4) % W
  }

  function BusWritten(b: Bus, adr: int, value: int): Bus {
    var dm := if b.last.None? || b.last.value != adr - 4 then
        RegisterWritten(RegisterWritten(b.dm, SYSTEMBUSCONTROLREG, 2 * 0x2_0000 + 0x1_0000), SYSTEMBUSADR0, adr % W)
      else b.dm;
    Bus(Some(adr), RegisterWritten(dm, SYSTEMBUSDATA0, value % W))
  }

  function BusRead(b: Bus, adr: int): Bus {
    b.(dm := RegisterWritten(RegisterWritten(b.dm, SYSTEMBUSCONTROLREG, 2 * 0x2_0000 + 0x10_0000), SYSTEMBUSADR0, adr % W))
  }

  lemma WordWide()
    ensures Width(2) == 4
  {
    assert Width(2) == 2 * Width(1) == 2 * (2 * Width(0));
  }

  lemma Programmed(dm: DebugModule, a: nat)
    ensures RegisterWritten(RegisterWritten(dm, SYSTEMBUSCONTROLREG, 2 * 0x2_0000 + 0x1_0000), SYSTEMBUSADR0, a)
      == dm.(access := 2, autoIncrement := true, readOnAddress := false, address := a)
  {
  }

  lemma DataWritten(dm: DebugModule, value: nat)
    requires dm.access == 2 && dm.autoIncrement
    ensures RegisterWritten(dm, SYSTEMBUSDATA0, value)
      == dm.(data := value, mem := Stored(dm.mem, dm.address, value, 4), address := (dm.address + 4) % W)
  {
    WordWide();
  }

  lemma NextWord(adr: int)
    ensures (adr % W + 4) % W == (adr + 4) % W
  {
  }

  /** What is written to the debug module, by the numbers of its registers: where an address has to be
      set, 0x38 is set to words that follow one another, 0x39 to the address, and 0x3c to the word. */
  lemma WritesOf(b: Bus, adr: int, value: int)
    ensures BusWritten(b, adr, value).dm == (
      var set_ := RegisterWritten(RegisterWritten(b.dm, 0x38, 0x5_0000), 0x39, adr % W);
      RegisterWritten(if b.last == Some(adr - 4) then b.dm else set_, 0x3c, value % W))
    ensures BusRead(b, adr).dm == RegisterWritten(RegisterWritten(b.dm, 0x38, 0x14_0000), 0x39, adr % W)
  {
    hide Stored, Loaded, Width;
  }

  /** In sync, a write stores its word at its own address, and stays in sync. */
  lemma WriteHits(b: Bus, adr: int, value: int)
    requires InSync(b)
    ensures InSync(BusWritten(b, adr, value))
    ensures BusWritten(b, adr, value).dm.mem == Stored(b.dm.mem, adr % W, value % W, 4)
  {
    hide Stored, Width, RegisterWritten;
    Programmed(b.dm, adr % W);
    NextWord(adr);
    NextWord(adr - 4);
    var dm := if b.last == Some(adr - 4) then b.dm else b.dm.(access := 2, autoIncrement := true, readOnAddress := false, address := adr % W);
    DataWritten(dm, value % W);
  }

  /** A read returns the word, but leaves the address where it read from. */
  lemma ReadMoves(b: Bus, adr: int)
    ensures var r := BusRead(b, adr);
      && r.last == b.last && r.dm.mem == b.dm.mem && r.dm.data == Loaded(b.dm.mem, adr % W, 4)
      && r.dm.access == 2 && !r.dm.autoIncrement && r.dm.address == adr % W
  {
    WordWide();
  }

  /** The address that the data of a write goes to. */
  function Reached(b: Bus, adr: int): nat {
    if b.last.None? || b.last.value != adr - 4 then adr % W else b.dm.address
  }

  lemma WriteReaches(b: Bus, adr: int, value: int)
    requires b.last == Some(adr - 4) ==> b.dm.access == 2
    ensures BusWritten(b, adr, value).dm.mem == Stored(b.dm.mem, Reached(b, adr), value % W, 4)
  {
    WordWide();
  }

  /**
    After a read, a write reaches its address exactly when it does not follow
    the last write, or the read was from the very address it goes to.
   */
  lemma WriteAfterRead(b: Bus, from: int, adr: int, value: int)
    ensures var r := BusRead(b, from);
      && BusWritten(r, adr, value).dm.mem == Stored(b.dm.mem, Reached(r, adr), value % W, 4)
      && (Reached(r, adr) == adr % W <==> b.last != Some(adr - 4) || from % W == adr % W)
  {
    ReadMoves(b, from);
    WriteReaches(BusRead(b, from), adr, value);
  }

  lemma LastIsKept(b: Bus, adr: int, value: int)
    ensures BusWritten(b, adr, value).last == Some(adr)
  {
  }

  /** Two words written with a read in between: the second one overwrites what was read. */
  lemma SecondWordIsLost(dm: DebugModule)
    ensures var b := BusWritten(BusRead(BusWritten(Bus(None, dm), 0x1000, 1), 0x2000), 0x1004, 2);
      && Loaded(b.dm.mem, 0x2000, 4) == 2
      && Loaded(b.dm.mem, 0x1004, 4) == Loaded(dm.mem, 0x1004, 4)
  {
    hide Stored, Loaded, BusWritten, BusRead;
    assert Offset(0x2000, 0x1004) == W - 0xffc && Offset(0x1000, 0x1004) == 4;
    var a := BusWritten(Bus(None, dm), 0x1000, 1);
    WriteHits(Bus(None, dm), 0x1000, 1);
    WriteAfterRead(a, 0x2000, 0x1004, 2);
    ReadMoves(a, 0x2000);
    assert a.last == Some(0x1000) by {
      LastIsKept(Bus(None, dm), 0x1000, 1);
    }
    LoadedAfterStored(a.dm.mem, 0x2000, 2);
    LoadedElsewhere(a.dm.mem, 0x2000, 2, 0x1004, 4);
    LoadedElsewhere(dm.mem, 0x1000, 1, 0x1004, 4);
  }

  /** A load from bytes that a store leaves alone. */
  lemma {:induction false} LoadedElsewhere(mem: Memory, a: int, value: nat, b: int, n: nat)
    requires 4 <= Offset(a, b) && Offset(a, b) + n < W
    ensures Loaded(Stored(mem, a, value, 4), b, n) == Loaded(mem, b, n)
    decreases n
  {
    hide Stored, Offset;
    if n > 0 {
      StoredByte(mem, a, value, 4, b);
      OneOn(a, b);
      LoadedElsewhere(mem, a, value, b + 1, n - 1);
    }
  }

  lemma OneOn(a: int, b: int)
    requires Offset(a, b) + 1 < W
    ensures Offset(a, b + 1) == Offset(a, b) + 1
  {
  }

  class PulpOCD {
    var lastwradr: Option<int>
    var dm: DebugModule

    constructor (d: DebugModule)
      ensures Synced() && dm == d && lastwradr == None
    {
      lastwradr, dm := None, d;
    }

    ghost predicate Synced()
      reads this
    {
      InSync(Bus(lastwradr, dm))
    }

    method WriteApb(adr: nat, data: int)
      modifies this`dm
      ensures dm == RegisterWritten(old(dm), adr % 0x1_0000, data % W)
    {
      dm := RegisterWritten(dm, adr % 0x1_0000, data % W);
    }

    /** In sync, the word is stored at its address, both modulo 2^32. */
    method WriteBus(adr: int, value: int)
      modifies this
      ensures Bus(lastwradr, dm) == BusWritten(old(Bus(lastwradr, dm)), adr, value)
      ensures old(Synced()) ==> Synced() && dm.mem == Stored(old(dm.mem), adr % W, value % W, 4)
    {
      hide Stored, Loaded, Width, RegisterWritten;
      if InSync(Bus(lastwradr, dm)) {
        WriteHits(Bus(lastwradr, dm), adr, value);
      }
      if lastwradr.None? || lastwradr.value != adr - 4 {
        WriteApb(SYSTEMBUSCONTROLREG, 2 * 0x2_0000 + 0x1_0000);
        WriteApb(SYSTEMBUSADR0, adr);
      }
      WriteApb(SYSTEMBUSDATA0, value);
      lastwradr := Some(adr);
    }

    /** The word is returned, and what was remembered is kept although it no longer holds. */
    method ReadBus(adr: int) returns (value: nat)
      modifies this`dm
      ensures Bus(lastwradr, dm) == BusRead(old(Bus(lastwradr, dm)), adr)
      ensures value == Loaded(old(dm.mem), adr % W, 4)
    {
      ReadMoves(Bus(lastwradr, dm), adr);
      WriteApb(SYSTEMBUSCONTROLREG, 2 * 0x2_0000 + 0x10_0000);
      WriteApb(SYSTEMBUSADR0, adr);
      value := dm.data;
    }

    /** Lets the hart run, which may write anywhere: nothing is remembered after it. */
    method Resume()
      modifies this
      ensures lastwradr == None && Synced() && dm == old(dm)
    {
      WriteApb(DMCONTROLREG, 0x4000_0001);
      WriteApb(DMCONTROLREG, 1);
      lastwradr := None;
    }
  }
}
