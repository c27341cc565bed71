/**
  The bit-bang transport and the engine on top of it, as objects that change
  their state step by step.
 */
module Engine {
  import opened Basics
  import opened StateMachines
  import opened Bits
  import opened Taps
  import opened TapPaths
  import opened Sessions

  lemma LowSum(a: seq<bool>, b: seq<bool>)
    ensures Low(a + b) == Low(a) + Low(b)
  {
  }

  lemma OneMoreLowTick(d: Device, bits: seq<bool>, bit: bool)
    ensures var e := Run(d, Low(bits));
      && Run(d, Low(bits + [bit])) == Clock(e, Tick(false, bit))
      && Tdos(d, Low(bits + [bit])) == Tdos(d, Low(bits)) + [Tdo(e)]
  {
    LowSum(bits, [bit]);
    assert Low([bit]) == [Tick(false, bit)];
    RunInTurn(d, Low(bits), [Tick(false, bit)]);
    OneTick(Run(d, Low(bits)), Tick(false, bit));
  }

  lemma OneTick(d: Device, t: Tick)
    ensures Run(d, [t]) == Clock(d, t) && Tdos(d, [t]) == [Tdo(d)]
  {
    assert [t][1..] == [];
  }

  lemma OneMoreIntBit(bits: seq<bool>, bit: bool)
    ensures IntOf(bits + [bit]) == IntOf(bits) + Bit(bit) * Pow2(|bits|)
  {
    IntOfSum(bits, [bit]);
    OneBit(bit);
  }

  /** The simulated device is at the other end of a socket: a clock is two writes and a read. */
  class JtagSimController {
    var last: Option<bool>
    var device: Device

    constructor (d: Device)
      ensures last == None && device == d
    {
      last, device := None, d;
    }

    method ReadWriteBit(tms: bool, tdi: bool) returns (tdo: bool)
      modifies this`device
      ensures device == Clock(old(device), Tick(tms, tdi)) && tdo == Tdo(old(device))
    {
      tdo := Tdo(device);
      device := Clock(device, Tick(tms, tdi));
    }

    /** Shifts a number out, least significant bit first, and what comes back in. */
    method ShiftInOutVal(length: nat, inval: nat) returns (outval: nat)
      modifies this`device
      ensures device == Run(old(device), Low(BitsOf(inval, length)))
      ensures outval == IntOf(Tdos(old(device), Low(BitsOf(inval, length))))
    {
      outval := 0;
      var rest := inval;
      for i := 0 to length
        invariant rest == Halved(inval, i) >= 0
        invariant device == Run(old(device), Low(BitsOf(inval, i)))
        invariant outval == IntOf(Tdos(old(device), Low(BitsOf(inval, i))))
      {
        OneMoreBit(inval, i);
        OneMoreLowTick(old(device), BitsOf(inval, i), rest % 2 == 1);
        var tdo := ReadWriteBit(false, rest % 2 == 1);
        OneMoreIntBit(Tdos(old(device), Low(BitsOf(inval, i))), tdo);
        rest := rest / 2;
        outval := outval + Bit(tdo) * Pow2(i);
      }
    }

    /** Clocks events; with a read, what the first of them reads comes back. */
    method WriteTms(tms: seq<bool>, shouldRead: bool) returns (tdo: bool)
      modifies this
      ensures device == Run(old(device), TmsTicks(old(last), tms))
      ensures last == if tms == [] then old(last) else None
      ensures tdo == (shouldRead && tms != [] && Tdo(old(device)))
    {
      tdo := false;
      var reading := shouldRead;
      ghost var ticks := TmsTicks(last, tms);
      assert ticks[..0] == [];
      for k := 0 to |tms|
        invariant device == Run(old(device), ticks[..k])
        invariant last == if k == 0 then old(last) else None
        invariant reading == (shouldRead && k == 0)
        invariant tdo == (shouldRead && k > 0 && Tdo(old(device)))
      {
        assert ticks[..k + 1] == ticks[..k] + [ticks[k]];
        RunInTurn(old(device), ticks[..k], [ticks[k]]);
        OneTick(device, ticks[k]);
        var bit := ReadWriteBit(tms[k], last == Some(true));
        if reading {
          tdo := bit;
        }
        reading := false;
        last := None;
      }
      assert ticks[..|tms|] == ticks;
    }

    method Read(length: nat) returns (bits: seq<bool>)
      modifies this`device
      ensures device == Run(old(device), Low(Falses(length)))
      ensures length > 0 ==> bits == Tdos(old(device), Low(Falses(length)))
    {
      ZeroBits(length);
      var value := ShiftInOutVal(length, 0);
      bits := MakeBits(value, length);
      BitsOfInt(Tdos(old(device), Low(Falses(length))));
    }

    /** Writes bits; with none to hold back nothing is written. */
    method Write(out: seq<bool>, useLast: bool) returns (ok: bool)
      modifies this
      ensures ok <==> !useLast || out != []
      ensures Session(old(device.state), last, device) == Written(Session(old(device.state), old(last), old(device)), out, useLast)
    {
      var bits := out;
      if useLast {
        if out == [] {
          return false;
        }
        bits, last := out[..|out| - 1], Some(out[|out| - 1]);
      }
      BitsOfInt(bits);
      var _ := ShiftInOutVal(|bits|, IntOf(bits));
      ok := true;
    }

    method WriteRead(out: seq<bool>, useLast: bool) returns (r: Option<seq<bool>>)
      modifies this
      ensures r.Some? <==> !useLast || out != []
      ensures Session(old(device.state), last, device) == Written(Session(old(device.state), old(last), old(device)), out, useLast)
      ensures r.Some? ==>
        var bits := if useLast then out[..|out| - 1] else out;
        IntOf(r.value) == IntOf(Tdos(old(device), Low(bits))) && (bits != [] ==> r.value == Tdos(old(device), Low(bits)))
    {
      var bits := out;
      if useLast {
        if out == [] {
          return None;
        }
        bits, last := out[..|out| - 1], Some(out[|out| - 1]);
      }
      BitsOfInt(bits);
      var value := ShiftInOutVal(|bits|, IntOf(bits));
      BitsOfInt(Tdos(old(device), Low(bits)));
      var made := MakeBits(value, |bits|);
      r := Some(made);
    }
  }

  lemma {:induction false} ZeroBits(n: nat)
    ensures BitsOf(0, n) == Falses(n)
  {
    if n > 0 {
      ZeroBits(n - 1);
    }
  }

  /** A sequence of that many bits, or as many as are needed when the length is 0. */
  method MakeBits(value: nat, length: nat) returns (bits: seq<bool>)
    ensures length > 0 ==> bits == BitsOf(value, length)
    ensures length == 0 ==> IntOf(bits) == value
  {
    var b := new BitSequence();
    b.InitFromInteger(value, false, length);
    bits := b.bits;
  }

  /** The engine: it moves the device and its own shadow of the state together. */
  class JtagOCDEngine {
    const ctrl: JtagSimController
    const sm: JtagStateMachine

    constructor (c: JtagSimController)
      ensures ctrl == c && fresh(sm) && sm.current == TestLogicReset
    {
      ctrl := c;
      sm := new JtagStateMachine();
    }

    function Now(): Session
      reads sm, ctrl
    {
      Session(sm.current, ctrl.last, ctrl.device)
    }

    method Reset()
      modifies ctrl, sm
      ensures Now() == Called(old(Now()), Call.Reset)
      ensures old(DeviceOk(ctrl.device)) ==> InSync(Now())
    {
      if DeviceOk(ctrl.device) {
        ResetBringsInSync(Now());
      }
      var _ := ctrl.WriteTms([true, true, true, true, true], false);
      sm.Reset();
    }

    /** Takes both to a state, by the events of a shortest path. */
    method ChangeState(target: TapState)
      modifies ctrl, sm
      ensures Now() == Changed(old(Now()), target)
      ensures old(InSync(Now())) ==> InSync(Now()) && sm.current == target
    {
      EventsReach(sm.current, target);
      if sm.current == ctrl.device.state && DeviceOk(ctrl.device) {
        ChangeTracks(Now(), target);
      }
      var path := sm.FindPath(target);
      var r := sm.GetEvents(path);
      var events := r.value;
      assert events == EventsTo(old(sm.current), target);
      var _ := ctrl.WriteTms(events, false);
      sm.HandleEvents(events);
    }

    method GoIdle()
      modifies ctrl, sm
      ensures Now() == Changed(old(Now()), RunTestIdle)
      ensures old(InSync(Now())) ==> InSync(Now()) && sm.current == RunTestIdle
    {
      ChangeState(RunTestIdle);
    }

    method CaptureIR()
      modifies ctrl, sm
      ensures Now() == Changed(old(Now()), TapState.CaptureIR)
      ensures old(InSync(Now())) ==> InSync(Now()) && sm.current == TapState.CaptureIR
    {
      ChangeState(TapState.CaptureIR);
    }

    method CaptureDR()
      modifies ctrl, sm
      ensures Now() == Changed(old(Now()), TapState.CaptureDR)
      ensures old(InSync(Now())) ==> InSync(Now()) && sm.current == TapState.CaptureDR
    {
      ChangeState(TapState.CaptureDR);
    }

    /** As many bits as the instruction register is long are what it has latched. */
    method WriteIR(instruction: seq<bool>) returns (ok: bool)
      requires InSync(Now())
      modifies ctrl, sm
      ensures ok <==> instruction != []
      ensures Now() == WroteRegister(old(Now()), true, instruction)
      ensures InSync(Now()) && (ok ==> sm.current == UpdateIR)
      ensures ok && |instruction| == |old(ctrl.device.ir.stage)| ==> ctrl.device.ir.latch == instruction
    {
      ok := WriteRegister(true, instruction);
    }

    method WriteDR(data: seq<bool>) returns (ok: bool)
      requires InSync(Now())
      modifies ctrl, sm
      ensures ok <==> data != []
      ensures Now() == WroteRegister(old(Now()), false, data)
      ensures InSync(Now()) && (ok ==> sm.current == UpdateDR)
      ensures ok && |data| == |old(ctrl.device.dr.stage)| ==> ctrl.device.dr.latch == data
    {
      ok := WriteRegister(false, data);
    }

    method WriteRegister(ir: bool, bits: seq<bool>) returns (ok: bool)
      requires InSync(Now())
      modifies ctrl, sm
      ensures ok <==> bits != []
      ensures Now() == WroteRegister(old(Now()), ir, bits)
      ensures InSync(Now()) && (ok ==> sm.current == UpdateState(ir))
      ensures ok && |bits| == |old(Reg(ctrl.device, ir).stage)| ==> Reg(ctrl.device, ir).latch == bits
    {
      ghost var h := Now();
      CallTracks(h, Call.WriteRegister(ir, bits));
      if bits != [] {
        WriteReaches(h, ir, bits);
      }
      ChangeState(ShiftState(ir));
      ok := ctrl.Write(bits, true);
      if ok {
        ChangeState(UpdateState(ir));
      }
    }

    /** Returns the captured inputs, as many bits as are asked for. */
    method ReadDR(length: nat) returns (data: seq<bool>)
      requires InSync(Now())
      modifies ctrl, sm
      ensures Now() == ReadRegister(old(Now()), length)
      ensures InSync(Now()) && sm.current == UpdateDR
      ensures 0 < length <= |old(ctrl.device.dr.stage)| ==> data == Found(old(Now()))[..length]
    {
      hide Run, Tdos, Found, Low, EventsTo, Falses;
      ghost var h := Now();
      ReadReturnsRegister(h, length);
      FirstOnes(h, length);
      ChangeState(ShiftDR);
      data := ctrl.Read(length);
      ChangeState(UpdateDR);
    }

    /** Returns what the register held, and leaves the bits in it. */
    method ReadWriteDR(out: seq<bool>) returns (r: Option<nat>)
      requires InSync(Now())
      modifies ctrl, sm
      ensures r.Some? <==> out != []
      ensures Now() == ReadWrote(old(Now()), out) && InSync(Now())
      ensures r.Some? ==> r.value == IntOf((Found(old(Now())) + out)[..|out|])
      ensures |out| == |old(ctrl.device.dr.stage)| ==> r == Some(IntOf(Found(old(Now())))) && ctrl.device.dr.latch == out
    {
      hide Found, IntOf, Tracks, Called;
      ghost var h := Now();
      CallTracks(h, Call.ReadWriteDR(out));
      if out != [] {
        ReadWriteReturnsRegister(h, out);
      }
      ChangeState(ShiftDR);
      var read := ctrl.WriteRead(out, true);
      if read.None? {
        return None;
      }
      var data := BitsToInt(read.value);
      var events := [true, true];
      var tdo := ctrl.WriteTms(events, true);
      sm.HandleEvents(events);
      r := Some(data + Bit(tdo) * Pow2(|out| - 1));
    }

    /** Shifts on from a capture or shift state, and returns what the register held before and then the
        first of the bits sent; from `exit_2`, one bit later. */
    method ShiftRegister(out: seq<bool>) returns (r: Option<seq<bool>>)
      requires InSync(Now())
      modifies ctrl, sm
      ensures r.Some? <==> IsShift(old(sm.current))
      ensures r.Some? && out == [] ==> IntOf(r.value) == 0
      ensures old(sm.current).ShiftDR? && out != [] ==> r == Some((old(ctrl.device).dr.stage + out)[..|out|])
      ensures old(sm.current).ShiftIR? && out != [] ==> r == Some((old(ctrl.device).ir.stage + out)[..|out|])
      ensures old(sm.current).CaptureDR? && out != [] ==> r == Some((old(ctrl.device).dr.inputs + out)[..|out|])
      ensures old(sm.current).CaptureIR? && out != [] ==> r == Some((old(ctrl.device).ir.inputs + out)[..|out|])
      ensures old(sm.current).Exit2DR? && out != [] ==>
        r == Some([old(ctrl.device).undriven] + (old(ctrl.device).dr.stage + out[1..])[..|out| - 1])
      ensures old(sm.current).Exit2IR? && out != [] ==>
        r == Some([old(ctrl.device).undriven] + (old(ctrl.device).ir.stage + out[1..])[..|out| - 1])
      ensures Now() == Shifted(old(Now()), out)
      ensures InSync(Now()) <==> Tracks(old(sm.current), Call.ShiftRegister(out))
    {
      ShiftTracks(Now(), out);
      if !IsShift(sm.current) {
        return None;
      }
      if out != [] {
        ShiftReturns(Now(), out);
      }
      if IsCapture(sm.current) {
        var _ := ctrl.WriteTms([false], false);
        sm.HandleEvents([false]);
      }
      r := ctrl.WriteRead(out, false);
    }
  }

  /** What comes back, state by state. */
  lemma ShiftReturns(h: Session, out: seq<bool>)
    requires InSync(h) && out != []
    ensures h.current == ShiftDR ==> Tdos(ShiftsFrom(h), Low(out)) == (h.device.dr.stage + out)[..|out|]
    ensures h.current == ShiftIR ==> Tdos(ShiftsFrom(h), Low(out)) == (h.device.ir.stage + out)[..|out|]
    ensures h.current == CaptureDR ==> Tdos(ShiftsFrom(h), Low(out)) == (h.device.dr.inputs + out)[..|out|]
    ensures h.current == CaptureIR ==> Tdos(ShiftsFrom(h), Low(out)) == (h.device.ir.inputs + out)[..|out|]
    ensures h.current == Exit2DR ==> Tdos(ShiftsFrom(h), Low(out)) == [h.device.undriven] + (h.device.dr.stage + out[1..])[..|out| - 1]
    ensures h.current == Exit2IR ==> Tdos(ShiftsFrom(h), Low(out)) == [h.device.undriven] + (h.device.ir.stage + out[1..])[..|out| - 1]
  {
    hide ShiftsFrom, Tdos, Low;
    match h.current
    case ShiftDR => ShiftRegisterReturns(h, false, out);
    case ShiftIR => ShiftRegisterReturns(h, true, out);
    case CaptureDR => CaptureReturns(h, false, out);
    case CaptureIR => CaptureReturns(h, true, out);
    case Exit2DR => ExitReturns(h, false, out);
    case Exit2IR => ExitReturns(h, true, out);
    case _ =>
  }

  lemma FirstOnes(h: Session, length: nat)
    requires InSync(h)
    ensures length <= |h.device.dr.stage| ==> (Found(h) + Falses(length))[..length] == Found(h)[..length]
    ensures |Found(h)| == |h.device.dr.stage|
  {
  }

  method BitsToInt(bits: seq<bool>) returns (value: nat)
    ensures value == IntOf(bits)
  {
    var b := new BitSequence();
    b.bits := bits;
    value := b.ToInt();
  }
}
