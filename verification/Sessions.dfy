/**
  What the engine and the bit-bang transport do to the device, as functions:
  the shadow state, the deferred last bit, and the device itself. No sequence of
  engine calls makes the shadow and the device differ, and what goes through the
  data register comes back.
 */
module Sessions {
  import opened Basics
  import opened StateMachines
  import opened Bits
  import opened Taps
  import opened TapPaths

  datatype Session = Session(current: TapState, last: Option<bool>, device: Device)

  ghost predicate InSync(h: Session) {
    h.current == h.device.state && DeviceOk(h.device)
  }

  /** The clocks that carry events: the deferred bit goes with the first of them. */
  function TmsTicks(last: Option<bool>, tms: seq<bool>): (r: seq<Tick>)
    ensures |r| == |tms| && TmsOf(r) == tms
  {
    seq(|tms|, k requires 0 <= k < |tms| => Tick(tms[k], k == 0 && last == Some(true)))
  }

  function TmsWritten(h: Session, tms: seq<bool>): Session {
    h.(last := if tms == [] then h.last else None, device := Run(h.device, TmsTicks(h.last, tms)))
  }

  /** The last bit of a sequence is held back when it is to go with the next event. */
  function Written(h: Session, bits: seq<bool>, useLast: bool): Session {
    if !useLast then h.(device := Run(h.device, Low(bits)))
    else if bits == [] then h
    else h.(last := Some(bits[|bits| - 1]), device := Run(h.device, Low(bits[..|bits| - 1])))
  }

  function Handled(h: Session, events: seq<bool>): Session {
    var r := TmsWritten(h, events);
    r.(current := After(h.current, events))
  }

  function Changed(h: Session, target: TapState): Session {
    Handled(h, EventsTo(h.current, target))
  }

  function WroteRegister(h: Session, ir: bool, bits: seq<bool>): Session {
    var a := Changed(h, ShiftState(ir));
    if bits == [] then a else Changed(Written(a, bits, true), UpdateState(ir))
  }

  function ReadRegister(h: Session, length: nat): Session {
    var a := Changed(h, ShiftDR);
    Changed(Written(a, Falses(length), false), UpdateDR)
  }

  function ReadWrote(h: Session, out: seq<bool>): Session {
    var a := Changed(h, ShiftDR);
    if out == [] then a else Handled(Written(a, out, true), [true, true])
  }

  /** The bits clocked out, and the one that goes out with the first event after them. */
  function ReadWriteData(h: Session, out: seq<bool>): nat
    requires out != []
  {
    var a, n := Changed(h, ShiftDR), |out|;
    IntOf(Tdos(a.device, Low(out[..n - 1]))) + Bit(Tdo(Written(a, out, true).device)) * Pow2(n - 1)
  }

  function Shifted(h: Session, out: seq<bool>): Session {
    if !IsShift(h.current) then h
    else Written(if IsCapture(h.current) then Handled(h, [false]) else h, out, false)
  }

  function UpdateState(ir: bool): TapState {
    if ir then UpdateIR else UpdateDR
  }

  /** ----- the shadow state ----- */

  datatype Call =
    | Reset
    | ChangeState(target: TapState)
    | WriteRegister(ir: bool, bits: seq<bool>)
    | ReadDR(length: nat)
    | ReadWriteDR(bits: seq<bool>)
    | ShiftRegister(bits: seq<bool>)
    | WriteTms(bits: seq<bool>)
    | Write(bits: seq<bool>, useLast: bool)
    | Read(length: nat)

  function Called(h: Session, c: Call): Session {
    match c
    case Reset => TmsWritten(h, [true, true, true, true, true]).(current := TestLogicReset)
    case ChangeState(target) => Changed(h, target)
    case WriteRegister(ir, bits) => WroteRegister(h, ir, bits)
    case ReadDR(length) => ReadRegister(h, length)
    case ReadWriteDR(bits) => ReadWrote(h, bits)
    case ShiftRegister(bits) => Shifted(h, bits)
    case WriteTms(bits) => TmsWritten(h, bits)
    case Write(bits, useLast) => Written(h, bits, useLast)
    case Read(length) => Written(h, Falses(length), false)
  }

  function AllCalled(h: Session, calls: seq<Call>): Session
    decreases |calls|
  {
    if calls == [] then h else AllCalled(Called(h, calls[0]), calls[1..])
  }

  /** Whether a call keeps the shadow with the device: the raw calls do where their clocks lead back. */
  predicate Tracks(s: TapState, c: Call) {
    match c
    case ShiftRegister(bits) => bits == [] || !(s.Exit2DR? || s.Exit2IR?)
    case WriteTms(bits) => After(s, bits) == s
    case Write(bits, useLast) => StaysOnLow(s) || |bits| == 0 || (useLast && |bits| == 1)
    case Read(length) => StaysOnLow(s) || length == 0
    case _ => true
  }

  lemma LowTms(bits: seq<bool>)
    ensures TmsOf(Low(bits)) == seq(|bits|, _ => false)
  {
  }

  lemma TicksKeepTrack(h: Session, events: seq<bool>)
    requires InSync(h)
    ensures InSync(Handled(h, events))
    ensures Handled(h, events).device.dr.inputs == h.device.dr.inputs
  {
    StateFollowsTms(h.device, TmsTicks(h.last, events));
    RunKeepsDeviceOk(h.device, TmsTicks(h.last, events));
  }

  lemma WriteTracks(h: Session, bits: seq<bool>, useLast: bool)
    requires InSync(h)
    ensures InSync(Written(h, bits, useLast)) <==> StaysOnLow(h.current) || |bits| == 0 || (useLast && |bits| == 1)
    ensures Written(h, bits, useLast).current == h.current && DeviceOk(Written(h, bits, useLast).device)
  {
    if !useLast || bits != [] {
      var out := if useLast then bits[..|bits| - 1] else bits;
      StateFollowsTms(h.device, Low(out));
      RunKeepsDeviceOk(h.device, Low(out));
      LowTms(out);
      LowStays(h.current, |out|);
    }
  }

  lemma ChangeTracks(h: Session, target: TapState)
    requires InSync(h)
    ensures InSync(Changed(h, target)) && Changed(h, target).current == target
  {
    TicksKeepTrack(h, EventsTo(h.current, target));
  }

  lemma ShiftTracks(h: Session, bits: seq<bool>)
    requires InSync(h)
    ensures InSync(Shifted(h, bits)) <==> Tracks(h.current, ShiftRegister(bits))
  {
    if IsShift(h.current) {
      var a := if IsCapture(h.current) then Handled(h, [false]) else h;
      if IsCapture(h.current) {
        TicksKeepTrack(h, [false]);
        assert After(h.current, [false]) == After(ExitsOf(h.current).low, []);
      }
      WriteTracks(a, bits, false);
    }
  }

  /** A call keeps the shadow with the device exactly when it is not one of those that do not. */
  lemma CallTracks(h: Session, c: Call)
    requires InSync(h)
    ensures InSync(Called(h, c)) <==> Tracks(h.current, c)
  {
    hide EventsTo;
    match c
    case Reset =>
      FiveHighReset(h.current);
      TicksKeepTrack(h, [true, true, true, true, true]);
    case ChangeState(target) => ChangeTracks(h, target);
    case WriteRegister(ir, bits) =>
      ChangeTracks(h, ShiftState(ir));
      if bits != [] {
        var a := Changed(h, ShiftState(ir));
        WriteTracks(a, bits, true);
        ChangeTracks(Written(a, bits, true), UpdateState(ir));
      }
    case ReadDR(length) =>
      ChangeTracks(h, ShiftDR);
      var a := Changed(h, ShiftDR);
      WriteTracks(a, Falses(length), false);
      ChangeTracks(Written(a, Falses(length), false), UpdateDR);
    case ReadWriteDR(bits) =>
      ChangeTracks(h, ShiftDR);
      if bits != [] {
        var a := Changed(h, ShiftDR);
        WriteTracks(a, bits, true);
        TicksKeepTrack(Written(a, bits, true), [true, true]);
      }
    case ShiftRegister(bits) => ShiftTracks(h, bits);
    case WriteTms(bits) => TicksKeepTrack(h, bits);
    case Write(bits, useLast) => WriteTracks(h, bits, useLast);
    case Read(length) => WriteTracks(h, Falses(length), false);
  }

  /** A reset brings the two together, wherever the device was. */
  lemma ResetBringsInSync(h: Session)
    requires DeviceOk(h.device)
    ensures InSync(Called(h, Reset))
  {
    FiveHighReset(h.device.state);
    StateFollowsTms(h.device, TmsTicks(h.last, [true, true, true, true, true]));
    RunKeepsDeviceOk(h.device, TmsTicks(h.last, [true, true, true, true, true]));
  }

  /** The calls of the engine itself. */
  predicate IsEngineCall(c: Call) {
    !c.ShiftRegister? && !c.WriteTms? && !c.Write? && !c.Read?
  }

  /** After any sequence of engine calls the shadow is the state of the device. */
  lemma {:induction false} HostNeverLosesTrack(h: Session, calls: seq<Call>)
    requires InSync(h) && forall k :: 0 <= k < |calls| ==> IsEngineCall(calls[k])
    ensures InSync(AllCalled(h, calls))
    decreases |calls|
  {
    if calls != [] {
      assert IsEngineCall(calls[0]);
      CallTracks(h, calls[0]);
      HostNeverLosesTrack(Called(h, calls[0]), calls[1..]);
    }
  }

  /** The one engine call that goes by the shadow alone and shifts where the device does not. */
  lemma ShiftRegisterLosesTrack(h: Session)
    requires InSync(h) && h.current == Exit2DR
    ensures Shifted(h, [true]).current == Exit2DR && Shifted(h, [true]).device.state == ShiftDR
  {
    assert Low([true]) == [Tick(false, true)];
    assert Run(h.device, [Tick(false, true)]) == Clock(h.device, Tick(false, true));
  }

  /** ----- what the registers hold ----- */

  /** Where `shift_register` starts: the clock that leaves a capture state is sent before the bits. */
  function ShiftsFrom(h: Session): Device {
    if IsCapture(h.current) then Run(h.device, TmsTicks(h.last, [false])) else h.device
  }

  /** From a shift state, bits come back that the register held, then the first ones of those sent;
      what is left in it are the last ones. */
  lemma ShiftRegisterReturns(h: Session, ir: bool, out: seq<bool>)
    requires InSync(h) && h.current == ShiftState(ir)
    ensures var stage := Reg(h.device, ir).stage;
      && Tdos(ShiftsFrom(h), Low(out)) == (stage + out)[..|out|]
      && Reg(Shifted(h, out).device, ir).stage == (stage + out)[|out|..]
  {
    ShiftedThrough(h.device, ir, out);
  }

  /** From a capture state, the register has taken its inputs before. */
  lemma CaptureReturns(h: Session, ir: bool, out: seq<bool>)
    requires InSync(h) && h.current == if ir then CaptureIR else CaptureDR
    ensures var inputs := Reg(h.device, ir).inputs;
      && Tdos(ShiftsFrom(h), Low(out)) == (inputs + out)[..|out|]
      && Reg(Shifted(h, out).device, ir).stage == (inputs + out)[|out|..]
  {
    var ticks := TmsTicks(h.last, [false]);
    assert ticks == [ticks[0]];
    var d := Clock(h.device, ticks[0]);
    assert Run(h.device, ticks) == Run(d, []) == d;
    assert After(h.current, [false]) == After(ShiftState(ir), []);
    RunKeepsDeviceOk(h.device, ticks);
    ShiftedThrough(d, ir, out);
  }

  /** From `exit_2`, the first clock only leads back to the shift state: the first bit sent is lost,
      and what comes back first is what an idle output reads. */
  lemma ExitReturns(h: Session, ir: bool, out: seq<bool>)
    requires InSync(h) && (h.current == if ir then Exit2IR else Exit2DR) && out != []
    ensures var stage, rest := Reg(h.device, ir).stage, out[1..];
      && Tdos(ShiftsFrom(h), Low(out)) == [h.device.undriven] + (stage + rest)[..|rest|]
      && Reg(Shifted(h, out).device, ir).stage == (stage + rest)[|rest|..]
  {
    var d := Clock(h.device, Tick(false, out[0]));
    assert Low(out)[0] == Tick(false, out[0]) && Low(out)[1..] == Low(out[1..]);
    ShiftedThrough(d, ir, out[1..]);
  }

  /** What the data register holds when shifting starts. */
  function Found(h: Session): seq<bool> {
    if Resumes(h.current) then h.device.dr.stage else h.device.dr.inputs
  }

  lemma ShiftFinds(h: Session)
    requires InSync(h)
    ensures InSync(Changed(h, ShiftDR)) && Changed(h, ShiftDR).current == ShiftDR
    ensures Changed(h, ShiftDR).device.dr.stage == Found(h) && Found(h) != []
  {
    ChangeTracks(h, ShiftDR);
    EnteringShift(h.device, TmsTicks(h.last, EventsTo(h.current, ShiftDR)));
  }

  lemma TwoEvents(s: TapState, e: bool, f: bool)
    ensures After(s, [e, f]) == Next(Tap(), Next(Tap(), s, e), f)
  {
    assert [e, f][1..] == [f] && [f][1..] == [];
    assert After(Next(Tap(), s, e), [f]) == After(Next(Tap(), Next(Tap(), s, e), f), []);
  }

  lemma TwoTicks(d: Device, t: Tick, u: Tick)
    ensures Run(d, [t, u]) == Clock(Clock(d, t), u)
  {
    hide Clock;
    assert [t, u][1..] == [u] && [u][1..] == [];
    assert Run(Clock(d, t), [u]) == Run(Clock(Clock(d, t), u), []);
  }

  lemma UpdateEvents(ir: bool)
    ensures EventsTo(ShiftState(ir), UpdateState(ir)) == [true, true]
  {
    hide EventsTo, After;
    var s, events := ShiftState(ir), EventsTo(ShiftState(ir), UpdateState(ir));
    assert Distance(s, UpdateState(ir)) == 2;
    assert events == [events[0], events[1]];
    TwoEvents(s, events[0], events[1]);
  }

  /** Two events with TMS high end a shift: the bit that goes with the first is shifted in, and the register is latched. */
  lemma ShiftEnds(d: Device, ir: bool, last: Option<bool>)
    requires DeviceOk(d) && d.state == ShiftState(ir)
    ensures
      var e := Run(d, TmsTicks(last, [true, true]));
      var stage := Reg(d, ir).stage[1..] + [last == Some(true)];
      && Reg(e, ir).stage == stage && Reg(e, ir).latch == stage && e.state == UpdateState(ir)
  {
    var ticks := [Tick(true, last == Some(true)), Tick(true, false)];
    assert TmsTicks(last, [true, true]) == ticks;
    TwoTicks(d, ticks[0], ticks[1]);
  }

  /** All the bits, with the last one going out on the way to the update, have gone through the register. */
  lemma ThroughAndOut(h: Session, ir: bool, bits: seq<bool>)
    requires InSync(h) && h.current == ShiftState(ir) && bits != []
    ensures
      var stage := Reg(h.device, ir).stage;
      var b := Written(h, bits, true);
      var e := Handled(b, [true, true]);
      && Reg(e.device, ir).stage == Reg(e.device, ir).latch == (stage + bits)[|bits|..]
      && e.current == UpdateState(ir) && e.last == None
      && Tdos(h.device, Low(bits[..|bits| - 1])) + [Tdo(b.device)] == (stage + bits)[..|bits|]
  {
    hide Tdos, Run, After, Low;
    var n := |bits|;
    var stage := Reg(h.device, ir).stage;
    var first, last := bits[..n - 1], bits[n - 1];
    ShiftedThrough(h.device, ir, first);
    var b := Written(h, bits, true);
    LastThrough(stage, first, last);
    assert bits == first + [last];
    ShiftEnds(b.device, ir, b.last);
    EndOfShift(ir);
  }

  lemma LastThrough(stage: seq<bool>, first: seq<bool>, last: bool)
    requires stage != []
    ensures
      var bits, left := first + [last], (stage + first)[|first|..];
      && left != []
      && (stage + bits)[|bits|..] == left[1..] + [last]
      && (stage + bits)[..|bits|] == (stage + first)[..|first|] + [left[0]]
  {
  }

  lemma EndOfShift(ir: bool)
    ensures After(ShiftState(ir), [true, true]) == UpdateState(ir)
  {
    UpdateEvents(ir);
  }

  /**
    Writing a register of any length pushes the bits through it; as many bits as
    it is long are what it holds and has latched.
   */
  lemma WriteReaches(h: Session, ir: bool, bits: seq<bool>)
    requires InSync(h) && bits != []
    ensures
      var a, e := Changed(h, ShiftState(ir)), WroteRegister(h, ir, bits);
      && Reg(e.device, ir).stage == Reg(e.device, ir).latch == (Reg(a.device, ir).stage + bits)[|bits|..]
      && (|bits| == |Reg(h.device, ir).stage| ==> Reg(e.device, ir).latch == bits)
      && e.current == UpdateState(ir) && e.last == None
  {
    hide EventsTo, TmsTicks, Written;
    ChangeTracks(h, ShiftState(ir));
    var a := Changed(h, ShiftState(ir));
    RunKeepsDeviceOk(h.device, TmsTicks(h.last, EventsTo(h.current, ShiftState(ir))));
    UpdateEvents(ir);
    WriteTracks(a, bits, true);
    ThroughAndOut(a, ir, bits);
  }

  /**
    For a register of n bits, reading and writing n bits returns what it held,
    which are the captured inputs unless shifting was resumed, and leaves the
    bits in it. Any other number of bits goes through in the same way.
   */
  lemma ReadWriteReturnsRegister(h: Session, out: seq<bool>)
    requires InSync(h) && out != []
    ensures
      var e := ReadWrote(h, out);
      && ReadWriteData(h, out) == IntOf((Found(h) + out)[..|out|])
      && e.device.dr.stage == e.device.dr.latch == (Found(h) + out)[|out|..]
      && InSync(e) && e.current == UpdateDR && e.last == None
      && (|out| == |h.device.dr.stage| ==> ReadWriteData(h, out) == IntOf(Found(h)) && e.device.dr.latch == out)
  {
    hide EventsTo, Written, Changed, Handled, Tdos, Run;
    ShiftFinds(h);
    var a := Changed(h, ShiftDR);
    CallTracks(h, ReadWriteDR(out));
    ThroughAndOut(a, false, out);
    IntOfSum(Tdos(a.device, Low(out[..|out| - 1])), [Tdo(Written(a, out, true).device)]);
    OneBit(Tdo(Written(a, out, true).device));
    if |out| == |h.device.dr.stage| {
      assert (Found(h) + out)[..|out|] == Found(h) && (Found(h) + out)[|out|..] == out;
    }
  }

  lemma OneBit(b: bool)
    ensures IntOf([b]) == Bit(b)
  {
    assert [b][1..] == [];
  }

  /** Reading returns what the register holds, and shifts zeros into it: one more than were read. */
  lemma ReadReturnsRegister(h: Session, length: nat)
    requires InSync(h)
    ensures
      var a, e := Changed(h, ShiftDR), ReadRegister(h, length);
      && Tdos(a.device, Low(Falses(length))) == (Found(h) + Falses(length))[..length]
      && e.device.dr.stage == e.device.dr.latch == (Found(h) + Falses(length))[length..][1..] + [a.last == Some(true)]
      && InSync(e) && e.current == UpdateDR
  {
    hide EventsTo;
    ShiftFinds(h);
    CallTracks(h, ReadDR(length));
    var a := Changed(h, ShiftDR);
    ShiftedThrough(a.device, false, Falses(length));
    var b := Written(a, Falses(length), false);
    UpdateEvents(false);
    ShiftEnds(b.device, false, b.last);
    EndOfShift(false);
  }
}
