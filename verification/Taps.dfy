/**
  The TAP controller of section 6.1 of IEEE Std 1149.1: its sixteen states, the
  registers it shifts, and what clocks do to them. The host keeps a shadow of
  the state.
 */
module Taps {
  import opened Basics
  import opened StateMachines

  datatype TapState =
    | TestLogicReset | RunTestIdle
    | SelectDR | CaptureDR | ShiftDR | Exit1DR | PauseDR | Exit2DR | UpdateDR
    | SelectIR | CaptureIR | ShiftIR | Exit1IR | PauseIR | Exit2IR | UpdateIR

  function ExitsOf(s: TapState): Exits<TapState> {
    match s
    case TestLogicReset => Exits(RunTestIdle, TestLogicReset)
    case RunTestIdle => Exits(RunTestIdle, SelectDR)
    case SelectDR => Exits(CaptureDR, SelectIR)
    case CaptureDR => Exits(ShiftDR, Exit1DR)
    case ShiftDR => Exits(ShiftDR, Exit1DR)
    case Exit1DR => Exits(PauseDR, UpdateDR)
    case PauseDR => Exits(PauseDR, Exit2DR)
    case Exit2DR => Exits(ShiftDR, UpdateDR)
    case UpdateDR => Exits(RunTestIdle, SelectDR)
    case SelectIR => Exits(CaptureIR, TestLogicReset)
    case CaptureIR => Exits(ShiftIR, Exit1IR)
    case ShiftIR => Exits(ShiftIR, Exit1IR)
    case Exit1IR => Exits(PauseIR, UpdateIR)
    case PauseIR => Exits(PauseIR, Exit2IR)
    case Exit2IR => Exits(ShiftIR, UpdateIR)
    case UpdateIR => Exits(RunTestIdle, SelectDR)
  }

  function Tap(): StateMachine<TapState> {
    map s: TapState | true :: ExitsOf(s)
  }

  /** The modes a state is listed under. */
  predicate IsShift(s: TapState) {
    s in {CaptureDR, ShiftDR, Exit2DR, CaptureIR, ShiftIR, Exit2IR}
  }

  predicate IsCapture(s: TapState) {
    s in {CaptureDR, CaptureIR}
  }

  lemma TapIsClosed()
    ensures Closed(Tap()) && AllExitsDiffer(Tap()) && forall s: TapState :: s in Tap()
  {
  }

  function After(s: TapState, tms: seq<bool>): TapState
    decreases |tms|
  {
    if tms == [] then s else After(Next(Tap(), s, tms[0]), tms[1..])
  }

  lemma {:induction false} AfterIsHandled(s: TapState, tms: seq<bool>)
    ensures Closed(Tap()) && After(s, tms) == HandleEvents(Tap(), s, tms)
    decreases |tms|
  {
    TapIsClosed();
    if tms != [] {
      AfterIsHandled(Next(Tap(), s, tms[0]), tms[1..]);
    }
  }

  /** ----- the device ----- */

  /** What a shift register holds, what it captures, and what was last updated from it. */
  datatype Register = Register(stage: seq<bool>, inputs: seq<bool>, latch: seq<bool>)

  datatype Device = Device(state: TapState, dr: Register, ir: Register, undriven: bool)

  datatype Tick = Tick(tms: bool, tdi: bool)

  predicate DeviceOk(d: Device) {
    && 0 < |d.dr.stage| == |d.dr.inputs|
    && 0 < |d.ir.stage| == |d.ir.inputs|
  }

  function Clocked(r: Register, captures: bool, shifts: bool, updates: bool, tdi: bool): Register {
    var stage := if captures then r.inputs else if shifts && r.stage != [] then r.stage[1..] + [tdi] else r.stage;
    Register(stage, r.inputs, if updates then stage else r.latch)
  }

  /** One clock: the register of the state captures or shifts, and on entry to an update state it is latched. */
  function Clock(d: Device, t: Tick): Device {
    var next := Next(Tap(), d.state, t.tms);
    d.(state := next,
       dr := Clocked(d.dr, d.state == CaptureDR, d.state == ShiftDR, next == UpdateDR, t.tdi),
       ir := Clocked(d.ir, d.state == CaptureIR, d.state == ShiftIR, next == UpdateIR, t.tdi))
  }

  /** What a clock reads: the bit that is shifted out next. */
  function Tdo(d: Device): bool {
    if d.state == ShiftDR && d.dr.stage != [] then d.dr.stage[0]
    else if d.state == ShiftIR && d.ir.stage != [] then d.ir.stage[0]
    else d.undriven
  }

  function Run(d: Device, ticks: seq<Tick>): Device
    decreases |ticks|
  {
    if ticks == [] then d else Run(Clock(d, ticks[0]), ticks[1..])
  }

  function Tdos(d: Device, ticks: seq<Tick>): (r: seq<bool>)
    ensures |r| == |ticks|
    decreases |ticks|
  {
    if ticks == [] then [] else [Tdo(d)] + Tdos(Clock(d, ticks[0]), ticks[1..])
  }

  function TmsOf(ticks: seq<Tick>): (r: seq<bool>)
    ensures |r| == |ticks|
  {
    seq(|ticks|, k requires 0 <= k < |ticks| => ticks[k].tms)
  }

  lemma {:induction false} RunInTurn(d: Device, a: seq<Tick>, b: seq<Tick>)
    ensures Run(d, a + b) == Run(Run(d, a), b)
    ensures Tdos(d, a + b) == Tdos(d, a) + Tdos(Run(d, a), b)
    decreases |a|
  {
    hide Clock, Tdo;
    if a == [] {
      assert a + b == b;
    } else {
      assert (a + b)[1..] == a[1..] + b && (a + b)[0] == a[0];
      RunInTurn(Clock(d, a[0]), a[1..], b);
    }
  }

  /** Where the device is depends on TMS alone. */
  lemma {:induction false} StateFollowsTms(d: Device, ticks: seq<Tick>)
    ensures Run(d, ticks).state == After(d.state, TmsOf(ticks))
    decreases |ticks|
  {
    if ticks != [] {
      StateFollowsTms(Clock(d, ticks[0]), ticks[1..]);
      assert TmsOf(ticks)[1..] == TmsOf(ticks[1..]);
    }
  }

  lemma {:induction false} RunKeepsDeviceOk(d: Device, ticks: seq<Tick>)
    requires DeviceOk(d)
    ensures var e := Run(d, ticks);
      && DeviceOk(e) && |e.dr.stage| == |d.dr.stage| && |e.ir.stage| == |d.ir.stage|
      && e.dr.inputs == d.dr.inputs && e.ir.inputs == d.ir.inputs && e.undriven == d.undriven
    decreases |ticks|
  {
    if ticks != [] {
      RunKeepsDeviceOk(Clock(d, ticks[0]), ticks[1..]);
    }
  }

  /** From any state, five clocks with TMS high reset the controller. */
  lemma FiveHighReset(s: TapState)
    ensures After(s, [true, true, true, true, true]) == TestLogicReset
  {
    var a := Next(Tap(), s, true);
    var b := Next(Tap(), a, true);
    var c := Next(Tap(), b, true);
    var d := Next(Tap(), c, true);
    assert After(s, [true, true, true, true, true]) == After(a, [true, true, true, true]);
    assert After(a, [true, true, true, true]) == After(b, [true, true, true]);
    assert After(b, [true, true, true]) == After(c, [true, true]);
    assert After(c, [true, true]) == After(d, [true]);
    assert After(d, [true]) == Next(Tap(), d, true);
  }

  /** Clocks with TMS low and the given bits on TDI. */
  function Low(bits: seq<bool>): (r: seq<Tick>)
    ensures |r| == |bits|
  {
    seq(|bits|, k requires 0 <= k < |bits| => Tick(false, bits[k]))
  }

  function ShiftState(ir: bool): TapState {
    if ir then ShiftIR else ShiftDR
  }

  function Reg(d: Device, ir: bool): Register {
    if ir then d.ir else d.dr
  }

  function WithStage(d: Device, ir: bool, stage: seq<bool>): Device {
    if ir then d.(ir := d.ir.(stage := stage)) else d.(dr := d.dr.(stage := stage))
  }

  lemma OneShift(d: Device, ir: bool, bit: bool)
    requires DeviceOk(d) && d.state == ShiftState(ir)
    ensures Clock(d, Tick(false, bit)) == WithStage(d, ir, Reg(d, ir).stage[1..] + [bit])
    ensures Tdo(d) == Reg(d, ir).stage[0]
  {
  }

  lemma ThroughInTurn(stage: seq<bool>, bits: seq<bool>)
    requires stage != [] && bits != []
    ensures var next, n := stage[1..] + [bits[0]] + bits[1..], |bits|;
      && (stage + bits)[..n] == [stage[0]] + next[..n - 1]
      && (stage + bits)[n..] == next[n - 1..]
  {
    assert stage[1..] + [bits[0]] + bits[1..] == (stage + bits)[1..];
  }

  /**
    Bits shifted through a register: it gives up what was in front, and keeps
    what comes last.
   */
  lemma {:induction false} ShiftedThrough(d: Device, ir: bool, bits: seq<bool>)
    requires DeviceOk(d) && d.state == ShiftState(ir)
    ensures Tdos(d, Low(bits)) == (Reg(d, ir).stage + bits)[..|bits|]
    ensures Run(d, Low(bits)) == WithStage(d, ir, (Reg(d, ir).stage + bits)[|bits|..])
    decreases |bits|
  {
    hide Clock, Tdo;
    assert Low([]) == [];
    if bits != [] {
      var e := Clock(d, Tick(false, bits[0]));
      OneShift(d, ir, bits[0]);
      assert Low(bits)[1..] == Low(bits[1..]) && Low(bits)[0] == Tick(false, bits[0]);
      ShiftedThrough(e, ir, bits[1..]);
      ThroughInTurn(Reg(d, ir).stage, bits);
    } else {
      assert (Reg(d, ir).stage + bits)[|bits|..] == Reg(d, ir).stage;
    }
  }

  /** Where zeros on TMS lead back to the state they started from. */
  predicate StaysOnLow(s: TapState) {
    ExitsOf(s).low == s
  }

  lemma {:induction false} LowStays(s: TapState, n: nat)
    ensures After(s, seq(n, _ => false)) == s <==> n == 0 || StaysOnLow(s)
  {
    if n > 0 {
      assert seq(n, _ => false)[1..] == seq(n - 1, _ => false);
      LowSettles(ExitsOf(s).low, n - 1);
      LowStays(s, n - 1);
    }
  }

  /** Zeros move on and never come back. */
  lemma {:induction false} LowSettles(s: TapState, n: nat)
    ensures !StaysOnLow(s) && n > 0 ==> After(s, seq(n, _ => false)) in Below(s)
    ensures StaysOnLow(s) || n == 0 ==> After(s, seq(n, _ => false)) == s
    decreases n
  {
    if n > 0 {
      assert seq(n, _ => false)[1..] == seq(n - 1, _ => false);
      LowSettles(ExitsOf(s).low, n - 1);
    }
  }

  function Below(s: TapState): set<TapState> {
    match s
    case TestLogicReset => {RunTestIdle}
    case UpdateDR => {RunTestIdle}
    case UpdateIR => {RunTestIdle}
    case SelectDR => {CaptureDR, ShiftDR}
    case SelectIR => {CaptureIR, ShiftIR}
    case CaptureDR => {ShiftDR}
    case Exit2DR => {ShiftDR}
    case CaptureIR => {ShiftIR}
    case Exit2IR => {ShiftIR}
    case Exit1DR => {PauseDR}
    case Exit1IR => {PauseIR}
    case _ => {}
  }

  /** The host's shadow of the controller, whose methods change it in place. */
  class JtagStateMachine {
    var current: TapState

    constructor ()
      ensures current == TestLogicReset
    {
      current := TestLogicReset;
    }

    method Reset()
      modifies this
      ensures current == TestLogicReset
    {
      current := TestLogicReset;
    }

    /**
      A shortest path from the current state: it is a walk to the target without
      a repeated state, and no walk to the target is shorter. None is returned
      exactly when there is none.
     */
    method FindPath(target: TapState) returns (path: seq<TapState>)
      ensures path != [] ==> Simple(path) && WalkFromTo(Tap(), path, current, target)
      ensures forall w :: WalkFromTo(Tap(), w, current, target) ==> path != [] && |path| <= |w|
      ensures Closed(Tap()) && path == StateMachines.FindPath(Tap(), current, target)
    {
      TapIsClosed();
      path := StateMachines.FindPath(Tap(), current, target);
      forall w | WalkFromTo(Tap(), w, current, target)
        ensures path != [] && |path| <= |w|
      {
        FoundPathIsShortest(Tap(), current, target, w);
      }
    }

    method GetEvents(path: seq<TapState>) returns (r: Option<seq<bool>>)
      ensures (forall s :: s in path ==> s in Tap()) && r == StateMachines.GetEvents(Tap(), path)
    {
      TapIsClosed();
      var events := [];
      if path == [] {
        return None;
      }
      assert path[..1] == [path[0]];
      for k := 0 to |path| - 1
        invariant events == Along(Tap(), path[..k + 1])
      {
        ghost var was := events;
        var x := ExitsOf(path[k]);
        for e := 0 to 2
          invariant events == was + (if e > 0 && x.low == path[k + 1] then [false] else []) + (if e > 1 && x.high == path[k + 1] then [true] else [])
        {
          if (if e == 0 then x.low else x.high) == path[k + 1] {
            events := events + [e == 1];
          }
        }
        assert path[..k + 2][..k + 1] == path[..k + 1];
      }
      assert path[..|path|] == path;
      r := if |events| != |path| - 1 then None else Some(events);
    }

    method HandleEvents(events: seq<bool>)
      modifies this
      ensures current == After(old(current), events)
    {
      for k := 0 to |events|
        invariant After(current, events[k..]) == After(old(current), events)
      {
        assert events[k..][1..] == events[k + 1..];
        current := Next(Tap(), current, events[k]);
      }
    }
  }
}
