/**
  Packed into FTDI commands, the calls of the engine clock the device as
  bit-banging does: TMS is the same at every clock, and so is TDI at every clock
  spent shifting. The device cannot tell the two apart.
 */
module Transports {
  import opened Basics
  import opened StateMachines
  import opened Bits
  import opened Taps
  import opened TapPaths
  import opened Sessions
  import opened Mpsse

  predicate Shifting(s: TapState) {
    s.ShiftDR? || s.ShiftIR?
  }

  /** The same TMS at every clock, and the same TDI at those spent in a shift state. */
  ghost predicate Alike(s: TapState, a: seq<Tick>, b: seq<Tick>) {
    && |a| == |b|
    && (forall k {:trigger a[k]} :: 0 <= k < |a| ==> a[k].tms == b[k].tms)
    && (forall k {:trigger a[k]} :: 0 <= k < |a| && Shifting(After(s, TmsOf(a)[..k])) ==> a[k].tdi == b[k].tdi)
  }

  lemma AlikeInTurn(s: TapState, a: seq<Tick>, b: seq<Tick>, c: seq<Tick>, d: seq<Tick>)
    requires Alike(s, a, b) && Alike(After(s, TmsOf(a)), c, d)
    ensures Alike(s, a + c, b + d)
  {
    hide After;
    forall k {:trigger (a + c)[k]} | 0 <= k < |a + c| && Shifting(After(s, TmsOf(a + c)[..k]))
      ensures (a + c)[k].tdi == (b + d)[k].tdi
    {
      if k < |a| {
        assert TmsOf(a + c)[..k] == TmsOf(a)[..k];
        assert (a + c)[k] == a[k];
      } else {
        assert TmsOf(a + c)[..k] == TmsOf(a) + TmsOf(c)[..k - |a|];
        AfterInTurn(s, TmsOf(a), TmsOf(c)[..k - |a|]);
        assert (a + c)[k] == c[k - |a|];
      }
    }
  }

  /** One clock more or less. */
  lemma AlikeRest(s: TapState, a: seq<Tick>, b: seq<Tick>)
    requires Alike(s, a, b) && a != []
    ensures Shifting(s) ==> a[0].tdi == b[0].tdi
    ensures Alike(Next(Tap(), s, a[0].tms), a[1..], b[1..])
  {
    hide Shifting;
    assert TmsOf(a)[..0] == [];
    forall k {:trigger a[1..][k]} | 0 <= k < |a| - 1 && Shifting(After(Next(Tap(), s, a[0].tms), TmsOf(a[1..])[..k]))
      ensures a[1..][k].tdi == b[1..][k].tdi
    {
      assert TmsOf(a)[..k + 1][1..] == TmsOf(a[1..])[..k] && TmsOf(a)[..k + 1][0] == a[0].tms;
      assert Shifting(After(s, TmsOf(a)[..k + 1]));
      assert a[1..][k] == a[k + 1] && b[1..][k] == b[k + 1];
    }
  }

  /** Clocks that are alike take the device to the same state, with the same registers, and read the same. */
  lemma {:induction false} AlikeRuns(d: Device, a: seq<Tick>, b: seq<Tick>)
    requires Alike(d.state, a, b)
    ensures Run(d, a) == Run(d, b) && Tdos(d, a) == Tdos(d, b)
    decreases |a|
  {
    hide Alike;
    if a != [] {
      assert |b| == |a| && a[0].tms == b[0].tms by {
        LengthsAlike(d.state, a, b);
      }
      AlikeRest(d.state, a, b);
      assert Clock(d, a[0]) == Clock(d, b[0]);
      AlikeRuns(Clock(d, a[0]), a[1..], b[1..]);
    } else {
      assert b == [] by {
        LengthsAlike(d.state, a, b);
      }
    }
  }

  lemma LengthsAlike(s: TapState, a: seq<Tick>, b: seq<Tick>)
    requires Alike(s, a, b)
    ensures |a| == |b| && (a != [] ==> a[0].tms == b[0].tms)
  {
  }

  /** ----- what a transport is asked to do ----- */

  datatype Op = Events(tms: seq<bool>) | Bits(bits: seq<bool>, useLast: bool)

  function Kept(op: Op): seq<bool>
    requires op.Bits?
  {
    if op.useLast && op.bits != [] then op.bits[..|op.bits| - 1] else op.bits
  }

  function LastAfter(last: Option<bool>, op: Op): Option<bool> {
    match op
    case Events(tms) => if tms == [] then last else None
    case Bits(bits, useLast) => if useLast && bits != [] then Some(bits[|bits| - 1]) else last
  }

  function StateAfter(s: TapState, op: Op): TapState {
    if op.Events? then After(s, op.tms) else s
  }

  /** The clocks of the bit-bang transport. */
  function BangTicks(last: Option<bool>, op: Op): seq<Tick> {
    if op.Events? then TmsTicks(last, op.tms) else Low(Kept(op))
  }

  /** The commands of the FTDI transport. */
  function OpCmds(last: Option<bool>, op: Op): seq<Cmd> {
    if op.Bits? then DataCmds(Kept(op)) else if op.tms == [] then [] else [TmsCmd(op.tms, last == Some(true))]
  }

  /** A deferred bit that is set stays on TDI for all events of a command, so that no later clock may shift. */
  ghost predicate Clean(s: TapState, last: Option<bool>, tms: seq<bool>) {
    last == Some(true) ==> forall k {:trigger tms[..k]} :: 0 < k < |tms| ==> !Shifting(After(s, tms[..k]))
  }

  ghost predicate Fits(s: TapState, last: Option<bool>, op: Op) {
    match op
    case Events(tms) => |tms| < 8 && Clean(s, last, tms)
    case Bits(bits, _) => Shifting(s) && |bits| / 8 <= 65536
  }

  /** One command for some events clocks like them exactly when the deferred bit does no harm. */
  lemma EventsAlike(s: TapState, last: Option<bool>, tms: seq<bool>, pin: bool)
    ensures Alike(s, TmsTicks(last, tms), AllTicks(OpCmds(last, Events(tms)), pin)) <==> Clean(s, last, tms)
  {
    hide After;
    var a, b := TmsTicks(last, tms), AllTicks(OpCmds(last, Events(tms)), pin);
    if tms != [] {
      OneCmdTicks(TmsCmd(tms, last == Some(true)), pin);
      assert forall k {:trigger a[k]} :: 0 <= k < |tms| ==> b[k] == Tick(tms[k], last == Some(true));
      assert TmsOf(a) == tms;
      if Alike(s, a, b) && last == Some(true) {
        forall k {:trigger tms[..k]} | 0 < k < |tms|
          ensures !Shifting(After(s, tms[..k]))
        {
          assert a[k].tdi != b[k].tdi;
        }
      }
    }
  }

  /** A set bit that is held back, and an event that shifts on: the second bit shifted differs. */
  lemma LateShiftDiffers(pin: bool)
    ensures var tms := [false, true];
      !Alike(ShiftDR, TmsTicks(Some(true), tms), AllTicks(OpCmds(Some(true), Events(tms)), pin))
  {
    var tms := [false, true];
    EventsAlike(ShiftDR, Some(true), tms, pin);
    assert tms[..1] == [false] && [false][1..] == [];
    assert After(ShiftDR, [false]) == After(ShiftDR, []);
    assert !Clean(ShiftDR, Some(true), tms);
  }

  lemma PinIsLow(s: TapState, tms: seq<bool>)
    requires tms != [] && Shifting(After(s, tms))
    ensures !tms[|tms| - 1]
  {
    var n := |tms| - 1;
    assert tms == tms[..n] + [tms[n]];
    AfterInTurn(s, tms[..n], [tms[n]]);
    assert [tms[n]][1..] == [];
    var u := After(s, tms[..n]);
    assert After(u, [tms[n]]) == After(Next(Tap(), u, tms[n]), []);
  }

  /** Whatever is asked for, the two clock alike, and TMS is low again wherever bits may follow. */
  lemma OpAlike(s: TapState, last: Option<bool>, op: Op, pin: bool)
    requires Fits(s, last, op) && (Shifting(s) ==> !pin)
    ensures Alike(s, BangTicks(last, op), AllTicks(OpCmds(last, op), pin))
    ensures After(s, TmsOf(BangTicks(last, op))) == StateAfter(s, op)
    ensures Shifting(StateAfter(s, op)) ==> !AllPin(OpCmds(last, op), pin)
  {
    match op
    case Events(tms) =>
      EventsAlike(s, last, tms, pin);
      if tms != [] {
        OneCmdTicks(TmsCmd(tms, last == Some(true)), pin);
        if Shifting(After(s, tms)) {
          PinIsLow(s, tms);
        }
      }
    case Bits(_, _) =>
      DataTicks(Kept(op), pin);
      assert PinTicks(Kept(op), pin) == Low(Kept(op));
      LowTms(Kept(op));
      LowStays(s, |Kept(op)|);
  }

  /** ----- the calls of the engine ----- */

  predicate IsPacked(c: Call) {
    c.Reset? || c.ChangeState? || c.WriteRegister? || c.WriteTms? || c.Write?
  }

  /** What a call asks of its transport. */
  function OpsOf(s: TapState, c: Call): seq<Op>
    requires IsPacked(c)
  {
    match c
    case Reset => [Events([true, true, true, true, true])]
    case ChangeState(target) => [Events(EventsTo(s, target))]
    case WriteRegister(ir, bits) =>
      [Events(EventsTo(s, ShiftState(ir)))] +
      (if bits == [] then [] else [Bits(bits, true), Events(EventsTo(ShiftState(ir), UpdateState(ir)))])
    case WriteTms(bits) => [Events(bits)]
    case Write(bits, useLast) => [Bits(bits, useLast)]
  }

  function BangAll(last: Option<bool>, ops: seq<Op>): seq<Tick>
    decreases |ops|
  {
    if ops == [] then [] else BangTicks(last, ops[0]) + BangAll(LastAfter(last, ops[0]), ops[1..])
  }

  function CmdsAll(last: Option<bool>, ops: seq<Op>): seq<Cmd>
    decreases |ops|
  {
    if ops == [] then [] else OpCmds(last, ops[0]) + CmdsAll(LastAfter(last, ops[0]), ops[1..])
  }

  ghost predicate AllFit(s: TapState, last: Option<bool>, ops: seq<Op>)
    decreases |ops|
  {
    ops != [] ==> Fits(s, last, ops[0]) && AllFit(StateAfter(s, ops[0]), LastAfter(last, ops[0]), ops[1..])
  }

  function StateAfterAll(s: TapState, ops: seq<Op>): TapState
    decreases |ops|
  {
    if ops == [] then s else StateAfterAll(StateAfter(s, ops[0]), ops[1..])
  }

  function LastAfterAll(last: Option<bool>, ops: seq<Op>): Option<bool>
    decreases |ops|
  {
    if ops == [] then last else LastAfterAll(LastAfter(last, ops[0]), ops[1..])
  }

  /** Any sequence of events and bits that fits clocks alike through both transports. */
  lemma {:induction false} PackingRefinesBitBang(s: TapState, last: Option<bool>, ops: seq<Op>, pin: bool)
    requires AllFit(s, last, ops) && (Shifting(s) ==> !pin)
    ensures Alike(s, BangAll(last, ops), AllTicks(CmdsAll(last, ops), pin))
    ensures After(s, TmsOf(BangAll(last, ops))) == StateAfterAll(s, ops)
    ensures Shifting(StateAfterAll(s, ops)) ==> !AllPin(CmdsAll(last, ops), pin)
    decreases |ops|
  {
    hide Alike, Fits, StateAfter, LastAfter, BangTicks, OpCmds, Shifting, TmsOf;
    if ops == [] {
      EmptyAlike(s);
    } else {
      var op, rest := ops[0], ops[1..];
      OpAlike(s, last, op, pin);
      var cmds := OpCmds(last, op);
      PackingRefinesBitBang(StateAfter(s, op), LastAfter(last, op), rest, AllPin(cmds, pin));
      TicksInTurn(cmds, CmdsAll(LastAfter(last, op), rest), pin);
      var a, c := BangTicks(last, op), BangAll(LastAfter(last, op), rest);
      AlikeInTurn(s, a, AllTicks(cmds, pin), c, AllTicks(CmdsAll(LastAfter(last, op), rest), AllPin(cmds, pin)));
      TmsSum(a, c);
      AfterInTurn(s, TmsOf(a), TmsOf(c));
    }
  }

  lemma EmptyAlike(s: TapState)
    ensures Alike(s, [], []) && TmsOf([]) == []
  {
  }

  lemma TmsSum(a: seq<Tick>, b: seq<Tick>)
    ensures TmsOf(a + b) == TmsOf(a) + TmsOf(b)
  {
  }

  /** What a call does is what its operations do. */
  lemma CallIsItsOps(h: Session, c: Call)
    requires InSync(h) && IsPacked(c) && Tracks(h.current, c)
    ensures
      var ops := OpsOf(h.current, c);
      && Called(h, c).device == Run(h.device, BangAll(h.last, ops))
      && Called(h, c).last == LastAfterAll(h.last, ops)
      && Called(h, c).current == StateAfterAll(h.current, ops)
  {
    hide EventsTo, TmsTicks, Low, After, BangAll, LastAfterAll, StateAfterAll;
    var ops := OpsOf(h.current, c);
    CallTracks(h, c);
    match c
    case Reset =>
      FiveHighReset(h.current);
      OneOp(h, ops[0]);
    case WriteRegister(ir, bits) =>
      WriteIsItsOps(h, ir, bits);
    case ChangeState(_) =>
      OneOp(h, ops[0]);
    case WriteTms(_) =>
      OneOp(h, ops[0]);
    case Write(_, _) =>
      OneOp(h, ops[0]);
  }

  lemma WriteIsItsOps(h: Session, ir: bool, bits: seq<bool>)
    requires InSync(h)
    ensures
      var ops, e := OpsOf(h.current, WriteRegister(ir, bits)), WroteRegister(h, ir, bits);
      && e.device == Run(h.device, BangAll(h.last, ops))
      && e.last == LastAfterAll(h.last, ops)
      && e.current == StateAfterAll(h.current, ops)
  {
    hide EventsTo, TmsTicks, Low, After, BangTicks, BangAll, LastAfter, LastAfterAll, StateAfter, StateAfterAll, WroteRegister, Run;
    if bits == [] {
      var ops := OpsOf(h.current, WriteRegister(ir, bits));
      assert ops == [ops[0]];
      NothingIsItsOp(h, ir);
    } else {
      SomeAreTheirOps(h, ir, bits);
    }
  }

  lemma NothingIsItsOp(h: Session, ir: bool)
    requires InSync(h)
    ensures
      var ops, e := [Events(EventsTo(h.current, ShiftState(ir)))], WroteRegister(h, ir, []);
      && e.device == Run(h.device, BangAll(h.last, ops))
      && e.last == LastAfterAll(h.last, ops)
      && e.current == StateAfterAll(h.current, ops)
  {
    hide EventsTo, TmsTicks, Low, After, BangAll, LastAfterAll, StateAfterAll;
    ChangeTracks(h, ShiftState(ir));
    OneOp(h, Events(EventsTo(h.current, ShiftState(ir))));
  }

  lemma SomeAreTheirOps(h: Session, ir: bool, bits: seq<bool>)
    requires InSync(h) && bits != []
    ensures
      var ops, e := OpsOf(h.current, WriteRegister(ir, bits)), WroteRegister(h, ir, bits);
      && e.device == Run(h.device, BangAll(h.last, ops))
      && e.last == LastAfterAll(h.last, ops)
      && e.current == StateAfterAll(h.current, ops)
  {
    hide EventsTo, TmsTicks, Low, After, BangAll, LastAfterAll, StateAfterAll;
    var ops := OpsOf(h.current, WriteRegister(ir, bits));
    ChangeTracks(h, ShiftState(ir));
    assert ops == [ops[0], ops[1], ops[2]];
    ThreeOps(h, ops[0], ops[1], ops[2]);
  }

  lemma OneOp(h: Session, a: Op)
    ensures Run(h.device, BangAll(h.last, [a])) == Run(h.device, BangTicks(h.last, a))
    ensures LastAfterAll(h.last, [a]) == LastAfter(h.last, a)
    ensures StateAfterAll(h.current, [a]) == StateAfter(h.current, a)
  {
    hide BangTicks, LastAfter, StateAfter;
    assert [a][1..] == [];
    assert BangAll(LastAfter(h.last, a), []) == [];
    assert BangAll(h.last, [a]) == BangTicks(h.last, a) + [] == BangTicks(h.last, a);
  }

  lemma ThreeOps(h: Session, a: Op, b: Op, c: Op)
    ensures
      var last1, last2 := LastAfter(h.last, a), LastAfter(LastAfter(h.last, a), b);
      && Run(h.device, BangAll(h.last, [a, b, c])) == Run(Run(Run(h.device, BangTicks(h.last, a)), BangTicks(last1, b)), BangTicks(last2, c))
      && LastAfterAll(h.last, [a, b, c]) == LastAfter(last2, c)
      && StateAfterAll(h.current, [a, b, c]) == StateAfter(StateAfter(StateAfter(h.current, a), b), c)
  {
    hide BangTicks, LastAfter, StateAfter;
    var last1, last2 := LastAfter(h.last, a), LastAfter(LastAfter(h.last, a), b);
    assert [a, b, c][1..] == [b, c] && [b, c][1..] == [c] && [c][1..] == [];
    var x, y, z := BangTicks(h.last, a), BangTicks(last1, b), BangTicks(last2, c);
    assert BangAll(last2, [c]) == z;
    assert BangAll(last1, [b, c]) == y + z;
    RunInTurn(h.device, x, y + z);
    RunInTurn(Run(h.device, x), y, z);
    assert LastAfterAll(last2, [c]) == LastAfter(last2, c);
    assert StateAfterAll(StateAfter(StateAfter(h.current, a), b), [c]) == StateAfter(StateAfter(StateAfter(h.current, a), b), c);
  }

  /** The calls that the FTDI transport takes: no change of state that needs eight events, and
      raw events only where they lead back and do no harm. */
  ghost predicate Accepted(h: Session, c: Call) {
    match c
    case Reset => true
    case ChangeState(target) => !EightAway(h.current, target)
    case WriteRegister(_, bits) => |bits| / 8 <= 65536
    case Write(bits, _) => Shifting(h.current) && |bits| / 8 <= 65536
    case WriteTms(tms) => |tms| < 8 && Clean(h.current, h.last, tms) && Tracks(h.current, c)
    case _ => false
  }

  /** A bit is held back only while shifting. */
  ghost predicate HeldWell(h: Session) {
    h.last.Some? ==> Shifting(h.current)
  }

  lemma ChangeFits(s: TapState, last: Option<bool>, target: TapState)
    requires (last.Some? ==> Shifting(s)) && !EightAway(s, target)
    ensures Fits(s, last, Events(EventsTo(s, target)))
    ensures StateAfter(s, Events(EventsTo(s, target))) == target
    ensures LastAfter(last, Events(EventsTo(s, target))).Some? ==> s == target && Shifting(target)
  {
    hide EventsTo, EightAway, Distance, After;
    LongPaths(s, target);
    DistanceIsOneMore(s, target);
    var tms := EventsTo(s, target);
    if last == Some(true) {
      forall k {:trigger tms[..k]} | 0 < k < |tms|
        ensures !Shifting(After(s, tms[..k]))
      {
        NoShiftOnTheWay(s, target, k);
      }
    }
  }

  lemma ResetFits(s: TapState, last: Option<bool>)
    ensures Fits(s, last, Events([true, true, true, true, true]))
  {
    var tms := [true, true, true, true, true];
    forall k {:trigger tms[..k]} | 0 < k < |tms|
      ensures !Shifting(After(s, tms[..k]))
    {
      assert tms[..k] != [];
      if Shifting(After(s, tms[..k])) {
        PinIsLow(s, tms[..k]);
        assert false;
      }
    }
  }

  lemma AcceptedFits(h: Session, c: Call)
    requires InSync(h) && HeldWell(h) && Accepted(h, c)
    ensures IsPacked(c) && AllFit(h.current, h.last, OpsOf(h.current, c)) && Tracks(h.current, c)
    ensures HeldWell(Called(h, c))
  {
    hide EventsTo, EightAway, Fits, After;
    var s, ops := h.current, OpsOf(h.current, c);
    match c
    case Reset =>
      ResetFits(s, h.last);
      OneFits(s, h.last, ops[0]);
    case ChangeState(target) =>
      ChangeFits(s, h.last, target);
      OneFits(s, h.last, ops[0]);
      ChangeTracks(h, target);
    case WriteRegister(ir, bits) =>
      RegisterFits(h, ir, bits);
    case Write(bits, useLast) =>
      assert Fits(s, h.last, ops[0]) by {
        BitsFit(s, h.last, bits, useLast);
      }
      OneFits(s, h.last, ops[0]);
      assert StaysOnLow(s);
    case WriteTms(_) =>
      EventsFit(s, h.last, ops[0]);
      OneFits(s, h.last, ops[0]);
  }

  lemma EventsFit(s: TapState, last: Option<bool>, op: Op)
    requires op.Events? && |op.tms| < 8 && Clean(s, last, op.tms)
    ensures Fits(s, last, op)
  {
  }

  lemma BitsFit(s: TapState, last: Option<bool>, bits: seq<bool>, useLast: bool)
    requires Shifting(s) && |bits| / 8 <= 65536
    ensures Fits(s, last, Bits(bits, useLast))
  {
  }

  lemma OneFits(s: TapState, last: Option<bool>, op: Op)
    requires Fits(s, last, op)
    ensures AllFit(s, last, [op])
  {
    assert [op][1..] == [];
  }

  lemma RegisterFits(h: Session, ir: bool, bits: seq<bool>)
    requires InSync(h) && HeldWell(h) && |bits| / 8 <= 65536
    ensures AllFit(h.current, h.last, OpsOf(h.current, WriteRegister(ir, bits)))
    ensures HeldWell(Called(h, WriteRegister(ir, bits)))
  {
    hide EventsTo, Fits, After, TmsTicks;
    var s, shift := h.current, ShiftState(ir);
    var a := Events(EventsTo(s, shift));
    ChangeFits(s, h.last, shift);
    ChangeTracks(h, shift);
    UpdateEvents(ir);
    if bits == [] {
      OneFits(s, h.last, a);
    } else {
      var b, c := Bits(bits, true), Events(EventsTo(shift, UpdateState(ir)));
      var last1 := LastAfter(h.last, a);
      BitsFit(shift, last1, bits, true);
      var last2 := LastAfter(last1, b);
      ChangeFits(shift, last2, UpdateState(ir));
      OneFits(shift, last2, c);
      assert [a, b, c][1..] == [b, c] && [b, c][1..] == [c];
      assert AllFit(shift, last1, [b, c]);
      assert OpsOf(s, WriteRegister(ir, bits)) == [a, b, c];
    }
  }

  ghost predicate AllAccepted(h: Session, calls: seq<Call>)
    decreases |calls|
  {
    calls != [] ==> Accepted(h, calls[0]) && AllAccepted(Called(h, calls[0]), calls[1..])
  }

  /** The commands of a sequence of calls. */
  function CallCmds(h: Session, calls: seq<Call>): seq<Cmd>
    requires forall k :: 0 <= k < |calls| ==> IsPacked(calls[k])
    decreases |calls|
  {
    if calls == [] then [] else CmdsAll(h.last, OpsOf(h.current, calls[0])) + CallCmds(Called(h, calls[0]), calls[1..])
  }

  /**
    The FTDI device, having taken the commands of any sequence of accepted calls
    apart, has clocked the target into the state the bit-bang transport puts it
    into.
   */
  lemma {:induction false} DeviceCannotTell(h: Session, calls: seq<Call>, pin: bool)
    requires InSync(h) && HeldWell(h) && (Shifting(h.current) ==> !pin)
    requires AllAccepted(h, calls)
    ensures forall k :: 0 <= k < |calls| ==> IsPacked(calls[k])
    ensures Run(h.device, AllTicks(CallCmds(h, calls), pin)) == AllCalled(h, calls).device
    decreases |calls|
  {
    hide Called, OpsOf, Accepted, IsPacked, CmdsAll, BangAll;
    if calls != [] {
      var c, rest := calls[0], calls[1..];
      AcceptedFits(h, c);
      CallIsItsOps(h, c);
      CallTracks(h, c);
      var ops := OpsOf(h.current, c);
      var cmds := CmdsAll(h.last, ops);
      PackingRefinesBitBang(h.current, h.last, ops, pin);
      AlikeRuns(h.device, BangAll(h.last, ops), AllTicks(cmds, pin));
      DeviceCannotTell(Called(h, c), rest, AllPin(cmds, pin));
      assert forall k :: 0 <= k < |calls| ==> IsPacked(calls[k]) by {
        assert forall k :: 0 < k < |calls| ==> calls[k] == rest[k - 1];
      }
      TicksInTurn(cmds, CallCmds(Called(h, c), rest), pin);
      RunInTurn(h.device, AllTicks(cmds, pin), AllTicks(CallCmds(Called(h, c), rest), AllPin(cmds, pin)));
    }
  }

  /** ----- reading ----- */

  /** What the wires carry at one clock; what a read command puts on TDI is not determined. */
  datatype Wire = Wire(tms: bool, tdi: Option<bool>)

  datatype Request = Ask(op: Op) | Fetch(length: nat)

  function Wires(ticks: seq<Tick>): (r: seq<Wire>)
    ensures |r| == |ticks|
  {
    seq(|ticks|, k requires 0 <= k < |ticks| => Wire(ticks[k].tms, Some(ticks[k].tdi)))
  }

  /** Bit-banging writes zeros while it reads. */
  function BangWires(last: Option<bool>, r: Request): seq<Wire> {
    match r
    case Ask(op) => Wires(BangTicks(last, op))
    case Fetch(length) => Wires(Low(Falses(length)))
  }

  /** The read commands leave TMS as it is. */
  function FtdiWires(last: Option<bool>, r: Request, pin: bool): seq<Wire> {
    match r
    case Ask(op) => Wires(AllTicks(OpCmds(last, op), pin))
    case Fetch(length) => seq(length, _ => Wire(pin, None))
  }

  function LastBehind(last: Option<bool>, r: Request): Option<bool> {
    if r.Ask? then LastAfter(last, r.op) else last
  }

  function StateBehind(s: TapState, r: Request): TapState {
    if r.Ask? then StateAfter(s, r.op) else s
  }

  function PinBehind(last: Option<bool>, r: Request, pin: bool): bool {
    if r.Ask? then AllPin(OpCmds(last, r.op), pin) else pin
  }

  /** Bytes are read in one command, whose answer must fit the buffer. */
  ghost predicate Granted(s: TapState, last: Option<bool>, r: Request) {
    match r
    case Ask(op) => Fits(s, last, op)
    case Fetch(length) => Shifting(s) && length / 8 <= FTDI_PIPE_LEN
  }

  ghost predicate AllGranted(s: TapState, last: Option<bool>, rs: seq<Request>)
    decreases |rs|
  {
    rs != [] ==> Granted(s, last, rs[0]) && AllGranted(StateBehind(s, rs[0]), LastBehind(last, rs[0]), rs[1..])
  }

  function AllBangWires(last: Option<bool>, rs: seq<Request>): seq<Wire>
    decreases |rs|
  {
    if rs == [] then [] else BangWires(last, rs[0]) + AllBangWires(LastBehind(last, rs[0]), rs[1..])
  }

  function AllFtdiWires(last: Option<bool>, rs: seq<Request>, pin: bool): seq<Wire>
    decreases |rs|
  {
    if rs == [] then [] else FtdiWires(last, rs[0], pin) + AllFtdiWires(LastBehind(last, rs[0]), rs[1..], PinBehind(last, rs[0], pin))
  }

  function AllStates(s: TapState, rs: seq<Request>): TapState
    decreases |rs|
  {
    if rs == [] then s else AllStates(StateBehind(s, rs[0]), rs[1..])
  }

  function TmsWires(w: seq<Wire>): (r: seq<bool>)
    ensures |r| == |w|
  {
    seq(|w|, k requires 0 <= k < |w| => w[k].tms)
  }

  /** As many clocks, the same TMS at each of them, and at those spent shifting the same TDI where it is determined. */
  ghost predicate Agree(s: TapState, a: seq<Wire>, b: seq<Wire>) {
    && |a| == |b|
    && (forall k {:trigger a[k]} :: 0 <= k < |a| ==> a[k].tms == b[k].tms)
    && (forall k {:trigger a[k]} :: 0 <= k < |a| && Shifting(After(s, TmsWires(a)[..k])) ==> b[k].tdi.None? || a[k].tdi == b[k].tdi)
  }

  lemma AgreeInTurn(s: TapState, a: seq<Wire>, b: seq<Wire>, c: seq<Wire>, d: seq<Wire>)
    requires Agree(s, a, b) && Agree(After(s, TmsWires(a)), c, d)
    ensures Agree(s, a + c, b + d)
  {
    hide After;
    forall k {:trigger (a + c)[k]} | 0 <= k < |a + c| && Shifting(After(s, TmsWires(a + c)[..k]))
      ensures (b + d)[k].tdi.None? || (a + c)[k].tdi == (b + d)[k].tdi
    {
      if k < |a| {
        assert TmsWires(a + c)[..k] == TmsWires(a)[..k];
        assert (a + c)[k] == a[k];
      } else {
        assert TmsWires(a + c)[..k] == TmsWires(a) + TmsWires(c)[..k - |a|];
        AfterInTurn(s, TmsWires(a), TmsWires(c)[..k - |a|]);
        assert (a + c)[k] == c[k - |a|];
      }
    }
  }

  lemma AlikeAgrees(s: TapState, a: seq<Tick>, b: seq<Tick>)
    requires Alike(s, a, b)
    ensures Agree(s, Wires(a), Wires(b)) && TmsWires(Wires(a)) == TmsOf(a)
  {
    assert TmsWires(Wires(a)) == TmsOf(a);
    forall k {:trigger Wires(a)[k]} | 0 <= k < |a|
      ensures Wires(a)[k].tms == Wires(b)[k].tms
      ensures Shifting(After(s, TmsOf(a)[..k])) ==> Wires(a)[k].tdi == Wires(b)[k].tdi
    {
      assert a[k].tms == b[k].tms;
    }
  }

  /** While it shifts, the device stays where it is as it is read. */
  lemma FetchAgrees(s: TapState, length: nat)
    requires Shifting(s)
    ensures Agree(s, Wires(Low(Falses(length))), seq(length, _ => Wire(false, None)))
    ensures After(s, TmsWires(Wires(Low(Falses(length))))) == s
  {
    LowTms(Falses(length));
    LowStays(s, length);
    assert TmsWires(Wires(Low(Falses(length)))) == seq(length, _ => false);
  }

  lemma RequestAgrees(s: TapState, last: Option<bool>, r: Request, pin: bool)
    requires Granted(s, last, r) && (Shifting(s) ==> !pin)
    ensures Agree(s, BangWires(last, r), FtdiWires(last, r, pin))
    ensures After(s, TmsWires(BangWires(last, r))) == StateBehind(s, r)
    ensures Shifting(StateBehind(s, r)) ==> !PinBehind(last, r, pin)
  {
    hide Alike, Agree, After, BangTicks, OpCmds, StateAfter, Fits;
    match r
    case Ask(op) =>
      OpAlike(s, last, op, pin);
      AlikeAgrees(s, BangTicks(last, op), AllTicks(OpCmds(last, op), pin));
    case Fetch(length) =>
      FetchAgrees(s, length);
      assert FtdiWires(last, r, pin) == seq(length, _ => Wire(false, None));
  }

  lemma TmsWiresSum(a: seq<Wire>, b: seq<Wire>)
    ensures TmsWires(a + b) == TmsWires(a) + TmsWires(b)
  {
  }

  /**
    With reads among the requests, both transports take as many clocks with the
    same TMS, so that the device goes through the same states; and TDI is the same
    at every clock spent shifting that is none of a read.
   */
  lemma {:induction false} ReadsKeepPace(s: TapState, last: Option<bool>, rs: seq<Request>, pin: bool)
    requires AllGranted(s, last, rs) && (Shifting(s) ==> !pin)
    ensures Agree(s, AllBangWires(last, rs), AllFtdiWires(last, rs, pin))
    ensures After(s, TmsWires(AllFtdiWires(last, rs, pin))) == After(s, TmsWires(AllBangWires(last, rs))) == AllStates(s, rs)
    decreases |rs|
  {
    hide Granted, BangWires, FtdiWires, LastBehind, StateBehind, PinBehind, After;
    if rs == [] {
      NoWires(s);
    } else {
      var r, rest := rs[0], rs[1..];
      RequestAgrees(s, last, r, pin);
      ReadsKeepPace(StateBehind(s, r), LastBehind(last, r), rest, PinBehind(last, r, pin));
      var a, c := BangWires(last, r), AllBangWires(LastBehind(last, r), rest);
      var b, d := FtdiWires(last, r, pin), AllFtdiWires(LastBehind(last, r), rest, PinBehind(last, r, pin));
      AgreeInTurn(s, a, b, c, d);
      TmsWiresSum(a, c);
      AfterInTurn(s, TmsWires(a), TmsWires(c));
      SameTms(s, a + c, b + d);
    }
  }

  lemma NoWires(s: TapState)
    ensures Agree(s, [], []) && After(s, TmsWires([])) == s
  {
  }

  lemma SameTms(s: TapState, a: seq<Wire>, b: seq<Wire>)
    requires Agree(s, a, b)
    ensures TmsWires(a) == TmsWires(b)
  {
    assert forall k {:trigger a[k]} :: 0 <= k < |a| ==> a[k].tms == b[k].tms;
  }
}
