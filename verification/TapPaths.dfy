/**
  What the search finds in the TAP controller: how long its paths are, which
  registers they capture on the way, and where they shift.
 */
module TapPaths {
  import opened Basics
  import opened StateMachines
  import opened Taps

  function Index(s: TapState): (r: nat)
    ensures r < 16
  {
    match s
    case TestLogicReset => 0 case RunTestIdle => 1 case SelectDR => 2 case CaptureDR => 3
    case ShiftDR => 4 case Exit1DR => 5 case PauseDR => 6 case Exit2DR => 7
    case UpdateDR => 8 case SelectIR => 9 case CaptureIR => 10 case ShiftIR => 11
    case Exit1IR => 12 case PauseIR => 13 case Exit2IR => 14 case UpdateIR => 15
  }

  /** How many events lead from each state to a target, at least. */
  function Distances(target: TapState): (r: seq<nat>)
    ensures |r| == 16
  {
    match target
    case TestLogicReset => [0, 3, 2, 5, 5, 4, 5, 4, 3, 1, 5, 5, 4, 5, 4, 3]
    case RunTestIdle => [1, 0, 3, 3, 3, 2, 3, 2, 1, 2, 3, 3, 2, 3, 2, 1]
    case SelectDR => [2, 1, 0, 3, 3, 2, 3, 2, 1, 3, 3, 3, 2, 3, 2, 1]
    case CaptureDR => [3, 2, 1, 0, 4, 3, 4, 3, 2, 4, 4, 4, 3, 4, 3, 2]
    case ShiftDR => [4, 3, 2, 1, 0, 3, 2, 1, 3, 5, 5, 5, 4, 5, 4, 3]
    case Exit1DR => [4, 3, 2, 1, 1, 0, 3, 2, 3, 5, 5, 5, 4, 5, 4, 3]
    case PauseDR => [5, 4, 3, 2, 2, 1, 0, 3, 4, 6, 6, 6, 5, 6, 5, 4]
    case Exit2DR => [6, 5, 4, 3, 3, 2, 1, 0, 5, 7, 7, 7, 6, 7, 6, 5]
    case UpdateDR => [5, 4, 3, 2, 2, 1, 2, 1, 0, 6, 6, 6, 5, 6, 5, 4]
    case SelectIR => [3, 2, 1, 4, 4, 3, 4, 3, 2, 0, 4, 4, 3, 4, 3, 2]
    case CaptureIR => [4, 3, 2, 5, 5, 4, 5, 4, 3, 1, 0, 5, 4, 5, 4, 3]
    case ShiftIR => [5, 4, 3, 6, 6, 5, 6, 5, 4, 2, 1, 0, 3, 2, 1, 4]
    case Exit1IR => [5, 4, 3, 6, 6, 5, 6, 5, 4, 2, 1, 1, 0, 3, 2, 4]
    case PauseIR => [6, 5, 4, 7, 7, 6, 7, 6, 5, 3, 2, 2, 1, 0, 3, 5]
    case Exit2IR => [7, 6, 5, 8, 8, 7, 8, 7, 6, 4, 3, 3, 2, 1, 0, 6]
    case UpdateIR => [6, 5, 4, 7, 7, 6, 7, 6, 5, 3, 2, 2, 1, 2, 1, 0]
  }

  function Distance(s: TapState, target: TapState): nat {
    Distances(target)[Index(s)]
  }

  /** Distances to a target are 0 there, and one more than that of the nearer exit elsewhere. */
  predicate OneMore(d: nat, low: nat, high: nat, there: bool) {
    && (d == 0 <==> there)
    && (there || d == 1 + if low <= high then low else high)
    && d <= low + 1 && d <= high + 1
  }

  predicate EightAway(s: TapState, target: TapState) {
    target.Exit2IR? && (s.CaptureDR? || s.ShiftDR? || s.PauseDR?)
  }

  lemma DistanceFromIdle(s: TapState, target: TapState)
    requires s.TestLogicReset? || s.RunTestIdle?
    ensures OneMore(Distance(s, target), Distance(ExitsOf(s).low, target), Distance(ExitsOf(s).high, target), s == target)
    ensures Distance(s, target) <= 8 && (Distance(s, target) == 8 <==> EightAway(s, target))
  {
    match s
    case TestLogicReset =>
    case RunTestIdle =>
  }

  lemma DistanceFromSelect(s: TapState, target: TapState)
    requires s.SelectDR? || s.SelectIR?
    ensures OneMore(Distance(s, target), Distance(ExitsOf(s).low, target), Distance(ExitsOf(s).high, target), s == target)
    ensures Distance(s, target) <= 8 && (Distance(s, target) == 8 <==> EightAway(s, target))
  {
    match s
    case SelectDR =>
    case SelectIR =>
  }

  lemma DistanceFromShiftDR(s: TapState, target: TapState)
    requires s.CaptureDR? || s.ShiftDR?
    ensures OneMore(Distance(s, target), Distance(ExitsOf(s).low, target), Distance(ExitsOf(s).high, target), s == target)
    ensures Distance(s, target) <= 8 && (Distance(s, target) == 8 <==> EightAway(s, target))
  {
    match s
    case CaptureDR =>
    case ShiftDR =>
  }

  lemma DistanceFromPauseDR(s: TapState, target: TapState)
    requires s.Exit1DR? || s.PauseDR?
    ensures OneMore(Distance(s, target), Distance(ExitsOf(s).low, target), Distance(ExitsOf(s).high, target), s == target)
    ensures Distance(s, target) <= 8 && (Distance(s, target) == 8 <==> EightAway(s, target))
  {
    match s
    case Exit1DR =>
    case PauseDR =>
  }

  lemma DistanceFromUpdateDR(s: TapState, target: TapState)
    requires s.Exit2DR? || s.UpdateDR?
    ensures OneMore(Distance(s, target), Distance(ExitsOf(s).low, target), Distance(ExitsOf(s).high, target), s == target)
    ensures Distance(s, target) <= 8 && (Distance(s, target) == 8 <==> EightAway(s, target))
  {
    match s
    case Exit2DR =>
    case UpdateDR =>
  }

  lemma DistanceFromShiftIR(s: TapState, target: TapState)
    requires s.CaptureIR? || s.ShiftIR?
    ensures OneMore(Distance(s, target), Distance(ExitsOf(s).low, target), Distance(ExitsOf(s).high, target), s == target)
    ensures Distance(s, target) <= 8 && (Distance(s, target) == 8 <==> EightAway(s, target))
  {
    match s
    case CaptureIR =>
    case ShiftIR =>
  }

  lemma DistanceFromPauseIR(s: TapState, target: TapState)
    requires s.Exit1IR? || s.PauseIR?
    ensures OneMore(Distance(s, target), Distance(ExitsOf(s).low, target), Distance(ExitsOf(s).high, target), s == target)
    ensures Distance(s, target) <= 8 && (Distance(s, target) == 8 <==> EightAway(s, target))
  {
    match s
    case Exit1IR =>
    case PauseIR =>
  }

  lemma DistanceFromUpdateIR(s: TapState, target: TapState)
    requires s.Exit2IR? || s.UpdateIR?
    ensures OneMore(Distance(s, target), Distance(ExitsOf(s).low, target), Distance(ExitsOf(s).high, target), s == target)
    ensures Distance(s, target) <= 8 && (Distance(s, target) == 8 <==> EightAway(s, target))
  {
    match s
    case Exit2IR =>
    case UpdateIR =>
  }

  lemma DistanceIsOneMore(s: TapState, target: TapState)
    ensures OneMore(Distance(s, target), Distance(ExitsOf(s).low, target), Distance(ExitsOf(s).high, target), s == target)
    ensures Distance(s, target) <= 8 && (Distance(s, target) == 8 <==> EightAway(s, target))
  {
    hide Distance, OneMore, ExitsOf, EightAway;
    match s
    case TestLogicReset | RunTestIdle => DistanceFromIdle(s, target);
    case SelectDR | SelectIR => DistanceFromSelect(s, target);
    case CaptureDR | ShiftDR => DistanceFromShiftDR(s, target);
    case Exit1DR | PauseDR => DistanceFromPauseDR(s, target);
    case Exit2DR | UpdateDR => DistanceFromUpdateDR(s, target);
    case CaptureIR | ShiftIR => DistanceFromShiftIR(s, target);
    case Exit1IR | PauseIR => DistanceFromPauseIR(s, target);
    case Exit2IR | UpdateIR => DistanceFromUpdateIR(s, target);
  }

  /** No events get anywhere in fewer steps. */
  lemma {:induction false} EventsTakeDistance(s: TapState, events: seq<bool>)
    ensures |events| >= Distance(s, After(s, events))
    decreases |events|
  {
    hide Distance, ExitsOf;
    DistanceIsOneMore(s, After(s, events));
    if events != [] {
      EventsTakeDistance(Next(Tap(), s, events[0]), events[1..]);
    }
  }

  /** The nearer exit at each step gets there in that many. */
  lemma {:induction false} NearerExits(s: TapState, target: TapState) returns (events: seq<bool>)
    ensures After(s, events) == target && |events| == Distance(s, target)
    decreases Distance(s, target)
  {
    hide Distance, ExitsOf;
    DistanceIsOneMore(s, target);
    if s == target {
      events := [];
    } else {
      var e := Distance(ExitsOf(s).high, target) < Distance(ExitsOf(s).low, target);
      var rest := NearerExits(Next(Tap(), s, e), target);
      events := [e] + rest;
    }
  }

  /** The events for the path that the search finds. */
  function EventsTo(s: TapState, target: TapState): (events: seq<bool>)
    ensures After(s, events) == target
    ensures |events| == Distance(s, target)
  {
    TapIsClosed();
    EventsReach(s, target);
    GetEvents(Tap(), FindPath(Tap(), s, target)).value
  }

  lemma EventsReach(s: TapState, target: TapState)
    ensures Closed(Tap()) && (forall u: TapState :: u in Tap())
    ensures
      var path := FindPath(Tap(), s, target);
      var r := GetEvents(Tap(), path);
      && r.Some? && After(s, r.value) == target
      && |r.value| == |path| - 1 == Distance(s, target)
  {
    TapIsClosed();
    var events := NearerExits(s, target);
    AfterIsHandled(s, events);
    FoundEventsReachTarget(Tap(), s, events);
    var found := GetEvents(Tap(), FindPath(Tap(), s, target)).value;
    AfterIsHandled(s, found);
    EventsTakeDistance(s, found);
  }

  /** Eight events, too many for one command to the FTDI device, are needed in three cases and in no others. */
  lemma LongPaths(s: TapState, target: TapState)
    ensures |EventsTo(s, target)| > 7 <==> EightAway(s, target)
    ensures |EventsTo(s, target)| <= 8
  {
    hide Distance, EventsTo, EightAway;
    DistanceIsOneMore(s, target);
  }

  /** ----- what lies on the way ----- */

  lemma {:induction false} AfterInTurn(s: TapState, a: seq<bool>, b: seq<bool>)
    ensures After(s, a + b) == After(After(s, a), b)
    decreases |a|
  {
    if a == [] {
      assert a + b == b;
    } else {
      assert (a + b)[1..] == a[1..] + b && (a + b)[0] == a[0];
      AfterInTurn(Next(Tap(), s, a[0]), a[1..], b);
    }
  }

  /** A state on the way is as near to the start, and the target as near to it, as it can be. */
  lemma OnTheWay(s: TapState, target: TapState, k: nat)
    requires k <= |EventsTo(s, target)|
    ensures var u := After(s, EventsTo(s, target)[..k]);
      Distance(s, u) == k && Distance(u, target) == Distance(s, target) - k
  {
    hide Distance, ExitsOf;
    var events := EventsTo(s, target);
    var u := After(s, events[..k]);
    assert events == events[..k] + events[k..];
    AfterInTurn(s, events[..k], events[k..]);
    EventsTakeDistance(s, events[..k]);
    EventsTakeDistance(u, events[k..]);
    var near := NearerExits(s, u);
    AfterInTurn(s, near, events[k..]);
    EventsTakeDistance(s, near + events[k..]);
    var far := NearerExits(u, target);
    AfterInTurn(s, events[..k], far);
    EventsTakeDistance(s, events[..k] + far);
  }

  /** From a shift state, only the first clock of a change of state is spent in one. */
  lemma NoShiftOnTheWay(s: TapState, target: TapState, k: nat)
    requires s in {ShiftDR, ShiftIR} && 0 < k < |EventsTo(s, target)|
    ensures After(s, EventsTo(s, target)[..k]) !in {ShiftDR, ShiftIR}
  {
    OnTheWay(s, target, k);
    ShiftsAreApart(target);
  }

  lemma ShiftDRIsApart(target: TapState)
    ensures Distance(ShiftDR, target) == Distance(ShiftDR, ShiftIR) + Distance(ShiftIR, target) ==> target == ShiftIR
  {
    match target
    case TestLogicReset => case RunTestIdle => case SelectDR => case CaptureDR =>
    case ShiftDR => case Exit1DR => case PauseDR => case Exit2DR =>
    case UpdateDR => case SelectIR => case CaptureIR => case ShiftIR =>
    case Exit1IR => case PauseIR => case Exit2IR => case UpdateIR =>
  }

  lemma ShiftIRIsApart(target: TapState)
    ensures Distance(ShiftIR, target) == Distance(ShiftIR, ShiftDR) + Distance(ShiftDR, target) ==> target == ShiftDR
  {
    match target
    case TestLogicReset => case RunTestIdle => case SelectDR => case CaptureDR =>
    case ShiftDR => case Exit1DR => case PauseDR => case Exit2DR =>
    case UpdateDR => case SelectIR => case CaptureIR => case ShiftIR =>
    case Exit1IR => case PauseIR => case Exit2IR => case UpdateIR =>
  }

  lemma ShiftsAreApart(target: TapState)
    ensures Distance(target, target) == 0
    ensures Distance(ShiftDR, target) == Distance(ShiftDR, ShiftIR) + Distance(ShiftIR, target) ==> target == ShiftIR
    ensures Distance(ShiftIR, target) == Distance(ShiftIR, ShiftDR) + Distance(ShiftDR, target) ==> target == ShiftDR
    ensures Distance(ShiftDR, ShiftDR) == 0 && Distance(ShiftIR, ShiftIR) == 0
  {
    hide Distance, ExitsOf;
    ShiftDRIsApart(target);
    ShiftIRIsApart(target);
    DistanceIsOneMore(target, target);
    DistanceIsOneMore(ShiftDR, ShiftDR);
    DistanceIsOneMore(ShiftIR, ShiftIR);
  }

  /** The states from which the data register is shifted again without a capture. */
  predicate Resumes(s: TapState) {
    s in {ShiftDR, Exit1DR, PauseDR, Exit2DR}
  }

  lemma WayToShift(s: TapState, u: TapState)
    requires Distance(s, u) + Distance(u, ShiftDR) == Distance(s, ShiftDR)
    ensures Resumes(s) ==> u != CaptureDR
    ensures !Resumes(s) ==> u != Exit2DR
  {
    match s
    case TestLogicReset => case RunTestIdle => case SelectDR => case CaptureDR =>
    case ShiftDR => case Exit1DR => case PauseDR => case Exit2DR =>
    case UpdateDR => case SelectIR => case CaptureIR => case ShiftIR =>
    case Exit1IR => case PauseIR => case Exit2IR => case UpdateIR =>
  }

  /** Clocks spent outside the capture and shift states leave the data register alone. */
  lemma {:induction false} StageIsKept(d: Device, ticks: seq<Tick>)
    requires forall k {:trigger ticks[..k]} :: 0 <= k < |ticks| ==> Run(d, ticks[..k]).state !in {CaptureDR, ShiftDR}
    ensures Run(d, ticks).dr.stage == d.dr.stage
    decreases |ticks|
  {
    if ticks != [] {
      assert ticks[..0] == [];
      forall k {:trigger ticks[1..][..k]} | 0 <= k < |ticks| - 1
        ensures Run(Clock(d, ticks[0]), ticks[1..][..k]).state !in {CaptureDR, ShiftDR}
      {
        assert ticks[..k + 1][1..] == ticks[1..][..k];
      }
      StageIsKept(Clock(d, ticks[0]), ticks[1..]);
    }
  }

  /** Going to the shift state captures the inputs, or keeps what is there when shifting resumes. */
  lemma EnteringShift(d: Device, ticks: seq<Tick>)
    requires TmsOf(ticks) == EventsTo(d.state, ShiftDR)
    ensures Run(d, ticks).state == ShiftDR
    ensures Run(d, ticks).dr.stage == if Resumes(d.state) then d.dr.stage else d.dr.inputs
  {
    hide Distance, ExitsOf, EventsTo;
    var s, n := d.state, |ticks|;
    StateFollowsTms(d, ticks);
    forall k {:trigger ticks[..k]} | 0 <= k < n
      ensures var u := Run(d, ticks[..k]).state;
        u != ShiftDR && (u == CaptureDR ==> !Resumes(s)) && (u == Exit2DR ==> Resumes(s))
    {
      WayAt(d, ticks, k);
    }
    if Resumes(s) {
      StageIsKept(d, ticks);
    } else {
      assert n > 0;
      assert ticks == ticks[..n - 1] + [ticks[n - 1]];
      RunInTurn(d, ticks[..n - 1], [ticks[n - 1]]);
      var e := Run(d, ticks[..n - 1]);
      assert Run(d, ticks) == Clock(e, ticks[n - 1]);
      LastBeforeShift(e, ticks[n - 1]);
      InputsAreKept(d, ticks[..n - 1]);
    }
  }

  lemma WayAt(d: Device, ticks: seq<Tick>, k: nat)
    requires TmsOf(ticks) == EventsTo(d.state, ShiftDR) && k < |ticks|
    ensures var u := Run(d, ticks[..k]).state;
      u != ShiftDR && (u == CaptureDR ==> !Resumes(d.state)) && (u == Exit2DR ==> Resumes(d.state))
  {
    hide Distance, ExitsOf;
    StateFollowsTms(d, ticks[..k]);
    assert TmsOf(ticks[..k]) == TmsOf(ticks)[..k];
    OnTheWay(d.state, ShiftDR, k);
    ShiftsAreApart(ShiftDR);
    WayToShift(d.state, Run(d, ticks[..k]).state);
  }

  lemma LastBeforeShift(d: Device, t: Tick)
    requires Clock(d, t).state == ShiftDR && d.state != ShiftDR && d.state != Exit2DR
    ensures Clock(d, t).dr.stage == d.dr.inputs
  {
  }

  lemma {:induction false} InputsAreKept(d: Device, ticks: seq<Tick>)
    ensures Run(d, ticks).dr.inputs == d.dr.inputs && Run(d, ticks).ir.inputs == d.ir.inputs
    decreases |ticks|
  {
    if ticks != [] {
      InputsAreKept(Clock(d, ticks[0]), ticks[1..]);
    }
  }
}
