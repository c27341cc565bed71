/**
  The baud rate of an FTDI device: of two divisors, the one whose rate is closer
  to what was asked for. Whether that is the closest of all.
 */
module Baud {
  const BAUDRATE_REF_BASE: nat := 3_000_000
  const BAUDRATE_REF_HIGH: nat := 12_000_000

  /** The rate of a divisor, to the nearest integer. */
  function Estimate(clock: nat, divisor: nat): nat
    requires divisor > 0
  {
    (clock * 8 + divisor / 2) / divisor
  }

  function Distance(a: nat, b: nat): nat {
    if a < b then b - a else a - b
  }

  /**
    The divisors of a device, by the clock in use.  Of those below 16, a legacy
    device has 8 alone; any other has 12 as well, for which there is a code of its
    own.  A legacy device also has fewer fractions of eight.
   */
  predicate Supported(hispeed: bool, legacy: bool, divisor: nat) {
    if hispeed then divisor >= 8
    else if legacy then divisor == 8 || (16 <= divisor <= 0x1_FFF8 && Fraction(divisor))
    else divisor == 8 || divisor == 12 || 16 <= divisor <= 0x1_FFFF
  }

  predicate Fraction(divisor: nat) {
    divisor % 8 == 0 || divisor % 8 == 1 || divisor % 8 == 2 || divisor % 8 == 4
  }

  function Clock(hispeed: bool): nat {
    if hispeed then BAUDRATE_REF_HIGH else BAUDRATE_REF_BASE
  }

  const AmAdjustUp: seq<nat> := [0, 0, 0, 1, 0, 3, 2, 1]
  const AmAdjustDown: seq<nat> := [0, 0, 0, 1, 0, 1, 2, 3]

  /** The divisor that the rate asked for comes to, rounded down to what a legacy device supports. */
  function Divisor(clock: nat, baudrate: nat, legacy: bool): int
    requires baudrate > 0
  {
    var d := clock * 8 / baudrate;
    if legacy then d - AmAdjustDown[d % 8] else d
  }

  /** What a divisor is rounded to before it is tried. */
  function Tried(hispeed: bool, legacy: bool, divisor: int, i: nat): int {
    var t := divisor + i;
    if hispeed then t
    else if t <= 8 then 8
    else if legacy && t < 12 then 12
    else if divisor < 16 then 16
    else if legacy then (if t + AmAdjustUp[t % 8] > 0x1_FFF8 then 0x1_FFF8 else t + AmAdjustUp[t % 8])
    else if t > 0x1_FFFF then 0x1_FFFF
    else t
  }

  /** The second divisor is taken only when it is strictly closer. */
  function Better(clock: nat, baudrate: nat, first: nat, second: nat): nat
    requires first > 0 && second > 0
  {
    if Distance(Estimate(clock, second), baudrate) < Distance(Estimate(clock, first), baudrate) then second else first
  }

  ghost predicate IsClosest(hispeed: bool, legacy: bool, baudrate: nat, divisor: nat) {
    && Supported(hispeed, legacy, divisor)
    && forall d: nat {:trigger Estimate(Clock(hispeed), d)} :: Supported(hispeed, legacy, d) ==>
         Distance(Estimate(Clock(hispeed), divisor), baudrate) <= Distance(Estimate(Clock(hispeed), d), baudrate)
  }

  lemma Times(a: nat, c: nat, d: nat)
    requires c <= d
    ensures a * c <= a * d
  {
  }

  /** A larger divisor gives no higher rate. */
  lemma LargerIsSlower(clock: nat, c: nat, d: nat)
    requires 0 < c <= d
    ensures Estimate(clock, d) <= Estimate(clock, c)
  {
    var r, e := clock * 8, Estimate(clock, d);
    if e > Estimate(clock, c) {
      RoundedUp(r, c, e);
      RoundedDown(r, d);
      Times(2 * e - 1, c, d);
      assert false;
    }
  }

  lemma RoundedDown(r: nat, d: nat)
    requires d > 0
    ensures var e := (r + d / 2) / d; (2 * e - 1) * d <= 2 * r
  {
    var e := (r + d / 2) / d;
    assert e * d <= r + d / 2;
    assert (2 * e - 1) * d == 2 * (e * d) - d;
  }

  lemma RoundedUp(r: nat, c: nat, e: nat)
    requires c > 0 && e > (r + c / 2) / c
    ensures (2 * e - 1) * c > 2 * r
  {
    var q := (r + c / 2) / c;
    assert r + c / 2 < q * c + c;
    Times(c, q + 1, e);
    assert (q + 1) * c == q * c + c;
    assert (2 * e - 1) * c == 2 * (e * c) - c;
  }

  /** A divisor that does not exceed the ratio is not too slow, and one that does is not too fast. */
  lemma NotTooSlow(clock: nat, baudrate: nat, d: nat)
    requires d > 0 && d * baudrate <= clock * 8
    ensures Estimate(clock, d) >= baudrate
  {
    AtLeast(clock * 8 + d / 2, d, baudrate);
  }

  lemma NotTooFast(clock: nat, baudrate: nat, d: nat)
    requires d > 0 && clock * 8 < d * baudrate
    ensures Estimate(clock, d) <= baudrate
  {
    AtMost(clock * 8 + d / 2, d, baudrate);
  }

  lemma AtLeast(n: nat, d: nat, q: nat)
    requires d > 0 && d * q <= n
    ensures n / d >= q
  {
    var p := n / d;
    assert n < d * p + d && d * (p + 1) == d * p + d;
    if p < q {
      Times(d, p + 1, q);
      assert false;
    }
  }

  lemma AtMost(n: nat, d: nat, q: nat)
    requires d > 0 && n < d * q + d
    ensures n / d <= q
  {
    var p := n / d;
    assert d * p <= n && d * (q + 1) == d * q + d;
    if p > q {
      Times(d, q + 1, p);
      assert false;
    }
  }

  lemma Ratio(clock: nat, baudrate: nat)
    requires 0 < baudrate <= clock * 8
    ensures var d := clock * 8 / baudrate;
      d > 0 && d * baudrate <= clock * 8 < (d + 1) * baudrate
  {
    var d := clock * 8 / baudrate;
    assert d * baudrate <= clock * 8 < d * baudrate + baudrate;
    assert (d + 1) * baudrate == d * baudrate + baudrate;
  }

  /**
    Where every divisor between two is between the rates, the closer of the two
    next to the rate asked for is the closest of all.
   */
  lemma Nearest(hispeed: bool, legacy: bool, baudrate: nat, low: nat, high: nat, best: nat)
    requires Supported(hispeed, legacy, low) && Supported(hispeed, legacy, high) && best in {low, high}
    requires forall d: nat :: Supported(hispeed, legacy, d) ==> d <= low || d >= high
    requires low == high || Estimate(Clock(hispeed), high) <= baudrate <= Estimate(Clock(hispeed), low)
    requires low == high ==>
      || (Estimate(Clock(hispeed), low) >= baudrate && forall d: nat :: Supported(hispeed, legacy, d) ==> d <= low)
      || (Estimate(Clock(hispeed), low) <= baudrate && forall d: nat :: Supported(hispeed, legacy, d) ==> d >= low)
    requires Distance(Estimate(Clock(hispeed), best), baudrate) <= Distance(Estimate(Clock(hispeed), low), baudrate)
    requires Distance(Estimate(Clock(hispeed), best), baudrate) <= Distance(Estimate(Clock(hispeed), high), baudrate)
    ensures IsClosest(hispeed, legacy, baudrate, best)
  {
    forall d: nat {:trigger Estimate(Clock(hispeed), d)} | Supported(hispeed, legacy, d)
      ensures Distance(Estimate(Clock(hispeed), best), baudrate) <= Distance(Estimate(Clock(hispeed), d), baudrate)
    {
      hide Estimate;
      if d <= low {
        LargerIsSlower(Clock(hispeed), d, low);
      }
      if d >= high {
        LargerIsSlower(Clock(hispeed), high, d);
      }
    }
  }

  /** ----- the request that carries a divisor ----- */

  /** The codes of the eighths of a divisor. */
  const FracCode: seq<nat> := [0, 3, 2, 4, 1, 5, 6, 7]

  /** 14 bits for the whole part and 3 for the fraction; 8 and 12 have codes of their own. */
  function EncodedDivisor(divisor: nat): nat {
    var e := divisor / 8 + FracCode[divisor % 8] * 0x4000;
    if e == 1 then 0 else if e == 0x4001 then 1 else e
  }

  /** The fraction of a code. */
  function FracOf(code: nat): nat {
    if code == 1 then 4 else if code == 3 then 1 else if code == 4 then 3 else code
  }

  function DecodedDivisor(e: nat): nat {
    if e == 0 then 8 else if e == 1 then 12 else e % 0x4000 * 8 + FracOf(e / 0x4000)
  }

  /** The value and the index of a request; the index also has the number of the port, or nothing. */
  datatype Request = Request(value: nat, index: nat)

  function Encoded(divisor: nat, hispeed: bool, hasMpsse: bool, port: nat): Request {
    var e := EncodedDivisor(divisor);
    var high := if hasMpsse then e / 0x100 / 0x100 % 0x100 * 0x100 + port else e / 0x1_0000 % 0x1_0000;
    Request(e % 0x1_0000, high + if hispeed then 0x200 else 0)
  }

  /** What a device reads out of a request: bit 9 of the index is the clock, bit 8 or bit 0 the top of the code. */
  function Decoded(r: Request, hasMpsse: bool): (nat, bool) {
    var top := if hasMpsse then r.index / 0x100 % 2 else r.index % 2;
    (DecodedDivisor(r.value + top * 0x1_0000), r.index / 0x200 % 2 == 1)
  }

  lemma DivisorComesBack(divisor: nat)
    requires 8 <= divisor <= 0x1_FFFF
    ensures EncodedDivisor(divisor) < 0x2_0000 && DecodedDivisor(EncodedDivisor(divisor)) == divisor
  {
    var whole, code := divisor / 8, FracCode[divisor % 8];
    assert 1 <= whole < 0x4000 && FracOf(code) == divisor % 8;
    var e := whole + code * 0x4000;
    assert e % 0x4000 == whole && e / 0x4000 == code;
  }

  /** Every divisor and either clock come back out of the request. */
  lemma RequestComesBack(divisor: nat, hispeed: bool, hasMpsse: bool, port: nat)
    requires 8 <= divisor <= 0x1_FFFF && port < 0x100
    ensures var r := Encoded(divisor, hispeed, hasMpsse, port);
      && r.value < 0x1_0000 && r.index < 0x1_0000 && Decoded(r, hasMpsse) == (divisor, hispeed)
      && (hasMpsse ==> r.index % 0x100 == port)
  {
    hide EncodedDivisor, DecodedDivisor;
    DivisorComesBack(divisor);
    var e, clock := EncodedDivisor(divisor), if hispeed then 0x200 else 0;
    assert e / 0x100 / 0x100 == e / 0x1_0000;
    TopComesBack(e / 0x1_0000, clock, if hasMpsse then port else 0);
  }

  lemma TopComesBack(top: nat, clock: nat, port: nat)
    requires top < 2 && (clock == 0 || clock == 0x200) && port < 0x100
    ensures var index := top % 0x100 * 0x100 + port + clock;
      index / 0x100 % 2 == top && (index / 0x200 % 2 == 1 <==> clock == 0x200) && index % 0x100 == port && index < 0x1_0000
    ensures var index := top % 0x1_0000 + clock;
      index % 2 == top && (index / 0x200 % 2 == 1 <==> clock == 0x200) && index < 0x1_0000
  {
  }

  datatype Conversion = BaudrateTooLow | BaudrateTooHigh | Converted(baudrate: nat, divisor: nat, request: Request)

  predicate Hispeed(baudrate: nat) {
    baudrate > BAUDRATE_REF_BASE
  }

  predicate InRange(baudrate: nat, isHSeries: bool) {
    2 * BAUDRATE_REF_BASE / (2 * 16384 + 1) <= baudrate <= if isHSeries then BAUDRATE_REF_HIGH else BAUDRATE_REF_BASE
  }

  /** The divisor chosen for a rate. */
  function Chosen(baudrate: nat, legacy: bool): nat
    requires baudrate > 0 && Divisor(Clock(Hispeed(baudrate)), baudrate, legacy) > 0
  {
    var hispeed := Hispeed(baudrate);
    var divisor := Divisor(Clock(hispeed), baudrate, legacy);
    Better(Clock(hispeed), baudrate, Tried(hispeed, legacy, divisor, 0), Tried(hispeed, legacy, divisor, 1))
  }

  lemma DivisorIsPositive(baudrate: nat, legacy: bool)
    requires 0 < baudrate <= BAUDRATE_REF_HIGH
    ensures Divisor(Clock(Hispeed(baudrate)), baudrate, legacy) >= 8
  {
    AtLeast(Clock(Hispeed(baudrate)) * 8, baudrate, 8);
    var d := Clock(Hispeed(baudrate)) * 8 / baudrate;
    assert d % 8 == 3 ==> d >= 11;
    assert d % 8 == 5 ==> d >= 13;
    assert d % 8 == 6 ==> d >= 14;
    assert d % 8 == 7 ==> d >= 15;
  }

  lemma ChosenCanBeEncoded(baudrate: nat, legacy: bool)
    requires 100 <= baudrate <= BAUDRATE_REF_HIGH
    ensures Divisor(Clock(Hispeed(baudrate)), baudrate, legacy) > 0
    ensures 8 <= Chosen(baudrate, legacy) <= 0x1_FFFF
  {
    DivisorIsPositive(baudrate, legacy);
    hide Estimate;
    if Hispeed(baudrate) {
      AtMost(BAUDRATE_REF_HIGH * 8, baudrate, 32);
    }
  }

  /** The lowest rate that is accepted is the one that the largest divisor gives, and all from there up
      to the clock are. */
  lemma AcceptedRates(baudrate: nat, isHSeries: bool)
    ensures InRange(baudrate, isHSeries) <==>
      Estimate(BAUDRATE_REF_BASE, 0x1_FFFF) <= baudrate <= if isHSeries then 12_000_000 else 3_000_000
    ensures Estimate(BAUDRATE_REF_BASE, 0x1_FFFF) == 183
  {
  }

  /** Of two divisors that are as close the first is taken: 980 kHz lies in the middle of 1 MHz and 960 kHz. */
  lemma TieGoesFirst()
    ensures Estimate(BAUDRATE_REF_BASE, 24) == 1_000_000 && Estimate(BAUDRATE_REF_BASE, 25) == 960_000
    ensures Divisor(Clock(Hispeed(980_000)), 980_000, false) > 0 && Chosen(980_000, false) == 24
  {
  }

  method ConvertBaudrate(baudrate: nat, isHSeries: bool, isLegacy: bool, hasMpsse: bool, port: nat) returns (r: Conversion)
    requires port < 0x100
    ensures r.Converted? <==> InRange(baudrate, isHSeries)
    ensures r.Converted? ==>
      && Divisor(Clock(Hispeed(baudrate)), baudrate, isLegacy) > 0
      && r.divisor == Chosen(baudrate, isLegacy) && r.divisor > 0
      && r.baudrate == Estimate(Clock(Hispeed(baudrate)), r.divisor)
      && Decoded(r.request, hasMpsse) == (r.divisor, Hispeed(baudrate))
      && r.request.value < 0x1_0000 && r.request.index < 0x1_0000 && (hasMpsse ==> r.request.index % 0x100 == port)
  {
    hide Decoded, Encoded;
    if baudrate < 2 * BAUDRATE_REF_BASE / (2 * 16384 + 1) {
      return BaudrateTooLow;
    }
    if baudrate > BAUDRATE_REF_BASE && (!isHSeries || baudrate > BAUDRATE_REF_HIGH) {
      return BaudrateTooHigh;
    }
    DivisorIsPositive(baudrate, isLegacy);
    var hispeed := baudrate > BAUDRATE_REF_BASE;
    var clock := Clock(hispeed);
    var divisor := Divisor(clock, baudrate, isLegacy);
    var best, bestBaud, bestDiff := 0, 0, 0;
    for i := 0 to 2
      invariant i == 1 ==> best == Tried(hispeed, isLegacy, divisor, 0) && best > 0
      invariant i == 2 ==> best > 0 && best == Chosen(baudrate, isLegacy)
      invariant i > 0 ==> bestBaud == Estimate(clock, best) && bestDiff == Distance(bestBaud, baudrate)
    {
      hide Estimate;
      var try := Tried(hispeed, isLegacy, divisor, i);
      var estimate := Estimate(clock, try);
      var diff := Distance(estimate, baudrate);
      if i == 0 || diff < bestDiff {
        best, bestBaud, bestDiff := try, estimate, diff;
        if diff == 0 {
          break;
        }
      }
    }
    ChosenCanBeEncoded(baudrate, isLegacy);
    RequestComesBack(best, hispeed, hasMpsse, port);
    r := Converted(bestBaud, best, Encoded(best, hispeed, hasMpsse, port));
  }

  lemma Rates()
    ensures Estimate(BAUDRATE_REF_BASE, 8) == 3_000_000 && Estimate(BAUDRATE_REF_BASE, 12) == 2_000_000
    ensures Estimate(BAUDRATE_REF_BASE, 16) == 1_500_000
  {
  }

  /** Between 9 and 15 only the divisor 16 is tried. */
  lemma SixteenIsChosen(baudrate: nat)
    requires 1_500_000 < baudrate && 9 * baudrate <= BAUDRATE_REF_BASE * 8
    ensures IsClosest(false, false, baudrate, 16) <==> baudrate <= 1_750_000
  {
    Rates();
    hide Estimate;
    if baudrate <= 1_750_000 {
      forall d: nat {:trigger Estimate(Clock(false), d)} | Supported(false, false, d)
        ensures Distance(Estimate(Clock(false), 16), baudrate) <= Distance(Estimate(Clock(false), d), baudrate)
      {
        if d >= 16 {
          LargerIsSlower(BAUDRATE_REF_BASE, 16, d);
        }
      }
    } else {
      assert Supported(false, false, 12);
      assert Distance(Estimate(Clock(false), 12), baudrate) < Distance(Estimate(Clock(false), 16), baudrate);
    }
  }

  /** 2 MHz becomes 1.5 MHz, although the divisor 12 gives it exactly and has the code 1. */
  lemma FarRateIsChosen()
    ensures Divisor(Clock(Hispeed(2_000_000)), 2_000_000, false) > 0 && Chosen(2_000_000, false) == 16
    ensures Estimate(BAUDRATE_REF_BASE, 16) == 1_500_000
    ensures Supported(false, false, 12) && Estimate(BAUDRATE_REF_BASE, 12) == 2_000_000 && EncodedDivisor(12) == 1
  {
    Rates();
  }

  /** With a ratio of 8 the divisor 8 is the closest, whichever comes next. */
  lemma EightIsChosen(legacy: bool, baudrate: nat, second: nat)
    requires 9 * baudrate > BAUDRATE_REF_BASE * 8 && baudrate <= BAUDRATE_REF_BASE && second in {12, 16}
    ensures Better(BAUDRATE_REF_BASE, baudrate, 8, second) == 8 && IsClosest(false, legacy, baudrate, 8)
  {
    Rates();
    hide Estimate;
    forall d: nat {:trigger Estimate(Clock(false), d)} | Supported(false, legacy, d)
      ensures Distance(Estimate(Clock(false), 8), baudrate) <= Distance(Estimate(Clock(false), d), baudrate)
    {
      if d >= 12 {
        LargerIsSlower(BAUDRATE_REF_BASE, 12, d);
      }
    }
  }

  lemma TwoNeighbours(hispeed: bool, legacy: bool, baudrate: nat, d: nat, high: nat)
    requires Supported(hispeed, legacy, d) && Supported(hispeed, legacy, high) && d < high
    requires forall c: nat :: Supported(hispeed, legacy, c) ==> c <= d || c >= high
    requires d * baudrate <= Clock(hispeed) * 8 < high * baudrate
    ensures IsClosest(hispeed, legacy, baudrate, Better(Clock(hispeed), baudrate, d, high))
  {
    hide Estimate;
    NotTooSlow(Clock(hispeed), baudrate, d);
    NotTooFast(Clock(hispeed), baudrate, high);
    Nearest(hispeed, legacy, baudrate, d, high, Better(Clock(hispeed), baudrate, d, high));
  }

  lemma LargestIsChosen(baudrate: nat)
    requires 0x1_FFFF * baudrate <= BAUDRATE_REF_BASE * 8
    ensures IsClosest(false, false, baudrate, 0x1_FFFF)
  {
    hide Estimate;
    NotTooSlow(BAUDRATE_REF_BASE, baudrate, 0x1_FFFF);
    Nearest(false, false, baudrate, 0x1_FFFF, 0x1_FFFF, 0x1_FFFF);
  }

  /**
    On a device that is not a legacy one, the rate is the closest that any
    divisor gives, unless the ratio to the clock is at least 9 and the rate above
    1.75 MHz: only 16 is then tried, and 12 never is.
   */
  lemma ClosestIsChosen(baudrate: nat)
    requires InRange(baudrate, true)
    ensures Divisor(Clock(Hispeed(baudrate)), baudrate, false) > 0
    ensures IsClosest(Hispeed(baudrate), false, baudrate, Chosen(baudrate, false)) <==>
      !(1_750_000 < baudrate && 9 * baudrate <= BAUDRATE_REF_BASE * 8)
  {
    hide Estimate, IsClosest;
    var hispeed := Hispeed(baudrate);
    var d := Clock(hispeed) * 8 / baudrate;
    Ratio(Clock(hispeed), baudrate);
    AtLeast(Clock(hispeed) * 8, baudrate, 8);
    if hispeed || d >= 16 {
      if !hispeed {
        Times(baudrate, 16, d);
      }
      if hispeed || d < 0x1_FFFF {
        TwoNeighbours(hispeed, false, baudrate, d, d + 1);
      } else {
        Times(baudrate, 0x1_FFFF, d);
        LargestIsChosen(baudrate);
      }
    } else if d == 8 {
      EightIsChosen(false, baudrate, 16);
    } else {
      Times(baudrate, 9, d);
      Times(baudrate, d + 1, 16);
      SixteenIsChosen(baudrate);
    }
  }

  /** ----- legacy devices ----- */

  /** From 12 to 15 the divisor becomes 16. */
  lemma SixteenIsClosest(baudrate: nat)
    requires 1_500_000 < baudrate <= 2_000_000
    ensures IsClosest(false, true, baudrate, 16)
  {
    Rates();
    hide Estimate;
    forall d: nat {:trigger Estimate(Clock(false), d)} | Supported(false, true, d)
      ensures Distance(Estimate(Clock(false), 16), baudrate) <= Distance(Estimate(Clock(false), d), baudrate)
    {
      if d >= 16 {
        LargerIsSlower(BAUDRATE_REF_BASE, 16, d);
      }
    }
  }

  /** The next fraction that a legacy device supports. */
  function NextFraction(divisor: nat): nat {
    if divisor % 8 == 2 then divisor + 2 else if divisor % 8 == 4 then divisor + 4 else divisor + 1
  }

  /** The next fraction below, or the divisor itself. */
  function FractionBelow(divisor: nat): nat {
    var e := divisor % 8;
    if e == 3 || e == 5 then divisor - 1
    else if e == 6 then divisor - 2
    else if e == 7 then divisor - 3
    else divisor
  }

  lemma RoundedToFractions(d: nat)
    ensures FractionBelow(d) == d - AmAdjustDown[d % 8]
    ensures Fraction(d) ==> AmAdjustUp[d % 8] == 0 && d + 1 + AmAdjustUp[(d + 1) % 8] == NextFraction(d)
  {
    var e := d % 8;
    assert e == 0 || e == 1 || e == 2 || e == 3 || e == 4 || e == 5 || e == 6 || e == 7;
    assert (d + 1) % 8 == if e == 7 then 0 else e + 1;
  }

  lemma FractionsAround(d: nat)
    requires d >= 16
    ensures var low := FractionBelow(d); low >= 16 && Fraction(low) && Fraction(NextFraction(low)) && low <= d < NextFraction(low)
  {
  }

  lemma NoneBetween(low: nat, c: nat)
    requires Fraction(low) && Fraction(c)
    ensures c <= low || c >= NextFraction(low)
  {
  }

  /** What is tried from 16 on: the supported fraction below, and the next one, up to the largest. */
  lemma LegacyTries(d: nat)
    requires d >= 16
    ensures var low := FractionBelow(d);
      && low >= 16
      && Tried(false, true, low, 0) == (if low > 0x1_FFF8 then 0x1_FFF8 else low)
      && Tried(false, true, low, 1) == (if low >= 0x1_FFF8 then 0x1_FFF8 else NextFraction(low))
  {
    FractionsAround(d);
    RoundedToFractions(FractionBelow(d));
    LargestFraction(FractionBelow(d));
    hide FractionBelow, Fraction, NextFraction;
  }

  lemma LargestFraction(low: nat)
    requires Fraction(low)
    ensures NextFraction(low) > 0x1_FFF8 <==> low >= 0x1_FFF8
  {
  }

  lemma LargestLegacy(baudrate: nat)
    requires 0x1_FFF8 * baudrate <= BAUDRATE_REF_BASE * 8
    ensures IsClosest(false, true, baudrate, 0x1_FFF8)
  {
    hide Estimate;
    NotTooSlow(BAUDRATE_REF_BASE, baudrate, 0x1_FFF8);
    Nearest(false, true, baudrate, 0x1_FFF8, 0x1_FFF8, 0x1_FFF8);
  }

  lemma LegacyFractions(baudrate: nat, d: nat)
    requires d >= 16 && d * baudrate <= BAUDRATE_REF_BASE * 8 < (d + 1) * baudrate
    ensures var low := FractionBelow(d);
      && Tried(false, true, low, 0) > 0 && Tried(false, true, low, 1) > 0
      && IsClosest(false, true, baudrate, Better(BAUDRATE_REF_BASE, baudrate, Tried(false, true, low, 0), Tried(false, true, low, 1)))
  {
    hide Estimate, IsClosest, FractionBelow, Tried, Supported, Fraction, NextFraction;
    var low := FractionBelow(d);
    FractionsAround(d);
    LegacyTries(d);
    Times(baudrate, low, d);
    if low >= 0x1_FFF8 {
      Times(baudrate, 0x1_FFF8, low);
      LargestLegacy(baudrate);
    } else {
      Times(baudrate, d + 1, NextFraction(low));
      LargestFraction(low);
      NeighboursSuit(low);
      TwoNeighbours(false, true, baudrate, low, NextFraction(low));
    }
  }

  lemma NeighboursSuit(low: nat)
    requires Fraction(low) && 16 <= low < 0x1_FFF8
    ensures Fraction(NextFraction(low)) && Supported(false, true, low) && Supported(false, true, NextFraction(low))
    ensures forall c: nat :: Supported(false, true, c) ==> c <= low || c >= NextFraction(low)
  {
    LargestFraction(low);
    forall c: nat | Supported(false, true, c) && c >= 16
      ensures c <= low || c >= NextFraction(low)
    {
      NoneBetween(low, c);
    }
  }

  /** Below 16 the fractions are 8, 9, 10 and 12. */
  lemma LegacySmall(d: nat)
    requires 8 <= d < 16
    ensures var low := FractionBelow(d); var (first, second) := (Tried(false, true, low, 0), Tried(false, true, low, 1));
      if d == 8 then first == 8 && second == 12 else if d < 12 then first == second == 12 else first == second == 16
  {
    assert d == 8 || d == 9 || d == 10 || d == 11 || d == 12 || d == 13 || d == 14 || d == 15;
  }

  lemma LegacyChosen(baudrate: nat)
    requires InRange(baudrate, false)
    ensures var d := BAUDRATE_REF_BASE * 8 / baudrate; var low := FractionBelow(d);
      && Clock(Hispeed(baudrate)) == BAUDRATE_REF_BASE && Divisor(BAUDRATE_REF_BASE, baudrate, true) == low > 0
      && Tried(false, true, low, 0) > 0 && Tried(false, true, low, 1) > 0
      && Chosen(baudrate, true) == Better(BAUDRATE_REF_BASE, baudrate, Tried(false, true, low, 0), Tried(false, true, low, 1))
  {
    RoundedToFractions(BAUDRATE_REF_BASE * 8 / baudrate);
    DivisorIsPositive(baudrate, true);
    hide Estimate, FractionBelow, Better;
  }

  /**
    A legacy device gets the closest rate of its divisors exactly unless 12 is
    chosen, which it does not have: for rates above 2 MHz with a ratio of at
    least 9.
   */
  lemma LegacyClosest(baudrate: nat)
    requires InRange(baudrate, false)
    ensures Divisor(Clock(Hispeed(baudrate)), baudrate, true) > 0
    ensures Chosen(baudrate, true) == 12 <==> 2_000_000 < baudrate && 9 * baudrate <= BAUDRATE_REF_BASE * 8
    ensures IsClosest(false, true, baudrate, Chosen(baudrate, true)) <==> Chosen(baudrate, true) != 12
  {
    LegacyChosen(baudrate);
    TwelveIsNone(baudrate);
    hide Estimate, IsClosest, Tried, Chosen, Divisor, FractionBelow;
    var d := BAUDRATE_REF_BASE * 8 / baudrate;
    Ratio(BAUDRATE_REF_BASE, baudrate);
    AtLeast(BAUDRATE_REF_BASE * 8, baudrate, 8);
    if d >= 16 {
      Times(baudrate, 16, d);
      LegacyFractions(baudrate, d);
    } else {
      LegacySmall(d);
      if d == 8 {
        EightIsChosen(true, baudrate, 12);
      } else if d < 12 {
        Times(baudrate, 9, d);
        Times(baudrate, d + 1, 12);
      } else {
        Times(baudrate, 12, d);
        Times(baudrate, d + 1, 16);
        SixteenIsClosest(baudrate);
      }
    }
  }

  lemma TwelveIsNone(baudrate: nat)
    ensures !IsClosest(false, true, baudrate, 12)
  {
  }

  /** 2.4 MHz gets the divisor 12 on a legacy device. */
  lemma LegacyTwelve()
    ensures Divisor(Clock(Hispeed(2_400_000)), 2_400_000, true) > 0 && Chosen(2_400_000, true) == 12 && !Supported(false, true, 12)
  {
    Rates();
  }
}
