/** Arithmetic on seconds/nanoseconds pairs (`PTPv2/src/arith.c`). C division and
    remainder truncate toward zero, and a signed 32-bit overflow is undefined, so every
    method asks for exactly the intermediate results to fit. */
module TimeArithmetic {
  import opened Octets

  const INT_MAX: int := 0x7fff_ffff

  predicate FitsInt32(x: int) {
    -0x8000_0000 <= x < 0x8000_0000
  }

  /** C's `/` for a positive divisor. */
  function Quot(a: int, b: int): int
    requires 0 < b
  {
    if 0 <= a then a / b else -((-a) / b)
  }

  /** C's `%` for a positive divisor. */
  function Rem(a: int, b: int): int
    requires 0 < b
  {
    a - Quot(a, b) * b
  }

  function Abs(x: int): int {
    if x < 0 then -x else x
  }

  datatype Time = Time(seconds: int, nanoseconds: int) {
    /** The time in nanoseconds. */
    function Total(): int {
      seconds * 1_000_000_000 + nanoseconds
    }

    /** Less than a second of nanoseconds, and no disagreement between the signs. */
    predicate Normal() {
      && Abs(nanoseconds) < 1_000_000_000
      && (seconds > 0 ==> nanoseconds >= 0)
      && (seconds < 0 ==> nanoseconds <= 0)
    }

    predicate Fits() {
      FitsInt32(seconds) && FitsInt32(nanoseconds)
    }

    /** What every operation delivers: the canonical representation of a total. */
    predicate Represents(total: int) {
      Normal() && Total() == total
    }
  }

  // ----- Normal forms

  /** A total has one canonical representation only, so `Represents` pins a result down
      completely. */
  lemma NormalFormIsUnique(x: Time, y: Time)
    requires x.Normal() && y.Normal()
    ensures x.Total() == y.Total() <==> x == y
  {
  }

  /** It is the truncated division of the total by one second. */
  lemma NormalFormIsTruncatedDivision(x: Time)
    ensures x.Normal() <==>
      x == Time(Quot(x.Total(), 1_000_000_000), Rem(x.Total(), 1_000_000_000))
  {
  }

  class TimeInternal {
    var seconds: Int32
    var nanoseconds: Int32

    function Value(): Time
      reads this
    {
      Time(seconds, nanoseconds)
    }

    constructor ()
      ensures Value() == Time(0, 0)
    {
      seconds, nanoseconds := 0, 0;
    }
  }

  /** The whole seconds in the nanoseconds can be added to the seconds. */
  predicate NormalizeFits(x: Time) {
    FitsInt32(x.seconds + Quot(x.nanoseconds, 1_000_000_000))
  }

  method NormalizeTime(r: TimeInternal)
    requires NormalizeFits(r.Value())
    modifies r
    ensures r.Value().Represents(old(r.Value().Total()))
  {
    r.seconds := r.seconds + Quot(r.nanoseconds, 1_000_000_000);
    r.nanoseconds := r.nanoseconds - Quot(r.nanoseconds, 1_000_000_000) * 1_000_000_000;
    if r.seconds > 0 && r.nanoseconds < 0 {
      r.seconds := r.seconds - 1;
      r.nanoseconds := r.nanoseconds + 1_000_000_000;
    } else if r.seconds < 0 && r.nanoseconds > 0 {
      r.seconds := r.seconds + 1;
      r.nanoseconds := r.nanoseconds - 1_000_000_000;
    }
  }

  // ----- Sums and differences. The result object may be one of the operands.

  predicate AddFits(x: Time, y: Time) {
    && FitsInt32(x.seconds + y.seconds)
    && FitsInt32(x.nanoseconds + y.nanoseconds)
    && NormalizeFits(Time(x.seconds + y.seconds, x.nanoseconds + y.nanoseconds))
  }

  predicate SubFits(x: Time, y: Time) {
    && FitsInt32(x.seconds - y.seconds)
    && FitsInt32(x.nanoseconds - y.nanoseconds)
    && NormalizeFits(Time(x.seconds - y.seconds, x.nanoseconds - y.nanoseconds))
  }

  method AddTime(r: TimeInternal, x: TimeInternal, y: TimeInternal)
    requires AddFits(x.Value(), y.Value())
    modifies r
    ensures r.Value().Represents(old(x.Value().Total()) + old(y.Value().Total()))
  {
    r.seconds := x.seconds + y.seconds;
    r.nanoseconds := x.nanoseconds + y.nanoseconds;
    NormalizeTime(r);
  }

  method SubTime(r: TimeInternal, x: TimeInternal, y: TimeInternal)
    requires SubFits(x.Value(), y.Value())
    modifies r
    ensures r.Value().Represents(old(x.Value().Total()) - old(y.Value().Total()))
  {
    r.seconds := x.seconds - y.seconds;
    r.nanoseconds := x.nanoseconds - y.nanoseconds;
    NormalizeTime(r);
  }

  /** What normalisation makes of nanoseconds below two seconds. */
  function CarriedOver(seconds: int, nanoseconds: int): Time {
    var q := if nanoseconds >= 1_000_000_000 then 1 else if nanoseconds <= -1_000_000_000 then -1 else 0;
    var s, n := seconds + q, nanoseconds - q * 1_000_000_000;
    if s > 0 && n < 0 then Time(s - 1, n + 1_000_000_000)
    else if s < 0 && n > 0 then Time(s + 1, n - 1_000_000_000)
    else Time(s, n)
  }

  lemma CarriedOverRepresents(seconds: int, nanoseconds: int, t: Time)
    requires Abs(nanoseconds) < 2_000_000_000
    requires t.Represents(seconds * 1_000_000_000 + nanoseconds)
    ensures t == CarriedOver(seconds, nanoseconds)
  {
    CarriedOverIsNormal(seconds, nanoseconds);
    NormalFormIsUnique(t, CarriedOver(seconds, nanoseconds));
  }

  lemma CarriedOverIsNormal(seconds: int, nanoseconds: int)
    requires Abs(nanoseconds) < 2_000_000_000
    ensures CarriedOver(seconds, nanoseconds).Represents(seconds * 1_000_000_000 + nanoseconds)
  {
  }

  /** The parts of two normal times are added or subtracted one by one. */
  lemma PartsOfResult(x: Time, y: Time)
    requires x.Normal() && y.Normal()
    ensures x.Total() + y.Total() == (x.seconds + y.seconds) * 1_000_000_000 + (x.nanoseconds + y.nanoseconds)
    ensures x.Total() - y.Total() == (x.seconds - y.seconds) * 1_000_000_000 + (x.nanoseconds - y.nanoseconds)
    ensures Abs(x.nanoseconds + y.nanoseconds) < 2_000_000_000 && Abs(x.nanoseconds - y.nanoseconds) < 2_000_000_000
  {
  }

  lemma SumIsCarriedOver(x: Time, y: Time, sum: Time)
    requires x.Normal() && y.Normal() && sum.Represents(x.Total() + y.Total())
    ensures sum == CarriedOver(x.seconds + y.seconds, x.nanoseconds + y.nanoseconds)
  {
    PartsOfResult(x, y);
    CarriedOverRepresents(x.seconds + y.seconds, x.nanoseconds + y.nanoseconds, sum);
  }

  lemma DifferenceIsCarriedOver(x: Time, y: Time, difference: Time)
    requires x.Normal() && y.Normal() && difference.Represents(x.Total() - y.Total())
    ensures difference == CarriedOver(x.seconds - y.seconds, x.nanoseconds - y.nanoseconds)
  {
    PartsOfResult(x, y);
    CarriedOverRepresents(x.seconds - y.seconds, x.nanoseconds - y.nanoseconds, difference);
  }

  lemma AddFitsByCarrying(x: Time, y: Time)
    requires x.Normal() && y.Normal() && x.Fits() && y.Fits()
    ensures AddFits(x, y) <==> CarriedOver(x.seconds + y.seconds, x.nanoseconds + y.nanoseconds).Fits()
  {
  }

  lemma SubFitsByCarrying(x: Time, y: Time)
    requires x.Normal() && y.Normal() && x.Fits() && y.Fits()
    ensures SubFits(x, y) <==>
      && CarriedOver(x.seconds - y.seconds, x.nanoseconds - y.nanoseconds).Fits()
      && !(x.seconds == 0 && y.seconds == -0x8000_0000)
  {
  }

  /** On normal operands no intermediate step overflows unless the exact result itself
      cannot be represented: the only thing a caller has to bound is the answer. */
  lemma AddOverflowsOnlyWithItsResult(x: Time, y: Time, sum: Time)
    requires x.Normal() && y.Normal() && x.Fits() && y.Fits()
    requires sum.Represents(x.Total() + y.Total())
    ensures AddFits(x, y) <==> sum.Fits()
  {
    SumIsCarriedOver(x, y, sum);
    AddFitsByCarrying(x, y);
  }

  /** The same for subtraction, with one exception: from a time below one second the most
      negative second cannot be subtracted even where the result would fit. */
  lemma SubOverflowsOnlyWithItsResult(x: Time, y: Time, difference: Time)
    requires x.Normal() && y.Normal() && x.Fits() && y.Fits()
    requires difference.Represents(x.Total() - y.Total())
    ensures SubFits(x, y) <==>
      difference.Fits() && !(x.seconds == 0 && y.seconds == -0x8000_0000)
  {
    DifferenceIsCarriedOver(x, y, difference);
    SubFitsByCarrying(x, y);
  }

  // ----- Halving

  /** The nanoseconds once the odd second has been carried into them. */
  function Carried(x: Time): int {
    x.nanoseconds + Rem(x.seconds, 2) * 1_000_000_000
  }

  lemma HalvedParts(whole: int, part: int)
    ensures Abs(2 * (whole + Quot(part, 2)) - (2 * whole + part)) <= 1
    ensures Quot(2 * whole + part, 2) == whole + Quot(part, 2) <==>
      part % 2 == 0 || (2 * whole + part > 0 <==> part > 0)
  {
  }

  /** The result is normal and at most half a nanosecond off. It is the total truncated
      toward zero unless the total is odd and its sign differs from that of the carried
      nanoseconds; then it is rounded away from zero. */
  ghost predicate IsHalved(half: Time, x: Time) {
    && half.Normal()
    && Abs(2 * half.Total() - x.Total()) <= 1
    && (half.Total() == Quot(x.Total(), 2) <==>
        Carried(x) % 2 == 0 || (x.Total() > 0 <==> Carried(x) > 0))
  }

  lemma HalvesMakeAHalf(half: Time, x: Time)
    requires half.Represents(Quot(x.seconds, 2) * 1_000_000_000 + Quot(Carried(x), 2))
    ensures IsHalved(half, x)
  {
    var whole := Quot(x.seconds, 2) * 1_000_000_000;
    assert x.Total() == 2 * whole + Carried(x);
    HalvedParts(whole, Carried(x));
  }

  method Div2Time(r: TimeInternal)
    requires FitsInt32(Carried(r.Value()))
    modifies r
    ensures IsHalved(r.Value(), old(r.Value()))
  {
    r.nanoseconds := r.nanoseconds + Rem(r.seconds, 2) * 1_000_000_000;
    r.seconds := Quot(r.seconds, 2);
    r.nanoseconds := Quot(r.nanoseconds, 2);
    NormalizeTime(r);
    HalvesMakeAHalf(r.Value(), old(r.Value()));
  }

  /** A normal time can always be halved, and is then truncated toward zero. */
  lemma NormalTimesHalveExactly(x: Time, half: Time)
    requires x.Normal()
    ensures FitsInt32(Carried(x))
    ensures IsHalved(half, x) <==> half.Represents(Quot(x.Total(), 2))
  {
    CarriedSign(x);
    QuotByTwo(x.Total());
  }

  lemma CarriedSign(x: Time)
    requires x.Normal()
    ensures FitsInt32(Carried(x))
    ensures Carried(x) % 2 == 0 || (x.Total() > 0 <==> Carried(x) > 0)
  {
  }

  lemma QuotByTwo(a: int)
    ensures Abs(2 * Quot(a, 2) - a) <= 1
  {
  }

  /** Subtracting undoes adding, halving undoes doubling, and sums may be regrouped. */
  lemma AdditionLaws(x: Time, y: Time, z: Time, xy: Time, yz: Time, left: Time, right: Time, back: Time,
                     double: Time, half: Time)
    requires x.Normal() && xy.Represents(x.Total() + y.Total()) && yz.Represents(y.Total() + z.Total())
    requires left.Represents(xy.Total() + z.Total()) && right.Represents(x.Total() + yz.Total())
    requires back.Represents(xy.Total() - y.Total())
    requires double.Represents(x.Total() + x.Total()) && IsHalved(half, double)
    ensures left == right && back == x == half
  {
    NormalFormIsUnique(left, right);
    NormalFormIsUnique(back, x);
    NormalFormIsUnique(half, x);
  }

  // ----- Scaled nanoseconds

  /** Correction fields count in 2^-16 ns; the fraction is dropped. The most negative
      64-bit value has no positive counterpart, and C leaves it undefined. */
  method ScaledNanosecondsToInternalTime(scaledNanoseconds: Int64, internal: TimeInternal)
    requires scaledNanoseconds != -0x8000_0000_0000_0000
    modifies internal
    ensures internal.Value().Represents(Quot(scaledNanoseconds, 0x1_0000))
    ensures Abs(internal.seconds) <= 140737
  {
    var nanoseconds: Int64 := scaledNanoseconds;
    var sign: int;
    if nanoseconds < 0 {
      nanoseconds := -nanoseconds;
      sign := -1;
    } else {
      sign := 1;
    }
    nanoseconds := nanoseconds / 0x1_0000;
    assert Quot(scaledNanoseconds, 0x1_0000) == if sign == 1 then nanoseconds else -nanoseconds;
    assert 0 <= nanoseconds / 1_000_000_000 <= 140737;
    internal.seconds := sign * (nanoseconds / 1_000_000_000);
    internal.nanoseconds := sign * (nanoseconds % 1_000_000_000);
  }

  /** The conversion is odd: a negated correction gives the negated time. */
  lemma ScaledConversionIsOdd(scaled: int, x: Time, y: Time)
    requires x.Represents(Quot(scaled, 0x1_0000)) && y.Represents(Quot(-scaled, 0x1_0000))
    ensures y == Time(-x.seconds, -x.nanoseconds)
  {
  }

  // ----- Accumulated corrections

  function Sum(values: seq<int>): int {
    if values == [] then 0 else Sum(values[..|values| - 1]) + values[|values| - 1]
  }

  /** Convert the corrections one by one and add up the times, as the handlers of the
      second message of an exchange do; the total of the result. */
  function Accumulated(scaled: seq<int>): int {
    if scaled == [] then 0
    else Accumulated(scaled[..|scaled| - 1]) + Quot(scaled[|scaled| - 1], 0x1_0000)
  }

  lemma QuotOfSum(a: int, b: int)
    ensures Abs(Quot(a + b, 0x1_0000) - Quot(a, 0x1_0000) - Quot(b, 0x1_0000)) <= 1
  {
  }

  /** Converting before adding costs at most n - 1 nanoseconds against converting the
      exact sum of the n corrections: each addition can lose or gain one. */
  lemma {:induction false} AccumulationError(scaled: seq<int>)
    requires scaled != []
    ensures Abs(Accumulated(scaled) - Quot(Sum(scaled), 0x1_0000)) <= |scaled| - 1
  {
    var n := |scaled| - 1;
    if n > 0 {
      AccumulationError(scaled[..n]);
      QuotOfSum(Sum(scaled[..n]), scaled[n]);
    }
  }

  lemma CorrectionIsAdded(x: Time, y: Time, n: nat)
    requires x.Normal() && y.Normal() && 1 <= n < 15258
    requires Abs(x.seconds) <= 140738 * n && Abs(y.seconds) <= 140737
    ensures AddFits(x, y)
  {
  }

  lemma CorrectionStaysBounded(x: Time, y: Time, sum: Time, n: nat)
    requires x.Normal() && y.Normal() && sum.Represents(x.Total() + y.Total())
    requires Abs(x.seconds) <= 140738 * n && Abs(y.seconds) <= 140737
    ensures Abs(sum.seconds) <= 140738 * (n + 1)
  {
    SumIsCarriedOver(x, y, sum);
  }

  lemma AccumulatedNext(scaled: seq<int>, i: nat)
    requires i < |scaled|
    ensures Accumulated(scaled[..i + 1]) == Accumulated(scaled[..i]) + Quot(scaled[i], 0x1_0000)
  {
    assert scaled[..i + 1][..i] == scaled[..i];
  }

  /** The times themselves, converted and added in place. Up to 15258 corrections of any size
      add up without an overflow in any step. */
  method AccumulateCorrections(scaled: seq<Int64>, acc: TimeInternal, correction: TimeInternal)
    requires 1 <= |scaled| <= 15258 && acc != correction
    requires forall k :: 0 <= k < |scaled| ==> scaled[k] != -0x8000_0000_0000_0000
    modifies acc, correction
    ensures acc.Value().Represents(Accumulated(scaled))
    ensures Abs(acc.Value().Total() - Quot(Sum(scaled), 0x1_0000)) <= |scaled| - 1
  {
    ScaledNanosecondsToInternalTime(scaled[0], acc);
    var i := 1;
    AccumulatedNext(scaled, 0);
    while i < |scaled|
      invariant 1 <= i <= |scaled|
      invariant acc.Value().Represents(Accumulated(scaled[..i])) && Abs(acc.seconds) <= 140738 * i
    {
      ScaledNanosecondsToInternalTime(scaled[i], correction);
      ghost var x, y := acc.Value(), correction.Value();
      CorrectionIsAdded(x, y, i);
      AddTime(acc, acc, correction);
      CorrectionStaysBounded(x, y, acc.Value(), i);
      AccumulatedNext(scaled, i);
      i := i + 1;
    }
    assert scaled[..i] == scaled;
    AccumulationError(scaled);
  }

  // ----- The delay request-response exchange (`PTPv2/src/dep/servo.c`, unfiltered)

  /** arrival - departure - correction, by two subtractions. */
  ghost predicate IsElapsed(t: Time, arrival: Time, departure: Time, correction: Time) {
    t.Represents(arrival.Total() - departure.Total() - correction.Total())
  }

  lemma OffsetFromDelays(tms: int, tsm: int, mean: int, theta: int, toSlave: int, toMaster: int)
    requires tms == toSlave + theta && tsm == toMaster - theta && mean == Quot(tms + tsm, 2)
    ensures Abs(2 * (tms - mean - theta) - (toSlave - toMaster)) <= 1
    ensures toSlave == toMaster ==> mean == toSlave && tms - mean == theta
  {
  }

  /** The law the arithmetic is there for. A Sync leaves the master at t1 and arrives at
      t2, a Delay_Req leaves at t3 and arrives at t4, and a later Sync is timed by t5 and
      t6; the slave runs `theta` ahead, the paths take `toSlave` and `toMaster`, and the
      correction fields c1, c3 and c5 hold the residence times. The offset computed from
      the mean path delay is off by half the path asymmetry, up to one rounding step; a
      symmetric path gives delay and offset exactly. */
  lemma DelayExchangeRecoversOffset(
    t1: Time, t2: Time, c1: Time, t3: Time, t4: Time, c3: Time, t5: Time, t6: Time, c5: Time,
    tms: Time, tsm: Time, sum: Time, mean: Time, tms': Time, offset: Time,
    theta: int, toSlave: int, toMaster: int)
    requires t2.Total() == t1.Total() + c1.Total() + toSlave + theta && IsElapsed(tms, t2, t1, c1)
    requires t4.Total() == t3.Total() + c3.Total() + toMaster - theta && IsElapsed(tsm, t4, t3, c3)
    requires sum.Represents(tms.Total() + tsm.Total()) && IsHalved(mean, sum)
    requires t6.Total() == t5.Total() + c5.Total() + toSlave + theta && IsElapsed(tms', t6, t5, c5)
    requires offset.Represents(tms'.Total() - mean.Total())
    ensures Abs(2 * (offset.Total() - theta) - (toSlave - toMaster)) <= 1
    ensures toSlave == toMaster ==> mean.Total() == toSlave && offset.Total() == theta
  {
    NormalTimesHalveExactly(sum, mean);
    OffsetFromDelays(tms'.Total(), tsm.Total(), mean.Total(), theta, toSlave, toMaster);
  }

  // ----- Timestamps

  /** The wire form: 48 bits of seconds in two parts, and nanoseconds. */
  datatype Stamp = Stamp(lsb: UInt32, msb: UInt16, nanoseconds: UInt32)

  class Timestamp {
    var lsb: UInt32
    var msb: UInt16
    var nanosecondsField: UInt32

    function Value(): Stamp
      reads this
    {
      Stamp(lsb, msb, nanosecondsField)
    }
  }

  /** Negative times are refused. */
  function ToStamp(t: Time): Option<Stamp>
    requires t.Fits()
  {
    if t.seconds < 0 || t.nanoseconds < 0 then None
    else Some(Stamp(t.seconds, 0, t.nanoseconds))
  }

  /** Only the low 32 bits of the seconds are looked at, and INT_MAX itself is refused. */
  function FromStamp(s: Stamp): Option<Time> {
    if s.lsb < INT_MAX then
      Some(Time(s.lsb, if s.nanoseconds <= INT_MAX then s.nanoseconds else s.nanoseconds - 0x1_0000_0000))
    else
      None
  }

  method FromInternalTime(internal: TimeInternal, external: Timestamp)
    modifies external
    ensures external.Value() ==
      match ToStamp(internal.Value()) case Some(s) => s case None => old(external.Value())
  {
    if internal.seconds < 0 || internal.nanoseconds < 0 {
      return;
    }
    external.lsb := internal.seconds;
    external.nanosecondsField := internal.nanoseconds;
    external.msb := 0;
  }

  method ToInternalTime(internal: TimeInternal, external: Timestamp)
    modifies internal
    ensures internal.Value() ==
      match FromStamp(external.Value()) case Some(t) => t case None => old(internal.Value())
  {
    if external.lsb < INT_MAX {
      internal.seconds := external.lsb;
      internal.nanoseconds := if external.nanosecondsField <= INT_MAX
        then external.nanosecondsField else external.nanosecondsField - 0x1_0000_0000;
    }
  }

  /** A stamp takes a time as it is, and a time takes the low seconds of a stamp as they are and
      its nanoseconds modulo 2^32. */
  lemma StampConversions(t: Time, s: Stamp)
    requires t.Fits()
    ensures ToStamp(t).None? <==> t.seconds < 0 || t.nanoseconds < 0
    ensures ToStamp(t).Some? ==> var w := ToStamp(t).value;
      w.msb == 0 && w.lsb == t.seconds && w.nanoseconds == t.nanoseconds
    ensures FromStamp(s).None? <==> s.lsb >= INT_MAX
    ensures FromStamp(s).Some? ==> var u := FromStamp(s).value;
      u.Fits() && u.seconds == s.lsb && (u.nanoseconds - s.nanoseconds) % 0x1_0000_0000 == 0
  {
  }

  /** Exactly which times and which stamps survive a round trip. */
  lemma TimestampRoundTrip(t: Time, s: Stamp)
    requires t.Fits()
    ensures (exists w :: ToStamp(t) == Some(w) && FromStamp(w) == Some(t)) <==>
      0 <= t.seconds < INT_MAX && 0 <= t.nanoseconds
    ensures (exists u: Time :: u.Fits() && FromStamp(s) == Some(u) && ToStamp(u) == Some(s)) <==>
      s.lsb < INT_MAX && s.msb == 0 && s.nanoseconds <= INT_MAX
  {
  }
}
