/** Offset and path delay of a slave as it measures them (`updateOffset`, `updateDelay` and
    `updatePeerDelay` in `PTPv2/src/dep/servo.c`), smoothing included. */
module Servo {
  import opened Octets
  import opened TimeArithmetic
  import opened Smoothing

  const CALIBRATED_OFFSET: int := 10_000
  const UNCALIBRATED_OFFSET: int := 1_000_000

  /** What is left of a measured total: whole seconds are not smoothed. The quantifiers over
      the one sample keep the smoothing folded wherever it is only passed on. */
  ghost predicate Measured(t: Time, f': Filter, f: Filter, total: int)
    requires f.Sound()
  {
    && (forall x :: x == total && Abs(x) < SECOND ==> f' == Smoothed(f, x) && t == Time(0, f'.yPrev))
    && (forall x :: x == total && Abs(x) >= SECOND ==> f' == f && t.Represents(x))
  }

  // ----- The measurements as events

  /** The delay is the one in use, to the master or to the peer; `tms` is the time the last
      Sync took. */
  datatype State = State(tms: int, offset: Time, delay: Time, ofm: Filter, owd: Filter) {
    predicate Sound() {
      ofm.Sound() && owd.Sound()
    }
  }

  /** The time between two timestamps, less the corrections: of a Sync, of a Delay_Req, and
      of a peer exchange in both directions. */
  datatype Measurement = Sync(elapsed: int) | DelayReq(elapsed: int) | PeerDelay(elapsed: int)

  ghost predicate Measures(c: State, e: Measurement, c': State)
    requires c.Sound()
  {
    match e
    case Sync(elapsed) =>
      c' == c.(tms := elapsed, offset := c'.offset, ofm := c'.ofm)
      && Measured(c'.offset, c'.ofm, c.ofm, elapsed - c.delay.Total())
    case DelayReq(elapsed) =>
      if c.ofm.n == 0 then c' == c
      else c' == c.(delay := c'.delay, owd := c'.owd) && Measured(c'.delay, c'.owd, c.owd, Quot(c.tms + elapsed, 2))
    case PeerDelay(elapsed) =>
      c' == c.(delay := c'.delay, owd := c'.owd) && Measured(c'.delay, c'.owd, c.owd, Quot(elapsed, 2))
  }

  predicate In(x: int, lo: int, hi: int) {
    lo <= x <= hi
  }

  predicate FilterIn(f: Filter, lo: int, hi: int) {
    f.n == 0 || In(f.yPrev, lo, hi)
  }

  lemma MeasuredStaysIn(t: Time, f': Filter, f: Filter, total: int, lo: int, hi: int)
    requires f.Sound() && Measured(t, f', f, total)
    requires In(total, lo, hi) && FilterIn(f, lo, hi)
    ensures t.Normal() && In(t.Total(), lo, hi) && f'.Sound() && FilterIn(f', lo, hi)
  {
    if Abs(total) < SECOND {
      SmoothedIsBetween(f, total);
      assert f' == Smoothed(f, total);
    } else {
      assert t.Represents(total);
    }
  }

  /** Below one second a measured time is the sample itself, if it is the first, or else moves
      toward it by its 2^s-th part, up to rounding; in any case it is counted. */
  lemma MeasuredIsAverage(t: Time, f': Filter, f: Filter, total: int)
    requires f.Sound() && Measured(t, f', f, total) && Abs(total) < SECOND
    ensures t == Time(0, f'.yPrev) && 0 < f'.n
    ensures if f.n == 0 then t.Total() == total
            else Abs(Pow2(f'.sPrev) * (t.Total() - f.yPrev) - (total - f.yPrev)) < Pow2(f'.sPrev)
                 && f'.sPrev == ChosenOrder(f.(n := f.n + 1), total) && f'.n == Min(f.n + 1, Pow2(f.s))
  {
    assert f' == Smoothed(f, total);
    SmoothedIsBetween(f, total);
    if 0 < f.n {
      SmoothedIsAverage(f, total);
    }
  }

  /** The limits of what is measured: a Sync takes between `syncLo` and `syncHi` by the clocks
      of its ends, and the delay comes out between `delayLo` and `delayHi`. */
  datatype Limits = Limits(syncLo: int, syncHi: int, delayLo: int, delayHi: int)

  predicate Admits(l: Limits, e: Measurement) {
    match e
    case Sync(elapsed) => In(elapsed, l.syncLo, l.syncHi)
    case DelayReq(elapsed) => l.delayLo <= Quot(l.syncLo + elapsed, 2) && Quot(l.syncHi + elapsed, 2) <= l.delayHi
    case PeerDelay(elapsed) => In(Quot(elapsed, 2), l.delayLo, l.delayHi)
  }

  /** The filters hold nothing from outside the limits. */
  predicate Within(l: Limits, c: State) {
    && c.Sound() && In(c.delay.Total(), l.delayLo, l.delayHi) && FilterIn(c.owd, l.delayLo, l.delayHi)
    && FilterIn(c.ofm, l.syncLo - l.delayHi, l.syncHi - l.delayLo)
    && (c.ofm.n == 0 || In(c.tms, l.syncLo, l.syncHi))
  }

  lemma QuotMonotone(a: int, b: int)
    requires a <= b
    ensures Quot(a, 2) <= Quot(b, 2)
  {
  }

  lemma MeasurementStaysWithin(l: Limits, c: State, e: Measurement, c': State)
    requires Within(l, c) && Admits(l, e) && Measures(c, e, c')
    ensures Within(l, c')
    ensures e.Sync? ==> In(c'.offset.Total(), l.syncLo - l.delayHi, l.syncHi - l.delayLo)
  {
    match e
    case Sync(elapsed) =>
      MeasuredStaysIn(c'.offset, c'.ofm, c.ofm, elapsed - c.delay.Total(), l.syncLo - l.delayHi, l.syncHi - l.delayLo);
    case DelayReq(elapsed) =>
      if c.ofm.n != 0 {
        QuotMonotone(l.syncLo + elapsed, c.tms + elapsed);
        QuotMonotone(c.tms + elapsed, l.syncHi + elapsed);
        MeasuredStaysIn(c'.delay, c'.owd, c.owd, Quot(c.tms + elapsed, 2), l.delayLo, l.delayHi);
      }
    case PeerDelay(elapsed) =>
      MeasuredStaysIn(c'.delay, c'.owd, c.owd, Quot(elapsed, 2), l.delayLo, l.delayHi);
  }

  /** The first delay that is measured is enough to be within the limits, whatever the delay
      was before: with peer delays as soon as one has been exchanged, with delay requests once
      a Sync has been timed. */
  lemma FirstDelayIsWithin(l: Limits, c: State, e: Measurement, c': State)
    requires c.Sound() && c.owd.n == 0 && Admits(l, e) && Measures(c, e, c')
    requires e.PeerDelay? || (e.DelayReq? && c.ofm.n != 0 && In(c.tms, l.syncLo, l.syncHi))
    ensures In(c'.delay.Total(), l.delayLo, l.delayHi) && FilterIn(c'.owd, l.delayLo, l.delayHi)
    ensures c.ofm.n == 0 ==> Within(l, c')
  {
    if e.PeerDelay? {
      MeasuredStaysIn(c'.delay, c'.owd, c.owd, Quot(e.elapsed, 2), l.delayLo, l.delayHi);
    } else {
      QuotMonotone(l.syncLo + e.elapsed, c.tms + e.elapsed);
      QuotMonotone(c.tms + e.elapsed, l.syncHi + e.elapsed);
      MeasuredStaysIn(c'.delay, c'.owd, c.owd, Quot(c.tms + e.elapsed, 2), l.delayLo, l.delayHi);
    }
  }

  /** The states before, between and after the measurements. */
  ghost predicate Trace(states: seq<State>, es: seq<Measurement>) {
    && |states| == |es| + 1
    && (forall i :: 0 <= i < |states| ==> states[i].Sound())
    && forall i :: 0 <= i < |es| ==> Measures(states[i], es[i], states[i + 1])
  }

  /** Smoothing keeps what it is given within limits: over any run, every offset reported is
      one that a single exchange within the limits could have given. */
  lemma {:induction false} RunStaysWithin(l: Limits, states: seq<State>, es: seq<Measurement>, n: nat)
    requires Trace(states, es) && n <= |es| && Within(l, states[0])
    requires forall i :: 0 <= i < |es| ==> Admits(l, es[i])
    ensures Within(l, states[n])
    ensures 0 < n && es[n - 1].Sync? ==>
      In(states[n].offset.Total(), l.syncLo - l.delayHi, l.syncHi - l.delayLo)
    decreases n
  {
    if 0 < n {
      RunStaysWithin(l, states, es, n - 1);
      MeasurementStaysWithin(l, states[n - 1], es[n - 1], states[n]);
    }
  }

  /** The paths between two clocks and the lead of the slave over its master. */
  datatype Link = Link(lead: int, toSlaveLo: int, toSlaveHi: int, toMasterLo: int, toMasterHi: int)

  function LimitsOf(k: Link): Limits {
    Limits(k.toSlaveLo + k.lead, k.toSlaveHi + k.lead,
           Quot(k.toSlaveLo + k.toMasterLo, 2), Quot(k.toSlaveHi + k.toMasterHi, 2))
  }

  // ----- From timestamps to measurements

  function Elapsed(arrival: Time, departure: Time, correction: Time): int {
    arrival.Total() - departure.Total() - correction.Total()
  }

  /** The time there and back between two peers. */
  function Turn(t1: Time, t2: Time, t3: Time, t4: Time, twoStep: bool): int {
    if twoStep then t2.Total() - t1.Total() + (t4.Total() - t3.Total()) else t4.Total() - t1.Total()
  }

  /** The timestamps and corrections of one measurement. */
  datatype Exchange =
    | SyncExchange(ingress: Time, origin: Time, correction: Time)
    | DelayExchange(egress: Time, receive: Time, correction: Time)
    | PeerExchange(t1: Time, t2: Time, t3: Time, t4: Time, correction: Time, twoStep: bool)

  function Reduced(x: Exchange): Measurement {
    match x
    case SyncExchange(ingress, origin, correction) => Sync(Elapsed(ingress, origin, correction))
    case DelayExchange(egress, receive, correction) => DelayReq(Elapsed(receive, egress, correction))
    case PeerExchange(t1, t2, t3, t4, correction, twoStep) =>
      PeerDelay(Turn(t1, t2, t3, t4, twoStep) - correction.Total())
  }

  function ReducedAll(xs: seq<Exchange>): (es: seq<Measurement>)
    ensures |es| == |xs|
  {
    seq(|xs|, i requires 0 <= i < |xs| => Reduced(xs[i]))
  }

  /** How the messages of an exchange travelled: the time on the path, also of the answer if
      there is one, and the time they were held on the way. */
  datatype Transit = Transit(path: int, held: int, back: int, heldBack: int)

  /** What the timestamps are if the slave is ahead by the lead of the link: its own clock
      shows that much more than the master's, and the corrections say how long messages were
      held. In an exchange of one step, the correction includes how long the peer held the
      request before it answered; in one of two steps the timestamps tell that. */
  ghost predicate Travels(k: Link, x: Exchange, w: Transit) {
    match x
    case SyncExchange(ingress, origin, correction) =>
      && In(w.path, k.toSlaveLo, k.toSlaveHi) && w.held == correction.Total()
      && ingress.Total() == origin.Total() + w.path + w.held + k.lead
    case DelayExchange(egress, receive, correction) =>
      && In(w.path, k.toMasterLo, k.toMasterHi) && w.held == correction.Total()
      && receive.Total() == egress.Total() - k.lead + w.path + w.held
    case PeerExchange(t1, t2, t3, t4, correction, twoStep) =>
      && In(w.path, k.toMasterLo, k.toMasterHi) && In(w.back, k.toSlaveLo, k.toSlaveHi)
      && w.held + w.heldBack == correction.Total()
      && if twoStep then
           && t2.Total() == t1.Total() - k.lead + w.path + w.held
           && t4.Total() == t3.Total() + k.lead + w.back + w.heldBack
         else t4.Total() == t1.Total() + w.path + w.held + w.back + w.heldBack
  }

  ghost predicate Over(k: Link, x: Exchange) {
    exists w: Transit :: Travels(k, x, w)
  }

  /** A Sync measures the path and the lead, a Delay_Req the path less the lead, and a peer
      exchange, of one step or of two, both paths and nothing else. */
  lemma ExchangeMeasuresPaths(k: Link, x: Exchange, w: Transit)
    requires Travels(k, x, w)
    ensures Reduced(x) ==
      match x
      case SyncExchange(_, _, _) => Sync(w.path + k.lead)
      case DelayExchange(_, _, _) => DelayReq(w.path - k.lead)
      case PeerExchange(_, _, _, _, _, _) => PeerDelay(w.path + w.back)
  {
  }

  lemma LinkAdmits(k: Link, x: Exchange)
    requires Over(k, x)
    ensures Admits(LimitsOf(k), Reduced(x))
  {
    var w :| Travels(k, x, w);
    ExchangeMeasuresPaths(k, x, w);
    match x
    case SyncExchange(_, _, _) =>
    case DelayExchange(_, _, _) =>
      QuotMonotone(k.toSlaveLo + k.toMasterLo, k.toSlaveLo + w.path);
      QuotMonotone(k.toSlaveHi + w.path, k.toSlaveHi + k.toMasterHi);
    case PeerExchange(_, _, _, _, _, _) =>
      QuotMonotone(k.toSlaveLo + k.toMasterLo, w.path + w.back);
      QuotMonotone(w.path + w.back, k.toSlaveHi + k.toMasterHi);
  }

  /** The law the servo is there for, over any run on one link, with smoothing: the reported
      offset misses the lead of the slave by no more than the asymmetry and the variation of
      the paths account for. On constant paths that is half their difference, up to one
      rounding step; on a constant symmetric path offset and delay are exact. */
  lemma OffsetOverLink(k: Link, states: seq<State>, xs: seq<Exchange>, n: nat)
    requires Trace(states, ReducedAll(xs)) && 0 < n <= |xs| && xs[n - 1].SyncExchange?
    requires Within(LimitsOf(k), states[0]) && forall i :: 0 <= i < |xs| ==> Over(k, xs[i])
    ensures In(states[n].offset.Total() - k.lead,
               k.toSlaveLo - Quot(k.toSlaveHi + k.toMasterHi, 2), k.toSlaveHi - Quot(k.toSlaveLo + k.toMasterLo, 2))
    ensures k.toSlaveLo == k.toSlaveHi && k.toMasterLo == k.toMasterHi ==>
      Abs(2 * (states[n].offset.Total() - k.lead) - (k.toSlaveLo - k.toMasterLo)) <= 1
    ensures k.toSlaveLo == k.toSlaveHi == k.toMasterLo == k.toMasterHi ==>
      states[n].offset.Total() == k.lead && states[n].delay.Total() == k.toSlaveLo
  {
    var es := ReducedAll(xs);
    forall i | 0 <= i < |es|
      ensures Admits(LimitsOf(k), es[i])
    {
      LinkAdmits(k, xs[i]);
    }
    RunStaysWithin(LimitsOf(k), states, es, n);
  }

  // ----- What can be subtracted and added without an overflow

  /** There is a normal time with that total whose seconds fit 32 bits. */
  predicate Representable(total: int) {
    -0x8000_0001 * SECOND < total < 0x8000_0000 * SECOND
  }

  lemma RepresentableFits(t: Time)
    requires t.Normal()
    ensures Representable(t.Total()) <==> t.Fits()
  {
  }

  lemma NormalForm(total: int) returns (t: Time)
    ensures t.Represents(total)
  {
    t := Time(Quot(total, SECOND), Rem(total, SECOND));
  }

  /** A normal time, likewise folded. */
  ghost predicate IsNormal(t: Time) {
    forall u: Time :: u == t ==> u.Normal()
  }

  ghost predicate CanSubtract(total: int, y: Time) {
    IsNormal(y) && Representable(total - y.Total()) && y.seconds != -0x8000_0000
  }

  lemma SubtractionFits(x: Time, y: Time)
    requires x.Normal() && x.Fits() && y.Fits() && CanSubtract(x.Total(), y)
    ensures SubFits(x, y)
  {
    assert y.Normal();
    var difference := NormalForm(x.Total() - y.Total());
    RepresentableFits(difference);
    SubOverflowsOnlyWithItsResult(x, y, difference);
  }

  lemma AdditionFits(x: Time, y: Time)
    requires x.Normal() && x.Fits() && y.Normal() && y.Fits() && Representable(x.Total() + y.Total())
    ensures AddFits(x, y)
  {
    var sum := NormalForm(x.Total() + y.Total());
    RepresentableFits(sum);
    AddOverflowsOnlyWithItsResult(x, y, sum);
  }

  ghost predicate CanElapse(arrival: Time, departure: Time, correction: Time) {
    && IsNormal(arrival) && CanSubtract(arrival.Total(), departure)
    && CanSubtract(arrival.Total() - departure.Total(), correction)
  }

  ghost predicate CanTurn(t1: Time, t2: Time, t3: Time, t4: Time, twoStep: bool) {
    && IsNormal(t2) && IsNormal(t4) && Representable(Turn(t1, t2, t3, t4, twoStep))
    && if twoStep then CanSubtract(t2.Total(), t1) && CanSubtract(t4.Total(), t3) else CanSubtract(t4.Total(), t1)
  }

  /** Smoothing the total does not overflow. */
  ghost predicate CanSmooth(f: Filter, total: int)
    requires f.Sound()
  {
    forall x :: x == total && Abs(x) < SECOND ==> SmoothingFits(f, x)
  }

  lemma WholeSeconds(t: Time)
    requires t.Normal()
    ensures t.seconds == 0 <==> Abs(t.Total()) < SECOND
    ensures t.seconds == 0 ==> t.nanoseconds == t.Total()
  {
  }

  // ----- The object

  class PortServo {
    const tms: TimeInternal
    const tsm: TimeInternal
    const offsetFromMaster: TimeInternal
    const meanPathDelay: TimeInternal
    const peerMeanPathDelay: TimeInternal
    const ofmFilt: SmoothingFilter
    const owdFilt: SmoothingFilter

    constructor (offsetOrder: nat, delayOrder: nat)
      ensures Valid() && fresh({tms, tsm, offsetFromMaster, meanPathDelay, peerMeanPathDelay})
      ensures Value(false) == Value(true)
      ensures Value(false) ==
        State(0, Time(0, 0), Time(0, 0), Filter(0, 0, offsetOrder, 0, 0), Filter(0, 0, delayOrder, 0, 0))
    {
      tms := new TimeInternal();
      tsm := new TimeInternal();
      offsetFromMaster := new TimeInternal();
      meanPathDelay := new TimeInternal();
      peerMeanPathDelay := new TimeInternal();
      ofmFilt := new SmoothingFilter(offsetOrder);
      owdFilt := new SmoothingFilter(delayOrder);
    }

    ghost predicate Valid()
      reads tms, tsm, offsetFromMaster, meanPathDelay, peerMeanPathDelay, ofmFilt, owdFilt
    {
      && ofmFilt != owdFilt
      && tms != tsm && tsm != offsetFromMaster && offsetFromMaster != meanPathDelay
      && meanPathDelay != peerMeanPathDelay && tms != offsetFromMaster && tms != meanPathDelay
      && tms != peerMeanPathDelay && tsm != meanPathDelay && tsm != peerMeanPathDelay
      && offsetFromMaster != peerMeanPathDelay
      && IsNormal(tms.Value()) && IsNormal(meanPathDelay.Value()) && IsNormal(peerMeanPathDelay.Value())
      && ofmFilt.Value().Sound() && owdFilt.Value().Sound()
    }

    function Delay(p2p: bool): TimeInternal {
      if p2p then peerMeanPathDelay else meanPathDelay
    }

    ghost function Value(p2p: bool): State
      reads tms, offsetFromMaster, meanPathDelay, peerMeanPathDelay, ofmFilt, owdFilt
    {
      State(tms.Value().Total(), offsetFromMaster.Value(), Delay(p2p).Value(), ofmFilt.Value(), owdFilt.Value())
    }

    /** Smoothing of a measured time, unless it has whole seconds. */
    method SmoothTime(t: TimeInternal, filter: SmoothingFilter)
      requires IsNormal(t.Value()) && filter.Value().Sound()
      requires CanSmooth(filter.Value(), t.Value().Total())
      modifies t, filter
      ensures Measured(t.Value(), filter.Value(), old(filter.Value()), old(t.Value().Total()))
      ensures IsNormal(t.Value()) && filter.Value().Sound()
    {
      WholeSeconds(t.Value());
      if t.seconds == 0 {
        SmoothedIsBetween(filter.Value(), t.nanoseconds);
        var y := filter.Smooth(t.nanoseconds);
        t.nanoseconds := y;
      }
    }

    /** The way there and back becomes a smoothed delay. */
    method HalveAndSmooth(t: TimeInternal)
      requires IsNormal(t.Value()) && owdFilt.Value().Sound()
      requires CanSmooth(owdFilt.Value(), Quot(t.Value().Total(), 2))
      modifies t, owdFilt
      ensures Measured(t.Value(), owdFilt.Value(), old(owdFilt.Value()), Quot(old(t.Value().Total()), 2))
      ensures IsNormal(t.Value()) && owdFilt.Value().Sound()
    {
      Halve(t);
      SmoothTime(t, owdFilt);
    }

    /** Returns whether the offset is small enough to select the master, or too large to keep
        it; the state of the port decides which of the two makes an event. */
    method UpdateOffset(ingress: TimeInternal, origin: TimeInternal, correction: TimeInternal, p2p: bool)
      returns (calibrated: bool, lost: bool)
      requires Valid() && {ingress, origin, correction} !! {tms, offsetFromMaster}
      requires CanElapse(ingress.Value(), origin.Value(), correction.Value())
      requires CanSubtract(Elapsed(ingress.Value(), origin.Value(), correction.Value()), Delay(p2p).Value())
      requires CanSmooth(ofmFilt.Value(),
        Elapsed(ingress.Value(), origin.Value(), correction.Value()) - Delay(p2p).Value().Total())
      modifies tms, offsetFromMaster, ofmFilt
      ensures Valid()
      ensures Measures(old(Value(p2p)),
                       Reduced(old(SyncExchange(ingress.Value(), origin.Value(), correction.Value()))), Value(p2p))
      ensures calibrated <==> offsetFromMaster.seconds == 0 && Abs(offsetFromMaster.nanoseconds) < CALIBRATED_OFFSET
      ensures lost <==> offsetFromMaster.seconds != 0 || Abs(offsetFromMaster.nanoseconds) > UNCALIBRATED_OFFSET
    {
      ghost var c := Value(p2p);
      SubtractTwice(tms, ingress, origin, correction);
      TakeDelayOff(p2p);
      assert Value(p2p) == c.(tms := tms.Value().Total(), offset := offsetFromMaster.Value(), ofm := ofmFilt.Value());
      calibrated, lost := Classified();
    }

    method TakeDelayOff(p2p: bool)
      requires Valid() && CanSubtract(tms.Value().Total(), Delay(p2p).Value())
      requires CanSmooth(ofmFilt.Value(), tms.Value().Total() - Delay(p2p).Value().Total())
      modifies offsetFromMaster, ofmFilt
      ensures Valid()
      ensures Measured(offsetFromMaster.Value(), ofmFilt.Value(), old(ofmFilt.Value()),
                       tms.Value().Total() - Delay(p2p).Value().Total())
    {
      offsetFromMaster.seconds, offsetFromMaster.nanoseconds := tms.seconds, tms.nanoseconds;
      Subtract(offsetFromMaster, offsetFromMaster, Delay(p2p));
      SmoothTime(offsetFromMaster, ofmFilt);
    }

    method Classified() returns (calibrated: bool, lost: bool)
      ensures calibrated <==> offsetFromMaster.seconds == 0 && Abs(offsetFromMaster.nanoseconds) < CALIBRATED_OFFSET
      ensures lost <==> offsetFromMaster.seconds != 0 || Abs(offsetFromMaster.nanoseconds) > UNCALIBRATED_OFFSET
    {
      if offsetFromMaster.seconds != 0 {
        return false, true;
      }
      calibrated, lost := false, false;
      if Abs(offsetFromMaster.nanoseconds) < CALIBRATED_OFFSET {
        calibrated := true;
      } else if Abs(offsetFromMaster.nanoseconds) > UNCALIBRATED_OFFSET {
        lost := true;
      }
    }

    method TakeMean()
      requires Valid() && IsNormal(tsm.Value()) && Representable(tms.Value().Total() + tsm.Value().Total())
      requires CanSmooth(owdFilt.Value(), Quot(tms.Value().Total() + tsm.Value().Total(), 2))
      modifies meanPathDelay, owdFilt
      ensures Valid()
      ensures Measured(meanPathDelay.Value(), owdFilt.Value(), old(owdFilt.Value()),
                       Quot(tms.Value().Total() + tsm.Value().Total(), 2))
    {
      ghost var total := tms.Value().Total() + tsm.Value().Total();
      Add(meanPathDelay, tms, tsm);
      assert meanPathDelay.Value().Total() == total;
      HalveAndSmooth(meanPathDelay);
    }

    method UpdateDelay(egress: TimeInternal, receive: TimeInternal, correction: TimeInternal)
      requires Valid() && {egress, receive, correction} !! {tsm, meanPathDelay}
      requires CanElapse(receive.Value(), egress.Value(), correction.Value())
      requires Representable(tms.Value().Total() + Elapsed(receive.Value(), egress.Value(), correction.Value()))
      requires CanSmooth(owdFilt.Value(),
        Quot(tms.Value().Total() + Elapsed(receive.Value(), egress.Value(), correction.Value()), 2))
      modifies tsm, meanPathDelay, owdFilt
      ensures Valid()
      ensures Measures(old(Value(false)),
                       Reduced(old(DelayExchange(egress.Value(), receive.Value(), correction.Value()))), Value(false))
    {
      if ofmFilt.n == 0 {
        return;
      }
      ghost var c, elapsed := Value(false), Elapsed(receive.Value(), egress.Value(), correction.Value());
      SubtractTwice(tsm, receive, egress, correction);
      assert tsm.Value().Total() == elapsed;
      TakeMean();
      assert Value(false) == c.(delay := meanPathDelay.Value(), owd := owdFilt.Value());
    }

    /** The time there and back is known from four timestamps, or from two if the answer tells
        how long it was held. */
    method TakeTurn(t1: TimeInternal, t2: TimeInternal, t3: TimeInternal, t4: TimeInternal,
                    correction: TimeInternal, twoStep: bool)
      requires peerMeanPathDelay !in {t1, t2, t3, t4, correction}
      requires CanTurn(t1.Value(), t2.Value(), t3.Value(), t4.Value(), twoStep)
      requires CanSubtract(Turn(t1.Value(), t2.Value(), t3.Value(), t4.Value(), twoStep), correction.Value())
      modifies peerMeanPathDelay
      ensures IsNormal(peerMeanPathDelay.Value()) && peerMeanPathDelay.Value().Total() ==
        Turn(t1.Value(), t2.Value(), t3.Value(), t4.Value(), twoStep) - correction.Value().Total()
    {
      if twoStep {
        RoundTrip(peerMeanPathDelay, t1, t2, t3, t4);
      } else {
        Subtract(peerMeanPathDelay, t4, t1);
      }
      Subtract(peerMeanPathDelay, peerMeanPathDelay, correction);
    }

    method UpdatePeerDelay(t1: TimeInternal, t2: TimeInternal, t3: TimeInternal, t4: TimeInternal,
                           correction: TimeInternal, twoStep: bool)
      requires Valid() && peerMeanPathDelay !in {t1, t2, t3, t4, correction}
      requires CanTurn(t1.Value(), t2.Value(), t3.Value(), t4.Value(), twoStep)
      requires CanSubtract(Turn(t1.Value(), t2.Value(), t3.Value(), t4.Value(), twoStep), correction.Value())
      requires CanSmooth(owdFilt.Value(),
        Quot(Turn(t1.Value(), t2.Value(), t3.Value(), t4.Value(), twoStep) - correction.Value().Total(), 2))
      modifies peerMeanPathDelay, owdFilt
      ensures Valid()
      ensures Measures(old(Value(true)),
        Reduced(old(PeerExchange(t1.Value(), t2.Value(), t3.Value(), t4.Value(), correction.Value(), twoStep))),
        Value(true))
    {
      ghost var c := Value(true);
      TakeTurn(t1, t2, t3, t4, correction, twoStep);
      HalveAndSmooth(peerMeanPathDelay);
      assert Value(true) == c.(delay := peerMeanPathDelay.Value(), owd := owdFilt.Value());
    }
  }

  // ----- Time arithmetic on normal times

  method Subtract(r: TimeInternal, x: TimeInternal, y: TimeInternal)
    requires IsNormal(x.Value()) && CanSubtract(x.Value().Total(), y.Value())
    modifies r
    ensures IsNormal(r.Value()) && r.Value().Total() == old(x.Value().Total()) - old(y.Value().Total())
  {
    SubtractionFits(x.Value(), y.Value());
    SubTime(r, x, y);
  }

  method SubtractTwice(r: TimeInternal, x: TimeInternal, y: TimeInternal, z: TimeInternal)
    requires r != z && CanElapse(x.Value(), y.Value(), z.Value())
    modifies r
    ensures IsNormal(r.Value()) && r.Value().Total() == old(Elapsed(x.Value(), y.Value(), z.Value()))
  {
    Subtract(r, x, y);
    Subtract(r, r, z);
  }

  method Difference(x: TimeInternal, y: TimeInternal) returns (r: TimeInternal)
    requires IsNormal(x.Value()) && CanSubtract(x.Value().Total(), y.Value())
    ensures fresh(r) && IsNormal(r.Value()) && r.Value().Total() == x.Value().Total() - y.Value().Total()
  {
    r := new TimeInternal();
    Subtract(r, x, y);
  }

  method RoundTrip(r: TimeInternal, t1: TimeInternal, t2: TimeInternal, t3: TimeInternal, t4: TimeInternal)
    requires r !in {t1, t2, t3, t4} && IsNormal(t2.Value()) && IsNormal(t4.Value())
    requires CanSubtract(t2.Value().Total(), t1.Value()) && CanSubtract(t4.Value().Total(), t3.Value())
    requires Representable(t2.Value().Total() - t1.Value().Total() + (t4.Value().Total() - t3.Value().Total()))
    modifies r
    ensures IsNormal(r.Value()) && r.Value().Total() ==
      old(t2.Value().Total() - t1.Value().Total() + (t4.Value().Total() - t3.Value().Total()))
  {
    var tab := Difference(t2, t1);
    var tba := Difference(t4, t3);
    Add(r, tab, tba);
  }

  method Add(r: TimeInternal, x: TimeInternal, y: TimeInternal)
    requires IsNormal(x.Value()) && IsNormal(y.Value()) && Representable(x.Value().Total() + y.Value().Total())
    modifies r
    ensures IsNormal(r.Value()) && r.Value().Total() == old(x.Value().Total()) + old(y.Value().Total())
  {
    AdditionFits(x.Value(), y.Value());
    AddTime(r, x, y);
  }

  /** A normal time is halved exactly. */
  method Halve(r: TimeInternal)
    requires IsNormal(r.Value())
    modifies r
    ensures IsNormal(r.Value()) && r.Value().Total() == Quot(old(r.Value().Total()), 2)
  {
    ghost var x := r.Value();
    CarriedFits(x);
    Div2Time(r);
    NormalTimesHalveExactly(x, r.Value());
  }

  lemma CarriedFits(x: Time)
    requires x.Normal()
    ensures FitsInt32(Carried(x))
  {
    NormalTimesHalveExactly(x, x);
  }
}
