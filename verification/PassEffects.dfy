/** What one pass of `doState` does to a port, effect by effect: its state, its events, what it
    has measured, its configuration, and its failures. */
module PassEffects {
  import opened Octets
  import opened TimeArithmetic
  import opened DataSets
  import opened Comparison
  import opened RecordScan
  import opened ForeignMasters
  import opened BestMasterClock
  import opened Protocol

  // ----- Initialisation

  /** A port that is starting keeps trying: it fails if the network does not come up, tries
      again after a failure, and otherwise listens, as its own parent, with exactly the
      identity and attributes it was configured with. */
  lemma StartsUnlessNetworkFails(c: Clock, p: Pass)
    requires Starting(c)
    ensures var c' := DoState(c, p);
      if c.portState.Faulty? then c' == c.(portState := Initializing)
      else if !p.netInit then c' == c.(portState := Faulty)
      else Started(c') && c'.portState.Listening? && OwnParent(c') && MirrorsOptions(c') && c'.rtOpts == c.rtOpts
           && c'.portUuidField == c.portUuidField && c'.table == c.table.(capacity := c.rtOpts.maxForeignRecords)
  {
  }

  /** The data set of a port says about it what its options say. */
  predicate MirrorsOptions(c: Clock) {
    && c.defaultDS.clockIdentity == Eui64(c.portUuidField) && c.portIdentity.clockIdentity == c.defaultDS.clockIdentity
    && c.defaultDS.clockQuality == c.rtOpts.clockQuality && c.defaultDS.slaveOnly == c.rtOpts.slaveOnly
    && c.defaultDS.priority1 == c.rtOpts.priority1 && c.defaultDS.priority2 == c.rtOpts.priority2
  }

  /** It always does, over any run. */
  lemma RunMirrorsOptions(c: Clock, ps: seq<Pass>)
    requires Starting(c) || Started(c)
    ensures Started(RunPasses(c, ps)) ==> MirrorsOptions(RunPasses(c, ps))
  {
  }

  /** Options are taken over as they are, but for the clock class of a port that is slave-only
      by option. */
  lemma PowerUpKeepsOptions(rtOpts: RunTimeOpts, records: seq<ForeignMasterRecord>, portUuidField: MacAddress)
    ensures var c := PowerUp(rtOpts, records, portUuidField);
      && c.portUuidField == portUuidField && c.table.records == records
      && (!rtOpts.slaveOnly ==> c.rtOpts == rtOpts)
      && c.rtOpts.(clockQuality := rtOpts.clockQuality) == rtOpts
      && c.rtOpts.clockQuality.(clockClass := rtOpts.clockQuality.clockClass) == rtOpts.clockQuality
      && (rtOpts.slaveOnly ==> c.rtOpts.clockQuality.clockClass == CLOCK_CLASS_SLAVE_ONLY)
  {
  }

  /** Initialising a port, whatever has happened to it, resets the record count alone. */
  lemma InitialisationKeepsSlot(c: Clock)
    ensures var t := InitData(c).table;
      t.count == 0 && t.i == c.table.i && t.best == c.table.best && t.records == c.table.records
  {
  }

  /** A master announces itself, from its own port, with the time scale of its options. */
  lemma MasterAnnouncesItself(c: Clock)
    requires Started(c) && c.recommendedState.Master?
    ensures var m := IssuedAnnounce(c);
      && IsD0(m, c.defaultDS) && m.Sender() == c.portIdentity
      && m.announce.currentUtcOffset == c.rtOpts.currentUtcOffset && m.announce.timeSource == INTERNAL_OSCILLATOR
  {
  }

  // ----- State

  /** The state a port is served in follows from the recommendation, its state before and what
      is pending; and an event that has done its work is gone, all others stay. */
  lemma ServedStateExactly(c: Clock, p: Pass)
    requires Started(c)
    ensures var d, s := Decide(c), Served(c, p);
      && s.(portState := d.portState, events := d.events) == d
      && match d.recommendedState
         case Master =>
           && (s.portState.Master? <==> c.portState.Master? || (c.portState.PreMaster? && p.qualificationExpired))
           && (s.portState.PreMaster? <==> !s.portState.Master?) && s.events == d.events
         case Passive => s.portState.Passive? && s.events == d.events
         case Listening => s.portState.Listening? && s.events == d.events
         case Slave =>
           && (s.portState.Slave? <==>
               || (c.portState.Slave? && SynchronizationFault !in c.events && MasterClockChanged !in d.events)
               || (c.portState.Uncalibrated? && MasterClockSelected in c.events))
           && (s.portState.Uncalibrated? <==> !s.portState.Slave?)
           && s.events == d.events - (if c.portState.Slave? then {SynchronizationFault, MasterClockChanged}
                                      else if c.portState.Uncalibrated? then {MasterClockSelected, MasterClockChanged}
                                      else {})
         case _ => false
  {
    DecideKeepsPending(c);
    StartedPortIsServedRunning(c, p);
    FollowExactly(Decide(c), p.qualificationExpired);
  }

  lemma DecideKeepsPending(c: Clock)
    requires Started(c)
    ensures Decide(c).portState == c.portState
    ensures Decide(c).events - {StateDecision, MasterClockChanged} == c.events - {StateDecision, MasterClockChanged}
    ensures MasterClockSelected in Decide(c).events <==> MasterClockSelected in c.events
    ensures SynchronizationFault in Decide(c).events <==> SynchronizationFault in c.events
    ensures Decide(c).recommendedState in {Listening, Master, Passive, Slave}
  {
    DecideSummary(c);
    if Active(c.portState) && StateDecision in c.events {
      var c' := c.(events := c.events - {StateDecision});
      ElectionSummary(c', c'.Pick(Worse));
      EventsAgree(c'.events, Decide(c).events);
    }
  }

  lemma EventsAgree(before: set<Event>, after: set<Event>)
    requires after - {MasterClockChanged} == before - {MasterClockChanged}
    ensures forall e :: e != MasterClockChanged ==> (e in before <==> e in after)
  {
    forall e | e != MasterClockChanged
      ensures e in before <==> e in after
    {
      assert e in after <==> e in after - {MasterClockChanged};
      assert e in before <==> e in before - {MasterClockChanged};
    }
  }

  lemma FollowExactly(d: Clock, qualificationExpired: bool)
    requires d.recommendedState in {Listening, Master, Passive, Slave}
    ensures var s := Follow(d, qualificationExpired);
      && s.(portState := d.portState, events := d.events) == d
      && match d.recommendedState
         case Master =>
           && s.events == d.events
           && (s.portState.Master? <==> d.portState.Master? || (d.portState.PreMaster? && qualificationExpired))
           && (s.portState.PreMaster? <==> !s.portState.Master?)
         case Passive => s.portState.Passive? && s.events == d.events
         case Listening => s.portState.Listening? && s.events == d.events
         case Slave =>
           && (s.portState.Slave? <==>
               || (d.portState.Slave? && SynchronizationFault !in d.events && MasterClockChanged !in d.events)
               || (d.portState.Uncalibrated? && MasterClockSelected in d.events))
           && (s.portState.Uncalibrated? <==> !s.portState.Slave?)
           && s.events == d.events - (if d.portState.Slave? then {SynchronizationFault, MasterClockChanged}
                                      else if d.portState.Uncalibrated? then {MasterClockSelected, MasterClockChanged}
                                      else {})
         case _ => false
  {
  }

  /** A due election decides what is recommended, save that a slave-only port listens where it
      would be master or passive; it leaves alone what is none of its business. */
  lemma ElectionRecommends(c: Clock)
    requires Started(c) && Active(c.portState) && StateDecision in c.events
    ensures var (d, state) := (Decide(c), c.Bmc().1);
      && d.recommendedState == (if IsSlaveOnly(c) && (state.Master? || state.Passive?) then Listening else state)
      && StateDecision !in d.events
      && (state.Master? ==> OwnParent(d))
      && (!state.Master? ==> KeepsMeasurements(c, d))
      && (state.Passive? || state.Listening? ==> d.parentDS == c.parentDS && d.currentDS == c.currentDS
                                                 && d.timePropertiesDS == c.timePropertiesDS)
  {
    DecideSummary(c);
    var c' := c.(events := c.events - {StateDecision});
    ElectionEffects(c', c'.Pick(Worse));
  }

  lemma ElectionEffects(c: Clock, best: nat)
    requires best < |c.table.records|
    ensures var (d, state) := c.Elect(best);
      && d.defaultDS == c.defaultDS
      && (state.Master? ==> OwnParent(d))
      && (!state.Master? ==> KeepsMeasurements(c, d))
      && (state.Passive? || state.Listening? ==> d.parentDS == c.parentDS && d.currentDS == c.currentDS
                                                 && d.timePropertiesDS == c.timePropertiesDS)
  {
  }

  // ----- Messages

  /** An Announce message never touches what has been measured. To a port with a parent, one
      of that parent becomes the parent data set and leaves the records alone; any other goes
      on record and leaves the data sets alone. */
  lemma AnnounceEffects(c: Clock, m: Announcement)
    requires Started(c) && Hears(c, Announce(m))
    ensures var c' := Handle(c, Announce(m));
      && KeepsMeasurements(c, c') && StateDecision in c'.events
      && if HasParent(c.portState) && m.Sender() == c.parentDS.parentPortIdentity then
           && c'.table == c.table && c'.events == c.events + {StateDecision}
           && ParentIs(c', NewRecord(m)) && TimeFrom(c', NewRecord(m))
           && c'.(currentDS := c.currentDS, parentDS := c.parentDS, timePropertiesDS := c.timePropertiesDS,
                  events := c.events) == c
         else
           && c'.table == c.table.Add(m) && c'.(table := c.table, events := c.events) == c
           && c'.events == c.events + {StateDecision}
  {
    var c1 := c.(events := c.events + {StateDecision});
    S1SetsParent(c1, NewRecord(m));
  }

  /** Of a message that a port does not hear, or that is no Announce, this is left. */
  lemma OtherEffects(c: Clock, rx: Received)
    requires Started(c) && !Hears(c, rx)
    ensures var c' := Handle(c, rx);
      && (c'.portState.Faulty? <==> c.portState.Faulty? || Fails(rx))
      && (!c'.portState.Faulty? ==> c'.portState == c.portState)
      && (MasterClockSelected in c'.events <==>
          MasterClockSelected in c.events || (rx.Other? && rx.selected && c.portState.Uncalibrated?))
      && (SynchronizationFault in c'.events <==>
          SynchronizationFault in c.events || (rx.Other? && rx.syncFault && c.portState.Slave?))
      && c'.events - {MasterClockSelected, SynchronizationFault} ==
         c.events - {MasterClockSelected, SynchronizationFault}
      && Measurements(c') == (if rx.Other? && HasParent(c.portState) then (rx.offset, rx.delay) else Measurements(c))
      && c'.(currentDS := c.currentDS, portState := c.portState, events := c.events) == c
      && c'.currentDS.stepsRemoved == c.currentDS.stepsRemoved
  {
  }

  // ----- The extension, the timeout, and failures

  /** The extension hands one message of its own to a port that listens or has a parent. */
  lemma MonitorEffects(c: Clock, p: Pass)
    requires Started(c)
    ensures Monitored(c, p) ==
      if p.monitorExpired && c.portState in {Listening, Uncalibrated, Slave} then
        Handle(if p.monitorSendFails then c.(portState := Faulty) else c, p.monitorRx)
      else c
  {
  }

  /** A port that gives up its masters forgets them all; it becomes master and its own parent,
      or if it is slave-only it listens and keeps its data sets. */
  lemma TimeoutEffects(c: Clock)
    requires Started(c)
    ensures var c' := GiveUp(c);
      && c'.table == c.table.(count := 0, i := 0) && c'.events == c.events && c'.defaultDS == c.defaultDS
      && if IsSlaveOnly(c) then c'.portState.Listening? && c'.(table := c.table, portState := c.portState,
                                                                recommendedState := c.recommendedState) == c
         else c'.portState.Master? && c'.recommendedState.Master? && OwnParent(c')
  {
  }

  /** A pass ends in FAULTY exactly if receiving or sending has failed in it and no timeout has
      taken the port elsewhere. */
  lemma FailsExactly(c: Clock, p: Pass)
    requires Started(c)
    ensures var s := Served(c, p);
      DoState(c, p).portState.Faulty? <==>
        if s.portState.Master? then p.masterSendFails || Fails(p.rx) || p.delayReqFails
        else if s.portState.PreMaster? || p.announceExpired then false
        else Fails(p.rx) || (Monitors(s, p) && (p.monitorSendFails || Fails(p.monitorRx)))
  {
    DecideSummary(c);
    ServeFailsExactly(Served(c, p), p);
  }

  lemma ServeFailsExactly(s: Clock, p: Pass)
    requires Running(s)
    ensures Serve(s, p).portState.Faulty? <==>
      if s.portState.Master? then p.masterSendFails || Fails(p.rx) || p.delayReqFails
      else if s.portState.PreMaster? || p.announceExpired then false
      else Fails(p.rx) || (Monitors(s, p) && (p.monitorSendFails || Fails(p.monitorRx)))
  {
    if Waiting(s.portState) {
      MonitorSummary(s, p);
      HandleSummary(Monitored(s, p), p.rx);
      MonitoredStarted(s, p);
      TimeoutEffects(Monitored(s, p));
    } else if s.portState.Master? {
      HandleSummary(SendAsMaster(s, p), p.rx);
    }
  }

  // ----- What has been measured

  function Measurements(c: Clock): (Time, Time) {
    (c.currentDS.offsetFromMaster, c.currentDS.meanPathDelay)
  }

  const NOTHING_MEASURED: (Time, Time) := (Time(0, 0), Time(0, 0))

  function MeasuredBy(rx: Received): (Time, Time)
    requires rx.Other?
  {
    (rx.offset, rx.delay)
  }

  /** The election of the pass makes the port its own parent. */
  predicate ElectsItself(c: Clock)
    requires Started(c)
  {
    Active(c.portState) && StateDecision in c.events && c.Bmc().1.Master?
  }

  /** The timeout of the pass makes the port its own parent. */
  predicate GivesUp(s: Clock, p: Pass) {
    Waiting(s.portState) && p.announceExpired && !IsSlaveOnly(s)
  }

  /** The extension receives a measurement. */
  predicate MonitorMeasures(s: Clock, p: Pass) {
    HasParent(s.portState) && p.monitorExpired && !p.monitorSendFails && p.monitorRx.Other?
  }

  /** The pass receives a measurement, unless the extension has failed before. */
  predicate PassMeasures(s: Clock, p: Pass) {
    && HasParent(s.portState) && !p.announceExpired && p.rx.Other?
    && !(p.monitorExpired && (p.monitorSendFails || Fails(p.monitorRx)))
  }

  /** What a pass leaves measured: the last measurement received by a port with a parent, and
      nothing once the port has become its own parent. */
  lemma MeasurementsAfterPass(c: Clock, p: Pass)
    requires Started(c)
    ensures var s := Served(c, p);
      Measurements(DoState(c, p)) ==
        if GivesUp(s, p) then NOTHING_MEASURED
        else if PassMeasures(s, p) then MeasuredBy(p.rx)
        else if MonitorMeasures(s, p) then MeasuredBy(p.monitorRx)
        else if ElectsItself(c) then NOTHING_MEASURED
        else Measurements(c)
  {
    ServedMeasurements(c, p);
    MeasurementsAfterServing(Served(c, p), p);
  }

  lemma ServedMeasurements(c: Clock, p: Pass)
    requires Started(c)
    ensures Measurements(Served(c, p)) == if ElectsItself(c) then NOTHING_MEASURED else Measurements(c)
  {
    ServedStateExactly(c, p);
    if Active(c.portState) && StateDecision in c.events {
      ElectionRecommends(c);
    }
  }

  lemma HandledMeasurements(c: Clock, rx: Received)
    requires Started(c)
    ensures Measurements(Handle(c, rx)) ==
      if rx.Other? && HasParent(c.portState) then MeasuredBy(rx) else Measurements(c)
  {
    if Hears(c, rx) {
      AnnounceEffects(c, rx.m);
    } else {
      OtherEffects(c, rx);
    }
  }

  lemma MeasurementsAfterServing(s: Clock, p: Pass)
    requires Running(s)
    ensures Measurements(Serve(s, p)) ==
      if GivesUp(s, p) then NOTHING_MEASURED
      else if PassMeasures(s, p) then MeasuredBy(p.rx)
      else if MonitorMeasures(s, p) then MeasuredBy(p.monitorRx)
      else Measurements(s)
  {
    if Waiting(s.portState) {
      var m := Monitored(s, p);
      MonitoredStarted(s, p);
      MonitorSummary(s, p);
      MonitorEffects(s, p);
      HandledMeasurements(if p.monitorSendFails then s.(portState := Faulty) else s, p.monitorRx);
      HandledMeasurements(m, p.rx);
      TimeoutEffects(m);
    } else if s.portState.Master? {
      HandledMeasurements(SendAsMaster(s, p), p.rx);
    }
  }

  /** Some pass of the run receives a measurement or makes the port its own parent. */
  predicate EverMeasuresAnew(c: Clock, ps: seq<Pass>)
    requires Started(c)
    decreases |ps|
  {
    if ps == [] then false
    else
      var (p, s) := (ps[0], Served(c, ps[0]));
      PassKeepsStarted(c, p);
      || GivesUp(s, p) || PassMeasures(s, p) || MonitorMeasures(s, p) || ElectsItself(c)
      || EverMeasuresAnew(DoState(c, p), ps[1..])
  }

  /** Over any run, offset and delay are what they were unless a measurement has been received
      or the port has become its own parent. */
  lemma {:induction false} RunKeepsMeasurements(c: Clock, ps: seq<Pass>)
    requires Started(c) && !EverMeasuresAnew(c, ps)
    ensures Measurements(RunPasses(c, ps)) == Measurements(c)
    decreases |ps|
  {
    if ps != [] {
      MeasurementsAfterPass(c, ps[0]);
      PassKeepsStarted(c, ps[0]);
      RunKeepsMeasurements(DoState(c, ps[0]), ps[1..]);
    }
  }
}
