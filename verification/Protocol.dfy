/** The engine of one port (`doState`, `toState`, `handleAnnounce` in
    `PTPv2/src/protocol.c`): what happens to the state of the port over any number of passes.
    Timers, the network and the servo are inputs of a pass. */
module Protocol {
  import opened Octets
  import opened TimeArithmetic
  import opened DataSets
  import opened Comparison
  import opened RecordScan
  import opened ForeignMasters
  import opened BestMasterClock

  /** What one call of `handle` finds. `Other` is any message that is not an Announce; to a
      port with a parent it can bring a measurement and the events that follow from it. */
  datatype Received =
    | Nothing
    | Malformed
    | Announce(m: Announcement)
    | Other(offset: Time, delay: Time, selected: bool, syncFault: bool, sendFails: bool)

  /** Everything a pass depends on besides the state. */
  datatype Pass = Pass(
    netInit: bool, qualificationExpired: bool, monitorExpired: bool, monitorSendFails: bool, monitorRx: Received,
    announceExpired: bool, masterSendFails: bool, rx: Received, delayReqFails: bool)

  // ----- The parts of a pass

  /** By option or by clock class. */
  predicate SlaveOnly(option: bool, quality: ClockQuality) {
    option || quality.clockClass == CLOCK_CLASS_SLAVE_ONLY
  }

  predicate IsSlaveOnly(c: Clock) {
    SlaveOnly(c.defaultDS.slaveOnly, c.defaultDS.clockQuality)
  }

  predicate WillBeSlaveOnly(rtOpts: RunTimeOpts) {
    SlaveOnly(rtOpts.slaveOnly, rtOpts.clockQuality)
  }

  function ToState(c: Clock, state: PortState): Clock {
    c.(portState := state,
       recommendedState := if state.Initializing? || state.Listening? then state else c.recommendedState)
  }

  function ConfiguredDefaultDS(c: Clock): DefaultDS {
    DefaultDS(Eui64(c.portUuidField), c.rtOpts.clockQuality, c.rtOpts.priority1, c.rtOpts.priority2, c.rtOpts.slaveOnly)
  }

  /** The record count is reset, but neither the insertion slot nor `best`. */
  function InitData(c: Clock): Clock {
    c.(defaultDS := ConfiguredDefaultDS(c),
       portIdentity := PortIdentity(Eui64(c.portUuidField), 1),
       table := c.table.(count := 0, capacity := c.rtOpts.maxForeignRecords))
  }

  predicate Active(state: PortState) {
    state in {Listening, Uncalibrated, Slave, PreMaster, Master, Passive}
  }

  predicate HasParent(state: PortState) {
    state.Uncalibrated? || state.Slave?
  }

  /** A port that listens to messages has a table to put them in. */
  predicate Ready(c: Clock) {
    Active(c.portState) ==> c.table.Addressable()
  }

  /** A message by which `handle` makes an election due. */
  predicate Hears(c: Clock, rx: Received) {
    rx.Announce? && Active(c.portState) && rx.m.Sender() != c.portIdentity
  }

  /** The message also reaches the table of foreign masters. */
  predicate Recorded(c: Clock, rx: Received) {
    Hears(c, rx) && !(HasParent(c.portState) && rx.m.Sender() == c.parentDS.parentPortIdentity)
  }

  function HandleAnnounce(c: Clock, m: Announcement): (c': Clock)
    requires Ready(c)
    ensures Ready(c') && c'.portState == c.portState
  {
    if !Active(c.portState) || m.Sender() == c.portIdentity then c
    else
      var c' := c.(events := c.events + {StateDecision});
      if HasParent(c.portState) && m.Sender() == c.parentDS.parentPortIdentity then c'.S1(m)
      else c'.(table := Apply(c.table, Heard(m)))
  }

  function Handle(c: Clock, rx: Received): (c': Clock)
    requires Ready(c)
    ensures Ready(c')
  {
    match rx
    case Nothing => c
    case Malformed => ToState(c, Faulty)
    case Announce(m) => HandleAnnounce(c, m)
    case Other(offset, delay, selected, syncFault, sendFails) =>
      var c' := if HasParent(c.portState)
        then c.(currentDS := c.currentDS.(offsetFromMaster := offset, meanPathDelay := delay),
                events := c.events + (if c.portState.Uncalibrated? && selected then {MasterClockSelected} else {})
                                   + (if c.portState.Slave? && syncFault then {SynchronizationFault} else {}))
        else c;
      if sendFails then ToState(c', Faulty) else c'
  }

  /** First part: a pending state decision event runs the election. */
  function Decide(c: Clock): Clock
    requires Ready(c)
  {
    if Active(c.portState) && StateDecision in c.events then
      var (c', state) := c.(events := c.events - {StateDecision}).Bmc();
      c'.(recommendedState :=
            if (state.Master? || state.Passive?) && IsSlaveOnly(c') then Listening else state)
    else c
  }

  /** Second part: the port moves toward the recommended state. */
  function Follow(c: Clock, qualificationExpired: bool): Clock {
    match c.recommendedState
    case Master =>
      if c.portState.PreMaster? then (if qualificationExpired then ToState(c, Master) else c)
      else if c.portState.Master? then c
      else ToState(c, PreMaster)
    case Passive => if c.portState.Passive? then c else ToState(c, Passive)
    case Slave =>
      if c.portState.Uncalibrated? then
        var c' := if MasterClockSelected in c.events
          then ToState(c.(events := c.events - {MasterClockSelected}), Slave) else c;
        c'.(events := c'.events - {MasterClockChanged})
      else if c.portState.Slave? then
        var c' := if SynchronizationFault in c.events
          then ToState(c.(events := c.events - {SynchronizationFault}), Uncalibrated) else c;
        if MasterClockChanged in c'.events
        then ToState(c'.(events := c'.events - {MasterClockChanged}), Uncalibrated) else c'
      else ToState(c, Uncalibrated)
    case Listening => if c.portState.Listening? then c else ToState(c, Listening)
    case _ => c
  }

  /** The announce receipt timeout. */
  function GiveUp(c: Clock): Clock {
    var c' := c.(table := c.table.TimedOut());
    if !IsSlaveOnly(c') then ToState(c'.M1().(recommendedState := Master), Master)
    else if !c'.portState.Listening? then ToState(c', Listening)
    else c'
  }

  /** The monitoring extension takes a message from the network. */
  predicate Monitors(c: Clock, p: Pass) {
    p.monitorExpired && (c.portState.Listening? || HasParent(c.portState))
  }

  /** It looks at a message of its own before the rest of the pass. */
  function Monitored(c: Clock, p: Pass): (c': Clock)
    requires Ready(c)
    ensures Ready(c')
  {
    if Monitors(c, p)
    then Handle(if p.monitorSendFails then ToState(c, Faulty) else c, p.monitorRx)
    else c
  }

  predicate Waiting(state: PortState) {
    state.Listening? || HasParent(state) || state.Passive?
  }

  function ServeWaiting(c: Clock, p: Pass): Clock
    requires Ready(c)
  {
    var c' := Monitored(c, p);
    if p.announceExpired then GiveUp(c') else Handle(c', p.rx)
  }

  function SendAsMaster(c: Clock, p: Pass): Clock {
    if p.masterSendFails then ToState(c, Faulty) else c
  }

  function ServeMaster(c: Clock, p: Pass): Clock
    requires Ready(c)
  {
    var c' := Handle(SendAsMaster(c, p), p.rx);
    if p.delayReqFails then ToState(c', Faulty) else c'
  }

  /** Third part: what the port does in the state it is now in. */
  function Serve(c: Clock, p: Pass): Clock
    requires Ready(c)
  {
    if Waiting(c.portState) then ServeWaiting(c, p)
    else if c.portState.Master? then ServeMaster(c, p)
    else if c.portState.Initializing? then
      if p.netInit then ToState(InitData(c).M1(), Listening) else ToState(c, Faulty)
    else if c.portState.Faulty? then ToState(c, Initializing)
    else if c.portState.Disabled? then Handle(c, p.rx)
    else c
  }

  /** Before it has a recommendation, a port can only try to initialise itself. */
  predicate Starting(c: Clock) {
    && c.recommendedState.Initializing? && (c.portState.Initializing? || c.portState.Faulty?)
    && |c.table.records| == c.rtOpts.maxForeignRecords
    && 0 < c.rtOpts.maxForeignRecords <= 0x7fff
    && c.table.count == c.table.i == c.table.best == 0
    && c.events == {}
    && (c.rtOpts.slaveOnly ==> c.rtOpts.clockQuality.clockClass == CLOCK_CLASS_SLAVE_ONLY)
  }

  /** The configuration of a port that has been initialised. */
  predicate Configured(c: Clock) {
    && c.defaultDS == ConfiguredDefaultDS(c)
    && c.portIdentity == PortIdentity(c.defaultDS.clockIdentity, 1)
    && (c.rtOpts.slaveOnly ==> c.rtOpts.clockQuality.clockClass == CLOCK_CLASS_SLAVE_ONLY)
  }

  /** The states that carry out a recommendation. */
  predicate CarriesOut(state: PortState, recommended: PortState) {
    match recommended
    case Listening => state.Listening?
    case Master => state.PreMaster? || state.Master?
    case Passive => state.Passive?
    case Slave => state.Uncalibrated? || state.Slave?
    case _ => false
  }

  /** An initialised port that is doing what it has been recommended to do. */
  predicate Running(c: Clock) {
    && CarriesOut(c.portState, c.recommendedState)
    && Initialised(c)
  }

  /** The same, except that the port may just have failed. */
  predicate Started(c: Clock) {
    && (CarriesOut(c.portState, c.recommendedState) || (c.portState.Faulty? && !c.recommendedState.Initializing?))
    && Initialised(c)
  }

  predicate Initialised(c: Clock) {
    && c.table.Addressable() && |c.table.records| == c.table.capacity == c.rtOpts.maxForeignRecords
    && Configured(c)
    && c.recommendedState in {Listening, Master, Passive, Slave}
    && (c.recommendedState.Master? ==> OwnParent(c))
    && (IsSlaveOnly(c) ==> !c.recommendedState.Master? && !c.recommendedState.Passive?)
  }

  /** The state in which the third part of a pass finds the port. */
  function Served(c: Clock, p: Pass): (s: Clock)
    requires Starting(c) || Started(c)
    ensures Ready(s)
    ensures Started(c) ==> Running(s)
  {
    ServedIsReady(c, p);
    Follow(Decide(c), p.qualificationExpired)
  }

  /** One pass of `doState`. */
  function DoState(c: Clock, p: Pass): Clock
    requires Starting(c) || Started(c)
  {
    Serve(Served(c, p), p)
  }

  // ----- One part at a time

  /** All that a decision can do to a port. */
  ghost predicate DecidedFrom(c: Clock, d: Clock) {
    && d.(currentDS := c.currentDS, parentDS := c.parentDS, timePropertiesDS := c.timePropertiesDS,
          table := c.table, events := c.events, recommendedState := c.recommendedState) == c
    && d.table == c.table.(best := d.table.best)
    && if Active(c.portState) && StateDecision in c.events then
         && (d.table.best < c.table.count || d.table.best == 0)
         && StateDecision !in d.events
         && d.recommendedState in {Listening, Master, Passive, Slave}
         && (d.recommendedState.Master? ==> OwnParent(d))
         && (d.recommendedState.Slave? ==> 0 < c.table.count || !c.portState.Listening?)
         && (IsSlaveOnly(c) ==> !d.recommendedState.Master? && !d.recommendedState.Passive?)
       else d == c
  }

  lemma DecideSummary(c: Clock)
    requires Ready(c)
    ensures DecidedFrom(c, Decide(c))
  {
  }

  lemma ElectionSummary(c: Clock, best: nat)
    requires best < |c.table.records|
    ensures var (d, state) := c.Elect(best);
      && d.(currentDS := c.currentDS, parentDS := c.parentDS, timePropertiesDS := c.timePropertiesDS,
            table := c.table, events := c.events) == c
      && d.table == c.table.(best := best)
      && d.events - {MasterClockChanged} == c.events - {MasterClockChanged}
      && state in {Listening, Master, Passive, Slave}
      && (state.Master? ==> OwnParent(d))
      && (state.Slave? ==> 0 < c.table.count || !c.portState.Listening?)
  {
  }

  lemma FollowRuns(d: Clock, qualificationExpired: bool)
    requires Initialised(d)
    ensures var s := Follow(d, qualificationExpired);
      && Running(s) && s.table == d.table && s.recommendedState == d.recommendedState
      && (StateDecision in s.events <==> StateDecision in d.events)
      && (d.portState.Faulty? && d.recommendedState.Master? ==> s.portState.PreMaster?)
  {
  }

  lemma DecideKeepsInitialised(c: Clock, d: Clock)
    requires Started(c) && DecidedFrom(c, d)
    ensures Initialised(d)
  {
  }

  /** Whatever has happened to a started port, the third part of a pass finds it running:
      initialised, configured, in a state that fits its recommendation, and never failed or
      initialising. A failure is left by taking up the recommendation again; the data sets
      are not initialised a second time. */
  lemma StartedPortIsServedRunning(c: Clock, p: Pass)
    requires Started(c)
    ensures Running(Follow(Decide(c), p.qualificationExpired))
  {
    DecideSummary(c);
    DecideKeepsInitialised(c, Decide(c));
    FollowRuns(Decide(c), p.qualificationExpired);
  }

  lemma ServedIsReady(c: Clock, p: Pass)
    requires Starting(c) || Started(c)
    ensures Ready(c) && Ready(Follow(Decide(c), p.qualificationExpired))
    ensures Started(c) ==> Running(Follow(Decide(c), p.qualificationExpired))
    ensures Starting(c) ==> Follow(Decide(c), p.qualificationExpired) == c
  {
    if Started(c) {
      StartedPortIsServedRunning(c, p);
    }
  }

  lemma HandleKeepsStarted(c: Clock, rx: Received)
    requires Started(c)
    ensures Started(Handle(c, rx)) && Handle(c, rx).recommendedState == c.recommendedState
  {
  }

  lemma GiveUpKeepsStarted(c: Clock)
    requires Started(c)
    ensures Started(GiveUp(c))
  {
  }

  lemma ServeKeepsStarted(c: Clock, p: Pass)
    requires Running(c)
    ensures Started(Serve(c, p))
  {
    if Waiting(c.portState) {
      HandleKeepsStarted(if p.monitorSendFails then ToState(c, Faulty) else c, p.monitorRx);
      HandleKeepsStarted(Monitored(c, p), p.rx);
      GiveUpKeepsStarted(Monitored(c, p));
    } else if c.portState.Master? {
      HandleKeepsStarted(SendAsMaster(c, p), p.rx);
    }
  }

  /** A started port stays started. */
  lemma PassKeepsStarted(c: Clock, p: Pass)
    requires Started(c)
    ensures Started(DoState(c, p))
  {
    ServeKeepsStarted(Served(c, p), p);
  }

  /** At power-up a port is starting, given as many records as it is to use. */
  lemma PowerUpIsStarting(rtOpts: RunTimeOpts, records: seq<ForeignMasterRecord>, portUuidField: MacAddress)
    requires 0 < rtOpts.maxForeignRecords == |records| <= 0x7fff
    ensures Starting(PowerUp(rtOpts, records, portUuidField))
    ensures PowerUp(rtOpts, records, portUuidField).portState.Initializing?
  {
  }

  /** Any number of passes. */
  function RunPasses(c: Clock, ps: seq<Pass>): (c': Clock)
    requires Starting(c) || Started(c)
    ensures Starting(c') || Started(c')
    decreases |ps|
  {
    if ps == [] then c else
    StartingKept(c, ps[0]);
    RunPasses(DoState(c, ps[0]), ps[1..])
  }

  lemma StartingKept(c: Clock, p: Pass)
    requires Starting(c) || Started(c)
    ensures Starting(DoState(c, p)) || Started(DoState(c, p))
  {
    if Started(c) {
      PassKeepsStarted(c, p);
    }
  }

  // ----- What every run keeps

  /** The Announce message a port sends (`msgPackAnnounce` in `PTPv2/src/dep/msg.c`): the
      identity and priorities come from the parent data set, the clock quality from the
      default data set. */
  function IssuedAnnounce(c: Clock): Announcement {
    Announcement(
      NO_MESSAGE.header.(sourcePortIdentity := c.portIdentity),
      MsgAnnounce(c.timePropertiesDS.currentUtcOffset, c.parentDS.grandmasterPriority1, c.defaultDS.clockQuality,
                  c.parentDS.grandmasterPriority2, c.parentDS.grandmasterIdentity, c.currentDS.stepsRemoved,
                  c.timePropertiesDS.timeSource))
  }

  lemma ServedKeepsOptions(c: Clock, p: Pass)
    requires Started(c)
    ensures Served(c, p).rtOpts == c.rtOpts
  {
    DecideSummary(c);
  }

  /** Over every run from power-up: a port that is served in state MASTER, the only one in
      which it sends Announce messages, announces its own data set D0; and a slave-only
      port is never found in, or left in, PRE_MASTER, MASTER or PASSIVE. */
  lemma RunIsSafe(c: Clock, ps: seq<Pass>, p: Pass)
    requires Starting(c) || Started(c)
    ensures var c' := RunPasses(c, ps);
      && (Served(c', p).portState.Master? ==> IsD0(IssuedAnnounce(Served(c', p)), Served(c', p).defaultDS))
      && (WillBeSlaveOnly(c'.rtOpts) ==>
          && c'.portState !in {PreMaster, Master, Passive}
          && Served(c', p).portState !in {PreMaster, Master, Passive})
      && (Started(c') ==> Served(c', p).portState !in {Initializing, Faulty})
  {
    SafeInEveryState(RunPasses(c, ps), p);
  }

  /** By the invariant a run keeps. */
  lemma SafeInEveryState(c: Clock, p: Pass)
    requires Starting(c) || Started(c)
    ensures Served(c, p).portState.Master? ==> IsD0(IssuedAnnounce(Served(c, p)), Served(c, p).defaultDS)
    ensures WillBeSlaveOnly(c.rtOpts) ==>
      && c.portState !in {PreMaster, Master, Passive}
      && Served(c, p).portState !in {PreMaster, Master, Passive}
    ensures Started(c) ==> Served(c, p).portState !in {Initializing, Faulty}
  {
    if Started(c) {
      ServedKeepsOptions(c, p);
    } else {
      ServedIsReady(c, p);
    }
  }

  /** A port that is handed to another parent goes to UNCALIBRATED, except exactly in one case:
      it is there already and a selection is still pending, which can be that of the parent
      before. Then the change is forgotten and the port goes to SLAVE. */
  lemma NewParentMeansUncalibrated(c: Clock, p: Pass)
    requires Started(c)
    ensures Decide(c).recommendedState.Slave?
            && Decide(c).parentDS.parentPortIdentity != c.parentDS.parentPortIdentity ==>
      && (Served(c, p).portState.Slave? <==> c.portState.Uncalibrated? && MasterClockSelected in c.events)
      && (Served(c, p).portState.Uncalibrated? <==> !Served(c, p).portState.Slave?)
      && (c.portState.Slave? ==> !DoState(c, p).portState.Slave?)
    ensures DoState(c, p).portState.Slave? ==>
      c.portState.Slave? || (c.portState.Uncalibrated? && MasterClockSelected in c.events)
  {
    OnlySlavesStaySlaves(Served(c, p), p);
    DecidedParent(c);
  }

  /** A port is only served as master if it was one already or was qualified in PRE_MASTER;
      otherwise a pass can end in MASTER only through the announce receipt timeout. */
  lemma MasterIsQualified(c: Clock, p: Pass)
    requires Started(c)
    ensures Served(c, p).portState.Master? ==>
      c.portState.Master? || (c.portState.PreMaster? && p.qualificationExpired)
    ensures DoState(c, p).portState.Master? ==>
      Served(c, p).portState.Master? || (Waiting(Served(c, p).portState) && p.announceExpired)
  {
    DecideSummary(c);
    HandleNeverPromotes(Served(c, p), p);
  }

  lemma HandleNeverPromotes(s: Clock, p: Pass)
    requires Running(s)
    ensures Serve(s, p).portState.Master? ==> s.portState.Master? || (Waiting(s.portState) && p.announceExpired)
  {
  }

  lemma OnlySlavesStaySlaves(s: Clock, p: Pass)
    requires Running(s)
    ensures Serve(s, p).portState.Slave? ==> s.portState.Slave?
  {
  }

  lemma DecidedParent(c: Clock)
    requires Started(c)
    ensures Decide(c).portState == c.portState
    ensures MasterClockSelected in Decide(c).events <==> MasterClockSelected in c.events
    ensures (Decide(c).recommendedState.Slave?
             && Decide(c).parentDS.parentPortIdentity != c.parentDS.parentPortIdentity) ==>
      MasterClockChanged in Decide(c).events
  {
    if Active(c.portState) && StateDecision in c.events {
      var c0 := c.(events := c.events - {StateDecision});
      ElectionSummary(c0, c0.Pick(Worse));
      ParentChangeSignalled(c0, c0.Pick(Worse));
    }
  }

  lemma ParentChangeSignalled(c: Clock, best: nat)
    requires best < |c.table.records|
    ensures c.Elect(best).1.Slave? && c.Elect(best).0.parentDS.parentPortIdentity != c.parentDS.parentPortIdentity ==>
      MasterClockChanged in c.Elect(best).0.events
  {
  }

  // ----- What handling a message can do

  predicate Fails(rx: Received) {
    rx.Malformed? || (rx.Other? && rx.sendFails)
  }

  /** All that handling a message can do to the parts of a port that matter here. */
  ghost predicate HandledFrom(c: Clock, c': Clock, rx: Received)
    requires Ready(c)
  {
    && c'.recommendedState == c.recommendedState && c'.defaultDS == c.defaultDS
    && c'.portIdentity == c.portIdentity
    && c'.parentDS.parentPortIdentity == c.parentDS.parentPortIdentity
    && c'.portState == (if Fails(rx) then Faulty else c.portState)
    && (StateDecision in c'.events <==> StateDecision in c.events || Hears(c, rx))
    && c'.table == (if Recorded(c, rx) then Apply(c.table, Heard(rx.m)) else c.table)
  }

  lemma HandleSummary(c: Clock, rx: Received)
    requires Ready(c)
    ensures HandledFrom(c, Handle(c, rx), rx)
  {
  }

  predicate MonitorHears(c: Clock, p: Pass) {
    Monitors(c, p) && !p.monitorSendFails && Hears(c, p.monitorRx)
  }

  ghost predicate MonitoredFrom(c: Clock, c': Clock, p: Pass)
    requires Ready(c)
  {
    && c'.recommendedState == c.recommendedState && c'.defaultDS == c.defaultDS
    && c'.portIdentity == c.portIdentity
    && c'.parentDS.parentPortIdentity == c.parentDS.parentPortIdentity
    && c'.portState == (if Monitors(c, p) && (p.monitorSendFails || Fails(p.monitorRx)) then Faulty else c.portState)
    && (StateDecision in c'.events <==> StateDecision in c.events || MonitorHears(c, p))
    && c'.table == (if MonitorHears(c, p) && Recorded(c, p.monitorRx) then Apply(c.table, Heard(p.monitorRx.m))
                    else c.table)
  }

  lemma MonitorSummary(c: Clock, p: Pass)
    requires Ready(c)
    ensures MonitoredFrom(c, Monitored(c, p), p)
  {
    if Monitors(c, p) {
      HandleSummary(if p.monitorSendFails then ToState(c, Faulty) else c, p.monitorRx);
    }
  }

  lemma AddGrows(t: Table, m: Announcement)
    requires t.Addressable()
    ensures t.Add(m).best == t.best && t.count <= t.Add(m).count && 0 < t.Add(m).count
  {
  }

  lemma MonitoredStarted(c: Clock, p: Pass)
    requires Started(c)
    ensures Started(Monitored(c, p))
  {
    HandleKeepsStarted(if p.monitorSendFails then ToState(c, Faulty) else c, p.monitorRx);
  }

  lemma PassKeepsOptions(c: Clock, p: Pass)
    requires Starting(c) || Started(c)
    ensures DoState(c, p).rtOpts == c.rtOpts
  {
    if Started(c) {
      ServedKeepsOptions(c, p);
      ServeKeepsOptions(Served(c, p), p);
    }
  }

  lemma ServeKeepsOptions(c: Clock, p: Pass)
    requires Ready(c)
    ensures Serve(c, p).rtOpts == c.rtOpts
  {
    HandleKeepsOptions(if p.monitorSendFails then ToState(c, Faulty) else c, p.monitorRx);
    HandleKeepsOptions(Monitored(c, p), p.rx);
    HandleKeepsOptions(SendAsMaster(c, p), p.rx);
  }

  lemma HandleKeepsOptions(c: Clock, rx: Received)
    requires Ready(c)
    ensures Handle(c, rx).rtOpts == c.rtOpts
  {
  }

  // ----- Runs put together

  /** A pass in which nothing happens, should the network come up. */
  const IDLE: Pass := Pass(true, false, false, false, Nothing, false, false, Nothing, false)

  lemma RunOfOne(c: Clock, p: Pass)
    requires Starting(c) || Started(c)
    ensures RunPasses(c, [p]) == DoState(c, p)
  {
  }

  lemma {:induction false} RunConcat(c: Clock, ps: seq<Pass>, qs: seq<Pass>)
    requires Starting(c) || Started(c)
    ensures RunPasses(c, ps + qs) == RunPasses(RunPasses(c, ps), qs)
    decreases |ps|
  {
    if ps == [] {
      assert ps + qs == qs;
    } else {
      StartingKept(c, ps[0]);
      assert (ps + qs)[1..] == ps[1..] + qs;
      RunConcat(DoState(c, ps[0]), ps[1..], qs);
    }
  }
}
