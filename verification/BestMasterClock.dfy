/** The best master clock algorithm of one port (`bmc`, `bmcStateDecision`, `m1`, `s1` and
    `copyD0` in `PTPv2/src/bmc.c`; sections 9.3.2 to 9.3.5 of IEEE Std 1588-2008). */
module BestMasterClock {
  import opened Octets
  import opened TimeArithmetic
  import opened DataSets
  import opened Comparison
  import opened RecordScan
  import opened ForeignMasters

  datatype PortState =
    | Initializing | Faulty | Disabled | Listening | PreMaster | Master | Passive | Uncalibrated | Slave

  datatype Event = StateDecision | SynchronizationFault | MasterClockSelected | MasterClockChanged

  datatype RunTimeOpts = RunTimeOpts(
    clockQuality: ClockQuality, priority1: UInt8, priority2: UInt8, slaveOnly: bool,
    currentUtcOffset: Int16, maxForeignRecords: nat)

  const NO_CLOCK: ClockIdentity := [0, 0, 0, 0, 0, 0, 0, 0]
  const NO_PORT: PortIdentity := PortIdentity(NO_CLOCK, 0)
  const NO_QUALITY: ClockQuality := ClockQuality(0, 0, 0)
  const NO_MESSAGE: Announcement :=
    Announcement(MsgHeader(0, 0, 0, 0, NO_PORT, 0), MsgAnnounce(0, 0, NO_QUALITY, 0, NO_CLOCK, 0, 0))

  /** The five attributes and the identity, as the local clock would announce them. */
  predicate IsD0(m: Announcement, d: DefaultDS) {
    && m.announce.grandmasterPriority1 == d.priority1
    && m.announce.grandmasterIdentity == d.clockIdentity
    && m.announce.grandmasterClockQuality == d.clockQuality
    && m.announce.grandmasterPriority2 == d.priority2
    && m.announce.stepsRemoved == 0
    && m.Sender().clockIdentity == d.clockIdentity
  }

  /** The local data set D0 as a message; what Table 12 does not mention is left at zero. */
  function D0(d: DefaultDS): (m: Announcement)
    ensures IsD0(m, d)
  {
    Announcement(
      NO_MESSAGE.header.(sourcePortIdentity := PortIdentity(d.clockIdentity, 0)),
      NO_MESSAGE.announce.(
        grandmasterPriority1 := d.priority1, grandmasterIdentity := d.clockIdentity,
        grandmasterClockQuality := d.clockQuality, grandmasterPriority2 := d.priority2))
  }

  /** All that the comparison sees of D0 is what Table 12 puts there. */
  lemma D0DecidesComparison(x: Announcement, y: Announcement, d: DefaultDS, m: Announcement, receiver: ClockIdentity)
    requires IsD0(x, d) && IsD0(y, d)
    ensures Compare(x, m, receiver) == Compare(y, m, receiver)
  {
  }

  /** The value of a port: its data sets, its table and its state. */
  datatype Clock = Clock(
    defaultDS: DefaultDS, currentDS: CurrentDS, parentDS: ParentDS, timePropertiesDS: TimePropertiesDS,
    portIdentity: PortIdentity, portState: PortState, table: Table, events: set<Event>,
    recommendedState: PortState, rtOpts: RunTimeOpts, portUuidField: MacAddress)
  {
    /** Table 13: the local clock becomes its own parent. */
    function M1(): Clock {
      this.(
        currentDS := CurrentDS(0, Time(0, 0), Time(0, 0)),
        parentDS := ParentDS(PortIdentity(defaultDS.clockIdentity, 0), defaultDS.clockIdentity,
                             defaultDS.clockQuality, defaultDS.priority1, defaultDS.priority2),
        timePropertiesDS := TimePropertiesDS(rtOpts.currentUtcOffset, false, false, false, false, false, false,
                                             INTERNAL_OSCILLATOR))
    }

    /** Table 16: the sender of the message becomes the parent. */
    function S1(m: Announcement): Clock {
      var (h, a) := (m.header, m.announce);
      this.(
        currentDS := currentDS.(stepsRemoved := (a.stepsRemoved + 1) % 0x1_0000),
        events := if parentDS.parentPortIdentity == m.Sender() then events else events + {MasterClockChanged},
        parentDS := ParentDS(m.Sender(), a.grandmasterIdentity, a.grandmasterClockQuality,
                             a.grandmasterPriority1, a.grandmasterPriority2),
        timePropertiesDS := TimePropertiesDS(
          a.currentUtcOffset, GetFlag(h.flagField1, FLAG1_UTC_OFFSET_VALID), GetFlag(h.flagField1, FLAG1_LEAP59),
          GetFlag(h.flagField1, FLAG1_LEAP61), GetFlag(h.flagField1, FLAG1_TIME_TRACEABLE),
          GetFlag(h.flagField1, FLAG1_FREQUENCY_TRACEABLE), GetFlag(h.flagField1, FLAG1_PTP_TIMESCALE),
          a.timeSource))
    }

    /** No records and still listening: there is nothing to decide. */
    predicate NothingHeard() {
      table.count == 0 && portState == Listening
    }

    predicate BeatsWithD0(m: Announcement) {
      Compare(D0(defaultDS), m, portIdentity.clockIdentity) == A_BETTER
    }

    /** Figure 26. */
    function StateDecision(m: Announcement): (r: (Clock, PortState)) {
      if NothingHeard() then (this, Listening)
      else if BeatsWithD0(m) then (M1(), Master)
      else if defaultDS.clockQuality.clockClass < 128 then (this, Passive)
      else (S1(m), Slave)
    }

    /** The record an election with the given scan decides on. With an empty table this is
        whatever record 0 was left with. */
    function Pick(keep: Keep): (best: nat)
      requires table.Addressable()
      ensures best < table.count || best == 0
      ensures best < |table.records|
    {
      Scan(table.Live(), portIdentity.clockIdentity, keep)
    }

    function Elect(best: nat): (Clock, PortState)
      requires best < |table.records|
    {
      this.(table := table.(best := best)).StateDecision(table.records[best].Message())
    }

    /** The election as the code runs it. */
    function Bmc(): (Clock, PortState)
      requires table.Addressable()
    {
      Elect(Pick(Worse))
    }
  }

  const CLOCK_CLASS_SLAVE_ONLY: UInt8 := 255

  /** A slave-only clock is given the class of one at startup. */
  function Adjusted(rtOpts: RunTimeOpts): RunTimeOpts {
    if rtOpts.slaveOnly
    then rtOpts.(clockQuality := rtOpts.clockQuality.(clockClass := CLOCK_CLASS_SLAVE_ONLY))
    else rtOpts
  }

  /** All data sets are zero until the port is initialised. */
  function PowerUp(rtOpts: RunTimeOpts, records: seq<ForeignMasterRecord>, portUuidField: MacAddress): Clock {
    Clock(DefaultDS(NO_CLOCK, NO_QUALITY, 0, 0, false), CurrentDS(0, Time(0, 0), Time(0, 0)),
          ParentDS(NO_PORT, NO_CLOCK, NO_QUALITY, 0, 0),
          TimePropertiesDS(0, false, false, false, false, false, false, 0), NO_PORT, Initializing,
          Table(records, 0, 0, 0, 0), {}, Initializing, Adjusted(rtOpts), portUuidField)
  }

  class PtpClock {
    var defaultDS: DefaultDS
    var currentDS: CurrentDS
    var parentDS: ParentDS
    var timePropertiesDS: TimePropertiesDS
    var portIdentity: PortIdentity
    var portState: PortState
    const foreignMasterDS: ForeignMasterDS
    var events: set<Event>
    var recommendedState: PortState
    var msgTmpHeader: MsgHeader
    var msgTmpAnnounce: MsgAnnounce
    var rtOpts: RunTimeOpts
    var portUuidField: MacAddress

    function Value(): Clock
      reads this, foreignMasterDS, foreignMasterDS.records
    {
      Clock(defaultDS, currentDS, parentDS, timePropertiesDS, portIdentity, portState,
            foreignMasterDS.Value(), events, recommendedState, rtOpts, portUuidField)
    }

    constructor (rtOpts: RunTimeOpts, foreign: array<ForeignMasterRecord>, portUuidField: MacAddress)
      ensures Value() == PowerUp(rtOpts, foreign[..], portUuidField)
      ensures fresh(foreignMasterDS) && foreignMasterDS.records == foreign
    {
      defaultDS := DefaultDS(NO_CLOCK, NO_QUALITY, 0, 0, false);
      currentDS := CurrentDS(0, Time(0, 0), Time(0, 0));
      parentDS := ParentDS(NO_PORT, NO_CLOCK, NO_QUALITY, 0, 0);
      timePropertiesDS := TimePropertiesDS(0, false, false, false, false, false, false, 0);
      portIdentity := NO_PORT;
      events := {};
      msgTmpHeader, msgTmpAnnounce := NO_MESSAGE.header, NO_MESSAGE.announce;
      this.rtOpts, this.portUuidField := Adjusted(rtOpts), portUuidField;
      foreignMasterDS := new ForeignMasterDS(foreign);
      portState := Initializing;
      recommendedState := Initializing;
    }

    method M1()
      modifies this
      ensures Value() == old(Value()).M1()
    {
      currentDS := currentDS.(stepsRemoved := 0);
      currentDS := currentDS.(offsetFromMaster := Time(0, 0));
      currentDS := currentDS.(meanPathDelay := Time(0, 0));
      parentDS := parentDS.(parentPortIdentity := PortIdentity(defaultDS.clockIdentity, 0));
      parentDS := parentDS.(grandmasterIdentity := defaultDS.clockIdentity);
      parentDS := parentDS.(grandmasterClockQuality := defaultDS.clockQuality);
      parentDS := parentDS.(grandmasterPriority1 := defaultDS.priority1);
      parentDS := parentDS.(grandmasterPriority2 := defaultDS.priority2);
      timePropertiesDS := TimePropertiesDS(
        rtOpts.currentUtcOffset, false, false, false, false, false, false, INTERNAL_OSCILLATOR);
    }

    method S1(header: MsgHeader, announce: MsgAnnounce)
      modifies this
      ensures Value() == old(Value()).S1(Announcement(header, announce))
    {
      currentDS := currentDS.(stepsRemoved := (announce.stepsRemoved + 1) % 0x1_0000);
      var isFromCurrentParent := IsSamePortIdentity(parentDS.parentPortIdentity, header.sourcePortIdentity);
      if !isFromCurrentParent {
        events := events + {MasterClockChanged};
      }
      parentDS := ParentDS(header.sourcePortIdentity, announce.grandmasterIdentity, announce.grandmasterClockQuality,
                           announce.grandmasterPriority1, announce.grandmasterPriority2);
      timePropertiesDS := TimePropertiesDS(
        announce.currentUtcOffset, GetFlag(header.flagField1, FLAG1_UTC_OFFSET_VALID),
        GetFlag(header.flagField1, FLAG1_LEAP59), GetFlag(header.flagField1, FLAG1_LEAP61),
        GetFlag(header.flagField1, FLAG1_TIME_TRACEABLE), GetFlag(header.flagField1, FLAG1_FREQUENCY_TRACEABLE),
        GetFlag(header.flagField1, FLAG1_PTP_TIMESCALE), announce.timeSource);
    }

    /** Writes D0 over the message received last, whose buffers it borrows. */
    method CopyD0()
      modifies this`msgTmpHeader, this`msgTmpAnnounce
      ensures IsD0(Announcement(msgTmpHeader, msgTmpAnnounce), defaultDS)
      ensures msgTmpHeader.(sourcePortIdentity := old(msgTmpHeader).sourcePortIdentity) == old(msgTmpHeader)
      ensures msgTmpHeader.sourcePortIdentity.portNumber == old(msgTmpHeader).sourcePortIdentity.portNumber
      ensures (msgTmpAnnounce.currentUtcOffset, msgTmpAnnounce.timeSource) ==
        old((msgTmpAnnounce.currentUtcOffset, msgTmpAnnounce.timeSource))
    {
      msgTmpAnnounce := msgTmpAnnounce.(grandmasterPriority1 := defaultDS.priority1);
      msgTmpAnnounce := msgTmpAnnounce.(grandmasterIdentity := defaultDS.clockIdentity);
      msgTmpAnnounce := msgTmpAnnounce.(grandmasterClockQuality := defaultDS.clockQuality);
      msgTmpAnnounce := msgTmpAnnounce.(grandmasterPriority2 := defaultDS.priority2);
      msgTmpAnnounce := msgTmpAnnounce.(stepsRemoved := 0);
      msgTmpHeader := msgTmpHeader.(
        sourcePortIdentity := msgTmpHeader.sourcePortIdentity.(clockIdentity := defaultDS.clockIdentity));
    }

    method BmcStateDecision(header: MsgHeader, announce: MsgAnnounce) returns (state: PortState)
      modifies this
      ensures (Value(), state) == old(Value()).StateDecision(Announcement(header, announce))
    {
      if foreignMasterDS.count == 0 && portState == Listening {
        return Listening;
      }
      CopyD0();
      var comp := Compare(Announcement(msgTmpHeader, msgTmpAnnounce), Announcement(header, announce),
                          portIdentity.clockIdentity);
      D0DecidesComparison(Announcement(msgTmpHeader, msgTmpAnnounce), D0(defaultDS), defaultDS,
                          Announcement(header, announce), portIdentity.clockIdentity);
      if defaultDS.clockQuality.clockClass < 128 {
        if A_BETTER == comp {
          M1();
          return Master;
        } else {
          return Passive;
        }
      } else {
        if A_BETTER == comp {
          M1();
          return Master;
        } else {
          S1(header, announce);
          return Slave;
        }
      }
    }

    /** The scanning loop of `bmc`. */
    method PickRecord() returns (best: nat)
      requires foreignMasterDS.Value().Addressable()
      ensures best == Value().Pick(Worse)
    {
      ghost var t, receiver := foreignMasterDS.Value(), portIdentity.clockIdentity;
      best := 0;
      var i := 1;
      while i < foreignMasterDS.count
        invariant best < i && (i == 1 || i <= t.count)
        invariant i <= t.count ==> best == ScanPrefix(t, receiver, Worse, i)
      {
        ScanStep(t, receiver, Worse, i);
        if Compare(foreignMasterDS.records[i].Message(), foreignMasterDS.records[best].Message(),
                   portIdentity.clockIdentity) < 0 {
          best := i;
        }
        i := i + 1;
      }
      ScanEnd(t, receiver, Worse);
    }

    method Bmc() returns (state: PortState)
      requires foreignMasterDS.Value().Addressable()
      modifies this, foreignMasterDS`best
      ensures (Value(), state) == old(Value()).Bmc()
    {
      var best := PickRecord();
      foreignMasterDS.best := best;
      state := BmcStateDecision(foreignMasterDS.records[best].header, foreignMasterDS.records[best].announce);
    }
  }

  /** The scan's candidate after the first i records. */
  function ScanPrefix(t: Table, receiver: ClockIdentity, keep: Keep, i: nat): (best: nat)
    requires t.Addressable() && i <= t.count
    ensures best < i || best == 0
  {
    Scan(t.Live()[..i], receiver, keep)
  }

  /** One round of the scanning loop. */
  lemma ScanStep(t: Table, receiver: ClockIdentity, keep: Keep, i: nat)
    requires t.Addressable() && 1 <= i < t.count
    ensures var best := ScanPrefix(t, receiver, keep, i);
      ScanPrefix(t, receiver, keep, i + 1) ==
      if keep.Takes(Compare(t.records[i].Message(), t.records[best].Message(), receiver)) then i else best
  {
    assert t.Live()[..i + 1][..i] == t.Live()[..i];
  }

  lemma ScanEnd(t: Table, receiver: ClockIdentity, keep: Keep)
    requires t.Addressable()
    ensures ScanPrefix(t, receiver, keep, t.count) == Scan(t.Live(), receiver, keep)
    ensures t.count == 0 ==> Scan(t.Live(), receiver, keep) == 0
  {
    assert t.Live()[..t.count] == t.Live();
  }

  // ----- When a port becomes master

  /** The local data set and the live records together. */
  function Field(c: Clock): seq<Announcement>
    requires c.table.Addressable()
  {
    [D0(c.defaultDS)] + c.table.Live()
  }

  /** With the scan as written, one live record that is worse than the local clock is
      enough for the port to become master; the intended scan requires all to be worse. */
  lemma MasterWhen(c: Clock)
    requires c.table.Addressable() && 0 < c.table.count
    requires Orderly(Field(c), c.portIdentity.clockIdentity)
    ensures c.Bmc().1 == Master <==>
      exists k :: 0 <= k < c.table.count && c.BeatsWithD0(c.table.Live()[k])
    ensures c.Elect(c.Pick(Better)).1 == Master <==>
      forall k :: 0 <= k < c.table.count ==> c.BeatsWithD0(c.table.Live()[k])
  {
    var live, field, receiver := c.table.Live(), Field(c), c.portIdentity.clockIdentity;
    LiveIsOrderly(c);
    ScanIsExtremal(live, receiver, Worse);
    ScanIsExtremal(live, receiver, Better);
    var worst, best := c.Pick(Worse), c.Pick(Better);
    forall k | 0 <= k < c.table.count
      ensures c.BeatsWithD0(live[k]) ==> c.BeatsWithD0(live[worst])
      ensures c.BeatsWithD0(live[best]) ==> c.BeatsWithD0(live[k])
    {
      CompareIsAntisymmetric(live[k], live[best], receiver);
      BeatingComposes(c, k, worst);
      BeatingComposes(c, best, k);
    }
  }

  lemma LiveIsOrderly(c: Clock)
    requires c.table.Addressable()
    requires Orderly(Field(c), c.portIdentity.clockIdentity)
    ensures Orderly(c.table.Live(), c.portIdentity.clockIdentity)
  {
    var live, field := c.table.Live(), Field(c);
    forall i, j | 0 <= i < |live| && 0 <= j < |live|
      ensures Coherent(live[i], live[j]) && !Echo(live[i], c.portIdentity.clockIdentity)
    {
      assert field[i + 1] == live[i] && field[j + 1] == live[j];
    }
  }

  /** Who beats a record beats every record that is no better. */
  lemma BeatingComposes(c: Clock, k: nat, l: nat)
    requires c.table.Addressable() && k < c.table.count && l < c.table.count
    requires Orderly(Field(c), c.portIdentity.clockIdentity)
    requires Compare(c.table.Live()[k], c.table.Live()[l], c.portIdentity.clockIdentity) >= 0
    ensures c.BeatsWithD0(c.table.Live()[k]) ==> c.BeatsWithD0(c.table.Live()[l])
  {
    var field, receiver := Field(c), c.portIdentity.clockIdentity;
    OrderlyTriple(field, receiver, 0, k + 1, l + 1);
    if c.BeatsWithD0(c.table.Live()[k]) {
      CompareIsWeakOrder(field[0], field[k + 1], field[l + 1], receiver);
      CompareIsAntisymmetric(field[0], field[l + 1], receiver);
    }
  }

  // ----- Coherence of the data sets

  /** The data sets describe the clock itself as grandmaster, with its own time scale and no
      leap second announced. */
  predicate OwnParent(c: Clock) {
    && c.parentDS == ParentDS(PortIdentity(c.defaultDS.clockIdentity, 0), c.defaultDS.clockIdentity,
                              c.defaultDS.clockQuality, c.defaultDS.priority1, c.defaultDS.priority2)
    && c.currentDS == CurrentDS(0, Time(0, 0), Time(0, 0))
    && !c.timePropertiesDS.leap59 && !c.timePropertiesDS.leap61 && !c.timePropertiesDS.ptpTimescale
    && !c.timePropertiesDS.currentUtcOffsetValid
    && !c.timePropertiesDS.timeTraceable && !c.timePropertiesDS.frequencyTraceable
    && c.timePropertiesDS.currentUtcOffset == c.rtOpts.currentUtcOffset
    && c.timePropertiesDS.timeSource == INTERNAL_OSCILLATOR
  }

  /** The data sets describe the sender of a record as parent, one step farther away. */
  predicate ParentIs(c: Clock, r: ForeignMasterRecord) {
    && c.parentDS == ParentDS(r.foreignMasterPortIdentity, r.announce.grandmasterIdentity,
                              r.announce.grandmasterClockQuality, r.announce.grandmasterPriority1,
                              r.announce.grandmasterPriority2)
    && (r.announce.stepsRemoved < 0xffff ==> c.currentDS.stepsRemoved == r.announce.stepsRemoved + 1)
    && (r.announce.stepsRemoved == 0xffff ==> c.currentDS.stepsRemoved == 0)
  }

  /** The time properties are those the message carries, flag by flag. */
  predicate TimeFrom(c: Clock, r: ForeignMasterRecord) {
    var (t, flags) := (c.timePropertiesDS, r.header.flagField1);
    && t.currentUtcOffset == r.announce.currentUtcOffset && t.timeSource == r.announce.timeSource
    && (t.leap61 <==> flags & 0x01 != 0) && (t.leap59 <==> flags & 0x02 != 0)
    && (t.currentUtcOffsetValid <==> flags & 0x04 != 0) && (t.ptpTimescale <==> flags & 0x08 != 0)
    && (t.timeTraceable <==> flags & 0x10 != 0) && (t.frequencyTraceable <==> flags & 0x20 != 0)
  }

  /** Only the distance, the parent, the time properties and the event may differ: in
      particular nothing that has been measured is lost. */
  predicate KeepsMeasurements(c: Clock, c': Clock) {
    && c'.currentDS.offsetFromMaster == c.currentDS.offsetFromMaster
    && c'.currentDS.meanPathDelay == c.currentDS.meanPathDelay
  }

  lemma S1SetsParent(c: Clock, r: ForeignMasterRecord)
    requires r.foreignMasterPortIdentity == r.header.sourcePortIdentity
    ensures var c' := c.S1(r.Message());
      && ParentIs(c', r) && TimeFrom(c', r) && KeepsMeasurements(c, c')
      && c'.events - {MasterClockChanged} == c.events - {MasterClockChanged}
      && c'.(currentDS := c.currentDS, parentDS := c.parentDS, timePropertiesDS := c.timePropertiesDS,
             events := c.events) == c
  {
  }

  /** After an election the data sets agree with its outcome: a slave's parent is the live
      record the scan picked, by the identity it has in the table; a master is its own
      parent; otherwise nothing has changed. The table keeps its records. */
  lemma ElectionKeepsDataSetsCoherent(c: Clock)
    requires c.table.Valid() && (0 < c.table.count || c.portState == Listening)
    ensures var (c', state) := c.Bmc();
      && c'.table == c.table.(best := c'.table.best) && c'.table.Valid() && c'.table.Searchable()
      && (state == Slave ==>
          && c'.table.best < c.table.count
          && ParentIs(c', c'.table.records[c'.table.best]) && TimeFrom(c', c'.table.records[c'.table.best])
          && KeepsMeasurements(c, c'))
      && (state == Master ==> OwnParent(c'))
      && (state == Passive || state == Listening ==>
          (c'.parentDS, c'.currentDS, c'.timePropertiesDS, c'.events) ==
          (c.parentDS, c.currentDS, c.timePropertiesDS, c.events))
      && state in {Slave, Master, Passive, Listening}
      && (state == Listening <==> c.NothingHeard())
      && (state == Master <==> !c.NothingHeard() && c.BeatsWithD0(c.table.Live()[c'.table.best]))
      && (state == Passive ==> c.defaultDS.clockQuality.clockClass < 128)
      && (state == Slave ==> c.defaultDS.clockQuality.clockClass >= 128)
  {
    var best := c.Pick(Worse);
    if c.Elect(best).1 == Slave {
      S1SetsParent(c.(table := c.table.(best := best)), c.table.records[best]);
    }
  }

  // ----- Signalling a change of parent

  datatype Action = Hear(m: Announcement) | RunBmc

  function Act(c: Clock, a: Action): (c': Clock)
    requires c.table.Addressable()
    ensures c'.table.Addressable()
  {
    match a
    case Hear(m) => c.(table := Apply(c.table, Heard(m)))
    case RunBmc => c.Bmc().0
  }

  function ActAll(c: Clock, actions: seq<Action>): Clock
    requires c.table.Addressable()
    decreases |actions|
  {
    if actions == [] then c else ActAll(Act(c, actions[0]), actions[1..])
  }

  /** The action is an election that hands the port from one parent to another. */
  predicate ChangesParent(c: Clock, a: Action)
    requires c.table.Addressable()
  {
    && a.RunBmc? && c.Bmc().1 == Slave
    && c.Bmc().0.parentDS.parentPortIdentity != c.parentDS.parentPortIdentity
  }

  predicate SomeActionChangesParent(c: Clock, actions: seq<Action>)
    requires c.table.Addressable()
    decreases |actions|
  {
    actions != [] && (ChangesParent(c, actions[0]) || SomeActionChangesParent(Act(c, actions[0]), actions[1..]))
  }

  /** Over any run of messages and elections the change of master is signalled exactly when
      some election has changed the parent; elections that confirm it, or make the port
      master or passive, signal nothing. */
  lemma {:induction false} ChangeIsSignalledExactly(c: Clock, actions: seq<Action>)
    requires c.table.Addressable()
    ensures MasterClockChanged in ActAll(c, actions).events <==>
      MasterClockChanged in c.events || SomeActionChangesParent(c, actions)
    decreases |actions|
  {
    if actions != [] {
      ChangeIsSignalledExactly(Act(c, actions[0]), actions[1..]);
    }
  }
}
