/** Runs from power-up that reach the states the other modules speak of. */
module Scenarios {
  import opened Octets
  import opened TimeArithmetic
  import opened DataSets
  import opened Comparison
  import opened RecordScan
  import opened ForeignMasters
  import opened BestMasterClock
  import opened Protocol
  import opened TableRuns
  import opened EmptyElections

  const SELECT: Pass := IDLE.(rx := Other(Time(0, 0), Time(0, 0), true, false, false))

  /** A port that can be a slave, and one message of a master that its own clock does not
      beat. */
  ghost predicate Outranked(c: Clock, x: Announcement) {
    && 128 <= c.rtOpts.clockQuality.clockClass
    && 2 <= c.rtOpts.maxForeignRecords
    && var d := ConfiguredDefaultDS(c);
      x.Sender() != PortIdentity(d.clockIdentity, 1) && Compare(D0(d), x, d.clockIdentity) != A_BETTER
  }

  /** Its only foreign master is the sender of the message. */
  ghost predicate Follows(c: Clock, x: Announcement) {
    && Started(c) && Outranked(c, x)
    && c.recommendedState.Slave? && c.parentDS.parentPortIdentity == x.Sender()
    && c.table.count == 1 == c.table.i && c.table.best == 0 && c.table.records[0] == NewRecord(x)
    && StateDecision !in c.events && SynchronizationFault !in c.events
  }

  /** It has heard one master and not decided yet. */
  ghost predicate HeardFirst(c: Clock, x: Announcement) {
    && Started(c) && Outranked(c, x) && c.portState.Listening? && c.events == {StateDecision}
    && c.table.count == 1 == c.table.i && c.table.best == 0 && c.table.records[0] == NewRecord(x)
  }

  predicate SameOptions(c: Clock, c': Clock) {
    c'.rtOpts == c.rtOpts && c'.portUuidField == c.portUuidField
  }

  /** From power-up the port comes to be a slave of the one master it hears. */
  lemma BecomesSlave(c: Clock, x: Announcement) returns (ps: seq<Pass>)
    requires Starting(c) && c.portState.Initializing? && Outranked(c, x)
    ensures Follows(RunPasses(c, ps), x) && RunPasses(c, ps).portState.Slave? && RunPasses(c, ps).events == {}
  {
    var hear := IDLE.(rx := Announce(x));
    RunOfOne(c, IDLE);
    PortInitialised(c, x);
    var c1 := RunPasses(c, [IDLE]);
    RunOfOne(c1, hear);
    FirstMasterHeard(c1, x);
    var c2 := RunPasses(c1, [hear]);
    RunOfOne(c2, SELECT);
    FirstMasterAdopted(c2, x);
    var c3 := RunPasses(c2, [SELECT]);
    RunOfOne(c3, IDLE);
    SlaveEntered(c3, x);
    RunConcat(c, [IDLE], [hear]);
    RunConcat(c, [IDLE] + [hear], [SELECT]);
    RunConcat(c, [IDLE] + [hear] + [SELECT], [IDLE]);
    ps := [IDLE] + [hear] + [SELECT] + [IDLE];
  }

  lemma PortInitialised(c: Clock, x: Announcement)
    requires Starting(c) && c.portState.Initializing? && Outranked(c, x)
    ensures var c' := DoState(c, IDLE);
      && Started(c') && c'.portState.Listening? && c'.events == {}
      && c'.table.count == c'.table.i == c'.table.best == 0 && Outranked(c', x) && SameOptions(c, c')
  {
  }

  lemma FirstMasterHeard(c: Clock, x: Announcement)
    requires Started(c) && c.portState.Listening? && c.events == {} && c.table.count == c.table.i == c.table.best == 0
    requires Outranked(c, x)
    ensures var c' := DoState(c, IDLE.(rx := Announce(x)));
      HeardFirst(c', x) && SameOptions(c, c')
  {
    var p := IDLE.(rx := Announce(x));
    PassKeepsStarted(c, p);
    AddToEmpty(c.table, x);
    assert Served(c, p) == c;
    assert DoState(c, p) == HandleAnnounce(c, x);
  }

  lemma FirstMasterElected(c: Clock, x: Announcement)
    requires HeardFirst(c, x)
    ensures var c' := Decide(c);
      && c'.recommendedState.Slave? && c'.parentDS.parentPortIdentity == x.Sender()
      && c'.table == c.table && c'.events <= {MasterClockChanged} && c'.portState.Listening? && SameOptions(c, c')
  {
  }

  lemma FirstMasterAdopted(c: Clock, x: Announcement)
    requires HeardFirst(c, x)
    ensures var c' := DoState(c, SELECT);
      Follows(c', x) && c'.portState.Uncalibrated? && c'.events - {MasterClockChanged} == {MasterClockSelected}
  {
    FirstMasterElected(c, x);
    DecideSummary(c);
    PassKeepsStarted(c, SELECT);
    assert Served(c, SELECT) == ToState(Decide(c), Uncalibrated);
  }

  lemma SlaveEntered(c: Clock, x: Announcement)
    requires Follows(c, x) && c.portState.Uncalibrated? && c.events - {MasterClockChanged} == {MasterClockSelected}
    ensures var c' := DoState(c, IDLE);
      Follows(c', x) && c'.portState.Slave? && c'.events == {}
  {
  }

  /** A slave whose only master falls silent, but which hears another one through the
      monitoring extension in the pass in which the timeout expires, holds an election among
      no records, and the silent master wins it. */
  lemma SilentMasterIsElectedAgain(c: Clock, x: Announcement, y: Announcement) returns (p: Pass)
    requires Follows(c, x) && c.portState.Slave? && c.events == {} && !IsSlaveOnly(c)
    requires y.Sender() != x.Sender() && y.Sender() != c.portIdentity
    ensures EmptyElection(RunPasses(c, [p])) && RunPasses(c, [p]).portState.Master?
    ensures var c' := RunPasses(c, [p] + [IDLE]);
      c'.table.count == 0 && c'.portState.Uncalibrated? && c'.parentDS.parentPortIdentity == x.Sender()
  {
    p := IDLE.(monitorExpired := true, monitorRx := Announce(y), announceExpired := true);
    RunOfOne(c, p);
    OvertakenByTimeout(c, x, y, p);
    var c' := RunPasses(c, [p]);
    RunOfOne(c', IDLE);
    EmptyElectionOfStaleRecord(c', x);
    RunConcat(c, [p], [IDLE]);
  }

  lemma OvertakenByTimeout(c: Clock, x: Announcement, y: Announcement, p: Pass)
    requires Follows(c, x) && c.portState.Slave? && c.events == {} && !IsSlaveOnly(c)
    requires y.Sender() != x.Sender() && y.Sender() != c.portIdentity
    requires p == IDLE.(monitorExpired := true, monitorRx := Announce(y), announceExpired := true)
    ensures var c' := DoState(c, p);
      && Started(c') && Outranked(c', x) && EmptyElection(c') && c'.portState.Master?
      && c'.table.records[0] == NewRecord(x)
  {
    PassKeepsStarted(c, p);
    assert Served(c, p) == c;
    assert c.table.Search(y.Sender(), 0) == c.table.Search(y.Sender(), 1) == None;
    assert c.table.Add(y) == c.table.Insert(y);
  }

  lemma EmptyElectionOfStaleRecord(c: Clock, x: Announcement)
    requires Started(c) && Outranked(c, x) && EmptyElection(c) && c.portState.Master? && !IsSlaveOnly(c)
    requires c.table.records[0] == NewRecord(x)
    ensures var c' := DoState(c, IDLE);
      c'.table.count == 0 && c'.portState.Uncalibrated? && c'.parentDS.parentPortIdentity == x.Sender()
  {
  }

  // ----- Two masters

  /** The port has heard x and then y, the less preferred of the two masters. */
  ghost predicate HeardBoth(c: Clock, x: Announcement, y: Announcement) {
    && Started(c) && Outranked(c, x) && Outranked(c, y) && x.Sender() != y.Sender()
    && Compare(y, x, c.portIdentity.clockIdentity) < 0
    && c.recommendedState.Slave? && c.portState.Uncalibrated?
    && c.table.count == 2 && c.table.best == 0
    && c.table.records[0] == NewRecord(x) && c.table.records[1] == NewRecord(y)
    && StateDecision in c.events && SynchronizationFault !in c.events
  }

  /** Two masters heard by a port that is being initialised, the second worse than the first. */
  ghost predicate Rivals(c: Clock, x: Announcement, y: Announcement) {
    && Starting(c) && c.portState.Initializing? && Outranked(c, x) && Outranked(c, y) && x.Sender() != y.Sender()
    && Compare(y, x, ConfiguredDefaultDS(c).clockIdentity) < 0
  }

  /** The election then takes the second, as the record least preferred. */
  lemma SecondIsElected(c: Clock, x: Announcement, y: Announcement)
    requires HeardBoth(c, x, y)
    ensures var d := Decide(c);
      && d.recommendedState.Slave? && d.parentDS.parentPortIdentity == y.Sender()
      && d.table == c.table.(best := 1) && d.portState.Uncalibrated?
      && d.events - {MasterClockChanged} == c.events - {StateDecision, MasterClockChanged}
  {
    var live := c.table.Live();
    assert live[1] == y && live[0] == x && live[..1] == [x];
    assert Scan(live, c.portIdentity.clockIdentity, Worse) == 1;
  }

  lemma FirstOfTwoHeard(c: Clock, x: Announcement, y: Announcement)
    requires Rivals(c, x, y)
    ensures var c' := RunPasses(c, [IDLE, IDLE.(rx := Announce(x))]);
      HeardFirst(c', x) && SameOptions(c, c')
  {
    var hear := IDLE.(rx := Announce(x));
    RunOfOne(c, IDLE);
    PortInitialised(c, x);
    RunOfOne(DoState(c, IDLE), hear);
    FirstMasterHeard(DoState(c, IDLE), x);
    RunConcat(c, [IDLE], [hear]);
    assert [IDLE] + [hear] == [IDLE, hear];
  }

  lemma SecondIsNew(t: Table, x: Announcement, y: Announcement)
    requires t.Addressable() && t.count == 1 == t.i && t.best == 0 && t.records[0] == NewRecord(x)
    requires x.Sender() != y.Sender() && 2 <= t.capacity
    ensures t.Add(y) == t.Insert(y)
    ensures t.Insert(y).count == 2 && t.Insert(y).best == 0
    ensures t.Insert(y).records[0] == NewRecord(x) && t.Insert(y).records[1] == NewRecord(y)
  {
    assert t.Search(y.Sender(), 0) == t.Search(y.Sender(), 1) == None;
  }

  // ----- A slave-only port that doubles a record

  lemma SecondOfTwoHeard(c: Clock, x: Announcement, y: Announcement)
    requires HeardFirst(c, x) && Outranked(c, y) && x.Sender() != y.Sender()
    requires Compare(y, x, c.portIdentity.clockIdentity) < 0
    ensures var c' := DoState(c, IDLE.(rx := Announce(y)));
      HeardBoth(c', x, y) && c'.events <= {StateDecision, MasterClockChanged} && SameOptions(c, c')
  {
    var p := IDLE.(rx := Announce(y));
    FirstMasterElected(c, x);
    DecideSummary(c);
    PassKeepsStarted(c, p);
    assert Served(c, p) == ToState(Decide(c), Uncalibrated);
    SecondIsNew(c.table, x, y);
    HandleSummary(Served(c, p), p.rx);
  }

  /** A slave of y with both records, `best` at the second. */
  ghost predicate FollowsSecond(c: Clock, y: Announcement) {
    && Started(c) && c.recommendedState.Slave? && c.parentDS.parentPortIdentity == y.Sender()
    && c.table.count == 2 && c.table.best == 1 && c.table.records[1] == NewRecord(y)
  }

  lemma SecondIsSelected(c: Clock, x: Announcement, y: Announcement)
    requires HeardBoth(c, x, y) && c.events <= {StateDecision, MasterClockChanged}
    ensures var c' := DoState(c, SELECT);
      && FollowsSecond(c', y) && c'.portState.Uncalibrated? && c'.events == {MasterClockSelected}
      && SameOptions(c, c')
  {
    SecondIsElected(c, x, y);
    DecideSummary(c);
    PassKeepsStarted(c, SELECT);
  }

  lemma SlaveOfSecond(c: Clock, y: Announcement)
    requires FollowsSecond(c, y) && c.portState.Uncalibrated? && c.events == {MasterClockSelected}
    ensures var c' := DoState(c, IDLE);
      FollowsSecond(c', y) && c'.portState.Slave? && c'.events == {} && SameOptions(c, c')
  {
  }

  lemma SecondTimesOut(c: Clock, y: Announcement)
    requires FollowsSecond(c, y) && c.portState.Slave? && c.events == {} && IsSlaveOnly(c)
    ensures var c' := DoState(c, IDLE.(announceExpired := true));
      && Started(c') && c'.portState.Listening? && c'.events == {}
      && c'.table == c.table.TimedOut() && c'.portIdentity == c.portIdentity
  {
    var p := IDLE.(announceExpired := true);
    PassKeepsStarted(c, p);
    assert Served(c, p) == c && DoState(c, p) == GiveUp(c);
  }

  /** One pass in LISTENING that hears the same sender twice, first through the extension. */
  function Twice(m: Announcement): Pass {
    IDLE.(monitorExpired := true, monitorRx := Announce(m), rx := Announce(m))
  }

  lemma HearsTwice(c: Clock, m: Announcement)
    requires Started(c) && c.portState.Listening? && c.events == {} && m.Sender() != c.portIdentity
    ensures LeftBehind(Served(c, Twice(m)), Twice(m)) <==> c.table.count == 0 < c.table.best
    ensures DoState(c, Twice(m)).table == Apply(Apply(c.table, Heard(m)), Heard(m))
  {
    var p := Twice(m);
    assert Served(c, p) == c;
    MonitorSummary(c, p);
    HandleSummary(Monitored(c, p), p.rx);
  }

  lemma RunSnoc(c: Clock, ps: seq<Pass>, p: Pass)
    requires Starting(c) || Started(c)
    ensures RunPasses(c, ps + [p]) == DoState(RunPasses(c, ps), p)
  {
    RunConcat(c, ps, [p]);
    RunOfOne(RunPasses(c, ps), p);
  }

  /** From power-up to a slave of the second of two masters, with `best` at its record. */
  lemma FollowsSecondMaster(c: Clock, x: Announcement, y: Announcement) returns (ps: seq<Pass>)
    requires Rivals(c, x, y)
    ensures var c' := RunPasses(c, ps);
      FollowsSecond(c', y) && c'.portState.Slave? && c'.events == {} && SameOptions(c, c')
  {
    var p1 := [IDLE, IDLE.(rx := Announce(x))];
    var p2 := p1 + [IDLE.(rx := Announce(y))];
    FirstOfTwoHeard(c, x, y);
    SecondOfTwoHeard(RunPasses(c, p1), x, y);
    RunSnoc(c, p1, IDLE.(rx := Announce(y)));
    SecondIsSelected(RunPasses(c, p2), x, y);
    RunSnoc(c, p2, SELECT);
    SlaveOfSecond(RunPasses(c, p2 + [SELECT]), y);
    RunSnoc(c, p2 + [SELECT], IDLE);
    ps := p2 + [SELECT] + [IDLE];
  }

  /** From power-up a slave-only port hears two masters, loses both, and then hears the first
      one twice in a pass in LISTENING. Its table then has two records of that sender; so the
      run is not regular, and its last pass is left behind. */
  lemma SlaveOnlyPortDoublesRecord(c: Clock, x: Announcement, y: Announcement) returns (ps: seq<Pass>)
    requires Rivals(c, x, y) && WillBeSlaveOnly(c.rtOpts)
    ensures var t := RunPasses(c, ps).table;
      && t.count == 2 && 2 <= |t.records| && t.Identity(0) == t.Identity(1) == x.Sender()
    ensures HasValidTable(c) && !Regular(TableOf(c), RunEvents(c, ps)) && !NeverLeftBehind(c, ps)
  {
    var slave := FollowsSecondMaster(c, x, y);
    var c1 := RunPasses(c, slave);
    var timeout := IDLE.(announceExpired := true);
    SecondTimesOut(c1, y);
    RunSnoc(c, slave, timeout);
    var c2 := DoState(c1, timeout);
    HearsTwice(c2, x);
    RunSnoc(c, slave + [timeout], Twice(x));
    DoubledAfterTimeout(c1.table, x, y);
    ps := slave + [timeout] + [Twice(x)];
    DoubledIsIrregular(c, ps);
  }

  lemma DoubledAfterTimeout(t: Table, x: Announcement, y: Announcement)
    requires t.Addressable() && t.count == 2 && t.best == 1 && t.records[1] == NewRecord(y) && x.Sender() != y.Sender()
    ensures var t' := Apply(Apply(t.TimedOut(), Heard(x)), Heard(x));
      t'.count == 2 && t'.Identity(0) == t'.Identity(1) == x.Sender()
  {
    var t1 := t.TimedOut();
    AddToEmpty(t1, x);
    assert t1.Insert(x).Search(x.Sender(), 0) == t1.Insert(x).Search(x.Sender(), 1) == None;
  }

  lemma DoubledIsIrregular(c: Clock, ps: seq<Pass>)
    requires Starting(c)
    requires var t := RunPasses(c, ps).table;
      t.count == 2 && 2 <= |t.records| && t.Identity(0) == t.Identity(1)
    ensures HasValidTable(c) && !Regular(TableOf(c), RunEvents(c, ps)) && !NeverLeftBehind(c, ps)
  {
    PassesRun(c, ps);
    if Regular(TableOf(c), RunEvents(c, ps)) {
      RunRefinesQueue(TableOf(c), RunEvents(c, ps));
      assert false;
    }
    if NeverLeftBehind(c, ps) {
      RunKeepsTable(c, ps);
      assert false;
    }
  }

  // ----- A slave of a master that was never measured

  const SELECT_AND_FAIL: Pass := IDLE.(rx := Other(Time(0, 0), Time(0, 0), true, false, true))

  lemma FirstSelectedThenFailure(c: Clock, x: Announcement)
    requires HeardFirst(c, x)
    ensures var c' := DoState(c, SELECT_AND_FAIL);
      && Started(c') && Outranked(c', x) && c'.portState.Faulty? && c'.recommendedState.Slave?
      && c'.parentDS.parentPortIdentity == x.Sender() && c'.table == c.table && SameOptions(c, c')
      && MasterClockSelected in c'.events && c'.events <= {MasterClockSelected, MasterClockChanged}
  {
    FirstMasterElected(c, x);
    DecideSummary(c);
    PassKeepsStarted(c, SELECT_AND_FAIL);
    assert Served(c, SELECT_AND_FAIL) == ToState(Decide(c), Uncalibrated);
  }

  lemma SecondHeardAfterFailure(c: Clock, x: Announcement, y: Announcement)
    requires Started(c) && Outranked(c, x) && Outranked(c, y) && x.Sender() != y.Sender()
    requires c.portState.Faulty? && c.recommendedState.Slave? && c.parentDS.parentPortIdentity == x.Sender()
    requires c.table.count == 1 == c.table.i && c.table.best == 0 && c.table.records[0] == NewRecord(x)
    requires Compare(y, x, c.portIdentity.clockIdentity) < 0
    requires MasterClockSelected in c.events && c.events <= {MasterClockSelected, MasterClockChanged}
    ensures var c' := DoState(c, IDLE.(rx := Announce(y)));
      && HeardBoth(c', x, y) && c'.parentDS.parentPortIdentity == x.Sender() && SameOptions(c, c')
      && MasterClockSelected in c'.events && c'.events <= {MasterClockSelected, MasterClockChanged, StateDecision}
  {
    var p := IDLE.(rx := Announce(y));
    PassKeepsStarted(c, p);
    assert Served(c, p) == ToState(c, Uncalibrated);
    SecondIsNew(c.table, x, y);
    HandleSummary(Served(c, p), p.rx);
  }

  lemma UnmeasuredMasterFollowed(c: Clock, x: Announcement, y: Announcement)
    requires HeardBoth(c, x, y)
    requires MasterClockSelected in c.events && c.events <= {MasterClockSelected, MasterClockChanged, StateDecision}
    ensures var c' := DoState(c, IDLE);
      c'.portState.Slave? && c'.parentDS.parentPortIdentity == y.Sender() && c'.events == {}
  {
    SecondIsElected(c, x, y);
    DecideSummary(c);
  }

  function FailureBetweenMasters(x: Announcement, y: Announcement): seq<Pass> {
    [IDLE, IDLE.(rx := Announce(x))] + [SELECT_AND_FAIL] + [IDLE.(rx := Announce(y))]
  }

  /** Without the extension, a failure in the pass that selects the first master is enough: in
      the end the port is a slave of the second, of which nothing has been measured, and the
      change of master is forgotten. */
  lemma SlaveOfUnmeasuredMaster(c: Clock, x: Announcement, y: Announcement)
    requires Rivals(c, x, y)
    ensures RunPasses(c, FailureBetweenMasters(x, y)).parentDS.parentPortIdentity == x.Sender()
    ensures var c' := RunPasses(c, FailureBetweenMasters(x, y) + [IDLE]);
      c'.portState.Slave? && c'.parentDS.parentPortIdentity == y.Sender() && c'.events == {}
  {
    var p1 := [IDLE, IDLE.(rx := Announce(x))];
    FirstOfTwoHeard(c, x, y);
    var c1 := RunPasses(c, p1);
    FirstSelectedThenFailure(c1, x);
    RunSnoc(c, p1, SELECT_AND_FAIL);
    SecondHeardAfterFailure(DoState(c1, SELECT_AND_FAIL), x, y);
    RunSnoc(c, p1 + [SELECT_AND_FAIL], IDLE.(rx := Announce(y)));
    UnmeasuredMasterFollowed(RunPasses(c, FailureBetweenMasters(x, y)), x, y);
    RunSnoc(c, FailureBetweenMasters(x, y), IDLE);
  }
}
