/** The table of foreign masters over whole runs of one port: which events reach it, and when
    it is the bounded queue it should be. */
module TableRuns {
  import opened Octets
  import opened DataSets
  import opened RecordScan
  import opened ForeignMasters
  import opened BestMasterClock
  import opened Protocol
  import opened EmptyElections

  // ----- The events of a run

  function DecideEvents(c: Clock): seq<TableEvent> {
    if Active(c.portState) && StateDecision in c.events then [Elected(c.portIdentity.clockIdentity)] else []
  }

  function HandleEvents(c: Clock, rx: Received): seq<TableEvent> {
    if Recorded(c, rx) then [Heard(rx.m)] else []
  }

  function MonitorEvents(c: Clock, p: Pass): seq<TableEvent> {
    if MonitorHears(c, p) then HandleEvents(c, p.monitorRx) else []
  }

  function ServeEvents(c: Clock, p: Pass): seq<TableEvent>
    requires Ready(c)
  {
    if Waiting(c.portState) then
      MonitorEvents(c, p) + (if p.announceExpired then [Timeout] else HandleEvents(Monitored(c, p), p.rx))
    else if c.portState.Master? then HandleEvents(SendAsMaster(c, p), p.rx)
    else []
  }

  /** What one pass does to the table, in order. */
  function PassEvents(c: Clock, p: Pass): seq<TableEvent>
    requires Starting(c) || Started(c)
  {
    DecideEvents(c) + ServeEvents(Served(c, p), p)
  }

  function RunEvents(c: Clock, ps: seq<Pass>): seq<TableEvent>
    requires Starting(c) || Started(c)
    decreases |ps|
  {
    if ps == [] then []
    else
      StartingKept(c, ps[0]);
      PassEvents(c, ps[0]) + RunEvents(DoState(c, ps[0]), ps[1..])
  }

  /** The table of a port, or the one it will start with. */
  function TableOf(c: Clock): (t: Table)
    requires Starting(c) || Started(c)
    ensures t.Addressable()
  {
    if Starting(c) then c.table.(capacity := c.rtOpts.maxForeignRecords) else c.table
  }

  lemma RunOfEvent(t: Table, e: TableEvent)
    requires t.Addressable()
    ensures Run(t, [e]) == Apply(t, e)
    ensures Regular(t, [e]) <==> (e.Heard? ==> Safe(t, e.m.Sender()))
  {
    RunCons(t, e, []);
    assert [e] + [] == [e];
  }

  lemma DecideRuns(c: Clock)
    requires Started(c)
    ensures Decide(c).table == Run(c.table, DecideEvents(c)) && Regular(c.table, DecideEvents(c))
  {
    if DecideEvents(c) != [] {
      var e := Elected(c.portIdentity.clockIdentity);
      RunOfEvent(c.table, e);
      var c' := c.(events := c.events - {StateDecision});
      ElectionSummary(c', c'.Pick(Worse));
    }
  }

  lemma HandleRuns(c: Clock, rx: Received)
    requires Ready(c) && c.table.Addressable()
    ensures Handle(c, rx).table == Run(c.table, HandleEvents(c, rx))
    ensures Regular(c.table, HandleEvents(c, rx)) <==> (Recorded(c, rx) ==> Safe(c.table, rx.m.Sender()))
  {
    HandleSummary(c, rx);
    if Recorded(c, rx) {
      RunOfEvent(c.table, Heard(rx.m));
    }
  }

  lemma MonitorRuns(c: Clock, p: Pass)
    requires Ready(c) && c.table.Addressable()
    ensures Monitored(c, p).table == Run(c.table, MonitorEvents(c, p))
    ensures Regular(c.table, MonitorEvents(c, p)) <==>
      (MonitorHears(c, p) && Recorded(c, p.monitorRx) ==> Safe(c.table, p.monitorRx.m.Sender()))
  {
    MonitorSummary(c, p);
    if MonitorEvents(c, p) != [] {
      RunOfEvent(c.table, Heard(p.monitorRx.m));
    }
  }

  lemma ServeWaitingRuns(c: Clock, p: Pass)
    requires Ready(c) && c.table.Addressable() && Waiting(c.portState)
    ensures ServeWaiting(c, p).table == Run(c.table, ServeEvents(c, p))
    ensures Regular(c.table, ServeEvents(c, p)) <==>
      && Regular(c.table, MonitorEvents(c, p))
      && (p.announceExpired || Regular(Monitored(c, p).table, HandleEvents(Monitored(c, p), p.rx)))
  {
    var m := Monitored(c, p);
    MonitorRuns(c, p);
    if p.announceExpired {
      RunOfEvent(m.table, Timeout);
      RunsConcat(c.table, MonitorEvents(c, p), [Timeout]);
    } else {
      HandleRuns(m, p.rx);
      RunsConcat(c.table, MonitorEvents(c, p), HandleEvents(m, p.rx));
    }
  }

  lemma ServeRuns(c: Clock, p: Pass)
    requires Running(c)
    ensures Serve(c, p).table == Run(c.table, ServeEvents(c, p))
  {
    if Waiting(c.portState) {
      ServeWaitingRuns(c, p);
    } else if c.portState.Master? {
      HandleRuns(SendAsMaster(c, p), p.rx);
    }
  }

  lemma FollowKeepsTable(c: Clock, qualificationExpired: bool)
    ensures Follow(c, qualificationExpired).table == c.table
  {
  }

  lemma PassRuns(c: Clock, p: Pass)
    requires Started(c)
    ensures Run(c.table, PassEvents(c, p)) == DoState(c, p).table
    ensures Regular(c.table, PassEvents(c, p)) <==> Regular(Served(c, p).table, ServeEvents(Served(c, p), p))
  {
    DecideRuns(c);
    FollowKeepsTable(Decide(c), p.qualificationExpired);
    ServeRuns(Served(c, p), p);
    RunsConcat(c.table, DecideEvents(c), ServeEvents(Served(c, p), p));
  }

  lemma PortPassRuns(c: Clock, p: Pass)
    requires Starting(c) || Started(c)
    ensures Starting(DoState(c, p)) || Started(DoState(c, p))
    ensures TableOf(DoState(c, p)) == Run(TableOf(c), PassEvents(c, p))
    ensures Starting(c) ==> PassEvents(c, p) == []
  {
    if Started(c) {
      PassKeepsStarted(c, p);
      PassRuns(c, p);
    } else {
      StartingPassRuns(c, p);
    }
  }

  lemma StartingPassRuns(c: Clock, p: Pass)
    requires Starting(c)
    ensures PassEvents(c, p) == []
    ensures (Starting(DoState(c, p)) || Started(DoState(c, p))) && TableOf(DoState(c, p)) == TableOf(c)
  {
  }

  lemma RunEventsCons(c: Clock, ps: seq<Pass>)
    requires (Starting(c) || Started(c)) && ps != [] && (Starting(DoState(c, ps[0])) || Started(DoState(c, ps[0])))
    ensures RunEvents(c, ps) == PassEvents(c, ps[0]) + RunEvents(DoState(c, ps[0]), ps[1..])
    ensures RunPasses(c, ps) == RunPasses(DoState(c, ps[0]), ps[1..])
  {
  }

  /** A run of passes does to the table exactly what its events do. */
  lemma {:induction false} PassesRun(c: Clock, ps: seq<Pass>)
    requires Starting(c) || Started(c)
    ensures TableOf(RunPasses(c, ps)) == Run(TableOf(c), RunEvents(c, ps))
    decreases |ps|
  {
    if ps != [] {
      var c' := DoState(c, ps[0]);
      PortPassRuns(c, ps[0]);
      RunEventsCons(c, ps);
      PassesRun(c', ps[1..]);
      RunsConcat(TableOf(c), PassEvents(c, ps[0]), RunEvents(c', ps[1..]));
    }
  }

  /** The table, or the one a port will start with, is in order. */
  ghost predicate HasValidTable(c: Clock) {
    (Starting(c) || Started(c)) && TableOf(c).Valid()
  }

  /** Over any run of any port from power-up the table is valid, and holds the bounded queue
      of all that was recorded, after every single event exactly if each message comes from a
      sender that is safe when it is heard. */
  lemma TableIsQueueExactly(c: Clock, ps: seq<Pass>)
    requires HasValidTable(c)
    ensures var (t, es) := (TableOf(c), RunEvents(c, ps));
      && TableOf(RunPasses(c, ps)) == Run(t, es)
      && (Regular(t, es) <==> forall k :: 0 <= k <= |es| ==> HoldsQueueAfter(t, es, k))
  {
    PassesRun(c, ps);
    RegularExactlyWhileQueue(TableOf(c), RunEvents(c, ps));
  }

  // ----- Why the search is in order

  /** The table is valid, and its search is in order unless the election that puts it in order
      is already due. After a failure, when messages can come before that election, the search
      is in order or the port is bound for PRE_MASTER, where it takes no messages. */
  ghost predicate Kept(c: Clock) {
    && Started(c) && c.table.Valid()
    && (c.table.Searchable() || StateDecision in c.events)
    && (c.recommendedState.Slave? || (c.recommendedState.Listening? && !IsSlaveOnly(c)) ==>
        c.table.best < c.table.count || c.table.best == 0)
    && (c.portState.Faulty? && StateDecision in c.events ==> c.recommendedState.Master? || c.table.Searchable())
  }

  /** In order when messages are about to be handled. */
  ghost predicate KeptToServe(c: Clock) {
    && Running(c) && c.table.Valid()
    && (c.table.Searchable() || (c.portState.PreMaster? && StateDecision in c.events))
    && (c.recommendedState.Slave? || (c.recommendedState.Listening? && !IsSlaveOnly(c)) ==>
        c.table.best < c.table.count || c.table.best == 0)
  }

  /** In order between the decision and the move that carries it out. */
  ghost predicate DecidedInOrder(d: Clock) {
    && Initialised(d) && d.table.Valid()
    && (d.table.Searchable() || (d.recommendedState.Master? && d.portState.Faulty? && StateDecision in d.events))
    && (d.recommendedState.Slave? || (d.recommendedState.Listening? && !IsSlaveOnly(d)) ==>
        d.table.best < d.table.count || d.table.best == 0)
  }

  lemma DecideKeepsOrder(c: Clock)
    requires Kept(c)
    ensures DecidedInOrder(Decide(c))
    ensures IsSlaveOnly(Decide(c)) == IsSlaveOnly(c)
  {
    DecideSummary(c);
    DecideKeepsInitialised(c, Decide(c));
  }

  lemma FollowKeepsOrder(d: Clock, qualificationExpired: bool)
    requires DecidedInOrder(d)
    ensures var s := Follow(d, qualificationExpired);
      KeptToServe(s) && s.table == d.table && IsSlaveOnly(s) == IsSlaveOnly(d)
  {
    FollowRuns(d, qualificationExpired);
  }

  lemma KeptIsServedKept(c: Clock, p: Pass)
    requires Kept(c)
    ensures KeptToServe(Served(c, p))
    ensures IsSlaveOnly(Served(c, p)) == IsSlaveOnly(c)
  {
    DecideKeepsOrder(c);
    FollowKeepsOrder(Decide(c), p.qualificationExpired);
  }

  /** A slave-only port is back in LISTENING after a timeout, with `best` left behind, and the
      extension hears a first master: the search is out of order until the next election. */
  predicate LeftBehind(c: Clock, p: Pass) {
    c.portState.Listening? && c.table.count == 0 < c.table.best && MonitorHears(c, p)
  }

  lemma OnlySlaveOnlyIsLeftBehind(c: Clock, p: Pass)
    requires KeptToServe(c) && LeftBehind(c, p)
    ensures IsSlaveOnly(c)
  {
  }

  lemma AddKeepsTable(t: Table, m: Announcement)
    requires t.Valid() && t.Searchable()
    ensures t.Add(m).Valid() && t.Add(m).best == t.best && t.count <= t.Add(m).count && 0 < t.Add(m).count
  {
    AddRefinesQueue(t, m);
    AddGrows(t, m);
  }

  lemma MonitoredKept(c: Clock, p: Pass)
    requires KeptToServe(c) && Waiting(c.portState)
    ensures Regular(c.table, MonitorEvents(c, p))
    ensures var m := Monitored(c, p);
      && Started(m) && m.table.Valid() && m.table.best == c.table.best && c.table.count <= m.table.count
      && (LeftBehind(c, p) || m.table.Searchable())
  {
    MonitoredStarted(c, p);
    MonitorSummary(c, p);
    MonitorRuns(c, p);
    if MonitorEvents(c, p) != [] {
      AddKeepsTable(c.table, p.monitorRx.m);
    }
  }

  lemma HandledKept(c: Clock, rx: Received)
    requires Started(c) && c.table.Valid() && c.table.Searchable()
    ensures Regular(c.table, HandleEvents(c, rx))
    ensures var c' := Handle(c, rx);
      && Started(c') && c'.table.Valid() && c'.table.best == c.table.best && c.table.count <= c'.table.count
      && (c'.table.Searchable() || StateDecision in c'.events)
  {
    HandleKeepsStarted(c, rx);
    HandleSummary(c, rx);
    HandleRuns(c, rx);
    if Recorded(c, rx) {
      AddKeepsTable(c.table, rx.m);
    }
  }

  lemma GiveUpKept(c: Clock)
    requires Started(c) && c.table.Valid()
    ensures Kept(GiveUp(c))
  {
    GiveUpKeepsStarted(c);
  }

  lemma ServeWaitingKept(c: Clock, p: Pass)
    requires KeptToServe(c) && Waiting(c.portState) && !LeftBehind(c, p)
    ensures Kept(ServeWaiting(c, p)) && Regular(c.table, ServeEvents(c, p))
  {
    var m := Monitored(c, p);
    MonitoredKept(c, p);
    MonitorSummary(c, p);
    ServeWaitingRuns(c, p);
    if p.announceExpired {
      GiveUpKept(m);
    } else {
      HandledKept(m, p.rx);
      HandleSummary(m, p.rx);
    }
  }

  lemma ServeMasterKept(c: Clock, p: Pass)
    requires KeptToServe(c) && c.portState.Master?
    ensures Kept(ServeMaster(c, p)) && Regular(c.table, ServeEvents(c, p))
  {
    var m := SendAsMaster(c, p);
    HandledKept(m, p.rx);
    HandleSummary(m, p.rx);
    var h := Handle(m, p.rx);
    assert ServeMaster(c, p) == if p.delayReqFails then ToState(h, Faulty) else h;
  }

  lemma ServeKept(c: Clock, p: Pass)
    requires KeptToServe(c) && !LeftBehind(c, p)
    ensures Kept(Serve(c, p)) && Regular(c.table, ServeEvents(c, p))
  {
    if Waiting(c.portState) {
      ServeWaitingKept(c, p);
    } else if c.portState.Master? {
      ServeMasterKept(c, p);
    }
  }

  /** Every pass that is not left behind, monitored or not, keeps the table in order and hears
      safe senders only; and only a slave-only port can be left behind. */
  lemma PassKeepsTable(c: Clock, p: Pass)
    requires Kept(c)
    ensures LeftBehind(Served(c, p), p) || (Kept(DoState(c, p)) && Regular(c.table, PassEvents(c, p)))
    ensures LeftBehind(Served(c, p), p) ==> IsSlaveOnly(c)
  {
    KeptIsServedKept(c, p);
    PassRuns(c, p);
    if LeftBehind(Served(c, p), p) {
      OnlySlaveOnlyIsLeftBehind(Served(c, p), p);
    } else {
      ServeKept(Served(c, p), p);
    }
  }

  /** No pass of the run is left behind. */
  predicate NeverLeftBehind(c: Clock, ps: seq<Pass>)
    requires Starting(c) || Started(c)
    decreases |ps|
  {
    if ps == [] then true
    else
      StartingKept(c, ps[0]);
      !LeftBehind(Served(c, ps[0]), ps[0]) && NeverLeftBehind(DoState(c, ps[0]), ps[1..])
  }

  lemma StartingBecomesKept(c: Clock, p: Pass)
    requires Starting(c)
    ensures Starting(DoState(c, p)) || Kept(DoState(c, p))
  {
  }

  lemma PassStaysKept(c: Clock, p: Pass)
    requires Starting(c) || Kept(c)
    requires WillBeSlaveOnly(c.rtOpts) ==> !LeftBehind(Served(c, p), p)
    ensures Starting(DoState(c, p)) || Kept(DoState(c, p))
    ensures Regular(TableOf(c), PassEvents(c, p))
  {
    if Kept(c) {
      PassKeepsTable(c, p);
    } else {
      StartingBecomesKept(c, p);
      StartingPassRuns(c, p);
    }
  }

  /** So a port that is not slave-only hears safe senders only, over every run from power-up,
      whatever it receives and whichever timers expire; and so does one that is slave-only as
      long as it is not left behind. */
  lemma {:induction false} RunKeepsTable(c: Clock, ps: seq<Pass>)
    requires Starting(c) || Kept(c)
    requires WillBeSlaveOnly(c.rtOpts) ==> NeverLeftBehind(c, ps)
    ensures Starting(RunPasses(c, ps)) || Kept(RunPasses(c, ps))
    ensures Regular(TableOf(c), RunEvents(c, ps))
    decreases |ps|
  {
    if ps != [] {
      var c' := DoState(c, ps[0]);
      PortPassRuns(c, ps[0]);
      RunEventsCons(c, ps);
      PassKeepsOptions(c, ps[0]);
      PassStaysKept(c, ps[0]);
      RunKeepsTable(c', ps[1..]);
      RunsConcat(TableOf(c), PassEvents(c, ps[0]), RunEvents(c', ps[1..]));
    }
  }

  // ----- The elected parent

  /** After any run in which the table stays the queue, an election that makes a port slave
      leaves a live record as its parent, by the identity that record has in the table; the
      one exception is an election among no records. */
  lemma RunKeepsParentCoherent(c: Clock, ps: seq<Pass>)
    requires HasValidTable(c) && Regular(TableOf(c), RunEvents(c, ps))
    ensures var c' := RunPasses(c, ps);
      Active(c'.portState) && StateDecision in c'.events ==>
        var d := Decide(c');
        && (d.recommendedState.Slave? ==> EmptyElection(c') || (d.table.best < d.table.count && FollowsRecord(d)))
        && (d.recommendedState.Master? ==> OwnParent(d))
        && (d.recommendedState.Passive? ==> d.parentDS == c'.parentDS && d.currentDS == c'.currentDS)
  {
    PassesRun(c, ps);
    RunRefinesQueue(TableOf(c), RunEvents(c, ps));
    var c' := RunPasses(c, ps);
    if Active(c'.portState) && StateDecision in c'.events {
      ElectedParent(c');
    }
  }

  ghost predicate FollowsRecord(d: Clock) {
    && d.table.best < |d.table.records|
    && ParentIs(d, d.table.records[d.table.best]) && TimeFrom(d, d.table.records[d.table.best])
    && d.parentDS.parentPortIdentity == d.table.Identity(d.table.best)
  }

  lemma ElectionWithoutMaster(c: Clock, best: nat)
    requires best < |c.table.records| && c.Elect(best).1 == Passive
    ensures c.Elect(best).0.parentDS == c.parentDS && c.Elect(best).0.currentDS == c.currentDS
  {
  }

  lemma ElectedParent(c: Clock)
    requires Started(c) && c.table.Valid() && Active(c.portState) && StateDecision in c.events
    ensures var d := Decide(c);
      && (d.recommendedState.Slave? ==> EmptyElection(c) || (d.table.best < d.table.count && FollowsRecord(d)))
      && (d.recommendedState.Master? ==> OwnParent(d))
      && (d.recommendedState.Passive? ==> d.parentDS == c.parentDS && d.currentDS == c.currentDS)
  {
    var c' := c.(events := c.events - {StateDecision});
    if !EmptyElection(c) {
      ElectionKeepsDataSetsCoherent(c');
    } else {
      ElectionSummary(c', c'.Pick(Worse));
      if c'.Bmc().1 == Passive {
        ElectionWithoutMaster(c', c'.Pick(Worse));
      }
    }
  }
}
