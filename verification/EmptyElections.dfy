/** Elections that a port holds although it has forgotten all foreign masters, and how they
    come about. */
module EmptyElections {
  import opened Octets
  import opened TimeArithmetic
  import opened DataSets
  import opened Comparison
  import opened RecordScan
  import opened ForeignMasters
  import opened BestMasterClock
  import opened Protocol

  /** An election is due although every record is gone. */
  predicate EmptyElection(c: Clock) {
    StateDecision in c.events && Active(c.portState) && !c.portState.Listening? && c.table.count == 0
  }

  /** The announce receipt timeout forgets all records in a port that is not slave-only, while
      an election is due: the extension has just heard a message, or one that it heard before
      a failure has not been acted on yet. */
  predicate Overtaken(c: Clock, p: Pass) {
    && Waiting(c.portState) && p.announceExpired && !IsSlaveOnly(c)
    && (StateDecision in c.events || MonitorHears(c, p))
  }

  /** A port that has adopted a master without a record hears no other one: messages of the
      parent make elections due but leave no records. */
  predicate Orphaned(c: Clock, p: Pass) {
    && HasParent(c.portState) && c.table.count == 0 && !p.announceExpired
    && (Monitors(c, p) ==> !p.monitorSendFails && !Fails(p.monitorRx) && !Recorded(c, p.monitorRx))
    && !Fails(p.rx) && !Recorded(c, p.rx)
    && (StateDecision in c.events || MonitorHears(c, p) || Hears(c, p.rx))
  }

  /** A port that has failed with an election due, and that it will not hold at once, has
      records. */
  ghost predicate Prompt(c: Clock) {
    && Started(c)
    && (c.portState.Faulty? && StateDecision in c.events && c.recommendedState in {Master, Passive} ==>
        0 < c.table.count)
  }

  lemma PromptIsServed(c: Clock, p: Pass)
    requires Prompt(c)
    ensures var s := Served(c, p);
      && Running(s) && (s.portState.Master? ==> StateDecision !in s.events)
      && (StateDecision in s.events && (s.portState.PreMaster? || s.portState.Passive?) ==> 0 < s.table.count)
      && (StateDecision in s.events ==> c.portState.Faulty?)
      && IsSlaveOnly(s) == IsSlaveOnly(c)
  {
    DecideSummary(c);
    DecideKeepsInitialised(c, Decide(c));
    FollowRuns(Decide(c), p.qualificationExpired);
  }

  lemma PassKeepsPrompt(c: Clock, p: Pass)
    requires Prompt(c)
    ensures Prompt(DoState(c, p))
    ensures EmptyElection(DoState(c, p)) <==> Overtaken(Served(c, p), p) || Orphaned(Served(c, p), p)
  {
    var s := Served(c, p);
    PromptIsServed(c, p);
    ServeKeepsStarted(s, p);
    if Waiting(s.portState) {
      ServedWaiting(s, p);
    } else if s.portState.Master? {
      HandleSummary(SendAsMaster(s, p), p.rx);
      if Recorded(SendAsMaster(s, p), p.rx) {
        AddGrows(s.table, p.rx.m);
      }
    }
  }

  lemma ServedWaiting(c: Clock, p: Pass)
    requires Running(c) && Waiting(c.portState)
    requires StateDecision in c.events && c.portState.Passive? ==> 0 < c.table.count
    ensures var c' := ServeWaiting(c, p);
      && (EmptyElection(c') <==> Overtaken(c, p) || Orphaned(c, p))
      && (c'.portState.Faulty? && StateDecision in c'.events && c'.recommendedState.Passive? ==> 0 < c'.table.count)
      && (c'.portState.Faulty? ==> c'.recommendedState == c.recommendedState)
  {
    var m := Monitored(c, p);
    MonitorSummary(c, p);
    if MonitorHears(c, p) && Recorded(c, p.monitorRx) {
      AddGrows(c.table, p.monitorRx.m);
    }
    if !p.announceExpired {
      HandleSummary(m, p.rx);
      if Recorded(m, p.rx) {
        AddGrows(m.table, p.rx.m);
      }
    }
  }

  lemma {:induction false} RunKeepsPrompt(c: Clock, ps: seq<Pass>)
    requires Starting(c) || Prompt(c)
    ensures Starting(RunPasses(c, ps)) || Prompt(RunPasses(c, ps))
    decreases |ps|
  {
    if ps != [] {
      if Started(c) {
        PassKeepsPrompt(c, ps[0]);
      }
      RunKeepsPrompt(DoState(c, ps[0]), ps[1..]);
    }
  }

  /** After any run from power-up, a pass leaves an election among no records due exactly in
      these two ways. */
  lemma EmptyElectionIffOvertaken(c: Clock, ps: seq<Pass>, p: Pass)
    requires Starting(c) || Prompt(c)
    ensures var c' := RunPasses(c, ps);
      EmptyElection(DoState(c', p)) <==>
        Started(c') && (Overtaken(Served(c', p), p) || Orphaned(Served(c', p), p))
  {
    RunKeepsPrompt(c, ps);
    var c' := RunPasses(c, ps);
    if Started(c') {
      PassKeepsPrompt(c', p);
    }
  }

  /** An election among no records is due at some time in the run. */
  predicate EverEmptyElection(c: Clock, ps: seq<Pass>)
    requires Starting(c) || Started(c)
    decreases |ps|
  {
    if ps == [] then false
    else
      StartingKept(c, ps[0]);
      EmptyElection(DoState(c, ps[0])) || EverEmptyElection(DoState(c, ps[0]), ps[1..])
  }

  /** Some pass of the run is overtaken by the timeout. */
  predicate EverOvertaken(c: Clock, ps: seq<Pass>)
    requires Starting(c) || Started(c)
    decreases |ps|
  {
    if ps == [] then false
    else
      StartingKept(c, ps[0]);
      Overtaken(Served(c, ps[0]), ps[0]) || EverOvertaken(DoState(c, ps[0]), ps[1..])
  }

  /** Every election that is due has a record, or will decide nothing. */
  ghost predicate Supplied(c: Clock) {
    Started(c) && HasSupply(c)
  }

  ghost predicate HasSupply(c: Clock) {
    && (StateDecision in c.events ==> 0 < c.table.count || c.portState.Listening?)
    && (c.recommendedState.Slave? ==> 0 < c.table.count)
  }

  /** Over a whole run from power-up it all begins with a pass that is overtaken: without one
      no election is ever held among no records. */
  lemma {:induction false} EverEmptyIffEverOvertaken(c: Clock, ps: seq<Pass>)
    requires Starting(c) || Supplied(c)
    ensures EverEmptyElection(c, ps) <==> EverOvertaken(c, ps)
    decreases |ps|
  {
    if ps != [] {
      var p := ps[0];
      StartingKept(c, p);
      if Started(c) {
        PassKeepsPrompt(c, p);
        PassKeepsSupplied(c, p);
      }
      if !EmptyElection(DoState(c, p)) {
        EverEmptyIffEverOvertaken(DoState(c, p), ps[1..]);
      }
    }
  }

  lemma PassKeepsSupplied(c: Clock, p: Pass)
    requires Supplied(c)
    ensures !Orphaned(Served(c, p), p)
    ensures Overtaken(Served(c, p), p) || Supplied(DoState(c, p))
  {
    PassKeepsStarted(c, p);
    SuppliedIsServed(c, p);
    ServeSupplied(Served(c, p), p);
  }

  lemma ServeSupplied(c: Clock, p: Pass)
    requires Running(c) && (StateDecision in c.events || c.recommendedState.Slave? ==> 0 < c.table.count)
    ensures Overtaken(c, p) || HasSupply(Serve(c, p))
  {
    if Waiting(c.portState) {
      ServeWaitingSupplied(c, p);
    } else if c.portState.Master? {
      HandleSummary(SendAsMaster(c, p), p.rx);
      if Recorded(SendAsMaster(c, p), p.rx) {
        AddGrows(c.table, p.rx.m);
      }
    }
  }

  lemma SuppliedIsServed(c: Clock, p: Pass)
    requires Supplied(c)
    ensures var s := Served(c, p);
      && Running(s) && (s.recommendedState.Slave? ==> 0 < s.table.count)
      && (StateDecision in s.events ==> 0 < s.table.count)
  {
    DecideSummary(c);
    DecideKeepsInitialised(c, Decide(c));
    FollowRuns(Decide(c), p.qualificationExpired);
  }

  lemma ServeWaitingSupplied(c: Clock, p: Pass)
    requires Running(c) && Waiting(c.portState)
    requires StateDecision in c.events || c.recommendedState.Slave? ==> 0 < c.table.count
    ensures Overtaken(c, p) || HasSupply(ServeWaiting(c, p))
  {
    var m := Monitored(c, p);
    MonitorSummary(c, p);
    if MonitorHears(c, p) && Recorded(c, p.monitorRx) {
      AddGrows(c.table, p.monitorRx.m);
    }
    if !p.announceExpired {
      HandleSummary(m, p.rx);
      if Recorded(m, p.rx) {
        AddGrows(m.table, p.rx.m);
      }
    }
  }

  /** The announce receipt timer has been started again in this pass: on entering LISTENING,
      PASSIVE or UNCALIBRATED, or by a message of the parent that the extension handles. */
  predicate TimerRestarted(c: Clock, s: Clock, p: Pass) {
    || (s.portState != c.portState && s.portState in {Listening, Passive, Uncalibrated})
    || (MonitorHears(s, p) && HasParent(s.portState) && !Recorded(s, p.monitorRx))
  }

  /** If a timer that has just been started does not expire, what overtakes a pass is always
      another master than the parent, heard through the extension. */
  lemma OvertakenInTime(c: Clock, p: Pass)
    requires Started(c)
    requires TimerRestarted(c, Served(c, p), p) ==> !p.announceExpired
    ensures var s := Served(c, p);
      Overtaken(s, p) <==>
        p.announceExpired && !IsSlaveOnly(s) && MonitorHears(s, p) && Recorded(s, p.monitorRx)
  {
    DecideSummary(c);
    StartedPortIsServedRunning(c, p);
    FollowKeepsDue(c, p);
  }

  lemma FollowKeepsDue(c: Clock, p: Pass)
    requires Started(c)
    ensures StateDecision in Served(c, p).events ==> c.portState.Faulty?
  {
    DecideSummary(c);
    DecideKeepsInitialised(c, Decide(c));
    FollowRuns(Decide(c), p.qualificationExpired);
  }

  // ----- Without the extension

  /** Elections that are due have records, and one that is left over after a failure waits in
      a master. */
  ghost predicate Quiet(c: Clock) {
    Supplied(c) && (c.portState.Faulty? && StateDecision in c.events ==> c.recommendedState.Master?)
  }

  lemma QuietIsServed(c: Clock, p: Pass)
    requires Quiet(c)
    ensures var s := Served(c, p);
      Running(s) && (StateDecision in s.events ==> s.portState.PreMaster?)
  {
    DecideSummary(c);
    DecideKeepsInitialised(c, Decide(c));
    FollowRuns(Decide(c), p.qualificationExpired);
  }

  lemma ServeKeepsQuiet(c: Clock, p: Pass)
    requires Running(c) && (StateDecision in c.events ==> c.portState.PreMaster?) && !p.monitorExpired
    ensures !Overtaken(c, p)
    ensures var c' := Serve(c, p);
      c'.portState.Faulty? && StateDecision in c'.events ==> c'.recommendedState.Master?
  {
    if Waiting(c.portState) {
      if !p.announceExpired {
        HandleSummary(c, p.rx);
      }
    } else if c.portState.Master? {
      HandleSummary(SendAsMaster(c, p), p.rx);
    }
  }

  lemma PassKeepsQuiet(c: Clock, p: Pass)
    requires Quiet(c) && !p.monitorExpired
    ensures !Overtaken(Served(c, p), p) && Quiet(DoState(c, p))
  {
    QuietIsServed(c, p);
    ServeKeepsQuiet(Served(c, p), p);
    PassKeepsSupplied(c, p);
  }

  /** Without the monitoring extension no election is ever due without a record to elect, over
      every run from power-up. */
  lemma {:induction false} NoEmptyElectionUnmonitored(c: Clock, ps: seq<Pass>)
    requires Starting(c) || Quiet(c)
    requires forall p :: p in ps ==> !p.monitorExpired
    ensures !EverOvertaken(c, ps) && !EverEmptyElection(c, ps)
    decreases |ps|
  {
    if ps != [] {
      StartingKept(c, ps[0]);
      if Quiet(c) {
        PassKeepsQuiet(c, ps[0]);
      } else {
        StartingStaysQuiet(c, ps[0]);
      }
      NoEmptyElectionUnmonitored(DoState(c, ps[0]), ps[1..]);
    }
    EverEmptyIffEverOvertaken(c, ps);
  }

  lemma StartingStaysQuiet(c: Clock, p: Pass)
    requires Starting(c)
    ensures Starting(DoState(c, p)) || Quiet(DoState(c, p))
    ensures !Overtaken(Served(c, p), p)
  {
  }
}
