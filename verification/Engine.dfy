/** The engine of the port as it updates the clock in place (`PTPv2/src/protocol.c`). Each
    method is tied to the function of the same name that module Protocol reasons about. */
module Engine {
  import opened Octets
  import opened DataSets
  import opened ForeignMasters
  import opened BestMasterClock
  import Protocol

  method ToState(clock: PtpClock, state: PortState)
    modifies clock`portState, clock`recommendedState
    ensures clock.Value() == Protocol.ToState(old(clock.Value()), state)
  {
    clock.portState := state;
    if state.Initializing? || state.Listening? {
      clock.recommendedState := state;
    }
  }

  method InitData(clock: PtpClock)
    modifies clock, clock.foreignMasterDS`count, clock.foreignMasterDS`capacity
    ensures clock.Value() == Protocol.InitData(old(clock.Value()))
  {
    var rtOpts := clock.rtOpts;
    clock.defaultDS := DefaultDS(
      Eui64(clock.portUuidField), rtOpts.clockQuality, rtOpts.priority1, rtOpts.priority2, rtOpts.slaveOnly);
    clock.portIdentity := PortIdentity(clock.defaultDS.clockIdentity, 1);
    clock.foreignMasterDS.count := 0;
    clock.foreignMasterDS.capacity := rtOpts.maxForeignRecords;
  }

  method DoInit(clock: PtpClock, netInit: bool) returns (ok: bool)
    modifies clock, clock.foreignMasterDS`count, clock.foreignMasterDS`capacity
    ensures ok == netInit
    ensures clock.Value() == if ok then Protocol.InitData(old(clock.Value())).M1() else old(clock.Value())
  {
    if !netInit {
      return false;
    }
    InitData(clock);
    clock.M1();
    return true;
  }

  method HandleAnnounce(clock: PtpClock, m: Announcement)
    requires Protocol.Ready(clock.Value())
    modifies clock, clock.foreignMasterDS`count, clock.foreignMasterDS`i, clock.foreignMasterDS.records
    ensures clock.Value() == Protocol.HandleAnnounce(old(clock.Value()), m)
  {
    if IsSamePortIdentity(clock.portIdentity, m.Sender()) {
      return;
    }
    match clock.portState
    case Initializing | Faulty | Disabled =>
    case Uncalibrated | Slave =>
      clock.events := clock.events + {StateDecision};
      var isFromCurrentParent := IsSamePortIdentity(clock.parentDS.parentPortIdentity, m.Sender());
      if isFromCurrentParent {
        clock.S1(m.header, m.announce);
      } else {
        clock.foreignMasterDS.AddForeign(m.header, m.announce);
      }
    case Passive | Master | PreMaster | Listening =>
      clock.events := clock.events + {StateDecision};
      clock.foreignMasterDS.AddForeign(m.header, m.announce);
  }

  method Handle(clock: PtpClock, rx: Protocol.Received)
    requires Protocol.Ready(clock.Value())
    modifies clock, clock.foreignMasterDS`count, clock.foreignMasterDS`i, clock.foreignMasterDS.records
    ensures clock.Value() == Protocol.Handle(old(clock.Value()), rx)
  {
    match rx
    case Nothing =>
    case Malformed => ToState(clock, Faulty);
    case Announce(m) => HandleAnnounce(clock, m);
    case Other(offset, delay, selected, syncFault, sendFails) =>
      if clock.portState.Uncalibrated? || clock.portState.Slave? {
        clock.currentDS := clock.currentDS.(offsetFromMaster := offset, meanPathDelay := delay);
        if clock.portState.Uncalibrated? && selected {
          clock.events := clock.events + {MasterClockSelected};
        }
        if clock.portState.Slave? && syncFault {
          clock.events := clock.events + {SynchronizationFault};
        }
      }
      if sendFails {
        ToState(clock, Faulty);
      }
  }

  /** The first `switch` of `doState`. */
  method Decide(clock: PtpClock)
    requires Protocol.Ready(clock.Value())
    modifies clock, clock.foreignMasterDS`best
    ensures clock.Value() == Protocol.Decide(old(clock.Value()))
  {
    if Protocol.Active(clock.portState) && StateDecision in clock.events {
      clock.events := clock.events - {StateDecision};
      var state := clock.Bmc();
      clock.recommendedState := state;
      if state.Master? || state.Passive? {
        if clock.defaultDS.slaveOnly || clock.defaultDS.clockQuality.clockClass == 255 {
          clock.recommendedState := Listening;
        }
      }
    }
  }

  /** The second `switch` of `doState`. */
  method Follow(clock: PtpClock, qualificationExpired: bool)
    modifies clock`portState, clock`recommendedState, clock`events
    ensures clock.Value() == Protocol.Follow(old(clock.Value()), qualificationExpired)
  {
    match clock.recommendedState
    case Master =>
      if clock.portState.PreMaster? {
        if qualificationExpired {
          ToState(clock, Master);
        }
      } else if !clock.portState.Master? {
        ToState(clock, PreMaster);
      }
    case Passive =>
      if clock.portState != clock.recommendedState {
        ToState(clock, Passive);
      }
    case Slave =>
      if clock.portState.Uncalibrated? {
        if MasterClockSelected in clock.events {
          clock.events := clock.events - {MasterClockSelected};
          ToState(clock, Slave);
        }
        if MasterClockChanged in clock.events {
          clock.events := clock.events - {MasterClockChanged};
        }
      } else if clock.portState.Slave? {
        if SynchronizationFault in clock.events {
          clock.events := clock.events - {SynchronizationFault};
          ToState(clock, Uncalibrated);
        }
        if MasterClockChanged in clock.events {
          clock.events := clock.events - {MasterClockChanged};
          ToState(clock, Uncalibrated);
        }
      } else {
        ToState(clock, Uncalibrated);
      }
    case Listening =>
      if clock.portState != clock.recommendedState {
        ToState(clock, Listening);
      }
    case Initializing | Faulty | Disabled | PreMaster | Uncalibrated =>
  }

  /** The announce receipt timeout in the third `switch`. */
  method GiveUp(clock: PtpClock)
    modifies clock, clock.foreignMasterDS`count, clock.foreignMasterDS`i
    ensures clock.Value() == Protocol.GiveUp(old(clock.Value()))
  {
    clock.foreignMasterDS.count := 0;
    clock.foreignMasterDS.i := 0;
    if !(clock.defaultDS.slaveOnly || clock.defaultDS.clockQuality.clockClass == 255) {
      clock.M1();
      clock.recommendedState := Master;
      ToState(clock, Master);
    } else if !clock.portState.Listening? {
      ToState(clock, Listening);
    }
  }

  /** The third `switch`: LISTENING, UNCALIBRATED, SLAVE and PASSIVE. */
  method ServeWaiting(clock: PtpClock, p: Protocol.Pass)
    requires Protocol.Ready(clock.Value())
    modifies clock, clock.foreignMasterDS, clock.foreignMasterDS.records
    ensures clock.Value() == Protocol.ServeWaiting(old(clock.Value()), p)
  {
    if clock.portState in {Listening, Uncalibrated, Slave} && p.monitorExpired {
      if p.monitorSendFails {
        ToState(clock, Faulty);
      }
      Handle(clock, p.monitorRx);
    }
    if p.announceExpired {
      GiveUp(clock);
    } else {
      Handle(clock, p.rx);
    }
  }

  /** The third `switch`: MASTER. */
  method ServeMaster(clock: PtpClock, p: Protocol.Pass)
    requires Protocol.Ready(clock.Value())
    modifies clock, clock.foreignMasterDS, clock.foreignMasterDS.records
    ensures clock.Value() == Protocol.ServeMaster(old(clock.Value()), p)
  {
    if p.masterSendFails {
      ToState(clock, Faulty);
    }
    Handle(clock, p.rx);
    if p.delayReqFails {
      ToState(clock, Faulty);
    }
  }

  /** The third `switch` of `doState`. */
  method Serve(clock: PtpClock, p: Protocol.Pass)
    requires Protocol.Ready(clock.Value())
    modifies clock, clock.foreignMasterDS, clock.foreignMasterDS.records
    ensures clock.Value() == Protocol.Serve(old(clock.Value()), p)
  {
    match clock.portState
    case Initializing =>
      var ok := DoInit(clock, p.netInit);
      ToState(clock, if ok then Listening else Faulty);
    case Faulty => ToState(clock, Initializing);
    case Disabled => Handle(clock, p.rx);
    case Listening | Uncalibrated | Slave | Passive => ServeWaiting(clock, p);
    case Master => ServeMaster(clock, p);
    case PreMaster =>
  }

  /** One call of `doState`. No pass from a sound state leaves the array of records, and the
      state stays sound. */
  method DoState(clock: PtpClock, p: Protocol.Pass)
    requires Protocol.Starting(clock.Value()) || Protocol.Started(clock.Value())
    modifies clock, clock.foreignMasterDS, clock.foreignMasterDS.records
    ensures clock.Value() == Protocol.DoState(old(clock.Value()), p)
    ensures Protocol.Starting(clock.Value()) || Protocol.Started(clock.Value())
  {
    Protocol.ServedIsReady(clock.Value(), p);
    Protocol.StartingKept(clock.Value(), p);
    Decide(clock);
    Follow(clock, p.qualificationExpired);
    Serve(clock, p);
  }
}
