/** The records of the protocol that are passed around by value
    (`PTPv2/src/datatypes.h`). */
module DataSets {
  import opened Octets
  import opened TimeArithmetic

  datatype PortIdentity = PortIdentity(clockIdentity: ClockIdentity, portNumber: UInt16)

  datatype ClockQuality = ClockQuality(
    clockClass: UInt8, clockAccuracy: UInt8, offsetScaledLogVariance: UInt16)

  datatype MsgHeader = MsgHeader(
    domainNumber: UInt8, flagField0: bv8, flagField1: bv8, correctionField: Int64,
    sourcePortIdentity: PortIdentity, sequenceId: UInt16)

  datatype MsgAnnounce = MsgAnnounce(
    currentUtcOffset: Int16, grandmasterPriority1: UInt8, grandmasterClockQuality: ClockQuality,
    grandmasterPriority2: UInt8, grandmasterIdentity: ClockIdentity, stepsRemoved: UInt16,
    timeSource: UInt8)

  /** An Announce message: the header and the body that always travel together. */
  datatype Announcement = Announcement(header: MsgHeader, announce: MsgAnnounce) {
    function Sender(): PortIdentity {
      header.sourcePortIdentity
    }
  }

  datatype ForeignMasterRecord = ForeignMasterRecord(
    foreignMasterPortIdentity: PortIdentity, foreignMasterAnnounceMessages: UInt16,
    header: MsgHeader, announce: MsgAnnounce)
  {
    function Message(): Announcement {
      Announcement(header, announce)
    }
  }

  datatype DefaultDS = DefaultDS(
    clockIdentity: ClockIdentity, clockQuality: ClockQuality, priority1: UInt8, priority2: UInt8,
    slaveOnly: bool)

  datatype CurrentDS = CurrentDS(
    stepsRemoved: UInt16, offsetFromMaster: Time, meanPathDelay: Time)

  datatype ParentDS = ParentDS(
    parentPortIdentity: PortIdentity, grandmasterIdentity: ClockIdentity,
    grandmasterClockQuality: ClockQuality, grandmasterPriority1: UInt8, grandmasterPriority2: UInt8)

  datatype TimePropertiesDS = TimePropertiesDS(
    currentUtcOffset: Int16, currentUtcOffsetValid: bool, leap59: bool, leap61: bool,
    timeTraceable: bool, frequencyTraceable: bool, ptpTimescale: bool, timeSource: UInt8)

  const FLAG1_LEAP61: bv8 := 0x01
  const FLAG1_LEAP59: bv8 := 0x02
  const FLAG1_UTC_OFFSET_VALID: bv8 := 0x04
  const FLAG1_PTP_TIMESCALE: bv8 := 0x08
  const FLAG1_TIME_TRACEABLE: bv8 := 0x10
  const FLAG1_FREQUENCY_TRACEABLE: bv8 := 0x20

  const INTERNAL_OSCILLATOR: UInt8 := 0xA0

  predicate GetFlag(flagField: bv8, mask: bv8) {
    flagField & mask == mask
  }

  predicate IsSamePortIdentity(a: PortIdentity, b: PortIdentity)
    ensures IsSamePortIdentity(a, b) <==> a == b
  {
    MemcmpZero(a.clockIdentity, b.clockIdentity);
    0 == Memcmp(a.clockIdentity, b.clockIdentity) && a.portNumber == b.portNumber
  }
}
