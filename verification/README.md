# A model of the PTPv2 ordinary clock

The repository runs an IEEE Std 1588-2008 ordinary clock on a microcontroller. This project
models the part that decides which clock to follow, and proves what that part does, over
single calls, over whole runs and over a whole network of clocks.

- `Octets.dfy`, `DataSets.dfy`: integer widths, `memcmp`, identities, messages, data sets.
- `Comparison.dfy`: the data set comparison, and exactly when it is an order.
- `RecordScan.dfy`: the scan that picks a record, as written and as intended.
- `ForeignMasters.dfy`: the table of foreign masters, and the bounded queue it stands for.
- `BestMasterClock.dfy`: the clock object with `bmc`, `bmcStateDecision`, `m1`, `s1`, `copyD0`.
- `Election.dfy`: what any number of clocks decide together.
- `Protocol.dfy`, `Engine.dfy`: `doState` as a function on values with its invariants over all
  runs, and as the methods that update the clock in place.
- `PassEffects.dfy`: what one pass does to state, events, measurements and configuration.
- `TableRuns.dfy`, `EmptyElections.dfy`, `Scenarios.dfy`: the table of foreign masters over whole
  runs of `doState`, elections without a record, and runs that reach what these speak of.
- `Learning.dfy`, `Rounds.dfy`: what a port learns from announcements, and rounds of them among
  several ports that run `doState`.
- `TimeArithmetic.dfy`, `Smoothing.dfy`, `Servo.dfy`: seconds/nanoseconds arithmetic, the smoothing
  filter, and the measured offset and path delay that they serve.
- `Nvic.dfy`, `BitReverse.dfy`: priority packing and registers, and the bit reversal loop.

A port that is served in state MASTER announces exactly the data set D0 that the election
compares, and ports that hear one another's announcements come out of `doState` in the states
that the election among their clocks decides.

Code that updates state in place is a class or a method that does the same, tied by its
`ensures` to a function on values; the results below are lemmas about those functions.
Nothing was executed.

## What the proofs show about the code

- `bmcDataSetComparison` returns +1 for "A better"; its heading (`PTPv2/src/bmc.c:261`)
  promises a result like that of `memcmp`, which has the opposite sign. The scan in `bmc` tests
  for a negative result and so keeps the least preferred record. With it a port becomes master
  as soon as one live record is worse than its own data set, and among n clocks that hear each
  other n - 1 become master: one master is elected exactly when n = 2. The same scan with the
  test turned round elects exactly one for every n.
- The comparison has cycles exactly when two messages disagree about the attributes of one
  grandmaster. An echo of the receiver can only hide the order of two paths one step apart, so
  that a message ties with two others that do not tie; it never turns the order round.
- The announce receipt timeout (`PTPv2/src/protocol.c`, lines 428-429) resets the record count and
  the insertion slot but not `best`. Until the next election `addForeign` is then wrong for exactly
  two senders: the message of one is lost in a dead slot, the other gets a second record. For every
  port and every run, the table is the queue all along exactly if no such sender is heard. A port
  that is not slave-only never hears one, with and without the monitoring extension
  (`LWIP_PTP_MONITOR`, on in `PTPv2/src/constants.h:66`): an election always comes first.
- A slave-only port can. `timerStop` (`PTPv2/src/dep/timer.c:42-48`) leaves an expiry that has not
  been read yet, so a port can find the management timer expired after it has gone back to
  LISTENING, and handle two messages before the election. A run from power-up shows it.
- With the monitoring extension a pass can record a message and then forget all records with the
  election still due, or leave the election to a later pass that does. `bmc` then reads record 0
  of an empty table, and a master that has just timed out is adopted again. The exact condition is
  proved for every pass and for whole runs, and a run from power-up that reaches it. Without the
  extension no election is ever held without a record.
- A port that is handed to another parent goes through UNCALIBRATED, except exactly when it is
  there already with a selection pending: then the selection of the old parent takes it to SLAVE
  under the new one, which was never measured (`PTPv2/src/protocol.c`, lines 323-336).
- `doState` never initialises a port a second time: `PTP_FAULTY` is always left by taking up
  the last recommendation, not through `PTP_INITIALIZING`. So `initData`, which resets the
  record count alone (`PTPv2/src/bmc.c:75`), only ever meets a table that was never used.
- Subtracting the most negative second from a time below one second overflows although the
  result can be represented. No other sum or difference of normal times overflows unless its
  result does.
- The guard of `filter` against overflow (`PTPv2/src/dep/servo.c:100-101`) looks at the larger of
  the old value and the sample, not at their magnitudes. It suffices when neither is negative, and
  is not needed for the offset, whose order is 1; a delay that has been far below zero and turns
  positive overflows the scaled sum.

## Model

`doState` and `toState` are declared at `PTPv2/src/ptpd.h:138-149` and defined, with the functions
they call, in `PTPv2/src/protocol.c`. A row about them cites the declaration or the code they call,
and ends with the lines of the definition.

| member | source | states |
|---|---|---|
| Octets.MemcmpIsLexicographic | PTPv2/src/bmc.c:276-294 | the first difference decides between two identities, and the smaller octet makes the smaller one |
| Octets.Eui64Octets | PTPv2/src/bmc.c:8-18 | the halves of the address stand around the octets FF and FE |
| Octets.Eui64KeepsOrder | PTPv2/src/bmc.c:8-18 | identities made from MAC addresses compare as the addresses do, so they are distinct for distinct addresses |
| Octets.EUI48toEUI64 | PTPv2/src/bmc.c:8-18 | the output buffer becomes the EUI-64 form of the input |
| DataSets.IsSamePortIdentity | PTPv2/src/bmc.c:91-97 | holds exactly for equal port identities |
| Comparison.CompareIsAntisymmetric | PTPv2/src/bmc.c:263-371 | swapping the two messages negates the result, for all messages and receivers |
| Comparison.CompareIsZero | PTPv2/src/bmc.c:297-371 | no decision exactly for one grandmaster and either the same distance and sender, or a farther sender one step away that is the receiver |
| Comparison.CompareByKeys | PTPv2/src/bmc.c:263-371 | for all messages: different grandmasters compare by attributes and identity, two paths to one grandmaster by distance and sender whatever the attributes say, unless an echo hides the order |
| Comparison.CompareRefinesKeyOrder | PTPv2/src/bmc.c:263-371 | for coherent messages the result is the sign of comparing 22-element keys lexicographically, except exactly where an echo of the receiver hides the order of two paths one step apart; there it is 0 |
| Comparison.CompareIsWeakOrder | PTPv2/src/bmc.c:263-371 | on coherent messages without echoes the comparison is a strict weak order |
| Comparison.NeverCyclicIffCoherent | PTPv2/src/bmc.c:276-306 | two messages can take part in a preference cycle, over some paths, echoes included, and with some third message, exactly when they disagree about one grandmaster |
| Comparison.IncoherenceMakesCycle | PTPv2/src/bmc.c:276-306 | the three messages that form the cycle |
| Comparison.EchoBreaksTies | PTPv2/src/bmc.c:308-351 | a message ties with two nearer ones that do not tie exactly when it is an echo of the receiver |
| RecordScan.ScanIsExtremal | PTPv2/src/bmc.c:425-433 | on orderly records nothing displaces the scan's choice and it is the first such record; as written this is the least preferred, with the opposite test the most preferred |
| RecordScan.ScansTieOnlyWhenAllTie | PTPv2/src/bmc.c:425-433 | the two choices tie exactly when all records tie |
| ForeignMasters.SearchVisitsEachSlotOnce | PTPv2/src/bmc.c:104-122 | a search that starts inside the live records visits each of them exactly once |
| ForeignMasters.SearchIsRightExactlyWhen | PTPv2/src/bmc.c:104-122 | with `best` outside the live records the search is wrong for exactly the identities in two named slots |
| ForeignMasters.AddRefinesQueue | PTPv2/src/bmc.c:99-146 | the ring stays valid and does what an insertion-ordered bounded queue does exactly when the sender is not in one of the two slots that a `best` left behind puts in danger |
| ForeignMasters.AddStoresMessage | PTPv2/src/bmc.c:112-146 | a message of a safe sender is stored in a live record, counted from 0 in 16 bits; every other record stays but for the oldest of a full table, and nobody changes places |
| ForeignMasters.RunKeepsLastHeard | PTPv2/src/bmc.c:99-146 | over any run of safe senders every record holds the last message heard from its sender |
| ForeignMasters.RunRefinesQueue | PTPv2/src/bmc.c:99-146 | after any run of messages, elections and timeouts in which every sender is safe when it is heard, the table is valid and holds exactly the queue |
| ForeignMasters.RegularExactlyWhileQueue | PTPv2/src/bmc.c:99-146 | and only after such a run: every sender is safe exactly if the table is valid and holds the queue after every event |
| ForeignMasters.RunsWithoutTimeoutAreRegular | PTPv2/src/bmc.c:425-437 | every run of messages and elections from the reset state is of that kind, with `best` inside the live records |
| ForeignMasters.DuplicateAfterTimeout | PTPv2/src/bmc.c:99-146 | after a timeout the same sender heard twice before an election has two records where the queue has one |
| ForeignMasters.ForeignMasterDS.AddForeign | PTPv2/src/bmc.c:99-146 | the object updates its table as the function on values does |
| BestMasterClock.D0DecidesComparison | PTPv2/src/bmc.c:228-238 | the comparison sees no more of the local data set than what `copyD0` writes |
| BestMasterClock.PtpClock.M1 | PTPv2/src/bmc.c:151-180 | the clock becomes its own parent |
| BestMasterClock.PtpClock.S1 | PTPv2/src/bmc.c:188-223 | the sender becomes the parent and a change of parent is signalled |
| BestMasterClock.S1SetsParent | PTPv2/src/bmc.c:188-223 | what `s1` leaves mirrors the record: identity in the table, grandmaster, distance plus one in 16 bits, time properties flag by flag; measured offset and delay and all else stay as they are |
| BestMasterClock.PtpClock.CopyD0 | PTPv2/src/bmc.c:228-238 | the message buffers hold D0 and are otherwise unchanged |
| BestMasterClock.PtpClock.BmcStateDecision | PTPv2/src/bmc.c:376-417 | the object decides as the function on values does |
| BestMasterClock.PtpClock.PickRecord | PTPv2/src/bmc.c:425-433 | the loop computes the scan over the live records |
| BestMasterClock.PtpClock.Bmc | PTPv2/src/bmc.c:421-440 | the object elects as the function on values does |
| BestMasterClock.MasterWhen | PTPv2/src/bmc.c:391-440 | as written a port becomes master exactly when it beats some live record; with the intended scan exactly when it beats all |
| BestMasterClock.ElectionKeepsDataSetsCoherent | PTPv2/src/bmc.c:376-440 | after an election a slave's parent mirrors the elected live record and its measurements are kept, a master is its own parent, otherwise the data sets are unchanged; the table keeps its records; each outcome has its exact condition |
| BestMasterClock.ChangeIsSignalledExactly | PTPv2/src/bmc.c:197-206 | over any run of messages and elections the change of master is signalled exactly when some election changed the parent |
| Election.D0sCompareByPreference | PTPv2/src/bmc.c:274-295 | data sets of different clocks compare by their attributes and then by identity |
| Election.SmallerMacWins | PTPv2/src/bmc.c:274-294 | between clocks equal in all attributes the smaller MAC address wins |
| Election.Decision | PTPv2/src/bmc.c:421-440 | what a clock that hears all others decides, with either scan |
| Election.UndominatedRecordsElectOneMaster | PTPv2/src/bmc.c:376-417 | if each clock decides on a record that none of the others' beats, exactly one becomes master; the others are passive or slaves by clock class |
| Election.IntendedScanElectsOneMaster | PTPv2/src/bmc.c:421-440 | the scan with the test turned round elects exactly one master |
| Election.ScanAsWrittenSparesOneClock | PTPv2/src/bmc.c:421-440 | the scan as written makes every clock master but the least preferred |
| Election.OneMasterExactlyForTwoClocks | PTPv2/src/bmc.c:421-440 | as the code stands one master is elected exactly when there are two clocks |
| Protocol.PowerUpIsStarting | PTPv2/src/dep/startup.c:10-34 | the state at power-up is one that the results about runs start from |
| PassEffects.PowerUpKeepsOptions | PTPv2/src/dep/startup.c:10-34 | options are taken over as they are, but for the clock class of a port that is slave-only by option |
| PassEffects.StartsUnlessNetworkFails | PTPv2/src/ptpd.h:138-149 | a starting port fails if the network does not come up, tries again, and otherwise listens as its own parent with its configured identity and attributes (`protocol.c`, lines 218-240) |
| PassEffects.InitialisationKeepsSlot | PTPv2/src/bmc.c:70-80 | initialising a port resets the record count alone, neither the insertion slot nor `best` |
| PassEffects.MasterAnnouncesItself | PTPv2/src/bmc.c:151-180 | a master announces its own data set from its own port, with the time scale of its options (`msg.c`, `msgPackAnnounce`) |
| PassEffects.RunMirrorsOptions | PTPv2/src/bmc.c:21-89 | over any run the default data set says attribute by attribute what the options say |
| PassEffects.ElectionRecommends | PTPv2/src/bmc.c:376-440 | a due election is what is recommended, save that a slave-only port listens instead of being master or passive; only an election as master loses measurements (`protocol.c`, lines 247-284) |
| PassEffects.ServedStateExactly | PTPv2/src/ptpd.h:138-149 | for every recommendation, exactly which state the port is served in and which events are consumed (`protocol.c`, lines 286-379) |
| PassEffects.AnnounceEffects | PTPv2/src/ptpd.h:138-149 | an announcement of the parent becomes the parent data set and leaves the records alone, any other goes on record and leaves the data sets alone, and neither touches a measurement (`protocol.c`, lines 617-692) |
| PassEffects.OtherEffects | PTPv2/src/ptpd.h:138-149 | exactly what any other message leaves: failure, selection, synchronization fault, measurement (`protocol.c`, lines 483-614) |
| PassEffects.MonitorEffects | PTPv2/src/ptpd.h:138-149 | when the extension handles a message of its own (`protocol.c`, lines 410-418) |
| PassEffects.TimeoutEffects | PTPv2/src/ptpd.h:138-149 | what the announce receipt timeout leaves of a port, slave-only or not (`protocol.c`, lines 425-443) |
| PassEffects.FailsExactly | PTPv2/src/ptpd.h:138-149 | a pass ends in FAULTY exactly if receiving or sending has failed in it and no timeout has taken the port elsewhere (`protocol.c`, lines 381-478) |
| PassEffects.MeasurementsAfterPass | PTPv2/src/ptpd.h:138-149 | a pass leaves the last measurement received by a port with a parent, and nothing once the port has become its own parent (`protocol.c`, lines 243-479) |
| PassEffects.RunKeepsMeasurements | PTPv2/src/ptpd.h:138-149 | over any run offset and delay change only by a measurement or by the port becoming its own parent (`protocol.c`, lines 243-479) |
| Protocol.StartedPortIsServedRunning | PTPv2/src/ptpd.h:138-149 | an initialised port is always served in a state that fits its recommendation and is never initialised again (`protocol.c`, lines 247-404) |
| Protocol.PassKeepsStarted | PTPv2/src/ptpd.h:138-149 | one pass keeps the port initialised, configured, with its table addressable, and its own parent while it is recommended master (`protocol.c`, lines 243-479) |
| Protocol.RunIsSafe | PTPv2/src/ptpd.h:138-149 | over every run from power-up a master announces its own data set D0, and a port that is slave-only, by option or by clock class, is never passive, master or about to be (`protocol.c`, lines 243-479) |
| Protocol.NewParentMeansUncalibrated | PTPv2/src/ptpd.h:138-149 | a port that is handed to another parent goes to UNCALIBRATED, or to SLAVE exactly if it was in UNCALIBRATED with a selection pending; SLAVE is entered only from there (`protocol.c`, lines 319-362) |
| Protocol.MasterIsQualified | PTPv2/src/ptpd.h:138-149 | MASTER is entered only from PRE_MASTER after qualification, or by the announce receipt timeout (`protocol.c`, lines 288-436) |
| TableRuns.PassesRun | PTPv2/src/bmc.c:99-146 | a run of passes does to the table exactly what its recorded messages, elections and timeouts do, in order (`protocol.c`, lines 243-479) |
| TableRuns.TableIsQueueExactly | PTPv2/src/bmc.c:99-146 | over any run of any port from power-up the table is valid and holds the bounded queue of recorded messages after every event exactly if every sender is safe when it is heard (`protocol.c`, lines 243-479) |
| TableRuns.PassKeepsTable | PTPv2/src/bmc.c:99-146 | any pass, monitored or not, keeps the search in order and hears safe senders only, unless a slave-only port is left behind in LISTENING (`protocol.c`, lines 243-479) |
| TableRuns.RunKeepsTable | PTPv2/src/bmc.c:99-146 | so over every run from power-up a port that is not slave-only hears safe senders only, and one that is does as long as it is not left behind (`protocol.c`, lines 243-479) |
| TableRuns.RunKeepsParentCoherent | PTPv2/src/bmc.c:376-440 | after every run of safe senders an election that makes the port slave leaves the live record at `best` as its parent, by its identity in the table, unless there were no records; one that makes it master leaves it its own parent, one that makes it passive changes nothing |
| EmptyElections.EmptyElectionIffOvertaken | PTPv2/src/bmc.c:421-440 | after every run from power-up, a pass leaves an election among no records due exactly when the timeout overtakes a due election, or a port that such an election has orphaned hears only its parent (`protocol.c`, lines 407-443) |
| EmptyElections.EverEmptyIffEverOvertaken | PTPv2/src/bmc.c:421-440 | over a whole run such an election comes up exactly when the timeout overtakes a due election in some pass (`protocol.c`, lines 243-479) |
| EmptyElections.NoEmptyElectionUnmonitored | PTPv2/src/bmc.c:421-440 | without the monitoring extension none ever does, over every run from power-up (`protocol.c`, lines 243-479) |
| EmptyElections.OvertakenInTime | PTPv2/src/dep/timer.c:50-77 | if a timer started in a pass does not expire in it, that takes another master than the parent, heard through the extension in the pass of the timeout (`protocol.c`, lines 407-443) |
| Scenarios.BecomesSlave | PTPv2/src/ptpd.h:138-149 | a run from power-up to SLAVE under the one master that is heard (`protocol.c`, lines 243-479) |
| Scenarios.SilentMasterIsElectedAgain | PTPv2/src/bmc.c:421-440 | from there two passes to an election on an empty table that the silent master wins (`protocol.c`, lines 407-443) |
| Scenarios.SlaveOnlyPortDoublesRecord | PTPv2/src/bmc.c:99-146 | a run from power-up after which a slave-only port has two records of one sender (`protocol.c`, lines 407-443) |
| Scenarios.SlaveOfUnmeasuredMaster | PTPv2/src/ptpd.h:138-149 | a run from power-up, without the extension, to SLAVE under a parent that nothing has been measured of (`protocol.c`, lines 319-336) |
| Rounds.SilenceMakesMasters | PTPv2/src/bmc.c:151-180 | a port that is powered up and hears nothing until the timeout is a master with an empty table (`protocol.c`, lines 407-443) |
| Rounds.RoundDecides | PTPv2/src/bmc.c:421-440 | among any number of masters that hear one another, and with any number of records, a port stays master exactly if it is preferred to one of those it heard last, as many as it has records (`protocol.c`, lines 243-479) |
| Rounds.RoundsSpareOneClock | PTPv2/src/bmc.c:421-440 | with room for all, over any number of rounds the same port and no other is not master, the least preferred, which is passive or follows another (`protocol.c`, lines 243-479) |
| Rounds.RoundsLeaveOneMasterOnlyOfTwo | PTPv2/src/bmc.c:421-440 | so any number of rounds leaves one master exactly when there are two ports (`protocol.c`, lines 243-479) |
| Engine.ToState | PTPv2/src/ptpd.h:138-149 | the object changes state as the function on values does (`protocol.c`, lines 106-214) |
| Engine.InitData | PTPv2/src/bmc.c:21-89 | identity, attributes, capacity and record count are set, the insertion slot and `best` are not |
| Engine.DoInit | PTPv2/src/ptpd.h:138-149 | initialisation happens only when the network comes up (`protocol.c`, lines 218-240) |
| Engine.HandleAnnounce | PTPv2/src/ptpd.h:138-149 | the object handles an Announce message as the function on values does (`protocol.c`, lines 617-692) |
| Engine.Handle | PTPv2/src/ptpd.h:138-149 | the object handles a message as the function on values does (`protocol.c`, lines 483-614) |
| Engine.Decide | PTPv2/src/ptpd.h:138-149 | the first part of a pass (`protocol.c`, lines 247-284) |
| Engine.Follow | PTPv2/src/ptpd.h:138-149 | the second part of a pass (`protocol.c`, lines 286-379) |
| Engine.GiveUp | PTPv2/src/ptpd.h:138-149 | the announce receipt timeout (`protocol.c`, lines 425-443) |
| Engine.ServeWaiting | PTPv2/src/ptpd.h:138-149 | the third part of a pass for a port that is not master (`protocol.c`, lines 407-447) |
| Engine.ServeMaster | PTPv2/src/ptpd.h:138-149 | the third part of a pass for a master (`protocol.c`, lines 449-474) |
| Engine.Serve | PTPv2/src/ptpd.h:138-149 | the third part of a pass (`protocol.c`, lines 381-478) |
| Engine.DoState | PTPv2/src/ptpd.h:138-149 | one pass, which never leaves the array of records and keeps the port starting or started (`protocol.c`, lines 243-479) |
| TimeArithmetic.NormalFormIsUnique | PTPv2/src/arith.c:75-90 | normal times with equal totals are equal |
| TimeArithmetic.NormalFormIsTruncatedDivision | PTPv2/src/arith.c:75-90 | a time is normal exactly when it is the truncated division of its total by a second |
| TimeArithmetic.NormalizeTime | PTPv2/src/arith.c:75-90 | the result is the normal form of the same total |
| TimeArithmetic.AddTime | PTPv2/src/arith.c:92-98 | the normal form of the exact sum, also when the result is one of the operands |
| TimeArithmetic.SubTime | PTPv2/src/arith.c:100-106 | the normal form of the exact difference |
| TimeArithmetic.AddOverflowsOnlyWithItsResult | PTPv2/src/arith.c:92-98 | on normal operands a step overflows exactly when the result cannot be represented |
| TimeArithmetic.SubOverflowsOnlyWithItsResult | PTPv2/src/arith.c:100-106 | the same for subtraction, with the one exception |
| TimeArithmetic.AdditionLaws | PTPv2/src/arith.c:92-115 | sums regroup, subtraction undoes addition, halving undoes doubling |
| TimeArithmetic.Div2Time | PTPv2/src/arith.c:108-115 | the result is normal and within half a nanosecond; truncated toward zero exactly under a stated condition |
| TimeArithmetic.NormalTimesHalveExactly | PTPv2/src/arith.c:108-115 | a normal time never overflows and is truncated toward zero |
| TimeArithmetic.ScaledNanosecondsToInternalTime | PTPv2/src/arith.c:5-29 | the normal form of the value truncated by 2^16, with seconds that fit 32 bits |
| TimeArithmetic.ScaledConversionIsOdd | PTPv2/src/arith.c:5-29 | negating the value negates the time |
| TimeArithmetic.AccumulationError | PTPv2/src/arith.c:5-98 | adding n converted corrections differs from converting their sum by at most n - 1 ns |
| TimeArithmetic.AccumulateCorrections | PTPv2/src/arith.c:5-98 | converting and adding up to 15258 corrections in place never overflows and ends in a normal time within n - 1 ns of converting their exact sum |
| TimeArithmetic.DelayExchangeRecoversOffset | PTPv2/src/dep/servo.c:136-204 | before smoothing, the computed offset is off by half the path asymmetry up to one rounding step; exact on a symmetric path |
| TimeArithmetic.FromInternalTime | PTPv2/src/arith.c:32-53 | negative times leave the timestamp alone, others fill it |
| TimeArithmetic.ToInternalTime | PTPv2/src/arith.c:55-70 | timestamps from INT_MAX seconds on leave the time alone |
| TimeArithmetic.StampConversions | PTPv2/src/arith.c:32-70 | which times and stamps are refused, and what the others become, nanoseconds modulo 2^32 |
| TimeArithmetic.TimestampRoundTrip | PTPv2/src/arith.c:32-70 | exactly which times and which timestamps survive a round trip |
| Smoothing.SmoothedIsBetween | PTPv2/src/dep/servo.c:65-124 | a sample moves the smoothed value toward itself and never past; changing the order keeps the value |
| Smoothing.SmoothedIsAverage | PTPv2/src/dep/servo.c:65-124 | a sample moves the value by the 2^s-th part of the difference, up to rounding; samples are counted until there are 2^s |
| Smoothing.ChosenOrderIsLargest | PTPv2/src/dep/servo.c:91-104 | the order used is the largest that is configured, that the samples call for, and that has room |
| Smoothing.NonnegativeNeverOverflows | PTPv2/src/dep/servo.c:100-115 | no intermediate sum overflows as long as value and sample are not negative |
| Smoothing.LowOrderNeverOverflows | PTPv2/src/dep/servo.c:100-115 | nor with an order of at most 1, whatever the signs |
| Smoothing.NegativeOverflows | PTPv2/src/dep/servo.c:100-115 | four samples with which the guard against overflow fails |
| Smoothing.SmoothingFilter.Smooth | PTPv2/src/dep/servo.c:65-124 | the object filters as the function on values does, when no intermediate sum overflows |
| Servo.MeasuredIsAverage | PTPv2/src/dep/servo.c:155-168 | below one second a measured time is the sample, if it is the first, or else the average |
| Servo.RunStaysWithin | PTPv2/src/dep/servo.c:127-251 | over any run of measurements within limits every reported offset is one that a single exchange within them could give, smoothing included |
| Servo.FirstDelayIsWithin | PTPv2/src/dep/servo.c:188-251 | the first delay that is measured is within the limits whatever it was before |
| Servo.ExchangeMeasuresPaths | PTPv2/src/dep/servo.c:127-236 | from the timestamps of a link: a Sync measures path and lead, a Delay_Req the path less the lead, a peer exchange of one or two steps the two paths, held times excluded |
| Servo.OffsetOverLink | PTPv2/src/dep/servo.c:127-251 | over any run of timestamps on one link the reported offset misses the lead of the slave by no more than the asymmetry and variation of the paths; by half the asymmetry on constant paths; not at all on a constant symmetric one, where the delay is exact as well |
| Servo.PortServo.UpdateOffset | PTPv2/src/dep/servo.c:127-185 | measures a Sync as the relation on values says, without an overflow if every difference can be represented; tells small from large offsets |
| Servo.PortServo.UpdateDelay | PTPv2/src/dep/servo.c:188-217 | measures a Delay_Req as the relation on values says, or nothing before the first offset |
| Servo.PortServo.UpdatePeerDelay | PTPv2/src/dep/servo.c:219-251 | measures a peer exchange of one or two steps as the relation on values says |
| Nvic.FieldsShareTheBits | CORE/core_cm4.h:1751-1752 | the two fields use exactly the implemented bits |
| Nvic.EncodingKeepsOrder | CORE/core_cm4.h:1745-1758 | codes compare as the pairs do |
| Nvic.EncodeUndoesDecode | CORE/core_cm4.h:1772-1783 | encoding the decoded parts of a code gives it back |
| Nvic.DecodeUndoesEncode | CORE/core_cm4.h:1772-1783 | decoding a code gives the fields cut to their widths |
| Nvic.HardwareSplitsFields | CORE/core_cm4.h:1745-1758 | the fields are those that the hardware takes out of the stored byte, above and below bit g of the group |
| Nvic.DecodePriority | CORE/core_cm4.h:1772-1783 | the two out-parameters are the parts of the code |
| Nvic.Registers.SetPriority | CORE/core_cm4.h:1698-1708 | the interrupt reads back what was set and no other interrupt from -12 to 239 changes |
| Nvic.Registers.GetPriority | CORE/core_cm4.h:1720-1731 | the stored byte moved down to the implemented bits |
| Nvic.Registers.SetPriorityGrouping | CORE/core_cm4.h:1596-1607 | the group is replaced under the write key and unrelated bits are kept |
| Nvic.ConfiguredPriorityIsFound | CORE/core_cm4.h:1698-1783 | encoding, storing, loading and decoding only cut the fields to their widths |
| BitReverse.Rbit | CORE/cmsis_armcc.h:439-453 | bit k of the resulting word is bit 31 - k of the argument |
| BitReverse.ReversalLaws | CORE/cmsis_armcc.h:439-453 | reversal is its own inverse, for words as for their bits, and exchanges the two shifts |

## Left out

- Timers: an expiry is an input of a pass, so the results hold for any timing; starting and
  stopping timers is not modelled, and neither is which combinations of expiries can occur, except
  as a hypothesis of EmptyElections.OvertakenInTime.
- The network: a pass is told what it receives and whether sending fails. Message packing is
  modelled only as far as `IssuedAnnounce`; wrong versions and domains count as nothing received.
- TimeArithmetic.DelayExchangeRecoversOffset: is the law before smoothing; Servo.OffsetOverLink has
  it over whole runs with smoothing, from the first measured delay on.
- The servo: to the port, measurements are arbitrary values; steering the clock (`updateClock`) is
  not modelled, so the lead of the slave is taken as constant over a run.
- Smoothing.FloorLog2: is the position of the highest bit rather than the five tests that find it.
- Time fields of messages that decide nothing here (origin timestamps, message lengths,
  control fields), port data set settings, parent statistics, and all debug output.
- `memcmp`: only the sign of its result is modelled, which is also all that survives storing it
  in a `short`; a library whose result does not fit 16 bits is not covered.
- Event flags are a set of events rather than bits of an integer.
- TimeArithmetic.ScaledNanosecondsToInternalTime: the most negative 64-bit value is excluded,
  because negating it is undefined in C.
- A signed overflow is undefined in C, so the arithmetic methods require exactly that no
  intermediate result overflows instead of choosing a wrapped value.
- The capacity of the table is taken to be the length of the record array, as `PTPd_Init`
  sets it, and to fit a signed 16-bit integer.
- Core exceptions below -12 have no priority register; enable and pending bits, the write-only
  nature of the key field and every other register are hardware.
- BitReverse.Rbit: the loop counter is a 6-bit word, wide enough for its values from 31 to 0.
- Rounds: in a round every port hears the masters among the others once, in turn, and has qualified
  by the time it next has to; lost announcements and other schedules are covered for each port by
  the results on runs. Networks too large for the tables are followed for one round.
- `floorLog2`, `SysTick_Config`, system start-up, drivers and the TCP/IP stack: straight-line
  code or hardware access that would only add easy members.
