# Verified model of the avdecc-lib controller

This project models the stateful engine of the avdecc-lib controller (the controller side of IEEE 1722.1-2013) and
proves what it keeps over whole runs of events. Frames are parsed records, the clock is an unbounded number of
milliseconds of which the code sees only the value modulo 2^32, and everything a machine does to the outside world
is an output in a log.

Each engine is modelled twice. A *specification* gives every step as a function from state to state, and every run
as the fold of those functions over a list of events. A *class* has the source's fields, and methods with the
source's loops and branches; each method is proved to change the state exactly as the specification function says.
The lemmas about runs are then about the specification, and therefore about the class. What the specification
functions themselves compute is stated again without them, from the events of a run and in the source's numbers: which
descriptor is whose child (`EntityModel.ChildrenAreReads`), when a read times out (`ReadTimeouts.TimesOutExactlyWhen`),
what a notice says (`CommandNotices.EveryRunIsNoticed`), what is stored (`StoredAnswers.EveryRunHoldsItsAnswers`), and
what an advertisement does (`DiscoveryEvents.AdvertisementsTakeEffect`).

| files | part of the controller |
|---|---|
| `Timers` | the 32-bit millisecond timer |
| `Commands`, `CommandStories`, `CommandTicks`, `CommandTurns`, `CommandOutcomes`, `CommandNotices`, `CommandTimes`, `CommandTable`, `CommandsBeyondWindow`, `AecpControllerStateMachine`, `AcmpControllerStateMachine` | inflight commands: one table for two machines, sequence ids modulo 2^16, one resend, a tick loop that erases from the vector it indexes |
| `Discovery`, `DiscoveryRuns`, `DiscoveryEvents`, `DiscoveryDrain` | the table of advertised entities and the table of end stations, which are kept separately |
| `DescriptorStore`, `EntityModel`, `Enumeration`, `EndStation`, `EnumerationRuns`, `ReadTimeouts`, `StoredAnswers`, `DeviceRuns`, `EnumerationEnds`, `EnumerationClosure`, `LookupByPosition`, `DenseDevices` | background enumeration of an end station's descriptors |
| `MessageRings` | the log and notification rings with their dispatcher |
| `CliMatcher` | greedy matching of command line tokens to arguments |
| `Eui48` | the two EUI-48 conversion loops |
| `Basics` | integer widths, `Option`, and erasing from a sequence |

Main results: `CommandOutcomes.ExactlyOneOutcome`, `CommandOutcomes.AccountsHoldExactlyWhen`,
`CommandNotices.EveryRunIsNoticed`, `CommandTimes.NeverGivenUpEarly`, `CommandTicks.TickIsASweep`,
`CommandTicks.TicksDrainTheTable`, `EnumerationEnds.EnumerationTerminates`,
`EnumerationClosure.EnumerationIsReachability`, `DenseDevices.DenseDevicesEnumerateInOrder`,
`ReadTimeouts.TimesOutExactlyWhen`, `StoredAnswers.EveryRunHoldsItsAnswers`,
`DiscoveryEvents.AdvertisementsTakeEffect`, `DiscoveryRuns.NotificationsAlternate`,
`DiscoveryEvents.NeverDisconnectedEarly`, `MessageRings.EveryRunIsOk`, `MessageRings.DisturbedExactlyWhen`,
`CliMatcher.GreedyFindsTheMaximalSplit`, `CliMatcher.GreedyIsCompleteExactlyWhen`.

Where the code and what one would expect of it differ, the model follows the code, and says exactly when the
expectation holds:

- A resend restarts the timer of the first entry with its sequence id, and a response removes the first entry with
  its id. In every run that is the right entry if and only if no earlier live command has the same id
  (`CommandStories.ResendRestartsItself`, `CommandOutcomes.AnswersItsCommandExactlyWhen`). 65537 sends with the first
  and the last unanswered are enough to break it; from then on each tick transmits the last one again, without ever
  giving it up (`CommandsBeyondWindow.BeyondTheWindowResendsMiss`). Each command still has exactly one outcome; its
  transmissions are counted if and only if no such resend has happened (`CommandOutcomes.AccountsHoldExactlyWhen`).
- A resend that restarts another command restarts one that was sent no later, so no AECP command is ever given up
  within two timeouts (`CommandTimes.NeverGivenUpEarly`). An ACMP command can be, if the command sent again has the
  shorter timeout: a CONNECT_RX command, which has 4500 ms, is given up after 4702 ms when a GET_RX_STATE command has
  its id (`CommandsBeyondWindow.GivenUpEarlyExactlyWhen`). A set of commands is safe from it if and only if they all
  have the same timeout (`CommandsBeyondWindow.NoneIsCutShortExactlyWhen`).
- A tick does not look at the entry after one it erased (`CommandTicks.TickTouchesOnlyExpired`). An AECP command
  that is given up is notified as COMMAND_TIMEOUT whatever its flag says, an ACMP command as RESPONSE_RECEIVED.
- A ring of 32 slots admits a 33rd message, which replaces the oldest (`MessageRings.ThirtyThirdReplacesTheOldest`),
  even while that one is in its callback (`MessageRings.ThirtyThirdChangesARunningCallback`). Messages are seen first
  in, first out and unchanged exactly when no replaced message differed (`MessageRings.FifoExactlyWhen`), and a message
  is replaced exactly by the filling of a slot for a 33rd one (`MessageRings.DisturbedExactlyWhen`).
- A timer that is asked only at whole periods of the clock never fires (`Timers.MissedWhenTheClockComesRound`).
- A discovery tick removes at most one expired entity, so an entity stays connected for up to one tick more than there
  are entities before it (`DiscoveryDrain.DisconnectsWithin`). A station is enumerated again only when its index went
  down or its model changed, compared with the latest accepted advertisement
  (`DiscoveryEvents.AdvertisementsTakeEffect`).
- Enumeration treats an answer that comes a second time, or after its read was given up, like any other: it stores the
  descriptor again, queues the children again, and can post READ_COMPLETED again
  (`EnumerationClosure.LaterAnswerCompletesAgain`). The runs of the enumeration results contain such answers.
- Enumeration uses a descriptor index as a position. For audio units that is right exactly when no lower one is
  missing, for stream ports exactly when they arrive in turn (`LookupByPosition.AlignedExactlyWhen`); a port that
  answers twice shifts the next one (`LookupByPosition.RepeatedPortShiftsTheNext`). Enumeration terminates all the
  same, since the reads are then those of another descriptor of the type (`DeviceRuns.DeducesSomeReads`). The strings
  of every locale are read from 0 up to the count of locale 0.
- If the current configuration of a device is not 0, enumeration is reported complete after CONFIGURATION 0, with
  nothing else read (`EnumerationClosure.OtherConfigurationEndsAtOnce`). A tick that gives up the last read never
  reports completion (`EnumerationRuns.CompletionMeansSettled`).
- The greedy matcher can miss a split that exists (`CliMatcher.GreedyCanMissASplit`); it succeeds exactly when there
  is a split in which every argument takes all it can. For given limits it never misses one if and only if no argument
  that can match more than its minimum is followed by one that has to match (`CliMatcher.GreedyIsCompleteExactlyWhen`).

## Model

| member | source | states |
|---|---|---|
| Timers.FiresExactlyWhen | controller/lib/src/timer.cpp:103-133 | a started timer, asked at any later times, reports its timeout if and only if one of them lay, modulo 2^32, more than the duration after the start; polling changes nothing else |
| Timers.NeverFiresEarly | controller/lib/src/timer.cpp:117-133 | a timeout is never reported before more than the duration has passed in real time, however often the clock came round |
| Timers.FiresOncePolledInTime | controller/lib/src/timer.cpp:117-133 | one poll after the duration and within 2^32 ms of the start latches the timeout for all later polls |
| Timers.MissedWhenTheClockComesRound | controller/lib/src/timer.cpp:117-133 | outside that interval the timeout can be missed: polls at whole clock periods never see it |
| Timers.StoppedNeverFires | controller/lib/src/timer.cpp:111-133 | a timer that was stopped, or never started, does not report a timeout however often it is asked |
| Timers.Timer.Start | controller/lib/src/timer.cpp:103-109 | the four fields after a start |
| Timers.Timer.Stop | controller/lib/src/timer.cpp:111-115 | the four fields after a stop, which keeps duration and start time |
| Timers.Timer.Timeout | controller/lib/src/timer.cpp:117-133 | the fields and the answer of a poll: latched, and only while running |
| AecpControllerStateMachine.AecpStateMachine.StateSendCmd | controller/lib/src/aecp_controller_state_machine.cpp:167-170 | a send appends one entry with the next sequence id modulo 2^16, starts its timer, transmits the frame with that id in it, and runs the callback |
| AecpControllerStateMachine.AecpStateMachine.TxCmd | controller/lib/src/aecp_controller_state_machine.cpp:99-138 | both branches: a new entry, or a resend that restarts the first entry with the id in the frame; then the frame goes out and the callback runs |
| AecpControllerStateMachine.AecpStateMachine.PostCallback | controller/lib/src/aecp_controller_state_machine.cpp:413-424 | RESPONSE_RECEIVED is posted for flagged commands and the two response types, and otherwise nothing |
| AecpControllerStateMachine.AecpStateMachine.ProcResp | controller/lib/src/aecp_controller_state_machine.cpp:147-165 | the first entry with the response's id is answered, notified and removed, and its notification id is returned with 1; with no such entry nothing changes and -1 is returned |
| AecpControllerStateMachine.AecpStateMachine.UpdateInflightForRcvdResp | controller/lib/src/aecp_controller_state_machine.cpp:238-260 | only message types 1 and 3 are looked up, unsolicited ones like any other, and return 0; the notification id handed back is that of the entry answered, and the given one otherwise |
| AecpControllerStateMachine.AecpStateMachine.StateTimeoutAt | controller/lib/src/aecp_controller_state_machine.cpp:182-225 | a retried entry is given up with COMMAND_TIMEOUT and erased, another one is resent |
| AecpControllerStateMachine.AecpStateMachine.TimerTickAt | controller/lib/src/aecp_controller_state_machine.cpp:227-236 | the loop over indices, whose bound shrinks when an entry is erased, is the specified tick |
| AecpControllerStateMachine.AecpStateMachine.IsInflightCmdWithNotificationId | controller/lib/src/aecp_controller_state_machine.cpp:480-491 | true exactly when some inflight entry has the notification id |
| AcmpControllerStateMachine.AcmpCmdToTimeout | controller/lib/src/util_imp.cpp:423-438 | the cursor search up to the sentinel finds the timeout of each of the seven commands, and 0xffff for anything else |
| AcmpControllerStateMachine.AcmpStateMachine.StateCommand | controller/lib/src/acmp_controller_state_machine.cpp:103-106 | a send, with the timeout that belongs to the command |
| AcmpControllerStateMachine.AcmpStateMachine.TxCmd | controller/lib/src/acmp_controller_state_machine.cpp:155-197 | both branches, as for AECP but for the timeout |
| AcmpControllerStateMachine.AcmpStateMachine.PostCallback | controller/lib/src/acmp_controller_state_machine.cpp:243-300 | RESPONSE_RECEIVED is posted for flagged commands and five response types, and otherwise nothing |
| AcmpControllerStateMachine.AcmpStateMachine.ProcResp | controller/lib/src/acmp_controller_state_machine.cpp:199-217 | the first entry with the response's id is answered, whatever the message type is |
| AcmpControllerStateMachine.AcmpStateMachine.StateTimeoutAt | controller/lib/src/acmp_controller_state_machine.cpp:113-153 | a retried entry is given up with RESPONSE_RECEIVED and erased, another one is resent |
| AcmpControllerStateMachine.AcmpStateMachine.TimerTickAt | controller/lib/src/acmp_controller_state_machine.cpp:219-228 | the same tick, for the ACMP kind |
| CommandStories.SendKeeps | controller/lib/src/aecp_controller_state_machine.cpp:99-138 | a send keeps the invariant that fixes, for every command ever submitted, everything that happened to it: sent once, sent twice, answered after that, or given up after that |
| CommandStories.ReceiveKeeps | controller/lib/src/aecp_controller_state_machine.cpp:147-165 | a response keeps the invariant: it ends the story of at most one command and touches no other |
| CommandStories.StateTimeoutKeeps | controller/lib/src/aecp_controller_state_machine.cpp:182-225 | inside the sequence window a timeout keeps the invariant and the window |
| CommandStories.TickKeeps | controller/lib/src/aecp_controller_state_machine.cpp:227-236 | so does a whole tick, although it erases what it indexes |
| CommandStories.EveryRunKeepsIds | controller/lib/src/aecp_controller_state_machine.cpp:99-236 | in every run, inside the window or not, an entry's id and the id in its frame are its send number modulo 2^16, and entries stay in the order of their sends |
| CommandStories.IdsAreSerialsModulo | controller/lib/src/aecp_controller_state_machine.cpp:103-113 | two live commands share a sequence id exactly when their send numbers are congruent modulo 2^16, hence never inside the window |
| CommandStories.ResendRestartsItself | controller/lib/src/aecp_controller_state_machine.cpp:115-126 | a resend restarts the entry that timed out if and only if no earlier entry has its id, and inside the window it always does |
| CommandStories.ResponseRemovesItself | controller/lib/src/aecp_controller_state_machine.cpp:147-165 | a response with the id of an entry removes that entry if and only if no earlier entry has its id |
| CommandStories.EveryRunKeeps | controller/lib/src/acmp_controller_state_machine.cpp:113-228 | over every run of sends, responses and ticks inside the window the invariant holds, for AECP and ACMP alike |
| CommandTicks.TickIsASweep | controller/lib/src/aecp_controller_state_machine.cpp:227-236 | in any table whose entries have distinct sequence ids, the indexed loop leaves and outputs exactly what a reference says position by position: wait, resend, erase, or skip after an erasure |
| CommandTicks.TickTouchesOnlyExpired | controller/lib/src/aecp_controller_state_machine.cpp:182-236 | an unexpired entry is left alone, and an entry is skipped exactly when the one before it was erased |
| CommandTicks.ExpiredEntryMovesTheTick | controller/lib/src/aecp_controller_state_machine.cpp:227-236 | an expired entry is acted on, or the one just before it is |
| CommandTicks.SweepDoesTheWork | controller/lib/src/aecp_controller_state_machine.cpp:182-236 | the sends still owed before all are given up fall by exactly one for each action of a tick |
| CommandTicks.TicksDrainTheTable | controller/lib/src/acmp_controller_state_machine.cpp:113-228 | if their sequence ids are distinct and each was sent once or twice, n commands are gone without new sends after at most 2n ticks that start with an expired entry, at whatever times the ticks come |
| CommandOutcomes.OrdersAreSubmissions | controller/lib/src/aecp_controller_state_machine.cpp:103-113 | serial numbers count the sends of the run |
| CommandTurns.WindowMeansNoneStrays | controller/lib/src/aecp_controller_state_machine.cpp:115-126 | inside the sequence window no tick sends an entry again that has an earlier live entry with its id |
| CommandOutcomes.ExactlyOneOutcome | controller/lib/src/inflight.h:63-87 | at the end of every run, whatever the clock does and inside the window or not, each command is in exactly one of inflight, answered and given up, was always transmitted with the same frame, and its notices are exactly those its flag, its transmissions and its outcome call for, COMMAND_TIMEOUT as often as an AECP command was given up and never for ACMP; if no resend strayed, so in particular inside the window, it was also transmitted once or twice, as often as its timer was started, and given up only after the second time |
| CommandOutcomes.TickCountsExactlyWhen | controller/lib/src/aecp_controller_state_machine.cpp:182-236 | a tick keeps transmissions and timer starts in step if and only if none of its turns sends an entry again that has an earlier live entry with its id; no later turn makes up for one that does |
| CommandOutcomes.AccountsHoldExactlyWhen | controller/lib/src/aecp_controller_state_machine.cpp:115-126 | over every run: the accounts of all commands were in order after every event so far if and only if no tick sent an entry again that had an earlier live entry with its id |
| CommandOutcomes.AecpNotifiesOnce | controller/lib/src/aecp_controller_state_machine.cpp:413-424 | in every run an AECP command sent with notification is notified exactly once when it has left the table, and never before |
| CommandNotices.EveryRunIsNoticed | controller/lib/src/aecp_controller_state_machine.cpp:182-225 | in the log of every run and in the story of every command: behind a transmission or an answer of a notified type, if the flag is 1, comes RESPONSE_RECEIVED with that frame, its status and the submitted notification id; behind an expiry comes one notice with the submitted frame, status 0xffffffff and that id, COMMAND_TIMEOUT for AECP and RESPONSE_RECEIVED for ACMP; there is no other notice, and every transmission has the submitted frame with the send number modulo 2^16 in it |
| CommandNotices.EventsAddToTheLog | controller/lib/src/acmp_controller_state_machine.cpp:113-217 | event by event in every run: a send transmits its order at its time, a response of a type that is taken answers the first live command whose number it names and any other response adds nothing, and a tick only transmits and gives up at its own time, each with the notice that belongs behind |
| CommandTimes.NeverGivenUpEarly | controller/lib/src/inflight.h:63-87 | in every run with a monotone clock, across clock wrap, inside the window or not: an AECP command is given up only after two full timeouts, more than 500 ms after its first transmission; an ACMP command only after its own timeout and 200 ms more, and after two full timeouts if no tick restarted a command with a longer timeout than the one it sent again |
| CommandTimes.NoneStraysMeansNoneShortens | controller/lib/src/acmp_controller_state_machine.cpp:155-197 | only a resend of an entry that has an earlier live entry with its id can restart a command with a longer timeout |
| CommandOutcomes.ResponseAnswersItsCommand | controller/lib/src/acmp_controller_state_machine.cpp:199-217 | inside the window a response removes exactly the command its id names and extends no other story |
| CommandOutcomes.AnswersItsCommandExactlyWhen | controller/lib/src/acmp_controller_state_machine.cpp:199-217 | in every run, inside the window or not, a response removes the command it is meant for if and only if no earlier live one was sent a multiple of 65536 sends before it |
| CommandOutcomes.RunsAreReadyToSweep | controller/lib/src/aecp_controller_state_machine.cpp:227-236 | every run inside the window meets the premises of the sweep and drain results |
| CommandsBeyondWindow.ShadowedIsSentAtEveryTick | controller/lib/src/aecp_controller_state_machine.cpp:115-126 | in every table: a command that was sent once, has expired and shares its id with an earlier live one is transmitted at the tick and left as it was, unless an entry before it is given up in that tick |
| CommandsBeyondWindow.BeyondTheWindowResendsMiss | controller/lib/src/aecp_controller_state_machine.cpp:182-236 | in a run of 65537 sends with the first and last unanswered, followed by k ticks that each start with the last one expired, that one has been transmitted k + 1 times, still counts one transmission and is still in the table, so its accounts are wrong; for any timeouts of the two commands |
| CommandsBeyondWindow.GivenUpEarlyExactlyWhen | controller/lib/src/acmp_controller_state_machine.cpp:113-197 | in such a run with two ticks the first command is given up at the second tick, after both timeouts and 2 ms; this is before two of its own timeouts if and only if its timeout is the longer one |
| CommandsBeyondWindow.NoneIsCutShortExactlyWhen | controller/lib/src/acmp_controller_state_machine.cpp:113-197 | for any set of commands: no run with a monotone clock that submits only these ever gives one up before two of its timeouts have passed if and only if all of them have the same timeout, as AECP commands do |
| CommandTable.RunsRefineTheTable | controller/lib/src/acmp_controller_state_machine.cpp:103-228 | inside the window both machines refine one map from send number to (sends, deadline, notification id): a send adds an entry, an admitted response takes out exactly the one whose number it names, and a tick acts only on overdue commands, sending each a second time or giving it up, and passes over an overdue one only if it gives up an earlier one |
| Discovery.AdpDiscoveryStateMachine.HaveEntity | controller/lib/src/adp_discovery_state_machine.cpp:118-130 | the first entity with the id, or none |
| Discovery.AdpDiscoveryStateMachine.StateAvail | controller/lib/src/adp_discovery_state_machine.cpp:160-183 | a known entity's timer is restarted with twice the valid time in seconds; a new one is appended and END_STATION_CONNECTED posted |
| Discovery.AdpDiscoveryStateMachine.TimerTickAt | controller/lib/src/adp_discovery_state_machine.cpp:191-217 | the discover message goes out on the first tick only; at most one entity departs, the first that has expired |
| Discovery.ControllerImp.IsEndStationFoundByEntityId | controller/lib/src/controller_imp.cpp:111-127 | the first station with the id, or none |
| Discovery.ControllerImp.RxAdvertisement | controller/lib/src/controller_imp.cpp:273-342 | an advertisement refreshes the last station advertised with its id, reconnects it if it was disconnected, or adds a station; ignored, unready and zero-id ones change nothing |
| Discovery.ControllerImp.TimeTickEvent | controller/lib/src/controller_imp.cpp:214-225 | a tick disconnects the first station with the id of the entity that departed |
| DiscoveryRuns.LookupsAgree | controller/lib/src/controller_imp.cpp:296-304 | with distinct ids the last-match search on receive and the first-match search on tick find the same station |
| DiscoveryRuns.EveryRunKeeps | controller/lib/src/controller_imp.cpp:214-342 | after every advertisement and tick: ids are distinct in both tables, every advertised entity has a station, a station is connected exactly when its id is advertised, and each entity's recorded time is that of its latest advertisement |
| DiscoveryRuns.NotificationsAlternate | controller/lib/src/adp_discovery_state_machine.cpp:160-217 | for each id connected and disconnected alternate, starting with connected, and the last one says whether the id is in the table and its station connected |
| DiscoveryRuns.DepartsAfterItsAdvert | controller/lib/src/adp_discovery_state_machine.cpp:197-217 | in the log, a departure lies past the validity of the latest arrival or renewal before it |
| DiscoveryRuns.StationIndicesAreStable | controller/lib/src/controller_imp.cpp:311-335 | an index into the station table names the same entity for ever, across disconnects, reconnects and refreshed advertisements |
| DiscoveryEvents.AdvertisementsTakeEffect | controller/lib/src/controller_imp.cpp:285-336 | in every run, from the events: an accepted advertisement puts its entity in the table, valid from its time for 2000 ms times its valid time, and makes its station connected with the advertised index and model; it is told as an arrival exactly when the entity was not in the table and as a renewal otherwise, and the station is enumerated again exactly when the latest accepted advertisement before had a greater index or another model; nothing else changes, and an advertisement that is ignored, not ready or of id 0 changes nothing |
| DiscoveryEvents.TicksTakeEffect | controller/lib/src/adp_discovery_state_machine.cpp:197-217 | in every run, from the events: a tick sends the discover message exactly when it is the first, and takes out the first entity of the table whose latest accepted advertisement has run out modulo 2^32, disconnecting its station; nothing else changes |
| DiscoveryEvents.EveryRunFollows | controller/lib/src/controller_imp.cpp:296-336 | in every run both tables hold what the latest accepted advertisement of each id said, and every id that was advertised has a station |
| DiscoveryEvents.NeverDisconnectedEarly | controller/lib/src/adp_discovery_state_machine.cpp:205-214 | every disconnection in the log was written by a tick that came more than 2000 ms times the valid time after the latest accepted advertisement before it |
| DiscoveryDrain.EachBusyTickRemovesOne | controller/lib/src/adp_discovery_state_machine.cpp:197-217 | without advertisements exactly one entity leaves at each tick that finds an expired one, and none otherwise |
| DiscoveryDrain.DepartsWithin | controller/lib/src/adp_discovery_state_machine.cpp:205-214 | an entity that is expired at each of the next ticks is gone after one tick more than there are entities before it |
| DiscoveryDrain.ExpiredAreGone | controller/lib/src/adp_discovery_state_machine.cpp:205-214 | when k entities are expired and no other expires meanwhile, k ticks leave exactly the others, in order |
| DiscoveryDrain.DisconnectsWithin | controller/lib/src/controller_imp.cpp:214-225 | in every run: once the latest accepted advertisement of an entity has run out, as many ticks as there are entities before it, and one more, are enough for it to leave the table and its station to be disconnected |
| DescriptorStore.AddOrReplaceDescriptorAndSort | controller/lib/src/configuration_descriptor_imp.cpp:168-201 | find-then-replace, or push-then-sort, leaves the strictly increasing vector that `Put` describes |
| DescriptorStore.SortHasOneAnswer | controller/lib/src/configuration_descriptor_imp.cpp:189-199 | any sorted permutation of descriptors with distinct indices is the same vector, so the library's algorithm does not matter |
| DescriptorStore.PutUpdatesTheMap | controller/lib/src/configuration_descriptor_imp.cpp:168-201 | storing a descriptor is updating a map at its index |
| DescriptorStore.StoreRefinesAMap | controller/lib/src/configuration_descriptor_imp.cpp:168-201 | after any sequence of stores the vector is increasing and holds exactly the last value stored at each index |
| DescriptorStore.PositionIsIndexWhenDense | controller/lib/src/configuration_descriptor_imp.cpp:398-412 | every position holds its own index if and only if no index reaches the length of the vector |
| EntityModel.ChildrenAreReads | controller/lib/src/end_station_imp.cpp:547-657 | for every device and key the reads of a descriptor are exactly those of its children: of a type that it names a block of, with an index that lies in that block modulo 2^16, or counted from 0 by a configuration |
| EntityModel.ReadsAreNamed | controller/lib/src/end_station_imp.cpp:572-656 | the same of whatever descriptor a lookup finds: a read is for a type and index in a block that this descriptor names |
| EntityModel.ReadsInOrder | controller/lib/src/end_station_imp.cpp:659-668 | the reads of one type are queued in the order of the block, base + n modulo 2^16 for each n below the count, and the reads of different types do not mix |
| EntityModel.CountsInOrder | controller/lib/src/end_station_imp.cpp:571-580 | a configuration is read count by count, each from index 0 up |
| EndStation.EndStationImp.StoreDesc | controller/lib/src/configuration_descriptor_imp.cpp:203-307 | stream ports are pushed at the end of their vector, every other type replaces or is sorted in, and no other vector changes |
| EndStation.EndStationImp.ShouldStore | controller/lib/src/end_station_imp.cpp:233-256 | which responses are stored: one entity, its first configuration, and then everything else |
| EndStation.EndStationImp.KeepDescriptor | controller/lib/src/end_station_imp.cpp:262-356 | a further ENTITY, an unsupported type and a descriptor whose constructor throws change nothing |
| EndStation.EndStationImp.QueueBackgroundReadRequest | controller/lib/src/end_station_imp.cpp:659-668 | one request for each index of the block, modulo 2^16, at the end of the pending list |
| EndStation.EndStationImp.BackgroundReadDeduceNext | controller/lib/src/end_station_imp.cpp:547-657 | exactly the reads that follow from the descriptor found at the position looked up are queued, in order |
| EndStation.EndStationImp.BackgroundReadUpdateInflight | controller/lib/src/end_station_imp.cpp:404-427 | every inflight request for the descriptor in the frame is removed, and none for a type whose index is not known |
| EndStation.EndStationImp.EraseMatching | controller/lib/src/end_station_imp.cpp:412-426 | the loop that erases while it walks keeps exactly the other requests, in order |
| EndStation.EndStationImp.BackgroundReadUpdateTimeouts | controller/lib/src/end_station_imp.cpp:380-401 | every request whose timer has expired is given up, and the others stay as they were |
| EndStation.EndStationImp.EraseExpired | controller/lib/src/end_station_imp.cpp:385-400 | the loop that erases while it walks asks every timer once |
| EndStation.EndStationImp.BackgroundReadSubmitPending | controller/lib/src/end_station_imp.cpp:429-463 | with nothing inflight, the requests of one type at the front are sent with a 750 ms timer |
| EndStation.EndStationImp.ProcReadDescResp | controller/lib/src/end_station_imp.cpp:192-378 | the whole response: store, deduce, update, submit, and READ_COMPLETED when both lists are empty; a frame that does not parse changes nothing and returns -1 |
| EndStation.EndStationImp.BackgroundTick | controller/lib/src/controller_imp.cpp:227-232 | a tick gives up expired reads and submits the next batch |
| EnumerationRuns.SubmitMovesTheMaximalPrefix | controller/lib/src/end_station_imp.cpp:429-463 | a batch is the longest run of one type at the front of the pending list, and nothing else moves |
| EnumerationRuns.EveryRunConserves | controller/lib/src/end_station_imp.cpp:380-463 | in every run of arbitrary responses and ticks: requests are sent in the order queued, what was sent is inflight, answered, refused or given up, each exactly once; inflight requests have one type; and an empty inflight list means an empty pending list |
| EnumerationRuns.CompletionMeansSettled | controller/lib/src/end_station_imp.cpp:364-375 | READ_COMPLETED is posted by exactly the responses that leave nothing inflight once a configuration is stored, never by a tick, and then every request ever queued has been settled |
| EnumerationRuns.ResponseSettlesItsReads | controller/lib/src/end_station_imp.cpp:404-427 | a response takes every inflight copy of the read it answers off the wire, as answered if it is a success and as refused otherwise, and settles nothing else; for ENTITY the index is taken to be 0 |
| EnumerationRuns.NothingOfItIsStored | controller/lib/src/end_station_imp.cpp:233-356 | a response that does not parse, is no success or holds a malformed descriptor stores nothing, and the first of these changes nothing at all |
| StoredAnswers.EveryRunHoldsItsAnswers | controller/lib/src/end_station_imp.cpp:233-356 | in every run of arbitrary responses and ticks, from the events: the entity is the first ENTITY descriptor received, the configuration the first CONFIGURATION after it, and of the well-formed descriptors received after that every stream port is kept in order, and of each other type the last one of each index, sorted |
| ReadTimeouts.ReadsAreOfTheLastSend | controller/lib/src/end_station_imp.cpp:429-463 | in every run with a monotone clock all inflight reads were sent by the latest event that sent any, and their timers run since then for 750 ms |
| ReadTimeouts.TimesOutExactlyWhen | controller/lib/src/end_station_imp.cpp:380-401 | in every run with a monotone clock: an event gives up reads exactly if it is a tick that comes, modulo 2^32, more than 750 ms after they were sent; it then gives up all that are inflight; so none is given up within 750 ms, and all that are left at a tick between 750 ms and 2^32 ms are |
| DeviceRuns.DeducesChildren | controller/lib/src/end_station_imp.cpp:547-657 | when the position looked up holds the index meant, the reads deduced are the children of the descriptor in the device |
| DeviceRuns.DeducesSomeReads | controller/lib/src/end_station_imp.cpp:547-657 | whatever descriptor the position looked up holds, the reads deduced are those of some descriptor of that type in the device |
| DeviceRuns.ReplyEffect | controller/lib/src/end_station_imp.cpp:192-378 | a reply to any read that was ever sent, whether it is still inflight, was given up, or was answered before, and whatever descriptor its lookup finds: it settles the copies that are inflight, appends the reads deduced, stores the descriptor, and does nothing else |
| DeviceRuns.EveryRunIsFaithful | controller/lib/src/end_station_imp.cpp:233-356 | in every run of such replies and ticks everything stored is what the device holds under that key, only CONFIGURATION 0 is ever stored, nothing but CONFIGURATION 0 is read before it, and requests are conserved |
| DeviceRuns.DeviceRunsAreRuns | controller/lib/src/end_station_imp.cpp:192-378 | a run against a device, with the answer to the ENTITY read of the constructor before it, is one of the runs of arbitrary responses and ticks, so the results on those hold for it |
| EnumerationEnds.AnswerCoversReads | controller/lib/src/end_station_imp.cpp:547-657 | one answer, priced by its type, is worth itself, the reads it leads to, whichever descriptor of the type is found, and up to `copies` answers to each of those |
| EnumerationEnds.ReplyPays | controller/lib/src/end_station_imp.cpp:233-256 | a reply, timely, late or repeated, lowers what remains by its own price and the reads it settles, because a second CONFIGURATION leads nowhere |
| EnumerationEnds.TickPays | controller/lib/src/end_station_imp.cpp:380-401 | a tick lowers what remains by the reads it gives up |
| EnumerationEnds.RemainingCoversTheLists | controller/lib/src/end_station_imp.cpp:404-463 | if no read that was sent was answered more than `copies` times, what remains is at least the number of unsettled reads |
| EnumerationEnds.StepPays | controller/lib/src/end_station_imp.cpp:192-401 | at each event of a run what remains falls by the price of the answer and the reads settled, and a tick settles exactly the reads it gives up |
| EnumerationEnds.RemainingIsPaidFor | controller/lib/src/end_station_imp.cpp:192-401 | over a whole run what remains, what is settled and what was paid for answers never exceed the cost of ENTITY |
| EnumerationEnds.EnumerationTerminates | controller/lib/src/end_station_imp.cpp:192-463 | for any finite device and any order of replies, refusals and timeouts, late and repeated replies and lookups of the wrong descriptor included, what remains falls at every reply and for every settled read, never rises, and with what was spent never exceeds the cost of ENTITY |
| EnumerationEnds.ReadsAreBounded | controller/lib/src/end_station_imp.cpp:659-668 | if each read is answered at most `copies` times, the reads ever queued number at most the cost of ENTITY, and so do reads and answers together at the price of 1 for an answer |
| EnumerationClosure.EveryRunIsClosed | controller/lib/src/end_station_imp.cpp:547-668 | in every run in which each lookup so far found the descriptor meant, only reachable descriptors are queued or stored, and every child of a stored one is stored, outstanding, refused or given up |
| EnumerationClosure.MissingMeansLost | controller/lib/src/end_station_imp.cpp:547-668 | when nothing is outstanding, each path to a descriptor that is not stored passes a read that was refused or given up and not answered by another reply |
| EnumerationClosure.EnumerationIsReachability | controller/lib/src/end_station_imp.cpp:192-378 | if each lookup so far found the descriptor meant: when the lists are empty, the stored descriptors are exactly those reachable from ENTITY 0 through children by block and count if and only if every read that was refused or given up is stored by another reply, in particular when no read was lost; and they have the contents the device gave them |
| EnumerationClosure.CompletionIsPosted | controller/lib/src/end_station_imp.cpp:367-375 | each reply that leaves the lists empty posts READ_COMPLETED, and no other event does |
| EnumerationClosure.LaterAnswerCompletesAgain | controller/lib/src/end_station_imp.cpp:364-375 | a further answer that comes when nothing is left to read, and leads to no reads, posts READ_COMPLETED again |
| EnumerationClosure.OtherConfigurationEndsAtOnce | controller/lib/src/end_station_imp.cpp:358-363 | when the current configuration is not 0, READ_COMPLETED is posted right after CONFIGURATION 0 with nothing further read |
| LookupByPosition.AlignedExactlyWhen | controller/lib/src/configuration_descriptor_imp.cpp:398-412 | exactly when the lookup by position after a store finds the descriptor just stored, for audio units, locales and stream ports |
| LookupByPosition.PortLookupDefinedWhen | controller/lib/src/configuration_descriptor_imp.cpp:263-271 | a stream port's lookup stays within its vector if and only if no index below it was skipped |
| LookupByPosition.RepeatedPortShiftsTheNext | controller/lib/src/configuration_descriptor_imp.cpp:263-271 | in any run, after a second answer to a stream port the lookup for the port whose index is the next position finds the second copy, and the children of that one are read instead of its own |
| LookupByPosition.PortsCanBeRepeated | controller/lib/src/configuration_descriptor_imp.cpp:263-271 | such a run exists: one audio unit with two ports, the first of which answers twice, after which the second answers and its lookup finds the wrong port |
| DenseDevices.InOrderIsStraight | controller/lib/src/end_station_imp.cpp:572-656 | while the unanswered reads are lined up with the vectors, a reply to the oldest of them can be looked up and finds what it means |
| DenseDevices.DenseDevicesEnumerateInOrder | controller/lib/src/end_station_imp.cpp:547-668 | on a device that numbers its stream ports consecutively, in every run in which reply r is to the r-th read sent and succeeds, even after that read timed out, all lookups are right, and the stored descriptors are exactly the reachable ones when the lists are empty with no timeout and when every read, duplicates included, has been answered |
| MessageRings.MessageRing.Reserve | controller/lib/src/log.cpp:63-68 | the comparison of two indices modulo 2^32 decides exactly whether more than 32 messages wait; a message is counted as missed or given the next index |
| MessageRings.MessageRing.FillSlot | controller/lib/src/log.cpp:69-73 | writing a slot keeps the 32 newest messages in their slots |
| MessageRings.MessageRing.Post | controller/lib/src/log.cpp:63-75 | the three steps of a post together |
| MessageRings.MessageRing.BeginDispatch | controller/lib/src/linux/log_imp.cpp:70-82 | the start of a turn gives the callback the slot of message j, which holds message j or message j + 32, or ends the loop when nothing waits |
| MessageRings.MessageRing.EndDispatch | controller/lib/src/linux/log_imp.cpp:78-83 | when the callback returns its slot may hold message j + 32 by then, and only now the read index advances |
| MessageRings.MessageRing.DispatchOne | controller/lib/src/linux/log_imp.cpp:70-92 | a whole turn with no post in between |
| MessageRings.MessageRing.ShutDown | controller/lib/src/linux/log_imp.cpp:43-47 | a post to the semaphore without data |
| MessageRings.Log.PostLogMsg | controller/lib/src/log.cpp:56-77 | messages above the level are no attempts; every other is posted or counted as missed |
| MessageRings.Notification.PostNotificationMsg | controller/lib/src/notification.cpp:51-76 | on a full ring any message counts as missed; otherwise known types are posted and others dropped silently |
| MessageRings.StepKeepsOk | controller/lib/src/linux/log_imp.cpp:70-97 | each step of producer or dispatcher keeps the ring invariant |
| MessageRings.EveryRunIsOk | controller/lib/src/log.cpp:56-77 | in every interleaving of one producer at a time with the dispatcher, posts during a callback included: at most 33 messages wait, an attempt is missed exactly when more than 32 wait and is posted otherwise, and callback j sees message j unless message j + 32 overran it before or during the callback |
| MessageRings.FifoExactlyWhen | controller/lib/src/log.cpp:63-67 | callbacks see the messages first in, first out and unchanged if and only if every overrun message equals the one that replaced it |
| MessageRings.StepDisturbsExactlyWhen | controller/lib/src/log.cpp:69-73 | a step writes over a message that has not been delivered if and only if it fills a slot while 33 messages are between the indices |
| MessageRings.DisturbedExactlyWhen | controller/lib/src/log.cpp:63-73 | in every run, once everything posted was delivered, some callback ended on another message if and only if a slot was filled while 33 messages were between the indices; if that never happened, messages are seen first in, first out and unchanged |
| MessageRings.ThirtyThirdReplacesTheOldest | controller/lib/src/log.cpp:63-67 | with 32 messages waiting one more is accepted, and it is delivered in place of the oldest |
| MessageRings.ThirtyThirdChangesARunningCallback | controller/lib/src/linux/log_imp.cpp:76-83 | a post that comes while 32 messages wait and the oldest is in its callback is accepted and replaces the text under that callback |
| MessageRings.DispatcherOutlivesTheMessages | controller/lib/src/linux/log_imp.cpp:70-92 | the dispatcher ends only after the shutdown, with everything posted delivered |
| CliMatcher.CliArgument.SetValue | controller/app/cmdline/src/cli_argument.cpp:149-163 | a value is taken exactly when there is room and it is acceptable |
| CliMatcher.CliCommandFormat.RunCommand | controller/app/cmdline/src/cli_command_format.cpp:54-116 | the action runs exactly when greedy matching succeeds and an action is set; the arguments then hold the split found, and the action is told how many tokens there were |
| CliMatcher.CliCommandFormat.MatchOne | controller/app/cmdline/src/cli_command_format.cpp:62-91 | one turn of the first loop moves tokens or arguments on without changing what greedy matching finds |
| CliMatcher.CliCommandFormat.CheckLeftOver | controller/app/cmdline/src/cli_command_format.cpp:99-107 | the second loop succeeds exactly when the remaining arguments are satisfied |
| CliMatcher.CliCommandFormat.ClearArgs | controller/app/cmdline/src/cli_command_format.cpp:138-144 | no argument keeps a value from an earlier command |
| CliMatcher.GreedyFindsTheMaximalSplit | controller/app/cmdline/src/cli_command_format.cpp:54-116 | matching succeeds with a split if and only if the split concatenates to the tokens in order, every count lies within its limits, every token is acceptable, and every argument takes all it can |
| CliMatcher.GreedyIsCompleteWhenFixedButLast | controller/app/cmdline/src/cli_command_format.cpp:54-116 | if every argument but the last matches a fixed number of times, matching succeeds exactly when any split exists |
| CliMatcher.GreedyIsCompleteExactlyWhen | controller/app/cmdline/src/cli_command_format.cpp:54-116 | for arguments declared with given limits, matching finds a split of all tokens that can be split, whatever the arguments accept, if and only if no argument that can match more than its minimum is followed by one that has to match |
| CliMatcher.GreedyCanMissASplit | controller/app/cmdline/src/cli_command_format.cpp:54-116 | otherwise an optional argument can take the only token of a required one |
| Eui48.ConvertUint64ToEui48 | controller/lib/src/util_imp.cpp:486-492 | the six bytes stand for the integer modulo 2^48 |
| Eui48.ConvertEui48ToUint64 | controller/lib/src/util_imp.cpp:494-502 | the or of the shifted bytes is the number they stand for |
| Eui48.OrOfDisjointBitsAdds | controller/lib/src/util_imp.cpp:500 | or of a multiple of a power of two and a smaller number is their sum |
| Eui48.OrHasTheBitsOfBoth | controller/lib/src/util_imp.cpp:500 | the or of two numbers has exactly the bits of either |
| Eui48.SixBytes | controller/lib/src/util_imp.cpp:486-502 | the number that six bytes stand for, in network order |
| Eui48.RoundTrips | controller/lib/src/util_imp.cpp:486-502 | integer to bytes to integer is the value modulo 2^48, and bytes to integer to bytes is the identity |

## Left out

- Frame construction and decoding: jdksavdecc-c is not part of this model; frames are parsed records, and fields that the machines only pass on are one `body`.
- Sockets, threads and operating system clocks: sends are outputs, the semaphore is a counter, and time is a parameter. A failing `send_frame` (an assertion in the source) is not modelled.
- The Windows clock, which masks its tick count differently; `Timers` is the Linux and OS X clock.
- Concurrent producers on a ring: the capacity check and the increment are not atomic, so posts are serialized, with dispatcher steps allowed between their three parts.
- Message texts: formatting and truncation of a log message, and the log lines that the state machines write.
- `end_station_reenumerate`: recorded as an output of discovery only; its clearing of the entity vector, which leaves the read lists as they are, is not part of the enumeration runs.
- Lookups that the source dereferences without a check: `BackgroundReadDeduceNext` and `ProcReadDescResp` require them to be within the vector, since the source's behaviour is otherwise undefined; `LookupByPosition.AlignedExactlyWhen` and `LookupByPosition.PortLookupDefinedWhen` say when they are.
- EnumerationClosure.EnumerationIsReachability: assumes the current configuration is 0 and lists only types that are stored; for any other current configuration `OtherConfigurationEndsAtOnce` gives the result, and reads of other types leave the list only by timing out. It also assumes that each lookup so far found the descriptor it means, and so does `EveryRunIsClosed`; `AlignedExactlyWhen` is the exact condition on a lookup, and `RepeatedPortShiftsTheNext` shows what happens otherwise.
- DenseDevices.DenseDevicesEnumerateInOrder: assumes each read is answered once and in the order of the reads; for other orders the exact condition on each lookup is `AlignedExactlyWhen`.
- EnumerationEnds.ReadsAreBounded: assumes a bound on the answers to each read, since a device that answers an audio unit without end is read without end.
- Answers to reads that the end station did not send, such as READ_DESCRIPTOR commands of the application, are not part of the device runs; `EnumerationRuns.EveryRunConserves` covers them.
- Log text that is overwritten while a callback reads it: the model says what the slot holds when the callback begins and when it returns, not what mixture is read in between.
- Object identity: entries of the inflight vectors, the station table and the read lists are values in a sequence that the methods reassign, so sharing of an entry between two holders is not captured.
- `std::sort` and `std::find_if`: `StdSort` stands in for the first, by its contract alone; `FindSeqId` for the second.
- History: send numbers, transmission times, the orders submitted, the logs and the lists of settled reads are recorded beside the source's fields and are read by no branch.
- CliMatcher.CliCommandFormat.RunCommand: like `MatchOne` and `CheckLeftOver`, requires different argument objects with min at most max and limits that survive being stored in an `int`; the source moves on at the maximum without looking at the minimum, and compares after that conversion. What makes a token acceptable is a parameter.
- The command tree above `run_command`, help texts and completion.
- Departing entities, which the source does not act on, and the ADP message type, which it ignores for a nonzero id.
- The operation table, `cmd_wait_mgr`, the value and name tables, and the descriptor accessor classes: nothing deep holds of them.
