# Verification of the concurrent and networked programs in this repository

This Dafny project models four programs of the repository and proves what they guarantee, and
where they do not.

**The bounded-buffer monitor** (`Assignment_2/f22/main.cpp`) is an interleaving transition system: one
producer, any number of consumers, one mutex, two condition variables and two plain flags, with a
program counter for each thread. Every access to shared data is one sequentially consistent step, so
the test of `done` and the wait after it are different steps. Condition variables follow POSIX.1-2017,
System Interfaces (`pthread_cond_wait`, `pthread_cond_signal`, `pthread_cond_broadcast`), with spurious
wake-ups and barging. The initial state is before line 62, so consumers that test `in_progress` too
early are part of the model.

**The SDN controller and switches** (`test2/`) are a message-passing transition system with any number
of switches, one controller and FIFO channels. The handlers are functions on switch and controller
states; the classes `SwitchLoop` and `ControllerLoop` run the same handlers on mutable variables, with the
loops and early exits of the source. Packets are read as text: the controller and each switch go round
their descriptors in passes, the buffer is cleared once in a pass and not between its reads
(`test2/controller.cpp:213-222`, `test2/switch.cpp:449-457`), and a packet is handled as what the buffer is
parsed to. `Reader` in `Network` is that buffer with the descriptors the pass has still to read, and the
class `Receiver` in `PacketReader` is the buffer as an array. A switch sends its OPEN before it makes and opens
the FIFOs of its two ports (`test2/switch.cpp:293-320`), and these are separate steps: until then a neighbour
that opens such a FIFO to forward a packet exits.

**The transaction server and its clients** (`Assignment_3/`) are a transition system with any number of
clients. The receive buffer is modelled byte for byte, because it is not cleared before a request is read.

**The process-tree walk** (`Assignment_1/msh379.cpp`) and **the simulated work** (`Assignment_3/tands.c`) are
imperative methods with their specifications.

| files | what is in them |
|---|---|
| BoundedBuffer, BoundedBufferSafety, BoundedBufferProgress, BoundedBufferLimits, BoundedBufferProgram | steps; what every step keeps; bounds and stopping places; what is not guaranteed; the mutable program |
| CStrings, Sets | C strings in fixed buffers; sizes of sets |
| Decimal, Packets, TrafficLine | printing and parsing of integers, packets and traffic lines |
| PacketReader | reading packets into a buffer that still holds an earlier one |
| Switch, SwitchProcess, Controller | the handlers of `switchLoop` and `controllerLoop` |
| Network | the network, and what every step keeps whatever is misread |
| NetworkInvariant | what every step keeps as long as the controller misreads nothing |
| NetworkResults, NetworkCounters, NetworkHits, NetworkOrigins, NetworkChain | the results about all reachable states |
| NetworkRuns, NetworkLimits, NetworkLost, NetworkRoutes, NetworkMisread | runs; exactly which networks go wrong, and how; lost RELAYs; where a RELAY goes in a chain; misread packets |
| TransactionServer, TransactionSystem, TransactionSent | the server; the server with its clients; what the clients send |
| ProcessTree, Tands | the descendant walk; `Trans` and `Sleep` |

Findings that are stated as exact conditions, because the unconditional property is false of the code:

- If every consumer tests `in_progress` before the producer has set it, the threads can end with the producer
  waiting for ever, exactly when there are more work lines than the buffer holds (`AbandonedExactly`). The process
  does not hang then: `main` joins only the consumers, because the handle of the producer is overwritten
  (`Assignment_2/f22/main.cpp:247-255`), so it ends with the work lost. With one consumer or more and line 62
  first, this cannot happen (`DeadlockFreeWhenStarted`).
- All threads can return with work still queued exactly when there is a consumer and there is work
  (`UndrainedExactly`). A consumer that leaves at line 159 shows that everything was taken (`DrainedExit`).
- A packet is read as it was sent exactly when it has no fields, or no digit is left in the buffer behind it,
  or its last field is 0 and the digits behind it are all 0 (`UnderstoodExactly`). Otherwise its last field is
  another number (`ReadBehind`). With one readable connection in each pass of the controller it misreads nothing,
  whatever the switches do (`OneConnectionPerPass`). For disjoint ranges a packet can be misread exactly when there
  are two switches or more (`MisreadExactly`); `MisreadStalls` is a run in which a query is misread, dropped as
  invalid, and its switch waits for ever.
- Whatever is misread, a control connection carries at most one message, of the expected type
  (`ControlChannel`); it carries one exactly while the switch waits, unless the controller dropped the switch's
  query as invalid, and if it did, then exactly not (`AlternationExactly`). The counters of each switch add up
  (`PacketAccounting`), RELAYs are conserved (`RelaysConserved`), and the counters of both sides agree, with each
  QUERY answered by an ADD but for those dropped (`ControllerCountersAgree`).
- The other results about the network hold up to the first packet that the controller misreads
  (`CleanlyReachable`). What switches misread does not matter to them: an ADD or a RELAY is still of its type, and
  only its last field, the source or the destination of a RELAY, can be another.
- A cached DROP is stale exactly when its address has been registered since (`HitAgrees`); this cannot happen
  when all OPENs are handled before the first QUERY (`CoherentCache`), and for disjoint ranges it can happen
  exactly when there are two switches or more (`StaleDropExactly`).
- The controller picks the relay port by comparing a switch's id with a connection slot. For switches in a row,
  every ADD points to the owner exactly when each switch is on the slot of its own number
  (`AnswersPointExactly`), and then and only then is it sure that no switch exits on a null port and every rule
  points to the owner (`RulesPointExactly`).
- A switch can be sent to a null port, and exit, exactly when the comparison names a null port for some pair
  (`NullExitsExactly`); in a row, exactly when switch 1 is not on slot 1 or switch n is below slot n - 1
  (`RowNullExitsExactly`). It can exit because its neighbour is registered but has not opened the FIFO yet
  exactly when a port to another switch is named for some pair (`ReaderExitsExactly`); in a row, even in order,
  exactly when there are two switches or more (`RowReaderExitsExactly`). In a chain on its own slots in which
  all switches have set up their ports before the first QUERY is handled, no switch ever exits (`NobodyExits`).
- Where no port leads back to its own switch, and while no RELAY is misread, a RELAY can be written to
  descriptor 0 exactly when a port named to some switch leads to another one that passes on what comes from
  there (`LostExactly`); in a chain, and whatever the switches misread, exactly when there are three switches or
  more (`ChainLostExactly`).
- While nothing is misread, every RELAY carries the source of an admitted packet, and that packet's destination
  or the low end of the range it lies in (`RelayOrigin`); but in a chain it gets to its owner only if the owner is a
  neighbour of the switch that admitted it, or lies to the left and is not switch 1 (`TripExactly`, `RelayHop`,
  `FromTheLeft`). Otherwise switch 2 drops it, or switches 1 and 2 send it back and forth without end, which can
  happen exactly when there are three switches or more (`BouncesExactly`).
- The packet counters stay balanced after an ADD exactly when it carries a known action and does not forward to
  port 3 (`AddAccounted`).
- The server works on the command that was sent exactly when the request is at least as long as the reply
  sent before it (`CommandRecovered`); ten characters are always enough (`TenCharactersSuffice`).
- The recursion of `get_c_processes` ends exactly when no process below the target is its own descendant
  (`EndsExactly`).

Where comments and code disagree the model follows the code: the comment of `Sleep` speaks of hundreds of
nanoseconds (`Assignment_3/tands.c:30`), while the code waits hundredths of a second; and the traffic parser
accepts an address whose value is in range only after narrowing to 32 bits (`test2/switch.cpp:195`).

## Model

| member | source | states |
|---|---|---|
| BoundedBufferSafety.NoLostWakeup | Assignment_2/f22/main.cpp:82-174 | in every reachable state, while a consumer is blocked the queue is no longer than the number of consumers that were signalled and have yet to resume, plus one for a thread that holds the mutex and owes a signal or a pop; consumers that woke spuriously do not count; with the mutex free there is no such thread; a blocked producer faces a full queue unless its signal is due |
| BoundedBufferSafety.ExactlyOnce | Assignment_2/f22/main.cpp:85-171 | commands taken, in order, followed by the queue are the commands pushed, which are a prefix of the work lines and all of them once input has ended; the queue never exceeds its bound; each command has one consumer and each consumer's counter matches what it took |
| BoundedBufferSafety.DrainedExit | Assignment_2/f22/main.cpp:154-160 | once a consumer has left through the `done` branch, in every later state the queue is empty and all work lines have been taken in order |
| BoundedBufferSafety.RunKeepsInv | Assignment_2/f22/main.cpp:60-206 | the whole invariant is kept by every run from any state that has it |
| BoundedBufferSafety.ProducerStepKeepsControl | Assignment_2/f22/main.cpp:60-127 | each producer step keeps mutual exclusion, the buffer bounds at each program point and the meaning of the flags |
| BoundedBufferSafety.ConsumerStepKeepsMutex | Assignment_2/f22/main.cpp:138-203 | each consumer step keeps the mutex with exactly the thread between its lock and its unlock |
| BoundedBufferSafety.ConsumerStepKeepsBuffer | Assignment_2/f22/main.cpp:154-171 | a consumer that examined the buffer can rely on the outcome until it releases the mutex |
| BoundedBufferSafety.ConsumerStepKeepsFlags | Assignment_2/f22/main.cpp:138-163 | after the broadcast no consumer is blocked or about to block, and each way of leaving implies what the flags were |
| BoundedBufferSafety.ProducerStepKeepsWake | Assignment_2/f22/main.cpp:85-96 | pushing, signalling and broadcasting lose no wake-up |
| BoundedBufferSafety.ConsumerStepKeepsWake | Assignment_2/f22/main.cpp:154-174 | testing, waiting, popping and signalling lose no wake-up |
| BoundedBufferProgress.StuckExactly | Assignment_2/f22/main.cpp:60-206 | a reachable state has no step left but spurious wake-ups if and only if all threads have returned, or the buffer is full, the producer waits and every consumer left before line 62 |
| BoundedBufferProgress.DeadlockFreeWhenStarted | Assignment_2/f22/main.cpp:62-138 | with at least one consumer and line 62 executed first, a run can only stop with every thread returned |
| BoundedBufferProgress.EveryRunIsBounded | Assignment_2/f22/main.cpp:60-206 | under any scheduler a run has at most (17 + 4n) * lines + 9n + 7 steps, plus five for each spurious wake-up |
| BoundedBufferProgress.RunDescends | Assignment_2/f22/main.cpp:60-206 | a weighted measure of unread lines, queue and thread positions pays for every step that is not a spurious wake-up |
| BoundedBufferProgress.ShutdownHandOff | Assignment_2/f22/main.cpp:118-163 | although `done` is set outside the mutex, after the broadcast no thread is or becomes blocked, and the rest of the run is bounded by the queue and the number of consumers and ends only with all threads returned |
| BoundedBufferLimits.AbandonedExactly | Assignment_2/f22/main.cpp:62-138 | the state in which every consumer left early and the producer waits for ever at a full buffer is reachable if and only if the script has more than 2n work lines |
| BoundedBufferLimits.UndrainedExactly | Assignment_2/f22/main.cpp:125-138 | a finished state with queued work is reachable if and only if there is a consumer and a work line |
| BoundedBufferProgram.Program.constructor | Assignment_2/f22/main.cpp:22-55 | the globals start as the initial state of the model |
| BoundedBufferProgram.Program.StepProducer | Assignment_2/f22/main.cpp:60-127 | the statements of `producer` change the globals as the producer's step says |
| BoundedBufferProgram.Program.StepConsumer | Assignment_2/f22/main.cpp:132-206 | the statements of `consume` change the globals as the consumer's step says |
| BoundedBufferProgram.Program.Step | Assignment_2/f22/main.cpp:60-206 | whichever thread the scheduler picks, the invariant is kept |
| Decimal.ReadIntOfToString | test2/util.cpp:24 | stream extraction after `to_string` gives the number back and stops at the first character that is no digit |
| Decimal.WidenSame | test2/util.cpp:24 | a number whose decimal form runs on into other digits stays the same exactly when there are none, or it is 0 and they are all 0 |
| Decimal.ToStringInjective | test2/switch.cpp:77-78 | different numbers print differently |
| Packets.ParsePacketMessage | test2/util.cpp:18-30 | the extraction loop ends on every string and collects the integers the grammar of the message gives |
| Packets.ParsePacketString | test2/util.cpp:42-49 | a packet string is split at its first colon; without one the whole string is type and message |
| Packets.SplitAtColon | test2/util.cpp:42-46 | for a name without a colon, whatever the message, the string is split at the first colon |
| Packets.WithoutColon | test2/util.cpp:42-46 | a string without a colon is both type and message |
| Packets.TextRoundTrip | test2/util.cpp:18-49 | for every type without a colon and every list of 32-bit integers, parsing what is printed gives both back |
| Packets.ReadBehind | test2/controller.cpp:219-232 | whatever text is behind a packet in the buffer, its type and all fields but the last are read as sent; the last runs on into the digits that follow, and when it is then no int the message is one field short |
| Packets.RecoversExactly | test2/switch.cpp:455-473 | a packet with text behind it is read as itself if and only if it has no fields, no digit follows, or its last field is 0 and the digits are all 0 |
| Packets.RoundTrip | test2/switch.cpp:76-126 | every OPEN, ACK, QUERY, ADD and RELAY, read from a cleared buffer, is the packet that was sent |
| Packets.PrintInjective | test2/controller.cpp:60-95 | no two packets have the same text |
| Packets.FitsBuffer | test2/switch.cpp:457 | the text of a packet fits the receiver's buffer with room for the NUL, so one read can take it whole |
| CStrings.StaleTail | Assignment_3/server.cpp:175-208 | a message read over an older text is followed by whatever part of that text it does not cover, and nothing else is in the buffer |
| PacketReader.UnderstoodExactly | test2/switch.cpp:455-473 | a read that takes one packet or several is understood as the first one if and only if nothing runs into its last field |
| PacketReader.UnderstoodKind | test2/controller.cpp:219-232 | however much is left in the buffer, a read is understood as a packet of the type sent, with at most the last field changed |
| PacketReader.MergedIsClean | test2/switch.cpp:457-473 | of packets read together the first comes through, whatever was left before |
| PacketReader.FirstIsClean | test2/switch.cpp:449-473 | the first read after the buffer is cleared comes through |
| PacketReader.Receiver.Clear | test2/switch.cpp:449 | afterwards the buffer holds the empty string |
| PacketReader.Receiver.ReadPackets | test2/switch.cpp:457-473 | the array then holds the text read and the uncovered end of the old one, and the parse of it is what the model takes the read for |
| TrafficLine.ParseTrafficFileLine | test2/switch.cpp:163-216 | the kind of a line and the numbers pushed for it are those of the line's parse, which the round trips below determine |
| TrafficLine.LinesAreValid | test2/switch.cpp:195-211 | a line let through as a packet has both addresses within 0..MAX_IP and a valid switch |
| TrafficLine.SwitchId | test2/util.cpp:56-68 | a switch id is -1 or 1..7 |
| TrafficLine.LineRoundTrip | test2/switch.cpp:163-216 | a line written with any two integers is read back as a packet for its switch with those addresses, in this order, if and only if both are taken for numbers in 0..MAX_IP, that is, fit 64 bits and are in range in their low 32; otherwise it is an error |
| TrafficLine.DelayRoundTrip | test2/switch.cpp:180-191 | a delay line written with any integer is read back as its switch and that time, in this order, if and only if the integer fits 64 bits and is not negative in its low 32; otherwise it is an error |
| TrafficLine.CommentsAreSkipped | test2/switch.cpp:174-177 | a line that begins with # is a comment whatever follows, and an empty one is empty |
| TrafficLine.UnknownSwitchStops | test2/util.cpp:56-68 | a line for a switch other than null and 1..7 ends the process |
| Switch.FirstMatch | test2/switch.cpp:360-388 | the index found matches and none before it does |
| Switch.OnlyMatch | test2/switch.cpp:360-388 | with disjoint rules the first match is the only one |
| Switch.AdmitAccounted | test2/switch.cpp:356-394 | admitting a packet keeps the books: rules' counters plus a waiting packet equal admitted packets, queries equal adds plus the one waiting, the table has one rule per add and one more, RELAYs sent equal remote rules' counters plus those passed on |
| Switch.AddAccounted | test2/switch.cpp:482-512 | handling an ADD keeps the books if and only if the action is known and it does not forward to port 3 |
| Switch.RelayAccounted | test2/switch.cpp:513-528 | handling a RELAY keeps the books |
| Switch.RelayLeavesBy | test2/switch.cpp:513-528 | a RELAY for another switch leaves by port 1 when the switch's id is above the port it came in on, by port 2 when below, to descriptor 0 where that port is not open, and not at all when they are equal |
| SwitchProcess.SwitchLoop.constructor | test2/switch.cpp:245-326 | the variables start with the rule for the switch's own range and balanced books |
| SwitchProcess.SwitchLoop.TransmitOpen | test2/switch.cpp:292-294 | OPEN announces the id, the ports and the range; the books stay balanced |
| SwitchProcess.SwitchLoop.CreateFifo | test2/switch.cpp:302-320 | the FIFO of each port that is not null is made and opened, one port after the other, and nothing else changes |
| SwitchProcess.SwitchLoop.AdmitPacket | test2/switch.cpp:355-395 | the table scan in place acts as the handler on the first match, or queries |
| SwitchProcess.SwitchLoop.HandlePacketLine | test2/switch.cpp:336-395 | a line for another switch changes nothing, one for this switch is admitted, and the books stay balanced |
| SwitchProcess.SwitchLoop.SendRelay | test2/switch.cpp:367-382 | a FIFO is opened on first use; towards a null port, and towards a neighbour that has not opened its end, the process exits |
| SwitchProcess.SwitchLoop.ReceiveAck | test2/switch.cpp:479-481 | an ACK is counted and remembered; the books stay balanced |
| SwitchProcess.SwitchLoop.ReceiveAdd | test2/switch.cpp:482-512 | an ADD installs a rule and relays the waiting packet with the source from the ADD and the low end of its range (`ToldIs`, `RelayOrigin`), or is ignored, as the handler says; the books stay balanced if and only if the action is known and the port is not 3 |
| SwitchProcess.SwitchLoop.ReceiveRelay | test2/switch.cpp:513-528 | a RELAY for another switch is written, unchanged, to port 1 when the id is above the port it came in on and to port 2 when below, or to descriptor 0 where that port is not open; one for this switch, or with id and port equal, is not passed on |
| SwitchProcess.SwitchLoop.ReceivePacket | test2/switch.cpp:479-532 | a packet from any descriptor is handled by its type, as the steps of the network say; the books stay balanced, after an ADD if and only if its action is known and its port is not 3 |
| Controller.FirstOwner | test2/controller.cpp:265-287 | the entry found owns the address and none before it does |
| Controller.AnswerCovers | test2/controller.cpp:248-297 | the ADD for a query with valid addresses covers the address asked for |
| Controller.DecisionStays | test2/controller.cpp:240-287 | registering another switch leaves every forwarding decision as it was |
| Controller.ControllerLoop.ReceiveOpen | test2/controller.cpp:238-247 | an OPEN is registered and acknowledged as the handler says |
| Controller.ControllerLoop.ReceiveQuery | test2/controller.cpp:248-297 | the scan with its early exit answers as the handler says, and not at all for an invalid address |
| Network.StepSound | test2/switch.cpp:330-534 | whatever packets are taken for, every step keeps: at most one message on a control connection and of the expected type, one ACK counted once it has come, rules of lowest priority for every source that only deliver, drop or forward out of ports 1 and 2, and balanced books |
| Network.HistoryIs | test2/controller.cpp:219-232 | a packet is misread, by the controller or by a switch, only by a read that the exact condition fails for, and past the end of a message only by a read that leaves too few integers |
| NetworkInvariant.StepKeepsInv | test2/switch.cpp:330-534 | every step in which the controller misreads nothing, whatever switches misread, keeps the invariant on registrations, messages in flight, tables and queries |
| NetworkInvariant.QueryAnswered | test2/controller.cpp:263-295 | for a query that came through, the owner the controller finds is never the switch that asked, and the answer is right and covers the address |
| NetworkInvariant.AddKeepsNode | test2/switch.cpp:482-512 | after the ADD that answers it the queried address is covered, so it is never queried again |
| NetworkResults.ControlChannel | test2/switch.cpp:293-483 | in every reachable state, whatever was misread, at most one message is in flight on a control connection over both directions, and it is of the type the reader expects |
| NetworkResults.AlternationExactly | test2/controller.cpp:251-261 | whatever was misread, for a running switch it holds that a message is in flight exactly when the switch has started and waits for something, if and only if the controller has not dropped a QUERY of its slot as invalid |
| NetworkResults.Alternation | test2/switch.cpp:293-483 | while the controller misread nothing it has dropped no QUERY, and a message is in flight exactly when the switch has started and waits for something |
| NetworkResults.PacketAccounting | test2/switch.cpp:356-526 | in every reachable state, whatever was misread, the counters of a running switch add up |
| NetworkResults.QueriesBounded | test2/switch.cpp:359-512 | while the controller misread nothing, no destination is queried twice or from the switch's own range, so queries are at most the foreign addresses and the table has at most one rule more |
| NetworkResults.HitAgrees | test2/controller.cpp:263-295 | while the controller misread nothing, a hit on a foreign address does what the controller would decide now if and only if it is not a DROP for an address registered since |
| NetworkResults.CoherentCache | test2/switch.cpp:360-388 | with all OPENs before the first QUERY, while the controller misread nothing, every matching rule is the only one and agrees with the controller |
| NetworkResults.ReachableApart | test2/switch.cpp:511 | under the same conditions the rules of every running switch are pairwise disjoint |
| NetworkResults.RelaysConserved | test2/switch.cpp:367-526 | in any network, whatever was misread, the RELAYs counted out are those counted in, those in flight, those written to descriptor 0 and those read together with an earlier one |
| NetworkCounters.ControllerCountersAgree | test2/controller.cpp:238-297 | in any network, whatever was misread, the OPENs and QUERYs counted by the switches are those counted by the controller and those in flight, with one ACK for each OPEN, and the QUERYs are the ADDs and one for each slot whose QUERY was dropped; none is dropped while the controller misread nothing |
| NetworkHits.RuleCountsExact | test2/switch.cpp:360-388 | while the controller misread nothing, the counter of each rule is the number of admitted packets that the rule is the first to match, the one included that waited for it |
| NetworkOrigins.QueryAsks | test2/controller.cpp:248-297 | while the controller misread nothing, a switch that waits for an ADD waits with the packet it admitted last: its QUERY carries both addresses of that packet, and the ADD its source and a range that covers its destination |
| NetworkOrigins.RelayOrigin | test2/switch.cpp:482-528 | in any network, while nothing is misread, every RELAY in flight has the source of a packet that some switch admitted for an address of another, and that packet's destination or the low end of the range it lies in |
| NetworkOrigins.FromTheLeft | test2/switch.cpp:513-528 | in a chain, while nothing is misread, a RELAY that comes to its owner from the left was admitted by the owner's left neighbour |
| NetworkChain.ReachableExits | test2/switch.cpp:131-155 | while the controller misread nothing, a switch that has exited was named a null port, or a port to another switch, by the comparison of ids with slots |
| NetworkChain.DirectionCorrect | test2/controller.cpp:269-283 | in a chain on its own slots, while the controller misread nothing, no switch exits on a null port, and every forwarding rule of a running switch and every ADD on its way names an existing port on the side of the owner |
| NetworkChain.NobodyExits | test2/switch.cpp:293-320 | in such a chain, if every switch has set up its ports before the first QUERY is handled, no switch exits at all |
| NetworkChain.TwoSwitchDelivery | test2/switch.cpp:489-528 | between two switches, while the controller misread nothing, every RELAY in flight is for the receiver, none is passed on, and RELAYs out equal RELAYs in plus those in flight plus those read together with an earlier one |
| NetworkLimits.NullExitsExactly | test2/controller.cpp:269-276 | for disjoint ranges, a state in which a switch has exited on a null port is reachable if and only if the comparison of ids with slots names a null port for some pair of switches |
| NetworkLimits.RowNullExitsExactly | test2/controller.cpp:269-276 | for switches in a row on any slots, a switch can exit on a null port if and only if switch 1 is not on slot 1 or switch n is below slot n - 1 |
| NetworkLimits.ReaderExitsExactly | test2/switch.cpp:293-320 | for disjoint ranges, a state in which a switch has exited on a FIFO that its neighbour has not opened is reachable if and only if the comparison names, for some pair of switches, a port to a switch other than itself |
| NetworkLimits.RowReaderExitsExactly | test2/switch.cpp:131-155 | for switches in a row on any slots, such an exit is reachable if and only if there are two switches or more |
| NetworkLimits.AnswersPointExactly | test2/controller.cpp:269-283 | for switches in a row on any slots, every ADD ever sent names the port on the owner's side if and only if each switch is on the slot of its own number |
| NetworkLimits.RulesPointExactly | test2/switch.cpp:482-511 | for switches in a row on any slots, it is always so that no switch has exited on a null port and every rule of a running one points to the owner if and only if each switch is on the slot of its own number; and so it is for runs in which the ports are set up before the first QUERY is handled, with no exit at all |
| NetworkLimits.StaleDropExactly | test2/controller.cpp:289-295 | for disjoint ranges, a DROP cached for an address whose owner has registered since is reachable if and only if there are two switches or more |
| NetworkLost.LostExactly | test2/switch.cpp:519-526 | for disjoint ranges and ports that lead to other switches, and while no RELAY is misread, a RELAY written to descriptor 0 is reachable if and only if a port named to one switch leads to another that owns other addresses and whose id is not the number of its port |
| NetworkLost.ChainLostExactly | test2/switch.cpp:519-526 | in a chain, whatever the switches misread, a RELAY written to descriptor 0 is reachable if and only if there are three switches or more |
| NetworkLimits.ToldIs | test2/switch.cpp:482-512 | a switch that asked about any packet and is told to forward a range sends that packet's source and the low end of the range out of the port it is told, or exits for want of a FIFO |
| NetworkRoutes.RelayHop | test2/switch.cpp:513-528 | in every reachable state of a chain, a RELAY for another switch is sent by switch 1 back to switch 2, by switch 2 on to switch 1 if it came from there and nowhere if from switch 3, and by switch k > 2 to switch k - 1, if that FIFO is open, and is written to descriptor 0 if not |
| NetworkRoutes.TripExactly | test2/switch.cpp:513-528 | hop by hop through open FIFOs, a packet of switch a gets to its owner if and only if the owner is a neighbour or one of 2..a-1, is dropped if and only if a > 1 and the owner is beyond its right neighbour or is switch 1 and no neighbour, and is under way for ever if and only if a is 1 and the owner is beyond switch 2 |
| NetworkRoutes.BouncesExactly | test2/switch.cpp:513-528 | in a chain, switches that have admitted one packet each, at most, can have passed on any number of RELAYs if and only if there are three switches or more |
| NetworkMisread.BuffersHold | test2/switch.cpp:449-457 | whatever piles up in a buffer during a pass is a C string shorter than the buffer |
| NetworkMisread.OneConnectionPerPass | test2/controller.cpp:213-222 | in every run in which the controller's passes find at most one connection ready it misreads nothing, whatever the switches' passes find |
| NetworkMisread.OneReadPerPass | test2/switch.cpp:449-457 | in every run whose passes, of controller and switches, find at most one descriptor ready, every packet comes through |
| NetworkMisread.StalledForever | test2/controller.cpp:257-261 | a switch whose QUERY was dropped waits in every later state and admits no other packet |
| NetworkMisread.MisreadStalls | test2/controller.cpp:219-261 | two switches on their own slots with disjoint ranges: a query read after a longer one in the same pass is taken for an invalid address and dropped, and its switch waits for ever |
| NetworkMisread.MisreadExactly | test2/controller.cpp:213-232 | for disjoint ranges, a packet can be misread, and one can be misread by the controller, if and only if there are two switches or more |
| TransactionServer.SplitRequest | Assignment_3/server.cpp:195-197 | splitting at the first comma recovers a name without commas and the command |
| TransactionServer.SumAfterCount | Assignment_3/server.cpp:198 | counting one transaction raises the sum of the tally by one |
| TransactionServer.RequestCounted | Assignment_3/server.cpp:183-208 | every request is counted in all and for its name alone and takes the next number, and it is answered, with that number, if and only if its command begins with T |
| TransactionServer.Server.constructor | Assignment_3/server.cpp:19-63 | the server starts with thirty free slots and nothing counted |
| TransactionServer.Server.BuildSelectSet | Assignment_3/server.cpp:109-129 | the select set is the master and the positive slots, and `max_sd` is its maximum |
| TransactionServer.Server.Accept | Assignment_3/server.cpp:151-161 | a descriptor goes to the first free slot; with none the slots do not change |
| TransactionServer.Server.Hangup | Assignment_3/server.cpp:175-182 | a closed connection frees its slot and no other |
| TransactionServer.Server.HandleRequest | Assignment_3/server.cpp:183-220 | a request is counted, tallied under its name and answered with its number if its command starts with T |
| TransactionSystem.StepKeeps | Assignment_3/server.cpp:107-224 | every step of server and clients keeps the invariant on clients, log and slots |
| TransactionSystem.ServedIs | Assignment_3/server.cpp:183-220 | whatever the buffer held, a request is attributed to its sender and answered with the next number |
| TransactionSystem.Numbering | Assignment_3/server.cpp:185-198 | numbers are 1, 2, 3, ... in the order of service; the tally sums to the counter and each entry counts its client's transactions |
| TransactionSystem.ClientView | Assignment_3/client.cpp:54-91 | a client receives its numbers, strictly increasing; when it is done its tally equals the total it counted |
| TransactionSent.SentExactly | Assignment_3/client.cpp:54-91 | in every reachable state, a client's lines in the log, in order, followed by the line of its request on the way, are the lines beginning with T among those it has read, and read plus unread lines are its input; when it has closed they are all T lines of its input, and its total is their number |
| TransactionSystem.StopAndWait | Assignment_3/client.cpp:55-81 | a connection carries one request or one reply exactly while its client waits |
| TransactionSystem.CommandRecovered | Assignment_3/server.cpp:193-208 | the server works on the command sent if and only if the request is at least as long as the previous reply |
| TransactionSystem.TenCharactersSuffice | Assignment_3/server.cpp:207-208 | a reply has at most ten characters |
| TransactionSystem.SlotsAreConnections | Assignment_3/server.cpp:110-182 | nonzero slots are distinct and are exactly the connections held; the select set is those and the master |
| TransactionSystem.DroppedExactly | Assignment_3/server.cpp:151-161 | a new connection gets no slot if and only if thirty are held |
| TransactionSystem.ClientLoop.NextLine | Assignment_3/client.cpp:54-64 | a T line is counted and sent whole under the client's name, and the client then waits |
| TransactionSystem.ClientLoop.ReceiveReply | Assignment_3/client.cpp:71-81 | the reply is read as its number and the client goes on |
| ProcessTree.Shell.GetChildProcesses | Assignment_1/msh379.cpp:357-371 | the recursion ends and prints the rows of the walk, in order, after what was printed before |
| ProcessTree.WalkExact | Assignment_1/msh379.cpp:357-371 | the walk lists every transitive descendant, each once, nothing else, and each parent before its children |
| ProcessTree.ChildHasFewer | Assignment_1/msh379.cpp:361-367 | a child has strictly fewer descendants than its parent, which is why the recursion ends |
| ProcessTree.EndsExactly | Assignment_1/msh379.cpp:357-371 | on any table the recursion ends if and only if no process below the target is its own descendant |
| Tands.Work.BurnCycles | Assignment_3/tands.c:16-23 | the loop computes its sum (`LoopSumIs`) without dividing by zero and below 2^62 |
| Tands.Work.Trans | Assignment_3/tands.c:16-26 | the saved byte grows by the whole sum modulo 256 and stays in 0..255 |
| Tands.LoopSumBound | Assignment_3/tands.c:20-23 | for every n whose loop bound is an int the sum is below 2^62 |
| Tands.XorBit | Assignment_3/tands.c:22 | a bit is set in the exclusive or if and only if it is set in one operand and not in the other |
| Tands.XorIs | Assignment_3/tands.c:22 | the exclusive or is the only number with those bits |
| Tands.XorUndoes | Assignment_3/tands.c:22 | applying the second operand again gives the first back |
| Tands.XorCommutes | Assignment_3/tands.c:22 | the operands can be swapped |
| Tands.LoopSumIs | Assignment_3/tands.c:20-23 | the sum in closed form: nothing for n <= 0, 4,999,950,000 for n = 1, and for larger n a sum that depends on the number of iterations alone and is found by halving it |
| Tands.NextSaveIs | Assignment_3/tands.c:24-25 | narrowing to int and masking keep the low byte of the sum |
| Tands.SaveIsTotal | Assignment_3/tands.c:24-25 | after any sequence of calls the saved byte is the low byte of all the work done |
| Tands.Work.Sleep | Assignment_3/tands.c:35-46 | the nanoseconds are between ten million and 990,000,255 for every argument |

## Left out

- Sockets, FIFOs, `poll` and `select` as system calls, errno, clocks, delays, logging, printing and process creation: channels are message queues and descriptors are fresh numbers; a delay only postpones a step.
- An empty input line of `Assignment_2/f22`: a harmless line that is no work in the model, while line 66 reads the second character of a line that has none.
- Weak memory: the plain flags and the thread positions of the monitor are read and written in single sequentially consistent steps. The shared counters `ask_count`, `receive_count`, `complete_count`, the thread number `consumeThreads`, the output string and the map `thread_completed_tasks`, which the threads update without the mutex, are not modelled; each consumer's own `jobs_complete` is.
- Joining of threads in Assignment_2: the handle of the producer is overwritten at lines 247-250, so nothing waits for it; a state is taken as final when the threads have stopped, not when `main` returns.
- 32-bit overflow of the packet counters of switches and controller, and of the monitor's counters; the transaction counter of the server is limited to an int.
- Running a whole thread as one method: the producer, the consumers, the switches, the controller, the server and the clients are methods for one step each, because other threads and messages come between.
- Closed connections in `test2`: connections and FIFOs stay open. Opening a FIFO fails towards a null port and towards a neighbour that has not opened its end; `mkfifo` is assumed to succeed, so no FIFO file is left from an earlier run and no two ports share a FIFO name; `test2/switch.cpp:134` tests `errno` and not the descriptor, and `errno` is assumed to be 0 before.
- What follows for the neighbours of a switch that has exited (closed FIFOs, `SIGPIPE`): its FIFOs take what is written to them and nobody reads it.
- A read takes whole packets: a FIFO in which more than one buffer of RELAYs piles up between two passes, and packets split by the network, are not modelled.
- The `events` of the controller's socket are never set in `test2/switch.cpp:257-267`, so what the switch polls it for is left to uninitialised memory; the model assumes that it is polled for input.
- A packet whose last number no longer fits an int: the handler then indexes past the end of the message (`overrun` in `Network`), and nothing is claimed of any state after that.
- RELAYs over more than one hop in other topologies than chains: passing on compares the switch's id with the port number; only conservation, origin, and when a RELAY can be lost, is stated for them.
- NetworkLost.LostExactly: outside chains it says nothing of runs in which a switch misreads a RELAY, because whether one can be misread also depends on the lengths of the addresses.
- The state of a switch process that has exited is kept as it was, with the reason, and nothing else is claimed of it.
- Requests of clients that the server accepted beyond thirty connections stay unanswered; `read` errors are not modelled, and the receive buffer starts out as zeros.
- Lines of clients whose number does not parse, on which `stoi` throws, and calls of `Trans` from the server: the command text the server would work on is modelled, the work is in `Tands`.
- `Assignment_2/w22`, `test` and the files ending in `temp`: variants that would repeat the `test2` results in a weaker form. The shell's command dispatch and task table: easy members.
