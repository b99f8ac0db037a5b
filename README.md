# LEACH sensor node and base station, modelled in Dafny

This project models the two per-instance state machines of a LEACH (Low-Energy Adaptive
Clustering Hierarchy) implementation for the INET framework:

- the sensor node `Leach` (`inet/routing/leach/Leach.cc`) runs rounds. At each round
  tick a node may elect itself cluster head (CH) and announce itself. Every node records
  the heads it hears in `nodeMemory` and acknowledges the strongest one. A head hands out
  TDMA slots in `nodeCHMemory` and broadcasts the whole slot table. A member caches
  received schedules in `extractedTDMASchedule` and sends its data, fingerprinted and
  logged in `packetLog`, in its slot. A node that receives data relays it to the base
  station. Every `1/clusterHeadPercentage` rounds (the interval length L) a new cycle
  starts: `wasCH` is reset and the three tables are cleared;
- the base station `LeachBS` (`inet/routing/leach/LeachBS.cc`) counts the relays it
  receives, in total (`bsPktReceived`) and per head (`packetsPerCH`). It logs every
  relayed fingerprint in `packetRecLog`.

Files:

- `types.dfy` (module `LeachTypes`): addresses as 32-bit values, with the broadcast
  address 255.255.255.255. It also defines the five
  packet kinds (CH, ACK, SCH, DATA, BS), delivered messages, the two runtime errors, and
  the outgoing packets each handler emits, in order.
- `tables.dfy` (module `LeachTables`): the node's vectors as values.
  - The association memory: the first hearing of a head wins, and the strongest-head
    lookup `getIdealCH`.
  - The slot table: slots 1..n in ack order, with the counter at n + 1.
  - The schedule cache: the first matching entry gives the slot.
- `node.dfy` (module `LeachNode`):
  - `NodeState`, a snapshot of every field the protocol touches;
  - pure step functions for the tick, for `processMessage`, for `handleMessageWhenUp` and
    for `stop`;
  - lemmas about single steps and about runs;
  - class `Node`, whose fields are the source's fields. Each of its methods is proved to
    leave `State()` equal to the corresponding step function applied to the old state.
- `base_station.dfy` (module `LeachBaseStation`): the same construction for the base
  station, plus the sum of the per-head counts.

External inputs are parameters of the model:

- the outcome of the random election draw (`drawBelowThreshold`);
- the current time;
- the received signal power (`rxPower`, only compared);
- whether a packet carries the manet protocol tag and whether it arrived on `ipIn`;
- the network-layer source address tag.

The node's configuration (`Config`) holds:

- its address;
- the interval length L = int(1.0 / clusterHeadPercentage);
- the round duration;
- the fingerprint hash, as an uninterpreted function of (node, head, time).

Two behaviours of the code are worth knowing:

- The fingerprint check on DATA receipt (`checkFingerprint`, Leach.cc:475-480) searches
  the receiving node's own `packetLog`. That log holds only fingerprints this node sent
  itself, so `dataPktReceivedVerf` moves only when a received fingerprint equals one of
  the receiver's own. `LeachNode.DataRelayDemotes` states this exactly as the code does it.
- `sendDataToCH` addresses data to the strongest head heard (`getIdealCH`), not to the
  head whose schedule granted the slot. `sendDataToCH` never reads its head-address
  parameter; the schedule's sender is used only for the event log in `processMessage`.

## Model

| member | source | states |
|---|---|---|
| LeachTables.AddHead | inet/routing/leach/Leach.cc:291-302 | addToNodeMemory: the head is present afterwards. If it was already known the memory is unchanged; otherwise exactly one (node, head, power) entry is appended at the end. The set of known heads grows by exactly this head, and one entry per head is preserved |
| LeachTables.BestIndex | inet/routing/leach/Leach.cc:449-454 | the state of getIdealCH's scan after a prefix: the entry it holds is the first of maximal power among this node's entries, strictly above -1, or none while every entry of the node is at most -1 |
| LeachTables.IdealCHIsStrongestHead | inet/routing/leach/Leach.cc:445-463 | getIdealCH returns 255.255.255.255 when no entry of the node has non-negative power (no entry at all included). Otherwise it returns the head of an entry of maximal power with no earlier entry of equal power (the comparison is strict, so ties go to the earlier entry) |
| LeachTables.AddMember | inet/routing/leach/Leach.cc:304-312 | addToNodeCHMemory: the member is present afterwards. A repeated Ack leaves table and counter unchanged. A new member is appended with the slot one past the table's length. Slots 1..n, distinct members and counter n + 1 are preserved |
| LeachTables.AddMemberIdempotent | inet/routing/leach/Leach.cc:304-312 | a second Ack from the same member leaves the slot table and the counter as the first left them |
| LeachTables.MembersOfUniqueHead | inet/routing/leach/Leach.cc:334-341 | with one memory entry per head, the scan of generateTDMASchedule finds at most one member for a head, and exactly one iff the head is in the memory |
| LeachTables.GeneratedTableValid | inet/routing/leach/Leach.cc:328-342 | the table generateTDMASchedule builds has slots 1..n in order, distinct members, and the counter n + 1 |
| LeachTables.FirstIndexOf | inet/routing/leach/Leach.cc:245-250 | the schedule-cache scan stops at the first entry for the node, or runs off the end when there is none |
| LeachTables.ReceivedDelayStable | inet/routing/leach/Leach.cc:236-250 | once a node's entry is in its cache, appending further schedules never changes the slot it reads, until the cache is cleared |
| LeachTables.ReceivedDelayInValidTable | inet/routing/leach/Leach.cc:245-250 | a member that reads a well-formed slot table finds the slot given by its position: the i-th member to ack waits i + 1 |
| LeachNode.StopStep | inet/routing/leach/Leach.cc:113-120 | stop(): the three tables are empty, the counter is 1 and the node is NCH, and nothing else changes (round, weight, wasCH, packetLog, roundStartTime and every counter stay). The invariant is kept |
| LeachNode.Demote | inet/routing/leach/Leach.cc:125-132 | the two guarded demotions at the top of the tick leave the node NCH with nothing else changed, so a head is always NCH before the draw |
| LeachNode.TickStep | inet/routing/leach/Leach.cc:123-168 | the round tick. round rises by exactly 1. The node ends CH iff the draw was below the threshold and it had not been head in this cycle; then weight rises by 1, one announcement is sent and controlPktSent counts it. At a cycle boundary wasCH is false, the three tables are empty and the counter is 1; off a boundary they are unchanged. roundStartTime becomes the tick's time. packetLog, controlPktReceived, dataPktSent, dataPktReceived, dataPktReceivedVerf and bsPktSent are unchanged |
| LeachNode.ProcessStep | inet/routing/leach/Leach.cc:203-271 | processMessage: a packet not on ipIn is an error with no state change. No handler touches round, weight or wasCH. packetLog only grows, and the invariant is kept |
| LeachNode.HandleStep | inet/routing/leach/Leach.cc:122-176 | handleMessageWhenUp: a non-manet packet is dropped with no state change and no error. weight rises by at most 1. packetLog only grows |
| LeachNode.HandleStepKeepsInv | inet/routing/leach/Leach.cc:122-176 | every handler keeps one memory entry per head, slots 1..n with counter n + 1, and dataPktReceivedVerf <= dataPktReceived |
| LeachNode.AnnouncementAcksStrongestHead | inet/routing/leach/Leach.cc:212-221 | a CH announcement is recorded as addToNodeMemory does and counted in controlPktReceived. It is answered by one Ack, addressed to the strongest head in the updated memory. Nothing else changes |
| LeachNode.AckBroadcastsWholeTable | inet/routing/leach/Leach.cc:222-230 | an Ack received as head sets the slot table and the counter to AddMember's (a slot only the first time) and changes nothing else. It is answered by a schedule carrying the whole slot table in order, repeated Acks included. An Ack received as NCH changes nothing and sends nothing |
| LeachNode.ScheduleSendsData | inet/routing/leach/Leach.cc:231-254 | a schedule grows the cache by exactly its entries, in order. Data is sent iff the first cached entry for the node has a slot above -1. Its destination and fingerprint are fixed at receipt; then the fingerprint is appended to packetLog, dataPktSent rises by 1 and nothing else changes. Without data only the cache changes |
| LeachNode.DataRelayDemotes | inet/routing/leach/Leach.cc:255-264 | data is relayed to the base station in any role. The node ends NCH, and bsPktSent and dataPktReceived rise by 1. dataPktReceivedVerf rises by 1 iff the fingerprint is in the node's own packetLog. Nothing else changes |
| LeachNode.RunKeepsInv | inet/routing/leach/Leach.cc:122-176 | the invariant holds after any sequence of events |
| LeachNode.RunKeepsPacketLog | inet/routing/leach/Leach.cc:482-486 | the packet log only grows over any run, so a fingerprint a node has sent stays in its log |
| LeachNode.RunRoundMonotone | inet/routing/leach/Leach.cc:144 | round never decreases over any run |
| LeachNode.StepKeepsPotential | inet/routing/leach/Leach.cc:136-152 | off a cycle boundary no event changes weight + (wasCH ? 0 : 1): an election adds 1 to weight and uses up the cycle's chance |
| LeachNode.AtMostOneElectionPerCycle | inet/routing/leach/Leach.cc:136-152 | along any run that crosses no cycle boundary, weight + (wasCH ? 0 : 1) is unchanged, so weight grows by at most 1, and not at all if the node was already head in the cycle |
| LeachNode.RunWithoutTickKeepsWeight | inet/routing/leach/Leach.cc:136-143 | only the tick moves round and weight: along a run whose round does not move, weight and wasCH do not move either |
| LeachNode.AtMostOneElectionPerWholeCycle | inet/routing/leach/Leach.cc:136-152 | at most one election per whole cycle: along any run whose interior rounds are no boundary, including the tick that reaches the next boundary (and every tick when L == 1), weight grows by at most 1, and not at all if the node was already head in the cycle |
| LeachNode.Node.constructor | inet/routing/leach/Leach.cc:48-73 | initialize(): every counter, round and weight are 0, wasCH is false, the node is NCH, the tables are empty and the counter is 1 |
| LeachNode.Node.Stop | inet/routing/leach/Leach.cc:113-120 | stop() leaves the fields as StopStep says, and the invariant is kept |
| LeachNode.Node.HandleMessageWhenUp | inet/routing/leach/Leach.cc:122-176 | the new fields and the result are HandleStep's, and the invariant is kept |
| LeachNode.Node.RoundTick | inet/routing/leach/Leach.cc:123-168 | the tick branch leaves the fields and the sent packets as TickStep says |
| LeachNode.Node.EndHeadTerm | inet/routing/leach/Leach.cc:125-132 | the demotions leave the fields as Demote says |
| LeachNode.Node.BecomeHead | inet/routing/leach/Leach.cc:136-141 | the election raises weight, sets CH and wasCH, and announces once |
| LeachNode.Node.StartRound | inet/routing/leach/Leach.cc:143-166 | round is incremented, a cycle boundary resets wasCH and clears the tables, and roundStartTime is taken |
| LeachNode.Node.HandleSelfMessage | inet/routing/leach/Leach.cc:178-201 | the announcement is sent from this node's address, and controlPktSent rises by 1 |
| LeachNode.Node.ProcessMessage | inet/routing/leach/Leach.cc:203-271 | the new fields and the result are ProcessStep's |
| LeachNode.Node.ReceiveSchedule | inet/routing/leach/Leach.cc:231-254 | the SCH branch (the append loop, then the scan with break) leaves the fields and the result as ProcessStep says |
| LeachNode.Node.AddToNodeMemory | inet/routing/leach/Leach.cc:291-302 | nodeMemory becomes AddHead of the old memory, and nothing else changes |
| LeachNode.Node.AddToNodeCHMemory | inet/routing/leach/Leach.cc:304-312 | the slot table and the counter become AddMember's, and nothing else changes |
| LeachNode.Node.IsCHAddedInMemory | inet/routing/leach/Leach.cc:314-319 | the scan answers true iff some memory entry names the head |
| LeachNode.Node.IsNCHAddedInCHMemory | inet/routing/leach/Leach.cc:321-326 | the scan answers true iff some slot-table entry names the member |
| LeachNode.Node.GenerateTDMASchedule | inet/routing/leach/Leach.cc:328-345 | the slot table is rebuilt from the memory entries naming this node as head, in memory order, with slots 1..n and counter n + 1. Nothing else changes, and the invariant is kept |
| LeachNode.Node.GetIdealCH | inet/routing/leach/Leach.cc:445-463 | the scan loop returns IdealCH of the memory, and the memory is not modified |
| LeachNode.Node.CheckFingerprint | inet/routing/leach/Leach.cc:475-480 | true iff the fingerprint is in the node's own packet log |
| LeachNode.Node.AddToPacketLog | inet/routing/leach/Leach.cc:482-486 | the fingerprint is appended to the packet log, and nothing else changes |
| LeachNode.Node.SendAckToCH | inet/routing/leach/Leach.cc:355-371 | the Ack goes from the node to the strongest head heard, whichever head announced |
| LeachNode.Node.SendSchToNCH | inet/routing/leach/Leach.cc:373-396 | the broadcast schedule carries exactly the slot table, entry by entry, in order |
| LeachNode.Node.SendDataToCH | inet/routing/leach/Leach.cc:398-423 | the data goes to the strongest head with the slot as delay, fingerprinted from (node, head, now). The fingerprint is logged, dataPktSent rises by 1, and nothing else changes |
| LeachNode.Node.SendDataToBS | inet/routing/leach/Leach.cc:425-443 | the relay carries the node's address and the fingerprint. bsPktSent rises by 1, the node becomes NCH, and nothing else changes |
| LeachBaseStation.MapSumRemove | inet/routing/leach/LeachBS.h:22 | the sum of the per-head counts may be taken with any head first |
| LeachBaseStation.MapSumIncrement | inet/routing/leach/LeachBS.cc:97 | incrementing one head's count (an absent head starts at 0) raises the sum of the counts by exactly 1 |
| LeachBaseStation.ReceiveRelay | inet/routing/leach/LeachBS.cc:89-107 | a BS packet raises bsPktReceived by 1 and appends its fingerprint to packetRecLog. Only the count of the tagged source head changes, by 1; without a tag no count changes |
| LeachBaseStation.BsStep | inet/routing/leach/LeachBS.cc:75-116 | a non-manet packet and a packet off ipIn are runtime errors, and these are the only errors; an error changes nothing. Self-messages and CH/ACK/SCH/DATA packets change nothing. A BS packet is received as ReceiveRelay says |
| LeachBaseStation.BsStepKeepsInv | inet/routing/leach/LeachBS.cc:89-107 | every message keeps the length of packetRecLog equal to bsPktReceived and the sum of the per-head counts <= bsPktReceived |
| LeachBaseStation.BsStepMonotone | inet/routing/leach/LeachBS.cc:90-97 | no message lowers any head's count, the total, or the log |
| LeachBaseStation.BsRunCountsRelays | inet/routing/leach/LeachBS.cc:89-108 | over any run the total rises by the number of relays, each head's count by the number of relays tagged with it, and the log by their fingerprints in arrival order, repeats included (no deduplication) |
| LeachBaseStation.BsRunKeepsInv | inet/routing/leach/LeachBS.cc:89-107 | the invariant holds after any run from a state that satisfies it |
| LeachBaseStation.BsRunFromInitial | inet/routing/leach/LeachBS.cc:26-33 | from the initial state, the total, the log length and the relay count agree. The log is exactly the relayed fingerprints, and no more relays are attributed to heads than were received |
| LeachBaseStation.BaseStation.constructor | inet/routing/leach/LeachBS.cc:26-33 | initialize(): the counters are 0, and the map and the log are empty |
| LeachBaseStation.BaseStation.Stop | inet/routing/leach/LeachBS.cc:73 | stop() changes nothing, so counters and logs survive a stop |
| LeachBaseStation.BaseStation.HandleMessageWhenUp | inet/routing/leach/LeachBS.cc:75-116 | the new fields and the result are BsStep's, and the invariant is kept |
| LeachBaseStation.BaseStation.AddToPacketRecLog | inet/routing/leach/LeachBS.cc:139-143 | the fingerprint is appended to packetRecLog, and nothing else changes |

## Left out

- Simulation plumbing is not modelled:
  - the construction of packets and tags;
  - `send`, `sendDelayed`, `scheduleAt` and `cancelEvent`;
  - service registration;
  - interface discovery in `start()`.

  Handlers return the list of packets they would send. The delay of a DATA packet is a
  field of that packet.
- The random draw and the threshold formula `generateThresholdValue` (floating point) are
  not modelled. The draw's outcome is a boolean parameter. The formula's `round = 0`
  assigns its parameter, so the member `round` is never reset by it. `TickStep` states
  that round rises by exactly 1 whatever the draw.
- `LeachNode.TickStep`: the timeout test `simTime() >= roundStartTime + roundDuration` is
  modelled on integer time. Either guard demotes a head, because the round timer always
  carries the kind SELF, so the result does not depend on it.
- `handleSelfMessage` checks that the message is the round timer of kind SELF. The only
  self-message is that timer and it always has that kind, so the model always announces.
- The temperature and humidity readings in DATA packets are random values that no
  handler reads. They are left out.
- The event log, the position list, the weight list, the CSV exports, `finish`, the
  output vectors, the display refresh and the process-wide debug counter `chCount` are
  logging only and are not modelled.
- The fingerprint hash (`std::hash` of the decimal texts of both addresses and the time)
  is an uninterpreted function in the node's configuration.
- The node's counters, `round` and `weight`, are `int` in the source and unbounded
  naturals here. Overflow after 2^31 events is not modelled.
- `TDMADelayCounter` and `TDMAdelay` are `double` in the source. They only ever hold
  integers counted up from 1, so they are `int` here.
- The CH branch reads the received signal power from a tag that the radio always
  attaches. The model takes the power from the packet and does not model a missing tag.
- `LeachNode.Run` and `LeachBaseStation.BsRun`: a runtime error ends the simulation in
  the source. The run functions instead leave the state unchanged and continue. The
  properties proved over runs therefore also hold for every run that stops at its first
  error.
- Packets whose payload is not a LEACH control packet are not modelled. Every delivered
  packet has one of the five kinds.
- `inet/routing/leach/LeachBS.h` declares `logPacketReception` and a second
  `addToPacketRecLog` overload, which are not defined in `LeachBS.cc`; they are not part
  of this model.
