# A Dafny model of the multihop network stack

This project models `lib/net`: a slotted, ring-structured clustering protocol over a framed TDMA link. Nodes learn
their hop distance ("ring") from heartbeats, elect clusterheads ring by ring, join them through Follow and Accept
messages, and then send towards the gateway in slots that the superframe lays out so that deeper rings come first.

Objects that the source updates in place are classes here (`State.MultihopState`, `Candidates.ClusterheadCandidates`,
`Fragments.DatagramIterator`, `Link.MessageVec`, `Link.LinkLayer`, `Stations.Station`, `SlotClock.Clock`); each of
their methods is tied to a function of values, and the protocol theorems are about those functions. Nodes that talk to
each other are state machines over steps; a run may lose, delay, reorder and repeat any message.

| files | what they hold |
|---|---|
| `Bytes`, `Messages` | integer widths, wire layouts, the message codec |
| `Rings`, `State`, `Discovery`, `DiscoveryLoop`, `Convergence`, `Heartbeats` | the sliding histogram, ring hysteresis, ring discovery across a network, its loop, convergence of the loop, who announces when |
| `SetUp` | what set-up leaves, and that discovery starts from it |
| `SlotClock` | the cached superframe window against the stateless slot number; slot lookup |
| `Frames`, `Link`, `Sending`, `Fragments` | frames, checksum, TX and RX buffers, datagram fragmentation |
| `Candidates`, `Cluster` | the two best announcements; the slot table and volunteering |
| `Rounds`, `Advertising`, `Clusters`, `Clusterheads`, `LostElection` | one node's steps in the advertising rounds, all runs of a network, what holds in them, what clusterheads hold, and a run that loses its highest announcer |
| `Stations`, `Loops`, `JoinLoop`, `Advertise` | the loops of `do_advertise` in place, on the node's objects and the buffers of its link layer |
| `Effects`, `Speaking` | what the steps say and read, whom a node asks, what a superframe leaves; which frames the loops send |
| `Refinement`, `Interleaving` | that executions of `do_advertise` at all nodes are such a run, built from plans in which the radios receive frames of other nodes |
| `Waiting` | how long a node can stay without the clusterhead role |
| `Timetable`, `Convergecast` | windows, guards and codes; the timetable of every cluster forest that a run produces |
| `Acks`, `Actions`, `Listening` | acknowledgements; the four slot-guarded actions; waiting and forwarding, frame by frame |
| `Arith`, `LinkCodes` | facts about quotients; result codes |

Clock readings, random bytes, deadlines, the bytes that the radio receives and whether it transmits are parameters.
Everything else is computed: the loops of `do_advertise` read messages out of the RX buffer, decode them, and send and
flush through the TX buffer, together with whatever else is queued there. A *plan* holds what is given; the *script*
of a plan is the plan with what followed from it (what fitted, what was transmitted, what was heard), and the events
of a script are what happens to the node in a run of the network. Deadlines: `due` says whether the node finds its
deadline reached in a turn; in discovery, `dueFrom` is the first message of the turn at which it is; in the joining
loop, a message for which no `AnswerEnv` is given is answered at time 0 with a radio that fails. The integer widths of
the source are kept (`Wrap8`, `Wrap32`, subset types); 32-bit time is assumed not to overflow while a value is
computed (`SlotClock.InRange`).

Assumptions that the statements spell out: `tx_sz`, `rx_sz` and `msg_max_bytes` are at most 255; a superframe is at
least as long as its slots; `reuse_distance` and the slot count are at least 1; node addresses are not 255 and only
the gateway has address 0; the TX queue holds no clustering messages when advertising begins; a frame that announces
more messages than it holds leaves one byte of the RX buffer unused (`Link.Readable`: the length byte is read before
the bounds check); for convergence, the cells of the histogram do not overflow within a phase
(`Rings.HistogramExactIff` says what happens otherwise), and for ring safety, no update reads a lowest ring beyond 8
bits (`Discovery.Wraps`).

History variables (`followers`, `announced`, `volunteered`, `rivals` and `air` of a node, `accepted` and `frames` of a
line) record what happened; no step reads them to decide anything.

## Where the code and its comments differ

The model follows the code.

- `lib/net/src/multihop.cpp:270-272` says the gateway's slot table is prepared once; the code prepares it again in
  round 0 of every superframe, because `is_clusterhead` starts out false (`lib/net/src/multihop.cpp:812-817`).
- `lib/net/src/multihop.cpp:859` speaks of slot 0 of the window; acknowledgements are sent in its last slot, on code
  0.
- `lib/net/include/multihop_messages.h:49-50` speaks of seven rings; the list has eight cells.
- `lib/net/include/multihop_state.h:48` counts rounds; the counter advances with every turn of the discovery loop.
- `lib/net/src/multihop.cpp:495-498` says nodes never announce an unknown ring; a heartbeat with an unknown ring is
  enough to make a node announce its own unknown ring.
- `lib/net/include/multihop_state.h:32-34` resets the credit when elected; a candidate that yields keeps its role, and
  its credit is reset too.

## Statements that turned out false, and what holds instead

The condition under which each holds after all is stated exactly, and an input that fails is given.

- A heartbeat count is exact only while no 8-bit cell overflows (`Rings.HistogramExactIff`); with 256 equal heartbeats
  a node hears nobody (`Rings.OverfullCellForgetsNeighbors`).
- Rings are not safe whatever is counted: with two overflowing cells a node that heard no ring below 100 reads 1 as
  the lowest (`Rings.OverflowUnderstates`). An update is safe if it does not wrap, and for a node more than six hops
  away only then (`Discovery.UpdateIsSoundIff`); without overflow, or with rings up to 248, it does not wrap
  (`Discovery.NoWrap`).
- Discovery does not converge from every order of turns: a node that has heard nobody in three turns forgets its ring
  before it announces it (`Convergence.SilentTurnsForget`). A node has the right ring if and only if fewer turns than
  the threshold have passed since the last phase in which it heard the ring one below (`Convergence.LoopExactIff`,
  `Convergence.PhaseExactIff`).
- The slot clock answers -1 inside a window that it skipped (`SlotClock.ClockCompleteIff`,
  `SlotClock.LateCallMissesSlot`), and then slot lookup is not the earliest (`SlotClock.LookupIsLeastIff`,
  `SlotClock.LateLookupWaitsTooLong`).
- An unsent fragment is skipped, not retried, when only its headers do not fit (`Fragments.FragmentSkippedIff`,
  `Fragments.RefusedFragmentIsLost`); a buffer arrives whole if and only if that never happens
  (`Fragments.DatagramRoundTrip`).
- A clusterhead grants the last slot of its window but never listens in it (`Timetable.RendezvousIff`,
  `Timetable.LastMemberIsUnheard`).
- With a reuse distance below 3, a relay can have to send before it has heard its members
  (`Timetable.ReuseDistanceIff`, `Timetable.RelaySendsTooEarly`).
- Spreading codes never separate clusters that use the same slot (`Convergecast.OneCodePerSlot`), nor the slots of a
  window beyond seven (`Timetable.CodesDifferIff`).
- Acks that fill the TX buffer to the last byte are not sent at all (`Acks.AllAcksGoOutIff`,
  `Acks.ExactRoomAcksNobody`).
- An ack does not say that the datagram was forwarded (`Actions.AllForwardedIff`, `Actions.AcknowledgedButLost`).
- The highest announcer of a ring need not stand: an announcement whose flush failed can reach others after its author
  yielded (`Clusters.LeftoverIsTransmitted`), and unseats whoever hears it while announcing
  (`Clusters.LateAnnouncementUnseats`); `LostElection.HighestAnnouncerLoses` is such a run of three nodes, at whose
  end nobody of the ring stands. The highest announcer stands if and only if it heard no such announcement of a higher
  address (`Clusters.HighestAnnouncerStandsIff`), as in all runs in which nodes hear one another in the same phase
  (`Clusters.ElectionKeepsHighest`).

## Model

| member | source | states |
|---|---|---|
| Messages.DecodeEncode | lib/net/src/multihop.cpp:135-204 | every well-formed message comes back from its bytes, except an ack message without acks, which the receiver refuses |
| Messages.EncodeDecode | lib/net/src/multihop.cpp:135-204 | bytes that are accepted are the encoding of exactly the message they decode to |
| Messages.BodyRoundTrip | lib/net/include/multihop_messages.h:43-137 | the seven body layouts can be read back field by field |
| Messages.WireLayout | lib/net/include/multihop_messages.h:33-137 | every byte of a message: time stamp, sender, type code, and the fields of each body at their offsets, wider fields lowest byte first |
| Rings.HistogramExactIff | lib/net/src/multihop_state.cpp:42-83 | the shifting histogram equals a recount from scratch throughout a phase if and only if no 8-bit cell overflows |
| Rings.HistogramIsRecount | lib/net/src/multihop_state.cpp:42-83 | after any 255 or fewer heartbeats, `ring_start` is the lowest known ring and all eight cells are exact |
| Rings.RecountGivesLowest | lib/net/src/multihop_state.cpp:111-118 | the ring update then reads the lowest ring that was heard |
| Rings.HistogramIgnoresOrder | lib/net/src/multihop_state.cpp:46-83 | the histogram does not depend on the order of arrival |
| Rings.OverfullCellForgetsNeighbors | lib/net/src/multihop_state.cpp:81-82 | 256 heartbeats of one ring wrap the first cell to zero: the node hears nobody |
| Rings.OverflowUnderstates | lib/net/src/multihop_state.cpp:46-118 | a phase of heartbeats with rings of 100 and more after which the lowest ring reads as 1 |
| State.MultihopState.constructor | lib/net/src/multihop_state.cpp:13-30 | a fresh object holds the state that set-up leaves, with empty histogram and tables; `SetUp.InitSetsUp` says field by field which that is |
| SetUp.InitSetsUp | lib/net/src/multihop_state.cpp:13-30 | field by field: the gateway has ring 0 and its role, everybody else ring 255 and the follower role; nobody has a clusterhead, neighbours, credit or acks |
| SetUp.InitSetsUpTable | lib/net/src/multihop.cpp:256-277 | the gateway has its own last entry, no follower and the window of ring 0; the table of a follower is empty |
| SetUp.SetUpStartsDiscovery | lib/net/src/multihop_state.cpp:85-93 | the rings of all nodes that were set up, with nothing in flight, are a state in which discovery begins, on every graph |
| SetUp.SetUpIsRingSafe | lib/net/src/multihop_state.cpp:106-140 | so from set-up on no ring falls below the hop distance, and only the gateway has ring 0 |
| State.MultihopState.ResetNeighbors | lib/net/src/multihop_state.cpp:42-44 | the histogram is emptied and nothing else changes |
| State.MultihopState.ShiftCells | lib/net/src/multihop_state.cpp:71-76 | the in-place loops move every cell up by the offset and clear those below |
| State.MultihopState.AddNeighbor | lib/net/src/multihop_state.cpp:46-83 | the in-place update adds one heartbeat to the histogram as the recount lemmas describe it |
| State.MultihopState.UpdateRingFromNeighbors | lib/net/src/multihop_state.cpp:106-140 | ring and hysteresis counter follow the update function; all else is unchanged |
| Discovery.WithinHopsIffPath | lib/net/src/multihop_state.cpp:119-122 | the hop distance that rings are compared with is the length of a shortest path from the gateway |
| Discovery.StepIsSafe | lib/net/src/multihop_state.cpp:46-140 | reset, heartbeat, update and announcement keep the distributed invariant, however cells are counted, unless an update wraps |
| Discovery.UpdateIsSoundIff | lib/net/src/multihop_state.cpp:106-140 | for a node more than six hops away, an update keeps the ring sound if and only if the lowest ring that it reads fits 8 bits |
| Discovery.NoWrap | lib/net/src/multihop_state.cpp:46-118 | it does while no cell overflows, and for histograms that start at ring 248 or below |
| Discovery.RingSafety | lib/net/src/multihop_state.cpp:106-140 | in every lossy run without a wrapped update, no ring, stored or in flight, is below the hop distance, and only the gateway has ring 0 |
| Discovery.RingConvergence | lib/net/src/multihop_state.cpp:106-140 | from any sound state, after k lossless rounds every node within k hops has its hop distance as ring, and keeps it |
| Discovery.RunsAreSound | lib/net/src/multihop_state.cpp:46-83 | every state of a lossy run is a sound state from which convergence starts |
| Discovery.NodeRunsLocally | lib/net/src/multihop_state.cpp:46-140 | in every run, a node's ring state is what the events at that node make of it |
| DiscoveryLoop.RunNeighborDiscovery | lib/net/src/multihop.cpp:488-545 | rings, RX buffer, TX buffer and transmitted frames after the loop are where its steps lead, from the bytes that the radio received; nothing else of the node changes |
| DiscoveryLoop.ProcessHeartbeats | lib/net/src/multihop.cpp:513-533 | the heartbeats of the RX buffer go into the histogram, and the last one decides whether to announce |
| DiscoveryLoop.LoopIsLocalRun | lib/net/src/multihop.cpp:507-543 | the loop takes a node's rings through exactly its events of the discovery protocol, announcements included |
| DiscoveryLoop.LoopIsRingSafe | lib/net/src/multihop.cpp:507-543 | in every run of the network in which those are the events of the node, the loop computes the rings of the run, and they are safe |
| DiscoveryLoop.SaysAtMostOneHeartbeat | lib/net/src/multihop.cpp:535-543 | in one phase a node says at most one thing more, a heartbeat with the ring it has after some turn |
| DiscoveryLoop.UninformedStaysSilent | lib/net/src/multihop.cpp:495-503 | a node without a ring stays silent until it hears a heartbeat |
| Heartbeats.AnnouncesIff | lib/net/src/multihop.cpp:507-543 | a node that has not announced does so in a turn if and only if it is informed and due with no heartbeat heard, or due at the last heartbeat heard |
| Heartbeats.SaysItsRing | lib/net/src/multihop.cpp:533-543 | then it queues exactly a heartbeat with its updated ring, if that fits, and all that is queued is on the air if also sent; no other turn sends anything |
| Heartbeats.TurnHearsFrame | lib/net/src/multihop.cpp:512-531 | a turn of the discovery loop hears every message of the frame that it receives, in order |
| Heartbeats.InformedNodeAnnounces | lib/net/src/multihop.cpp:507-543 | a node with a ring that finds its announcement due in some turn has announced at the end of the phase, whether it hears anybody or not |
| Heartbeats.GatewaySpeaks | lib/net/src/multihop.cpp:498-543 | from set-up on, the gateway puts ring 0 on the air in its first due turn |
| Heartbeats.LoopAnnounces | lib/net/src/multihop.cpp:507-543 | the same of the loop on the objects, with its buffers |
| Heartbeats.KnownRingIsAnnounced | lib/net/src/multihop.cpp:494-543 | and for every node that begins the phase with a ring |
| Convergence.PhaseFindsLowest | lib/net/src/multihop.cpp:507-534 | however the heartbeats fall into turns, a node that hears a ring below its own ends the phase one above the lowest ring heard |
| Convergence.RingIsKept | lib/net/src/multihop_state.cpp:125-139 | for as many turns as the hysteresis allows, a right ring survives although nothing has been heard yet |
| Convergence.SilentTurnsForgetIff | lib/net/src/multihop_state.cpp:132-139 | while nothing is heard, a ring is kept if and only if the hysteresis has not run out; then it is unknown |
| Convergence.SilentTurnsForget | lib/net/src/multihop_state.cpp:132-139 | after two silent turns a ring is still there, after three it is forgotten |
| Convergence.PhaseExactIff | lib/net/src/multihop.cpp:507-534 | a phase of the loop ends with the right ring if and only if the node heard the ring one below, in whatever turn, or had the right ring and its hysteresis did not run out |
| Convergence.LoopComputesPhase | lib/net/src/multihop.cpp:488-545 | the phases of the next rows are what the loop on the objects computes, whatever else is queued |
| Convergence.LoopExactIff | lib/net/src/multihop.cpp:488-545 | over any number of phases with any loss, a node has the right ring if and only if fewer turns than the threshold have passed since the last phase in which it heard the ring one below |
| Convergence.LoopConvergence | lib/net/src/multihop.cpp:507-534 | after k phases of the loop in which each node heard, for each neighbour, a ring no higher than that neighbour had, in any order and turn, every node within k hops has its hop distance as ring; of neighbours without a ring nothing need be heard |
| Convergence.FirstPhaseOfALine | lib/net/src/multihop.cpp:488-545 | the first phase of three nodes in a line, in which nodes without a ring are silent, is such a phase |
| SlotClock.NextTimeIntervalIsNextStart | lib/net/src/link_layer.cpp:72-81 | the remainder arithmetic yields the first superframe start at or after now |
| SlotClock.StatelessSlotByRemainder | lib/net/src/link_layer.cpp:102-113 | the slot number as a function of time alone is (now mod frequency) / slot duration inside the window, -1 outside |
| SlotClock.SlotOfFields | lib/net/src/net.cpp:10-16 | on the parameters themselves: the slot is (now mod frequency) / (slot length + guard period) while that remainder is below that sum times the slot count, and -1 otherwise |
| SlotClock.CachedSlotOfFields | lib/net/src/link_layer.cpp:102-113 | every answer of the cached clock other than -1 is that slot |
| SlotClock.LookupOfFields | lib/net/src/link_layer.cpp:307-336 | and every looked-up epoch lies in the slot that was asked for, by the same formula |
| SlotClock.WindowOfFields | lib/net/src/link_layer.cpp:102-107 | the cached window begins at a multiple of the frequency and is as long as all slots with their guard periods |
| SlotClock.GuardPeriodsCount | lib/net/src/net.cpp:14-16 | slots of 10 seconds with guard periods of 2: at 11 seconds it is slot 0, at 55 slot 4 |
| SlotClock.ClockNeverWrong | lib/net/src/link_layer.cpp:102-113 | after any timing calls at any times, the cached clock answers -1 or the true slot |
| SlotClock.NodesAgreeOnSlot | lib/net/src/link_layer.cpp:102-113 | two nodes that both report a slot at the same time report the same one |
| SlotClock.ClockCompleteIff | lib/net/src/link_layer.cpp:102-110 | with a clock that does not run backwards, every answer is the true slot if and only if no call enters a window late without a call since the previous window's end |
| SlotClock.LateCallMissesSlot | lib/net/src/link_layer.cpp:102-110 | with calls at 0 and 105 and a superframe every 100 s, the clock answers -1 in slot 0 |
| SlotClock.LookupIsExact | lib/net/src/link_layer.cpp:307-336 | from every reachable clock state the looked-up epoch lies in the slot asked for |
| SlotClock.LookupIsLeastIff | lib/net/src/link_layer.cpp:307-336 | that epoch is the first such time, less than a superframe away, if and only if the cached window did not skip it |
| SlotClock.LateLookupWaitsTooLong | lib/net/src/link_layer.cpp:307-336 | that clock looks up 230 for slot 3, although 130 lies ahead in slot 3 |
| SlotClock.Clock.constructor | lib/net/src/link_layer.cpp:171-177 | set-up caches the window that a first timing call would |
| SlotClock.Clock.Update | lib/net/src/link_layer.cpp:188-193 | the cached window becomes the refreshed one and stays aligned with the superframes |
| SlotClock.Clock.CurrentSlot | lib/net/src/link_layer.cpp:102-113 | refreshes the window and answers the slot in it: -1, or (now mod frequency) / (slot length + guard period) |
| SlotClock.Clock.EpochAndOffset | lib/net/src/link_layer.cpp:307-336 | result code in every case, epoch and offset of the slot lookup, without 32-bit overflow; the epoch lies in the slot asked for, by the fields of the parameters |
| Frames.OneByteDamageIsRejected | lib/net/src/link_layer.cpp:207-227 | any one changed byte of an accepted frame makes it rejected: in the length field by the length check, elsewhere by the checksum |
| Frames.FrameIsReceived | lib/net/src/link_layer.cpp:207-248 | a flushed frame is accepted unless it is empty, and gives back exactly its messages in order |
| Frames.FrameLayout | lib/net/include/link_layer.h:46-59 | every byte of a frame: checksum of all that follows, payload length, time, sender, message count, padding, and the messages with their length bytes |
| Frames.AdmittedIff | lib/net/src/link_layer.cpp:206-224 | of any bytes: when they are admitted, and which of the four errors is reported first |
| Frames.ReadsPackedPrefix | lib/net/src/link_layer.cpp:230-249 | of any payload: the messages read lie packed from the cursor on, and reading stops only at the announced count, the end, or a length beyond it |
| Frames.AcceptedIff | lib/net/src/link_layer.cpp:251-268 | a message is accepted if and only if it fits with its length byte behind header and queue and is not longer than messages may be |
| Frames.FifoExactlyOnce | lib/net/src/link_layer.cpp:250-299 | over every run of sends and flushes, refused and failed ones included, what frames deliver and then what is queued is what was accepted, once and in order |
| Link.MessageVec.Size | lib/net/src/link_layer.cpp:52-60 | the loop over the list counts the bytes of all its parts |
| Link.MessageVec.Write | lib/net/src/link_layer.cpp:62-70 | the parts land one after the other at the given place, all other bytes stay |
| Link.LinkLayer.TxBytesAvailable | lib/net/src/link_layer.cpp:84-93 | bytes that header, length bytes and queued messages leave free |
| Link.LinkLayer.SendMsg | lib/net/src/link_layer.cpp:250-266 | a message is queued whole behind the others or refused with the right code, and the buffer holds the packed queue |
| Link.LinkLayer.CalculateChecksum | lib/net/src/link_layer.cpp:121-127 | the 16-bit sum of the bytes in the range |
| Link.LinkLayer.HeaderChecksum | lib/net/src/link_layer.cpp:129-138 | false exactly when the announced payload does not fit, otherwise the checksum of all bytes behind the checksum field |
| Link.LinkLayer.FillFrameHeader | lib/net/src/link_layer.cpp:140-151 | never fails, and makes the buffer hold the frame of the queued messages |
| Link.LinkLayer.Flush | lib/net/src/link_layer.cpp:273-299 | transmits the frame of the whole queue and empties it, or keeps all of it; a header error cannot occur |
| Link.LinkLayer.Recv | lib/net/src/link_layer.cpp:183-228 | result code for every radio outcome; after Ok the unread messages are those of the frame |
| Link.LinkLayer.Listen | lib/net/src/link_layer.cpp:183-228 | the unread messages after each outcome of `recv`, for every frame that can be read to its end |
| Link.LinkLayer.GetMsg | lib/net/src/link_layer.cpp:230-248 | hands out the unread messages one by one, from inside the buffer, and tells apart the end and a broken frame |
| Link.LinkLayer.TakeAll | lib/net/src/multihop.cpp:872-874 | the receive loop ends and yields all unread messages in order |
| Link.LinkLayer.SetCdmaCode | lib/net/src/link_layer.cpp:369-380 | the spreading code is the hash of the slot id |
| Sending.SendBytes | lib/net/src/multihop.cpp:74-90 | message and trailing bytes are queued as one message or not at all, with the mapped result code |
| Sending.SendMessage | lib/net/src/multihop.cpp:74-90 | the same for a message with nothing behind it |
| Sending.CodesMean | lib/net/src/multihop.cpp:74-90 | which of the three answers a send gives, in bytes of free space and message length |
| Stations.Station.Send | lib/net/src/multihop.cpp:74-90 | a protocol message goes to the end of the TX buffer if it fits |
| Stations.Station.Flush | lib/net/src/link_layer.cpp:273-299 | all that is queued, whatever it is, is transmitted in one frame and dropped, or nothing is |
| Stations.Station.Receive | lib/net/src/link_layer.cpp:183-228 | the RX buffer holds the messages of the received frame, or none; outside the window it stays as it was |
| Stations.Station.Next | lib/net/src/multihop.cpp:135-204 | the next message of the RX buffer, decoded if it is one |
| Stations.HeardIsOnAir | lib/net/src/link_layer.cpp:183-248 | what is read out of a RX buffer that received a frame of a node, that node has transmitted |
| Stations.FrameIsRead | lib/net/src/link_layer.cpp:230-248 | all messages of a flushed frame are read and decoded, in the order in which they were queued |
| Effects.ReadsUntil | lib/net/src/multihop.cpp:693-771 | while joining, it reads the messages of a frame up to the first that does not decode or refuses it, and all of them if there is none |
| Fragments.PartCountIsCeiling | lib/net/src/multihop_messages.cpp:75-87 | the number of parts is the quotient rounded up |
| Fragments.RewindUndoesNext | lib/net/src/multihop_messages.cpp:89-122 | `rewind` undoes the last `next`, apart from the remembered size |
| Fragments.FragmentSkippedIff | lib/net/src/multihop.cpp:476-483 | an unsent fragment stays next in line if and only if its bytes alone exceed the free space |
| Fragments.SendAnswerIs | lib/net/src/multihop.cpp:470-486 | which of the four answers sending the next fragment gives, in bytes of free space and message length |
| Fragments.RefusedFragmentIsLost | lib/net/src/multihop.cpp:476-483 | one fragment of ten bytes, twelve free bytes: refused, and nothing is left to be sent |
| Fragments.DatagramRoundTrip | lib/net/src/multihop.cpp:470-486 | over every run that leaves no data and an empty queue, with sends refused, rewound and repeated and flushes anywhere, what the receiver gets joins to the buffer if and only if no fragment was skipped and there are at most 255 parts; then it gets parts 0..count-1 in order |
| Fragments.OversizedSendsNothing | lib/net/src/multihop_messages.cpp:79-83 | a buffer that needs more than 255 parts is never sent, not even in part |
| Fragments.DatagramIterator.constructor | lib/net/src/multihop_messages.cpp:75-87 | the iterator starts at part 0, or at its end when there are too many parts |
| Fragments.DatagramIterator.Peek | lib/net/src/multihop_messages.cpp:97-112 | the next fragment and its place, without moving |
| Fragments.DatagramIterator.Next | lib/net/src/multihop_messages.cpp:114-122 | hands out the next fragment and moves behind it |
| Fragments.DatagramIterator.Rewind | lib/net/src/multihop_messages.cpp:89-95 | moves back by the last fragment and reports its size |
| Fragments.SendFragment | lib/net/src/multihop.cpp:476-483 | header, datagram header and payload are queued as the message of that fragment, or refused with its code |
| Fragments.SendDatagram | lib/net/src/multihop.cpp:470-486 | iterator, result code and queue after one call, for all four outcomes |
| Candidates.ComputeScore | lib/net/src/multihop_messages.cpp:62-73 | the loop computes the weighted sum without overflow; only a ring-0 sender scores the maximum |
| Candidates.OneMoreNeighbor | lib/net/src/multihop_messages.cpp:62-73 | one more neighbour in cell i raises the score by 8 + `ring_start` - i, as an 8-bit value |
| Candidates.ScoreIsZeroIff | lib/net/src/multihop_messages.cpp:62-73 | a score is 0 exactly when the sender is outside ring 0 and every ring it heard has weight 0, or it heard none |
| Candidates.UnheardIsNoCandidate | lib/net/src/multihop.cpp:231-244 | a clusterhead outside ring 0 that heard nobody never becomes a candidate |
| Candidates.KeepsTopTwo | lib/net/src/multihop.cpp:231-244 | after any announcements the two kept are the first two in the stable descending order by score of those that score at all |
| Candidates.GatewayRingWins | lib/net/src/multihop.cpp:231-249 | when a ring-0 announcement was heard, the best candidate has ring 0 |
| Candidates.ClusterheadCandidates.Reset | lib/net/src/multihop.cpp:223-229 | nobody is kept |
| Candidates.ClusterheadCandidates.Top | lib/net/src/multihop.cpp:246-249 | the best candidate's address and ring |
| Candidates.ClusterheadCandidates.Second | lib/net/src/multihop.cpp:251-254 | the second best candidate's address and ring |
| Candidates.ClusterheadCandidates.Consider | lib/net/src/multihop.cpp:231-244 | the arrays are shifted in place so that they hold the updated two best |
| Cluster.AllocatorRefinement | lib/net/src/multihop.cpp:370-414 | after any requests on a prepared table, a follower gets slot 1 + its rank by first appearance if the window has it, else is refused; repeats and refusals change nothing |
| Cluster.SameAnswerLater | lib/net/src/multihop.cpp:376-390 | a follower that asks again later is told the same slot |
| Cluster.GrantIsListed | lib/net/src/multihop.cpp:376-413 | whoever is granted a slot is listed there, and nobody who was listed is lost |
| Cluster.OwnEntryKeptIff | lib/net/src/multihop.cpp:206-213 | the clusterhead's own entry survives all requests if and only if it lies behind as many entries as different followers can be seated |
| Cluster.LastEntryIsKept | lib/net/src/multihop.cpp:206-213 | which it does, as the last of at most 256 entries |
| Cluster.AddressZeroGetsSlotZero | lib/net/src/multihop.cpp:378-379 | a request from address 0 matches the zeroed entry and is granted slot 0 |
| Effects.AnswerIs | lib/net/src/multihop.cpp:370-414 | the answer to a request, field by field: accepted if and only if the follower is listed or the window has a free slot, with the entry in which it is listed |
| Cluster.AnnounceClusterhead | lib/net/src/multihop.cpp:115-128 | volunteering compares the capped 16-bit sum of base and credit with the drawn byte |
| Clusterheads.VolunteersIff | lib/net/src/multihop.cpp:100-128 | the probability of every ring and credit, in numbers |
| Cluster.FindFollower | lib/net/src/multihop.cpp:376-390 | the duplicate guard finds the first used entry of the follower |
| Cluster.PrepareClusterhead | lib/net/src/multihop.cpp:206-221 | acks and table are cleared, the last entry is the clusterhead's own, the window start is the ring's |
| Cluster.AcceptFollower | lib/net/src/multihop.cpp:370-414 | table and answer after one request, as the allocator lemmas describe them |
| Cluster.Init | lib/net/src/multihop.cpp:256-277 | refuses arrays shorter than a superframe and what the link layer refuses, otherwise sets up the node, the gateway with its slot table |
| Advertising.StepIsSafe | lib/net/src/multihop.cpp:547-773 | every step of every node keeps the network invariant and what others rely on |
| Advertising.RunIsSafe | lib/net/src/multihop.cpp:775-821 | the invariant holds in every state of every run |
| Clusters.SlotTableAgreement | lib/net/src/multihop.cpp:712-725 | in every run, a member's start slot, relative slot and ack slot are those its clusterhead's table holds for it |
| Clusters.NoSharedSlot | lib/net/src/multihop.cpp:376-413 | two members of one clusterhead never share a slot |
| Clusters.SlotsAreKept | lib/net/src/multihop.cpp:553-567 | once a clusterhead accepts followers, no entry of its table is wiped or moved before advertising ends |
| Clusters.PromisesAreKept | lib/net/src/multihop.cpp:739-752 | a slot promised on the air stays the follower's, whoever hears of it and when |
| Clusters.HandshakeCompletes | lib/net/src/multihop.cpp:664-728 | when nothing is lost, one Follow and one Accept bring a follower into its target's next free slot |
| Clusterheads.RoleBringsEmptyTable | lib/net/src/multihop.cpp:206-221 | whoever takes the clusterhead role, at the start of a round or on joining, has one slot, its own last entry, no follower, no acks, and the window of its ring |
| Clusterheads.TakesRoleIff | lib/net/src/multihop.cpp:712-752 | while joining, a node takes the role if and only if it is accepted, has none and volunteers |
| Clusterheads.StandsAtStartIff | lib/net/src/multihop.cpp:547-570 | at the start of a round a node stands if and only if the round is that of its ring and it is the gateway or volunteers |
| Clusterheads.ClusterheadsAreEquipped | lib/net/src/multihop.cpp:206-221 | in every run, every node with the role, whether it stands or not, has the window of its ring, its own last entry, and one slot for itself and each follower accepted in this superframe, in that order, and nobody else |
| Effects.SaysIff | lib/net/src/multihop.cpp:343-414 | what each step says: a due announcement, a due request, an answer, in full; when it is queued, flushed, repeated; and that no other step says anything |
| Effects.AsksBestHeard | lib/net/src/multihop.cpp:631-656 | a node asks the best of all announcements that it heard from others in this round, if that is closer, and nobody otherwise |
| Effects.RefusalMovesOn | lib/net/src/multihop.cpp:753-768 | the first refusal makes it ask the second best, if that is closer, and a later one changes nothing |
| Clusters.ClusterheadIsCloser | lib/net/src/multihop.cpp:639-646 | a member's clusterhead is a real one, strictly closer to the gateway, in ring 0, 1 or 2 |
| Clusters.ClusterForest | lib/net/src/multihop.cpp:639-646 | chains of clusterheads never turn back and have at most one hop per round |
| Clusters.StandsIff | lib/net/src/multihop.cpp:605-615 | a node stands if and only if it volunteered and heard no rival before it announced and no higher one after |
| Clusters.RivalAnnounced | lib/net/src/multihop.cpp:583-591 | a rival heard in phase is of the same ring and got its own announcement out |
| Clusters.HighestAnnouncerStandsIff | lib/net/src/multihop.cpp:605-615 | of all nodes of a ring that announced, the highest address stands if and only if it heard no late announcement of a higher one |
| Clusters.HighestAnnouncerStands | lib/net/src/multihop.cpp:605-615 | of all nodes of a ring that announced, the highest address stands, whatever was lost, where rivals are heard in phase |
| Clusters.ElectionKeepsHighest | lib/net/src/multihop.cpp:547-621 | in every run in which nodes hear one another in the same phase, with any topology and loss, the highest announcer of a ring stands |
| Clusters.SomebodyStands | lib/net/src/multihop.cpp:547-621 | an announcement round in which somebody announced never loses everyone |
| Clusters.LosslessElection | lib/net/src/multihop.cpp:547-621 | where the nodes of a ring hear each other, exactly the highest announcer stands |
| Clusters.LeftoverIsTransmitted | lib/net/src/multihop.cpp:583-591 | an announcement whose flush failed is transmitted by a later Follow although its author yielded |
| Clusters.LateAnnouncementUnseats | lib/net/src/multihop.cpp:605-615 | whoever hears such an announcement of a higher address while announcing no longer stands, although it is the highest announcer |
| LostElection.HighestAnnouncerLoses | lib/net/src/multihop.cpp:547-621 | a run of three nodes from the start of advertising: a failed flush and two late messages, and the highest announcer, and everybody else of its ring, is out |
| Clusters.AtMostTwoRequests | lib/net/src/multihop.cpp:664-674 | in one joining phase a node asks its first candidate and, after a refusal, its second, and nobody else |
| Loops.StandForElection | lib/net/src/multihop.cpp:547-567 | a node stands if its ring is the round's and it is the gateway or volunteers; only a first promotion prepares the table |
| Loops.OpenClusterAndFlush | lib/net/src/multihop.cpp:583-591 | the announcement goes through the TX buffer; it stays pending unless it was queued and the frame transmitted |
| Loops.ConsiderAnnouncement | lib/net/src/multihop.cpp:596-615 | another node's announcement updates the candidates, and unseats this node if it is a rival and this node's is pending or lower |
| Loops.RunClusterheadAnnouncement | lib/net/src/multihop.cpp:547-621 | state, candidates, flags and link buffers after the announcement loop are those of its steps, from the bytes that the radio received |
| Speaking.DueAnnouncementGoesOut | lib/net/src/multihop.cpp:581-592 | a pending announcement that is due leaves in one frame behind all that was queued exactly when it fits, the window is active and the radio transmits; otherwise no frame leaves |
| Speaking.RoleAfterAnnouncing | lib/net/src/multihop.cpp:547-567 | whatever is heard, who has the clusterhead role after the announcement phase depends on round, role and the byte drawn at its start |
| Speaking.AnnouncementIsOnAir | lib/net/src/multihop.cpp:547-621 | an announcement that is pending, due and can be sent in some turn is on the air when the round is over |
| Speaking.RoundDecides | lib/net/src/multihop.cpp:547-567 | a follower in the round of its ring has the clusterhead role after the round if it volunteers with the byte drawn at its start; without that, only joining can give it |
| Speaking.AnnouncingTurnHears | lib/net/src/multihop.cpp:593-618 | a turn of the announcement loop takes in every message of the frame that it receives, in order |
| JoinLoop.RunClusterheadJoining | lib/net/src/multihop.cpp:623-773 | the same for the joining loop; a turn ends at a refusal and at a message that does not decode |
| JoinLoop.FollowAndFlush | lib/net/src/multihop.cpp:664-674 | a Follow for the target, if there is one, is queued, and all that is queued is flushed |
| Speaking.DueRequestGoesOut | lib/net/src/multihop.cpp:664-674 | a due request for a target leaves in one frame behind all that was queued when it fits, the window is active and the radio transmits |
| Speaking.NoRequestUnlessDue | lib/net/src/multihop.cpp:664-674 | no other turn that hears nothing sends anything |
| Speaking.RequestIsOnAir | lib/net/src/multihop.cpp:664-674 | a request that is due and can be sent in some turn is on the air when the round is over |
| Speaking.JoiningTurnHears | lib/net/src/multihop.cpp:687-771 | a turn of the joining loop takes in the messages of the frame that it receives, in order, up to the first that refuses the node |
| JoinLoop.AcceptAndFlush | lib/net/src/multihop.cpp:698-702 | a request is answered by the slot table, and all that is queued is flushed |
| Speaking.RequestIsAnswered | lib/net/src/multihop.cpp:698-702 | a request is answered at once by a frame that ends with the answer |
| JoinLoop.TargetSecond | lib/net/src/multihop.cpp:754-767 | the second candidate becomes the target once, and only if it is closer to the gateway |
| JoinLoop.ProcessArrival | lib/net/src/multihop.cpp:693-770 | one received message is answered, joined on, or refused exactly as the step says |
| JoinLoop.JoinCluster | lib/net/src/multihop.cpp:716-752 | the upstream fields are set from target and answer; a node without the role takes it if it draws it |
| Advertise.RoundsAreRun | lib/net/src/multihop.cpp:812-821 | the rounds of a script take a node exactly through the events of the script, which are a function of it, and end behind the last round |
| Advertise.PlanIsScript | lib/net/src/multihop.cpp:775-833 | the phase with its link layer is the phase of its script; what the node counts as queued and transmitted is what the TX buffer holds and what its frames carry |
| Advertise.ResetCluster | lib/net/src/multihop.cpp:783-795 | role, upstream fields and acks are reset, the rest is kept |
| Effects.AdvertisingForgets | lib/net/src/multihop.cpp:783-806 | before the rounds: nobody's member, no clusterhead role, no acks, and everything else as it was |
| Advertise.RunRounds | lib/net/src/multihop.cpp:812-821 | the loop over the rounds leaves state and link layer where its steps lead |
| Advertise.SettleCredit | lib/net/src/multihop.cpp:823-830 | the role resets the credit, its absence earns one up to 255, the gateway's is left alone |
| Effects.SuperframeSettlesCredit | lib/net/src/multihop.cpp:775-833 | over a whole advertising phase, whatever happens in it: no credit with the role, one more without, the gateway's as it was |
| Effects.SuperframeSettlesMembership | lib/net/src/multihop.cpp:716-725 | after it, the upstream fields are those of the last answer that accepted the node, or of nobody's member if there was none |
| Effects.SuperframeSettlesRing | lib/net/src/multihop.cpp:805-821 | its ring, histogram and hysteresis counter are those that the discovery loop computed from the frames that it received |
| Advertise.DoAdvertise | lib/net/src/multihop.cpp:775-833 | outside slot 0 only the clock ticks; inside, on the default code, resets, discovery, rounds and credit leave state, TX and RX buffer and transmitted frames as the plan prescribes |
| Refinement.InitIsWellFormed | lib/net/src/multihop.cpp:256-277 | set-up yields a node whose role suits its address and whose arrays fit |
| Refinement.AdvertisingKeepsWellFormed | lib/net/src/multihop.cpp:775-833 | and every advertising phase leaves it one |
| Refinement.RoundsBeginARun | lib/net/src/multihop.cpp:783-806 | whatever discovery did, the rounds begin where a run of the clustering protocol may begin |
| Refinement.AdvertisingIsSteps | lib/net/src/multihop.cpp:808-821 | the three rounds of an execution are exactly the events of its script |
| Refinement.AdvertisingIsASuperframe | lib/net/src/multihop.cpp:775-833 | every execution of `do_advertise` is a superframe of the waiting theorem |
| Refinement.NodeRunsLocally | lib/net/src/multihop.cpp:775-821 | in every run of the clustering protocol, a node is what the events at that node make of it |
| Refinement.ExecutionsEndARun | lib/net/src/multihop.cpp:808-821 | when the steps of every node are the events of its execution, the nodes with which all executions end are the last state of that run |
| Refinement.ExecutionsAgree | lib/net/src/multihop.cpp:712-725 | so after executions at all nodes, what a member believes of its slots is what its clusterhead's table holds |
| Refinement.ExecutionsKeepTimetable | lib/net/src/multihop.cpp:775-860 | and their clusters are chains of at most three hops on which send slots increase |
| Refinement.PlanIsExecution | lib/net/src/multihop.cpp:775-833 | what `do_advertise` computes on the objects is such an execution, with queue and transmissions those of the link layer |
| Interleaving.StageIsRun | lib/net/src/multihop.cpp:775-821 | at every turn of its loops, and while it awaits an answer, a node is what the events so far make of it, and its link layer holds and has transmitted what it counts |
| Interleaving.PlansFormARun | lib/net/src/multihop.cpp:775-833 | plans at all nodes, in which what is heard was read from frames that other nodes had transmitted by then, are executed by a run of the network |
| Interleaving.PlansAgree | lib/net/src/multihop.cpp:712-725 | so after such plans, what a member believes of its slots is what its clusterhead's table holds |
| Waiting.OneCourse | lib/net/src/multihop.cpp:823-830 | a superframe without the role earns a credit, and accepts the node only while its probability is below 255 |
| Waiting.BoundedWaiting | lib/net/src/multihop.cpp:115-128 | of nine superframes in a row, the last with acceptance, the node has the clusterhead role after at least one, for all random bytes and rings |
| Waiting.WaitingByRing | lib/net/src/multihop.cpp:100-124 | a node at a given ring needs no more than that ring's number of superframes without the role |
| Waiting.CertainIff | lib/net/src/multihop.cpp:100-127 | the credits at which volunteering is certain: 0 in ring 1, 2 in ring 2, 4 in ring 3, 6 beyond, 8 without a ring |
| Waiting.EightAreNotEnough | lib/net/src/multihop.cpp:745-752 | eight are not enough: a node can be accepted in all of them and never have the role |
| Timetable.WindowInSuperframe | lib/net/src/multihop.cpp:215-220 | windows lie behind the advertisement slot and inside the superframe; no 8-bit value overflows |
| Timetable.WindowIsLargest | lib/net/src/multihop.cpp:52-54 | a window is the largest for which as many as the reuse distance fit behind the advertisement slot |
| Timetable.WindowsApartIff | lib/net/src/multihop.cpp:215-220 | the window of one ring is over before another's starts exactly when their remainders by the reuse distance say so |
| Timetable.SlotsOfMember | lib/net/src/multihop.cpp:718-725 | a member sends inside its clusterhead's window, which answers in its last slot, where the member listens |
| Timetable.RendezvousIff | lib/net/src/multihop.cpp:937-950 | the receive guard passes for a member exactly in the slot in which it sends, unless that is the last slot of the window |
| Timetable.LastMemberIsUnheard | lib/net/src/multihop.cpp:937-950 | with a window of two slots, the only member is never listened to |
| Timetable.RelayOrderIff | lib/net/src/multihop.cpp:835-860 | a relay has heard and answered its members before it sends if and only if its ring comes behind its clusterhead's within the reuse distance |
| Timetable.ReuseDistanceIff | lib/net/src/multihop.cpp:215-220 | all clusterhead rings of an advertising phase are in that order if and only if the reuse distance is at least 3 |
| Timetable.RelaySendsTooEarly | lib/net/src/multihop.cpp:835-860 | with a reuse distance of 2, a relay in ring 2 sends to ring 1 before its own member sends to it |
| Timetable.CodesDifferIff | lib/net/src/link_layer.cpp:369-372 | the spreading codes of a window are all different if and only if it has at most seven slots |
| Link.CodesCycle | lib/net/src/link_layer.cpp:369-372 | the codes are 6 to 12, in turn |
| Timetable.CodeIsOfSlot | lib/net/src/link_layer.cpp:369-380 | a member sends and its clusterhead listens on the code that belongs to the slot, wherever the window lies |
| Convergecast.Rendezvous | lib/net/src/multihop.cpp:937-950 | in every run a clusterhead listens to a member exactly when that member sends, on the same spreading code, and takes what it hears for that member's |
| Convergecast.OneCodePerSlot | lib/net/src/link_layer.cpp:369-380 | in every run and slot, all members that send and all clusterheads that listen use the same code, in whatever cluster |
| Convergecast.HeardWhenSent | lib/net/src/link_layer.cpp:102-113 | the same across two nodes' cached clocks, whatever timing calls they made |
| Convergecast.SendSlotsIncrease | lib/net/src/multihop.cpp:835-847 | along chains whose clusterhead rings are below the reuse distance, send slots strictly increase |
| Convergecast.ConvergecastTimetable | lib/net/src/multihop.cpp:215-220 | with a reuse distance of at least 3, in every chain of every run: send slots increase, each relay answers before it sends, all slots are in the superframe |
| Acks.SendAckRange | lib/net/src/multihop.cpp:440-468 | result, end of range and queued bytes of one ack message |
| Acks.RangesTile | lib/net/src/multihop.cpp:911-919 | the ranges sent follow each other without gap or overlap and stay inside the ack array |
| Acks.LoopSendsOnce | lib/net/src/multihop.cpp:911-919 | whatever space is free, the loop sends at most one message, and a closed form says how many acks leave |
| Acks.SendAllAcks | lib/net/src/multihop.cpp:911-919 | the loop ends, because even a message without acks takes room, and queues exactly those ranges |
| Acks.AcksAreSentIff | lib/net/src/multihop.cpp:908-919 | the one message that is queued holds the most acks that the free space can carry, from slot 0 on; when nothing is queued, and why |
| Acks.AllAcksGoOutIff | lib/net/src/multihop.cpp:440-468 | the exact free space with which all members are acknowledged |
| Acks.ExactRoomAcksNobody | lib/net/src/multihop.cpp:440-468 | free space for exactly two acks: the one member is told nothing |
| Acks.AcksAreHeard | lib/net/src/multihop.cpp:872-888 | behind anything else queued, old acks included, members below the acknowledged prefix learn the ack for their slot, and others what the older messages tell them |
| Acks.NothingIsHeard | lib/net/src/multihop.cpp:872-888 | which is nothing, if no acks are among them |
| Actions.MemberLearnsItsAck | lib/net/src/multihop.cpp:872-924 | the same through the frame that the clusterhead flushes at the end of its window |
| Actions.ClosingIsHeard | lib/net/src/multihop.cpp:889-897 | the closing message tells a member that its clusterhead stays one, or that it has none |
| Actions.ClosingIsSentIff | lib/net/src/multihop.cpp:921-924 | the closing message is the last of the flushed frame if and only if its 16 bytes fit behind the acks with their length byte and messages may be that long |
| Actions.MemberLearnsOfClosing | lib/net/src/multihop.cpp:889-897 | then a member that reads the frame has the clusterhead as its clusterhead or none, whatever else was queued |
| Actions.AllForwarded | lib/net/src/multihop.cpp:963-974 | where there is room for all, every received datagram is forwarded, in order and byte for byte |
| Actions.AllForwardedIff | lib/net/src/multihop.cpp:963-974 | of every received frame, all datagrams are forwarded if and only if together they fit the free space and none is longer than messages may be |
| Listening.ForwardsWhatFits | lib/net/src/multihop.cpp:963-974 | each datagram of a frame is queued if and only if it fits by then; a refused one stops nothing |
| Listening.AcksLastDatagram | lib/net/src/multihop.cpp:968-970 | the ack is the sequence number of the last datagram of the frame, forwarded or not |
| Actions.AcknowledgedButLost | lib/net/src/multihop.cpp:968-973 | with a full TX buffer of 255 bytes a datagram of one byte is acknowledged and lost |
| Actions.DoFollowerSend | lib/net/src/multihop.cpp:835-847 | only in the own slot, on that slot's code, all that is queued goes out, exactly when the window is active and the radio transmits |
| Actions.HearFrame | lib/net/src/multihop.cpp:870-898 | all messages of a frame are read into the state, and whether the waiting is over |
| Actions.DoFollowerRecv | lib/net/src/multihop.cpp:849-902 | only a member in its ack slot, on code 0, reads frames until it has its answer, the slot is over or nothing is received; result code, state, window and number of frames for all turns |
| Listening.WaitingEnds | lib/net/src/multihop.cpp:862-901 | a member waits through exactly the turns in which a frame without an answer comes while the slot lasts; result and state when the first other turn ends the waiting |
| Actions.DoClusterheadSend | lib/net/src/multihop.cpp:927-935 | only in the last slot of the window, acks and closing message go out behind what was queued, exactly when the window is active and the radio transmits |
| Actions.EmitManagement | lib/net/src/multihop.cpp:908-925 | acks and closing message are queued behind what was queued, where they fit, and all is flushed on code 0; `Actions.ClosingIsSentIff` and `Acks.AcksAreSentIff` say which bytes those are |
| Actions.ForwardAll | lib/net/src/multihop.cpp:960-974 | the loop over a frame queues its datagrams and leaves the last sequence number as ack |
| Actions.DoClusterheadRecv | lib/net/src/multihop.cpp:937-976 | only in a member's slot, on its code, with the result of listening: each datagram of any frame that can be read sets that member's ack and is queued again if it fits |

## Left out

- `MsDeadline` and the clock reads of `lib/net/src/time_helpers.cpp`: whether a deadline has passed is given for every
  turn.
- Clock synchronisation on Accept (`lib/net/src/multihop.cpp:730-738`): it sets the wall clock, which the model takes
  as given.
- The radio, the FUSE files and the Arduino stubs: the air is a set of transmissions, or a sequence of received bytes.
- NotInit checks: methods take objects that are set up.
- `my_slot`, `clusterhead_slot`, `advertisement_slot`: wrappers around slot lookup.
- `join_cluster`, `reset_ring`, `set_clusterhead_probability`, `msgtype`: setters and accessors that the protocol does
  not depend on.
- `lora::wait_recv`: it is taken to deliver at most `rx_sz` bytes and to report their number.
- Agreement, forest and timetable are stated for the end of advertising: a later CloseCluster can replace
  `clusterhead_addr` without a check of its sender (`Acks.Hear` models that).
- End-to-end delivery of relayed datagrams: a clusterhead's management flush transmits requeued datagrams too; the
  timetable is proved instead.
- Actions.DoFollowerRecv: the list of turns is finite; when it is used up, the slot counts as over.
- Fragments.DatagramRoundTrip: a fragment size of 0 is excluded, for which the source divides by zero.
- Acks.SendAllAcks: all messages of one call carry the same time stamp.
- Discovery.RingSafety: no update wraps; for a node within six hops a wrapped update may be sound by chance.
- Probabilities as distributions, energy, and wall-clock liveness of the phase loops.
- `loramesh/`, `lora_txrx/`, `tdma/`, the trace decoders, and `network_layer.h`, which has no implementation.
