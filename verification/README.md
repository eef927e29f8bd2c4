# A Dafny model of QCore

QCore is a 5G core and gNB-CU in one process. This project models, in Dafny, the parts of it that
decide who gets user plane service and what happens to packets and counters, and proves properties
of that model for all inputs, all runs and all interleavings.

| file | contents |
|---|---|
| `Bytes.dfy` | octets, four-octet keys, big-endian integers, wrapping counters |
| `SlotTable.dfy` | the fixed forwarding tables, against maps keyed by the full key |
| `Userplane.dfy` | sessions, and the packet processor that reserves, commits and deletes them |
| `UeSystem.dfy` | the UE tasks as a step system: one step per message, reply, failure or critical section |
| `UeInvariant.dfy`, `UeSteps.dfy` | the invariant of that system, and that every step keeps it |
| `UeTheorems.dfy`, `UeOwnership.dfy`, `UeDrain.dfy`, `UeAttach.dfy` | what holds of every run: authentication, accounting, slots, drain, reachability |
| `Gtpu.dfy`, `Uplink.dfy` | the extension header walk and the uplink pipeline |
| `Downlink.dfy` | downlink framing and sequence numbers |
| `UeServing.dfy`, `UeChannels.dfy` | the serving loop, release and deregistration, and the channels to UE tasks |
| `UeSecurity.dfy` | what UE tasks send, and under which protection |
| `EndToEnd.dfy` | UE tasks and pipelines together |
| `Transactions.dfy`, `Routing.dfy`, `F1ap.dfy` | the vector of waiting F1AP requests, which request a response reaches, and the F1AP header |
| `Integrity.dfy` | NIA2 input, PDCP and NAS counts and protection |
| `Plmn.dfy` | PLMN and IMSI nibble codec |

Conventions. A `+= 1` on a fixed-width counter wraps, as in a release build. An index beyond a
forwarding table, on which the handler panics, is the outcome `Panic` (or `OutOfRange`); a header
walk that never ends is the outcome `Hang`. AES-CMAC, the challenge function, the key derivation
functions, the ASN.1 and NAS body codecs and the slot number pool are parameters: a pool answer is
any number not handed out.
Code that updates state in place is modelled by classes and methods, each proved against a function
on values; the concurrent tasks are modelled as a step system over such values, because their
properties are about interleavings.

Where the code differs from a document it cites, the code is followed: a three-digit MNC keeps its
digit order (TS 24.501, section 9.11.3.4, does not), and the host numbers given out are 1 to 253
(the command line help says 1 to 254).

## Results that are not what one would expect

- A table of slots is a map of full keys only while no two live keys share a slot
  (`SlotTable.TableIsMapIffNoClash`); in QCore's runs that always holds (`UeTheorems.TablesAreMaps`).
- The header walk does not end on a chain with a zero length octet, and only then
  (`Gtpu.EndlessIffZeroLength`, `Uplink.ZeroLengthHangs`).
- An extended GTP header without extensions skips the length test, and inner packets of 16 to 19
  octets get through (`Uplink.InnerPacketLength`).
- A failed PDU session establishment loses its uplink rule for good (`UeOwnership.LostRuleStays`,
  `UeAttach.LostRuleReachable`); nothing else is ever left behind (`UeOwnership.DoneLeavesLostUplinks`).
- A UE task whose first message is of another kind than the one dispatched right after its spawn
  stays in the channel map until an F1 removal (`UeChannels.ChannelsInRun`); after an F1 removal a
  draining task can take away the channel of a new task that drew the same random id
  (`UeChannels.ReusedIdLosesChannel`).
- Two outstanding F1AP requests of one procedure can get each other's responses, not even in order
  (`Routing.SharedCodeMixesResponses`, `Routing.YoungerServedFirst`); responses are safe iff waiting
  requests differ in code (`Routing.OwnAnswersIffDistinctCodes`).
- A request whose send failed leaves an entry that swallows the next outcome of its code
  (`Routing.DeadEntrySwallows`).
- An odd-length MSIN gains the characters "15" (`Plmn.ImsiExactIffEven`), and non-decimal nibbles
  make two identities one subscriber (`Plmn.SameSubscriberIffSpread`, `Plmn.HexNibblesCollide`).
- Networks whose MNCs differ by a leading zero only have one serving network name
  (`Plmn.NetworkNameEqualIff`).

## Model

| member | source | states |
|---|---|---|
| `SlotTable.LookupIsMapLookup` | qcore/src/userplane/uplink_pipeline.rs:164-177 | index by last octet, then compare the full key, answers exactly as a map keyed by the full key: same hit, same value, panic iff the last octet is 254 or 255, and the two misses told apart by whether another live key has the last octet |
| `SlotTable.OpRefinesMapIffNoClash` | qcore/src/userplane/downlink_pipeline.rs:42-55 | one addition or removal does to the table what it does to the map iff no other live key shares the slot |
| `SlotTable.TableIsMapIffNoClash` | qcore/src/userplane/uplink_pipeline.rs:27-40 | after every prefix of every sequence of additions and removals table and map agree, iff no operation meets a different live key in its slot |
| `SlotTable.SharedSlotForgets` | qcore/src/userplane/uplink_pipeline.rs:31-35 | two keys of one slot: the first is forgotten |
| `SlotTable.ForwardingTable.constructor` | qcore/src/userplane/uplink_pipeline.rs:28-30 | 254 empty slots |
| `SlotTable.ForwardingTable.AddRule` | qcore/src/userplane/downlink_pipeline.rs:42-51 | the rule replaces whatever its slot held, every other slot unchanged |
| `SlotTable.ForwardingTable.RemoveRule` | qcore/src/userplane/uplink_pipeline.rs:36-39 | its slot is emptied, every other slot unchanged |
| `SlotTable.ForwardingTable.Find` | qcore/src/userplane/downlink_pipeline.rs:120-131 | finds the value the map has for the full key, or says which kind of miss |
| `Userplane.PacketProcessor.constructor` | qcore/src/userplane/packet_processor.rs:67-84 | empty tables, slot 0 taken |
| `Userplane.MakeSession` | qcore/src/userplane/packet_processor.rs:92-101 | the address is that host number in the configured subnet, the TEID the three random octets and the slot number, and both lead to the slot |
| `Userplane.PacketProcessor.Reserve` | qcore/src/userplane/packet_processor.rs:87-114 | succeeds iff the number is below 254, keeps the number either way, hands out the subnet's address of that number and a TEID that was not live, adds just that TEID, leaves downlink rules alone |
| `Userplane.PacketProcessor.Commit` | qcore/src/userplane/packet_processor.rs:116-141 | the map of UE addresses gains this session's tunnel with both numbers at zero, and nothing else changes |
| `Userplane.PacketProcessor.Delete` | qcore/src/userplane/packet_processor.rs:143-152 | removes this session's address and TEID from the two maps, and no other |
| `Userplane.PacketProcessor.DeleteAll` | qcore/src/procedures/ue_procedures/ue_message_handler.rs:97-102 | the drain removes exactly the context's sessions from both maps |
| `UeSteps.StepKeepsInv` | qcore/src/procedures/ue_procedures/ue_message_handler.rs:33-106 | every step of every task, message, failure and critical section keeps the ownership and authentication invariant |
| `UeSteps.RunKeepsInv` | qcore/src/procedures/ue_procedures/ue_message_handler.rs:46-95 | so it holds in every state of every interleaving |
| `UeInvariant.ReceiveStage` | qcore/src/procedures/ue_procedures/initial_access.rs:31-159 | every message in every stage leads to the end or to a stage whose evidence has been received, and never loses evidence |
| `UeTheorems.UplinkRulesAreAuthenticated` | qcore/src/procedures/ue_procedures/pdu_session_establishment.rs:31-49 | each uplink rule was installed earlier in the run by a task that had received, in order, a registration of a known IMSI of our PLMN, the right answer to its challenge (unless the check is off), security mode completion and registration completion |
| `UeTheorems.DownlinkRulesAreAuthenticated` | qcore/src/procedures/ue_procedures/pdu_session_establishment.rs:47-49 | the same of each downlink rule and its tunnel |
| `UeTheorems.RoutedAddressesInSubnet` | qcore/src/userplane/packet_processor.rs:97-101 | in every state of every run each routed UE address has the first three octets of the configured subnet and the number of its slot, from 1 to 253 |
| `UeTheorems.RegisteredImsiIsTheUes` | qcore/src/procedures/ue_procedures/initial_access.rs:135-159 | for every MCC, MNC and MSIN: a registration carrying that identity is accepted for an IMSI iff it names the security capability, the PLMN is ours, and the IMSI is that MCC and MNC and the MSIN as parsed and has a SIM on file |
| `UeTheorems.DownlinkImpliesUplink` | qcore/src/userplane/packet_processor.rs:143-149 | at every single-lock step of every interleaving, a downlink rule in a slot stands with the uplink rule of the same, still held, session |
| `UeTheorems.TablesAreMaps` | qcore/src/userplane/packet_processor.rs:87-152 | throughout every run each step changes the two tables as it would change maps of full TEIDs and full addresses: additions are fresh, removals hit, other sessions' rules and lookups are untouched |
| `UeTheorems.SlotsNeverRepeat` | qcore/src/userplane/packet_processor.rs:87-90 | no slot number is given out twice in a run, not even a failed one |
| `UeTheorems.SlotTakenIsFresh` | qcore/src/userplane/packet_processor.rs:67-90 | every slot number given out was not in the pool before, is in it afterwards, and is not 0 |
| `UeTheorems.ReservationsAreGrants` | qcore/src/userplane/packet_processor.rs:87-114 | at every point of a run the successful reservations so far are as many as the slots granted |
| `UeTheorems.AtMost253Reservations` | qcore/src/userplane/packet_processor.rs:67-70 | at most 253 reservations succeed in a whole process run |
| `UeTheorems.GrantsPersist` | qcore/src/userplane/packet_processor.rs:143-152 | over any stretch of a run no slot changes hands and no number returns to the pool |
| `UeOwnership.UplinkAccounting` | qcore/src/procedures/ue_procedures/pdu_session_establishment.rs:22-54 | in every state the uplink rules are exactly those of sessions being established, sessions recorded in a context, and sessions lost to a failed establishment; these are disjoint and share no slot |
| `UeOwnership.LostIsAbandoned` | qcore/src/procedures/ue_procedures/pdu_session_establishment.rs:38-48 | the sessions in flight at the failure steps of a run are exactly the slots marked abandoned at its end |
| `UeOwnership.DoneOwnsNoDownlink` | qcore/src/procedures/ue_procedures/ue_message_handler.rs:97-106 | once a task is done, no downlink rule it ever installed stands |
| `UeOwnership.DoneLeavesLostUplinks` | qcore/src/procedures/ue_procedures/ue_message_handler.rs:33-44 | and an uplink rule it installed stands iff its session was lost to a failed establishment |
| `UeOwnership.LostRuleStays` | qcore/src/procedures/ue_procedures/pdu_session_establishment.rs:31-49 | a lost uplink rule is in the table in every later state |
| `UeDrain.ClosedTaskRunsDown` | qcore/src/qcore.rs:118-133 | behind a closed channel, steps taken plus work left never exceed the work at closing, and receives are exactly what leaves the queue |
| `UeDrain.OwnStepWorks` | qcore/src/procedures/ue_procedures/ue_message_handler.rs:46-106 | each step of a task lowers its bound on remaining work, and only a receive shortens its queue |
| `UeDrain.ClosedTaskNotStuck` | qcore/src/procedures/ue_procedures/ue_message_handler.rs:33-62 | behind a closed channel a task can take a step that is neither a failure nor a reply iff it is not done and not waiting for an F1AP reply |
| `UeDrain.FinishesAlone` | qcore/src/procedures/ue_procedures/ue_message_handler.rs:33-106 | from any state with its channel closed a task has a run of its own steps, none a failure and at most Work of them, to its end |
| `UeDrain.RemovalDrains` | qcore/src/procedures/f1_removal.rs:29-33 | after F1 removal a task receives at most its queued messages and takes at most Work steps; until done it can move on without failure or reply unless it waits for an F1AP reply, and its replies given it gets to its end by itself in the steps that are left |
| `UeAttach.AccessSucceedsIff` | qcore/src/procedures/ue_procedures/initial_access.rs:31-104 | six messages take a UE through initial access iff they are the right ones in order, the fifth being free because the RRC security result is discarded |
| `UeAttach.AttachReachesUserplane` | qcore/src/procedures/ue_procedures/pdu_session_establishment.rs:22-90 | for every such UE, slot, TEID and tunnel there is a run from start-up to a state with exactly its two rules in place and its task serving it |
| `UeAttach.LostRuleReachable` | qcore/src/procedures/ue_procedures/pdu_session_establishment.rs:38-39 | and a run in which a failed context setup leaves the uplink rule of a finished task |
| `UeServing.IdleExact` | qcore/src/procedures/ue_procedures/uplink_nas.rs:21-64 | from the serving loop a message leads to session establishment iff it requests a session, to release iff it deregisters or the DU asks for release, back to the loop iff it is NAS of another kind, and to the end otherwise |
| `UeServing.ReconfigurationExact` | qcore/src/procedures/ue_procedures/pdu_session_establishment.rs:125-134 | a reconfiguration is over with its completion, and any other message ends the UE task |
| `UeServing.ReleaseIsFinal` | qcore/src/procedures/ue_procedures/deregistration.rs:19-32 | after a deregistration or a release request a task receives nothing, takes no slot, installs no rule and records no session for the rest of the run, and once it is done none of the sessions it had has a rule in either table |
| `UeServing.LeavingFinishes` | qcore/src/procedures/ue_procedures/ue_context_release.rs:30-44 | such a task gets to its end by its own steps, the DU's confirmation given, whatever its channel still holds |
| `UeServing.RecordedLeavesNoRule` | qcore/src/procedures/ue_procedures/ue_message_handler.rs:97-102 | a session once recorded in a context has no rule in either table when its task is done |
| `UeServing.FailureEndsTask` | qcore/src/procedures/ue_procedures/ue_message_handler.rs:33-44 | a failure or a closed channel leads to the drain, except at the first message, where the UE task just ends, and while RRC security is activated |
| `UeServing.PoolAnswer` | qcore/src/userplane/packet_processor.rs:88-90 | a slot number of 254 or more ends the UE task; any other starts a session of that number |
| `UeServing.RrcSecurityResultDiscarded` | qcore/src/procedures/ue_procedures/initial_access.rs:84-91 | whatever becomes of the RRC security exchange, the UE task goes on to registration completion |
| `UeServing.PatchProtected` | qcore/src/procedures/ue_procedures/uplink_nas.rs:75-93 | in a protected message the patch clears the security header type of the inner message and nothing else |
| `UeServing.PatchedIff` | qcore/src/procedures/ue_procedures/uplink_nas.rs:75-93 | a message is changed iff it has at least nine octets, starts with 7e 02 and its ninth octet is not zero |
| `UeChannels.ChannelsInRun` | qcore/src/qcore.rs:106-129 | in every run without F1 removal each task is listed under its own id until it has torn its context down, and a task that ends on a first message of another kind stays listed |
| `UeChannels.TeardownRemovesOwn` | qcore/src/qcore.rs:127-129 | in such a run a teardown takes away the UE task's own channel and no other |
| `UeChannels.DispatchExact` | qcore/src/qcore.rs:118-125 | a dispatched message is queued last at the UE task listed under its id, unless that is done, and changes no other task |
| `UeChannels.ReusedIdLosesChannel` | qcore/src/qcore.rs:106-133 | a reachable state in which, after an F1 removal, the teardown of an old task takes away the channel of a new task with the same id |
| `UeSecurity.HistoryLawful` | qcore/src/procedures/ue_procedures/initial_access.rs:31-104 | in every run what a task has encoded, sent and activated is a beginning of the registration sequence, or all of it followed by session accept and reconfiguration by turns, as far as its position says |
| `UeSecurity.NasProtectedInRun` | qcore/src/procedures/ue_procedures/initial_access.rs:57-104 | in every run only the authentication request of a task goes out as plain NAS; the first protected message is the security mode command, under COUNT 0 with the new-context header; each later one is accepted under the next COUNT; the key is that of the row below |
| `UeSecurity.RrcProtectedInRun` | qcore/src/procedures/ue_procedures/mod.rs:62-106 | in every run the setup goes out without PDCP, the two transfers before RRC activation with a zero MAC, and everything from the RRC security mode command on with the MAC of the RRC key under its own COUNT; the key is that of the next row |
| `UeSecurity.KeysInRun` | qcore/src/procedures/ue_procedures/initial_access.rs:57-91 | in every run a task that has activated NAS security registered an IMSI with a SIM and accepted the answer to its challenge; its NAS key is KNASint and its RRC key KRRCint, by KgNB with count 0, of the KAMF of that SIM, that challenge and that IMSI |
| `UeSecurity.ContentsInRun` | qcore/src/procedures/ue_procedures/mod.rs:99-106 | in every run each message was built at the position it belongs to, from its own signal, and an RRC message that carries NAS carries the protected octets encoded just before |
| `UeSecurity.FailsWhereItSends` | qcore/src/procedures/ue_procedures/mod.rs:67-106 | a task can fail exactly at the positions it comes to by building a message, and while it waits for the context setup |
| `UeSecurity.RulesFollowSecurity` | qcore/src/procedures/ue_procedures/initial_access.rs:35-40 | every uplink rule was installed by a task that had activated NAS and RRC security by then, with those keys |
| `EndToEnd.ForwardedOnlyIfAuthenticated` | qcore/src/userplane/uplink_pipeline.rs:92-189 | in any state of any run a datagram is forwarded only if its TEID was installed by an authenticated UE's task |
| `EndToEnd.DownlinkTableOfRun` | qcore/src/userplane/downlink_pipeline.rs:42-55 | the downlink table of a run is that of its commits, deletions and packets alone |
| `EndToEnd.DeliveredInOrderToAuthenticated` | qcore/src/userplane/downlink_pipeline.rs:100-212 | in any state of any run an IPv4 packet is sent to a DU iff its destination is routed; it then uses the tunnel an authenticated UE's task installed for that destination, arrives unchanged, and carries in both numbers the count of packets to that destination since the commit |
| `Gtpu.WalkIsLoop` | qcore/src/userplane/uplink_pipeline.rs:114-123 | the loop, turn by turn, ends where and as the walk says, within n minus offset turns |
| `Gtpu.LoopEndsIffNotEndless` | qcore/src/userplane/uplink_pipeline.rs:114-123 | some number of turns ends the loop iff the walk is not endless |
| `Gtpu.EndlessIffZeroLength` | qcore/src/userplane/uplink_pipeline.rs:115-117 | it is endless iff a visited extension header has length octet zero with room behind it |
| `Gtpu.TooShortIffOverrun` | qcore/src/userplane/uplink_pipeline.rs:115-122 | the loop gives a datagram up iff it visits a header that leaves fewer than 23 octets behind it |
| `Uplink.EarlyDropsExact` | qcore/src/userplane/uplink_pipeline.rs:98-123 | a datagram is too short iff it has fewer than 31 octets, no user data iff its type is not 255 otherwise, and short in its extensions iff such a header is visited |
| `Uplink.HangIffZeroLength` | qcore/src/userplane/uplink_pipeline.rs:98-124 | the handler does not return on exactly those user data datagrams whose walk visits a zero length octet with room behind it |
| `Uplink.ZeroLengthHangs` | qcore/src/userplane/uplink_pipeline.rs:115-123 | a datagram of 35 octets on which it does not return, whatever TEIDs are live: no number of turns leaves the loop |
| `Gtpu.WalkStopsIffChain` | qcore/src/userplane/uplink_pipeline.rs:111-124 | it stops at an offset iff a well-formed chain of extension headers, as a sender writes it, ends there |
| `Gtpu.WalkedIsChain` | qcore/src/userplane/uplink_pipeline.rs:111-124 | the chain that was walked can be read back from the octets |
| `Gtpu.WalkSkipsChain` | qcore/src/userplane/uplink_pipeline.rs:115-123 | any chain of extension headers is skipped to exactly its end |
| `Gtpu.ChainLength` | qcore/src/userplane/uplink_pipeline.rs:117 | a chain is four octets for each unit of its length octets |
| `Gtpu.WalkReadsReceivedOnly` | qcore/src/userplane/uplink_pipeline.rs:92-124 | the walk depends on the received octets only |
| `Uplink.StaleBufferIrrelevant` | qcore/src/userplane/uplink_pipeline.rs:83-185 | two buffers that agree on the received octets get the same drop reason or the same forwarded octets |
| `Uplink.FrameVerdict` | qcore/src/userplane/uplink_pipeline.rs:98-177 | every frame a sender can write that passes the length tests gets the verdict its fields and the live TEIDs call for, drop reasons included |
| `Uplink.ForwardedIffAcceptable` | qcore/src/userplane/uplink_pipeline.rs:92-189 | a datagram is forwarded with inner packet p iff it encodes a user data frame around p with a live TEID |
| `Uplink.ForwardedIsFrame` | qcore/src/userplane/uplink_pipeline.rs:92-189 | from every forwarded datagram the frame it encodes can be read back |
| `Uplink.InnerPacketLength` | qcore/src/userplane/uplink_pipeline.rs:98-124 | a forwarded packet has at least 20 octets iff it did not come behind an extended header without extensions in a datagram of fewer than 35 octets; at least 16 always |
| `Uplink.ShortInnerPacketForwarded` | qcore/src/userplane/uplink_pipeline.rs:114-115 | a packet of 19 octets that is forwarded |
| `Uplink.PacketsConserved` | qcore/src/userplane/uplink_pipeline.rs:95-177 | over any run of packets, received equals the sum of the drop counters plus those not dropped |
| `Uplink.OctetsCounted` | qcore/src/userplane/uplink_pipeline.rs:95-96 | the octet counter is the sum of the lengths |
| `Uplink.CounterIsReason` | qcore/src/userplane/uplink_pipeline.rs:49-62 | each drop counter, by its number, counts the packets dropped for its reason |
| `Uplink.UplinkPipeline.SkipHeader` | qcore/src/userplane/uplink_pipeline.rs:109-124 | on every buffer the loop computes the walk, reading within the received octets; a turn that would be repeated for ever is answered by Endless |
| `Uplink.UplinkPipeline.Classify` | qcore/src/userplane/uplink_pipeline.rs:98-184 | the decisions on every buffer are those of the specification |
| `Uplink.UplinkPipeline.HandleNext` | qcore/src/userplane/uplink_pipeline.rs:92-189 | verdict and all ten counters after one datagram, on every buffer |
| `DownlinkFrames.FrameRoundTrip` | qcore/src/userplane/downlink_pipeline.rs:140-209 | a DU reads back tunnel, both numbers modulo their wire width and the unchanged packet, the length field being the frame length minus 8 |
| `DownlinkFrames.UplinkWalkAgrees` | qcore/src/userplane/downlink_pipeline.rs:148-195 | the uplink walk on a downlink frame stops at the PDCP octet, which has its data bit set, iff the packet has at least 21 octets, and calls it short iff it has 20 |
| `DownlinkFrames.HandledByDestination` | qcore/src/userplane/downlink_pipeline.rs:111-131 | every IPv4 packet, written as header start, source, destination and rest, is sent iff a rule for its destination is live, and then by that rule; the panic and the two misses are those of the destination |
| `DownlinkFrames.CountedByDestination` | qcore/src/userplane/downlink_pipeline.rs:124-138 | it advances the two numbers of its destination's rule, modulo 2^16 and 2^32, and changes no other rule |
| `DownlinkFrames.SourceIrrelevant` | qcore/src/userplane/downlink_pipeline.rs:115-118 | another source address changes neither verdict, rule nor table |
| `DownlinkFrames.RuleCounts` | qcore/src/userplane/downlink_pipeline.rs:134-137 | after any events a live rule's numbers are the packets passed since its commit, modulo 2^16 and 2^32 |
| `DownlinkFrames.SequenceContinuity` | qcore/src/userplane/downlink_pipeline.rs:181-195 | the k-th packet to its destination since the commit carries k modulo 2^12 and k modulo 2^24, for all k and whatever other sessions do |
| `DownlinkFrames.WriteHeader` | qcore/src/userplane/downlink_pipeline.rs:146-195 | the 22 octets written in place, the rest of the buffer untouched |
| `DownlinkFrames.WriteGtpHeader` | qcore/src/userplane/downlink_pipeline.rs:148-167 | the twelve octets of the extended GTP header, the rest of the buffer untouched |
| `DownlinkFrames.WriteExtension` | qcore/src/userplane/downlink_pipeline.rs:169-195 | the ten octets of NR RAN container and PDCP header, the octets before and behind untouched |
| `DownlinkFrames.WriteFrame` | qcore/src/userplane/downlink_pipeline.rs:140-208 | the octets sent are the frame of the packet that was in the buffer |
| `DownlinkFrames.DownlinkPipeline.TakeNumbers` | qcore/src/userplane/downlink_pipeline.rs:120-138 | lookup and advance of both numbers in one critical section, other slots unchanged |
| `DownlinkFrames.DownlinkPipeline.HandleNext` | qcore/src/userplane/downlink_pipeline.rs:100-212 | outcome, table, counters, the frame left in the buffer, and that the pipeline goes on iff there was no panic and the tunnel address of a packet to be sent has 4 or 16 octets |
| `DownlinkFrames.Tally` | qcore/src/userplane/downlink_pipeline.rs:65-131 | packet and octets are counted once, and each drop in the counter of its own reason, by number |
| `Transactions.FirstMatch` | 5g-libs/xxap/src/net/stack.rs:183-188 | the first entry whose test holds, none exactly if no test holds |
| `Transactions.SwapRemoveContents` | 5g-libs/xxap/src/net/stack.rs:193 | the removal takes out that entry and no other |
| `Transactions.SwapRemove` | 5g-libs/xxap/src/net/stack.rs:193 | the last entry stands where the removed one did, and every other entry where it was |
| `Transactions.PendingRequests.Push` | 5g-libs/xxap/src/net/stack.rs:99-102 | the request is appended |
| `Transactions.PendingRequests.Position` | 5g-libs/xxap/src/net/stack.rs:183-188 | the scan panics iff the vector is not empty and the message is too short for the test, and otherwise finds the first match |
| `Transactions.PendingRequests.TakeAt` | 5g-libs/xxap/src/net/stack.rs:193 | removal by index, contents otherwise kept |
| `Transactions.PendingRequests.Drain` | 5g-libs/xxap/src/net/stack.rs:158-165 | all requests are dropped, in order |
| `Transactions.TwoLocksRefineOne` | 5g-libs/xxap/src/net/stack.rs:178-205 | find and remove under two locks, interleaved with pushes and failed sends in any way, gives vector, deliveries, spawned procedures, drops and panics of find-and-remove in one step |
| `Transactions.StepRefines` | 5g-libs/xxap/src/net/stack.rs:178-205 | each step at lock granularity is one atomic step or none |
| `Transactions.IndexStaysGood` | 5g-libs/xxap/src/net/stack.rs:183-193 | between the locks the index goes on naming the first match |
| `Transactions.PushKeepsMatch` | 5g-libs/xxap/src/net/stack.rs:99-102 | a push leaves the first match of a message where it was |
| `Transactions.RemoveNeverPanics` | 5g-libs/xxap/src/net/stack.rs:193 | the second lock never finds the index out of range |
| `Transactions.RequestsConserved` | 5g-libs/xxap/src/net/stack.rs:94-110 | in every run the requests pushed are those waiting, delivered to and dropped, as multisets |
| `Transactions.MessagesConserved` | 5g-libs/xxap/src/net/stack.rs:178-205 | in every run the messages taken up are those delivered, those taken for requests of the peer, the one between the locks and the one that broke the loop, as multisets |
| `Transactions.DeliveredAtMostOnce` | 5g-libs/xxap/src/net/stack.rs:190-199 | no request is in two of these, or twice in one |
| `Transactions.DeliveredWithOwnCode` | 5g-libs/xxap/src/net/stack.rs:98 | every delivery is an outcome message of the request's procedure |
| `Routing.OwnResponseIffDistinctCodes` | 5g-libs/xxap/src/net/stack.rs:98-102 | every waiting request would get its own response iff no two share a code |
| `Routing.OnePerCodeDistinct` | 5g-libs/xxap/src/net/stack.rs:98-102 | under the conditions of the next row, at every point of the run the index held between the locks names the request answered, all others that wait differ in code, and nothing was mixed up |
| `Routing.AnsweredIsGone` | 5g-libs/xxap/src/net/stack.rs:178-205 | in any run with such a peer and no mix-up so far, a request that was answered waits no longer, unless its answer is between the locks |
| `Routing.ResponsesReachTheirRequests` | 5g-libs/xxap/src/net/stack.rs:89-111 | if no request is made while another of its procedure is unanswered, and the peer answers each request sent to it at most once, then over the whole run every response reaches the request it answers, every answer is handed over or between the locks, and none is taken for a new procedure; that the request still waits is derived |
| `Routing.SharedCodeMixesResponses` | 5g-libs/xxap/src/net/stack.rs:193 | after any run, with two requests of one code waiting, the run can go on with the answer to the later one, that answer is delivered to another request, and the later one goes on waiting |
| `Routing.OwnAnswersIffDistinctCodes` | 5g-libs/xxap/src/net/stack.rs:98-193 | in any run with no mix-up so far: each waiting request can be answered next, and all these answers would reach their own requests iff no two waiting requests share a code |
| `Routing.YoungerServedFirst` | 5g-libs/xxap/src/net/stack.rs:193 | a family of whole runs in which the answer to the older of two requests goes to the younger, which a removal had moved ahead |
| `Routing.DeadIffFailed` | 5g-libs/xxap/src/net/stack.rs:104-106 | in every run a response channel is dead iff the send of its request failed |
| `Routing.DeadEntrySwallows` | 5g-libs/xxap/src/net/stack.rs:99-106 | the entry left by a request whose send failed takes the next outcome of its code from a live request behind it |
| `F1ap.PduRoundTrip` | 5g-libs/f1ap/src/top_pdu.rs:20-59 | kind, code and body come back from the octets, given a body codec that round-trips |
| `F1ap.HeaderOctets` | 5g-libs/f1ap/src/top_pdu.rs:45-59 | choice, code, criticality and length of an encoded PDU, octet by octet |
| `F1ap.ResponseClassificationExact` | 5g-libs/f1ap/src/top_pdu.rs:280-289 | the two-octet test for procedure p holds of an encoded PDU iff it is an outcome of p, and the request then decodes exactly that outcome |
| `F1ap.ContextResponsesAccepted` | 5g-libs/f1ap/src/top_pdu.rs:280-329 | the responses to context setup and release, codes 5 and 6, are accepted with their bodies |
| `F1ap.ReleaseIsNeverRefused` | 5g-libs/f1ap/src/top_pdu.rs:322-329 | the release response is never an unsuccessful outcome |
| `F1ap.RoutedByKind` | 5g-libs/xxap/src/net/stack.rs:183-205 | a DU's request never reaches a waiting request, an outcome reaches one of its own code iff there is one |
| `Nia2.InputInjective` | 5g-libs/security/src/nia2.rs:31-34 | two CMAC inputs are equal iff COUNT, BEARER, DIRECTION and message are |
| `Nia2.InputReadsBack` | 5g-libs/security/src/nia2.rs:12-34 | a reader of 32 bits of COUNT, five of BEARER, one of DIRECTION, 26 zero bits and the message returns the four arguments |
| `Pdcp.PdcpTx.Encode` | 5g-libs/pdcp/src/lib.rs:29-69 | PDU and new state on SRB0, unnumbered with a zero MAC, and on SRB1; the inner message can be viewed in either |
| `Pdcp.PdcpTx.MaybeEncapsulate` | qcore/src/procedures/ue_procedures/mod.rs:126-132 | SRB0 messages go out bare and leave the count, SRB1 messages go out as PDUs |
| `Pdcp.PdcpTx.EnableSecurity` | 5g-libs/pdcp/src/lib.rs:25-27 | the key is set, the count kept |
| `Pdcp.TxCounts` | 5g-libs/pdcp/src/lib.rs:11-69 | after any events the count is the number of SRB1 sends modulo 2^32 and the key the last one set |
| `Pdcp.NthPduExact` | 5g-libs/pdcp/src/lib.rs:29-69 | in every interleaving of sends and activation the n-th SRB1 PDU carries number n modulo 4096, its message, and a MAC that is zero before the key is set and then the CMAC under COUNT n |
| `Pdcp.PduExact` | 5g-libs/pdcp/src/lib.rs:29-69 | the PDU of count n carries n modulo 4096 and its message, and a MAC over all octets before the MAC |
| `Pdcp.MacInputSpelled` | 5g-libs/pdcp/src/lib.rs:43-63 | on SRB1 the CMAC is fed with COUNT, 04 00 00 00 and the PDU, read as bearer 0 and direction 1 |
| `Pdcp.MacInputsExact` | 5g-libs/pdcp/src/lib.rs:43-64 | two PDUs of a run share a CMAC input iff their positions agree modulo 2^32 and their messages are equal |
| `Pdcp.MacInputsFresh` | 5g-libs/pdcp/src/lib.rs:43-64 | below 2^32 PDUs no CMAC input is used twice |
| `NasSecurity.SecurityContext.EncodeWithIntegrity` | qcore/src/data/security_context.rs:17-52 | the patched octets are the protected message of the current count, which advances iff encoding succeeds |
| `NasSecurity.NasContext.Encode` | qcore/src/data/nas_context.rs:29-36 | protected once a context is set, plain before |
| `NasSecurity.NasContext.EnableSecurity` | qcore/src/data/nas_context.rs:25-27 | a fresh context at count zero |
| `NasSecurity.ContextCounts` | qcore/src/data/nas_context.rs:25-36 | after any events the context holds the last key and the number of messages encoded under it modulo 2^24 |
| `NasSecurity.UnprotectProtect` | qcore/src/data/security_context.rs:24-48 | a receiver recomputing the MAC over the octets from offset 6 accepts and recovers the message |
| `NasSecurity.MacInputSpelled` | qcore/src/data/security_context.rs:31-43 | NAS feeds the CMAC with COUNT, 0c 00 00 00, the sequence octet and the message, read as bearer 1 and direction 1 |
| `NasSecurity.NthMessageProtected` | qcore/src/data/nas_context.rs:25-36 | in every run each message after activation is protected, the n-th under count n modulo 2^24 with sequence octet n modulo 256; before it goes out plain |
| `NasSecurity.NewContextExactly` | qcore/src/data/security_context.rs:18-22 | the n-th message has header type 3 if n is a multiple of 2^24 and 2 otherwise, so below 2^24 only the first has 3 |
| `NasSecurity.CmacInputsExact` | qcore/src/data/security_context.rs:37-43 | two protected messages of a run share a CMAC input iff their positions since their activation agree modulo 2^24 and they are equal |
| `NasSecurity.CmacInputsFresh` | qcore/src/data/security_context.rs:37-50 | under one activation no CMAC input is used twice within the first 2^24 messages |
| `Plmn.ConvertMccMnc` | qcore/src/main.rs:121-149 | succeeds iff three and two or three digits are given; each octet in terms of the characters, and the serving network name |
| `Plmn.DigitsOf` | qcore/src/main.rs:127-139 | the digit values, or failure iff some character is no digit |
| `Plmn.PackDigits` | qcore/src/main.rs:142-145 | three octets whose nibbles are the six digits in order |
| `Plmn.PlmnOctets` | qcore/src/main.rs:142-145 | the three octets in terms of the characters of MCC and MNC, with fifteen for a missing digit |
| `Plmn.PlmnInjective` | qcore/src/main.rs:121-149 | distinct codes give distinct octets |
| `Plmn.NetworkNameParts` | qcore/src/main.rs:147 | the parts of the serving network name and where MCC and the padded MNC stand |
| `Plmn.NetworkNameEqualIff` | qcore/src/main.rs:147 | two networks have one serving network name iff their MCCs agree and their MNCs do up to a leading zero |
| `Plmn.FgsMobileIdentity` | qcore/src/protocols/nas/parse.rs:10-47 | computes the specified meaning of an identity |
| `Plmn.RefusedIff` | qcore/src/protocols/nas/parse.rs:16-21 | an identity is refused iff it has fewer than twelve octets or its first is not 1 |
| `Plmn.IdentityDigits` | qcore/src/protocols/nas/parse.rs:22-44 | of an identity in decimal digits: which half of which octet each character of the IMSI is, octet by octet |
| `Plmn.GatherNibbles` | qcore/src/protocols/nas/parse.rs:26-38 | the gathered nibbles are those of PLMN, without its filler, and MSIN |
| `Plmn.AppendNibbles` | qcore/src/protocols/nas/parse.rs:35-38 | the loop appends both nibbles of each MSIN octet, low one first |
| `Plmn.WriteDecimal` | qcore/src/protocols/nas/parse.rs:41-44 | the string written is the decimal rendering of the nibbles |
| `Plmn.RenderLength` | qcore/src/protocols/nas/parse.rs:41-44 | rendering never shortens, and keeps the length iff all nibbles are decimal |
| `Plmn.ParseOfConfigured` | qcore/src/protocols/nas/parse.rs:22-46 | the identity of a configured network parses to MCC, MNC and the rendered MSIN nibbles, whatever those are |
| `Plmn.ImsiRoundTrip` | qcore/src/protocols/nas/parse.rs:10-47 | MCC, MNC and an even-length MSIN come back as IMSI and PLMN |
| `Plmn.OddMsinGainsFifteen` | qcore/src/protocols/nas/parse.rs:35-44 | an odd-length MSIN comes back with "15" appended |
| `Plmn.ImsiExactIffEven` | qcore/src/protocols/nas/parse.rs:22-46 | for every digit MSIN the IMSI is MCC, MNC and MSIN iff the MSIN has an even number of digits |
| `Plmn.ImsiLengthExact` | qcore/src/protocols/nas/parse.rs:39-44 | one character per digit iff all MSIN nibbles are decimal |
| `Plmn.DistinctMsinDistinctImsi` | qcore/src/protocols/nas/parse.rs:35-44 | distinct digit strings as MSINs under one PLMN give distinct IMSIs, whatever their lengths |
| `Plmn.RenderEqualIffSpread` | qcore/src/protocols/nas/parse.rs:41-44 | two nibble strings are written alike iff they are the same digits once each nibble from ten up is replaced by 1 and its last digit |
| `Plmn.SameSubscriberIffSpread` | qcore/src/protocols/nas/parse.rs:22-46 | two identities of one network parse to the same IMSI and PLMN iff their MSIN nibbles spread to the same digits |
| `Plmn.HexNibblesCollide` | qcore/src/protocols/nas/parse.rs:41-44 | two identities, one with a decimal MSIN and one without, that parse to one subscriber |

## Left out

- SCTP, UDP and tun I/O, logging, statistics, signals and SIM file loading: foreign calls; a receive is any message, a send has no effect on the state.
- AES-CMAC, Milenage, the key derivation functions and random numbers: function parameters and free choices; which key is derived from what is modelled.
- ASN.1 and NAS body codecs, and the message builders: parameters, or fixed records with easy properties only.
- `Uplink.UplinkPipeline.SkipHeader`: answers Endless where the code would loop for ever, because Dafny methods terminate; the `Gtpu` lemmas show that the loop is then never left.
- `Userplane.PacketProcessor.Reserve`: IPv6 sessions are not modelled, because the code never makes one.
- `DownlinkFrames.DownlinkPipeline.HandleNext`: the send itself, which can fail and end the pipeline, is not modelled.
- After a panic of the match test the receive loop is modelled as ended; what the runtime does with the panic is not modelled.
- Bodies of 16384 octets and more are refused by `F1ap.Encode`; that is an assumption about the codec crate, which is not part of this model.
- Several associations on one pending vector: the two-lock argument needs a single receive loop.
- UE identifiers, the channel map and the receive loop of `qcore.rs` and `ue_message_handler.rs` are modelled on values, as steps of `UeSystem`, not as classes; update in place of the UE context is not captured. Spawn and dispatch are single steps.
- `UeSecurity` lets a task go on after its codec refused a message; the code then fails, so its runs are some of those modelled.
- `Pdcp.PdcpTx.Encode`: takes SRB0 and SRB1 only; on other bearers the code's own assertion fails.
- `Pdcp.PdcpTx.MaybeEncapsulate`: takes SRB0 and SRB1 only, for the same reason.
- `Plmn.ConvertMccMnc`: lengths are counted in characters, not in octets; the same strings are accepted.
- Uplink integrity checks, PDCP reception, SQN, paging, persistence: not implemented in QCore.
- The F1AP procedures QCore neither sends nor handles, beyond their codes.
