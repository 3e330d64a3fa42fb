# Gossip observer: a verified model

The gossip observer watches the Lightning Network's gossip from many collectors. Each
collector runs a node, exports every gossip message it receives, and uploads its view of
the channel graph; a controller assigns peers to collectors and compares their views; an
archiver stores the exported messages in a database; scripts read the database back.

This project models the parts of that system whose correctness is not visible in any one
function, and proves what they do for every input, every visiting order and every
interleaving. `dafny verify dfyconfig.toml` checks all of it.

| file | component |
|---|---|
| `Prelude.dfy`, `KeyedFold.dfy`, `Text.dfy`, `Bytes.dfy` | optional values, enumerations, keyed folds, delimited text and decimals, bytes and bits |
| `GossipTypes.dfy`, `GraphMerge.dfy`, `GraphOrder.dfy` | merging the collectors' graphs into one newest view, and what its entries are |
| `CapacityOrder.dfy`, `OrderIndependence.dfy` | exactly when the order in which collectors are visited matters |
| `GraphDiff.dfy` | comparing every collector with the combined view |
| `ArchiverTypes.dfy`, `Archiver.dfy`, `ArchiverProofs.dfy`, `ArchiverTables.dfy` | the archiver pipeline as a step system and what its four tables hold |
| `ArchiverReferences.dfy`, `ArchiverDrain.dfy` | the references between the tables in the middle of a run, and draining |
| `WireFormat.dfy`, `Exporter.dfy`, `EndToEnd.dfy` | the text format, the filtering exporter, and the two composed |
| `PeerConn.dfy`, `CollectorManager.dfy`, `Registration.dfy` | the two actors and the registration protocol between them |
| `TokenBucket.dfy`, `Bolt7.dfy`, `Scid.dfy` | the rate limiter, the announcement decoder, the stored short channel ids |

## How to read it

Pure code is modelled by functions, code that updates state by classes and methods with
loops, and each method is proved against a function whose own properties are lemmas.
Concurrent tasks are step systems: a state, the steps of each task with their guards, and
lemmas about every state of every run. Arbitrary hash-map iteration is a parameter, an
enumeration of the keys, or a loop that picks any remaining key. Clocks, shuffles, hashes
and the parsers of keys, addresses and directions are parameters.

The main results:

- **Combined graph.** `OrderIndependence.OrderIndependentIff` gives the exact condition, for
  all uploads and repeated keys included, under which the combined graph does not depend on
  the order collectors are visited in. The subtle part is the capacity of a channel, the only
  one whose merge does not associate: `ChannelMergeAssociatesIff` says for which records it
  does, and `LeftIffPossible` which capacities some visiting order leaves. When no collector
  lists a key twice the condition comes down to one on single records (`ListedOnceIff`).
- **Differences.** The ten counters are cardinalities of declared sets
  (`ComputeGraphDifferences`), they add up (`DiffIdentities`), they vanish exactly for an
  up-to-date collector (`ZeroIffUpToDate`), and the branches the code marks as impossible
  are (`OwnNodesNeverExceedCombined`, `OwnDirectionsNeverExceedCombined`).
- **Archiver.** `RunsKeepInv` and `QuiescentTablesAgree`: under every interleaving of ticker,
  handler and the four parallel inserts nothing is lost, duplicated or reordered within a
  table, and once nothing is in flight the tables agree row for row. `EveryScheduleEnds` and
  `EveryScheduleDrains`: without new input every schedule, however unfair, runs out of steps,
  and the next flush leaves nothing in flight. `ReferencesAlwaysHoldIff`: the guard on one
  step that would replace the dropped foreign keys.
- **Wire format.** `RoundTripIff` is the exact condition for a batch to decode to itself, and
  `PublishedBatchDecodes` carries it through the exporter.
- **Protocol.** `HeartbeatsRefineLatest`, `OfflineMeansNeverRegistered`, `UploadsConserved`,
  `CallReturnsPosition`, `Register`, `EmptiedCollectorRecovers`.
- **Rate limit.** `NeverAboveIff` is the exact condition for the token bucket never to be
  overfull, `RateLimit` and `CompletedAcquires` bound what is taken in every run, cancelled
  acquires included.

## Where the code and its comments differ

The model follows the code.

- The decoder demands eleven fields, although its comment speaks of nine
  (gossip_archiver/src/lib.rs:209) and the repository's test strings have nine or ten.
- The migration that drops the foreign keys argues that the archiver always inserts into
  `messages` first in the same transaction. The code inserts into the four tables in parallel,
  and inserting first would not be enough: buffers are filled in any order, so a flush can hold
  a message's other rows while its raw row is still queued. `ReferencesCanDangle` exhibits such
  a run, with `messages` always first, after which rows of all three tables refer to no
  message; `ReferencesHoldIff` says exactly when a table's references hold, and
  `ReferencesAlwaysHoldIff` what keeps them in every state.
- A comment says that unparsable addresses are omitted from a peer list
  (observer_controller/src/grpc_server.rs:269); one such address drops the whole peer
  (`PeerListed`).
- A status report's offline list suggests collectors that went away; a swept collector is
  removed from the expected set, so the list only ever names collectors that never registered
  (`OfflineMeansNeverRegistered`).
- The eligible-peer chunks are sent after every index divisible by 256, so the first chunk
  holds one peer (`SendEligiblePeers`).

## Model

| member | source | states |
|---|---|---|
| GossipTypes.SameNodeInfoIff | observer_common/src/types.rs:390-392 | two announcements have the same info iff they are equal up to the timestamp |
| GossipTypes.SameDirectionInfoIff | observer_common/src/types.rs:486-492 | two direction updates have the same info iff they are equal up to the timestamp |
| GossipTypes.NewerIffLaterStamp | observer_common/src/types.rs:369-376 | a node record is newer iff its timestamp is larger, absence being oldest |
| GossipTypes.DirectionMergeMonoid | observer_common/src/types.rs:494-511 | merging optional directions is associative and idempotent with absence as identity |
| GossipTypes.DirectionMergeCommutesIff | observer_common/src/types.rs:494-511 | merging commutes iff equal timestamps carry equal content |
| GossipTypes.UploadedChannelWellStamped | observer_common/src/types.rs:631-658 | an uploaded channel has the given id, endpoints, capacity and directions, and the maximum of their timestamps |
| GossipTypes.WellStampedPreserved | observer_common/src/types.rs:598-628 | channel merge keeps that invariant |
| GossipTypes.ChannelMergeAssociatesIff | observer_common/src/types.rs:598-628 | channel merge associates on three records iff a single capacity-less one does not decide between two different capacities |
| GossipTypes.CapacityMergeNotAssociative | observer_common/src/types.rs:609-618 | three records for which it does not |
| KeyedFold.CollectRefinesFold | observer_controller/src/collector_manager.rs:470-501 | updating a map entry by entry leaves an entry exactly for the keys seen, each the fold of that key's observations in order |
| KeyedFold.CollectBatch | gossip_archiver/src/main.rs:387-394 | inserting a batch into a keyed table equals having listed its rows after the earlier ones |
| GraphMerge.NodeFoldIsFirstNewest | observer_controller/src/collector_manager.rs:471-484 | a combined node is the first observation with the largest timestamp |
| GraphMerge.DirectionFoldIsLastNewest | observer_common/src/types.rs:494-511 | a combined direction is the last observation with the largest timestamp, absent only if none has it |
| GraphMerge.ChannelFoldHeader | observer_common/src/types.rs:598-628 | endpoints come from the first observation, the timestamp is the largest, a capacity is present iff some observation has one |
| GraphMerge.CapacityFoldIsContender | observer_common/src/types.rs:601-618 | the combined capacity is that of a newest observation with one, or of any when a record without capacity is at least as new |
| GraphMerge.NodeFoldSettled | observer_controller/src/collector_manager.rs:471-484 | if the newest records of a node agree, any two orderings fold alike |
| GraphMerge.ChannelFoldSettled | observer_common/src/types.rs:598-628 | if newest directions, endpoints and possible capacities agree, any two orderings fold alike |
| GraphOrder.CombinedNodeIsNewest | observer_controller/src/collector_manager.rs:470-484 | a combined node exists iff some collector lists it, and is an actual observation with the largest timestamp |
| GraphOrder.CombinedChannelIsNewest | observer_controller/src/collector_manager.rs:486-500 | a combined channel exists iff some collector lists it; each direction is an actual newest observation, present iff any has it; timestamp and capacity as above |
| GraphOrder.CombinedChannelsWellStamped | observer_controller/src/collector_manager.rs:486-500 | every combined channel satisfies the timestamp invariant of the uploads |
| GraphOrder.UnambiguousImpliesOrderIndependent | observer_controller/src/collector_manager.rs:470-501 | uploads that leave nothing ambiguous combine to the same maps in every order, repeated keys allowed |
| GraphOrder.ConsistentImpliesOrderIndependent | observer_controller/src/collector_manager.rs:470-501 | the plainer condition (equal timestamps carry equal content, endpoints and present capacities agree) suffices |
| CapacityOrder.UploadDecides | observer_common/src/types.rs:601-618 | the capacity after one more upload: its decisive one if newer than all before, else the one there was, else the upload's first |
| CapacityOrder.OutcomeIsPossible | observer_common/src/types.rs:601-618 | whatever the order, the capacity left is a possible one |
| CapacityOrder.OwnCapacityWins | observer_common/src/types.rs:601-618 | an upload's own capacity that can be kept is left by some order |
| CapacityOrder.FirstCapacityWins | observer_common/src/types.rs:601-618 | so is the first one it lists, when it can be taken over behind an upload without any |
| CapacityOrder.LeftIffPossible | observer_common/src/types.rs:601-618 | the capacities some order leaves are exactly those that can be taken first and kept to the end |
| OrderIndependence.NodeFoldConcat | observer_controller/src/collector_manager.rs:471-484 | node merge associates: uploads can be folded one by one |
| OrderIndependence.ChannelFoldConcat | observer_common/src/types.rs:598-628 | so does channel merge up to the capacity |
| OrderIndependence.NodeVisitedFirstWins | observer_controller/src/collector_manager.rs:471-484 | an upload whose record of a node is newest gives the result when visited first |
| OrderIndependence.DirectionVisitedLastWins | observer_common/src/types.rs:494-511 | an upload whose view of a direction is newest gives the result when visited last |
| OrderIndependence.EndpointsVisitedFirstWin | observer_common/src/types.rs:619-628 | any upload gives the endpoints when visited first |
| OrderIndependence.NodeOrderFreeIff | observer_controller/src/collector_manager.rs:471-484 | all orders combine a node alike iff the uploads newest on it agree |
| OrderIndependence.ChannelOrderFreeIff | observer_common/src/types.rs:598-628 | all orders combine a channel alike iff uploads agree on endpoints, the newest on each direction, and one capacity is possible |
| OrderIndependence.OrderIndependentIff | observer_controller/src/collector_manager.rs:470-501 | for all uploads, the combined graph is the same for all orders iff the uploads agree in this sense on every key |
| OrderIndependence.ListedOnceIff | observer_controller/src/collector_manager.rs:470-501 | when no upload repeats a key, this is the unambiguity of single records |
| GraphDiff.Combine | observer_controller/src/collector_manager.rs:465-501 | the nested loops compute the keyed fold of everything seen, in visiting order |
| GraphDiff.CombineNodes | observer_controller/src/collector_manager.rs:471-484 | one upload's nodes extend the fold |
| GraphDiff.CombineChannels | observer_controller/src/collector_manager.rs:486-500 | one upload's channels extend the fold |
| GraphDiff.NodeViewIsLast | observer_controller/src/collector_manager.rs:509-510 | a collector's view has exactly the nodes it lists, each as the last record in its list |
| GraphDiff.ChannelViewIsLast | observer_controller/src/collector_manager.rs:549-551 | the same for channels |
| GraphDiff.DiffNode | observer_controller/src/collector_manager.rs:516-546 | which counters one combined node increments |
| GraphDiff.DiffDirection | observer_controller/src/collector_manager.rs:559-590 | which counters one direction increments |
| GraphDiff.DiffNodes | observer_controller/src/collector_manager.rs:509-547 | the node counters are the sizes of the known, unknown, matching, missing and stale key sets |
| GraphDiff.DiffChannels | observer_controller/src/collector_manager.rs:549-596 | the channel counters are the sizes of the corresponding sets, directions counted apart |
| GraphDiff.ComputeGraphDifferences | observer_controller/src/collector_manager.rs:452-612 | every collector gets exactly its diff against the combined view; the controller graph lists each combined entry once; uploads are returned unchanged |
| GraphDiff.ListedNodeCounted | observer_controller/src/collector_manager.rs:516-546 | which counted sets a combined node is in, by the collector's last record of it |
| GraphDiff.UnlistedNodeCounted | observer_controller/src/collector_manager.rs:539-546 | a node the collector does not list is missing, and its info |
| GraphDiff.ListedDirectionCounted | observer_controller/src/collector_manager.rs:559-590 | which counted sets a channel's direction is in, by the collector's last record of it |
| GraphDiff.UnlistedChannelCounted | observer_controller/src/collector_manager.rs:591-596 | a channel the collector does not list is missing, and no direction of it counted |
| GraphDiff.OwnNodesNeverExceedCombined | observer_controller/src/collector_manager.rs:527-530 | the branch for info only the collector has is dead, even with repeated keys; a stale record is never newer |
| GraphDiff.OwnDirectionsNeverExceedCombined | observer_controller/src/collector_manager.rs:564-582 | the same for both channel directions |
| GraphDiff.DiffIdentities | observer_controller/src/collector_manager.rs:507-599 | known plus missing, and matching plus missing plus stale, add up to the combined keys and to twice the known channels |
| GraphDiff.ZeroIffUpToDate | observer_controller/src/collector_manager.rs:507-599 | all missing and stale counters are zero iff the collector lists every combined key and its last record of each agrees up to timestamps |
| ArchiverTypes.SplitLosesNothing | gossip_archiver/src/lib.rs:138-173 | each row has its fields of the message, and the message can be rebuilt from the four |
| ArchiverTypes.SortByTimeStable | gossip_archiver/src/main.rs:342-343 | the sort orders by time, permutes, and keeps the order of equal times |
| Archiver.DbWriteHandler.HandleEvent | gossip_archiver/src/main.rs:285-360 | one loop iteration keeps or hands over the four buffers as specified, timings sorted, and re-establishes the buffer bound |
| ArchiverProofs.StepKeepsInv | gossip_archiver/src/main.rs:192-361 | every step of ticker, handler or insert task keeps conservation, table contents and bounds |
| ArchiverProofs.RunsKeepInv | gossip_archiver/src/main.rs:148-361 | in every state of every run: rows inserted, being inserted, buffered, queued and unsent are the rows of the messages received, in order, per table; timings buffer below the batch size |
| ArchiverProofs.TakenAreReceived | gossip_archiver/src/main.rs:206-212 | what the invariant calls received are the messages of the run, in order |
| ArchiverProofs.HandsOverIff | gossip_archiver/src/main.rs:332-350 | the handler hands over all four buffers exactly on a signal or when a timing fills the batch, which then has exactly the batch size |
| ArchiverProofs.SignalsWhenFull | gossip_archiver/src/main.rs:230-238 | the ticker waits for a flush before a message exactly when a whole batch was forwarded since its last signal |
| ArchiverTables.FirstWriteWins | gossip_archiver/src/main.rs:387-390 | a conflict-ignoring table holds exactly the hashes fed to it, each with its first row |
| ArchiverTables.TimingsConserved | gossip_archiver/src/main.rs:342-361 | timings rows stored and in flight are, as a multiset, those of the messages received |
| ArchiverTables.TimingsInSegments | gossip_archiver/src/main.rs:342-343 | the timings table is a run of segments, one per batch, each its batch stably sorted by time |
| ArchiverReferences.InsertedArePrefixes | gossip_archiver/src/main.rs:363-519 | in every state of every run each table holds the hashes of a prefix of the messages received, as long as the rows inserted into it |
| ArchiverReferences.ReferencesHoldIff | migrations/20260207214136_drop_foreign_keys.sql:1-8 | a table's references hold iff every message whose row is ahead of its raw row repeats one that is stored |
| ArchiverReferences.RowCountsDecide | migrations/20260207214136_drop_foreign_keys.sql:1-8 | they hold if the raw rows are not behind, and without repeated hashes only then |
| ArchiverReferences.ReferencesAlwaysHoldIff | migrations/20260207214136_drop_foreign_keys.sql:1-8 | they hold in every state of a run iff no insert into the table finishes before the messages it refers to are stored |
| ArchiverReferences.ReferencesCanDangle | migrations/20260207214136_drop_foreign_keys.sql:1-8 | a run inserting into messages first in every flush, after which rows of all three tables refer to no message |
| ArchiverTables.QuiescentTablesAgree | gossip_archiver/src/main.rs:363-519 | with nothing in flight, the keyed tables hold exactly the hashes in timings, and the three rows of a hash come from the first message with it |
| ArchiverDrain.NeverStuck | gossip_archiver/src/main.rs:171-360 | with work left some step needing no input is possible |
| ArchiverDrain.StepReducesWork | gossip_archiver/src/main.rs:171-360 | every such step of any task reduces the work |
| ArchiverDrain.EveryScheduleEnds | gossip_archiver/src/main.rs:171-360 | without input every schedule has at most as many steps as there was work, and can go on exactly while work is left |
| ArchiverDrain.EveryScheduleDrains | gossip_archiver/src/main.rs:171-360 | once settled, a flush tick lets every schedule settle again within six steps, with nothing in flight |
| ArchiverDrain.EveryRunCanDrain | gossip_archiver/src/main.rs:171-360 | from every state of every run quiescence can be reached without new messages |
| Text.SplitJoin | gossip_archiver/src/lib.rs:210-213 | splitting undoes joining when no part contains the delimiter |
| Text.JoinSplit | gossip_archiver/src/main.rs:552 | joining undoes splitting |
| Text.ValueIff | gossip_archiver/src/lib.rs:224-252 | exactly the non-empty strings of digits have a value |
| Text.ValueIsDecimal | gossip_archiver/src/lib.rs:224-252 | it is the decimal value |
| Text.ParsesIff | gossip_archiver/src/lib.rs:224-252 | which texts parse as unsigned and as signed 64-bit numbers, signs included, and to what |
| Text.ParsePrintUnsigned | gossip_archiver/src/lib.rs:233-252 | printed numbers parse back exactly when within the type's bound |
| Text.ParsePrintI64 | gossip_archiver/src/lib.rs:224-244 | the same for signed 64-bit numbers |
| WireFormat.DecodePayload | gossip_archiver/src/main.rs:552-569 | the loop forwards the decoded lines before the first bad one and reports whether there was none |
| WireFormat.DecodesWhatItSays | gossip_archiver/src/lib.rs:208-270 | a line decodes to a record iff it has eleven fields and each says the record's value: times, peer, type code by name, direction, size, hashes, message, origin, scid, collector |
| WireFormat.DecodedInOrder | gossip_archiver/src/main.rs:552-569 | the loop succeeds iff every line decodes, and what it forwards are the decoded lines in order |
| WireFormat.LineRoundTripIff | gossip_archiver/src/lib.rs:208-270 | a line decodes to its record iff the record is clean |
| WireFormat.RoundTripIff | gossip_archiver/src/lib.rs:208-270 | a non-empty batch decodes to the same records in order iff every record is clean: no delimiter in its texts, no empty present node id, acceptable timestamps and direction |
| WireFormat.FilteredFieldIsPeer | gossip_collector/src/exporter.rs:242-249 | for every line the archiver accepts, the filtered field is the decoded peer |
| Exporter.SecondFieldAlwaysPresent | gossip_collector/src/exporter.rs:250-256 | the branch for a malformed message is dead |
| Exporter.StepKeepsInv | gossip_collector/src/exporter.rs:204-273 | every step keeps: up-to-date rules equal the manager's filter, batches below or at their size |
| Exporter.RunsKeepInv | gossip_collector/src/exporter.rs:200-364 | published, batched, queued and held messages are the received ones whose peer was not pending at receipt, in order; every published batch has the batch size |
| Exporter.NothingPendingIsPublished | gossip_collector/src/exporter.rs:242-249 | no published message came from a peer pending when it was received |
| Exporter.ForwardedIff | gossip_collector/src/exporter.rs:240-256 | exactly the received messages whose second field was not pending are forwarded, in order |
| Exporter.ReceivedAt | gossip_collector/src/exporter.rs:204-240 | each message was received at a step whose manager had exactly the recorded peers pending |
| Exporter.PublishedWasNotPending | gossip_collector/src/exporter.rs:231-249 | a published message is an exported one with the key appended, and no connection of its peer was pending at the step that received it |
| Exporter.ExporterCanMove | gossip_collector/src/exporter.rs:204-273 | a waiting or held message never lacks a step that brings it on |
| Exporter.Environment | gossip_collector/src/exporter.rs:204-240 | the messages are those the node exported in the run, and the manager is in the state its own messages lead to |
| EndToEnd.PublishedBatchDecodes | gossip_collector/src/exporter.rs:337-346 | every published batch of clean records decodes, to exported records from peers that were not pending |
| PeerConn.HandleKeepsInv | gossip_collector/src/peer_conn_manager.rs:77-123 | no queued pubkey repeats, the pubkey set matches the queue, the published filter names exactly the pending peers |
| PeerConn.PeerConnManager.HandleMsg | gossip_collector/src/peer_conn_manager.rs:77-123 | the whole new state and the reply for every message |
| PeerConn.PendingAdded | gossip_collector/src/peer_conn_manager.rs:79-83 | the connection is appended and the filter published |
| PeerConn.PendingRemoved | gossip_collector/src/peer_conn_manager.rs:84-88 | exactly the entries of other peers or addresses stay, in order and multiplicity, and the published filter names exactly their keys |
| PeerConn.PendingSwept | gossip_collector/src/peer_conn_manager.rs:89-95 | the same for the entries younger than the delay |
| PeerConn.QueueMessages | gossip_collector/src/peer_conn_manager.rs:96-122 | the other messages leave pending list and filter alone; what emptying leaves and what is answered |
| PeerConn.RotationKeepsOrder | gossip_collector/src/peer_conn_manager.rs:113-117 | after r rotations the peers from position r on are in front, in order, whatever was added |
| PeerConn.CallReturnsPosition | gossip_collector/src/peer_conn_manager.rs:156-167 | the peer at position k is returned by the (k+1)-th call and by none before |
| PeerConn.RotatedToBack | gossip_collector/src/peer_conn_manager.rs:162-166 | a returned peer goes to the back and none is lost |
| PeerConn.SendEligiblePeers | observer_common/src/collector_client.rs:50-63 | the chunks concatenate to the list; the first holds one peer, the others 256, the last fewer |
| PeerConn.AddAllAppendsNew | gossip_collector/src/peer_conn_manager.rs:102-109 | a list extends the queue by the first occurrences of its new pubkeys |
| PeerConn.ChunksDoNotMatter | gossip_collector/src/grpc_server.rs:64-72 | chunk boundaries do not change the result |
| PeerConn.ResendChangesNothing | gossip_collector/src/peer_conn_manager.rs:102-109 | sending the same list again changes nothing |
| PeerConn.DeliverPeers | observer_common/src/collector_client.rs:41-64 | sender and receiver together append exactly the new peers |
| CollectorManager.Manager.HandleMsg | observer_controller/src/collector_manager.rs:124-225 | the whole new state and the reply for every message |
| CollectorManager.Manager.Sweep | observer_controller/src/collector_manager.rs:147-160 | the three passes drop expired heartbeats and forget collectors left without any |
| CollectorManager.FreshOfOrdered | observer_controller/src/collector_manager.rs:149-151 | the retained part of a time-ordered list is a suffix, empty iff the last heartbeat expired |
| CollectorManager.HeartbeatsRefineLatest | observer_controller/src/collector_manager.rs:113-187 | with a clock that never goes back, the lists refine the map of latest heartbeats; no list is empty; expected collectors are the assigned ones never swept |
| CollectorManager.LookupIsLatest | observer_controller/src/collector_manager.rs:181-187 | a lookup returns the latest heartbeat iff it survived every sweep |
| CollectorManager.RegisteredIff | observer_controller/src/collector_manager.rs:124-187 | in terms of the messages alone: registered and answered as active iff the last heartbeat was not found expired by a later sweep, looked up as that heartbeat, expected iff assigned and never swept |
| CollectorManager.OfflineMeansNeverRegistered | observer_controller/src/collector_manager.rs:420-432 | a report names only assigned collectors that had never registered, and every one that still has not |
| CollectorManager.UploadsConserved | observer_controller/src/collector_manager.rs:213-223 | what the callers of the dumps received for a collector, followed by what is stored, is everything it pushed, in order, for any interleaving |
| CollectorManager.ReplyTakes | observer_controller/src/collector_manager.rs:221-223 | a dump's reply has what was stored for a collector, and leaves nothing |
| CollectorManager.UploadArrivesWhole | observer_controller/src/grpc_server.rs:224-251 | what the uploader sends, interleaved with anything but a dump, appears whole and contiguous per kind |
| CollectorManager.SendGossipGraph | observer_common/src/controller_client.rs:49-83 | node chunks then channel chunks of at most 1024, together the whole graph: an upload in the sense of the previous row |
| Registration.HandleCollectorInfo | observer_controller/src/collector_manager.rs:335-418 | records the heartbeat; answers with the assignment unless the collector is active and did not ask |
| Registration.AssignmentIff | observer_controller/src/collector_manager.rs:360-413 | a collector's assignment is that of its community, and exists iff mapping, stats and members are configured |
| Registration.UsableIffConverts | observer_common/src/types.rs:122-130 | a member converts iff it has sockets, and its key and every address parse |
| Registration.AddressTextsOf | observer_controller/src/csv_reader.rs:40-52 | the addresses of a member are the comma-separated texts of its sockets, without quotes around them |
| Registration.PeerListSelects | observer_controller/src/grpc_server.rs:263-270 | the peer list has, in order, exactly the members that convert, each with its key and all its parsed addresses |
| Registration.PeerListed | observer_controller/src/grpc_server.rs:263-270 | a key is sent iff some member with it is usable; one bad address drops the member |
| Registration.RegistrationReply | observer_controller/src/grpc_server.rs:255-285 | the collector's queue gains exactly the new listed peers and its target is set |
| Registration.Register | observer_controller/src/grpc_server.rs:67-93 | succeeds iff mapping, stats and members are configured, whether the collector is new or active, and delivers the assignment independently of the shuffle, every new peer with all addresses of its member |
| Registration.PingLoop.Iterate | gossip_collector/src/main.rs:374-458 | the phase and the call of one iteration |
| Registration.PhaseInvariant | gossip_collector/src/main.rs:402-457 | in every run: first phase iff no eligible peers, heartbeat iff some, active only with the target met |
| Registration.EmptyListRegisters | gossip_collector/src/main.rs:402-447 | of two consecutive reachable iterations without peers, the second registers |
| Registration.RegistersIff | gossip_collector/src/main.rs:402-456 | an iteration registers iff it reaches the controller without peers and there were none either when it was last reached |
| Registration.StaysIff | gossip_collector/src/main.rs:402-442 | when the loop stays in a phase, and where it falls back to |
| Registration.AdvancesToActive | gossip_collector/src/main.rs:402-442 | while the counts suffice, each reached iteration advances exactly one phase, up to the active one |
| Registration.LookReads | gossip_collector/src/main.rs:384-386 | the counts read are those of the queue and the target, as 32-bit numbers |
| Registration.MailboxHandled | gossip_collector/src/peer_conn_manager.rs:125-129 | other tasks act on the same queue and do not touch the loop |
| Registration.GivenIff | observer_controller/src/grpc_server.rs:67-126 | the assignment is given on registering, and on a heartbeat only to an unknown collector |
| Registration.ConnectAndAct | gossip_collector/src/main.rs:392-458 | loop, controller and reply composed: phase and collector after an iteration, whether it registers, is known or unknown on a heartbeat |
| Registration.EmptiedCollectorRecovers | gossip_collector/src/main.rs:402-447 | after the peer list is emptied, whatever the phase and interleaving, once the controller was reached twice the queue holds exactly the usable members, once each and with all addresses, and the target is set |
| TokenBucket.NeverOverfull | observer_common/src/token_bucket.rs:34-43 | available tokens plus the one decided on exceed the largest bucket size by at most the acquires cancelled, although check and add are separate |
| TokenBucket.NeverAboveIff | observer_common/src/token_bucket.rs:34-67 | they never exceed it iff every cancelled acquire returns its token to a bucket with room |
| TokenBucket.CancelCanOverfill | observer_common/src/token_bucket.rs:36-66 | a run of a bucket with one permit in which one does not, leaving more tokens than the size |
| TokenBucket.Refilled | observer_common/src/token_bucket.rs:34-43 | over any stretch the level plus what was taken reaches the least size or grows by one per check |
| TokenBucket.TicksFill | observer_common/src/token_bucket.rs:34-43 | as many ticks as the size fill the bucket while nothing is taken |
| TokenBucket.SizeIsLastSet | observer_common/src/token_bucket.rs:69-79 | the size in force is the one set last |
| TokenBucket.RateLimit | observer_common/src/token_bucket.rs:34-67 | over any stretch of any run, tokens taken are at most the bucket size plus the refill ticks plus the acquires cancelled |
| TokenBucket.CompletedAcquires | observer_common/src/token_bucket.rs:54-67 | since the start, completed acquires are at most the first size plus the ticks, whatever is cancelled |
| TokenBucket.OutstandingPermits | observer_common/src/token_bucket.rs:54-67 | outstanding permits are those granted and not released |
| TokenBucket.PermitsConserved | observer_common/src/token_bucket.rs:54-91 | outstanding, free and forgotten permits are those made and added |
| Bolt7.ParseDescriptor | gossip_tomography/inspect_raw.py:137-176 | one pass of the loop reads the first descriptor or stops |
| Bolt7.ParseAddresses | gossip_tomography/inspect_raw.py:133-177 | the loop returns the readable descriptors from the start, in order |
| Bolt7.AddressesRoundTrip | gossip_tomography/inspect_raw.py:133-177 | every list of well-formed descriptors, followed by nothing, an unknown type or a truncated one, parses to its types and displayed addresses |
| Bolt7.ParsedEntriesDisplay | gossip_tomography/inspect_raw.py:133-177 | each parsed entry says the kind, and host and port in their notation, of the descriptor encoded there |
| Bolt7.DescriptorLayout | gossip_tomography/inspect_raw.py:137-176 | type byte, lengths and port position of every kind of descriptor |
| Bolt7.HexOf | gossip_tomography/inspect_raw.py:150-152 | two hexadecimal digits per byte |
| Bolt7.DottedReadsBack | gossip_tomography/inspect_raw.py:143-145 | the displayed IPv4 address determines the four bytes |
| Bolt7.GroupedInjective | gossip_tomography/inspect_raw.py:150-152 | the displayed IPv6 address determines the sixteen bytes |
| Bolt7.DecodeFeatures | gossip_tomography/inspect_raw.py:72-85 | the loop computes the feature map |
| Bolt7.FeatureInMap | gossip_tomography/inspect_raw.py:72-85 | a name is present iff one of its bits is set in the bytes |
| Bolt7.FeatureIsOptional | gossip_tomography/inspect_raw.py:80-82 | it is optional iff the last of its set bits is odd |
| Bolt7.FeatureNames | gossip_tomography/inspect_raw.py:27-80 | the name of every bit |
| Bolt7.ParseNodeAnnouncement | gossip_tomography/inspect_raw.py:88-130 | None exactly when too short, otherwise the fields at their offsets |
| Bolt7.StripZerosOf | gossip_tomography/inspect_raw.py:111 | exactly the trailing zeros of the alias are stripped |
| Bolt7.AnnouncementRoundTrip | gossip_tomography/inspect_raw.py:88-130 | a whole encoded announcement, with anything after it, parses to its fields |
| Bytes.BitOfBytes | gossip_tomography/inspect_raw.py:74-84 | a bit of the big-endian integer is a bit of one byte counted from the end |
| Bytes.FromBePositions | gossip_tomography/inspect_raw.py:98 | big-endian value of bytes |
| Bytes.OrBits | analysis/test_queries.py:44-53 | the bits of an or |
| Scid.StoredBytes | gossip_archiver/src/lib.rs:105-118 | the column has the id's bytes, least significant first |
| Scid.SqlReadsStored | analysis/test_queries.py:44-53 | the shift-and-or expression reads the stored bytes as a signed 64-bit value |
| Scid.SqlRoundTripIff | analysis/test_queries.py:44-53 | it gives the original id iff the id is below 2^63 |
| Scid.FilterSelectsExactly | analysis/test_queries.py:1017-1019 | a filter by id selects exactly the rows storing it |

## Left out

- Integer widths of counters and timestamps in the graph comparison: the model's numbers are unbounded, the code's counters are 32-bit; with fewer than 2^31 combined channels they agree.
- Shutdown and failure paths (cancelled tasks, closed channels, failed inserts, refused connections): conservation is stated for running states.
- The ticker's loop is modelled as steps of the pipeline rather than as a method, because its sends interleave with the handler; the statistics counters are not modelled.
- The exporter's biased select is one step: the filter cannot change between its two polls. The pause before connecting is not an ordering guarantee and nothing is claimed from it.
- PeerConn.PeerConnManager.HandleMsg: changing the pending list and replacing the watch value are one step, so the exporter's "pending when received" means the published list; in the code another thread can read the watch between the two.
- Registration.EmptiedCollectorRecovers: the steps that act on a reached controller include the whole reply; a reply that fails half-way is a failure path.
- CollectorManager.HeartbeatsRefineLatest: assumes a clock that does not go back; the code uses wall-clock time.
- Protobuf conversion of well-formed values is the identity; parsers of keys, addresses and directions, the 64-bit hash and text decoding are parameters.
- The printing of the ten exported fields happens in the node's fork and follows the format documented at gossip_archiver/src/lib.rs:16.
- The community queries of the collector manager, the peer totals of the status report, and the watchdog that paces connection attempts.
- Community sampling, graph statistics, continuous aggregates, visualisation, configuration, logging and deployment.
- parse_channel_announcement, which does not check its lengths.
