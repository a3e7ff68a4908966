# A verified model of the sensor mesh

Nodes of a cluster-tree Wi-Fi mesh sample ten sensor channels on a timer and keep running sums per
module. A node folds in SENSOR frames of its direct children, drains the sums as means towards its
parent, and hands every other SENSOR frame on to the root, which passes it to a server over UDP. The
server answers every eleventh accepted SENSOR frame with a TIME frame, which the root spreads over
the mesh. The project models this firmware and server and proves what they keep, over every run.

| files | what they hold |
|---|---|
| types, samples | addresses, clock readings, slot deletion; sums, means, and when a mean of means is the true mean |
| aggregate, aggregate_table | the aggregation table: as a value, and as the class that updates it in place |
| children, child_table | the children table, likewise |
| gpio, node, mesh_node | the board; one node as a state machine with a ledger; the same node as a class |
| ledger, sizing | conservation and truth of reports over every run; room in the tables, ticks and own steps, disconnects |
| mesh, mesh_flow | nodes on a tree, packets in any order, with losses, refusals and any disconnects; where each sample is |
| mesh_rest, mesh_cover | running out of work once the timers stop; exactly when no data is left in the mesh |
| mesh_room, mesh_runs | network events as steps of a node, tables that refuse nothing; runs from boot: data left behind, any batches at the server |
| lifecycle | the service tasks, their flags and the UDP socket as interleaved steps |
| codec, frames, service, server | the authenticated codec, frames as bytes, the service tasks on bytes, the server loop |
| cbc | the block loops of the cipher module |

How it fits together. Every in-place operation is a method proved equal to a function on values, and
the laws are proved about those functions. A node's step (`Node.Step`) is one timer callback, one
event-handler call or one phase of the service loop. `Ledger` and `Sizing` speak of runs of such
steps; `Mesh` composes the same steps into a network whose packets also carry, as history only, the
original samples they stand for. `Mesh.Inv` holds of every tree of booted nodes (`MeshFlow.BlankInv`) and `MeshFlow.RunNet` keeps it, so lemmas that require `Mesh.Inv`
hold in every state a run reaches. `Service` runs the node on raw buffers and shows that the messages
of the network model are what the bytes say to every node with the key.

Where the code does not do what its design asks for, the code is modelled as written, a failing run or
frame is given, and the exact condition is proved:

- A new aggregation entry keeps the address bytes left in its slot. A disconnect can therefore delete
  the node's own entry instead of the departed child's; `Sizing.StaleMacRun` runs from boot into this
  and on to a refused own sample, with every child keeping to the rules. `Sizing.DisconnectCleansUp`:
  the cleanup works if and only if the last entry under that address is not the node's own.
  `Sizing.EntriesBelongIff`: entries go on belonging to the node or to a connected child, which is what
  the size of the table rests on, if and only if no disconnect deletes the own entry while an entry of
  the departing child is there to stay behind.
- A new child keeps the id left in its slot, so before advertising it passes for another module:
  `Children.NewcomerInheritsId` and `Children.StaleIdRun`.
- Own steps equal ticks in every state of a run if and only if no step refuses the own sample, deletes
  the own entry or takes in a frame with the own id: `Sizing.OwnStepsAreTicks`.
- A mesh task that has left its loop but not yet cleared its flag swallows a restart:
  `Lifecycle.LostRestartRun` from boot, `Lifecycle.RestartIffNotExiting` for the condition. So does a
  bridge task, and an address that comes before the root role starts no bridge either:
  `Lifecycle.LostBridgeRun`, `Lifecycle.EarlyAddressRun` and `Lifecycle.BridgeRestartIff`.
- With timers stopped, data can stay behind in a node that is neither due nor flushed, also by way of an
  advertisement still under way: `MeshRuns.StrandedRun` from boot, and `MeshCover.DeliveredIffCovered`
  for the condition.
- Channel values at the server are means of means, and frames carry no counts: for given batch sizes the
  server is told the true mean in all runs if and only if the sizes are equal
  (`MeshRuns.ServerTrueMeanIffEven`, on `Samples.TrueMeanIffEven`).
- Floats travel without conversion: `Frames.SensorAlikeIff` says when two hosts read a SENSOR frame alike,
  and `Frames.FloatsNeedOneOrder` gives a frame that hosts of different byte orders read differently.
- A socket numbered 0 would never be closed: `Lifecycle.ZeroDescriptorLeaks`.
- The server measures the key by its first zero byte, the firmware by a fixed length: digests agree if
  and only if only zeros follow the first zero byte, `Codec.KeysAgree`.
- The decrypting loop calls the block cipher in its encrypting mode (firmware/main/ms_crypto.c:122):
  `Cbc.AsWrittenIffInvolution`.

## Model

| member | source | states |
|---|---|---|
| Samples.MeanOfMeansWithin | firmware/main/ms_aggregate.c:90-91 | two levels of averaging never leave the range of the original samples |
| Samples.EvenMeanOfMeans | firmware/main/ms_aggregate.c:90-91 | with child batches of one size the delivered value is the true mean of all samples |
| Samples.TrueMeanIffEven | firmware/main/ms_aggregate.c:90-91 | for given batch sizes the mean of means is the true mean of all samples, whatever their values, if and only if the sizes are equal |
| Samples.UnevenMeanOfMeans | firmware/main/ms_aggregate.c:90-91 | the smallest case: one sample and then two |
| Types.ShiftLeft | firmware/main/ms_aggregate.c:19-29 | deletion moves the later slots down by one and leaves the vacated slot's bytes |
| Aggregate.PushValid | firmware/main/ms_aggregate.c:51-79 | a push keeps ids unique, steps at least 1 and the size within capacity, and refuses only a new id in a full table |
| Aggregate.PopValid | firmware/main/ms_aggregate.c:19-29 | a deletion removes exactly that entry's module and keeps the table sound |
| Aggregate.AssociateLive | firmware/main/ms_aggregate.c:129-134 | associating an address changes that module's address and nothing else |
| Aggregate.DrainAt | firmware/main/ms_aggregate.c:99-115 | the drain emits every entry exactly once, in reverse table order |
| Aggregate.DrainsAgree | firmware/main/ms_aggregate.c:81-141 | draining by id in any order of the listed ids empties the table and yields the reports of the last-first drain, one per id |
| Aggregate.ReportSays | firmware/main/ms_aggregate.c:87-91 | a report's means times its steps are the sums, and its span runs from the entry's start to the reading of the clock, in seconds and microseconds |
| Aggregate.DrainSpans | firmware/main/ms_aggregate.c:104-107 | in a drain each report spans to the reading taken for its own entry |
| AggregateStore.AggregateTable.PopSensorsIndex | firmware/main/ms_aggregate.c:19-29 | the shift loop deletes one slot in place, for every index found, and does nothing for -1 |
| AggregateStore.AggregateTable.GetSensorIndexById | firmware/main/ms_aggregate.c:31-39 | the scan returns the last slot in use with that id, -1 if there is none |
| AggregateStore.AggregateTable.GetSensorIndexByMac | firmware/main/ms_aggregate.c:41-49 | the scan returns the last slot in use with that address, -1 if there is none |
| AggregateStore.AggregateTable.PushSensors | firmware/main/ms_aggregate.c:51-79 | adds a sample to its module's sums, or opens an entry with one step and the slot's leftover address, or refuses |
| AggregateStore.AggregateTable.AggregateSensors | firmware/main/ms_aggregate.c:81-97 | reports means, elapsed time and steps of the entry found, then deletes it |
| AggregateStore.AggregateTable.AggregateLastSensors | firmware/main/ms_aggregate.c:99-115 | reports and removes the last entry, leaving all slots as they were; -1 on an empty table |
| AggregateStore.AggregateTable.PopSensors | firmware/main/ms_aggregate.c:117-121 | discards the entry of a module, if any, keeping the order of the rest |
| AggregateStore.AggregateTable.PopSensorsByMac | firmware/main/ms_aggregate.c:123-127 | discards the last entry under an address, keeping the order of the rest |
| AggregateStore.AggregateTable.AssociateMac | firmware/main/ms_aggregate.c:129-134 | writes the address of the module's entry, if any |
| AggregateStore.AggregateTable.GetModuleIds | firmware/main/ms_aggregate.c:136-141 | lists the ids in table order |
| ChildStore.SameAddress | firmware/main/mesh_main.c:112-122 | 0 exactly when all six bytes agree, -1 otherwise |
| ChildStore.ChildTable.GetChildIndexByMac | firmware/main/mesh_main.c:124-133 | the first slot in use with that address, -1 if there is none |
| ChildStore.ChildTable.Push | firmware/main/mesh_main.c:135-150 | a new address takes the first free slot with the id left there; a known one keeps its slot; a full table refuses |
| ChildStore.ChildTable.SetId | firmware/main/mesh_main.c:152-159 | sets the id of a listed child and no other |
| ChildStore.ChildTable.Matches | firmware/main/mesh_main.c:161-164 | true exactly when the address is listed with that id |
| ChildStore.ChildTable.Pop | firmware/main/mesh_main.c:166-181 | both arrays shift in lockstep, the order of the other children stays |
| Children.PushChildKeeps | firmware/main/mesh_main.c:135-150 | addresses stay distinct, a newcomer is appended, no other child's id changes, only a full table refuses |
| Children.SetChildIdKeeps | firmware/main/mesh_main.c:152-164 | afterwards that child passes for exactly the id set, every other child for what it did |
| Children.PopChildKeeps | firmware/main/mesh_main.c:166-181 | exactly the departed child is gone, every other child keeps its id |
| Children.ApplyRefines | firmware/main/mesh_main.c:112-181 | the two arrays refine an ordered map, for connect, advertise and disconnect |
| Children.AdvertisedIdStays | firmware/main/mesh_main.c:316-326 | an advertised child matches exactly its last id through any run of other children's changes |
| Children.NewcomerInheritsId | firmware/main/mesh_main.c:140-147 | a newcomer that has not advertised passes for the module whose id its slot still holds |
| Children.StaleIdRun | firmware/main/mesh_main.c:135-181 | a run in which a child passes for an id it never advertised |
| Gpio.Board.UpdateSensors | firmware/main/ms_gpio.c:56-63 | a reading replaces all channels and counts one tick |
| Gpio.Board.ResetSensors | firmware/main/ms_gpio.c:65-68 | readings and ticks are zero |
| Node.StepValid | firmware/main/mesh_main.c:249-376 | every step keeps both tables sound and their capacities |
| Node.FlushedIff | firmware/main/mesh_main.c:312-315 | from a service start on, the node is flushed if and only if a flush request for it or for all has reached it since |
| Node.StartedWaits | firmware/main/mesh_main.c:223 | a service just started, in whatever state, sends nothing before enough ticks or a flush request |
| MeshNodes.MeshNode.PeriodicSensorsCheck | firmware/main/mesh_main.c:763-770 | one tick and one own sample, also when the full table refuses it |
| MeshNodes.MeshNode.OnChildConnected | firmware/main/mesh_main.c:539-550 | the child is listed, nothing else changes |
| MeshNodes.MeshNode.OnChildDisconnected | firmware/main/mesh_main.c:551-562 | the child and the last entry under its address go; the ledger records what was dropped |
| MeshNodes.MeshNode.Start | firmware/main/mesh_main.c:213-247 | flush starts false; a connected node below the root, and only that, advertises its id and address to its parent |
| MeshNodes.MeshNode.FoldOrForward | firmware/main/mesh_main.c:279-305 | a known child's frame is folded and associated; any other goes to the server from the root and to the root from elsewhere |
| MeshNodes.MeshNode.NoteFlush | firmware/main/mesh_main.c:312-315 | a flush request for this module or for all is remembered for good |
| MeshNodes.MeshNode.NoteAdvertisement | firmware/main/mesh_main.c:316-326 | an advertisement counts only when it names the address it came from |
| MeshNodes.MeshNode.Receive | firmware/main/mesh_main.c:258-327 | own frames are ignored; the others act by type |
| Ledger.StepRefines | firmware/main/mesh_main.c:249-376 | after every step the table holds, per module, the sums and count of exactly the samples logged and not yet closed |
| Ledger.RunRefines | firmware/main/mesh_main.c:249-376 | the same over every run, every report and drop stating the truth about the samples it closes |
| Ledger.ReportsAreMeans | firmware/main/ms_aggregate.c:81-115 | each emitted mean is the arithmetic mean of exactly the samples accepted since the module's last report or drop, and its steps their number |
| Ledger.ReportSpans | firmware/main/ms_aggregate.c:64-68 | each report's span, in every run, is from when the module's first sample since its last report or drop was accepted to when the report was drawn up |
| Ledger.LedgerBalances | firmware/main/ms_aggregate.c:51-127 | in a truthful ledger, samples taken in are pending, reported or dropped, as sums and as counts |
| Ledger.Conservation | firmware/main/mesh_main.c:279-376 | over every run of timer, frames, disconnects and drains: accepted equals held plus steps times mean of the reports plus dropped, per module and channel, in value and in number |
| Ledger.StepsBounded | firmware/main/include/ms_aggregate.h:20 | a step counter never exceeds the number of events so far |
| Sizing.BelongIffSizeSafe | firmware/main/mesh_main.c:553-560 | entries that belong to the node or to a connected child go on doing so after a step, in tables of any size, if and only if it is no disconnect of a child that deletes the own entry while that child's entry is there |
| Sizing.EntriesBelongIff | firmware/main/ms_aggregate.c:19-29 | over every run from boot in which children advertise their one id before they send, any table sizes: entries belong in every state if and only if every disconnect is of that kind |
| Sizing.BelongRefusesNothing | firmware/main/ms_aggregate.c:61-76 | while entries belong, a table larger than the children table refuses no sample |
| Sizing.StepGood | firmware/main/ms_aggregate.c:61-76 | as long as claimed frames come from the module they name and disconnects spare the own entry: entries belong, own steps equal ticks, and no push is refused |
| Sizing.DisconnectCleansUp | firmware/main/mesh_main.c:553-560 | nothing of the departed child is left, and nothing else is gone, if and only if the last entry under its address is not the node's own |
| Sizing.OneMoreSlotSuffices | firmware/main/include/ms_aggregate.h:10-13 | children capacity plus one: no run refuses a sample as long as children advertise before they send and no disconnect deletes the own entry while the departing child's is there |
| Sizing.AgreesIffTickSafe | firmware/main/ms_gpio.c:48-68 | agreement of own steps and ticks survives a step if and only if the step neither refuses the own sample, nor deletes the own entry, nor takes in a frame with the own id |
| Sizing.OwnStepsAreTicks | firmware/main/mesh_main.c:763-770 | in every run from boot, for any table sizes and any children: own steps equal ticks in every state if and only if every step is of that kind |
| Sizing.BehavedStepsAreTicks | firmware/main/ms_gpio.c:48-68 | so they agree whenever children advertise before they send and disconnects spare the own entry |
| Sizing.StaleMacRun | firmware/main/ms_aggregate.c:66-72 | a run from boot, children behaving, after which a disconnect deletes the node's own entry, the departed child's stays, and an own sample is refused |
| Mesh.NextKeeps | firmware/main/mesh_main.c:213-376 | on any tree, every step of the network, any disconnect included, keeps: tables hold what their batches say, of modules nearby; frames are on one of three hops; the server holds good values |
| Mesh.ClaimedIsChilds | firmware/main/mesh_main.c:161-164 | a frame the children table claims is the own frame of a node just below the receiver |
| MeshFlow.BlankInv | firmware/main/mesh_main.c:104-106 | every tree of freshly booted nodes meets the network invariant, whatever the table sizes |
| MeshFlow.EverySampleOnce | firmware/main/mesh_main.c:249-376 | network-wide conservation in every run, whatever the table sizes and disconnects: each sample ever taken is in exactly one table, frame, delivery or loss (refused, dropped or lost on the air), counted with multiplicity |
| MeshFlow.ParcelValues | firmware/main/ms_network.c:166-190 | values within the bounds of the samples behind them; even batches give the true mean |
| MeshFlow.DeliveredValues | firmware/main/mesh_main.c:287-304 | what the server receives lies, per channel, within the range of samples its module really took, and is their mean when batches were even |
| MeshFlow.EntriesNearOwner | firmware/main/ms_aggregate.c:12-13 | a module is aggregated only at its own node and at that node's parent |
| MeshFlow.SingleHop | firmware/main/mesh_main.c:279-305 | a frame is folded, as one more batch, only by the parent of its own node, or refused there by a full table; any other receiver hands it on once, unchanged, to the root, and the root to the server |
| MeshFlow.AdvertisementEffect | firmware/main/mesh_main.c:316-326 | a delivered advertisement sets its sender's id at its parent, if listed, and changes nothing else |
| MeshFlow.AtMostThreeHops | firmware/main/mesh_main.c:287-304 | every frame in flight is on its first, second or third hop and moves closer to the root, in trees of any depth |
| MeshRest.DeliverWeight | firmware/main/mesh_main.c:279-326 | every delivery, of a frame or an advertisement, lowers the potential: no forwarding loops |
| MeshRest.ServeWeight | firmware/main/mesh_main.c:336-376 | a drain lowers the potential by at least one for every entry it sends |
| MeshRest.NextWeight | firmware/main/mesh_main.c:249-376 | without timers and losses, deliveries and drains lower the potential and no step raises it |
| MeshCover.WorkIsBounded | firmware/main/mesh_main.c:249-376 | such runs deliver and drain at most as often as the starting potential |
| MeshCover.ComesToRest | firmware/main/mesh_main.c:249-376 | from every reachable state a run comes to rest |
| MeshCover.DeliveredIffCovered | firmware/main/mesh_main.c:316-376 | every way of coming to rest leaves no data in the mesh if and only if each node drains whenever served, or its data is due and nothing more can enter its table, now or after advertisements under way |
| MeshCover.DeliveredMeansServed | firmware/main/mesh_main.c:336-376 | once no data is left in the mesh, each sample taken is at the server unless it was lost |
| MeshRoom.NextIsStep | firmware/main/mesh_main.c:249-376 | every network event but a loss is one step of one node, and changes no other node |
| MeshRoom.NothingRefused | firmware/main/ms_aggregate.c:61-76 | a table with a slot for its node and each node just below never refuses, whatever the disconnects |
| MeshRoom.OneMoreSlotInNetwork | firmware/main/include/ms_aggregate.h:10-13 | with tables one slot larger than the children tables, in every run of the network: entries belong everywhere if and only if every disconnect is size-safe, and then no sample and no frame is ever refused |
| MeshRoom.ServedIffCovered | firmware/main/mesh_main.c:336-376 | with room of either kind every way of coming to rest brings all data to the server, none left and none lost, under exactly the same condition |
| MeshRuns.StrandedRun | firmware/main/mesh_main.c:316-376 | from boot, in any tree with two nodes: all data is due and no frame under way, yet deliveries and service steps come to rest with data left behind |
| MeshRuns.BatchesReachServer | firmware/main/mesh_main.c:279-284 | any batches of any module below the root reach the server in some run from boot, however deep the tree |
| MeshRuns.ServerTrueMeanIffEven | firmware/main/ms_network.c:166-190 | for a module below the root and given batch sizes, the server is told the true mean in all runs if and only if the sizes are equal |
| Lifecycle.StepKeeps | firmware/main/mesh_main.c:381-384 | every interleaved step keeps flags and live tasks in agreement |
| Lifecycle.OneTaskEach | firmware/main/mesh_main.c:491-510 | under all interleavings two mesh loops or two bridge loops never run at once, and a flag is set exactly while its one task lives |
| Lifecycle.HandlerLeavesTask | firmware/main/mesh_main.c:587-604 | when the connect handler returns, a mesh task is live or in its exit window |
| Lifecycle.MeshGoesOnIff | firmware/main/mesh_main.c:249 | a mesh task goes on exactly as long as it finds the node connected |
| Lifecycle.LinkLossEnds | firmware/main/mesh_main.c:378-384 | once it finds the link down, two steps later the flag is clear and no mesh task is left |
| Lifecycle.LostRestart | firmware/main/mesh_main.c:378-384 | from any state with a task in its exit window, the interleaving in which the restart is lost |
| Lifecycle.LostRestartRun | firmware/main/mesh_main.c:587-604 | a run from boot into that state and on: connected, no handler at work, and no mesh task |
| Lifecycle.RestartIffNotExiting | firmware/main/mesh_main.c:587-604 | the mesh service runs after every interleaving if and only if no task was in its exit window |
| Lifecycle.BridgeRestartIff | firmware/main/mesh_main.c:502-510 | the bridge runs after every interleaving if and only if the node is root at the check and no bridge task is in its exit window |
| Lifecycle.LostBridge | firmware/main/mesh_main.c:482-487 | from any other state at the check, an interleaving that ends with an address, an idle handler and no bridge task |
| Lifecycle.LostBridgeRun | firmware/main/mesh_main.c:744-752 | a run from boot in which the root's address comes while the old task closes, and no bridge is left |
| Lifecycle.EarlyAddressRun | firmware/main/mesh_main.c:502-510 | a run from boot in which the address comes before the root role, and no bridge is started |
| Lifecycle.BridgeWaitsIff | firmware/main/mesh_main.c:391-393 | a bridge task waits exactly as long as the node is root without an address |
| Lifecycle.BridgeOpens | firmware/main/mesh_main.c:395-401 | only a root opens a socket: the stored descriptor is closed, what the call returns is stored |
| Lifecycle.BridgeGoesOnIff | firmware/main/mesh_main.c:403-411 | the bridge loop goes on exactly as long as the node has an address, is root, and receives do not fail |
| Lifecycle.FailedReceiveEnds | firmware/main/mesh_main.c:408-411 | a failed receive, whatever the address and role, leads to a closed socket, a clear flag and no bridge task |
| Lifecycle.SocketOwnership | firmware/main/ms_network.c:20-65 | as long as no socket call returns 0: at most one descriptor is open, it is the stored one, and then a bridge task is between create and close |
| Lifecycle.ZeroDescriptorLeaks | firmware/main/ms_network.c:20-33 | ownership survives a socket call, the number just closed included, if and only if it does not return 0 |
| Lifecycle.SocketState.Create | firmware/main/ms_network.c:20-33 | closes the previous descriptor before it stores the new one |
| Lifecycle.SocketState.Shut | firmware/main/ms_network.c:60-65 | closes the stored descriptor, if it is positive |
| Codec.HtonFrameHmac | firmware/main/ms_network.c:111-130 | in place: integer fields big-endian by type, then the digest over the 64 bytes |
| Codec.NtohFrameHmac | firmware/main/ms_network.c:132-164 | in place: -1 and host order, or the first wrong digest index and the buffer untouched |
| Codec.RoundTrip | udpserver/udp_network.c:84-137 | either side opens what either side sealed, on hosts of one byte order, and gets the frame back |
| Codec.IntegersArrive | udpserver/udp_network.c:91-100 | integer fields keep their value for every pair of byte orders |
| Codec.BytesArrive | firmware/main/ms_network.c:121-127 | type, padding and payload bytes other than times arrive as they are |
| Codec.SealedDigest | firmware/main/ms_network.c:129 | a sealed frame carries the digest of all its 64 bytes |
| Codec.TamperedIsRejected | firmware/main/ms_network.c:140-148 | a frame changed in any of its 64 bytes under its old digest is rejected, unless the two have one digest |
| Codec.KeyOf | firmware/main/ms_crypto.c:33 | the key is the secret, on the server up to its first zero, filled up with zeros to 64 bytes |
| Codec.DigestCovers | firmware/main/ms_crypto.c:41-48 | the digest is over the whole frame handed in |
| Codec.RejectedIsUntouched | firmware/main/ms_network.c:142-148 | accepted exactly when the digest of the 64 bytes is right; otherwise untouched, and the result is the first differing index |
| Codec.KeysAgree | udpserver/udp_network.c:102 | firmware and server compute the same digests, for every digest function and frame, exactly when only zeros follow the secret's first zero byte |
| Codec.OpenedBufferPassesAgain | firmware/main/mesh_main.c:266-267 | a decoded buffer would be accepted again only if decoding left it unchanged |
| Frames.ReadAlike | firmware/main/ms_network.c:132-164 | hosts with the key that read floats alike read any 96 bytes alike, whatever their side and byte order |
| Frames.ReadAlikeButFloats | udpserver/udp_network.c:105-137 | without that, they still accept the same frames and read the same type, id, times and addresses |
| Frames.SensorAlikeIff | firmware/main/ms_network.c:154-155 | they read an accepted SENSOR frame alike if and only if they read its eleven floats alike |
| Frames.ReadLayout | firmware/main/include/ms_network.h:25-78 | what an accepted frame says, byte by byte of the wire: big-endian id and times, type, floats, address, timestamp |
| Frames.FloatsNeedOneOrder | firmware/main/include/ms_network.h:33-38 | an accepted SENSOR frame that hosts reading floats in opposite byte orders read differently |
| Frames.SealedReads | udpserver/udp_network.c:84-103 | what one host seals, every host with the key that reads floats alike reads back field by field |
| Frames.SealedReadsOthers | udpserver/udp_network.c:84-103 | and frames other than SENSOR, whatever the floats and byte orders |
| Frames.StampAlike | firmware/main/ms_network.c:151 | hosts with the key read the same timestamp from any frame they accept |
| Frames.BytesValue | firmware/main/ms_network.c:177-181 | a stored integer reads back as itself, in either byte order |
| Frames.ValueOfBytes | firmware/main/ms_network.c:118-119 | numbers are read from big-endian bytes to the base 256 |
| Frames.PatternOf | firmware/main/include/ms_network.h:46-47 | a time that fits in 64 bits is sent in two's complement |
| Frames.CreateSensorFrame | firmware/main/ms_network.c:166-190 | the frame built over stack leftovers says the truncated id, the seconds of the clock, period and values given; a short buffer is refused untouched |
| Frames.CreateAdvFrame | firmware/main/ms_network.c:192-214 | the frame says the id, the seconds of the clock and the address given |
| Frames.CreateTimeFrame | udpserver/udp_network.c:139-162 | the frame says the id given and the server's clock, to the microsecond, and in its header the seconds |
| Service.CopyAndRead | firmware/main/mesh_main.c:265-271 | the bytes are kept for sending although decoding changes the buffer |
| Service.ReceiveFrame | firmware/main/mesh_main.c:251-333 | timeouts, failed receives, own frames, less than 96 bytes and wrong digests leave tables, ledger and network alone; an accepted frame acts as what its bytes say, and forwarded bytes are those received |
| Service.ShortIsNotHeard | firmware/main/mesh_main.c:260 | less than 96 bytes are not read as a frame, whatever the buffer still holds |
| Service.HeardAsSent | firmware/main/mesh_main.c:279-305 | the next node acts on the message the shipment stands for, up to floats if it reads those differently |
| Service.CarriesOn | firmware/main/mesh_main.c:265-304 | over any chain of nodes in any states, a frame reaches the last exactly when each before it hands it on, and is then read from the bytes first sent |
| Service.SendAdvertisement | firmware/main/mesh_main.c:225-247 | the advertisement's bytes say the node's id and address |
| Service.DrainFrames | firmware/main/mesh_main.c:342-373 | the drain loop ends with an empty table and one frame per entry, last first, that says the entry's report at its own clock reading and is stamped at its own |
| Service.ExactRounded | firmware/main/ms_network.c:183-184 | values that four bytes hold exactly are sent unchanged |
| Service.SendAggregates | firmware/main/mesh_main.c:336-376 | flushed, or at the threshold or above it: the table is empty and ticks are zero afterwards, and one frame for each entry is sent; otherwise nothing changes and nothing is sent |
| Service.BridgeDatagram | firmware/main/mesh_main.c:404-480 | an accepted TIME frame sets the clock if meant for this node and goes, byte for byte, to the other routing entries in order; anything else does nothing |
| Service.OthersCount | firmware/main/mesh_main.c:452-461 | each entry other than the node's own is served as often as it is listed |
| Service.OneCopyEach | firmware/main/mesh_main.c:452-461 | in a table without repetitions each other node gets exactly one copy |
| Server.SensorBytes | udpserver/udpserver.c:49-57 | what counts, said of the bytes: at least 96, the digest of the first 64 right, type 0 |
| Server.SealedCounts | udpserver/udpserver.c:49-69 | a sealed frame of 96 bytes or more counts if and only if its type is SENSOR |
| Server.SealedSensorsCount | udpserver/udpserver.c:49-69 | among short datagrams and sealed frames of any type, the sealed SENSOR frames are what is counted |
| Server.OnlySensorsCount | udpserver/udpserver.c:49-74 | removing a datagram that is short, unauthentic or of another type changes no count |
| Server.Validate | udpserver/udpserver.c:47-57 | counts exactly datagrams of at least 96 bytes with the right digest and type 0, whatever the buffer held before |
| Server.ServeDatagrams | udpserver/udpserver.c:40-94 | TIME frames sent are accepted SENSOR frames divided by 11, ticks the remainder; one goes out exactly at each eleventh, to its sender |
| Server.AnswersArrive | udpserver/udpserver.c:77-91 | the root accepts an answer, and from the bytes it passes on every node with the key reads the server's clock, addressed to all |
| Cbc.DecryptUndoes | firmware/main/ms_crypto.c:84-129 | any number of blocks is restored when the one block call inverts the other |
| Cbc.EncryptChains | firmware/main/ms_crypto.c:88-98 | each ciphertext block is the block call on the plaintext block xor the ciphertext block before, first the iv |
| Cbc.DecryptChains | firmware/main/ms_crypto.c:119-128 | each plaintext block is the block call on the ciphertext block, xor the ciphertext block before, first the iv |
| Cbc.RoundTripIffInverse | firmware/main/ms_crypto.c:84-129 | all texts of all lengths are restored if and only if the one block call inverts the other |
| Cbc.AsWrittenIffInvolution | firmware/main/ms_crypto.c:122 | with the encrypting mode in both loops, decryption works exactly for ciphers that are their own inverse |
| Cbc.PaddedRoundTrip | firmware/main/ms_crypto.c:60-71 | padding, encryption, decryption and unpadding restore a text of any length |
| Cbc.PadOctets | firmware/main/ms_crypto.c:60-71 | one to sixteen octets follow the text, up to a whole block, each telling their number |
| Cbc.Padding | firmware/main/ms_crypto.c:60-71 | fills up to the next multiple of 16, never by nothing, and leaves the rest alone |
| Cbc.EncryptLoop | firmware/main/ms_crypto.c:84-99 | the loop computes the chained encryption, also in place |
| Cbc.DecryptLoop | firmware/main/ms_crypto.c:114-129 | the loop computes the chained decryption, also in place |
| Cbc.EncryptAesCbc | firmware/main/ms_crypto.c:73-101 | a ragged length is refused and changes nothing; otherwise the chained encryption |
| Cbc.DecryptAesCbc | firmware/main/ms_crypto.c:103-131 | a ragged length is refused and changes nothing; otherwise the chained decryption |

## Left out

- AggregateStore.AggregateTable.PushSensors: does not model the 32-bit wrap-around of `steps`; `Ledger.StepsBounded` shows that it needs more than 2^32 - 1 events.
- AggregateStore.AggregateTable.PopSensorsIndex: takes indices of slots in use or -1, which is all its callers pass.
- ChildStore.ChildTable.Matches: reads no slot for an absent address; the source reads index -1 there (firmware/main/mesh_main.c:162-163), which C leaves undefined. Modelled as not a child.
- MeshFlow.EverySampleOnce: the server's share is what the root hands to its socket; a closed socket or a datagram lost after that is not modelled.
- Server.ServeDatagrams: receives are successful; the source's comparison of a signed length with an unsigned size would let a failed one through (udpserver/udpserver.c:49).
- Cbc.EncryptLoop: models the fallback loop, reading `payload_ptr` (firmware/main/ms_crypto.c:91) as `payload`; the library's own CBC call is not modelled. Partly overlapping buffers are not modelled.
- Floats are reals: no rounding in sums and means. A host's way of storing reals into four-byte words and reading them is arbitrary; frames say what the receiver reads after that.
- Table capacities are parameters; the byte-sized indices of the source need them to be at most 255, and a node has at least one aggregation slot.
- The network model works on decoded messages, with floats read alike, on a fixed tree with one address per node; a child connects only to its parent in the tree, frames may be lost and may arrive in any order.
- TIME and other frames change no table, so the network model has none; clock setting appears as the bridge's result only.
- Steps are atomic at the size of one callback or loop phase; data races inside the tables between timer, handlers and service loop are not modelled.
- The started flags are modelled access by access; the two service tasks appear there as positions in their code, their data in `Service`.
- ESP-IDF, Wi-Fi, NVS, lwIP and FreeRTOS calls are events and message channels; send errors, delays and logging are not modelled.
- Azure, JSON and benchmark servers, the server's own socket calls, random number generation, SHA-256 and AES internals are not part of this model; digests and block functions are arbitrary functions.
