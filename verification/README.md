# Ashiato Sync verification

A Dafny model of the stateful parts of Ashiato Sync, a library that replicates
the entities of a registry from a server to clients over a lossy network, and
proofs that its fast incremental forms agree with simple ones.  Where the code
changes state in place (classes, rings, maps, payload buffers), the model has a
class or a method with the same loops, proved equal to a function on values; the
theorems about whole runs are then proved of those functions.

| component | files |
|---|---|
| foundations | `Wrappers`, `Bits` (bit fields), `SlotTable`, `World` (registry, archetypes, dirty views), `Discovery` |
| replay recording and playback | `ReplayWire`, `ReplayDecoding`, `ReplayWriter`, `ReplayCoverage`, `ReplaySession`, `ReplayFrames`, `ReplayLimits`, `ReplayCorrectness`, `ReplayRecorder`, `ReplayStreamer`, `ReplayPlayback`, `ReplayChain` |
| server snapshot cache | `Snapshots`, `SnapshotPool`, `SnapshotCorrectness`, `SnapshotSends`, `SnapshotRuns`, `SnapshotService`, `SnapshotServer` |
| client inputs | `InputBuffer`, `ServerInputBuffer`, `InputClient`, `InputSystem`, `InputLimits` |
| packet-loss window | `PacketWindow` |
| client table and handshake | `ClientTable`, `Handshake` |
| baselines of an entity | `BaselineRing`, `BaselineRuns` |
| client frame machinery | `FrameLayout`, `BufferedApply`, `BufferedRuns`, `BufferedEntity` |
| record encoding | `Records`, `DeltaRecords`, `RecordLoops` |
| client clock | `ClientClock` |
| traces | `TraceCodec`, `TraceSink`, `TraceWakeup` |

The registry is a map from entities (index and generation) to a replication
marker, tags, components and an owner.  A dirty view is any view that reports
every change (`World.Faithful`).  Component codecs are abstract functions bound
by one law: what `serialize` writes, `deserialize` reads back, given the same
previous value, and leaves the rest unread.  Floating point is modelled by reals.

## Where a promise holds only under a condition

Each of these follows the code; the lemma named gives the exact condition or a
concrete run.

- Components that an archetype uses through a serializer profile only are not in
  `component_ops`, and changes to them are seen neither by the replay writer nor by
  the dirty generations (`ReplayCoverage.NothingMissedIff`, `SnapshotRuns.NothingStaleIff`:
  nothing is missed if and only if every replicated component is tracked).
- A replicated entity with no present component, of an archetype without tags, has its
  replay record header written but not counted.  A Full frame goes wrong exactly when
  there is such a slot or there are too many records (`ReplayLimits.FullFrameExact`), and a Delta
  frame, if the pending slots behind the first such one had changed, exactly when there is one
  (`ReplayLimits.DeltaHeadersExact`, `ReplayLimits.LoneHeaderIsLost`; over runs
  `ReplayCorrectness.RecordedFullIsExact` and `ReplayCorrectness.RecordedDeltaIsExact`).
- A despawn noticed between two dirty passes (`src/server/client_update_scheduler.cpp:96-98`)
  is cleared from the destroyed list before the replay writer sees it.  Unless the slot is
  pending or given to another entity, sessions go on showing it: a replay is right exactly when
  nothing is lost in this way (`ReplayCorrectness.ReplayReproducesServer`, `ReplayCorrectness.LostExactly`,
  `ReplayLimits.DeactivationBetweenPassesIsMissed`).
- A baseline acknowledged a whole history ring late is one the client no longer has: differences
  from it are refused until another acknowledgement, mask or component presence arrives
  (`BaselineRuns.LateAcknowledgementStrands`, `BaselineRuns.NeverRescued`; `BaselineRuns.BaselinesAgree`
  gives exactly when it is found).
- A trace producer lets go of the lock before it calls `notify_one` on a condition variable that
  waiting producers share with the sink thread; one of them can take the wake-up, and the thread
  then sleeps on a full queue (`TraceWakeups.WakeUpIsLost`, `TraceWakeups.StuckForever`;
  `TraceWakeups.WakeUpCanBeLostIff`: it can happen exactly while a producer waits;
  `TraceWakeups.RoomIffHeard`: waiting producers get room exactly while the thread is awake or about to be).
- An input frame recorded again with other bytes after it was sent, and an acknowledgement of a
  frame the client ring no longer holds followed by `set_latest`, both leave client and server
  with different bytes for the same baseline; the next differences are then misread
  (`InputLimits.ReRecordedFrameIsMisread`, `InputLimits.StaleBaselineIsMisread`).  The guards a
  client can check are exact: `InputClients.RecordConsistent`, `InputClients.LatestConsistent`,
  `InputClients.LatestHonestIff` for one packet, `InputSystems.SoundThroughoutIff` over runs, and
  `InputLimits.DeliveryTruthfulIff` for what a delivery then stores.
- A local input older than the acknowledged frame replaces `latest_input_` but not the
  acknowledged frame (`InputBuffers.SetLocalLatest`).
- `applied_present_mask` is also set when an update arrives, not only when a frame is shown, so a
  component removed by a later update can stay in the registry
  (`BufferedRuns.MarkedUpdateLeavesComponent`; `BufferedRuns.ShowCovers` gives the exact condition for a
  frame, `BufferedRuns.RecordedThroughoutIff` for a run).

## Model

| member | source | states |
|---|---|---|
| ReplayCorrectness.ReplayReproducesServer | src/replay_writer.cpp:306-514 | End to end: for every run of dirty passes and of slots freed between them, any write and Full interval, and any session, replaying a written Full frame i and all later frames up to j, if those were written whole (the slots they write quantise, the records can be counted), succeeds and leaves the session showing exactly the slots, archetypes, tags, component presence and quantised values the server had at frame j, whatever became of the frames before i, except that it still shows something in each lost slot; so it is right if and only if no slot is lost; the first written frame is Full |
| ReplayCorrectness.LostExactly | src/server/client_update_scheduler.cpp:96-98 | In every run, the slots lost at a recorded frame are none for a Full frame and, for a Delta frame, exactly the free ones that were occupied or lost when the last frame was written and are neither pending nor reported destroyed |
| ReplayCorrectness.NothingLost | src/replay_writer.cpp:306-514 | A run in which slots are freed inside passes only loses none, so there replays are always right |
| ReplayCorrectness.RecordedFullIsExact | src/replay_writer.cpp:332-487 | In every run, reading a recorded Full frame into any session gives the server state if and only if every occupied slot quantised and the records could be counted |
| ReplayCorrectness.RecordedDeltaIsExact | src/replay_writer.cpp:384-485 | In every run, reading a recorded Delta frame into a session that shows the last written state gives the server state if and only if every occupied pending slot quantised and nothing is lost, provided the pending slots from the first that did not quantise on had changed (no proviso where all quantise) |
| ReplayCorrectness.EntryCarries | src/replay_streamer.cpp:333-408 | A recorded frame that was written whole takes a session to the server state but for the lost slots: a Full one any session, a Delta one a session that shows the last written state |
| ReplayCorrectness.RunsAreSound | src/replay_writer.cpp:306-514 | Every run keeps the slot table in step with the registry, every slot that may differ from the last written state pending, destroyed or lost, and every recorded frame the encoding of its slots after the frame before it |
| ReplayCorrectness.StepKeepsSound | src/replay_writer.cpp:274-514 | The same for every pass and for every slot freed between passes |
| ReplayCorrectness.LinkedReplay | src/replay_streamer.cpp:333-408 | Replaying whole frames of a recording from any of its Full frames shows the server at the last frame replayed, but for the slots lost there |
| ReplayCorrectness.PassKeepsCover | src/replay_writer.cpp:306-320 | A pass keeps every slot whose replicated contents differ from the last written state pending, reported destroyed or lost, and no lost slot in use |
| ReplayCorrectness.FreeKeepsCover | src/server.cpp:3280-3304 | So does a slot freed between passes, which is lost unless it is pending |
| ReplayCoverage.PassCovers | src/server/dirty_slots.hpp:10-74 | If replicated components are tracked, every slot whose replicated contents changed in a pass is visited or reported destroyed, and a destroyed slot in use again is visited |
| ReplayCoverage.NothingMissedIff | src/server/dirty_slots.hpp:52-63 | No pass over any registry, dirty view and table misses a change if and only if every replicated component has its operations in `component_ops` |
| ReplayCoverage.UntrackedChangeIsMissed | src/server/dirty_slots.hpp:52-63 | A frame in which only a component outside `component_ops` changed visits no slot at all |
| ReplayLimits.FullFrameExact | src/replay_writer.cpp:332-487 | A Full frame brings any session to the server state if and only if every replicated slot quantises and the records fit the 16-bit count; a slot that does not quantise has its header written but is not counted |
| ReplayFrames.FullFrameEffect | src/replay_writer.cpp:332-342 | A Full frame that can be written whole brings a session, whatever it showed, to exactly the server slots |
| ReplayFrames.DeltaFrameSlots | src/replay_writer.cpp:361-485 | A Delta frame whose pending slots quantise sets exactly those slots to the server contents and empties the other destroyed ones, in any session |
| ReplayFrames.DeltaFrameExact | src/replay_writer.cpp:361-485 | So it brings a session that shows the last written state to the current one if and only if every slot it does not rewrite is unchanged or, if reported destroyed, empty |
| ReplayFrames.DeltaFrameEffect | src/replay_writer.cpp:361-485 | With every other changed slot pending or destroyed, it leaves the session wrong about the lost slots alone |
| ReplayLimits.DeactivationBetweenPassesIsMissed | src/server.cpp:2055-2059 | A slot deactivated between two passes and not given to another entity in the next is neither reported destroyed nor visited by any dirty view, so a Delta frame, whatever else it writes, leaves the session showing it |
| ReplayLimits.InactiveNotVisited | src/server/dirty_slots.hpp:10-74 | No dirty view visits an inactive slot: the lookup maps no longer lead to it |
| ReplayLimits.DeactivatedIsForgotten | src/server/client_update_scheduler.cpp:96-99 | A slot deactivated outside a pass is inactive, unreported and out of the index map when the next one begins |
| ReplayLimits.DeltaHeadersExact | src/replay_writer.cpp:384-485 | A Delta frame whose pending slots from the first that does not quantise on have changed (no proviso where all quantise) brings any session to the server state if and only if no active pending slot fails to quantise and what it does not rewrite is right already or, if reported destroyed, empty |
| ReplayLimits.LoneHeaderIsLost | src/replay_writer.cpp:398-418 | When the only pending slot does not quantise, as after a tagless entity lost its last component, the payload counts no records, reading it succeeds, and the session keeps what it showed |
| ReplayLimits.RoundsTouch | src/replay_streamer.cpp:333-408 | Whatever the bits, reading n records changes what is shown for at most n slots |
| ReplayFrames.SlotItemsEffect | src/replay_writer.cpp:384-485 | The slot loop brings each listed slot up to date and leaves every other slot as the destroy records left it |
| ReplayFrames.DestroysEffect | src/replay_writer.cpp:363-382 | The destroy records empty exactly the destroyed slots |
| ReplaySession.RecordEffect | src/replay_streamer.cpp:333-408 | An entity record sets its own slot to the server contents, whatever was there before, and leaves the other slots alone |
| ReplaySession.DestroyEffect | src/replay_streamer.cpp:91-102 | A destroy record empties its own slot and leaves the other slots alone |
| ReplaySession.PushedComponent | src/replay_streamer.cpp:119-176 | Pushing the records of a component list sets the present components to their values and leaves the others |
| ReplayDecoding.ApplyPayloadEncoded | src/replay_streamer.cpp:333-408 | Reading back the bits of a payload applies exactly its items in order, then, for a Full frame, drops the ids it did not list |
| ReplayRecorder.ReplayWriter.MarkPending | src/replay_writer.cpp:310-320 | The dirty flags and the pending list refine one ordered list of distinct slots, extended by the new marks |
| ReplayRecorder.ReplayWriter.WriteComponents | src/replay_writer.cpp:431-483 | The component loop with its back-patched count writes the component list encoding |
| ReplayRecorder.ReplayWriter.WriteSlot | src/replay_writer.cpp:398-484 | One round of the slot loop writes that slot item, and counts it unless only its header was written |
| ReplayRecorder.ReplayWriter.WriteDestroys | src/replay_writer.cpp:363-382 | The destroy loop writes each destroyed slot once, up to the count limit, and remembers which |
| ReplayRecorder.ReplayWriter.WriteSlots | src/replay_writer.cpp:384-485 | The slot loop continues the payload with the items of the listed slots and their count |
| ReplayRecorder.ReplayWriter.CollectReplicable | src/replay_writer.cpp:333-339 | The scan collects exactly the replicable slots in slot order |
| ReplayRecorder.ReplayWriter.OnServerRegistryDirtyFrame | src/replay_writer.cpp:274-514 | The state-changing writer refines the specification step: same state, same written frame, with the count patched in afterwards |
| ReplayStreaming.ReplayStreamer.PushFrame | src/replay_streamer.cpp:193-221 | The head and count ring holds the last `max_frames` pushes, or all of them when unbounded |
| ReplayStreaming.ReplayStreamer.FindStartFrame | src/replay_streamer.cpp:497-510 | Finds the latest Full frame at or before the preroll target, or none exactly when there is none |
| ReplayStreaming.ReplayStreamer.CopyUpTo | src/replay_streamer.cpp:223-259 | The session gets the stored frames from its start up to its end frame |
| ReplayStreaming.ReplayStreamer.CollectAvailable | src/replay_streamer.cpp:480-495 | Collects the stored frames newer than the last listed one and not past the end frame |
| ReplayStreaming.AvailableFrames | src/replay_streamer.cpp:480-495 | Over increasing frames, what is appended is exactly the stored frames after the last one up to the end, still increasing |
| ReplayStreaming.AppendsWithoutGap | src/replay_streamer.cpp:480-495 | While the ring still holds the successor of the last listed frame, the list stays a gapless piece of everything pushed |
| ReplayPlayback.Playback.ApplyFrame | src/replay_streamer.cpp:326-408 | The loops that change registry and id map in place refine the value-level payload reader |
| ReplayPlayback.Playback.BeginSession | src/replay_streamer.cpp:223-259 | A started session begins at the latest Full frame at or before the target, seeded by applying it, with the frames up to its end; when the ring holds a piece of a sound recording, the session follows that recording from there |
| ReplayPlayback.Playback.AppendAvailableFrames | src/replay_streamer.cpp:480-495 | The frame list grows by exactly the available frames and stays strictly increasing |
| ReplayPlayback.Playback.TickSession | src/replay_streamer.cpp:294-324 | After a tick every listed frame up to the playback frame has been applied to the seed exactly once and in order, no later one has, the playback frame moved on by one, and the session goes on following its recording while the ring keeps up; after a tick that fails, the frames before the one that failed have been applied, and what could be read of that one |
| ReplayPlayback.PlaybackShowsServer | src/replay_streamer.cpp:294-324 | A session that follows a sound recording shows exactly what the server replicated at the last frame applied, which after a tick is the last listed one up to the playback frame, if and only if no slot is lost there |
| ReplayPlayback.PieceShowsServer | src/replay_streamer.cpp:294-324 | The same on values, after any number of frames of a piece of the recording |
| ReplayPlayback.StillFollows | src/replay_streamer.cpp:480-495 | Appending what the ring holds keeps the list a piece of the recording while the ring still holds the next frame |
| ReplayPlayback.Playback.ApplyDueFrames | src/replay_streamer.cpp:309-316 | The loop applies exactly the frames due, and stops at the first that cannot be read |
| ReplayChain.RingHoldsRecording | src/replay_streamer.cpp:193-221 | Whatever the run, if frame numbers increase, the ring that was pushed each recorded frame holds a piece of a sound recording of increasing frames, ending at its last: what a playback session asks of it |
| ReplayChain.RecordingIncreases | src/replay_writer.cpp:486-514 | The recorded frames carry numbers of passes, in increasing order |
| ReplayChain.PushStreams | src/replay_streamer.cpp:193-221 | One more push leaves the last frames of all pushes in the ring |
| ReplayChain.RunIsFollowed | src/replay_streamer.cpp:294-324 | A session that follows the recording of a run still follows it however the run goes on |
| SlotTable.UpsertValid | src/server.cpp:3213-3259 | An upsert keeps both maps in bijection with the active slots and the free list equal to the inactive ones; a registered entity has its own slot with its archetype, a refused one has none |
| SlotTable.DeactivateValid | src/server.cpp:3280-3313 | Deactivation keeps the table valid and leaves no slot with that entity index |
| SlotTable.AllocateValid | src/server.cpp:3261-3278 | Allocation, from the free list or at the end, keeps the table valid |
| SlotTable.ActiveCountExact | src/server.cpp:1229-1231 | The active counter is the number of active slots |
| SlotTable.DistinctActiveIndices | src/server.cpp:3213-3313 | Distinct active slots have distinct entity indices |
| SlotTable.ReplicatedSlots.UpsertReplicated | src/server.cpp:3213-3259 | The in-place operation refines the specification; when it throws for a changed archetype nothing changed |
| SlotTable.ReplicatedSlots.Register | src/server.cpp:3261-3278 | Slot reuse and the map updates refine the specification |
| SlotTable.ReplicatedSlots.DeactivateReplicated | src/server.cpp:3280-3304 | Freeing a slot, the map removals and the counter refine the specification |
| SlotTable.ReplicatedSlots.DeactivateEntityIndex | src/server.cpp:3306-3313 | Deactivation by index refines the specification |
| Discovery.RediscoverSyncs | src/server.cpp:1197-1213 | After a pass over a faithful dirty view the active slots are again exactly the replicated entities of known archetypes |
| Discovery.FirstDiscoverySyncs | src/server.cpp:1189-1195 | The first pass registers every replicated entity |
| Discovery.RediscoverEvolves | src/server.cpp:1188-1214 | Outside the reported entities a pass keeps a slot as it was or reports it destroyed |
| Discovery.FreeSyncs | src/server/client_update_scheduler.cpp:96-98 | Freeing a slot between passes keeps the table in step with the registry the next dirty view starts from |
| SnapshotService.EverySnapshotIsFresh | src/server.cpp:2623-2756 | From the first pass on, in every state of every run of passes, sends, acknowledgements, invalidations, joins, leaves and slots freed between passes, the snapshot found through the same-frame cache, the copy from the acknowledged baseline or the dedupe search equals quantising everything that client may see afresh, recycled slots included; and none is returned exactly when there is nothing to send |
| SnapshotService.EveryCountIsExact | src/server/quantized_frame.cpp:10-60 | From the first pass on, in every state of every run a pooled frame that is referenced is live, and a live frame is counted exactly as often as baselines and pending sends refer to it |
| SnapshotService.RunRunning | src/server.cpp:2623-2756 | Every run of allowed steps keeps the pool, the client states and the slot bookkeeping sound |
| SnapshotService.StepRunning | src/server/client_update_scheduler.cpp:213-335 | Every single step keeps them sound |
| SnapshotService.StartRunning | src/server.cpp:1188-1195 | The first pass establishes them |
| SnapshotService.SendReady | src/server/client_update_scheduler.cpp:213-335 | A send attempt, refused or recorded, keeps the guard reference balanced and every retained frame good |
| SnapshotService.LeaveReady | src/server.cpp:948-998 | Removing a client releases everything it referred to, and swap-removal keeps the other clients states |
| SnapshotService.JoinReady | src/server.cpp:562-617 | A new client starts with empty states |
| SnapshotRuns.FreedRunning | src/server/client_update_scheduler.cpp:96-98 | A slot freed between passes takes its references with it, and no current frame of it can be found any more |
| SnapshotSends.SearchIsFresh | src/server.cpp:2637-2756 | One search: the frame returned is live, of this server frame, and holds what quantising afresh would |
| SnapshotSends.ScratchIsFresh | src/server.cpp:2663-2712 | Copying a component whose generation is that of the acknowledged baseline gives what quantising it would |
| SnapshotSends.CacheableIgnoresClient | src/server.cpp:2557-2569 | For an archetype that is cacheable within a frame, fresh data does not depend on the client |
| SnapshotSends.AcknowledgeReady | src/server/server_client_replicator.cpp:378-430 | Acknowledging promotes a pending frame of the right epoch, releases the older ones and keeps everything sound |
| SnapshotSends.InvalidateReady | src/server/server_client_replicator.cpp:432-440 | Invalidating a baseline releases it and keeps everything sound |
| SnapshotRuns.CaptureSound | src/server.cpp:2142-2190 | After the generations of a pass are captured, every retained frame that still carries the current generation of a component still holds its current value |
| SnapshotRuns.UnbumpedUnchanged | src/server.cpp:2161-2176 | A component whose generation did not move did not change |
| SnapshotRuns.NothingStaleIff | src/server.cpp:2161-2176 | Generations can be trusted over all passes if and only if every replicated component has its operations in `component_ops` |
| SnapshotCorrectness.RegisteredSound | src/server.cpp:3261-3278 | Recycling a slot for a new entity, with every client state for it cleared, keeps everything sound |
| SnapshotCorrectness.DeactivatedSound | src/server.cpp:3280-3321 | Deactivating a slot clears every client state for it and keeps everything sound |
| SnapshotPool.ReleaseShrinks | src/server/quantized_frame.cpp:18-43 | Releasing one reference removes exactly one, frees the frame on the last, and touches no other frame |
| SnapshotPool.RetainPool | src/server/quantized_frame.cpp:10-16 | Retaining adds exactly one reference |
| SnapshotServers.SnapshotServer.RetainQuantizedFrame | src/server/quantized_frame.cpp:10-16 | Refines the specification in place |
| SnapshotServers.SnapshotServer.ReleaseQuantizedFrame | src/server/quantized_frame.cpp:18-43 | Refines the specification in place, erasing the frame from its slot list |
| SnapshotServers.SnapshotServer.ClearClientEntityState | src/server/quantized_frame.cpp:45-60 | Releases the baseline, then the pending frames in order, and empties the state |
| SnapshotServers.SnapshotServer.DeactivateReplicated | src/server.cpp:3280-3313 | Refines the specification, with the loop over the clients |
| SnapshotServers.SnapshotServer.AcknowledgeEntity | src/server/server_client_replicator.cpp:378-430 | Refines the specification, with the erase loop over the pending frames |
| SnapshotServers.SnapshotServer.InvalidateEntityBaseline | src/server/server_client_replicator.cpp:432-440 | Refines the specification |
| SnapshotServers.SnapshotServer.CaptureDirtyGenerations | src/server.cpp:2142-2190 | The nested marking loops refine the specification |
| SnapshotServers.SnapshotServer.MarkDirtyComponent | src/server.cpp:2460-2485 | Bumps the generation of the first component that matches, and no other |
| SnapshotServers.SnapshotServer.MarkOwnerVisibilityDirty | src/server.cpp:2525-2555 | Bumps the tags, if any is restricted, and every restricted component |
| SnapshotServers.SnapshotServer.BuildScratch | src/server.cpp:2663-2712 | The component loop fills tags, presence, values and generations as specified |
| SnapshotServers.SnapshotServer.FindSameFrame | src/server.cpp:2718-2728 | The dedupe loop finds the first equal frame of the slot, if any |
| SnapshotServers.SnapshotServer.StoreFrame | src/server.cpp:2730-2755 | Takes the last freed place or a new one, stores the frame and updates the slot list and the same-frame cache |
| SnapshotServers.SnapshotServer.FindOrCreateQuantizedFrame | src/server.cpp:2623-2756 | Refines the specification that the freshness theorem is about |
| SnapshotServers.SnapshotServer.SendEntity | src/server/client_update_scheduler.cpp:213-335 | Refines the specification: guard, refusal paths, transfer to pending, trimming |
| InputSystems.ServerHoldsWhatWasSent | src/server/input_buffer.cpp:37-134 | For every orderly run of a client and a network that loses, duplicates and reorders packets: each valid ring entry for frame f holds the input the client sent for f, and `latest_input_` is the input of `input_ack_frame_` |
| InputSystems.StepSoundIff | src/client/store/input_buffer.cpp:81-202 | From any sound state a step keeps client, server, packets and acknowledgements telling one story if and only if it is orderly: a sent, unacknowledged frame is recorded again only with the same bytes, and the latest input is set only while the acknowledged baseline is held |
| InputSystems.SoundThroughoutIff | src/client/store/input_buffer.cpp:81-202 | The runs that stay sound throughout are exactly the orderly ones |
| InputSystems.AckNeverDecreases | src/server/input_buffer.cpp:37-134 | No step takes the acknowledgement back, and no frame less than one ring behind it is lost |
| InputSystems.PassedOverIsStale | src/server/input_buffer.cpp:73-91 | With a ring longer than a packet, a packet passed over because its baseline is gone carries nothing newer than the acknowledgement |
| InputBuffers.ProcessHonest | src/server/input_buffer.cpp:37-134 | An honest packet, whenever and however often it arrives, is accepted: the ring stays true, the acknowledgement moves to its last frame or stays, and each new frame in the window is stored |
| InputBuffers.SetLocalLatest | src/server/input_buffer.cpp:11-35 | After a local input the latest input is that of the acknowledged frame if and only if the frame is not older than the acknowledgement or carries the same bytes |
| InputBuffers.SelectNewest | src/server/input_buffer.cpp:136-175 | Returns the newest stored frame of the last-capacity window that is due and later than the last applied, with its own bytes, and only then moves the applied frame; otherwise repeats the last input; starvation counts every inexact call |
| InputBuffers.StarvationAddsUp | src/server/input_buffer.cpp:136-175 | Over any calls, starved and exact ones add up to their number, and the applied frame never goes back |
| ServerInputBuffers.ServerInputBuffer.ProcessPacketPayload | src/server/input_buffer.cpp:37-134 | The in-place packet reader refines the specification, malformed packets included |
| ServerInputBuffers.ServerInputBuffer.DecodeEach | src/server/input_buffer.cpp:100-133 | The decode loop refines the specification, stopping where it stops |
| ServerInputBuffers.ServerInputBuffer.SearchWindow | src/server/input_buffer.cpp:141-152 | The upward search ends with the newest usable frame |
| ServerInputBuffers.ServerInputBuffer.SelectInputForFrame | src/server/input_buffer.cpp:136-175 | Refines the specification |
| ServerInputBuffers.ServerInputBuffer.SetLocalFrame | src/server/input_buffer.cpp:11-35 | Refines the specification |
| InputClients.PackHonest | src/client/store/input_buffer.cpp:361-580 | A consistent client sends honest packets: consecutive frames, each with what its ring holds, differences taken from its acknowledged baseline |
| InputClients.FillConsistent | src/client/store/input_buffer.cpp:167-202 | Filling ahead only writes frames that were never sent; it keeps the client consistent if and only if it stops short of the last frame number |
| InputClients.RecordConsistent | src/client/store/input_buffer.cpp:120-165 | Recording keeps the client consistent if and only if the frame is acknowledged, was not sent, or is given the bytes it was sent with |
| InputClients.LatestConsistent | src/client/store/input_buffer.cpp:109-118 | Setting the latest input keeps the client consistent if and only if the acknowledged baseline is held, nothing is acknowledged, or the bytes left in its place are the right ones |
| InputClients.LatestHonestIff | src/client/store/input_buffer.cpp:489-492 | After the latest input is set, the next packet is honest if and only if it starts in full, carries nothing, or the acknowledged baseline was still held |
| InputClients.AcknowledgeConsistent | src/client/store/input_buffer.cpp:217-234 | An acknowledgement moves the baseline to the acknowledged bytes, or drops it |
| InputLimits.DeliveryTruthfulIff | src/server/input_buffer.cpp:73-132 | For a packet of differences that brings something new, the ring stays true to what was sent under every lawful codec of the input size if and only if the client took the first difference from the very bytes the server looks up for the baseline |
| InputLimits.MisreadToTheEnd | src/server/input_buffer.cpp:100-132 | With a codec of differences and the wrong base, every input of the packet is stored wrong, the last one included |
| InputLimits.ReRecordedFrameIsMisread | src/client/store/input_buffer.cpp:120-202 | A concrete run: a frame filled ahead, sent, then recorded with other bytes makes the server store an input nobody sent |
| InputLimits.StaleBaselineIsMisread | src/client/store/input_buffer.cpp:116-118 | A concrete run: after an acknowledgement of an overwritten frame, setting the latest input marks the stale baseline as acknowledged, and the server stores inputs nobody sent |
| Bits.MaskIsRemainder | src/server/input_buffer.cpp:121-130 | Masking with a power of two minus one is the remainder |
| PacketWindows.WindowIsExact | src/client/timing_stats.cpp:45-102 | For every sequence of arrivals within half the id space of the highest, across wraparound: bit i is set exactly when number highest-i arrived in time, and the missing count is exactly the numbers slid out that never did |
| PacketWindows.RecordRefines | src/client/timing_stats.cpp:45-102 | One arrival keeps the 64-bit window a refinement of the set of unwrapped numbers |
| PacketWindows.ArrivedInTime | src/client/timing_stats.cpp:60-95 | A number counts as arrived exactly when one of its arrivals was the first, a new highest, or inside the window then |
| PacketWindows.Distances | src/client/timing_stats.cpp:22-27 | Distances between wrapped ids are the distances between numbers, both ways |
| PacketWindows.SlidOut | src/client/timing_stats.cpp:66-82 | The bits shifted out count the arrivals among the numbers that leave the window |
| PacketWindows.ClearsOne | src/client/timing_stats.cpp:13-20 | `value & (value - 1)` clears exactly one set bit |
| PacketWindows.TimingStats.CountBits | src/client/timing_stats.cpp:13-20 | The counting loop counts the set bits |
| PacketWindows.TimingStats.RecordEntityUpdatePacket | src/client/timing_stats.cpp:45-102 | Refines the specification and keeps the loss ratio up to date |
| ClientTables.FindsAvailable | src/server.cpp:548-560 | The cyclic search finds an unused id in 1..max, and fails exactly when there is none |
| ClientTables.AddValid | src/server.cpp:562-617 | A client is added exactly when its id and peer are free; both maps stay inverses of the vector |
| ClientTables.RemoveValid | src/server.cpp:948-998 | Swap-removal keeps both maps exact and every other client as it was |
| ClientTables.DistinctClients | src/server.cpp:562-617 | Distinct clients hold distinct ids, and distinct remote ones distinct peers |
| ClientTables.ClientList.FindNextAvailableClientId | src/server.cpp:548-560 | The loop refines the search |
| ClientTables.ClientList.AddClientState | src/server.cpp:562-617 | Refines the specification; on refusal nothing changes |
| ClientTables.ClientList.ProcessConnectRequest | src/server.cpp:1519-1581 | Refines the specification: known peer answered again, otherwise a free id, the handler, and the table |
| ClientTables.ClientList.ProcessConnectionRequestAck | src/server.cpp:1611-1636 | Makes the client ready exactly when the id is the one given to that peer |
| ClientTables.ClientList.RemoveClient | src/server.cpp:948-998 | Refines the specification |
| ClientTables.ClientList.DisconnectTimedOutClients | src/server.cpp:2026-2053 | Terminates, having removed exactly the remote clients whose idle time reached the limit |
| Handshakes.HandshakeIsSafe | src/server.cpp:1519-1581 | In every run over a network that loses, duplicates and reorders, where the handler accepts and nobody is removed: an Accepted or Ready client holds the id the server gave its peer, distinct peers hold distinct ids, and a peer is replicated to or sent updates only after its own acknowledgement with that id |
| Handshakes.HandshakeCompletes | src/client/transport.cpp:466-497 | From every reachable state and phase, a client can still become ready if and only if the server knows it or has room, and then eight steps are enough; an accepted client whose acknowledgement was lost sends it again |
| Handshakes.ShutOut | src/server.cpp:1519-1581 | A client that a full server does not know is never ready, whatever happens next |
| Handshakes.StepSound | src/server.cpp:1322-1340 | Every step keeps both ends and every message in flight in agreement |
| Handshakes.ClientConnection.ReceiveConnectResponse | src/client/transport.cpp:166-225 | Refines the specification, the invalid id included |
| Handshakes.ClientConnection.DrainConnectPackets | src/client/transport.cpp:466-497 | Refines the resend specification |
| BaselineRings.BaselinesSurvive | src/client.cpp:1693-1710 | While a findable frame is the referenced one, no sequence of later `remember_baseline` calls loses or alters it; a remembered frame is found if and only if no later one took its place in the ring or it is the one set aside, so every frame less than one history length behind the newest is found with its bytes |
| BaselineRuns.BaselinesAgree | src/client/runtime/update_runtime.cpp:136-252 | For every run of sends, losses, reorderings, acknowledgements and mask changes of one entity: what the client decoded of the server baseline agrees with it under the present mask; a record later than the last received is accepted if and only if it is full or its baseline is found, and then decodes to what was sent under its mask; and the baseline is found if and only if its place was not taken or it was set aside |
| BaselineRuns.StepSound | src/server/client_update_scheduler.cpp:352-386 | Every step keeps the two ends in agreement; a mask that reopens a component gives up the baseline and its epoch |
| BaselineRuns.AcknowledgeSound | src/server/server_client_replicator.cpp:378-430 | Only a send of the present epoch becomes the baseline, and it was sent under a mask that covers the present one |
| BaselineRuns.LateAcknowledgementStrands | src/client.cpp:1693-1710 | A concrete run: a frame acknowledged one ring length late becomes the server baseline after the client ring lost it |
| BaselineRuns.NeverRescued | src/client/runtime/update_runtime.cpp:236-252 | Then every difference from it is refused, in every run without another acknowledgement, a new mask or a change of component presence |
| BaselineRings.BaselineHistory.RememberBaseline | src/client.cpp:1693-1710 | Refines the ring with its pinned entry |
| BaselineRings.BaselineHistory.ProtectReferencedBaseline | src/client.cpp:1507-1510 | Refines the marking |
| BaselineRings.BaselineHistory.FindBaseline | src/client/entity.cpp:107-134 | Finds exactly what the ring or the pinned entry holds for the frame |
| FrameLayouts.LayOut | src/components.cpp:266-290 | The loop computes each offset as the sum of the sizes before it, and the total |
| FrameLayouts.RangesApart | src/components.cpp:266-290 | Component byte ranges do not overlap and lie within the total |
| FrameLayouts.PutGet | src/detail/frame_data.cpp:129-180 | Writing a component is read back and touches no other |
| FrameLayouts.ChangedPresentComponentMask | src/detail/frame_data.cpp:40-61 | The loop marks exactly the components present in the next frame that differ from, or are absent in, the current one |
| BufferedApplies.MaskedApplyIsWhole | src/client.cpp:840-913 | A masked apply leaves what applying the whole sample would if and only if the unmasked components are already there and every component to be gone is in the previous mask |
| BufferedRuns.ShownFrameIsWhole | src/client.cpp:1082-1129 | In every run of received updates and shown frames, in any order and with any gaps, where only shown frames change `applied_present_mask`, the registry shows exactly the last frame shown |
| BufferedRuns.RecordedThroughoutIff | src/client.cpp:1481-1505 | With updates changing `applied_present_mask` as they arrive: over every run, everything the registry shows stays recorded if and only if no update leaves out a component shown when it arrives |
| BufferedRuns.RecordedShowsWhole | src/client.cpp:1082-1129 | While everything shown is recorded, showing a frame leaves exactly that frame |
| BufferedRuns.ShowCovers | src/client.cpp:1082-1129 | In every run, showing a frame leaves every component of the frame right; it leaves exactly the whole sample if and only if every component the registry holds beyond the frame is in `applied_present_mask` |
| BufferedRuns.ReceiveSound | src/client.cpp:946-1080 | Receiving an update fills every frame since the last one, the update frame with the decoded data, and alters no frame written before |
| BufferedRuns.FillFromSound | src/client.cpp:946-980 | The fill loop writes each frame up to the update once |
| BufferedRuns.MaskLeavesOutShown | src/client.cpp:1005-1022 | What the apply mask leaves out is already shown with the same bytes |
| BufferedRuns.MarkedUpdateLeavesComponent | src/client.cpp:1481-1496 | A concrete family: because `record_authoritative_present` sets the mask on arrival, a component removed by the second of two updates survives showing both |
| BufferedEntities.BufferedEntity.ApplyBufferedSample | src/client.cpp:1082-1129 | Refines the specification |
| BufferedEntities.BufferedEntity.ApplyRegistryFrame | src/client.cpp:875-913 | Refines the specification: tags, removals, pushes |
| BufferedEntities.BufferedEntity.WriteBufferedFrame | src/client.cpp:982-1080 | Refines the specification: grow the ring, content, apply mask |
| BufferedEntities.BufferedEntity.FillBufferedFrames | src/client.cpp:946-980 | The loop refines the specification |
| Records.FullRoundTrip | src/server.cpp:3078-3198 | A full record decodes, with either presence encoding, to the same slot set and values: the tags, exactly the included components with their bytes, and nothing else; the bits after it are left unread |
| Records.ChosenIsShortest | src/server.cpp:3092-3095 | The presence encoding chosen is never the longer one |
| Records.BaselineFrameRoundTrip | include/ashiato/sync/protocol.hpp:187-216 | The baseline frame is read back in both of its forms |
| Records.SlotFits | include/ashiato/sync/protocol.hpp:55-66 | Every slot number fits the width used for slot numbers |
| DeltaRecords.DeltaPatches | src/server.cpp:2950-3076 | Patching the receiver baseline with a delta record gives the current frame on every component in the mask and leaves the masked-out ones at the baseline |
| DeltaRecords.RecordDelivers | src/server.cpp:2783-2790 | Whether full or delta was chosen, the receiver ends with the current frame on the tags and every component in the mask |
| RecordLoops.CollectSlots | src/server.cpp:3078-3090 | The loop counts and collects the included slots |
| RecordLoops.WriteFullRecord | src/server.cpp:3078-3198 | The writer loop appends the specified bits |
| RecordLoops.WriteDeltaRecord | src/server.cpp:2950-3076 | The writer loop appends the specified bits |
| RecordLoops.DecodeFullRecord | src/client/runtime/update_runtime.cpp:271-373 | The decoder loop refines the specification, failures included |
| RecordLoops.DecodeDeltaRecord | src/client/runtime/update_runtime.cpp:375-442 | The decoder loop refines the specification, failures included |
| ClientClocks.SampleError | src/client_clock.cpp:189-200 | A four-timestamp sample of messages that take no negative time is off the true offset by at most half its round trip (the formula of section 8 of RFC 5905) |
| ClientClocks.OffsetStaysClose | src/client_clock.cpp:145-233 | In every run of samples, first updates, updates, leads, lags and ticks, with smoothing in (0,1]: if half the round trip of each sample and the age of the first update are at most E, the offset is within E of the truth from the first sample or first update on |
| ClientClocks.ClockStaysBounded | src/client_clock.cpp:279-310 | After every run of clock steps, an update keeps the buffered lag below capacity and never moves it away from or past its target, keeps both dilations in their bounds, and any prefill frame requested is later than the last input and less than one input buffer past the server frame |
| ClientClocks.UpdateBounded | src/client_clock.cpp:432-547 | The same for one update from any clock within its bounds |
| ClientClocks.StepsConserveTime | src/client_clock.cpp:34-62 | Steps taken, steps dropped and the rest add up to the time that came in, and the rest is less than a step |
| ClientClocks.ReplicationClientClock.RecordTimeSyncSample | src/client_clock.cpp:189-233 | Refines the specification and keeps the bounds |
| ClientClocks.ReplicationClientClock.RecordPingSample | src/client_clock.cpp:358-376 | Refines the specification; latency and jitter stay non-negative and the targets inside their buffers |
| ClientClocks.ReplicationClientClock.RecordServerUpdateAt | src/client_clock.cpp:279-310 | Refines the specification and states the prefill bound |
| ClientClocks.ReplicationClientClock.RecordBufferedTiming | src/client_clock.cpp:457-507 | Refines the specification; the lag stays below capacity and moves towards its target, never past it |
| ClientClocks.ReplicationClientClock.RecordPredictionTiming | src/client_clock.cpp:509-547 | Refines the specification; lead targets and dilation stay inside their bounds |
| ClientClocks.ReplicationClientClock.AdvanceBy | src/client_clock.cpp:77-143 | Refines the specification and keeps the bounds |
| TraceCodec.PrefixDecodes | src/tracing.cpp:1135-1173 | Any byte prefix of a concatenation of encoded records decodes to exactly the records that are whole in it |
| TraceCodec.WholeStreamDecodes | src/tracing.cpp:338-349 | The whole stream decodes to exactly the events written |
| TraceCodec.PayloadRoundTrip | src/tracing.cpp:210-267 | Every event that fits its field widths is read back exactly, whatever its strings and scopes hold |
| TraceCodec.CutOffEnds | src/tracing.cpp:1135-1173 | A record cut off anywhere ends the stream |
| TraceCodec.AppendPod | src/tracing.cpp:20-26 | The byte loop writes the value lowest byte first |
| TraceCodec.ReadFile | src/tracing.cpp:1175-1191 | The reading loop refines the specification |
| TraceSinks.SinkDelivers | src/tracing.cpp:983-1074 | In every interleaving of producers, sink thread and close: `queued_bytes` is the total length of the queued records, it exceeds capacity only for a batch admitted into an empty queue, and once the thread has ended the file holds every accepted record once in acceptance order |
| TraceSinks.FileReadsBack | src/tracing.cpp:1039-1074 | At any moment, and cut off anywhere, the file reads back as the first of the accepted records |
| TraceSinks.StepSound | src/tracing.cpp:983-1124 | Every step of every thread keeps queue, count and file in agreement |
| TraceSinks.RoomIsMade | src/tracing.cpp:983-1037 | Whenever the sink thread gets to run, its turns make room for any waiting batch, however large |
| TraceSinks.CloseEnds | src/tracing.cpp:1097-1124 | Once closing, the turns of the thread end it with everything written |
| TraceWakeups.WakeUpCanBeLostIff | src/tracing.cpp:1034-1045 | While the thread sleeps on something and a notification is on its way, notifications and looks at the queue alone can lose it if and only if a producer waits |
| TraceWakeups.RoomIffHeard | src/tracing.cpp:1015-1058 | When producers wait and none fits, what is under way can make room for them and wake them if and only if the thread is awake or about to be woken |
| TraceWakeups.WakeUpIsLost | src/tracing.cpp:1034-1036 | A concrete run: a second producer that finds the queue full between unlock and `notify_one` takes the notification, and the thread sleeps on a full queue |
| TraceWakeups.StuckForever | src/tracing.cpp:1015-1045 | From then on nothing is written, in any run without close, a spurious wake-up, a batch that fits, or a flush that wakes the thread |
| TraceWakeups.RoomyRunsAreHeard | src/tracing.cpp:1015-1036 | While every batch finds room at its first look, no notification is stolen |
| TraceWakeups.HeardThroughoutIff | src/tracing.cpp:1034-1045 | Over every run, the thread is always awake or about to be woken while there is something for it to do if and only if no notification is stolen |
| TraceWakeups.StepHeardIff | src/tracing.cpp:1034-1045 | If a sleeping thread with something to do has a notification on its way, it still has one after the next event if and only if that event is not a notification, or a flush, that goes to a producer instead |
| TraceWakeups.NextSound | src/tracing.cpp:1015-1074 | With the condition variable in the model: every critical section and notification keeps the queue sound, and no producer sleeps while there is room for it |

## Left out

- InputSystems.ServerHoldsWhatWasSent: for orderly runs, which are exactly those that keep both ends telling one story; after a step that is not orderly, whether a wrong input is ever stored depends on what is sent and delivered next and on the codec.
- InputLimits.DeliveryTruthfulIff: for inputs of 1 to 8191 bytes, beyond the library limit of 1200.
- InputClients.PackHonest: how many of the newest inputs fit the packet size is an arbitrary number, and the client ring is modelled on values, not in place.
- InputBuffers.ProcessHonest: packets whose baseline is beyond the server acknowledgement are modelled, but no honest client sends one and the theorem excludes them; frame numbers stay below 2^32.
- ReplayCorrectness.ReplayReproducesServer: with replicated components tracked and the replayed frames written whole; the exact conditions are those of `ReplayCoverage.NothingMissedIff`, `ReplayCorrectness.RecordedFullIsExact` and `ReplayCorrectness.RecordedDeltaIsExact`.  A writer is attached once.
- ReplayFrames.DeltaFrameExact: for frames whose pending slots quantise and that stay below the 16-bit count; with slots that do not, see `ReplayLimits.DeltaHeadersExact`.
- ReplayLimits.DeltaHeadersExact: nothing is stated when a slot marked without a change stands at or behind the first that does not quantise; whether the bits misread there happen to show the right thing depends on the codecs.
- ReplayFrames.DeltaFrameEffect: the same.
- ReplayStreaming.ReplayStreamer.PushFrame: the vector of frames is a sequence; only one of the copying and moving overloads is modelled.
- SnapshotServers.SnapshotServer.SendEntity: bandwidth, priorities and packet assembly are reduced to one outcome per entity (not written, refused, sent full or delta).
- SnapshotService.EverySnapshotIsFresh: between a pass and the sends that follow it an entity may go or lose its marker, but components, tags and owners do not change; generations do not wrap at 2^64; an archetype change, which throws, ends a run.
- ReplayChain.RingHoldsRecording: frame numbers increase, as they do until 2^32 frames or until the frame is set back by hand.
- PacketWindows.WindowIsExact: arrivals further than half the id space from the highest are ambiguous on the wire and excluded.
- Handshakes.HandshakeIsSafe: with a handler that keeps the proposed id and accepts; `ClientTables.HandleRequest` takes an arbitrary handler.  Server resend timing is nondeterministic, and the peer a packet comes from is trusted.
- ClientClocks.ClockStaysBounded: reals instead of floats, and frame numbers derived from times are not cut to 32 bits.
- BufferedEntities.BufferedEntity.WriteBufferedFrame: interpolation between two frames is one total function of the two values and the fraction.
- Records.FullRoundTrip: network ids, cues, entity-reference contexts and frame numbers in the serialization context are not part of a record here.
- BufferedRuns.ShownFrameIsWhole: for updates that do not change the recorded components on arrival; `BufferedRuns.RecordedThroughoutIff` covers those that do, as the code has it.
- BaselineRuns.BaselinesAgree: one entity of one archetype that stays present, and at most one send per server frame.
- TraceWakeups.RoomIffHeard: the second condition variable, on which flush waits, is not modelled.
- TraceSinks.SinkDelivers: each critical section is one step; the one-time name records that go with an event are part of its batch, and which ones go is not modelled.
- TraceCodec.WholeStreamDecodes: the file header and its fallback for short client ids are left out.
- ReplayPlayback.Playback.ApplyFrame: the replay registry holds quantised bytes; dequantising is left out.
- Cue playback, cue rollback, trace event emission inside server and client: callbacks around user code.
- Operations a component may lack (null quantise or serialize functions): every component has all of them.
- Bit order inside a byte: bit buffers are sequences of bits, lowest bit of a field first.
- Client network ids, their versions, tombstones and the destroy queue of a client: easy beside the slot table.
- Prediction, rollback, snapping and mode transitions of the client: they drive user simulation code.
- Trace history and run trees, logging, options, sockets, examples, benchmarks and the network simulator: tools, not protocol.
