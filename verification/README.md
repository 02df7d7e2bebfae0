# KLF200 bridge: wire stack and recovery supervisor

The bridge connects a Velux KLF200 gateway to MQTT. This project models the two parts of it whose
correctness is not visible in any single function.

**The wire stack.** Bytes are SLIP-escaped as in the "PROTOCOL" section of RFC 1055, packets hold
frames with a length byte and an exclusive-or checksum, frames hold typed payloads, and calls pick
their own replies out of a shared stream by session id. Every layer has a round trip or a
non-interference theorem with its exact condition, and `EndToEnd` composes them: from the bytes of an
arbitrarily interleaved, arbitrarily fragmented stream to the results of two concurrent calls.

**The recovery supervisor.** `Supervisor` is a machine of three threads (main, health loop, periodic
loop) whose steps are the calls the application makes on its seams. The environment picks every
outcome, may drop the connection at any step, and the clock may show anything. `RunLog` says which
histories are lawful, `Supervisor.RunSafety` proves that every run keeps the invariant, `Choreography`
gives the complete list of calls of every visit to a procedure and `Succession` the order in which each
thread runs the procedures, `Recovery` draws the guarantees from it, `RecoveryRuns` exhibits complete
runs and two limits, and the class in `App` replays the methods of the application object statement by
statement: each execution of a method is proved to be a run of the machine.

| file | content |
|---|---|
| Bytes, Names, Parameter | bytes, words, exclusive or; padded names; two-byte parameters |
| Slip, FrameCodec, ReadLoop | packets, frames, the read loop |
| StatusNotification, NodeInfo, SceneList, CommandRequest, Messages | payload codecs and the registry of frame types |
| Calls, EndToEnd | request calls over a shared stream; the composition |
| Session, Callbacks, Connection, Heartbeat | ids, callback registry, connection and heartbeat lifecycles under all interleavings |
| Collection, Scenes, LiveUpdates, CoverState | node and scene collections, scene loading, live updates, published state |
| RunLog, Supervisor, Choreography, Succession, Recovery, RecoveryRuns, AfterStop, App | the recovery supervisor |

What the proofs found out about the code:

- An empty packet (`C0 C0`) ends the drain of a read, so packets behind it wait for the next read;
  fragmentation is invisible exactly when no complete packet follows an empty one
  (`ReadLoop.FragmentationInvisibleIff`).
- `BuildFrame` is faithful exactly up to 252 payload bytes; a scene list survives framing exactly up to
  three scenes (`FrameCodec.ExtractInvertsBuildIff`, `SceneList.SceneListFramesIff`).
- Functional parameters 4 to 16 are flagged in the indicator bytes of a command, but their values never
  reach the wire (`CommandRequest.ParametersReachWireIff`).
- `SetLimitation` completes on anybody's confirmation (`Calls.SetLimitationInterferes`), and is free of
  interference exactly when the first confirmation is its own (`Calls.SetLimitationIff`).
- Two overlapping `Connect` calls can leak a connection, and two overlapping `Heartbeat.Stop` calls close
  a channel twice (`Connection.OverlappingConnectsLeak`, `Heartbeat.OverlappingStopsCloseTwice`). The exact
  conditions are `Connection.ReplacementIff` and `Heartbeat.StopClosesOnceIff`. The supervisor makes
  neither happen, because only one thread at a time is inside a procedure that connects or stops the
  heartbeat (`Recovery.MutualExclusion`).
- A clock that reads exactly zero at a power cycle defeats the debounce of the next one
  (`RecoveryRuns.ZeroStampDefeatsDebounce`); `Recovery.DebouncedIff` is the exact condition.
- A recovery that waits for the mutex during `Stop` leaves a heartbeat running
  (`RecoveryRuns.HeartbeatOutlivesStop`). At the moment `Stop` begins to wait for the loops this can still
  happen if and only if a heartbeat runs already, the periodic loop is not over, or the health loop is not
  over and may recover (`AfterStop.HeartbeatSurvivesIff`); once `Stop` has returned, a heartbeat runs if and
  only if the last procedure that was not turned away has recovered (`Recovery.HeartbeatAfterStopIff`).

## Model

| member | source | states |
|---|---|---|
| `Slip.DecodeIsUnescape` | app/klf200/protocol/slip.go:24-28 | on every byte string, escaped or not, the two `ReplaceAll` passes of the decoder equal one left-to-right unescaper |
| `Slip.EncodeIsEscape` | app/klf200/protocol/slip.go:31-35 | the two passes of the encoder equal byte-wise escaping |
| `Slip.SlipRoundTrip` | app/klf200/protocol/slip.go:24-35 | decoding undoes encoding, the encoding contains no END, and only the empty message encodes to nothing |
| `Slip.ReencodeIff` | app/klf200/protocol/slip.go:24-35 | encoding restores a body from its decoding if and only if the body is properly escaped |
| `Slip.GetNextSlip` | app/klf200/protocol/slip.go:42-50 | consuming a packet shortens the buffer by at least two bytes; an unconsumed buffer is unchanged |
| `Slip.NextOfDelimited` | app/klf200/protocol/slip.go:42-50 | any END-delimited body is split off the front of any stream |
| `Slip.NextOfPacked` | app/klf200/protocol/slip.go:42-60 | a packed non-empty message in front of any stream is returned first |
| `Slip.EncodingOnWire` | app/klf200/protocol/slip.go:7-60 | appending a byte appends its wire form, with the numbers 192, 219, 220 and 221 of RFC 1055 written out; packets stand between two bytes 192 |
| `FrameCodec.CalcCRC` | app/klf200/protocol/frame.go:27-35 | every bit of the result is set if and only if an odd number of the bytes have it set; so it is the exclusive or of all bytes |
| `FrameCodec.BuildFrame` | app/klf200/protocol/frame.go:44-52 | the appended buffer is protocol id 0, the truncated length, the big-endian command, the payload, and a last byte with which every bit occurs an even number of times |
| `FrameCodec.FrameIsFrameBytes` | app/klf200/protocol/frame.go:44-52 | that description determines the frame |
| `FrameCodec.AcceptedIff` | app/klf200/protocol/frame.go:66-84 | exactly the inputs are accepted whose first two bytes are their length less two and in which every bit occurs an even number of times; command and payload are what stands between |
| `FrameCodec.ExtractInvertsBuildIff` | app/klf200/protocol/frame.go:44-84 | extraction returns command and payload if and only if the payload has at most 252 bytes, and otherwise fails |
| `FrameCodec.AcceptedIsBuiltIff` | app/klf200/protocol/frame.go:66-84 | an accepted input is the frame built from its result if and only if its first byte is 0 |
| `FrameCodec.SingleByteErrorDetected` | app/klf200/protocol/frame.go:66-84 | changing any single byte of an accepted frame makes it rejected |
| `ReadLoop.Reader.Read` | app/klf200/connection.go:299-323 | one read and the drain loop leave the buffer and the dispatched frames that the specification of the drain gives |
| `ReadLoop.Reader.ReadAll` | app/klf200/connection.go:299-323 | the reader over a whole list of reads equals the specification `Feed` |
| `ReadLoop.ReaderConservation` | app/klf200/connection.go:299-323 | for any bytes cut in any way, packets processed plus non-empty packets left are the non-empty packets of all input, and the tail is that of all input |
| `ReadLoop.FragmentationInvisibleIff` | app/klf200/connection.go:299-323 | every way of cutting the input gives all packets and the same rest if and only if no complete packet follows an empty one |
| `ReadLoop.ReadAtOnceStalls` | app/klf200/connection.go:307-311 | the bytes C0 C0 C0 01 C0 read at once leave their packet undelivered |
| `ReadLoop.ReadInTwoDelivers` | app/klf200/connection.go:307-311 | the same bytes in two reads deliver it |
| `ReadLoop.NeverResynchronises` | app/klf200/protocol/slip.go:16-21 | a buffer that starts with anything but END is never consumed again, whatever follows |
| `ReadLoop.EndToEnd` | app/klf200/connection.go:299-323 | registered frames interleaved with any non-empty garbage packets, cut in any way and received up to an unfinished packet, are dispatched exactly and in order, and the buffer holds the unfinished packet |
| `ReadLoop.Deliver` | app/klf200/connection.go:285-323 | the same for the reader object |
| `Parameter.NormalisedIffValid` | app/klf200/protocol/parameter.go:65-102 | the values decoders leave alone are exactly the values setters accept: up to 0xC800 and the four sentinels; decoding makes any other value 0xF7FF |
| `Parameter.PercentRoundTrip` | app/klf200/protocol/parameter.go:228-242 | percentages survive the wire, written as twice the percentage in the high byte; a parameter shows as half its high byte, rounded up; a normalised one shows a percentage in 0..100 if and only if it is at most 0xC800 |
| `Names.BytesToString` | app/klf200/protocol/frame_auth_system.go:31-38 | the loop returns the bytes before the first NUL |
| `Names.NameRoundTripIff` | app/klf200/protocol/frame_auth_system.go:19-38 | a padded name reads back if and only if it holds no NUL |
| `StatusNotification.MarshalPayload` | app/klf200/protocol/frame_commands.go:408-448 | for the given iteration order of the map, the loops write the specified payload, which outside main-info has 59 bytes |
| `StatusNotification.UnmarshalPayload` | app/klf200/protocol/frame_commands.go:451-503 | the loop builds the specified map and header, or the specified error |
| `StatusNotification.NotificationLayout` | app/klf200/protocol/frame_commands.go:408-448 | the offset of every field and entry of a written notification, zeros elsewhere, and exactly when marshalling panics |
| `StatusNotification.AcceptedPayload` | app/klf200/protocol/frame_commands.go:451-503 | exactly which payloads are accepted |
| `StatusNotification.DecodedEntries` | app/klf200/protocol/frame_commands.go:484-503 | from any accepted payload exactly the keys counted are read, each with the value of its last entry |
| `StatusNotification.DecodeEncoded` | app/klf200/protocol/frame_commands.go:408-503 | what decoding makes of any encoded notification that is not main-info, whatever the iteration order |
| `StatusNotification.MapRoundTripIff` | app/klf200/protocol/frame_commands.go:408-503 | for every map and iteration order, map and header come back if and only if all values are normalised and the count field fits |
| `StatusNotification.MainInfoRoundTripIff` | app/klf200/protocol/frame_commands.go:408-503 | the main-info form has 18 bytes and is faithful exactly for normalised positions |
| `NodeInfo.AliasArrayBytesOf` | app/klf200/protocol/frame_nodes.go:48-58 | the loop writes the specified 21 bytes |
| `NodeInfo.AliasArrayOfBytes` | app/klf200/protocol/frame_nodes.go:25-45 | the loop reads the specified aliases or fails |
| `NodeInfo.MarshalNodeInfo` | app/klf200/protocol/frame_nodes.go:108-139 | the appended buffer is the specified 124 bytes, or the error for a long name |
| `NodeInfo.UnmarshalNodeInfo` | app/klf200/protocol/frame_nodes.go:141-200 | the assigned fields are the specified record, or the specified error |
| `NodeInfo.NodeInfoLayout` | app/klf200/protocol/frame_nodes.go:108-139 | the offset of every field in the 124 bytes, zeros elsewhere, and exactly when marshalling fails or panics |
| `NodeInfo.AcceptedPayload` | app/klf200/protocol/frame_nodes.go:141-200 | exactly the payloads of 124 bytes with at most five aliases are accepted |
| `NodeInfo.NodeInfoRoundTripIff` | app/klf200/protocol/frame_nodes.go:108-200 | a record comes back if and only if it is canonical |
| `NodeInfo.DecodedIsCanonical` | app/klf200/protocol/frame_nodes.go:141-200 | every decoded record is canonical |
| `NodeInfo.ReencodeIsStable` | app/klf200/protocol/frame_nodes.go:108-200 | re-encoding the decoding of any accepted payload is accepted, decodes to the same record and re-encodes to itself |
| `NodeInfo.SameRecordIffSameNormalForm` | app/klf200/protocol/frame_nodes.go:108-200 | two accepted payloads decode to the same record if and only if their re-encodings are equal |
| `SceneList.MarshalPayload` | app/klf200/protocol/frame_scenes_wink.go:111-123 | the loop writes the specified payload or fails on a long name |
| `SceneList.UnmarshalPayload` | app/klf200/protocol/frame_scenes_wink.go:126-148 | the loop reads the specified list or fails |
| `SceneList.SceneListLayout` | app/klf200/protocol/frame_scenes_wink.go:91-123 | the count, every 65-byte entry and the remaining count of a written list, and exactly when marshalling fails |
| `SceneList.AcceptedPayload` | app/klf200/protocol/frame_scenes_wink.go:126-148 | exactly the payloads whose first byte counts their entries are accepted |
| `SceneList.SceneListRoundTripIff` | app/klf200/protocol/frame_scenes_wink.go:91-148 | a list comes back if and only if it has at most 255 scenes with NUL-free names of at most 64 bytes |
| `SceneList.SceneListFramesIff` | app/klf200/protocol/frame.go:44-84 | an encoded list survives framing if and only if it has at most three scenes |
| `Messages.SmallRoundTrip` | app/klf200/protocol/frame_commands.go:120-258 | every modelled fixed-layout frame with normalised fields decodes from its payload to itself |
| `Messages.SmallLayout` | app/klf200/protocol/frame_commands.go:120-258 | command code and offset of every field of the modelled fixed-layout frames |
| `Messages.NotificationRoundTrip` | app/klf200/protocol/frame_commands.go:408-503 | a status notification frame comes back through the registry, in every iteration order of its map |
| `Messages.FrameRoundTrip` | app/klf200/protocol/creation.go:42-56 | every representable frame marshals to a payload that fits one frame and is registered to decode to the same frame |
| `CommandRequest.Indicators` | app/klf200/command.go:49-60 | bit k of FPI1 is set exactly if parameter 8-k is given, bit k of FPI2 exactly if parameter 16-k is, and slot j holds parameter j+1 or zero |
| `CommandRequest.BuildCommand` | app/klf200/command.go:39-61 | the request carries session, node, main parameter, indicators and slots of the call, user originator and user level 2 |
| `CommandRequest.CommandLayout` | app/klf200/protocol/frame_commands.go:39-74 | every one of the 66 bytes: session, originator, priority, active parameter, both indicators, main parameter, three slots, thirteen zero slots, nodes, four zero bytes |
| `CommandRequest.CommandPayload` | app/klf200/command.go:37-61 | the 66 bytes CommandSend puts on the wire, from its own arguments: the fifth and sixth byte flag exactly the functional parameters given |
| `CommandRequest.ParametersReachWireIff` | app/klf200/protocol/frame_commands.go:58-64 | all functional parameters reach the wire if and only if those numbered 4 to 16 are zero |
| `CommandRequest.NodeArrayRoundTripIff` | app/klf200/protocol/frame_commands.go:86-92 | a node list comes back if and only if its ids are consecutive modulo 256 |
| `CommandRequest.CommandRoundTripIff` | app/klf200/protocol/frame_commands.go:39-100 | a command request comes back if and only if its ids are consecutive, its parameter is normalised and it has no functional parameters |
| `CommandRequest.StatusRequestRoundTripIff` | app/klf200/protocol/frame_commands.go:294-328 | a status request comes back if and only if it names at most 20 consecutive nodes; one node always does |
| `CommandRequest.StatusPayload` | app/klf200/command.go:112-122 | the 26 bytes StatusRequest puts on the wire |
| `Calls.DoCommandSend` | app/klf200/command.go:64-97 | the handler over the reply stream computes the specified outcome |
| `Calls.DoStatusRequest` | app/klf200/command.go:124-151 | the same for the status request |
| `Calls.DoGetLimitation` | app/klf200/limitation.go:57-84 | the same for the limitation status |
| `Calls.DoSceneRun` | app/klf200/scenes.go:57-94 | the same for running a scene |
| `Calls.NonInterference` | app/klf200/command.go:64-89 | the outcome of a call other than SetLimitation equals its outcome on the frames with its own session id |
| `Calls.InterleavedCalls` | app/klf200/command.go:124-143 | two calls with different ids on any interleaving of their replies each return what they return alone |
| `Calls.AcceptedIff` | app/klf200/command.go:64-97 | success of CommandSend and Scene.Run if and only if an accepting own confirmation, status 1 and 0, came no later than the first frame that ends the call; they wait if and only if no frame ends them |
| `Calls.AnsweredIff` | app/klf200/limitation.go:57-76 | StatusRequest and GetLimitation return the first own notification of the stream |
| `Calls.SetLimitationIff` | app/klf200/limitation.go:112-121 | SetLimitation is free of interference at every moment of a stream if and only if the first limitation confirmation is its own |
| `Calls.LimitedIff` | app/klf200/limitation.go:112-121 | SetLimitation takes the verdict of the first limitation confirmation: rejected with status 0, accepted with any other |
| `Calls.SetLimitationInterferes` | app/klf200/limitation.go:112-121 | a confirmation for session 2 completes the call of session 1 |
| `EndToEnd.FramesArrive` | app/klf200/connection.go:299-323 | however representable frames are interleaved with garbage, whatever map order each is written in and however the stream is cut, exactly the frames sent are dispatched in order |
| `EndToEnd.CallsOverOneWire` | app/klf200/connection.go:299-343 | two calls with different ids on one connection each return, from the bytes, what they return from their own replies alone |
| `EndToEnd.StatusRequestOverWire` | app/klf200/command.go:112-151 | the same as run by the reader and the handler |
| `Session.EveryInterleavingCounts` | app/klf200/session.go:27-44 | under every interleaving of loads and swaps, also after a full wrap, the k-th success returns the k-th id |
| `Session.ConsecutiveIdsDistinct` | app/klf200/session.go:27-39 | ids lie in 1..65535 and any 65535 consecutive ones are pairwise distinct |
| `Session.SessionIDGenerator.NewSessionID` | app/klf200/session.go:27-39 | with rivals interfering between load and swap, the loop returns the id that follows theirs |
| `Callbacks.Registry.Register` | app/klf200/connection.go:203-211 | the handle is the next counter value and is appended |
| `Callbacks.Registry.Unregister` | app/klf200/connection.go:214-223 | the loop removes the first entry with the handle and nothing else |
| `Callbacks.Registry.DoAPICall` | app/klf200/event.go:51-87 | register, write, select: the call ends with the failed write or with the first completing frame, loss or end of context that reaches it; until then it stays registered, and any ending leaves the registry as it was |
| `Callbacks.RegistrySafety` | app/klf200/connection.go:203-223 | in every interleaving of calls, writes, dispatched frames, lost connections, expiring contexts, connects and disconnects, handles are unique and ascending and belong exactly to the calls in progress and the installed dispatch |
| `Callbacks.CallRemovesItsOwn` | app/klf200/event.go:66-86 | in every reachable state, whichever exit is open to a call, taking it removes exactly the callback the call added; the write error is the exit of a failed write only, and none is open before the write has returned |
| `Callbacks.DoneWasDispatched` | app/klf200/event.go:60-71 | a call ends as done only after its own handler accepted a frame that was dispatched while this very registration was in place |
| `Callbacks.CallCanEnd` | app/klf200/event.go:60-86 | a call that waits can end as done after the next frame its handler accepts, as lost after the loss of the connection, with its context after that has expired |
| `Callbacks.EndingIff` | app/klf200/event.go:74-86 | a waiting call ends with the first signal that decides it and waits as long as there is none |
| `Callbacks.UpdaterRegisteredOnce` | app/klf200/client.go:125-182 | after every successful connect the updater dispatch is registered exactly once, after a disconnect not at all |
| `Connection.LifecycleSafety` | app/klf200/connection.go:97-173 | in every interleaving, connected exactly if a connection is set, its lifecycle is the current one, and no lost channel is closed twice |
| `Connection.OldExitHarmless` | app/klf200/connection.go:286-297 | the exit of an older connection's loop or Disconnect changes nothing of the current connection |
| `Connection.LoopEndSignals` | app/klf200/connection.go:286-297 | once a read loop has ended, its lost channel is closed |
| `Connection.DisconnectSignals` | app/klf200/connection.go:252-280 | a Disconnect that takes a connection leaves none and closes its lost channel |
| `Connection.SerialConnectReplacesNothing` | app/klf200/connection.go:133-173 | while Connect calls are serial, no dial is under way beside another dial or a connection |
| `Connection.SerialRunsDisplaceNothing` | app/klf200/connection.go:133-173 | runs whose Connect calls are serial never displace a live connection |
| `Connection.ReplacementIff` | app/klf200/connection.go:133-173 | in every reachable state, even if no further Connect passes its check, an installation can still displace a live connection if and only if two dials are under way, or one beside a connection |
| `Connection.OverlappingConnectsLeak` | app/klf200/connection.go:133-173 | two overlapping Connects leave the first connection's loop running, unsignalled and unreachable for Disconnect |
| `Connection.Conn.BeginConnect` | app/klf200/connection.go:133-141 | refuses a connected object and otherwise records a dial |
| `Connection.Conn.FinishConnect` | app/klf200/connection.go:142-173 | installs connection, counter and lifecycle and starts its loop, or drops the dial |
| `Connection.Conn.BeginDisconnect` | app/klf200/connection.go:252-268 | takes the connection away and returns the lifecycle to signal |
| `Connection.Conn.EndReadLoop` | app/klf200/connection.go:286-297 | clears the connection only if it is still the loop's own |
| `Connection.Conn.FinishDisconnect` | app/klf200/connection.go:269-280 | signals the lifecycle of the connection it took, once, and touches no connection |
| `Connection.Conn.SignalReadLoop` | app/klf200/connection.go:285-297 | signals the loop's own lifecycle, once |
| `Heartbeat.HeartbeatSafety` | app/klf200/heartbeat.go:67-101 | in every interleaving at most one loop runs, exactly while the flag is set, and every done channel is closed at most once and after its stop channel |
| `Heartbeat.StopReturns` | app/klf200/heartbeat.go:81-101 | a Stop that has signalled can always return |
| `Heartbeat.StopClosesOnceIff` | app/klf200/heartbeat.go:81-91 | no stop channel is closed twice if and only if no Stop signals between another's signal and the exit of the loop |
| `Heartbeat.OverlappingStopsCloseTwice` | app/klf200/heartbeat.go:81-91 | Start, Stop, Stop closes the same channel twice |
| `Heartbeat.Pulse.Start` | app/klf200/heartbeat.go:67-77 | does nothing while running, otherwise starts one loop with new channels |
| `Heartbeat.Pulse.BeginStop` | app/klf200/heartbeat.go:81-90 | does nothing while not running, otherwise closes the stop channel |
| `Heartbeat.Pulse.ExitLoop` | app/klf200/heartbeat.go:95-101 | clears the flag and closes the done channel |
| `Collection.Items.Add` | app/klf200/nodes.go:24-36 | replaces the entry with the same id in place or appends |
| `Collection.Items.ByID` | app/klf200/nodes.go:38-48 | returns the first entry with the id |
| `Collection.Items.Reload` | app/klf200/client.go:217-231 | clearing and adding a list leaves the collection built from that list |
| `Collection.UpsertIsMapUpdate` | app/klf200/nodes.go:24-47 | on unique ids, adding is map update, lookup is map lookup, ids stay unique and no other entry moves |
| `Collection.BuildIsDigest` | app/klf200/scenes.go:115-154 | the collection built from a list has each id once, in first-seen order, with its last entry |
| `Collection.DigestUnique` | app/klf200/scenes.go:115-128 | that description determines the collection |
| `Scenes.Load` | app/klf200/scenes.go:187-236 | the handler and the rebuild compute the specified collection and error |
| `Scenes.LoadEndsIff` | app/klf200/scenes.go:187-220 | whatever is received, the call completes if and only if a zero count or a notification with nothing remaining arrives, with the scenes and the last count up to the first such frame |
| `Scenes.AnyCutLoadsTheList` | app/klf200/scenes.go:187-236 | after a non-zero count, every way of cutting the list into notifications, with any frames in between, collects the whole list; nil exactly if the number of entries is the announced one |
| `Scenes.LoadTwice` | app/klf200/scenes.go:187-236 | two deliveries of one list, cut differently, leave the same collection |
| `CoverState.PublishedState` | app/bridge/cover_state.go:23-107 | the position is the raw one if in 0..100 and 0 otherwise; opening if and only if the target is a percentage on the open side of it, closing on the closed side; at rest closed if and only if at the closed end |
| `CoverState.InversionIsMirror` | app/bridge/cover_state.go:59-107 | an inverted cover is the normal one with percentages counted from the other end |
| `LiveUpdates.NodeUpdater.ProcessPositionFrame` | app/klf200/node_updater.go:98-144 | pushes the new values into the addressed node as the specification says |
| `LiveUpdates.NodeUpdater.ProcessStatusRequestNotification` | app/klf200/node_updater.go:155-183 | the same for status notifications |
| `LiveUpdates.NodeUpdater.ProcessLimitationStatusNotification` | app/klf200/node_updater.go:190-203 | stores the reported limits in the addressed opening device or blind and nothing else |
| `LiveUpdates.NodeUpdater.ProcessFrame` | app/klf200/node_updater.go:82-93 | dispatches on the frame type, limitation notifications included |
| `LiveUpdates.NodeUpdater.ProcessFrames` | app/klf200/node_updater.go:82-203 | a whole stream leaves every node in the specified state |
| `LiveUpdates.OpeningShowsLastValid` | app/klf200/node_updater.go:98-144 | position and target of an opening device other than a blind are each the last value up to 0xC800 reported for it, or the initial one |
| `LiveUpdates.BlindShowsLastValid` | app/klf200/node_updater.go:98-183 | the position of a blind is the last valid one from position frames and complete status notifications, its orientation the last valid one from the latter, its target never changes |
| `LiveUpdates.LightShowsLastValid` | app/klf200/node_updater.go:98-144 | a light shows the last valid reported position and keeps the rest; any other node keeps everything |
| `LiveUpdates.LimitsShowLast` | app/klf200/node_updater.go:190-203 | after any stream the limits of an opening device or blind are the last reported ones or the initial ones, and those of other nodes never change |
| `LiveUpdates.OtherNodesIrrelevant` | app/klf200/node_updater.go:82-203 | frames for other nodes change nothing, whatever the kind of node |
| `LiveUpdates.PublishedAfterRun` | app/bridge/cover.go:181-185 | after any stream the cover publishes the percentage of the stored position, or 0 if it has none; opening or closing if and only if the stored target has a percentage on that side of it, closed if and only if at rest at the closed end; a valid report makes the stored value valid, for positions and targets |
| `Supervisor.RunSafety` | app/app.go:165-881 | every run of the three threads keeps the invariant: the history is lawful and explains the fields, and every thread stands where it may |
| `Supervisor.CallAllowed` | app/app.go:655-851 | every call a procedure makes is allowed by the history so far |
| `Supervisor.InnerNext` | app/app.go:655-851 | every step of a procedure leads to the next place with what holds there |
| `Choreography.AlwaysScripted` | app/app.go:235-274 | in every reachable state the thread inside a procedure has made exactly the calls that lead to its place |
| `Choreography.LeftByTheScript` | app/app.go:655-851 | in every run, every procedure that has returned had made exactly the calls of its script, from the stop of the heartbeat to its start: which, in which order, after how many failed attempts (seven exactly if exhausted), with which outcome |
| `Choreography.RebootAsksOnce` | app/app.go:696-718 | whenever a procedure dials or returns, GW_REBOOT_REQ has been sent exactly once if it is a reboot and otherwise not at all |
| `Succession.InOrder` | app/app.go:506-647 | in every run each procedure, tick and announcement of a thread is the one that follows from its own last event and outcome |
| `Succession.AlwaysDutiful` | app/app.go:165-226 | in every reachable state each thread stands where that order puts it, so it cannot skip what comes next |
| `Succession.LadderHasNoGap` | app/app.go:592-607 | after a failed reconnect or reboot of the health check the power cycle comes next if there is a plug; after a recovered reconnect the reboot |
| `Succession.LoopsEndByStop` | app/app.go:857-863 | the loops end only after Stop has closed the stop channel |
| `Recovery.MutualExclusion` | app/app.go:655-657 | procedures of different threads never overlap, and from the end of the first bring-up on the thread inside one is the holder of resetMu |
| `Recovery.PlugSafety` | app/app.go:773-821 | in every run the plug sees (OFF, ON)*, not retained, on the configured topic, nothing without one, and a trailing OFF exactly while the holder of resetMu is between its two publishes |
| `Recovery.PowerRestored` | app/app.go:803-820 | from every reachable dark state at most three moves of the thread that cut the power restore it, also when its context is done |
| `Recovery.BringUpSafety` | app/app.go:655-851 | Connect is only called disconnected, with the heartbeat stopped, the power on and a slot left; heartbeats start only when none runs; nil means loaded, registered and heartbeat running; exhausted means all slots tried, disconnected and heartbeat stopped; every return leaves the power on |
| `Recovery.HeartbeatSafety` | app/app.go:279-318 | heartbeats start and stop strictly in turn |
| `Recovery.AvailabilitySafety` | app/app.go:548-647 | the MarkAll calls alternate, starting with unavailable, and their counts differ by one exactly while wedged (up to the call that follows each flip) |
| `Recovery.EscalationLadder` | app/app.go:548-647 | a health check cuts the power only with restart-on-error and a topic, after a stale tick and a failed reconnect or reboot of that same tick |
| `Recovery.StaleIff` | app/app.go:548-556 | a health check finds the gateway stale if and only if two whole intervals have passed since the last contact |
| `Recovery.LastContactIs` | app/app.go:530-539 | the last contact is the clock of the last frame, heartbeat confirmation, successful load or begin of Start |
| `Recovery.DebounceBound` | app/app.go:757-793 | every cut has its own stamp, stamps are 15 minutes apart unless one is zero, and then a window of any width W holds at most W / 15 min + 1 |
| `Recovery.DebouncedIff` | app/app.go:786-793 | a request is debounced if and only if the last stamp is not zero and less than 15 minutes old |
| `Recovery.StopIsFinal` | app/app.go:857-880 | once Stop has returned nothing happens any more and the client stays disconnected |
| `Recovery.HeartbeatAfterStopIff` | app/app.go:857-880 | once Stop has returned, and whenever nobody is inside a procedure, a heartbeat runs if and only if the last procedure not turned away at its start has recovered |
| `Recovery.QuietStop` | app/app.go:865-868 | in particular, unless a recovery is entered after the critical section of Stop, no heartbeat runs afterwards |
| `AfterStop.HeartbeatSurvivesIff` | app/app.go:857-880 | from the moment Stop waits for the loops, some continuation lets it return with a heartbeat running if and only if one runs already, the periodic loop is not over, or the health loop is not over and restart-on-error is set |
| `AfterStop.Drain` | app/app.go:655-851 | from every reachable state, a loop that has or can get the mutex comes to rest by its own successful moves |
| `RunLog.PlugAlternates` | app/app.go:803-820 | a lawful history alternates OFF and ON and is dark exactly after an odd number of publishes |
| `RunLog.WindowBound` | app/app.go:757-793 | stamps 15 minutes apart put at most W / 15 min + 1 of them into a window of width W |
| `RunLog.CutsEscalate` | app/app.go:592-607 | in a lawful history every cut by a health check stands at the end of the escalation ladder |
| `RecoveryRuns.RecoveryCompletes` | app/app.go:696-851 | from every reachable entry of a reboot, or of a power cycle neither refused nor debounced, the thread's own moves complete it if every call succeeds |
| `RecoveryRuns.StartCompletes` | app/app.go:165-226 | if every call succeeds, Start ends with the heartbeat running and the configured loops launched |
| `RecoveryRuns.ZeroStampDefeatsDebounce` | app/app.go:786-793 | a run with two power cycles one nanosecond apart, the first at clock zero |
| `RecoveryRuns.HeartbeatOutlivesStop` | app/app.go:857-880 | a run in which Stop returns disconnected but with a heartbeat running |
| `App.ReturnMeans` | app/app.go:655-851 | in every run a procedure about to return an outcome has the fields that outcome promises |
| `App.OthersKeep` | app/app.go:121-124 | in every reachable state, whatever another thread or the environment does, a started thread keeps its place and what is its own: its switches, its outcomes, the flag and announcements of the health check, the stop channel of main, and, inside a procedure, heartbeat, stamp and mutex |
| `App.App.Lock` | app/app.go:656-657 | waits while others do anything; once obtained, the thread stands at the first statement of its procedure, and at start-up it is always obtained |
| `App.App.ConnectAndLoad` | app/app.go:235-274 | connect, log in, load: true exactly at the place where covers are registered next |
| `App.App.Reattempt` | app/app.go:720-748 | the backoff loop makes at most one attempt per slot and ends recovered, exhausted, cancelled or with a failed registration |
| `App.App.DoReconnect` | app/app.go:655-684 | under any interference it either still waits for the mutex or returns an outcome that means what it says, without a switch of the plug of its own |
| `App.App.DoReboot` | app/app.go:696-749 | the same for the reboot, which has asked the gateway to reboot exactly once |
| `App.App.DoPowerCycle` | app/app.go:773-851 | under any interference: still waiting, refused, debounced exactly by the stamp found with the mutex held, or stamped with OFF and ON published once each, on cancellation too |
| `App.App.EscalateToPowerCycle` | app/app.go:623-647 | switches the plug off and on once or not at all, gives up only without a plug or after a power cycle, and clears the flag and announces it exactly if the cycle recovered the bridge |
| `App.App.Examine` | app/app.go:549-583 | the flag afterwards is set if and only if two whole intervals have passed since the last contact, and exactly a change of it is announced |
| `App.App.CheckHealth` | app/app.go:548-614 | the whole pass under any interference: exactly the changes of the flag are announced, it reacts only with restart-on-error; it then ends with a reboot that recovered, with a power cycle if there is a plug, or only without one with a failed reconnect or reboot; and if it still waits, for which of the three |
| `App.App.RunPeriodicRestart` | app/app.go:506-528 | ends with a reboot, or, if configured, with a power cycle that recovered the bridge and switched the plug off and on or was debounced and did not; if it still waits, for which of them |
| `App.App.Start` | app/app.go:165-226 | success exactly when the loops are launched, then with the heartbeat running; otherwise they stay dormant; an unreachable gateway is given up only without a plug or after a power cycle |
| `App.App.Stop` | app/app.go:857-880 | under any interference it is still waiting, or the loops are over, the client is disconnected, and a heartbeat runs if and only if the last procedure not turned away has recovered |

## Left out

- TLS dialling, certificate pinning, sockets, timers and goroutine scheduling: only their outcomes appear, as choices of the environment.
- MQTT, Home Assistant discovery, topic strings: `publishFn` and the cover manager appear as events of the history; order is that of the calls, not of the broker.
- The scheduled restart time: it depends on time zone rules that are not in the repository; the periodic loop may tick at any moment.
- Configuration loading, defaults and logging: the configuration is a parameter; the backoff schedule appears as its seven slots, not as durations.
- SetUTC and the house-status monitor in connectAndLoad: their failures are ignored by the code and change nothing that is modelled.
- Fixed-layout frames that no modelled code inspects: they are opaque payloads with an arbitrary decoder in the registry; they would only add easy members.
- The position a blind's `Stop` stores: it appears as the initial position of the frames that follow.
- The float64 product behind the health-check threshold: taken as exact, which it is for intervals below 2^53 nanoseconds.
- The per-type opening devices: copies of the same delegation.
- A handler that runs once more from a dispatch snapshot after its call has timed out: handlers stop at their first true result.
- Wrap-around of the 64-bit callback handle: handles are unbounded.
- The pulse of the heartbeat: only its start, stop and exit are modelled.
- The MarkAll calls stand for availability; `Register` publishes online topics even while wedged, which is not part of this model.
- Fairness: a thread may wait for resetMu for ever in a run; what is proved is what its own moves achieve (`RecoveryRuns.RecoveryCompletes`, `AfterStop.Drain`, `Recovery.PowerRestored`).
- `Recovery.DebounceBound`: durations saturate in Go; times are unbounded integers here.
