# A verified model of the IoT gateway

The gateway accepts MQTT 3.1.1 connections from devices, keeps a table of who is connected where and
who subscribed to what, forwards publications between the devices of a node, and takes commands from
a stream that all gateway nodes share. This project models that path in Dafny, from the octets a
socket delivers to the octets handed back to it, and proves properties of every run of it.

The source changes its state step by step, so the operations are classes whose methods update fields:
the buffer, the codec, the connection, the event loop, the timers, the device manager, the gateway,
the registry, the cluster manager, the dispatch loop, the metrics and the time-series writer. Where
several threads or several nodes interleave, there is in addition a step machine: a value for the
whole state, a function that makes one step, and theorems about all runs. The methods of the classes
are proved to make steps of the machines:

- the methods of `TcpConnection.Connection` make steps, or runs, of `Delivery`; `TryWrite`, `KeepRest`,
  `Drained`, `HandleClose`, `Decide` and `ShutdownWrite` are the parts a step is made of; calls of other
  threads that read the connection's state, store it and queue a task are three steps with anything
  in between;
- `WireAccounts`, `TimerTimes`, `SessionHistory` and `DispatchBooks` say what the runs of these machines
  amount to, told from their steps, the fields they find and the answers of the kernel and the store, not
  from the machines' own functions; `PacketOctets` does the same for the packets, number by number;
- `EventLoop.Reactor` makes runs of `TaskQueue`, `Timers.TimerQueue` runs of `TimerSpec`;
- `LoopDelivery` runs a connection and its loop together: the connection's queue is its share of the
  loop's queue, so that what is proved of either holds in such runs;
- `GatewayServer.Gateway` makes steps of `Sessions`, and `Dispatch.Dispatcher` runs of `DispatchSpec`;
- `Service.Host` runs many connections and the gateway together: reads, errors, closes and sweeps in any
  interleaving are a run of `Sessions`;
- `SharedRegistry.DeviceHash` keeps the history of the registry's commands, a heartbeat being two of
  them; `GatewayNode` puts device manager, registry, gateway and dispatch loop of one node together.

| Part | Files | Main results |
|---|---|---|
| Octets and framing | `Bytes`, `Buffer`, `RemainingLength`, `MqttWire`, `MqttCodec`, `RoundTrip`, `PacketOctets`, `Framing`, `Ingress`, `Simulator` | the buffer is a byte queue; every packet a client may send is read as exactly what it says; parsing does not depend on how the stream is cut; what the codec writes it reads back, and exactly when |
| One connection | `ConnSpec`, `TcpConnection`, `Delivery`, `WireAccounts`, `LoopDelivery` | no octet is lost, doubled or reordered over partial and failed writes; over whole runs the wire holds exactly as many octets as the kernel reported; whole messages across threads, and none forgotten in the loop's queue; over whole runs, exactly when every FIN stays behind the last octet |
| The loop | `TaskQueue`, `EventLoop`, `TimerSpec`, `TimerTimes`, `Timers` | no lost and no superfluous wakeup, FIFO at most once; every timer is accounted for, never before the time its caller gave, never twice, never after its cancellation, and never left behind by a batch |
| The gateway | `DeviceManager`, `Sessions`, `SessionHistory`, `GatewayServer`, `FanOut`, `Service` | who is registered, who subscribed and who gets a publication after any run, told from its packets; the two subscription indexes agree; connections and clients agree, and over whole runs exactly when; one copy per subscriber, which decodes to the same message; from the interleaved reads of all connections to the frames on all of them |
| Many nodes | `Registry`, `SharedRegistry`, `Cluster`, `Heartbeats`, `DispatchSpec`, `DispatchBooks`, `Dispatch`, `GatewayNode` | a registry record survives its edits, and exactly when; over whole histories of all nodes, exactly when every lookup tells where a device is; notices fold to the known nodes; exactly how long a silent node stays listed; no command is handed off twice or lost from the books or the channels |
| Numbers | `Metrics`, `Tsdb` | percentiles have their rank; every accepted line is posted once, in order, and reads back |

Properties that the code does not have on all inputs are stated with the exact condition under which
it has them, and where the failure takes a run, the run is given:

| Condition | Failing run |
|---|---|
| `RoundTrip.RoundTripIff`, `Simulator.ConnectDecoded`, `Tsdb.FieldReadsBackIff`, `Tsdb.LineReadsBackIff` | conditions on the input alone |
| `Registry.GatewaySurvivesIff` | a condition on the node id alone |
| `SharedRegistry.TruthfulIff` (every lookup tells the truth) | `SharedRegistry.StaleHeartbeatNamesOldNode`, `SharedRegistry.StaleHeartbeatRevives` |
| `SharedRegistry.OwnStandingIff` (a client's record is its own) | `SharedRegistry.SharedCString` |
| `Heartbeats.StaysUntilSilenceIff` (a dead node drops out) | `Heartbeats.DeadNodeListedForever` |
| `Delivery.FinStaysLastIff`, `Delivery.FinIsLastIff`, `Delivery.GracefulShutdown` | `Delivery.QueuedSendAfterFin`, `Delivery.LateShutdown` |
| `Delivery.WholeMessages` (write interest follows the buffer until a close, not until the state says so) | `Delivery.InterestLost` |
| `Sessions.ConnectKeepsSessionIff`, `Sessions.SessionHoldsIff` | `Sessions.SecondConnectBreaksSession` |
| `Sessions.DownSparesOthersIff`, `Sessions.OldCloseSparesNewSessionIff` | `Sessions.OldCloseTakesNewSession` |
| `DispatchSpec.GivenUpUntouchedIff` | `DispatchSpec.LostReplyGivesUp` |

Where the code and its comments disagree, the model follows the code:

- `decodeRemainingLength` reports one octet more than it has when the octets run out, and takes a
  fifth octet after four continuation octets; overlong lengths are not rejected.
- `findDeviceNode` is described as returning a node, but returns the registry's JSON record; the
  branch "device disconnected" of `processCommand` is therefore never taken for ordinary node ids
  (`Dispatch.RoutedByRegistry`), and such commands fail as "forward failed".
- `forwardCommand` publishes to a channel named by the whole record when the record has no readable
  gateway field.
- `sendNodeHeartbeat` describes a key that is deleted after 15 seconds without a heartbeat
  (src/storage/RedisClient.cpp:551-552), and `detectFailedNodes` reports a node on that ground
  (src/gateway/ClusterManager.cpp:374); but the one hash of all nodes has one expiry, so a dead node is
  listed as long as any node beats (`Heartbeats.StaysUntilSilenceIff`), and not reported.
- `writeDeviceData` lists commas and spaces among what it escapes (src/storage/TsdbClient.cpp:34-37), but
  escapes only the value; a device id or topic with either does not read back (`Tsdb.LineReadsBackIff`).
- `claimPendingMessages` describes a takeover of pending entries, but claims nothing.
- `processCommand` calls its read non-blocking, but passes BLOCK 0, which the store documents as
  waiting without limit.

`dafny verify dfyconfig.toml` checks the whole project.

## Model

| member | source | states |
|---|---|---|
| `NetBuffer.Buffer.constructor` | src/net/Buffer.h:25-28 | a new buffer is empty, with the cheap-prepend area in front |
| `NetBuffer.Buffer.RetrieveAll` | src/net/Buffer.h:47-50 | empties the buffer without touching its storage |
| `NetBuffer.Buffer.Retrieve` | src/net/Buffer.h:38-45 | drops exactly the first `len` readable octets |
| `NetBuffer.Buffer.RetrieveAsString` | src/net/Buffer.h:66-71 | what is returned and what stays are together what was readable |
| `NetBuffer.Buffer.MakeSpace` | src/net/Buffer.cpp:46-59 | keeps the readable octets, leaves at least `len` writable ones; when it compacts, the reader index was strictly above the cheap-prepend mark |
| `NetBuffer.Buffer.Compact` | src/net/Buffer.cpp:52-58 | the forward copy never overwrites an octet before it is read |
| `NetBuffer.Buffer.EnsureWritableBytes` | src/net/Buffer.h:108-112 | room for `len` octets, readable octets unchanged |
| `NetBuffer.Buffer.HasWritten` | src/net/Buffer.h:122-125 | moves the writer index within the storage |
| `NetBuffer.Buffer.Append` | src/net/Buffer.h:74-86 | the readable octets grow at the end by exactly the octets given |
| `NetBuffer.Buffer.Prepend` | src/net/Buffer.h:89-94 | the readable octets grow in front by exactly the octets given |
| `NetBuffer.Buffer.ReadFd` | src/net/Buffer.cpp:15-37 | the two-part scatter read appends all octets received in order; a failed read changes nothing |
| `NetBuffer.Buffer.FindCRLF` | src/net/Buffer.h:100-105 | finds the first CRLF, or says there is none |
| `RemainingLength.DecodeBounded` | src/protocol/MqttCodec.cpp:12-25 | the decoded value fits the groups read, and the reported length is one to five octets |
| `RemainingLength.DecodeEncode` | src/protocol/MqttCodec.cpp:12-37 | decoding inverts encoding in front of any suffix |
| `RemainingLength.DecodeEncodeOverlong` | src/protocol/MqttCodec.cpp:12-37 | what the decoder makes of a length past the format's range: the value cut to four groups, five octets taken |
| `RemainingLength.EncodeLength` | src/protocol/MqttCodec.cpp:30-37 | the encoder emits exactly as many octets as the number has base-128 digits |
| `RemainingLength.EncodeIsMinimalAndInverse` | src/protocol/MqttCodec.cpp:12-37 | section 2.2.3 of MQTT 3.1.1: for all n below 2^28, one to four octets, decoded back with the exact octet count in front of any suffix, and no shorter encoding exists |
| `RemainingLength.DecodePrefix` | src/protocol/MqttCodec.cpp:12-25 | a view that is too short reports more octets than it has; one that is long enough decodes like the whole stream |
| `MqttCodec.DecodeRemainingLength` | src/protocol/MqttCodec.cpp:12-25 | the loop with running value and multiplier computes the base-128 reading |
| `MqttCodec.EncodeRemainingLength` | src/protocol/MqttCodec.cpp:30-37 | the loop appends the base-128 octets, lowest group first |
| `MqttWire.FirstOctetRoundTrip` | src/protocol/MqttTypes.h:115-125 | packing and unpacking of type and flags invert each other |
| `MqttWire.FrameIsLocal` | src/protocol/MqttCodec.cpp:61-112 | a frame is recognised as soon as its last octet is there, from its own octets alone, and not before |
| `MqttWire.ProperPrefixIncomplete` | src/protocol/MqttCodec.cpp:72-77 | every proper prefix of a complete frame is incomplete |
| `MqttCodec.ReadMqttString` | src/protocol/MqttCodec.cpp:42-50 | the length-prefixed string, with the cursor positions of both kinds of short read |
| `MqttCodec.ReadFilterList` | src/protocol/MqttCodec.cpp:207-231 | the filter loop terminates on all octets and reads the list the recursive reading gives, or reports truncation |
| `PacketOctets.CutStringRead` | src/protocol/MqttCodec.cpp:42-50 | a string that is not all there reads as empty, with the cursor before a cut length or behind a length that promises too much |
| `PacketOctets.ClientPacketRead` | src/protocol/MqttCodec.cpp:61-242 | every packet a client may send, written out in numbers (CONNECT with any flags and the strings they announce in order, PUBLISH, PUBACK, SUBSCRIBE with any filters, PINGREQ, DISCONNECT), in front of anything, is split off at its last octet and read as exactly what it says |
| `PacketOctets.CutPacketsRefused` | src/protocol/MqttCodec.cpp:79-242 | packets cut off before their fixed fields, or behind a topic filter, are refused; types nobody handles are skipped |
| `PacketOctets.FlagMasks` | src/protocol/MqttTypes.h:35-38 | the flags that announce strings are those of the masks 0x04, 0x80 and 0x40 |
| `MqttCodec.Codec.ParseConnect` | src/protocol/MqttCodec.cpp:117-165 | total on all frame octets; one CONNECT callback or an error and none, as the reading of the frame says; that the reading gives every field of every CONNECT is `PacketOctets.ClientPacketRead` |
| `MqttCodec.Codec.ParsePublish` | src/protocol/MqttCodec.cpp:175-202 | topic, payload, QoS, retain and packet id (0 at QoS 0), or an error when the id is cut off |
| `MqttCodec.Codec.ParseSubscribe` | src/protocol/MqttCodec.cpp:207-231 | one SUBSCRIBE callback or an error and none, as the reading of the frame says; that the reading gives the packet id and all filters is `PacketOctets.ClientPacketRead` |
| `MqttCodec.Codec.ParsePubAck` | src/protocol/MqttCodec.cpp:236-242 | the packet id, or an error |
| `MqttCodec.Codec.Dispatch` | src/protocol/MqttCodec.cpp:79-111 | exactly the callbacks the packet type calls for; other types are skipped without one |
| `MqttCodec.Codec.Parse` | src/protocol/MqttCodec.cpp:61-112 | INCOMPLETE consumes and fires nothing; a complete frame is consumed whole, with exactly the callbacks it amounts to |
| `MqttCodec.WriteMqttString` | src/protocol/MqttCodec.cpp:52-56 | appends the text behind its length cut to 16 bits |
| `MqttCodec.EncodeConnAck` | src/protocol/MqttCodec.cpp:248-260 | appends the octets of the packet |
| `MqttCodec.EncodeSubAck` | src/protocol/MqttCodec.cpp:262-278 | appends the octets of the packet, one return code per filter |
| `MqttCodec.EncodePubAck` | src/protocol/MqttCodec.cpp:280-289 | appends the octets of the packet |
| `MqttCodec.EncodePublish` | src/protocol/MqttCodec.cpp:291-316 | appends the octets of the packet, with its length in 32-bit arithmetic |
| `MqttCodec.EncodePingResp` | src/protocol/MqttCodec.cpp:318-323 | appends the octets of the packet |
| `MqttCodec.EncodeUnsubAck` | src/protocol/MqttCodec.cpp:325-334 | appends the octets of the packet |
| `PacketOctets.LengthOctets` | src/protocol/MqttCodec.cpp:30-37 | the Remaining Length group by group |
| `PacketOctets.SentOctets` | src/protocol/MqttCodec.cpp:248-334 | CONNACK, SUBACK, PUBACK, PINGRESP and UNSUBACK octet by octet, with every number written out |
| `PacketOctets.PublishOctets` | src/protocol/MqttCodec.cpp:291-316 | PUBLISH octet by octet |
| `RoundTrip.PublishBodyRoundTrip` | src/protocol/MqttCodec.cpp:175-202 | the PUBLISH parser gives back topic, payload, QoS, retain and packet id of what was encoded |
| `RoundTrip.FrameTooLong` | src/protocol/MqttCodec.cpp:61-77 | a body past the Remaining Length's range makes the reader split the stream inside it |
| `RoundTrip.RoundTripIff` | src/protocol/MqttCodec.cpp:248-334 | every packet is read back with its exact length and meaning in front of any octets, if and only if topic and body fit the length fields |
| `Framing.DrainSettles` | src/gateway/GatewayServer.cpp:153-168 | the parse loop leaves nothing it could have read |
| `Framing.DrainAppend` | src/gateway/GatewayServer.cpp:153-168 | octets that arrive later do not change what was done with earlier ones |
| `Framing.ChunkingIndependent` | src/gateway/GatewayServer.cpp:153-168 | for every stream and every way of cutting it into reads: the events, the leftover octets and the error of one read of the whole, up to and including the first error |
| `Framing.StreamRoundTrip` | src/protocol/MqttCodec.cpp:61-112 | the concatenation of any encodable packets is split at exactly the packet boundaries and gives back each packet's meaning |
| `Framing.StreamRoundTripInPieces` | src/gateway/GatewayServer.cpp:153-168 | the same for that stream delivered in any pieces |
| `Ingress.InputSide.OnMessage` | src/gateway/GatewayServer.cpp:153-168 | the loop over the real buffer and codec fires, leaves and closes as the reading of the octets says |
| `Ingress.InputSide.HandleRead` | src/net/TcpConnection.cpp:79-98 | octets are parsed behind the leftover ones; the end of the stream closes; a failed read changes nothing |
| `Ingress.InputSide.Serve` | src/net/TcpConnection.cpp:79-98 | a whole connection, for every kernel that keeps to the room it is given at each read, failed reads included, up to an error or the end of the stream: the events and leftover of the whole stream parsed at once |
| `Simulator.SendConnect` | apps/simulator_main.cpp:118-157 | the simulator's own encoder builds the CONNECT octets, or overruns its length array, exactly from 2^28 on in 32-bit arithmetic |
| `Simulator.ConnectInOctets` | apps/simulator_main.cpp:118-157 | its octets with every number written out |
| `Simulator.FillLength` | apps/simulator_main.cpp:131-140 | its do-while loop fills the four-octet array with the same Remaining Length the codec writes, or overruns it, exactly from 2^28 on |
| `Simulator.ConnectDecoded` | apps/simulator_main.cpp:118-157 | the codec splits that frame off and accepts it, with the same client id and keep-alive 60 exactly for ids below 65536 octets |
| `ConnSpec.SendKeepsInv` | src/net/TcpConnection.cpp:217-268 | whatever the kernel answers, a payload enters the stream whole and last or not at all; wire octets and buffer together are the payloads not dropped; write interest is on exactly while octets wait |
| `ConnSpec.WriteKeepsInv` | src/net/TcpConnection.cpp:107-132 | a write event moves octets from buffer to wire and changes nothing else; it half-closes only with an empty buffer |
| `ConnSpec.HighWaterIff` | src/net/TcpConnection.cpp:252-262 | the high-water notice is queued exactly when the waiting octets cross the mark upward |
| `WireAccounts.SendMoves` | src/net/TcpConnection.cpp:217-268 | a send by the kernel's answer: what goes to the wire and what waits |
| `WireAccounts.WriteMoves` | src/net/TcpConnection.cpp:107-132 | a write event by the kernel's answer |
| `WireAccounts.StepMoves` | src/net/TcpConnection.cpp:107-268 | every step lengthens the wire by exactly the count the kernel reported for the write call it makes, out of the waiting octets and the step's message in this order; the rest waits |
| `WireAccounts.WireIsReported` | src/net/TcpConnection.cpp:107-268 | over every run, the wire holds the first octets of the stream, as many as the kernel reported for all write calls that were made |
| `WireAccounts.StepLogs` | src/net/TcpConnection.cpp:162-268 | in which steps a message counts as sent, is decided on, and is dropped |
| `WireAccounts.StepNotices` | src/net/TcpConnection.cpp:116-128 | in which steps a FIN goes out, a write-complete notice and a high-water notice are queued |
| `WireAccounts.ShutdownGetsItsFin` | src/net/TcpConnection.cpp:273-286 | once a shutdown was carried out, whatever follows, its FIN is out, or octets still wait with write interest on, or a close came |
| `WireAccounts.StepStates` | src/net/TcpConnection.cpp:41-300 | in which steps the connection becomes connected, begins to disconnect, and is closed |
| `WireAccounts.StepQueue` | src/net/TcpConnection.cpp:162-300 | which steps queue a task, behind those there are, and that the front one runs |
| `WireAccounts.DestroyedCloses` | src/net/TcpConnection.cpp:60-70 | a connection destroyed while connected ends disconnected, whatever other threads do in between |
| `WireAccounts.ForceCloseCloses` | src/net/TcpConnection.cpp:288-300 | in every run the task of a forced close leaves the connection disconnected |
| `TcpConnection.Connection.constructor` | src/net/TcpConnection.cpp:8-31 | a fresh connection, connecting, with empty buffers and queue |
| `TcpConnection.Connection.ConnectEstablished` | src/net/TcpConnection.cpp:41-55 | the machine's step; reading is on |
| `TcpConnection.Connection.ConnectDestroyed` | src/net/TcpConnection.cpp:60-70 | test and store are two steps with other threads in between: what they store meanwhile is overwritten and all interest is off; nothing if not connected |
| `TcpConnection.Connection.HandleWrite` | src/net/TcpConnection.cpp:107-132 | exactly the octets the kernel took move from the real output buffer to the wire; the machine's write step, and the invariant |
| `TcpConnection.Connection.Drained` | src/net/TcpConnection.cpp:116-128 | write interest off, the notice, and the half-close when disconnecting |
| `TcpConnection.Connection.HandleClose` | src/net/TcpConnection.cpp:137-146 | disconnected with all interest off |
| `TcpConnection.Connection.HangUp` | src/net/TcpConnection.cpp:137-146 | the machine's close step, also when it is reported again |
| `TcpConnection.Connection.TryWrite` | src/net/TcpConnection.cpp:228-249 | the direct write only with nothing ahead, and then the kernel's count; whether the payload is dropped, and the notice of a complete write |
| `TcpConnection.Connection.SendInLoop` | src/net/TcpConnection.cpp:217-268 | with nothing ahead exactly the octets the kernel took go to the wire and the rest waits, otherwise all wait behind what is there, for every kernel answer; the machine's send step |
| `TcpConnection.Connection.KeepRest` | src/net/TcpConnection.cpp:252-267 | what was not written waits in order; notice on the way up; write interest on |
| `TcpConnection.Connection.ShutdownWrite` | src/net/TcpConnection.cpp:280-286 | half-closes only when nothing is being written |
| `TcpConnection.Connection.RunTask` | src/net/TcpConnection.cpp:171-176 | the loop runs the connection's next task as one step of the machine: a message, a shutdown or a close |
| `TcpConnection.Connection.Send` | src/net/TcpConnection.cpp:167-206 | at once on the loop thread; on any other one whole task, with anything between test and push; nothing when not connected |
| `TcpConnection.Connection.Call` | src/net/TcpConnection.cpp:273-293 | the test, the store and the push of another thread's call are three steps, with any steps of others in between |
| `TcpConnection.Connection.Shutdown` | src/net/TcpConnection.cpp:273-278 | the machine's step on the loop thread, the three-step call on any other |
| `TcpConnection.Connection.ForceClose` | src/net/TcpConnection.cpp:288-293 | one queued task, on the loop thread at once, on any other by the three-step call |
| `TcpConnection.Connection.PerformAll` | src/net/TcpConnection.cpp:41-300 | every run of the machine can be made by the connection's methods |
| `Delivery.StepKeepsInv` | src/net/TcpConnection.cpp:167-300 | every step of loop, other threads and kernel keeps wire conservation, each sender's order, and write interest until a close |
| `Delivery.WholeMessages` | src/net/TcpConnection.cpp:167-206 | in every reachable state the octets on the wire and in the buffer are whole messages in decision order, every thread's messages are decided in the order it sent them, and until a close write interest is on exactly while octets wait |
| `Delivery.InterestLost` | src/net/TcpConnection.cpp:273-278 | a run in which a store of another thread's shutdown comes after a hang-up: the state is not disconnected, octets wait, and write interest is off |
| `Delivery.FinStaysLastIff` | src/net/TcpConnection.cpp:273-286 | a step keeps every FIN behind everything exactly when it is neither a queued message decided after the FIN nor a queued shutdown that finds write interest off with octets waiting |
| `Delivery.OvertakingShutdownIsLate` | src/net/TcpConnection.cpp:280-286 | the second of these happens only after a close |
| `Delivery.UnquietStays` | src/net/TcpConnection.cpp:217-286 | an octet behind a FIN, or waiting behind one, never comes right again |
| `Delivery.FinIsLastIff` | src/net/TcpConnection.cpp:273-286 | over whole runs: every FIN is behind the last octet with nothing left, exactly if no step of the run is one of those two |
| `Delivery.GracefulShutdown` | src/net/TcpConnection.cpp:273-286 | with all sends on the loop thread and shutdowns from any thread: every kept octet precedes every FIN, exactly if no queued shutdown came to run on a closed connection with octets waiting |
| `Delivery.ShutdownOnLoop` | src/net/TcpConnection.cpp:273-286 | with sends and shutdowns on the loop thread: at most one FIN, every kept octet before it, none after it |
| `Delivery.QueuedSendAfterFin` | src/net/TcpConnection.cpp:217-268 | a run in which another thread's earlier message is written behind the FIN |
| `Delivery.LateShutdown` | src/net/TcpConnection.cpp:280-286 | a run in which a queued shutdown half-closes ahead of waiting octets |
| `LoopDelivery.StepKeepsAgree` | src/net/EventLoop.cpp:158-196 | the connection's queue stays its share of the loop's swapped batch and queue, in order, through every step of either |
| `LoopDelivery.RunOfBoth` | src/net/EventLoop.cpp:158-196 | a run of both is a run of the loop and a run of the connection |
| `LoopDelivery.NoTaskForgotten` | src/net/EventLoop.cpp:92-215 | in every reachable state of both: the loop never polls for good while a message or close of a thread waits for the connection, and the guarantees about messages hold |
| `TaskQueue.StepKeepsInv` | src/net/EventLoop.cpp:166-215 | started, swapped and queued tasks are together all pushed ones in push order; a queued task has its wakeup |
| `TaskQueue.NoLostWakeup` | src/net/EventLoop.cpp:92-143 | whenever the loop is about to poll with a task queued, the eventfd is positive or a producer stands between push and wakeup |
| `TaskQueue.FifoAtMostOnce` | src/net/EventLoop.cpp:181-196 | tasks are started at most once, in push order over all threads |
| `TaskQueue.RoundRunsQueued` | src/net/EventLoop.cpp:181-196 | a run from a swap back to the poll has started everything queued before the swap |
| `TaskQueue.WakeupsAccounted` | src/net/EventLoop.cpp:166-176 | over every run as many wakeups are written or owed as tasks were pushed by other threads or by running tasks, no more and no fewer |
| `TaskQueue.EventfdCounts` | src/net/EventLoop.cpp:201-215 | the eventfd holds the wakeups written since it was last read, so that a poll blocks exactly if there was none |
| `EventLoop.Reactor.Wakeup` | src/net/EventLoop.cpp:201-207 | the machine's wakeup step |
| `EventLoop.Reactor.HandleWakeupRead` | src/net/EventLoop.cpp:209-215 | the machine's drain step |
| `EventLoop.Reactor.QueueInLoop` | src/net/EventLoop.cpp:166-176 | push, then wake when another thread pushes or a batch runs; a run of the machine |
| `EventLoop.Reactor.Run` | src/net/EventLoop.cpp:181-196 | one functor, with everything it queues on the way |
| `EventLoop.Reactor.DoPendingFunctors` | src/net/EventLoop.cpp:181-196 | runs exactly the swapped batch in order; what it queues waits for the next round, each with its wakeup |
| `TimerSpec.StepKeepsLedger` | src/net/EventLoop.cpp:275-346 | the cancel tokens are exactly the live entries, each there once, through every step |
| `TimerSpec.StepKeepsOrdered` | src/net/EventLoop.cpp:369-393 | the queue stays ordered by due time with ties by insertion, and no firing is early or out of order |
| `TimerSpec.StepKeepsOnceOnly` | src/net/EventLoop.cpp:275-297 | a one-shot that fired has no entry left |
| `TimerSpec.StepKeepsArmed` | src/net/EventLoop.cpp:348-367 | between batches timerfd is set for the first entry, or the queue is empty |
| `TimerSpec.TokensAreLive` | src/net/EventLoop.cpp:275-346 | in every reachable state the token map holds exactly the live timers, each with exactly one entry in the queue, the unrun batch or the running callback |
| `TimerSpec.FiringsAreRight` | src/net/EventLoop.cpp:369-393 | nothing fires early, one-shots fire at most once, a batch fires in due-time order with ties in insertion order, no timer is stranded, even when callbacks add or cancel timers |
| `TimerSpec.CancelIsFinal` | src/net/EventLoop.cpp:338-346 | after `cancelTimer` the timer never starts firing again, wherever its entry was |
| `TimerSpec.PeriodicNeverLost` | src/net/EventLoop.cpp:304-336 | a periodic timer nobody cancels always has exactly one entry |
| `TimerTimes.RunAtOnTime` | src/net/EventLoop.cpp:275-297 | the id `runAt` hands out in any reachable state fires at most once, and not before the time the caller gave |
| `TimerTimes.RunEveryOnTime` | src/net/EventLoop.cpp:304-336 | the id `runEvery` hands out starts at least one interval past the call, and then past each last return of its callback |
| `TimerTimes.FiresAtBatchClock` | src/net/EventLoop.cpp:280-292 | a callback starts exactly if its timer was not cancelled, and is recorded with the clock its batch was collected at |
| `TimerTimes.BatchStartsAllDue` | src/net/EventLoop.cpp:369-393 | a batch starts every timer due by its clock unless it is cancelled, and leaves the later ones in the queue |
| `TimerTimes.WakesInTime` | src/net/EventLoop.cpp:348-367 | between batches timerfd becomes readable at the due time of the first timer, or 100 microseconds after one of the clocks it was set at |
| `Timers.TimerQueue.RunAt` | src/net/EventLoop.cpp:275-297 | the machine's step, with a fresh id |
| `Timers.TimerQueue.RunEvery` | src/net/EventLoop.cpp:304-336 | the machine's step, with a fresh id |
| `Timers.TimerQueue.CancelTimer` | src/net/EventLoop.cpp:338-346 | the machine's step |
| `Timers.TimerQueue.ResetTimerFd` | src/net/EventLoop.cpp:348-367 | at the due time, but no sooner than 100 microseconds from now |
| `Timers.TimerQueue.CollectExpired` | src/net/EventLoop.cpp:369-382 | exactly the entries due by now leave the queue, in order |
| `Timers.TimerQueue.Invoke` | src/net/EventLoop.cpp:280-292 | one wrapped callback: token test, user calls, clean-up or rescheduling, as steps of the machine |
| `Timers.TimerQueue.ProcessTimers` | src/net/EventLoop.cpp:369-393 | one whole batch is a run of the machine from collection to settlement, whatever its callbacks do |
| `DeviceManager.InsertAgrees` | src/gateway/DeviceManager.cpp:132-139 | both indexes updated stay two views of one set of pairs, now with the new pair |
| `DeviceManager.EraseAgrees` | src/gateway/DeviceManager.cpp:141-153 | both indexes updated stay two views of one set of pairs, without the pair and without empty sets |
| `DeviceManager.Manager.DeviceOnline` | src/gateway/DeviceManager.cpp:41-71 | the client's entry is replaced, the indexes stay, and the registry is told if connected; a registry always connected lists exactly the table's devices |
| `DeviceManager.Manager.UpdateHeartbeat` | src/gateway/DeviceManager.cpp:88-98 | only the heartbeat of a registered client changes; the registry is told in any case, if connected |
| `DeviceManager.Manager.Subscribe` | src/gateway/DeviceManager.cpp:132-139 | adds one pair to the set of subscriptions and keeps the indexes in agreement |
| `DeviceManager.Manager.Unsubscribe` | src/gateway/DeviceManager.cpp:141-153 | removes one pair and keeps the indexes in agreement |
| `DeviceManager.Manager.DeviceOffline` | src/gateway/DeviceManager.cpp:76-83 | removes the device and exactly its pairs, from both indexes, and tells the registry if connected, so that it still lists exactly the table's devices |
| `DeviceManager.Manager.OfflineLocked` | src/gateway/DeviceManager.cpp:9-30 | removes the device and exactly its pairs, from both indexes |
| `DeviceManager.Manager.GetSubscribers` | src/gateway/DeviceManager.cpp:155-168 | one entry for each registered, connected client related to the topic: every connection is listed as often as such clients are reached on it |
| `DeviceManager.Manager.CheckHeartbeatTimeout` | src/gateway/DeviceManager.cpp:173-199 | exactly the late clients are reported, removed with their pairs, and taken from the registry if connected |
| `Sessions.ConnectKeepsSessionIff` | src/gateway/GatewayServer.cpp:173-187 | a CONNECT keeps every device's connection speaking for it exactly when it does not leave another reachable client of that connection behind |
| `Sessions.StepKeepsSession` | src/gateway/GatewayServer.cpp:135-148 | every other callback keeps it |
| `Sessions.RunKeepsSession` | src/gateway/GatewayServer.cpp:135-285 | it holds over every run in which no CONNECT leaves a reachable client of its own connection behind |
| `Sessions.SessionHoldsIff` | src/gateway/GatewayServer.cpp:135-285 | over any run, the tables are consistent after every prefix if and only if no CONNECT leaves a reachable client of its own connection behind |
| `Sessions.SecondConnectBreaksSession` | src/gateway/GatewayServer.cpp:173-187 | a run in which a second CONNECT does |
| `Sessions.DownForgetsConnection` | src/gateway/GatewayServer.cpp:135-148 | in every such run, after a connection goes down no device entry and no table refers to it |
| `Sessions.DownSparesOthersIff` | src/gateway/GatewayServer.cpp:135-148 | the close of an old connection leaves all devices reached elsewhere registered exactly when its client has not moved to a newer connection |
| `Sessions.OldCloseSparesNewSessionIff` | src/gateway/GatewayServer.cpp:135-148 | over whole runs in which no CONNECT leaves a reachable client of its own connection behind: after every prefix every possible close spares the devices reached elsewhere, if and only if no CONNECT names a client another connection speaks for |
| `Sessions.OldCloseTakesNewSession` | src/gateway/GatewayServer.cpp:135-148 | a run after which the close of a client's old connection removes its new session |
| `Sessions.OneClientPerConnection` | src/gateway/GatewayServer.cpp:135-187 | at most one registered client is reached on a connection |
| `SessionHistory.SpeaksForIff` | src/gateway/GatewayServer.cpp:135-187 | over every run, a connection speaks for a client if and only if its last CONNECT named it and it did not part since |
| `SessionHistory.RegisteredIff` | src/gateway/GatewayServer.cpp:135-187 | a client is registered if and only if a CONNECT for it was handled and no later step took it offline |
| `SessionHistory.EntryIs` | src/gateway/DeviceManager.cpp:41-98 | its entry holds user name, keep-alive and connection of the last CONNECT for it, and the clock of its last CONNECT or PINGREQ |
| `SessionHistory.SweptIff` | src/gateway/DeviceManager.cpp:173-199 | a sweep removes a registered client if and only if its last sign of life is more than one and a half keep-alive intervals old |
| `SessionHistory.SubscribedIff` | src/gateway/GatewayServer.cpp:234-249 | a pair is in the subscription tables if and only if a SUBSCRIBE naming the topic was handled on a connection that spoke for the client, and no later step took the client offline |
| `SessionHistory.OpenIff` | src/gateway/GatewayServer.cpp:135-166 | a connection takes frames if and only if it came up and neither asked to close nor went down since |
| `SessionHistory.PublishedToHearers` | src/gateway/GatewayServer.cpp:192-221 | in a run in which no CONNECT leaves a reachable client of its own connection behind, a PUBLISH puts exactly one copy on each connection, but the sender's, that by the packets of the run hears the topic, and none on any other |
| `GatewayServer.OneCopyPerSubscriber` | src/gateway/GatewayServer.cpp:212-221 | in a consistent state the forwarding loop puts exactly one copy on every subscribed connection but the sender's, and none on any other |
| `GatewayServer.Gateway.OnConnection` | src/gateway/GatewayServer.cpp:135-148 | the session machine's step |
| `GatewayServer.Gateway.OnDisconnect` | src/gateway/GatewayServer.cpp:268-274 | the mapped client goes offline and the mapping goes away |
| `GatewayServer.Gateway.ForceClose` | src/gateway/GatewayServer.cpp:161-166 | the session machine's step; the connection takes no more frames |
| `GatewayServer.Gateway.HandleConnect` | src/gateway/GatewayServer.cpp:173-187 | the session machine's step, and one CONNACK to this connection only |
| `GatewayServer.Gateway.HandlePublish` | src/gateway/GatewayServer.cpp:192-229 | no table changes; the publication goes to the time-series writer, and to the cache if connected; each connection but the sender's gets one QoS 0 frame per subscriber reached on it, which in a consistent state is one per subscribed connection; one PUBACK with the same id to the sender exactly at QoS 1 |
| `GatewayServer.Gateway.HandleSubscribe` | src/gateway/GatewayServer.cpp:234-249 | exactly the pairs of the connection's client with the named topics are added to the real tables, and one SUBACK echoes their QoS; nothing without a session |
| `GatewayServer.Gateway.HandlePingReq` | src/gateway/GatewayServer.cpp:254-263 | heartbeat of the mapped client, and one PINGRESP |
| `GatewayServer.Gateway.StartHeartbeatCheck` | src/gateway/GatewayServer.cpp:279-285 | the session machine's sweep |
| `GatewayServer.Gateway.OnEvent` | src/gateway/GatewayServer.cpp:86-100 | every codec callback is one step of the session machine and puts exactly the frames it calls for on the connections |
| `GatewayServer.Gateway.NextPacketId` | src/gateway/GatewayServer.cpp:362-364 | the counter wraps in 16 bits and is never 0 |
| `GatewayServer.Gateway.SendCommandToDevice` | src/gateway/GatewayServer.cpp:354-377 | exactly when the device is connected here: one QoS 1 frame to it, to nobody else, with a fresh nonzero id, and the sent mark and the acknowledgement to the store |
| `Service.HistoryIsRun` | src/gateway/GatewayServer.cpp:135-168 | however the reads of many connections interleave, with errors, closes and sweeps in between, the history is a run of the session machine |
| `Service.EachStreamParsed` | src/gateway/GatewayServer.cpp:153-168 | in every such history, what the session machine sees of each connection is what parsing that connection's octets in one piece gives, in order; it is closed for an error exactly if that parsing meets one |
| `Service.Host.EveryStreamServed` | src/gateway/GatewayServer.cpp:86-168 | both, of the real tables |
| `Service.HandleAll` | src/gateway/GatewayServer.cpp:86-100 | the callbacks of one read, in order, with exactly the frames they call for on all connections |
| `Service.Host.Accept` | src/gateway/GatewayServer.cpp:135-139 | the history with this connection, whose input is empty |
| `Service.Host.HandleRead` | src/net/TcpConnection.cpp:79-98 | the history with this read: its packets handled at once with their frames, the close asked for after an error, the connection down at the end of the stream; no other connection's input changes |
| `Service.Host.HandleClose` | src/net/TcpConnection.cpp:137-146 | the history with this close, by a hang-up or by the task of a forced close |
| `Service.Host.StartHeartbeatCheck` | src/gateway/GatewayServer.cpp:279-285 | the history with this sweep |
| `Service.PublicationsDecode` | src/gateway/GatewayServer.cpp:192-221 | every publication in a stream of any octets is forwarded in a frame that decodes to the same topic and payload |
| `FanOut.ForwardedFrameDecodes` | src/gateway/GatewayServer.cpp:212-221 | whatever PUBLISH frame was accepted, the forwarded frame decodes to the same topic and payload at QoS 0 |
| `FanOut.AckDecodes` | src/gateway/GatewayServer.cpp:223-228 | the acknowledgement decodes to the id it was built from |
| `FanOut.AnswersInOctets` | src/gateway/GatewayServer.cpp:173-263 | the answers to a client, in octets: CONNACK with code 0, PINGRESP, PUBACK with the packet id, each to its connection while open and to no other |
| `FanOut.SubAckInOctets` | src/gateway/GatewayServer.cpp:234-249 | the SUBACK in octets, with the packet id and the QoS of every filter in order |
| `FanOut.ForwardedInOctets` | src/gateway/GatewayServer.cpp:212-221 | a forwarded publication in octets |
| `Registry.DecimalRoundTrip` | src/storage/RedisClient.cpp:418-424 | the number text says which number it is |
| `Registry.RewritesKeepHead` | src/storage/RedisClient.cpp:492-517 | no number of heartbeat edits touches the record up to the end of its gateway field |
| `Registry.GatewaySurvivesIff` | src/gateway/ClusterManager.cpp:126-135 | after registration and any heartbeats the gateway read is the node that registered, if and only if its id has no double quote, no NUL and at most 498 characters |
| `Registry.RewriteReplacesHeartbeat` | src/storage/RedisClient.cpp:492-517 | an edit replaces exactly the heartbeat of a well-formed record |
| `Registry.RecordSurvives` | src/storage/RedisClient.cpp:418-424 | a record that fits keeps node id and keep-alive text, and holds the latest heartbeat |
| `Registry.ReadableIff` | src/storage/RedisClient.cpp:418-424 | what the gateway field of a registered record reads as is the node's id if and only if that id is plain |
| `Registry.RewriteCarries` | src/storage/RedisClient.cpp:492-517 | any edit of any stored text keeps its gateway field readable as before |
| `SharedRegistry.TruthfulIff` | src/storage/RedisClient.cpp:411-517 | over all histories of all nodes' commands, with anything between the two commands of a heartbeat: after every command there is a record exactly for registered clients, with the gateway of the last registration, if and only if no heartbeat puts back a text read before a departure or before a registration by a node with another readable name |
| `SharedRegistry.LookupFindsHome` | src/storage/RedisClient.cpp:447-459 | in such a history a lookup is empty exactly for unregistered clients; otherwise the gateway read from it is the node that registered the client last, if and only if that id is plain |
| `SharedRegistry.LookupOpens` | src/storage/RedisClient.cpp:447-459 | in every history a lookup is empty or opens like a record |
| `SharedRegistry.InTimeMisleadsNever` | src/storage/RedisClient.cpp:492-517 | heartbeats with no registration or departure of their client in between never mislead |
| `SharedRegistry.LookupIsLatestRecord` | src/storage/RedisClient.cpp:411-517 | with such heartbeats a record that fits holds node, keep-alive and latest heartbeat, character by character |
| `SharedRegistry.StaleHeartbeatNamesOldNode` | src/storage/RedisClient.cpp:492-517 | a history in which the record names the old node after a registration at a new one |
| `SharedRegistry.StaleHeartbeatRevives` | src/storage/RedisClient.cpp:492-517 | a history in which a departed client has a record again |
| `SharedRegistry.OwnStandingIff` | src/storage/RedisClient.cpp:411-445 | the standing the registry goes by, keyed by C string, is after every command the client's own, if and only if no other client with the same C string registers, or leaves while this one is registered |
| `SharedRegistry.SharedCString` | src/storage/RedisClient.cpp:424 | ids that differ only behind a NUL share one record |
| `SharedRegistry.DeviceHash.RegisterDevice` | src/storage/RedisClient.cpp:411-430 | the stored texts are those of the history with this registration |
| `SharedRegistry.DeviceHash.UnregisterDevice` | src/storage/RedisClient.cpp:432-445 | the stored texts are those of the history with this departure, and the client's telemetry goes |
| `SharedRegistry.DeviceHash.ReadForHeartbeat` | src/storage/RedisClient.cpp:498-499 | the history with this read; the text stays with the caller |
| `SharedRegistry.DeviceHash.WriteHeartbeat` | src/storage/RedisClient.cpp:500-512 | the search-and-replace on the text that was read makes the stored texts those of the history with this write |
| `SharedRegistry.DeviceHash.UpdateDeviceHeartbeat` | src/storage/RedisClient.cpp:492-517 | a read and a write with any commands of others in between |
| `SharedRegistry.DeviceHash.GetDeviceGateway` | src/storage/RedisClient.cpp:447-459 | the lookup of the history; if no heartbeat misled it, empty exactly for unregistered clients, and otherwise naming the node that registered last, if and only if its id is plain |
| `SharedRegistry.DeviceHash.CacheTelemetry` | src/storage/RedisClient.cpp:667-675 | sets one topic of one client, all as C strings, and nothing else |
| `Cluster.DiffKeepsBelief` | src/gateway/ClusterManager.cpp:183-231 | one discovery keeps a listener's belief equal to the known nodes, and the turns strict |
| `Cluster.AlternatesTakesTurns` | src/gateway/ClusterManager.cpp:207-227 | strict turns, in positions: a down has an earlier notice of its node, two equal notices have an opposite one between them |
| `Cluster.HistoryIsFaithful` | src/gateway/ClusterManager.cpp:183-231 | over any snapshots, folding all notices gives the last snapshot minus the node itself, and each node's notices alternate up, down, up |
| `Cluster.ClusterManager.FindMissing` | src/gateway/ClusterManager.cpp:189-205 | the comparison loops, in order, without this node |
| `Cluster.ClusterManager.DiscoverNodes` | src/gateway/ClusterManager.cpp:183-231 | notices exactly the difference to the last snapshot, then keeps the snapshot; nothing without a connection |
| `Cluster.ClusterManager.DetectFailedNodes` | src/gateway/ClusterManager.cpp:364-380 | the known nodes missing from the snapshot |
| `Cluster.ClusterManager.DetectAndDiscover` | src/gateway/ClusterManager.cpp:335-351 | with the two snapshots the timer reads: failed are the nodes believed up and missing from the first, lost those missing from the second; on equal snapshots they are the same |
| `Heartbeats.StaysUntilSilenceIff` | src/storage/RedisClient.cpp:548-563 | a node that stops beating is listed until it is deleted by name or everybody was silent for 15 seconds, exactly then |
| `Heartbeats.DeadNodeUnreported` | src/gateway/ClusterManager.cpp:364-380 | without such a silence the failure detection of no node reports it |
| `Heartbeats.DeadNodeListedForever` | src/storage/RedisClient.cpp:548-563 | a run of any length in which one other node's heartbeats keep a dead node listed |
| `DispatchSpec.StepKeepsInv` | src/gateway/GatewayServer.cpp:302-390 | no step of any node, no crash and no lost reply breaks the books of the stream |
| `DispatchSpec.DispatchLedger` | src/gateway/GatewayServer.cpp:302-390 | in every run each entry is in exactly one of undelivered, pending, acknowledged; handed off at most once, exactly once if acknowledged; a command given up stays pending; no command makes more than one hop |
| `DispatchSpec.GivenUpUntouchedIff` | src/storage/RedisClient.cpp:635-662 | no command given up was handed off, in exactly the runs in which no PUBLISH loses its reply |
| `DispatchSpec.LostReplyGivesUp` | src/storage/RedisClient.cpp:635-662 | a run in which a command is given up although the other node got it |
| `DispatchSpec.RunForgetsNothing` | src/gateway/GatewayServer.cpp:302-390 | what is acknowledged, given up or handed off stays so |
| `DispatchSpec.OnlyHeadsMove` | src/gateway/GatewayServer.cpp:311-345 | a node changes the standing of no entry but the first of its own batch |
| `DispatchSpec.OthersStep` | src/gateway/GatewayServer.cpp:302-390 | the steps of other nodes leave a node's batch and entries alone |
| `DispatchBooks.ChannelsBalance` | src/storage/RedisClient.cpp:605-662 | over every run a route channel holds what was published to it less what was fetched, copy for copy, and every command sent to a device was sent by a step that says so |
| `DispatchBooks.StandingIff` | src/gateway/GatewayServer.cpp:302-390 | an entry is acknowledged if and only if an XACK of its node reached the store while it was first in the batch, given up if and only if its node marked it failed or saw no receiver, and handed off as often as steps did so |
| `DispatchBooks.StepRead` | src/storage/RedisClient.cpp:174-190 | a read delivers the next entries of the stream in order, at most as many as it asks for |
| `DispatchBooks.CrashedStaysPending` | src/gateway/GatewayServer.cpp:302-390 | what a node had read and not finished when it crashed stays pending for ever: nobody acknowledges it or hands it off |
| `Dispatch.RoutedByRegistry` | src/gateway/ClusterManager.cpp:293-321 | the branch for a device registered here but not connected is never taken; if no heartbeat misled the registry, commands of an unregistered device go nowhere, others to what the last registering node's record reads as, unless that is this node: to that node if and only if it is another one with a plain, non-empty id |
| `Dispatch.OutcomeByAnswers` | src/gateway/GatewayServer.cpp:311-345 | by the records read and the replies heard: when a command ends acknowledged, still pending, or given up, when it is delivered here, and when it counts as forwarded |
| `Dispatch.Dispatcher.ForwardTarget` | src/gateway/ClusterManager.cpp:293-314 | the channel, or a refusal |
| `Dispatch.Dispatcher.TakeUp` | src/gateway/GatewayServer.cpp:314-343 | the branches of the loop: the first step a command's answers call for, and whether it was handed off |
| `Dispatch.Dispatcher.Consult` | src/gateway/DeviceManager.cpp:114-127 | what the two lookups of a device's record give, with the registry changing in between; none for a device connected here |
| `Dispatch.Dispatcher.HandleCommand` | src/gateway/GatewayServer.cpp:311-345 | one command is looked up twice with others changing the registry in between, makes exactly the steps that calls for and reaches its outcome, with other nodes acting in between; no other entry of this node moves |
| `Dispatch.Dispatcher.ProcessCommand` | src/gateway/GatewayServer.cpp:302-349 | one batch of up to ten entries, each by the records of its own device at its turn: every entry ends acknowledged, pending or given up as they say; the node's steps in the run are the read and each command's steps in order; the counters |
| `Dispatch.Store.LetOthers` | src/gateway/GatewayServer.cpp:302-390 | any work of other nodes is a run without a step of this node and leaves its batch alone |
| `GatewayNode.AloneNeverForwards` | src/gateway/DeviceManager.cpp:41-127 | while one node alone writes to a registry it was always connected to, there is a record exactly of the devices in its table, and no command for a device not connected here is sent to any node |
| `GatewayNode.StandingOfCalls` | src/gateway/DeviceManager.cpp:41-98 | in the registry's history of the device manager's calls a client stands as registered here, with the keep-alive of its last CONNECT, if and only if it was not taken off since |
| `GatewayNode.CommandLoop.TakeCommand` | src/gateway/GatewayServer.cpp:311-343 | one frame goes to the device's connection exactly if the turn makes the step that hands the command to a device here, which is exactly if the device table says it is connected; no other turn puts a frame on any |
| `GatewayNode.CacheAll` | src/storage/RedisClient.cpp:667-675 | after any readings were cached, every topic of every client has the payload of the last one for it |
| `Metrics.WindowIsFaithful` | src/platform/MetricsCollector.cpp:12-47 | the samples kept in a window that no prune cut are the newest part of all points recorded in it, and all of them up to 2000; the counter is the sum of the increments |
| `Metrics.SinceExact` | src/platform/MetricsCollector.cpp:73-78 | a window holds every sample of its time, as often as it was stored, and no other |
| `Metrics.PruneKeepsHour` | src/platform/MetricsCollector.cpp:148-158 | a prune keeps exactly the samples of the last hour |
| `Metrics.LatestIsLast` | src/platform/MetricsCollector.cpp:12-57 | the latest value is that of the last point ever recorded |
| `Metrics.RankOfSorted` | src/platform/MetricsCollector.cpp:95-103 | the element of the sorted window at that rank has at least p n samples at most it, and less than p n below it |
| `Metrics.RankIsCeiling` | src/platform/MetricsCollector.cpp:95-99 | the rank is ceil(p n), within the window |
| `Metrics.MetricsCollector.RecordValue` | src/platform/MetricsCollector.cpp:12-30 | appends one sample and drops the oldest past 2000 |
| `Metrics.MetricsCollector.IncrementBy` | src/platform/MetricsCollector.cpp:32-47 | appends the new counter value and drops the oldest past 2000 |
| `Metrics.MetricsCollector.PruneOldSamples` | src/platform/MetricsCollector.cpp:148-158 | keeps exactly the samples of the last hour, of every metric |
| `Metrics.MetricsCollector.GetAggregated` | src/platform/MetricsCollector.cpp:59-106 | for any non-empty window min and max are its extremes, avg its mean and between them, the percentiles have their rank and are ordered; zeros for an empty one |
| `Tsdb.EscapeRoundTrip` | src/storage/TsdbClient.cpp:45-51 | what was escaped is read back, with whatever follows it |
| `Tsdb.FieldReadsBackIff` | src/storage/TsdbClient.cpp:45-60 | the value field of a line reads back as the value written, if and only if the value has no NUL |
| `Tsdb.LineReadsBackIff` | src/storage/TsdbClient.cpp:40-60 | a line reads back as the device, topic, value and nanoseconds it was written for, if and only if device and topic have no comma, space or NUL and the value has no NUL |
| `Tsdb.TsdbClient.WriteDeviceData` | src/storage/TsdbClient.cpp:40-75 | a line shorter than 4096 is accepted as the last one, a longer one or one without a connection changes nothing; what was posted stays |
| `Tsdb.TsdbClient.Flush` | src/storage/TsdbClient.cpp:92-102 | posts the whole batch as one body, losing and reordering no accepted line; every body is 1 to 100 whole lines |
| `Tsdb.TsdbClient.Escape` | src/storage/TsdbClient.cpp:45-51 | the loop computes the escaped text |
| `Tsdb.TsdbClient.Disconnect` | src/storage/TsdbClient.cpp:24-27 | nothing accepted stays unsent |

## Left out

- Sockets, epoll, eventfd, timerfd, accept, the store's client library: their results are parameters or arbitrary choices of a run.
- Data races between loops on the gateway's unlocked tables: callbacks are atomic and single-threaded, as the comments in the source declare.
- NetBuffer.Buffer.ReadFd: the parsers work on a read-only view of the octets the buffer holds; raw pointers and aliasing into the vector are not modelled.
- MqttCodec.Codec.ParseConnect: the source loads the keep-alive word before it tests that it lies inside the frame; the model states the outcome for the frame's octets, not that load.
- TaskQueue.NoLostWakeup: the eventfd counter is unbounded; its saturation is not modelled.
- TcpConnection.Connection.Send: on the loop thread the state is read twice with nothing but a store of "disconnecting" possible in between, which neither read distinguishes; the two reads are one step.
- Delivery.WholeMessages: the close callback is not claimed to run exactly once, because a hang-up can be reported after interest was switched off; the write-complete and high-water notices are recorded when they are queued, not as tasks of their own.
- TimerSpec.FiringsAreRight: the clock is any sequence of values, so a firing is compared with the time read at the start of its batch.
- DeviceManager.Manager.GetSubscribers: the order in which a hash set is walked is arbitrary here as there.
- DeviceManager.Manager.DeviceOnline: the calls to the registry are recorded in order; what they store there is the matter of the registry's own module.
- Service.Host.HandleRead: the codec that all connections share has no state but its callbacks, so each connection has one of its own; frames of commands are no inputs of this history, they are the matter of `GatewayNode`.
- SharedRegistry.DeviceHash.UnregisterDevice: its two deletions are one step; the registry's is the one the history is about.
- SharedRegistry.DeviceHash.CacheTelemetry: the 300 second expiry of the hash is not modelled.
- GatewayNode.AloneNeverForwards: for client ids without NUL; with several nodes it is `Dispatch.RoutedByRegistry` that says where commands go.
- Heartbeats.StaysUntilSilenceIff: times are whole milliseconds; node ids are those that reach the store.
- Sessions.DownSparesOthersIff: that an old connection's close spares a newer session of the same client is false of the code; the exact condition is stated instead.
- Dispatch.Dispatcher.ProcessCommand: the JSON text of a forwarded command (cut at 1023 characters, payload unquoted) is not modelled, a relay names its entry; reconnecting and blocking reads are left out; a PUBLISH without a heard receiver and the failure mark after it are one step.
- DispatchSpec.DispatchLedger: a consumer-group read hands each entry to one consumer, as the store documents; no delivery to the device is claimed, and no takeover of pending entries, since the source has none.
- Metrics.MetricsCollector.GetAggregated: values are reals and percentiles are in hundredths; floating-point rounding is not modelled.
- Tsdb.LineReadsBackIff: the reader takes no escapes in device id and topic, since the source writes none.
- TimerTimes.WakesInTime: which of the run's clocks timerfd was set at is not said.
- Simulator.SendConnect: what the source does once it writes behind its four-octet length array is undefined; the model stops there.
- UNSUBSCRIBE packets, wildcards, QoS 2, retained messages and wills: not handled by the source.
- The HTTP API, the dashboard, alerts, the thread pool's round robin, channel flags, logging, configuration and the programs' main functions: no state worth a proof.
- Command status hashes and timeout scans in the store: only the marks that a command was sent or given up are kept.
