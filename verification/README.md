# espMqttClient in Dafny

A model of espMqttClient, an MQTT 3.1.1 client, and proofs about it. The parts stack the way the program does:

- **Parser** (`ParserSpec`, `Messages`, `Parser`): a pure machine that takes one byte at a time, and the program's
  object with a state function pointer, counters and buffers. The object is proved to do what the machine does; the
  machine is proved not to care how a stream was cut into buffers.
- **Serialiser** (`RemainingLength`, `StringUtil`, `PacketSpec`, `Packet`, `PayloadWindow`): the two-pass
  construction of packets in a buffer, and the sliding window through which a callback payload is sent.
- **Round trip** (`RoundTrip`): parsing inverts serialising, on whole streams of everything a server can send, and nothing
  else with a fixed length is taken.
- **Variable-size memory pool** (`PoolSpec`, `PoolRuns`, `MemoryPool`): block headers threaded through one buffer,
  proved against a list of blocks; the theorems are about runs of malloc and free.
- **Outbox** (`Outbox`): the linked queue with its cursor and external iterators, proved against a sequence and an index.
- **Client session** (`ClientSpec`, `ClientRuns`; the theorem modules; `ClientLoop`; `MqttClient`): a step machine
  whose actions are the user calls, the pieces of work of a `loop` pass and the handling of one received packet. The
  theorems hold for every run: conservation of messages (`ClientLedger`) and of PUBACKs (`ClientPubacks`), QoS 2
  (`ClientQos2`), bytes on the wire (`ClientFraming`, `ClientTrace`), what the queued bytes say (`ClientPackets`), order
  (`ClientOrder`), what stays queued (`ClientClearing`), the DUP flag (`ClientDup`), retransmission and keep-alive
  (`ClientClock`), states, reasons and callbacks (`ClientLifecycle`, `ClientFates`), ids and pings (`ClientCounters`), what a
  pass gets done (`ClientPass`). `ClientAnswers` and `ClientCalls` say what each received packet and each user call does, by
  what a receiver reads in the packets it queues. `ClientFailures` holds the runs, from the initial state on, in which the
  client falls short. `MqttClient.MqttClient` is the object, with its outbox on the heap and its parser: one call
  of `Loop`, callbacks included, is proved to extend the object's run by exactly the actions `ClientLoop.Pass` lists, so
  what is proved of all runs holds of every object (`MqttClient.MqttClient.Guarantees`, `PacketGuarantees`,
  `ConditionalGuarantees`).

## How the model reads the program

- A callback runs with the mutex released, and is the last thing its handler does. It is modelled as an arbitrary list of
  user calls behind the handler. The transport, the clock, memory and these calls are an arbitrary `World` per pass; the
  clock stands still during a pass. `write` takes at most what it is offered.
- `History` and `Note` record what the theorems speak of; no decision depends on them. `History.started` is the packet
  whose first byte was written last. A packet is `whole` once it has been written from its first byte to its last:
  `ClientTrace.WholeWasWritten` shows that all its bytes have then been on the wire one after the other.
- `size_t` is 32 bits wide (`SIZE_MODULUS`) where the parser subtracts, `millis()` is 32 bits wide, a `BlockHeader` has 8
  bytes. Bytes are integers below 256, with the bitwise operations written out as arithmetic.
- The parser's unions are separate fields. `payload.data` is the slice it points at; for an empty payload the program
  leaves an old pointer behind, with length 0. The `index` handed to a payload callback is the packet position, as in the
  code.
- In the session a queued packet is its bytes, as `PacketSpec` gives them; how `Packet` fills a buffer with those bytes is
  proved in `Packet`. A packet with a callback payload offers the transport less at a time, which is a smaller write.
- CONNECT is the opaque byte string `Config.connectBytes`.

## What turned out false, and exactly when

- An acknowledgement or a clearing of the queue that takes away the packet being written leaves `_bytesSent` as it was.
  A step for which `ClientFraming.Tears` does not hold keeps the framing; one for which it holds loses it, except by the
  accident that the next packet starts with the same bytes (`StepFramed`, both directions). `ClientFailures.Torn` is a run
  in which the PUBACK for a packet comes while the packet is sent again.
- DUP does not always tell whether a PUBLISH was once written whole. The steps that make a flag wrong are exactly those with
  `ClientDup.Misleads`, which speaks of the client before the step: the transport takes all that is left of an unmarked QoS > 0
  PUBLISH that inherited its count of bytes from a packet that is gone, or takes it all before CONNACK, when the outbox does
  not advance; or an accepting CONNACK finds the count of such a PUBLISH full. A step keeps all flags right if and only if it
  is none of these (`StepDup`), and a run does if and only if it has no such step (`DupInRuns`). In `ClientFailures.WrongFlag`
  a PUBLISH of which five of six bytes have been written is marked as a duplicate.
- When the packet taken away had at least as many bytes out as the next one is long, nothing is left to offer, `_checkTimeout`
  waits for `_bytesSent` to be 0, and the connection writes nothing more until that packet goes too, a CONNACK accepts or the
  connection ends (`NothingWritten`, with the run `Stalls`).
- A QoS 2 message that arrives twice before its PUBREL is stored twice. One PUBREL settles one of the two, and the next
  message with that id is withheld from the application (`RepeatHidesNextMessage`); a message is handed over exactly when
  all earlier storings of its id are settled (`DeliveredExactly`).
- A second CONNACK on a connection reopens a client that is disconnecting. No other step moves the state back, and this one
  does whenever it leaves the client connected (`StepMovesOn`; `SecondConnack` is a run). `ReachTorn`, `ReachWrongFlag`,
  `ReachStalled` and `ReachReopened` in `ClientFailures` lead every client from its initial state to each of these.
- Two starts of the same packet on one connection need not be more than the timeout apart. `_checkTimeout` looks at the first
  packet alone, and sends all packets before the cursor again with it. Between two starts the client has gone back, the first
  packet was overdue then, and a packet that was overdue itself has its starts more than the timeout apart (`StartsApart`).
  In `ClientFailures.RepeatsEarly` the second of two packets is sent again after one millisecond.
- disconnect(false) with packets still queued need not end. In `disconnectingMqtt1` the client does not look at the transport:
  when that is gone, it goes on exactly when the server has been silent for twice the keep-alive interval, and never without
  keep-alive (`ClientPass.DisconnectHangs`). From every other state it is down after three passes (`GoesDown`).
- A callback payload of length 0 makes the packet offer one byte too many (`EmptyPayloadOverruns`); any other length is
  served exactly, and a callback that has nothing to deliver only delays the packet.
- The `index` given to a payload callback counts from the packet's first byte, not from the payload's. A callback that takes it
  for an offset in the payload is right when asked with index 0, and behind the header exactly if the payload repeats itself
  at the distance of the header's length (`OffsetCallback`); `OffsetCallbackShifts` is a payload for which it is wrong.
- `resetCurrent` leaves `_prev` behind (`Outbox.StalePrev`). `Outbox.Outbox.Valid` therefore speaks of it only when the
  cursor is not in front.
- A PUBLISH that can be sent is received as its message exactly when its topic has 1 to 128 bytes: an empty topic swallows
  the bytes behind it, and a longer one is cut at 128 with the rest read as id and payload (`RoundTrip.RecoveredIff`).
- The check of a PUBLISH's topic length wraps around: when the remaining length has no room for the topic length and the
  packet id themselves, any topic length is taken (`RoundTrip.TopicLengthTaken`, both directions).
- The comment in the parser lists ten legal PUBLISH flags; the code also accepts 0xE and 0xF. The model follows the code.

## Model

| member | source | states |
|---|---|---|
| RemainingLength.DecodeEncode | src/Packets/RemainingLength.cpp:13-30 | decoding inverts encoding, whatever follows on the stream |
| RemainingLength.EncodeTerminated | src/Packets/RemainingLength.cpp:40-55 | continuation bits on all bytes but the last |
| RemainingLength.EncodeShortest | src/Packets/RemainingLength.cpp:40-55 | no complete encoding of the same value is shorter |
| RemainingLength.LengthPrediction | src/Packets/RemainingLength.cpp:32-38 | the predicted byte count is the real one up to 268435455, and 0 exactly above |
| RemainingLength.EncodeRemainingLength | src/Packets/RemainingLength.cpp:40-55 | the do-while loop writes the encoding at its place, touches nothing else and answers its length |
| RemainingLength.DecodeRemainingLength | src/Packets/RemainingLength.cpp:13-30 | the loop gives the encoded value when it ends within four bytes, -1 otherwise |
| RemainingLength.PartialSumIsDecode | src/Packets/RemainingLength.cpp:19-29 | summing digit times multiplier from the front is the recursive value |
| StringUtil.EncodeString | src/Packets/StringUtil.cpp:13-24 | length bytes and text at their place, nothing at all above 65535 bytes, the rest of the buffer unchanged |
| Bytes.BitOrTwoBytes | src/Packets/Parser.cpp:212-219 | or-ing two bytes into a zero word gives its big-endian value |
| PacketSpec.PublishFirstByte | src/Packets/Packet.cpp:343-352 | the first byte carries type, QoS and RETAIN, and no DUP |
| PacketSpec.PublishSizeExact | src/Packets/Packet.cpp:165-200 | the fill pass of a legal PUBLISH ends exactly at the predicted size |
| PacketSpec.ItemsSizeAgrees | src/Packets/Packet.cpp:369-390 | the fill loop writes at most what the sizing loop counted, and exactly that for encodable topics |
| PacketSpec.TopicsSizeAgrees | src/Packets/Packet.cpp:399-419 | the same for UNSUBSCRIBE |
| PacketSpec.SubscribeAgreement | src/Packets/Packet.cpp:365-393 | the packet has the predicted size, its length field is shortest and counts the rest, and the topic list can be read back |
| PacketSpec.UnsubscribeAgreement | src/Packets/Packet.cpp:395-422 | the same for UNSUBSCRIBE |
| PacketSpec.ReadItemsBytes | src/Packets/Packet.cpp:387-390 | a receiver reads back every topic and QoS in order, whatever follows |
| PacketSpec.ReadTopicsBytes | src/Packets/Packet.cpp:417-419 | the same for UNSUBSCRIBE |
| Packet.Packet.Allocate | src/Packets/Packet.cpp:311-334 | a cleared buffer of the predicted size, or no buffer and size 0 |
| Packet.Packet.FillPublishHeader | src/Packets/Packet.cpp:336-363 | the header lies in the buffer in front of zeros, and the index is behind it; also for a QoS above 2 |
| Packet.Packet.Publish | src/Packets/Packet.cpp:165-200 | the buffer is exactly the specified PUBLISH; id 0 for QoS 0; without memory the packet is marked as failed |
| Packet.Packet.Acknowledge | src/Packets/Packet.cpp:254-279 | the buffer is exactly the specified acknowledgement, PUBREL with its reserved flag |
| Packet.Packet.Bare | src/Packets/Packet.cpp:293-308 | PINGREQ and DISCONNECT: type byte and length 0 |
| Packet.Packet.Subscribe | src/Packets/Packet.cpp:365-393 | sizing loop and filling loop together leave exactly the specified SUBSCRIBE |
| Packet.Packet.Unsubscribe | src/Packets/Packet.cpp:395-422 | the same for UNSUBSCRIBE |
| Packet.FillItems | src/Packets/Packet.cpp:387-390 | the filling loop appends the items behind the header and stays inside the buffer |
| Packet.FillTopics | src/Packets/Packet.cpp:417-419 | the same for UNSUBSCRIBE |
| Packet.Packet.SetDup | src/Packets/Packet.cpp:44-49 | DUP on a PUBLISH with an id; every other packet and byte unchanged |
| Packet.Packet.Transmit | src/Packets/Packet.cpp:25-38 | writing what is offered from the bytes written so far on, however it is cut, puts a prefix of the packet on the wire, and with enough writes exactly the packet |
| PayloadWindow.CallbackPacket.constructor | src/Packets/Packet.cpp:202-240 | header in the buffer, no payload fetched yet, size counted with the payload |
| PayloadWindow.CallbackPacket.Available | src/Packets/Packet.cpp:424-444 | for length > 0: never past the end, up to the end of the window, and 0 exactly when the callback was asked for payload and had none; the callback is asked exactly when the window does not cover the index |
| PayloadWindow.CallbackPacket.Send | src/Packets/Packet.cpp:424-452 | a send is a run of bytes at its index, each the one the latest covering fetch delivered; with nothing to send, nothing sent before is lost |
| PayloadWindow.CallbackPacket.Transmit | src/Packets/Packet.cpp:424-452 | successive sends, however cut, go through the packet once without gaps; with a truthful callback they are a prefix of header and payload, also on retransmission with an old window; the packet is complete after enough sends in which transport and callback give something |
| PayloadWindow.OffsetCallback | src/Packets/Packet.cpp:429-439 | a callback that reads its index as a payload offset is right when asked with index 0, and otherwise exactly if the payload repeats itself at the distance of the index or, behind the header, of the header's length |
| PayloadWindow.OffsetCallbackShifts | src/Packets/Packet.cpp:429-439 | two windows of payload from such a callback: the first byte behind the first window is the one four positions on |
| PayloadWindow.LatestAgrees | src/Packets/Packet.cpp:429-439 | the latest byte a truthful callback delivered for a position is the payload's |
| PayloadWindow.EmptyPayloadOverruns | src/Packets/Packet.cpp:428-443 | with an empty payload the first request offers one byte more than the packet has |
| ParserSpec.StepWellFormed | src/Packets/Parser.cpp:71-302 | a byte leads from a state the parser can be in to another one |
| ParserSpec.Parse | src/Packets/Parser.cpp:47-58 | a call consumes at least one byte of a non-empty buffer and all of it when it reports nothing |
| ParserSpec.ParseIsRun | src/Packets/Parser.cpp:47-58 | a call means the same as taking the consumed bytes one at a time, with the payload fragment cut into bytes |
| ParserSpec.PayloadRun | src/Packets/Parser.cpp:304-314 | taking a run of payload bytes at once is taking them one by one |
| ParserSpec.DriveIsRun | src/MqttClient.cpp:405-459 | the receive loop on one buffer is the byte machine on it, up to the first protocol error |
| ParserSpec.DriveAllIsRun | src/MqttClient.cpp:400-461 | the same for any sequence of buffers |
| Messages.ChunkIndependence | src/Packets/Parser.cpp:47-58 | two ways of cutting a stream end in the same state with the same events once adjacent fragments are joined |
| Messages.FragmentsContiguous | src/Packets/Parser.cpp:304-314 | joined messages run from index 0 to total; an unfinished last one has exactly the bytes received |
| Messages.JoinShatterAll | src/Packets/Parser.cpp:304-314 | joining fragments does not see how they were cut |
| Parser.Parser.Parse | src/Packets/Parser.cpp:47-58 | the loop over the state functions does what the byte machine does, consumes between 1 and all bytes and terminates |
| Parser.Parser.Reset | src/Packets/Parser.cpp:64-69 | the parser waits for a header again, whatever state it was in, also after a protocol error |
| Parser.Parser.OnFixedHeader | src/Packets/Parser.cpp:71-120 | state function = header step of the machine |
| Parser.Parser.OnRemainingLengthFixed | src/Packets/Parser.cpp:122-137 | the same for a fixed length |
| Parser.Parser.OnRemainingLengthVariable | src/Packets/Parser.cpp:139-175 | the same for a variable length, decoded from the raw bytes |
| Parser.Parser.OnRemainingLengthNone | src/Packets/Parser.cpp:177-186 | the same for length 0 |
| Parser.Parser.OnVarHeaderConnack1 | src/Packets/Parser.cpp:188-198 | the same for the session-present byte |
| Parser.Parser.OnVarHeaderConnack2 | src/Packets/Parser.cpp:200-210 | the same for the return code |
| Parser.Parser.OnVarHeaderPacketId1 | src/Packets/Parser.cpp:212-216 | the same for the first id byte, or-ed in |
| Parser.Parser.OnVarHeaderPacketId2 | src/Packets/Parser.cpp:218-242 | the same for the second id byte and what follows an id |
| Parser.Parser.OnVarHeaderTopicLength1 | src/Packets/Parser.cpp:244-248 | the same for the first topic length byte |
| Parser.Parser.OnVarHeaderTopicLength2 | src/Packets/Parser.cpp:250-265 | the same for the second, with the unsigned subtractions |
| Parser.Parser.OnVarHeaderTopic | src/Packets/Parser.cpp:267-284 | the same for a topic byte; a finished topic is zero-terminated |
| Parser.Parser.OnPayloadSuback | src/Packets/Parser.cpp:286-302 | the same for a SUBACK code |
| Parser.Parser.OnPayloadPublish | src/Packets/Parser.cpp:304-314 | takes the longest run there is and reports it as the next fragment |
| RoundTrip.StreamRoundTrip | src/Packets/Parser.cpp:47-314 | any list of legal packets a client can receive, PUBLISH, all acknowledgements, CONNACK, SUBACK, UNSUBACK and PINGRESP, concatenated and cut in any way, is parsed back to exactly that list |
| RoundTrip.HeaderRecovers | src/Packets/Parser.cpp:13-26 | QoS, RETAIN and DUP are read as they were written |
| RoundTrip.RunPub | src/Packets/Parser.cpp:244-314 | the bytes of one PUBLISH give that message and leave the parser waiting for a header |
| RoundTrip.RunAck | src/Packets/Parser.cpp:122-242 | the same for PUBACK, PUBREC, PUBREL, PUBCOMP |
| RoundTrip.RunConnack | src/Packets/Parser.cpp:188-210 | the four bytes of a CONNACK give its session-present flag and its return code |
| RoundTrip.RunSuback | src/Packets/Parser.cpp:139-302 | the bytes of a SUBACK give its id and all its codes |
| RoundTrip.RunUnsuback | src/Packets/Parser.cpp:122-242 | the four bytes of an UNSUBACK give its id |
| RoundTrip.HeaderTable | src/Packets/Parser.cpp:71-120 | the header bytes after which the parser goes on, listed: all others are refused |
| RoundTrip.ShortLengths | src/Packets/Parser.cpp:139-186 | PINGRESP is taken with length 0 only, SUBACK with 1 to 31 codes only |
| RoundTrip.TopicLengthTaken | src/Packets/Parser.cpp:250-265 | a topic length is taken if and only if topic and id fit in the rest of the packet, or the rest is too short for the two lengths |
| RoundTrip.RecoveredIff | src/Packets/Parser.cpp:267-284 | of the PUBLISH packets that can be sent exactly those with a topic of 1 to 128 bytes are received as their message |
| RoundTrip.FourBytes | src/Packets/Parser.cpp:122-242 | four bytes with the header of a packet of fixed length are taken if and only if they are a legal packet |
| PoolRuns.RunInvariant | src/MemoryPool/src/Variable.h:51-160 | after any run blocks tile the buffer, no two free ones touch, units add up, and with nothing live the pool is its initial block |
| PoolRuns.FreeAllRestores | src/MemoryPool/src/Variable.h:108-160 | freeing all live blocks in any order restores the initial block |
| PoolRuns.AllocLive | src/MemoryPool/src/Variable.h:68-95 | malloc adds one block of the size asked for at the first fit and touches no other live block |
| PoolRuns.ReleaseLive | src/MemoryPool/src/Variable.h:120-156 | free takes exactly its block out of the live ones |
| PoolRuns.MallocSucceedsIff | src/MemoryPool/src/Variable.h:55-91 | a request fits exactly when it is at most maxBlockSize, across byte rounding and the header unit |
| PoolRuns.UniformGuarantee | src/MemoryPool/src/Variable.h:35-40 | equal-sized requests succeed exactly while fewer than nrBlocks are live, after any interleaving |
| PoolSpec.FirstFit | src/MemoryPool/src/Variable.h:68-86 | the lowest free block that is large enough, and none before it is |
| PoolSpec.TakeOk | src/MemoryPool/src/Variable.h:70-83 | taking and splitting keeps tiling and coalescing |
| PoolSpec.ReleaseOk | src/MemoryPool/src/Variable.h:141-152 | releasing with two-sided merging keeps them |
| MemoryPool.Variable.constructor | src/MemoryPool/src/Variable.h:28-45 | one free block of nrBlocks rounded-up blocks with a header each |
| MemoryPool.Variable.Malloc | src/MemoryPool/src/Variable.h:51-106 | null exactly for size 0 or above maxBlockSize; otherwise the unit behind the header of the first fit; the headers in the buffer say so |
| MemoryPool.Variable.FindFit | src/MemoryPool/src/Variable.h:64-86 | the walk along the list finds the first fit and the free block before it |
| MemoryPool.Variable.TakeBlock | src/MemoryPool/src/Variable.h:70-93 | the header writes splice out or split the block |
| MemoryPool.Variable.Free | src/MemoryPool/src/Variable.h:108-160 | the block is free, merged on both sides, in address order in the list; null does nothing |
| MemoryPool.Variable.FindPlace | src/MemoryPool/src/Variable.h:130-159 | the walk ends between the free neighbours of the block |
| MemoryPool.Variable.MergeAround | src/MemoryPool/src/Variable.h:141-152 | merges with exactly the adjacent free blocks |
| MemoryPool.Variable.UserWrite | src/MemoryPool/src/Variable.h:94 | whatever the caller stores in a live block, the pool stays valid |
| MemoryPool.Variable.FreeMemory | src/MemoryPool/src/Variable.h:162-175 | the sum over the free blocks without their headers |
| MemoryPool.Variable.MaxBlockSize | src/MemoryPool/src/Variable.h:177-190 | the largest free block without its header |
| Outbox.Outbox.Emplace | src/Outbox.h:92-121 | appends; the cursor index stays, so a cursor past the end points at the new item; earlier nodes stay in place |
| Outbox.Outbox.EmplaceFront | src/Outbox.h:125-149 | prepends, cursor at the front |
| Outbox.Outbox.Remove | src/Outbox.h:152-162 | takes out the item under the iterator, which moves to the next; the cursor stays on its item or moves to its successor |
| Outbox.Outbox.RemoveCurrent | src/Outbox.h:165-167 | takes out the item under the cursor, which moves to the next, also with a stale _prev |
| Outbox.Outbox.Unlink | src/Outbox.h:218-255 | the shared removal keeps list, cursor and _prev consistent when the node before is right or _prev is stale in front |
| Outbox.Outbox.Next | src/Outbox.h:186-191 | the cursor moves on unless past the end |
| Outbox.Outbox.ResetCurrent | src/Outbox.h:175-177 | the cursor goes to the front; the invariant survives the stale _prev |
| Outbox.StalePrev | src/Outbox.h:175-177 | two emplaces, next and reset leave _prev on the current node, which shows that _prev need not precede _current |
| Outbox.Outbox.GetCurrent | src/Outbox.h:170-173 | the item under the cursor |
| Outbox.Outbox.Size | src/Outbox.h:199-207 | the walk counts the items |
| Outbox.Iterator.Advance | src/Outbox.h:69-74 | moves on and remembers the node before; stays past the end |
| Outbox.Outbox.EmplaceAndUndo | src/MqttClient.h:151-161 | append and remove again is the identity on items, nodes and cursor |
| Outbox.Outbox.EmplaceFrontAndUndo | src/MqttClient.h:163-173 | prepend and remove again restores the items but leaves the cursor in front |
| ClientRuns.StepBasic | src/MqttClient.cpp:217-325 | every step keeps the relations between state, cursor, queue and bytes sent |
| ClientLedger.OutgoingConservation | src/MqttClient.cpp:562-670 | per id: accepted = completed + discarded + PUBLISH and PUBREL in the outbox, in every run |
| ClientLedger.StepBalanced | src/MqttClient.cpp:400-749 | every step keeps the outgoing and the incoming ledger of every id |
| ClientLedger.LossCauses | src/MqttClient.cpp:591-749 | messages in flight and stored ids are lost only to a session wipe, an UNSUBACK or a PUBREL that could not be made |
| ClientLedger.DisconnectLosesNothing | src/MqttClient.cpp:721-734 | the clearing at a disconnect discards no message in flight and forgets no stored id |
| ClientQos2.ExactlyOnce | src/MqttClient.cpp:534-560 | between two complete deliveries with the same id there is a matched PUBREL, or a recorded loss of the PUBREC |
| ClientQos2.DeliveredExactly | src/MqttClient.cpp:534-560 | a message is handed over exactly when all earlier storings of its id are settled |
| ClientQos2.RepeatHidesNextMessage | src/MqttClient.cpp:535-549 | a message repeated before its PUBREL makes the client withhold the next message with that id |
| ClientPackets.PacketsSpell | src/MqttClient.cpp:152-171 | in every run each queued packet was made by an action of the run and says what that was about: a PUBLISH the published message under its id, a request its topics, an acknowledgement the id of what it answers, CONNECT, PINGREQ and DISCONNECT their own bytes |
| ClientPackets.AcksCarryTheirId | src/MqttClient.cpp:521-641 | a queued acknowledgement is read as that kind with the id it is booked under |
| ClientAnswers.MessageAnswered | src/MqttClient.cpp:521-560 | a complete message adds one packet, read as PUBACK at QoS 1 and PUBREC at QoS 2, with its id; a fragment or QoS 0 adds nothing |
| ClientAnswers.MessageHanded | src/MqttClient.cpp:521-560 | onMessage runs for every fragment, unless the message came at QoS 2 and a PUBREC with its id is queued |
| ClientAnswers.MessageIgnored | src/MqttClient.cpp:423-426 | after disconnect() a PUBLISH changes nothing |
| ClientAnswers.TooEarly | src/MqttClient.cpp:411-415 | before CONNACK another packet closes the connection and changes nothing else |
| ClientAnswers.AcknowledgementTakes | src/MqttClient.cpp:562-670 | PUBACK, PUBREC, PUBREL and PUBCOMP are about the first packet they can answer: with their id it leaves, and PUBREC and PUBREL put one packet at the back, read as PUBREL and PUBCOMP with that id |
| ClientAnswers.AcknowledgementLost | src/MqttClient.cpp:562-670 | without such a packet nothing changes |
| ClientAnswers.SubackTakes | src/MqttClient.cpp:672-693 | the first SUBSCRIBE with the id leaves, and onSubscribe is told; without one nothing changes |
| ClientAnswers.UnsubackTakes | src/MqttClient.cpp:695-716 | the first packet with the id leaves, of whatever kind; without one nothing changes |
| ClientPubacks.StepPubacks | src/MqttClient.cpp:521-560 | a step keeps the account of the PUBACKs with an id: owed, queued, written, dropped, refused by memory |
| ClientPubacks.EveryMessageAnswered | src/MqttClient.cpp:521-560 | in every run, complete QoS 1 messages of an id = PUBACKs with it written + queued + dropped + refused by memory |
| ClientFraming.StepFramed | src/MqttClient.cpp:354-398 | a step that does not tear keeps the wire whole packets and the first _bytesSent bytes of the current one; one that tears keeps that only if the next packet starts with the same bytes |
| ClientFraming.Framing | src/MqttClient.cpp:354-398 | the same for every run without tearing, under partial writes, timeouts and new publishes |
| ClientFraming.ConnackGate | src/MqttClient.cpp:246-258 | from connect() to CONNACK only a prefix of CONNECT is written, whatever is queued meanwhile |
| ClientTrace.StepTraced | src/MqttClient.cpp:362-398 | a step keeps the books on whose bytes _bytesSent counts: when the packet begun last is still queued it is the current one, and the wire ends with exactly that many of its bytes |
| ClientTrace.TracedInRuns | src/MqttClient.cpp:362-398 | the same in every run, torn or not |
| ClientTrace.StepWhole | src/MqttClient.cpp:362-378 | a step makes a packet whole only by writing the last of its bytes, and the wire then ends with all of them |
| ClientTrace.WholeWasWritten | src/MqttClient.cpp:362-378 | every packet that counts as whole has been on the wire, all its bytes one after the other, at some point of the run |
| ClientOrder.SendOrder | src/MqttClient.cpp:380-398 | packets before the cursor are not removable; all packets but CONNECT are sent in the order they were queued, acknowledgements included, and again in that order after a reset |
| ClientOrder.ClearIsFilter | src/MqttClient.cpp:718-749 | clearing is the order-preserving filter, and the cursor is on the first survivor from its old place on |
| ClientOrder.NewSessionKeepsPublishesOnly | src/MqttClient.cpp:501-508 | after CONNACK without a session only PUBLISH packets are left |
| ClientClearing.WrittenStays | src/MqttClient.cpp:380-398 | a packet written to its end stays if and only if its answer is still to come, a PUBLISH then with DUP; nothing else in the queue changes |
| ClientClearing.BeforeCursorWaits | src/MqttClient.cpp:380-398 | in every run only PUBLISH, PUBREC, PUBREL, SUBSCRIBE and UNSUBSCRIBE packets with an id are before the cursor |
| ClientClearing.DisconnectKeepsSession | src/MqttClient.cpp:303-313 | after a disconnect exactly the PUBREC, PUBREL and QoS > 0 PUBLISH packets are queued, in their order |
| ClientClearing.UserClears | src/MqttClient.cpp:199-203 | clearQueue(true) leaves nothing, clearQueue(false) exactly those |
| ClientClearing.SessionKept | src/MqttClient.cpp:501-519 | CONNACK with a session leaves everything queued but for a packet just sent that waits for nothing |
| ClientClearing.SessionLost | src/MqttClient.cpp:501-519 | without a session exactly the PUBLISH packets of that are left, QoS 0 included, in their order |
| ClientClearing.ConnectOnce | src/MqttClient.cpp:108-138 | in every run CONNECT is queued at most once and sent at most once on a connection |
| ClientClock.StepDated | src/MqttClient.cpp:362-378 | a step keeps in every packet the time of its last write |
| ClientClock.GoesBackIff | src/MqttClient.cpp:489-499 | in every run the cursor goes back to the first packet if and only if the client is between packets, has passed that one, and last wrote it more than the timeout ago, by the times of the writes in the run |
| ClientClock.GoesBackLate | src/MqttClient.cpp:489-499 | the same in plain differences, for times that run forward |
| ClientClock.PassedWasWritten | src/MqttClient.cpp:380-398 | in a run that tears no packet everything before the cursor has been written |
| ClientClock.StartsApart | src/MqttClient.cpp:489-499 | between two starts of a packet on one connection the client has gone back, the first packet overdue; if the packet was overdue itself, the starts are more than the timeout apart |
| ClientClock.KeepAlive | src/MqttClient.cpp:463-487 | in every run, by the times at which it wrote and heard something: a silent server is given up, PINGREQ is queued once when due, else nothing happens |
| ClientDup.StepDup | src/MqttClient.cpp:380-398 | that DUP marks exactly the QoS > 0 PUBLISH packets once written whole is kept by a step if and only if the step does not pass an unmarked one whose first bytes were never written, nor write one to its end before CONNACK |
| ClientDup.DupInRuns | src/MqttClient.cpp:380-398 | the flags are right all through a run if and only if it has no such step |
| ClientDup.DupUntilCleared | src/MqttClient.cpp:380-398 | they are, in every run that tears no packet and in which the user does not clear the queue |
| ClientFailures.Torn | src/MqttClient.cpp:562-589 | from any quiet connection, a PUBACK that comes while its packet is sent again tears the framing and leaves its count of bytes to the next packet |
| ClientFailures.WrongFlag | src/MqttClient.cpp:380-398 | one write later that packet carries DUP without having been written whole |
| ClientFailures.NothingWritten | src/MqttClient.cpp:362-378 | with at least as many bytes counted as the current packet has, a connection writes nothing until that packet goes, a CONNACK accepts or it ends |
| ClientFailures.Stalls | src/MqttClient.cpp:489-499 | from any quiet connection there is a run into that state |
| ClientFailures.SecondConnack | src/MqttClient.cpp:501-519 | disconnect() and a second CONNACK leave the client connected |
| ClientFailures.ReachTorn | src/MqttClient.cpp:217-325 | from the initial state of every client there is a run that tears the framing |
| ClientFailures.ReachWrongFlag | src/MqttClient.cpp:217-325 | one that makes a DUP flag wrong |
| ClientFailures.ReachStalled | src/MqttClient.cpp:217-325 | one that stalls the connection |
| ClientFailures.ReachReopened | src/MqttClient.cpp:217-325 | and one that ends disconnecting, and connected after one more CONNACK |
| ClientFailures.RepeatsEarly | src/MqttClient.cpp:489-499 | from any quiet connection, a run in which a packet is started twice within one millisecond |
| ClientCalls.PublishQueues | src/MqttClient.cpp:152-171 | publish() up to `connected` puts one packet at the back, which says the message, under a new id or 0, or calls onError with the id; later it changes nothing |
| ClientCalls.RequestQueues | src/MqttClient.h:34-64 | subscribe() and unsubscribe() put the request at the back when connected, and change nothing otherwise |
| ClientCalls.ConnectStarts | src/MqttClient.cpp:108-138 | connect() puts CONNECT in front of the unchanged queue when disconnected, and changes nothing otherwise |
| ClientFates.StepFate | src/MqttClient.cpp:217-325 | the state every action leads to and the reason it leaves for onDisconnect |
| ClientFates.ReasonReported | src/MqttClient.cpp:303-313 | in every run onDisconnect is told the reason of what last gave a connection up |
| ClientFates.RefusalReported | src/MqttClient.cpp:501-519 | a refused CONNECT ends disconnected, onDisconnect told the return code |
| ClientFates.ForcedDisconnect | src/MqttClient.cpp:140-150 | disconnect(true) ends disconnected from every state with a connection or an attempt at one |
| ClientFates.GracefulDisconnect | src/MqttClient.cpp:280-313 | disconnect(false) with an empty queue writes DISCONNECT and ends disconnected, onDisconnect told 0 |
| ClientPass.ReceivesInOrder | src/MqttClient.cpp:400-461 | the receive loop handles what the parser reports, in order and nothing else; once connected and with no second CONNACK, all of it |
| ClientPass.SendsEverything | src/MqttClient.cpp:354-360 | when the transport takes everything, the send loop writes every packet from the cursor on, in order |
| ClientPass.ConnectedPass | src/MqttClient.cpp:265-282 | a pass when connected handles exactly the packets that were read, notes that the server was heard, and ends with both timers |
| ClientPass.RefusalStops | src/MqttClient.cpp:416-421 | a refusing CONNACK is the last packet the receive loop handles |
| ClientPass.ConnectingEvents | src/MqttClient.cpp:246-258 | before CONNACK a pass offers one write, handles only what was read, and ends with the ping timer |
| ClientPass.ComesUp | src/MqttClient.cpp:225-245 | a connection that comes up starts with a fresh parser and both clocks set |
| ClientPass.GoesDown | src/MqttClient.cpp:217-316 | when the transport is gone, three passes lead from every state but disconnectingMqtt1 to disconnected, onDisconnect told that the connection was lost |
| ClientPass.DisconnectHangs | src/MqttClient.cpp:283-298 | in disconnectingMqtt1 with packets queued a pass goes on if and only if the server has been silent for twice the keep-alive interval |
| ClientLifecycle.StepMovesOn | src/MqttClient.h:104-114 | a step keeps the state, moves it to a higher number or closes the cycle; only a CONNACK that accepts beyond connected goes back |
| ClientLifecycle.RunMovesOn | src/MqttClient.h:104-114 | with one CONNACK per connection, a run that does not close a connection never ends in a lower-numbered state than it started in |
| ClientLifecycle.Lifecycle | src/MqttClient.cpp:217-316 | with one CONNACK per connection the connect, onConnect and onDisconnect of every run stay in step |
| ClientLifecycle.CallbacksAlternate | src/MqttClient.cpp:303-313 | in step means: connects and onDisconnects alternate strictly, with at most one onConnect between |
| ClientCounters.IdsRepeatIff | src/MqttClient.cpp:348-352 | ids are never 0, and two draws agree exactly when a multiple of 65535 draws lies between |
| ClientCounters.CounterIsDraws | src/MqttClient.h:34-64 | in every run the counter stands on as many draws as accepted QoS > 0 publishes, subscribes and unsubscribes made |
| ClientCounters.OnePing | src/MqttClient.cpp:463-487 | without PINGRESP or a new connection at most one PINGREQ is queued, however long the run |
| ClientCounters.PingWaitsIff | src/MqttClient.cpp:446-448 | in every run the client takes a ping for unanswered if and only if one was queued since the last PINGRESP or accepting CONNACK |
| ClientLoop.ParseSound | src/MqttClient.cpp:407-410 | every packet the parser reports has a usable id, so no handler is called with another |
| ClientLoop.SendLoopProgress | src/MqttClient.cpp:354-360 | a turn of the send loop that goes on has fewer packets from the cursor on or fewer bytes left |
| ClientLoop.Receiving | src/MqttClient.cpp:405-459 | the receive loop is a legal run that keeps the connection up or on its way down; a failed parser is not asked again |
| ClientLoop.Pass | src/MqttClient.cpp:217-316 | a pass is a legal run from every state, for every world, and leaves the parser fit for the next pass |
| ClientLoop.CallFits | src/MqttClient.cpp:108-203 | so does a user call between passes |
| MqttClient.MqttClient.constructor | src/MqttClient.cpp:41-55 | a new object is the initial state with the empty run |
| MqttClient.MqttClient.Loop | src/MqttClient.cpp:217-316 | one call extends the object's run by exactly the actions of a pass, and moves the parser as it says |
| MqttClient.MqttClient.Call | src/MqttClient.cpp:108-203 | a user call extends the run by its one action |
| MqttClient.MqttClient.Guarantees | src/MqttClient.cpp:217-749 | whatever was called on an object, its ledgers balance, its packets are in order, its QoS 2 decisions were right, and what it takes for written whole has been on the wire |
| MqttClient.MqttClient.PacketGuarantees | src/MqttClient.cpp:217-749 | whatever was called on an object, each of its queued packets says what it was made for, every QoS 1 message it received has its PUBACK, CONNECT is there and was sent at most once, and its packets carry the times of their writes |
| MqttClient.MqttClient.ConditionalGuarantees | src/MqttClient.cpp:217-749 | framing, gate, DUP flags and lifecycle of every object, on the conditions of their theorems about the run it made |
| MqttClient.MqttClient.CheckOutbox | src/MqttClient.cpp:354-360 | the while loop performs exactly the sends and advances of the specified loop and terminates |
| MqttClient.MqttClient.SendPacket | src/MqttClient.cpp:362-378 | what the transport took is on the wire, and nothing but bytes sent, the send time and the activity clock moves |
| MqttClient.MqttClient.AdvanceOutbox | src/MqttClient.cpp:380-398 | a packet written to its end leaves, or gets DUP and stays behind the cursor; DISCONNECT closes; the answer tells whether there is a next |
| MqttClient.MqttClient.CheckIncoming | src/MqttClient.cpp:400-461 | one read is handled packet by packet as specified, parser and client together |
| MqttClient.MqttClient.ParseAll | src/MqttClient.cpp:405-459 | the while loop over the parser ends, with the specified actions done |
| MqttClient.MqttClient.ParseOnce | src/MqttClient.cpp:408-458 | one turn: parse, handle, and go on or return |
| MqttClient.MqttClient.OnPacket | src/MqttClient.cpp:409-448 | the switch does one step of the machine and tells whether a callback runs |
| MqttClient.MqttClient.OnConnack | src/MqttClient.cpp:501-519 | connected, CONNECT out of the outbox, an old session dropped; or closing with the reason |
| MqttClient.MqttClient.OnPublish | src/MqttClient.cpp:521-560 | acknowledgement for the last fragment, and the callback unless the QoS 2 id is stored |
| MqttClient.MqttClient.OnPuback | src/MqttClient.cpp:562-589 | only the first PUBLISH can be acknowledged; it leaves the outbox |
| MqttClient.MqttClient.OnPubrec | src/MqttClient.cpp:591-615 | the first PUBLISH is replaced by a PUBREL at the back, or lost without memory |
| MqttClient.MqttClient.OnPubrel | src/MqttClient.cpp:617-641 | the first PUBREC is replaced by a PUBCOMP at the back |
| MqttClient.MqttClient.OnPubcomp | src/MqttClient.cpp:643-670 | only the first PUBREL can be completed; it leaves the outbox |
| MqttClient.MqttClient.OnSuback | src/MqttClient.cpp:672-693 | the first SUBSCRIBE with the id leaves the outbox |
| MqttClient.MqttClient.OnUnsuback | src/MqttClient.cpp:695-716 | the first packet with the id leaves the outbox, of whatever type |
| MqttClient.MqttClient.ClearQueue | src/MqttClient.cpp:718-749 | the iterator loop leaves exactly the filter of the outbox, the cursor on its survivor, and records what was lost |
| MqttClient.MqttClient.CheckPing | src/MqttClient.cpp:463-487 | gives up on a silent server, or queues at most one PINGREQ |
| MqttClient.MqttClient.CheckTimeout | src/MqttClient.cpp:489-499 | the cursor goes back to the front only between packets and when the first one was sent too long ago |
| MqttClient.MqttClient.Connect | src/MqttClient.cpp:108-138 | CONNECT in front and the first connecting state; without memory an error, and the cursor in front |
| MqttClient.MqttClient.Disconnect | src/MqttClient.cpp:140-150 | answers true exactly when the state changes |
| MqttClient.MqttClient.Publish | src/MqttClient.cpp:152-171 | the packet at the back of the queue and its id, 1 for QoS 0, 0 when nothing was queued |
| MqttClient.MqttClient.Subscribe | src/MqttClient.h:34-48 | the same when connected, 0 otherwise |
| MqttClient.MqttClient.Unsubscribe | src/MqttClient.h:50-64 | the same for UNSUBSCRIBE |
| MqttClient.MqttClient.AddPacket | src/MqttClient.h:151-161 | a packet that could not be built leaves the outbox as it was |
| MqttClient.MqttClient.AddPacketFront | src/MqttClient.h:163-173 | a CONNECT that could not be built leaves only the cursor moved to the front |
| MqttClient.MqttClient.GetNextPacketId | src/MqttClient.cpp:348-352 | the next 16-bit id, skipping 0 |
| MqttClient.MqttClient.TalkingPass | src/MqttClient.cpp:265-298 | send, receive, ping and timeout in this order, as specified |
| MqttClient.MqttClient.ConnectingPass | src/MqttClient.cpp:246-258 | send without advancing, receive, ping |
| MqttClient.MqttClient.TcpPass | src/MqttClient.cpp:236-245 | a connection that is up resets the parser and the clocks |
| MqttClient.MqttClient.GonePass | src/MqttClient.cpp:303-314 | the queue is cleared, the client is disconnected, then the callback runs |
| MqttClient.MqttClient.SayGoodbye | src/MqttClient.cpp:283-292 | DISCONNECT is queued once the outbox is empty, or onError is called |

## Left out

- CONNECT construction: the packet is a given byte string that starts with the CONNECT type.
- Transports, the client classes over them, the asynchronous variants, which set the state directly, and the setters of `MqttClientSetup`.
- The mutex and the FreeRTOS task: every step and every handler is atomic; two threads in user calls at once are not modelled.
- The fixed-size pool, and the destructors of client and outbox.
- `EMC_WAIT_FOR_CONNACK` = 0, `EMC_ALLOW_NOT_CONNECTED_PUBLISH` = 0 and the other build options: the defaults are modelled.
- A `millis()` wider than 32 bits and a `write` that answers a negative number.
- Packet.Packet.Publish: asks for a remaining length of at most 268435455, because beyond it the program predicts a size of the buffer that is too small.
- Packet.Packet.Subscribe: asks for the same of a topic list.
- Packet.Packet.Unsubscribe: asks for the same of a topic list.
- MqttClient.MqttClient.Publish: asks for a QoS of at most 2; for another QoS the program writes no PUBLISH byte, as `Packet.Packet.FillPublishHeader` states.
- PayloadWindow.CallbackPacket.constructor: the window area is taken to be as large as the window; the bound of the program's allocation is not claimed.
- Queued packets in the session are values; the `Packet` object, its buffer and its allocation are proved apart from it.
- Calls that `onError` makes while a user call is running are calls behind that user call; an onError within a pass has its own list.
- Packet ids in flight are not claimed to differ: the counter does not look at the outbox, see `ClientCounters.IdsRepeatIff`.
