# AP Bridge: a verified model of its protocol layers

The AP Bridge sits between a VManager, which it reaches over TCP with sequence-numbered
sessions that survive reconnection, and an AP mote on a serial line, which it reaches with
HDLC frames and a one-bit stop-and-wait protocol. This project models those layers and the
request dispatcher of the management console, and proves what they promise over every run.

Each stateful object of the program is a class whose methods are proved equal to functions
on a plain value (`View`, `Life`, `Sender`, `Receiver`, `Numbers`). The properties are
proved about those functions, closed into state machines where a peer or a line takes part.

| file | what it models |
|---|---|
| `Fcs.dfy` | the 16-bit frame check: table form, bit-by-bit form, burst detection |
| `Hdlc.dfy` | octet-stuffed framing: encoder, byte-at-a-time decoder |
| `ApcCache.dfy` | the ring of sent packets and the reconstruction of sequence numbers |
| `ApcSession.dfy` | the resumable session: client, connection, manager |
| `ClientLifecycle.dfy` | client states, reconnect timer, give-up deadline |
| `ApcClient.dfy` | the client object, tied to the two models above |
| `ApcMessage.dfy`, `ApcSerializer.dfy` | manager messages, their writer and reassembler |
| `ApcConnector.dfy` | output buffer ring and acknowledgement lag |
| `ApmSender.dfy`, `ApmReceiver.dfy` | the two halves of the serial transport with lossy lines |
| `ApmOvertaking.dfy` | when a front insertion can be mistaken for the command it overtook |
| `ApmProgress.dfy` | when the head of the queue can still be delivered |
| `ManagerFlow.dfy` | pause and resume as the manager hears them, across boots and sessions |
| `ApmTransport.dfy` | the transport object, tied to the two halves |
| `RpcDispatcher.dfy` | request dispatcher with several services |
| `NonceLog.dfy` | timestamp and nonce filter |
| `Common.dfy` | sizes, codes and the packet record |

Assumptions about the peers, which are not part of the program:

- The manager takes packets of a connection in order and reports the number of the last one
  it took (APInterface/APCProto.h:70-71). Losing a connection loses what it had not yet
  delivered.
- The access point answers every copy of a command it receives with that copy's command id
  and packet id. It repeats a notification under an unchanged packet id until it sees a
  positive acknowledgement, and only then changes the id. The two halves of the transport
  are not mirror images: the bridge as sender changes its id on a refusal as well
  (APInterface/APMTransport.cpp:258-260).
- Serial lines lose frames but do not reorder them. An epoch, from one `clearOutputQueue` to
  the next, starts with empty lines.
- A connector reports its start first, the manager's CONNECT at most once and its end last.
- A worker replies once per request.

Results that go against what one would expect:

- A high-priority insertion (`push_front`, APInterface/APMTransport.cpp:411) can overtake a
  pending command. `ApmOvertaking.OvertakenCommandLost` gives the runs in which the new
  command is removed by the other's reply and never sent; APInterface/APCoupler.cpp:640 inserts
  a SETPARAM that way. Comparing with the head of the queue is not enough, since several
  commands can overtake one another (`ApmOvertaking.SecondOvertakerLost`). The insertion is
  safe exactly if no frame transmitted since the last accepted reply carries the new command's
  id (`ApmOvertaking.FrontInsertSafeIffUnusedId`).
- `clearOutputQueue` forgets that the manager was told to pause (`ManagerFlow.ClearForgetsPause`).
  In the program this is the transport's disagreement only: the one caller is the handler of an
  access point's boot, after which the coupler ends the manager's session
  (APInterface/APCoupler.cpp:833-844), so it lasts until that session ends.
- A Pause or Resume is not cached while the client is offline (APInterface/APCClient.cpp:452-453).
  A Resume given then is lost and the manager comes back online told to pause
  (`ManagerFlow.ResumeMissedOffline`), and this stands until the next pause or the end of the
  session. Manager and transport agree exactly if no notice is given offline and no session
  begins during a pause (`ManagerFlow.AgreesUnlessNoticeMissed`). What the manager itself does
  with a pause when it reconnects is not part of the program.
- A reply from a worker whose first message was of unknown kind follows a null reference
  (`RpcDispatcher.UnknownThenReplyIsUndefined`, rpc/RpcDispatcherBase.cpp:332).
- A manager 2^32 or more packets behind can be taken for one inside the ring, and then loses
  packets that the ring still holds (`ApcSession.FarBehindLosesAll`, exact condition in
  `ApcSession.GapIsOverflow`).
- The acknowledged number sticks at 2^32 - 1 (`ApcConnector.AcknowledgementStalls`),
  although the sending direction handles the wrap-around (`ApcCache.NumberRecovered`).
- `getNextPacket` after a confirmation that empties the cache in mid-drain returns a slot
  that is not in the window (`ApcCache.ReadSoundUnlessEmptied`). The client never does this.
- A frame whose first delimiter arrives inside an escape is lost
  (`Hdlc.FrameLostOnlyInEscape`); section 4.2 of RFC 1662 would abort the frame instead.

Where code and comments disagree the model follows the code: the comment at
APInterface/HDLC.cpp:123-132 has a plain byte move the decoder to HDLC_DATA, the code leaves
the state as it is; the timer started after a refusal runs the ordinary retry handler
(APInterface/APMTransport.cpp:567-572), so such a retry counts against `maxRetries`.

## Model

| member | source | states |
|---|---|---|
| `Fcs.ComputeFcs16` | APInterface/HDLC.cpp:69-76 | the loop computes the closed register of the whole string |
| `Fcs.AddByteIsBitwise` | APInterface/HDLC.cpp:56-59 | one table step equals feeding the eight bits of the byte, lowest first, to the shift register of appendix C.2 of RFC 1662 |
| `Fcs.TableFormIsBitwise` | APInterface/HDLC.cpp:13-59 | for every register and byte string the table form equals the bit-by-bit reflected CRC; every one of the 256 table entries is covered |
| `Fcs.CheckBytesAccepted` | APInterface/HDLC.cpp:103-108 | for every payload, appending its check bytes low byte first drives the register to 0xF0B8 |
| `Fcs.ResidueTestIsExact` | APInterface/HDLC.cpp:166-171 | the residue test accepts a body if and only if its last two bytes are the check sequence of the rest |
| `Fcs.BurstDetected` | APInterface/HDLC.cpp:166-176 | two different bodies of equal length that differ only inside sixteen consecutive bits are never both accepted |
| `Fcs.AdjacentBytesDetected` | APInterface/HDLC.cpp:166-176 | the same for any change confined to two adjacent bytes |
| `Fcs.InitComplementsFirstBits` | APInterface/HDLC.cpp:52-55 | starting from 0xFFFF is starting from zero with the first sixteen line bits complemented |
| `Fcs.CheckOfDigits` | APInterface/HDLC.cpp:69-76 | the check of the digits 1 to 9 is the published value of this code, 0x906E |
| `Hdlc.AppendHdlc` | APInterface/HDLC.cpp:84-94 | appends the escaped form of the source |
| `Hdlc.EscapesOfRfc1662` | APInterface/HDLC.cpp:84-94 | exactly 0x7E and 0x7D are escaped, as in the examples of section 4.2 of RFC 1662 |
| `Hdlc.EncodeHdlc` | APInterface/HDLC.cpp:103-121 | delimiter, escaped payload and check sequence, delimiter |
| `Hdlc.PaddingOnlyAtEnds` | APInterface/HDLC.cpp:84-121 | 0x7E occurs in an encoding exactly at its two ends |
| `Hdlc.HdlcParser.constructor` | APInterface/HDLC.h:41-46 | a new decoder is reset |
| `Hdlc.HdlcParser.Append` | APInterface/HDLC.cpp:173-176 | stores the byte and advances the running register |
| `Hdlc.HdlcParser.Reset` | APInterface/HDLC.cpp:184-188 | empties the buffer and restarts the register, frames delivered stay |
| `Hdlc.HdlcParser.AddByte` | APInterface/HDLC.cpp:135-162 | the decoder step of the model, for every state and byte |
| `Hdlc.FedIsConsistent` | APInterface/HDLC.cpp:173-176 | after any bytes the running register equals the check of the bytes collected |
| `Hdlc.DeliversExactlyCheckedFrames` | APInterface/HDLC.cpp:135-158 | whatever the line has carried, a delimiter delivers what was collected if and only if no escape is open and it is a non-empty payload followed by its own check sequence |
| `Hdlc.FrameDecoded` | APInterface/HDLC.cpp:135-162 | outside an escape an encoded non-empty payload is delivered whatever was collected before, and the decoder is reset |
| `Hdlc.FrameResynchronises` | APInterface/HDLC.cpp:135-162 | from any decoder state whatever, one encoded frame leaves the decoder reset |
| `Hdlc.FrameLostOnlyInEscape` | APInterface/HDLC.cpp:137-141 | an encoded non-empty payload becomes the last delivered frame if and only if it does not start inside an escape |
| `Hdlc.StreamDecoded` | APInterface/HDLC.cpp:84-188 | a concatenation of encodings delivers exactly the non-empty payloads, in order |
| `Hdlc.StreamRoundTrip` | APInterface/HDLC.cpp:84-188 | for non-empty payloads decoding the stream gives back the list |
| `Hdlc.StreamAfterNoise` | APInterface/HDLC.cpp:84-188 | after one frame from any state all following frames are delivered exactly |
| `ApcCache.ReconstructExact` | APInterface/APCCache.cpp:42-51 | the number recovered from a low half is the only one with that low half among the last 2^32 sent; none is recovered exactly when the low half is ahead of everything sent |
| `ApcCache.NumberRecovered` | APInterface/APCCache.cpp:46-48 | any number less than 2^32 behind is recovered, wrap-around included |
| `ApcCache.FullNumber` | APInterface/APCCache.cpp:46-51 | the unsigned 64-bit computation yields that number, or one larger than the last sent through underflow |
| `ApcCache.PacketCache.constructor` | APInterface/APCCache.cpp:3-6 | an empty cache |
| `ApcCache.PacketCache.Clear` | APInterface/APCCache.cpp:10-13 | forgets log, window and cursor |
| `ApcCache.PacketCache.AddPacket` | APInterface/APCCache.cpp:15-40 | extends the log by exactly the type and payload given, under the next number, and the window by one up to the ring size; oversize is refused without effect; overflow is reported when the window was full |
| `ApcCache.PacketCache.ConfirmedSeqNum` | APInterface/APCCache.cpp:42-60 | moves the window base to the confirmed number or the oldest packet held; backwards only on initialization; error codes |
| `ApcCache.PacketCache.PrepForGet` | APInterface/APCCache.cpp:62-66 | puts the cursor at the window base |
| `ApcCache.PacketCache.GetNextPacket` | APInterface/APCCache.cpp:68-91 | returns the packet of the log at the cursor or at the window base, always indexing inside the ring |
| `ApcCache.DrainInOrder` | APInterface/APCCache.cpp:62-91 | any mixture of reads and adds after `prepForGet` reads increasing log positions and skips only packets that overflow has overwritten |
| `ApcCache.DrainReturnsWindow` | APInterface/APCCache.cpp:62-91 | without adds the reads return exactly the window |
| `ApcCache.BaseMovesForward` | APInterface/APCCache.cpp:15-60 | only a confirmation on reconnection moves the window base back, and then to exactly the reported place |
| `ApcCache.AddMovesBaseOnOverflow` | APInterface/APCCache.cpp:15-40 | an add moves the window base only by pushing the oldest packet out of a full ring |
| `ApcCache.AcknowledgementTrims` | APInterface/APCCache.cpp:42-60 | an acknowledgement of any number less than 2^32 behind leaves unconfirmed exactly what was so and was sent after it |
| `ApcCache.AheadIsIgnored` | APInterface/APCCache.cpp:49-51 | a number ahead of everything sent changes nothing |
| `ApcCache.ReadSoundUnlessEmptied` | APInterface/APCCache.cpp:72-90 | a read stays inside the log if and only if the window was not emptied in front of the cursor |
| `ApcCache.EmptiedInMidDrain` | APInterface/APCCache.cpp:56-90 | an input for which it was |
| `ApcSession.StepKeepsInv` | APInterface/APCClient.cpp:444-471 | every send, delivery, failure, resumption and acknowledgement keeps the session invariant |
| `ApcSession.ReceivedExactlySurvivors` | APInterface/APCClient.cpp:259-305 | over every run the manager has received, in order and once each, exactly the packets up to its number that no resumption passed over |
| `ApcSession.LogIsWhatWasSubmitted` | APInterface/APCClient.cpp:444-471 | over every run the numbered packets carry exactly the types and payloads that were handed in and fit, in order |
| `ApcSession.ReceivedIsPrefix` | APInterface/APCClient.cpp:259-305 | if the ring reaches back to the manager's number at each resumption, what it received is a gap-free, duplicate-free prefix of the messages handed in, numbered from one |
| `ApcSession.ResumeBase` | APInterface/APCCache.cpp:42-60 | a reconnecting manager's number is always understood as one between its own and the last sent, so the window can be re-opened |
| `ApcSession.ReplayCoversWindow` | APInterface/APCClient.cpp:294-304 | a replay accepted in full puts exactly the packets from where the manager is served, however far behind it is, on the new connection: those after its number, or after the ring's reach, if it is less than 2^32 behind; only then is the session online |
| `ApcSession.GapIsOverflow` | APInterface/APCCache.cpp:42-60 | in every state a resumption loses exactly what lies between the manager's number and where it is served from; that is exactly the oldest packets beyond the ring size if and only if the manager is less than 2^32 behind, or its distance modulo 2^32 is not less than the ring size; nothing is lost if the ring reaches back |
| `ApcSession.FarBehindLosesAll` | APInterface/APCCache.cpp:46-51 | the runs that fail: when a multiple of 2^32 packets has been sent and none heard, a resumption takes the manager as caught up and serves it nothing |
| `ApcSession.CaughtUp` | APInterface/APCClient.cpp:294-305 | once a working connection has delivered all it carries, the manager has every packet ever sent that was not passed over, and every message handed in if none was |
| `ApcSession.ManagerCanCatchUp` | APInterface/APCClient.cpp:294-305 | from every state a new connection, a full replay and its delivery bring the manager everything that was not passed over |
| `ClientLifecycle.StepKeepsInv` | APInterface/APCClient.cpp:259-440 | every notification and timer event keeps the lifecycle invariant |
| `ClientLifecycle.NoticesFollowLifecycle` | APInterface/APCClient.cpp:259-440 | notices form a prefix of (connected (offline online)* offline?)? disconnected, complete once disconnected; while offline a timer is armed or an attempt is under way |
| `ClientLifecycle.DeadlineStands` | APInterface/APCClient.cpp:338-440 | attempts that the manager does not answer never move the give-up deadline |
| `ClientLifecycle.TimerEndsSessionAtDeadline` | APInterface/APCClient.cpp:379-440 | the timer ends the session if and only if the deadline has passed, and otherwise something keeps trying |
| `ClientLifecycle.TimerTriesAgain` | APInterface/APCClient.cpp:379-426 | before the deadline the timer starts a connection if and only if the port is reached, and is armed again if and only if it is not |
| `ClientLifecycle.CanComeBack` | APInterface/APCClient.cpp:259-426 | from every offline state with the deadline ahead the timer, a start and the manager's answer lead online with one more notice |
| `ClientLifecycle.ConnectDecides` | APInterface/APCClient.cpp:259-324 | online exactly for the right version and an id that is the first or the same, and then only after a full replay |
| `ClientLifecycle.StoppedDecides` | APInterface/APCClient.cpp:327-375 | when the session ends, when it goes offline, and the deadline set then |
| `ClientLifecycle.GivesUpExactlyAtTimeout` | APInterface/APCClient.cpp:327-440 | whatever unanswered attempts follow, a timer ends a session that went offline at t0 if and only if it fires at t0 + timeout or later |
| `ClientLifecycle.DisconnectIsFinal` | APInterface/APCClient.cpp:327-440 | nothing happens after the session is gone |
| `ApcClient.Connection.SendData` | APInterface/APCConnector.cpp:285-338 | outcome of a write as the client sees it |
| `ApcClient.Client.constructor` | APInterface/APCClient.cpp:85-104 | a client whose `start` has opened its first connection |
| `ApcClient.Client.SendData` | APInterface/APCClient.cpp:444-471 | refused unless online; otherwise exactly the given type and payload is cached first, written second, and a failed write stops the connector |
| `ApcClient.Client.MessageReceived` | APInterface/APCClient.cpp:210-214 | the acknowledgement trims the window and nothing else |
| `ApcClient.Client.Started` | APInterface/APCClient.cpp:252-256 | the connector becomes known |
| `ApcClient.Client.ConnectReceived` | APInterface/APCClient.cpp:259-324 | at once the lifecycle step and, for a known session, the replay step; a refused one stops the connector |
| `ApcClient.Client.Resume` | APInterface/APCClient.cpp:283-305 | online again exactly if the connection takes the whole window |
| `ApcClient.Client.Reopen` | APInterface/APCClient.cpp:297-298 | re-opens the window at the manager's number and goes to its start |
| `ApcClient.Client.Replay` | APInterface/APCClient.cpp:299-301 | the loop writes a prefix of the window, all of it unless the connection refuses the next packet; the result says which |
| `ApcClient.Client.ReplayNext` | APInterface/APCClient.cpp:299-300 | one turn reads the next packet of the window and writes it, or finds the window done |
| `ApcClient.Client.Disconnected` | APInterface/APCClient.cpp:327-375 | the lifecycle step for a stopped connector |
| `ApcClient.Client.ReconnectTimer` | APInterface/APCClient.cpp:379-440 | the lifecycle step for the timer: before the deadline a connection starts or the timer is armed, after it a connector still there is stopped |
| `ApcMessage.FieldsInNetworkOrder` | APInterface/APCSerializer.cpp:102-157 | every multi-byte field that the host holds little-endian travels big-endian with the same value |
| `ApcMessage.OtherBytesStay` | APInterface/APCSerializer.cpp:102-157 | a byte of no multi-byte field stays where it is |
| `ApcMessage.WireLayout` | APInterface/APCSerializer.cpp:33-47 | cookie, flags, both numbers, kind and length stand at their places in network order, followed by the converted payload |
| `ApcMessage.ConvertedTwice` | APInterface/APCSerializer.cpp:102-157 | converting to network order and back is the identity |
| `ApcMessage.WireRoundTrip` | APInterface/APCSerializer.cpp:33-47 | decoding an encoded message gives type, flags, both numbers and host-order payload back |
| `ApcSerializer.Convert` | APInterface/APCSerializer.cpp:102-157 | in place, exactly the payload changes byte order; a payload shorter than its structure is refused |
| `ApcSerializer.PrepMsg` | APInterface/APCSerializer.cpp:20-49 | writes the wire form; refused exactly if it does not fit or is shorter than its structure |
| `ApcSerializer.Serializer.constructor` | APInterface/APCSerializer.cpp:9-15 | an idle reassembler |
| `ApcSerializer.Serializer.FillInpBuf` | APInterface/APCSerializer.cpp:51-59 | stores as much as is expected, never beyond the buffer |
| `ApcSerializer.Serializer.FinishMessage` | APInterface/APCSerializer.cpp:80-88 | converts and hands up the complete message and starts the next |
| `ApcSerializer.Serializer.DataReceived` | APInterface/APCSerializer.cpp:61-91 | a chunk has the effect of its bytes one after the other; terminates; first error ends it |
| `ApcSerializer.ChunksDoNotMatter` | APInterface/APCSerializer.cpp:61-91 | any way of cutting the stream gives the same result |
| `ApcSerializer.MessageDelivered` | APInterface/APCSerializer.cpp:61-91 | one encoded message is delivered as it was given to the writer |
| `ApcSerializer.ChunkedRoundTrip` | APInterface/APCSerializer.cpp:20-91 | for every list of messages and every cutting into chunks exactly those messages are delivered |
| `ApcSerializer.DeliveredIffShort` | APInterface/APCSerializer.cpp:33-47 | of the messages the writer accepts, exactly those with less than 64K of payload, as all of the program's are, arrive as they were given |
| `ApcSerializer.ErrorsAreFinal` | APInterface/APCSerializer.cpp:66-90 | nothing is taken after the first error |
| `ApcSerializer.HeaderDecides` | APInterface/APCSerializer.cpp:66-79 | a wrong cookie is a protocol error, a message too long for the buffer is refused, any other header is kept |
| `ApcSerializer.ShortPayloadRefused` | APInterface/APCSerializer.cpp:80-88 | a complete message shorter than its structure is refused |
| `ApcConnector.RingAlwaysInterval` | APInterface/APCConnector.cpp:468-513 | over every run the buffers in flight are the cyclic interval of length n - free before the current index |
| `ApcConnector.HandedOutIsFree` | APInterface/APCConnector.cpp:492-497 | a buffer handed out is not in flight |
| `ApcConnector.ReturnUndoesGet` | APInterface/APCConnector.cpp:508-513 | giving back undoes the latest acquisition |
| `ApcConnector.DrainWaitsForWrites` | APInterface/APCConnector.cpp:234-236 | obtaining all buffers implies that every write outstanding at the start has completed |
| `ApcConnector.CountersGrow` | APInterface/APCConnector.cpp:285-338 | reported never exceeds received and both only grow |
| `ApcConnector.AcknowledgementStalls` | APInterface/APCConnector.cpp:573-577 | wherever a connection starts, the acknowledged number grows to 2^32 - 1 and stays; it is the last message's number if and only if the low halves have not wrapped around, or that message carries 2^32 - 1 |
| `ApcConnector.Connector.constructor` | APInterface/APCConnector.cpp:100-122 | all buffers free, nothing received |
| `ApcConnector.Connector.GetFreeBuf` | APInterface/APCConnector.cpp:477-498 | hands out the current buffer, which is not in flight, or nothing |
| `ApcConnector.Connector.FreeBuf` | APInterface/APCConnector.cpp:501-505 | the oldest write's buffer becomes free |
| `ApcConnector.Connector.ReturnBuf` | APInterface/APCConnector.cpp:508-513 | the latest buffer becomes free |
| `ApcConnector.Connector.Drain` | APInterface/APCConnector.cpp:234-236 | buffers are obtained exactly as long as not all are out after a wait; all obtained means all outstanding writes completed |
| `ApcConnector.Connector.Connect` | APInterface/APCConnector.cpp:194-199 | both numbers start at the peer's |
| `ApcConnector.Connector.SendData` | APInterface/APCConnector.cpp:285-338 | result codes in order; a successful send reports what was received; a serialization error gives the buffer back |
| `ApcConnector.Connector.MessageReceived` | APInterface/APCConnector.cpp:516-579 | before CONNECT only three kinds are taken; the received number only grows |
| `ApcConnector.VerdictOkIff` | APInterface/APCConnector.cpp:516-579 | there is no complaint about the messages of a read exactly if none is a DISCONNECT and only keep-alives precede the first CONNECT of an unconnected peer |
| `ApcConnector.Connector.HandleRead` | APInterface/APCConnector.cpp:402-445 | the exact result of a read; with success the received number is the largest read, reported if and only if the peer lagged beyond the limit, and the lag is within it, however many messages the read held; without, the connector has stopped |
| `ApmSender.StepKeepsInv` | APInterface/APMTransport.cpp:228-298 | every action keeps order on the lines, retry, queue-order and flow-control invariants |
| `ApmSender.RepliesAnswerHead` | APInterface/APMTransport.cpp:181-215 | over every run with safe insertions an accepted reply answers the current attempt of the queue head, and a command is removed only by a reply to a copy of itself |
| `ApmSender.OneInFlightInOrder` | APInterface/APMTransport.cpp:582-660 | without overtaking at most one command is in flight under the current id, and first transmissions follow queue order |
| `ApmOvertaking.SafeInsertIsExact` | APInterface/APMTransport.cpp:410-413 | a front insertion can be mistaken if and only if a copy under the current id with the same command id is on a line |
| `ApmOvertaking.FrontInsertSafeIffUnusedId` | APInterface/APMTransport.cpp:410-413 | in every safe state, whatever has overtaken before: while a command is pending, a front insertion is never mistaken, whatever the lines carry, if and only if no frame transmitted since the last accepted reply carries the new command's id |
| `ApmOvertaking.StepKeepsFrames` | APInterface/APMTransport.cpp:582-660 | every action keeps current copies among the frames transmitted in this attempt, each of the head or of another id |
| `ApmOvertaking.RepliesAnswerHeadIfIdsUnused` | APInterface/APMTransport.cpp:181-215 | over every run in which front insertions take ids that no such frame carries, replies are never mistaken and a command is removed only by a reply to a copy of itself |
| `ApmOvertaking.OvertakenCommandLost` | APInterface/APMTransport.cpp:410-413 | the runs in which a command is removed by the reply to one with the same id, unsent |
| `ApmOvertaking.SecondOvertakerLost` | APInterface/APMTransport.cpp:410-413 | the same although each front insertion differs in id from the head at the time |
| `ApmSender.RetryDiscipline` | APInterface/APMTransport.cpp:499-572 | over every run pending implies queued, and timer armed or retries used up; a timeout with retries left puts exactly one more copy under the current id on the line; at most 1 + maxRetries transmissions between accepted replies |
| `ApmSender.FlowControl` | APInterface/APMTransport.cpp:414-485 | over every run Pause and Resume alternate within an epoch; a queued command or a paused manager has the queue check scheduled; while the manager is not paused a non-empty queue stays below the greater of the two marks; a removal resumes a paused manager exactly when it leaves fewer than the low mark |
| `ApmSender.InsertDecides` | APInterface/APMTransport.cpp:405-430 | an insertion pauses the manager, with one notice, if and only if it was not paused and the queue then has the high mark or more; where the command goes |
| `ApmSender.QueueCheckDecides` | APInterface/APMTransport.cpp:458-485 | paused afterwards if and only if something is queued and it was paused or the oldest is too old; the notice and the timer |
| `ApmSender.ReplyDecides` | APInterface/APMTransport.cpp:228-332 | what an accepted reply does to queue, packet id, retries, timer and pause, for a refusal and otherwise |
| `ApmSender.OthersTellNothing` | APInterface/APMTransport.cpp:582-660 | sending, retrying and the lines change neither queue nor pause nor notices |
| `ApmProgress.HeadRemovableIff` | APInterface/APMTransport.cpp:510-572 | in every safe state some run without insertions or clears removes the head of the queue by its own reply if and only if it is not pending, has retries left, or a copy of it or a reply that helps is under way |
| `ApmProgress.SenderCanProgress` | APInterface/APMTransport.cpp:582-654 | after every run whatsoever a queued command that is not pending or has retries left can be removed by its own reply |
| `ManagerFlow.AgreesUnlessClearedWhilePaused` | APInterface/APMTransport.cpp:716-727 | for the transport alone: what it last said and what it assumes agree throughout a run if and only if the queue is never cleared while paused |
| `ManagerFlow.ClearForgetsPause` | APInterface/APMTransport.cpp:716-727 | a run of the transport in which they come to differ |
| `ManagerFlow.AgreesUnlessNoticeMissed` | APInterface/APMTransport.cpp:774-788 | with boots, sessions and offline times: in sessions that no boot is about to end, manager and transport agree in every state of a run if and only if no notice is given while the client is offline and no session begins during a pause |
| `ManagerFlow.ToldManagerIsWatched` | APInterface/APMTransport.cpp:458-485 | over every run that misses no notice, a manager told to pause in such a session is known to be paused and has the queue check scheduled |
| `ManagerFlow.ResumeMissedOffline` | APInterface/APCClient.cpp:185-197 | the run in which a Resume given offline is lost and the manager is online again, told to pause, with nothing queued |
| `ManagerFlow.MissedResumeStands` | APInterface/APMTransport.cpp:300-305 | what the manager heard last stands until the transport pauses it again or the session ends |
| `ApmReceiver.StepKeepsInv` | APInterface/APMTransport.cpp:334-381 | every action keeps the receiver level with the access point or one item ahead |
| `ApmReceiver.ExactlyOnceInOrder` | APInterface/APMTransport.cpp:334-381 | over every run the notifications processed are a prefix of the access point's, each once and in order, data refused while paused included |
| `ApmReceiver.NextIsProcessed` | APInterface/APMTransport.cpp:343-361 | the next notification is processed on arrival unless refused or failed, and then nothing but copies of it can follow |
| `ApmReceiver.RefusedIsProcessedLater` | APInterface/APMTransport.cpp:348-360 | after any run that follows a refusal or failure, that notification has been processed, or whatever arrives next is a copy of it and is processed as soon as it is not refused |
| `ApmReceiver.SyncIsTaken` | APInterface/APMTransport.cpp:343-361 | a synchronizing notification is processed whatever packet id was remembered, unless refused or failed |
| `ApmReceiver.SyncResynchronises` | APInterface/APMTransport.cpp:343-361 | after one, its repetition is not new and the next packet id is |
| `ApmTransport.Transport.constructor` | APInterface/APMTransport.cpp:92-122 | an idle transport |
| `ApmTransport.Transport.Send` | APInterface/APMTransport.cpp:623-654 | transmits the head if that is due |
| `ApmTransport.Transport.InsertMsg` | APInterface/APMTransport.cpp:383-432 | result codes; where the command goes, what is sent, when the manager is paused and told so, and the queue check; the insertion and send of the model |
| `ApmTransport.Transport.HandleResponse` | APInterface/APMTransport.cpp:190-332 | a matching response is the model's response step and send; any other has no effect |
| `ApmTransport.Transport.HandleRetryTimeout` | APInterface/APMTransport.cpp:512-563 | the model's timeout step |
| `ApmTransport.Transport.HandleQueueCheckTimeout` | APInterface/APMTransport.cpp:458-485 | the model's queue check |
| `ApmTransport.Transport.ClearOutputQueue` | APInterface/APMTransport.cpp:716-727 | both halves start a new epoch |
| `ApmTransport.Transport.HandleNotification` | APInterface/APMTransport.cpp:334-381 | the receiver step and its acknowledgement code |
| `RpcDispatcher.StepKeepsInv` | rpc/RpcDispatcherBase.cpp:252-408 | every client or worker message keeps the dispatcher invariant |
| `RpcDispatcher.DispatcherCorrect` | rpc/RpcDispatcherBase.cpp:187-218 | after every message no service has both a waiting worker and a queued request; both waiting lists agree, without duplicates, and a registered worker is waiting or owes a reply, never both; requests leave in arrival order, each to one worker; worker counts are right |
| `RpcDispatcher.ArrivedIsWhatCame` | rpc/RpcDispatcherBase.cpp:465-487 | over every run a known service has been entered exactly the requests that clients sent for it, in order, each queued or handed out |
| `RpcDispatcher.DispatchIsPairing` | rpc/RpcDispatcherBase.cpp:206-217 | the dispatch loop pairs the first requests with the first waiting workers, as many as there are both, who then owe a reply, and touches nothing else |
| `RpcDispatcher.WorkerJoinsAtEnd` | rpc/RpcDispatcherBase.cpp:400-408 | a worker that replies while nothing is queued waits behind all others, on both lists, and owes nothing |
| `RpcDispatcher.ServiceCreated` | rpc/RpcDispatcherBase.cpp:314-322 | a service comes into being exactly when a new worker registers for it |
| `RpcDispatcher.WorkerStep` | rpc/RpcDispatcherBase.cpp:295-368 | where a worker belongs after each message, its own or another's |
| `RpcDispatcher.UnaskedReplyDuplicates` | rpc/RpcDispatcherBase.cpp:324-408 | the whole reply step keeps the dispatcher correct if and only if the registered worker owes a reply; otherwise the worker stays on the waiting list twice |
| `RpcDispatcher.ServicelessIff` | rpc/RpcDispatcherBase.cpp:304-368 | a known worker is without a service exactly by a first message of unknown kind, until it registers or disconnects |
| `RpcDispatcher.UnknownThenReplyIsUndefined` | rpc/RpcDispatcherBase.cpp:325-332 | the input for which a reply finds no service |
| `RpcDispatcher.DefinedWithoutUnknown` | rpc/RpcDispatcherBase.cpp:325-332 | after every run in which a worker sends no unknown command its replies are defined |
| `RpcDispatcher.Erase` | rpc/RpcDispatcherBase.cpp:284-286 | the erase loop removes every occurrence of a worker |
| `RpcDispatcher.Dispatcher.constructor` | rpc/RpcDispatcherBase.cpp:102-110 | nothing known |
| `RpcDispatcher.Dispatcher.ServiceDispatch` | rpc/RpcDispatcherBase.cpp:206-217 | the dispatch loop hands out requests while there are both |
| `RpcDispatcher.Dispatcher.ClientProcess` | rpc/RpcDispatcherBase.cpp:465-487 | a request for a known service is entered there and dispatched; one for an unknown service changes nothing and is reported |
| `RpcDispatcher.Dispatcher.WorkerWaiting` | rpc/RpcDispatcherBase.cpp:400-408 | joins both lists and dispatches |
| `RpcDispatcher.Dispatcher.WorkerDelete` | rpc/RpcDispatcherBase.cpp:270-290 | removes the worker everywhere |
| `RpcDispatcher.Dispatcher.WorkerRegister` | rpc/RpcDispatcherBase.cpp:314-322 | attaches a new worker to its service and dispatches |
| `RpcDispatcher.Dispatcher.WorkerProcess` | rpc/RpcDispatcherBase.cpp:295-368 | the effect of each command, for known and unknown workers |
| `NonceLog.PurgedIsSuffix` | rpc/RpcProtocol.cpp:32-56 | the purge drops exactly the entries before the first one inside the window |
| `NonceLog.NeverAcceptedTwice` | rpc/RpcProtocol.cpp:61-90 | under a clock that never goes back no pair is accepted twice in any run |
| `NonceLog.AcceptedIffFresh` | rpc/RpcProtocol.cpp:61-90 | after every run a call is accepted if and only if its timestamp is inside the window and its pair was never accepted before |
| `NonceLog.PurgeBoundsAge` | rpc/RpcProtocol.cpp:32-56 | an entry that a purge retains was accepted less than twice the window ago |
| `NonceLog.Log.constructor` | rpc/public/RpcProtocol.h:87-87 | an empty log |
| `NonceLog.Log.Purge` | rpc/RpcProtocol.cpp:32-56 | the scan and erase compute the purged log |
| `NonceLog.Log.Validate` | rpc/RpcProtocol.cpp:61-90 | accepts exactly a fresh pair inside the window and appends it |

## Left out

- Sockets, serial port, timers, threads, locks and condition variables: they appear as
  atomic steps, armed flags, lossy lines and parameters.
- Wall-clock arithmetic, statistics, logging and tracing.
- ApcCache.PacketCache.AddPacket: asks for fewer than 2^64 packets since the last clear; the
  64-bit counter's own wrap-around is not modelled.
- ApcClient.Client.ConnectReceived: asks for at most one CONNECT per connection and one that
  has carried no packets yet.
- ApcClient.Connection.SendData: a summary of the connector; the reasons of a failed write are
  one number, how many writes still succeed.
- ApmSender.StepKeepsInv: a clear also empties the lines; frames of an earlier epoch that are
  still on the line are outside the one-bit protocol's guarantee.
- RpcDispatcher.Dispatcher.WorkerProcess: asks that a known worker that replies has a service;
  otherwise the program's behaviour is undefined (`RpcDispatcher.ServicelessIff` says when).
- ManagerFlow.AgreesUnlessNoticeMissed: a notice given online is taken as heard; it is cached,
  and what a resumption can lose of the cache is the subject of `ApcSession.GapIsOverflow`.
- ApmTransport.Transport.HandleResponse: response callbacks run after the step instead of
  inside it; the model's separate insertion and send actions cover their order.
- NonceLog.Log.Validate: timestamps are unbounded integers; overflow of the 64-bit difference
  is not modelled.
- Removal of expired workers, which only a build with `DELETE_EXPIRED_WORKERS` does
  (rpc/RpcDispatcherBase.cpp:132-153).
- Recovery of traffic from the manager across reconnections, which depends on the manager.
- The buffer that a failing asynchronous write leaves acquired stays in flight in the model;
  the connector is stopped right after it.
- `stop` and `close` of the client, join and reset handling of the access point, ping and
  packet-rate timers.
- `APCoupler`, `GPS`, `APMSerializer`, `apc_main`, `SerialPort`, `APCCntrlNotifThread`,
  `StatDelaysCalc`, `common`, `FmtOutput`: orchestration, field decoding and formatting that
  would only add easy members.
- The remote-call workers and the wrappers over messaging libraries, the watchdog, logging and
  all Python: thin layers or user interface.
