# Verified models of the obs-rtspserver core

The plugin takes encoded access units, splits them into NAL units, packs those
into RTP packets, and fans each packet out to many RTSP clients over UDP,
multicast or interleaved TCP, all on one event loop. This project models the
parts of that path in which state, bytes and interleavings meet, and proves
properties of the models for all inputs, all runs and all interleavings.

The models keep the form of the program: what the program updates in place is a
class or an array that methods update in place, each proved against a function
of the old state; what a protocol does step by step is a state machine, with
lemmas over whole runs.

| files | part of the program |
|---|---|
| `StartCode.dfy`, `AnnexB.dfy` | start-code scanner, Annex B splitter, two-pass NAL list |
| `Payload.dfy`, `Depacketizer.dfy` | payload formats of RFC 6184 and RFC 7798; a receiver written from the standards |
| `RtpPacket.dfy`, `H264Source.dfy`, `H265Source.dfy` | the packetizers, which overwrite one packet buffer between callbacks |
| `RtpState.dfy`, `RtpConnection.dfy`, `FanOut.dfy` | client state machine, the sender on a shared buffer, many clients on one scheduler |
| `SharedBuffer.dfy`, `ClientLifetime.dfy` | one packet buffer under clients on any number of schedulers; queued jobs against the end of the objects they point to |
| `RtspMessage.dfy` | the RTSP messages the program prints, and a receiver that cuts a connection into frames and messages |
| `BufferWriter.dfy`, `TcpConnection.dfy`, `TcpStream.dfy` | outgoing byte stream, write interest, interleaved frames and RTSP replies over it |
| `Stream.dfy`, `EndToEnd.dfy` | from the access unit to the bytes a client's peer receives, and back |
| `RingBuffer.dfy`, `TriggerQueue.dfy` | the ring as one thread sees it, and with producers and consumer interleaved at every field access |
| `TimerQueue.dfy`, `SelectScheduler.dfy`, `MemoryPool.dfy` | two-index timer queue, cached descriptor sets, free-list allocator |
| `Md5Block.dfy`, `Md5.dfy`, `Md5Vectors.dfy` | MD5 block function and the streaming digest, and both against the vectors of RFC 1321 |
| `FrameQueue.dfy`, `OutputLifecycle.dfy`, `Timestamp.dfy` | drop-oldest queue, start and stop of the output, timestamp rounding |
| `Bytes.dfy`, `Wrappers.dfy` | bytes, 16- and 32-bit fields, Option |

A pointer range of the program is a sequence or an array here, so a read or write
outside it would be an index error, which the verifier rules out. Sockets,
clocks, callbacks and locks that may be busy are parameters: `answers` is what
the network does with each `send`, `accept` what the send callback says,
`answer` what a timer callback says, `taken` whether the transport takes a packet
(`sendto` succeeds, or the TCP connection is open and its queue has room), `bound`
whether a port could be bound, `locked` whether `try_lock` succeeded,
`now` the time.

## Where the code falls short of what one would expect

Each of these has its exact condition in the first member named and, except for the
last, an input or a run that shows it in those named after it.

- A start code that ends the buffer is not seen, and a unit that ends in 00 loses
  that byte to a three-byte code. Join and split are inverse exactly for the frames
  `AnnexB.Splittable` describes (`AnnexB.JoinThenSplit`, `AnnexB.JoinsThatDoNotSplit`).
- `AddTriggerEvent` looks at the size before it takes the lock and ignores the
  answer of the push. Concurrent callers can get `true` for a callback that is
  dropped; the loss happens exactly when the ring filled up in between
  (`TriggerQueue.LossExactly`, `TriggerQueue.ConcurrentCallersLose`).
- `AddTimer` with 0 ms, or with an id that came round and is in use, breaks the
  agreement of the two timer indices (`TimerQueue.TimerQueue.AddTimer`,
  `TimerQueue.ZeroIntervalDisagrees`, `TimerQueue.ReusedIdDisagrees`).
- A change of the read interest of a registered channel leaves the cached read set
  stale (`SelectScheduler.SelectScheduler.SetInterest`,
  `SelectScheduler.ReadInterestGoesStale`).
- The marker stands at the end of every unit or group and not only at the end of the
  access unit, as section 5.1 of RFC 6184 and section 4.1 of RFC 7798 ask
  (`Payload.MarkerExactly`, `Payload.LargeUnitsMarkTwice`).
- Freeing a block twice turns the free list into a ring
  (`MemoryPool.MemoryPool.Free`, `MemoryPool.FreedTwice`).
- A packet that a closed or full TCP connection refuses uses up a sequence number:
  the receiver sees a gap exactly there (`RtpState.UsedForNothing`,
  `RtpState.RefusedPacketLeavesGap`).
- Clients of one packet buffer, with different sources, are safe from sending each
  other's headers if and only if they share one scheduler (`SharedBuffer.SafeExactly`,
  `SharedBuffer.TwoSchedulersMix`). The plugin's event loop has one. A loop of n
  threads hands its clients schedulers 1 to n - 1 (EventLoop.cpp:47-57), so two client
  schedulers take at least three threads.
- A job of `Disconnect`, or a packet of a multicast connection, keeps a bare pointer. It
  meets its object in every continuation if and only if a client that holds the object
  outlasts the jobs before it (`ClientLifetime.SafeExactly`; what a caller can look at
  beforehand is `ClientLifetime.HeldWhenQueued`; `ClientLifetime.CloseBehindRemoval`,
  `ClientLifetime.GroupGoesWithSession`). For packets of a client of its own it always
  does (`ClientLifetime.PacketsAreHeld`).
- Data queued while the write lock is busy waits without write interest
  (`TcpConnection.TcpConnection.SendCopy`, `TcpConnection.BusyLockLeavesNoInterest`).
- The comment at rtsp_output.cpp:459 promises that roll-over is right because a
  signed 64-bit value is used; the code uses an unsigned one, and timestamps of
  times before zero are wrong (`Timestamp.RoundsExactlyFrom`,
  `Timestamp.NegativeTimesAreOff`). The model follows the code.
- A stop request while the output is idle makes it unstartable, and nothing else does
  (`OutputLifecycle.StuckExactly`, `OutputLifecycle.IdleStopBlocksStart`).
- The drop counter of the frame queue is never initialised; it counts from
  whatever value it has (`FrameQueue.ThreadsafeQueue.constructor`).

## Model

| member | source | states |
|---|---|---|
| StartCode.NaiveSearchIsLeast | rtsp-server/xop/Nal.cpp:53-89 | the reference search returns the least position of 00 00 01 that a byte follows, and the end exactly when there is none |
| StartCode.NaiveSearchUnique | rtsp-server/xop/Nal.cpp:53-89 | any position that fits the description of the least code is the search result |
| StartCode.HasZeroByteExact | rtsp-server/xop/Nal.cpp:64-66 | the bit trick on a 32-bit word fires if and only if one of its four bytes is zero, so a skipped word holds no zero byte |
| StartCode.FFmpegFindStartcodeInternal | rtsp-server/xop/Nal.cpp:53-89 | the word-at-a-time scan equals the byte-by-byte search for every buffer and every alignment, and reads nothing outside the buffer |
| StartCode.FindStartCode | rtsp-server/xop/Nal.cpp:42-48 | a found code takes the zero byte in front of it along, unless the code is at the very start |
| AnnexB.SkipPrefix | rtsp-server/xop/Nal.cpp:15-16 | in front of any bytes, the skipping loop passes exactly one three- or four-byte start code |
| AnnexB.CutAtNextCode | rtsp-server/xop/Nal.cpp:21-27 | the next unit is cut exactly at its own end if and only if a byte follows the next code, the unit holds no 00 00 01, and it does not end in 00 before a three-byte code |
| AnnexB.JoinThenSplit | rtsp-server/xop/Nal.cpp:6-30 | joining units with any mix of start codes and splitting gives the same units if and only if the frames are splittable |
| AnnexB.JoinsThatDoNotSplit | rtsp-server/xop/Nal.cpp:15-27 | two joins that do not split back: a unit ending in 00 before a three-byte code, and a code that ends the buffer |
| AnnexB.SplitThenJoin | rtsp-server/xop/Nal.cpp:6-30 | on arbitrary bytes, the units the splitter reports with one start code in front of each are the buffer from its first code on; nothing is lost |
| AnnexB.RoundAt | rtsp-server/xop/Nal.cpp:14-28 | one round of the loop, in buffer positions, reports the next unit and leaves the cursor at a code or at the end |
| AnnexB.NalUnitWhile | rtsp-server/xop/Nal.cpp:6-30 | the callback gets the units of the specification, in order, until it refuses one; between neighbours lies exactly one start code, so units are disjoint and ascending; the loop terminates on any bytes |
| AnnexB.GetNalUnitCount | rtsp-server/xop/Nal.cpp:32-40 | the count pass counts the units of the specification |
| AnnexB.BuildList | rtsp-server/xop/Nal.h:56-72 | the fill pass stores as many units as were counted, each in its slot, although it stores before it compares its iterator with the end |
| Payload.GroupIsMaximal | rtsp-server/xop/H264Source.cpp:116-125 | a greedy group of several units fits 1420 bytes, and it ends at the end of the list or where the next unit would not fit |
| Payload.GroupIsUnique | rtsp-server/xop/H265Source.cpp:147-156 | maximality determines the group |
| Payload.MaxRefIdcIsMax | rtsp-server/xop/H264Source.cpp:148-156 | the NRI of a group is the largest of its members' and one of them has it |
| Payload.MinIdsAreMin | rtsp-server/xop/H265Source.cpp:183-196 | layer id and temporal id of a group are the lowest of its members', each reached by a member |
| Payload.GroupKindIsSound | rtsp-server/xop/H264Source.cpp:149-161 | a group is announced as a key frame exactly when a member is one, and as no frame exactly when no member is one |
| Payload.FragmentsAreFull | rtsp-server/xop/H264Source.cpp:224-278 | all fragments but the last are full, the last is not empty, and only the last is marked last |
| Payload.EntriesLength | rtsp-server/xop/H264Source.cpp:144-171 | the size counted for a group is the number of bytes its entries take |
| Payload.PacketsAreBounded | rtsp-server/xop/H265Source.cpp:146-325 | no payload is longer than 1420 bytes, whatever the units are |
| Payload.MarkerExactly | rtsp-server/xop/H264Source.cpp:116-278 | the marker stands at the end of the access unit and nowhere else if and only if there is one unit or all fit one aggregation packet |
| Payload.LargeUnitsMarkTwice | rtsp-server/xop/H264Source.cpp:191-202 | two units that do not fit one packet carry the marker both |
| RtpPacket.CopyData | rtsp-server/xop/NalUnit.cpp:25-33 | copies the clamped range of the unit and leaves every other byte of the buffer as it was |
| RtpPacket.FindGroup | rtsp-server/xop/H264Source.cpp:116-124 | the loop that runs one unit too far and takes it back finds the maximal group and its size |
| RtpPacket.SendSingle | rtsp-server/xop/H264Source.cpp:191-202 | a unit that fits goes out unchanged in one packet |
| RtpPacket.CopyBody | rtsp-server/xop/H265NalUnit.cpp:74-78 | the piece of the body after the bytes sent stands behind the fragment header, which is untouched |
| RtpPacket.SendPiece | rtsp-server/xop/H265Source.cpp:279-289 | what the callback sees is the next fragment of the unit, and exactly the rest of the unit is left |
| RtpPacket.SendMiddle | rtsp-server/xop/H264Source.cpp:245-261 | the middle loop sends the fragments one after the other from one buffer and stops with a last piece that fits |
| RtpPacket.SendLastPiece | rtsp-server/xop/H264Source.cpp:263-278 | the last packet ends with the last byte of the unit and carries the right size |
| RtpPacket.AppendUnit | rtsp-server/xop/H264Source.cpp:163-170 | a unit lands behind the earlier entries with its 16-bit size, and the entries before it stay |
| H264Source.FillAggregate | rtsp-server/xop/H264Source.cpp:147-171 | the buffer holds the entries of the whole group, and NRI and frame type are those of the group |
| H264Source.SendAggregate | rtsp-server/xop/H264Source.cpp:144-177 | the callback sees the STAP-A packet of the group (section 5.7.1 of RFC 6184) |
| H264Source.PatchBits | rtsp-server/xop/H264Source.cpp:217-264 | patching the FU header in place gives the start, middle and end headers of section 5.8 of RFC 6184 |
| H264Source.SendFragments | rtsp-server/xop/H264Source.cpp:216-278 | the callback sees the FU-A packets of the unit, in order, up to the first it refuses |
| H264Source.SendNext | rtsp-server/xop/H264Source.cpp:116-280 | one round sends the packets of the next group or unit and nothing else |
| H264Source.HandleFrame | rtsp-server/xop/H264Source.cpp:100-283 | the callback sees exactly the packets of the access unit, in order, up to the first refused one; false exactly for an empty list or a refusal |
| H265Source.FillAggregate | rtsp-server/xop/H265Source.cpp:182-211 | the buffer holds the entries of the whole group, and lowest layer id, lowest temporal id and frame type are those of the group |
| H265Source.SendAggregate | rtsp-server/xop/H265Source.cpp:179-220 | the callback sees the AP of the group (section 4.4.2 of RFC 7798) |
| H265Source.PatchBits | rtsp-server/xop/H265Source.cpp:263-308 | patching the FU header in place gives the start, middle and end headers of section 4.4.3 of RFC 7798 |
| H265Source.SendFragments | rtsp-server/xop/H265Source.cpp:262-322 | the callback sees the FU packets of the unit, in order, up to the first it refuses |
| H265Source.SendNext | rtsp-server/xop/H265Source.cpp:147-324 | one round sends the packets of the next group or unit and nothing else |
| H265Source.HandleFrame | rtsp-server/xop/H265Source.cpp:131-327 | the callback sees exactly the packets of the access unit, in order, up to the first refused one; false exactly for an empty list or a refusal |
| Depacketizer.EntriesParse | rtsp-server/xop/H264Source.cpp:163-170 | a receiver cuts an aggregation packet back into its units |
| Depacketizer.AggregateHeaderSummarizes | rtsp-server/xop/H265Source.cpp:213-217 | read through the getters' own bit layout, an aggregation header carries the maximal NRI, or the lowest layer id and temporal id, of its members |
| Depacketizer.FragmentParses | rtsp-server/xop/H265Source.cpp:263-308 | a fragment parses back to its flags, its bytes and the original NAL unit header |
| Depacketizer.FragmentsReassemble | rtsp-server/xop/H264Source.cpp:224-278 | the fragments of a unit reassemble to it, whatever packets follow |
| Depacketizer.GroupDepacketizes | rtsp-server/xop/H264Source.cpp:125-177 | an aggregation packet comes back as its units, whatever packets follow |
| Depacketizer.AloneDepacketizes | rtsp-server/xop/H265Source.cpp:235-323 | a unit that is sent by itself comes back, in one piece or in fragments |
| Depacketizer.RoundTrip | rtsp-server/xop/H264Source.cpp:114-281 | for every list of units the formats can carry, of any size, the receiver returns exactly that list, in order, for both codecs |
| Depacketizer.PacketsAreAnnounced | rtsp-server/xop/H265Source.cpp:147-324 | every packet of an access unit is marked last unless the receiver parses it as a fragment with more to come, and it is announced as a key frame, a frame or neither by the literal types of the units it carries |
| Stream.StreamRoundTrip | rtsp-server/xop/H265Source.cpp:131-327 | splitting an access unit, packetizing and depacketizing returns its units, for any mix of start codes and sizes |
| Stream.ReceiverRebuilds | rtsp-server/xop/H264Source.cpp:100-283 | what the callback saw when `HandleFrame` reports success is enough to rebuild the access unit |
| Stream.PayloadsDecide | rtsp-server/xop/rtp.h:74-89 | the receiver's result depends on the payloads only, not on what stays behind in the sender |
| Stream.ClientRebuilds | rtsp-server/xop/MediaSession.cpp:66-135 | when the packets of some units are a playing client's tasks, and a key frame was seen or comes first, the receiver behind its transport rebuilds exactly these units, whatever clients share buffers and scheduler |
| EndToEnd.QueueOne | rtsp-server/xop/MediaSession.cpp:66-135 | one packet leaves exactly one task, on a private copy, to each open unicast client while the scheduler has room |
| EndToEnd.Broadcast | rtsp-server/xop/MediaSession.cpp:66-135 | the packets of an access unit become a client's tasks, one each and in order, among those of all others, behind whatever is queued and while the scheduler runs any number of tasks in between |
| EndToEnd.Deliver | rtsp-server/xop/H264Source.cpp:100-283 | the whole way for either codec: the access unit is split, packetized and sent through the callback, behind earlier tasks and with tasks running in between; each playing client hands over, behind what its earlier tasks hand over, messages from which its peer rebuilds exactly the units, with the time stamp of the access unit and the marker on all but unfinished fragments |
| EndToEnd.OwnTasksConcat | rtsp-server/net/TaskScheduler.cpp:94-101 | a client's tasks of two lists in turn are those of the second behind those of the first |
| EndToEnd.OwnStaysOpen | rtsp-server/xop/RtpConnection.cpp:359-422 | a client whose packets are all taken stays open, keeps its transport and goes on playing |
| EndToEnd.DeliverOverTcp | rtsp-server/net/TcpConnection.cpp:37-57 | over a TCP connection with any past, and with RTSP messages in between, the peer cuts what the stream grew by into exactly the messages sent and rebuilds the units from the frames among them, as long as the connection stays open and its queue holds them |
| Bytes.FromNatToNat | rtsp-server/xop/RtpConnection.cpp:397-398 | the truncating cast to a byte keeps the value modulo 256 |
| Bytes.Be16ReadsLow | rtsp-server/xop/RtpConnection.cpp:397-398 | two bytes written most significant first read back as the low 16 bits |
| Bytes.Be32RoundTrip | rtsp-server/xop/RtpConnection.cpp:339-340 | a 32-bit field in network order reads back unchanged |
| RtpState.ReadBack | rtsp-server/xop/RtpConnection.cpp:337-348 | a receiver of section 5.1 of RFC 3550 reads marker, payload type, number, timestamp, source and payload back |
| RtpState.ReadBackInterleaved | rtsp-server/xop/RtpConnection.cpp:393-400 | so does a receiver of an interleaved frame (section 10.12 of RFC 2326), with its channel number |
| RtpState.StepKeepsConn | rtsp-server/xop/RtpConnection.cpp:69-274 | every step keeps: playing implies set-up, recording implies playing, set-up implies a transport |
| RtpState.StepKeepsNumbers | rtsp-server/xop/RtpConnection.cpp:331-383 | every step keeps the numbers of all channels without gap |
| RtpState.StepKeepsHanded | rtsp-server/xop/RtpConnection.cpp:322-383 | every step keeps: each handed message carries the payload of its task, behind a key frame |
| RtpState.NumberAfterTask | rtsp-server/xop/RtpConnection.cpp:341-343 | a number moves on by one modulo 65536 exactly when a packet of its channel is handed over |
| RtpState.RunIsContinuous | rtsp-server/xop/RtpConnection.cpp:245-383 | over every run, the packets of each channel carry start, start + 1, ... modulo 65536; nothing goes out before an IDR or NONE packet was processed; play implies set-up |
| RtpState.UsedForNothing | rtsp-server/xop/RtpConnection.cpp:359-422 | a task uses a number of its channel if and only if the channel sends, and uses it for nothing if and only if the transport refuses the packet; all other numbers stay |
| RtpState.AcceptedAt | rtsp-server/xop/RtpConnection.cpp:385-422 | a packet the transport took follows exactly those it took before |
| RtpState.AcceptedOnChannel | rtsp-server/xop/RtpConnection.cpp:385-422 | what the transport took of one channel is that channel's share of what it took |
| RtpState.GapsAreTheRefused | rtsp-server/xop/RtpConnection.cpp:331-422 | over every run, the packet taken as number j of a channel carries start + j + r modulo 65536, where r packets were refused before it: a gap exactly at each refused packet |
| RtpState.RefusedPacketLeavesGap | rtsp-server/xop/RtpConnection.cpp:385-402 | a run in which the connection refuses the first packet and takes the second, which carries number 1 |
| RtpState.ClosedQueuesNothing | rtsp-server/xop/RtpConnection.cpp:352-357 | over every run, a closed connection stays closed and its queue only drains |
| RtpState.TeardownEnds | rtsp-server/xop/RtpConnection.cpp:264-274 | over every run, Teardown of a connection that is not a multicast one ends its queueing for good, and nothing is handed over any more, not even waiting packets, unless the peer plays or records again |
| RtpState.PlayedIsHanded | rtsp-server/xop/RtpConnection.cpp:69-383 | over every run, behind the set-up of a channel and Play or Record, a packet of this channel that the open connection queued is handed over when its turn comes, if the connection is still open and a key frame was seen or this is one |
| RtpConnection.RtpConnection.SetupRtpOverTcp | rtsp-server/xop/RtpConnection.cpp:69-88 | exactly when the RTSP connection is alive, the transport is TCP afterwards and this channel, and no other, is set up with its channel number; nothing else changes |
| RtpConnection.RtpConnection.SetupRtpOverUdp | rtsp-server/xop/RtpConnection.cpp:90-194 | exactly when the RTSP connection is alive and a port pair is bound, the transport is UDP afterwards and this channel, and no other, is set up |
| RtpConnection.RtpConnection.SetupRtpOverMulticast | rtsp-server/xop/RtpConnection.cpp:196-243 | exactly when a port is bound, the transport is multicast afterwards and this channel, and no other, is set up |
| RtpConnection.RtpConnection.Play | rtsp-server/xop/RtpConnection.cpp:245-252 | every channel that is set up plays afterwards, as do those that did before; no other field changes |
| RtpConnection.RtpConnection.Record | rtsp-server/xop/RtpConnection.cpp:254-262 | every channel that is set up records and plays afterwards; no other field changes |
| RtpConnection.RtpConnection.Teardown | rtsp-server/xop/RtpConnection.cpp:264-274 | the loop stops all channels; a closed or multicast connection is left alone |
| RtpConnection.RtpConnection.SetFrameType | rtsp-server/xop/RtpConnection.cpp:322-329 | the key-frame gate opens with an IDR or NONE packet and never closes |
| RtpConnection.RtpConnection.SetRtpHeader | rtsp-server/xop/RtpConnection.cpp:331-350 | the client's own header replaces whatever header stood in the shared buffer, and the payload stays |
| RtpConnection.RtpConnection.SendRtpOverTcp | rtsp-server/xop/RtpConnection.cpp:385-402 | a copy of the framed packet is handed over, and only the framing bytes of the buffer change |
| RtpConnection.RtpConnection.SendRtpOverUdp | rtsp-server/xop/RtpConnection.cpp:404-422 | the datagram is the packet without framing bytes; a failed one tears the connection down |
| RtpConnection.RtpConnection.RunTask | rtsp-server/xop/RtpConnection.cpp:359-380 | the task does what the state machine says and leaves the payload in the shared buffer unchanged |
| FanOut.SendRtpPacket | rtsp-server/xop/RtpConnection.cpp:352-383 | a task is queued exactly when the client is open and the scheduler has room |
| FanOut.OnPacket | rtsp-server/xop/MediaSession.cpp:66-135 | one private copy of the packet; a task for each open unicast client, then for the multicast groups, as far as there is room |
| FanOut.RunOne | rtsp-server/xop/RtpConnection.cpp:359-380 | the oldest task leaves the queue, changes its own client only and leaves every queued packet as it was queued |
| FanOut.RunTasks | rtsp-server/xop/MediaSession.cpp:66-89 | for any clients, any order of tasks and any sharing of buffers, each client ends up as if its own tasks had run alone on packets of its own |
| FanOut.HandedIsOwn | rtsp-server/xop/RtpConnection.cpp:331-402 | a handed message reads back as the client's own header and framing around the payload as it was queued |
| FanOut.MessagesAreOwn | rtsp-server/xop/MediaSession.cpp:66-89 | everything a client sends is one of its own tasks' payloads behind its own header and framing |
| FanOut.EveryPacketArrives | rtsp-server/xop/MediaSession.cpp:66-89 | while a client plays and its transport takes its packets, each of its tasks from the first key frame on puts exactly one message on the wire, in order, with its own header around the task's payload, however other clients' tasks come in between |
| SharedBuffer.RunKeepsInv | rtsp-server/xop/RtpConnection.cpp:331-422 | over every run on any number of schedulers, the shared buffer holds the header and the framing written last, and always the payload |
| SharedBuffer.CopiedExactly | rtsp-server/xop/RtpConnection.cpp:331-422 | over every run, a copied message is the client's own if and only if the header written last equals its own and, over TCP, the framing written last carries its channel number |
| SharedBuffer.OwnIffUndisturbed | rtsp-server/xop/RtpConnection.cpp:331-422 | with different sources, it is the client's own if and only if no other header was written between its own header and its copy and, over TCP, the last framing carries its channel number |
| SharedBuffer.OneSchedulerSuffices | rtsp-server/net/TaskScheduler.cpp:94-101 | when all clients of a buffer run on one scheduler, every copied message is the client's own, over every run |
| SharedBuffer.AloneSendsOwn | rtsp-server/xop/RtpConnection.cpp:331-422 | every client has a run, on its own, in which it sends its own message |
| SharedBuffer.SafeExactly | rtsp-server/xop/MediaSession.cpp:73-89 | clients of different sources send their own messages over every run if and only if they share one scheduler |
| SharedBuffer.TwoSchedulersMix | rtsp-server/xop/MediaSession.cpp:73-89 | any two clients of different sources on different schedulers, over TCP or UDP, have a run in which the first does not send its own message |
| ClientLifetime.StepKeepsInv | rtsp-server/xop/RtspConnection.cpp:77-87 | every step keeps: behind a queued removal no packet of the client comes, and a client that is gone has no task queued |
| ClientLifetime.TasksMeetLiveClients | rtsp-server/net/TcpServer.cpp:43-59 | over every run, the client of a task that is about to run is still alive, although the task holds a bare pointer, whether its removal is queued, lost or left to a timer |
| ClientLifetime.HeldStays | rtsp-server/net/TaskScheduler.cpp:94-101 | a job with a holder that outlasts the jobs before it keeps one until it runs, whatever happens meanwhile |
| ClientLifetime.SafeExactly | rtsp-server/net/TaskScheduler.cpp:94-101 | a queued job meets the object of its bare pointer in every continuation if and only if a client that holds the object outlasts the jobs before it |
| ClientLifetime.PacketsAreHeld | rtsp-server/xop/RtpConnection.cpp:359 | a queued packet of a client of its own always has such a holder |
| ClientLifetime.HeldWhenQueued | rtsp-server/net/TcpConnection.cpp:59-63 | the job of `Disconnect` has one exactly when no removal of the connection is queued or may run from a timer, as for every connection whose end has not begun; a multicast packet exactly when this is so for a client that holds the connection |
| ClientLifetime.CloseBehindRemoval | rtsp-server/net/TcpServer.cpp:91-94 | a run in which the server stops while a connection is on its way out, and the job of `Disconnect` comes behind the removal |
| ClientLifetime.GroupGoesWithSession | rtsp-server/xop/MediaSession.cpp:128-133 | a run in which the session goes while a packet of a multicast connection that no client holds is queued |
| ClientLifetime.ServedAndGone | rtsp-server/net/TcpServer.cpp:51-59 | a run of a client from its registration over one of its packets to its end |
| ClientLifetime.ServedAndTimedOut | rtsp-server/net/TcpServer.cpp:54-62 | the same with a removal that the queue refuses and a timer does |
| ClientLifetime.DisconnectCloses | rtsp-server/net/TcpConnection.cpp:59-63 | a run in which the job of `Disconnect` closes an open connection |
| BufferWriter.RestsSnoc | rtsp-server/net/BufferWriter.cpp:65-67 | queueing a packet appends its unsent bytes to the pending ones |
| BufferWriter.BufferWriter.AppendShared | rtsp-server/net/BufferWriter.cpp:54-68 | a message is accepted exactly when it has bytes left and the queue has room; pending bytes grow by it |
| BufferWriter.BufferWriter.AppendCopy | rtsp-server/net/BufferWriter.cpp:70-88 | the same, with a private copy that the caller cannot overwrite |
| BufferWriter.BufferWriter.SendFront | rtsp-server/net/BufferWriter.cpp:104-125 | one call of the socket with the rest of the front packet: exactly the bytes it takes go out, the packet leaves exactly when it takes all, and the result tells a blocked from a broken connection; wire and pending bytes together stay the same |
| BufferWriter.BufferWriter.Send | rtsp-server/net/BufferWriter.cpp:90-133 | the loop terminates, calls the socket once for each packet that leaves and once more if data is left, stops exactly with an empty queue or an answer that took less than was offered, and loses, repeats or reorders no byte for any pattern of answers |
| TcpConnection.TcpConnection.HandleWrite | rtsp-server/net/TcpConnection.cpp:91-125 | with the lock, an open connection closes exactly when the last answer is a broken connection, data is left exactly when it took less than was offered, and write interest is on exactly when data is pending; a busy lock or a closed connection changes nothing |
| TcpConnection.TcpConnection.SendCopy | rtsp-server/net/TcpConnection.cpp:48-57 | wire and pending bytes are the accepted messages in order; exactly when a message is accepted; with the lock and a socket that takes it all, everything is on the wire; the interest after a busy lock is right if and only if it was on |
| TcpConnection.TcpConnection.SendShared | rtsp-server/net/TcpConnection.cpp:37-46 | the same, acceptance, busy lock and queue bound included, for a buffer the queue shares with the caller |
| TcpConnection.BusyLockLeavesNoInterest | rtsp-server/net/TcpConnection.cpp:97-100 | a message accepted while the lock is busy, pending without write interest |
| TcpConnection.TcpConnection.Close | rtsp-server/net/TcpConnection.cpp:127-141 | the close callbacks run once if the connection is closed and never if it is not |
| RtspMessage.CutThrough | rtsp-server/xop/RtpConnection.cpp:393-400 | a receiver that cuts at the lengths of frames and at the ends of RTSP messages gets any mix of them back, whatever follows |
| RtspMessage.CutGoesOn | rtsp-server/xop/RtspConnection.cpp:189-198 | a stream that could be cut and grows by whole messages is cut into the same messages and the new ones |
| RtspMessage.HeadReadsBack | rtsp-server/xop/RtspMessage.cpp:385-396 | lines without a line end of their own, each ended by one and followed by an empty one, read back as these lines, whatever follows |
| RtspMessage.PrintedIsRtsp | rtsp-server/xop/RtspMessage.cpp:398-412 | a head that announces its body's length, followed by the body, is one whole message |
| RtspMessage.PlainIsRtsp | rtsp-server/xop/RtspMessage.cpp:414-568 | so is every reply without a body, whatever its headers say |
| RtspMessage.SetupTcpIsRtsp | rtsp-server/xop/RtspMessage.cpp:452-467 | so is the reply that makes a client's transport TCP |
| RtspMessage.SetupTcpReadsBack | rtsp-server/xop/RtspMessage.cpp:452-467 | a client reads its sequence number, the two channel numbers and the session back from it |
| RtspMessage.DescribeIsRtsp | rtsp-server/xop/RtspMessage.cpp:398-412 | so is the reply that carries a session description of any length and content: the printed Content-Length reads back as its length |
| RtspMessage.DescribeReadsBack | rtsp-server/xop/RtspMessage.cpp:398-412 | a client reads its sequence number, the length and, behind the head, the session description back from it |
| RtspMessage.DescribeFits | rtsp-server/xop/RtspConnection.cpp:233-282 | the reply with a session description from a buffer of 2048 bytes fits its own buffer of 4096, so it is never cut short |
| TcpStream.ClientSendsFrames | rtsp-server/xop/RtpConnection.cpp:385-402 | what a client on TCP hands over is a list of frames, each with its own header and payload in it |
| TcpStream.SendRtspMessage | rtsp-server/xop/RtspConnection.cpp:189-198 | a reply goes whole into the stream exactly when the connection is open and its queue has room |
| TcpStream.RunConnection | rtsp-server/net/TcpConnection.cpp:37-153 | frames, RTSP messages, write events and hang-ups in any order over any socket, on a connection with any past: messages go whole or not at all, a receiver that could cut the stream before cuts it into the same messages followed by exactly the taken ones, in order, and all are taken while the connection is open and the queue could hold them; over a socket that takes whatever it is offered, with the lock free and no hang-up, all of them are on the wire |
| TcpStream.TaskOverTcp | rtsp-server/xop/RtpConnection.cpp:359-402 | a client's task on its TCP connection: a number is used up and nothing accepted if and only if the channel sends and the connection is closed or its queue full |
| TcpStream.RunClient | rtsp-server/xop/RtpConnection.cpp:331-402 | a client over TCP, whatever its connection carried before, with RTSP replies, write events and hang-ups between its tasks: per channel the packets handed over continue start, start + 1, ... modulo 65536; the peer cuts what the stream grew by into whole messages, whose frames are exactly the accepted packets and read back their numbers and whose other messages are the accepted replies; nothing is refused while the connection is open and its queue could hold everything |
| RingBuffer.RingBuffer.Push | rtsp-server/net/RingBuffer.h:44-56 | appends to the queued elements unless the ring is full |
| RingBuffer.RingBuffer.Pop | rtsp-server/net/RingBuffer.h:25-35 | takes the oldest element unless the ring is empty |
| TriggerQueue.SlotsDiffer | rtsp-server/net/RingBuffer.h:56 | items less than a lap apart have different slots |
| TriggerQueue.WriteHitsFreeSlot | rtsp-server/net/RingBuffer.h:46-48 | the slot being written is never one that is still counted as occupied |
| TriggerQueue.TakeFindsOldest | rtsp-server/net/RingBuffer.h:27-28 | the consumer finds the oldest item in its slot |
| TriggerQueue.StepKeepsInv | rtsp-server/net/RingBuffer.h:25-56 | every field access of either side, in any interleaving, keeps the ring invariant |
| TriggerQueue.RunIsSafe | rtsp-server/net/TaskScheduler.cpp:74-101 | over every run, popped items are a prefix of pushed items, the counter stays between 0 and the capacity, and pushed items are those of the answers that stored theirs |
| TriggerQueue.NoCallIsForgotten | rtsp-server/net/TaskScheduler.cpp:74-85 | over every run, each call that passed the size check waits, holds the lock or has been answered, exactly once |
| TriggerQueue.LossExactly | rtsp-server/net/TaskScheduler.cpp:76-81 | an item with a true answer is lost exactly by a push into a ring that filled up after the size check |
| TriggerQueue.SerialRunsLoseNothing | rtsp-server/net/TaskScheduler.cpp:74-85 | when callers come one after the other, a true answer always means that the item is stored |
| TriggerQueue.SidesMoveOn | rtsp-server/net/TaskScheduler.cpp:74-101 | in every reachable state neither the holder of the lock nor the consumer with data is blocked |
| TriggerQueue.Drain | rtsp-server/net/TaskScheduler.cpp:94-101 | whenever nobody is inside, the consumer can run the callbacks of all stored items, in order |
| TriggerQueue.ConcurrentCallersLose | rtsp-server/net/TaskScheduler.cpp:74-85 | for a ring of any size, a run of calls that fills all slots but one and then lets two callers get true answers, with one callback gone |
| TimerQueue.TimerQueue.AddTimer | rtsp-server/net/Timer.cpp:7-18 | which timer is stored and which key is filed; the two indices agree afterwards if and only if the interval is at least 1 for a new id, or the id in use already has this deadline |
| TimerQueue.ZeroIntervalDisagrees | rtsp-server/net/Timer.cpp:13-16 | a queue whose indices disagree after a timer of 0 ms |
| TimerQueue.ReusedIdDisagrees | rtsp-server/net/Timer.cpp:11-16 | calls of `AddTimer` and `RemoveTimer` that bring the ids round to one in use and leave the indices in disagreement |
| TimerQueue.TimerQueue.RemoveTimer | rtsp-server/net/Timer.cpp:20-28 | the timer leaves both indices and no other timer changes |
| TimerQueue.FirstExists | rtsp-server/net/Timer.cpp:58-60 | a non-empty set of keys has a least one in deadline and id order |
| TimerQueue.TimerQueue.First | rtsp-server/net/Timer.cpp:58-60 | the first event exists whenever a timer is left, and it is the least key of all timers |
| TimerQueue.TimerQueue.GetTimeRemaining | rtsp-server/net/Timer.cpp:37-51 | -1 exactly without timers; otherwise no timer is due before the sleep is over and one is due at its end |
| TimerQueue.TimerQueue.ReArm | rtsp-server/net/Timer.cpp:63-71 | moving the event under its new key keeps the indices in agreement |
| TimerQueue.TimerQueue.HandleTimerEvent | rtsp-server/net/Timer.cpp:53-78 | terminates; fires due timers only, each once, in deadline and id order; re-arms or drops as each callback says; nothing is due afterwards |
| TimerQueue.NextIsNew | rtsp-server/net/Timer.cpp:58-64 | the next timer to fire has not fired in this pass, because a re-armed one is due later |
| TimerQueue.HandledNext | rtsp-server/net/Timer.cpp:58-76 | one more round extends the pass and takes one id off the due ones, which is the termination measure |
| TimerQueue.FiredAreTheDue | rtsp-server/net/Timer.cpp:53-78 | a pass fires exactly the timers that were due, each once |
| SelectScheduler.SelectScheduler.SetInterest | rtsp-server/net/SelectTaskScheduler.cpp:26-49 | the cached sets stay right if and only if the channel joins or leaves, keeps its read bit, is not the one registered under its socket, or the read set is to be recomputed anyway |
| SelectScheduler.ReadInterestGoesStale | rtsp-server/net/SelectTaskScheduler.cpp:37-40 | a channel that stopped reading and is still in the cached read set |
| SelectScheduler.SelectScheduler.SetEvents | rtsp-server/net/Channel.h:44-52 | changing the interest of a channel changes what a full recomputation gives at this channel only, and only if it is registered |
| SelectScheduler.SelectScheduler.UpdateChannel | rtsp-server/net/SelectTaskScheduler.cpp:26-49 | who is registered afterwards, and which sets are marked for recomputation |
| SelectScheduler.SelectScheduler.RemoveChannel | rtsp-server/net/SelectTaskScheduler.cpp:51-62 | removal keeps the caches right |
| SelectScheduler.SelectScheduler.Collect | rtsp-server/net/SelectTaskScheduler.cpp:86-109 | the loop over the channels gives each marked set, and the largest socket, as a full recomputation would |
| SelectScheduler.SelectScheduler.PrepareSelect | rtsp-server/net/SelectTaskScheduler.cpp:64-150 | `select` gets the read, write and exception sets and the bound that a full recomputation from the channels gives |
| MemoryPool.MemoryPool.Init | rtsp-server/net/MemoryManager.cpp:24-50 | the first call carves n blocks into a chain without repetition, all free; a second call does nothing |
| MemoryPool.MemoryPool.Alloc | rtsp-server/net/MemoryManager.cpp:52-62 | hands out a free block that is not outstanding, and null exactly when none is free |
| MemoryPool.MemoryPool.Free | rtsp-server/net/MemoryManager.cpp:64-73 | the free list stays an acyclic chain if and only if the block was outstanding; otherwise the pointers form a ring and no list of blocks starts at the head and ends |
| MemoryPool.NoChainThroughRing | rtsp-server/net/MemoryManager.cpp:70-71 | pointers that stay inside a set of blocks never reach the end of a list |
| MemoryPool.FreedTwice | rtsp-server/net/MemoryManager.cpp:64-73 | a pool whose list has no end after one block was freed twice |
| MemoryPool.BlocksAreDisjoint | rtsp-server/net/MemoryManager.cpp:32-42 | any two blocks of a pool, headers included, lie one behind the other, inside the memory allocated for the pool |
| MemoryPool.MemoryManager.constructor | rtsp-server/net/MemoryManager.cpp:75-81 | three pools of 50, 10 and 5 blocks of their sizes, nothing outstanding |
| MemoryPool.MemoryManager.Alloc | rtsp-server/net/MemoryManager.cpp:91-109 | the first free block of the first pool whose blocks are big enough, and exactly when that pool is empty or there is none, a fresh block of the very size from the system; no other pool changes |
| MemoryPool.MemoryManager.Free | rtsp-server/net/MemoryManager.cpp:111-122 | a block goes back to the pool it came from and to no other |
| Md5Block.WordOrder | rtsp-server/3rdpart/md5/md5.hpp:248-341 | the 64 operations use the message words in the order of section 3.4 of RFC 1321 |
| Md5Block.Rotations | rtsp-server/3rdpart/md5/md5.hpp:248-341 | the 64 operations rotate as section 3.4 of RFC 1321 says |
| Md5Block.SetFour | rtsp-server/3rdpart/md5/md5.hpp:244-263 | four SET statements with renamed variables are four operations on rotating registers |
| Md5Block.ProcessBlock | rtsp-server/3rdpart/md5/md5.hpp:173-351 | the sixty-four SET statements and the final additions compute the block function |
| Md5Vectors.RoundFunctions | rtsp-server/3rdpart/md5/md5.hpp:243-343 | bit by bit, F chooses y or z by x, G chooses x or y by z, H flips x where y and z differ, and I flips y where x is set or z is not |
| Md5Vectors.TakesIsUnique | rtsp-server/3rdpart/md5/md5.hpp:243-343 | such a choice between two words by a mask determines the result |
| Md5Vectors.MixTakes | rtsp-server/3rdpart/md5/md5.hpp:243-343 | which of them each of the 64 operations uses, on which registers |
| Md5Vectors.EmptyDigest | rtsp-server/3rdpart/md5/md5.hpp:353-420 | the digest of the empty message of appendix A.5 of RFC 1321, which depends on every constant |
| Md5Vectors.AbcDigest | rtsp-server/3rdpart/md5/md5.hpp:353-420 | the digest of "abc" of the same appendix |
| Md5.CounterAdds | rtsp-server/3rdpart/md5/md5.hpp:373-376 | adding to the two counter words with a carry adds eight times the bytes modulo 2^64 |
| Md5.CounterGivesFill | rtsp-server/3rdpart/md5/md5.hpp:366 | the low counter word tells how many bytes of the block buffer are filled |
| Md5.BlocksConcat | rtsp-server/3rdpart/md5/md5.hpp:391-393 | folding the block function over two messages in turn is folding it over their concatenation |
| Md5.ZeroPaddedIs | rtsp-server/3rdpart/md5/md5.hpp:402-415 | padding adds the least number of zero bytes that leaves 56 modulo 64 |
| Md5.PadIsZeroPadded | rtsp-server/3rdpart/md5/md5.hpp:415 | the pad the program appends is that of section 3.1 of RFC 1321 |
| Md5.CounterIsLength | rtsp-server/3rdpart/md5/md5.hpp:411-413 | the saved counter bytes are the bit length of section 3.2 of RFC 1321, low word first |
| Md5.Md5State.AddCount | rtsp-server/3rdpart/md5/md5.hpp:367-376 | the two-word counter stays eight times the length modulo 2^64 |
| Md5.Md5State.Append | rtsp-server/3rdpart/md5/md5.hpp:362-398 | for any chunk and any fill of the buffer, the state afterwards is that of the longer message |
| Md5.Md5State.Finish | rtsp-server/3rdpart/md5/md5.hpp:400-420 | the digest is the one-shot digest of everything appended, and no partial block is left |
| Md5.DigestChunks | rtsp-server/3rdpart/md5/md5.hpp:353-420 | any way of cutting a message into chunks gives the one-shot digest, for any block function |
| Md5.Md5Sum | rtsp-server/3rdpart/md5/md5.hpp:353-420 | the same for the program's own block function |
| FrameQueue.PushKeepsValid | threadsafe_queue.h:90-102 | a push keeps order and limit, and drops one frame exactly when the queue is full and not terminated |
| FrameQueue.PopKeepsValid | threadsafe_queue.h:40-46 | a pop takes the oldest frame and drops none |
| FrameQueue.NothingUnaccounted | threadsafe_queue.h:32-102 | pushed frames are exactly popped, dropped and queued ones |
| FrameQueue.ThreadsafeQueue.constructor | threadsafe_queue.h:16-19 | an empty queue whose drop counter starts at whatever value it has |
| FrameQueue.ThreadsafeQueue.MovePush | threadsafe_queue.h:90-102 | the method does what the queue as a value does; the counter counts drops from its initial value |
| FrameQueue.ThreadsafeQueue.WaitAndPop | threadsafe_queue.h:32-50 | the oldest frame while there is one; null exactly when the queue is terminated and drained; on an empty open queue the caller waits |
| FrameQueue.ThreadsafeQueue.Termination | threadsafe_queue.h:130-135 | only further pushes are refused |
| OutputLifecycle.StepKeepsInv | rtsp_output.cpp:274-482 | every step of the data callback, the user interface and the push thread keeps the life-cycle invariant |
| OutputLifecycle.RunKeepsInv | rtsp_output.cpp:274-482 | over every run, an active output has its queue, thread and session, and popped frames are the delivered ones and the one in hand, in order |
| OutputLifecycle.DrainedBeforeRemoval | rtsp_output.cpp:416-436 | when the session is removed, every pushed frame was dropped by a full queue or reached the server in push order, and no frame is delivered without a session |
| OutputLifecycle.ActivePushes | rtsp_output.cpp:484-546 | while the output is active, the queue was offered exactly the frames submitted since streaming began |
| OutputLifecycle.StopPushesNothing | rtsp_output.cpp:416-430 | from the start of a stop until the session is removed the queue takes no frame, whatever is requested meanwhile |
| OutputLifecycle.FramesReachServer | rtsp_output.cpp:416-482 | a whole session: when the session is removed, every submitted frame was dropped by a full queue or handed to the server, each once and in order |
| OutputLifecycle.JoinReturns | rtsp_output.cpp:423-426 | while the stop waits for the push thread, the thread is never blocked and each of its steps leaves it less to do, so the join returns |
| OutputLifecycle.RequestsTakeEffect | rtsp_output.cpp:274-414 | a start takes effect exactly when it succeeds and the output is not stopping, a stop request exactly when it is not starting |
| OutputLifecycle.BeginTakesEffect | rtsp_output.cpp:319-402 | the first data while starting leads to streaming from an empty queue with a registered session, or to the stop exactly when a part of it fails |
| OutputLifecycle.DataTakesEffect | rtsp_output.cpp:515-551 | data of a running output begins the stop exactly when it is missing, or a stop was requested and it is due; otherwise a wanted frame is offered to the queue |
| OutputLifecycle.FinishTakesEffect | rtsp_output.cpp:416-453 | behind the stop the output is idle and can be started again |
| OutputLifecycle.EveryStreamHasARun | rtsp_output.cpp:274-551 | for any list of frames, a run from the start to the end of the output in which exactly these frames are pushed and delivered before the session goes, and after which it can be started again |
| OutputLifecycle.StuckExactly | rtsp_output.cpp:404-414 | over every run, the output is stuck, so that no start succeeds any more, if and only if a stop was ever requested while it neither ran, started nor stopped |
| OutputLifecycle.IdleStopBlocksStart | rtsp_output.cpp:404-414 | a run in which the first start fails because a stop was requested before it |
| Timestamp.NearestTickIsNearest | rtsp_output.cpp:458-463 | the tick is within half a tick of the exact time |
| Timestamp.NearestTickIsMonotone | rtsp_output.cpp:458-463 | later times never get earlier ticks |
| Timestamp.RoundsExactlyFrom | rtsp_output.cpp:455-464 | within 64 bits, the timestamp is the nearest tick modulo 2^32 if and only if the time is not before half a tick ahead of zero |
| Timestamp.NegativeTimesAreOff | rtsp_output.cpp:455-464 | one second before zero, at 90 kHz, the timestamp is not the nearest tick |
| Timestamp.ElapsedWithinOneTick | rtsp_output.cpp:455-464 | the 32-bit difference of two timestamps is the elapsed ticks, less than one tick from the exact time, so error never accumulates |

## Left out

- RTSP request parsing, the contents of SDP strings and authentication: string formatting around the modelled core. Of the replies, the framing is modelled: status line, headers, Content-Length and body.
- TcpStream.SendRtspMessage: the text is what the response builder left in its buffer; that a reply other than the one to DESCRIBE fits its buffer is not proved, because host and address strings come from outside.
- TcpStream.RunClient: the client's transport and what it plays stay the same in between; `RtpState` covers the changes.
- `RtspConnection`, `RtspServer`, `RtspPusher`, `TcpServer`, `Acceptor`, `EventLoop`: plumbing with easy map and counter claims.
- `AACSource`, `G711ASource`, `VP8Source`: one-packet copies or a simple fragment loop without aggregation.
- The epoll and kqueue schedulers: they rely on the kernel's interest sets instead of a cache.
- SelectScheduler.SelectScheduler.PrepareSelect: the scheduler is modelled as sequential; updates by other threads between its look at the marks (SelectTaskScheduler.cpp:85-90) and its lock are not modelled.
- The dispatch after `select` (SelectTaskScheduler.cpp:152 on): it calls the callbacks of ready channels.
- The main loop in `TaskScheduler::Start` and the drain loop in `HandleTriggerEvent`: their steps are the consumer steps of `TriggerQueue` and the methods of `TimerQueue` and `SelectScheduler`.
- RtpConnection.RtpConnection.SetupRtpOverUdp: ports, descriptors and addresses, also those a failed call leaves changed, because no modelled step reads them.
- RtpConnection.RtpConnection.SetupRtpOverMulticast: the port, descriptor and group address, for the same reason.
- RTCP: no modelled step reads it.
- SharedBuffer.OwnIffUndisturbed: each `memcpy` into the shared buffer, and each copy out of it, is one step.
- ClientLifetime.SafeExactly: one scheduler, as the plugin's event loop has, and one session; a timer's removal runs behind a drain of the queue, as in the loop of TaskScheduler.cpp:47-52. The look at the number of clients before a frame is pushed (RtspServer.cpp:89) is not a guard of the multicast packets, because clients may leave behind it.
- An expired `rtsp_connection_` of a client: `ClientLifetime` shows that no task of the client runs then, so the branch RtpConnection.cpp:389-391 is only taken by a connection that never had one.
- The branch of the send callback that erases an expired client from the map it walks: clients are live connections.
- `map_mutex_` and the clients' registration: the list of clients is fixed for one packet.
- Memory ordering: each access to a shared field of the ring is one atomic step, in program order; a lock is a step that waits.
- `malloc` failure and the integer widths of `size_t` and of queue lengths: memory sizes are unbounded numbers.
- RtpPacket.FrameSink.Send: the timestamp is not part of the snapshot; the packetizers copy it from the frame, and `FanOut` and `RtpState` carry it on.
- RtpState.RunIsContinuous: channels start with sequence numbers below 65536, payload types below 128 and four-byte sources, as the constructor sets them; multicast set-up is called on the session's own connections only, as the session does.
- Md5.Md5State.Append: `offset + nbytes` is an unbounded sum here; a chunk long enough to wrap it does not fit into memory beside the state.
- Md5Block.StepAt: the additive constants are a table, checked by the two vectors; that they are the sines of section 3.4 of RFC 1321 is not proved.
- TimerQueue.TimerQueue.HandleTimerEvent: a callback answers and does not call back into the queue, whose lock is held while it runs.
- TriggerQueue.RunIsSafe: the wake-up pipe is not modelled.
- FrameQueue.ThreadsafeQueue.WaitAndPop: how a waiting caller is woken is not modelled here; in `OutputLifecycle` it is the guard of the thread's steps.
- OutputLifecycle.StepKeepsInv: starting the server is one step that succeeds or fails; encoder set-up, error signals and byte counters are not modelled; OBS starts an output only while it is inactive and not stopping.
- Timestamp.RoundsExactlyFrom: products outside 64 bits are not covered.
