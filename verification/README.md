# RCS, a reliable channel over an unreliable datagram layer

RCS sends a block of bytes as numbered fragments of at most 500 bytes, one at a time, each repeated until an
acknowledgement with its number comes back, and closes the block with an end-of-send message. Numbers have 16 bits
and restart at 0 with every block. Underneath, the UCP layer loses, cuts and scrambles datagrams on purpose. The
receiver queues what carries the number it expects, acknowledges everything else with the number before that, and
after an end of send lingers in `finalizeRecv`, repeating its last acknowledgement until a timeout or until the next
block begins. A FIN, which may come at any moment, closes the socket.

This project models that code and proves what it guarantees, and exactly where it stops guaranteeing it.

| file | what it is |
|---|---|
| Message.dfy, Bytes.dfy | the 512-byte message, its byte image, checksum and acceptance test; the same byte by byte in plain arithmetic |
| Ucp.dfy | the datagram layer and its faults, driven by a stream of random numbers |
| Stream.dfy, Draining.dfy | received data as one flat stream of bytes and marks; what a read is; any interleaving of queueing and reading |
| MsgBuffer.dfy | the receive buffer: a class with deque, offset and cached size, whose `Read` fills an array |
| Endpoint.dfy, Turns.dfy | one step of the sending and of the receiving loops, as functions; and what the loops do with what they hear, in plain terms |
| Rcs.dfy | the socket: `send`, `recv` and all they call as methods of a class, each proved equal to the step functions |
| Packets.dfy | fragmentation, and the shape of the packets of a series of sends |
| Network.dfy | two peers, two lossy first-in first-out channels, and runs of any steps in any order |
| Safety.dfy, Records.dfy | the invariant over every run of any sends: channels, queue, and what one pass of `recv` has queued |
| Repeats.dfy, Marks.dfy | the one way in which the queue can differ from the packets, repeated ends numbered 0, and why readers do not see it |
| Delivery.dfy, EndToEnd.dfy | what the invariant means for packets and for bytes |
| CleanRuns.dfy | runs without a fault, and what they reach |
| Calls.dfy | when a call of `recv` comes to its end, as a condition on what it hears |
| Limits.dfy, Returns.dfy, Remainder.dfy, Retrying.dfy, Livelock.dfy, Closing.dfy | where the guarantees end, with the exact condition |
| Lockstep.dfy | how many packets a send, or a series of sends, takes under finitely many faults |
| Reordering.dfy | one transfer over channels that reorder and repeat |
| Sequences.dfy | slices and sums |

## How it fits together

The methods of `Rcs.Socket` and the two-peer model of `Network` use the same step functions of `Endpoint`. `Send` and
`Recv` are proved to return what `RunSend` and `RunRecv` say about the arrivals they consume; `SenderFollowsSend`,
`SendsCompose` and `ReceiverFollowsRecv` prove that in every run of the network model the two peers are where those
runs are after hearing the same, and have sent the same. `FatesCoverFaults` ties the channel of the model to the
bytes: whatever `UcpSendTo` does to the image of a message, what is received is one of the fates a packet has in the
model.

The step functions and the methods could agree and both be wrong. So `Bytes` and `Turns` say once more, without using
their names, what the source does: which bytes a message has and which datagrams are accepted, which events are a
timeout, after how many copies `acksend` stops and at which message, what every receive in a pass and in
`finalizeRecv` is answered with.

A method that listens takes what `recvfrom` will report from a finite list. When the list is used up it stops with
`stalled`; the run has then been observed up to that point, and since the list is arbitrary this covers every finite
part of every run.

All lemmas switch off automatic induction; inductive proofs make their recursive call themselves.

## What holds, and what does not

Call a send *countable* if its number of fragments is not a multiple of 65536; an empty send is not countable. The
end of a send that is not countable carries the number 0: a *zero end*.

- For any sends, countable or not, after any run with any losses, damage, timeouts and closings, the results of
  `recv` are the sent bytes in order, no result with bytes of two sends; and a call of `recv` for a positive size
  comes back empty only if the channel is closing and everything has been read.
- For any sends, nothing that `send` has returned for without a FIN is lost: the packets of those sends have been
  queued in order, zero ends repeated on the spot aside, and their bytes have been handed out or lie in the buffer.
- For any sends, the messages queued are the packets of the sends in order, up to some point, except that a zero end
  may be queued several times on the spot (a FIN can follow, as the last one). The sender is at that point or one
  packet behind, or it has run ahead from a zero end over packets numbered 0. Readers do not see the repeats.
- For countable sends there are no repeats: the queue is an exact prefix of the packets, at most one packet ahead of
  what has been acknowledged, and a packet is acknowledged only after it was queued. This is exact for the queue of
  messages, not for the bytes: a zero end can be queued any number of times.
- For the packet in hand it is enough that every send but the last is countable: then each acknowledged packet has
  been queued, at its very place. This is exact, too: otherwise there is a run in which the first packet of a send
  counts as acknowledged although nobody received it. But such a send cannot return that way: past its end, everything
  the sender has skipped is zero ends, which carry no bytes.
- `send` is documented to return the number of bytes sent. The code returns the length it was given in any case. That
  is the number of bytes acknowledged if and only if, among what arrives before the first FIN, there are
  acknowledgements of all fragments in order. For all data but the empty, a FIN that comes first is a case where it is
  not.
- A call of `recv` on an open channel returns if and only if what it hears completes a pass, that is, holds an end of
  send and behind it what ends `finalizeRecv`, with no FIN before; and this again and again until there is a byte to
  read, from before or from these passes. A FIN in a pass returns as well.
- `recv` is documented to hand out the remainder of a send in subsequent calls. By the condition above, the code does
  so only after one more whole pass: for every send and every smaller size there is a run without a fault in which the
  first call returns that many bytes, and the next one does not return the rest, which lies in the buffer, as long as
  the sender neither sends nor closes.
- If the acknowledgement of an end has not been heard when `finalizeRecv` times out, an end not numbered 0 can still be
  acknowledged if and only if an acknowledgement of it is under way already, or it carries the number 65535. No data is lost.
  Otherwise `send` ends if and only if a FIN is heard, and one can come if and only if the receiver has bytes left to
  read, because only then can its `recv` return and its caller close. With nothing left to read, neither `send` nor
  `recv` ever returns; every countable send whose end is not numbered 65535 can come to this.
- In lockstep, N fragments and K faulty rounds take at most N + 1 + K packets, and one more if the receiver still
  lingers over the send before and throws the first fragment away; this for every send of a series in which no end but
  the last is numbered 0 and no send but the first is empty. An empty send behind a countable one is different: in a
  run without a fault the receiver answers its end with the number of the end before, for ever, and neither call
  returns until `finalizeRecv` gets a timeout.
- A FIN heard while the receiver lingers closes the socket under the loop of `finalizeRecv`, which then sees errors
  that are not timeouts and never ends: `recv` does not return. There is a fault-free run that does this for every
  send: every packet and every FIN arrives, and the sender closes right after `send` has returned. A FIN heard in a
  pass ends `recv` properly.
- With reordering and repetition, for one transfer up to and including its `finalizeRecv`: what is queued is a prefix
  of the packets on every run if and only if there are at most 65536, as many as there are numbers; and a send that
  returns has been received whole on every run if and only if there are at most 65535, because the initial
  acknowledgement "0 - 1" takes the number 65535 away.

## Assumptions

- The layout of a message is little-endian with a 12-byte header, `char` is signed, and for length 0 the checksum
  test reads the byte in front of the data, the top byte of `flags`.
- The checksum covers one byte, so scrambled bytes can pass for a message. `NetworkNeverForges` and
  `FatesCoverFaults` assume that a scrambled datagram is refused by the acceptance test unless it is byte for byte
  the original. Cut datagrams need no assumption.
- `sendto` is a parameter of `UcpSendTo`: it may return anything. That a datagram handed to it may still be lost or
  come to nothing is a fate like any other; the code ignores what `rawsend` returns.
- One peer sends and the other receives. `acksend` compares only numbers, not flags.
- Once a socket is closed, sending on it has no effect and receiving on it fails with an error that is not a timeout.

## Model

| member | source | states |
|---|---|---|
| Message.DataMsg | a4/msg_t.cc:24-32 | a data message shows the given number, no flag and exactly the copied bytes, whatever lies behind them in memory |
| Message.FlagMsg | a4/msg_t.cc:16-22 | a flag message shows the number and flag and no payload |
| Message.DefaultMsg | a4/msg_t.cc:8-14 | what a receive without a datagram leaves behind is never taken for a valid message |
| Message.ImageDetermines | a4/msg_t.cc:69-81 | decoding the image of a message gives the message back |
| Message.EveryImageIsAMessage | a4/msg_t.cc:69-81 | encoding what any 512 bytes decode to gives those bytes back |
| Message.RoundTrip | a4/rcs_t.cc:249-314 | the transmitted prefix of a constructed message, received into a zeroed buffer, is accepted and brings back checksum, number, length, flags and payload, with zeros behind |
| Message.TruncationIsCaught | a4/rcs_t.cc:265-269 | no proper prefix of a transmitted message is accepted, wherever the cut falls |
| Message.ChecksumIsInjective | a4/msg_t.cc:38-43 | the 32-bit checksum is different for every signed byte |
| Message.ChecksumCoversTheLastByte | a4/msg_t.cc:38-43 | with checksum and length kept, a valid data message stays valid under any other change, renumbering included, exactly if its last payload byte is kept |
| Message.TruncationSeenByFinalize | a4/rcs_t.cc:375-378 | when a cut data packet ends the loop of `finalizeRecv`, which does not compare sizes: exactly for a first fragment ending in a zero byte with enough of its length left |
| Bytes.BytesOfDataMsg | a4/msg_t.cc:24-32 | every byte of a transmitted fragment: 16 * (last byte, signed, + 1) modulo 2^32, number, length and flags, the lowest byte first, and the data |
| Bytes.BytesOfFlagMsg | a4/msg_t.cc:16-22 | the 12 bytes of an acknowledgement, an end of send or a FIN |
| Bytes.FieldsOfDatagram | a4/rcs_t.cc:281-302 | every field that is decoded from any datagram, with zeros behind its end |
| Bytes.AcceptedInBytes | a4/rcs_t.cc:265-269 | a datagram is accepted exactly if its length field is its size less 12 and its checksum that of its very last byte, and what its number, flags and payload then are |
| Bytes.OpensInBytes | a4/rcs_t.cc:375-378 | which datagrams, cut ones included, look like a first fragment to `finalizeRecv` |
| Ucp.UcpSendTo | a4/ucp.c:63-101 | what is handed to `sendto` and what the caller is told, for every stream of random numbers and whatever `sendto` returns: all from 37 on; below, by the kind drawn, a prefix of the drawn length, as many drawn bytes, or nothing |
| Ucp.ExactlyThePossibleFaults | a4/ucp.c:75-96 | the random numbers reach delivery, every shorter length, every noise of the same length and loss, and nothing else |
| Stream.FlatReadReads | a4/msg_buffer_t.cc:44-75 | a read skips leading marks, takes bytes up to the size, the end or the next mark, and eats that mark only if there was room |
| Stream.ReadIsUnique | a4/msg_buffer_t.cc:44-75 | that description leaves a read no freedom |
| Stream.ReadConserves | a4/msg_buffer_t.cc:39-79 | bytes read and bytes left are the bytes there were; a positive read is empty only if there are none |
| MsgBuffers.MsgBuffer.constructor | a4/msg_buffer_t.cc:8-12 | a new buffer is empty |
| MsgBuffers.MsgBuffer.QueueMessage | a4/msg_buffer_t.cc:19-23 | the stream grows by the message's bytes or its mark; the cached size keeps count |
| MsgBuffers.MsgBuffer.Empty | a4/msg_buffer_t.cc:29-32 | the cached size is 0 exactly if no byte is unread and none was stranded in an end of send |
| MsgBuffers.MsgBuffer.Read | a4/msg_buffer_t.cc:39-79 | the array receives the flat read of the stream and is otherwise untouched, the rest of the stream stays, the cached size is right again |
| MsgBuffers.MsgBuffer.CopyOut | a4/msg_buffer_t.cc:44-75 | the loop over deque and offset terminates with the bytes and buffer of its functional form |
| MsgBuffers.MsgBuffer.CopyFront | a4/msg_buffer_t.cc:57-74 | one turn copies from the front message at the offset and pops it exactly when it is used up |
| MsgBuffers.LoopReads | a4/msg_buffer_t.cc:44-75 | the loop over deque and offset computes the flat read |
| Draining.Drains | a4/msg_buffer_t.cc:19-79 | over any interleaving of queueing and reading, results and unread bytes make up the bytes queued, in order, and no result takes bytes from two sides of a mark |
| Endpoint.NetworkNeverForges | a4/ucp.c:75-100 | of a constructed message the receiver accepts the message itself or nothing; cuts are always refused |
| Turns.ErrorsAreNotTimeouts | a4/rcs_t.cc:294-300 | a receive is taken for a timeout exactly if it is one, or brings an empty datagram while `errno` says so; other errors are refused |
| Turns.DatagramsInBytes | a4/rcs_t.cc:281-314 | what the bytes of any datagram, cut to 512, are taken for |
| Turns.AcksendInPlain | a4/rcs_t.cc:216-235 | one copy for every receive; the first accepted message with the packet's number ends it, whatever its flags and payload, or the first FIN; nothing else |
| Turns.TurnOfPassInPlain | a4/rcs_t.cc:328-355 | what one receive in a pass queues, expects next, answers and closes |
| Turns.EndOfPassInPlain | a4/rcs_t.cc:325-363 | when a call starts a pass, another one, or the read, and when it returns 0 without one |
| Turns.AnswersInPlain | a4/rcs_t.cc:346-348 | whatever `recv` sends is a FIN or an acknowledgement with exactly that flag and no payload |
| Turns.LingeringInPlain | a4/rcs_t.cc:370-384 | as many answers as receives before the first that stops `finalizeRecv`, refused messages and errors included; then the end of the pass, or a FIN's burst and nothing ever again |
| Turns.LingeringSurvivesErrors | a4/rcs_t.cc:370-384 | any number of errors and of empty datagrams with another `errno` neither ends the lingering nor goes unanswered |
| Packets.PacketsInPlain | a4/rcs_t.cc:189-206 | which packets a send has: slices of 500 bytes numbered modulo 65536 without flag, and an end |
| Packets.FragmentationRoundTrip | a4/rcs_t.cc:185-209 | the packets of a send, queued and read with enough room, give the data back, with the mark left exactly if there was no room for it |
| Packets.PacketsFlatten | a4/rcs_t.cc:189-206 | the fragments' payloads in order are the data, followed by one mark |
| Packets.AllPacketsAreWellShaped | a4/rcs_t.cc:185-209 | the packets of any series of sends: consecutive numbers modulo 65536 restarting behind each end, 1 to 500 bytes each; no end is numbered 0 if all sends are countable |
| Packets.StretchIsOneSend | a4/rcs_t.cc:185-209 | packets from a start of a send to the next end are exactly one of the sends |
| Rcs.Socket.constructor | a4/rcs_t.cc:80-89 | a new socket is open, has queued nothing and sent nothing |
| Rcs.Socket.RawSend | a4/rcs_t.cc:243-257 | a message made by one of the constructors goes out, if the socket is open, as the first 12 + length bytes of its image |
| Rcs.Socket.Close | a4/rcs_t.cc:398-407 | 2048 FIN messages numbered 666 go out before the socket closes |
| Rcs.Socket.RawRecv | a4/rcs_t.cc:279-314 | result, message and closing for every event: timeout, error, empty datagram, refused, accepted, FIN, closed socket; on an open socket 0 exactly for a timeout or an empty datagram with that `errno` |
| Rcs.Socket.LowRecv | a4/rcs_t.cc:265-269 | true exactly for an accepted message |
| Rcs.Socket.AckSend | a4/rcs_t.cc:216-235 | the whole exchange for one packet is the run of the step function: what was sent, what was consumed, how it ended |
| Rcs.Socket.SendFragment | a4/rcs_t.cc:194-200 | the fragment built from the data at the current offset is the next packet of the send |
| Rcs.Socket.Send | a4/rcs_t.cc:185-209 | everything sent, received and counted by one `send` is the run over its packets; it returns the length in any case |
| Rcs.Socket.HearOnce | a4/rcs_t.cc:331-349 | one turn of the inner loop of `recv` is one step of the receiver |
| Rcs.Socket.Respond | a4/rcs_t.cc:337-350 | an expected message, and no other, is queued and counted, and its own number acknowledged, unless the socket is closed; and whether it is an end of send |
| Rcs.Socket.FinalizeRecv | a4/rcs_t.cc:370-384 | the lingering loop is the run of the receiver until the pass ends, also with a message left over from an earlier turn; on an open socket, how many answers it sends, which receive stops it and what is left unheard |
| Rcs.Socket.LingerOnce | a4/rcs_t.cc:375-381 | one turn of that loop: what ends it, and that anything else is answered unless the socket is closed |
| Rcs.Socket.ReceivePass | a4/rcs_t.cc:328-355 | one pass is a run of the receiver, and consumes something if the socket is open |
| Rcs.Socket.Recv | a4/rcs_t.cc:325-363 | all passes of one call are one run; the array receives what the run's end delivers and is otherwise untouched; the assertion of `read` holds |
| Network.FatesCoverFaults | a4/ucp.c:63-101 | every fault of the datagram layer on the bytes of a message is a fate of the packet in the model |
| Network.SenderFollowsSend | a4/rcs_t.cc:185-235 | in every run of the network the sender is where `send` is after hearing the same; what it has transmitted is what `send` logs, up to the packet that comes next |
| Network.SendsCompose | a4/rcs_t.cc:185-209 | successive sends amount to one run over all their packets |
| Network.ReceiverFollowsRecv | a4/rcs_t.cc:325-384 | in every run of the network the receiver is where `recv` is after hearing the same, and has answered exactly what `recv` logs |
| Safety.AcknowledgedPosition | a4/rcs_t.cc:220-230 | an acknowledgement that matches moves the sender on over a packet that is queued, or, when it runs ahead, over one numbered 0 |
| Safety.HearAckKeeps | a4/rcs_t.cc:220-230 | hearing an acknowledgement, or a FIN, keeps the invariant |
| Safety.AcksAreHarmless | a4/rcs_t.cc:332-332 | no number the receiver acknowledges, "0 - 1" included, is that of a packet it has yet to queue, unless that packet follows a zero end |
| Safety.ArrivesInWindow | a4/rcs_t.cc:337-344 | with the peers in step, a packet with the expected number is the expected packet, any other one is the packet before it |
| Safety.ArrivesWhenAhead | a4/rcs_t.cc:337-344 | with the sender ahead, a packet with the expected number is a zero end or the first fragment behind zero ends |
| Safety.ArrivesNext | a4/rcs_t.cc:340-344 | a packet with the expected number is the next packet, or the one behind zero ends, or a zero end once more |
| Safety.QueueKeeps | a4/rcs_t.cc:340-344 | queueing such a packet keeps the queue equal to the packets but for repeated zero ends |
| Safety.ReceiverHearsKeeps | a4/rcs_t.cc:330-384 | every receive of the receiver, in a pass or lingering, keeps the invariant and queues at most one packet |
| Safety.StepKeeps | a4/rcs_t.cc:185-407 | every step of either peer, timeouts and closings included, keeps the invariant over both peers and both channels |
| Safety.RunKeeps | a4/rcs_t.cc:185-407 | and so does every run |
| Repeats.StartsWithThePackets | a4/rcs_t.cc:340-344 | a queue that differs from the packets by repeats, of which only the last can be a zero end, starts with all of them; with no zero end it is them |
| Records.StepKeepsRecord | a4/rcs_t.cc:328-355 | every step keeps: a pass has queued the beginning of one send, and in the end all of it |
| Delivery.QueuedUpToRepeats | a4/rcs_t.cc:185-384 | for any sends the queue is the packets up to some point in order, but for zero ends repeated on the spot, and the sender is at that point, or one behind, or ahead over packets numbered 0 |
| Delivery.OnlyPacketsAreQueued | a4/rcs_t.cc:340-344 | nothing is queued but packets of the sends and FINs |
| Delivery.OnlyZeroEndsAreSkipped | a4/rcs_t.cc:216-235 | a sender that has run ahead up to a start of send has skipped nothing but zero ends |
| Delivery.ReturnedMeansQueued | a4/rcs_t.cc:189-208 | for any sends: once the first t have returned without a FIN, the queue holds all their packets in order, but for zero ends repeated on the spot |
| Delivery.RecordsUpToRepeats | a4/rcs_t.cc:328-355 | for any sends, a pass that ends without closing has queued nothing, one whole send, or a zero end once more |
| Delivery.WholeRunSafety | a4/rcs_t.cc:185-384 | what is queued is an exact prefix of the packets of all countable sends, at most one ahead of the acknowledged ones |
| Delivery.AcknowledgedMeansQueued | a4/rcs_t.cc:370-384 | whatever `finalizeRecv` discards and acknowledges, a packet counts as acknowledged only once it is queued |
| Delivery.AcknowledgementsAreSound | a4/rcs_t.cc:216-235 | if every send but the last is countable, the acknowledged packets have been queued in order, after every run |
| Delivery.Completion | a4/rcs_t.cc:189-208 | if every send but the last is countable, a send that is over without a FIN has all its packets and its end queued at their very place |
| Delivery.RecordAtomicity | a4/rcs_t.cc:328-355 | for countable sends, a pass that ends without closing has queued nothing or exactly the next send |
| Delivery.StaleEndsArriveOnlyAtAStart | a4/rcs_t.cc:350-353 | an end of send with another number than expected is met only while number 0 is expected, for any sends |
| Delivery.NothingIsStranded | a4/msg_buffer_t.cc:47-48 | between the peers no message is queued whose bytes could never be read, for any sends |
| EndToEnd.Conservation | a4/rcs_t.cc:325-363 | after any run for any packets, results and unread bytes make up the bytes queued |
| EndToEnd.ResultsAreTheSentBytes | a4/rcs_t.cc:325-363 | the results of successive calls, of any sizes, are a prefix of the bytes of all sends, each within one send, for any sends |
| EndToEnd.ReturnedMeansReadOrUnread | a4/rcs_t.cc:189-208 | for any sends: once the first t have returned without a FIN, their bytes have been handed out or lie in the buffer |
| Marks.CollapsedFlattensAlike | a4/msg_buffer_t.cc:44-75 | repeated zero ends make repeated marks in the stream, and nothing else |
| Marks.UnbrokenAlike | a4/msg_buffer_t.cc:44-75 | what lies between two marks of a stream does so in every stream that differs by repeated marks |
| EndToEnd.EmptyResultMeansClosed | a4/rcs_t.cc:356-362 | a positive-size call comes back empty exactly if closing with nothing left; `read` is never called on an empty buffer; for any sends, a lone mark included |
| CleanRuns.AnyPositionCanBeReached | a4/rcs_t.cc:185-384 | every packet of every series of sends gets through in a run without a fault, which the contract says |
| Limits.AnEndNumberedZeroIsUnsafe | a4/rcs_t.cc:340-344 | if a send is not countable, its end can be queued any number of times, more often than it occurs among the packets of the sends |
| Limits.SafeExactlyIfCountable | a4/rcs_t.cc:185-384 | every run queues in order if and only if every send is countable |
| Limits.AnEndNumberedZeroAcknowledgesTheNextSend | a4/rcs_t.cc:225-227 | if a send before the last is not countable there is a run in which more is acknowledged than was received |
| Limits.AcknowledgedExactlyIfEarlierCountable | a4/rcs_t.cc:216-235 | on every run only queued packets are acknowledged if and only if every send but the last is countable |
| Returns.FinStopsSend | a4/rcs_t.cc:189-209 | a send gets as far as it would without the first FIN and all behind it, and is closed by it exactly if something is left to be acknowledged |
| Returns.SendGetsAsFarAsAcked | a4/rcs_t.cc:189-235 | without a FIN, a send gets past a packet if and only if the arrivals hold matching acknowledgements up to it in order: taking the first match loses nothing |
| Returns.LengthIsRightExactlyIf | a4/rcs_t.cc:183-209 | the length that `send` returns is the number of bytes acknowledged if and only if the arrivals before the first FIN hold acknowledgements of all fragments in order |
| Returns.CutShort | a4/rcs_t.cc:189-209 | a FIN can stop the sending behind any packet |
| Returns.LengthIsWrongAfterAFin | a4/rcs_t.cc:183-209 | a single FIN: `send` ends with nothing acknowledged, whatever data it was given |
| Calls.CallReturnsExactlyIf | a4/rcs_t.cc:325-384 | for every state of the buffer and all arrivals: a call of `recv` comes to its read, or to its empty result, if and only if the channel is closed or the arrivals complete as many passes as it takes to have a byte, or a FIN |
| Calls.BringsExactlyIfItOpens | a4/rcs_t.cc:340-344 | a pass over a peer's messages brings a byte if and only if a first fragment comes before its end |
| Calls.LeftoverIsReadExactlyIf | a4/rcs_t.cc:316-363 | with bytes left in the buffer, that is one more whole pass among the arrivals |
| Remainder.TheRestIsWithheld | a4/rcs_t.cc:316-363 | for every send and every smaller size, a run without a fault: one call returns that many bytes, the next one waits with the rest in the buffer |
| Retrying.QueuedEndMeansEarlyTimeout | a4/rcs_t.cc:328-332 | for countable sends, every reachable state with an end queued but not acknowledged, the receiver in a pass again and nobody closing is an early timeout |
| Retrying.AcknowledgedExactlyIf | a4/rcs_t.cc:328-332 | after an early timeout of `finalizeRecv`, whatever is under way, the end can be acknowledged if and only if an acknowledgement of it is under way or it is numbered 65535 |
| Retrying.SenderClosesExactlyOnFin | a4/rcs_t.cc:220-230 | a sender whose application is in `send` closes if and only if it hears a FIN |
| Retrying.SendCanReturnExactlyIf | a4/rcs_t.cc:216-235 | after an early timeout, whatever is under way, `send` can still return if and only if its end can be acknowledged or the receiver has something left to read |
| Retrying.LostAcknowledgementsBlockSend | a4/rcs_t.cc:216-235 | for every countable send with another end there is a run after which that end is never acknowledged, and neither `send` nor `recv` returns as long as the sender's application does not close |
| Closing.FinKeepsTheUnreadBytes | a4/rcs_t.cc:302-311 | a FIN closes and leaves the unread bytes as they are, even if 666 is the expected number |
| Turns.LingeringOnAClosedSocketNeverEnds | a4/rcs_t.cc:375-381 | on a closed socket the loop of `finalizeRecv` consumes any number of receives without ending |
| Closing.RecvReturnsAfterFinExactlyFromAPass | a4/rcs_t.cc:330-355 | after a FIN `recv` comes to its end if and only if the FIN was heard in a pass |
| Closing.ClosedStaysClosed | a4/rcs_t.cc:398-407 | once closed, nothing is queued, and results plus unread bytes stay the same |
| Closing.LeftoverComesOutInOrder | a4/rcs_t.cc:358-362 | positive-size calls on a closed channel return the leftover bytes in order, empty only when all are out, and enough calls return all |
| Closing.ClosingRightAfterASendHangsRecv | a4/rcs_t.cc:370-384 | for every send there is a fault-free run, as the contract says, in which the sender closes after its `send` and the receiver's `recv` never returns a byte |
| Lockstep.RoundProgresses | a4/rcs_t.cc:220-230 | one packet sent and answered never loses ground; if nothing goes wrong, it gains one packet or ends the lingering over the send before |
| Lockstep.AtTheStart | a4/rcs_t.cc:80-89 | a fresh pair of peers meets the condition of the next two |
| Lockstep.SendEndsUnderFiniteFaults | a4/rcs_t.cc:189-206 | N fragments and at most K faulty rounds: acknowledged and received whole after at most N + 1 + K packets sent |
| Lockstep.SeriesEndsUnderFiniteFaults | a4/rcs_t.cc:370-384 | a whole series: its packets, one for each send but the first, and one for each faulty round |
| Lockstep.SendEndsWithinASeries | a4/rcs_t.cc:189-206 | N + 1 + K packets for any send of a series, with one more packet if `finalizeRecv` throws its first fragment away |
| Livelock.NothingEverHappens | a4/rcs_t.cc:375-381 | while `finalizeRecv` lingers, the end of an empty send is answered with an old number however often it arrives |
| Livelock.AnEmptySendBehindAnotherGetsNowhere | a4/rcs_t.cc:375-381 | for every empty send behind a countable one, a run without a fault up to a state in which no number of uninterrupted rounds changes anything |
| Reordering.ReorderingIsHarmless | a4/rcs_t.cc:187-205 | in any order and number of copies, with at most 65536 packets a prefix is queued, and with at most 65535 a finished send is received whole |
| Reordering.TooManyPacketsAreAcknowledgedUnheard | a4/rcs_t.cc:332-332 | with more than 65535 there is a run in which the sender finishes and the receiver has not got everything |
| Reordering.CompletionExactlyUpToTheBound | a4/rcs_t.cc:187-205 | so for completion the bound of 65535 packets is exact |
| Reordering.AFragmentTakesThePlaceOfTheEnd | a4/rcs_t.cc:340-344 | with more than 65536 there is a run that queues an old fragment in place of the end |
| Reordering.PrefixExactlyUpToTheBound | a4/rcs_t.cc:340-344 | so for the order of the queue the bound of 65536 packets is exact |

## Left out

- `accept`, `connect`, `bind`, endpoints and `getSockName`: addresses, and a change of roles; one established pair of peers is assumed.
- `rcs.cc` and the table of sockets: wrappers and a counter, easy members only.
- `operator<<`, packet inspection, the test harness, the sample applications and `mybind.c`: printing and system calls.
- The sources under a2 and a7: a separate exercise and a report.
- Both peers sending at once: an acknowledgement is recognised by its number alone, so the code gives no guarantee there.
- Timeout lengths and probabilities: a timeout may happen at any receive, and any fault at any datagram.
- RawSend: the return value, which nobody uses, is that of UcpSendTo, and what becomes of the bytes on their way is the subject of FatesCoverFaults.
- Send: the data is a value and not memory, because the code only reads it.
- SendEndsUnderFiniteFaults: excludes FINs and, as Undisturbed says, an early end of finalizeRecv, because after one the code need not finish (LostAcknowledgementsBlockSend).
- SendEndsWithinASeries: is about series as Playable says: an empty send behind another need not end (AnEmptySendBehindAnotherGetsNowhere), and behind a zero end the rounds may carry the sender ahead of the receiver.
- CompletionExactlyUpToTheBound: covers one transfer up to the end of its first pass; behind that a repeated first fragment would be queued again.
- LostAcknowledgementsBlockSend: is about countable sends; an end numbered 0 is queued again instead, as Limits shows.
- The two nested loops of `recv` are four methods of Socket, that of `finalizeRecv` two, and the loop of `read` three of MsgBuffer; they do the same steps in the same order.
- Addition in `size_t` and the size of the receive buffer are unbounded.
