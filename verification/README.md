# Verification of the message bus core

A Dafny model of the parts of the developer driver components that carry the message bus: the session protocol with
its manager, the checksum and the block store of the transfer protocol, the router's bookkeeping, and the receive loop of
a transport. `dafny verify dfyconfig.toml` checks all of it.

**The session protocol** is modelled in layers, each tied to those before it.

* As objects: `TransmitWindow` and `ReceiveWindow` are the two rings with their arrays, counters and permits; `Session` is
  the object around them. Ghost fields keep what the rings forget: everything ever sequenced with the time of its first
  transmission, and the partial map of what is buffered.
* As values: `OutgoingStream`, `IncomingStream` and `SessionSteps` say what one step makes of a session and which frames
  it transmits. Every method of the objects is proved to do the step of the same name to the object's value. The ring size
  is any positive number; where a theorem needs it to fit a byte it says so.
* As a system: `Protocol` puts one connecting client, all the server sessions its (possibly duplicated) request gives
  rise to, and two wires together. A wire is the set of all frames ever sent on it, so a frame may be delivered never,
  once, often, and in any order. Each public call, each update (or the rest of one that had to wait) and each delivery is
  one step. The clock and the outcome of every transmission are arbitrary (`Env`). `ProtocolSafety` proves the invariant
  of this system; `SessionTheorems` draws from it what the protocol promises, for every run; `FlowControl` bounds what one
  session may send over any course its life takes. `SessionManagers` proves that the managers' tables take messages where
  these runs say.
* By its effects: `SessionEffects` says what each call, message and update must bring about - data that arrives is kept,
  acks acknowledge, what is overdue is resent, a shutdown sends its Fin - in terms of the session before and after,
  without the functions that compute it. `Handshake` and `Conversation` put these together: whatever a client wants to
  say, some run of the system establishes both ends, delivers all of it and ends the stream.

**The checksum** is a table loop on 32-bit words, proved equal to the bit-serial definition, and shown to detect every
difference confined to four consecutive bytes. **Server blocks** are a byte store in chunks that keeps such a checksum as
it grows. **The router** (`RouterBooks`, `Broadcasts`, `Routers`) keeps two maps and the client manager in agreement,
while clients are removed by two functions that call each other and whose every transmission may fail; a ghost record of
all transmissions says who was sent what, and that every departure the client manager hears of is announced. **The receive
loop** tries each message once, and once more if it was refused and another pass comes.

Four statements one would expect are false of the code; the model keeps the code, states exactly when they hold, and
gives an input for which they do not:

* `DeliveryFiles`: a SynAck that names, as the request it answers, a session that no longer waits for one moves that
  session to another key while it keeps its id. With peers that draw ids as this manager does, this concerns closed
  sessions only (`OpenSessionsAreFiled`), for which the assert in `FindOpenSession` can still fail
  (`AnswerMisfilesClosedSession`).
* `DecisionIsBestAnswer`: a server whose own bounds are the wrong way round accepts a request that straddles its upper
  bound, although there is no common version (`InvertedBoundsAccept`).
* `AddKeepsAgreement`: a client manager that hands out an id the router has already heard of on another transport breaks
  the agreement of the router's maps (`ReusedIdBreaksAgreement`).
* `OldSessionsDropTheirFin`: a session of a version below 2 that is shut down with nothing unacknowledged closes in the
  very update that sequences its Fin, before that was sent (`ShutClientDropsItsFin`); from version 2 on it waits until its
  Fin is acknowledged (`TimersClose`).

The comment on fast retransmission promises one additional packet for every duplicate ack; the code does not check that
there is one (`FastRetransmitIsCurrent`).

## Model

| member | source | states |
|---|---|---|
| `Crc32.CRC32` | source/DevDriverComponents/inc/ddPlatform.h:325-368 | the table loop computes the bit-serial reflected CRC-32 (section 8 of RFC 1952) of the buffer, continued from any earlier checksum |
| `Crc32.TableEntryIsEightBitSteps` | source/DevDriverComponents/inc/ddPlatform.h:327-361 | every one of the 256 table entries is its index after eight bit steps of the register |
| `Crc32.TableStepIsByteStep` | source/DevDriverComponents/inc/ddPlatform.h:363-366 | one turn of the table loop does what feeding the byte and shifting it out bit by bit does, for every register value |
| `Crc32.ChecksumConcat` | source/DevDriverComponents/inc/ddPlatform.h:325-368 | the checksum of a concatenation is the checksum of the second part continued from that of the first |
| `Crc32.CheckValue` | source/DevDriverComponents/inc/ddPlatform.h:325-368 | the checksum of the digits 1 to 9 is 0xCBF43926, the check value published for this CRC: register and result are complemented |
| `Crc32.BitStepIsLinear` | source/DevDriverComponents/inc/ddPlatform.h:363-366 | the register step is linear over exclusive or |
| `Crc32.BitStepsAreInjective` | source/DevDriverComponents/inc/ddPlatform.h:363-366 | no two register values become one: the step can be undone |
| `Crc32.FeedIsOneWord` | source/DevDriverComponents/inc/ddPlatform.h:363-366 | feeding up to four bytes is feeding the word they pack into, then shifting |
| `Crc32.BurstReachesTheEnd` | source/DevDriverComponents/inc/ddPlatform.h:363-367 | a difference within four bytes survives whatever follows it |
| `Crc32.BurstIsDetected` | source/DevDriverComponents/inc/ddPlatform.h:325-368 | two buffers of equal length that differ at most within four consecutive bytes have equal checksums if and only if they are equal |
| `TransferBlocks.HistoryOfABlock` | source/DevDriverComponents/src/ddTransferManager.cpp:216-267 | after any history a block holds exactly what was written since the last reset, its checksum is the one-shot checksum of that, it fits its chunks, and without a reset it uses exactly as many chunks as it needs; it is closed exactly if it was closed since that reset |
| `TransferBlocks.StepHolds` | source/DevDriverComponents/src/ddTransferManager.cpp:216-267 | each operation extends the content, the checksum and the chunk count together |
| `TransferBlocks.ServerBlock.constructor` | source/DevDriverComponents/inc/ddTransferManager.h:90-100 | a new block is empty, open, and has no transfers pending |
| `TransferBlocks.ServerBlock.Grow` | source/DevDriverComponents/src/ddTransferManager.cpp:223-234 | adds whole chunks, only for what the free space cannot hold, and keeps the content |
| `TransferBlocks.ServerBlock.Write` | source/DevDriverComponents/src/ddTransferManager.cpp:216-242 | an in-place write is the append of the history lemma, checksum included |
| `TransferBlocks.ServerBlock.Close` | source/DevDriverComponents/src/ddTransferManager.cpp:245-250 | closing changes nothing but the flag |
| `TransferBlocks.ServerBlock.Reset` | source/DevDriverComponents/src/ddTransferManager.cpp:253-258 | a reset empties and reopens the block and keeps its chunks |
| `TransferBlocks.ServerBlock.Reserve` | source/DevDriverComponents/src/ddTransferManager.cpp:261-267 | a reservation makes room and changes no content; on a closed block it does nothing |
| `TransferBlocks.ServerBlock.BeginTransfer` | source/DevDriverComponents/src/ddTransferManager.cpp:270-282 | counts up; the completion event is clear while anything is pending |
| `TransferBlocks.ServerBlock.EndTransfer` | source/DevDriverComponents/src/ddTransferManager.cpp:285-300 | counts down; the completion event is signaled exactly when nothing is pending |
| `OutgoingStream.LatestOfRecent` | source/DevDriverComponents/src/session.cpp:322-354 | of the last ring-full of sequence numbers each is the latest in its slot |
| `OutgoingStream.DistinctSlots` | source/DevDriverComponents/src/session.cpp:322-354 | two different sequence numbers less than a ring apart never share a slot |
| `OutgoingStream.LiveSlotFrame` | source/DevDriverComponents/src/session.cpp:720-747 | a live message is what a transmission from its slot puts on the wire |
| `OutgoingStream.SlotFrameIsLoggedOrBlank` | source/DevDriverComponents/src/session.cpp:188-208 | any transmission from the ring carries the message logged under its own number, or a blank slot |
| `OutgoingStream.FastRetransmitIsCurrent` | source/DevDriverComponents/src/session.cpp:188-208 | the unbounded fast retransmission of number q carries message q if and only if q was ever sequenced; otherwise something older |
| `OutgoingStream.AcknowledgeIsValid` | source/DevDriverComponents/src/session.cpp:131-175 | acknowledging keeps the counters in order, forgets no message and never passes what was sent or acknowledged |
| `OutgoingStream.AverageWithinHull` | source/DevDriverComponents/src/session.cpp:139-172 | one acknowledgement leaves the round trip average within the hull of its previous value and of the samples that enter it |
| `OutgoingStream.TimeoutBounds` | source/DevDriverComponents/src/session.cpp:710-715 | every retransmission timeout lies in 200 to 2000 ms and does not shrink with the number of rounds |
| `IncomingStream.FirstGap` | source/DevDriverComponents/src/session.cpp:253-269 | the scan stops exactly at the first missing sequence number of the window |
| `IncomingStream.CurrentWindowSize` | source/DevDriverComponents/src/session.cpp:645-657 | the advertised window lies between one and the ring size less its half |
| `IncomingStream.StoreIsValid` | source/DevDriverComponents/src/session.cpp:213-299 | storing any message of the window keeps the buffer a map of distinct numbers in the window with no gap before the expected one, which moves exactly if it was the one stored |
| `IncomingStream.TakeIsValid` | source/DevDriverComponents/src/session.cpp:842-890 | reading the next message keeps that invariant |
| `TransmitWindows.TransmitWindow.constructor` | source/DevDriverComponents/src/session.h:235-251 | an empty ring is the empty log, with all permits |
| `TransmitWindows.TransmitWindow.LiveSlot` | source/DevDriverComponents/src/session.cpp:131-211 | every live sequence number sits valid in its own slot with its own message and first transmission time: the asserts hold |
| `TransmitWindows.TransmitWindow.NextSlotIsFree` | source/DevDriverComponents/src/session.cpp:318-331 | whoever holds a permit finds the next slot unused |
| `TransmitWindows.TransmitWindow.Write` | source/DevDriverComponents/src/session.cpp:312-355 | writing a slot appends to the unbounded log the ring stands for |
| `TransmitWindows.TransmitWindow.Invalidate` | source/DevDriverComponents/src/session.cpp:137-163 | the acknowledging pass never meets a foreign slot, frees a permit per message, and blends the round trip samples in order; which messages it covers is pinned by `SessionEffects.AcksAcknowledge` |
| `TransmitWindows.TransmitWindow.MarkAcknowledged` | source/DevDriverComponents/src/session.cpp:131-183 | the pass and its bookkeeping acknowledge the log up to the number given, but nothing unsent; or count a duplicate |
| `TransmitWindows.TransmitWindow.Holds` | source/DevDriverComponents/src/session.cpp:766-796 | the branch for corrupted data is unreachable |
| `TransmitWindows.TransmitWindow.IsDue` | source/DevDriverComponents/src/session.cpp:713-732 | the array and the clock decide as the specification does whether a message is due; when that is, say `SessionEffects.TimeoutIsDue` and `RoundResendsOverdue` |
| `TransmitWindows.TransmitWindow.SlotContent` | source/DevDriverComponents/src/session.cpp:191-202 | a retransmission reads the slot whatever it holds, and changes only the window size in it |
| `TransmitWindows.TransmitWindow.NoteTransmission` | source/DevDriverComponents/src/session.cpp:774-781 | a first transmission is stamped and spends one unit of the peer's window |
| `ReceiveWindows.ReceiveWindow.constructor` | source/DevDriverComponents/src/session.h:272-283 | an empty ring stores nothing and holds no permit |
| `ReceiveWindows.ReceiveWindow.SlotInWindow` | source/DevDriverComponents/src/session.cpp:241-256 | a valid slot found where a number of the window belongs holds that number: an overwrite replaces like by like |
| `ReceiveWindows.ReceiveWindow.Place` | source/DevDriverComponents/src/session.cpp:240-251 | placing a message adds it to the map the ring stands for, in order or not |
| `ReceiveWindows.ReceiveWindow.Scan` | source/DevDriverComponents/src/session.cpp:253-269 | the scan over the valid flags finds the first gap, with a permit for every step |
| `ReceiveWindows.ReceiveWindow.Store` | source/DevDriverComponents/src/session.cpp:223-285 | both together refine the partial map; permits are the messages that may be read |
| `ReceiveWindows.ReceiveWindow.AcknowledgeAll` | source/DevDriverComponents/src/session.cpp:122-129 | an ack covers everything received in order and advertises the current window |
| `ReceiveWindows.ReceiveWindow.StartAfter` | source/DevDriverComponents/src/session.cpp:501-506 | the handshake starts the window after the peer's opening message |
| `ReceiveWindows.ReceiveWindow.Peek` | source/DevDriverComponents/src/session.cpp:853-866 | the next message to read is in its slot: the assert of the reader holds |
| `ReceiveWindows.ReceiveWindow.Take` | source/DevDriverComponents/src/session.cpp:877-879 | reading frees the slot, moves the window and advertises it anew |
| `SessionObjects.Session.constructor` | source/DevDriverComponents/src/session.cpp:74-86 | a new session is closed, with empty rings |
| `SessionObjects.Session.Shutdown` | source/DevDriverComponents/src/session.cpp:892-921 | the object does the step of the same name of the value model, whose runs the theorems are about; so for all members of this class |
| `SessionObjects.Session.SendOrClose` | source/DevDriverComponents/src/session.cpp:90-105 | a busy transport is asked again, a broken one closes the session |
| `SessionObjects.Session.SendAckMessage` | source/DevDriverComponents/src/session.cpp:122-129 | acknowledges what was received in order, with the window as it is |
| `SessionObjects.Session.MarkMessagesAsAcknowledged` | source/DevDriverComponents/src/session.cpp:131-211 | acknowledges, or counts the duplicate and fast retransmits from the third on |
| `SessionObjects.Session.FastRetransmit` | source/DevDriverComponents/src/session.cpp:188-208 | one message further with every duplicate; success resets the timed rounds |
| `SessionObjects.Session.WriteMessageIntoReceiveWindow` | source/DevDriverComponents/src/session.cpp:213-299 | in-window messages are stored, and acknowledged early if five are pending; stale or oversized ones are answered at once; those beyond the window are dropped |
| `SessionObjects.Session.WriteMessageIntoSendWindow` | source/DevDriverComponents/src/session.cpp:301-363 | sequences a message if the state, its size and a permit allow it, and says why not otherwise |
| `SessionObjects.Session.Connect` | source/DevDriverComponents/src/session.cpp:365-399 | a closed session with a valid id queues its request |
| `SessionObjects.Session.BindToServer` | source/DevDriverComponents/src/session.cpp:401-428 | a closed session takes owner, versions and id and listens |
| `SessionObjects.Session.HandleSynMessage` | source/DevDriverComponents/src/session.cpp:482-511 | queues the answer and starts the receive window after the request |
| `SessionObjects.Session.Adopt` | source/DevDriverComponents/src/session.cpp:531-558 | the client takes over id, versions and stream start, and acknowledges |
| `SessionObjects.Session.HandleSynAckMessage` | source/DevDriverComponents/src/session.cpp:513-565 | binds a waiting client; is an ack to all later states |
| `SessionObjects.Session.HandleFinMessage` | source/DevDriverComponents/src/session.cpp:567-587 | stores the Fin and closes, or acknowledges it and is closed |
| `SessionObjects.Session.HandleDataMessage` | source/DevDriverComponents/src/session.cpp:589-606 | data is stored in the three states that take it (`SessionEffects.ArrivalsAreKept`), and ignored in the others |
| `SessionObjects.Session.HandleAckMessage` | source/DevDriverComponents/src/session.cpp:608-629 | the first ack establishes a server session; later ones acknowledge |
| `SessionObjects.Session.HandleRstMessage` | source/DevDriverComponents/src/session.cpp:631-643 | a reset shuts down with the reason in its sequence field |
| `SessionObjects.Session.HandleMessage` | source/DevDriverComponents/src/session.cpp:430-480 | dispatches, and tells the owner of a session just established; without an owner it closes |
| `SessionObjects.Session.UpdateReceiveWindow` | source/DevDriverComponents/src/session.cpp:686-698 | acknowledges what is pending |
| `SessionObjects.Session.Retransmit` | source/DevDriverComponents/src/session.cpp:720-747 | retransmits, in order, the due messages up to the first that is not due or fails; the asserts on slots hold |
| `SessionObjects.Session.RetransmitRound` | source/DevDriverComponents/src/session.cpp:704-760 | a round that resent anything is counted; beyond five rounds the session gives up |
| `SessionObjects.Session.TransmitUnsent` | source/DevDriverComponents/src/session.cpp:762-797 | transmits fresh messages in order until the window is spent or the transport refuses; it terminates |
| `SessionObjects.Session.UpdateSendWindow` | source/DevDriverComponents/src/session.cpp:700-798 | both passes one after the other |
| `SessionObjects.Session.IsSendWindowEmpty` | source/DevDriverComponents/src/session.cpp:666-684 | whether anything is unacknowledged - or, from the SynAck version on, unsent |
| `SessionObjects.Session.UpdateTimeout` | source/DevDriverComponents/src/session.cpp:800-830 | the three closing transitions (`SessionEffects.ShutdownSendsFin`, `TimersClose`); or, exactly while a closing session finds its send ring full, nothing: the call waits |
| `SessionObjects.Session.Resume` | source/DevDriverComponents/src/session.h:112-125 | the update from there to the end of the owner's turn |
| `SessionObjects.Session.UpdateWindows` | source/DevDriverComponents/src/session.h:106-125 | an update up to the owner's turn, or up to where it waits |
| `SessionObjects.Session.UpdateTermination` | source/DevDriverComponents/src/session.h:127-136 | the owner of a closed session is told and let go |
| `SessionObjects.Session.CloseIfOwnedBy` | source/DevDriverComponents/src/session.h:86-97 | the owner is told, and the session orphaned and shut down |
| `SessionObjects.Session.Close` | source/DevDriverComponents/src/session.cpp:923-927 | orphans and shuts down |
| `SessionObjects.Session.Send` | source/DevDriverComponents/src/session.cpp:832-840 | sequences data unless the session is closed |
| `SessionObjects.Session.Receive` | source/DevDriverComponents/src/session.cpp:842-890 | hands out the next message if it fits, or ends the stream; the asserts that this is the Fin of a closing session hold |
| `SessionInvariant.HandleMessageIsReported` | source/DevDriverComponents/src/session.cpp:430-643 | any message to an open session keeps its invariant, buffers nothing but the message, acknowledges nothing but what it says, transmits only logged messages and true acks, and only advances the state |
| `SessionInvariant.RetransmitRoundKeeps` | source/DevDriverComponents/src/session.cpp:704-760 | a timed round changes neither stream and transmits only what the slots hold |
| `SessionInvariant.RoundsAreBounded` | source/DevDriverComponents/src/session.cpp:704-760 | a round that resends is counted, and with six on the count the next one closes the session: the byte counter cannot wrap |
| `SessionInvariant.TransmitKeeps` | source/DevDriverComponents/src/session.cpp:762-797 | fresh transmissions go out in sequence order, one unit of the peer's window each |
| `SessionInvariant.UpdateWindowsIsReported` | source/DevDriverComponents/src/session.h:106-125 | a whole update keeps the invariant and changes nothing but what it may |
| `SessionInvariant.ResumeIsReported` | source/DevDriverComponents/src/session.h:112-125 | so does the rest of an update that had to wait |
| `SessionInvariant.SendKeeps` | source/DevDriverComponents/src/session.cpp:832-840 | Send lengthens the log by exactly its data, and only when it reports success |
| `SessionInvariant.ReceiveKeeps` | source/DevDriverComponents/src/session.cpp:842-890 | Receive returns the next message in order, or reports the end on the Fin of a closing session |
| `SessionInvariant.ConnectOpens` | source/DevDriverComponents/src/session.cpp:365-399 | a connect leaves a session that has queued its request and nothing else |
| `SessionInvariant.SynOpens` | source/DevDriverComponents/src/session.cpp:401-428 | a bound session that gets its request answers it under its own id with its versions |
| `SessionInvariant.SynAckBinds` | source/DevDriverComponents/src/session.cpp:525-558 | the SynAck a client waits for binds it to that server session's id and versions |
| `SessionEffects.ArrivalsAreKept` | source/DevDriverComponents/src/session.cpp:567-606 | in every state that stores it, a Data or Fin message of the window is kept under its number, whatever arrived before; the expected number passes it exactly if it was the missing one, and then moves to the next gap; anything out of place changes nothing kept |
| `SessionEffects.ArrivalsAreAnswered` | source/DevDriverComponents/src/session.cpp:271-298 | stale or oversized data is acknowledged at once, and so is the fifth unacknowledged message; anything else waits for the update |
| `SessionEffects.FinCloses` | source/DevDriverComponents/src/session.cpp:567-587 | a Fin moves an open session to Closing; one that has sent its own Fin acknowledges it and is closed; a second Fin changes nothing |
| `SessionEffects.UpdateAcknowledges` | source/DevDriverComponents/src/session.cpp:686-698 | every update acknowledges everything received in order and not acknowledged yet, and sends nothing if there is nothing |
| `SessionEffects.AcksAndReadsAdvertise` | source/DevDriverComponents/src/session.cpp:645-657 | after an ack or a read the window advertised is the larger half of the ring less what waits to be read, but never nothing |
| `SessionEffects.MarkingAcknowledges` | source/DevDriverComponents/src/session.cpp:131-183 | acknowledging up to a number acknowledges exactly what was sent of it, starts both counts over, and counts a duplicate if there is nothing |
| `SessionEffects.AcksAcknowledge` | source/DevDriverComponents/src/session.cpp:513-629 | every message taken for an ack - in each state, and the SynAck of the handshake - does that |
| `SessionEffects.AcksAverage` | source/DevDriverComponents/src/session.cpp:139-172 | after each message acknowledged in order the average is two thirds the time since it was first sent and one third what it was; retransmissions under way spoil the samples |
| `SessionEffects.DuplicatesResend` | source/DevDriverComponents/src/session.cpp:178-208 | the first two duplicates are counted; from the third on, each resends one message: the first unacknowledged, then the one after it |
| `SessionEffects.TimeoutIsDue` | source/DevDriverComponents/src/session.cpp:710-715 | the timeout is the average, at least 100 ms, times 2, 4, 8, 16, 32 or 64 by the rounds made, at most two seconds |
| `SessionEffects.RoundResendsOverdue` | source/DevDriverComponents/src/session.cpp:704-760 | a timed round resends, in order and as logged, the overdue messages from the first unacknowledged on, up to the first that is not overdue or that the broken transport refuses: one older than two seconds always, one of at most 200 ms never |
| `SessionEffects.UnsentIsTransmitted` | source/DevDriverComponents/src/session.cpp:762-797 | unsent messages go out in order and as logged until none are left, the window is spent or the transport does not take one; only a broken one closes the session |
| `SessionEffects.ShutdownsClose` | source/DevDriverComponents/src/session.cpp:892-921 | without an error an established session starts its graceful close and an opening one ends; with an error any session ends |
| `SessionEffects.ShutdownSendsFin` | source/DevDriverComponents/src/session.cpp:800-808 | with a permit to be had, a session that was shut down sequences its Fin as the last of its log; without one nothing changes |
| `SessionEffects.OldSessionsDropTheirFin` | source/DevDriverComponents/src/session.cpp:800-813 | with an owner, that update closes the session, its Fin unsent, exactly if its version is below 2 and everything sent is acknowledged |
| `SessionEffects.ShutClientDropsItsFin` | source/DevDriverComponents/src/session.cpp:800-813 | a concrete such session |
| `SessionEffects.TimersClose` | source/DevDriverComponents/src/session.cpp:810-829 | the Fin's sender closes exactly when all it sent is acknowledged (and, from version 2 on, all is sent); its receiver exactly when only the Fin is left to read; no other state changes |
| `SessionEffects.ResetsEnd` | source/DevDriverComponents/src/session.cpp:631-643 | a reset shuts a session down with the reason it carries |
| `SessionEffects.SendSequences` | source/DevDriverComponents/src/session.cpp:301-363 | Send fails exactly for a closed session or one that has sent its Fin, for too large a message, and for a full ring; anything else becomes the last message of the log |
| `SessionEffects.ReceiveReturns` | source/DevDriverComponents/src/session.cpp:842-890 | Receive fails exactly before the session is established, with nothing in order, or with too little room; else it hands out the next message or ends the stream |
| `SessionEffects.EstablishmentIsTold` | source/DevDriverComponents/src/session.cpp:457-479 | a message that establishes a session tells its owner, or closes a session that has none; no other message tells anyone |
| `SessionEffects.OwnersAreTold` | source/DevDriverComponents/src/session.h:86-137 | every update gives the owner its turn, and the owner of a closed session is told and let go |
| `SessionEffects.OpeningsAreRefused` | source/DevDriverComponents/src/session.cpp:365-428 | an invalid id, or a session that is not closed, is neither connected nor bound |
| `Versions.DecisionIsBestAnswer` | source/DevDriverComponents/src/baseProtocolServer.cpp:60-99 | the answer is the greatest common version, or a refusal naming the nearest bound because there is none, exactly if the server's range is in order or the request does not straddle its upper bound |
| `Versions.InvertedBoundsAccept` | source/DevDriverComponents/src/baseProtocolServer.cpp:60-99 | a concrete server of the other kind, and a request it wrongly accepts |
| `Versions.RequestedMax` | source/DevDriverComponents/src/sessionManager.cpp:318-331 | requests of session versions before ranges ask for their minimum alone |
| `Versions.ZeroIsTheMinimum` | source/DevDriverComponents/src/session.cpp:543-550 | a negotiated version 0 is the client's own minimum, which is what the client substitutes |
| `ProtocolSafety.StepKeepsInv` | source/DevDriverComponents/src/session.cpp:430-890 | every call, update and delivery, of any frame ever sent, keeps the system invariant: each end holds only what the other logged under the same number, and has returned the data of that log up to its read position |
| `ProtocolSafety.RunsKeepInv` | source/DevDriverComponents/src/session.cpp:430-890 | so every run of a client, its server sessions and a losing, duplicating, reordering network keeps it |
| `Protocol.RunsExtend` | source/DevDriverComponents/src/session.cpp:430-890 | runs are exactly the finite sequences of enabled steps from the start: whatever is enabled can be done next |
| `SessionTheorems.StreamsArePrefixes` | source/DevDriverComponents/src/session.cpp:832-890 | over every run, what Receive returned at one end is a prefix of what Send accepted at the other |
| `SessionTheorems.EndOfStreamIsComplete` | source/DevDriverComponents/src/session.cpp:815-829 | when the end of the stream is reported, or only the Fin is left, everything the peer sequenced has been returned, and its Fin is the last thing in its log |
| `SessionTheorems.EndOfStreamIsFinal` | source/DevDriverComponents/src/session.cpp:308-363 | from then on, in whatever way the run continues, neither the peer's log nor what it accepted nor what was returned changes any more |
| `SessionTheorems.FramesCarryWhatWasLogged` | source/DevDriverComponents/src/session.cpp:188-208 | every stream frame ever on a wire carries what its sender logged under that number; no answer goes to a server and no request to the client |
| `SessionTheorems.AcksAreSound` | source/DevDriverComponents/src/session.cpp:122-163 | in every reachable state neither end takes for acknowledged what the other has not accepted in sequence, and an unbound client nothing at all |
| `SessionTheorems.DrainedMeansAcknowledged` | source/DevDriverComponents/src/session.cpp:666-684 | the drain path closes a session of at least the SynAck version only when all it sequenced, Fin included, is acknowledged |
| `SessionTheorems.GracefulCloseDelivers` | source/DevDriverComponents/src/session.cpp:800-813 | so such a close means the peer has accepted all of it |
| `SessionTheorems.SingleEstablishment` | source/DevDriverComponents/src/sessionManager.cpp:369-407 | of all server sessions a client's request gave rise to, only the one it is bound to ever became established, was heard of or received anything |
| `SessionTheorems.LateSynAckIsReset` | source/DevDriverComponents/src/sessionManager.cpp:386-429 | a SynAck of any other, to a bound client in whatever state, is answered with a reset and changes nothing |
| `SessionTheorems.VersionsAgree` | source/DevDriverComponents/src/session.cpp:531-550 | once both ends are established they hold the same protocol version, the best common one, and the same session version, the lower of the two |
| `SessionTheorems.SessionsNeedAnOverlap` | source/DevDriverComponents/src/sessionManager.cpp:333-364 | a server session exists only if the ranges overlap |
| `SessionTheorems.StepsGoForward` | source/DevDriverComponents/src/session.cpp:430-480 | every step moves every session's numeric state up or to a final Closed, never back, and takes back nothing accepted, returned or reported |
| `SessionTheorems.RunsGoForward` | source/DevDriverComponents/src/session.cpp:430-480 | so does every stretch of every run; a bound client stays bound to the same session |
| `SessionTheorems.CallbacksAreInOrder` | source/DevDriverComponents/src/session.h:86-137 | over every run an owner hears of at most one establishment, at most one termination, and of nothing after that |
| `SessionTheorems.FinReopensAClosedSession` | source/DevDriverComponents/src/session.cpp:569-575 | the lookup's filter matters: a Fin handed to a closed session would reopen it |
| `Handshake.FirstUpdateTransmits` | source/DevDriverComponents/src/session.h:106-125 | the first update of a session that has queued its opening message transmits that, and nothing else |
| `Handshake.SynAckEstablishes` | source/DevDriverComponents/src/session.cpp:525-558 | a waiting client with an owner is established by a SynAck, and acknowledges it |
| `Handshake.AckEstablishes` | source/DevDriverComponents/src/session.cpp:608-616 | a server session with an owner is established by the ack of its SynAck |
| `Handshake.HandshakeCanSucceed` | source/DevDriverComponents/src/sessionManager.cpp:300-430 | whenever the ranges overlap, some run establishes both ends, bound to each other |
| `Handshake.HandshakeSettles` | source/DevDriverComponents/src/sessionManager.cpp:300-430 | that run leaves both ends idle, with nothing lost or unacknowledged |
| `Handshake.RefusalsAreHeard` | source/DevDriverComponents/src/session.cpp:631-643 | a reset that answers a request closes the client's session with the reason of the refusal, and its owner is told |
| `Conversation.OneMoreIsSaid` | source/DevDriverComponents/src/session.cpp:832-890 | from any settled state a further message of at most 1384 bytes can be sent, transmitted, stored, read and acknowledged, which leaves the system settled |
| `Conversation.ConversationEnds` | source/DevDriverComponents/src/session.cpp:800-890 | from any settled state of session version 2 the client can shut down, its Fin be delivered, and the server read the end of the stream |
| `Conversation.AnythingCanBeSaid` | source/DevDriverComponents/src/session.cpp:832-890 | for any configuration whose versions overlap and any sequence of messages some run accepts all of them at one end and returns all of them at the other, and from session version 2 on ends the stream there |
| `FlowControl.OthersOnlySetWindow` | source/DevDriverComponents/src/session.cpp:567-606 | of the sending half, Data, a Fin and a reset change the peer's window and nothing else |
| `FlowControl.TurnsCount` | source/DevDriverComponents/src/session.cpp:700-798 | over any calls, updates and messages that are no acks, every round that resends is counted once, and nothing else is |
| `FlowControl.RoundsBetweenAcks` | source/DevDriverComponents/src/session.cpp:704-760 | between two acks there are at most six retransmitting rounds, whatever else the peer sends; with six on the count and anything unacknowledged the next update closes the session, with NotReady |
| `FlowControl.WindowIsSpent` | source/DevDriverComponents/src/session.cpp:659-664 | since the last message received, fresh transmissions and what is left of the window make up the window it advertised |
| `FlowControl.MessageAverages` | source/DevDriverComponents/src/session.cpp:513-643 | of all messages only those taken for an ack change the round trip average, and just as the acknowledgement does |
| `FlowControl.AverageStaysWithinHull` | source/DevDriverComponents/src/session.cpp:139-172 | over any course of calls, updates and messages the average stays within the hull of what it was and of the samples taken |
| `FlowControl.AverageFromTheStart` | source/DevDriverComponents/src/session.h:246-246 | over the whole life of a session it stays within the hull of the initial 50 ms and the samples |
| `SessionManagers.ServerIdsAreNotPendingIds` | source/DevDriverComponents/src/sessionManager.cpp:72-73 | an id drawn for a request has the request's low half on top; it differs from every pending client id exactly if that half is not zero |
| `SessionManagers.SessionManager.GetNewSessionId` | source/DevDriverComponents/src/sessionManager.cpp:455-465 | the loop ends if any low half is free for the peer, and draws the first free, non-zero id after the counter |
| `SessionManagers.SessionManager.EstablishSessionForClient` | source/DevDriverComponents/src/sessionManager.cpp:180-205 | a connecting session is filed under the fresh id it was given |
| `SessionManagers.SessionManager.RegisterProtocolServer` | source/DevDriverComponents/src/sessionManager.cpp:207-213 | one server per protocol |
| `SessionManagers.SessionManager.FindOpenSession` | source/DevDriverComponents/src/sessionManager.cpp:254-269 | finds a session exactly if one is filed there and not closed |
| `SessionManagers.SessionManager.AcceptRequest` | source/DevDriverComponents/src/sessionManager.cpp:300-367 | refuses, rejects or binds a fresh session, with the reason and version the reset will carry |
| `SessionManagers.SessionManager.HandleReceivedSessionMessage` | source/DevDriverComponents/src/sessionManager.cpp:286-430 | takes each message where the delivery model says, re-keying included, and answers the rest with a reset |
| `SessionManagers.SessionManager.UpdateSessions` | source/DevDriverComponents/src/sessionManager.cpp:432-453 | updates every session exactly once and keeps just those that are not closed by then |
| `SessionManagers.SessionManager.UnregisterProtocolServer` | source/DevDriverComponents/src/sessionManager.cpp:215-246 | only the registered server itself; its sessions are disowned, the others untouched |
| `SessionManagers.UnregisteredServersAreLeft` | source/DevDriverComponents/src/sessionManager.cpp:231-238 | every session that reported to the server is orphaned, and closing or closed; every other session is unchanged |
| `SessionManagers.DeliveryFiles` | source/DevDriverComponents/src/sessionManager.cpp:369-407 | a message keeps every session under its own id, unless it is a SynAck that re-keys a session which no longer waits for one: then it never does |
| `SessionManagers.RequestsAreQueued` | source/DevDriverComponents/src/sessionManager.cpp:180-205 | a connecting client's session waits under its id with exactly the request for the versions wanted; nothing else in the table changes |
| `SessionManagers.AnswerMisfilesClosedSession` | source/DevDriverComponents/src/sessionManager.cpp:386-404 | the concrete case: the answer to a connect that was given up misfiles its closed session |
| `SessionManagers.StepKeepsOrder` | source/DevDriverComponents/src/sessionManager.cpp:180-465 | with peers that draw ids this way, every step keeps open sessions under their own ids, and the low ids for sessions that still wait |
| `SessionManagers.ManagersAreOrdered` | source/DevDriverComponents/src/sessionManager.cpp:180-465 | so does every run from an empty table |
| `SessionManagers.OpenSessionsAreFiled` | source/DevDriverComponents/src/sessionManager.cpp:254-269 | so in every run every open session is found under its own id |
| `SessionManagers.ClientDeliveriesAgree` | source/DevDriverComponents/src/sessionManager.cpp:286-430 | a connecting client's manager, active or not, does exactly what the protocol runs have deliveries do |
| `SessionManagers.ServerDeliveriesAgree` | source/DevDriverComponents/src/sessionManager.cpp:286-430 | so does the server's manager, except that a session its protocol server rejects stays in the table, closed |
| `SessionManagers.PassAgrees` | source/DevDriverComponents/src/sessionManager.cpp:432-453 | a manager's update does to each session in its table an update and a termination of the protocol runs, and drops it exactly if the run does |
| `SessionManagers.ClientUpdatesAgree` | source/DevDriverComponents/src/sessionManager.cpp:432-453 | so the client manager's table follows the runs over updates as well, and sends the frames they send |
| `SessionManagers.ServerUpdatesAgree` | source/DevDriverComponents/src/sessionManager.cpp:432-453 | and so does the server manager's, for all its sessions at once |
| `SessionManagers.RejectedLeavesAtUpdate` | source/DevDriverComponents/src/sessionManager.cpp:357-363 | the next update removes it as if it had never been there |
| `RouterBooks.AddKeepsAgreement` | source/DevDriverComponents/listener/routerCore.cpp:94-119 | adding keeps the two maps and the client manager in agreement exactly if the id is unknown, or known on the same transport and, if registered, as registered |
| `RouterBooks.ReusedIdBreaksAgreement` | source/DevDriverComponents/listener/routerCore.cpp:94-119 | a concrete case where it does not |
| `RouterBooks.AddFreshClient` | source/DevDriverComponents/listener/routerCore.cpp:94-119 | the usual case of it: one more client, known and reached at its address |
| `RouterBooks.RemovesTwice` | source/DevDriverComponents/listener/routerCore.cpp:122-195 | removals compose: different clients, each unregistered once |
| `RouterBooks.DetachThenForget` | source/DevDriverComponents/listener/routerCore.cpp:122-153 | a removal with all that its announcement removed is one removal of all of them |
| `RouterBooks.RemovalKeepsAgreement` | source/DevDriverComponents/listener/routerCore.cpp:122-153 | after any removal the maps agree again |
| `RouterBooks.SilenceIsNoticed` | source/DevDriverComponents/listener/routerCore.cpp:318-329 | a client that falls silent survives exactly four rounds |
| `RouterBooks.SendersAreNoted` | source/DevDriverComponents/listener/routerCore.cpp:213-282 | any word but goodbye makes a stranger a client; an answer starts a client's four rounds over; its name makes it identified; nobody else is affected |
| `RouterBooks.QuestionsAreForStrangers` | source/DevDriverComponents/listener/routerCore.cpp:213-250 | strangers are asked for their name, and so are clients that never told it when they connect or answer; never one that did |
| `RouterBooks.AcceptedIsKnown` | source/DevDriverComponents/listener/routerCore.cpp:438-481 | whoever asks and is given an id is known by it at its address, and to the client manager if the id is new; nothing else changes |
| `Broadcasts.LastFailureIsOne` | source/DevDriverComponents/listener/routerCore.cpp:155-192 | a client is singled out for removal exactly if the broadcast failed for some client, and is one of those |
| `Routers.RouterCore.TransmitMessage` | source/DevDriverComponents/listener/routerCore.cpp:293-299 | one transmission to one connection, with any outcome, recorded |
| `Routers.RouterCore.TransmitToClients` | source/DevDriverComponents/listener/routerCore.cpp:172-184 | every client of the transport but the sender is tried once; the last failure is remembered |
| `Routers.RouterCore.TransmitToAll` | source/DevDriverComponents/listener/routerCore.cpp:155-186 | the message goes exactly once to every client, but the sender, of every transport that does not forward and to every forwarding transport but the source, and to nobody else; the last failure is remembered |
| `Routers.RouterCore.SendBroadcastMessage` | source/DevDriverComponents/listener/routerCore.cpp:155-195 | everyone is sent it, and if it failed for someone the last such client is removed; whatever transmissions fail, it ends, removes only clients they failed for, and never one whose removal is under way |
| `Routers.RouterCore.RemoveClient` | source/DevDriverComponents/listener/routerCore.cpp:122-153 | the mutual recursion ends for every pattern of failures; those removed leave both maps, each registered one is unregistered exactly once, and just those departures are announced, in that order, to everyone still there |
| `Routers.RouterCore.AddClient` | source/DevDriverComponents/listener/routerCore.cpp:94-119 | emplaces in both maps, overwriting nothing |
| `Routers.RouterCore.RegisterTransport` | source/DevDriverComponents/listener/routerCore.cpp:811-826 | a fresh handle no client refers to; filed if enabled |
| `Routers.RouterCore.RemoveTransport` | source/DevDriverComponents/listener/routerCore.cpp:828-857 | afterwards no client refers to the handle, however removals cascaded during the iteration |
| `Routers.RouterCore.UpdateClients` | source/DevDriverComponents/listener/routerCore.cpp:306-383 | a due round ages every count, removes all timed out and only those or unreachable ones, and pings everyone left; before it is due nothing happens |
| `Routers.RouterCore.ProcessRouterMessage` | source/DevDriverComponents/listener/routerCore.cpp:197-302 | notes, asks or removes the sender of a system message as its kind says; the question is transmitted to where the message came from, and who cannot be asked is removed |
| `Routers.RouterCore.FindExternalClientByConnection` | source/DevDriverComponents/listener/routerCore.cpp:68-91 | finds a client at the address exactly if there is one |
| `Routers.RouterCore.ProcessConnectRequest` | source/DevDriverComponents/listener/routerCore.cpp:438-500 | a known address is told its id again, a new one the id registered for it; the newcomer is announced to everyone, and the answer says what came of the request |
| `Routers.RouterCore.Welcome` | source/DevDriverComponents/listener/routerCore.cpp:467-477 | the newcomer is filed as registered, and its arrival broadcast to everyone else |
| `Routers.RouterCore.Respond` | source/DevDriverComponents/listener/routerCore.cpp:492-499 | the answer is transmitted, and whoever cannot be reached with it is removed |
| `Routers.RouterCore.ProcessDisconnectNotification` | source/DevDriverComponents/listener/routerCore.cpp:502-524 | a client that says goodbye from its own address is answered and removed; a goodbye from anywhere else changes and sends nothing |
| `Routers.RouterCore.ProcessStatusMessage` | source/DevDriverComponents/listener/routerCore.cpp:525-598 | a query is answered, and so are flags from a client at its own address; anything else changes and sends nothing; who cannot be answered is removed |
| `Routers.RoutingCache.Look` | source/DevDriverComponents/listener/routerCore.cpp:921-957 | every cached entry was once the router's answer for that client |
| `Routers.RouterCore.IsRoutableMessage` | source/DevDriverComponents/listener/routerCore.cpp:606-630 | client management, and system messages with a sender for everyone or the host, are queued; everything with a sender but client management is routed |
| `Routers.RoutingCache.RouteDirected` | source/DevDriverComponents/listener/routerCore.cpp:916-980 | a directed message is transmitted to where cache or router say, in that order, and its result is the outcome of that; a client that cannot be reached is forgotten by both |
| `Routers.RoutingCache.RouteMessage` | source/DevDriverComponents/listener/routerCore.cpp:901-983 | queues and routes just what is to be: a broadcast to everyone, a directed message to its client, whose transmission its result reports; removes only clients that could not be reached |
| `TransportThreads.RouteQueue` | source/DevDriverComponents/listener/transportThread.cpp:60-69 | the whole queue is routed in order; only what is new and refused is queued again |
| `TransportThreads.ReceiveThreadFunc` | source/DevDriverComponents/listener/transportThread.cpp:37-74 | the loop makes exactly the attempts of the specification, in its order |
| `TransportThreads.FirstAttemptsAreArrivals` | source/DevDriverComponents/listener/transportThread.cpp:46-72 | first attempts are the messages received, in order of arrival, none lost or invented |
| `TransportThreads.ArrivalsAreTriedAtOnce` | source/DevDriverComponents/listener/transportThread.cpp:46-72 | each pass tries for the first time exactly what arrived in it |
| `TransportThreads.ResultsAreAnswers` | source/DevDriverComponents/listener/transportThread.cpp:60-69 | each result noted is the router's answer to that attempt |
| `TransportThreads.RetriesAreRefusals` | source/DevDriverComponents/listener/transportThread.cpp:60-71 | what a pass tries again is exactly what the pass before it was refused at the first attempt |
| `TransportThreads.NoRetriesAtFirst` | source/DevDriverComponents/listener/transportThread.cpp:46-72 | the first pass tries nothing again |
| `TransportThreads.RetriesComeFirst` | source/DevDriverComponents/listener/transportThread.cpp:46-72 | a message is tried again before any that was received in a later pass |
| `TransportThreads.AttemptsAreConserved` | source/DevDriverComponents/listener/transportThread.cpp:46-72 | all attempts are the messages received, plus once more those refused before the last pass |

## Left out

- The wrap-around of 64-bit sequence numbers, of the transport handle counter, and of sizes in bytes: they are unbounded here. The 32-bit ack and id counters, the byte-wide round count, 64-bit clock differences and the 32-bit result code in a reset are modelled.
- Sockets, pipes, threads, locks and the containers behind them: interleavings are those of whole calls, updates and deliveries. A transmission has an arbitrary outcome; spinning on a busy transport is taken to end in a delivery or a failure.
- Liveness: a lost final handshake ack is not resent, data after an out-of-order Fin is ignored, and two managers may answer resets with resets. A closing session whose send ring is full may wait for its permit for ever; what is modelled is that its update gets no further until then.
- Rounding of the round trip average: real arithmetic.
- A second client, and the remote client ids in headers: the system has one client and its server sessions, so frames of other conversations and the assert on the sender are not modelled; ids are not reused while old frames are in flight.
- What protocol servers and clients do inside their callbacks: their calls are steps of their own. In particular nobody sends on a session that is still listening, and a protocol server's `AcceptSession` is only its verdict.
- SessionManagers.ServerDeliveriesAgree: the runs of `Protocol` leave a rejected session out at once, while the manager keeps it, closed, until its next update (`RejectedLeavesAtUpdate`).
- SessionManagers.SessionManager.UpdateSessions: a session whose update waits for a permit holds up the whole pass of the code; here the pass goes on with the others.
- SessionManagers.SessionManager.EstablishSessionForClient: holds session values, not shared objects, and does not model the broadcast destination that `Connect` refuses or failing allocations.
- SessionManagers.SessionManager.GetNewSessionId: without a free low half the loop of the code does not end; the method requires one.
- SessionManagers.SessionManager.HandleReceivedSessionMessage: payloads are taken as the kind says, where the code reinterprets whatever bytes arrived.
- SessionObjects.Session.Receive: requires the invariant that the runs keep, because its asserts rest on it.
- FlowControl.RoundsBetweenAcks: for rings of fewer than 256 slots, since the code counts a round's retransmissions in a byte; its rings have 128.
- SessionEffects.RoundResendsOverdue: for a clock that does not run backwards behind a first transmission, since the code subtracts the times as unsigned numbers; so also for `AcksAverage`.
- Conversation.AnythingCanBeSaid: from the client to the server, over a transport that takes everything; that some run gets there, not that every fair one does.
- `HandleClientDisconnection` (a shutdown of the sessions of one peer) and `Destroy` (a shutdown of all, then updates).
- Routers.RouterCore.ProcessRouterMessage: a `ClientInfo` message from a client the router does not know yet is excluded, since the code's assert on it is not implied by what precedes it.
- Routers.RouterCore.ProcessConnectRequest: the client manager is a set whose registration returns an id that is new to it and to the router; for an id the router knows, the agreement that the removals rest on is lost (`AddKeepsAgreement`).
- Routers.RoutingCache.RouteMessage: the cache may know less or other than the router does now; only that its entries were once answers is claimed. Out-of-band messages count as client management; version replies to them and keep-alives change no books.
- Uniqueness of the ids of server blocks: the loop condition in `OpenServerBlock` does not give it. Pull and push transfers themselves.
- The settings reader and writer, the panels, command line tools, URI services, logging and process control: user interface, wrappers of the operating system, or easy members only.
