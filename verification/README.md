# The D-Bus-2 stack: model and proofs

D-Bus-2 is a half-duplex single-wire bus between the parts of a household appliance. The stack modelled here has
three layers, and each is proved to keep what the layer above relies on:

- **The data link layer** (`Crc`, `Ring`, `Link`, `LinkDriver`, `LinkFifo`, `LinkBus`, `LinkFrames`, `LinkReports`,
  `LinkHazard`) handles one byte per interrupt: framing, echo check, CRC, acknowledge, timeouts, and a ring buffer of
  whole messages with wrap markers. For every interleaving of bytes, timeouts, aborts, reads and releases the reader
  gets exactly the delivered frames in order; `LinkBus` says which those are for an observer who has nothing but the
  bytes, the gaps between them and the node's answers. Frames end at the same byte for everybody; what is sent is what
  is stored; both ends agree on the acknowledge; every transmission ends in exactly one report (`LinkReports`); and a
  change within two neighbouring bytes is always noticed.
- **The bus application layer** (`Bal`, `BalDriver`) picks the next message and repeats failed ones. Nothing that was
  requested is forgotten, pending messages leave in priority order, and a message ends with exactly one notice, decided
  by the acknowledge byte on the bus (`Acknowledges`). `Cancels` says what a cancelled message may still do. With the
  DBal layer's own repetitions behind it (`Retries`) the number of transmissions of a message is bounded, exactly.
- **The DBal layer** packs frames into bus messages (`Frames`, `Scan`, `Outbox`), keeps unanswered messages until
  their response comes (`RepeatQueue`, `QueueRuns`), opens and closes connections (`Connection`, `CrossQueue`), and
  tells new messages from repeated ones (`SequenceId`). `Instance` puts these together; `InstanceRuns` and
  `InstanceLine` say what holds of one instance over every run, `GivingUp` when it loses messages, `EndToEnd` and
  `InstanceEnds` what its partner gets, `Answers` how an event's acknowledge comes back, `Handshake`, `HandshakeIds`,
  `HandshakeLag` and `Farewell` what two instances do to each other; `Witnesses`, `Losses` and `Leftover` hold the
  runs in which something is lost.
  While a connection stays up every frame for which send returned true is delivered once and in order. The partner
  parses each delivered message at most once, and does so if and only if its sequence id was near enough to the last
  one it took; the exceptions are listed below. Every saved message is answered or reported lost, exactly one of the
  two. Two nodes of which one enables the other end up connected, and disconnected when one disables.

## How it is built

Each source object that updates its fields in place is a class (`DataLinkLayer`, `BusApplicationLayer`,
`MessagesToRepeat`, `TransmitBuffers`, `ConnectionHandling`, `DbalInstance`, `CrossQueues`) over fields and arrays. The
contract of each of its methods equates the new state, seen as a value, with a function of the old one. The claims are
lemmas about those functions: a step lemma for each operation, and a theorem over all runs. Each interrupt handler and
each task call is one atomic step, as the source disables the receive interrupt around the task parts. Elapsed time is
a flag that says whether the relevant timeout is over; a timer is a flag and an event.

## What the claims assume of the surroundings

- The length of the input buffer is even and below 128, so that the 8-bit count of messages and markers cannot wrap.
- No frame that needs a wrap starts while the buffer is exactly full with 0 < write index = read index. `WrapStores`
  shows that this condition is exact, and `HazardReached` that it comes about with every buffer size.
- The reader releases each returned message once.
- The loop over a received DBal message comes to an end (`Scan.Ends`, exact by `EndsExactly`). A declared length can
  send its 8-bit offset back, so that it never does (`NeverEnds`); it sees what an unbounded offset would see exactly
  when `ScanExact` says so, and for every message that was packed by this layer.
- User callbacks do not call the send functions; a payload pointer is never null where a length is given.
- The DBal instance is the main one: the node only answers commands and queries and sends events. At most one node is
  known, so an instance is found by its partner's address.

## Where the code does something else than one would expect

- An unanswered event that is repeated in a bus message of its own keeps the sequence id of the last message, though
  `original_dbus_driver/DBal/doc/dbal.md:284` promises an increased one (`RepetitionKeepsId`). A partner that took that
  message ignores the repetition, and with it every frame that is appended behind it, sent for the first time or not:
  send returns true, the bus acknowledges the message, and the frame is gone (`RidesOnStaleId`, `LostBehindRepetition`).
- A refused send into an empty transmit buffer uses up a sequence id (`RefusedUsesId`). After 127 of them in a row the
  next message is acknowledged by the partner's link layer but ignored by its DBal layer, frames and all
  (`LostAfterRefusals`).
- Both come from one condition: a message is parsed if and only if its id is 1 to 127 ahead of the last one taken
  (`HearExact`). `ExactlyOnceInOrder` accounts for every message of every run accordingly, `SenderCanTell` puts the
  condition in the sender's own numbers, and `PartnerParses` carries the account over to the runs of an instance. A
  sender that avoids the two cases above loses nothing (`CarefulLosesNothing`).
- A second enable response in CONNECTED, which two simultaneous enables cause, silently drops pending frames
  (`SecondAcceptDrops`, `SimultaneousEnableLoses`). `NothingLostWhileUp` therefore speaks of runs without such a reset;
  every other event is allowed in them.
- Emptying the transmit buffers while a transmission is due leaves a message that finds no announced length, the case
  the source marks as never to happen (`ResetExact`). The link layer then sends what the message before has left in its
  transmit buffer (`LeftoverSent`). After a connection message the partner may take its type for a sequence id
  (`LeftoverTaken`), and then ignores that many real messages (`LeftoverCosts`, `NextMessageLost`).
- A disable response left over from an earlier disable opens a connecting instance, without emptying its buffers
  (`OpensExactly`, `OpeningResets`, `LeftOverResponseOpens`).
- The counter of repeated enable requests survives an attempt that used it up, so that the next attempts end with their
  first acknowledge (`EnableNeedsCounter`).
- An enable request that is repeated while the response is on its way, by its timer or because its acknowledge was
  lost, makes the partner start its sequence ids over while this side keeps counting, and messages are ignored
  (`LateRequest`, `LateAcknowledge`, `TakeResets`, `OutOfStep`); `ReopenCosts` says exactly how many in each
  direction. As long as no node takes such a request while connected nothing is ignored, and without a repeated
  connection message none does (`NothingIgnored`).
- The count of attempts of the response message starts over with a frame that makes it due, but not when the acknowledge
  of the message before does: such a message only has the attempts that one has left (`FullEffort`, `InheritedEffort`).
- A cancel during the first transmission of a message stops nothing: after a failure it is sent again as if it had not
  been cancelled (`CancelTooEarly`). A message that was not sent yet is never sent once it is cancelled, and one that is
  being repeated at most once more (`CancelledIsNotSent`).
- A failed append can leave a header without frames that a later message starts with; it is modelled and harmless.
- Frame delineation also holds for length 253, where the 8-bit counter of a foreign frame passes through zero, and for
  an own frame of length 254. A foreign frame of 254 or 255 bytes and an own one of 255, which
  `original_dbus_driver/dbusdll.c:548` forbids, are left 256 bytes early (`Delineation`); they store nothing.

## Model

| member | source | states |
|---|---|---|
| Crc.FastIsBitwise | original_dbus_driver/dbusdll.c:374-390 | for every register value and byte, the nibble-shift update is eight steps of the shift register with polynomial 0x1021 |
| Crc.CcittUpdateByte | zephyr_dbus_driver/src/StdCrc.c:120-136 | the bit-by-bit loop computes what the nibble-shift update computes, for every state and byte |
| Crc.CcittUpdate | zephyr_dbus_driver/src/StdCrc.c:146-162 | the byte loop computes the CRC of the whole string from any state, so it agrees with the link layer on every string |
| Crc.CcittCalc | zephyr_dbus_driver/src/StdCrc.c:171-179 | the same from the initial value 0xFFFF |
| Crc.CalculateCrc | original_dbus_driver/dbusdll_dbuscan.c:504-530 | the loop of the DBusCAN link layer computes the CRC of the string from initial value 0 |
| Crc.AcceptsIsResidue | original_dbus_driver/dbusdll_dbuscan.c:532-539 | the comparison of the two received CRC bytes succeeds exactly when the CRC over the frame with its CRC bytes is zero |
| Crc.OwnCrcAccepted | original_dbus_driver/dbusdll.c:669-689 | a string followed by its own CRC, high byte first, is accepted |
| Crc.UpdateLinear | original_dbus_driver/dbusdll.c:374-390 | the update is linear over exclusive or, in state and byte together |
| Crc.BurstChangesCrc | original_dbus_driver/dbusdll.c:374-390 | two strings of equal length that differ only within two neighbouring bytes have different CRCs |
| Crc.BurstDetected | original_dbus_driver/dbusdll.c:669-689 | any change confined to two neighbouring bytes of an accepted frame, CRC bytes included, makes the comparison fail |
| Ring.WrapStores | original_dbus_driver/dbusdll.c:592-612 | a wrap keeps every unread message if and only if it is not the case of an exactly full buffer with 0 < write index = read index |
| Ring.BeginExact | original_dbus_driver/dbusdll.c:592-637 | a frame is turned away at its start exactly if its first two bytes find no room beside everything unread and the marker of a wrap, which is 0xFF at the old write index |
| Ring.HazardBreaks | original_dbus_driver/dbusdll.c:603 | in that case the marker lands on an unread length byte and the stored sequence is destroyed |
| Ring.BeginStores | original_dbus_driver/dbusdll.c:592-637 | opening a frame leaves all unread messages alone, adds at most a wrap marker, and has stored the first two bytes or reported overflow |
| Ring.PutStores | original_dbus_driver/dbusdll.c:650-665 | storing a byte leaves all unread messages alone and extends the frame being stored |
| Ring.CommitStores | original_dbus_driver/dbusdll.c:813-819 | committing appends exactly the stored frame to the queue, padding included in the count |
| Ring.ReceiveStores | original_dbus_driver/dbusdll.c:1245-1291 | the reader is handed exactly the oldest unread message, never a wrap marker, also with two markers outstanding |
| Ring.ReleaseStores | original_dbus_driver/dbusdll.c:1293-1324 | a release removes exactly the message returned; the flush branch is never taken |
| LinkFifo.RxAgrees | original_dbus_driver/dbusdll.c:490-929 | for every receive interrupt, the new buffer holds the queue an observer of the bus expects: the old one, plus the frame if this byte acknowledged a frame for this node with right CRC and no overflow |
| LinkFifo.StepAgrees | original_dbus_driver/dbusdll.c:490-1118 | the same for every handler, task, reader and transmit step |
| LinkFifo.TakeReturnsOldest | original_dbus_driver/dbusdll.c:1245-1291 | the reader gets the oldest delivered and unreleased frame byte for byte, or nothing exactly when there is none |
| LinkFifo.FifoOverRuns | original_dbus_driver/dbusdll.c:592-637 | over every run from reset, whatever the bytes and the interleaving of bytes, aborts, reads and releases |
| LinkBus.ReceivesMore | original_dbus_driver/dbusdll.c:541-706 | one more byte of a frame: for every length byte and address the node is idle exactly when the observer, who counts bytes and knows nothing of the node, says the frame is over, and otherwise has that many bytes still to come |
| LinkBus.StartsIsFirst | original_dbus_driver/dbusdll.c:508-531 | a byte opens a frame for the node exactly when it does for an observer who has only the bytes and gaps: none is under way, or it comes late and the node does not owe an acknowledge |
| LinkBus.TakesIsDelivers | original_dbus_driver/dbusdll.c:795-885 | a byte makes the node take a frame exactly when, seen from the bus, it acknowledges a complete frame with right CRC for which there was room |
| LinkBus.RunMatches | original_dbus_driver/dbusdll.c:490-1118 | over every run the queue of the node's own bookkeeping is the one the observer of the bus has written down |
| LinkBus.FifoByBus | original_dbus_driver/dbusdll.c:592-637 | over every run from reset the reader is given exactly the oldest frame that this observer has seen taken and not yet released, or nothing when there is none |
| LinkReports.LateByteIsFirst | original_dbus_driver/dbusdll.c:508-531 | after an interbyte timeout a byte leaves exactly what an idle node makes of it, in every state but SEND_ACK of a receiver; a report, with nibble 0xF, if and only if a transmission was under way |
| LinkReports.FirstByte | original_dbus_driver/dbusdll.c:533-543 | what an idle node makes of a byte: the length of a frame, or a D-Bus-3 frame |
| LinkReports.LateEchoCounts | original_dbus_driver/dbusdll.c:508-531 | a receiver in SEND_ACK evaluates a late echo exactly as one in time |
| LinkReports.TaskEnds | original_dbus_driver/dbusdll.c:1060-1100 | a late task call ends every transmission in idle with exactly one report, of nibble 0, and every reception in idle without one; in time it changes nothing |
| LinkReports.TaskReadies | original_dbus_driver/dbusdll.c:1016-1060 | otherwise it initialises a node, or notes that the bus was idle for long enough, and never reports |
| LinkReports.EchoReports | original_dbus_driver/dbusdll.c:748-793 | a byte read back that is not the one sent ends the transmission with a report of nibble 0xF |
| LinkReports.AckReports | original_dbus_driver/dbusdll.c:841-916 | the sender of a unicast reports the acknowledge of the node addressed, and none for a positive one of another node |
| LinkReports.OwnAckReports | original_dbus_driver/dbusdll.c:795-840 | the sender of a broadcast reports its own acknowledge once read back, and a missing one for any other byte |
| LinkReports.ReceptionIsSilent | original_dbus_driver/dbusdll.c:490-929 | a reception never reports |
| LinkReports.PositiveReport | original_dbus_driver/dbusdll.c:748-916 | over every step a positive report is made only by a byte received in time: for a unicast a positive acknowledge of the node addressed, for a broadcast the own one |
| LinkReports.TransmitExact | original_dbus_driver/dbusdll.c:1120-1243 | a transmit request succeeds exactly when the bus is free for the node and nobody else has begun; it never touches the input buffer |
| LinkReports.AcknowledgeDriven | original_dbus_driver/dbusdll.c:965-1012 | the acknowledge is driven only in time, under the address called: 0x3 when the frame did not fit, else 0x7 for a wrong CRC, else 0xA; in silent mode only the last |
| LinkReports.TransmitInterrupt | original_dbus_driver/dbusdll.c:933-1014 | the transmit interrupt is enabled when an acknowledge becomes due, stays so exactly as long as another byte of the frame is left, and is disabled with the last one, with the acknowledge and with a failed echo |
| LinkReports.StartedIsDue | original_dbus_driver/dbusdll.c:1196-1243 | a started transmission has the transmit interrupt enabled and all its bytes to send |
| LinkReports.PowerFailIsDropped | original_dbus_driver/dbusdll.c:841-885 | message 0xF310 is acknowledged and what was stored of it given up |
| LinkReports.OfflineIsMute | original_dbus_driver/dbusdll.c:1336-1346 | an offline node hears, sends and reports nothing, and is idle once attached again |
| LinkFrames.ReceivingEnds | original_dbus_driver/dbusdll.c:643-746 | from any point inside a frame for this node the acknowledge phase, or idle for a foreign frame, comes after exactly the remaining bytes |
| LinkFrames.Delineation | original_dbus_driver/dbusdll.c:544-590 | for every length byte from 2 on, after the address byte: length + 2 bytes up to the acknowledge phase for an own or broadcast frame, wherever overflow is raised, and length + 3 bytes up to idle for a foreign one, if and only if that is at most 256; otherwise 256 bytes less |
| LinkFrames.SendsByte | original_dbus_driver/dbusdll.c:933-964 | the k-th transmit interrupt puts the k-th byte of length, address, id, data, CRC high, CRC low on the bus, and the echo check waits for exactly that byte |
| LinkFrames.RoundExact | original_dbus_driver/dbusdll.c:748-793 | one transmit interrupt and its echo go on exactly when the echo equals the byte sent |
| LinkFrames.ExchangeExact | original_dbus_driver/dbusdll.c:748-793 | the sender reaches the acknowledge phase exactly when every echo equals the byte sent, and then the whole frame was on the bus |
| LinkFrames.SendsFrame | original_dbus_driver/dbusdll.c:1196-1243 | after a successful transmit request a clean bus carries exactly length, address, id, data and CRC |
| LinkFrames.ReceivesFrame | original_dbus_driver/dbusdll.c:541-706 | these bytes, heard by an idle addressed receiver with room, bring it to the acknowledge phase with the whole message stored |
| LinkFrames.UnicastRoundTrip | original_dbus_driver/dbusdll.c:541-840 | frame round trip: the receiver drives a positive acknowledge and, once that is read back, exactly that message is appended to the queue |
| LinkFrames.OwnAckDelivers | original_dbus_driver/dbusdll.c:795-840 | reading back the own positive acknowledge delivers the stored frame |
| LinkFrames.BroadcastRoundTrip | original_dbus_driver/dbusdll.c:841-885 | for a broadcast any positive acknowledge appends the message, unless it is the power fail message |
| LinkFrames.AckAgreement | original_dbus_driver/dbusdll.c:795-916 | both ends seeing the same byte: delivery implies a positive report; if it is the byte the receiver drove, a positive report implies delivery |
| LinkFrames.DrivesAck | original_dbus_driver/dbusdll.c:965-1010 | the acknowledge a receiver drives is the one AckAgreement speaks of |
| LinkFrames.MessageArrives | original_dbus_driver/dbusdll.c:1196-1243 | two nodes on one clean bus: from a successful transmit request on, the receiver drives a positive acknowledge, the sender reports exactly that one, and the message is in the receiver's queue behind all others |
| LinkFrames.BroadcastArrives | original_dbus_driver/dbusdll.c:841-885 | the same for a broadcast, whose acknowledge the sender drives and reports itself |
| LinkHazard.HazardReached | original_dbus_driver/dbusdll.c:592-612 | for every buffer size, a run from reset in which two frames that fill the buffer are received, the first is read and released and received once more leaves the buffer exactly full, and a frame too long for the rest of it brings about the case in which the marker destroys an unread message |
| LinkDriver.DataLinkLayer.HandleRxEvent | original_dbus_driver/dbusdll.c:490-929 | the receive interrupt over fields and input buffer in place; its new state and report are those of the state machine |
| LinkDriver.DataLinkLayer.HandleTxEvent | original_dbus_driver/dbusdll.c:933-1014 | the transmit interrupt: byte put on the bus and new state |
| LinkDriver.DataLinkLayer.HandleTask | original_dbus_driver/dbusdll.c:1016-1118 | the task handler: timeouts, idle detection, reports of missing acknowledges |
| LinkDriver.DataLinkLayer.BeginFrame | original_dbus_driver/dbusdll.c:592-638 | wrap, space check and the first two bytes of a frame in the buffer |
| LinkDriver.DataLinkLayer.FrameByte | original_dbus_driver/dbusdll.c:643-747 | one byte of a frame being received |
| LinkDriver.DataLinkLayer.EchoByte | original_dbus_driver/dbusdll.c:748-794 | the echo check |
| LinkDriver.DataLinkLayer.OwnAcknowledge | original_dbus_driver/dbusdll.c:795-840 | the acknowledge the node drove itself |
| LinkDriver.DataLinkLayer.ForeignAcknowledge | original_dbus_driver/dbusdll.c:841-916 | the acknowledge of another node |
| LinkDriver.DataLinkLayer.TransmitMessage | original_dbus_driver/dbusdll.c:1196-1243 | started exactly when the bus is free and nobody else has begun; counters, address and status of the new frame |
| LinkDriver.DataLinkLayer.ReceiveMessage | original_dbus_driver/dbusdll.c:1245-1291 | the reader over the buffer in place, skipping a wrap marker |
| LinkDriver.DataLinkLayer.ReleaseDataFromReceivedMessage | original_dbus_driver/dbusdll.c:1293-1324 | the release over the indices in place |
| LinkDriver.DataLinkLayer.BusReadyForTransmission | original_dbus_driver/dbusdll.c:1123-1155 | whether the bus is free, and the ready bit given up while a reception goes on |
| Link.NotReadyWhileSending | original_dbus_driver/dbusdll.c:462-485 | the bus is never taken for free while a frame is sent or its acknowledge is due |
| Bal.TaskForgetsNothing | original_dbus_driver/bal.c:335-432 | a pending message stays pending through a task call unless it is the one handed to the link layer |
| Bal.RequestExact | original_dbus_driver/bal.c:496-521 | a request makes exactly that message pending; one outside its table changes nothing |
| Bal.LockedCall | original_dbus_driver/bal.c:335-420 | a call that is locked out sends and clears nothing, and notes the message that comes next |
| Bal.ServeStep | original_dbus_driver/bal.c:335-432 | a call with work to do sends the first pending message in (subsystem, message) order, or clears the flag of a subsystem without one |
| Bal.DrainsInOrder | original_dbus_driver/bal.c:335-432 | without new requests and with positive acknowledges the calls end, after exactly the pending messages, each once, in (subsystem, message) order; before them the message of which a repetition is pending |
| Bal.EndsExactly | original_dbus_driver/bal.c:544-609 | one confirmation at the first positive acknowledge, or one non-deliverable notice at the first failure n with n - 1 at least the largest limit among the failures so far, and otherwise a retry of the same message |
| Bal.CancelEnds | original_dbus_driver/bal.c:523-541 | a cancelled message under repetition is not tried beyond its next failure |
| Cancels.CancelledIsNotSent | original_dbus_driver/bal.c:523-541 | over every run without a new request a cancelled message that was not sent yet is never sent, and one under repetition at most once more |
| Cancels.RepetitionIsSent | original_dbus_driver/bal.c:523-541 | that once does happen: the repetition that is due goes out in spite of the cancel |
| Cancels.CancelTooEarly | original_dbus_driver/bal.c:523-541 | a cancel during the first transmission stops nothing: exactly when the limit of the failure is above zero the message is sent again |
| Acknowledges.OutcomeOfByte | original_dbus_driver/bal.c:544-609 | for every acknowledge byte: confirmed exactly for low nibble 0xA; else the limit of collisions for 0xF, of missing acknowledges for 0, of negative ones for the rest, decides between giving up and trying again |
| Acknowledges.ArrivedIsConfirmed | original_dbus_driver/dbusdll.c:1196-1243 | both layers: a message that arrives in the receiver's queue over a clean bus is confirmed to the sender's user |
| Acknowledges.SilenceIsMissing | original_dbus_driver/dbusdll.c:1060-1100 | both layers: nobody acknowledges, and the failure counts against the limit of missing acknowledges |
| Acknowledges.CollisionIsCounted | original_dbus_driver/dbusdll.c:748-793 | both layers: a wrong echo counts against the limit of collisions |
| Acknowledges.RefusalIsNegative | original_dbus_driver/dbusdll.c:841-916 | both layers: a negative acknowledge of the node addressed counts against the limit of those |
| Acknowledges.VerdictIsTold | original_dbus_driver/dbusdll.c:965-1012 | both layers: the sender's user gets a confirmation exactly when the frame fitted and its CRC was right; otherwise the failure counts against the limit of negative acknowledges |
| Retries.FailIsBothLayers | original_dbus_driver/DBal/BshDBus2AppLayer.c:386-445 | the counter rule is what a failed transmission does to the bus application layer and, when that gives up, to the instance: the message is due again with these counters, or the instance has given everything up |
| Retries.StartsBelow | original_dbus_driver/bal.c:568-600 | the limit in force never exceeds the largest one, whatever failures the message has had |
| Retries.FailsUse | original_dbus_driver/DBal/BshDBus2AppLayer.c:386-445 | every failure uses up one of the transmissions that the counters of both layers can account for |
| Retries.RetriesEnd | original_dbus_driver/DBal/BshDBus2AppLayer.c:386-445 | whatever both counters are at the start, a message that is never acknowledged is given up after at most (5 + 1) * (1 + largest limit) transmissions, less those the counters stand for |
| Retries.TriesIsProduct | original_dbus_driver/DBal/BshDBus2AppLayer.c:386-445 | the bound is that product |
| Retries.BoundReached | original_dbus_driver/bal.c:568-600 | for every choice of the three limits there are failures that use up all transmissions of the bound but one without the message being given up, so the bound is exact |
| Retries.TransmissionIsFail | original_dbus_driver/DBal/BshDBus2AppLayer.c:386-445 | one transmission, from task call and hand-over to the new request, does to the counters of both layers what the rule says, and leaves the message due again or given up |
| Retries.TransmissionsEnd | original_dbus_driver/DBal/BshDBus2AppLayer.c:386-445 | so over every run of the two layers a message that is never acknowledged is transmitted at most that often, whatever waits behind it |
| Retries.TransmissionsReached | original_dbus_driver/bal.c:568-600 | and for every choice of limits there is a run of one transmission less after which it is still due |
| BalDriver.BusApplicationLayer.GetSubsystemIndex | original_dbus_driver/bal.c:146-167 | the first table entry of the subsystem, or index 0 when there is none |
| BalDriver.BusApplicationLayer.TransmitMessage | original_dbus_driver/bal.c:496-520 | subsystem flag and message bit set; unknown messages are an error and change nothing |
| BalDriver.BusApplicationLayer.CancelTransmitMessage | original_dbus_driver/bal.c:523-541 | message bit cleared, and the running repetition exhausted |
| BalDriver.BusApplicationLayer.Search | original_dbus_driver/bal.c:355-382 | the lowest set bit, or the end |
| BalDriver.BusApplicationLayer.HandleTask | original_dbus_driver/bal.c:335-432 | the task handler with its two search loops |
| BalDriver.BusApplicationLayer.MessageTransmitted | original_dbus_driver/bal.c:544-609 | confirmation, notice or retry, and the retry counters |
| BalDriver.BusApplicationLayer.ClearMessagesToSend | original_dbus_driver/bal.c:641-652 | every message bit before the end entry of the table is cleared, and no other |
| Frames.ParseAppend | original_dbus_driver/DBal/BshDBus2AppLayer.c:1531-1578 | appending a frame to a message whose scan ends at its length appends exactly that frame to the scan |
| Frames.PackParse | original_dbus_driver/DBal/BshDBus2AppLayer.c:2610-2669 | for any list of frames behind any header: the scan recovers types, ids and payloads in order and ends exactly at the data length |
| Frames.FrameBytes | original_dbus_driver/DBal/BshDBus2AppLayer.c:2655-2665 | the bytes of every frame: type 0 to 5, length, service and command id with the high byte first, payload |
| Frames.CutBytes | original_dbus_driver/DBal/BshDBus2AppLayer.c:1534-1543 | what is read at any offset of any bytes, also where the message ends before the payload does |
| Scan.ScanExact | original_dbus_driver/DBal/BshDBus2AppLayer.c:1531-1578 | from any offset the 8-bit scan cuts the frames of the unbounded one and stops at the same offset if and only if the declared lengths keep the offset below 256; it cuts the same frames if and only if the last offset, wrapped, has no frame header behind it |
| Scan.EndsExactly | original_dbus_driver/DBal/BshDBus2AppLayer.c:1531-1578 | the loop over a received message ever ends if and only if it ends within 256 turns, which is what the drivers require |
| Scan.FitsEnds | original_dbus_driver/DBal/BshDBus2AppLayer.c:1531-1578 | with declared lengths that keep the offset below 256 it ends, after exactly the frames of the parser |
| Scan.PackedEnds | original_dbus_driver/DBal/BshDBus2AppLayer.c:1531-1578 | every message whose frames end exactly at its length, as packed ones do, is one of these |
| Scan.NeverEnds | original_dbus_driver/DBal/BshDBus2AppLayer.c:1577 | a nine-byte message whose declared length sends the 8-bit offset back to where it was, so that the loop never ends |
| RepeatQueue.RotateClosesGap | original_dbus_driver/DBal/BshDBus2AppLayer.c:1170-1181 | rotating the pointers and zeroing the last slot closes the gap, and the pointers stay a permutation |
| RepeatQueue.CompactedStep | original_dbus_driver/DBal/BshDBus2AppLayer.c:1194-1204 | one turn of the backward scan compacts one more position |
| RepeatQueue.CompactedKeeps | original_dbus_driver/DBal/BshDBus2AppLayer.c:1190-1212 | afterwards the occupied slots are a prefix in their old order and all others are zeroed; doing it again changes nothing |
| RepeatQueue.CallsExact | original_dbus_driver/DBal/BshDBus2AppLayer.c:1149-1161 | a callback is called for exactly the occupied slots, in order |
| RepeatQueue.ReportsExact | original_dbus_driver/DBal/BshDBus2AppLayer.c:1149-1162 | all callbacks are called for all waiting messages, callback by callback in the order of registration |
| RepeatQueue.FindExact | original_dbus_driver/DBal/BshDBus2AppLayer.c:2492-2520 | in a compact queue the early break is sound: the scan tells whether the message is saved, and else finds the first free slot |
| RepeatQueue.SaveAppends | original_dbus_driver/DBal/BshDBus2AppLayer.c:2538-2571 | a message that is not yet saved goes behind all others, if its payload is short enough and a slot is free; no two saved messages become equal |
| RepeatQueue.AdmitExact | original_dbus_driver/DBal/BshDBus2AppLayer.c:2635-2655 | what may be sent: a frame without response always, a waiting one only as a repetition, any other exactly if its payload has at most 10 bytes and the queue has a place |
| RepeatQueue.CompactedDistinct | original_dbus_driver/DBal/BshDBus2AppLayer.c:1190-1212 | compaction cannot make two saved messages equal |
| RepeatQueue.MarkAccounts | original_dbus_driver/DBal/BshDBus2AppLayer.c:1601-1632 | an ack frame frees exactly the messages it answers and no other |
| RepeatQueue.MarkAllAccounts | original_dbus_driver/DBal/BshDBus2AppLayer.c:1590-1640 | so do all ack frames of a bus message together, each message once |
| RepeatQueue.MarkExact | original_dbus_driver/DBal/BshDBus2AppLayer.c:834-855 | a frame leaves exactly the waiting slots it does not acknowledge: CmdAck for Cmd, QueryAck for Query, EventAck without payload for Event, whole, of the same service and command |
| RepeatQueue.FreedExactly | original_dbus_driver/DBal/BshDBus2AppLayer.c:1601-1632 | the messages freed by a received message are exactly the waiting ones that one of its whole frames acknowledges |
| RepeatQueue.StaysFreed | original_dbus_driver/DBal/BshDBus2AppLayer.c:1601-1632 | a freed message stays freed |
| RepeatQueue.UnexpectedExact | original_dbus_driver/DBal/BshDBus2AppLayer.c:1590-1640 | the frames reported as unexpected are exactly those that are no request and that no message still waits for, earlier frames of the same message considered, in order |
| RepeatQueue.CompactAccounts | original_dbus_driver/DBal/BshDBus2AppLayer.c:1190-1212 | compaction loses and reorders nothing |
| RepeatQueue.SaveAccounts | original_dbus_driver/DBal/BshDBus2AppLayer.c:2538-2571 | a saved message is a new one, behind all others |
| RepeatQueue.LoseAccounts | original_dbus_driver/DBal/BshDBus2AppLayer.c:1139-1143 | clearing moves every waiting message to the lost ones, in order |
| RepeatQueue.BumpAccounts | original_dbus_driver/DBal/BshDBus2AppLayer.c:1264 | counting a repetition changes no message |
| QueueRuns.RunKept | original_dbus_driver/DBal/BshDBus2AppLayer.c:1139-1212 | every sequence of sends, responses, repetitions and clearings keeps the queue compact, without duplicates, and every saved message in exactly one place |
| QueueRuns.EveryMessageInOnePlace | original_dbus_driver/DBal/BshDBus2AppLayer.c:1139-1161 | over every run of the queue, for commands, queries and events alike: each message ever saved is waiting, was freed by a response, or was reported lost, exactly one of the three and once; reports come in the order of saving; no two waiting messages are equal |
| Answers.AcksAreSent | original_dbus_driver/DBal/BshDBus2AppLayer.c:1531-1578 | for every whole event in a received message its acknowledge is appended to the transmit buffer, behind what was there |
| Answers.AcksExactly | original_dbus_driver/DBal/BshDBus2AppLayer.c:1531-1578 | exactly one acknowledge for each different event, in the order of the message, behind what was in the buffer, as long as there are no more of them than can be remembered; and what happens beyond that |
| Answers.PartnerAcknowledges | original_dbus_driver/DBal/BshDBus2AppLayer.c:1531-1578 | a partner that takes a message with the event has its acknowledge waiting in its transmit buffer |
| Answers.AcknowledgeFrees | original_dbus_driver/DBal/BshDBus2AppLayer.c:1601-1632 | a received acknowledge of the event frees it, once, and it is neither waiting nor lost |
| Answers.EventIsAnswered | original_dbus_driver/DBal/BshDBus2AppLayer.c:1531-1578 | end to end: an event that waits, in a message its partner takes, is freed when the message the partner then hands over is taken |
| RepeatQueueDriver.MessagesToRepeat.CloseGap | original_dbus_driver/DBal/BshDBus2AppLayer.c:1170-1181 | the gap closed over slots and pointers in place |
| RepeatQueueDriver.MessagesToRepeat.Organize | original_dbus_driver/DBal/BshDBus2AppLayer.c:1190-1212 | the queue compacted in place; whether a message is left |
| RepeatQueueDriver.MessagesToRepeat.IsSaved | original_dbus_driver/DBal/BshDBus2AppLayer.c:2478-2523 | the search with its early break |
| RepeatQueueDriver.MessagesToRepeat.Save | original_dbus_driver/DBal/BshDBus2AppLayer.c:2538-2571 | the message written into the free slot |
| RepeatQueueDriver.MessagesToRepeat.Free | original_dbus_driver/DBal/BshDBus2AppLayer.c:1601-1632 | every slot the ack frame answers freed, no other |
| RepeatQueueDriver.MessagesToRepeat.LookForAcks | original_dbus_driver/DBal/BshDBus2AppLayer.c:1590-1640 | all frames up to the cut points of the parser matched in order, with the 8-bit offset; exactly the unexpected ones reported |
| RepeatQueueDriver.MessagesToRepeat.FireLost | original_dbus_driver/DBal/BshDBus2AppLayer.c:1149-1161 | the calls of all callbacks, one callback after the other, each in queue order |
| RepeatQueueDriver.MessagesToRepeat.Clear | original_dbus_driver/DBal/BshDBus2AppLayer.c:1139-1143 | all reported, all slots zeroed |
| Outbox.SendGood | original_dbus_driver/DBal/BshDBus2AppLayer.c:2610-2669 | appending keeps the buffers well formed, the transmission due and the frames conserved |
| Outbox.PickGood | original_dbus_driver/DBal/BshDBus2AppLayer.c:982-999 | handing the message over keeps all that, and always finds one of the two announced lengths |
| Outbox.AcknowledgeGood | original_dbus_driver/DBal/BshDBus2AppLayer.c:1807-1814 | a positive acknowledge moves exactly the frames of the sent message to the delivered ones and triggers what was appended meanwhile |
| Outbox.StepGood | original_dbus_driver/DBal/BshDBus2AppLayer.c:982-1020 | the same for every event |
| Outbox.RepetitionsIdentical | original_dbus_driver/DBal/BshDBus2AppLayer.c:990-996 | every link-level repetition puts the same bytes on the bus, whatever was appended meanwhile |
| Outbox.NothingLost | original_dbus_driver/DBal/BshDBus2AppLayer.c:982-1020 | over every run of the buffers: delivered, sent and waiting frames are together exactly the accepted ones in order |
| OutboxDriver.TransmitBuffers.PrepareHeader | original_dbus_driver/DBal/BshDBus2AppLayer.c:2580-2592 | sender, protocol and sequence id of a new message in the buffer |
| OutboxDriver.TransmitBuffers.Store | original_dbus_driver/DBal/BshDBus2AppLayer.c:2649-2659 | the bytes of one frame behind the filled part |
| OutboxDriver.TransmitBuffers.Append | original_dbus_driver/DBal/BshDBus2AppLayer.c:2727-2742 | frame counted and, when the repeat buffer is free, the message triggered |
| OutboxDriver.TransmitBuffers.WriteInDbus2Buffer | original_dbus_driver/DBal/BshDBus2AppLayer.c:982-999 | copied to the repeat buffer on the first attempt, repeated from there afterwards; nothing when the announced length fits neither |
| OutboxDriver.TransmitBuffers.PostAction | original_dbus_driver/DBal/BshDBus2AppLayer.c:1807-1814 | repeat buffer cleared and the next message triggered |
| OutboxDriver.TransmitBuffers.ClearBoth | original_dbus_driver/DBal/BshDBus2AppLayer.c:2204-2208 | both buffers emptied |
| Connection.RunInv | original_dbus_driver/DBal/IoConnectionHandling.c:352-486 | over every sequence of events: READY exactly in CONNECTED or DISCONNECTING, the last notified state is the current one, partner equals backup in DISCONNECTED and CONNECTING |
| Connection.TemporaryEnds | original_dbus_driver/DBal/BshDBus2AppLayer.c:1392-1450 | from initialisation on: a temporary partner never outlives its connection |
| Connection.FreshIds | original_dbus_driver/DBal/IoConnectionHandling.c:808-822 | every new connection starts with both sequence ids before zero, no timer and no repetition counted |
| Connection.EnableEnds | original_dbus_driver/DBal/BshDBus2AppLayer.c:1777-1800 | an enable request that is acknowledged but never answered is repeated exactly as often as the counter allows, then the attempt ends |
| Connection.EnableNeedsCounter | original_dbus_driver/DBal/BshDBus2AppLayer.c:1777-1800 | the counter survives such an end: an acknowledged enable request keeps waiting for its answer if and only if the counter was not used up before |
| Connection.EnableAsks | original_dbus_driver/DBal/IoConnectionHandling.c:692-713 | a user's enable succeeds exactly while disconnected from a known partner, and makes exactly the enable request due |
| Connection.DisableAsks | original_dbus_driver/DBal/IoConnectionHandling.c:719-740 | a user's disable succeeds exactly while connected to a known partner, and makes exactly the disable request due |
| Connection.DisableEnds | original_dbus_driver/DBal/BshDBus2AppLayer.c:1777-1800 | an unanswered disable request is repeated exactly as often as the counter allows, and then the connection is down |
| Connection.PartnerMessage | original_dbus_driver/DBal/BshDBus2AppLayer.c:1341-1388 | each message of the partner in each state: the answer, the next state, the partner, and whether a disable is put off |
| Connection.TemporaryMessage | original_dbus_driver/DBal/BshDBus2AppLayer.c:1396-1450 | who may take the connection over, what it is answered, and who is partner then |
| Connection.OthersIgnored | original_dbus_driver/DBal/BshDBus2AppLayer.c:1650-1730 | a message of anybody else, or a broken one, changes nothing |
| Connection.FirstPartner | original_dbus_driver/DBal/BshDBus2AppLayer.c:1704-1730 | with no partner known the first enable request names the partner |
| Connection.NoPartnerYet | original_dbus_driver/DBal/BshDBus2AppLayer.c:1704-1730 | nothing else names a partner |
| Connection.NotDeliverable | original_dbus_driver/DBal/BshDBus2AppLayer.c:386-445 | a connection message the bus layer gives up: forgotten, due again at once, due again after the wake-up time, or the end of the attempt or of the connection, without a word |
| Connection.UnheardEnds | original_dbus_driver/DBal/BshDBus2AppLayer.c:386-445 | an enable request that no node acknowledges is handed to the bus layer six times in all |
| Connection.BreakCloses | original_dbus_driver/DBal/IoConnectionHandling.c:512-549 | a break that is not followed by a connection in time leaves the instance disconnected |
| ConnectionDriver.ConnectionHandling.ConnectionSm | original_dbus_driver/DBal/IoConnectionHandling.c:352-486 | the state machine over the instance fields in place |
| ConnectionDriver.ConnectionHandling.ActionToConnected | original_dbus_driver/DBal/IoConnectionHandling.c:808-822 | the fields of a new connection |
| ConnectionDriver.ConnectionHandling.ActionToDisconnected | original_dbus_driver/DBal/IoConnectionHandling.c:828-844 | the fields after its end, original partner included |
| ConnectionDriver.ConnectionHandling.DoEnable | original_dbus_driver/DBal/IoConnectionHandling.c:692-709 | false when already enabled or the partner is unknown |
| ConnectionDriver.ConnectionHandling.DoDisable | original_dbus_driver/DBal/IoConnectionHandling.c:719-736 | false unless connected |
| ConnectionDriver.ConnectionHandling.TxPostRepeatTrigger | original_dbus_driver/DBal/BshDBus2AppLayer.c:1777-1800 | timer and counter after an acknowledged request, or the end of the attempt |
| ConnectionDriver.ConnectionHandling.NonDeliverable | original_dbus_driver/DBal/BshDBus2AppLayer.c:386-445 | wake-up break, new attempt or end |
| ConnectionDriver.ConnectionHandling.ConMsgTimerCallback | original_dbus_driver/DBal/BshDBus2AppLayer.c:1303-1311 | the last message once more |
| ConnectionDriver.ConnectionHandling.IsNodeToBeWokenUp | original_dbus_driver/DBal/BshDBus2AppLayer.c:457-477 | a new enable request after the break, only while the recovery time runs |
| ConnectionDriver.ConnectionHandling.BreakProcessTimerCallback | original_dbus_driver/DBal/IoConnectionHandling.c:512-549 | the end of a connection that was not opened again after a break |
| ConnectionDriver.ConnectionHandling.ReceiveConnection | original_dbus_driver/DBal/BshDBus2AppLayer.c:1901-1935 | what a received connection message does to the connection |
| ConnectionDriver.ConnectionHandling.ClassOf | original_dbus_driver/DBal/BshDBus2AppLayer.c:1901-1935 | which of the five cases the message falls under |
| ConnectionDriver.ConnectionHandling.HandleConMsg | original_dbus_driver/DBal/BshDBus2AppLayer.c:1335-1385 | what a message of the partner does to the connection |
| ConnectionDriver.ConnectionHandling.HandleTempConMsg | original_dbus_driver/DBal/BshDBus2AppLayer.c:1392-1450 | what a message of a temporary partner does to the connection |
| InstanceRuns.SendInv | original_dbus_driver/DBal/BshDBus2AppLayer.c:2684-2759 | sending keeps the queue sound and its timer running |
| InstanceRuns.RepeatAtInv | original_dbus_driver/DBal/BshDBus2AppLayer.c:1256-1290 | one turn of the repetition timer: the message is counted and sent again, or the whole queue is given up and the connection taken down |
| InstanceRuns.RepeatInv | original_dbus_driver/DBal/BshDBus2AppLayer.c:1254-1297 | all turns: every message counted exactly once more, or the queue empty and the connection down |
| InstanceRuns.MatchSound | original_dbus_driver/DBal/BshDBus2AppLayer.c:1590-1640 | a response leaves a sound, compact queue and frees exactly what it answers |
| InstanceRuns.StepInv | original_dbus_driver/DBal/BshDBus2AppLayer.c:1254-1297 | every event of user, bus and timers keeps queue, accounts, timer and connection consistent |
| InstanceRuns.EveryMessageAccountedFor | original_dbus_driver/DBal/BshDBus2AppLayer.c:1139-1161 | the same over every run of the whole instance, for the events it sends; and while one waits the timer runs |
| InstanceRuns.CallbacksToldAlike | original_dbus_driver/DBal/BshDBus2AppLayer.c:1149-1161 | every registered callback is called with exactly the waiting messages in queue order |
| InstanceRuns.TimerInv | original_dbus_driver/DBal/BshDBus2AppLayer.c:1254-1297 | an expiry either counts every waiting message once more or empties the queue |
| InstanceRuns.GivenUpInTheEnd | original_dbus_driver/DBal/BshDBus2AppLayer.c:1254-1297 | without responses nothing waits any more after at most six expiries |
| InstanceRuns.GivingUpCloses | original_dbus_driver/DBal/BshDBus2AppLayer.c:1274-1290 | when the timer gives the queue up the connection does not stay up |
| InstanceRuns.ConnectionTimers | original_dbus_driver/DBal/BshDBus2AppLayer.c:1303-1312 | the connection timer makes the last connection message due once more, a node that woke up an enable request; nothing else changes |
| InstanceRuns.BreakEnds | original_dbus_driver/DBal/IoConnectionHandling.c:512-549 | an instance that is not connected when the time after a break is over ends up disconnected, without a word |
| GivingUp.GiveUpExact | original_dbus_driver/DBal/BshDBus2AppLayer.c:1239-1247 | giving up: every waiting message lost and told, in order, the counters start over, the connection is down and the partner is not told |
| GivingUp.TurnExact | original_dbus_driver/DBal/BshDBus2AppLayer.c:1254-1297 | an expiry packs a waiting event once more, and counts it, exactly if it was sent less than six times, the connection is up and it fits; otherwise all is given up |
| GivingUp.NotDelivered | original_dbus_driver/DBal/BshDBus2AppLayer.c:386-445 | a response message the bus layer gives up: forgotten for a former partner, due again with one attempt less while somebody answers and attempts are left, else all is given up |
| GivingUp.ConnectionFails | original_dbus_driver/DBal/BshDBus2AppLayer.c:1221-1234 | a failing connection request starts the response message's count over; no connection report touches queue or buffers |
| GivingUp.LosesExactly | original_dbus_driver/DBal/BshDBus2AppLayer.c:1341-1450 | the unanswered messages are lost with a disable response of the partner or the disable request of a temporary one, and with no other connection message |
| GivingUp.CountsAnew | original_dbus_driver/DBal/BshDBus2AppLayer.c:1341-1450 | which connection messages give the response message its full number of attempts back |
| GivingUp.TimerExact | original_dbus_driver/DBal/BshDBus2AppLayer.c:1191-1215 | after an expiry and after each response taken the repetition timer runs exactly if something waits |
| InstanceLine.SendReturnsAccepted | original_dbus_driver/DBal/BshDBus2AppLayer.c:2684-2759 | send returns true exactly when the frame is appended to the accepted ones, and only while communication is ready |
| InstanceLine.RepetitionKeepsId | original_dbus_driver/DBal/BshDBus2AppLayer.c:2580-2592 | a new bus message has an id newer than the last one if and only if it starts with a frame sent for the first time, so a repeated event is ignored by a partner that took the last message |
| InstanceLine.StepLine | original_dbus_driver/DBal/BshDBus2AppLayer.c:2684-2759 | every event that leaves the connection up and resets no buffers keeps the buffers in order and addressed to the partner |
| InstanceLine.NothingLostWhileUp | original_dbus_driver/DBal/BshDBus2AppLayer.c:982-1020 | from buffers in order, over every run in which the connection stays up: delivered, sent and waiting frames are exactly those for which send returned true, in order, and while any is undelivered a transmission is due or under way |
| InstanceLine.InitialLine | original_dbus_driver/DBal/BshDBus2AppLayer_instances.c:73-123 | after initialisation the buffers are in order |
| InstanceLine.ResetLineOk | original_dbus_driver/DBal/BshDBus2AppLayer.c:2204-2208 | a reset with nothing due or under way puts the buffers in order, whatever they held before |
| InstanceLine.NothingLostSinceReset | original_dbus_driver/DBal/BshDBus2AppLayer.c:982-1020 | so from initialisation on, after any run, such a reset, and any run in which the connection stays up: the frames accepted since the reset are exactly the delivered, sent and waiting ones, in order |
| InstanceLine.StepAnnounced | original_dbus_driver/DBal/BshDBus2AppLayer.c:2727-2742 | every event whatever, also one that takes the connection down, leaves a transmission that is due with the length of a message |
| InstanceLine.OpensExactly | original_dbus_driver/DBal/BshDBus2AppLayer.c:1335-1450 | a connection is opened by exactly these messages, never by the user, a timer or any other event |
| InstanceLine.OpeningResets | original_dbus_driver/DBal/BshDBus2AppLayer.c:1335-1385 | every opening empties the buffers except that by a left-over disable response in CONNECTING |
| InstanceLine.ResetExact | original_dbus_driver/DBal/BshDBus2AppLayer.c:2204-2208 | in every state a run from initialisation can reach, emptying the buffers leaves them in order if and only if no transmission was due or under way; otherwise the next hand-over finds no announced length and writes nothing into the transmit buffer of the link layer |
| InstanceLine.EmptiesExactly | original_dbus_driver/DBal/BshDBus2AppLayer.c:1341-1450 | which connection messages empty the transmit buffers; no other one touches them |
| InstanceLine.FullEffort | original_dbus_driver/DBal/BshDBus2AppLayer.c:2725-2745 | a frame sent while nothing is being repeated makes the message due for the partner with everything packed and with the full number of attempts; otherwise it leaves the one under way alone |
| InstanceLine.InheritedEffort | original_dbus_driver/DBal/BshDBus2AppLayer.c:1807-1814 | a message that waited for the one before only has the attempts that one has left |
| Leftover.MessageSent | original_dbus_driver/dbusdll.c:1196-1215 | with the buffers in order the link layer sends the message that was handed over, whatever was in its transmit buffer before |
| Leftover.LeftoverSent | original_dbus_driver/dbusdll.c:1196-1215 | after a reset with a transmission due it sends the bytes the message before has left there, in the length of the message thrown away |
| Leftover.LeftoverTaken | original_dbus_driver/DBal/BshDBus2AppLayer.c:1740-1769 | the partner takes what a connection message has left for a response message if and only if the type of the former is a newer id than the last one |
| Leftover.LeftoverCosts | original_dbus_driver/DBal/BshDBus2AppLayer.c:1766-1767 | how many of the next messages that costs, exactly: none, or for a partner that was in step as many as the type is ahead of its last id |
| Leftover.NextMessageLost | original_dbus_driver/DBal/BshDBus2AppLayer.c:975-998 | a run from initialisation after which the enable response stands in the transmit buffer, is taken by the partner under id 1, and makes it ignore exactly the next message |
| InstanceLine.SecondAcceptDrops | original_dbus_driver/DBal/BshDBus2AppLayer.c:1345-1349 | an enable response while connected drops every pending frame, leaves the connection as it is and tells no callback |
| Witnesses.SimultaneousEnableLoses | original_dbus_driver/DBal/BshDBus2AppLayer.c:1345-1349 | a run from initialisation in which both nodes enable, an answer is accepted, and the second response throws it away while its transmission is due |
| Witnesses.LeftOverResponseOpens | original_dbus_driver/DBal/BshDBus2AppLayer.c:1335-1385 | a run from initialisation in which a left-over disable response opens the connection with a frame of the earlier one in the buffer |
| InstanceLine.DisableWaitsForQueue | original_dbus_driver/DBal/BshDBus2AppLayer.c:1350-1361 | a disable request is answered at once when nothing waits; otherwise the connection stays and the user may send nothing more |
| InstanceLine.DisableAnsweredAtLast | original_dbus_driver/DBal/BshDBus2AppLayer.c:2126-2135 | the deferred request is answered by the very response that leaves nothing waiting, and by no earlier one |
| InstanceDriver.DbalInstance.Send | original_dbus_driver/DBal/BshDBus2AppLayer.c:2684-2759 | queue, buffers and sequence id worked on in place; result and new state are those the claims speak of |
| InstanceDriver.DbalInstance.MsgTimerAction | original_dbus_driver/DBal/BshDBus2AppLayer.c:1254-1297 | the loop of the repetition timer in place |
| InstanceDriver.DbalInstance.RepeatMessage | original_dbus_driver/DBal/BshDBus2AppLayer.c:1256-1294 | one turn of that loop |
| InstanceDriver.DbalInstance.LookForMessages | original_dbus_driver/DBal/BshDBus2AppLayer.c:1531-1578 | every event of a message acknowledged once, at the same cut points as the other scan |
| InstanceDriver.DbalInstance.ReceiveRequest | original_dbus_driver/DBal/BshDBus2AppLayer.c:2012-2032 | taken only with a newer sequence id, from the partner, while ready |
| InstanceDriver.DbalInstance.ReceiveResponse | original_dbus_driver/DBal/BshDBus2AppLayer.c:2108-2139 | responses matched, queue compacted, deferred disable answered, events acknowledged |
| InstanceDriver.DbalInstance.ReceiveConnection | original_dbus_driver/DBal/BshDBus2AppLayer.c:1901-1935 | connection messages with their effects on buffers, queue and counters |
| InstanceDriver.DbalInstance.HandleConMsg | original_dbus_driver/DBal/BshDBus2AppLayer.c:1335-1385 | the messages of the partner |
| InstanceDriver.DbalInstance.HandleTempConMsg | original_dbus_driver/DBal/BshDBus2AppLayer.c:1392-1450 | the messages of a temporary partner |
| InstanceDriver.DbalInstance.ClearMsgs2Repeat | original_dbus_driver/DBal/BshDBus2AppLayer.c:1139-1161 | every callback called for every waiting message, then the queue zeroed |
| InstanceDriver.DbalInstance.HandleReqRespMsgTxFail | original_dbus_driver/DBal/BshDBus2AppLayer.c:1239-1247 | queue and counters cleared, connection down |
| InstanceDriver.DbalInstance.Transmit | original_dbus_driver/DBal/BshDBus2AppLayer.c:2038-2048 | the bytes handed to the link layer |
| InstanceDriver.DbalInstance.TransmitPost | original_dbus_driver/DBal/BshDBus2AppLayer.c:2052-2064 | the confirmation of the response message |
| InstanceDriver.DbalInstance.NonDeliverable | original_dbus_driver/DBal/BshDBus2AppLayer.c:386-445 | new round of attempts or giving up |
| InstanceDriver.DbalInstance.constructor | original_dbus_driver/DBal/BshDBus2AppLayer_instances.c:73-123 | an initialised instance |
| SequenceId.AcceptedIsSerialGreater | original_dbus_driver/DBal/BshDBus2AppLayer.c:1766-1767 | the 8-bit test is "greater" of section 3.2 of RFC 1982 with 8 bits, for all pairs of ids |
| SequenceId.NextId | original_dbus_driver/DBal/BshDBus2AppLayer.c:2587-2590 | the sender's counter, started at 255, yields the ids of consecutive messages |
| SequenceId.RefinesCounters | original_dbus_driver/DBal/BshDBus2AppLayer.c:1760-1769 | from 128 behind to 127 ahead the test decides like unbounded counters; one step outside it decides wrongly |
| SequenceId.AcceptedExactly | original_dbus_driver/DBal/BshDBus2AppLayer.c:1766-1767 | at any distance the test accepts exactly the numbers 1 to 127 ahead, counted around the ids |
| SequenceId.TakenAdvance | original_dbus_driver/DBal/BshDBus2AppLayer.c:2020-2031 | inside that window the receiver takes exactly what one with unbounded counters takes, strictly advancing |
| SequenceId.AdvancingOnce | original_dbus_driver/DBal/BshDBus2AppLayer.c:2020-2031 | so no message is taken twice |
| SequenceId.ExactlyOnce | original_dbus_driver/DBal/BshDBus2AppLayer.c:2020-2031 | messages repeated any number of times in order, with fewer than 127 lost in a row, are taken exactly once each |
| EndToEnd.HearExact | original_dbus_driver/DBal/BshDBus2AppLayer.c:1760-1769 | the receiver takes a message if and only if its number is 1 to 127 ahead of the last one taken, counted around the ids; any other, also one that keeps the id taken last, is acknowledged but never parsed |
| EndToEnd.HearKeeps | original_dbus_driver/DBal/BshDBus2AppLayer.c:1760-1769 | a near message the receiver hears for the first or a further time has been parsed exactly once afterwards |
| EndToEnd.StepKeeps | original_dbus_driver/DBal/BshDBus2AppLayer.c:982-1020 | every send with any repetition count, every transmission, repetition and lost acknowledge keeps sender and receiver consistent |
| EndToEnd.ExactlyOnceInOrder | original_dbus_driver/DBal/BshDBus2AppLayer.c:2684-2759 | over every run with repeated transmissions and lost acknowledges: each acknowledged message was parsed exactly once if its id was near when it was picked up, and never otherwise; once all is delivered the partner has parsed all accepted frames in order if and only if every message with frames was near |
| EndToEnd.SenderCanTell | original_dbus_driver/DBal/BshDBus2AppLayer.c:2580-2592 | after a near message the next one is near if and only if its id is 1 to 127 ahead of that message's own |
| EndToEnd.CarefulLosesNothing | original_dbus_driver/DBal/BshDBus2AppLayer.c:2684-2759 | a sender that opens no message with a repetition and uses up at most 127 ids from one message to the next has all accepted frames parsed in order, each once |
| InstanceEnds.SendMirrors | original_dbus_driver/DBal/BshDBus2AppLayer.c:2684-2759 | one call of the instance's send is one send of that sender: same buffers, same sequence id, same answer |
| InstanceEnds.StepLeads | original_dbus_driver/DBal/BshDBus2AppLayer.c:2684-2759 | every event of an instance that leaves connection, buffers and ids standing, its timer and its acknowledges included, is a sequence of steps of that sender |
| InstanceEnds.PartnerParses | original_dbus_driver/DBal/BshDBus2AppLayer.c:2684-2759 | so the same over every run of an instance from initialisation: after any run, an opening with empty buffers, and any run in which the connection stays up |
| InstanceEnds.HearIsReceive | original_dbus_driver/DBal/BshDBus2AppLayer.c:2012-2032 | what the receiver of these runs hears and parses is what a receiving instance takes, scans and remembers |
| InstanceEnds.TakenExactly | original_dbus_driver/DBal/BshDBus2AppLayer.c:1735-1775 | a request or response message is taken exactly when it is of protocol type 3 from the partner of a ready connection with an id 1 to 127 ahead; every other one changes nothing |
| Losses.RidesOnStaleId | original_dbus_driver/DBal/BshDBus2AppLayer.c:2580-2592 | a frame appended behind a repetition travels under the id of the last message, so a partner that took that one takes neither, although both sends return true |
| Losses.LostBehindRepetition | original_dbus_driver/DBal/BshDBus2AppLayer.c:1254-1297 | a run from initialisation, for every queue size: an event sent, repeated by the timer, an answer sent behind it; both messages are acknowledged and carry the same id |
| Losses.RefusedUsesId | original_dbus_driver/DBal/BshDBus2AppLayer.c:2580-2592 | a refused send into an empty transmit buffer uses up a sequence id; it is refused if and only if the frame is too long or the queue does not take it |
| Losses.LostAfterRefusals | original_dbus_driver/DBal/BshDBus2AppLayer.c:1766-1767 | a run from initialisation: after n refused sends the first accepted frame is acknowledged under id n, and a partner takes it if and only if n is below 127 |
| CrossQueue.NeverFull | original_dbus_driver/DBal/BshDBus2AppLayer_crossQueue.c:93-114 | as many entries as instances: one that does not wait yet always finds a free entry |
| CrossQueue.KeepsPlace | original_dbus_driver/DBal/BshDBus2AppLayer_crossQueue.c:93-140 | first come, first served, whatever is requested meanwhile |
| CrossQueue.StaysWaiting | original_dbus_driver/DBal/BshDBus2AppLayer_crossQueue.c:93-140 | over every run the entries are different instances and fit the array |
| CrossQueue.UpdatedExact | original_dbus_driver/DBal/BshDBus2AppLayer_crossQueue.c:142-169 | a second request keeps its place, gets the new index and changes no other |
| CrossQueue.RequestsFit | original_dbus_driver/DBal/BshDBus2AppLayer_crossQueue.c:142-212 | over every run of the request queue the entries are different instances and fit the array |
| CrossQueue.ServedInTurn | original_dbus_driver/DBal/BshDBus2AppLayer_crossQueue.c:142-212 | first come, first served: a request of an instance that stays connected is never thrown away, moves up with every fetch, has its turn within as many fetches as its place, and then has the index asked for last |
| CrossQueue.FetchExact | original_dbus_driver/DBal/BshDBus2AppLayer_crossQueue.c:171-213 | a fetch hands out the first request of a connected instance and throws exactly those before it away, or all if there is none |
| CrossQueueDriver.CrossQueues.Init | original_dbus_driver/DBal/BshDBus2AppLayer_crossQueue.c:77-91 | both queues empty |
| CrossQueueDriver.CrossQueues.QueueConnectMsg | original_dbus_driver/DBal/BshDBus2AppLayer_crossQueue.c:93-114 | appended unless already waiting, never dropped |
| CrossQueueDriver.CrossQueues.GetConnectMsg | original_dbus_driver/DBal/BshDBus2AppLayer_crossQueue.c:116-140 | the instance that has waited longest, the others one place further |
| CrossQueueDriver.CrossQueues.QueueReqRespMsg | original_dbus_driver/DBal/BshDBus2AppLayer_crossQueue.c:142-169 | appended or updated in place, never dropped |
| CrossQueueDriver.CrossQueues.GetReqRespMsg | original_dbus_driver/DBal/BshDBus2AppLayer_crossQueue.c:171-212 | the loop ends with the first request of a connected instance, having thrown away exactly those before it |
| Handshake.RunInv | original_dbus_driver/DBal/IoConnectionHandling.c:352-486 | the invariant of two nodes that enable, repeat, send, handle and exchange data in any order, messages arriving more than once when their acknowledge is lost |
| Handshake.StaysAwake | original_dbus_driver/DBal/IoConnectionHandling.c:352-486 | over every run: a node that has left DISCONNECTED is never in it again |
| Handshake.HandshakeAgrees | original_dbus_driver/DBal/BshDBus2AppLayer.c:1341-1355 | in every run, with any acknowledges lost, a connected node's partner is connected or this node's response is on its way; once anything was done at all and nothing is pending, both are connected |
| Handshake.Converges | original_dbus_driver/DBal/BshDBus2AppLayer.c:1341-1355 | with a node outside of DISCONNECTED and nothing pending, both are connected |
| Handshake.DeliveryEnds | original_dbus_driver/DBal/BshDBus2AppLayer.c:2434-2461 | delivering what is pending ends after a bounded number of steps, in any order |
| Handshake.DeliveryGoesOn | original_dbus_driver/DBal/BshDBus2AppLayer.c:2434-2461 | as long as something is pending and no counter is used up, a delivery is possible |
| HandshakeIds.TakeResets | original_dbus_driver/DBal/IoConnectionHandling.c:425-431 | taking an item while connected sets both sequence ids back if and only if it is an enable request; otherwise only a heeded message moves an id |
| HandshakeIds.NothingIgnored | original_dbus_driver/DBal/BshDBus2AppLayer.c:1777-1800 | in every run in which no node takes an enable request while connected, every request and response message is heeded exactly once, however often it arrives; every run in which no connection message is repeated, neither by a timer nor after a lost acknowledge, is one, and never has a request due for a connected node |
| HandshakeIds.LateRequest | original_dbus_driver/DBal/BshDBus2AppLayer.c:1777-1800 | a run from two initialised nodes after which both are connected and a repeated enable request is still due |
| HandshakeIds.LateAcknowledge | original_dbus_driver/bal.c:544-609 | the same without a timer: the request arrives, its acknowledge is lost, and it is still due when both are connected |
| HandshakeIds.OutOfStep | original_dbus_driver/DBal/IoConnectionHandling.c:425-431 | either of these runs continued: the late request resets one node, and its next message is ignored by the other while both are connected |
| HandshakeLag.LagExact | original_dbus_driver/DBal/BshDBus2AppLayer.c:1766-1767 | from any two ids, over every exchange of messages, in any order and with any acknowledges lost: the receiver ignores exactly the first messages, as many as the ids are out of step, heeds every further one, and none twice |
| HandshakeLag.Reopen | original_dbus_driver/DBal/IoConnectionHandling.c:425-431 | a late request that a connected node takes and answers sets its ids back and leaves those of the other |
| HandshakeLag.AfterReset | original_dbus_driver/DBal/IoConnectionHandling.c:425-431 | how many messages that is in each direction, for every id |
| HandshakeLag.ReopenCosts | original_dbus_driver/DBal/IoConnectionHandling.c:425-431 | so the exact price of a late request: with r the last id received by its sender and s the last one sent, its sender ignores the next r + 1 messages if r is at most 128, and its partner the next 255 - s if s is from 126 to 254; none otherwise, and from then on every message is heeded once |
| Farewell.RunInv | original_dbus_driver/DBal/IoConnectionHandling.c:425-476 | over every run of two connected nodes of which one disables: only disable requests travel one way and only their responses the other |
| Farewell.BothGoDown | original_dbus_driver/DBal/IoConnectionHandling.c:425-476 | the other stays up only while a request is on its way to it, and once nothing is pending both are disconnected and told so, also with acknowledges lost and requests repeated |
| Farewell.DeliveryEnds | original_dbus_driver/DBal/BshDBus2AppLayer.c:1345-1385 | delivering what is pending ends after a bounded number of steps |
| Farewell.DeliveryGoesOn | original_dbus_driver/DBal/BshDBus2AppLayer.c:1345-1385 | while something is pending a delivery is possible |

## Left out

- Real time: collision waiting times and counters, their random values, statistics and timestamps.
- Little-endian adaptation of message identifiers, and `DLL_bSendMessage`, a second entry that sends a ready-made
  message.
- The UART and the DBusCAN chip below the link layer, break generation on the wire, the bus lock and the task glue.
- Silent mode and non-operating mode of the bus application layer, beyond the flag that blocks a request or an
  acknowledge.
- Dispatch of received messages to subsystems and to service functions, `dbuspresentation.c` and the service handlers.
- The bit mask that defers an interrupt's action to the end of a task section: sections are atomic steps here.
- The cross connections apart from their queues: their ping timer, their transmit path without a repeat buffer, and the
  choice of the next instance.
- Commands and queries sent by this node: only cross connections do that; the queue and its lemmas cover all kinds.
- `CRC_Ethernet_*` in `StdCrc.c`, which the source marks as a placeholder.
- Handshake: speaks of enabling with repetition counters not used up; breaks and temporary partners are covered for one
  instance by `Connection` and `Instance`, not for two.
- Farewell.BothGoDown: speaks of one node that disables while the other has no unanswered messages; a request that is
  put off for those is covered by `InstanceLine.DisableWaitsForQueue` and `DisableAnsweredAtLast`.
- Answers.AcksExactly: asks for room in the transmit buffer for all acknowledges; one that does not fit is not sent, and
  the other side repeats its event.
- Answers.EventIsAnswered: speaks of a partner that is not repeating a message; otherwise the acknowledges wait, by
  `InstanceLine.NothingLostWhileUp`.
- InstanceRuns.GivenUpInTheEnd: counts expiries with no response in between; real durations are not modelled.
- Retries.RetriesEnd: counts the failures of one message; a connection message that clears the counters on the way
  starts a new count.
- InstanceEnds.PartnerParses: speaks of the time in which neither side's ids are reset; the partner's start over with
  the opening message, as `Handshake` has it. A temporary partner that confirms its connection resets ids without
  emptying buffers and ends such a time.
- RepeatQueueDriver.MessagesToRepeat.LookForAcks: asks for a message with which the scan ends, as it does not return
  from any other; `Scan.NeverEnds` is one.
- InstanceDriver.DbalInstance.LookForMessages: asks for such a message as well.
- InstanceDriver.DbalInstance.ReceiveRequest: asks for such a message as well.
- InstanceDriver.DbalInstance.ReceiveResponse: asks for such a message as well.
