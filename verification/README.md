# Verification of the remote-control desktop client and signaling server

This project models the parts of the repository with the most state and arithmetic, and proves what
they are for: files arrive intact, clipboards do not echo, nobody passes the join gate unapproved,
limits hold in every window, and the byte-level code agrees with its standards. `dafny verify
dfyconfig.toml` checks everything.

## What is modelled

**File transfer.** `FileSender` is the sending loop; `DataChannel` and `FileStore` hold the validators
at the two boundaries; `FileReceiver` is the receiving renderer and `FileStore` the main process, each
cut at its awaits; `FileTransfer` puts them together as a state machine in which messages, replies,
timers, I/O outcomes and the parts of handlers are events in any order. The promise queue of a transfer
is a FIFO of pending tasks with one outstanding call; a rejection drops the tasks behind it.
`FileTransfer` proves integrity, `SavedChecksums` what remains of it when any messages whatever arrive,
`FileDelivery` delivery, `TransferTimers` when a timer fires and delivery in time, `FileTermination` that no
transfer stays registered, `EmptyFiles` the fate of
empty files, `OrphanSessions` that of sessions whose transfer is gone, `RefusedTransfers` that of
transfers a call of which is refused, and `LeftOnDisk` which paths stay on disk. `IncomingTransfers` and `FileIpc` are the same two sides as objects updated in place, each method
proved to be the step of the value model.

**Checksum, base64, CRC.** `Checksum` (FNV-1a), `Base64`, `Crc32`, with `Bits` defining `&`, `|`, `^`
and `~` on unsigned words by their action on binary digits.

**Clipboard.** `Clipboard` has two peers with polling, debounce and two snapshots over FIFO channels.

**Signaling.** `Sessions` is the registry object, `SessionRuns` its runs and the flat map it stands for,
`SessionLifetimes` how long a client stays and when a join is refused,
`RateLimit` the sliding window, `JoinGate` the gate as events between awaits, `JoinOutcomes` what every step of a join leads to, `GateLimiters` what its
three limiters guarantee over its runs, `OverlappingChecks` exactly when the password limiter does,
`SignalingGateway` the gateway object, `ConnectionCounts` the connection limit per address.

**Algorithms and control loops.** `Icons` (ICO and PNG containers), `Subnet` and `Text` (IPv4),
`UniqueFilePath`, `Coverage`, `WorkerPool`, `Bitrate`, `LogRotation`.

## Standing assumptions

- Transfer ids are fresh: a start message opens a transfer at most once. Sent again while the transfer
  is registered it is an event like any other; a start that uses the id of a transfer that has left the
  map again is excluded, also where any other messages may arrive.
- The renderer's timers fire on time: the clock does not pass the deadline of an armed timer before that
  timer's event.
- When a session is allocated, nothing is at its `.part` path, and no `.part` path is another session's
  final path. The code does not check this.
- `appendFile` writes all or nothing, and reading the clipboard gives what was last written.
- The network may lose, repeat, delay and reorder messages, but does not forge or change them, in the
  integrity theorem; the theorems of `SavedChecksums`, `LeftOnDisk`, `FileTermination`,
  `RefusedTransfers` and `TransferTimers.DeadlineIsExact` allow any messages, also ones that no sender sent.
- From the last decision of a join to the registry (`signaling.gateway.ts`, lines 179 to 190) is one step.
  `SessionRuns.InterleavedJoins` shows what the await at line 181 allows otherwise, and
  `SessionRuns.AddKeepsOneSession` exactly when an addition is harmless.

## Where the code does less than one might expect

- A file of zero bytes is never saved (`EmptyFiles.SavedFilesAreNotEmpty`); from one byte on it is
  (`FileDelivery.Delivery`).
- An abort that overtakes a start still being allocated leaves a session behind in the main process
  (`OrphanSessions.AbortCanOvertakeStart`). Nothing else does: a new session is orphaned exactly when an
  abort of its transfer was handled while the start was pending (`OrphanSessions.OrphanedAtAllocation`).
- The empty file created at the final path is never removed when a transfer fails, and an append that
  lands after the unlink makes the `.part` file again (`LeftOnDisk.WhatIsLeft`).
- Two users who copy at the same time can end with swapped clipboards (`Clipboard.ClipboardsCanCross`),
  and users who take turns can end with different ones, because a side that copies again what it last
  received does not send it (`Clipboard.TurnsCanDiverge`). `Clipboard.ConvergenceAtRest` and
  `Clipboard.LoneCopyConverges` say exactly when the clipboards agree.
- The limiter's bound needs a clock that does not go back, for every limiter for two events or more
  (`RateLimit.ClockSetBack`) and for no other (`RateLimit.ClockConditionIsExact`).
- The password path asks the limiter before an await and records after it. The failures of a key in a
  window, since its last success, can exceed the limit by the number of its checks that overlap, less one
  (`OverlappingChecks.BoundIsReached`), and by no more (`GateLimiters.FailuresAreBounded`); so they stay
  within the limit exactly when no two checks overlap (`OverlappingChecks.OverlapConditionIsExact`).
- A success resets the password limiter. Failures before it are not counted, so with a limit of two or more
  any number of them fits into one window even without overlap (`OverlappingChecks.SuccessesOvershoot`);
  `OverlappingChecks.SuccessConditionIsExact` says when all failures stay within the limit.
- `getCoveredLength` crashes exactly when there are intervals but none of them reaches into the source.
- An icon side is recovered exactly when it is between 1 and 256 (`Icons.IcoRoundTrip`).
- A bitrate below 1875000 never recovers, because eight percent of it is less than the least change
  (`Bitrate.GoodAscends`).
- With no backups, rotation can replace `.1` (`LogRotation.LogFiles.RotateBackendLog`).

## Model

| member | source | states |
|---|---|---|
| `FileTransfer.Integrity` | apps/desktop/src/renderer/src/webrtc/RemoteControlClient.ts:1151-1338 | In every run, with any number of transfers, the senders' messages lost, repeated, reordered or overtaken by aborts, timeouts and failing I/O at any point: each path that a complete call has reported as saved holds exactly the bytes its sender read, and no transfer is saved twice |
| `FileTransfer.InvAlways` | apps/desktop/src/main/fileIpc.ts:123-222 | In every run the two processes agree: the session's chunk and byte counters match the renderer's (up to one reply on its way), and the `.part` file of a live session is exactly the first k chunks of its owner's file |
| `FileTransfer.OverflowImpossible` | apps/desktop/src/main/fileIpc.ts:174-179 | With the senders' messages the main process's own size check never fires |
| `FileTransfer.RenamedContent` | apps/desktop/src/main/fileIpc.ts:199-206 | What a rename moves to the final path is the whole file of the session's owner |
| `FileTransfer.TranscriptIsGenuine` | apps/desktop/src/renderer/src/webrtc/RemoteControlClient.ts:337-402 | Every message of a sender's transcript, and its abort, is one that the integrity theorem allows to be delivered |
| `SavedChecksums.SavedAsAnnounced` | apps/desktop/src/renderer/src/webrtc/RemoteControlClient.ts:1247-1278 | In every run, whatever messages are delivered, a path reported as saved holds exactly as many bytes as a start message of its transfer announced, and their checksum is the one in a complete message of its transfer |
| `SavedChecksums.NeverOverflows` | apps/desktop/src/main/fileIpc.ts:174-179 | Whatever messages are delivered, the main process's own size check never fires: the renderer's comes first and the two counters agree |
| `SavedChecksums.OneWrongByteIsNeverSaved` | apps/desktop/src/renderer/src/webrtc/RemoteControlClient.ts:1258-1268 | When the complete messages that arrive carry the checksum of the sender's file, a copy of it with one wrong byte is never reported as saved, whatever else arrives |
| `LeftOnDisk.WhatIsLeft` | apps/desktop/src/main/fileIpc.ts:142-222 | At every moment the paths on disk are those of the start, every final path ever created, and the `.part` path of exactly those to which an append took effect after the last unlink or rename; a final path that was not saved holds an empty file, and a saved one has no `.part` file |
| `LeftOnDisk.PartsMean` | apps/desktop/src/main/fileIpc.ts:181-219 | The `.part` files kept step by step are those whose last append has no unlink or rename after it |
| `OrphanSessions.AbortCanOvertakeStart` | apps/desktop/src/main/fileIpc.ts:123-156 | For every transfer some run leaves a session in the main process whose transfer is gone, with no call on its way that would end it: an abort overtook the start |
| `OrphanSessions.OrphansWereAbortedEarly` | apps/desktop/src/main/fileIpc.ts:210-222 | In every run a session is orphaned only if an abort of its transfer was handled while the transfer's start was pending |
| `OrphanSessions.OrphanedAtAllocation` | apps/desktop/src/main/fileIpc.ts:142-151 | When a session is made it is orphaned if and only if such an abort was handled before |
| `OrphanSessions.AlwaysAccounted` | apps/desktop/src/renderer/src/webrtc/RemoteControlClient.ts:1302-1320 | While its start is pending a transfer is registered, or one abort of it is on its way, or was handled early; and with a session in the table it is registered, or a call that ends the session is on its way, or it was aborted early |
| `FileDelivery.Delivery` | apps/desktop/src/renderer/src/webrtc/RemoteControlClient.ts:337-402 | Every smooth run of a transfer of at least one byte, in which its timer does not fire: never failed or rejected, never more than 5 * ceil(size / 49152) + 8 steps, until then always able to take another, and after the last one the file is saved byte for byte, whatever other transfers do |
| `FileDelivery.SmoothEvent` | apps/desktop/src/renderer/src/webrtc/RemoteControlClient.ts:1206-1296 | Each event of a smooth run keeps the transfer on course, and uses up exactly one of its remaining steps if it is its own and none otherwise |
| `FileDelivery.SmoothRunStaysOnCourse` | apps/desktop/src/renderer/src/webrtc/RemoteControlClient.ts:1206-1296 | In every smooth run the steps taken and the steps left add up to 5 * ceil(size / 49152) + 8 |
| `TransferTimers.DeliveryInTime` | apps/desktop/src/renderer/src/webrtc/RemoteControlClient.ts:1206-1296 | The same without assuming that the transfer's timer stays quiet: if less than thirty seconds pass from its start to its first acknowledgement and from each to the next, it is never timed out, failed or rejected, takes 5 * ceil(size / 49152) + 8 steps and is saved byte for byte |
| `TransferTimers.DeadlineIsExact` | apps/desktop/src/renderer/src/webrtc/RemoteControlClient.ts:1350-1365 | In every run, whatever messages arrive, the timer of a registered transfer is armed for exactly 30000 ms after the later of its start and its last counted chunk |
| `TransferTimers.TimerIsDueWhenIdle` | apps/desktop/src/renderer/src/webrtc/RemoteControlClient.ts:1350-1365 | The timer of a registered transfer can fire if and only if 30000 ms have passed without a counted chunk |
| `TransferTimers.TimerEndsTransfer` | apps/desktop/src/renderer/src/webrtc/RemoteControlClient.ts:1302-1320 | When it fires the transfer has failed, is out of the map, and one abort call is sent |
| `EmptyFiles.SavedFilesAreNotEmpty` | apps/desktop/src/main/fileIpc.ts:199-206 | In no run is a file of zero bytes saved: the condition size >= 1 of delivery is needed, because nothing is ever appended and the rename finds no temporary file |
| `FileTermination.NoTransferStaysRegistered` | apps/desktop/src/renderer/src/webrtc/RemoteControlClient.ts:1151-1204 | With fresh ids and timers that fire on time, whatever else arrives: at most four transfers are registered, each with an armed timer, and none is still registered later than 30 s per byte of its size, and once more, after its start |
| `FileTermination.StartOpens` | apps/desktop/src/renderer/src/webrtc/RemoteControlClient.ts:1151-1204 | A start message opens its transfer if and only if it is within the limits (id of 1 to 80 characters, name of at most 260, size of at most 268435456), its id is not registered and fewer than four transfers are |
| `RefusedTransfers.ChunksHaveAPlace` | apps/desktop/src/renderer/src/webrtc/RemoteControlClient.ts:1185-1245 | In every run, whatever messages arrive: chunks are sent to the main process only after that gave the transfer a place, and a transfer one of whose calls failed is out of the map and never sends again |
| `RefusedTransfers.RefusalEndsTransfer` | apps/desktop/src/renderer/src/webrtc/RemoteControlClient.ts:1185-1245 | A refused start or append rejects the queue, takes the transfer out of the map, and if it was registered fails it with one abort call |
| `RefusedTransfers.OverflowEndsSession` | apps/desktop/src/main/fileIpc.ts:174-179 | An append beyond the announced size forgets the session, has its temporary file removed, and is refused |
| `FileTermination.RearmingCountsBytes` | apps/desktop/src/renderer/src/webrtc/RemoteControlClient.ts:1350-1365 | A transfer that stays registered has its timer armed again only when size - receivedBytes strictly decreases |
| `FileTermination.ValidatedChunkIsNotEmpty` | apps/desktop/src/renderer/src/webrtc/RemoteControlClient.ts:2198-2214 | A chunk accepted by the validator decodes to at least one byte |
| `FileSender.ChunksAreTheFile` | apps/desktop/src/renderer/src/webrtc/RemoteControlClient.ts:357-384 | The chunks of a file, one after the other, are the file |
| `FileSender.ChunkCountIsCeiling` | apps/desktop/src/renderer/src/webrtc/RemoteControlClient.ts:357-384 | There are ceil(size / 49152) chunks |
| `FileSender.ChunkLength` | apps/desktop/src/renderer/src/webrtc/RemoteControlClient.ts:357-384 | Every chunk has between 1 and 49152 bytes, from its offset to the next |
| `FileSender.ChunkPassesSanitizer` | apps/desktop/src/renderer/src/webrtc/RemoteControlClient.ts:2076-2090 | Every chunk a sender sends passes the validator's limits on text and decoded length unchanged, decodes to the chunk, and is within the limits of the IPC boundary |
| `FileSender.TranscriptPassesSanitizer` | apps/desktop/src/renderer/src/webrtc/RemoteControlClient.ts:2051-2110 | Every message of a transfer is accepted unchanged by the receiver's validators |
| `DataChannel.StartIsValid` | apps/desktop/src/renderer/src/webrtc/RemoteControlClient.ts:2051-2074 | Which start messages pass the validator, in numbers, and that they pass with the id trimmed |
| `DataChannel.ChunkIsValid` | apps/desktop/src/renderer/src/webrtc/RemoteControlClient.ts:2076-2090 | Which encoded chunks pass: 1 to 73728 bytes in at most 98304 characters, with an index that is not negative |
| `DataChannel.EndIsValid` | apps/desktop/src/renderer/src/webrtc/RemoteControlClient.ts:2092-2110 | A complete message passes exactly with eight hexadecimal digits, put in lower case; an abort always |
| `FileSender.SendFile` | apps/desktop/src/renderer/src/webrtc/RemoteControlClient.ts:337-402 | The sending loop sends a prefix of the transcript and an abort when the channel or the receiver gives up, the whole transcript otherwise, and nothing for an oversized file |
| `FileIpc.FileIpcHandlers.StartFinish` | apps/desktop/src/main/fileIpc.ts:142-151 | The start handler's update of table, sessions and files is the step of the value model |
| `FileIpc.FileIpcHandlers.AppendCheck` | apps/desktop/src/main/fileIpc.ts:160-179 | Verdict and table update of an append up to its await |
| `FileIpc.FileIpcHandlers.AppendFinish` | apps/desktop/src/main/fileIpc.ts:181-184 | An append that lands extends the temporary file and both counters of its session, and nothing else |
| `FileIpc.FileIpcHandlers.CompleteCheck` | apps/desktop/src/main/fileIpc.ts:193-203 | Verdict and table update of a complete call up to its await |
| `FileIpc.FileIpcHandlers.RenameFinish` | apps/desktop/src/main/fileIpc.ts:205-206 | A rename moves the temporary file to the final path, and fails exactly when there is none |
| `FileIpc.FileIpcHandlers.AbortCheck` | apps/desktop/src/main/fileIpc.ts:214-217 | An abort forgets the session it is for, if there is one |
| `FileIpc.FileIpcHandlers.StartCheck` | apps/desktop/src/main/fileIpc.ts:124-132 | Which start calls are accepted: valid payload and an id that is not in the table |
| `FileIpc.FileIpcHandlers.UnlinkFinish` | apps/desktop/src/main/fileIpc.ts:213-219 | Unlinking removes the session's temporary file and nothing else |
| `FileStore.SanitizeTokenId` | apps/desktop/src/main/ipcValidation.ts:143-150 | Ids of 1 to 80 token characters are accepted as they are |
| `FileStore.AcceptedInNumbers` | apps/desktop/src/main/ipcValidation.ts:143-200 | Which start and append calls the main process accepts, and which appends overflow, with every limit in numbers |
| `IncomingTransfers.Client.BeginIncomingFileTransfer` | apps/desktop/src/renderer/src/webrtc/RemoteControlClient.ts:1151-1204 | The method on the map of transfers is the value step: limits on size and number, duplicate ids |
| `IncomingTransfers.Client.RunQueuedTask` | apps/desktop/src/renderer/src/webrtc/RemoteControlClient.ts:1212-1228 | A queued task runs up to its call: skipped after a failure, rejected out of order, undecodable or too long |
| `IncomingTransfers.Client.AppendReply` | apps/desktop/src/renderer/src/webrtc/RemoteControlClient.ts:1228-1243 | The reply to an append: counters, checksum and timer, or rejection of the queue |
| `IncomingTransfers.Client.CompleteIncomingFileTransfer` | apps/desktop/src/renderer/src/webrtc/RemoteControlClient.ts:1247-1253 | A complete message waits for exactly the entries queued before it |
| `IncomingTransfers.Client.QueueSettled` | apps/desktop/src/renderer/src/webrtc/RemoteControlClient.ts:1253-1278 | What a complete message does when its queue has settled: abort on a wrong size or checksum, complete otherwise |
| `IncomingTransfers.Client.FailIncomingFileTransfer` | apps/desktop/src/renderer/src/webrtc/RemoteControlClient.ts:1302-1320 | Failing a transfer removes it, clears its timer and sends one abort call; a second failure does nothing |
| `IncomingTransfers.Client.FailIncomingFileTransfers` | apps/desktop/src/renderer/src/webrtc/RemoteControlClient.ts:1322-1338 | Closing the channel empties the map, clears every timer and sends one abort call per transfer |
| `IncomingTransfers.Client.AppendIncomingFileChunk` | apps/desktop/src/renderer/src/webrtc/RemoteControlClient.ts:1206-1212 | A chunk message queues one more entry, for a registered transfer and a non-negative index only |
| `IncomingTransfers.Client.StartReply` | apps/desktop/src/renderer/src/webrtc/RemoteControlClient.ts:1185-1195 | The reply to the start call: the path is kept, or the queue rejects |
| `IncomingTransfers.Client.RejectQueue` | apps/desktop/src/renderer/src/webrtc/RemoteControlClient.ts:1244-1245 | A rejected queue runs nothing more, and fails its transfer once |
| `IncomingTransfers.Client.TimerFires` | apps/desktop/src/renderer/src/webrtc/RemoteControlClient.ts:1352-1357 | A timer that fires fails its transfer |
| `IncomingTransfers.IncomingFileTransfer.CountChunk` | apps/desktop/src/renderer/src/webrtc/RemoteControlClient.ts:1232-1235 | Counting a chunk: bytes, checksum, index and timer together |
| `Checksum.ChunkedFoldIsWholeFold` | apps/desktop/src/renderer/src/webrtc/RemoteControlClient.ts:357-384 | Folding the checksum chunk by chunk gives the checksum of the whole file |
| `Checksum.UpdateFileTransferChecksum` | apps/desktop/src/renderer/src/webrtc/RemoteControlClient.ts:2220-2228 | The loop computes the FNV-1a fold of the bytes on 32-bit words |
| `Checksum.KnownChecksums` | apps/desktop/src/renderer/src/webrtc/RemoteControlClient.ts:2216-2228 | The published FNV-1a values of nothing and of the letter a |
| `Checksum.SingleByteChangeIsDetected` | apps/desktop/src/renderer/src/webrtc/RemoteControlClient.ts:2216-2228 | Two inputs of equal length that differ in exactly one byte have different checksums |
| `Checksum.FoldInjectiveInState` | apps/desktop/src/renderer/src/webrtc/RemoteControlClient.ts:2220-2228 | The fold of fixed bytes is injective in the starting state |
| `Checksum.FormatInjective` | apps/desktop/src/renderer/src/webrtc/RemoteControlClient.ts:2230-2232 | The eight-digit hexadecimal form is injective |
| `Checksum.FormatPassesSanitizer` | apps/desktop/src/renderer/src/webrtc/RemoteControlClient.ts:2172-2179 | The formatted checksum passes its validator unchanged |
| `Base64.RoundTrip` | apps/desktop/src/renderer/src/webrtc/RemoteControlClient.ts:2270-2288 | Decoding an encoded byte sequence gives it back (section 4 of RFC 4648) |
| `Base64.GroupIsTheSame24Bits` | apps/desktop/src/renderer/src/webrtc/RemoteControlClient.ts:2270-2277 | A group of four characters and its three bytes are the same 24 bits |
| `Base64.EncodeShape` | apps/desktop/src/renderer/src/webrtc/RemoteControlClient.ts:2270-2277 | The text has four characters per three bytes begun, all of the alphabet but for padding at the end |
| `Base64.EncodePassesSanitizer` | apps/desktop/src/renderer/src/webrtc/RemoteControlClient.ts:2198-2214 | Encoded bytes within the decoded limit are accepted by the validator unchanged |
| `Base64.AlphabetIs` | apps/desktop/src/renderer/src/webrtc/RemoteControlClient.ts:2270-2277 | The characters are those of table 1 of RFC 4648 |
| `Clipboard.NoEcho` | apps/desktop/src/renderer/src/webrtc/RemoteControlClient.ts:1063-1149 | In every run of two peers over FIFO channels, what a side sends is a subsequence of what its own user copied: each message is charged to a copy of its own, and nothing received is sent back |
| `Clipboard.Quiescence` | apps/desktop/src/renderer/src/webrtc/RemoteControlClient.ts:1073-1133 | From any state, a side whose user copies nothing more sends at most two further messages, the pending one and the contents not yet polled |
| `Clipboard.OneSidedConvergence` | apps/desktop/src/renderer/src/webrtc/RemoteControlClient.ts:1063-1149 | From equal clipboards with both sides synchronised, over channels that stay open: while only one user, on either side, copies contents that can be transferred, the clipboards are equal whenever nothing is under way |
| `Clipboard.ClipboardsCanCross` | apps/desktop/src/renderer/src/webrtc/RemoteControlClient.ts:1063-1149 | When both users copy at once, some run ends with the contents swapped and nothing left to send |
| `Clipboard.TurnsCanDiverge` | apps/desktop/src/renderer/src/webrtc/RemoteControlClient.ts:1073-1097 | For any two contents a and b some run in which the users take turns (a, then b, then a again) ends with a on one side and b on the other, and nothing left to send |
| `Clipboard.ConvergenceAtRest` | apps/desktop/src/renderer/src/webrtc/RemoteControlClient.ts:1063-1149 | Over whole runs from equal clipboards, with copies of contents that can be transferred and channels that stay open: at rest the clipboards are equal if and only if one side's last clipboard write was a copy that it sent, or the two sides' last messages are the same |
| `Clipboard.LoneCopyConverges` | apps/desktop/src/renderer/src/webrtc/RemoteControlClient.ts:1073-1133 | From rest with equal clipboards, a lone copy of any contents by either side ends in equal clipboards if and only if it is the present contents, or is within the limits (1048576 characters of text and of html, 12582912 of an image that is a data URL), not nothing, and neither what the copier saw last nor what it received last |
| `Clipboard.LoneCopyArrives` | apps/desktop/src/renderer/src/webrtc/RemoteControlClient.ts:2035-2048 | After a lone copy of any contents, once at rest: the other side holds each field that is within its limit and nothing for the others, if the copy is news and some field gets through, and what it held before if not |
| `Clipboard.TransferableIsKept` | apps/desktop/src/renderer/src/webrtc/RemoteControlClient.ts:2035-2048 | The receiver's validator leaves exactly those contents unchanged that are within the limits in numbers |
| `Clipboard.OpeningSendsNothing` | apps/desktop/src/renderer/src/webrtc/RemoteControlClient.ts:1063-1066 | When its channel opens a side has nothing to send: what was copied or scheduled before is not sent, nor is anything later unless its user copies it |
| `Clipboard.ClosedIsSilent` | apps/desktop/src/renderer/src/webrtc/RemoteControlClient.ts:1100-1132 | Once both ends have closed, whatever was scheduled or under way is lost, and until a channel opens again nothing is sent and only the users change the clipboards |
| `Clipboard.LoneCopySettles` | apps/desktop/src/renderer/src/webrtc/RemoteControlClient.ts:1073-1149 | A poll, the timer and the receipt bring the two sides to rest after a lone copy |
| `Clipboard.OutgoingStep` | apps/desktop/src/renderer/src/webrtc/RemoteControlClient.ts:1073-1149 | No event makes a side send more than it would have sent, except for what its user copies |
| `Clipboard.ClipboardSync.PollTimer` | apps/desktop/src/renderer/src/webrtc/RemoteControlClient.ts:1073-1097 | The polling callback on its mutable snapshots is the poll of the model |
| `Clipboard.ClipboardSync.ApplyRemoteClipboard` | apps/desktop/src/renderer/src/webrtc/RemoteControlClient.ts:1135-1149 | Applying a received message on the mutable state is the step of the model |
| `Clipboard.ClipboardSync.StartClipboardSync` | apps/desktop/src/renderer/src/webrtc/RemoteControlClient.ts:1063-1066 | Starting takes a snapshot and forgets what was pending |
| `Clipboard.ClipboardSync.StopClipboardSync` | apps/desktop/src/renderer/src/webrtc/RemoteControlClient.ts:1100-1111 | Stopping forgets what was pending and stops polling |
| `Clipboard.ClipboardSync.SendTimer` | apps/desktop/src/renderer/src/webrtc/RemoteControlClient.ts:1119-1132 | The timer sends the pending message and forgets it |
| `JoinGate.ViewersAreJustified` | apps/server/src/signaling/signaling.gateway.ts:113-199 | Over whole runs of interleaved joins, every viewer in the registry was let in by a call whose password was accepted and for which approval was not required, or given by the host in that call, or given less than the cache's time to live ago for the same address and session |
| `JoinGate.AlwaysKnown` | apps/server/src/signaling/signaling.gateway.ts:131-176 | Every suspended join and every entry of the approval cache is accounted for by events of the trace |
| `JoinGate.AdmissionIsJustified` | apps/server/src/signaling/signaling.gateway.ts:143-190 | The step that admits a viewer finds its whole justification in the trace so far |
| `JoinGate.KeyInjective` | apps/server/src/signaling/signaling.gateway.ts:378-380 | The key `address:session` tells both apart even when the address contains colons |
| `JoinGate.SessionHasNoColon` | apps/server/src/signaling/signaling.gateway.ts:498-509 | Session ids that pass the validator contain no colon |
| `JoinGate.RegistryStaysSound` | apps/server/src/signaling/signaling.gateway.ts:179-199 | In every run of the gate the registry keeps its invariants and each client is in at most one session |
| `JoinOutcomes.ViewerIsLetIn` | apps/server/src/signaling/signaling.gateway.ts:155-190 | Over traces with an ascending clock: the step of a viewer's call joins it to its session if and only if it is an accepted password in a call that read that no approval is required, or for whose address and session the host's latest approval is younger than the time to live, or it is the host's approval in this call |
| `JoinOutcomes.AcceptedOutcome` | apps/server/src/signaling/signaling.gateway.ts:152-176 | Of an accepted password: the join at once if nobody needs to be asked; else the host is asked exactly if it is there and the approval limiter has room; else the call is over |
| `JoinOutcomes.EndedOutcome` | apps/server/src/signaling/signaling.gateway.ts:142-176 | A refused password ends the call, and so does the host's answer, with the join exactly if it is an approval |
| `JoinOutcomes.SettingsOutcome` | apps/server/src/signaling/signaling.gateway.ts:131-142 | The password is checked exactly if the key's failures since its last success leave room; approval is required unless the settings say no |
| `JoinOutcomes.StartOutcome` | apps/server/src/signaling/signaling.gateway.ts:113-131 | A new join: nothing if invalid; else a sweep, and if its address has room a host is joined at once and a viewer's call waits for the settings |
| `JoinOutcomes.OtherOutcome` | apps/server/src/signaling/signaling.gateway.ts:201-240 | The timer sweeps, a heartbeat touches, a disconnected client is removed, and no call moves |
| `JoinOutcomes.CacheIsLatest` | apps/server/src/signaling/signaling.gateway.ts:368-399 | The approval cache holds the latest approval of each address and session in the trace, or none when that has expired |
| `JoinOutcomes.ExpiredAreForgotten` | apps/server/src/signaling/signaling.gateway.ts:368-394 | The timer forgets exactly the expired approvals, and a look-up leaves no expired one of its key |
| `GateLimiters.PromptsAreBounded` | apps/server/src/signaling/signaling.gateway.ts:154-170 | Over whole runs of the gate, the steps after which a call of an address and session waits for the host's answer are in any window at most as many as the limiter allows |
| `GateLimiters.JoinsAreBounded` | apps/server/src/signaling/signaling.gateway.ts:123-129 | Over whole runs of the gate, the joins of one address that are admitted or suspended by their first step are in any window at most as many as the limiter allows |
| `GateLimiters.FailuresAreBounded` | apps/server/src/signaling/signaling.gateway.ts:131-152 | In any window the failures of a key since its last success are at most maxEvents - 1 plus the largest number of the key's calls that were being checked at once |
| `GateLimiters.SeparateChecksAreBounded` | apps/server/src/signaling/signaling.gateway.ts:131-152 | When no two checks of a key overlap, its failures in any window never exceed maxEvents |
| `GateLimiters.AllFailuresAreBounded` | apps/server/src/signaling/signaling.gateway.ts:131-152 | In a window without a success of the key the bound is one on all its failures |
| `GateLimiters.FailuresAndChecks` | apps/server/src/signaling/signaling.gateway.ts:131-152 | Failures in the window and calls being checked stay together below the limit plus the peak |
| `GateLimiters.TableIsFailures` | apps/server/src/signaling/signaling.gateway.ts:133-152 | The limiter's list shows to every later window what the failures since the last success show |
| `OverlappingChecks.OverlappingChecksOvershoot` | apps/server/src/signaling/signaling.gateway.ts:131-152 | For every n below the limit and every p some run of the gate has n + p failures of one key in one window with at most p overlapping checks: n one after the other, then p at once |
| `OverlappingChecks.BoundIsReached` | apps/server/src/signaling/signaling.gateway.ts:131-152 | For every number p of overlapping checks some run with exactly that peak has maxEvents - 1 + p failures in one window: the bound is reached |
| `OverlappingChecks.OverlapConditionIsExact` | apps/server/src/signaling/signaling.gateway.ts:131-152 | Every run with at most p overlapping checks keeps its failures since the last success within maxEvents if and only if p <= 1, or no check can fail in a window at all |
| `OverlappingChecks.SuccessesOvershoot` | apps/server/src/signaling/signaling.gateway.ts:131-152 | For a limit of two or more and every m some run without overlap has m failures of one key in one window, with successes in between |
| `OverlappingChecks.SuccessConditionIsExact` | apps/server/src/signaling/signaling.gateway.ts:131-152 | Every run with at most p overlapping checks keeps all its failures, forgotten ones included, within maxEvents if and only if p = 0, or p = 1 and the limit is one, or no check can fail at all |
| `SignalingGateway.SignalingGateway.StartJoin` | apps/server/src/signaling/signaling.gateway.ts:118-130 | Up to the first await, on the limiter, the suspended calls and the registry: the first event of a join |
| `SignalingGateway.SignalingGateway.ReadSettings` | apps/server/src/signaling/signaling.gateway.ts:131-141 | After reading the settings: the password limiter is asked, and the call goes on or ends |
| `SignalingGateway.SignalingGateway.PasswordChecked` | apps/server/src/signaling/signaling.gateway.ts:143-167 | After the password check: failure recorded, or limiter reset and the viewer admitted, prompted for, or turned away |
| `SignalingGateway.SignalingGateway.HostAnswered` | apps/server/src/signaling/signaling.gateway.ts:167-190 | After the host's answer: approval cached and the viewer admitted, or nothing |
| `SignalingGateway.SignalingGateway.CleanupExpiredApprovals` | apps/server/src/signaling/signaling.gateway.ts:369-376 | The sweep keeps exactly the approvals that have not expired |
| `SignalingGateway.SignalingGateway.IsRecentlyApproved` | apps/server/src/signaling/signaling.gateway.ts:382-394 | An entry counts until it expires, and an expired one is deleted when looked at |
| `SignalingGateway.SignalingGateway.TimerFired` | apps/server/src/signaling/signaling.gateway.ts:72-78 | The periodic clean-up sweeps peers and approvals |
| `SignalingGateway.SignalingGateway.Disconnect` | apps/server/src/signaling/signaling.gateway.ts:100-111 | A disconnect removes the client from the registry |
| `SignalingGateway.SignalingGateway.Heartbeat` | apps/server/src/signaling/signaling.gateway.ts:216-222 | A heartbeat touches a known peer and nothing else |
| `ConnectionCounts.CountsAreExact` | apps/server/src/signaling/signaling.gateway.ts:87-98 | In every run the count of an address is the number of its connected clients |
| `ConnectionCounts.ConnectionsAreBounded` | apps/server/src/signaling/signaling.gateway.ts:87-98 | No address has more than the allowed number of clients connected |
| `ConnectionCounts.ConnectedByRecount` | apps/server/src/signaling/signaling.gateway.ts:84-98 | In every run exactly those clients are connected that are let in while a recount of their address is below the maximum, until they disconnect |
| `ConnectionCounts.Connections.HandleConnection` | apps/server/src/signaling/signaling.gateway.ts:87-98 | A connection is counted, or refused exactly when the address has as many as allowed |
| `ConnectionCounts.Connections.ReleaseClientAddress` | apps/server/src/signaling/signaling.gateway.ts:345-359 | Releasing a client updates the two maps as the model does, and does nothing for an unknown client |
| `SessionRuns.SoundAlways` | apps/server/src/signaling/sessions.service.ts:35-65 | In every run of joins, additions, removals, touches and sweeps, however interleaved: no empty session, one peer per role, all three capacity limits respected |
| `SessionRuns.RefinesAlways` | apps/server/src/signaling/signaling.gateway.ts:179-190 | When a join removes and adds in one step, the nested map stands for a flat map from client to session, role and time, in every run, and joins are accepted and refused by what that map says |
| `SessionRuns.AddKeepsOneSession` | apps/server/src/signaling/sessions.service.ts:35-47 | Adding a client keeps every client in one session exactly when it is in no other session before |
| `SessionRuns.InterleavedJoins` | apps/server/src/signaling/signaling.gateway.ts:179-190 | A client in a session that joins twice ends in two sessions when the second join runs while the first awaits the client's leaving |
| `SessionRuns.MemberWasJoined` | apps/server/src/signaling/sessions.service.ts:35-47 | Every member of a session was put there by a join of exactly this peer to this session |
| `SessionLifetimes.MembersAreThoseWhoStay` | apps/server/src/signaling/sessions.service.ts:35-124 | Over runs with atomic joins: a client is in a session if and only if some join let it in there and since then it has not been removed, has not joined again, and at every sweep, at time u, its latest join or heartbeat at t has u - t <= peerTtlMs |
| `SessionLifetimes.RefusedOnlyIfNeeded` | apps/server/src/signaling/sessions.service.ts:144-164 | A peer is refused if and only if letting it in would break a limit or give a role to two clients of the session |
| `SessionRuns.JoinSession` | apps/server/src/signaling/signaling.gateway.ts:179-190 | Removing and then adding on the registry object is the join step |
| `Sessions.SessionsService.AddPeer` | apps/server/src/signaling/sessions.service.ts:35-47 | The new registry and the peers reported, or the capacity error and no change |
| `Sessions.SessionsService.AssertCapacity` | apps/server/src/signaling/sessions.service.ts:144-164 | Which of the four capacity errors applies, in order, or none |
| `Sessions.SessionsService.GetTotalPeerCount` | apps/server/src/signaling/sessions.service.ts:166-173 | The loop counts the memberships of all sessions |
| `Sessions.SessionsService.GetPeerByRole` | apps/server/src/signaling/sessions.service.ts:82-90 | The only peer of the session with that role, or none if there is none |
| `Sessions.SessionsService.GetPeer` | apps/server/src/signaling/sessions.service.ts:71-80 | A session the client is in, or none if it is in none |
| `Sessions.SessionsService.RemovePeer` | apps/server/src/signaling/sessions.service.ts:49-65 | The client leaves one session it is in, and a session that becomes empty is dropped |
| `Sessions.SessionsService.TouchPeer` | apps/server/src/signaling/sessions.service.ts:92-100 | Only the time of that peer changes, and the result says whether it is known |
| `Sessions.SessionsService.RemoveExpiredPeers` | apps/server/src/signaling/sessions.service.ts:102-124 | Exactly the peers with now - lastSeenAt > peerTtlMs are removed, the others stay, and each removed one is reported once |
| `RateLimit.AcceptedExactlyBelowLimit` | apps/server/src/signaling/rateLimit.ts:9-20 | With a clock that does not go back, a call is let through exactly when fewer than maxEvents accepted events lie in the window ending with it |
| `RateLimit.WindowBound` | apps/server/src/signaling/rateLimit.ts:9-42 | No window ever holds more than maxEvents accepted events of a key |
| `RateLimit.RefusedExactlyAtLimit` | apps/server/src/signaling/rateLimit.ts:9-20 | A refused call has exactly maxEvents accepted events in its window, and conversely |
| `RateLimit.StoredIsHistory` | apps/server/src/signaling/rateLimit.ts:32-42 | The pruned list is the full history filtered to the window, for every later window |
| `RateLimit.NoEmptyLists` | apps/server/src/signaling/rateLimit.ts:32-42 | The table never keeps an empty list |
| `RateLimit.ClockSetBack` | apps/server/src/signaling/rateLimit.ts:9-42 | With a clock set back, every limiter for two events or more with a window of at least a millisecond accepts maxEvents + 1 in one window |
| `RateLimit.ClockConditionIsExact` | apps/server/src/signaling/rateLimit.ts:9-42 | The bound holds for every clock if and only if the limiter is for at most one event, or its window is empty |
| `RateLimit.SlidingWindowRateLimiter.Consume` | apps/server/src/signaling/rateLimit.ts:9-16 | The new table and the verdict of one call |
| `RateLimit.SlidingWindowRateLimiter.GetActiveEvents` | apps/server/src/signaling/rateLimit.ts:32-42 | The events in the window, with the table pruned to them |
| `RateLimit.SlidingWindowRateLimiter.IsAllowed` | apps/server/src/signaling/rateLimit.ts:18-20 | Whether the window has room, with the table pruned |
| `RateLimit.SlidingWindowRateLimiter.Record` | apps/server/src/signaling/rateLimit.ts:22-26 | The event is added after the events still in the window |
| `RateLimit.SlidingWindowRateLimiter.Reset` | apps/server/src/signaling/rateLimit.ts:28-30 | The events of the key, and no others, are forgotten |
| `Crc32.ComputeCrc32` | apps/desktop/scripts/generate-icons.mjs:228-236 | The table-driven loop computes the bit-by-bit CRC of section 3.4 of RFC 2083 for every byte sequence |
| `Crc32.CreateCrcTable` | apps/desktop/scripts/generate-icons.mjs:238-252 | Entry i of the table is i shifted eight times |
| `Crc32.EightShifts` | apps/desktop/scripts/generate-icons.mjs:228-236 | step8(x) = table[x & 255] ^ (x >>> 8) |
| `Crc32.FeedBitsIsShift` | apps/desktop/scripts/generate-icons.mjs:238-252 | Feeding bits one at a time is adding them to the register and shifting |
| `Crc32.PolynomialIs` | apps/desktop/scripts/generate-icons.mjs:238-252 | The constant has exactly the terms of the polynomial in section 3.4 of RFC 2083, and the register starts with all ones |
| `Crc32.BurstIsDetected` | apps/desktop/scripts/generate-icons.mjs:228-236 | Any change within four consecutive bytes changes the CRC |
| `Icons.CreateIco` | apps/desktop/scripts/generate-icons.mjs:186-210 | Succeeds exactly when count, lengths and offsets fit their fields, and then writes the directory and the pictures |
| `Icons.IcoRoundTrip` | apps/desktop/scripts/generate-icons.mjs:186-210 | Reading a written file gives the images back exactly when every side is between 1 and 256 (0 stands for 256) |
| `Icons.SmallIco` | apps/desktop/scripts/generate-icons.mjs:186-210 | Byte for byte, the file of one picture of less than 256 bytes |
| `Icons.RegionsTile` | apps/desktop/scripts/generate-icons.mjs:186-210 | The pictures lie where the entries say, disjoint, and tile the rest of the file |
| `Icons.ChunksRoundTrip` | apps/desktop/scripts/generate-icons.mjs:212-220 | A stream of PNG chunks splits back into the same chunks with valid CRCs (section 3.2 of RFC 2083) |
| `Icons.SmallChunk` | apps/desktop/scripts/generate-icons.mjs:212-220 | Byte for byte, a chunk with less than 256 bytes of data |
| `Icons.DamagedChunkIsRefused` | apps/desktop/scripts/generate-icons.mjs:212-220 | A reader refuses a chunk in which up to four consecutive bytes of type and data were changed |
| `Icons.Uint32` | apps/desktop/scripts/generate-icons.mjs:222-226 | The four bytes of the low 32 bits, highest first |
| `Subnet.SubnetIsEnumerated` | apps/desktop/src/main/discoveryClient.ts:286-311 | For a mask of p leading ones, exactly the hosts of the subnet in strictly increasing order: 2^(32-p) - 2 for p <= 30, two for 31, one for 32, none when more than allowed |
| `Subnet.AnyMaskIsEnumerated` | apps/desktop/src/main/discoveryClient.ts:286-311 | For any mask, contiguous or not: what lies strictly between network and broadcast address, or both of them when nothing does, each once and in order, or nothing when that is more than allowed |
| `Subnet.GetSubnetProbeAddresses` | apps/desktop/src/main/discoveryClient.ts:286-311 | The loop writes the addresses of the specified range, or nothing |
| `Subnet.HostTextsAreEnumerated` | apps/desktop/src/main/discoveryClient.ts:286-311 | From texts to texts: for an address and a mask of p leading ones the list holds exactly the canonical texts of the subnet's hosts, in increasing order, each once; none when there are more than allowed |
| `Subnet.AddressesAreHosts` | apps/desktop/src/main/discoveryClient.ts:385-392 | The addresses written for a subnet are distinct and read back as its hosts |
| `Subnet.IntRoundTrip` | apps/desktop/src/main/discoveryClient.ts:367-393 | Every word survives being written as an address and read back |
| `Subnet.TextRoundTrip` | apps/desktop/src/main/discoveryClient.ts:367-393 | An address that is read is written back unchanged exactly when it is in canonical form |
| `Subnet.OctetsToWord` | apps/desktop/src/main/discoveryClient.ts:378 | Shifting and joining the octets with `|` is positional notation |
| `Subnet.BroadcastsAgree` | packages/shared/src/index.ts:167-176 | The octet-wise broadcast address is the 32-bit one for every address and every mask |
| `Subnet.UnreadableIsEveryone` | packages/shared/src/index.ts:167-176 | When a text is no address of four octets the result is 255.255.255.255 |
| `UniqueFilePath.Disk.CreateUniqueFilePath` | apps/desktop/src/main/fileTransfer.ts:37-55 | Creates the first free of a thousand candidates exclusively, or fails leaving the disk as it was |
| `UniqueFilePath.FirstFreeIsLeast` | apps/desktop/src/main/fileTransfer.ts:41-54 | The candidate found is the least free one, and none is found exactly when all are taken |
| `UniqueFilePath.Disk.WriteExclusive` | apps/desktop/src/main/fileTransfer.ts:47 | Creation succeeds exactly on a free path, and writes only there |
| `UniqueFilePath.CandidatesDistinct` | apps/desktop/src/main/fileTransfer.ts:42-44 | The thousand candidates are different paths |
| `UniqueFilePath.NumberIsBetween` | apps/desktop/src/main/fileTransfer.ts:38-44 | The first candidate is the requested name; every other one keeps directory, base and extension, and its number, in parentheses between the two, reads back |
| `UniqueFilePath.PathsAreDistinct` | apps/desktop/src/main/fileTransfer.ts:37-55 | No two transfers are given the same path, whatever names they ask for |
| `UniqueFilePath.RepeatedRequest` | apps/desktop/src/main/fileTransfer.ts:37-55 | Repeating a request hands out the candidates in order, a thousand of them, and then fails |
| `Coverage.GetCoveredLength` | scripts/run-tests.mjs:285-313 | The result is the cardinality of the union of the intervals clipped to the source; it crashes exactly when there are intervals and that union is empty |
| `Coverage.OrderDoesNotMatter` | scripts/run-tests.mjs:285-313 | Neither the order of the intervals nor repeating them changes the result, be it the length or the crash |
| `WorkerPool.StartedOnceInOrder` | apps/desktop/src/main/discoveryClient.ts:350-365 | At every moment the tasks started are those of the first items in order, once each, and at most min(max(concurrency, 1), n) are in flight, with tasks failing or not |
| `WorkerPool.AllWorkersCanBeBusy` | apps/desktop/src/main/discoveryClient.ts:350-365 | The bound on the tasks in flight is reached: some run has min(max(concurrency, 1), n) of them at once |
| `WorkerPool.WhenOver` | apps/desktop/src/main/discoveryClient.ts:357-364 | When all workers are done every started task has ended; unless every worker failed every item was started; without failures every task has finished |
| `WorkerPool.EveryRunEnds` | apps/desktop/src/main/discoveryClient.ts:350-365 | A run has at most 3n + workers steps and can only end with all workers done |
| `WorkerPool.SharedPool.Next` | apps/desktop/src/main/discoveryClient.ts:358-361 | The body of a worker's loop up to its await, on the shared index |
| `WorkerPool.SharedPool.TaskEnded` | apps/desktop/src/main/discoveryClient.ts:361 | The return or failure of the awaited task, on the shared state |
| `WorkerPool.InvAlways` | apps/desktop/src/main/discoveryClient.ts:350-365 | At every moment each item before the index is with one worker, finished or failed, and a worker stops only when no item is left |
| `Bitrate.AlwaysInBounds` | apps/desktop/src/renderer/src/webrtc/RemoteControlClient.ts:1628-1694 | Over all runs of samples, settings changes and encoder updates the bitrate stays between minimum and current maximum |
| `Bitrate.BoundsInNumbers` | apps/desktop/src/renderer/src/webrtc/RemoteControlClient.ts:1682-1694 | The bounds in numbers, for games and desktops and every frame rate |
| `Bitrate.StartInNumbers` | apps/desktop/src/renderer/src/webrtc/RemoteControlClient.ts:1682-1684 | A game starts at 375000 for each frame of a second, a desktop at 200000 |
| `Bitrate.RoundedIsNearest` | apps/desktop/src/renderer/src/webrtc/RemoteControlClient.ts:1682-1694 | Rounding is to the nearest whole number, up from the middle |
| `Bitrate.SettingsNeverRaise` | apps/desktop/src/renderer/src/webrtc/RemoteControlClient.ts:821-831 | New settings leave the bitrate alone where it fits and lower it to the new maximum where it does not; the encoder's update changes nothing |
| `Bitrate.LossDescends` | apps/desktop/src/renderer/src/webrtc/RemoteControlClient.ts:1647-1680 | Under sustained loss of two percent or more, or latency above 350 ms, the bitrate never rises, and drops by 150000 or more at each chance until it is below min + 150000, where it stays |
| `Bitrate.LossIsGeometric` | apps/desktop/src/renderer/src/webrtc/RemoteControlClient.ts:1664-1668 | Loss above five percent or latency above 350 ms leaves 72 percent at each chance, loss from two to five leaves 86: after k chances exactly the k-th power of that, until the bottom is near |
| `Bitrate.GoodIsGeometric` | apps/desktop/src/renderer/src/webrtc/RemoteControlClient.ts:1668-1670 | From 1875000 on each chance of good samples adds eight percent, exactly, until the top is near |
| `Bitrate.FairChangesNothing` | apps/desktop/src/renderer/src/webrtc/RemoteControlClient.ts:1661-1670 | A sample between the bands (loss from one to below two percent, or below one with latency from 180 to 350 ms), or without a finite loss, changes nothing |
| `Bitrate.EverySampleHasItsBand` | apps/desktop/src/renderer/src/webrtc/RemoteControlClient.ts:1661-1670 | Every sample with a finite loss is in exactly one of the four bands |
| `Bitrate.SpacedSamplesCount` | apps/desktop/src/renderer/src/webrtc/RemoteControlClient.ts:1647-1655 | Every sample of a host that comes three seconds or more after the one before is a chance; a viewer has none |
| `Bitrate.BottomInNumbers` | apps/desktop/src/renderer/src/webrtc/RemoteControlClient.ts:1682-1694 | A host sampled every three seconds under loss of two percent or more ends between 2.5 and 2.65 megabits for a game, 1.2 and 1.35 for a desktop |
| `Bitrate.SustainedLossReachesBottom` | apps/desktop/src/renderer/src/webrtc/RemoteControlClient.ts:1647-1680 | (max - min) / 150000 chances suffice to get below min + 150000, and it stays there |
| `Bitrate.GoodAscends` | apps/desktop/src/renderer/src/webrtc/RemoteControlClient.ts:1647-1680 | Under good samples a bitrate of at least 1875000 climbs above max - 150000 and a lower one never rises |
| `Bitrate.SustainedGoodReachesTop` | apps/desktop/src/renderer/src/webrtc/RemoteControlClient.ts:1647-1680 | After (max - min) / 150000 chances the bitrate is above max - 150000 exactly if it started at 1875000 or more, or there |
| `Bitrate.AdaptationsAreSpaced` | apps/desktop/src/renderer/src/webrtc/RemoteControlClient.ts:1652-1655 | Two successive adaptations are at least three seconds apart |
| `Bitrate.BitrateController.AdaptVideoBitrate` | apps/desktop/src/renderer/src/webrtc/RemoteControlClient.ts:1647-1680 | One sample on the mutable controller is the step of the model |
| `Bitrate.BitrateController.UpdateStreamSettings` | apps/desktop/src/renderer/src/webrtc/RemoteControlClient.ts:821-831 | A settings change caps the bitrate at the new maximum |
| `Bitrate.BitrateController.ApplyVideoEncoderParams` | apps/desktop/src/renderer/src/webrtc/RemoteControlClient.ts:1628-1633 | The bitrate is clamped to the present limits |
| `Bitrate.BitrateController.constructor` | apps/desktop/src/renderer/src/webrtc/RemoteControlClient.ts:203-207 | A controller starts at three quarters of its maximum |
| `LogRotation.BackupsAreTheLatest` | apps/desktop/src/main/backendProcess.ts:234-263 | After any appends and opens from no files, `.i` holds the i-th most recently rotated log for i up to the number of backups, and older ones are gone |
| `LogRotation.NothingIsReordered` | apps/desktop/src/main/backendProcess.ts:222-263 | All rotated logs from the oldest on, followed by the current one, are everything that was appended |
| `LogRotation.LogFiles.RotateBackendLog` | apps/desktop/src/main/backendProcess.ts:234-263 | What a rotation does to every path; a rename replaces a file exactly when no backups are kept and `.1` exists |
| `LogRotation.LogFiles.OpenBackendLogStream` | apps/desktop/src/main/backendProcess.ts:222-232 | Opening rotates if due and leaves a log to append to |

## Left out

- React components, Electron windows, tray and updater, WebRTC negotiation, media capture and statistics, Socket.IO, NestJS and JSON: foreign calls; messages arrive as typed values.
- FileTransfer.Integrity: the sender's own file is the sequence of bytes it read; a file that changes while it is sent is not modelled, and the text of abort reasons, progress reports and mime types is dropped.
- FileTransfer.InvAlways: does not say that the two tables have equal key sets, which is false (OrphanSessions.AbortCanOvertakeStart).
- FileDelivery.Delivery: another transfer's start handler is given a free final path when it asks for one; that one of the thousand candidates is free is the subject of UniqueFilePath.
- FileTransfer.OverflowImpossible: the reply of an overflowing append comes with its verdict and not after the unlink, which no messages can bring about (SavedChecksums.NeverOverflows).
- Base64.RoundTrip: decoding skips no white space; the platform's decoder does, but the validator lets none through to the receiver.
- FileSender.SendFile: the backpressure wait is a parameter that says whether the channel is still healthy before each chunk.
- Clipboard.OneSidedConvergence: about contents that can be transferred, over channels that stay open, from a synchronised start.
- Clipboard.ConvergenceAtRest: about contents that can be transferred, in full, over channels that stay open; contents that cannot be are the subject of LoneCopyConverges alone.
- Clipboard.NoEcho: JSON snapshots are identified with the contents they are the text of, and whether an image is a data URL is decided by a parameter of the event.
- Sessions.SessionsService.RemovePeer: the order in which a map is gone through is not modelled; when a client is in several sessions any of them may be the first.
- Sessions.SessionsService.AddPeer: needs the one-peer-per-role invariant that every run keeps, since the source looks at the first peer with the role; the peers reported are a map, without their order.
- JoinGate.ViewersAreJustified: `verifyHostPassword`, the settings and the host's answer are parameters of events; scrypt and the settings file are not modelled. A call whose client disconnects goes on, as in the source.
- JoinOutcomes.ViewerIsLetIn: an approval that would expire at the epoch itself does not count, because its timestamp reads as no entry; what the limiters count is stated through the calls the run makes of them.
- SessionLifetimes.MembersAreThoseWhoStay: whether a join finds room is asked of the flat map that the run stands for.
- RateLimit.WindowBound: `reset` is not part of these runs; it only forgets events. GateLimiters has it, for the password limiter.
- GateLimiters.FailuresAreBounded: bounds the failures since the key's last success, because a success resets the limiter; GateLimiters.AllFailuresAreBounded counts all of them where there is none.
- ConnectionCounts.CountsAreExact: the parsing of forwarded-for headers is not modelled, and socket ids are used once.
- Icons.CreateIco: drawing, scaling and deflating the pictures are not modelled; a picture is any byte sequence.
- Subnet.BroadcastsAgree: the language's conversion of a text to a number is a parameter that must agree with decimal notation on digits; what it makes of other texts is not modelled.
- UniqueFilePath.Disk.CreateUniqueFilePath: the platform's cutting of a name into base and extension and its joining of paths are parameters; the directory ends in a separator.
- `sanitizeFileName` and `isReservedWindowsFileName`: Unicode normalisation and the platform's base names cannot be seen.
- LogRotation.LogFiles.RotateBackendLog: file operations are taken to succeed, so the warning after a failure is not modelled; backups are a natural number.
- Bitrate.AlwaysInBounds: real numbers in place of floating point; the encoder's own parameters are not modelled.
- WorkerPool.WhenOver: the items and the results of their tasks are not modelled, only which task is started, finished or failed.
- Coverage.GetCoveredLength: positions are integers; the platform's sort is a stable insertion sort.
- Relay of signals, room broadcasts, shutdown announcements, key tables, pointer scaling and the other validators: each is a single branch or a table look-up that keeps no state between calls.
- The browser fallback store: it lacks the order and size checks that the properties rest on.
