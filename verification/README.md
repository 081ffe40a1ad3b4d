# DeskFerry stream, relay and screen models

DeskFerry carries a TCP byte stream between a Home and a Work agent over transports that die and are replaced:
HTTP-stream or WebSocket connections to a relay, which pairs the two sides. This project models the protocol layers of
that path in Dafny and proves what each of them promises, over every run.

Each part has the same shape. The state that the program guards with a lock is a datatype, and each critical section
is a function on it. Beside it, where the program updates that state in place, a class holds it in fields and its
methods are proved to perform exactly that function (`ensures State() == F(old(State()))`), and the branches that
decide are stated of the fields as well. A `Step` type, `Enabled` and `Do` turn the sections into a system that any
schedule may drive, and the theorems are stated of every run of that system.

| part | files |
|---|---|
| resumable byte stream | `ResumableFrame`, `ResumableEndpoint`, `ResumableConn`, `ResumableNet`, `ResumableSafety`, `ResumableStaleWake`, `ResumableFifo`, `ResumableFifoSafety`, `ResumableDrain`, `ResumableSteps`, `AckWatchdog` |
| HTTP-stream transport | `HttpRecord`, `HttpStream`, `HttpStreamConn`, `HttpPair`, `HttpPairSafety`, `HttpPairLimits`, `HttpPairDrain`, `HttpPairRefusal`, `HttpPairClosing`, `UploadLoop`, `UploadSchedule`, `DownloadClaims` |
| both together, through the relay's pumps | `Stack`, `StackDelivery` |
| relay session, counters and registry | `RelaySession`, `RelaySessionLoop`, `RelaySessionSafety`, `RelaySessionSteps`, `Counting`, `Reservations`, `ReservationLimits`, `ControlRegistry` |
| screen deltas | `ScreenImage`, `ScreenDelta`, `ScreenWire`, `ScreenLimits` |
| log hub | `LogHub`, `LogTargets`, `LogCatchUp` |
| read-ahead wrappers | `ReadAheadSocket`, `ReadAheadConn` |

Main results:

- **Stream safety.** With frames lost, duplicated, reordered and leaked from older generations without limit, the law
  that what a side has received is a prefix of what the other wrote holds in every state of a run exactly when every
  waiting reader that wakes holds the bytes that come next (`StreamExact`). A side can see for itself that nothing was
  received while its reader waited; that is enough (`StreamSafety`), and as much as it can go by
  (`WakeRightIffFresh`). Runs are of any length. The sender's 64-bit offset wraps; the receiver's cannot pass 2^64-1,
  so the stream stalls there, within one buffer of the wrap (`WindowBound`).
- **Where it fails.** `applyData` cuts the bytes it already has from a frame, may then wait for room, and appends what
  it cut. `dropTransport` does not end that wait, so a reader of an old generation and one of a new generation can
  append the same bytes. The model keeps the two halves apart, and `DuplicateIsReachable` is a run from the start in
  which the Work side receives a byte twice. One data reader at a time per side rules it out
  (`ExclusiveRunsAreFresh`).
- **Transports.** A transport leaves its side only by a close of that side, a drop that names it and its generation,
  an unacceptable frame at a reader of the current generation, or an attachment that replaces it (`TransportAct`);
  nothing of an older generation removes it, however late it comes (`OlderCannotRemove`).
- **Composition.** Resumable endpoints over HTTP-stream pairs, with relay pumps that may hold a message, write it to a
  transport that has been replaced, and write it again, keep the same law end to end under the same exact condition.
  Every run of the bare network is the endpoints' part of a run of the whole path (`NetRunIsRealized`), so the
  condition is needed there too: the path can deliver a byte twice (`DuplicateEndToEnd`).
- **Liveness of a quiet generation.** Over in-order channels, which heartbeats share, nothing is rejected, and from
  every state the finishing moves lead to empty replay buffers and equal offsets.
- **HTTP stream.** A pair refines a FIFO queue, and while both ends are open some requests and reads hand everything
  out. A receiver can refuse a genuine record: the sender has no limit on its number of records
  (`CountLimitIsReachable`), and a close goes past its byte limit (`ByteLimitIsReachableByClose`). From any state that
  can happen exactly when more is outstanding beyond the record the receiver waits for than a reorder map may hold, in
  number or in bytes (`RefusedIffTooMuch`); a sender with all but the oldest of its queue within those limits is safe
  (`SenderCanTell`). An end accepts exactly what was offered before its first close, and then closes alone
  (`AcceptedExactly`), and its peer hands nothing else out after one.
- **Relay.** Generations stay equal, each direction has one pump or one uncollected result, reports never block, and
  every attachment is in exactly one place. A run comes back to the bridge in the same generation exactly when no
  result named a current transport, none closed the session and no live attachment arrived (`UninterruptedIffCalm`); a
  session that waits can always be resumed (`Resumes`). A control takes requests exactly up to its concurrency. The
  counters equal what they count and are never stopped at zero. The registry holds the newest live control of a key or
  nothing.
- **Screen, log, read-ahead.** A viewer is shown the captures themselves. Targets acknowledge log lines in order, each
  once, missing only evicted ones, and can always catch up with all that is kept (`CatchesUp`). The read-ahead
  wrappers change neither bytes nor boundaries. The C# form tells its reader how the socket ended exactly when its
  queue had room at that moment (`EndingReportedIffRoom`).

`dafny verify dfyconfig.toml` checks the whole project.

## Model

| member | source | states |
|---|---|---|
| ResumableFrame.FrameCodec | internal/tunnel/resumable.go:855-877 | parsing succeeds on exactly the bytes that making a well-formed frame produces, and gives that frame back |
| ResumableConn.ResumableConn.constructor | internal/tunnel/resumable.go:83-108 | a new connection has sent, received and kept nothing, at generation 0 without a transport |
| ResumableConn.ResumableConn.Read | internal/tunnel/resumable.go:158-175 | a read takes the front of the receive buffer and nothing else changes |
| ResumableConn.ResumableConn.QueueSend | internal/tunnel/resumable.go:198-214 | a queued chunk extends the replay buffer and the sent offset; an empty window restarts the progress clock |
| ResumableConn.ResumableConn.AttachTransport | internal/tunnel/resumable.go:461-519 | attaching starts a generation and emits an acknowledgement and then the whole replay buffer in order |
| ResumableConn.ResumableConn.ApplyAck | internal/tunnel/resumable.go:668-692 | an acknowledgement within the window discards exactly the bytes it covers; any other is refused |
| ResumableConn.ResumableConn.CheckData | internal/tunnel/resumable.go:757-771 | a data frame is a gap, a duplicate, or has new bytes left after the cut |
| ResumableConn.ResumableConn.AppendData | internal/tunnel/resumable.go:774-780 | the cut bytes go to the end of the receive buffer and the offset advances by their number |
| ResumableConn.ResumableConn.HandleFrame | internal/tunnel/resumable.go:593-640 | every frame kind leads to the stated reaction: silence, a reply, a rejection, or a wait for room |
| ResumableConn.ResumableConn.DropTransport | internal/tunnel/resumable.go:783-806 | the transport becomes none exactly when it is the one named, at the generation named, on an open connection; otherwise nothing changes |
| ResumableConn.ResumableConn.Close | internal/tunnel/resumable.go:808-842 | closing is terminal and keeps what was received |
| ResumableConn.ResumableConn.CheckAckProgress | internal/tunnel/resumable.go:707-738 | the transport is given up exactly after ten seconds without progress on pending data, or for RDP after five on a socket and eight on an HTTP stream |
| ResumableSafety.WindowBound | internal/tunnel/resumable.go:198-214 | the window never spans a revolution of the 64-bit offset, before and after it wraps |
| ResumableSafety.StepKeeps | internal/tunnel/resumable.go:461-806 | every step of either side, and every delivery of any frame ever emitted, keeps the stream, wire and window laws unless a reader of an open side wakes to bytes that do not come next |
| ResumableSafety.StepExact | internal/tunnel/resumable.go:757-781 | a step keeps the laws exactly when a reader that wakes on an open side holds the bytes that come next, and any other wake breaks the stream law itself |
| ResumableSafety.StreamExact | internal/tunnel/resumable.go:593-781 | the stream law holds in every state of a run exactly when every wake on an open side is right |
| ResumableSafety.FreshRunsAreRight | internal/tunnel/resumable.go:770-777 | wakes before which nothing was received are right |
| ResumableSafety.InitialInv | internal/tunnel/resumable.go:83-108 | two new connections satisfy the laws |
| ResumableSafety.StreamSafety | internal/tunnel/resumable.go:593-781 | in every state of every run with fresh wakes, what each side has read and buffered is a prefix of what the other wrote, and its acknowledged position never passes the received one |
| ResumableSafety.RunAdvances | internal/tunnel/resumable.go:668-781 | over any run with right wakes, bytes read and both positions only grow |
| ResumableSafety.ExclusiveRunsAreFresh | internal/tunnel/resumable.go:593-640 | if no reader of a side takes data while another one waits, no wake is ever stale |
| ResumableSafety.WakeRightIffFresh | internal/tunnel/resumable.go:770-777 | what a waiting reader cut comes next in every stream of that length that the side could be receiving, exactly when nothing was received while it waited |
| ResumableSteps.TransportAct | internal/tunnel/resumable.go:461-842 | exactly which steps change a side's transport and generation, and which close it: an attachment, a close, a drop naming both, or an unacceptable frame at a reader of the current generation |
| ResumableSteps.OlderCannotRemove | internal/tunnel/resumable.go:783-789 | in every run, drops and readers of older generations and the other side's steps leave a transport in place |
| ResumableSteps.ClosedIffClosed | internal/tunnel/resumable.go:826-842 | after any run a side is closed exactly when it was or has closed itself |
| ResumableSteps.DataAct | internal/tunnel/resumable.go:757-781 | a data frame advances the receive offset to its end when its new bytes fit in 8 MiB, waits with them when they do not, is acknowledged again when it has none, and otherwise changes nothing |
| ResumableSteps.ControlAct | internal/tunnel/resumable.go:593-692 | an acknowledgement in range releases exactly the bytes before it, a ping is answered with its nonce, and nothing else changes |
| ResumableSteps.QueueAct | internal/tunnel/resumable.go:198-214 | an open side takes a chunk while the replay buffer stays within 8 MiB |
| ResumableStaleWake.DuplicateIsReachable | internal/tunnel/resumable.go:770-806 | a run from the start after which one side holds a second copy of the last byte, so the stream law fails |
| ResumableFifoSafety.RestartInv | internal/tunnel/resumable.go:461-519 | any safe state without waiting readers can begin an undisturbed generation |
| ResumableFifoSafety.DataIsNoGap | internal/tunnel/resumable.go:757-769 | over in-order channels a data frame is never a gap |
| ResumableFifoSafety.AckIsInRange | internal/tunnel/resumable.go:668-681 | over in-order channels an acknowledgement is never out of range |
| ResumableFifoSafety.UndisturbedGeneration | internal/tunnel/resumable.go:461-640 | in every run of an undisturbed generation, heartbeats among its frames, nothing is rejected, and drained channels mean empty replay buffers and equal offsets |
| ResumableDrain.SomeMove | internal/tunnel/resumable.go:177-267 | until it is drained some sending, receiving or reading move is possible |
| ResumableDrain.FinishingLowers | internal/tunnel/resumable.go:593-640 | each such move lowers a lexicographic measure, so they cannot go on for ever |
| ResumableDrain.Drains | internal/tunnel/resumable.go:461-640 | from every state in which both sides have attached, such moves reach the drained state |
| AckWatchdog.WatchdogDecision | internal/tunnel/resumable.go:694-738 | a transport is given up exactly when data was pending on its generation with no acknowledgement progress for the whole threshold of ten, five or eight seconds |
| AckWatchdog.YoungGenerationSurvives | internal/tunnel/resumable.go:469-476 | a generation younger than the threshold is never given up |
| HttpRecord.RecordCodec | internal/tunnel/http_stream.go:1492-1524 | a record reads back exactly from the bytes that writing it produces, and from no others |
| HttpRecord.EncodeBody | internal/tunnel/http_stream.go:794-803 | a body is an acknowledgement record followed by the frames |
| HttpRecord.DecodeBody | internal/tunnel/http_stream.go:1131-1136 | the receiving loop yields the records of a body up to the first error |
| HttpRecord.WholeIsLargest | internal/tunnel/http_stream.go:1492-1506 | the records wholly within a byte prefix are as many as fit it |
| HttpRecord.TruncationLosesATail | internal/tunnel/http_stream.go:1131-1136 | any byte prefix of a body yields exactly the records it wholly contains |
| HttpRecord.WholeBody | internal/tunnel/http_stream.go:1492-1524 | a whole body yields exactly its records and ends cleanly |
| HttpRecord.CloseRoundTrip | internal/tunnel/http_stream.go:1526-1541 | a close payload, laid out as in section 5.5.1 of RFC 6455, gives back its code and the reason it kept |
| HttpRecord.CloseExact | internal/tunnel/http_stream.go:1536-1541 | exactly which payloads decode to which code and reason, short ones to a normal closure |
| HttpRecord.CloseKeepsReason | internal/tunnel/http_stream.go:1526-1541 | a reason survives exactly when it is within 123 bytes |
| HttpStreamConn.HttpStreamConn.constructor | internal/tunnel/http_stream.go:127-139 | a new connection numbers its records from 1 and holds nothing |
| HttpStreamConn.HttpStreamConn.Read | internal/tunnel/http_stream.go:432-471 | a read takes the oldest delivered message |
| HttpStreamConn.HttpStreamConn.QueueFrame | internal/tunnel/http_stream.go:489-517 | a message is taken exactly while neither closed nor closing, and is then numbered, queued and counted; otherwise nothing changes |
| HttpStreamConn.HttpStreamConn.Close | internal/tunnel/http_stream.go:519-567 | a close record is queued without regard to the byte limit |
| HttpStreamConn.HttpStreamConn.TrimAcknowledged | internal/tunnel/http_stream.go:591-601 | exactly the leading records up to the acknowledgement are released, with their bytes |
| HttpStreamConn.HttpStreamConn.ApplyDownstreamAck | internal/tunnel/http_stream.go:839-856 | an acknowledgement on a download request is ignored when it is beyond what was sent |
| HttpStreamConn.HttpStreamConn.ApplyRecord | internal/tunnel/http_stream.go:585-640 | each record is applied, held, ignored or refused as the protocol says, each refusal exactly in its case and without a change |
| HttpStreamConn.HttpStreamConn.TakeNext | internal/tunnel/http_stream.go:626-636 | accepting the next record also accepts every held record that has become next |
| HttpStreamConn.HttpStreamConn.FramesFrom | internal/tunnel/http_stream.go:774-790 | the batch loop selects the run of frames from a sequence within the limit, at least one |
| HttpStreamConn.HttpStreamConn.FramesAfter | internal/tunnel/http_stream.go:649-660 | the snapshot loop selects every frame after a sequence |
| HttpStreamConn.HttpStreamConn.ClaimDownload | internal/tunnel/http_stream.go:1389-1444 | a claim rewinds when due, takes everything undispatched and arms the clock |
| HttpStreamConn.HttpStreamConn.CloseTerminal | internal/tunnel/http_stream.go:569-583 | a terminal close is final and leaves the queues |
| HttpPairSafety.InitialInv | internal/tunnel/http_stream.go:127-139 | two new ends satisfy the laws |
| HttpPairSafety.StepKeeps | internal/tunnel/http_stream.go:489-856 | every section of either end, and every application of any record ever emitted, keeps the laws of both directions |
| HttpPairSafety.PairSafety | internal/tunnel/http_stream.go:585-640 | in every run what is handed out and ready is a prefix of what the peer accepted, no record the peer lacks was discarded, and the reorder map is part of the peer's queue |
| HttpPairSafety.StepRefinesFifo | internal/tunnel/http_stream.go:432-640 | every step is a step of a FIFO queue: nothing, one message in at the back, or the front one out |
| HttpPairSafety.AheadWithinSendBuffer | internal/tunnel/http_stream.go:612-636 | held records are unacknowledged records of the peer, so their bytes are within its buffer |
| HttpPairSafety.AckWithinSent | internal/tunnel/http_stream.go:586-593 | no acknowledgement of a peer is ever beyond what was sent |
| HttpPairSafety.TrimReleases | internal/tunnel/http_stream.go:594-601 | trimming releases only records the peer has received |
| HttpPairSafety.OutcomeLaw | internal/tunnel/http_stream.go:585-625 | a peer's record is refused only for being too far ahead, and while the sender's queue is within its byte limit exactly when the reorder map is full |
| HttpPairLimits.CountLimitIsReachable | internal/tunnel/http_stream.go:616-618 | a run without any close in which a genuine record is refused because the map holds 4096 |
| HttpPairLimits.ByteLimitIsReachableByClose | internal/tunnel/http_stream.go:525-530 | a run in which a close queued behind a full buffer is refused for its bytes |
| HttpPairRefusal.StepKeepsLimits | internal/tunnel/http_stream.go:616-636 | every step keeps the reorder map within its record and byte limits |
| HttpPairRefusal.ReachedWithinLimits | internal/tunnel/http_stream.go:616-636 | in every run both reorder maps are within their limits |
| HttpPairRefusal.RefusedIsTooMuch | internal/tunnel/http_stream.go:612-618 | a peer's record is refused only when what the peer has outstanding beyond the record waited for exceeds one of the limits |
| HttpPairRefusal.RefusedIffTooMuch | internal/tunnel/http_stream.go:585-640 | with both ends open and nothing more written, some requests lead to a refused record exactly when that much is outstanding |
| HttpPairRefusal.SenderCanTell | internal/tunnel/http_stream.go:503-530 | with all but the oldest of its queue within the limits a sender is never refused, and that is all that is ahead of a receiver that has received no more than it acknowledged |
| HttpPairDrain.Drains | internal/tunnel/http_stream.go:432-856 | while both ends are open, some uploads, downloads and reads hand out everything both have accepted, empty both send queues, and close neither |
| HttpPairClosing.WriteAct | internal/tunnel/http_stream.go:489-517 | a write is taken exactly while no close was accepted and the connection has not ended, and waits exactly while 8 MiB would be exceeded |
| HttpPairClosing.EndsOnlyBy | internal/tunnel/http_stream.go:569-625 | a connection ends only by its termination or by a record refused on a path that closes it, and only writes and closes change what was accepted |
| HttpPairClosing.ClosingSafety | internal/tunnel/http_stream.go:489-550 | in every run nothing but closes is accepted or handed out after a close, and an end is closing exactly when it accepted one |
| HttpPairClosing.AcceptedExactly | internal/tunnel/http_stream.go:489-550 | in every run an open end has accepted exactly what was offered before its first close, and then the closes |
| UploadLoop.ClientUpLoop.constructor | internal/tunnel/http_stream.go:674-688 | the loop starts at the first record with one warm-up and nothing in flight |
| UploadLoop.ClientUpLoop.RestartClaims | internal/tunnel/http_stream.go:694-700 | claiming goes back to the first unacknowledged record exactly after three seconds of silence with nothing in flight and something unacknowledged before the cursor |
| UploadLoop.ClientUpLoop.StartPost | internal/tunnel/http_stream.go:702-724 | a free slot sends a batch, an acknowledgement, a keepalive or a warm-up, or nothing |
| UploadLoop.ClientUpLoop.StartPosts | internal/tunnel/http_stream.go:690-724 | slots are filled until the window is full or nothing is due |
| UploadLoop.ClientUpLoop.OnResult | internal/tunnel/http_stream.go:736-756 | a failure takes claims back and waits; a success records the acknowledgement and may widen the window |
| UploadLoop.ClaimIsRun | internal/tunnel/http_stream.go:774-790 | a claim is a run from the first unclaimed record, as long as the limit allows and never empty |
| UploadLoop.StartClaims | internal/tunnel/http_stream.go:713-717 | a POST claims exactly the sequences between the old and the new cursor |
| UploadLoop.FailureReclaims | internal/tunnel/http_stream.go:738-745 | after a failure everything the POST carried is unclaimed again |
| UploadLoop.UploadSafety | internal/tunnel/http_stream.go:667-761 | for every order of results, with closes queued or not, every claimed unacknowledged record is in flight or went out in a POST that succeeded, within the window |
| UploadLoop.IdleResendRestarts | internal/tunnel/http_stream.go:694-724 | after the silence the next POST starts with the oldest unacknowledged record |
| UploadSchedule.StartsIff | internal/tunnel/http_stream.go:702-724 | a POST starts exactly when a slot is free, no retry is pending, and there is a record, an acknowledgement of its own, a keepalive or a warm-up to send |
| UploadSchedule.StartAct | internal/tunnel/http_stream.go:702-724 | the POST carries the acknowledgement of the moment and the oldest unclaimed records, and uses up a warm-up only when it has none |
| UploadSchedule.FinishAct | internal/tunnel/http_stream.go:736-756 | a failure sets the retry time and takes the claim back; a success records the acknowledgement, and the first confirmation opens the window and asks for four warm-ups |
| UploadSchedule.BackoffCounts | internal/tunnel/http_stream.go:743-747 | in every run the wait is 250 ms doubled with each failure in a row, up to five seconds |
| DownloadClaims.DownloadSafety | internal/tunnel/http_stream.go:1389-1444 | between restarts claims are increasing and without overlap, and the clock runs exactly while a dispatched record is unacknowledged |
| DownloadClaims.RestartTakesAll | internal/tunnel/http_stream.go:1389-1402 | once the clock has run out the next claim takes the whole queue |
| DownloadClaims.UncarriedIsTaken | internal/tunnel/http_stream.go:1403-1418 | what no response has carried is taken by the next claim |
| DownloadClaims.CarriedIsTimed | internal/tunnel/http_stream.go:1420-1444 | what a response has carried is timed, and a claim does not disturb the clock |
| DownloadClaims.NothingLost | internal/tunnel/http_stream.go:1389-1444 | every unacknowledged record is taken by the next claim or is being timed with its time still to run |
| DownloadClaims.ClaimExact | internal/tunnel/http_stream.go:1389-1444 | a claim takes exactly what no response has carried, or everything three seconds after the last progress; it answers with nothing exactly when there is none and no answer is forced |
| Stack.ReceiveIsDelivery | relay/go/main.go:2227-2256 | a frame read from a transport is one its peer emitted, whichever transport the pump wrote to |
| Stack.EndToEndExact | relay/python/app.py:661-694 | over any number of transports, with held, misdirected and repeated messages, the stream law holds in every state exactly when every wake is right |
| Stack.EndToEnd | relay/go/main.go:2227-2256 | with fresh wakes each application reads a prefix of what the other wrote |
| StackDelivery.DeliveryIsRealized | relay/go/main.go:2227-2256 | from every state, steps of transports and pumps make any delivery of an emitted frame that the network allows |
| StackDelivery.NetRunIsRealized | relay/go/main.go:2227-2256 | every run of the network is the endpoints' part of a run of the whole path |
| StackDelivery.DuplicateEndToEnd | internal/tunnel/resumable.go:770-806 | a run of the whole path after which a byte has been received twice |
| RelaySessionLoop.ResumeSession.Recovered | relay/go/main.go:1829-1852 | a rebuilt session starts without held transports, waiting for a pair |
| RelaySessionLoop.ResumeSession.StartPump | relay/go/main.go:1872-1884 | a direction without a running pump gets one on the current transports |
| RelaySessionLoop.ResumeSession.EnterBarrier | relay/go/main.go:1946-1955 | the barrier gives up both transports and releases what was held |
| RelaySessionLoop.ResumeSession.OnPumpResult | relay/go/main.go:1895-1922 | a session close ends the session and a failure of a current transport enters the barrier, both releasing exactly what is held; an obsolete result only restarts its pump on the current transports |
| RelaySessionLoop.ResumeSession.OnEarlyAttachment | relay/go/main.go:1923-1935 | a live attachment that arrives early is waited with and everything held is released; a dead one is released and the bridge goes on |
| RelaySessionLoop.ResumeSession.OnWaitEvent | relay/go/main.go:2002-2049 | a wait replaces, drops or times out what it holds, releasing it once |
| RelaySessionLoop.ResumeSession.WaitForAttachments | relay/go/main.go:2002-2049 | the wait goes on through any events until both attachments are there, it expires or the session finishes, and the result says which |
| RelaySessionLoop.ResumeSession.LatestAttachment | relay/go/main.go:2064-2075 | the queue is emptied, its last attachment kept, and exactly the others released |
| RelaySessionLoop.LatestIsLast | relay/go/main.go:2064-2075 | the newest attachment is what remains, and nothing but the queue and the released change |
| RelaySessionLoop.LatestReleasesRest | relay/go/main.go:2064-2075 | the one held before and all but the last of the queue are released, each once |
| RelaySessionLoop.ResumeSession.KeepLive | relay/go/main.go:2053-2062 | a dead attachment is released, a live one kept |
| RelaySessionLoop.ResumeSession.ReplaceTransports | relay/go/main.go:2208-2217 | both endpoints take their new transports and advance a generation |
| RelaySessionLoop.ResumeSession.JoinAttachments | relay/go/main.go:1966-1992 | a live pair is installed with the next generation and pumped if ready, and released into a new wait if not; a dead one is dropped and a live one kept |
| RelaySessionLoop.ResumeSession.PairUp | relay/go/main.go:1957-1992 | a complete wait installs the latest attachment of each side |
| RelaySessionLoop.ResumeSession.RecoverPair | relay/go/main.go:1829-1852 | the first pair of a rebuilt session is installed, or released if a side could not be told |
| RelaySessionSafety.RebuiltInv | relay/go/main.go:1829-1852 | a rebuilt session satisfies the laws |
| RelaySessionSafety.PairedInv | relay/go/main.go:1868-1886 | a freshly paired session satisfies the laws |
| RelaySessionSafety.StepKeeps | relay/go/main.go:1854-1995 | every branch of the loop, every pump event and every arrival keeps the laws |
| RelaySessionSafety.SessionSafety | relay/go/main.go:1868-1995 | in every run generations agree, each direction has one pump or uncollected result at the loop's head, and each attachment is in exactly one place |
| RelaySessionSafety.ReportingNeverBlocks | relay/go/main.go:2227-2256 | the result channel has room for every pump that stops |
| RelaySessionSafety.ObsoleteResult | relay/go/main.go:1912-1921 | an obsolete result causes no barrier and lowers the number of pumps on old transports |
| RelaySessionSteps.ResultAct | relay/go/main.go:1894-1955 | of a collected result, told in fields: a session close ends the session, a failure of a current transport empties what is held and waits, an older one only restarts its pump |
| RelaySessionSteps.EarlyAct | relay/go/main.go:1923-1955 | a live attachment that arrives early goes into its slot of a new wait and what was held is released; a dead one is released alone |
| RelaySessionSteps.ArrivedAct | relay/go/main.go:2002-2049 | the head of a queue takes the place of the attachment waited with, which is released |
| RelaySessionSteps.PairAct | relay/go/main.go:1957-1995 | a complete wait installs the newest attachment of each side with the next generation, or waits again with those that are alive |
| RelaySessionSteps.RecoverAct | relay/go/main.go:1829-1852 | the first pair of a rebuilt session is installed in its generation, or released |
| RelaySessionSteps.UninterruptedIffCalm | relay/go/main.go:1888-1955 | a run comes back to the loop's head in the same generation exactly when every collected result was obsolete and every early attachment dead, and then holds the same attachments |
| RelaySessionSteps.FailureInterrupts | relay/go/main.go:2227-2256 | a pump that fails to read a current transport, or to write to the one it looked up, interrupts the bridge |
| RelaySessionSteps.Resumes | relay/go/main.go:1957-1995 | from every waiting state two new live attachments lead to the bridge with the next generation |
| Reservations.AgentControl.TryReserve | relay/go/main.go:524-535 | a reservation succeeds exactly on an open control with fewer active than its concurrency, and then counts one more |
| Reservations.AgentControl.Release | relay/go/main.go:537-544 | a release lowers the count, stopping at zero |
| Reservations.RelayRoom.Started | relay/go/main.go:1302-1307 | a pending request is counted in all and for its service |
| Reservations.RelayRoom.Ended | relay/go/main.go:1309-1318 | an ended request is uncounted, each counter stopping at zero |
| Reservations.StepKeeps | relay/go/main.go:702-790 | every stage change of every request keeps the laws of controls, table and rooms |
| Reservations.InitialInv | relay/go/main.go:500-509 | an empty hub satisfies the laws |
| Reservations.StepNotClamped | relay/go/main.go:537-544 | no counter is ever stopped at zero |
| Reservations.ReservationSafety | relay/go/main.go:702-790 | over every interleaving counts equal what they count, within concurrency and the limit of 4096, and nothing is ever stopped at zero |
| ReservationLimits.ReservableIff | relay/go/main.go:524-535 | in every state a new request can reserve a control exactly while fewer requests hold it than its concurrency |
| ReservationLimits.AdmittedIff | relay/go/main.go:702-716 | a registration is refused exactly when the table already holds 4096 requests |
| ReservationLimits.Fills | relay/go/main.go:524-535 | from every state a control can be filled to its concurrency, and then refuses |
| ControlRegistry.RelayRoom.constructor | relay/go/main.go:1260-1262 | a new room counts no control |
| ControlRegistry.RelayRoom.ControlConnected | relay/go/main.go:1276-1285 | a control is counted in all and for its agent |
| ControlRegistry.RelayRoom.ControlDisconnected | relay/go/main.go:1287-1300 | a control is uncounted, and an agent without one leaves the map |
| ControlRegistry.LeaveKeepsRegistry | relay/go/main.go:616-620 | the exit of a control removes it only if it is still the registered one |
| ControlRegistry.ConnectKeepsRoom | relay/go/main.go:1276-1285 | connecting keeps the room's counts equal to its handlers and their sum |
| ControlRegistry.DisconnectKeepsRoom | relay/go/main.go:1287-1300 | disconnecting keeps them, and the branch that leaves a zero counter alone is never needed |
| ControlRegistry.RegistrySafety | relay/go/main.go:605-634 | after any run the registry holds the newest live control of a key or nothing, and every counter equals its handlers and is positive for one about to leave |
| ControlRegistry.ReplacedExitKeepsSuccessor | relay/go/main.go:616-620 | the late exit of a replaced control changes nothing in the registry |
| ScreenDelta.RgbaRegionEqual | internal/screenview/protocol.go:247-257 | true exactly when the two images agree on every pixel of the rectangle |
| ScreenDelta.EncodeFull | internal/screenview/protocol.go:163-172 | one rectangle over the whole image, or an error for an image without pixels |
| ScreenDelta.EncodeDelta | internal/screenview/protocol.go:177-208 | exactly the tiles whose pixels differ, in row order, each with its picture |
| ScreenDelta.Draw | internal/screenview/protocol.go:235-235 | drawing changes exactly the pixels of the rectangle within the canvas |
| ScreenDelta.ApplyFrame | internal/screenview/protocol.go:211-238 | the canvas and the error after any frame, including what a refused frame leaves drawn |
| ScreenDelta.TilesPartition | internal/screenview/protocol.go:190-194 | every pixel is in exactly one tile and no tile reaches outside the image |
| ScreenDelta.DeltaRebuilds | internal/screenview/protocol.go:177-238 | applying the delta to a capture of the one before yields the capture, exactly when it has pixels at all |
| ScreenDelta.FullRebuilds | internal/screenview/protocol.go:163-172 | a full frame shows its capture whatever the canvas held |
| ScreenWire.WriteFrame | internal/screenview/protocol.go:98-126 | length, metadata with payload lengths, and payloads, or the error |
| ScreenWire.ReadFrame | internal/screenview/protocol.go:128-161 | the frame, its payloads and the rest of the stream, or the first error met |
| ScreenWire.ReadOfWrite | internal/screenview/protocol.go:98-161 | a frame of the program's kinds, once written, reads back when its rectangles are well formed and its payloads within the bound, and is refused otherwise |
| ScreenWire.Receive | internal/screenview/client.go:17-45 | the loop hands out the canvas after each frame and stops on an error, a refusing callback, or after one frame in single mode |
| ScreenWire.RunCapture | internal/screenview/capture_windows.go:291-323 | the sender's loop: a full frame, then deltas until the dimensions change or a frame cannot be written |
| ScreenWire.StreamShowsCaptures | internal/screenview/client.go:29-45 | over the byte stream the viewer is shown the captures themselves, each once and in order, up to the first that changes dimensions or does not fit, and no further than it asked for or its callback allowed |
| ScreenWire.ShownIsPrefix | internal/screenview/client.go:38-43 | a callback that never refuses is given all of them when streaming |
| ScreenLimits.DeltaIsMinimal | internal/screenview/protocol.go:177-208 | a delta sends only tiles of the grid that differ and none twice, and is refused exactly when the dimensions differ |
| ScreenLimits.AcceptedIff | internal/screenview/protocol.go:211-238 | exactly which frames a canvas accepts |
| ScreenLimits.CutFrameIsNoFrame | internal/screenview/protocol.go:128-161 | a frame cut short anywhere reads as the end of the stream |
| LogHub.Hub.constructor | internal/remotelog/remotelog.go:48-50 | a new hub is empty and numbers from 1 |
| LogHub.Hub.AppendLine | internal/remotelog/remotelog.go:69-77 | a line is numbered and added, and the oldest evicted while a bound is exceeded |
| LogHub.Hub.Write | internal/remotelog/remotelog.go:58-83 | the lines of the text are appended in order, and its whole length reported |
| LogHub.Hub.Batch | internal/remotelog/remotelog.go:189-213 | the first number is the cursor or the oldest kept, the batch is as many lines as are left from it, up to a hundred, and holds their texts in order |
| LogHub.ValuesOfJoined | internal/remotelog/remotelog.go:60-68 | text yields its lines with either end of line, the last one with or without; empty ones are left out and the others cut to 8192 bytes |
| LogHub.EvictKeepsLongest | internal/remotelog/remotelog.go:73-76 | eviction keeps the longest newest part within both bounds |
| LogHub.AppendContents | internal/remotelog/remotelog.go:69-77 | a write keeps its own line and as many earlier ones as the bounds allow |
| LogHub.AppendKeeps | internal/remotelog/remotelog.go:69-77 | kept lines carry consecutive numbers within both bounds |
| LogTargets.Upload | internal/remotelog/remotelog.go:158-187 | the loop's cursor and the log after any rounds of batches, replies and writes by others |
| LogTargets.UploadIsRun | internal/remotelog/remotelog.go:158-187 | the loop is a run of the system the delivery theorem is about |
| LogTargets.Delivery | internal/remotelog/remotelog.go:106-213 | in every run each target has acknowledged lines as written, in order, each once, missing only evicted ones |
| LogTargets.CompleteUnlessEvicted | internal/remotelog/remotelog.go:158-213 | if nothing was evicted since its start, it has acknowledged exactly the lines up to its cursor |
| LogCatchUp.BatchAct | internal/remotelog/remotelog.go:189-213 | a batch holds up to a hundred of the written lines kept from the cursor on, and is empty exactly at the end of the log |
| LogCatchUp.ReplyAct | internal/remotelog/remotelog.go:175-185 | a full acknowledgement moves the cursor past the batch, any other leaves it |
| LogCatchUp.CatchesUp | internal/remotelog/remotelog.go:158-213 | from every state batches and full acknowledgements bring a target to the end of the log, having acknowledged every kept line since its start |
| ReadAheadSocket.ReadAheadWebSocket.Receive | relay/azure-dotnet/ReadAheadWebSocket.cs:71-102 | a receive hands out as many of the next bytes of the current chunk as fit, or reports the end when it is next |
| ReadAheadSocket.ReadAheadWebSocket.Write | relay/azure-dotnet/ReadAheadWebSocket.cs:59-59 | a chunk goes to the end of the bounded queue |
| ReadAheadSocket.ReadAheadWebSocket.Finish | relay/azure-dotnet/ReadAheadWebSocket.cs:45-58 | the notice of the end is queued if there is room, and the queue completes either way |
| ReadAheadSocket.Transparent | relay/azure-dotnet/ReadAheadWebSocket.cs:34-102 | for any buffer sizes and timing the messages received are the first of the inner ones, and an end is reported only after all bytes |
| ReadAheadSocket.ReceiveProgresses | relay/azure-dotnet/ReadAheadWebSocket.cs:90-101 | a non-empty buffer always makes progress |
| ReadAheadSocket.NoticeNeedsRoom | relay/azure-dotnet/ReadAheadWebSocket.cs:45-58 | the notice of the end reaches the queue exactly when it is not full |
| ReadAheadSocket.EndingReportedIffRoom | relay/azure-dotnet/ReadAheadWebSocket.cs:45-83 | in every run the first receive without a piece tells how the socket ended exactly when the queue had room at that moment |
| ReadAheadSocket.EndingLost | relay/azure-dotnet/ReadAheadWebSocket.cs:45-58 | a run in which the close status or exception is never reported to the reader |
| ReadAheadConn.Conn.Read | relay/go/main.go:1748-1762 | whichever ready branch is taken, a queued message comes before the error |
| ReadAheadConn.Transparent | relay/go/main.go:1730-1762 | reads give the inner messages in order, and the inner error only after all of them |

## Left out

- ResumableSafety.StreamSafety: holds of the runs without a stale wake, the condition a side can check; `StreamExact` gives the exact one.
- AckWatchdog.WatchdogDecision: histories are of fewer than 2^64 bytes; the stream theorems have no such limit.
- HttpPairSafety.PairSafety: sequence numbers are not followed past 64 bits, and the lost-state renumbering of `resetLostSendSequence` is not a step.
- UploadLoop.UploadSafety: `postUpload` is a success or a failure at some later time; retry jitter and HTTP itself are not modelled.
- DownloadClaims.DownloadSafety: the batch download; the streaming response appears in `HttpPair` only as a snapshot of the queue.
- Stack.EndToEnd: the transports are HTTP-stream pairs; a WebSocket transport is the same without their reordering.
- RelaySessionSafety.SessionSafety: a failed pump always names a failed side, as `pumpResumable` does, so the branch for a result without one is not modelled. How long a wait lasts is nondeterministic.
- Reservations.ReservationSafety: the compare-and-swap loop of `TryReserve` is one atomic step, and the choice among controls is nondeterministic. Service session counters follow the same scheme and are not repeated.
- ReservationLimits.ReservableIff: a control may close between the test and the swap of `TryReserve`, so the system's step does not look at `closed`; the method's own contract does.
- ControlRegistry.RegistrySafety: the notices sent to a control's pending sessions when it leaves are not modelled.
- ScreenDelta.DeltaRebuilds: the picture codec is a parameter, assumed lossless for opaque images of less than 2^30 pixels a side, as PNG is; what it does to transparency is not modelled.
- ScreenWire.ReadOfWrite: the metadata codec is a parameter, assumed lossless for the frames the program makes, as JSON is; payload lengths are summed without 64-bit overflow.
- ScreenWire.Receive: the request that precedes the frames, with its mode and interval checks, is left out. The stream is its remaining bytes, so a clean end and a cut-off frame are one error.
- ScreenWire.RunCapture: a capture that fails, and its notice, are not modelled; the stream just ends.
- HttpPairDrain.Drains: says that such requests exist; when the loops make them is a matter of timers and of the network.
- LogTargets.Delivery: line numbers are not followed past 64 bits; dialling, backoff and the 30-second wake-ups are steps that happen or do not. A line cut at its length limit may end within a UTF-8 character, which the JSON of a batch then replaces; batches are sequences of texts here.
- ReadAheadSocket.Transparent: runs before the wrapper's own abort, which cancels the reader and may drop a chunk. The `IsDead` signal is not modelled.
- ReadAheadConn.Transparent: runs before the wrapper's own close, which may drop the message in the reader's hand.
- `applyData` is modelled as two steps, the cut and the append, because it waits between them; every other critical section is one step and a condition-variable wait is a guard on it.
- `Write` splits what it is given into chunks; each chunk is queued and sent by steps of its own, in order, by one writer where order matters.
- Transports are identities that are never reused; a leaked frame is any frame its peer ever tried to write.
- The C# and Python relays implement the same HTTP-stream and session transitions; the Go form is modelled, and the others are cited only where they differ.
- Dial budgets, relay order, heartbeats, backoff tuning and the resume window: timing choices that no theorem depends on.
- Sockets, TLS, proxies, WebSocket dialling, room secrets, dashboards, legacy agent slots, capture, services and all user interface code.
