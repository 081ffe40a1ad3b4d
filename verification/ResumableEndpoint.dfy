// One end of a resumable byte stream: the state guarded by the connection's lock
// and what each critical section does to it. Offsets are unsigned 64-bit
// integers and wrap as the program's do. Waiting on the condition variable is a
// guard (QueueBlocked, DataBlocked): a section runs once its guard is false.
module ResumableEndpoint {
  import opened Prelude
  import opened ResumableFrame

  const MAX_BUFFER: nat := 8 * 1024 * 1024

  // ws is the current transport, tagged by an identity that is never reused.
  datatype Endpoint = Endpoint(
    ws: Option<nat>,
    generation: nat,
    closed: bool,
    recvBuffer: seq<byte>,
    recvOffset: u64,
    sendBuffer: seq<byte>,
    sendBase: u64,
    sendEnd: u64,
    lastAckProgress: int)

  const FRESH: Endpoint := Endpoint(None, 0, false, [], 0, [], 0, 0, 0)

  predicate Valid(e: Endpoint) {
    && |e.sendBuffer| <= MAX_BUFFER
    && e.sendEnd == Add64(e.sendBase, |e.sendBuffer|)
  }

  // Writing side

  predicate QueueBlocked(e: Endpoint, payload: seq<byte>) {
    |e.sendBuffer| + |payload| > MAX_BUFFER && !e.closed
  }

  function QueueSend(e: Endpoint, payload: seq<byte>, now: int): Endpoint {
    if e.closed then e
    else e.(sendBuffer := e.sendBuffer + payload,
            sendEnd := Add64(e.sendEnd, |payload|),
            lastAckProgress := if e.sendEnd == e.sendBase then now else e.lastAckProgress)
  }

  function ApplyAck(e: Endpoint, offset: u64, now: int): (Endpoint, bool)
    requires Valid(e)
  {
    if offset < e.sendBase || offset > e.sendEnd then (e, false)
    else
      (e.(sendBuffer := e.sendBuffer[offset - e.sendBase..],
          sendBase := offset,
          lastAckProgress := if offset > e.sendBase then now else e.lastAckProgress), true)
  }

  // Transport replacement

  function Attach(e: Endpoint, ws: nat, now: int): Endpoint {
    if e.closed then e
    else e.(generation := e.generation + 1,
            ws := Some(ws),
            lastAckProgress := if e.sendEnd > e.sendBase then now else e.lastAckProgress)
  }

  function Replay(base: u64, bytes: seq<byte>): seq<Frame>
    decreases |bytes|
  {
    if bytes == [] then []
    else
      var size := Min(|bytes|, CHUNK_SIZE);
      [Frame(DATA, base, bytes[..size])] + Replay(Add64(base, size), bytes[size..])
  }

  // What an attachment writes to its transport before any other frame.
  function AttachFrames(e: Endpoint): seq<Frame> {
    [Frame(ACK, e.recvOffset, [])] + Replay(e.sendBase, e.sendBuffer)
  }

  function Drop(e: Endpoint, ws: nat, generation: nat): Endpoint {
    if e.ws != Some(ws) || e.generation != generation || e.closed then e
    else e.(ws := None)
  }

  function Close(e: Endpoint): Endpoint {
    if e.closed then e else e.(closed := true, ws := None)
  }

  // Reading side

  // Outcome of comparing a data frame with the receive offset.
  datatype DataCheck = Gap | Duplicate | Fresh(rest: seq<byte>)

  function CheckData(e: Endpoint, offset: u64, data: seq<byte>): DataCheck
    requires |data| <= CHUNK_SIZE
  {
    var end := Add64(offset, |data|);
    if end < offset then Gap
    else if offset > e.recvOffset then Gap
    else if end <= e.recvOffset then Duplicate
    else Fresh(data[e.recvOffset - offset..])
  }

  predicate DataBlocked(e: Endpoint, rest: seq<byte>) {
    |e.recvBuffer| + |rest| > MAX_BUFFER && !e.closed
  }

  // The append after the wait. `rest` was cut before it.
  function Append(e: Endpoint, rest: seq<byte>): Endpoint {
    e.(recvBuffer := e.recvBuffer + rest, recvOffset := Add64(e.recvOffset, |rest|))
  }

  datatype Reaction = Reply(frame: Frame) | Silent | Reject | Wait(rest: seq<byte>)

  function AckFrame(e: Endpoint): Frame {
    Frame(ACK, e.recvOffset, [])
  }

  // A reader whose data frame may be appended now.
  function Accept(e: Endpoint, rest: seq<byte>): (Endpoint, Reaction) {
    if e.closed then (e, Reject)
    else (Append(e, rest), Reply(AckFrame(Append(e, rest))))
  }

  function HandleFrame(e: Endpoint, f: Frame, now: int): (Endpoint, Reaction)
    requires Valid(e) && WellFormed(f)
  {
    if f.kind == ACK then
      var (e', ok) := ApplyAck(e, f.offset, now);
      (e', if ok then Silent else Reject)
    else if f.kind == DATA then
      match CheckData(e, f.offset, f.payload)
      case Gap => (e, Reject)
      case Duplicate => (e, Reply(AckFrame(e)))
      case Fresh(rest) => if DataBlocked(e, rest) then (e, Wait(rest)) else Accept(e, rest)
    else if f.kind == PING then (e, Reply(Frame(PONG, f.offset, [])))
    else if f.kind == PONG then (e, Silent)
    else (e, Reject)
  }

  function TakeCount(e: Endpoint, room: nat): nat {
    Min(room, |e.recvBuffer|)
  }

  // Acknowledgement watchdog

  const ACK_STALL_MS: int := 3000
  const DEFAULT_RECOVERY_MS: int := 10000
  const RDP_RECOVERY_MS: int := 5000
  const RDP_HTTP_STREAM_RECOVERY_MS: int := 8000

  function RecoveryThreshold(rdp: bool, httpStream: bool): int {
    if !rdp then DEFAULT_RECOVERY_MS
    else if httpStream then RDP_HTTP_STREAM_RECOVERY_MS
    else RDP_RECOVERY_MS
  }

  // Unacknowledged bytes, in unsigned arithmetic.
  function Pending(e: Endpoint): u64 {
    (e.sendEnd - e.sendBase) % U64
  }

  predicate ShouldRecover(e: Endpoint, now: int, threshold: int) {
    var elapsed := now - e.lastAckProgress;
    Pending(e) != 0 && e.ws.Some? && elapsed >= ACK_STALL_MS && elapsed >= threshold
  }
}
