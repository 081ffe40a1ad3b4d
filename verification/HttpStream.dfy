// One end of an HTTP-stream transport: the state guarded by the connection's
// lock and what each critical section does to it. Waiting is a guard
// (QueueBlocked).
module HttpStream {
  import opened Prelude
  import opened HttpRecord

  const MAX_BUFFERED: nat := 8 * 1024 * 1024
  const REORDER_LIMIT: nat := 4096
  const RESEND_AFTER_MS: int := 3000

  // downDispatched and downStallSince schedule pipelined downloads: the highest
  // sequence a response has carried, and when dispatched but unacknowledged
  // records last made progress, if any are.
  datatype Conn = Conn(
    sendFrames: seq<Record>,
    sendBytes: int,
    nextSend: u64,
    recvNext: u64,
    recvQueue: seq<Record>,
    recvAhead: map<u64, Record>,
    recvAheadBytes: int,
    closing: bool,
    closed: bool,
    downDispatched: u64,
    downStallSince: Option<int>,
    downAckSent: u64)

  const FRESH: Conn := Conn([], 0, 1, 1, [], map[], 0, false, false, 0, None, 0)

  function Pred64(v: u64): u64 {
    if v == 0 then U64 - 1 else v - 1
  }

  // The acknowledgement a side reports: the last sequence received in order.
  function Acknowledged(c: Conn): u64 {
    Pred64(c.recvNext)
  }

  // Sending

  predicate QueueBlocked(c: Conn, payload: seq<byte>) {
    c.sendBytes + |payload| > MAX_BUFFERED && !c.closed
  }

  function Append(c: Conn, kind: byte, payload: seq<byte>): Conn {
    c.(sendFrames := c.sendFrames + [Record(kind, c.nextSend, payload)],
       nextSend := Add64(c.nextSend, 1),
       sendBytes := c.sendBytes + |payload|)
  }

  function QueueFrame(c: Conn, kind: byte, payload: seq<byte>): (Conn, bool) {
    if c.closed || c.closing then (c, false) else (Append(c, kind, payload), true)
  }

  // A close record is queued whatever the buffer holds.
  function QueueClose(c: Conn, payload: seq<byte>): Conn {
    if c.closed then c else Append(c.(closing := true), CLOSE, payload)
  }

  function SumBytes(frames: seq<Record>): nat {
    if frames == [] then 0 else |frames[0].payload| + SumBytes(frames[1..])
  }

  // How many leading frames an acknowledgement releases.
  function TrimCount(frames: seq<Record>, ack: u64): (n: nat)
    ensures n <= |frames|
    ensures forall i :: 0 <= i < n ==> frames[i].seqNo <= ack
    ensures n < |frames| ==> frames[n].seqNo > ack
  {
    if frames == [] || frames[0].seqNo > ack then 0 else 1 + TrimCount(frames[1..], ack)
  }

  predicate Outstanding(c: Conn) {
    c.sendFrames != [] && c.sendFrames[0].seqNo <= c.downDispatched
  }

  function NoteSendProgress(c: Conn, now: int): Conn {
    c.(downStallSince := if Outstanding(c) then Some(now) else None)
  }

  function Trim(c: Conn, ack: u64, now: int): Conn {
    var n := TrimCount(c.sendFrames, ack);
    if n == 0 then c
    else NoteSendProgress(c.(sendFrames := c.sendFrames[n..],
                             sendBytes := c.sendBytes - SumBytes(c.sendFrames[..n])), now)
  }

  // An acknowledgement on a download request; one beyond what was sent is ignored.
  function ApplyDownstreamAck(c: Conn, ack: u64, now: int): Conn {
    if ack >= c.nextSend then c else Trim(c, ack, now)
  }

  // Receiving

  datatype Outcome = Applied | AckBeyondSent | InvalidKind | TooFar

  predicate IsData(kind: byte) {
    kind == TEXT || kind == BINARY || kind == CLOSE
  }

  // Takes the frame that is next, then every held frame that has become next.
  function Accept(c: Conn, r: Record): Conn
    decreases |c.recvAhead|
  {
    var c' := c.(recvNext := Add64(c.recvNext, 1), recvQueue := c.recvQueue + [r]);
    if c'.recvNext !in c'.recvAhead then c'
    else
      var next := c'.recvAhead[c'.recvNext];
      assert |c'.recvAhead - {c'.recvNext}| < |c'.recvAhead| by { RemoveShrinks(c'.recvAhead, c'.recvNext); }
      Accept(c'.(recvAhead := c'.recvAhead - {c'.recvNext},
                 recvAheadBytes := c'.recvAheadBytes - |next.payload|), next)
  }

  lemma RemoveShrinks<K, V>(m: map<K, V>, k: K)
    requires k in m
    ensures |m - {k}| == |m| - 1
  {
    assert (m - {k}).Keys == m.Keys - {k};
    assert |m.Keys - {k}| == |m.Keys| - 1;
  }

  function Hold(c: Conn, r: Record): (Conn, Outcome) {
    if r.seqNo in c.recvAhead then (c, Applied)
    else if |c.recvAhead| >= REORDER_LIMIT || c.recvAheadBytes + |r.payload| > MAX_BUFFERED then (c, TooFar)
    else (c.(recvAhead := c.recvAhead[r.seqNo := r], recvAheadBytes := c.recvAheadBytes + |r.payload|), Applied)
  }

  function ApplyRecord(c: Conn, r: Record, now: int): (Conn, Outcome) {
    if r.kind == ACK then
      if r.seqNo >= c.nextSend then (c, AckBeyondSent) else (Trim(c, r.seqNo, now), Applied)
    else if r.seqNo < c.recvNext then (c, Applied)
    else if !IsData(r.kind) then (c, InvalidKind)
    else if r.seqNo > c.recvNext then Hold(c, r)
    else (Accept(c, r), Applied)
  }

  // Batches

  // Unacknowledged frames from a sequence on, up to about limit payload bytes
  // but always at least one.
  function FramesFrom(frames: seq<Record>, first: u64, limit: nat): seq<Record> {
    if frames == [] then []
    else if frames[0].seqNo < first then FramesFrom(frames[1..], first, limit)
    else [frames[0]] + TakeWithin(frames[1..], first, limit, |frames[0].payload|)
  }

  function TakeWithin(frames: seq<Record>, first: u64, limit: nat, size: nat): seq<Record> {
    if frames == [] then []
    else if frames[0].seqNo < first then TakeWithin(frames[1..], first, limit, size)
    else if size + |frames[0].payload| > limit then []
    else [frames[0]] + TakeWithin(frames[1..], first, limit, size + |frames[0].payload|)
  }

  function After(frames: seq<Record>, seqNo: u64): seq<Record> {
    if frames == [] then []
    else (if frames[0].seqNo > seqNo then [frames[0]] else []) + After(frames[1..], seqNo)
  }

  predicate ResendDue(c: Conn, now: int) {
    Outstanding(c) && c.downStallSince.Some? && RESEND_AFTER_MS - (now - c.downStallSince.value) <= 0
  }

  // A pipelined claim first rewinds to the oldest unacknowledged record when the
  // response that carried it counts as lost.
  function Rewind(c: Conn, now: int): Conn {
    if ResendDue(c, now) then c.(downDispatched := Pred64(c.sendFrames[0].seqNo), downStallSince := None) else c
  }

  function NoteAckSent(c: Conn): Conn {
    if Acknowledged(c) > c.downAckSent then c.(downAckSent := Acknowledged(c)) else c
  }

  // Marks frames as carried by a response.
  function Dispatch(c: Conn, frames: seq<Record>, now: int): Conn
    requires frames != []
  {
    c.(downStallSince := if Outstanding(c) then c.downStallSince else Some(now),
       downDispatched := frames[|frames| - 1].seqNo)
  }

  datatype Claim = Nothing | Batch(frames: seq<Record>)

  function ClaimDownload(c0: Conn, pipelined: bool, force: bool, now: int): (Conn, Claim) {
    var c := if pipelined then Rewind(c0, now) else c0;
    var frames := After(c.sendFrames, if pipelined then c.downDispatched else 0);
    if frames == [] && !force then (c, Nothing)
    else
      var c1 := if pipelined && frames != [] then Dispatch(c, frames, now) else c;
      (NoteAckSent(c1), Batch(frames))
  }
}
