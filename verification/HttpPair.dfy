// Two ends of an HTTP-stream transport joined by requests that may be lost,
// repeated, cut short and completed in any order: an end may at any time apply
// any record its peer ever put into a request or response.
module HttpPair {
  import opened Prelude
  import opened HttpRecord
  import S = HttpStream

  datatype Side = Client | Relay

  datatype Message = Message(kind: byte, payload: seq<byte>)

  // accepted are the messages Write (or a close) has taken, handed those Read
  // has given out.
  datatype End = End(conn: S.Conn, accepted: seq<Message>, handed: seq<Message>, emitted: set<Record>)

  datatype Pair = Pair(client: End, relay: End)

  const INIT: Pair := Pair(End(S.FRESH, [], [], {}), End(S.FRESH, [], [], {}))

  function Other(s: Side): Side {
    if s == Client then Relay else Client
  }

  function At(p: Pair, s: Side): End {
    if s == Client then p.client else p.relay
  }

  function With(p: Pair, s: Side, e: End): Pair {
    if s == Client then p.(client := e) else p.(relay := e)
  }

  datatype Step =
    | Write(side: Side, kind: byte, payload: seq<byte>)
    | Close(side: Side, payload: seq<byte>)
    | Terminate(side: Side)
    | Upload(side: Side, first: u64, limit: nat)
    | Download(side: Side, pipelined: bool, force: bool, now: int)
    | Snapshot(side: Side, after: u64)
    | Poll(side: Side)
    | Apply(side: Side, record: Record, now: int, closeOnError: bool)
    | PollAck(side: Side, ack: u64, now: int)
    | Read(side: Side)

  // The client uploads and polls, the relay answers polls. Sequence numbers are not
  // followed beyond 64 bits.
  predicate Enabled(p: Pair, t: Step) {
    var e := At(p, t.side);
    match t
    case Write(_, kind, payload) =>
      && (kind == TEXT || kind == BINARY) && |payload| <= READ_LIMIT
      && !S.QueueBlocked(e.conn, payload) && e.conn.nextSend < U64 - 1
    case Close(_, payload) => |payload| <= REASON_LIMIT + 2 && e.conn.nextSend < U64 - 1
    case Upload(side, _, _) => side == Client
    case Download(side, _, _, _) => side == Relay
    case Snapshot(side, _) => side == Relay
    case Poll(side) => side == Client
    case Apply(side, record, _, _) => record in At(p, Other(side)).emitted
    case PollAck(side, ack, _) => side == Relay && Record(ACK, ack, []) in At(p, Other(side)).emitted
    case Read(_) => e.conn.recvQueue != []
    case Terminate(_) => true
  }

  function Elements(rs: seq<Record>): set<Record> {
    set r | r in rs
  }

  // A request or response body: an acknowledgement, then frames.
  function Emit(e: End, frames: seq<Record>): End {
    e.(emitted := e.emitted + {Record(ACK, S.Acknowledged(e.conn), [])} + Elements(frames))
  }

  function WriteEnd(e: End, kind: byte, payload: seq<byte>): End {
    var (c, ok) := S.QueueFrame(e.conn, kind, payload);
    if ok then e.(conn := c, accepted := e.accepted + [Message(kind, payload)]) else e
  }

  function CloseEnd(e: End, payload: seq<byte>): End {
    if e.conn.closed then e
    else e.(conn := S.QueueClose(e.conn, payload), accepted := e.accepted + [Message(CLOSE, payload)])
  }

  function DownloadEnd(e: End, pipelined: bool, force: bool, now: int): End {
    var (c, claim) := S.ClaimDownload(e.conn, pipelined, force, now);
    match claim
    case Nothing => e.(conn := c)
    case Batch(frames) => Emit(e.(conn := c), frames)
  }

  function ApplyEnd(e: End, r: Record, now: int, closeOnError: bool): End {
    var (c, outcome) := S.ApplyRecord(e.conn, r, now);
    e.(conn := if outcome != S.Applied && closeOnError then c.(closed := true) else c)
  }

  function ReadEnd(e: End): End
    requires e.conn.recvQueue != []
  {
    var r := e.conn.recvQueue[0];
    e.(conn := e.conn.(recvQueue := e.conn.recvQueue[1..]), handed := e.handed + [Message(r.kind, r.payload)])
  }

  function StepEnd(e: End, t: Step): End
    requires t.Read? ==> e.conn.recvQueue != []
  {
    match t
    case Write(_, kind, payload) => WriteEnd(e, kind, payload)
    case Close(_, payload) => CloseEnd(e, payload)
    case Terminate(_) => e.(conn := e.conn.(closed := true))
    case Upload(_, first, limit) => Emit(e, S.FramesFrom(e.conn.sendFrames, first, limit))
    case Download(_, pipelined, force, now) => DownloadEnd(e, pipelined, force, now)
    case Snapshot(_, after) => Emit(e, S.After(e.conn.sendFrames, after))
    case Poll(_) => Emit(e, [])
    case Apply(_, record, now, closeOnError) => ApplyEnd(e, record, now, closeOnError)
    case PollAck(_, ack, now) => e.(conn := S.ApplyDownstreamAck(e.conn, ack, now))
    case Read(_) => ReadEnd(e)
  }

  function Do(p: Pair, t: Step): Pair
    requires Enabled(p, t)
  {
    With(p, t.side, StepEnd(At(p, t.side), t))
  }

  ghost predicate Run(p: Pair, steps: seq<Step>)
    decreases |steps|
  {
    steps == [] || (Enabled(p, steps[0]) && Run(Do(p, steps[0]), steps[1..]))
  }

  ghost function Final(p: Pair, steps: seq<Step>): Pair
    requires Run(p, steps)
    decreases |steps|
  {
    if steps == [] then p else Final(Do(p, steps[0]), steps[1..])
  }

  // The laws of one direction, from end p to end q

  function Messages(rs: seq<Record>): (ms: seq<Message>)
    ensures |ms| == |rs|
  {
    seq(|rs|, i requires 0 <= i < |rs| => Message(rs[i].kind, rs[i].payload))
  }

  function Numbered(accepted: seq<Message>, n: u64): Record
    requires 1 <= n <= |accepted|
  {
    Record(accepted[n - 1].kind, n, accepted[n - 1].payload)
  }

  predicate TailOf(accepted: seq<Message>, frames: seq<Record>) {
    && |frames| <= |accepted| < U64 - 1
    && forall i :: 0 <= i < |frames| ==> frames[i] == Numbered(accepted, |accepted| - |frames| + i + 1)
  }

  // What p holds for retransmission is the tail of what it accepted.
  ghost predicate SendLaw(p: End) {
    && p.conn.nextSend == |p.accepted| + 1
    && TailOf(p.accepted, p.conn.sendFrames)
    && (forall m <- p.accepted :: S.IsData(m.kind))
    && p.conn.sendBytes == S.SumBytes(p.conn.sendFrames)
  }

  // The stream law: what q has handed out and has ready is a prefix of what p
  // accepted, and p still holds everything beyond it.
  predicate StreamLaw(p: End, q: End) {
    var n := |p.accepted|;
    && 1 <= q.conn.recvNext <= n + 1
    && q.handed + Messages(q.conn.recvQueue) == p.accepted[..q.conn.recvNext - 1]
    && n - |p.conn.sendFrames| <= q.conn.recvNext - 1
  }

  ghost function HeldBytes(m: map<u64, Record>): nat
    decreases |m|
  {
    if m == map[] then 0
    else
      var k :| k in m;
      S.RemoveShrinks(m, k);
      |m[k].payload| + HeldBytes(m - {k})
  }

  ghost predicate AheadLaw(p: End, q: End) {
    && (forall k <- q.conn.recvAhead :: q.conn.recvNext < k <= |p.accepted| && q.conn.recvAhead[k] == Numbered(p.accepted, k))
    && q.conn.recvAheadBytes == HeldBytes(q.conn.recvAhead)
  }

  predicate Genuine(p: End, r: Record) {
    r.kind != ACK ==> 1 <= r.seqNo <= |p.accepted| && r == Numbered(p.accepted, r.seqNo)
  }

  ghost predicate WireLaw(p: End, q: End) {
    && (forall r <- p.emitted :: Genuine(p, r))
    && (forall r <- q.emitted :: r.kind == ACK ==> r.seqNo < q.conn.recvNext)
  }

  // Only a close record is queued beyond the buffer limit.
  predicate BufferLaw(p: End) {
    !p.conn.closing ==> p.conn.sendBytes <= S.MAX_BUFFERED
  }

  ghost predicate Direction(p: End, q: End) {
    SendLaw(p) && StreamLaw(p, q) && AheadLaw(p, q) && WireLaw(p, q) && BufferLaw(p)
  }

  ghost predicate Inv(p: Pair) {
    Direction(p.client, p.relay) && Direction(p.relay, p.client)
  }
}
