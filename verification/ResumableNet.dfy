// Two resumable endpoints and a network that may lose, duplicate, reorder and
// leak frames between generations, but not invent them: a reader of any
// generation, past or present, may at any time receive any frame its peer ever
// tried to write. A data frame that does not fit the receive buffer leaves its
// reader waiting with the bytes it had already cut off, as the program does.
module ResumableNet {
  import opened Prelude
  import opened ResumableFrame
  import E = ResumableEndpoint

  datatype Side = Home | Work

  // A reader between cutting its frame and appending what it cut.
  datatype Held = Held(cutAt: u64, rest: seq<byte>)

  // written and read are the bytes the local application has handed in and has
  // been handed; queued are chunks whose first transmission has not succeeded.
  datatype Peer = Peer(
    ep: E.Endpoint,
    written: seq<byte>,
    read: seq<byte>,
    queued: set<Frame>,
    emitted: set<Frame>,
    waiting: map<nat, Held>)

  datatype Net = Net(home: Peer, work: Peer)

  function Other(s: Side): Side {
    if s == Home then Work else Home
  }

  function At(n: Net, s: Side): Peer {
    if s == Home then n.home else n.work
  }

  function With(n: Net, s: Side, p: Peer): Net {
    if s == Home then n.(home := p) else n.(work := p)
  }

  const IDLE: Peer := Peer(E.FRESH, [], [], {}, {}, map[])

  const INIT: Net := Net(IDLE, IDLE)

  datatype Step =
    | Queue(side: Side, chunk: seq<byte>, now: int)
    | Send(side: Side, frame: Frame, accepted: bool)
    | Attach(side: Side, transport: nat, now: int, failAt: Option<nat>)
    | Deliver(side: Side, reader: nat, frame: Frame, now: int)
    | Wake(side: Side, reader: nat)
    | Read(side: Side, room: nat)
    | Ping(side: Side, nonce: u64)
    | Drop(side: Side, transport: nat, generation: nat)
    | Close(side: Side)

  predicate Enabled(n: Net, t: Step) {
    var p := At(n, t.side);
    match t
    case Queue(_, chunk, _) => 0 < |chunk| <= CHUNK_SIZE && !E.QueueBlocked(p.ep, chunk)
    case Send(_, frame, _) => frame in p.queued && p.ep.ws.Some?
    case Attach(_, _, _, _) => true
    case Deliver(side, reader, frame, _) =>
      && 1 <= reader <= p.ep.generation && reader !in p.waiting
      && frame in At(n, Other(side)).emitted && WellFormed(frame) && E.Valid(p.ep)
    case Wake(_, reader) => reader in p.waiting && !E.DataBlocked(p.ep, p.waiting[reader].rest)
    case Read(_, _) => true
    case Ping(_, _) => p.ep.ws.Some?
    case Drop(_, _, _) => true
    case Close(_) => true
  }

  // A reader that gives up drops its own transport, which is the current one
  // only while its generation is.
  function DropReader(e: E.Endpoint, reader: nat): E.Endpoint {
    if e.ws.Some? then E.Drop(e, e.ws.value, reader) else e
  }

  function React(p: Peer, reader: nat, after: E.Endpoint, r: E.Reaction): Peer {
    match r
    case Reply(frame) => p.(ep := after, emitted := p.emitted + {frame})
    case Silent => p.(ep := after)
    case Reject => p.(ep := DropReader(after, reader))
    case Wait(rest) => p.(ep := after, waiting := p.waiting[reader := Held(p.ep.recvOffset, rest)])
  }

  function Elements(frames: seq<Frame>): set<Frame> {
    set f | f in frames
  }

  function AttachPeer(p: Peer, transport: nat, now: int, failAt: Option<nat>): Peer {
    if p.ep.closed then p
    else
      var frames := E.AttachFrames(p.ep);
      var attached := E.Attach(p.ep, transport, now);
      if failAt.Some? && failAt.value < |frames| then
        p.(ep := E.Drop(attached, transport, attached.generation),
           emitted := p.emitted + Elements(frames[..failAt.value + 1]))
      else p.(ep := attached, emitted := p.emitted + Elements(frames))
  }

  function QueuePeer(p: Peer, chunk: seq<byte>, now: int): Peer {
    if p.ep.closed then p
    else p.(ep := E.QueueSend(p.ep, chunk, now),
            written := p.written + chunk,
            queued := p.queued + {Frame(DATA, p.ep.sendEnd, chunk)})
  }

  function SendPeer(p: Peer, frame: Frame, accepted: bool): Peer {
    p.(emitted := p.emitted + {frame}, queued := if accepted then p.queued - {frame} else p.queued)
  }

  function WakePeer(p: Peer, reader: nat): Peer
    requires reader in p.waiting
  {
    var (after, reaction) := E.Accept(p.ep, p.waiting[reader].rest);
    React(p.(waiting := p.waiting - {reader}), reader, after, reaction)
  }

  function ReadPeer(p: Peer, room: nat): Peer {
    var n := E.TakeCount(p.ep, room);
    p.(ep := p.ep.(recvBuffer := p.ep.recvBuffer[n..]), read := p.read + p.ep.recvBuffer[..n])
  }

  function StepPeer(p: Peer, t: Step, n: Net): Peer
    requires p == At(n, t.side) && Enabled(n, t)
  {
    match t
    case Queue(_, chunk, now) => QueuePeer(p, chunk, now)
    case Send(_, frame, accepted) => SendPeer(p, frame, accepted)
    case Attach(_, transport, now, failAt) => AttachPeer(p, transport, now, failAt)
    case Deliver(_, reader, frame, now) =>
      var (after, reaction) := E.HandleFrame(p.ep, frame, now);
      React(p, reader, after, reaction)
    case Wake(_, reader) => WakePeer(p, reader)
    case Read(_, room) => ReadPeer(p, room)
    case Ping(_, nonce) => p.(emitted := p.emitted + {Frame(PING, nonce, [])})
    case Drop(_, transport, generation) => p.(ep := E.Drop(p.ep, transport, generation))
    case Close(_) => p.(ep := E.Close(p.ep))
  }

  function Do(n: Net, t: Step): Net
    requires Enabled(n, t)
  {
    With(n, t.side, StepPeer(At(n, t.side), t, n))
  }

  // A waiting reader is fresh while the receive offset is where it cut. One that
  // wakes because its side was closed appends nothing.
  predicate FreshWake(n: Net, t: Step) {
    t.Wake? && t.reader in At(n, t.side).waiting && !At(n, t.side).ep.closed ==>
      At(n, t.side).waiting[t.reader].cutAt == At(n, t.side).ep.recvOffset
  }

  // What a waking reader of an open side holds comes next in the peer's stream.
  predicate RightWake(n: Net, t: Step) {
    t.Wake? && t.reader in At(n, t.side).waiting && !At(n, t.side).ep.closed ==>
      ComesNext(At(n, Other(t.side)).written, At(n, t.side).ep.recvOffset, At(n, t.side).waiting[t.reader].rest)
  }

  predicate ComesNext(w: seq<byte>, r: u64, bytes: seq<byte>) {
    r + |bytes| < U64 && OccursAt(w, r, bytes)
  }

  // A data frame handed to a side none of whose readers is waiting.
  predicate Exclusive(n: Net, t: Step) {
    t.Deliver? && t.frame.kind == DATA ==> At(n, t.side).waiting == map[]
  }

  ghost predicate Run(n: Net, steps: seq<Step>)
    decreases |steps|
  {
    steps == [] || (Enabled(n, steps[0]) && Run(Do(n, steps[0]), steps[1..]))
  }

  ghost function Final(n: Net, steps: seq<Step>): Net
    requires Run(n, steps)
    decreases |steps|
  {
    if steps == [] then n else Final(Do(n, steps[0]), steps[1..])
  }

  ghost predicate AllFresh(n: Net, steps: seq<Step>)
    requires Run(n, steps)
    decreases |steps|
  {
    steps == [] || (FreshWake(n, steps[0]) && AllFresh(Do(n, steps[0]), steps[1..]))
  }

  ghost predicate AllRight(n: Net, steps: seq<Step>)
    requires Run(n, steps)
    decreases |steps|
  {
    steps == [] || (RightWake(n, steps[0]) && AllRight(Do(n, steps[0]), steps[1..]))
  }

  ghost predicate AllExclusive(n: Net, steps: seq<Step>)
    requires Run(n, steps)
    decreases |steps|
  {
    steps == [] || (Exclusive(n, steps[0]) && AllExclusive(Do(n, steps[0]), steps[1..]))
  }

  // The stream law for the direction from p to q: the bytes q's application has
  // read, followed by those it may still read, are the first recvOffset bytes
  // written at p, and p still holds every byte q lacks.
  predicate StreamLaw(p: Peer, q: Peer) {
    && p.ep.sendBase <= q.ep.recvOffset <= |p.written|
    && q.read + q.ep.recvBuffer == p.written[..q.ep.recvOffset]
    && p.ep.sendBuffer == p.written[p.ep.sendBase..]
    && p.ep.sendEnd == |p.written| % U64
  }

  predicate StreamLaws(n: Net) {
    StreamLaw(n.home, n.work) && StreamLaw(n.work, n.home)
  }

  // The stream law in every state of a run.
  ghost predicate AlwaysStream(n: Net, steps: seq<Step>)
    requires Run(n, steps)
    decreases |steps|
  {
    StreamLaws(n) && (steps == [] || AlwaysStream(Do(n, steps[0]), steps[1..]))
  }

  predicate OccursAt(w: seq<byte>, k: nat, bytes: seq<byte>) {
    k + |bytes| <= |w| && w[k..k + |bytes|] == bytes
  }

  // A data frame carries bytes of the stream, at its offset or, once the 64-bit
  // offset has wrapped, one revolution later.
  predicate Genuine(w: seq<byte>, f: Frame) {
    f.kind == DATA ==> OccursAt(w, f.offset, f.payload) || OccursAt(w, f.offset + U64, f.payload)
  }

  predicate HeldGenuine(w: seq<byte>, r: u64, h: Held) {
    && h.cutAt <= r && 0 < |h.rest| <= CHUNK_SIZE
    && h.cutAt + |h.rest| < U64 && OccursAt(w, h.cutAt, h.rest)
  }

  ghost predicate WireLaw(p: Peer, q: Peer) {
    && (forall f <- p.emitted :: WellFormed(f) && Genuine(p.written, f))
    && (forall f <- p.queued :: f.kind == DATA && WellFormed(f) && Genuine(p.written, f))
    && (forall f <- q.emitted :: f.kind == ACK ==> f.offset <= q.ep.recvOffset)
    && (forall g <- q.waiting :: HeldGenuine(p.written, q.ep.recvOffset, q.waiting[g]))
  }

  ghost predicate Direction(p: Peer, q: Peer) {
    E.Valid(p.ep) && StreamLaw(p, q) && WireLaw(p, q)
  }

  ghost predicate Inv(n: Net) {
    Direction(n.home, n.work) && Direction(n.work, n.home)
  }
}
