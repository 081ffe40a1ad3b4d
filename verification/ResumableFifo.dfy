// An undisturbed generation. From any safe state of ResumableNet with no reader
// left waiting, both sides attach, at different moments if they like, over fresh
// channels that deliver in order, and each side has one sequential writer. Every
// step is a step of ResumableNet, so the stream law holds throughout. Heartbeats share
// the channels.
module ResumableFifo {
  import opened Prelude
  import opened ResumableFrame
  import opened ResumableNet
  import E = ResumableEndpoint

  // What a side has written to its current transport and the peer has not read
  // from it, and the chunk its writer still has to transmit.
  datatype Channel = Channel(up: bool, pending: Option<Frame>, out: seq<Frame>)

  datatype Fifo = Fifo(net: Net, home: Channel, work: Channel)

  datatype Move =
    | Write(side: Side, chunk: seq<byte>, now: int)
    | Transmit(side: Side)
    | Join(side: Side, transport: nat, now: int)
    | Receive(side: Side, now: int)
    | Take(side: Side, room: nat)
    | Beat(side: Side, nonce: u64)

  function Chan(s: Fifo, side: Side): Channel {
    if side == Home then s.home else s.work
  }

  function SetChan(s: Fifo, side: Side, c: Channel): Fifo {
    if side == Home then s.(home := c) else s.(work := c)
  }

  function Incoming(s: Fifo, side: Side): seq<Frame> {
    Chan(s, Other(side)).out
  }

  // The step of the adversarial model that a move performs.
  function AsStep(s: Fifo, m: Move): Step
    requires m.Transmit? ==> Chan(s, m.side).pending.Some?
    requires m.Receive? ==> Incoming(s, m.side) != []
  {
    match m
    case Write(side, chunk, now) => Queue(side, chunk, now)
    case Transmit(side) => Send(side, Chan(s, side).pending.value, true)
    case Join(side, transport, now) => Attach(side, transport, now, None)
    case Receive(side, now) => Deliver(side, At(s.net, side).ep.generation, Incoming(s, side)[0], now)
    case Take(side, room) => Read(side, room)
    case Beat(side, nonce) => Ping(side, nonce)
  }

  function Reacts(s: Fifo, m: Move): E.Reaction
    requires m.Receive? && Incoming(s, m.side) != []
    requires E.Valid(At(s.net, m.side).ep) && WellFormed(Incoming(s, m.side)[0])
  {
    E.HandleFrame(At(s.net, m.side).ep, Incoming(s, m.side)[0], m.now).1
  }

  predicate Possible(s: Fifo, m: Move) {
    var p, c := At(s.net, m.side), Chan(s, m.side);
    && (m.Write? ==> c.pending.None? && |p.written| + |m.chunk| < U64)
    && (m.Transmit? ==> c.up && c.pending.Some?)
    && (m.Join? ==> !c.up)
    && (m.Receive? ==> c.up && Incoming(s, m.side) != [])
    && (m.Beat? ==> c.up)
    && (m.Take? ==> m.room > 0 && p.ep.recvBuffer != [])
    && Enabled(s.net, AsStep(s, m))
    && (m.Receive? ==> !Reacts(s, m).Wait?)
  }

  function Moved(s: Fifo, m: Move): Fifo
    requires Possible(s, m)
  {
    var p, c := At(s.net, m.side), Chan(s, m.side);
    var s' := s.(net := Do(s.net, AsStep(s, m)));
    match m
    case Write(side, chunk, _) => SetChan(s', side, c.(pending := Some(Frame(DATA, p.ep.sendEnd, chunk))))
    case Transmit(side) => SetChan(s', side, c.(pending := None, out := c.out + [c.pending.value]))
    case Join(side, _, _) => SetChan(s', side, c.(up := true, out := E.AttachFrames(p.ep)))
    case Receive(side, _) =>
      var o := Chan(s, Other(side));
      var reply := if Reacts(s, m).Reply? then [Reacts(s, m).frame] else [];
      SetChan(SetChan(s', Other(side), o.(out := o.out[1..])), side, c.(out := c.out + reply))
    case Take(_, _) => s'
    case Beat(side, nonce) => SetChan(s', side, c.(out := c.out + [Frame(PING, nonce, [])]))
  }

  // Where a receiver at r gets to by reading the frames in order; None at a gap.
  function Scan(r: nat, frames: seq<Frame>): Option<nat>
    decreases |frames|
  {
    if frames == [] then Some(r)
    else if frames[0].kind != DATA then Scan(r, frames[1..])
    else if frames[0].offset > r then None
    else Scan(Max(r, frames[0].offset + |frames[0].payload|), frames[1..])
  }

  // Where a sender at b gets to by reading the acknowledgements; None if one
  // goes backwards.
  function ScanAcks(b: nat, frames: seq<Frame>): Option<nat>
    decreases |frames|
  {
    if frames == [] then Some(b)
    else if frames[0].kind != ACK then ScanAcks(b, frames[1..])
    else if frames[0].offset < b then None
    else ScanAcks(frames[0].offset, frames[1..])
  }

  // Heartbeats and their answers travel among the data and its acknowledgements.
  predicate IsHeartbeat(f: Frame) {
    f.kind == PING || f.kind == PONG
  }

  predicate PlainFrames(p: Peer, out: seq<Frame>) {
    forall f <- out :: f in p.emitted && (f.kind == DATA || f.kind == ACK || IsHeartbeat(f))
  }

  // The unsent chunk, if any, ends the stream.
  predicate PendingLast(p: Peer, c: Channel) {
    c.pending.Some? ==>
      && c.pending.value in p.queued
      && c.pending.value.offset + |c.pending.value.payload| == |p.written|
  }

  // Everything p has written is received, on its way, or about to be sent.
  predicate InFlight(p: Peer, c: Channel, q: Peer) {
    match Scan(q.ep.recvOffset, c.out)
    case None => false
    case Some(reach) =>
      reach <= |p.written| &&
      match c.pending
      case None => reach == |p.written|
      case Some(f) => f.offset <= reach
  }

  ghost predicate Lane(p: Peer, cp: Channel, q: Peer, cq: Channel) {
    && |p.written| < U64 && !p.ep.closed && p.waiting == map[]
    && PlainFrames(p, cp.out) && PendingLast(p, cp)
    && (cp.up ==> p.ep.generation >= 1 && p.ep.ws.Some?)
    && (!cp.up ==> cp.out == [])
    && (cp.up ==> InFlight(p, cp, q))
    && (cq.up ==> ScanAcks(p.ep.sendBase, cq.out) == Some(q.ep.recvOffset))
  }

  ghost predicate FifoInv(s: Fifo) {
    && Inv(s.net)
    && Lane(s.net.home, s.home, s.net.work, s.work)
    && Lane(s.net.work, s.work, s.net.home, s.home)
  }

  // Both replay buffers are empty and both sides have everything.
  predicate Agreement(n: Net) {
    && n.home.ep.sendBuffer == [] && n.work.ep.sendBuffer == []
    && n.work.ep.recvOffset == n.home.ep.sendEnd == |n.home.written|
    && n.home.ep.recvOffset == n.work.ep.sendEnd == |n.work.written|
  }

  predicate Drained(s: Fifo) {
    && s.home.up && s.work.up && s.home.out == [] && s.work.out == []
    && s.home.pending.None? && s.work.pending.None?
  }

  // A safe state of the adversarial model from which a fresh generation starts.
  ghost predicate Restart(s: Fifo) {
    && Inv(s.net)
    && (forall side :: var p, c := At(s.net, side), Chan(s, side);
        |p.written| < U64 && !p.ep.closed && p.waiting == map[] && !c.up && c.out == [] && PendingLast(p, c))
  }

  // Runs

  ghost predicate Moves(s: Fifo, moves: seq<Move>)
    decreases |moves|
  {
    moves == [] || (Possible(s, moves[0]) && Moves(Moved(s, moves[0]), moves[1..]))
  }

  ghost function After(s: Fifo, moves: seq<Move>): Fifo
    requires Moves(s, moves)
    decreases |moves|
  {
    if moves == [] then s else After(Moved(s, moves[0]), moves[1..])
  }
}
