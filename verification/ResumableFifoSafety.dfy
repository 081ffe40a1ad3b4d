// In an undisturbed generation neither side ever rejects the other, and drained
// channels mean agreement.
module ResumableFifoSafety {
  import opened Prelude
  import opened ResumableFrame
  import opened ResumableNet
  import opened ResumableFifo
  import Safety = ResumableSafety
  import E = ResumableEndpoint

  lemma RestartInv(s: Fifo)
    requires Restart(s)
    ensures FifoInv(s)
  {
    assert s.net.home == At(s.net, Home) && s.home == Chan(s, Home);
    assert s.net.work == At(s.net, Work) && s.work == Chan(s, Work);
  }

  // Appending to a channel

  lemma {:induction false} ScanAppend(r: nat, frames: seq<Frame>, f: Frame)
    requires Scan(r, frames).Some?
    ensures Scan(r, frames + [f]) == Scan(Scan(r, frames).value, [f])
    decreases |frames|
  {
    if frames == [] {
      assert frames + [f] == [f];
    } else {
      assert (frames + [f])[1..] == frames[1..] + [f];
      ScanAppend(if frames[0].kind != DATA then r else Max(r, frames[0].offset + |frames[0].payload|), frames[1..], f);
    }
  }

  lemma {:induction false} ScanAcksAppend(b: nat, frames: seq<Frame>, f: Frame)
    requires ScanAcks(b, frames).Some?
    ensures ScanAcks(b, frames + [f]) == ScanAcks(ScanAcks(b, frames).value, [f])
    decreases |frames|
  {
    if frames == [] {
      assert frames + [f] == [f];
    } else {
      assert (frames + [f])[1..] == frames[1..] + [f];
      ScanAcksAppend(if frames[0].kind != ACK then b else frames[0].offset, frames[1..], f);
    }
  }

  lemma {:induction false} ScanGrows(r: nat, frames: seq<Frame>)
    ensures Scan(r, frames).Some? ==> Scan(r, frames).value >= r
    decreases |frames|
  {
    if frames != [] && !(frames[0].kind == DATA && frames[0].offset > r) {
      ScanGrows(if frames[0].kind != DATA then r else Max(r, frames[0].offset + |frames[0].payload|), frames[1..]);
    }
  }

  lemma {:induction false} ScanReplay(r: nat, base: u64, bytes: seq<byte>)
    requires base <= r <= base + |bytes| < U64
    ensures Scan(r, E.Replay(base, bytes)) == Some(base + |bytes|)
    decreases |bytes|
  {
    if bytes != [] {
      var size := Min(|bytes|, CHUNK_SIZE);
      var rest := E.Replay(base + size, bytes[size..]);
      assert E.Replay(base, bytes) == [Frame(DATA, base, bytes[..size])] + rest;
      assert E.Replay(base, bytes)[1..] == rest;
      ScanReplay(Max(r, base + size), base + size, bytes[size..]);
    }
  }

  lemma {:induction false} ReplayHasNoAcks(b: nat, base: u64, bytes: seq<byte>)
    ensures ScanAcks(b, E.Replay(base, bytes)) == Some(b)
    ensures forall f <- E.Replay(base, bytes) :: f.kind == DATA
    decreases |bytes|
  {
    if bytes != [] {
      var size := Min(|bytes|, CHUNK_SIZE);
      var rest := E.Replay(Add64(base, size), bytes[size..]);
      assert E.Replay(base, bytes)[1..] == rest;
      ReplayHasNoAcks(b, Add64(base, size), bytes[size..]);
    }
  }

  // A data frame read in order is never a gap.
  lemma DataIsNoGap(p: Peer, cp: Channel, q: Peer, cq: Channel, now: int)
    requires Direction(q, p) && Lane(q, cq, p, cp) && !p.ep.closed && E.Valid(p.ep)
    requires cq.up && cq.out != [] && cq.out[0].kind == DATA
    ensures !E.HandleFrame(p.ep, cq.out[0], now).1.Reject?
  {
    var f := cq.out[0];
    assert f in q.emitted;
    assert OccursAt(q.written, f.offset, f.payload);
  }

  // An acknowledgement read in order is never out of range.
  lemma AckIsInRange(p: Peer, cp: Channel, q: Peer, cq: Channel, now: int)
    requires Direction(p, q) && Lane(p, cp, q, cq) && PlainFrames(q, cq.out)
    requires cq.up && cq.out != [] && WellFormed(cq.out[0]) && cq.out[0].kind == ACK
    ensures !E.HandleFrame(p.ep, cq.out[0], now).1.Reject?
  {
    Safety.WindowBound(p, q);
    assert cq.out[0] in q.emitted;
  }

  lemma NeverRejects(s: Fifo, m: Move)
    requires FifoInv(s) && m.Receive? && Possible(s, m)
    ensures !Reacts(s, m).Reject?
  {
    var p, q, cp, cq := At(s.net, m.side), At(s.net, Other(m.side)), Chan(s, m.side), Chan(s, Other(m.side));
    assert cq.out[0] in q.emitted;
    if cq.out[0].kind == DATA {
      DataIsNoGap(p, cp, q, cq, m.now);
    } else if cq.out[0].kind == ACK {
      AckIsInRange(p, cp, q, cq, m.now);
    }
  }

  // Every move keeps both lanes. p is the moving side.

  lemma WriteKeeps(p: Peer, cp: Channel, q: Peer, cq: Channel, chunk: seq<byte>, now: int)
    requires Direction(p, q) && Lane(p, cp, q, cq) && Lane(q, cq, p, cp)
    requires cp.pending.None? && 0 < |chunk| && |p.written| + |chunk| < U64
    ensures var p', cp' := QueuePeer(p, chunk, now), cp.(pending := Some(Frame(DATA, p.ep.sendEnd, chunk)));
      Lane(p', cp', q, cq) && Lane(q, cq, p', cp')
  {
    Safety.WindowBound(p, q);
  }

  lemma TransmitKeeps(p: Peer, cp: Channel, q: Peer, cq: Channel)
    requires Direction(p, q) && Lane(p, cp, q, cq) && Lane(q, cq, p, cp)
    requires cp.up && cp.pending.Some?
    ensures var f := cp.pending.value;
      var p', cp' := SendPeer(p, f, true), cp.(pending := None, out := cp.out + [f]);
      Lane(p', cp', q, cq) && Lane(q, cq, p', cp')
  {
    var f := cp.pending.value;
    ScanAppend(q.ep.recvOffset, cp.out, f);
    if cq.up {
      assert cp.up;
    }
    assert ScanAcks(q.ep.sendBase, cp.out) == Some(p.ep.recvOffset);
    ScanAcksAppend(q.ep.sendBase, cp.out, f);
  }

  lemma JoinKeeps(p: Peer, cp: Channel, q: Peer, cq: Channel, transport: nat, now: int)
    requires Direction(p, q) && Direction(q, p) && Lane(p, cp, q, cq) && Lane(q, cq, p, cp)
    requires !cp.up
    ensures var p', cp' := AttachPeer(p, transport, now, None), cp.(up := true, out := E.AttachFrames(p.ep));
      Lane(p', cp', q, cq) && Lane(q, cq, p', cp')
  {
    var ack, replay := Frame(ACK, p.ep.recvOffset, []), E.Replay(p.ep.sendBase, p.ep.sendBuffer);
    assert E.AttachFrames(p.ep)[1..] == replay;
    ScanReplay(q.ep.recvOffset, p.ep.sendBase, p.ep.sendBuffer);
    ReplayHasNoAcks(p.ep.recvOffset, p.ep.sendBase, p.ep.sendBuffer);
  }

  lemma ReceiveAckKeeps(p: Peer, cp: Channel, q: Peer, cq: Channel, now: int)
    requires Direction(p, q) && Direction(q, p) && Lane(p, cp, q, cq) && Lane(q, cq, p, cp)
    requires cp.up && cq.out != [] && cq.out[0].kind == ACK
    ensures var p' := p.(ep := E.ApplyAck(p.ep, cq.out[0].offset, now).0);
      E.ApplyAck(p.ep, cq.out[0].offset, now).1 &&
      Lane(p', cp, q, cq.(out := cq.out[1..])) && Lane(q, cq.(out := cq.out[1..]), p', cp)
  {
    Safety.WindowBound(p, q);
    assert cq.out[0] in q.emitted && cq.up;
  }

  // p's receive offset after reading a data frame in order.
  function Received(p: Peer, f: Frame): nat {
    Max(p.ep.recvOffset, f.offset + |f.payload|)
  }

  lemma FreshCut(e: E.Endpoint, f: Frame)
    requires WellFormed(f) && f.kind == DATA && f.offset <= e.recvOffset < f.offset + |f.payload| < U64
    ensures var rest := f.payload[e.recvOffset - f.offset..];
      E.CheckData(e, f.offset, f.payload) == E.Fresh(rest) &&
      E.Append(e, rest).recvOffset == f.offset + |f.payload|
  {
    assert Add64(f.offset, |f.payload|) == f.offset + |f.payload|;
  }

  lemma StaleData(e: E.Endpoint, f: Frame)
    requires WellFormed(f) && f.kind == DATA && f.offset + |f.payload| <= e.recvOffset
    ensures E.CheckData(e, f.offset, f.payload) == E.Duplicate
  {
    assert Add64(f.offset, |f.payload|) == f.offset + |f.payload|;
  }

  lemma ReceiveDataMoves(p: Peer, f: Frame, now: int)
    requires E.Valid(p.ep) && WellFormed(f) && f.kind == DATA
    requires f.offset + |f.payload| < U64 && f.offset <= p.ep.recvOffset && !p.ep.closed
    requires !E.HandleFrame(p.ep, f, now).1.Wait?
    ensures var (e, r) := E.HandleFrame(p.ep, f, now);
      e.recvOffset == Received(p, f) && r == E.Reply(Frame(ACK, e.recvOffset, [])) &&
      e == p.ep.(recvOffset := e.recvOffset, recvBuffer := e.recvBuffer)
  {
    if f.offset + |f.payload| > p.ep.recvOffset {
      FreshCut(p.ep, f);
    } else {
      StaleData(p.ep, f);
    }
  }

  lemma ReceiveDataKeeps(p: Peer, cp: Channel, q: Peer, cq: Channel, reader: nat, now: int)
    requires Direction(p, q) && Direction(q, p) && Lane(p, cp, q, cq) && Lane(q, cq, p, cp)
    requires cp.up && cq.out != [] && cq.out[0].kind == DATA
    requires !E.HandleFrame(p.ep, cq.out[0], now).1.Wait?
    ensures var (e, r) := E.HandleFrame(p.ep, cq.out[0], now);
      var p', cq' := React(p, reader, e, r), cq.(out := cq.out[1..]);
      r.Reply? && Lane(p', cp.(out := cp.out + [r.frame]), q, cq') && Lane(q, cq', p', cp.(out := cp.out + [r.frame]))
  {
    var f := cq.out[0];
    assert f in q.emitted && cq.up;
    assert OccursAt(q.written, f.offset, f.payload);
    ReceiveDataMoves(p, f, now);
    ScanGrows(Received(p, f), cq.out[1..]);
    var ack := Frame(ACK, Received(p, f), []);
    ScanAppend(q.ep.recvOffset, cp.out, ack);
    ScanAcksAppend(q.ep.sendBase, cp.out, ack);
  }

  // A heartbeat or an answer changes nothing but the channel.

  lemma HeartbeatSent(p: Peer, cp: Channel, q: Peer, cq: Channel, f: Frame)
    requires Lane(p, cp, q, cq) && Lane(q, cq, p, cp) && cp.up && IsHeartbeat(f)
    ensures var p', cp' := p.(emitted := p.emitted + {f}), cp.(out := cp.out + [f]);
      Lane(p', cp', q, cq) && Lane(q, cq, p', cp')
  {
    ScanAppend(q.ep.recvOffset, cp.out, f);
    ScanAcksAppend(q.ep.sendBase, cp.out, f);
  }

  lemma HeartbeatRead(p: Peer, cp: Channel, q: Peer, cq: Channel)
    requires Lane(p, cp, q, cq) && Lane(q, cq, p, cp) && cq.out != [] && IsHeartbeat(cq.out[0])
    ensures Lane(p, cp, q, cq.(out := cq.out[1..])) && Lane(q, cq.(out := cq.out[1..]), p, cp)
  {
  }

  lemma ReceiveHeartbeatKeeps(p: Peer, cp: Channel, q: Peer, cq: Channel, reader: nat, now: int)
    requires Lane(p, cp, q, cq) && Lane(q, cq, p, cp) && E.Valid(p.ep)
    requires cp.up && cq.out != [] && IsHeartbeat(cq.out[0]) && WellFormed(cq.out[0])
    ensures var (e, r) := E.HandleFrame(p.ep, cq.out[0], now);
      var p', cq', cp' := React(p, reader, e, r), cq.(out := cq.out[1..]), cp.(out := cp.out + if r.Reply? then [r.frame] else []);
      (r.Reply? || r.Silent?) && Lane(p', cp', q, cq') && Lane(q, cq', p', cp')
  {
    var cq' := cq.(out := cq.out[1..]);
    HeartbeatRead(p, cp, q, cq);
    if cq.out[0].kind == PING {
      HeartbeatSent(p, cp, q, cq', Frame(PONG, cq.out[0].offset, []));
    } else {
      assert cp.out + [] == cp.out;
    }
  }

  ghost predicate Lanes(s: Fifo, side: Side) {
    var p, q, cp, cq := At(s.net, side), At(s.net, Other(side)), Chan(s, side), Chan(s, Other(side));
    Lane(p, cp, q, cq) && Lane(q, cq, p, cp)
  }

  lemma ReceiveMoveKeeps(s: Fifo, m: Move)
    requires FifoInv(s) && Possible(s, m) && m.Receive?
    ensures Lanes(Moved(s, m), m.side)
  {
    var p, q, cp, cq := At(s.net, m.side), At(s.net, Other(m.side)), Chan(s, m.side), Chan(s, Other(m.side));
    assert cq.out[0] in q.emitted;
    if cq.out[0].kind == ACK {
      ReceiveAckKeeps(p, cp, q, cq, m.now);
      assert cp.out + [] == cp.out;
    } else if IsHeartbeat(cq.out[0]) {
      ReceiveHeartbeatKeeps(p, cp, q, cq, p.ep.generation, m.now);
    } else {
      ReceiveDataKeeps(p, cp, q, cq, p.ep.generation, m.now);
    }
  }

  lemma TakeKeeps(p: Peer, cp: Channel, q: Peer, cq: Channel, room: nat)
    requires Lane(p, cp, q, cq) && Lane(q, cq, p, cp)
    ensures Lane(ReadPeer(p, room), cp, q, cq) && Lane(q, cq, ReadPeer(p, room), cp)
  {
  }

  lemma SendMoveKeeps(s: Fifo, m: Move)
    requires FifoInv(s) && Possible(s, m) && !m.Receive?
    ensures Lanes(Moved(s, m), m.side)
  {
    var p, q, cp, cq := At(s.net, m.side), At(s.net, Other(m.side)), Chan(s, m.side), Chan(s, Other(m.side));
    match m
    case Write(_, chunk, now) => WriteKeeps(p, cp, q, cq, chunk, now);
    case Transmit(_) => TransmitKeeps(p, cp, q, cq);
    case Join(_, transport, now) => JoinKeeps(p, cp, q, cq, transport, now);
    case Take(_, room) => TakeKeeps(p, cp, q, cq, room);
    case Beat(_, nonce) => HeartbeatSent(p, cp, q, cq, Frame(PING, nonce, []));
  }

  lemma NetKeeps(s: Fifo, m: Move)
    requires Inv(s.net) && Possible(s, m)
    ensures Inv(Moved(s, m).net)
  {
    Safety.StepKeeps(s.net, AsStep(s, m));
  }

  lemma MoveKeepsLanes(s: Fifo, m: Move)
    requires FifoInv(s) && Possible(s, m)
    ensures Lanes(Moved(s, m), m.side)
  {
    if m.Receive? {
      ReceiveMoveKeeps(s, m);
    } else {
      SendMoveKeeps(s, m);
    }
  }

  lemma LanesOfBoth(s: Fifo, side: Side)
    requires Inv(s.net) && Lanes(s, side)
    ensures FifoInv(s)
  {
  }

  lemma MoveKeeps(s: Fifo, m: Move)
    requires FifoInv(s) && Possible(s, m)
    ensures FifoInv(Moved(s, m))
  {
    NetKeeps(s, m);
    MoveKeepsLanes(s, m);
    LanesOfBoth(Moved(s, m), m.side);
  }

  // The theorem over runs

  ghost predicate NoRejection(s: Fifo, moves: seq<Move>)
    requires FifoInv(s) && Moves(s, moves)
    decreases |moves|
  {
    moves == [] ||
    ((moves[0].Receive? ==> !Reacts(s, moves[0]).Reject?) &&
     (MoveKeeps(s, moves[0]); NoRejection(Moved(s, moves[0]), moves[1..])))
  }

  lemma DrainedAgrees(s: Fifo)
    requires FifoInv(s) && Drained(s)
    ensures Agreement(s.net)
  {
    Safety.WindowBound(s.net.home, s.net.work);
    Safety.WindowBound(s.net.work, s.net.home);
  }

  // In every run of an undisturbed generation no side rejects a frame of the
  // other, and whenever the channels are empty and nothing is left to transmit,
  // both replay buffers are empty and each side has received all the other wrote.
  lemma {:induction false} UndisturbedGeneration(s: Fifo, moves: seq<Move>)
    requires FifoInv(s) && Moves(s, moves)
    ensures FifoInv(After(s, moves)) && NoRejection(s, moves)
    ensures Drained(After(s, moves)) ==> Agreement(After(s, moves).net)
    decreases |moves|
  {
    if moves == [] {
      if Drained(s) {
        DrainedAgrees(s);
      }
    } else {
      if moves[0].Receive? {
        NeverRejects(s, moves[0]);
      }
      MoveKeeps(s, moves[0]);
      UndisturbedGeneration(Moved(s, moves[0]), moves[1..]);
    }
  }
}
