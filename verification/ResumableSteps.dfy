// What the steps of two resumable endpoints do to the side that takes them, told
// in its fields: which step installs or removes a transport, and what a delivered
// frame changes. Over runs: only what belongs to the current generation can
// remove its transport.
module ResumableSteps {
  import opened Prelude
  import opened ResumableFrame
  import opened ResumableNet
  import E = ResumableEndpoint

  // A frame for which a reader gives its transport up: an acknowledgement outside
  // what is held, data that starts beyond what was received or whose end wraps,
  // or a frame of no known kind.
  predicate Unacceptable(e: E.Endpoint, f: Frame) {
    || (f.kind == ACK && (f.offset < e.sendBase || f.offset > e.sendEnd))
    || (f.kind == DATA && (f.offset > e.recvOffset || f.offset + |f.payload| >= U64))
    || f.kind !in {DATA, ACK, PING, PONG}
  }

  lemma {:induction false} ReplayCount(base: u64, bytes: seq<byte>)
    ensures |E.Replay(base, bytes)| == (|bytes| + 65535) / 65536
    decreases |bytes|
  {
    if bytes != [] {
      var size := Min(|bytes|, CHUNK_SIZE);
      ReplayCount(Add64(base, size), bytes[size..]);
    }
  }

  // How many frames an attachment writes: an acknowledgement and the replay.
  function AttachCount(e: E.Endpoint): nat {
    1 + (|e.sendBuffer| + 65535) / 65536
  }

  // The transport and generation of an open side after a step.
  function TransportAfter(e: E.Endpoint, t: Step): (Option<nat>, nat) {
    match t
    case Attach(_, transport, _, failAt) =>
      (if failAt.Some? && failAt.value < AttachCount(e) then None else Some(transport), e.generation + 1)
    case Drop(_, transport, generation) =>
      (if e.ws == Some(transport) && e.generation == generation then None else e.ws, e.generation)
    case Deliver(_, reader, frame, _) =>
      (if reader == e.generation && Unacceptable(e, frame) then None else e.ws, e.generation)
    case Close(_) => (None, e.generation)
    case _ => (e.ws, e.generation)
  }

  lemma AttachAct(p: Peer, transport: nat, now: int, failAt: Option<nat>)
    requires !p.ep.closed
    ensures var e' := AttachPeer(p, transport, now, failAt).ep;
      (e'.ws, e'.generation) == TransportAfter(p.ep, Attach(Home, transport, now, failAt)) && !e'.closed
  {
    ReplayCount(p.ep.sendBase, p.ep.sendBuffer);
  }

  lemma DataReaction(e: E.Endpoint, f: Frame, now: int)
    requires E.Valid(e) && WellFormed(f) && f.kind == DATA && !e.closed
    ensures var (e', r) := E.HandleFrame(e, f, now);
      && (r.Reject? <==> Unacceptable(e, f)) && e'.ws == e.ws && e'.generation == e.generation && !e'.closed
  {
    EndOfFrame(f);
  }

  lemma EndOfFrame(f: Frame)
    requires |f.payload| <= CHUNK_SIZE
    ensures Add64(f.offset, |f.payload|) < f.offset <==> f.offset + |f.payload| >= U64
    ensures f.offset + |f.payload| < U64 ==> Add64(f.offset, |f.payload|) == f.offset + |f.payload|
  {
    if f.offset + |f.payload| >= U64 {
      assert Add64(f.offset, |f.payload|) == f.offset + |f.payload| - U64;
    }
  }

  lemma Reaction(e: E.Endpoint, f: Frame, now: int)
    requires E.Valid(e) && WellFormed(f) && !e.closed
    ensures var (e', r) := E.HandleFrame(e, f, now);
      && (r.Reject? <==> Unacceptable(e, f)) && e'.ws == e.ws && e'.generation == e.generation && !e'.closed
  {
    if f.kind == DATA {
      DataReaction(e, f, now);
    }
  }

  lemma DeliverAct(p: Peer, t: Step, n: Net)
    requires t.Deliver? && p == At(n, t.side) && Enabled(n, t) && !p.ep.closed
    ensures var e' := StepPeer(p, t, n).ep; (e'.ws, e'.generation) == TransportAfter(p.ep, t) && !e'.closed
  {
    Reaction(p.ep, t.frame, t.now);
  }

  // Exactly which steps change a side's transport and generation. A closed side
  // keeps both; a waking reader never removes a transport.
  lemma TransportAct(n: Net, t: Step)
    requires Enabled(n, t)
    ensures var e, e' := At(n, t.side).ep, At(Do(n, t), t.side).ep;
      && At(Do(n, t), Other(t.side)) == At(n, Other(t.side))
      && (e'.closed <==> e.closed || t.Close?)
      && (e'.ws, e'.generation) == if e.closed then (e.ws, e.generation) else TransportAfter(e, t)
  {
    var p := At(n, t.side);
    match t
    case Attach(_, transport, now, failAt) => if !p.ep.closed { AttachAct(p, transport, now, failAt); }
    case Deliver(_, _, _, _) => if !p.ep.closed { DeliverAct(p, t, n); } else { ClosedDeliver(p, t, n); }
    case _ =>
  }

  lemma ClosedDeliver(p: Peer, t: Step, n: Net)
    requires t.Deliver? && p == At(n, t.side) && Enabled(n, t) && p.ep.closed
    ensures var e' := StepPeer(p, t, n).ep; e'.ws == p.ep.ws && e'.generation == p.ep.generation && e'.closed
  {
  }

  // A step that belongs to an older generation than g, or to the other side.
  predicate OlderThan(t: Step, s: Side, g: nat) {
    t.side == s ==>
      && !t.Attach? && !t.Close?
      && (t.Drop? ==> t.generation < g)
      && (t.Deliver? ==> t.reader < g)
  }

  // In every run, no reader and no drop of an older generation, however late, and
  // nothing the other side does, removes a transport.
  lemma {:induction false} OlderCannotRemove(n: Net, steps: seq<Step>, s: Side)
    requires Run(n, steps) && forall t <- steps :: OlderThan(t, s, At(n, s).ep.generation)
    ensures At(Final(n, steps), s).ep.ws == At(n, s).ep.ws
    ensures At(Final(n, steps), s).ep.generation == At(n, s).ep.generation
    decreases |steps|
  {
    if steps != [] {
      assert OlderThan(steps[0], s, At(n, s).ep.generation);
      TransportAct(n, steps[0]);
      OlderCannotRemove(Do(n, steps[0]), steps[1..], s);
    }
  }

  // A side is closed after a run exactly when it was before or closed itself.
  lemma {:induction false} ClosedIffClosed(n: Net, steps: seq<Step>, s: Side)
    requires Run(n, steps)
    ensures At(Final(n, steps), s).ep.closed <==> At(n, s).ep.closed || Close(s) in steps
    decreases |steps|
  {
    if steps != [] {
      TransportAct(n, steps[0]);
      ClosedIffClosed(Do(n, steps[0]), steps[1..], s);
      assert steps == [steps[0]] + steps[1..];
    }
  }

  // What a delivered frame changes besides the transport

  predicate SameStreams(p: Peer, p': Peer) {
    && p'.written == p.written && p'.read == p.read && p'.queued == p.queued
    && p'.ep.recvBuffer == p.ep.recvBuffer && p'.ep.recvOffset == p.ep.recvOffset
    && p'.ep.sendBuffer == p.ep.sendBuffer && p'.ep.sendBase == p.ep.sendBase && p'.ep.sendEnd == p.ep.sendEnd
  }

  // Data: nothing is received from a frame that cannot be accepted or brings
  // nothing new, and the latter is acknowledged again; otherwise the receive
  // offset advances to the end of the frame, at once when its new bytes fit within
  // 8 MiB and else after a wait.
  lemma DataAct(n: Net, t: Step)
    requires t.Deliver? && t.frame.kind == DATA && Enabled(n, t) && !At(n, t.side).ep.closed
    ensures var p, p' := At(n, t.side), At(Do(n, t), t.side);
      var f, end := t.frame, t.frame.offset + |t.frame.payload|;
      if Unacceptable(p.ep, f) then SameStreams(p, p') && p'.emitted == p.emitted && p'.waiting == p.waiting
      else if end <= p.ep.recvOffset then
        SameStreams(p, p') && p'.emitted == p.emitted + {Frame(ACK, p.ep.recvOffset, [])} && p'.waiting == p.waiting
      else
        var rest := f.payload[p.ep.recvOffset - f.offset..];
        if |p.ep.recvBuffer| + |rest| <= 8388608 then
          && p'.ep.recvOffset == end && p'.ep.recvBuffer == p.ep.recvBuffer + rest
          && p'.emitted == p.emitted + {Frame(ACK, end, [])} && p'.waiting == p.waiting
        else SameStreams(p, p') && p'.emitted == p.emitted && p'.waiting == p.waiting[t.reader := Held(p.ep.recvOffset, rest)]
  {
    EndOfFrame(t.frame);
  }

  // Acknowledgements release exactly the bytes before them; heartbeats are
  // answered with their own nonce.
  lemma ControlAct(n: Net, t: Step)
    requires t.Deliver? && t.frame.kind != DATA && Enabled(n, t)
    ensures var p, p', f := At(n, t.side), At(Do(n, t), t.side), t.frame;
      && p'.waiting == p.waiting && p'.read == p.read && p'.ep.recvBuffer == p.ep.recvBuffer && p'.ep.recvOffset == p.ep.recvOffset
      && p'.emitted == (if f.kind == PING then p.emitted + {Frame(PONG, f.offset, [])} else p.emitted)
      && (f.kind == ACK && !Unacceptable(p.ep, f) ==>
            p'.ep.sendBase == f.offset && p'.ep.sendEnd == p.ep.sendEnd
            && p'.ep.sendBuffer == p.ep.sendBuffer[f.offset - p.ep.sendBase..])
      && (!(f.kind == ACK && !Unacceptable(p.ep, f)) ==> SameStreams(p, p'))
  {
  }

  // A chunk is taken by an open side, and waits exactly while the replay buffer
  // would exceed 8 MiB.
  lemma QueueAct(n: Net, s: Side, chunk: seq<byte>, now: int)
    ensures Enabled(n, Queue(s, chunk, now)) <==>
      0 < |chunk| <= 65536 && (At(n, s).ep.closed || |At(n, s).ep.sendBuffer| + |chunk| <= 8388608)
    ensures Enabled(n, Queue(s, chunk, now)) ==>
      var p, p' := At(n, s), At(Do(n, Queue(s, chunk, now)), s);
      if p.ep.closed then p' == p
      else p'.written == p.written + chunk && p'.ep.sendBuffer == p.ep.sendBuffer + chunk
           && p'.queued == p.queued + {Frame(DATA, p.ep.sendEnd, chunk)}
  {
  }
}
