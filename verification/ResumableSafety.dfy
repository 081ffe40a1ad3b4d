// Safety of the resumable stream over every run of ResumableNet.
module ResumableSafety {
  import opened Prelude
  import opened ResumableFrame
  import opened ResumableNet
  import E = ResumableEndpoint

  // Stream positions

  lemma OccursGrows(w: seq<byte>, more: seq<byte>, k: nat, bytes: seq<byte>)
    requires OccursAt(w, k, bytes)
    ensures OccursAt(w + more, k, bytes)
  {
    assert (w + more)[k..k + |bytes|] == w[k..k + |bytes|];
  }

  lemma GenuineGrows(w: seq<byte>, more: seq<byte>, f: Frame)
    requires Genuine(w, f)
    ensures Genuine(w + more, f)
  {
    if f.kind == DATA {
      if OccursAt(w, f.offset, f.payload) {
        OccursGrows(w, more, f.offset, f.payload);
      } else {
        OccursGrows(w, more, f.offset + U64, f.payload);
      }
    }
  }

  // A send window never spans a whole revolution of the offset, so a receiver
  // that has got anywhere near 2^64 is far past every wrapped frame.
  lemma WindowBound(p: Peer, q: Peer)
    requires Direction(p, q)
    ensures |p.written| <= p.ep.sendBase + E.MAX_BUFFER
    ensures |p.written| < U64 + E.MAX_BUFFER
    ensures |p.written| < U64 ==> p.ep.sendEnd == |p.written|
    ensures |p.written| >= U64 ==> p.ep.sendEnd < p.ep.sendBase
  {
  }

  // What CheckData cuts off a genuine frame is the stream from recvOffset on.
  lemma CutIsNext(p: Peer, q: Peer, f: Frame)
    requires Direction(p, q) && WellFormed(f) && Genuine(p.written, f) && f.kind == DATA
    ensures var c := E.CheckData(q.ep, f.offset, f.payload);
      c.Fresh? ==> HeldGenuine(p.written, q.ep.recvOffset, Held(q.ep.recvOffset, c.rest))
  {
    var c := E.CheckData(q.ep, f.offset, f.payload);
    if c.Fresh? {
      WindowBound(p, q);
      var w, skip := p.written, q.ep.recvOffset - f.offset;
      assert OccursAt(w, f.offset, f.payload);
      assert w[f.offset..f.offset + |f.payload|][skip..] == w[q.ep.recvOffset..f.offset + |f.payload|];
    }
  }

  lemma ReplayGenuine(w: seq<byte>, k: nat, base: u64, bytes: seq<byte>)
    requires OccursAt(w, k, bytes) && k % U64 == base && |w| < 2 * U64
    ensures forall f <- E.Replay(base, bytes) :: f.kind == DATA && WellFormed(f) && Genuine(w, f)
    decreases |bytes|
  {
    if bytes != [] {
      var size := Min(|bytes|, CHUNK_SIZE);
      assert w[k..k + |bytes|][..size] == w[k..k + size];
      assert w[k..k + |bytes|][size..] == w[k + size..k + |bytes|];
      assert OccursAt(w, k, bytes[..size]);
      assert k == base || k == base + U64;
      ReplayGenuine(w, k + size, Add64(base, size), bytes[size..]);
    }
  }

  // One lemma per kind of step: it keeps the direction the stepping peer p sends
  // in and the direction it receives in.

  lemma QueueKeepsStream(p: Peer, q: Peer, chunk: seq<byte>, now: int)
    requires Direction(p, q) && !p.ep.closed && !E.QueueBlocked(p.ep, chunk)
    ensures var p' := QueuePeer(p, chunk, now); E.Valid(p'.ep) && StreamLaw(p', q)
  {
    var p' := QueuePeer(p, chunk, now);
    Add64Mod(p.ep.sendBase + |p.ep.sendBuffer|, |chunk|);
    Add64Mod(p.ep.sendBase, |p.ep.sendBuffer| + |chunk|);
    assert |p.written| == p.ep.sendBase + |p.ep.sendBuffer|;
    assert p'.written[..q.ep.recvOffset] == p.written[..q.ep.recvOffset];
    assert p'.ep.sendBuffer == p'.written[p.ep.sendBase..];
  }

  lemma NewChunkGenuine(p: Peer, q: Peer, chunk: seq<byte>)
    requires Direction(p, q)
    ensures Genuine(p.written + chunk, Frame(DATA, p.ep.sendEnd, chunk))
  {
    WindowBound(p, q);
    assert OccursAt(p.written + chunk, |p.written|, chunk);
    assert |p.written| == p.ep.sendEnd || |p.written| == p.ep.sendEnd + U64;
  }

  lemma QueueKeepsWire(p: Peer, q: Peer, chunk: seq<byte>, now: int)
    requires Direction(p, q) && !p.ep.closed && |chunk| <= CHUNK_SIZE
    ensures WireLaw(QueuePeer(p, chunk, now), q)
  {
    var p' := QueuePeer(p, chunk, now);
    NewChunkGenuine(p, q, chunk);
    forall f | f in p.emitted || f in p.queued
      ensures Genuine(p'.written, f)
    {
      GenuineGrows(p.written, chunk, f);
    }
    forall g | g in q.waiting
      ensures HeldGenuine(p'.written, q.ep.recvOffset, q.waiting[g])
    {
      OccursGrows(p.written, chunk, q.waiting[g].cutAt, q.waiting[g].rest);
    }
  }

  lemma QueueKeeps(p: Peer, q: Peer, chunk: seq<byte>, now: int)
    requires Direction(p, q) && Direction(q, p)
    requires 0 < |chunk| <= CHUNK_SIZE && !E.QueueBlocked(p.ep, chunk)
    ensures Direction(QueuePeer(p, chunk, now), q) && Direction(q, QueuePeer(p, chunk, now))
  {
    if !p.ep.closed {
      QueueKeepsStream(p, q, chunk, now);
      QueueKeepsWire(p, q, chunk, now);
    }
  }

  lemma SendKeeps(p: Peer, q: Peer, frame: Frame, accepted: bool)
    requires Direction(p, q) && Direction(q, p) && frame in p.queued
    ensures Direction(SendPeer(p, frame, accepted), q) && Direction(q, SendPeer(p, frame, accepted))
  {
  }

  lemma AttachFramesGenuine(p: Peer, q: Peer)
    requires Direction(p, q)
    ensures forall f <- E.AttachFrames(p.ep) ::
      WellFormed(f) && Genuine(p.written, f) && (f.kind == ACK ==> f.offset <= p.ep.recvOffset)
  {
    WindowBound(p, q);
    ReplayGenuine(p.written, p.ep.sendBase, p.ep.sendBase, p.ep.sendBuffer);
  }

  lemma AttachKeeps(p: Peer, q: Peer, transport: nat, now: int, failAt: Option<nat>)
    requires Direction(p, q) && Direction(q, p)
    ensures Direction(AttachPeer(p, transport, now, failAt), q)
    ensures Direction(q, AttachPeer(p, transport, now, failAt))
  {
    AttachFramesGenuine(p, q);
    var p' := AttachPeer(p, transport, now, failAt);
    assert forall f <- p'.emitted :: f in p.emitted || f in E.AttachFrames(p.ep);
  }

  lemma DeliverAckKeeps(p: Peer, q: Peer, reader: nat, f: Frame, now: int)
    requires Direction(p, q) && Direction(q, p) && f in q.emitted && f.kind == ACK
    ensures var (after, r) := E.HandleFrame(p.ep, f, now);
      Direction(React(p, reader, after, r), q) && Direction(q, React(p, reader, after, r))
  {
    WindowBound(p, q);
    var (after, ok) := E.ApplyAck(p.ep, f.offset, now);
    if ok {
      assert p.written[p.ep.sendBase..][f.offset - p.ep.sendBase..] == p.written[f.offset..];
    }
  }

  lemma AppendKeeps(p: Peer, q: Peer, h: Held)
    requires StreamLaw(p, q) && HeldGenuine(p.written, q.ep.recvOffset, h) && h.cutAt == q.ep.recvOffset
    ensures StreamLaw(p, q.(ep := E.Append(q.ep, h.rest)))
    ensures E.Append(q.ep, h.rest).recvOffset >= q.ep.recvOffset
  {
    var r := q.ep.recvOffset;
    assert p.written[..r] + p.written[r..r + |h.rest|] == p.written[..r + |h.rest|];
    assert q.read + (q.ep.recvBuffer + h.rest) == (q.read + q.ep.recvBuffer) + h.rest;
  }

  // p appends freshly cut bytes and acknowledges them.
  lemma AcceptKeeps(p: Peer, q: Peer, reader: nat, h: Held)
    requires Direction(p, q) && Direction(q, p)
    requires HeldGenuine(q.written, p.ep.recvOffset, h) && h.cutAt == p.ep.recvOffset
    ensures var (after, r) := E.Accept(p.ep, h.rest);
      Direction(React(p, reader, after, r), q) && Direction(q, React(p, reader, after, r))
  {
    AppendKeeps(q, p, h);
  }

  lemma DeliverDataKeeps(p: Peer, q: Peer, reader: nat, f: Frame, now: int)
    requires Direction(p, q) && Direction(q, p) && f in q.emitted && f.kind == DATA
    ensures var (after, r) := E.HandleFrame(p.ep, f, now);
      Direction(React(p, reader, after, r), q) && Direction(q, React(p, reader, after, r))
  {
    CutIsNext(q, p, f);
    var c := E.CheckData(p.ep, f.offset, f.payload);
    if c.Fresh? && !E.DataBlocked(p.ep, c.rest) {
      AcceptKeeps(p, q, reader, Held(p.ep.recvOffset, c.rest));
    }
  }

  lemma DeliverKeeps(p: Peer, q: Peer, reader: nat, f: Frame, now: int)
    requires Direction(p, q) && Direction(q, p) && f in q.emitted
    ensures var (after, r) := E.HandleFrame(p.ep, f, now);
      Direction(React(p, reader, after, r), q) && Direction(q, React(p, reader, after, r))
  {
    if f.kind == ACK {
      DeliverAckKeeps(p, q, reader, f, now);
    } else if f.kind == DATA {
      DeliverDataKeeps(p, q, reader, f, now);
    }
  }

  // A wake that continues the stream keeps the laws, and so does one of a closed
  // side, which appends nothing.
  lemma WakeKeeps(p: Peer, q: Peer, reader: nat)
    requires Direction(p, q) && Direction(q, p) && reader in p.waiting
    requires !p.ep.closed ==> ComesNext(q.written, p.ep.recvOffset, p.waiting[reader].rest)
    ensures Direction(WakePeer(p, reader), q) && Direction(q, WakePeer(p, reader))
  {
    var p' := p.(waiting := p.waiting - {reader});
    assert Direction(p', q) && Direction(q, p');
    if !p.ep.closed {
      AcceptKeeps(p', q, reader, Held(p.ep.recvOffset, p.waiting[reader].rest));
    }
  }

  // Any other wake breaks the stream law at once.
  lemma WakeWasRight(p: Peer, q: Peer, reader: nat)
    requires StreamLaw(q, p) && reader in p.waiting && !p.ep.closed && StreamLaw(q, WakePeer(p, reader))
    ensures ComesNext(q.written, p.ep.recvOffset, p.waiting[reader].rest)
  {
    var p', rest, r := WakePeer(p, reader), p.waiting[reader].rest, p.ep.recvOffset;
    var received := p'.read + p'.ep.recvBuffer;
    assert received == (p.read + p.ep.recvBuffer) + rest;
    assert |received| == r + |rest|;
    assert q.written[r..r + |rest|] == received[r..] == rest;
  }

  lemma FreshIsRight(n: Net, t: Step)
    requires Inv(n) && FreshWake(n, t)
    ensures RightWake(n, t)
  {
    if t.Wake? && t.reader in At(n, t.side).waiting {
      var p, q := At(n, t.side), At(n, Other(t.side));
      assert HeldGenuine(q.written, p.ep.recvOffset, p.waiting[t.reader]);
    }
  }

  lemma ReadKeeps(p: Peer, q: Peer, room: nat)
    requires Direction(p, q) && Direction(q, p)
    ensures Direction(ReadPeer(p, room), q) && Direction(q, ReadPeer(p, room))
  {
    var n := E.TakeCount(p.ep, room);
    assert p.read + p.ep.recvBuffer[..n] + p.ep.recvBuffer[n..] == p.read + p.ep.recvBuffer;
  }

  lemma QuietKeeps(p: Peer, q: Peer, t: Step, n: Net)
    requires Direction(p, q) && Direction(q, p)
    requires p == At(n, t.side) && Enabled(n, t) && (t.Ping? || t.Drop? || t.Close?)
    ensures Direction(StepPeer(p, t, n), q) && Direction(q, StepPeer(p, t, n))
  {
  }

  lemma StepPeerKeeps(p: Peer, q: Peer, t: Step, n: Net)
    requires Direction(p, q) && Direction(q, p)
    requires p == At(n, t.side) && q == At(n, Other(t.side)) && Enabled(n, t) && RightWake(n, t)
    ensures Direction(StepPeer(p, t, n), q) && Direction(q, StepPeer(p, t, n))
  {
    match t
    case Queue(_, chunk, now) => QueueKeeps(p, q, chunk, now);
    case Send(_, frame, accepted) => SendKeeps(p, q, frame, accepted);
    case Attach(_, transport, now, failAt) => AttachKeeps(p, q, transport, now, failAt);
    case Deliver(_, reader, frame, now) => DeliverKeeps(p, q, reader, frame, now);
    case Wake(_, reader) => WakeKeeps(p, q, reader);
    case Read(_, room) => ReadKeeps(p, q, room);
    case _ => QuietKeeps(p, q, t, n);
  }

  lemma StepKeeps(n: Net, t: Step)
    requires Inv(n) && Enabled(n, t) && RightWake(n, t)
    ensures Inv(Do(n, t))
  {
    StepPeerKeeps(At(n, t.side), At(n, Other(t.side)), t, n);
  }

  // Exactly when a step keeps the laws, and that a step that does not breaks the
  // stream law itself.
  lemma StepExact(n: Net, t: Step)
    requires Inv(n) && Enabled(n, t)
    ensures Inv(Do(n, t)) <==> RightWake(n, t)
    ensures StreamLaws(Do(n, t)) <==> RightWake(n, t)
  {
    if RightWake(n, t) {
      StepKeeps(n, t);
    } else {
      var p, q := At(n, t.side), At(n, Other(t.side));
      if StreamLaw(q, WakePeer(p, t.reader)) {
        WakeWasRight(p, q, t.reader);
        assert false;
      }
    }
  }

  // The main theorem. With any behaviour of the network, the stream law holds in
  // every state of a run exactly when every waiting reader that wakes on an open
  // side holds the bytes that come next.
  lemma {:induction false} StreamExact(n: Net, steps: seq<Step>)
    requires Inv(n) && Run(n, steps)
    ensures AlwaysStream(n, steps) <==> AllRight(n, steps)
    ensures AllRight(n, steps) ==> Inv(Final(n, steps))
    decreases |steps|
  {
    if steps != [] {
      StepExact(n, steps[0]);
      if RightWake(n, steps[0]) {
        StreamExact(Do(n, steps[0]), steps[1..]);
      }
    }
  }

  // Freshness, which a side can see for itself, is enough.
  lemma {:induction false} FreshRunsAreRight(n: Net, steps: seq<Step>)
    requires Inv(n) && Run(n, steps) && AllFresh(n, steps)
    ensures AllRight(n, steps)
    decreases |steps|
  {
    if steps != [] {
      FreshIsRight(n, steps[0]);
      StepKeeps(n, steps[0]);
      FreshRunsAreRight(Do(n, steps[0]), steps[1..]);
    }
  }

  // In every run, of any length and with any behaviour of the network, in which no
  // reader wakes up stale, each side's application has been handed a prefix of
  // what the other side's wrote, and acknowledged positions never pass received
  // ones.
  lemma StreamSafety(n: Net, steps: seq<Step>)
    requires Inv(n) && Run(n, steps) && AllFresh(n, steps)
    ensures Inv(Final(n, steps)) && AlwaysStream(n, steps)
    ensures StreamLaw(Final(n, steps).home, Final(n, steps).work)
    ensures StreamLaw(Final(n, steps).work, Final(n, steps).home)
  {
    FreshRunsAreRight(n, steps);
    StreamExact(n, steps);
  }

  lemma InitialInv()
    ensures Inv(INIT)
  {
  }

  // What an application has been handed is never taken back, and neither end
  // ever moves an offset backwards.
  predicate Advanced(p: Peer, p': Peer) {
    && p.read <= p'.read && p.written <= p'.written
    && p.ep.sendBase <= p'.ep.sendBase && p.ep.recvOffset <= p'.ep.recvOffset
    && (p.ep.closed ==> p'.ep.closed) && p.ep.generation <= p'.ep.generation
  }

  lemma DeliverAdvances(p: Peer, q: Peer, reader: nat, f: Frame, now: int)
    requires Direction(p, q) && Direction(q, p) && f in q.emitted
    ensures var (after, r) := E.HandleFrame(p.ep, f, now); Advanced(p, React(p, reader, after, r))
  {
    if f.kind == DATA {
      CutIsNext(q, p, f);
    }
  }

  lemma WakeAdvances(p: Peer, q: Peer, reader: nat)
    requires reader in p.waiting
    requires !p.ep.closed ==> ComesNext(q.written, p.ep.recvOffset, p.waiting[reader].rest)
    ensures Advanced(p, WakePeer(p, reader))
  {
  }

  lemma StepPeerAdvances(p: Peer, q: Peer, t: Step, n: Net)
    requires Direction(p, q) && Direction(q, p)
    requires p == At(n, t.side) && q == At(n, Other(t.side)) && Enabled(n, t) && RightWake(n, t)
    ensures Advanced(p, StepPeer(p, t, n))
  {
    match t
    case Deliver(_, reader, frame, now) => DeliverAdvances(p, q, reader, frame, now);
    case Wake(_, reader) => WakeAdvances(p, q, reader);
    case _ =>
  }

  lemma StepAdvances(n: Net, t: Step, s: Side)
    requires Inv(n) && Enabled(n, t) && RightWake(n, t)
    ensures Advanced(At(n, s), At(Do(n, t), s))
  {
    StepPeerAdvances(At(n, t.side), At(n, Other(t.side)), t, n);
  }

  lemma {:induction false} RunAdvances(n: Net, steps: seq<Step>, s: Side)
    requires Inv(n) && Run(n, steps) && AllRight(n, steps)
    ensures Advanced(At(n, s), At(Final(n, steps), s))
    decreases |steps|
  {
    if steps != [] {
      StepKeeps(n, steps[0]);
      StepAdvances(n, steps[0], s);
      RunAdvances(Do(n, steps[0]), steps[1..], s);
    }
  }

  // When a run has no stale wake

  // At most one reader waits, and nothing was received since it cut.
  ghost predicate CalmPeer(p: Peer) {
    && (forall g, h :: g in p.waiting && h in p.waiting ==> g == h)
    && (forall g <- p.waiting :: p.waiting[g].cutAt == p.ep.recvOffset)
  }

  ghost predicate Calm(n: Net) {
    CalmPeer(n.home) && CalmPeer(n.work)
  }

  lemma CalmDeliver(p: Peer, t: Step, n: Net)
    requires p == At(n, t.side) && CalmPeer(p) && Enabled(n, t) && Exclusive(n, t) && t.Deliver?
    ensures CalmPeer(StepPeer(p, t, n))
  {
    var (after, r) := E.HandleFrame(p.ep, t.frame, t.now);
    if t.frame.kind != DATA {
      assert after.recvOffset == p.ep.recvOffset;
    }
  }

  lemma CalmStep(p: Peer, t: Step, n: Net)
    requires p == At(n, t.side) && CalmPeer(p) && Enabled(n, t) && Exclusive(n, t)
    ensures CalmPeer(StepPeer(p, t, n))
  {
    match t
    case Deliver(_, _, _, _) => CalmDeliver(p, t, n);
    case Wake(_, reader) => assert p.waiting - {reader} == map[];
    case _ => assert StepPeer(p, t, n).waiting == p.waiting;
  }

  // A sufficient discipline: while one reader of a side waits for room, no other
  // reader of that side is handed a data frame. Then no wake is ever stale.
  lemma {:induction false} ExclusiveRunsAreFresh(n: Net, steps: seq<Step>)
    requires Calm(n) && Run(n, steps) && AllExclusive(n, steps)
    ensures AllFresh(n, steps)
    decreases |steps|
  {
    if steps != [] {
      CalmStep(At(n, steps[0].side), steps[0], n);
      ExclusiveRunsAreFresh(Do(n, steps[0]), steps[1..]);
    }
  }

  // Why freshness is what a side has to go by

  // What q knows of the peer's stream w: its length is n, it begins with what q
  // has received, and it holds what the waiting reader cut where it was cut.
  predicate Compatible(w: seq<byte>, n: nat, q: Peer, h: Held) {
    && |w| == n && q.ep.recvOffset <= n && w[..q.ep.recvOffset] == q.read + q.ep.recvBuffer
    && OccursAt(w, h.cutAt, h.rest)
  }

  // A stream like w, but without the bytes at r.
  lemma StaleCounterexample(w: seq<byte>, q: Peer, h: Held) returns (v: seq<byte>)
    requires Compatible(w, |w|, q, h) && h.cutAt < q.ep.recvOffset && h.rest != []
    ensures Compatible(v, |w|, q, h) && !OccursAt(v, q.ep.recvOffset, h.rest)
  {
    var r, last := q.ep.recvOffset, q.ep.recvOffset + |h.rest| - 1;
    if OccursAt(w, r, h.rest) {
      v := w[last := if w[last] == 0 then 1 else 0];
      assert v[last] != w[last];
      assert v[..r] == w[..r];
      assert v[h.cutAt..h.cutAt + |h.rest|] == w[h.cutAt..h.cutAt + |h.rest|];
      assert v[r..r + |h.rest|][|h.rest| - 1] == v[last] && w[r..r + |h.rest|][|h.rest| - 1] == w[last];
    } else {
      v := w;
    }
  }

  // Appending what a waiting reader cut continues every stream of that length that
  // the side could be receiving exactly when nothing was received while it waited.
  lemma WakeRightIffFresh(n: Net, s: Side, reader: nat)
    requires Inv(n) && reader in At(n, s).waiting
    ensures var q, written := At(n, s), At(n, Other(s)).written;
      var h := q.waiting[reader];
      && Compatible(written, |written|, q, h)
      && ((forall w: seq<byte> | Compatible(w, |written|, q, h) :: ComesNext(w, q.ep.recvOffset, h.rest)) <==>
          h.cutAt == q.ep.recvOffset)
  {
    var p, q := At(n, Other(s)), At(n, s);
    var h := q.waiting[reader];
    assert HeldGenuine(p.written, q.ep.recvOffset, h);
    if h.cutAt < q.ep.recvOffset {
      var w := StaleCounterexample(p.written, q, h);
    }
  }
}
