// An HTTP-stream pair is a FIFO message queue in each direction.
module HttpPairSafety {
  import opened Prelude
  import opened HttpRecord
  import opened HttpPair
  import S = HttpStream

  // Sums

  lemma {:induction false} HeldRemove(m: map<u64, Record>, k: u64)
    requires k in m
    ensures HeldBytes(m) == |m[k].payload| + HeldBytes(m - {k})
    decreases |m|
  {
    var j :| j in m && HeldBytes(m) == |m[j].payload| + HeldBytes(m - {j});
    if j != k {
      S.RemoveShrinks(m, j);
      S.RemoveShrinks(m, k);
      HeldRemove(m - {j}, k);
      HeldRemove(m - {k}, j);
      assert m - {j} - {k} == m - {k} - {j};
    }
  }

  lemma HeldAdd(m: map<u64, Record>, k: u64, r: Record)
    requires k !in m
    ensures HeldBytes(m[k := r]) == HeldBytes(m) + |r.payload|
  {
    HeldRemove(m[k := r], k);
    assert m[k := r] - {k} == m;
  }

  lemma {:induction false} SumAppend(a: seq<Record>, b: seq<Record>)
    ensures S.SumBytes(a + b) == S.SumBytes(a) + S.SumBytes(b)
  {
    if a == [] {
      assert a + b == b;
    } else {
      assert (a + b)[1..] == a[1..] + b;
      SumAppend(a[1..], b);
    }
  }

  predicate Ascending(frames: seq<Record>) {
    forall i, j :: 0 <= i < j < |frames| ==> frames[i].seqNo < frames[j].seqNo
  }

  ghost predicate SubmapOf(m: map<u64, Record>, frames: seq<Record>) {
    forall k <- m :: k == m[k].seqNo && m[k] in frames
  }

  lemma {:induction false} SubmapBytes(m: map<u64, Record>, frames: seq<Record>)
    requires Ascending(frames) && SubmapOf(m, frames)
    ensures HeldBytes(m) <= S.SumBytes(frames)
  {
    if frames == [] {
      assert m == map[];
    } else {
      var k := frames[0].seqNo;
      assert forall j <- m :: j != k ==> m[j] in frames[1..];
      if k in m {
        HeldRemove(m, k);
        SubmapBytes(m - {k}, frames[1..]);
      } else {
        SubmapBytes(m, frames[1..]);
      }
    }
  }

  // The reorder map holds only records the sender has not discarded, so it never
  // exceeds the sender's buffer.
  lemma AheadWithinSendBuffer(p: End, q: End)
    requires Direction(p, q)
    ensures SubmapOf(q.conn.recvAhead, p.conn.sendFrames)
    ensures q.conn.recvAheadBytes <= p.conn.sendBytes
  {
    var n, held := |p.accepted|, |p.conn.sendFrames|;
    forall k | k in q.conn.recvAhead
      ensures q.conn.recvAhead[k] in p.conn.sendFrames
    {
      assert p.conn.sendFrames[k - 1 - (n - held)] == Numbered(p.accepted, k);
    }
    SubmapBytes(q.conn.recvAhead, p.conn.sendFrames);
  }

  // What each role of an end depends on

  predicate SameSender(p: End, p': End) {
    && p'.accepted == p.accepted && p'.emitted == p.emitted
    && p'.conn.sendFrames == p.conn.sendFrames && p'.conn.sendBytes == p.conn.sendBytes
    && p'.conn.nextSend == p.conn.nextSend && p'.conn.closing == p.conn.closing
  }

  predicate SameReceiver(q: End, q': End) {
    && q'.handed == q.handed && q'.emitted == q.emitted
    && q'.conn.recvNext == q.conn.recvNext && q'.conn.recvQueue == q.conn.recvQueue
    && q'.conn.recvAhead == q.conn.recvAhead && q'.conn.recvAheadBytes == q.conn.recvAheadBytes
  }

  lemma SenderFrame(p: End, p': End, q: End)
    requires Direction(p, q) && SameSender(p, p')
    ensures Direction(p', q)
  {
  }

  lemma ReceiverFrame(p: End, q: End, q': End)
    requires Direction(p, q) && SameReceiver(q, q')
    ensures Direction(p, q')
  {
  }

  // Emission

  lemma NumberedGrows(p: End, m: Message, r: Record)
    requires Genuine(p, r)
    ensures Genuine(p.(accepted := p.accepted + [m]), r)
  {
  }

  lemma {:induction false} AfterIsPart(frames: seq<Record>, seqNo: u64)
    ensures forall r <- S.After(frames, seqNo) :: r in frames
  {
    if frames != [] {
      AfterIsPart(frames[1..], seqNo);
    }
  }

  lemma {:induction false} TakeIsPart(frames: seq<Record>, first: u64, limit: nat, size: nat)
    ensures forall r <- S.TakeWithin(frames, first, limit, size) :: r in frames
  {
    if frames != [] {
      TakeIsPart(frames[1..], first, limit, size);
      TakeIsPart(frames[1..], first, limit, size + |frames[0].payload|);
    }
  }

  lemma {:induction false} FramesFromIsPart(frames: seq<Record>, first: u64, limit: nat)
    ensures forall r <- S.FramesFrom(frames, first, limit) :: r in frames
  {
    if frames != [] {
      FramesFromIsPart(frames[1..], first, limit);
      TakeIsPart(frames[1..], first, limit, |frames[0].payload|);
    }
  }

  lemma HeldFramesGenuine(p: End)
    requires SendLaw(p)
    ensures forall r <- p.conn.sendFrames :: r.kind != ACK && Genuine(p, r)
  {
    forall r | r in p.conn.sendFrames
      ensures r.kind != ACK && Genuine(p, r)
    {
      var i :| 0 <= i < |p.conn.sendFrames| && p.conn.sendFrames[i] == r;
      assert r == Numbered(p.accepted, |p.accepted| - |p.conn.sendFrames| + i + 1);
      assert p.accepted[r.seqNo - 1] in p.accepted;
    }
  }

  lemma EmitKeeps(p: End, q: End, frames: seq<Record>)
    requires Direction(p, q) && Direction(q, p) && (forall r <- frames :: r in p.conn.sendFrames)
    ensures Direction(Emit(p, frames), q) && Direction(q, Emit(p, frames))
  {
    HeldFramesGenuine(p);
    var p' := Emit(p, frames);
    forall r | r in p'.emitted
      ensures Genuine(p', r) && (r.kind == ACK ==> r.seqNo < p.conn.recvNext)
    {
      if r !in p.emitted && r in frames {
        assert r in p.conn.sendFrames;
      }
    }
    assert WireLaw(p', q) && WireLaw(q, p');
  }

  // Writing

  lemma TailOfAppend(accepted: seq<Message>, frames: seq<Record>, m: Message)
    requires TailOf(accepted, frames) && |accepted| + 1 < U64 - 1
    ensures TailOf(accepted + [m], frames + [Record(m.kind, |accepted| + 1, m.payload)])
  {
    var accepted', frames' := accepted + [m], frames + [Record(m.kind, |accepted| + 1, m.payload)];
    forall i | 0 <= i < |frames'|
      ensures frames'[i] == Numbered(accepted', |accepted'| - |frames'| + i + 1)
    {
      if i < |frames| {
        assert frames'[i] == frames[i];
      }
    }
  }

  lemma AppendKeepsSend(p: End, q: End, kind: byte, payload: seq<byte>)
    requires SendLaw(p) && StreamLaw(p, q) && S.IsData(kind) && p.conn.nextSend < U64 - 1
    ensures var p' := p.(conn := S.Append(p.conn, kind, payload), accepted := p.accepted + [Message(kind, payload)]);
      SendLaw(p') && StreamLaw(p', q)
  {
    var p' := p.(conn := S.Append(p.conn, kind, payload), accepted := p.accepted + [Message(kind, payload)]);
    TailOfAppend(p.accepted, p.conn.sendFrames, Message(kind, payload));
    SumAppend(p.conn.sendFrames, [Record(kind, p.conn.nextSend, payload)]);
    assert p'.accepted[..q.conn.recvNext - 1] == p.accepted[..q.conn.recvNext - 1];
  }

  lemma AppendKeepsWire(p: End, q: End, c: S.Conn, m: Message)
    requires AheadLaw(p, q) && WireLaw(p, q)
    ensures var p' := p.(conn := c, accepted := p.accepted + [m]); AheadLaw(p', q) && WireLaw(p', q)
  {
    var p' := p.(conn := c, accepted := p.accepted + [m]);
    forall r | r in p.emitted
      ensures Genuine(p', r)
    {
      NumberedGrows(p, m, r);
    }
  }

  lemma WriteKeeps(p: End, q: End, kind: byte, payload: seq<byte>)
    requires Direction(p, q) && Direction(q, p)
    requires S.IsData(kind) && !S.QueueBlocked(p.conn, payload) && p.conn.nextSend < U64 - 1
    ensures Direction(WriteEnd(p, kind, payload), q) && Direction(q, WriteEnd(p, kind, payload))
  {
    if S.QueueFrame(p.conn, kind, payload).1 {
      AppendKeepsSend(p, q, kind, payload);
      AppendKeepsWire(p, q, S.Append(p.conn, kind, payload), Message(kind, payload));
    }
  }

  lemma CloseKeeps(p: End, q: End, payload: seq<byte>)
    requires Direction(p, q) && Direction(q, p) && p.conn.nextSend < U64 - 1
    ensures Direction(CloseEnd(p, payload), q) && Direction(q, CloseEnd(p, payload))
  {
    if !p.conn.closed {
      var p0 := p.(conn := p.conn.(closing := true));
      AppendKeepsSend(p0, q, CLOSE, payload);
      AppendKeepsWire(p0, q, S.Append(p0.conn, CLOSE, payload), Message(CLOSE, payload));
    }
  }

  // Acknowledgements

  // What is acknowledged has been received, so only such records are released.
  lemma TrimReleases(p: End, q: End, ack: u64)
    requires SendLaw(p) && StreamLaw(p, q) && ack < q.conn.recvNext
    ensures |p.accepted| - |p.conn.sendFrames| + S.TrimCount(p.conn.sendFrames, ack) <= q.conn.recvNext - 1
  {
    var frames := p.conn.sendFrames;
    var n := S.TrimCount(frames, ack);
    if n > 0 {
      assert frames[n - 1].seqNo <= ack;
      assert frames[n - 1] == Numbered(p.accepted, |p.accepted| - |frames| + n);
    }
  }

  lemma TailOfTail(accepted: seq<Message>, frames: seq<Record>, n: nat)
    requires TailOf(accepted, frames) && n <= |frames|
    ensures TailOf(accepted, frames[n..])
  {
    var rest := frames[n..];
    forall i | 0 <= i < |rest|
      ensures rest[i] == Numbered(accepted, |accepted| - |rest| + i + 1)
    {
      var j := n + i;
      assert rest[i] == frames[j];
    }
  }

  lemma TailKeepsSend(p: End, n: nat, c: S.Conn)
    requires SendLaw(p) && n <= |p.conn.sendFrames|
    requires c.sendFrames == p.conn.sendFrames[n..] && c.nextSend == p.conn.nextSend
    requires c.sendBytes == p.conn.sendBytes - S.SumBytes(p.conn.sendFrames[..n])
    ensures SendLaw(p.(conn := c)) && c.sendBytes <= p.conn.sendBytes
  {
    var frames := p.conn.sendFrames;
    SumAppend(frames[..n], frames[n..]);
    assert frames[..n] + frames[n..] == frames;
    TailOfTail(p.accepted, frames, n);
  }

  lemma TrimKeepsSend(p: End, q: End, ack: u64, now: int)
    requires SendLaw(p) && StreamLaw(p, q) && ack < q.conn.recvNext
    ensures var p' := p.(conn := S.Trim(p.conn, ack, now)); SendLaw(p') && StreamLaw(p', q)
    ensures S.Trim(p.conn, ack, now).sendBytes <= p.conn.sendBytes
  {
    var n := S.TrimCount(p.conn.sendFrames, ack);
    TrimReleases(p, q, ack);
    if n > 0 {
      TailKeepsSend(p, n, S.Trim(p.conn, ack, now));
    }
  }

  lemma TrimKeeps(p: End, q: End, ack: u64, now: int)
    requires Direction(p, q) && Direction(q, p) && ack < q.conn.recvNext
    ensures var p' := p.(conn := S.Trim(p.conn, ack, now)); Direction(p', q) && Direction(q, p')
  {
    var p' := p.(conn := S.Trim(p.conn, ack, now));
    TrimKeepsSend(p, q, ack, now);
    assert AheadLaw(p', q) && WireLaw(p', q);
    ReceiverFrame(q, p, p');
  }

  // No acknowledgement is ever beyond what was sent.
  lemma AckWithinSent(p: End, q: End, r: Record)
    requires Direction(p, q) && r in q.emitted && r.kind == ACK
    ensures r.seqNo < p.conn.nextSend && r.seqNo < q.conn.recvNext
  {
  }

  // Receiving

  // What Accept relies on and keeps, seen from the sender's accepted messages.
  ghost predicate Receiving(acc: seq<Message>, c: S.Conn, handed: seq<Message>) {
    && |acc| < U64 - 1 && 1 <= c.recvNext <= |acc| + 1
    && handed + Messages(c.recvQueue) == acc[..c.recvNext - 1]
    && (forall k <- c.recvAhead :: c.recvNext < k <= |acc| && c.recvAhead[k] == Numbered(acc, k))
    && c.recvAheadBytes == HeldBytes(c.recvAhead)
  }

  lemma AcceptOne(acc: seq<Message>, c: S.Conn, handed: seq<Message>)
    requires Receiving(acc, c, handed) && c.recvNext <= |acc|
    ensures handed + Messages(c.recvQueue + [Numbered(acc, c.recvNext)]) == acc[..c.recvNext]
  {
    var r := Numbered(acc, c.recvNext);
    assert Messages(c.recvQueue + [r]) == Messages(c.recvQueue) + [acc[c.recvNext - 1]];
    assert acc[..c.recvNext] == acc[..c.recvNext - 1] + [acc[c.recvNext - 1]];
  }

  // Taking one record, and the held one that has become next, if any.
  function TakeOne(c: S.Conn, r: Record): S.Conn
    requires c.recvNext < U64 - 1
  {
    c.(recvNext := c.recvNext + 1, recvQueue := c.recvQueue + [r])
  }

  function Unhold(c: S.Conn): S.Conn
    requires c.recvNext in c.recvAhead
  {
    c.(recvAhead := c.recvAhead - {c.recvNext},
       recvAheadBytes := c.recvAheadBytes - |c.recvAhead[c.recvNext].payload|)
  }

  lemma TakeReceives(acc: seq<Message>, c: S.Conn, handed: seq<Message>)
    requires Receiving(acc, c, handed) && c.recvNext <= |acc|
    ensures var c1 := TakeOne(c, Numbered(acc, c.recvNext));
      if c1.recvNext in c1.recvAhead then
        c1.recvAhead[c1.recvNext] == Numbered(acc, c1.recvNext) && c1.recvNext <= |acc| && Receiving(acc, Unhold(c1), handed)
      else Receiving(acc, c1, handed)
  {
    AcceptOne(acc, c, handed);
    var c1 := TakeOne(c, Numbered(acc, c.recvNext));
    if c1.recvNext in c1.recvAhead {
      HeldRemove(c1.recvAhead, c1.recvNext);
    }
  }

  lemma AcceptUnfolds(c: S.Conn, r: Record)
    requires c.recvNext < U64 - 1
    ensures var c1 := TakeOne(c, r);
      S.Accept(c, r) ==
      if c1.recvNext in c1.recvAhead then S.Accept(Unhold(c1), c1.recvAhead[c1.recvNext]) else c1
  {
  }

  // Only the receiving fields change.
  predicate ReceivedOnly(c: S.Conn, c': S.Conn) {
    && c'.recvNext > c.recvNext
    && c' == c.(recvNext := c'.recvNext, recvQueue := c'.recvQueue, recvAhead := c'.recvAhead, recvAheadBytes := c'.recvAheadBytes)
  }

  lemma {:induction false} AcceptReceives(acc: seq<Message>, c: S.Conn, handed: seq<Message>)
    requires Receiving(acc, c, handed) && c.recvNext <= |acc|
    ensures var c' := S.Accept(c, Numbered(acc, c.recvNext)); Receiving(acc, c', handed) && ReceivedOnly(c, c')
    decreases |c.recvAhead|
  {
    var r := Numbered(acc, c.recvNext);
    TakeReceives(acc, c, handed);
    AcceptUnfolds(c, r);
    var c1 := TakeOne(c, r);
    if c1.recvNext in c1.recvAhead {
      S.RemoveShrinks(c1.recvAhead, c1.recvNext);
      AcceptReceives(acc, Unhold(c1), handed);
    }
  }

  lemma DirectionReceives(p: End, q: End)
    requires Direction(p, q)
    ensures Receiving(p.accepted, q.conn, q.handed)
  {
  }

  // q accepts the record that is next in order.
  lemma AcceptKeeps(p: End, q: End, r: Record)
    requires Direction(p, q) && Direction(q, p)
    requires r.kind != ACK && Genuine(p, r) && r.seqNo == q.conn.recvNext
    ensures var q' := q.(conn := S.Accept(q.conn, r)); Direction(p, q') && Direction(q', p)
  {
    DirectionReceives(p, q);
    AcceptReceives(p.accepted, q.conn, q.handed);
    SenderFrame(q, q.(conn := S.Accept(q.conn, r)), p);
  }

  lemma HoldKeepsAhead(p: End, q: End, r: Record)
    requires AheadLaw(p, q) && r.kind != ACK && Genuine(p, r) && r.seqNo > q.conn.recvNext
    ensures AheadLaw(p, q.(conn := S.Hold(q.conn, r).0))
  {
    if r.seqNo !in q.conn.recvAhead {
      HeldAdd(q.conn.recvAhead, r.seqNo, r);
    }
  }

  lemma HoldKeeps(p: End, q: End, r: Record)
    requires Direction(p, q) && Direction(q, p)
    requires r.kind != ACK && Genuine(p, r) && r.seqNo > q.conn.recvNext
    ensures var q' := q.(conn := S.Hold(q.conn, r).0); Direction(p, q') && Direction(q', p)
  {
    var q' := q.(conn := S.Hold(q.conn, r).0);
    HoldKeepsAhead(p, q, r);
    SenderFrame(q, q', p);
  }

  lemma ApplyDataKeeps(p: End, q: End, r: Record, now: int)
    requires Direction(p, q) && Direction(q, p) && r.kind != ACK && Genuine(p, r)
    ensures var q' := q.(conn := S.ApplyRecord(q.conn, r, now).0); Direction(p, q') && Direction(q', p)
  {
    if r.seqNo < q.conn.recvNext {
    } else if r.seqNo > q.conn.recvNext {
      HoldKeeps(p, q, r);
    } else {
      AcceptKeeps(p, q, r);
    }
  }

  lemma ApplyAckKeeps(p: End, q: End, r: Record, now: int)
    requires Direction(p, q) && Direction(q, p) && r in p.emitted && r.kind == ACK
    ensures var q' := q.(conn := S.ApplyRecord(q.conn, r, now).0); Direction(p, q') && Direction(q', p)
  {
    AckWithinSent(q, p, r);
    TrimKeeps(q, p, r.seqNo, now);
  }

  lemma ApplyKeeps(p: End, q: End, r: Record, now: int, closeOnError: bool)
    requires Direction(p, q) && Direction(q, p) && r in p.emitted
    ensures Direction(p, ApplyEnd(q, r, now, closeOnError)) && Direction(ApplyEnd(q, r, now, closeOnError), p)
  {
    var q1 := q.(conn := S.ApplyRecord(q.conn, r, now).0);
    if r.kind == ACK {
      ApplyAckKeeps(p, q, r, now);
    } else {
      ApplyDataKeeps(p, q, r, now);
    }
    var q2 := ApplyEnd(q, r, now, closeOnError);
    SenderFrame(q1, q2, p);
    ReceiverFrame(p, q1, q2);
  }

  lemma ReadKeeps(p: End, q: End)
    requires Direction(p, q) && Direction(q, p) && q.conn.recvQueue != []
    ensures Direction(p, ReadEnd(q)) && Direction(ReadEnd(q), p)
  {
    var queue := q.conn.recvQueue;
    assert Messages(queue) == [Message(queue[0].kind, queue[0].payload)] + Messages(queue[1..]);
  }

  // A claim moves only the download schedule and takes frames from the queue.
  lemma ClaimParts(c: S.Conn, pipelined: bool, force: bool, now: int)
    ensures var (c', claim) := S.ClaimDownload(c, pipelined, force, now);
      && c' == c.(downDispatched := c'.downDispatched, downStallSince := c'.downStallSince, downAckSent := c'.downAckSent)
      && (claim.Batch? ==> forall r <- claim.frames :: r in c.sendFrames)
  {
    AfterIsPart(c.sendFrames, if pipelined then S.Rewind(c, now).downDispatched else 0);
  }

  lemma DownloadKeeps(p: End, q: End, pipelined: bool, force: bool, now: int)
    requires Direction(p, q) && Direction(q, p)
    ensures Direction(DownloadEnd(p, pipelined, force, now), q) && Direction(q, DownloadEnd(p, pipelined, force, now))
  {
    var (c, claim) := S.ClaimDownload(p.conn, pipelined, force, now);
    ClaimParts(p.conn, pipelined, force, now);
    var p0 := p.(conn := c);
    SenderFrame(p, p0, q);
    ReceiverFrame(q, p, p0);
    if claim.Batch? {
      EmitKeeps(p0, q, claim.frames);
    }
  }

  lemma StepEndKeeps(p: End, q: End, t: Step, n: Pair)
    requires Direction(p, q) && Direction(q, p)
    requires p == At(n, t.side) && q == At(n, Other(t.side)) && Enabled(n, t)
    ensures Direction(StepEnd(p, t), q) && Direction(q, StepEnd(p, t))
  {
    match t
    case Write(_, kind, payload) => WriteKeeps(p, q, kind, payload);
    case Close(_, payload) => CloseKeeps(p, q, payload);
    case Terminate(_) =>
    case Upload(_, first, limit) =>
      FramesFromIsPart(p.conn.sendFrames, first, limit);
      EmitKeeps(p, q, S.FramesFrom(p.conn.sendFrames, first, limit));
    case Download(_, pipelined, force, now) => DownloadKeeps(p, q, pipelined, force, now);
    case Snapshot(_, after) =>
      AfterIsPart(p.conn.sendFrames, after);
      EmitKeeps(p, q, S.After(p.conn.sendFrames, after));
    case Poll(_) => EmitKeeps(p, q, []);
    case Apply(_, record, now, closeOnError) => ApplyKeeps(q, p, record, now, closeOnError);
    case PollAck(_, ack, now) =>
      AckWithinSent(p, q, Record(ACK, ack, []));
      TrimKeeps(p, q, ack, now);
    case Read(_) => ReadKeeps(q, p);
  }

  lemma StepKeeps(n: Pair, t: Step)
    requires Inv(n) && Enabled(n, t)
    ensures Inv(Do(n, t))
  {
    StepEndKeeps(At(n, t.side), At(n, Other(t.side)), t, n);
  }

  // In every run, what each side has handed out and has ready is a prefix of what
  // the other accepted, each message once and in order; no record the peer lacks
  // has been discarded; and the reorder map is part of the peer's send queue.
  lemma {:induction false} PairSafety(n: Pair, steps: seq<Step>)
    requires Inv(n) && Run(n, steps)
    ensures Inv(Final(n, steps))
    ensures forall s: Side ::
      var p, q := At(Final(n, steps), s), At(Final(n, steps), Other(s));
      StreamLaw(p, q) && SubmapOf(q.conn.recvAhead, p.conn.sendFrames) && q.conn.recvAheadBytes <= p.conn.sendBytes
    decreases |steps|
  {
    if steps == [] {
      forall s: Side
        ensures var p, q := At(n, s), At(n, Other(s));
          SubmapOf(q.conn.recvAhead, p.conn.sendFrames) && q.conn.recvAheadBytes <= p.conn.sendBytes
      {
        AheadWithinSendBuffer(At(n, s), At(n, Other(s)));
      }
    } else {
      StepKeeps(n, steps[0]);
      PairSafety(Do(n, steps[0]), steps[1..]);
    }
  }

  lemma InitialInv()
    ensures Inv(INIT)
  {
  }

  // The abstract queue of one direction: a message is accepted at its tail, or
  // the oldest one not yet handed out is handed out, or nothing happens.
  ghost predicate FifoStep(accepted: seq<Message>, handed: seq<Message>, accepted': seq<Message>, handed': seq<Message>) {
    || (accepted' == accepted && handed' == handed)
    || (handed' == handed && exists m :: accepted' == accepted + [m])
    || (accepted' == accepted && |handed| < |accepted| && handed' == handed + [accepted[|handed|]])
  }

  lemma ReadHandsNext(p: End, q: End)
    requires Direction(p, q) && q.conn.recvQueue != []
    ensures |q.handed| < |p.accepted| && ReadEnd(q).handed == q.handed + [p.accepted[|q.handed|]]
  {
    var queue := q.conn.recvQueue;
    assert (q.handed + Messages(queue))[|q.handed|] == Messages(queue)[0];
  }

  lemma StepRefinesFifo(n: Pair, t: Step, s: Side)
    requires Inv(n) && Enabled(n, t)
    ensures FifoStep(At(n, s).accepted, At(n, Other(s)).handed, At(Do(n, t), s).accepted, At(Do(n, t), Other(s)).handed)
  {
    if t.Read? && t.side == Other(s) {
      ReadHandsNext(At(n, s), At(n, Other(s)));
    }
  }

  // When a receiver refuses

  // A record ahead of its turn and not yet held.
  predicate NewlyAhead(c: S.Conn, r: Record) {
    r.kind != ACK && r.seqNo > c.recvNext && r.seqNo !in c.recvAhead
  }

  lemma NewAheadFits(p: End, q: End, r: Record)
    requires Direction(p, q) && r in p.emitted && NewlyAhead(q.conn, r)
    ensures q.conn.recvAheadBytes + |r.payload| <= p.conn.sendBytes
  {
    var m := q.conn.recvAhead[r.seqNo := r];
    var n, held := |p.accepted|, |p.conn.sendFrames|;
    forall k | k in m
      ensures k == m[k].seqNo && m[k] in p.conn.sendFrames
    {
      assert p.conn.sendFrames[k - 1 - (n - held)] == Numbered(p.accepted, k);
    }
    SubmapBytes(m, p.conn.sendFrames);
    HeldAdd(q.conn.recvAhead, r.seqNo, r);
  }

  // No peer's record is ever an acknowledgement of the unsent or of an unknown
  // kind, and the only refusal is of a record too far ahead. While the sender's
  // queue is within its byte limit, as it always is before a close and is after one
  // that was queued with room, the byte limit never causes a refusal: it happens
  // exactly when the reorder map already holds its full number of records.
  lemma OutcomeLaw(p: End, q: End, r: Record, now: int)
    requires Direction(p, q) && Direction(q, p) && r in p.emitted
    ensures var outcome := S.ApplyRecord(q.conn, r, now).1;
      && (outcome == S.Applied || outcome == S.TooFar)
      && (outcome == S.TooFar ==> NewlyAhead(q.conn, r))
      && (!p.conn.closing ==> p.conn.sendBytes <= S.MAX_BUFFERED)
      && (p.conn.sendBytes <= S.MAX_BUFFERED ==>
           (outcome == S.TooFar <==> NewlyAhead(q.conn, r) && |q.conn.recvAhead| >= S.REORDER_LIMIT))
  {
    if r.kind == ACK {
      AckWithinSent(q, p, r);
    } else if NewlyAhead(q.conn, r) {
      NewAheadFits(p, q, r);
    }
  }
}
