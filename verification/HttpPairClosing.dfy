// A close ends what an HTTP-stream end sends: in every run nothing is accepted
// after it but another close, and the peer hands nothing else out after it.
module HttpPairClosing {
  import opened Prelude
  import opened HttpRecord
  import opened HttpPair
  import S = HttpStream
  import Safety = HttpPairSafety

  // Only closes follow a close.
  predicate CloseLast(ms: seq<Message>) {
    forall i, j :: 0 <= i <= j < |ms| && ms[i].kind == CLOSE ==> ms[j].kind == CLOSE
  }

  predicate HasClose(ms: seq<Message>) {
    exists i :: 0 <= i < |ms| && ms[i].kind == CLOSE
  }

  // The closing flag says exactly that a close has been accepted.
  predicate ClosingLaw(e: End) {
    CloseLast(e.accepted) && (e.conn.closing <==> HasClose(e.accepted))
  }

  predicate BothLaws(n: Pair) {
    ClosingLaw(n.client) && ClosingLaw(n.relay)
  }

  // A write is taken exactly while neither a close has been accepted nor the
  // connection has ended; it waits exactly while 8 MiB would be exceeded.
  lemma WriteAct(n: Pair, t: Step)
    requires BothLaws(n) && t.Write? && Enabled(n, t)
    ensures var e, e' := At(n, t.side), At(Do(n, t), t.side);
      && (e.conn.closed || e.conn.sendBytes + |t.payload| <= 8388608)
      && (if e.conn.closed || HasClose(e.accepted) then e' == e
          else e'.accepted == e.accepted + [Message(t.kind, t.payload)]
               && e'.conn.sendFrames == e.conn.sendFrames + [Record(t.kind, e.conn.nextSend, t.payload)]
               && !e'.conn.closing && !e'.conn.closed)
  {
  }

  // A close is taken until the connection has ended, whatever the buffer holds.
  lemma CloseAct(n: Pair, t: Step)
    requires t.Close? && Enabled(n, t)
    ensures var e, e' := At(n, t.side), At(Do(n, t), t.side);
      if e.conn.closed then e' == e
      else e'.accepted == e.accepted + [Message(CLOSE, t.payload)]
           && e'.conn.sendFrames == e.conn.sendFrames + [Record(CLOSE, e.conn.nextSend, t.payload)]
           && e'.conn.closing && !e'.conn.closed
  {
  }

  lemma TrimLeaves(c: S.Conn, ack: u64, now: int)
    ensures S.Trim(c, ack, now).closing == c.closing && S.Trim(c, ack, now).closed == c.closed
  {
  }

  lemma {:induction false} AcceptLeaves(c: S.Conn, r: Record)
    ensures S.Accept(c, r).closing == c.closing && S.Accept(c, r).closed == c.closed
    decreases |c.recvAhead|
  {
    var c1 := c.(recvNext := Add64(c.recvNext, 1), recvQueue := c.recvQueue + [r]);
    if c1.recvNext in c1.recvAhead {
      S.RemoveShrinks(c1.recvAhead, c1.recvNext);
      var next := c1.recvAhead[c1.recvNext];
      AcceptLeaves(c1.(recvAhead := c1.recvAhead - {c1.recvNext}, recvAheadBytes := c1.recvAheadBytes - |next.payload|), next);
    }
  }

  // A record its receiver has no room for.
  predicate Refused(c: S.Conn, r: Record) {
    && Safety.NewlyAhead(c, r)
    && (|c.recvAhead| >= 4096 || c.recvAheadBytes + |r.payload| > 8388608)
  }

  lemma ApplyRefuses(p: End, q: End, r: Record, now: int)
    requires Direction(p, q) && Direction(q, p) && r in p.emitted
    ensures var (c, outcome) := S.ApplyRecord(q.conn, r, now);
      c.closing == q.conn.closing && c.closed == q.conn.closed && (outcome != S.Applied <==> Refused(q.conn, r))
  {
    Safety.OutcomeLaw(p, q, r, now);
    if r.kind == ACK {
      TrimLeaves(q.conn, r.seqNo, now);
    } else if r.seqNo == q.conn.recvNext {
      AcceptLeaves(q.conn, r);
    }
  }

  predicate Ends(e: End, t: Step) {
    t.Terminate? || (t.Apply? && t.closeOnError && Refused(e.conn, t.record))
  }

  lemma ApplyEndsBy(n: Pair, t: Step)
    requires Inv(n) && t.Apply? && Enabled(n, t)
    ensures var e, e' := At(n, t.side), At(Do(n, t), t.side);
      && (e'.conn.closed <==> e.conn.closed || Ends(e, t))
      && e'.accepted == e.accepted && e'.conn.closing == e.conn.closing
  {
    ApplyRefuses(At(n, Other(t.side)), At(n, t.side), t.record, t.now);
  }

  lemma OthersEndBy(e: End, t: Step)
    requires !t.Apply? && (t.Read? ==> e.conn.recvQueue != [])
    ensures var e' := StepEnd(e, t);
      && (e'.conn.closed <==> e.conn.closed || t.Terminate?)
      && (!t.Write? && !t.Close? ==> e'.accepted == e.accepted && e'.conn.closing == e.conn.closing)
  {
    match t
    case PollAck(_, ack, now) => TrimLeaves(e.conn, ack, now);
    case Download(_, pipelined, force, now) => Safety.ClaimParts(e.conn, pipelined, force, now);
    case _ =>
  }

  // A connection ends when it is terminated, or by a record refused on a path
  // that closes it, and in no other way; no other step touches what was accepted.
  lemma EndsOnlyBy(n: Pair, t: Step)
    requires Inv(n) && Enabled(n, t)
    ensures var e, e' := At(n, t.side), At(Do(n, t), t.side);
      && (e'.conn.closed <==> e.conn.closed || Ends(e, t))
      && (!t.Write? && !t.Close? ==> e'.accepted == e.accepted && e'.conn.closing == e.conn.closing)
      && At(Do(n, t), Other(t.side)) == At(n, Other(t.side))
  {
    if t.Apply? {
      ApplyEndsBy(n, t);
    } else {
      OthersEndBy(At(n, t.side), t);
    }
  }

  lemma StepKeepsClosing(n: Pair, t: Step)
    requires Inv(n) && BothLaws(n) && Enabled(n, t)
    ensures BothLaws(Do(n, t))
  {
    var e, e' := At(n, t.side), At(Do(n, t), t.side);
    EndsOnlyBy(n, t);
    if t.Write? {
      WriteAct(n, t);
    } else if t.Close? {
      CloseAct(n, t);
      if !e.conn.closed {
        assert e'.accepted[|e.accepted|].kind == CLOSE;
      }
    }
  }

  // A prefix keeps the order of closes.
  lemma PrefixKeeps(ms: seq<Message>, k: nat)
    requires CloseLast(ms) && k <= |ms|
    ensures CloseLast(ms[..k])
  {
  }

  // In every run from the start, and at each end, nothing is accepted after a
  // close but another close, nothing else is handed out after one, and the end is
  // closing exactly when it has accepted one.
  lemma {:induction false} ClosingSafety(n: Pair, steps: seq<Step>)
    requires Inv(n) && BothLaws(n) && Run(n, steps)
    ensures Inv(Final(n, steps)) && BothLaws(Final(n, steps))
    ensures forall s: Side :: CloseLast(At(Final(n, steps), s).handed)
    decreases |steps|
  {
    if steps == [] {
      forall s: Side
        ensures CloseLast(At(n, s).handed)
      {
        HandedCloseLast(At(n, Other(s)), At(n, s));
      }
    } else {
      StepKeepsClosing(n, steps[0]);
      Safety.StepKeeps(n, steps[0]);
      ClosingSafety(Do(n, steps[0]), steps[1..]);
    }
  }

  lemma HandedCloseLast(p: End, q: End)
    requires StreamLaw(p, q) && CloseLast(p.accepted)
    ensures CloseLast(q.handed)
  {
    PrefixKeeps(p.accepted, q.conn.recvNext - 1);
    assert q.handed == p.accepted[..q.conn.recvNext - 1][..|q.handed|];
    PrefixKeeps(p.accepted[..q.conn.recvNext - 1], |q.handed|);
  }

  lemma InitialClosing()
    ensures Inv(INIT) && BothLaws(INIT)
  {
  }

  // What a step offers to a side's queue.
  function Offer(t: Step, s: Side): Option<Message> {
    if t.side != s then None
    else if t.Write? then Some(Message(t.kind, t.payload))
    else if t.Close? then Some(Message(CLOSE, t.payload))
    else None
  }

  // The messages a side's writes and closes offer in a run, and those of them
  // that come before any close or are closes.
  function Offered(steps: seq<Step>, s: Side, closing: bool): seq<Message> {
    if steps == [] then []
    else
      var m := Offer(steps[0], s);
      if m.None? then Offered(steps[1..], s, closing)
      else if m.value.kind == CLOSE then [m.value] + Offered(steps[1..], s, true)
      else if closing then Offered(steps[1..], s, true)
      else [m.value] + Offered(steps[1..], s, false)
  }

  // Taking an offer: a queue and its closing flag before and after.
  predicate Takes(m: Option<Message>, acc: seq<Message>, closing: bool, acc': seq<Message>, closing': bool) {
    if m.None? || (closing && m.value.kind != CLOSE) then acc' == acc && closing' == closing
    else acc' == acc + [m.value] && closing' == (closing || m.value.kind == CLOSE)
  }

  lemma OfferTaken(n: Pair, t: Step, s: Side)
    requires Inv(n) && BothLaws(n) && Enabled(n, t) && !At(n, s).conn.closed
    ensures var e, e' := At(n, s), At(Do(n, t), s);
      Takes(Offer(t, s), e.accepted, e.conn.closing, e'.accepted, e'.conn.closing)
  {
    EndsOnlyBy(n, t);
    if t.Write? {
      WriteAct(n, t);
    } else if t.Close? {
      CloseAct(n, t);
    }
  }

  lemma OfferedStep(steps: seq<Step>, s: Side, acc: seq<Message>, closing: bool, acc': seq<Message>, closing': bool)
    requires steps != [] && Takes(Offer(steps[0], s), acc, closing, acc', closing')
    ensures acc' + Offered(steps[1..], s, closing') == acc + Offered(steps, s, closing)
  {
    var m, rest := Offer(steps[0], s), Offered(steps[1..], s, closing');
    if m.Some? && acc' != acc {
      assert acc + [m.value] + rest == acc + ([m.value] + rest);
    }
  }

  lemma StepLaws(n: Pair, t: Step, s: Side)
    requires Inv(n) && BothLaws(n) && Enabled(n, t)
    ensures Inv(Do(n, t)) && BothLaws(Do(n, t))
    ensures At(n, s).conn.closed ==> At(Do(n, t), s).conn.closed
  {
    StepKeepsClosing(n, t);
    Safety.StepKeeps(n, t);
    EndsOnlyBy(n, t);
  }

  // In every run, an end that has not been closed for good has accepted exactly
  // the messages offered before its first close, and after it the closes alone.
  lemma {:induction false} AcceptedExactly(n: Pair, steps: seq<Step>, s: Side)
    requires Inv(n) && BothLaws(n) && Run(n, steps) && !At(Final(n, steps), s).conn.closed
    ensures !At(n, s).conn.closed
    ensures At(Final(n, steps), s).accepted == At(n, s).accepted + Offered(steps, s, At(n, s).conn.closing)
    decreases |steps|
  {
    if steps == [] {
      assert At(n, s).accepted + [] == At(n, s).accepted;
    } else {
      var n' := Do(n, steps[0]);
      StepLaws(n, steps[0], s);
      AcceptedExactly(n', steps[1..], s);
      OfferTaken(n, steps[0], s);
      OfferedStep(steps, s, At(n, s).accepted, At(n, s).conn.closing, At(n', s).accepted, At(n', s).conn.closing);
    }
  }
}
