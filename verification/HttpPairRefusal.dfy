// When a receiver can refuse a record of its peer: exactly when what the sender has
// outstanding beyond the record the receiver waits for is more, in number or in
// bytes, than a reorder map may hold.
module HttpPairRefusal {
  import opened Prelude
  import opened HttpRecord
  import opened HttpPair
  import opened HttpPairDrain
  import S = HttpStream
  import Safety = HttpPairSafety

  // The records numbered above r.
  function RecordsAbove(accepted: seq<Message>, r: nat): (rs: seq<Record>)
    requires |accepted| < U64
    ensures |rs| == Max(|accepted| - r, 0)
    ensures forall i :: 0 <= i < |rs| ==> rs[i] == Numbered(accepted, r + i + 1)
  {
    seq(Max(|accepted| - r, 0), i requires 0 <= i < Max(|accepted| - r, 0) => Numbered(accepted, r + i + 1))
  }

  // What q may have to hold until the record it waits for arrives.
  function Ahead(p: End, q: End): seq<Record>
    requires |p.accepted| < U64
  {
    RecordsAbove(p.accepted, q.conn.recvNext)
  }

  predicate TooMuch(rs: seq<Record>) {
    |rs| > S.REORDER_LIMIT || S.SumBytes(rs) > S.MAX_BUFFERED
  }

  // The receiver's own limits, which every step keeps.
  predicate WithinLimits(c: S.Conn) {
    |c.recvAhead| <= S.REORDER_LIMIT && c.recvAheadBytes <= S.MAX_BUFFERED
  }

  lemma {:induction false} AcceptShrinks(c: S.Conn, r: Record)
    ensures var c' := S.Accept(c, r); |c'.recvAhead| <= |c.recvAhead| && c'.recvAheadBytes <= c.recvAheadBytes
    decreases |c.recvAhead|
  {
    var c' := c.(recvNext := Add64(c.recvNext, 1), recvQueue := c.recvQueue + [r]);
    if c'.recvNext in c'.recvAhead {
      S.RemoveShrinks(c'.recvAhead, c'.recvNext);
      var next := c'.recvAhead[c'.recvNext];
      AcceptShrinks(c'.(recvAhead := c'.recvAhead - {c'.recvNext}, recvAheadBytes := c'.recvAheadBytes - |next.payload|), next);
    }
  }

  lemma HoldKeepsLimits(c: S.Conn, r: Record)
    requires WithinLimits(c)
    ensures WithinLimits(S.Hold(c, r).0)
  {
  }

  lemma ApplyKeepsLimits(c: S.Conn, r: Record, now: int)
    requires WithinLimits(c)
    ensures WithinLimits(S.ApplyRecord(c, r, now).0)
  {
    AcceptShrinks(c, r);
    HoldKeepsLimits(c, r);
  }

  lemma StepKeepsLimits(n: Pair, t: Step, s: Side)
    requires Enabled(n, t) && WithinLimits(At(n, s).conn)
    ensures WithinLimits(At(Do(n, t), s).conn)
  {
    if t.side == s {
      match t
      case Apply(_, r, now, _) => ApplyKeepsLimits(At(n, s).conn, r, now);
      case Download(_, pipelined, force, now) => Safety.ClaimParts(At(n, s).conn, pipelined, force, now);
      case _ =>
    }
  }

  lemma {:induction false} RunKeepsLimits(n: Pair, steps: seq<Step>, s: Side)
    requires Run(n, steps) && WithinLimits(At(n, s).conn)
    ensures WithinLimits(At(Final(n, steps), s).conn)
    decreases |steps|
  {
    if steps != [] {
      StepKeepsLimits(n, steps[0], s);
      RunKeepsLimits(Do(n, steps[0]), steps[1..], s);
    }
  }

  // A map whose records all lie in an ascending sequence is no larger than it.

  lemma {:induction false} SubmapSize(m: map<u64, Record>, frames: seq<Record>)
    requires Safety.Ascending(frames) && Safety.SubmapOf(m, frames)
    ensures |m| <= |frames|
    decreases |frames|
  {
    if frames == [] {
      assert m == map[];
    } else {
      var k := frames[0].seqNo;
      if k in m {
        S.RemoveShrinks(m, k);
        SubmapRest(m - {k}, frames);
        SubmapSize(m - {k}, frames[1..]);
      } else {
        SubmapRest(m, frames);
        SubmapSize(m, frames[1..]);
      }
    }
  }

  lemma SubmapRest(m: map<u64, Record>, frames: seq<Record>)
    requires frames != [] && Safety.SubmapOf(m, frames) && frames[0].seqNo !in m
    ensures Safety.SubmapOf(m, frames[1..])
  {
    forall j | j in m
      ensures m[j] in frames[1..]
    {
      assert frames == [frames[0]] + frames[1..];
    }
  }

  // One that has them all is no smaller.

  ghost predicate HasAll(m: map<u64, Record>, frames: seq<Record>) {
    forall i :: 0 <= i < |frames| ==> frames[i].seqNo in m && m[frames[i].seqNo] == frames[i]
  }

  lemma {:induction false} SupermapSize(m: map<u64, Record>, frames: seq<Record>)
    requires Safety.Ascending(frames) && HasAll(m, frames)
    ensures |m| >= |frames| && HeldBytes(m) >= S.SumBytes(frames)
    decreases |frames|
  {
    if frames != [] {
      var k := frames[0].seqNo;
      S.RemoveShrinks(m, k);
      Safety.HeldRemove(m, k);
      assert HasAll(m - {k}, frames[1..]);
      SupermapSize(m - {k}, frames[1..]);
    }
  }

  // Refusal needs too much outstanding

  lemma AboveAscends(accepted: seq<Message>, r: nat)
    requires |accepted| < U64
    ensures Safety.Ascending(RecordsAbove(accepted, r))
  {
  }

  lemma InAbove(accepted: seq<Message>, r: nat, k: u64)
    requires |accepted| < U64 && r < k <= |accepted|
    ensures Numbered(accepted, k) in RecordsAbove(accepted, r)
  {
    assert RecordsAbove(accepted, r)[k - r - 1] == Numbered(accepted, k);
  }

  // The held records and one more, all of them ahead.
  lemma HeldIsAhead(p: End, q: End, r: Record)
    requires Direction(p, q) && r in p.emitted && Safety.NewlyAhead(q.conn, r)
    ensures Safety.SubmapOf(q.conn.recvAhead[r.seqNo := r], Ahead(p, q))
  {
    var m := q.conn.recvAhead[r.seqNo := r];
    forall k | k in m
      ensures k == m[k].seqNo && m[k] in Ahead(p, q)
    {
      InAbove(p.accepted, q.conn.recvNext, k);
    }
  }

  lemma RefusedIsTooMuch(p: End, q: End, r: Record, now: int)
    requires Direction(p, q) && Direction(q, p) && r in p.emitted
    ensures S.ApplyRecord(q.conn, r, now).1 == S.TooFar ==> TooMuch(Ahead(p, q))
  {
    Safety.OutcomeLaw(p, q, r, now);
    if S.ApplyRecord(q.conn, r, now).1 == S.TooFar {
      HeldIsAhead(p, q, r);
      AboveAscends(p.accepted, q.conn.recvNext);
      SubmapSize(q.conn.recvAhead[r.seqNo := r], Ahead(p, q));
      Safety.SubmapBytes(q.conn.recvAhead[r.seqNo := r], Ahead(p, q));
      Safety.HeldAdd(q.conn.recvAhead, r.seqNo, r);
    }
  }

  // Finishing leaves no more ahead than there was

  lemma ApplyAdvances(p: End, q: End, r: Record, now: int)
    requires Direction(p, q) && r in p.emitted
    ensures S.ApplyRecord(q.conn, r, now).0.recvNext >= q.conn.recvNext
  {
    if r.kind != ACK && r.seqNo == q.conn.recvNext {
      Safety.DirectionReceives(p, q);
      Safety.AcceptReceives(p.accepted, q.conn, q.handed);
    }
  }

  lemma StepNarrows(n: Pair, t: Step, s: Side)
    requires Inv(n) && Enabled(n, t) && Finishing(t)
    ensures At(Do(n, t), s).accepted == At(n, s).accepted
    ensures At(Do(n, t), s).conn.recvNext >= At(n, s).conn.recvNext
  {
    match t
    case Apply(side, r, now, _) =>
      if side == s {
        ApplyAdvances(At(n, Other(s)), At(n, s), r, now);
      }
    case Download(_, pipelined, force, now) => Safety.ClaimParts(At(n, t.side).conn, pipelined, force, now);
    case _ =>
  }

  lemma {:induction false} RunNarrows(n: Pair, steps: seq<Step>, s: Side)
    requires Inv(n) && Run(n, steps) && forall t <- steps :: Finishing(t)
    ensures Inv(Final(n, steps)) && At(Final(n, steps), s).accepted == At(n, s).accepted
    ensures At(Final(n, steps), s).conn.recvNext >= At(n, s).conn.recvNext
    decreases |steps|
  {
    if steps != [] {
      Safety.StepKeeps(n, steps[0]);
      StepNarrows(n, steps[0], s);
      RunNarrows(Do(n, steps[0]), steps[1..], s);
    }
  }

  lemma TooMuchEarlier(accepted: seq<Message>, r: nat, r': nat)
    requires |accepted| < U64 && r <= r' && TooMuch(RecordsAbove(accepted, r'))
    ensures TooMuch(RecordsAbove(accepted, r))
  {
    var all, some := RecordsAbove(accepted, r), RecordsAbove(accepted, r');
    var k := |all| - |some|;
    assert all == all[..k] + some;
    Safety.SumAppend(all[..k], some);
  }

  // Too much ahead leads to refusal

  // Steps that leave both ends open with a record on its way that will be refused.
  ghost predicate RefusesAfter(n: Pair, s: Side, steps: seq<Step>) {
    && Run(n, steps) && (forall t <- steps :: Finishing(t))
    && var f := Final(n, steps);
       && BothOpen(f)
       && exists r :: r in At(f, s).emitted && S.ApplyRecord(At(f, Other(s)).conn, r, 0).1 == S.TooFar
  }

  predicate BothOpen(n: Pair) {
    !n.client.conn.closed && !n.relay.conn.closed
  }

  lemma RefusesAfterStep(n: Pair, s: Side, t: Step, steps: seq<Step>)
    requires Enabled(n, t) && Finishing(t) && RefusesAfter(Do(n, t), s, steps)
    ensures RefusesAfter(n, s, [t] + steps)
  {
    RunOne(n, t, steps);
  }

  lemma RefusesNow(n: Pair, s: Side, r: Record)
    requires BothOpen(n) && r in At(n, s).emitted && S.ApplyRecord(At(n, Other(s)).conn, r, 0).1 == S.TooFar
    ensures RefusesAfter(n, s, [])
  {
  }

  // What is ahead is the end of the send queue, the first of which is not ahead.
  lemma AheadIsQueued(p: End, q: End)
    requires Direction(p, q)
    ensures var frames, ahead := p.conn.sendFrames, Ahead(p, q);
      && |ahead| <= |frames| && frames[|frames| - |ahead|..] == ahead
      && (frames != [] ==> |ahead| < |frames|)
  {
  }

  // A record ahead is held or refused.
  lemma AheadIsHold(p: End, q: End, i: nat)
    requires Direction(p, q) && i < |Ahead(p, q)|
    ensures var r := Ahead(p, q)[i];
      && S.ApplyRecord(q.conn, r, 0) == S.Hold(q.conn, r)
      && (r.seqNo in q.conn.recvAhead ==> q.conn.recvAhead[r.seqNo] == r)
  {
    var r := Ahead(p, q)[i];
    assert r == Numbered(p.accepted, q.conn.recvNext + i + 1);
    assert Message(r.kind, r.payload) in p.accepted;
  }

  lemma HoldHas(c: S.Conn, r: Record)
    requires r.seqNo in c.recvAhead ==> c.recvAhead[r.seqNo] == r
    ensures var (c', outcome) := S.Hold(c, r);
      outcome != S.TooFar ==>
        && outcome == S.Applied && c' == c.(recvAhead := c'.recvAhead, recvAheadBytes := c'.recvAheadBytes)
        && c'.recvAhead == c.recvAhead[r.seqNo := r]
  {
    assert r.seqNo in c.recvAhead ==> c.recvAhead[r.seqNo := r] == c.recvAhead;
  }

  lemma HasOneMore(m: map<u64, Record>, frames: seq<Record>, i: nat)
    requires Safety.Ascending(frames) && i < |frames| && HasAll(m, frames[..i])
    ensures HasAll(m[frames[i].seqNo := frames[i]], frames[..i + 1])
  {
    forall j | 0 <= j < i + 1
      ensures frames[j].seqNo in m[frames[i].seqNo := frames[i]] && m[frames[i].seqNo := frames[i]][frames[j].seqNo] == frames[j]
    {
      assert j < i ==> frames[..i][j] == frames[j];
    }
  }

  ghost function AheadOf(n: Pair, s: Side): seq<Record>
    requires Inv(n)
  {
    Ahead(At(n, s), At(n, Other(s)))
  }

  // The receiver holds the first i records ahead of it.
  ghost predicate Filled(n: Pair, s: Side, i: nat) {
    && Inv(n) && BothOpen(n) && WithinLimits(At(n, Other(s)).conn)
    && i <= |AheadOf(n, s)| && HasAll(At(n, Other(s)).conn.recvAhead, AheadOf(n, s)[..i])
  }

  // It cannot come to hold them all when they are too much.
  lemma NotAllHeld(n: Pair, s: Side)
    requires Inv(n) && Filled(n, s, |AheadOf(n, s)|)
    ensures !TooMuch(AheadOf(n, s))
  {
    var p, q, ahead := At(n, s), At(n, Other(s)), AheadOf(n, s);
    assert ahead[..|ahead|] == ahead;
    AboveAscends(p.accepted, q.conn.recvNext);
    SupermapSize(q.conn.recvAhead, ahead);
  }

  lemma CarryFilled(n: Pair, s: Side, i: nat) returns (t: Step)
    requires Filled(n, s, i) && i < |AheadOf(n, s)|
    ensures Enabled(n, t) && Finishing(t) && Filled(Do(n, t), s, i)
    ensures AheadOf(Do(n, t), s) == AheadOf(n, s) && AheadOf(n, s)[i] in At(Do(n, t), s).emitted
  {
    var frames, ahead := At(n, s).conn.sendFrames, AheadOf(n, s);
    AheadIsQueued(At(n, s), At(n, Other(s)));
    var j := |frames| - |ahead| + i;
    assert frames[|frames| - |ahead|..][i] == frames[j];
    t := Carry(n, s, j);
    CarryEmits(n, s, j);
    Safety.StepKeeps(n, t);
  }

  lemma HeldIsOneMore(p: End, q: End, i: nat)
    requires Direction(p, q) && i < |Ahead(p, q)| && HasAll(q.conn.recvAhead, Ahead(p, q)[..i])
    requires S.ApplyRecord(q.conn, Ahead(p, q)[i], 0).1 != S.TooFar
    ensures var q' := ApplyEnd(q, Ahead(p, q)[i], 0, true);
      && q'.conn.recvNext == q.conn.recvNext && q'.conn.closed == q.conn.closed
      && HasAll(q'.conn.recvAhead, Ahead(p, q)[..i + 1])
  {
    AheadIsHold(p, q, i);
    HoldHas(q.conn, Ahead(p, q)[i]);
    AboveAscends(p.accepted, q.conn.recvNext);
    HasOneMore(q.conn.recvAhead, Ahead(p, q), i);
  }

  lemma HeldFills(n: Pair, s: Side, i: nat, t: Step)
    requires Filled(n, s, i) && i < |AheadOf(n, s)| && AheadOf(n, s)[i] in At(n, s).emitted
    requires S.ApplyRecord(At(n, Other(s)).conn, AheadOf(n, s)[i], 0).1 != S.TooFar
    requires t == Apply(Other(s), AheadOf(n, s)[i], 0, true)
    ensures Filled(Do(n, t), s, i + 1) && AheadOf(Do(n, t), s) == AheadOf(n, s)
  {
    Safety.StepKeeps(n, t);
    StepKeepsLimits(n, t, Other(s));
    HeldIsOneMore(At(n, s), At(n, Other(s)), i);
  }

  lemma {:induction false} FillUntilRefused(n: Pair, s: Side, i: nat) returns (steps: seq<Step>)
    requires Filled(n, s, i) && TooMuch(AheadOf(n, s))
    ensures RefusesAfter(n, s, steps)
    decreases |AheadOf(n, s)| - i
  {
    if i == |AheadOf(n, s)| {
      NotAllHeld(n, s);
      assert false;
    } else {
      var r := AheadOf(n, s)[i];
      var carry := CarryFilled(n, s, i);
      var n1 := Do(n, carry);
      var rest: seq<Step> := [];
      if S.ApplyRecord(At(n1, Other(s)).conn, r, 0).1 == S.TooFar {
        RefusesNow(n1, s, r);
      } else {
        var apply := Apply(Other(s), r, 0, true);
        HeldFills(n1, s, i, apply);
        rest := FillUntilRefused(Do(n1, apply), s, i + 1);
        RefusesAfterStep(n1, s, apply, rest);
        rest := [apply] + rest;
      }
      RefusesAfterStep(n, s, carry, rest);
      steps := [carry] + rest;
    }
  }

  lemma RefusalNeedsTooMuch(n: Pair, s: Side, steps: seq<Step>)
    requires Inv(n) && RefusesAfter(n, s, steps)
    ensures TooMuch(AheadOf(n, s))
  {
    var f := Final(n, steps);
    RunNarrows(n, steps, s);
    RunNarrows(n, steps, Other(s));
    var r :| r in At(f, s).emitted && S.ApplyRecord(At(f, Other(s)).conn, r, 0).1 == S.TooFar;
    RefusedIsTooMuch(At(f, s), At(f, Other(s)), r, 0);
    TooMuchEarlier(At(n, s).accepted, At(n, Other(s)).conn.recvNext, At(f, Other(s)).conn.recvNext);
  }

  // The exact condition. With both ends open and no more written, some order of
  // requests leads to a refused record exactly when too much is outstanding beyond
  // the record the receiver waits for.
  lemma RefusedIffTooMuch(n: Pair, s: Side)
    requires Inv(n) && BothOpen(n) && WithinLimits(At(n, Other(s)).conn)
    ensures (exists steps :: RefusesAfter(n, s, steps)) <==> TooMuch(AheadOf(n, s))
  {
    if TooMuch(AheadOf(n, s)) {
      var steps := FillUntilRefused(n, s, 0);
    }
    forall steps | RefusesAfter(n, s, steps)
      ensures TooMuch(AheadOf(n, s))
    {
      RefusalNeedsTooMuch(n, s, steps);
    }
  }

  // In every run the receivers' limits hold, so the condition above is exact.
  lemma ReachedWithinLimits(steps: seq<Step>, s: Side)
    requires Run(INIT, steps)
    ensures Inv(Final(INIT, steps)) && WithinLimits(At(Final(INIT, steps), s).conn)
  {
    Safety.InitialInv();
    Safety.PairSafety(INIT, steps);
    RunKeepsLimits(INIT, steps, s);
  }

  // What the sender can tell by itself: with all but the oldest of its queue within
  // the limits nothing will be refused. No weaker rule would do, since that is what
  // is ahead of a receiver that has received no more than it has acknowledged.
  lemma SenderCanTell(n: Pair, s: Side, steps: seq<Step>)
    requires Inv(n) && At(n, s).conn.sendFrames != []
    ensures var p, q := At(n, s), At(n, Other(s));
      && (!TooMuch(p.conn.sendFrames[1..]) ==> !RefusesAfter(n, s, steps))
      && (q.conn.recvNext == p.conn.sendFrames[0].seqNo ==> Ahead(p, q) == p.conn.sendFrames[1..])
  {
    var p, q := At(n, s), At(n, Other(s));
    AheadIsQueued(p, q);
    var rest, ahead := p.conn.sendFrames[1..], Ahead(p, q);
    var k := |rest| - |ahead|;
    assert rest == rest[..k] + ahead;
    Safety.SumAppend(rest[..k], ahead);
    if RefusesAfter(n, s, steps) {
      RefusalNeedsTooMuch(n, s, steps);
    }
  }
}
