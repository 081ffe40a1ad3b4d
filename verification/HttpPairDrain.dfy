// A pair of open HTTP-stream ends can always finish: some requests and reads hand
// out everything that has been accepted, and empty the send queues.
module HttpPairDrain {
  import opened Prelude
  import opened HttpRecord
  import opened HttpPair
  import S = HttpStream
  import Safety = HttpPairSafety

  // A step that neither queues anything nor ends a connection.
  predicate Finishing(t: Step) {
    !t.Write? && !t.Close? && !t.Terminate?
  }

  // All that s accepted has been handed out at the other end and acknowledged, and
  // the other direction is as it was.
  predicate Done(n: Pair, f: Pair, s: Side) {
    && At(f, Other(s)).handed == At(f, s).accepted == At(n, s).accepted && At(f, s).conn.sendFrames == []
    && Undisturbed(n, f, s)
  }

  predicate Undisturbed(n: Pair, f: Pair, s: Side) {
    && At(f, s).accepted == At(n, s).accepted && At(f, s).handed == At(n, s).handed
    && At(f, Other(s)).accepted == At(n, Other(s)).accepted
    && At(f, Other(s)).conn.sendFrames == At(n, Other(s)).conn.sendFrames
    && At(f, s).conn.closed == At(n, s).conn.closed && At(f, Other(s)).conn.closed == At(n, Other(s)).conn.closed
  }

  ghost predicate Finishes(n: Pair, steps: seq<Step>, s: Side) {
    && Run(n, steps) && (forall t <- steps :: Finishing(t))
    && Inv(Final(n, steps)) && Done(n, Final(n, steps), s)
  }

  lemma FinishesAfter(n: Pair, t: Step, steps: seq<Step>, s: Side)
    requires Enabled(n, t) && Finishing(t) && Undisturbed(n, Do(n, t), s) && Finishes(Do(n, t), steps, s)
    ensures Finishes(n, [t] + steps, s)
  {
    assert ([t] + steps)[1..] == steps;
  }

  // Emitting

  // A batch starts with the record it is claimed from, whatever its size.
  lemma {:induction false} FromHas(frames: seq<Record>, i: nat, limit: nat)
    requires i < |frames| && forall j :: 0 <= j < i ==> frames[j].seqNo < frames[i].seqNo
    ensures frames[i] in S.FramesFrom(frames, frames[i].seqNo, limit)
    decreases i
  {
    if i > 0 {
      FromHas(frames[1..], i - 1, limit);
    }
  }

  lemma {:induction false} AfterHas(frames: seq<Record>, i: nat)
    requires i < |frames| && frames[i].seqNo > 0
    ensures frames[i] in S.After(frames, 0)
    decreases i
  {
    if i > 0 {
      AfterHas(frames[1..], i - 1);
    }
  }

  // The client puts a record into an upload, the relay into a download.
  function Carry(n: Pair, s: Side, i: nat): Step
    requires i < |At(n, s).conn.sendFrames|
  {
    if s == Client then Upload(Client, At(n, s).conn.sendFrames[i].seqNo, S.MAX_BUFFERED) else Download(Relay, false, true, 0)
  }

  lemma DownloadHas(e: End, r: Record)
    requires r in S.After(e.conn.sendFrames, 0)
    ensures var e' := DownloadEnd(e, false, true, 0);
      r in e'.emitted && e' == e.(conn := e'.conn, emitted := e'.emitted) && e'.conn.sendFrames == e.conn.sendFrames
  {
  }

  lemma CarryEmits(n: Pair, s: Side, i: nat)
    requires Inv(n) && i < |At(n, s).conn.sendFrames|
    ensures var n' := Do(n, Carry(n, s, i));
      && At(n, s).conn.sendFrames[i] in At(n', s).emitted && Undisturbed(n, n', s)
      && At(n', s).conn.sendFrames == At(n, s).conn.sendFrames && At(n', Other(s)) == At(n, Other(s))
  {
    var frames := At(n, s).conn.sendFrames;
    if s == Client {
      FromHas(frames, i, S.MAX_BUFFERED);
    } else {
      AfterHas(frames, i);
      DownloadHas(At(n, s), frames[i]);
    }
  }

  // Applying

  predicate ReceivedTo(n: Pair, s: Side, i: nat) {
    At(n, Other(s)).conn.recvNext - 1 >= |At(n, s).accepted| - |At(n, s).conn.sendFrames| + i
  }

  // A record applied in its turn, or late, is never refused.
  lemma ApplyReceives(n: Pair, s: Side, i: nat)
    requires Inv(n) && i < |At(n, s).conn.sendFrames| && ReceivedTo(n, s, i)
    requires At(n, s).conn.sendFrames[i] in At(n, s).emitted
    ensures var n' := Do(n, Apply(Other(s), At(n, s).conn.sendFrames[i], 0, true));
      ReceivedTo(n', s, i + 1) && Undisturbed(n, n', s) && At(n', s) == At(n, s)
  {
    var p, q := At(n, s), At(n, Other(s));
    var r := p.conn.sendFrames[i];
    assert r == Numbered(p.accepted, |p.accepted| - |p.conn.sendFrames| + i + 1);
    assert Message(r.kind, r.payload) in p.accepted;
    if r.seqNo == q.conn.recvNext {
      Safety.DirectionReceives(p, q);
      Safety.AcceptReceives(p.accepted, q.conn, q.handed);
    }
  }

  // Handing out and acknowledging

  lemma {:induction false} TrimsAll(frames: seq<Record>, ack: u64)
    requires forall i :: 0 <= i < |frames| ==> frames[i].seqNo <= ack
    ensures S.TrimCount(frames, ack) == |frames|
    decreases |frames|
  {
    if frames != [] {
      TrimsAll(frames[1..], ack);
    }
  }

  predicate AllOut(n: Pair, s: Side) {
    At(n, Other(s)).conn.recvNext - 1 == |At(n, s).accepted| && At(n, Other(s)).conn.recvQueue == []
  }

  // The client acknowledges in an upload, the relay in a download.
  function Acknowledge(s: Side): Step {
    if s == Client then Upload(Client, 1, S.MAX_BUFFERED) else Download(Relay, false, true, 0)
  }

  lemma Acknowledges(n: Pair, s: Side)
    requires Inv(n) && AllOut(n, s)
    ensures var n' := Do(n, Acknowledge(Other(s)));
      && Record(ACK, At(n, Other(s)).conn.recvNext - 1, []) in At(n', Other(s)).emitted
      && At(n', s) == At(n, s) && AllOut(n', s) && Undisturbed(n, n', s)
  {
  }

  lemma AllIsHanded(p: End, q: End)
    requires StreamLaw(p, q) && q.conn.recvNext - 1 == |p.accepted| && q.conn.recvQueue == []
    ensures q.handed == p.accepted
  {
    assert p.accepted[..|p.accepted|] == p.accepted;
    assert q.handed + Messages([]) == q.handed;
  }

  lemma AckEmpties(p: End, ack: u64)
    requires SendLaw(p) && ack == |p.accepted|
    ensures var p' := ApplyEnd(p, Record(ACK, ack, []), 0, true);
      p'.conn.sendFrames == [] && p'.accepted == p.accepted && p'.handed == p.handed && p'.conn.closed == p.conn.closed
  {
    TrimsAll(p.conn.sendFrames, ack);
  }

  lemma AcknowledgedIsDone(n: Pair, s: Side, ack: u64)
    requires Inv(n) && AllOut(n, s) && ack == At(n, Other(s)).conn.recvNext - 1
    requires Record(ACK, ack, []) in At(n, Other(s)).emitted
    ensures Done(n, Do(n, Apply(s, Record(ACK, ack, []), 0, true)), s)
  {
    AllIsHanded(At(n, s), At(n, Other(s)));
    AckEmpties(At(n, s), ack);
  }

  lemma AcknowledgeAll(n: Pair, s: Side) returns (steps: seq<Step>)
    requires Inv(n) && AllOut(n, s)
    ensures Finishes(n, steps, s)
  {
    var carry, ack := Acknowledge(Other(s)), Record(ACK, At(n, Other(s)).conn.recvNext - 1, []);
    var apply := Apply(s, ack, 0, true);
    Acknowledges(n, s);
    Safety.StepKeeps(n, carry);
    var n1 := Do(n, carry);
    AcknowledgedIsDone(n1, s, ack.seqNo);
    Safety.StepKeeps(n1, apply);
    LastStep(n1, apply, s);
    FinishesAfter(n, carry, [apply], s);
    steps := [carry] + [apply];
  }

  lemma LastStep(n: Pair, t: Step, s: Side)
    requires Enabled(n, t) && Finishing(t) && Inv(Do(n, t)) && Done(n, Do(n, t), s)
    ensures Finishes(n, [t], s)
  {
    assert [t][1..] == [];
    assert Run(Do(n, t), []);
  }

  lemma {:induction false} ReadOut(n: Pair, s: Side) returns (steps: seq<Step>)
    requires Inv(n) && At(n, Other(s)).conn.recvNext - 1 == |At(n, s).accepted|
    ensures Finishes(n, steps, s)
    decreases |At(n, Other(s)).conn.recvQueue|
  {
    if At(n, Other(s)).conn.recvQueue == [] {
      steps := AcknowledgeAll(n, s);
    } else {
      var read := Read(Other(s));
      Safety.StepKeeps(n, read);
      var rest := ReadOut(Do(n, read), s);
      FinishesAfter(n, read, rest, s);
      steps := [read] + rest;
    }
  }

  lemma {:induction false} DeliverFrom(n: Pair, s: Side, i: nat) returns (steps: seq<Step>)
    requires Inv(n) && i <= |At(n, s).conn.sendFrames| && ReceivedTo(n, s, i)
    ensures Finishes(n, steps, s)
    decreases |At(n, s).conn.sendFrames| - i
  {
    if i == |At(n, s).conn.sendFrames| {
      steps := ReadOut(n, s);
    } else {
      var carry, apply := Carry(n, s, i), Apply(Other(s), At(n, s).conn.sendFrames[i], 0, true);
      Safety.StepKeeps(n, carry);
      CarryEmits(n, s, i);
      var n1 := Do(n, carry);
      Safety.StepKeeps(n1, apply);
      ApplyReceives(n1, s, i);
      var rest := DeliverFrom(Do(n1, apply), s, i + 1);
      FinishesAfter(n1, apply, rest, s);
      FinishesAfter(n, carry, [apply] + rest, s);
      steps := [carry] + ([apply] + rest);
    }
  }

  lemma RunOne(n: Pair, t: Step, rest: seq<Step>)
    requires Enabled(n, t) && Run(Do(n, t), rest)
    ensures Run(n, [t] + rest) && Final(n, [t] + rest) == Final(Do(n, t), rest)
  {
    assert ([t] + rest)[1..] == rest;
  }

  lemma {:induction false} RunJoined(n: Pair, a: seq<Step>, b: seq<Step>)
    requires Run(n, a) && Run(Final(n, a), b)
    ensures Run(n, a + b) && Final(n, a + b) == Final(Final(n, a), b)
    decreases |a|
  {
    if a == [] {
      assert a + b == b;
    } else {
      RunJoined(Do(n, a[0]), a[1..], b);
      assert a + b == [a[0]] + (a[1..] + b);
      RunOne(n, a[0], a[1..] + b);
    }
  }

  // While neither end is closed, and whatever has been lost, held or queued, close
  // records among it, some uploads, downloads and reads hand out everything both
  // ends have accepted, leave both send queues empty, and close neither end.
  lemma Drains(n: Pair) returns (steps: seq<Step>)
    requires Inv(n) && !n.client.conn.closed && !n.relay.conn.closed
    ensures Run(n, steps) && forall t <- steps :: Finishing(t)
    ensures var f := Final(n, steps);
      && f.relay.handed == f.client.accepted == n.client.accepted && f.client.conn.sendFrames == []
      && f.client.handed == f.relay.accepted == n.relay.accepted && f.relay.conn.sendFrames == []
      && !f.client.conn.closed && !f.relay.conn.closed
  {
    var up := DeliverFrom(n, Client, 0);
    var m := Final(n, up);
    var down := DeliverFrom(m, Relay, 0);
    RunJoined(n, up, down);
    steps := up + down;
  }
}
