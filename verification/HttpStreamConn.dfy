// The HTTP-stream connection as the program has it: an object whose methods
// update its queues, reorder map and counters in place. Every method is proved to
// perform exactly the transition of HttpStream.
module HttpStreamConn {
  import opened Prelude
  import opened HttpRecord
  import Spec = HttpStream

  // What the selecting loop has gathered on reaching frame i, and that the rest of
  // the selection completes it.
  ghost predicate Gathered(all: seq<Record>, i: nat, first: u64, limit: nat, frames: seq<Record>, size: nat)
    requires i <= |all|
  {
    && (frames == [] ==> size == 0)
    && Spec.FramesFrom(all, first, limit) ==
         if frames == [] then Spec.FramesFrom(all[i..], first, limit)
         else frames + Spec.TakeWithin(all[i..], first, limit, size)
  }

  lemma SelectStep(all: seq<Record>, i: nat, first: u64, limit: nat, size: nat)
    requires i < |all|
    ensures Spec.FramesFrom(all[i..], first, limit) ==
      if all[i].seqNo < first then Spec.FramesFrom(all[i + 1..], first, limit)
      else [all[i]] + Spec.TakeWithin(all[i + 1..], first, limit, |all[i].payload|)
    ensures Spec.TakeWithin(all[i..], first, limit, size) ==
      if all[i].seqNo < first then Spec.TakeWithin(all[i + 1..], first, limit, size)
      else if size + |all[i].payload| > limit then []
      else [all[i]] + Spec.TakeWithin(all[i + 1..], first, limit, size + |all[i].payload|)
  {
    assert all[i..][0] == all[i] && all[i..][1..] == all[i + 1..];
  }

  lemma GatherStep(all: seq<Record>, i: nat, first: u64, limit: nat, frames: seq<Record>, size: nat)
    requires i < |all| && Gathered(all, i, first, limit, frames, size)
    ensures
      if all[i].seqNo < first then Gathered(all, i + 1, first, limit, frames, size)
      else if frames != [] && size + |all[i].payload| > limit then frames == Spec.FramesFrom(all, first, limit)
      else Gathered(all, i + 1, first, limit, frames + [all[i]], size + |all[i].payload|)
  {
    SelectStep(all, i, first, limit, size);
    if frames != [] && all[i].seqNo >= first && size + |all[i].payload| <= limit {
      var rest := Spec.TakeWithin(all[i + 1..], first, limit, size + |all[i].payload|);
      assert frames + ([all[i]] + rest) == frames + [all[i]] + rest;
    }
  }

  lemma AfterStep(all: seq<Record>, i: nat, after: u64, frames: seq<Record>)
    requires i < |all|
    ensures frames + Spec.After(all[i..], after) ==
      (if all[i].seqNo > after then frames + [all[i]] else frames) + Spec.After(all[i + 1..], after)
  {
    assert all[i..][0] == all[i] && all[i..][1..] == all[i + 1..];
    var rest := Spec.After(all[i + 1..], after);
    assert frames + ([all[i]] + rest) == frames + [all[i]] + rest && [] + rest == rest;
  }

  // Accepting one frame, and the held frame that has become next, if any.
  function Taken(c: Spec.Conn, r: Record): (Spec.Conn, Option<Record>) {
    var c' := c.(recvNext := Add64(c.recvNext, 1), recvQueue := c.recvQueue + [r]);
    if c'.recvNext !in c'.recvAhead then (c', None)
    else
      var next := c'.recvAhead[c'.recvNext];
      (c'.(recvAhead := c'.recvAhead - {c'.recvNext}, recvAheadBytes := c'.recvAheadBytes - |next.payload|), Some(next))
  }

  lemma AcceptStep(c: Spec.Conn, r: Record)
    ensures var (c', next) := Taken(c, r);
      && Spec.Accept(c, r) == (if next.None? then c' else Spec.Accept(c', next.value))
      && (next.Some? ==> |c'.recvAhead| < |c.recvAhead|)
  {
    if Add64(c.recvNext, 1) in c.recvAhead {
      Spec.RemoveShrinks(c.recvAhead, Add64(c.recvNext, 1));
    }
  }

  class HttpStreamConn {
    var sendFrames: seq<Record>
    var sendBytes: int
    var nextSend: u64
    var recvNext: u64
    var recvQueue: seq<Record>
    var recvAhead: map<u64, Record>
    var recvAheadBytes: int
    var closing: bool
    var closed: bool
    var downDispatched: u64
    var downStallSince: Option<int>
    var downAckSent: u64

    function State(): Spec.Conn
      reads this
    {
      Spec.Conn(sendFrames, sendBytes, nextSend, recvNext, recvQueue, recvAhead, recvAheadBytes,
                closing, closed, downDispatched, downStallSince, downAckSent)
    }

    constructor ()
      ensures State() == Spec.FRESH
    {
      sendFrames, sendBytes, nextSend, recvNext := [], 0, 1, 1;
      recvQueue, recvAhead, recvAheadBytes := [], map[], 0;
      closing, closed := false, false;
      downDispatched, downStallSince, downAckSent := 0, None, 0;
    }

    method Read() returns (r: Option<Record>)
      requires recvQueue != [] || closed
      modifies this`recvQueue
      ensures r.None? <==> old(recvQueue) == []
      ensures old(recvQueue) == (if r.Some? then [r.value] else []) + recvQueue
    {
      if |recvQueue| == 0 {
        return None;
      }
      r := Some(recvQueue[0]);
      recvQueue := recvQueue[1..];
    }

    method QueueFrame(kind: byte, payload: seq<byte>) returns (ok: bool)
      requires !Spec.QueueBlocked(State(), payload)
      modifies this
      ensures (State(), ok) == Spec.QueueFrame(old(State()), kind, payload)
      ensures ok <==> !old(closed) && !old(closing)
      ensures !ok ==> State() == old(State())
      ensures ok ==>
        && sendFrames == old(sendFrames) + [Record(kind, old(nextSend), payload)]
        && nextSend == Add64(old(nextSend), 1) && sendBytes == old(sendBytes) + |payload| && !closing && !closed
    {
      if closed || closing {
        return false;
      }
      sendFrames := sendFrames + [Record(kind, nextSend, payload)];
      nextSend := Add64(nextSend, 1);
      sendBytes := sendBytes + |payload|;
      ok := true;
    }

    method Close(code: nat, reason: seq<byte>)
      requires code < 65536
      modifies this
      ensures State() == Spec.QueueClose(old(State()), EncodeClose(code, reason))
      ensures closing == (old(closing) || !old(closed)) && closed == old(closed)
      ensures sendFrames == old(sendFrames) + (if closed then [] else [Record(CLOSE, old(nextSend), EncodeClose(code, reason))])
    {
      if !closed {
        closing := true;
        var payload := EncodeClose(code, reason);
        sendFrames := sendFrames + [Record(CLOSE, nextSend, payload)];
        nextSend := Add64(nextSend, 1);
        sendBytes := sendBytes + |payload|;
      }
    }

    // The loop shared by the two ways an acknowledgement arrives.
    method TrimAcknowledged(ack: u64, now: int)
      modifies this
      ensures State() == Spec.Trim(old(State()), ack, now)
      ensures |sendFrames| <= old(|sendFrames|) && sendFrames == old(sendFrames)[old(|sendFrames|) - |sendFrames|..]
      ensures forall i :: 0 <= i < old(|sendFrames|) - |sendFrames| ==> old(sendFrames)[i].seqNo <= ack
      ensures sendFrames != [] ==> sendFrames[0].seqNo > ack
      ensures downStallSince ==
        if sendFrames == old(sendFrames) then old(downStallSince)
        else if sendFrames != [] && sendFrames[0].seqNo <= downDispatched then Some(now) else None
    {
      ghost var was := sendFrames;
      ghost var n := Spec.TrimCount(was, ack);
      var trimmed := false;
      ghost var i := 0;
      while |sendFrames| > 0 && sendFrames[0].seqNo <= ack
        invariant i <= n && sendFrames == was[i..] && (trimmed <==> i > 0)
        invariant sendBytes + Spec.SumBytes(was[..i]) == old(sendBytes)
        invariant State() == old(State()).(sendFrames := sendFrames, sendBytes := sendBytes)
        decreases |sendFrames|
      {
        SumSnoc(was, i);
        sendBytes := sendBytes - |sendFrames[0].payload|;
        sendFrames := sendFrames[1..];
        trimmed := true;
        i := i + 1;
      }
      assert i == n;
      assert was[0..] == was;
      if trimmed {
        downStallSince := if Spec.Outstanding(State()) then Some(now) else None;
      }
    }

    method ApplyDownstreamAck(ack: u64, now: int)
      modifies this
      ensures State() == Spec.ApplyDownstreamAck(old(State()), ack, now)
      ensures ack >= nextSend ==> State() == old(State())
      ensures ack < nextSend && sendFrames != [] ==> sendFrames[0].seqNo > ack
    {
      if ack >= nextSend {
        return;
      }
      TrimAcknowledged(ack, now);
    }

    method TakeOne(frame: Record) returns (next: Option<Record>)
      modifies this
      ensures (State(), next) == Taken(old(State()), frame)
    {
      recvNext := Add64(recvNext, 1);
      recvQueue := recvQueue + [frame];
      if recvNext !in recvAhead {
        return None;
      }
      next := Some(recvAhead[recvNext]);
      recvAhead := recvAhead - {recvNext};
      recvAheadBytes := recvAheadBytes - |next.value.payload|;
    }

    // Takes the frame that is next and the held frames that follow it.
    method TakeNext(record: Record)
      modifies this
      ensures State() == Spec.Accept(old(State()), record)
      ensures old(recvQueue) + [record] <= recvQueue && recvNext !in recvAhead
    {
      var frame := Some(record);
      while frame.Some?
        invariant if frame.Some? then old(recvQueue) + [record] <= recvQueue + [frame.value]
                  else old(recvQueue) + [record] <= recvQueue && recvNext !in recvAhead
        invariant (if frame.Some? then Spec.Accept(State(), frame.value) else State()) == Spec.Accept(old(State()), record)
        decreases frame.Some?, |recvAhead|
      {
        AcceptStep(State(), frame.value);
        frame := TakeOne(frame.value);
      }
    }

    method ApplyRecord(record: Record, now: int) returns (outcome: Spec.Outcome)
      modifies this
      ensures (State(), outcome) == Spec.ApplyRecord(old(State()), record, now)
      ensures outcome == Spec.AckBeyondSent <==> record.kind == ACK && record.seqNo >= old(nextSend)
      ensures outcome == Spec.InvalidKind <==>
        record.kind !in {ACK, TEXT, BINARY, CLOSE} && record.seqNo >= old(recvNext)
      ensures outcome == Spec.TooFar <==>
        && record.kind in {TEXT, BINARY, CLOSE} && record.seqNo > old(recvNext) && record.seqNo !in old(recvAhead)
        && (old(|recvAhead|) >= 4096 || old(recvAheadBytes) + |record.payload| > 8388608)
      ensures outcome != Spec.Applied ==> State() == old(State())
      ensures outcome == Spec.Applied && record.kind != ACK && record.seqNo == old(recvNext) ==>
        old(recvQueue) + [record] <= recvQueue
      ensures outcome == Spec.Applied && record.kind != ACK && record.seqNo > old(recvNext) ==>
        recvQueue == old(recvQueue) && recvAhead.Keys == old(recvAhead).Keys + {record.seqNo}
    {
      if record.kind == ACK {
        if record.seqNo >= nextSend {
          return Spec.AckBeyondSent;
        }
        TrimAcknowledged(record.seqNo, now);
        return Spec.Applied;
      }
      if record.seqNo < recvNext {
        return Spec.Applied;
      }
      if record.kind != TEXT && record.kind != BINARY && record.kind != CLOSE {
        return Spec.InvalidKind;
      }
      if record.seqNo > recvNext {
        if record.seqNo in recvAhead {
          return Spec.Applied;
        }
        if |recvAhead| >= Spec.REORDER_LIMIT || recvAheadBytes + |record.payload| > Spec.MAX_BUFFERED {
          return Spec.TooFar;
        }
        recvAhead := recvAhead[record.seqNo := record];
        recvAheadBytes := recvAheadBytes + |record.payload|;
        return Spec.Applied;
      }
      TakeNext(record);
      outcome := Spec.Applied;
    }

    method CloseTerminal()
      modifies this`closed
      ensures State() == old(State()).(closed := true)
    {
      if closed {
        return;
      }
      closed := true;
    }

    method FramesFrom(first: u64, limit: nat) returns (frames: seq<Record>, ack: u64)
      ensures frames == Spec.FramesFrom(sendFrames, first, limit) && ack == Spec.Acknowledged(State())
    {
      frames, ack := [], Spec.Pred64(recvNext);
      var size: nat, i: nat := 0, 0;
      while i < |sendFrames|
        invariant i <= |sendFrames|
        invariant Gathered(sendFrames, i, first, limit, frames, size)
      {
        var frame := sendFrames[i];
        GatherStep(sendFrames, i, first, limit, frames, size);
        if frame.seqNo >= first {
          if |frames| > 0 && size + |frame.payload| > limit {
            break;
          }
          frames := frames + [frame];
          size := size + |frame.payload|;
        }
        i := i + 1;
      }
    }

    // The records after a sequence.
    method FramesAfter(after: u64) returns (frames: seq<Record>)
      ensures frames == Spec.After(sendFrames, after)
    {
      frames := [];
      var i := 0;
      while i < |sendFrames|
        invariant i <= |sendFrames|
        invariant Spec.After(sendFrames, after) == frames + Spec.After(sendFrames[i..], after)
      {
        var frame := sendFrames[i];
        AfterStep(sendFrames, i, after, frames);
        if frame.seqNo > after {
          frames := frames + [frame];
        }
        i := i + 1;
      }
    }

    method ClaimDownload(pipelined: bool, force: bool, now: int) returns (claim: Spec.Claim, ack: u64)
      modifies this
      ensures (State(), claim) == Spec.ClaimDownload(old(State()), pipelined, force, now)
      ensures claim.Nothing? ==> !force
      ensures claim.Batch? ==> force || claim.frames != []
      ensures ack == Spec.Acknowledged(State())
    {
      ack := Spec.Pred64(recvNext);
      var after: u64 := 0;
      if pipelined {
        if Spec.ResendDue(State(), now) {
          downDispatched := Spec.Pred64(sendFrames[0].seqNo);
          downStallSince := None;
        }
        after := downDispatched;
      }
      var frames := FramesAfter(after);
      if |frames| == 0 && !force {
        return Spec.Nothing, ack;
      }
      if pipelined && |frames| > 0 {
        if !Spec.Outstanding(State()) {
          downStallSince := Some(now);
        }
        downDispatched := frames[|frames| - 1].seqNo;
      }
      if ack > downAckSent {
        downAckSent := ack;
      }
      claim := Spec.Batch(frames);
    }
  }

  lemma {:induction false} SumSnoc(frames: seq<Record>, i: nat)
    requires i < |frames|
    ensures Spec.SumBytes(frames[..i + 1]) == Spec.SumBytes(frames[..i]) + |frames[i].payload|
  {
    if i == 0 {
      assert frames[..1][1..] == [];
    } else {
      SumSnoc(frames[1..], i - 1);
      assert frames[..i + 1][1..] == frames[1..][..i];
      assert frames[..i][1..] == frames[1..][..i - 1];
    }
  }
}
