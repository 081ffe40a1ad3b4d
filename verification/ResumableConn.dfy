// The resumable connection as the program has it: an object whose methods, each
// run under the connection's lock, update its fields in place. Every method is
// proved to perform exactly the transition of ResumableEndpoint.
module ResumableConn {
  import opened Prelude
  import opened ResumableFrame
  import Spec = ResumableEndpoint

  class ResumableConn {
    var ws: Option<nat>
    var generation: nat
    var closed: bool
    var recvBuffer: seq<byte>
    var recvOffset: u64
    var sendBuffer: seq<byte>
    var sendBase: u64
    var sendEnd: u64
    var lastAckProgress: int
    const rdp: bool

    function State(): Spec.Endpoint
      reads this
    {
      Spec.Endpoint(ws, generation, closed, recvBuffer, recvOffset, sendBuffer, sendBase, sendEnd, lastAckProgress)
    }

    predicate Valid()
      reads this
    {
      Spec.Valid(State())
    }

    constructor (rdp: bool)
      ensures Valid() && State() == Spec.FRESH
    {
      ws, generation, closed := None, 0, false;
      recvBuffer, recvOffset := [], 0;
      sendBuffer, sendBase, sendEnd := [], 0, 0;
      lastAckProgress := 0;
      this.rdp := rdp;
    }

    // Bytes for the local reader; the end of the stream once closed and drained.
    method Read(room: nat) returns (r: Result<seq<byte>, ()>)
      requires Valid() && (recvBuffer != [] || closed)
      modifies this`recvBuffer
      ensures Valid()
      ensures r.Err? <==> old(recvBuffer) == []
      ensures r.Err? ==> State() == old(State())
      ensures r.Ok? ==> |r.value| == Min(room, |old(recvBuffer)|) && r.value + recvBuffer == old(recvBuffer)
    {
      if |recvBuffer| == 0 {
        return Err(());
      }
      var n := Spec.TakeCount(State(), room);
      r := Ok(recvBuffer[..n]);
      recvBuffer := recvBuffer[n..];
    }

    method QueueSend(payload: seq<byte>, now: int) returns (r: Result<u64, ()>)
      requires Valid() && !Spec.QueueBlocked(State(), payload)
      modifies this
      ensures Valid() && State() == Spec.QueueSend(old(State()), payload, now)
      ensures r == if old(closed) then Err(()) else Ok(old(sendEnd))
      ensures sendBuffer == if closed then old(sendBuffer) else old(sendBuffer) + payload
    {
      if closed {
        return Err(());
      }
      r := Ok(sendEnd);
      if sendEnd == sendBase {
        lastAckProgress := now;
      }
      sendBuffer := sendBuffer + payload;
      sendEnd := Add64(sendEnd, |payload|);
    }

    // Installs a transport and replays to it. The write with index failAt, when
    // there is one, reports an error; its frame may still have left.
    method AttachTransport(transport: nat, now: int, failAt: Option<nat>)
      returns (attempted: seq<Frame>, ok: bool)
      requires Valid()
      modifies this
      ensures Valid()
      ensures old(closed) ==> !ok && attempted == [] && State() == old(State())
      ensures !old(closed) ==>
        var frames := Spec.AttachFrames(old(State()));
        var attached := Spec.Attach(old(State()), transport, now);
        ok == !(failAt.Some? && failAt.value < |frames|) &&
        if ok then attempted == frames && State() == attached
        else attempted == frames[..failAt.value + 1] && State() == Spec.Drop(attached, transport, attached.generation)
    {
      if closed {
        return [], false;
      }
      ghost var frames := Spec.AttachFrames(State());
      generation := generation + 1;
      ws := Some(transport);
      if sendEnd > sendBase {
        lastAckProgress := now;
      }
      var base, replay := sendBase, sendBuffer;
      attempted := [Frame(ACK, recvOffset, [])];
      if failAt == Some(0) {
        DropTransport(transport, generation);
        return attempted, false;
      }
      while |replay| > 0
        invariant attempted + Spec.Replay(base, replay) == frames
        invariant State() == Spec.Attach(old(State()), transport, now)
        invariant failAt.Some? ==> |attempted| <= failAt.value
        decreases |replay|
      {
        var size := Min(|replay|, CHUNK_SIZE);
        var index := |attempted|;
        attempted := attempted + [Frame(DATA, base, replay[..size])];
        assert attempted + Spec.Replay(Add64(base, size), replay[size..]) == frames;
        if failAt == Some(index) {
          assert attempted == frames[..index + 1];
          DropTransport(transport, generation);
          return attempted, false;
        }
        base := Add64(base, size);
        replay := replay[size..];
      }
      ok := true;
    }

    method ApplyAck(offset: u64, now: int) returns (ok: bool)
      requires Valid()
      modifies this
      ensures Valid() && (State(), ok) == Spec.ApplyAck(old(State()), offset, now)
      ensures ok <==> old(sendBase) <= offset <= sendEnd
      ensures ok ==> sendBase == offset && sendBuffer == old(sendBuffer)[offset - old(sendBase)..]
    {
      if offset < sendBase || offset > sendEnd {
        return false;
      }
      var advanced := offset > sendBase;
      var drop := offset - sendBase;
      sendBuffer := sendBuffer[drop..];
      sendBase := offset;
      if advanced {
        lastAckProgress := now;
      }
      ok := true;
    }

    // The part of applying a data frame that precedes its wait: nothing changes,
    // and what is not yet received is cut off the frame.
    method CheckData(offset: u64, data: seq<byte>) returns (check: Spec.DataCheck)
      requires Valid() && |data| <= CHUNK_SIZE
      ensures check == Spec.CheckData(State(), offset, data)
      ensures check.Gap? <==> offset > recvOffset || offset + |data| >= U64
      ensures check.Duplicate? <==> offset <= recvOffset && offset + |data| < U64 && offset + |data| <= recvOffset
      ensures check.Fresh? ==> 0 < |check.rest| <= |data| && check.rest == data[|data| - |check.rest|..]
    {
      var end := Add64(offset, |data|);
      if end < offset {
        return Spec.Gap;
      }
      if offset > recvOffset {
        return Spec.Gap;
      }
      if end <= recvOffset {
        return Spec.Duplicate;
      }
      check := Spec.Fresh(data[recvOffset - offset..]);
    }

    // The part that follows the wait.
    method AppendData(rest: seq<byte>) returns (ack: u64, ok: bool)
      requires Valid() && !Spec.DataBlocked(State(), rest)
      modifies this
      ensures Valid() && State() == Spec.Accept(old(State()), rest).0
      ensures ack == recvOffset && ok == !old(closed)
      ensures recvBuffer == if closed then old(recvBuffer) else old(recvBuffer) + rest
    {
      if closed {
        return recvOffset, false;
      }
      recvBuffer := recvBuffer + rest;
      recvOffset := Add64(recvOffset, |rest|);
      return recvOffset, true;
    }

    // One iteration of a transport's reader.
    method HandleFrame(f: Frame, now: int) returns (reaction: Spec.Reaction)
      requires Valid() && WellFormed(f)
      modifies this
      ensures Valid() && (State(), reaction) == Spec.HandleFrame(old(State()), f, now)
    {
      if f.kind == ACK {
        var ok := ApplyAck(f.offset, now);
        return if ok then Spec.Silent else Spec.Reject;
      } else if f.kind == DATA {
        var check := CheckData(f.offset, f.payload);
        match check {
          case Gap => return Spec.Reject;
          case Duplicate => return Spec.Reply(Frame(ACK, recvOffset, []));
          case Fresh(rest) =>
            if |recvBuffer| + |rest| > Spec.MAX_BUFFER && !closed {
              return Spec.Wait(rest);
            }
            var ack, ok := AppendData(rest);
            return if ok then Spec.Reply(Frame(ACK, ack, [])) else Spec.Reject;
        }
      } else if f.kind == PING {
        return Spec.Reply(Frame(PONG, f.offset, []));
      } else if f.kind == PONG {
        return Spec.Silent;
      }
      reaction := Spec.Reject;
    }

    method DropTransport(transport: nat, gen: nat)
      requires Valid()
      modifies this`ws
      ensures Valid() && State() == Spec.Drop(old(State()), transport, gen)
      ensures ws == if old(ws) == Some(transport) && generation == gen && !closed then None else old(ws)
    {
      if ws != Some(transport) || generation != gen || closed {
        return;
      }
      ws := None;
    }

    method Close()
      requires Valid()
      modifies this`closed, this`ws
      ensures Valid() && State() == Spec.Close(old(State()))
      ensures closed && ws == if old(closed) then old(ws) else None
    {
      if closed {
        return;
      }
      closed := true;
      ws := None;
    }

    // One watchdog tick; reports whether it gave the transport up.
    method CheckAckProgress(now: int, httpStream: bool) returns (recovered: bool)
      requires Valid()
      modifies this`ws
      ensures Valid()
      ensures recovered == Spec.ShouldRecover(old(State()), now, Spec.RecoveryThreshold(rdp, httpStream))
      ensures recovered <==>
        && sendEnd != sendBase && old(ws).Some?
        && now - lastAckProgress >= if !rdp then 10000 else if httpStream then 8000 else 5000
      ensures State() == if recovered && !closed then old(State()).(ws := None) else old(State())
    {
      var pending := Spec.Pending(State());
      var elapsed := now - lastAckProgress;
      if pending == 0 || ws == None || elapsed < Spec.ACK_STALL_MS {
        return false;
      }
      var recoveryThreshold := Spec.DEFAULT_RECOVERY_MS;
      if rdp {
        recoveryThreshold := Spec.RDP_RECOVERY_MS;
        if httpStream {
          recoveryThreshold := Spec.RDP_HTTP_STREAM_RECOVERY_MS;
        }
      }
      recovered := elapsed >= recoveryThreshold;
      if recovered {
        DropTransport(ws.value, generation);
      }
    }
  }
}
