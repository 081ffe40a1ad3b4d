// The network of two endpoints is no more than the stack can do: every delivery it
// allows is made by steps of transports and pumps, so every run of the network is
// the endpoints' part of a run of the whole path.
module StackDelivery {
  import opened Prelude
  import opened Stack
  import F = ResumableFrame
  import E = ResumableEndpoint
  import N = ResumableNet
  import HR = HttpRecord
  import S = HttpStream
  import H = HttpPair
  import W = ResumableStaleWake

  // One message across a fresh pair

  function Message(bytes: seq<byte>): HR.Record {
    HR.Record(HR.BINARY, 1, bytes)
  }

  function Sent(end: H.Side, bytes: seq<byte>): H.Pair
    requires |bytes| <= HR.READ_LIMIT
  {
    H.Do(H.INIT, H.Write(end, HR.BINARY, bytes))
  }

  // The request or response that carries it.
  function Carry(end: H.Side): H.Step {
    if end == H.Client then H.Upload(H.Client, 1, 0) else H.Download(H.Relay, false, true, 0)
  }

  lemma Carried(end: H.Side, bytes: seq<byte>)
    requires |bytes| <= HR.READ_LIMIT
    ensures var p := Sent(end, bytes);
      && H.Enabled(p, Carry(end)) && Message(bytes) in H.At(H.Do(p, Carry(end)), end).emitted
      && H.At(H.Do(p, Carry(end)), H.Other(end)) == H.At(H.INIT, end)
  {
    var p := Sent(end, bytes);
    var frames := H.At(p, end).conn.sendFrames;
    assert frames == [Message(bytes)] && frames[1..] == [];
    assert S.FramesFrom(frames, 1, 0) == [Message(bytes)] && S.After(frames, 0) == [Message(bytes)];
  }

  function Arrive(end: H.Side, bytes: seq<byte>): H.Step {
    H.Apply(H.Other(end), Message(bytes), 0, false)
  }

  function Arrived(end: H.Side, bytes: seq<byte>): H.Pair
    requires |bytes| <= HR.READ_LIMIT
  {
    Carried(end, bytes);
    H.Do(H.Do(Sent(end, bytes), Carry(end)), Arrive(end, bytes))
  }

  lemma ArrivedIsReady(end: H.Side, bytes: seq<byte>)
    requires |bytes| <= HR.READ_LIMIT
    ensures H.At(Arrived(end, bytes), H.Other(end)).conn.recvQueue == [Message(bytes)]
  {
    Carried(end, bytes);
  }

  // Paths of steps

  ghost predicate Path(s: Stack, steps: seq<Step>, f: Stack) {
    Run(s, steps) && Final(s, steps) == f
  }

  lemma {:induction false} PathMore(s: Stack, steps: seq<Step>, f: Stack, t: Step)
    requires Path(s, steps, f) && Enabled(f, t)
    ensures Path(s, steps + [t], Do(f, t))
    decreases |steps|
  {
    if steps == [] {
      assert steps + [t] == [t] && [t][1..] == [];
      assert Run(Do(s, t), []);
    } else {
      PathMore(Do(s, steps[0]), steps[1..], f, t);
      assert (steps + [t])[1..] == steps[1..] + [t];
    }
  }

  lemma {:induction false} PathJoin(s: Stack, a: seq<Step>, m: Stack, b: seq<Step>, f: Stack)
    requires Path(s, a, m) && Path(m, b, f)
    ensures Path(s, a + b, f)
    decreases |a|
  {
    if a == [] {
      assert a + b == b;
    } else {
      PathJoin(Do(s, a[0]), a[1..], m, b, f);
      assert (a + b)[1..] == a[1..] + b;
    }
  }

  // A stack whose link has a given pair.
  function WithLink(s: Stack, id: nat, side: N.Side, pair: H.Pair): Stack {
    s.(links := s.links[id := Link(side, pair)])
  }

  // After its first write, a link carries a message to its other end.
  lemma LinkCarries(s: Stack, id: nat, side: N.Side, end: H.Side, bytes: seq<byte>) returns (steps: seq<Step>)
    requires |bytes| <= HR.READ_LIMIT
    ensures Path(WithLink(s, id, side, Sent(end, bytes)), steps, WithLink(s, id, side, Arrived(end, bytes)))
  {
    Carried(end, bytes);
    var s0 := WithLink(s, id, side, Sent(end, bytes));
    var carry, arrive := Inner(id, Carry(end)), Inner(id, Arrive(end, bytes));
    assert Path(s0, [], s0);
    PathMore(s0, [], s0, carry);
    var s1 := WithLink(s, id, side, H.Do(Sent(end, bytes), Carry(end)));
    assert Do(s0, carry) == s1;
    PathMore(s0, [] + [carry], s1, arrive);
    assert Do(s1, arrive) == WithLink(s, id, side, Arrived(end, bytes));
    steps := [] + [carry] + [arrive];
  }

  function Bytes(frame: F.Frame): (bytes: seq<byte>)
    requires F.WellFormed(frame) && |frame.payload| <= F.CHUNK_SIZE
    ensures |bytes| <= HR.READ_LIMIT
  {
    F.MakeFrame(frame)
  }

  // A new link whose first step is a write at one end hands its message to the other.
  lemma OpenAndWrite(s: Stack, id: nat, side: N.Side, end: H.Side, bytes: seq<byte>, write: Step) returns (steps: seq<Step>)
    requires id !in s.links && |bytes| <= HR.READ_LIMIT
    requires Enabled(Do(s, Open(id, side)), write)
    requires Do(Do(s, Open(id, side)), write) == WithLink(s, id, side, Sent(end, bytes))
    ensures Path(s, steps, WithLink(s, id, side, Arrived(end, bytes)))
  {
    assert Path(s, [], s);
    PathMore(s, [], s, Open(id, side));
    steps := [] + [Open(id, side)] + [write];
    PathMore(s, [] + [Open(id, side)], Do(s, Open(id, side)), write);
    var across := LinkCarries(s, id, side, end, bytes);
    PathJoin(s, steps, WithLink(s, id, side, Sent(end, bytes)), across, WithLink(s, id, side, Arrived(end, bytes)));
    steps := steps + across;
  }

  lemma PumpTakes(s: Stack, id: nat, bytes: seq<byte>)
    requires id in s.links && s.links[id].pair.relay.conn.recvQueue == [Message(bytes)]
    ensures Enabled(s, PumpRead(id))
    ensures var f := Do(s, PumpRead(id));
      f.net == s.net && f.links.Keys == s.links.Keys && (N.Other(s.links[id].side), bytes) in f.inHand
  {
  }

  lemma ReaderTakes(s: Stack, id: nat, reader: nat, frame: F.Frame, now: int)
    requires id in s.links && s.links[id].pair.client.conn.recvQueue == [Message(F.MakeFrame(frame))]
    requires N.Enabled(s.net, N.Deliver(s.links[id].side, reader, frame, now))
    ensures Enabled(s, Receive(id, reader, now))
    ensures Do(s, Receive(id, reader, now)).net == N.Do(s.net, N.Deliver(s.links[id].side, reader, frame, now))
  {
    F.ParseOfMake(frame);
  }

  // From the endpoint that emitted the frame into a pump's hand.
  lemma Ascends(s: Stack, id: nat, side: N.Side, frame: F.Frame) returns (steps: seq<Step>, f: Stack)
    requires id !in s.links && frame in N.At(s.net, side).emitted && F.WellFormed(frame) && |frame.payload| <= F.CHUNK_SIZE
    ensures Path(s, steps, f)
    ensures f.net == s.net && f.links.Keys == s.links.Keys + {id} && (N.Other(side), F.MakeFrame(frame)) in f.inHand
  {
    var bytes := Bytes(frame);
    steps := OpenAndWrite(s, id, side, H.Client, bytes, Emit(id, frame));
    var arrived := WithLink(s, id, side, Arrived(H.Client, bytes));
    ArrivedIsReady(H.Client, bytes);
    PumpTakes(arrived, id, bytes);
    PathMore(s, steps, arrived, PumpRead(id));
    steps, f := steps + [PumpRead(id)], Do(arrived, PumpRead(id));
  }

  // From a pump's hand to the endpoint's reader.
  lemma Descends(s: Stack, id: nat, side: N.Side, reader: nat, frame: F.Frame, now: int) returns (steps: seq<Step>, f: Stack)
    requires id !in s.links && (side, F.MakeFrame(frame)) in s.inHand
    requires |frame.payload| <= F.CHUNK_SIZE && N.Enabled(s.net, N.Deliver(side, reader, frame, now))
    ensures Path(s, steps, f) && f.net == N.Do(s.net, N.Deliver(side, reader, frame, now))
  {
    var bytes := Bytes(frame);
    steps := OpenAndWrite(s, id, side, H.Relay, bytes, PumpWrite(id, bytes));
    var arrived := WithLink(s, id, side, Arrived(H.Relay, bytes));
    ArrivedIsReady(H.Relay, bytes);
    ReaderTakes(arrived, id, reader, frame, now);
    PathMore(s, steps, arrived, Receive(id, reader, now));
    steps, f := steps + [Receive(id, reader, now)], Do(arrived, Receive(id, reader, now));
  }

  // Every delivery of the network is made by steps of transports and pumps.
  lemma DeliveryIsRealized(s: Stack, up: nat, down: nat, t: N.Step) returns (steps: seq<Step>, f: Stack)
    requires up !in s.links && down !in s.links && up != down
    requires t.Deliver? && |t.frame.payload| <= F.CHUNK_SIZE && N.Enabled(s.net, t)
    ensures Path(s, steps, f) && f.net == N.Do(s.net, t)
  {
    var a, m := Ascends(s, up, N.Other(t.side), t.frame);
    assert N.Other(N.Other(t.side)) == t.side;
    var b, g := Descends(m, down, t.side, t.reader, t.frame, t.now);
    PathJoin(s, a, m, b, g);
    steps, f := a + b, g;
  }

  // Frames no longer than a chunk, as everything an endpoint emits is.
  predicate SmallPeer(p: N.Peer) {
    (forall f <- p.emitted :: |f.payload| <= F.CHUNK_SIZE) && (forall f <- p.queued :: |f.payload| <= F.CHUNK_SIZE)
  }

  predicate Small(n: N.Net) {
    SmallPeer(n.home) && SmallPeer(n.work)
  }

  lemma {:induction false} ReplaySmall(base: u64, bytes: seq<byte>)
    ensures forall f <- E.Replay(base, bytes) :: |f.payload| <= F.CHUNK_SIZE
    decreases |bytes|
  {
    if bytes != [] {
      var size := Min(|bytes|, F.CHUNK_SIZE);
      ReplaySmall(Add64(base, size), bytes[size..]);
    }
  }

  lemma StepKeepsSmall(n: N.Net, t: N.Step)
    requires Small(n) && N.Enabled(n, t)
    ensures Small(N.Do(n, t))
  {
    var p := N.At(n, t.side);
    ReplaySmall(p.ep.sendBase, p.ep.sendBuffer);
    var p' := N.At(N.Do(n, t), t.side);
    assert t.Attach? ==> forall f <- p'.emitted :: f in p.emitted || f in E.AttachFrames(p.ep);
  }

  // A number no link has.
  predicate Above(ids: set<nat>, k: nat) {
    forall id <- ids :: id < k
  }

  lemma {:induction false} Unused(ids: set<nat>) returns (k: nat)
    ensures Above(ids, k)
    decreases |ids|
  {
    if ids == {} {
      return 0;
    }
    var id :| id in ids;
    k := Unused(ids - {id});
    k := if id < k then k else id + 1;
    assert forall x <- ids :: x == id || x in ids - {id};
  }

  // Every run of the network is the endpoints' part of a run of the stack.
  lemma {:induction false} NetRunIsRealized(s: Stack, steps: seq<N.Step>) returns (path: seq<Step>, f: Stack)
    requires Small(s.net) && N.Run(s.net, steps)
    ensures Path(s, path, f) && f.net == N.Final(s.net, steps)
    decreases |steps|
  {
    if steps == [] {
      return [], s;
    }
    var t, first, m := steps[0], [], s;
    if t.Deliver? {
      var k := Unused(s.links.Keys);
      first, m := DeliveryIsRealized(s, k, k + 1, t);
    } else {
      PathMore(s, [], s, Local(t));
      first, m := [] + [Local(t)], Do(s, Local(t));
    }
    StepKeepsSmall(s.net, t);
    var rest, g := NetRunIsRealized(m, steps[1..]);
    PathJoin(s, first, m, rest, g);
    path, f := first + rest, g;
  }

  // So the whole path can deliver a byte twice: the condition of the end-to-end law
  // is needed there too.
  lemma DuplicateEndToEnd() returns (steps: seq<Step>, f: Stack)
    ensures Path(INIT, steps, f) && !N.StreamLaws(f.net)
    ensures exists b :: f.net.work.read + f.net.work.ep.recvBuffer == f.net.home.written + [b]
  {
    var n := W.DuplicateIsReachable();
    var run :| N.Run(N.INIT, run) && N.Final(N.INIT, run) == n;
    steps, f := NetRunIsRealized(INIT, run);
    assert n.work.read + n.work.ep.recvBuffer == n.home.written + [7];
  }
}
