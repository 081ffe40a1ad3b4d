// The whole path from Home to Work: resumable endpoints whose transports are
// HTTP-stream pairs to a relay, and relay pumps that carry binary messages from
// the relay end of one side's transport to the relay end of a transport of the
// other side. A pump may hold a message for any time, write it to a transport
// that has been replaced, and write it again. The frames endpoints exchange
// travel as bytes.
module Stack {
  import opened Prelude
  import F = ResumableFrame
  import E = ResumableEndpoint
  import N = ResumableNet
  import R = ResumableSafety
  import HR = HttpRecord
  import H = HttpPair
  import P = HttpPairSafety

  // A transport of one side: the endpoint has the client end.
  datatype Link = Link(side: N.Side, pair: H.Pair)

  // inHand are the messages pumps have read, with the side they are bound for.
  datatype Stack = Stack(net: N.Net, links: map<nat, Link>, inHand: set<(N.Side, seq<byte>)>)

  const INIT: Stack := Stack(N.INIT, map[], {})

  datatype Step =
    | Local(step: N.Step)
    | Open(id: nat, side: N.Side)
    | Inner(id: nat, inner: H.Step)
    | Emit(id: nat, frame: F.Frame)
    | PumpRead(id: nat)
    | PumpWrite(id: nat, bytes: seq<byte>)
    | Receive(id: nat, reader: nat, now: int)

  // Steps inside a pair that neither hand a message to a user of the transport
  // nor take a binary one from it. Control text and closes are among them.
  predicate IsInner(t: H.Step) {
    !t.Read? && (t.Write? ==> t.kind == HR.TEXT)
  }

  function NextMessage(e: H.End): HR.Record
    requires e.conn.recvQueue != []
  {
    e.conn.recvQueue[0]
  }

  // What the endpoint reads next, if it is a frame.
  function NextFrame(e: H.End): Option<F.Frame>
    requires e.conn.recvQueue != []
  {
    var m := NextMessage(e);
    if m.kind != HR.BINARY then None
    else match F.ParseFrame(m.payload)
      case Ok(f) => Some(f)
      case Err(_) => None
  }

  predicate CanRead(p: N.Peer, reader: nat) {
    1 <= reader <= p.ep.generation && reader !in p.waiting && E.Valid(p.ep)
  }

  predicate Enabled(s: Stack, t: Step) {
    match t
    case Local(step) => !step.Deliver? && N.Enabled(s.net, step)
    case Open(id, _) => id !in s.links
    case Inner(id, inner) => id in s.links && IsInner(inner) && H.Enabled(s.links[id].pair, inner)
    case Emit(id, frame) =>
      && id in s.links && frame in N.At(s.net, s.links[id].side).emitted
      && H.Enabled(s.links[id].pair, H.Write(H.Client, HR.BINARY, F.MakeFrame(frame)))
    case PumpRead(id) => id in s.links && H.Enabled(s.links[id].pair, H.Read(H.Relay))
    case PumpWrite(id, bytes) =>
      && id in s.links && (s.links[id].side, bytes) in s.inHand
      && H.Enabled(s.links[id].pair, H.Write(H.Relay, HR.BINARY, bytes))
    case Receive(id, reader, _) =>
      && id in s.links && H.Enabled(s.links[id].pair, H.Read(H.Client))
      && CanRead(N.At(s.net, s.links[id].side), reader)
  }

  function SetPair(s: Stack, id: nat, pair: H.Pair): Stack
    requires id in s.links
  {
    s.(links := s.links[id := s.links[id].(pair := pair)])
  }

  function Deliver(n: N.Net, side: N.Side, reader: nat, f: F.Frame, now: int): N.Net
    requires E.Valid(N.At(n, side).ep) && F.WellFormed(f)
  {
    var p := N.At(n, side);
    var (after, reaction) := E.HandleFrame(p.ep, f, now);
    N.With(n, side, N.React(p, reader, after, reaction))
  }

  // An unreadable frame costs the reader its transport; text is skipped.
  function ReceiveNet(s: Stack, id: nat, reader: nat, now: int): N.Net
    requires Enabled(s, Receive(id, reader, now))
  {
    var side, client := s.links[id].side, s.links[id].pair.client;
    if NextMessage(client).kind != HR.BINARY then s.net
    else
      match F.ParseFrame(NextMessage(client).payload)
      case Err(_) => N.With(s.net, side, N.At(s.net, side).(ep := N.DropReader(N.At(s.net, side).ep, reader)))
      case Ok(f) =>
        F.MakeOfParse(NextMessage(client).payload);
        Deliver(s.net, side, reader, f, now)
  }

  function Do(s: Stack, t: Step): Stack
    requires Enabled(s, t)
  {
    match t
    case Local(step) => s.(net := N.Do(s.net, step))
    case Open(id, side) => s.(links := s.links[id := Link(side, H.INIT)])
    case Inner(id, inner) => SetPair(s, id, H.Do(s.links[id].pair, inner))
    case Emit(id, frame) => SetPair(s, id, H.Do(s.links[id].pair, H.Write(H.Client, HR.BINARY, F.MakeFrame(frame))))
    case PumpRead(id) =>
      var l := s.links[id];
      var m := NextMessage(l.pair.relay);
      var s' := SetPair(s, id, H.Do(l.pair, H.Read(H.Relay)));
      if m.kind == HR.BINARY then s'.(inHand := s.inHand + {(N.Other(l.side), m.payload)}) else s'
    case PumpWrite(id, bytes) => SetPair(s, id, H.Do(s.links[id].pair, H.Write(H.Relay, HR.BINARY, bytes)))
    case Receive(id, reader, now) =>
      SetPair(s, id, H.Do(s.links[id].pair, H.Read(H.Client))).(net := ReceiveNet(s, id, reader, now))
  }

  // A reader that wakes finds what it holds still next in the stream; a reader
  // that wakes fresh does.
  predicate Right(s: Stack, t: Step) {
    t.Local? ==> N.RightWake(s.net, t.step)
  }

  predicate Fresh(s: Stack, t: Step) {
    t.Local? ==> N.FreshWake(s.net, t.step)
  }

  ghost predicate Run(s: Stack, steps: seq<Step>)
    decreases |steps|
  {
    steps == [] || (Enabled(s, steps[0]) && Run(Do(s, steps[0]), steps[1..]))
  }

  ghost function Final(s: Stack, steps: seq<Step>): Stack
    requires Run(s, steps)
    decreases |steps|
  {
    if steps == [] then s else Final(Do(s, steps[0]), steps[1..])
  }

  ghost predicate AllRight(s: Stack, steps: seq<Step>)
    requires Run(s, steps)
    decreases |steps|
  {
    steps == [] || (Right(s, steps[0]) && AllRight(Do(s, steps[0]), steps[1..]))
  }

  ghost predicate AllFresh(s: Stack, steps: seq<Step>)
    requires Run(s, steps)
    decreases |steps|
  {
    steps == [] || (Fresh(s, steps[0]) && AllFresh(Do(s, steps[0]), steps[1..]))
  }

  // The stream law in every state of a run.
  ghost predicate AlwaysStream(s: Stack, steps: seq<Step>)
    requires Run(s, steps)
    decreases |steps|
  {
    N.StreamLaws(s.net) && (steps == [] || AlwaysStream(Do(s, steps[0]), steps[1..]))
  }

  // The bytes of a frame that p emitted.
  predicate Carries(p: N.Peer, bytes: seq<byte>) {
    F.ParseFrame(bytes).Ok? && F.ParseFrame(bytes).value in p.emitted
  }

  predicate AllCarry(p: N.Peer, ms: seq<H.Message>) {
    forall m <- ms :: m.kind == HR.BINARY ==> Carries(p, m.payload)
  }

  ghost predicate LinkInv(n: N.Net, l: Link) {
    && H.Inv(l.pair)
    && AllCarry(N.At(n, l.side), l.pair.client.accepted)
    && AllCarry(N.At(n, N.Other(l.side)), l.pair.relay.accepted)
  }

  ghost predicate Inv(s: Stack) {
    && N.Inv(s.net)
    && (forall id <- s.links :: LinkInv(s.net, s.links[id]))
    && (forall d, b :: (d, b) in s.inHand ==> Carries(N.At(s.net, N.Other(d)), b))
  }

  // Frames once emitted stay emitted.

  predicate MoreEmitted(n: N.Net, n': N.Net) {
    n.home.emitted <= n'.home.emitted && n.work.emitted <= n'.work.emitted
  }

  lemma NetStepEmits(n: N.Net, t: N.Step)
    requires N.Enabled(n, t)
    ensures MoreEmitted(n, N.Do(n, t))
  {
  }

  lemma MoreKeepsLinks(n: N.Net, n': N.Net, l: Link)
    requires MoreEmitted(n, n') && LinkInv(n, l)
    ensures LinkInv(n', l)
  {
  }

  lemma NetChangeKeeps(s: Stack, n': N.Net)
    requires Inv(s) && N.Inv(n') && MoreEmitted(s.net, n')
    ensures Inv(s.(net := n'))
  {
    forall id | id in s.links
      ensures LinkInv(n', s.links[id])
    {
      MoreKeepsLinks(s.net, n', s.links[id]);
    }
  }

  lemma PairChangeKeeps(s: Stack, id: nat, pair: H.Pair)
    requires Inv(s) && id in s.links && LinkInv(s.net, s.links[id].(pair := pair))
    ensures Inv(SetPair(s, id, pair))
  {
  }

  // Pair steps that add no binary message.
  lemma InnerKeepsLink(n: N.Net, l: Link, t: H.Step)
    requires LinkInv(n, l) && H.Enabled(l.pair, t) && (IsInner(t) || t.Read?)
    ensures LinkInv(n, l.(pair := H.Do(l.pair, t)))
  {
    P.StepKeeps(l.pair, t);
  }

  lemma ClientWriteKeepsLink(n: N.Net, l: Link, bytes: seq<byte>)
    requires LinkInv(n, l) && Carries(N.At(n, l.side), bytes)
    requires H.Enabled(l.pair, H.Write(H.Client, HR.BINARY, bytes))
    ensures LinkInv(n, l.(pair := H.Do(l.pair, H.Write(H.Client, HR.BINARY, bytes))))
  {
    P.StepKeeps(l.pair, H.Write(H.Client, HR.BINARY, bytes));
  }

  lemma RelayWriteKeepsLink(n: N.Net, l: Link, bytes: seq<byte>)
    requires LinkInv(n, l) && Carries(N.At(n, N.Other(l.side)), bytes)
    requires H.Enabled(l.pair, H.Write(H.Relay, HR.BINARY, bytes))
    ensures LinkInv(n, l.(pair := H.Do(l.pair, H.Write(H.Relay, HR.BINARY, bytes))))
  {
    P.StepKeeps(l.pair, H.Write(H.Relay, HR.BINARY, bytes));
  }

  // What an end of a transport hands out, its other end accepted.
  lemma NextWasAccepted(p: H.End, q: H.End)
    requires H.Direction(p, q) && q.conn.recvQueue != []
    ensures H.Message(NextMessage(q).kind, NextMessage(q).payload) in p.accepted
  {
    P.ReadHandsNext(p, q);
    assert H.ReadEnd(q).handed[|q.handed|] == H.Message(NextMessage(q).kind, NextMessage(q).payload);
  }

  lemma EmittedCarries(p: N.Peer, q: N.Peer, f: F.Frame)
    requires N.Direction(p, q) && f in p.emitted
    ensures Carries(p, F.MakeFrame(f))
  {
    F.ParseOfMake(f);
  }

  // A frame an endpoint parses is one its peer emitted: no forgery is possible
  // anywhere on the path.
  lemma ReceiveIsDelivery(s: Stack, id: nat, reader: nat, now: int)
    requires Enabled(s, Receive(id, reader, now)) && LinkInv(s.net, s.links[id])
    ensures var f := NextFrame(s.links[id].pair.client);
      f.Some? ==>
        var t := N.Deliver(s.links[id].side, reader, f.value, now);
        N.Enabled(s.net, t) && ReceiveNet(s, id, reader, now) == N.Do(s.net, t)
    ensures NextFrame(s.links[id].pair.client).None? ==>
      NextMessage(s.links[id].pair.client).kind != HR.BINARY && ReceiveNet(s, id, reader, now) == s.net
  {
    var l := s.links[id];
    NextWasAccepted(l.pair.relay, l.pair.client);
    var m := NextMessage(l.pair.client);
    if m.kind == HR.BINARY {
      assert Carries(N.At(s.net, N.Other(l.side)), m.payload);
      F.MakeOfParse(m.payload);
    }
  }

  lemma PairReadKeeps(s: Stack, id: nat, end: H.Side)
    requires Inv(s) && id in s.links && H.Enabled(s.links[id].pair, H.Read(end))
    ensures Inv(SetPair(s, id, H.Do(s.links[id].pair, H.Read(end))))
  {
    InnerKeepsLink(s.net, s.links[id], H.Read(end));
    PairChangeKeeps(s, id, H.Do(s.links[id].pair, H.Read(end)));
  }

  lemma ReceiveNetKeeps(s: Stack, id: nat, reader: nat, now: int)
    requires N.Inv(s.net) && Enabled(s, Receive(id, reader, now)) && LinkInv(s.net, s.links[id])
    ensures N.Inv(ReceiveNet(s, id, reader, now)) && MoreEmitted(s.net, ReceiveNet(s, id, reader, now))
  {
    ReceiveIsDelivery(s, id, reader, now);
    var f := NextFrame(s.links[id].pair.client);
    if f.Some? {
      var t := N.Deliver(s.links[id].side, reader, f.value, now);
      R.StepKeeps(s.net, t);
      NetStepEmits(s.net, t);
    }
  }

  lemma ReceiveKeeps(s: Stack, id: nat, reader: nat, now: int)
    requires Inv(s) && Enabled(s, Receive(id, reader, now))
    ensures Inv(Do(s, Receive(id, reader, now)))
  {
    ReceiveNetKeeps(s, id, reader, now);
    PairReadKeeps(s, id, H.Client);
    NetChangeKeeps(SetPair(s, id, H.Do(s.links[id].pair, H.Read(H.Client))), ReceiveNet(s, id, reader, now));
  }

  lemma InHandKeeps(s: Stack, d: N.Side, bytes: seq<byte>)
    requires Inv(s) && Carries(N.At(s.net, N.Other(d)), bytes)
    ensures Inv(s.(inHand := s.inHand + {(d, bytes)}))
  {
  }

  // A binary message a pump reads was made by the endpoint it came from.
  lemma PumpReadCarries(s: Stack, id: nat)
    requires Enabled(s, PumpRead(id)) && LinkInv(s.net, s.links[id]) && NextMessage(s.links[id].pair.relay).kind == HR.BINARY
    ensures Carries(N.At(s.net, s.links[id].side), NextMessage(s.links[id].pair.relay).payload)
  {
    NextWasAccepted(s.links[id].pair.client, s.links[id].pair.relay);
  }

  lemma PumpReadKeeps(s: Stack, id: nat)
    requires Inv(s) && Enabled(s, PumpRead(id))
    ensures Inv(Do(s, PumpRead(id)))
  {
    var l := s.links[id];
    var m := NextMessage(l.pair.relay);
    PairReadKeeps(s, id, H.Relay);
    if m.kind == HR.BINARY {
      PumpReadCarries(s, id);
      assert N.Other(N.Other(l.side)) == l.side;
      InHandKeeps(SetPair(s, id, H.Do(l.pair, H.Read(H.Relay))), N.Other(l.side), m.payload);
    }
  }

  lemma EmitKeeps(s: Stack, id: nat, f: F.Frame)
    requires Inv(s) && Enabled(s, Emit(id, f))
    ensures Inv(Do(s, Emit(id, f)))
  {
    var l := s.links[id];
    EmittedCarries(N.At(s.net, l.side), N.At(s.net, N.Other(l.side)), f);
    ClientWriteKeepsLink(s.net, l, F.MakeFrame(f));
    PairChangeKeeps(s, id, H.Do(l.pair, H.Write(H.Client, HR.BINARY, F.MakeFrame(f))));
  }

  lemma OpenKeeps(s: Stack, id: nat, side: N.Side)
    requires Inv(s) && id !in s.links
    ensures Inv(Do(s, Open(id, side)))
  {
    P.InitialInv();
  }

  lemma StepKeeps(s: Stack, t: Step)
    requires Inv(s) && Enabled(s, t) && Right(s, t)
    ensures Inv(Do(s, t))
  {
    match t
    case Local(step) =>
      R.StepKeeps(s.net, step);
      NetStepEmits(s.net, step);
      NetChangeKeeps(s, N.Do(s.net, step));
    case Open(id, side) => OpenKeeps(s, id, side);
    case Inner(id, inner) =>
      InnerKeepsLink(s.net, s.links[id], inner);
      PairChangeKeeps(s, id, H.Do(s.links[id].pair, inner));
    case Emit(id, frame) => EmitKeeps(s, id, frame);
    case PumpRead(id) => PumpReadKeeps(s, id);
    case PumpWrite(id, bytes) =>
      RelayWriteKeepsLink(s.net, s.links[id], bytes);
      PairChangeKeeps(s, id, H.Do(s.links[id].pair, H.Write(H.Relay, HR.BINARY, bytes)));
    case Receive(id, reader, now) => ReceiveKeeps(s, id, reader, now);
  }

  lemma InitialInv()
    ensures Inv(INIT)
  {
  }

  // Over any number of transports and replacements, whatever the requests suffer
  // and whichever transports the pumps write to, the stream law holds in every
  // state exactly when every waking reader holds the bytes that come next.
  lemma {:induction false} EndToEndExact(s: Stack, steps: seq<Step>)
    requires Inv(s) && Run(s, steps)
    ensures AlwaysStream(s, steps) <==> AllRight(s, steps)
    ensures AllRight(s, steps) ==> Inv(Final(s, steps))
    decreases |steps|
  {
    if steps != [] {
      if Right(s, steps[0]) {
        StepKeeps(s, steps[0]);
        EndToEndExact(Do(s, steps[0]), steps[1..]);
      } else {
        R.StepExact(s.net, steps[0].step);
      }
    }
  }

  lemma {:induction false} FreshRunsAreRight(s: Stack, steps: seq<Step>)
    requires Inv(s) && Run(s, steps) && AllFresh(s, steps)
    ensures AllRight(s, steps)
    decreases |steps|
  {
    if steps != [] {
      if steps[0].Local? {
        R.FreshIsRight(s.net, steps[0].step);
      }
      StepKeeps(s, steps[0]);
      FreshRunsAreRight(Do(s, steps[0]), steps[1..]);
    }
  }

  // End to end, in every run without a stale wake: the bytes each application has
  // read are a prefix of those the other has written.
  lemma EndToEnd(s: Stack, steps: seq<Step>)
    requires Inv(s) && Run(s, steps) && AllFresh(s, steps)
    ensures Inv(Final(s, steps))
    ensures Final(s, steps).net.work.read <= Final(s, steps).net.home.written
    ensures Final(s, steps).net.home.read <= Final(s, steps).net.work.written
  {
    FreshRunsAreRight(s, steps);
    EndToEndExact(s, steps);
    ReadIsPrefix(Final(s, steps).net.home, Final(s, steps).net.work);
    ReadIsPrefix(Final(s, steps).net.work, Final(s, steps).net.home);
  }

  lemma ReadIsPrefix(p: N.Peer, q: N.Peer)
    requires N.StreamLaw(p, q)
    ensures q.read <= p.written
  {
    assert q.read <= q.read + q.ep.recvBuffer;
  }
}
