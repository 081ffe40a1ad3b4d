// A run from the initial state that ends with a byte delivered twice. The law of
// ResumableSafety therefore needs its condition: two readers of one side, the
// second from a newer transport, cut the same bytes off the same replayed frame
// while the receive buffer was full, and both append them once it drains.
module ResumableStaleWake {
  import opened Prelude
  import opened ResumableFrame
  import opened ResumableNet
  import E = ResumableEndpoint

  const CHUNKS: nat := 128

  function Zeros(n: nat): seq<byte> {
    seq(n, _ => 0)
  }

  ghost predicate Reachable(n: Net) {
    exists steps :: Run(INIT, steps) && Final(INIT, steps) == n
  }

  lemma {:induction false} RunExtends(n: Net, steps: seq<Step>, t: Step)
    requires Run(n, steps) && Enabled(Final(n, steps), t)
    ensures Run(n, steps + [t]) && Final(n, steps + [t]) == Do(Final(n, steps), t)
    decreases |steps|
  {
    if steps == [] {
      assert [t][1..] == [];
    } else {
      assert (steps + [t])[1..] == steps[1..] + [t];
      RunExtends(Do(n, steps[0]), steps[1..], t);
    }
  }

  lemma ReachableStep(n: Net, t: Step)
    requires Reachable(n) && Enabled(n, t)
    ensures Reachable(Do(n, t))
  {
    var steps :| Run(INIT, steps) && Final(INIT, steps) == n;
    RunExtends(INIT, steps, t);
  }

  // k chunks of zeros written, received and acknowledged; none read.
  predicate Filled(n: Net, k: nat) {
    var size := k * CHUNK_SIZE;
    && k <= CHUNKS
    && !n.home.ep.closed && n.home.ep.ws == Some(1) && n.home.ep.generation == 1
    && n.home.ep.sendBuffer == [] && n.home.ep.sendBase == n.home.ep.sendEnd == size
    && n.home.written == Zeros(size) && n.home.queued == {} && n.home.waiting == map[]
    && !n.work.ep.closed && n.work.ep.ws == Some(1) && n.work.ep.generation == 1
    && n.work.ep.recvOffset == size && n.work.ep.recvBuffer == Zeros(size)
    && n.work.read == [] && n.work.waiting == map[] && E.Valid(n.work.ep)
  }

  lemma Start() returns (n: Net)
    ensures Reachable(n) && Filled(n, 0)
  {
    var n0 := INIT;
    assert Run(INIT, []) && Final(INIT, []) == n0;
    ReachableStep(n0, Attach(Home, 1, 0, None));
    var n1 := Do(n0, Attach(Home, 1, 0, None));
    ReachableStep(n1, Attach(Work, 1, 0, None));
    n := Do(n1, Attach(Work, 1, 0, None));
  }

  // Home queues a chunk and gets it onto its transport.
  lemma Transmit(n: Net, k: nat, chunk: seq<byte>) returns (n': Net, f: Frame)
    requires Reachable(n) && Filled(n, k) && 0 < |chunk| <= CHUNK_SIZE
    ensures f == Frame(DATA, k * CHUNK_SIZE, chunk)
    ensures Reachable(n') && n'.work == n.work && f in n'.home.emitted
    ensures n'.home.written == n.home.written + chunk && n'.home.queued == {} && n'.home.waiting == map[]
    ensures n'.home.ep == E.QueueSend(n.home.ep, chunk, 0)
  {
    f := Frame(DATA, k * CHUNK_SIZE, chunk);
    ReachableStep(n, Queue(Home, chunk, 0));
    var n1 := Do(n, Queue(Home, chunk, 0));
    assert n1.home.queued == {f};
    ReachableStep(n1, Send(Home, f, true));
    n' := Do(n1, Send(Home, f, true));
  }

  // Work's reader receives a chunk it has room for.
  lemma Receive(n: Net, size: u64, f: Frame) returns (n': Net)
    requires Reachable(n) && f in n.home.emitted && f == Frame(DATA, size, Zeros(CHUNK_SIZE))
    requires size + CHUNK_SIZE <= E.MAX_BUFFER && n.work.ep.recvOffset == size && |n.work.ep.recvBuffer| == size
    requires !n.work.ep.closed && n.work.ep.ws == Some(1) && n.work.ep.generation == 1 && E.Valid(n.work.ep)
    requires n.work.waiting == map[] && n.work.read == []
    ensures Reachable(n') && n'.home == n.home
    ensures n'.work.ep == n.work.ep.(recvOffset := size + CHUNK_SIZE, recvBuffer := n.work.ep.recvBuffer + Zeros(CHUNK_SIZE))
    ensures n'.work.waiting == map[] && n'.work.read == [] && E.Valid(n'.work.ep)
    ensures Frame(ACK, size + CHUNK_SIZE, []) in n'.work.emitted
  {
    var t := Deliver(Work, 1, f, 0);
    ReachableStep(n, t);
    n' := Do(n, t);
    assert f.payload[0..] == f.payload;
    assert E.CheckData(n.work.ep, f.offset, f.payload) == E.Fresh(f.payload);
  }

  // Home gets the acknowledgement of all it has queued.
  lemma Acknowledge(n: Net, size: u64) returns (n': Net)
    requires Reachable(n) && Frame(ACK, size, []) in n.work.emitted
    requires !n.home.ep.closed && n.home.ep.ws == Some(1) && n.home.ep.generation == 1 && n.home.waiting == map[]
    requires E.Valid(n.home.ep) && n.home.ep.sendEnd == size && n.home.ep.sendBase <= size
    ensures Reachable(n') && n'.work == n.work
    ensures n'.home == n.home.(ep := n.home.ep.(sendBase := size, sendBuffer := [], lastAckProgress := n'.home.ep.lastAckProgress))
  {
    var t := Deliver(Home, 1, Frame(ACK, size, []), 0);
    ReachableStep(n, t);
    n' := Do(n, t);
  }

  lemma FillOne(n: Net, k: nat) returns (n': Net)
    requires Reachable(n) && Filled(n, k) && k < CHUNKS
    ensures Reachable(n') && Filled(n', k + 1)
  {
    var n2, f := Transmit(n, k, Zeros(CHUNK_SIZE));
    var n3 := Receive(n2, k * CHUNK_SIZE, f);
    var size := (k + 1) * CHUNK_SIZE;
    n' := Acknowledge(n3, size);
    assert n'.home.written == Zeros(size);
    assert n'.work.ep.recvBuffer == Zeros(size);
  }

  lemma {:induction false} Fill(k: nat) returns (n: Net)
    requires k <= CHUNKS
    ensures Reachable(n) && Filled(n, k)
  {
    if k == 0 {
      n := Start();
    } else {
      var m := Fill(k - 1);
      n := FillOne(m, k - 1);
    }
  }

  // The receive buffer is full and both of Work's readers hold the byte 7.
  predicate TwoHold(n: Net) {
    && n.home.written == Zeros(E.MAX_BUFFER) + [7]
    && !n.work.ep.closed && n.work.ep.generation == 2
    && n.work.ep.recvOffset == E.MAX_BUFFER && n.work.ep.recvBuffer == Zeros(E.MAX_BUFFER) && n.work.read == []
    && n.work.waiting == map[1 := Held(E.MAX_BUFFER, [7]), 2 := Held(E.MAX_BUFFER, [7])]
  }

  lemma FirstHolds() returns (n: Net, f: Frame)
    ensures Reachable(n) && f in n.home.emitted && f == Frame(DATA, E.MAX_BUFFER, [7])
    ensures n.home.written == Zeros(E.MAX_BUFFER) + [7] && n.work.ep.ws == Some(1)
    ensures !n.work.ep.closed && n.work.ep.generation == 1 && E.Valid(n.work.ep)
    ensures n.work.ep.recvOffset == E.MAX_BUFFER && n.work.ep.recvBuffer == Zeros(E.MAX_BUFFER)
    ensures n.work.read == [] && n.work.waiting == map[1 := Held(E.MAX_BUFFER, [7])]
  {
    var n0 := Fill(CHUNKS);
    var n2;
    n2, f := Transmit(n0, CHUNKS, [7]);
    ReachableStep(n2, Deliver(Work, 1, f, 0));
    n := Do(n2, Deliver(Work, 1, f, 0));
    assert [7][0..] == [7];
  }

  // Work loses its transport and attaches a new one.
  lemma Reattach(n: Net) returns (n': Net)
    requires Reachable(n) && n.work.ep.ws == Some(1) && n.work.ep.generation == 1 && !n.work.ep.closed
    ensures Reachable(n') && n'.home == n.home
    ensures n'.work.ep.generation == 2
    ensures n'.work.ep == E.Attach(n.work.ep, 2, 0)
    ensures n'.work.waiting == n.work.waiting && n'.work.read == n.work.read
  {
    ReachableStep(n, Drop(Work, 1, 1));
    var n1 := Do(n, Drop(Work, 1, 1));
    ReachableStep(n1, Attach(Work, 2, 0, None));
    n' := Do(n1, Attach(Work, 2, 0, None));
  }

  // The new transport's reader is sent the same frame.
  lemma SecondHolds() returns (n: Net)
    ensures Reachable(n) && TwoHold(n)
  {
    var n0, f := FirstHolds();
    var n2 := Reattach(n0);
    var t := Deliver(Work, 2, f, 0);
    ReachableStep(n2, t);
    n := Do(n2, t);
    assert f.payload[0..] == f.payload;
    assert E.CheckData(n2.work.ep, f.offset, f.payload) == E.Fresh(f.payload);
  }

  // A waiting reader with room appends what it holds.
  lemma WakeOne(n: Net, reader: nat) returns (n': Net)
    requires Reachable(n) && reader in n.work.waiting && n.work.waiting[reader].rest == [7]
    requires !n.work.ep.closed && |n.work.ep.recvBuffer| < E.MAX_BUFFER
    ensures Reachable(n') && n'.home == n.home && n'.work.read == n.work.read
    ensures n'.work.ep.recvBuffer == n.work.ep.recvBuffer + [7] && !n'.work.ep.closed
    ensures n'.work.waiting == n.work.waiting - {reader}
  {
    ReachableStep(n, Wake(Work, reader));
    n' := Do(n, Wake(Work, reader));
  }

  lemma MakeRoom(n: Net) returns (n': Net)
    requires Reachable(n) && TwoHold(n)
    ensures Reachable(n') && n'.home == n.home && n'.work.waiting == n.work.waiting && !n'.work.ep.closed
    ensures |n'.work.ep.recvBuffer| == E.MAX_BUFFER - 2
    ensures n'.work.read + n'.work.ep.recvBuffer == Zeros(E.MAX_BUFFER)
  {
    ReachableStep(n, Read(Work, 2));
    n' := Do(n, Read(Work, 2));
  }

  // The law fails in a reachable state: Work has received a byte Home never
  // wrote, a second copy of the last one.
  lemma DuplicateIsReachable() returns (n: Net)
    ensures Reachable(n) && !StreamLaw(n.home, n.work)
    ensures n.home.written == Zeros(E.MAX_BUFFER) + [7]
    ensures n.work.read + n.work.ep.recvBuffer == n.home.written + [7]
  {
    var n0 := SecondHolds();
    var n1 := MakeRoom(n0);
    var n2 := WakeOne(n1, 1);
    n := WakeOne(n2, 2);
    assert n.work.read + n.work.ep.recvBuffer == (n1.work.read + n1.work.ep.recvBuffer) + [7] + [7];
    assert |n.work.read + n.work.ep.recvBuffer| == |n.home.written| + 1;
  }
}
