// Two runs from the initial state in which a receiver refuses a record its peer
// was entitled to send: the sender does not limit how many records it has
// unacknowledged, and a close record may exceed the byte limit both sides share.
module HttpPairLimits {
  import opened Prelude
  import opened HttpRecord
  import opened HttpPair
  import Drain = HttpPairDrain
  import Safety = HttpPairSafety
  import S = HttpStream

  ghost predicate Reachable(n: Pair) {
    exists steps :: Run(INIT, steps) && Final(INIT, steps) == n
  }

  lemma {:induction false} RunExtends(n: Pair, steps: seq<Step>, t: Step)
    requires Run(n, steps) && Enabled(Final(n, steps), t)
    ensures Run(n, steps + [t]) && Final(n, steps + [t]) == Do(Final(n, steps), t)
    decreases |steps|
  {
    if steps == [] {
      assert [t][1..] == [];
    } else {
      assert (steps + [t])[1..] == steps[1..] + [t];
      RunExtends(Do(n, steps[0]), steps[1..], t);
    }
  }

  lemma ReachableStep(n: Pair, t: Step)
    requires Reachable(n) && Enabled(n, t)
    ensures Reachable(Do(n, t))
  {
    var steps :| Run(INIT, steps) && Final(INIT, steps) == n;
    RunExtends(INIT, steps, t);
  }

  lemma ReachableInv(n: Pair)
    requires Reachable(n)
    ensures Inv(n)
  {
    var steps :| Run(INIT, steps) && Final(INIT, steps) == n;
    Safety.InitialInv();
    Safety.PairSafety(INIT, steps);
  }

  function Zeros(n: nat): seq<byte> {
    seq(n, _ => 0)
  }

  // The bytes of `count` messages of `size` bytes each.
  function Total(count: nat, size: nat): nat {
    if count == 0 then 0 else Total(count - 1, size) + size
  }

  lemma {:induction false} TotalOfEmpty(count: nat)
    ensures Total(count, 0) == 0
  {
    if count > 0 {
      TotalOfEmpty(count - 1);
    }
  }

  lemma {:induction false} TotalOfLargest(count: nat)
    ensures Total(count, READ_LIMIT) == count * READ_LIMIT
  {
    if count > 0 {
      TotalOfLargest(count - 1);
    }
  }

  // The client has written an empty message and then `count` messages of `size`
  // bytes; the relay has received nothing.
  predicate Written(n: Pair, count: nat, size: nat) {
    var c := n.client.conn;
    && !c.closed && !c.closing && |c.sendFrames| == |n.client.accepted| == count + 1
    && c.sendBytes == Total(count, size)
    && (forall i :: 1 <= i <= count ==> n.client.accepted[i] == Message(TEXT, Zeros(size)))
  }

  lemma {:induction false} WriteMany(count: nat, size: nat) returns (n: Pair)
    requires size <= READ_LIMIT && Total(count, size) <= S.MAX_BUFFERED && count <= 5000
    ensures Reachable(n) && Written(n, count, size) && n.relay.conn == S.FRESH
  {
    if count == 0 {
      assert Run(INIT, []) && Final(INIT, []) == INIT;
      ReachableStep(INIT, Write(Client, TEXT, []));
      n := Do(INIT, Write(Client, TEXT, []));
    } else {
      var m := WriteMany(count - 1, size);
      ReachableInv(m);
      ReachableStep(m, Write(Client, TEXT, Zeros(size)));
      n := Do(m, Write(Client, TEXT, Zeros(size)));
    }
  }

  ghost predicate AllEmitted(n: Pair) {
    forall i :: 0 <= i < |n.client.conn.sendFrames| ==> n.client.conn.sendFrames[i] in n.client.emitted
  }

  // The client uploads from one of its records on.
  lemma EmitOne(n: Pair, k: nat) returns (n': Pair)
    requires Reachable(n) && k < |n.client.conn.sendFrames|
    ensures Reachable(n') && n.client.conn.sendFrames[k] in n'.client.emitted && n.client.emitted <= n'.client.emitted
    ensures n'.client.conn == n.client.conn && n'.client.accepted == n.client.accepted && n'.relay == n.relay
  {
    ReachableInv(n);
    var t := Drain.Carry(n, Client, k);
    Drain.CarryEmits(n, Client, k);
    ReachableStep(n, t);
    n' := Do(n, t);
  }

  ghost predicate EmittedTo(n: Pair, k: nat) {
    k <= |n.client.conn.sendFrames| && forall i :: 0 <= i < k ==> n.client.conn.sendFrames[i] in n.client.emitted
  }

  lemma {:induction false} EmitFirst(n: Pair, k: nat) returns (n': Pair)
    requires Reachable(n) && k <= |n.client.conn.sendFrames|
    ensures Reachable(n') && EmittedTo(n', k)
    ensures n'.client.conn == n.client.conn && n'.client.accepted == n.client.accepted && n'.relay == n.relay
    decreases k
  {
    if k == 0 {
      n' := n;
    } else {
      var m := EmitFirst(n, k - 1);
      n' := EmitOne(m, k - 1);
    }
  }

  lemma EmitAll(n: Pair) returns (n': Pair)
    requires Reachable(n)
    ensures Reachable(n') && AllEmitted(n')
    ensures n'.client.conn == n.client.conn && n'.client.accepted == n.client.accepted && n'.relay == n.relay
  {
    n' := EmitFirst(n, |n.client.conn.sendFrames|);
  }

  // The relay holds the records 2 to k + 1, and still lacks the first.
  predicate Holding(n: Pair, k: nat, size: nat) {
    && n.relay.conn.recvNext == 1 && |n.relay.conn.recvAhead| == k
    && n.relay.conn.recvAheadBytes == Total(k, size)
    && (forall j <- n.relay.conn.recvAhead :: j <= k + 1)
  }

  ghost predicate Ready(n: Pair, count: nat, size: nat) {
    count <= 5000 && Reachable(n) && AllEmitted(n) && Written(n, count, size)
  }

  // The record of the (k+1)-th of the equal messages.
  lemma NextRecord(n: Pair, k: nat, count: nat, size: nat)
    requires Ready(n, count, size) && k < count
    ensures n.client.conn.sendFrames[k + 1] == Record(TEXT, k + 2, Zeros(size))
    ensures n.client.conn.sendFrames[k + 1] in n.client.emitted
  {
    ReachableInv(n);
    assert n.client.conn.sendFrames[k + 1] == Numbered(n.client.accepted, k + 2);
  }

  // The relay holds a record beyond the last it holds.
  lemma RelayHolds(c: S.Conn, r: Record)
    requires r.kind == TEXT && r.seqNo > c.recvNext && r.seqNo !in c.recvAhead
    requires S.ApplyRecord(c, r, 0).1 != S.TooFar
    ensures S.ApplyRecord(c, r, 0) ==
      (c.(recvAhead := c.recvAhead[r.seqNo := r], recvAheadBytes := c.recvAheadBytes + |r.payload|), S.Applied)
    ensures |c.recvAhead[r.seqNo := r]| == |c.recvAhead| + 1
  {
  }

  // Below the record limit, and with the sender within the byte limit, the next is
  // held.
  lemma NextIsHeld(n: Pair, k: nat, count: nat, size: nat)
    requires Ready(n, count, size) && Holding(n, k, size) && k < count && k < S.REORDER_LIMIT
    ensures S.ApplyRecord(n.relay.conn, Record(TEXT, k + 2, Zeros(size)), 0).1 != S.TooFar
  {
    NextRecord(n, k, count, size);
    ReachableInv(n);
    Safety.OutcomeLaw(n.client, n.relay, Record(TEXT, k + 2, Zeros(size)), 0);
  }

  lemma HoldNext(n: Pair, k: nat, count: nat, size: nat) returns (n': Pair)
    requires Ready(n, count, size) && Holding(n, k, size) && k < count && k < S.REORDER_LIMIT
    ensures Ready(n', count, size) && Holding(n', k + 1, size)
  {
    NextRecord(n, k, count, size);
    NextIsHeld(n, k, count, size);
    var r := Record(TEXT, k + 2, Zeros(size));
    var t := Apply(Relay, r, 0, true);
    RelayHolds(n.relay.conn, r);
    ReachableStep(n, t);
    n' := Do(n, t);
    assert n'.client == n.client;
  }

  lemma HoldNone(n: Pair, size: nat)
    requires n.relay.conn == S.FRESH
    ensures Holding(n, 0, size)
  {
  }

  lemma {:induction false} HoldMany(n: Pair, k: nat, count: nat, size: nat) returns (n': Pair)
    requires Ready(n, count, size) && n.relay.conn == S.FRESH && k <= count && k <= S.REORDER_LIMIT
    ensures Ready(n', count, size) && Holding(n', k, size)
    decreases k
  {
    if k == 0 {
      HoldNone(n, size);
      n' := n;
    } else {
      var m := HoldMany(n, k - 1, count, size);
      n' := HoldNext(m, k - 1, count, size);
    }
  }

  lemma Fill(k: nat, count: nat, size: nat) returns (n: Pair)
    requires size <= READ_LIMIT && Total(count, size) <= S.MAX_BUFFERED && count <= 5000
    requires k <= count && k <= S.REORDER_LIMIT
    ensures Ready(n, count, size) && Holding(n, k, size)
  {
    var n0 := WriteMany(count, size);
    var n1 := EmitAll(n0);
    n := HoldMany(n1, k, count, size);
  }

  // Without any close, a sender with enough small records outstanding is refused.
  lemma CountLimitIsReachable() returns (n: Pair, r: Record)
    ensures Reachable(n) && !n.client.conn.closing && r in n.client.emitted
    ensures S.ApplyRecord(n.relay.conn, r, 0).1 == S.TooFar
  {
    var count := S.REORDER_LIMIT + 1;
    TotalOfEmpty(count);
    n := Fill(S.REORDER_LIMIT, count, 0);
    NextRecord(n, S.REORDER_LIMIT, count, 0);
    r := n.client.conn.sendFrames[count];
  }

  lemma CloseAndEmit(n: Pair, count: nat, size: nat) returns (n': Pair, r: Record)
    requires Ready(n, count, size) && count < 5000
    ensures Reachable(n') && r in n'.client.emitted && n'.relay == n.relay
    ensures r == Record(CLOSE, count + 2, [3, 232])
  {
    var t := Close(Client, [3, 232]);
    ReachableInv(n);
    ReachableStep(n, t);
    var n1 := Do(n, t);
    n' := EmitAll(n1);
    r := n1.client.conn.sendFrames[count + 1];
    assert n'.client.conn.sendFrames[count + 1] == r;
    assert r == Record(CLOSE, n.client.conn.nextSend, [3, 232]);
  }

  // A close queued behind a full buffer is refused for its bytes alone.
  lemma ByteLimitIsReachableByClose() returns (n: Pair, r: Record)
    ensures Reachable(n) && r in n.client.emitted && r.kind == CLOSE
    ensures |n.relay.conn.recvAhead| == 8
    ensures S.ApplyRecord(n.relay.conn, r, 0).1 == S.TooFar
  {
    TotalOfLargest(8);
    var n0 := Fill(8, 8, READ_LIMIT);
    n, r := CloseAndEmit(n0, 8, READ_LIMIT);
  }
}
