// An undisturbed generation can always finish: sending, receiving and reading on
// leads to a drained state, whichever of the possible moves are made.
module ResumableDrain {
  import opened Prelude
  import opened ResumableFrame
  import opened ResumableNet
  import opened ResumableFifo
  import opened ResumableFifoSafety
  import E = ResumableEndpoint

  // Frames that will be answered.
  predicate Asks(f: Frame) {
    f.kind == DATA || f.kind == PING
  }

  function Count(frames: seq<Frame>, asking: bool): nat {
    if frames == [] then 0 else (if Asks(frames[0]) == asking then 1 else 0) + Count(frames[1..], asking)
  }

  lemma {:induction false} CountAppend(a: seq<Frame>, b: seq<Frame>, asking: bool)
    ensures Count(a + b, asking) == Count(a, asking) + Count(b, asking)
  {
    if a == [] {
      assert a + b == b;
    } else {
      assert (a + b)[1..] == a[1..] + b;
      CountAppend(a[1..], b, asking);
    }
  }

  function Unsent(s: Fifo): nat {
    (if s.home.pending.Some? then 1 else 0) + (if s.work.pending.Some? then 1 else 0)
  }

  function Queued(s: Fifo, asking: bool): nat {
    Count(s.home.out, asking) + Count(s.work.out, asking)
  }

  function Unread(s: Fifo): nat {
    |s.net.home.ep.recvBuffer| + |s.net.work.ep.recvBuffer|
  }

  // The moves that finish a generation: no new writes, attachments or heartbeats.
  predicate Finishing(m: Move) {
    m.Transmit? || m.Receive? || m.Take?
  }

  // Until it is drained, some finishing move is possible.
  lemma SomeMove(s: Fifo, now: int) returns (m: Move)
    requires FifoInv(s) && s.home.up && s.work.up && !Drained(s)
    ensures Finishing(m) && Possible(s, m)
  {
    if s.home.pending.Some? {
      m := Transmit(Home);
    } else if s.work.pending.Some? {
      m := Transmit(Work);
    } else {
      var side := if s.home.out != [] then Work else Home;
      m := ReceiveOrTake(s, side, now);
    }
  }

  // An empty receive buffer has room for any frame.
  lemma EmptyNeverWaits(e: E.Endpoint, f: Frame, now: int)
    requires E.Valid(e) && WellFormed(f) && e.recvBuffer == []
    ensures !E.HandleFrame(e, f, now).1.Wait?
  {
  }

  lemma ReceiveOrTake(s: Fifo, side: Side, now: int) returns (m: Move)
    requires FifoInv(s) && s.home.up && s.work.up && Incoming(s, side) != []
    ensures Finishing(m) && Possible(s, m)
  {
    var p, q := At(s.net, side), At(s.net, Other(side));
    if p.ep.recvBuffer != [] {
      m := Take(side, 1);
    } else {
      m := Receive(side, now);
      var f := Incoming(s, side)[0];
      assert f in q.emitted && WellFormed(f) && E.Valid(p.ep) && p.waiting == map[] && p.ep.generation >= 1;
      EmptyNeverWaits(p.ep, f, now);
      assert Enabled(s.net, AsStep(s, m));
    }
  }

  // A finishing move lowers this measure, read lexicographically.
  lemma FinishingLowers(s: Fifo, m: Move)
    requires FifoInv(s) && Possible(s, m) && Finishing(m)
    ensures var s' := Moved(s, m);
      || Unsent(s') < Unsent(s)
      || (Unsent(s') == Unsent(s) && Queued(s', true) < Queued(s, true))
      || (Unsent(s') == Unsent(s) && Queued(s', true) == Queued(s, true) && Queued(s', false) < Queued(s, false))
      || (Unsent(s') == Unsent(s) && Queued(s', true) == Queued(s, true) && Queued(s', false) == Queued(s, false)
          && Unread(s') < Unread(s))
  {
    if m.Receive? {
      ReceiveLowers(s, m);
    }
  }

  lemma ReceiveAnswerLowers(s: Fifo, m: Move)
    requires FifoInv(s) && Possible(s, m) && m.Receive? && !Asks(Incoming(s, m.side)[0])
    ensures Moved(s, m).home.pending == s.home.pending && Moved(s, m).work.pending == s.work.pending
    ensures Queued(Moved(s, m), true) == Queued(s, true) && Queued(Moved(s, m), false) < Queued(s, false)
  {
    var c := Chan(s, m.side);
    assert c.out + [] == c.out;
    assert !Reacts(s, m).Reply?;
  }

  lemma ReceiveAskLowers(s: Fifo, m: Move)
    requires FifoInv(s) && Possible(s, m) && m.Receive? && Asks(Incoming(s, m.side)[0])
    requires !Reacts(s, m).Reject?
    ensures Moved(s, m).home.pending == s.home.pending && Moved(s, m).work.pending == s.work.pending
    ensures Queued(Moved(s, m), true) < Queued(s, true)
  {
    var r := Reacts(s, m);
    assert r.Reply? && !Asks(r.frame);
    CountAppend(Chan(s, m.side).out, [r.frame], true);
  }

  lemma ReceiveLowers(s: Fifo, m: Move)
    requires FifoInv(s) && Possible(s, m) && m.Receive?
    ensures Unsent(Moved(s, m)) == Unsent(s)
    ensures
      || Queued(Moved(s, m), true) < Queued(s, true)
      || (Queued(Moved(s, m), true) == Queued(s, true) && Queued(Moved(s, m), false) < Queued(s, false))
  {
    NeverRejects(s, m);
    assert Incoming(s, m.side)[0] in At(s.net, Other(m.side)).emitted;
    if !Asks(Incoming(s, m.side)[0]) {
      ReceiveAnswerLowers(s, m);
    } else {
      ReceiveAskLowers(s, m);
    }
  }

  // From every state of an undisturbed generation in which both sides have
  // attached, finishing moves lead to a drained state, hence to agreement.
  // By FinishingLowers every sequence of finishing moves ends.
  lemma {:induction false} Drains(s: Fifo, now: int) returns (moves: seq<Move>)
    requires FifoInv(s) && s.home.up && s.work.up
    ensures Moves(s, moves) && (forall m <- moves :: Finishing(m))
    ensures Drained(After(s, moves)) && Agreement(After(s, moves).net)
    decreases Unsent(s), Queued(s, true), Queued(s, false), Unread(s)
  {
    if Drained(s) {
      DrainedAgrees(s);
      moves := [];
    } else {
      var m := SomeMove(s, now);
      FinishingLowers(s, m);
      MoveKeeps(s, m);
      var rest := Drains(Moved(s, m), now);
      moves := [m] + rest;
      assert moves[1..] == rest;
    }
  }
}
