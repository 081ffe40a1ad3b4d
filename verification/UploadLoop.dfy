// The client's upload scheduler: which queued records each POST carries, how
// many POSTs travel at once, and what is sent again after a failure or silence.
module UploadLoop {
  import opened Prelude
  import opened HttpRecord
  import S = HttpStream

  const PIPELINE: nat := 5
  const PIPELINE_BATCH_BYTES: nat := 262144
  const KEEPALIVE_MS: int := 10000
  const FIRST_BACKOFF_MS: int := 250
  const LAST_BACKOFF_MS: int := 5000

  // A POST in flight; no frames means it only carries an acknowledgement.
  datatype Post = Post(ack: u64, frames: seq<Record>)

  datatype Loop = Loop(
    nextClaim: u64,
    deliveredAck: u64,
    inFlight: seq<Post>,
    pipelined: bool,
    warmups: nat,
    lastStart: int,
    retryAt: int,
    backoff: int)

  function Window(l: Loop): nat {
    if l.pipelined then PIPELINE else 1
  }

  function BatchLimit(l: Loop): nat {
    if l.pipelined then PIPELINE_BATCH_BYTES else S.MAX_BUFFERED
  }

  function NextBackoff(backoff: int): int {
    Min(2 * backoff, LAST_BACKOFF_MS)
  }

  // Once nothing is in flight and nothing was started for a while, claiming
  // restarts at the first unacknowledged record.
  function Resend(l: Loop, c: S.Conn, now: int): Loop {
    if l.inFlight == [] && now - l.lastStart >= S.RESEND_AFTER_MS
       && c.sendFrames != [] && c.sendFrames[0].seqNo != 0 && c.sendFrames[0].seqNo < l.nextClaim
    then l.(nextClaim := c.sendFrames[0].seqNo)
    else l
  }

  // One POST, if there is a slot for it and something for it to do.
  predicate CanStart(l: Loop, c: S.Conn, downAcks: bool, now: int) {
    var idle := l.inFlight == [];
    && |l.inFlight| < Window(l) && now >= l.retryAt
    && (S.FramesFrom(c.sendFrames, l.nextClaim, BatchLimit(l)) != []
        || (idle && S.Acknowledged(c) > l.deliveredAck && !downAcks)
        || (idle && now - l.lastStart >= KEEPALIVE_MS)
        || l.warmups > 0)
  }

  // Where the next claim starts after taking some frames.
  function ClaimAfter(first: u64, got: seq<Record>): u64 {
    if got != [] then Add64(got[|got| - 1].seqNo, 1) else first
  }

  function Start(l: Loop, c: S.Conn, now: int): Loop {
    var frames := S.FramesFrom(c.sendFrames, l.nextClaim, BatchLimit(l));
    l.(inFlight := l.inFlight + [Post(S.Acknowledged(c), frames)],
       nextClaim := ClaimAfter(l.nextClaim, frames),
       warmups := if frames == [] && l.warmups > 0 then l.warmups - 1 else l.warmups,
       lastStart := now)
  }

  function StartAll(l: Loop, c: S.Conn, downAcks: bool, now: int): Loop
    decreases Window(l) - |l.inFlight|
  {
    if CanStart(l, c, downAcks, now) then StartAll(Start(l, c, now), c, downAcks, now) else l
  }

  function Without<T>(s: seq<T>, i: nat): seq<T>
    requires i < |s|
  {
    s[..i] + s[i + 1..]
  }

  // POST i returns. confirmed: the relay said that it reorders overlapping POSTs.
  function Finish(l: Loop, i: nat, ok: bool, confirmed: bool, now: int): Loop
    requires i < |l.inFlight|
  {
    var post, l' := l.inFlight[i], l.(inFlight := Without(l.inFlight, i));
    if !ok then
      l'.(nextClaim := if post.frames != [] && post.frames[0].seqNo < l.nextClaim then post.frames[0].seqNo else l.nextClaim,
          retryAt := now + l.backoff,
          backoff := NextBackoff(l.backoff))
    else
      l'.(backoff := FIRST_BACKOFF_MS,
          deliveredAck := if post.ack > l.deliveredAck then post.ack else l.deliveredAck,
          pipelined := l.pipelined || confirmed,
          warmups := if confirmed && !l.pipelined then PIPELINE - 1 else l.warmups)
  }

  // The loop's variables, updated in place. The connection is the one whose
  // queue it drains; it does not change while the loop claims from it.
  class ClientUpLoop {
    var nextClaim: u64
    var deliveredAck: u64
    var inFlight: seq<Post>
    var pipelined: bool
    var warmups: nat
    var lastStart: int
    var retryAt: int
    var backoff: int

    function State(): Loop
      reads this
    {
      Loop(nextClaim, deliveredAck, inFlight, pipelined, warmups, lastStart, retryAt, backoff)
    }

    constructor (now: int)
      ensures State() == Loop(1, 0, [], false, 1, now, now, FIRST_BACKOFF_MS)
    {
      nextClaim, deliveredAck, inFlight := 1, 0, [];
      pipelined, warmups := false, 1;
      lastStart, retryAt, backoff := now, now, FIRST_BACKOFF_MS;
    }

    // The resend rule.
    method RestartClaims(c: S.Conn, now: int)
      modifies this`nextClaim
      ensures State() == Resend(old(State()), c, now)
      ensures nextClaim ==
        if inFlight == [] && now - lastStart >= 3000 && c.sendFrames != [] && 0 < c.sendFrames[0].seqNo < old(nextClaim)
        then c.sendFrames[0].seqNo else old(nextClaim)
    {
      if |inFlight| == 0 && now - lastStart >= S.RESEND_AFTER_MS {
        var first: u64 := if c.sendFrames == [] then 0 else c.sendFrames[0].seqNo;
        if first != 0 && first < nextClaim {
          nextClaim := first;
        }
      }
    }

    // One POST into a free slot, unless there is nothing for it to do.
    method StartPost(c: S.Conn, downAcks: bool, now: int) returns (started: bool)
      requires |inFlight| < Window(State()) && now >= retryAt
      modifies this
      ensures started == CanStart(old(State()), c, downAcks, now)
      ensures State() == if started then Start(old(State()), c, now) else old(State())
    {
      var frames, ack := S.FramesFrom(c.sendFrames, nextClaim, BatchLimit(State())), S.Acknowledged(c);
      var ackOnly := |inFlight| == 0 && ack > deliveredAck && !downAcks;
      var keepaliveDue := |inFlight| == 0 && now - lastStart >= KEEPALIVE_MS;
      if |frames| == 0 && !ackOnly && !keepaliveDue && warmups == 0 {
        return false;
      }
      if |frames| == 0 && warmups > 0 {
        warmups := warmups - 1;
      }
      if |frames| > 0 {
        nextClaim := Add64(frames[|frames| - 1].seqNo, 1);
      }
      inFlight := inFlight + [Post(ack, frames)];
      lastStart := now;
      started := true;
    }

    // The head of the loop: the resend rule, then POSTs until the window is full
    // or there is nothing to send.
    method StartPosts(c: S.Conn, downAcks: bool, now: int)
      modifies this
      ensures State() == StartAll(Resend(old(State()), c, now), c, downAcks, now)
    {
      RestartClaims(c, now);
      ghost var resent := State();
      var more := true;
      while more && |inFlight| < Window(State()) && now >= retryAt
        invariant StartAll(State(), c, downAcks, now) == StartAll(resent, c, downAcks, now)
        invariant !more ==> !CanStart(State(), c, downAcks, now)
        decreases more, Window(State()) - |inFlight|
      {
        more := StartPost(c, downAcks, now);
      }
    }

    method OnResult(i: nat, ok: bool, confirmed: bool, now: int)
      requires i < |inFlight|
      modifies this
      ensures State() == Finish(old(State()), i, ok, confirmed, now)
    {
      var post := inFlight[i];
      inFlight := inFlight[..i] + inFlight[i + 1..];
      if !ok {
        if |post.frames| > 0 && post.frames[0].seqNo < nextClaim {
          nextClaim := post.frames[0].seqNo;
        }
        retryAt := now + backoff;
        backoff := NextBackoff(backoff);
      } else {
        backoff := FIRST_BACKOFF_MS;
        if post.ack > deliveredAck {
          deliveredAck := post.ack;
        }
        if confirmed && !pipelined {
          pipelined := true;
          warmups := PIPELINE - 1;
        }
      }
    }
  }

  // Runs of the scheduler against its connection

  // done are the records of the POSTs that returned success.
  datatype System = System(loop: Loop, conn: S.Conn, done: set<Record>)

  datatype Step =
    | Queue(kind: byte, payload: seq<byte>)
    | Close(payload: seq<byte>)
    | Acked(ack: u64, now: int)
    | Received(record: Record)
    | Resending(now: int)
    | Starting(downAcks: bool, now: int)
    | Finishing(i: nat, ok: bool, confirmed: bool, now: int)

  predicate Enabled(s: System, t: Step) {
    match t
    case Queue(_, payload) => !S.QueueBlocked(s.conn, payload) && s.conn.nextSend < U64 - 1
    case Close(_) => s.conn.nextSend < U64 - 1
    case Acked(ack, _) => ack < s.conn.nextSend
    case Received(record) => record.kind != ACK
    case Resending(_) => true
    case Starting(downAcks, now) => CanStart(s.loop, s.conn, downAcks, now)
    case Finishing(i, _, _, _) => i < |s.loop.inFlight|
  }

  function Elements(rs: seq<Record>): set<Record> {
    set r | r in rs
  }

  function Do(s: System, t: Step): System
    requires Enabled(s, t)
  {
    match t
    case Queue(kind, payload) => s.(conn := S.QueueFrame(s.conn, kind, payload).0)
    case Close(payload) => s.(conn := S.QueueClose(s.conn, payload))
    case Acked(ack, now) => s.(conn := S.Trim(s.conn, ack, now))
    case Received(record) => s.(conn := S.ApplyRecord(s.conn, record, 0).0)
    case Resending(now) => s.(loop := Resend(s.loop, s.conn, now))
    case Starting(_, now) => s.(loop := Start(s.loop, s.conn, now))
    case Finishing(i, ok, confirmed, now) =>
      s.(loop := Finish(s.loop, i, ok, confirmed, now),
         done := if ok then s.done + Elements(s.loop.inFlight[i].frames) else s.done)
  }

  ghost predicate Run(s: System, steps: seq<Step>)
    decreases |steps|
  {
    steps == [] || (Enabled(s, steps[0]) && Run(Do(s, steps[0]), steps[1..]))
  }

  ghost function Final(s: System, steps: seq<Step>): System
    requires Run(s, steps)
    decreases |steps|
  {
    if steps == [] then s else Final(Do(s, steps[0]), steps[1..])
  }

  predicate InFlight(l: Loop, r: Record) {
    exists i :: 0 <= i < |l.inFlight| && r in l.inFlight[i].frames
  }

  // Consecutively numbered up to the next sequence.
  predicate Consecutive(frames: seq<Record>, next: u64) {
    && |frames| < next
    && forall i :: 0 <= i < |frames| ==> frames[i].seqNo == next - |frames| + i
  }

  // No record is stranded: what was claimed and is not acknowledged is on its
  // way, or arrived with a POST that succeeded.
  ghost predicate Covered(s: System) {
    forall r <- s.conn.sendFrames :: r.seqNo < s.loop.nextClaim ==> InFlight(s.loop, r) || r in s.done
  }

  predicate PostsOrdered(l: Loop) {
    forall i, j :: 0 <= i < |l.inFlight| && 0 <= j < |l.inFlight[i].frames| ==>
      1 <= l.inFlight[i].frames[0].seqNo <= l.inFlight[i].frames[j].seqNo
  }

  ghost predicate Inv(s: System) {
    && Consecutive(s.conn.sendFrames, s.conn.nextSend)
    && 1 <= s.loop.nextClaim <= s.conn.nextSend
    && |s.loop.inFlight| <= Window(s.loop)
    && PostsOrdered(s.loop)
    && Covered(s)
  }

  // What a claim takes

  // The first frame at or after a sequence.
  function FirstFrom(frames: seq<Record>, first: u64): (i: nat)
    ensures i <= |frames|
    ensures forall k :: 0 <= k < i ==> frames[k].seqNo < first
    ensures i < |frames| ==> frames[i].seqNo >= first
  {
    if frames == [] || frames[0].seqNo >= first then 0 else 1 + FirstFrom(frames[1..], first)
  }

  predicate AllFrom(frames: seq<Record>, first: u64) {
    forall k :: 0 <= k < |frames| ==> frames[k].seqNo >= first
  }

  lemma {:induction false} TakeIsPrefix(frames: seq<Record>, first: u64, limit: nat, size: nat)
    requires AllFrom(frames, first)
    ensures var got := S.TakeWithin(frames, first, limit, size);
      && got <= frames
      && (got != [] ==> size + S.SumBytes(got) <= limit)
      && (|got| < |frames| ==> size + S.SumBytes(got) + |frames[|got|].payload| > limit)
  {
    if frames != [] && size + |frames[0].payload| <= limit {
      TakeIsPrefix(frames[1..], first, limit, size + |frames[0].payload|);
    }
  }

  // A claim is the run of frames that starts at the first unclaimed one and is as
  // long as the limit allows, but never empty while one is left.
  lemma {:induction false} ClaimIsRun(frames: seq<Record>, next: u64, first: u64, limit: nat)
    requires Consecutive(frames, next)
    ensures var got, i := S.FramesFrom(frames, first, limit), FirstFrom(frames, first);
      && got <= frames[i..]
      && (i < |frames| ==> |got| >= 1)
      && (|got| > 1 ==> S.SumBytes(got) <= limit)
      && (i + |got| < |frames| ==> S.SumBytes(got) + |frames[i + |got|].payload| > limit)
  {
    if frames != [] {
      if frames[0].seqNo < first {
        ClaimIsRun(frames[1..], next, first, limit);
        assert frames[FirstFrom(frames, first)..] == frames[1..][FirstFrom(frames[1..], first)..];
      } else {
        TakeIsPrefix(frames[1..], first, limit, |frames[0].payload|);
      }
    }
  }

  // Every step keeps the invariant

  lemma QueueKeeps(s: System, kind: byte, payload: seq<byte>)
    requires Inv(s) && s.conn.nextSend < U64 - 1
    ensures Inv(s.(conn := S.QueueFrame(s.conn, kind, payload).0))
  {
  }

  lemma CloseKeeps(s: System, payload: seq<byte>)
    requires Inv(s) && s.conn.nextSend < U64 - 1
    ensures Inv(s.(conn := S.QueueClose(s.conn, payload)))
  {
  }

  lemma TrimKeeps(s: System, ack: u64, now: int)
    requires Inv(s)
    ensures Inv(s.(conn := S.Trim(s.conn, ack, now)))
  {
    var frames, n := s.conn.sendFrames, S.TrimCount(s.conn.sendFrames, ack);
    assert forall r <- frames[n..] :: r in frames;
  }

  lemma {:induction false} AcceptKeepsQueue(c: S.Conn, r: Record)
    ensures S.Accept(c, r).sendFrames == c.sendFrames && S.Accept(c, r).nextSend == c.nextSend
    decreases |c.recvAhead|
  {
    var c' := c.(recvNext := Add64(c.recvNext, 1), recvQueue := c.recvQueue + [r]);
    if c'.recvNext in c'.recvAhead {
      S.RemoveShrinks(c'.recvAhead, c'.recvNext);
      var next := c'.recvAhead[c'.recvNext];
      AcceptKeepsQueue(c'.(recvAhead := c'.recvAhead - {c'.recvNext},
                           recvAheadBytes := c'.recvAheadBytes - |next.payload|), next);
    }
  }

  lemma ReceiveKeeps(s: System, r: Record)
    requires Inv(s) && r.kind != ACK
    ensures Inv(s.(conn := S.ApplyRecord(s.conn, r, 0).0))
  {
    AcceptKeepsQueue(s.conn, r);
  }

  lemma ResendKeeps(s: System, now: int)
    requires Inv(s)
    ensures Inv(s.(loop := Resend(s.loop, s.conn, now)))
  {
  }

  // A claim as a slice of the queue.
  lemma ClaimIsSlice(frames: seq<Record>, next: u64, first: u64, limit: nat) returns (i: nat, k: nat)
    requires Consecutive(frames, next)
    ensures i <= k <= |frames| && S.FramesFrom(frames, first, limit) == frames[i..k]
    ensures i == FirstFrom(frames, first)
    ensures i < |frames| ==> i < k
  {
    var got := S.FramesFrom(frames, first, limit);
    i := FirstFrom(frames, first);
    k := i + |got|;
    ClaimIsRun(frames, next, first, limit);
    assert frames[i..k] == frames[i..][..|got|];
  }

  lemma SliceMembers(frames: seq<Record>, next: u64, i: nat, k: nat)
    requires Consecutive(frames, next) && i < k <= |frames|
    ensures forall r <- frames :: r in frames[i..k] <==> frames[i].seqNo <= r.seqNo <= frames[k - 1].seqNo
  {
    forall j | 0 <= j < |frames|
      ensures frames[j] in frames[i..k] <==> i <= j < k
    {
      if i <= j < k {
        assert frames[i..k][j - i] == frames[j];
      }
    }
  }

  lemma SliceClaims(frames: seq<Record>, next: u64, first: u64, i: nat, k: nat)
    requires Consecutive(frames, next) && i == FirstFrom(frames, first) && i < k <= |frames|
    ensures first <= frames[k - 1].seqNo < next
    ensures forall r <- frames :: r in frames[i..k] <==> first <= r.seqNo <= frames[k - 1].seqNo
    ensures forall j :: 0 <= j < k - i ==> first <= frames[i..k][0].seqNo <= frames[i..k][j].seqNo
  {
    SliceMembers(frames, next, i, k);
    forall r | r in frames
      ensures frames[i].seqNo <= r.seqNo <==> first <= r.seqNo
    {
      var j :| 0 <= j < |frames| && frames[j] == r;
      assert j < i ==> r.seqNo < first;
    }
  }

  // The frames a new POST takes: those from the first unclaimed one up to the
  // new claim, none skipped.
  predicate Claims(frames: seq<Record>, next: u64, first: u64, got: seq<Record>) {
    && first <= ClaimAfter(first, got) <= next
    && (forall r <- frames :: r in got <==> first <= r.seqNo < ClaimAfter(first, got))
    && (forall j :: 0 <= j < |got| ==> first <= got[0].seqNo <= got[j].seqNo)
  }

  lemma ClaimAfterSlice(frames: seq<Record>, next: u64, first: u64, i: nat, k: nat)
    requires Consecutive(frames, next) && i < k <= |frames|
    ensures ClaimAfter(first, frames[i..k]) == frames[k - 1].seqNo + 1
  {
    assert frames[i..k][k - i - 1] == frames[k - 1];
  }

  lemma SliceIsClaim(frames: seq<Record>, next: u64, first: u64, i: nat, k: nat)
    requires Consecutive(frames, next) && i == FirstFrom(frames, first) && i < k <= |frames| && first <= next
    ensures Claims(frames, next, first, frames[i..k])
  {
    SliceClaims(frames, next, first, i, k);
    ClaimAfterSlice(frames, next, first, i, k);
  }

  lemma StartClaims(l: Loop, c: S.Conn, now: int)
    requires Consecutive(c.sendFrames, c.nextSend) && 1 <= l.nextClaim <= c.nextSend
    ensures Claims(c.sendFrames, c.nextSend, l.nextClaim, S.FramesFrom(c.sendFrames, l.nextClaim, BatchLimit(l)))
  {
    var frames := c.sendFrames;
    var i, k := ClaimIsSlice(frames, c.nextSend, l.nextClaim, BatchLimit(l));
    if i < k {
      SliceIsClaim(frames, c.nextSend, l.nextClaim, i, k);
    } else {
      assert frames[i..k] == [];
    }
  }

  lemma StartKeepsWindow(l: Loop, c: S.Conn, now: int)
    requires Consecutive(c.sendFrames, c.nextSend) && 1 <= l.nextClaim <= c.nextSend
    requires PostsOrdered(l) && |l.inFlight| < Window(l)
    ensures PostsOrdered(Start(l, c, now)) && |Start(l, c, now).inFlight| <= Window(Start(l, c, now))
  {
    StartClaims(l, c, now);
  }

  lemma StartKeepsCovered(s: System, now: int)
    requires Inv(s)
    ensures Covered(s.(loop := Start(s.loop, s.conn, now)))
  {
    var l, l', c := s.loop, Start(s.loop, s.conn, now), s.conn;
    StartClaims(l, c, now);
    var last := |l.inFlight|;
    assert l'.inFlight[last].frames == S.FramesFrom(c.sendFrames, l.nextClaim, BatchLimit(l));
    forall r | r in c.sendFrames && r.seqNo < l'.nextClaim
      ensures InFlight(l', r) || r in s.done
    {
      if r.seqNo < l.nextClaim && InFlight(l, r) {
        var i :| 0 <= i < last && r in l.inFlight[i].frames;
        assert l'.inFlight[i] == l.inFlight[i];
      }
    }
  }

  lemma WithoutKeeps<T>(s: seq<T>, i: nat, j: nat)
    requires i < |s| && j < |s| && i != j
    ensures s[j] in Without(s, i)
  {
    if j < i {
      assert Without(s, i)[j] == s[j];
    } else {
      assert Without(s, i)[j - 1] == s[j];
    }
  }

  // A failure gives up the claim to everything the failed POST carried.
  lemma FailureReclaims(l: Loop, i: nat, r: Record, confirmed: bool, now: int)
    requires PostsOrdered(l) && i < |l.inFlight| && r in l.inFlight[i].frames
    ensures r.seqNo >= Finish(l, i, false, confirmed, now).nextClaim
  {
  }

  lemma FinishKeepsCovered(s: System, i: nat, ok: bool, confirmed: bool, now: int)
    requires Inv(s) && i < |s.loop.inFlight|
    ensures Covered(Do(s, Finishing(i, ok, confirmed, now)))
  {
    var s' := Do(s, Finishing(i, ok, confirmed, now));
    var posts, posts' := s.loop.inFlight, s'.loop.inFlight;
    forall r | r in s.conn.sendFrames && r.seqNo < s'.loop.nextClaim && r !in s'.done
      ensures InFlight(s'.loop, r)
    {
      if !ok && r in posts[i].frames {
        FailureReclaims(s.loop, i, r, confirmed, now);
      }
      var j :| 0 <= j < |posts| && r in posts[j].frames;
      WithoutKeeps(posts, i, j);
      var k :| 0 <= k < |posts'| && posts'[k] == posts[j];
      assert r in posts'[k].frames;
    }
  }

  lemma FinishKeeps(s: System, i: nat, ok: bool, confirmed: bool, now: int)
    requires Inv(s) && i < |s.loop.inFlight|
    ensures Inv(Do(s, Finishing(i, ok, confirmed, now)))
  {
    FinishKeepsCovered(s, i, ok, confirmed, now);
    var posts := s.loop.inFlight;
    assert forall k :: 0 <= k < |Without(posts, i)| ==> Without(posts, i)[k] == if k < i then posts[k] else posts[k + 1];
  }

  lemma StepKeeps(s: System, t: Step)
    requires Inv(s) && Enabled(s, t)
    ensures Inv(Do(s, t))
  {
    match t
    case Queue(kind, payload) => QueueKeeps(s, kind, payload);
    case Close(payload) => CloseKeeps(s, payload);
    case Acked(ack, now) => TrimKeeps(s, ack, now);
    case Received(record) => ReceiveKeeps(s, record);
    case Resending(now) => ResendKeeps(s, now);
    case Starting(_, now) =>
      StartClaims(s.loop, s.conn, now);
      StartKeepsWindow(s.loop, s.conn, now);
      StartKeepsCovered(s, now);
    case Finishing(i, ok, confirmed, now) => FinishKeeps(s, i, ok, confirmed, now);
  }

  const FRESH: System := System(Loop(1, 0, [], false, 1, 0, 0, FIRST_BACKOFF_MS), S.FRESH, {})

  lemma InitialInv()
    ensures Inv(FRESH)
  {
  }

  // For every order of successes, failures, acknowledgements and new records:
  // POSTs in flight never exceed the window, claims never pass what is queued,
  // and every claimed record that is unacknowledged is in flight or went out in a
  // POST that succeeded.
  lemma {:induction false} UploadSafety(s: System, steps: seq<Step>)
    requires Inv(s) && Run(s, steps)
    ensures Inv(Final(s, steps))
    ensures |Final(s, steps).loop.inFlight| <= 5 && Covered(Final(s, steps))
    decreases |steps|
  {
    if steps != [] {
      StepKeeps(s, steps[0]);
      UploadSafety(Do(s, steps[0]), steps[1..]);
    }
  }

  // A record that a POST reported as delivered but that stays unacknowledged is
  // not lost either: after the silence that the resend rule waits for, with
  // nothing in flight and no retry pending, the next POST starts with the oldest
  // unacknowledged record.
  lemma IdleResendRestarts(s: System, downAcks: bool, now: int)
    requires Inv(s) && s.loop.inFlight == [] && s.conn.sendFrames != []
    requires now - s.loop.lastStart >= S.RESEND_AFTER_MS && now >= s.loop.retryAt
    ensures var l := Resend(s.loop, s.conn, now);
      && CanStart(l, s.conn, downAcks, now)
      && s.conn.sendFrames[0] in Start(l, s.conn, now).inFlight[0].frames
      && Start(l, s.conn, now).inFlight[0].frames[0] == s.conn.sendFrames[0]
  {
    var l, frames := Resend(s.loop, s.conn, now), s.conn.sendFrames;
    ClaimIsRun(frames, s.conn.nextSend, l.nextClaim, BatchLimit(l));
    assert FirstFrom(frames, l.nextClaim) == 0;
    assert frames[0..] == frames;
  }
}
