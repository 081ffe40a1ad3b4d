// The relay's download scheduler: which records each waiting GET is answered
// with, and the clock that decides when a dispatched but unacknowledged record
// counts as lost.
module DownloadClaims {
  import opened Prelude
  import opened HttpRecord
  import S = HttpStream

  // carried are the records that pipelined responses have carried since claiming
  // last restarted.
  datatype Schedule = Schedule(conn: S.Conn, carried: seq<Record>)

  datatype Step =
    | Queue(kind: byte, payload: seq<byte>)
    | Close(payload: seq<byte>)
    | Acked(ack: u64, now: int)
    | Claim(pipelined: bool, force: bool, now: int)

  const FRESH: Schedule := Schedule(S.FRESH, [])

  predicate Enabled(s: Schedule, t: Step) {
    match t
    case Queue(_, payload) => !S.QueueBlocked(s.conn, payload) && s.conn.nextSend < U64 - 1
    case Close(_) => s.conn.nextSend < U64 - 1
    case Acked(ack, _) => ack < s.conn.nextSend
    case Claim(_, _, _) => true
  }

  function ClaimStep(s: Schedule, pipelined: bool, force: bool, now: int): Schedule {
    var (c, claim) := S.ClaimDownload(s.conn, pipelined, force, now);
    if !pipelined then s.(conn := c)
    else
      var carried := if S.ResendDue(s.conn, now) then [] else s.carried;
      Schedule(c, if claim.Batch? then carried + claim.frames else carried)
  }

  function Do(s: Schedule, t: Step): Schedule
    requires Enabled(s, t)
  {
    match t
    case Queue(kind, payload) => s.(conn := S.QueueFrame(s.conn, kind, payload).0)
    case Close(payload) => s.(conn := S.QueueClose(s.conn, payload))
    case Acked(ack, now) => s.(conn := S.Trim(s.conn, ack, now))
    case Claim(pipelined, force, now) => ClaimStep(s, pipelined, force, now)
  }

  ghost predicate Run(s: Schedule, steps: seq<Step>)
    decreases |steps|
  {
    steps == [] || (Enabled(s, steps[0]) && Run(Do(s, steps[0]), steps[1..]))
  }

  ghost function Final(s: Schedule, steps: seq<Step>): Schedule
    requires Run(s, steps)
    decreases |steps|
  {
    if steps == [] then s else Final(Do(s, steps[0]), steps[1..])
  }

  predicate Consecutive(frames: seq<Record>, next: u64) {
    && |frames| < next
    && forall i :: 0 <= i < |frames| ==> frames[i].seqNo == next - |frames| + i
  }

  predicate Ascending(rs: seq<Record>) {
    forall i, j :: 0 <= i < j < |rs| ==> rs[i].seqNo < rs[j].seqNo
  }

  // The clock runs exactly while a dispatched record is unacknowledged.
  predicate ClockLaw(c: S.Conn) {
    S.Outstanding(c) <==> c.downStallSince.Some?
  }

  // Since the last restart no record was carried twice, and every dispatched
  // record that is unacknowledged was carried.
  ghost predicate CarriedLaw(s: Schedule) {
    && Ascending(s.carried)
    && (forall r <- s.carried :: r.seqNo <= s.conn.downDispatched)
    && (forall r <- s.conn.sendFrames :: r.seqNo <= s.conn.downDispatched ==> r in s.carried)
  }

  ghost predicate Inv(s: Schedule) {
    && Consecutive(s.conn.sendFrames, s.conn.nextSend)
    && s.conn.downDispatched < s.conn.nextSend
    && ClockLaw(s.conn)
    && CarriedLaw(s)
  }

  // The records after a sequence are a tail of the queue.

  function CountUpTo(frames: seq<Record>, seqNo: u64): (n: nat)
    ensures n <= |frames|
  {
    if frames == [] || frames[0].seqNo > seqNo then 0 else 1 + CountUpTo(frames[1..], seqNo)
  }

  lemma {:induction false} AfterIsTail(frames: seq<Record>, next: u64, seqNo: u64)
    requires Consecutive(frames, next)
    ensures var n := CountUpTo(frames, seqNo);
      && S.After(frames, seqNo) == frames[n..]
      && (forall i :: 0 <= i < n ==> frames[i].seqNo <= seqNo)
      && (forall i :: n <= i < |frames| ==> frames[i].seqNo > seqNo)
  {
    if frames != [] {
      AfterIsTail(frames[1..], next, seqNo);
      if frames[0].seqNo > seqNo {
        assert forall i :: 0 <= i < |frames| ==> frames[i].seqNo >= frames[0].seqNo;
        assert CountUpTo(frames[1..], seqNo) == 0;
        assert frames[0..] == [frames[0]] + frames[1..];
      }
    }
  }

  lemma QueueKeeps(s: Schedule, kind: byte, payload: seq<byte>)
    requires Inv(s) && s.conn.nextSend < U64 - 1
    ensures Inv(s.(conn := S.Append(s.conn, kind, payload)))
  {
  }

  lemma TrimKeeps(s: Schedule, ack: u64, now: int)
    requires Inv(s)
    ensures Inv(s.(conn := S.Trim(s.conn, ack, now)))
  {
    var frames, n := s.conn.sendFrames, S.TrimCount(s.conn.sendFrames, ack);
    assert forall r <- frames[n..] :: r in frames;
  }

  // Restarting leaves nothing dispatched.
  lemma RewindKeeps(s: Schedule, now: int)
    requires Inv(s)
    ensures var c := S.Rewind(s.conn, now);
      Inv(Schedule(c, if S.ResendDue(s.conn, now) then [] else s.carried)) &&
      (S.ResendDue(s.conn, now) ==> c.downDispatched + 1 == s.conn.sendFrames[0].seqNo)
  {
  }

  lemma CarryTail(carried: seq<Record>, dispatched: u64, tail: seq<Record>)
    requires Ascending(carried) && (forall r <- carried :: r.seqNo <= dispatched)
    requires Ascending(tail) && (forall i :: 0 <= i < |tail| ==> tail[i].seqNo > dispatched)
    ensures Ascending(carried + tail)
  {
  }

  // The first n records have been carried and the others have not.
  predicate Split(c: S.Conn, n: nat) {
    && n <= |c.sendFrames|
    && (forall i :: 0 <= i < n ==> c.sendFrames[i].seqNo <= c.downDispatched)
    && (forall i :: n <= i < |c.sendFrames| ==> c.sendFrames[i].seqNo > c.downDispatched)
  }

  // A claim takes exactly the records no response has carried since the restart.
  lemma ClaimTakesRest(s: Schedule, now: int) returns (n: nat)
    requires Inv(s)
    ensures Split(s.conn, n)
    ensures S.After(s.conn.sendFrames, s.conn.downDispatched) == s.conn.sendFrames[n..]
  {
    n := CountUpTo(s.conn.sendFrames, s.conn.downDispatched);
    AfterIsTail(s.conn.sendFrames, s.conn.nextSend, s.conn.downDispatched);
  }

  lemma DispatchKeeps(s: Schedule, n: nat, now: int)
    requires Inv(s) && n < |s.conn.sendFrames| && Split(s.conn, n)
    ensures var tail := s.conn.sendFrames[n..]; Inv(Schedule(S.Dispatch(s.conn, tail, now), s.carried + tail))
  {
    var frames, tail := s.conn.sendFrames, s.conn.sendFrames[n..];
    CarryTail(s.carried, s.conn.downDispatched, tail);
    assert tail[|tail| - 1] == frames[|frames| - 1];
    forall r | r in frames
      ensures r in s.carried + tail
    {
      var i :| 0 <= i < |frames| && frames[i] == r;
      if i >= n {
        assert tail[i - n] == r;
      }
    }
  }

  lemma AckSentIrrelevant(s: Schedule)
    requires Inv(s)
    ensures Inv(s.(conn := S.NoteAckSent(s.conn)))
  {
  }

  // The state a pipelined claim works on, after a possible restart.
  function Restarted(s: Schedule, now: int): Schedule {
    Schedule(S.Rewind(s.conn, now), if S.ResendDue(s.conn, now) then [] else s.carried)
  }

  lemma ClaimUnfolds(c0: S.Conn, force: bool, now: int)
    requires S.After(c0.sendFrames, S.Rewind(c0, now).downDispatched) != []
    ensures var c := S.Rewind(c0, now);
      var frames := S.After(c0.sendFrames, c.downDispatched);
      S.ClaimDownload(c0, true, force, now) == (S.NoteAckSent(S.Dispatch(c, frames, now)), S.Batch(frames))
  {
    assert S.Rewind(c0, now).sendFrames == c0.sendFrames;
  }

  lemma ClaimStepUnfolds(s: Schedule, force: bool, now: int)
    requires S.After(s.conn.sendFrames, S.Rewind(s.conn, now).downDispatched) != []
    ensures var s1 := Restarted(s, now);
      var tail := S.After(s.conn.sendFrames, s1.conn.downDispatched);
      var s2 := Schedule(S.Dispatch(s1.conn, tail, now), s1.carried + tail);
      && ClaimStep(s, true, force, now) == s2.(conn := S.NoteAckSent(s2.conn))
      && S.ClaimDownload(s.conn, true, force, now).1 == S.Batch(tail)
  {
    ClaimUnfolds(s.conn, force, now);
  }

  lemma ClaimSomeKeeps(s: Schedule, force: bool, now: int, n: nat)
    requires Inv(Restarted(s, now)) && n < |s.conn.sendFrames| && Split(S.Rewind(s.conn, now), n)
    requires S.After(s.conn.sendFrames, S.Rewind(s.conn, now).downDispatched) == s.conn.sendFrames[n..]
    ensures Inv(ClaimStep(s, true, force, now))
    ensures S.ClaimDownload(s.conn, true, force, now).1 == S.Batch(s.conn.sendFrames[n..])
  {
    var s1, tail := Restarted(s, now), s.conn.sendFrames[n..];
    assert s1.conn.sendFrames == s.conn.sendFrames;
    DispatchKeeps(s1, n, now);
    AckSentIrrelevant(Schedule(S.Dispatch(s1.conn, tail, now), s1.carried + tail));
    ClaimStepUnfolds(s, force, now);
  }

  lemma ClaimNoneKeeps(s: Schedule, force: bool, now: int)
    requires Inv(Restarted(s, now))
    requires S.After(s.conn.sendFrames, S.Rewind(s.conn, now).downDispatched) == []
    ensures Inv(ClaimStep(s, true, force, now))
  {
    var s1 := Restarted(s, now);
    AckSentIrrelevant(s1);
    assert s1.carried + [] == s1.carried;
  }

  lemma ClaimKeeps(s: Schedule, pipelined: bool, force: bool, now: int)
    requires Inv(s)
    ensures Inv(ClaimStep(s, pipelined, force, now))
  {
    if pipelined {
      RewindKeeps(s, now);
      var n := ClaimTakesRest(Restarted(s, now), now);
      if n < |s.conn.sendFrames| {
        ClaimSomeKeeps(s, force, now, n);
      } else {
        assert s.conn.sendFrames[n..] == [];
        ClaimNoneKeeps(s, force, now);
      }
    } else {
      AckSentIrrelevant(s);
    }
  }

  lemma StepKeeps(s: Schedule, t: Step)
    requires Inv(s) && Enabled(s, t)
    ensures Inv(Do(s, t))
  {
    match t
    case Queue(kind, payload) => QueueKeeps(s, kind, payload);
    case Close(payload) => QueueKeeps(s.(conn := s.conn.(closing := true)), CLOSE, payload);
    case Acked(ack, now) => TrimKeeps(s, ack, now);
    case Claim(pipelined, force, now) => ClaimKeeps(s, pipelined, force, now);
  }

  lemma InitialInv()
    ensures Inv(FRESH)
  {
  }

  // In every run: between restarts pipelined responses carry strictly increasing
  // sequences, so none twice; every dispatched record that is unacknowledged was
  // carried; and the lost-response clock runs exactly while there is one.
  lemma {:induction false} DownloadSafety(s: Schedule, steps: seq<Step>)
    requires Inv(s) && Run(s, steps)
    ensures Inv(Final(s, steps))
    ensures ClockLaw(Final(s, steps).conn) && CarriedLaw(Final(s, steps))
    decreases |steps|
  {
    if steps != [] {
      StepKeeps(s, steps[0]);
      DownloadSafety(Do(s, steps[0]), steps[1..]);
    }
  }

  // Once its time is up the next pipelined claim takes the whole queue again.
  lemma RestartTakesAll(s: Schedule, force: bool, now: int)
    requires Inv(s) && S.ResendDue(s.conn, now)
    ensures S.ClaimDownload(s.conn, true, force, now).1 == S.Batch(s.conn.sendFrames)
  {
    RewindKeeps(s, now);
    var n := ClaimTakesRest(Restarted(s, now), now);
    assert n == 0;
    ClaimSomeKeeps(s, force, now, 0);
    assert s.conn.sendFrames[0..] == s.conn.sendFrames;
  }

  // What no response has carried is taken at once.
  lemma UncarriedIsTaken(s: Schedule, i: nat, force: bool, now: int)
    requires Inv(s) && !S.ResendDue(s.conn, now) && i < |s.conn.sendFrames|
    requires s.conn.sendFrames[i].seqNo > s.conn.downDispatched
    ensures var claim := S.ClaimDownload(s.conn, true, force, now).1;
      claim.Batch? && s.conn.sendFrames[i] in claim.frames && s.conn.sendFrames[i] !in s.carried
  {
    var n := ClaimTakesRest(s, now);
    assert i >= n;
    ClaimSomeKeeps(s, force, now, n);
    assert s.conn.sendFrames[n..][i - n] == s.conn.sendFrames[i];
  }

  // What a response has carried is being timed, and stays so.
  lemma CarriedIsTimed(s: Schedule, i: nat, force: bool, now: int)
    requires Inv(s) && !S.ResendDue(s.conn, now) && i < |s.conn.sendFrames|
    requires s.conn.sendFrames[i].seqNo <= s.conn.downDispatched
    ensures s.conn.sendFrames[i] in s.carried && s.conn.downStallSince.Some?
    ensures S.ClaimDownload(s.conn, true, force, now).0.downStallSince == s.conn.downStallSince
  {
    assert s.conn.sendFrames[0].seqNo <= s.conn.sendFrames[i].seqNo;
    assert S.Outstanding(s.conn);
  }

  // A response counts as lost three seconds after the last progress of what it
  // carried.
  predicate Lost(c: S.Conn, now: int) {
    && c.sendFrames != [] && c.sendFrames[0].seqNo <= c.downDispatched
    && c.downStallSince.Some? && now - c.downStallSince.value >= 3000
  }

  lemma LostIsDue(c: S.Conn, now: int)
    ensures S.ResendDue(c, now) <==> Lost(c, now)
  {
  }

  // What a claim that found something does to the schedule.
  lemma ClaimSome(c0: S.Conn, force: bool, now: int)
    requires c0.sendFrames != [] && c0.sendFrames[0].seqNo > 0
    requires S.After(c0.sendFrames, S.Rewind(c0, now).downDispatched) != []
    ensures var (c, claim) := S.ClaimDownload(c0, true, force, now);
      && claim == S.Batch(S.After(c0.sendFrames, S.Rewind(c0, now).downDispatched)) && claim.frames != []
      && c.sendFrames == c0.sendFrames && c.downDispatched == claim.frames[|claim.frames| - 1].seqNo
      && c.downStallSince == (if S.Outstanding(c0) && !Lost(c0, now) then c0.downStallSince else Some(now))
      && c.downAckSent == Max(c0.downAckSent, S.Acknowledged(c0))
  {
    LostIsDue(c0, now);
    ClaimUnfolds(c0, force, now);
    var c1 := S.Rewind(c0, now);
    assert S.ResendDue(c0, now) ==> !S.Outstanding(c1);
  }

  lemma ClaimNone(c0: S.Conn, force: bool, now: int)
    requires S.After(c0.sendFrames, S.Rewind(c0, now).downDispatched) == []
    ensures var (c, claim) := S.ClaimDownload(c0, true, force, now);
      && claim == (if force then S.Batch([]) else S.Nothing)
      && (!Lost(c0, now) ==> c.downStallSince == c0.downStallSince && c.downDispatched == c0.downDispatched)
  {
    LostIsDue(c0, now);
  }

  // Whether a record is taken, and what is left when none is.
  predicate Due(c: S.Conn, now: int, r: Record) {
    r in c.sendFrames && (Lost(c, now) || r.seqNo > c.downDispatched)
  }

  lemma DueAreAfter(s: Schedule, now: int)
    requires Inv(s)
    ensures forall r :: r in S.After(s.conn.sendFrames, S.Rewind(s.conn, now).downDispatched) <==> Due(s.conn, now, r)
    ensures Lost(s.conn, now) ==> S.After(s.conn.sendFrames, S.Rewind(s.conn, now).downDispatched) != []
  {
    LostIsDue(s.conn, now);
    RewindKeeps(s, now);
    var c, frames := S.Rewind(s.conn, now), s.conn.sendFrames;
    var n := ClaimTakesRest(Restarted(s, now), now);
    TailMembers(frames, n, c.downDispatched);
    if Lost(s.conn, now) {
      assert frames[0].seqNo > c.downDispatched;
      assert n == 0 && frames[0..] == frames;
    }
  }

  // A pipelined claim takes exactly the records no response has carried, or all of
  // them once the response that carried the oldest counts as lost; it answers with
  // nothing exactly when there are none and no answer is forced.
  lemma ClaimExact(s: Schedule, force: bool, now: int)
    requires Inv(s)
    ensures var (c, claim) := S.ClaimDownload(s.conn, true, force, now);
      && (claim.Nothing? <==> !force && forall r <- s.conn.sendFrames :: !Due(s.conn, now, r))
      && (claim.Batch? ==> forall r :: r in claim.frames <==> Due(s.conn, now, r))
      && (if claim.Batch? && claim.frames != [] then
            c.downStallSince == (if S.Outstanding(s.conn) && !Lost(s.conn, now) then s.conn.downStallSince else Some(now))
          else c.downStallSince == s.conn.downStallSince && c.downDispatched == s.conn.downDispatched)
  {
    DueAreAfter(s, now);
    var taken := S.After(s.conn.sendFrames, S.Rewind(s.conn, now).downDispatched);
    if taken == [] {
      ClaimNone(s.conn, force, now);
    } else {
      assert taken[0] in taken;
      assert Due(s.conn, now, taken[0]);
      ClaimSome(s.conn, force, now);
    }
  }

  lemma TailMembers(frames: seq<Record>, n: nat, dispatched: u64)
    requires n <= |frames|
    requires forall i :: 0 <= i < n ==> frames[i].seqNo <= dispatched
    requires forall i :: n <= i < |frames| ==> frames[i].seqNo > dispatched
    ensures forall r :: r in frames[n..] <==> r in frames && r.seqNo > dispatched
  {
    forall r | r in frames && r.seqNo > dispatched
      ensures r in frames[n..]
    {
      var i :| 0 <= i < |frames| && frames[i] == r;
      assert frames[n..][i - n] == r;
    }
  }

  // No record is lost from scheduling: whatever is unacknowledged is taken by the
  // very next pipelined claim, or was carried and is being timed.
  lemma NothingLost(s: Schedule, r: Record, force: bool, now: int)
    requires Inv(s) && r in s.conn.sendFrames
    ensures var claim := S.ClaimDownload(s.conn, true, force, now).1;
      || (claim.Batch? && r in claim.frames)
      || (r in s.carried && s.conn.downStallSince.Some? && now - s.conn.downStallSince.value < S.RESEND_AFTER_MS)
  {
    var i :| 0 <= i < |s.conn.sendFrames| && s.conn.sendFrames[i] == r;
    if S.ResendDue(s.conn, now) {
      RestartTakesAll(s, force, now);
    } else if r.seqNo > s.conn.downDispatched {
      UncarriedIsTaken(s, i, force, now);
    } else {
      CarriedIsTimed(s, i, force, now);
    }
  }
}
