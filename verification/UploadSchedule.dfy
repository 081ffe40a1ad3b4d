// When the upload loop starts a POST, what the POST carries and how long a failure
// keeps the loop waiting, told in the loop's and the connection's fields.
module UploadSchedule {
  import opened Prelude
  import opened HttpRecord
  import opened UploadLoop
  import S = HttpStream

  // A queued record that no POST has claimed since claiming last restarted.
  predicate Unclaimed(s: System) {
    exists i :: 0 <= i < |s.conn.sendFrames| && s.conn.sendFrames[i].seqNo >= s.loop.nextClaim
  }

  lemma ClaimIffUnclaimed(s: System, limit: nat)
    requires Inv(s)
    ensures S.FramesFrom(s.conn.sendFrames, s.loop.nextClaim, limit) != [] <==> Unclaimed(s)
  {
    var frames, first := s.conn.sendFrames, s.loop.nextClaim;
    ClaimIsRun(frames, s.conn.nextSend, first, limit);
    var i := FirstFrom(frames, first);
    if i < |frames| {
      assert frames[i].seqNo >= first;
    }
  }

  // A POST starts exactly when a slot is free, no retry is pending, and there is a
  // record to carry, or an acknowledgement that nothing else will carry, or ten
  // seconds of silence, or a connection to warm up.
  lemma StartsIff(s: System, downAcks: bool, now: int)
    requires Inv(s)
    ensures Enabled(s, Starting(downAcks, now)) <==>
      && |s.loop.inFlight| < (if s.loop.pipelined then 5 else 1) && now >= s.loop.retryAt
      && (|| Unclaimed(s)
          || (s.loop.inFlight == [] && !downAcks && S.Acknowledged(s.conn) > s.loop.deliveredAck)
          || (s.loop.inFlight == [] && now - s.loop.lastStart >= 10000)
          || s.loop.warmups > 0)
  {
    ClaimIffUnclaimed(s, BatchLimit(s.loop));
  }

  // The POST that starts is in flight with the acknowledgement of the moment and a
  // claim of the oldest unclaimed records; only one without records uses up a
  // warm-up.
  lemma StartAct(s: System, downAcks: bool, now: int)
    requires Inv(s) && Enabled(s, Starting(downAcks, now))
    ensures var l, l' := s.loop, Do(s, Starting(downAcks, now)).loop;
      var post := l'.inFlight[|l.inFlight|];
      && l'.inFlight == l.inFlight + [post] && post.ack == S.Acknowledged(s.conn)
      && Claims(s.conn.sendFrames, s.conn.nextSend, l.nextClaim, post.frames) && (post.frames != [] <==> Unclaimed(s))
      && l'.nextClaim == ClaimAfter(l.nextClaim, post.frames) && l'.lastStart == now
      && l'.warmups == (if Unclaimed(s) then l.warmups else Max(l.warmups - 1, 0))
      && l'.retryAt == l.retryAt && l'.backoff == l.backoff && l'.deliveredAck == l.deliveredAck
  {
    ClaimIffUnclaimed(s, BatchLimit(s.loop));
    StartClaims(s.loop, s.conn, now);
  }

  // A failed POST makes the loop wait; a successful one confirms its
  // acknowledgement, and the first confirmation opens the window and warms the
  // other four connections up.
  lemma FinishAct(s: System, i: nat, ok: bool, confirmed: bool, now: int)
    requires Inv(s) && Enabled(s, Finishing(i, ok, confirmed, now))
    ensures var l, s' := s.loop, Do(s, Finishing(i, ok, confirmed, now));
      var post, l' := l.inFlight[i], s'.loop;
      && l'.inFlight == l.inFlight[..i] + l.inFlight[i + 1..]
      && (forall r :: r in s'.done <==> r in s.done || (ok && r in post.frames))
      && l'.retryAt == (if ok then l.retryAt else now + l.backoff)
      && l'.deliveredAck == (if ok then Max(l.deliveredAck, post.ack) else l.deliveredAck)
      && l'.pipelined == (l.pipelined || (ok && confirmed))
      && l'.warmups == (if ok && confirmed && !l.pipelined then 4 else l.warmups)
      && l'.nextClaim == (if !ok && post.frames != [] then Min(l.nextClaim, post.frames[0].seqNo) else l.nextClaim)
  {
  }

  // How long the loop waits after so many failures in a row.
  function Wait(failures: nat): int {
    match failures
    case 0 => 250
    case 1 => 500
    case 2 => 1000
    case 3 => 2000
    case 4 => 4000
    case _ => 5000
  }

  // The failures since the last success, when there had been so many before.
  function Streak(steps: seq<Step>, before: nat): nat {
    if steps == [] then before
    else Streak(steps[1..], if !steps[0].Finishing? then before else if steps[0].ok then 0 else before + 1)
  }

  // In every run the next wait is told by the failures in a row: 250 ms doubled
  // with each, up to five seconds.
  lemma {:induction false} BackoffCounts(s: System, steps: seq<Step>, before: nat)
    requires Run(s, steps) && s.loop.backoff == Wait(before)
    ensures Final(s, steps).loop.backoff == Wait(Streak(steps, before))
    decreases |steps|
  {
    if steps != [] {
      var t := steps[0];
      BackoffCounts(Do(s, t), steps[1..], if !t.Finishing? then before else if t.ok then 0 else before + 1);
    }
  }
}
