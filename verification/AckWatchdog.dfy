// The acknowledgement watchdog over timed histories of one endpoint: it decides
// to give a transport up exactly when data has been pending on that generation,
// without acknowledgement progress, for the whole recovery threshold.
module AckWatchdog {
  import opened Prelude
  import F = ResumableFrame
  import E = ResumableEndpoint

  datatype Event =
    | Queue(payload: seq<byte>)
    | Frame(frame: F.Frame)
    | Append(rest: seq<byte>)
    | Read(count: nat)
    | Attach(transport: nat)
    | Drop(transport: nat, generation: nat)
    | Close

  datatype Timed = Timed(event: Event, time: int)

  // A critical section that cannot run yet changes nothing.
  function Do(e: E.Endpoint, t: Timed): E.Endpoint
    requires E.Valid(e)
  {
    match t.event
    case Queue(payload) => if E.QueueBlocked(e, payload) then e else E.QueueSend(e, payload, t.time)
    case Frame(f) => if F.WellFormed(f) then E.HandleFrame(e, f, t.time).0 else e
    case Append(rest) => E.Accept(e, rest).0
    case Read(count) => e.(recvBuffer := e.recvBuffer[E.TakeCount(e, count)..])
    case Attach(transport) => E.Attach(e, transport, t.time)
    case Drop(transport, generation) => E.Drop(e, transport, generation)
    case Close => E.Close(e)
  }

  lemma DoValid(e: E.Endpoint, t: Timed)
    requires E.Valid(e)
    ensures E.Valid(Do(e, t))
  {
    if t.event.Queue? {
      Add64Mod(e.sendBase + |e.sendBuffer|, |t.event.payload|);
      Add64Mod(e.sendBase, |e.sendBuffer| + |t.event.payload|);
    }
  }

  function StateAt(h: seq<Timed>, i: nat): (e: E.Endpoint)
    requires i <= |h|
    ensures E.Valid(e)
  {
    if i == 0 then E.FRESH
    else
      DoValid(StateAt(h, i - 1), h[i - 1]);
      Do(StateAt(h, i - 1), h[i - 1])
  }

  // The clock is monotone and the stream is shorter than 2^64 bytes.
  ghost predicate History(h: seq<Timed>) {
    && (forall i :: 0 <= i < |h| ==> h[i].time >= 0)
    && (forall i, j :: 0 <= i <= j < |h| ==> h[i].time <= h[j].time)
    && (forall i :: 0 <= i <= |h| ==> StateAt(h, i).sendBase <= StateAt(h, i).sendEnd)
  }

  // Data was pending, and is neither acknowledged nor moved to a new transport.
  predicate QuietStep(e: E.Endpoint, e': E.Endpoint) {
    E.Pending(e) != 0 && e'.sendBase == e.sendBase && e'.generation == e.generation
  }

  predicate Quiet(h: seq<Timed>, i: nat)
    requires i < |h|
  {
    QuietStep(StateAt(h, i), StateAt(h, i + 1))
  }

  // Since the given moment, exclusive, everything was quiet.
  ghost predicate QuietSince(h: seq<Timed>, moment: int) {
    forall i :: 0 <= i < |h| && h[i].time > moment ==> Quiet(h, i)
  }

  predicate Watched(e: E.Endpoint) {
    E.Pending(e) != 0 && e.ws.Some?
  }

  predicate ClockLaw(e: E.Endpoint, e': E.Endpoint, time: int) {
    && (QuietStep(e, e') ==> e'.lastAckProgress == e.lastAckProgress)
    && (QuietStep(e, e') && Watched(e') ==> Watched(e))
    && (!QuietStep(e, e') && Watched(e') ==> e'.lastAckProgress == time)
    && (e'.lastAckProgress == e.lastAckProgress || e'.lastAckProgress == time)
  }

  lemma FrameClock(e: E.Endpoint, f: F.Frame, now: int)
    requires E.Valid(e) && F.WellFormed(f) && e.sendBase <= e.sendEnd
    ensures ClockLaw(e, E.HandleFrame(e, f, now).0, now)
  {
    if f.kind != F.ACK {
      var e' := E.HandleFrame(e, f, now).0;
      assert e' == e.(recvBuffer := e'.recvBuffer, recvOffset := e'.recvOffset);
    }
  }

  // A quiet event leaves the progress clock alone; any other event after which
  // data is pending on a transport restarts it.
  lemma ClockStep(e: E.Endpoint, t: Timed)
    requires E.Valid(e) && e.sendBase <= e.sendEnd && Do(e, t).sendBase <= Do(e, t).sendEnd
    ensures ClockLaw(e, Do(e, t), t.time)
  {
    match t.event
    case Frame(f) => if F.WellFormed(f) { FrameClock(e, f, t.time); }
    case _ =>
  }

  lemma {:induction false} Prefix(h: seq<Timed>, i: nat)
    requires i < |h|
    ensures StateAt(h[..|h| - 1], i) == StateAt(h, i)
  {
    if i > 0 {
      Prefix(h, i - 1);
      assert h[..|h| - 1][i - 1] == h[i - 1];
    }
  }

  lemma PrefixQuiet(h: seq<Timed>, i: nat)
    requires i + 1 < |h|
    ensures Quiet(h[..|h| - 1], i) == Quiet(h, i)
  {
    Prefix(h, i);
    Prefix(h, i + 1);
  }

  lemma PrefixHistory(h: seq<Timed>)
    requires h != [] && History(h)
    ensures History(h[..|h| - 1])
  {
    var g := h[..|h| - 1];
    forall i | 0 <= i <= |g|
      ensures StateAt(g, i).sendBase <= StateAt(g, i).sendEnd
    {
      Prefix(h, i);
    }
  }

  function Now(h: seq<Timed>): E.Endpoint {
    StateAt(h, |h|)
  }

  // The last event of a history, after the history before it.
  lemma LastEvent(h: seq<Timed>)
    requires h != [] && History(h)
    ensures var g, last := h[..|h| - 1], |h| - 1;
      && History(g)
      && ClockLaw(Now(g), Now(h), h[last].time)
      && (Quiet(h, last) <==> QuietStep(Now(g), Now(h)))
  {
    var g, last := h[..|h| - 1], |h| - 1;
    PrefixHistory(h);
    Prefix(h, last);
    assert StateAt(h, last).sendBase <= StateAt(h, last).sendEnd;
    assert StateAt(h, |h|).sendBase <= StateAt(h, |h|).sendEnd;
    ClockStep(StateAt(h, last), h[last]);
  }

  lemma {:induction false} ClockIsPast(h: seq<Timed>)
    requires History(h)
    ensures Now(h).lastAckProgress <= if h == [] then 0 else h[|h| - 1].time
  {
    if h != [] {
      LastEvent(h);
      ClockIsPast(h[..|h| - 1]);
    }
  }

  // While data is pending, everything since the progress clock is quiet.
  lemma {:induction false} QuietSinceClock(h: seq<Timed>)
    requires History(h) && Watched(Now(h))
    ensures QuietSince(h, Now(h).lastAckProgress)
  {
    if h != [] {
      var g, last := h[..|h| - 1], |h| - 1;
      LastEvent(h);
      if Quiet(h, last) {
        QuietSinceClock(g);
        forall i | 0 <= i < |h| && h[i].time > Now(h).lastAckProgress
          ensures Quiet(h, i)
        {
          if i < last {
            assert g[i] == h[i];
            PrefixQuiet(h, i);
          }
        }
      }
    }
  }

  lemma PrefixQuietSince(h: seq<Timed>, moment: int)
    requires h != [] && QuietSince(h, moment)
    ensures QuietSince(h[..|h| - 1], moment)
  {
    var g := h[..|h| - 1];
    forall i | 0 <= i < |g| && g[i].time > moment
      ensures Quiet(g, i)
    {
      assert g[i] == h[i];
      PrefixQuiet(h, i);
    }
  }

  // Conversely, a quiet stretch means the progress clock is at its start.
  lemma {:induction false} ClockBeforeQuiet(h: seq<Timed>, moment: int)
    requires History(h) && Watched(Now(h)) && QuietSince(h, moment)
    ensures Now(h).lastAckProgress <= moment
  {
    if h != [] {
      var last := |h| - 1;
      if h[last].time > moment {
        assert Quiet(h, last);
        LastEvent(h);
        PrefixQuietSince(h, moment);
        ClockBeforeQuiet(h[..last], moment);
      } else {
        ClockIsPast(h);
      }
    }
  }

  // The watchdog's decision, for every history: ten seconds of silence, or for
  // RDP five on a socket and eight on an HTTP stream.
  lemma WatchdogDecision(h: seq<Timed>, now: int, rdp: bool, httpStream: bool)
    requires History(h)
    ensures var threshold := if !rdp then 10000 else if httpStream then 8000 else 5000;
      E.ShouldRecover(Now(h), now, E.RecoveryThreshold(rdp, httpStream)) <==>
      Watched(Now(h)) && QuietSince(h, now - threshold)
  {
    var threshold := E.RecoveryThreshold(rdp, httpStream);
    var e := Now(h);
    if Watched(e) {
      QuietSinceClock(h);
      if QuietSince(h, now - threshold) {
        ClockBeforeQuiet(h, now - threshold);
      }
    }
  }

  // A generation younger than the threshold is never given up by it.
  lemma YoungGenerationSurvives(h: seq<Timed>, i: nat, now: int, rdp: bool, httpStream: bool)
    requires History(h) && i < |h| && StateAt(h, i + 1).generation != StateAt(h, i).generation
    requires now - h[i].time < E.RecoveryThreshold(rdp, httpStream)
    ensures !E.ShouldRecover(Now(h), now, E.RecoveryThreshold(rdp, httpStream))
  {
    WatchdogDecision(h, now, rdp, httpStream);
    assert !Quiet(h, i);
    assert !QuietSince(h, now - E.RecoveryThreshold(rdp, httpStream));
  }
}
