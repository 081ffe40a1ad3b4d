// The session loop as the program has it: locals and queues updated in place by
// the branches of its select and by the loops it calls. Every method is proved to
// perform exactly the transition of RelaySession.
module RelaySessionLoop {
  import opened Prelude
  import opened RelaySession

  // Waiting through a script of events, until both attachments are there, the
  // session is over, or the script ends.
  function WaitAll(s: Session, events: seq<WaitEvent>, used: nat): Session
    requires used <= |events|
    decreases |events| - used
  {
    if used == |events| || !CanHappen(s, events[used]) then s else WaitAll(OnEvent(s, events[used]), events, used + 1)
  }

  predicate IsLast(e: WaitEvent) {
    e == Expired || e == Finished
  }

  // A wait goes on with what the event left, or is over for the event's reason.
  lemma EventPhase(s: Session, e: WaitEvent)
    requires CanHappen(s, e)
    ensures var p := OnEvent(s, e).phase;
      if IsLast(e) then p.Ended? && OnEvent(s, e).finished else p.Waiting? || p.Recovering?
  {
  }

  // A wait that began in s0 and has come to s after some events of the script.
  predicate Waited(s0: Session, s: Session, events: seq<WaitEvent>, used: nat) {
    && used <= |events| && WaitAll(s, events, used) == WaitAll(s0, events, 0)
    && (s.phase.Waiting? || s.phase.Recovering? || (s.phase.Ended? && 0 < used && s.finished && IsLast(events[used - 1])))
  }

  lemma WaitedMore(s0: Session, s: Session, events: seq<WaitEvent>, used: nat)
    requires Waited(s0, s, events, used) && used < |events| && CanHappen(s, events[used])
    ensures Waited(s0, OnEvent(s, events[used]), events, used + 1)
  {
    EventPhase(s, events[used]);
  }

  // A queued attachment in place of the one held, which is released.
  function TakeNext(s: Session, side: Side, held: nat): (s': Session)
    requires Queue(s, side) != []
    ensures Queue(s', side) == Queue(s, side)[1..] && s'.released == s.released + multiset{held}
    ensures SetQueue(s', side, []) == SetQueue(s, side, []).(released := s'.released)
  {
    SetQueue(Release(s, Some(held)), side, Queue(s, side)[1..])
  }

  // What Latest comes to: the queue is taken in whole and its last attachment is
  // kept.
  lemma {:induction false} LatestIsLast(s: Session, side: Side, first: nat)
    ensures var (s', latest) := Latest(s, side, first);
      && s' == SetQueue(s, side, []).(released := s'.released)
      && latest == ([first] + Queue(s, side))[|Queue(s, side)|]
    decreases |Queue(s, side)|
  {
    if Queue(s, side) != [] {
      LatestIsLast(TakeNext(s, side, first), side, Queue(s, side)[0]);
    }
  }

  // The one held before and all but the last of the queue are released.
  lemma {:induction false} LatestReleasesRest(s: Session, side: Side, first: nat)
    ensures Latest(s, side, first).0.released == s.released + multiset(([first] + Queue(s, side))[..|Queue(s, side)|])
    decreases |Queue(s, side)|
  {
    var q := Queue(s, side);
    if q == [] {
      assert ([first] + q)[..0] == [];
    } else {
      LatestReleasesRest(TakeNext(s, side, first), side, q[0]);
      FrontOfMore(first, q);
      assert s.released + multiset{first} + multiset(q[..|q| - 1]) == s.released + (multiset{first} + multiset(q[..|q| - 1]));
    }
  }

  lemma FrontOfMore(first: nat, q: seq<nat>)
    requires q != []
    ensures [q[0]] + q[1..] == q
    ensures multiset(([first] + q)[..|q|]) == multiset{first} + multiset(q[..|q| - 1])
  {
    assert ([first] + q)[..|q|] == [first] + q[..|q| - 1];
  }

  class ResumeSession {
    var agentGen: nat
    var clientGen: nat
    var pumps: seq<Pump>
    var results: seq<PumpResult>
    var running: set<Side>
    var agentQueue: seq<nat>
    var clientQueue: seq<nat>
    var agentHeld: Option<nat>
    var clientHeld: Option<nat>
    var phase: Phase
    var released: multiset<nat>
    var dead: set<nat>
    var enqueued: set<nat>
    var finished: bool

    function State(): Session
      reads this
    {
      Session(agentGen, clientGen, pumps, results, running, agentQueue, clientQueue, agentHeld, clientHeld,
              phase, released, dead, enqueued, finished)
    }

    constructor Recovered()
      ensures State() == REBUILT
    {
      agentGen, clientGen, pumps, results, running := 1, 1, [], [], {};
      agentQueue, clientQueue, agentHeld, clientHeld := [], [], None, None;
      phase, released, dead, enqueued, finished := Recovering(None, None), multiset{}, {}, {}, false;
    }

    method StartPump(source: Side)
      modifies this`running, this`pumps
      ensures State() == RelaySession.StartPump(old(State()), source)
    {
      if source in running {
        return;
      }
      running := running + {source};
      if source == Agent {
        pumps := pumps + [Pump(Agent, agentGen, clientGen)];
      } else {
        pumps := pumps + [Pump(Client, clientGen, agentGen)];
      }
    }

    method CloseDone(a: Option<nat>)
      modifies this`released
      ensures released == old(released) + One(a)
    {
      if a.Some? {
        released := released + multiset{a.value};
      }
    }

    method EndSession()
      modifies this`phase, this`finished
      ensures State() == End(old(State()))
    {
      phase, finished := Ended, true;
    }

    method Receive(side: Side) returns (next: nat)
      requires Queue(State(), side) != []
      modifies this`agentQueue, this`clientQueue
      ensures next == Queue(old(State()), side)[0]
      ensures State() == SetQueue(old(State()), side, Queue(old(State()), side)[1..])
    {
      if side == Agent {
        next := agentQueue[0];
        agentQueue := agentQueue[1..];
      } else {
        next := clientQueue[0];
        clientQueue := clientQueue[1..];
      }
    }

    // Releases what the bridge holds.
    method ReleaseHeld()
      modifies this`agentHeld, this`clientHeld, this`released
      ensures agentHeld == None && clientHeld == None
      ensures released == old(released) + One(old(agentHeld)) + One(old(clientHeld))
    {
      CloseDone(agentHeld);
      CloseDone(clientHeld);
      agentHeld, clientHeld := None, None;
    }

    // Gives both transports up and starts waiting with what arrived early.
    method EnterBarrier(earlyAgent: Option<nat>, earlyClient: Option<nat>)
      modifies this`agentHeld, this`clientHeld, this`released, this`phase
      ensures State() == Barrier(old(State()), earlyAgent, earlyClient)
      ensures phase == Waiting(earlyAgent, earlyClient) && agentHeld == None && clientHeld == None
      ensures released == old(released) + One(old(agentHeld)) + One(old(clientHeld))
    {
      ReleaseHeld();
      phase := Waiting(earlyAgent, earlyClient);
    }

    method OnPumpResult()
      requires results != []
      modifies this
      ensures State() == TakeResult(old(State()))
      ensures results == old(results)[1..] && agentGen == old(agentGen) && clientGen == old(clientGen)
      ensures var r := old(results)[0];
        if r.sessionClose || r.failedGen == (if r.failed == Agent then agentGen else clientGen) then
          && phase == (if r.sessionClose then Ended else Waiting(None, None))
          && finished == (old(finished) || r.sessionClose)
          && agentHeld == None && clientHeld == None && pumps == old(pumps)
          && released == old(released) + One(old(agentHeld)) + One(old(clientHeld))
        else
          && phase == old(phase) && agentHeld == old(agentHeld) && clientHeld == old(clientHeld)
          && released == old(released) && finished == old(finished) && r.source in running
    {
      var result := results[0];
      results := results[1..];
      running := running - {result.source};
      ghost var s1 := State();
      assert s1 == old(State()).(results := old(results)[1..], running := old(running) - {result.source});
      if result.sessionClose {
        ReleaseHeld();
        EndSession();
      } else if Gen(State(), result.failed) != result.failedGen {
        StartPump(result.source);
      } else {
        EnterBarrier(None, None);
      }
    }

    method OnEarlyAttachment(side: Side)
      requires Queue(State(), side) != []
      modifies this
      ensures State() == TakeEarly(old(State()), side)
      ensures var early := old(Queue(State(), side))[0];
        if early in dead then
          phase == old(phase) && agentHeld == old(agentHeld) && clientHeld == old(clientHeld)
          && released == old(released) + multiset{early}
        else
          phase == (if side == Agent then Waiting(Some(early), None) else Waiting(None, Some(early)))
          && agentHeld == None && clientHeld == None
          && released == old(released) + One(old(agentHeld)) + One(old(clientHeld))
    {
      var early := Receive(side);
      if early in dead {
        CloseDone(Some(early));
      } else if side == Agent {
        EnterBarrier(Some(early), None);
      } else {
        EnterBarrier(None, Some(early));
      }
    }

    method PutSlot(side: Side, a: Option<nat>)
      requires phase.Waiting? || phase.Recovering?
      modifies this`phase
      ensures State() == SetSlot(old(State()), side, a)
    {
      match phase {
        case Waiting(agent, client) => phase := if side == Agent then Waiting(a, client) else Waiting(agent, a);
        case Recovering(agent, client) => phase := if side == Agent then Recovering(a, client) else Recovering(agent, a);
      }
    }

    method OnDeath(side: Side)
      requires CanHappen(State(), Died(side))
      modifies this`phase, this`released
      ensures State() == OnEvent(old(State()), Died(side))
    {
      CloseDone(Slot(phase, side));
      PutSlot(side, None);
    }

    method OnArrival(side: Side)
      requires CanHappen(State(), Arrived(side))
      modifies this`phase, this`released, this`agentQueue, this`clientQueue
      ensures State() == OnEvent(old(State()), Arrived(side))
    {
      CloseDone(Slot(phase, side));
      var next := Receive(side);
      PutSlot(side, Some(next));
    }

    method OnExpiry()
      requires CanHappen(State(), Expired)
      modifies this`phase, this`released, this`finished
      ensures State() == OnEvent(old(State()), Expired)
    {
      CloseDone(phase.agent);
      CloseDone(phase.client);
      EndSession();
    }

    method OnWaitEvent(e: WaitEvent)
      requires CanHappen(State(), e)
      modifies this
      ensures State() == OnEvent(old(State()), e)
    {
      match e {
        case Died(side) => OnDeath(side);
        case Arrived(side) => OnArrival(side);
        case Expired => OnExpiry();
        case Finished => EndSession();
      }
    }

    // ok says that both attachments are there. Otherwise the wait is over, or it
    // goes on because the script has ended or its next event is not ready.
    method WaitForAttachments(events: seq<WaitEvent>) returns (used: nat, ok: bool)
      requires phase.Waiting? || phase.Recovering?
      modifies this
      ensures State() == WaitAll(old(State()), events, 0)
      ensures ok <==> Complete(phase)
      ensures used <= |events| && (Complete(phase) || phase.Ended? || Incomplete(phase))
      ensures Incomplete(phase) && used < |events| ==> !CanHappen(State(), events[used])
      ensures phase.Ended? ==> 0 < used && finished && IsLast(events[used - 1])
    {
      used := 0;
      ghost var s0 := State();
      while used < |events| && CanHappen(State(), events[used])
        invariant Waited(s0, State(), events, used)
      {
        WaitedMore(s0, State(), events, used);
        OnWaitEvent(events[used]);
        used := used + 1;
      }
      ok := Complete(phase);
    }

    method LatestAttachment(side: Side, first: nat) returns (latest: nat)
      modifies this`agentQueue, this`clientQueue, this`released
      ensures (State(), latest) == Latest(old(State()), side, first)
      ensures Queue(State(), side) == [] && latest == ([first] + old(Queue(State(), side)))[old(|Queue(State(), side)|)]
      ensures released == old(released) + multiset(([first] + old(Queue(State(), side)))[..old(|Queue(State(), side)|)])
    {
      LatestIsLast(State(), side, first);
      LatestReleasesRest(State(), side, first);
      latest := first;
      while Queue(State(), side) != []
        invariant Latest(State(), side, latest) == Latest(old(State()), side, first)
        decreases |Queue(State(), side)|
      {
        CloseDone(Some(latest));
        latest := Receive(side);
      }
    }

    method KeepLive(id: nat) returns (kept: Option<nat>)
      modifies this`released
      ensures (State(), kept) == RelaySession.KeepLive(old(State()), id)
    {
      if id in dead {
        CloseDone(Some(id));
        return None;
      }
      kept := Some(id);
    }

    method ReplaceTransports(agent: nat, client: nat)
      modifies this`agentGen, this`clientGen, this`agentHeld, this`clientHeld
      ensures State() == Replace(old(State()), agent, client)
    {
      agentHeld, clientHeld := Some(agent), Some(client);
      agentGen := agentGen + 1;
      clientGen := clientGen + 1;
    }

    method StartBoth()
      modifies this`running, this`pumps, this`phase
      ensures State() == StartPumps(old(State())).(phase := Head)
    {
      StartPump(Agent);
      StartPump(Client);
      phase := Head;
    }

    // Installs a pair of live attachments, or goes on waiting.
    method JoinAttachments(agent: nat, client: nat, ready: bool)
      modifies this
      ensures State() == Join(old(State()), agent, client, ready)
      ensures agent in dead || client in dead ==>
        && phase == Waiting(if agent in dead then None else Some(agent), if client in dead then None else Some(client))
        && agentGen == old(agentGen) && clientGen == old(clientGen) && pumps == old(pumps)
      ensures agent !in dead && client !in dead ==>
        && agentGen == old(agentGen) + 1 && clientGen == old(clientGen) + 1
        && (ready ==> phase == Head && agentHeld == Some(agent) && clientHeld == Some(client))
        && (!ready ==> phase == Waiting(None, None) && released == old(released) + multiset{agent} + multiset{client})
    {
      if agent in dead || client in dead {
        var keptAgent := KeepLive(agent);
        var keptClient := KeepLive(client);
        phase := Waiting(keptAgent, keptClient);
        return;
      }
      ReplaceTransports(agent, client);
      if !ready {
        EnterBarrier(None, None);
        return;
      }
      StartBoth();
    }

    method PairUp(ready: bool)
      requires phase.Waiting? && Complete(phase)
      modifies this
      ensures State() == RelaySession.PairUp(old(State()), ready)
    {
      var agent := LatestAttachment(Agent, phase.agent.value);
      var client := LatestAttachment(Client, phase.client.value);
      JoinAttachments(agent, client, ready);
    }

    // One round of a rebuilt session's first pairing.
    method RecoverPair(ready: bool)
      requires phase.Recovering? && Complete(phase)
      modifies this
      ensures State() == Recover(old(State()), ready)
    {
      if !ready {
        CloseDone(phase.agent);
        CloseDone(phase.client);
        phase := Recovering(None, None);
        return;
      }
      agentHeld, clientHeld := phase.agent, phase.client;
      StartBoth();
    }
  }
}
