// What the steps of the relay session do, told in the session's fields, and what
// follows for the bridge over whole runs: a generation is never interrupted and
// taken up again, and a session that waits can always be resumed.
module RelaySessionSteps {
  import opened Prelude
  import opened RelaySession
  import opened RelaySessionSafety
  import RelaySessionLoop

  // The loop holds nothing, and what it held has been released once more.
  predicate LetGo(s: Session, s': Session) {
    && s'.agentHeld.None? && s'.clientHeld.None?
    && s'.released == s.released + One(s.agentHeld) + One(s.clientHeld)
  }

  predicate SameHeld(s: Session, s': Session) {
    s'.agentHeld == s.agentHeld && s'.clientHeld == s.clientHeld
  }

  predicate SameGens(s: Session, s': Session) {
    s'.agentGen == s.agentGen && s'.clientGen == s.clientGen
  }

  // What collecting a result does: a session close ends the session, a failure of
  // a current transport interrupts the bridge, and the failure of an older one
  // only starts the direction's pump again.
  lemma ResultAct(s: Session)
    requires Inv(s) && Enabled(s, Result)
    ensures var r, s' := s.results[0], Do(s, Result);
      && s'.results == s.results[1..] && SameGens(s, s')
      && (r.sessionClose ==> s'.phase == Ended && s'.finished && LetGo(s, s') && s'.pumps == s.pumps)
      && (!r.sessionClose && r.failedGen == s.agentGen ==> s'.phase == Waiting(None, None) && LetGo(s, s') && s'.pumps == s.pumps)
      && (!r.sessionClose && r.failedGen < s.agentGen ==>
            s'.phase == Head && SameHeld(s, s') && s'.released == s.released
            && s'.pumps == s.pumps + [Pump(r.source, s.agentGen, s.agentGen)])
  {
    var r := s.results[0];
    assert r in s.results;
  }

  function SlotOf(s: Session, side: Side): Option<nat> {
    if !(s.phase.Waiting? || s.phase.Recovering?) then None
    else if side == Agent then s.phase.agent else s.phase.client
  }

  // An attachment that arrives while the bridge runs interrupts it and is waited
  // with, unless it has died.
  lemma EarlyAct(s: Session, side: Side)
    requires Enabled(s, Early(side))
    ensures var id, s' := Queue(s, side)[0], Do(s, Early(side));
      && Queue(s', side) == Queue(s, side)[1..] && Queue(s', Other(side)) == Queue(s, Other(side))
      && SameGens(s, s') && s'.pumps == s.pumps && s'.results == s.results
      && (id in s.dead ==> s'.phase == Head && SameHeld(s, s') && s'.released == s.released + multiset{id})
      && (id !in s.dead ==> s'.phase.Waiting? && SlotOf(s', side) == Some(id) && SlotOf(s', Other(side)) == None && LetGo(s, s'))
  {
  }

  // What a wait's event leaves of everything outside one side's slot and queue.
  predicate OnlySide(s: Session, s': Session, side: Side) {
    && (s'.phase.Waiting? <==> s.phase.Waiting?) && (s'.phase.Recovering? <==> s.phase.Recovering?)
    && SlotOf(s', Other(side)) == SlotOf(s, Other(side)) && Queue(s', Other(side)) == Queue(s, Other(side))
    && SameHeld(s, s') && SameGens(s, s')
  }

  // A queued attachment takes the place of the one waited with, which is released.
  lemma ArrivedAct(s: Session, side: Side)
    requires Enabled(s, Wait(Arrived(side)))
    ensures var s' := Do(s, Wait(Arrived(side)));
      && OnlySide(s, s', side)
      && SlotOf(s', side) == Some(Queue(s, side)[0]) && Queue(s', side) == Queue(s, side)[1..]
      && s'.released == s.released + One(SlotOf(s, side))
  {
  }

  // A dead attachment waited with is dropped and released.
  lemma DiedAct(s: Session, side: Side)
    requires Enabled(s, Wait(Died(side)))
    ensures var s' := Do(s, Wait(Died(side)));
      && OnlySide(s, s', side)
      && SlotOf(s', side) == None && Queue(s', side) == Queue(s, side)
      && s'.released == s.released + One(SlotOf(s, side))
  {
  }

  // A wait that expires releases what it held; one that finds the session
  // finished leaves that to the session.
  lemma OverAct(s: Session, e: WaitEvent)
    requires Enabled(s, Wait(e)) && (e.Expired? || e.Finished?)
    ensures var s' := Do(s, Wait(e));
      && s'.phase == Ended && s'.finished
      && s'.released == (if e.Expired? then s.released + One(s.phase.agent) + One(s.phase.client) else s.released)
  {
  }

  // The newest attachment of a side that waits.
  function Newest(s: Session, side: Side): nat
    requires Complete(s.phase)
  {
    ([SlotOf(s, side).value] + Queue(s, side))[|Queue(s, side)|]
  }

  // The pumps started since s are on the current transports.
  predicate OnlyCurrentAdded(s: Session, s': Session) {
    && s.pumps <= s'.pumps
    && forall p <- s'.pumps[|s.pumps|..] :: p.sourceGen == p.destinationGen == s'.agentGen
  }

  lemma StartedAreCurrent(s: Session)
    requires s.agentGen == s.clientGen
    ensures var s' := StartPumps(s);
      && s'.pumps[..|s.pumps|] == s.pumps && OnlyCurrentAdded(s, s') && SameGens(s, s')
      && s'.phase == s.phase && SameHeld(s, s') && s'.agentQueue == s.agentQueue && s'.clientQueue == s.clientQueue
  {
    var s1 := StartPump(s, Agent);
    assert s1.pumps == s.pumps || s1.pumps == s.pumps + [Pump(Agent, s.agentGen, s.agentGen)];
    var s2 := StartPump(s1, Client);
    assert s2.pumps == s1.pumps || s2.pumps == s1.pumps + [Pump(Client, s.agentGen, s.agentGen)];
  }

  lemma JoinAct(s: Session, a: nat, c: nat, ready: bool)
    requires s.agentGen == s.clientGen
    ensures var s' := Join(s, a, c, ready);
      && s'.agentQueue == s.agentQueue && s'.clientQueue == s.clientQueue
      && (a in s.dead || c in s.dead ==>
            SameGens(s, s') && SameHeld(s, s') && s'.pumps == s.pumps
            && s'.phase == Waiting(if a in s.dead then None else Some(a), if c in s.dead then None else Some(c)))
      && (a !in s.dead && c !in s.dead ==>
            s'.agentGen == s.agentGen + 1 && s'.clientGen == s.clientGen + 1
            && (if ready then s'.phase == Head && s'.agentHeld == Some(a) && s'.clientHeld == Some(c) && OnlyCurrentAdded(s, s')
                else s'.phase == Waiting(None, None) && s'.agentHeld.None? && s'.clientHeld.None? && s'.pumps == s.pumps))
  {
    if a !in s.dead && c !in s.dead && ready {
      StartedAreCurrent(Replace(s, a, c));
    }
  }

  // What the loop does when both sides wait: two live attachments are installed
  // with a new generation, and given up again if either could not be told; a dead
  // one is dropped and the other kept.
  lemma PairAct(s: Session, ready: bool)
    requires Inv(s) && s.phase.Waiting? && Enabled(s, Pair(ready))
    ensures var a, c, s' := Newest(s, Agent), Newest(s, Client), Do(s, Pair(ready));
      && Queue(s', Agent) == [] && Queue(s', Client) == []
      && (a in s.dead || c in s.dead ==>
            SameGens(s, s') && SameHeld(s, s') && s'.pumps == s.pumps
            && s'.phase == Waiting(if a in s.dead then None else Some(a), if c in s.dead then None else Some(c)))
      && (a !in s.dead && c !in s.dead ==>
            s'.agentGen == s.agentGen + 1 && s'.clientGen == s.clientGen + 1
            && (if ready then s'.phase == Head && s'.agentHeld == Some(a) && s'.clientHeld == Some(c) && OnlyCurrentAdded(s, s')
                else s'.phase == Waiting(None, None) && s'.agentHeld.None? && s'.clientHeld.None? && s'.pumps == s.pumps))
  {
    var (s1, a) := Latest(s, Agent, s.phase.agent.value);
    RelaySessionLoop.LatestIsLast(s, Agent, s.phase.agent.value);
    var (s2, c) := Latest(s1, Client, s.phase.client.value);
    RelaySessionLoop.LatestIsLast(s1, Client, s.phase.client.value);
    assert a == Newest(s, Agent) && c == Newest(s, Client);
    assert Do(s, Pair(ready)) == Join(s2, a, c, ready);
    JoinAct(s2, a, c, ready);
  }

  // The first pair of a rebuilt session keeps its generation.
  lemma RecoverAct(s: Session, ready: bool)
    requires Inv(s) && s.phase.Recovering? && Enabled(s, Pair(ready))
    ensures var s' := Do(s, Pair(ready));
      && SameGens(s, s')
      && (if ready then s'.phase == Head && s'.agentHeld == s.phase.agent && s'.clientHeld == s.phase.client && OnlyCurrentAdded(s, s')
          else s'.phase == Recovering(None, None) && s'.pumps == s.pumps
               && s'.released == s.released + One(s.phase.agent) + One(s.phase.client))
  {
    if ready {
      StartedAreCurrent(s.(agentHeld := s.phase.agent, clientHeld := s.phase.client, phase := Head));
    }
  }

  // Steps that leave the bridge as it is: no result names a current transport or
  // closes the session, and no live attachment arrives.
  predicate Calm(s: Session, t: Step)
    requires Enabled(s, t)
  {
    && (t.Result? ==> !s.results[0].sessionClose && s.results[0].failedGen < s.agentGen)
    && (t.Early? ==> Queue(s, t.side)[0] in s.dead)
  }

  ghost predicate AllCalm(s: Session, steps: seq<Step>)
    requires Run(s, steps)
    decreases |steps|
  {
    steps == [] || (Calm(s, steps[0]) && AllCalm(Do(s, steps[0]), steps[1..]))
  }

  // At the loop's head exactly the other steps interrupt the bridge.
  lemma CalmKeepsBridge(s: Session, t: Step)
    requires Inv(s) && s.phase.Head? && Enabled(s, t)
    ensures var s' := Do(s, t);
      && SameGens(s, s')
      && (if Calm(s, t) then s'.phase.Head? && SameHeld(s, s') else s'.phase.Waiting? || s'.phase.Ended?)
  {
    match t
    case Result =>
      ResultAct(s);
      assert s.results[0] in s.results;
    case Early(side) => EarlyAct(s, side);
    case _ =>
  }

  // Off the head, coming back costs a generation.
  lemma AwayStep(s: Session, t: Step)
    requires Inv(s) && (s.phase.Waiting? || s.phase.Ended?) && Enabled(s, t)
    ensures var s' := Do(s, t);
      && (s'.phase.Head? ==> s'.agentGen == s.agentGen + 1)
      && (!s'.phase.Head? ==> s'.agentGen >= s.agentGen && (s'.phase.Waiting? || s'.phase.Ended?))
  {
    if t.Pair? {
      PairAct(s, t.ready);
    } else if t.Wait? && t.event.Arrived? {
      ArrivedAct(s, t.event.side);
    } else if t.Wait? && t.event.Died? {
      DiedAct(s, t.event.side);
    }
  }

  lemma {:induction false} AwayCosts(s: Session, steps: seq<Step>)
    requires Inv(s) && Run(s, steps) && !s.phase.Recovering?
    ensures Final(s, steps).agentGen >= s.agentGen
    ensures !s.phase.Head? && Final(s, steps).phase.Head? ==> Final(s, steps).agentGen > s.agentGen
    decreases |steps|
  {
    if steps != [] {
      StepKeeps(s, steps[0]);
      if s.phase.Head? {
        CalmKeepsBridge(s, steps[0]);
      } else {
        AwayStep(s, steps[0]);
      }
      AwayCosts(Do(s, steps[0]), steps[1..]);
    }
  }

  // A run from the loop's head comes back to it in the same generation exactly
  // when nothing in it interrupted the bridge; and then the same attachments are
  // still held.
  lemma {:induction false} UninterruptedIffCalm(s: Session, steps: seq<Step>)
    requires Inv(s) && Run(s, steps) && s.phase.Head?
    ensures Final(s, steps).phase.Head? && Final(s, steps).agentGen == s.agentGen <==> AllCalm(s, steps)
    ensures AllCalm(s, steps) ==> SameHeld(s, Final(s, steps))
    decreases |steps|
  {
    if steps != [] {
      var s' := Do(s, steps[0]);
      StepKeeps(s, steps[0]);
      CalmKeepsBridge(s, steps[0]);
      if Calm(s, steps[0]) {
        UninterruptedIffCalm(s', steps[1..]);
      } else {
        AwayCosts(s', steps[1..]);
      }
    }
  }

  // A pump whose transport fails interrupts the bridge as soon as its result is
  // collected, whether it was reading its source or writing to its destination.
  lemma FailureInterrupts(s: Session, i: nat, reading: bool)
    requires Inv(s) && s.phase.Head? && i < |s.pumps| && s.results == []
    requires reading ==> s.pumps[i].sourceGen == s.agentGen
    ensures var steps := if reading then [ReadFails(i, false), Result] else [Capture(i), WriteFails(i, false), Result];
      && Run(s, steps) && Final(s, steps).phase == Waiting(None, None)
      && LetGo(s, Final(s, steps)) && Final(s, steps).pumps == s.pumps[..i] + s.pumps[i + 1..]
  {
    var first := if reading then s else Do(s, Capture(i));
    var fails := if reading then ReadFails(i, false) else WriteFails(i, false);
    if !reading {
      StepKeeps(s, Capture(i));
      assert first.pumps[..i] + first.pumps[i + 1..] == s.pumps[..i] + s.pumps[i + 1..];
    }
    StepKeeps(first, fails);
    var failed := Do(first, fails);
    assert first.results == [] && |failed.results| == 1;
    ResultAct(failed);
    RunOfTwo(first, fails, Result);
    if !reading {
      assert [Capture(i), fails, Result][1..] == [fails, Result];
    }
  }

  lemma RunOfOne(s: Session, t: Step)
    requires Enabled(s, t)
    ensures Run(s, [t]) && Final(s, [t]) == Do(s, t)
  {
    assert [t][1..] == [];
  }

  lemma RunOfTwo(s: Session, t: Step, u: Step)
    requires Enabled(s, t) && Enabled(Do(s, t), u)
    ensures Run(s, [t, u]) && Final(s, [t, u]) == Do(Do(s, t), u)
  {
    assert [t, u][1..] == [u];
    RunOfOne(Do(s, t), u);
  }

  // The steps that bring both sides back: each attaches once more, and a side
  // that was not waited for is heard.
  function Arrivals(p: Phase): seq<Step>
    requires p.Waiting?
  {
    (if p.agent.None? then [Wait(Arrived(Agent))] else []) + (if p.client.None? then [Wait(Arrived(Client))] else [])
  }

  lemma RunAppend(s: Session, a: seq<Step>, b: seq<Step>)
    requires Run(s, a) && Run(Final(s, a), b)
    ensures Run(s, a + b) && Final(s, a + b) == Final(Final(s, a), b)
    decreases |a|
  {
    if a == [] {
      assert a + b == b;
    } else {
      assert (a + b)[1..] == a[1..] + b;
      RunAppend(Do(s, a[0]), a[1..], b);
    }
  }

  // A state in which two live attachments wait, the newest of their sides.
  predicate Ready(s: Session, agent: nat, client: nat) {
    && s.phase.Waiting? && Complete(s.phase) && agent !in s.dead && client !in s.dead
    && Newest(s, Agent) == agent && Newest(s, Client) == client
  }

  // The last of a queue that waits to be taken is a side's newest attachment.
  predicate Queued(s: Session, side: Side, id: nat) {
    Queue(s, side) != [] && Queue(s, side)[|Queue(s, side)| - 1] == id
  }

  predicate Attached(s: Session, side: Side, id: nat) {
    id !in s.dead && (Queued(s, side, id) || (Queue(s, side) == [] && SlotOf(s, side) == Some(id)))
  }

  lemma HearSide(s: Session, side: Side, agent: nat, client: nat)
    requires s.phase.Waiting? && SlotOf(s, side).None? && Attached(s, Agent, agent) && Attached(s, Client, client)
    ensures Enabled(s, Wait(Arrived(side)))
    ensures var s' := Do(s, Wait(Arrived(side)));
      && s'.phase.Waiting? && SlotOf(s', side).Some? && SlotOf(s', Other(side)) == SlotOf(s, Other(side))
      && Attached(s', Agent, agent) && Attached(s', Client, client) && SameGens(s, s')
  {
    ArrivedAct(s, side);
  }

  lemma HearIfMissing(s: Session, side: Side, agent: nat, client: nat) returns (s': Session)
    requires s.phase.Waiting? && Attached(s, Agent, agent) && Attached(s, Client, client)
    ensures var steps := if SlotOf(s, side).None? then [Wait(Arrived(side))] else [];
      && Run(s, steps) && s' == Final(s, steps)
    ensures s'.phase.Waiting? && SlotOf(s', side).Some? && SlotOf(s', Other(side)) == SlotOf(s, Other(side))
    ensures Attached(s', Agent, agent) && Attached(s', Client, client) && SameGens(s, s')
  {
    s' := s;
    if SlotOf(s, side).None? {
      HearSide(s, side, agent, client);
      RunOfOne(s, Wait(Arrived(side)));
      s' := Do(s, Wait(Arrived(side)));
    }
  }

  lemma BothThere(s: Session, agent: nat, client: nat)
    requires s.phase.Waiting? && Attached(s, Agent, agent) && Attached(s, Client, client)
    requires SlotOf(s, Agent).Some? && SlotOf(s, Client).Some?
    ensures Ready(s, agent, client)
  {
  }

  lemma HearBoth(s: Session, agent: nat, client: nat)
    requires s.phase.Waiting? && Attached(s, Agent, agent) && Attached(s, Client, client)
    ensures Run(s, Arrivals(s.phase))
    ensures var s' := Final(s, Arrivals(s.phase)); Ready(s', agent, client) && SameGens(s, s')
  {
    var first := if SlotOf(s, Agent).None? then [Wait(Arrived(Agent))] else [];
    var s1 := HearIfMissing(s, Agent, agent, client);
    var second := if SlotOf(s1, Client).None? then [Wait(Arrived(Client))] else [];
    var s2 := HearIfMissing(s1, Client, agent, client);
    BothThere(s2, agent, client);
    RunAppend(s, first, second);
    assert first + second == Arrivals(s.phase);
  }

  lemma AttachBoth(s: Session, agent: nat, client: nat) returns (s1: Session)
    requires Inv(s) && s.phase.Waiting? && agent != client
    requires |s.agentQueue| < QUEUE && |s.clientQueue| < QUEUE
    requires agent !in s.enqueued && client !in s.enqueued && agent !in s.dead && client !in s.dead
    ensures Run(s, [Enqueue(Agent, agent), Enqueue(Client, client)])
    ensures s1 == Final(s, [Enqueue(Agent, agent), Enqueue(Client, client)]) && Inv(s1)
    ensures s1.phase == s.phase && SameGens(s, s1) && Attached(s1, Agent, agent) && Attached(s1, Client, client)
  {
    RunOfTwo(s, Enqueue(Agent, agent), Enqueue(Client, client));
    s1 := Do(Do(s, Enqueue(Agent, agent)), Enqueue(Client, client));
    SessionSafety(s, [Enqueue(Agent, agent), Enqueue(Client, client)]);
  }

  // A session that waits can always be resumed: when each side has room to attach
  // a live attachment not seen before, steps of the loop install both with the
  // next generation.
  lemma Resumes(s: Session, agent: nat, client: nat)
    requires Inv(s) && s.phase.Waiting? && agent != client
    requires |s.agentQueue| < QUEUE && |s.clientQueue| < QUEUE
    requires agent !in s.enqueued && client !in s.enqueued && agent !in s.dead && client !in s.dead
    ensures var steps := [Enqueue(Agent, agent), Enqueue(Client, client)] + Arrivals(s.phase) + [Pair(true)];
      && Run(s, steps)
      && var f := Final(s, steps);
         f.phase == Head && f.agentHeld == Some(agent) && f.clientHeld == Some(client) && f.agentGen == f.clientGen == s.agentGen + 1
  {
    var attach := [Enqueue(Agent, agent), Enqueue(Client, client)];
    var s1 := AttachBoth(s, agent, client);
    HearBoth(s1, agent, client);
    var s2 := Final(s1, Arrivals(s.phase));
    SessionSafety(s1, Arrivals(s.phase));
    PairAct(s2, true);
    RunOfOne(s2, Pair(true));
    RunAppend(s, attach, Arrivals(s.phase));
    RunAppend(s, attach + Arrivals(s.phase), [Pair(true)]);
  }
}
