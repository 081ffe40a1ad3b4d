// What the relay's session loop keeps in every run.
module RelaySessionSafety {
  import opened Prelude
  import opened RelaySession

  // Attachments

  function InQueue(q: seq<nat>, id: nat): nat {
    multiset(q)[id]
  }

  function In(a: Option<nat>, id: nat): nat {
    if a == Some(id) then 1 else 0
  }

  function InWait(p: Phase, id: nat): nat {
    if p.Waiting? || p.Recovering? then In(p.agent, id) + In(p.client, id) else 0
  }

  // How many places an attachment is in: queued, held by the loop, or released,
  // counting each time its Done channel was closed.
  function Places(s: Session, id: nat): nat {
    InQueue(s.agentQueue, id) + InQueue(s.clientQueue, id) + In(s.agentHeld, id) + In(s.clientHeld, id)
    + InWait(s.phase, id) + s.released[id]
  }

  // Every attachment ever enqueued is in exactly one place.
  ghost predicate Conserved(s: Session) {
    forall id :: Places(s, id) == if id in s.enqueued then 1 else 0
  }

  lemma QueueHead(q: seq<nat>, id: nat)
    requires q != []
    ensures InQueue(q, id) == In(Some(q[0]), id) + InQueue(q[1..], id)
  {
    assert q == [q[0]] + q[1..];
  }

  lemma QueueTail(q: seq<nat>, x: nat, id: nat)
    ensures InQueue(q + [x], id) == InQueue(q, id) + In(Some(x), id)
  {
  }

  lemma ReleaseCounts(s: Session, a: Option<nat>, id: nat)
    ensures Release(s, a).released[id] == s.released[id] + In(a, id)
  {
  }

  lemma StartPumpsPlaces(s: Session, id: nat)
    ensures Places(StartPumps(s), id) == Places(s, id)
  {
  }

  lemma BarrierPlaces(s: Session, agent: Option<nat>, client: Option<nat>, id: nat)
    ensures Places(Barrier(s, agent, client), id) == Places(s, id) - InWait(s.phase, id) + In(agent, id) + In(client, id)
  {
    ReleaseCounts(s, s.agentHeld, id);
    ReleaseCounts(Release(s, s.agentHeld), s.clientHeld, id);
  }

  lemma SessionClosePlaces(s: Session, id: nat)
    requires s.phase.Head?
    ensures Places(End(Release(Release(s, s.agentHeld), s.clientHeld).(agentHeld := None, clientHeld := None)), id) == Places(s, id)
  {
    ReleaseCounts(s, s.agentHeld, id);
    ReleaseCounts(Release(s, s.agentHeld), s.clientHeld, id);
  }

  lemma StartPumpPlaces(s: Session, source: Side, id: nat)
    ensures Places(StartPump(s, source), id) == Places(s, id)
  {
  }

  lemma TakeResultPlaces(s: Session, id: nat)
    requires s.phase.Head? && s.results != []
    ensures Places(TakeResult(s), id) == Places(s, id)
  {
    var r := s.results[0];
    var s1 := s.(results := s.results[1..], running := s.running - {r.source});
    assert Places(s1, id) == Places(s, id);
    if r.sessionClose {
      SessionClosePlaces(s1, id);
    } else if Gen(s1, r.failed) != r.failedGen {
      StartPumpPlaces(s1, r.source, id);
    } else {
      BarrierPlaces(s1, None, None, id);
    }
  }

  lemma TakeEarlyPlaces(s: Session, side: Side, id: nat)
    requires s.phase.Head? && Queue(s, side) != []
    ensures Places(TakeEarly(s, side), id) == Places(s, id)
  {
    var q := Queue(s, side);
    QueueHead(q, id);
    var s1 := SetQueue(s, side, q[1..]);
    ReleaseCounts(s1, Some(q[0]), id);
    BarrierPlaces(s1, Some(q[0]), None, id);
    BarrierPlaces(s1, None, Some(q[0]), id);
  }

  lemma ArrivedPlaces(s: Session, side: Side, id: nat)
    requires CanHappen(s, Arrived(side))
    ensures Places(OnEvent(s, Arrived(side)), id) == Places(s, id)
  {
    QueueHead(Queue(s, side), id);
    ReleaseCounts(s, Slot(s.phase, side), id);
  }

  lemma DiedPlaces(s: Session, side: Side, id: nat)
    requires CanHappen(s, Died(side))
    ensures Places(OnEvent(s, Died(side)), id) == Places(s, id)
  {
    ReleaseCounts(s, Slot(s.phase, side), id);
  }

  lemma ExpiredPlaces(s: Session, id: nat)
    requires CanHappen(s, Expired)
    ensures Places(OnEvent(s, Expired), id) == Places(s, id)
  {
    var s1 := Release(s, s.phase.agent);
    ReleaseCounts(s, s.phase.agent, id);
    ReleaseCounts(s1, s.phase.client, id);
    assert OnEvent(s, Expired) == End(Release(s1, s.phase.client));
  }

  lemma EventPlaces(s: Session, e: WaitEvent, id: nat)
    requires CanHappen(s, e) && e != Finished
    ensures Places(OnEvent(s, e), id) == Places(s, id)
  {
    match e
    case Arrived(side) => ArrivedPlaces(s, side, id);
    case Died(side) => DiedPlaces(s, side, id);
    case Expired => ExpiredPlaces(s, id);
  }

  lemma {:induction false} LatestPlaces(s: Session, side: Side, latest: nat, id: nat)
    ensures var (s', latest') := Latest(s, side, latest);
      && Places(s', id) + In(Some(latest'), id) == Places(s, id) + In(Some(latest), id)
      && s' == SetQueue(s, side, []).(released := s'.released)
    decreases |Queue(s, side)|
  {
    var q := Queue(s, side);
    if q != [] {
      QueueHead(q, id);
      ReleaseCounts(s, Some(latest), id);
      LatestPlaces(SetQueue(Release(s, Some(latest)), side, q[1..]), side, q[0], id);
    } else {
      assert SetQueue(s, side, []) == s;
    }
  }

  // Outside the two attachments being paired.
  function Elsewhere(s: Session, id: nat): int {
    Places(s, id) - InWait(s.phase, id)
  }

  lemma JoinLivePlaces(s: Session, agent: nat, client: nat, ready: bool, id: nat)
    requires s.agentHeld.None? && s.clientHeld.None? && !(agent in s.dead || client in s.dead)
    ensures Places(Join(s, agent, client, ready), id) == Elsewhere(s, id) + In(Some(agent), id) + In(Some(client), id)
  {
    var s3 := Replace(s, agent, client);
    StartPumpsPlaces(s3, id);
    BarrierPlaces(s3, None, None, id);
  }

  lemma JoinDeadPlaces(s: Session, agent: nat, client: nat, ready: bool, id: nat)
    requires agent in s.dead || client in s.dead
    ensures Places(Join(s, agent, client, ready), id) == Elsewhere(s, id) + In(Some(agent), id) + In(Some(client), id)
  {
    ReleaseCounts(s, Some(agent), id);
    ReleaseCounts(KeepLive(s, agent).0, Some(client), id);
  }

  lemma PairPlaces(s: Session, ready: bool, id: nat)
    requires s.phase.Waiting? && Complete(s.phase) && s.agentHeld.None? && s.clientHeld.None?
    ensures Places(PairUp(s, ready), id) == Places(s, id)
  {
    var (s1, agent) := Latest(s, Agent, s.phase.agent.value);
    LatestPlaces(s, Agent, s.phase.agent.value, id);
    var (s2, client) := Latest(s1, Client, s.phase.client.value);
    LatestPlaces(s1, Client, s.phase.client.value, id);
    if agent in s2.dead || client in s2.dead {
      JoinDeadPlaces(s2, agent, client, ready, id);
    } else {
      JoinLivePlaces(s2, agent, client, ready, id);
    }
  }

  lemma RecoverPlaces(s: Session, ready: bool, id: nat)
    requires s.phase.Recovering? && Complete(s.phase) && s.agentHeld.None? && s.clientHeld.None?
    ensures Places(Recover(s, ready), id) == Places(s, id)
  {
    StartPumpsPlaces(s.(agentHeld := s.phase.agent, clientHeld := s.phase.client, phase := Head), id);
    ReleaseCounts(s, s.phase.agent, id);
    ReleaseCounts(Release(s, s.phase.agent), s.phase.client, id);
  }

  lemma StepPlaces(s: Session, t: Step, id: nat)
    requires Enabled(s, t) && t != Wait(Finished)
    requires !s.phase.Head? ==> s.agentHeld.None? && s.clientHeld.None?
    ensures Places(Do(s, t), id) == Places(s, id) + (if t.Enqueue? then In(Some(t.id), id) else 0)
  {
    match t
    case Enqueue(side, x) => QueueTail(Queue(s, side), x, id);
    case Die(_) =>
    case Capture(_) =>
    case ReadFails(_, _) =>
    case WriteFails(_, _) =>
    case Result => TakeResultPlaces(s, id);
    case Early(side) => TakeEarlyPlaces(s, side, id);
    case Wait(e) => EventPlaces(s, e, id);
    case Pair(ready) => if s.phase.Waiting? { PairPlaces(s, ready, id); } else { RecoverPlaces(s, ready, id); }
    case FinishElsewhere =>
  }

  // Pumps

  function CountPumps(pumps: seq<Pump>, source: Side): nat {
    if pumps == [] then 0 else (if pumps[0].source == source then 1 else 0) + CountPumps(pumps[1..], source)
  }

  function CountResults(results: seq<PumpResult>, source: Side): nat {
    if results == [] then 0 else (if results[0].source == source then 1 else 0) + CountResults(results[1..], source)
  }

  lemma {:induction false} CountPumpsAppend(a: seq<Pump>, b: seq<Pump>, source: Side)
    ensures CountPumps(a + b, source) == CountPumps(a, source) + CountPumps(b, source)
  {
    if a == [] {
      assert a + b == b;
    } else {
      assert (a + b)[1..] == a[1..] + b;
      CountPumpsAppend(a[1..], b, source);
    }
  }

  lemma {:induction false} CountResultsAppend(a: seq<PumpResult>, r: PumpResult, source: Side)
    ensures CountResults(a + [r], source) == CountResults(a, source) + if r.source == source then 1 else 0
  {
    if a == [] {
      assert a + [r] == [r];
    } else {
      assert (a + [r])[1..] == a[1..] + [r];
      CountResultsAppend(a[1..], r, source);
    }
  }

  lemma CountPumpsWithout(pumps: seq<Pump>, i: nat, source: Side)
    requires i < |pumps|
    ensures CountPumps(pumps, source) == CountPumps(Without(pumps, i), source) + if pumps[i].source == source then 1 else 0
  {
    assert pumps == pumps[..i] + ([pumps[i]] + pumps[i + 1..]);
    CountPumpsAppend(pumps[..i], [pumps[i]] + pumps[i + 1..], source);
    CountPumpsAppend(pumps[..i], pumps[i + 1..], source);
  }

  lemma CountPumpsUpdate(pumps: seq<Pump>, i: nat, p: Pump, source: Side)
    requires i < |pumps| && p.source == pumps[i].source
    ensures CountPumps(pumps[i := p], source) == CountPumps(pumps, source)
  {
    CountPumpsWithout(pumps, i, source);
    CountPumpsWithout(pumps[i := p], i, source);
    assert Without(pumps[i := p], i) == Without(pumps, i);
  }

  lemma {:induction false} CountBoth(pumps: seq<Pump>, results: seq<PumpResult>)
    ensures CountPumps(pumps, Agent) + CountPumps(pumps, Client) == |pumps|
    ensures CountResults(results, Agent) + CountResults(results, Client) == |results|
    decreases |pumps| + |results|
  {
    if pumps != [] {
      CountBoth(pumps[1..], results);
    } else if results != [] {
      CountBoth(pumps, results[1..]);
    }
  }

  // Pumps of one direction that have not been collected: running, or with a
  // result waiting for the loop.
  function Uncollected(s: Session, source: Side): nat {
    CountPumps(s.pumps, source) + CountResults(s.results, source)
  }

  predicate OnePump(s: Session, source: Side) {
    Uncollected(s, source) == if source in s.running then 1 else 0
  }

  predicate GenerationsLaw(s: Session) {
    && s.agentGen == s.clientGen
    && (forall p <- s.pumps :: p.sourceGen <= p.destinationGen <= s.agentGen)
    && (forall r <- s.results :: r.sourceGen <= r.failedGen <= s.agentGen)
  }

  predicate BothRunning(s: Session) {
    Agent in s.running && Client in s.running
  }

  predicate PhaseLaw(s: Session) {
    && (s.phase.Head? ==> BothRunning(s))
    && (!s.phase.Head? ==> s.agentHeld.None? && s.clientHeld.None?)
  }

  ghost predicate Inv(s: Session) {
    && OnePump(s, Agent) && OnePump(s, Client)
    && GenerationsLaw(s)
    && PhaseLaw(s)
    && (!s.phase.Ended? ==> Conserved(s))
  }

  // The pumps' part of the invariant.
  predicate PumpLaw(s: Session) {
    OnePump(s, Agent) && OnePump(s, Client) && GenerationsLaw(s)
  }

  predicate SamePumps(s: Session, s': Session) {
    && s'.pumps == s.pumps && s'.results == s.results && s'.running == s.running
    && s'.agentGen == s.agentGen && s'.clientGen == s.clientGen
  }

  lemma SamePumpsKeep(s: Session, s': Session)
    requires PumpLaw(s) && SamePumps(s, s')
    ensures PumpLaw(s')
  {
  }

  lemma StartPumpKeeps(s: Session, source: Side)
    requires PumpLaw(s)
    ensures PumpLaw(StartPump(s, source))
  {
    if source !in s.running {
      var p := Pump(source, Gen(s, source), Gen(s, Other(source)));
      CountPumpsAppend(s.pumps, [p], Agent);
      CountPumpsAppend(s.pumps, [p], Client);
    }
  }

  lemma StartPumpsKeep(s: Session)
    requires PumpLaw(s)
    ensures PumpLaw(StartPumps(s)) && BothRunning(StartPumps(s))
  {
    StartPumpKeeps(s, Agent);
    StartPumpKeeps(StartPump(s, Agent), Client);
  }

  lemma CaptureKeeps(s: Session, i: nat)
    requires PumpLaw(s) && i < |s.pumps|
    ensures PumpLaw(CaptureAt(s, i))
  {
    var p := s.pumps[i].(destinationGen := Gen(s, Other(s.pumps[i].source)));
    CountPumpsUpdate(s.pumps, i, p, Agent);
    CountPumpsUpdate(s.pumps, i, p, Client);
    forall q | q in s.pumps[i := p]
      ensures q.sourceGen <= q.destinationGen <= s.agentGen
    {
      assert q == p || q in s.pumps;
    }
  }

  lemma ReportKeeps(s: Session, i: nat, failed: Side, failedGen: nat, sessionClose: bool)
    requires PumpLaw(s) && i < |s.pumps|
    requires failedGen == s.pumps[i].sourceGen || failedGen == s.pumps[i].destinationGen
    ensures PumpLaw(Report(s, i, failed, failedGen, sessionClose))
  {
    var p := s.pumps[i];
    var r := PumpResult(p.source, p.sourceGen, failed, failedGen, sessionClose);
    CountPumpsWithout(s.pumps, i, Agent);
    CountPumpsWithout(s.pumps, i, Client);
    CountResultsAppend(s.results, r, Agent);
    CountResultsAppend(s.results, r, Client);
    assert forall q <- Without(s.pumps, i) :: q in s.pumps;
  }

  // The state after a result has been received from the channel.
  function Collected(s: Session): Session
    requires s.results != []
  {
    s.(results := s.results[1..], running := s.running - {s.results[0].source})
  }

  lemma CollectKeeps(s: Session)
    requires PumpLaw(s) && s.results != []
    ensures PumpLaw(Collected(s))
  {
  }

  lemma TakeResultKeeps(s: Session)
    requires PumpLaw(s) && PhaseLaw(s) && s.phase.Head? && s.results != []
    ensures PumpLaw(TakeResult(s)) && PhaseLaw(TakeResult(s))
  {
    CollectKeeps(s);
    var r, s1 := s.results[0], Collected(s);
    if !r.sessionClose && Gen(s1, r.failed) != r.failedGen {
      StartPumpKeeps(s1, r.source);
    } else {
      SamePumpsKeep(s1, TakeResult(s));
    }
  }

  lemma ReplaceKeeps(s: Session, agent: nat, client: nat)
    requires PumpLaw(s)
    ensures PumpLaw(Replace(s, agent, client))
  {
  }

  lemma JoinKeeps(s: Session, agent: nat, client: nat, ready: bool)
    requires PumpLaw(s) && s.agentHeld.None? && s.clientHeld.None?
    ensures PumpLaw(Join(s, agent, client, ready)) && PhaseLaw(Join(s, agent, client, ready))
    ensures Join(s, agent, client, ready).enqueued == s.enqueued
  {
    if agent in s.dead || client in s.dead {
      SamePumpsKeep(s, Join(s, agent, client, ready));
    } else {
      var s3 := Replace(s, agent, client);
      ReplaceKeeps(s, agent, client);
      if ready {
        StartPumpsKeep(s3);
        SamePumpsKeep(StartPumps(s3), Join(s, agent, client, ready));
      } else {
        SamePumpsKeep(s3, Join(s, agent, client, ready));
      }
    }
  }

  lemma PairKeeps(s: Session, ready: bool)
    requires PumpLaw(s) && PhaseLaw(s) && s.phase.Waiting? && Complete(s.phase)
    ensures PumpLaw(PairUp(s, ready)) && PhaseLaw(PairUp(s, ready))
    ensures PairUp(s, ready).enqueued == s.enqueued
  {
    var (s1, agent) := Latest(s, Agent, s.phase.agent.value);
    LatestPlaces(s, Agent, s.phase.agent.value, 0);
    var (s2, client) := Latest(s1, Client, s.phase.client.value);
    LatestPlaces(s1, Client, s.phase.client.value, 0);
    SamePumpsKeep(s, s2);
    JoinKeeps(s2, agent, client, ready);
  }

  lemma RecoverKeeps(s: Session, ready: bool)
    requires PumpLaw(s) && PhaseLaw(s) && s.phase.Recovering? && Complete(s.phase)
    ensures PumpLaw(Recover(s, ready)) && PhaseLaw(Recover(s, ready))
  {
    if ready {
      var s1 := s.(agentHeld := s.phase.agent, clientHeld := s.phase.client, phase := Head);
      SamePumpsKeep(s, s1);
      StartPumpsKeep(s1);
    } else {
      SamePumpsKeep(s, Recover(s, ready));
    }
  }

  lemma EarlyKeeps(s: Session, side: Side)
    requires PumpLaw(s) && PhaseLaw(s) && s.phase.Head? && Queue(s, side) != []
    ensures PumpLaw(TakeEarly(s, side)) && PhaseLaw(TakeEarly(s, side))
    ensures TakeEarly(s, side).enqueued == s.enqueued
  {
    SamePumpsKeep(s, TakeEarly(s, side));
  }

  lemma ArrivedKeeps(s: Session, side: Side)
    requires PumpLaw(s) && PhaseLaw(s) && CanHappen(s, Arrived(side))
    ensures PumpLaw(OnEvent(s, Arrived(side))) && PhaseLaw(OnEvent(s, Arrived(side)))
    ensures OnEvent(s, Arrived(side)).enqueued == s.enqueued
  {
    SamePumpsKeep(s, OnEvent(s, Arrived(side)));
  }

  lemma DiedKeeps(s: Session, side: Side)
    requires PumpLaw(s) && PhaseLaw(s) && CanHappen(s, Died(side))
    ensures PumpLaw(OnEvent(s, Died(side))) && PhaseLaw(OnEvent(s, Died(side)))
    ensures OnEvent(s, Died(side)).enqueued == s.enqueued
  {
    SamePumpsKeep(s, OnEvent(s, Died(side)));
  }

  lemma EventKeeps(s: Session, e: WaitEvent)
    requires PumpLaw(s) && PhaseLaw(s) && CanHappen(s, e)
    ensures PumpLaw(OnEvent(s, e)) && PhaseLaw(OnEvent(s, e))
    ensures OnEvent(s, e).enqueued == s.enqueued
  {
    match e
    case Arrived(side) => ArrivedKeeps(s, side);
    case Died(side) => DiedKeeps(s, side);
    case Expired => SamePumpsKeep(s, OnEvent(s, e));
    case Finished => SamePumpsKeep(s, OnEvent(s, e));
  }

  lemma EnqueueKeeps(s: Session, side: Side, id: nat)
    requires PumpLaw(s) && PhaseLaw(s) && Enabled(s, Enqueue(side, id))
    ensures PumpLaw(Do(s, Enqueue(side, id))) && PhaseLaw(Do(s, Enqueue(side, id)))
  {
    SamePumpsKeep(s, Do(s, Enqueue(side, id)));
  }

  lemma PumpStepKeeps(s: Session, t: Step)
    requires PumpLaw(s) && PhaseLaw(s) && Enabled(s, t) && (t.Capture? || t.ReadFails? || t.WriteFails?)
    ensures PumpLaw(Do(s, t)) && PhaseLaw(Do(s, t))
  {
    match t
    case Capture(i) => CaptureKeeps(s, i);
    case ReadFails(i, close) => ReportKeeps(s, i, s.pumps[i].source, s.pumps[i].sourceGen, close);
    case WriteFails(i, close) => ReportKeeps(s, i, Other(s.pumps[i].source), s.pumps[i].destinationGen, close);
  }

  lemma StepKeepsPumps(s: Session, t: Step)
    requires PumpLaw(s) && PhaseLaw(s) && Enabled(s, t)
    ensures PumpLaw(Do(s, t)) && PhaseLaw(Do(s, t))
  {
    match t
    case Enqueue(side, id) => EnqueueKeeps(s, side, id);
    case Die(_) => SamePumpsKeep(s, Do(s, t));
    case Capture(_) => PumpStepKeeps(s, t);
    case ReadFails(_, _) => PumpStepKeeps(s, t);
    case WriteFails(_, _) => PumpStepKeeps(s, t);
    case Result => TakeResultKeeps(s);
    case Early(side) => EarlyKeeps(s, side);
    case Wait(e) => EventKeeps(s, e);
    case Pair(ready) => if s.phase.Waiting? { PairKeeps(s, ready); } else { RecoverKeeps(s, ready); }
    case FinishElsewhere => SamePumpsKeep(s, Do(s, t));
  }

  // The enqueued attachments, as a count.
  function Known(s: Session, id: nat): nat {
    if id in s.enqueued then 1 else 0
  }

  lemma StepKnown(s: Session, t: Step, id: nat)
    requires PumpLaw(s) && PhaseLaw(s) && Enabled(s, t)
    ensures Known(Do(s, t), id) == Known(s, id) + (if t.Enqueue? then In(Some(t.id), id) else 0)
  {
    match t
    case Early(side) => EarlyKeeps(s, side);
    case Wait(e) => EventKeeps(s, e);
    case Pair(ready) => if s.phase.Waiting? { PairKeeps(s, ready); }
    case _ =>
  }

  lemma StepConserves(s: Session, t: Step)
    requires Conserved(s) && PumpLaw(s) && PhaseLaw(s) && Enabled(s, t) && t != Wait(Finished)
    ensures Conserved(Do(s, t))
  {
    forall id
      ensures Places(Do(s, t), id) == Known(Do(s, t), id)
    {
      StepPlaces(s, t, id);
      StepKnown(s, t, id);
      assert Places(s, id) == Known(s, id);
    }
  }

  lemma EndedStays(s: Session, t: Step)
    requires s.phase.Ended? && Enabled(s, t)
    ensures Do(s, t).phase.Ended?
  {
  }

  lemma StepKeeps(s: Session, t: Step)
    requires Inv(s) && Enabled(s, t)
    ensures Inv(Do(s, t))
  {
    StepKeepsPumps(s, t);
    if s.phase.Ended? {
      EndedStays(s, t);
    } else if t != Wait(Finished) {
      StepConserves(s, t);
    }
  }

  lemma RebuiltInv()
    ensures Inv(REBUILT)
  {
  }

  lemma PairedPlaces(id: nat)
    ensures Places(Paired(), id) == 0 && Known(Paired(), id) == 0
  {
    StartPumpsPlaces(REBUILT.(phase := Head), id);
  }

  lemma PairedInv()
    ensures Inv(Paired())
  {
    var s := REBUILT.(phase := Head);
    RebuiltInv();
    SamePumpsKeep(REBUILT, s);
    StartPumpsKeep(s);
    forall id
      ensures Places(Paired(), id) == Known(Paired(), id)
    {
      PairedPlaces(id);
    }
    assert Conserved(Paired());
  }

  // The main theorems

  // In every run the two endpoints' generations agree; whenever the loop waits at
  // its head each direction has exactly one pump running or one result to be
  // collected; and until the session ends each attachment is in exactly one
  // place, so none is lost and none released twice.
  lemma {:induction false} SessionSafety(s: Session, steps: seq<Step>)
    requires Inv(s) && Run(s, steps)
    ensures var f := Final(s, steps);
      && Inv(f) && f.agentGen == f.clientGen
      && (f.phase.Head? ==> Uncollected(f, Agent) == 1 && Uncollected(f, Client) == 1)
      && (!f.phase.Ended? ==> Conserved(f))
    decreases |steps|
  {
    if steps != [] {
      StepKeeps(s, steps[0]);
      SessionSafety(Do(s, steps[0]), steps[1..]);
    }
  }

  // A pump that stops can always report: the result channel has room for it.
  lemma ReportingNeverBlocks(s: Session, i: nat, sessionClose: bool)
    requires Inv(s) && i < |s.pumps|
    ensures Enabled(s, ReadFails(i, sessionClose)) && Enabled(s, WriteFails(i, sessionClose))
  {
    CountBoth(s.pumps, s.results);
  }

  // Pumps still on a transport of an older generation, counting those whose
  // result has not been collected.
  function StalePumps(pumps: seq<Pump>, gen: nat): nat {
    if pumps == [] then 0 else (if pumps[0].sourceGen < gen then 1 else 0) + StalePumps(pumps[1..], gen)
  }

  function StaleResults(results: seq<PumpResult>, gen: nat): nat {
    if results == [] then 0 else (if results[0].sourceGen < gen then 1 else 0) + StaleResults(results[1..], gen)
  }

  function Stale(s: Session): nat {
    StalePumps(s.pumps, s.agentGen) + StaleResults(s.results, s.agentGen)
  }

  lemma {:induction false} StaleAppend(pumps: seq<Pump>, p: Pump, gen: nat)
    ensures StalePumps(pumps + [p], gen) == StalePumps(pumps, gen) + if p.sourceGen < gen then 1 else 0
  {
    if pumps == [] {
      assert pumps + [p] == [p];
    } else {
      assert (pumps + [p])[1..] == pumps[1..] + [p];
      StaleAppend(pumps[1..], p, gen);
    }
  }

  predicate Obsolete(s: Session, r: PumpResult) {
    !r.sessionClose && Gen(s, r.failed) != r.failedGen
  }

  // A result about an obsolete transport causes no barrier: nothing is closed or
  // replaced, its direction gets a pump on the current transport, and one pump
  // fewer is left on an old one.
  lemma ObsoleteResult(s: Session)
    requires Inv(s) && s.phase.Head? && s.results != [] && Obsolete(s, s.results[0])
    ensures var s' := TakeResult(s);
      && s'.phase.Head? && s'.agentGen == s.agentGen && s'.clientGen == s.clientGen
      && s'.agentHeld == s.agentHeld && s'.clientHeld == s.clientHeld && s'.released == s.released
      && |s'.pumps| == |s.pumps| + 1 && s'.pumps[|s.pumps|] == Pump(s.results[0].source, s.agentGen, s.agentGen)
      && Stale(s') == Stale(s) - 1
  {
    var r := s.results[0];
    assert r in s.results;
    StaleAppend(s.pumps, Pump(r.source, s.agentGen, s.agentGen), s.agentGen);
  }
}
