// The relay's bridge for one resumable session: two pumps, the barrier that
// replaces both transports together, and the resume attachments of both sides.
// The state is that of the session loop; each section between two of its waits
// is one function.
module RelaySession {
  import opened Prelude

  datatype Side = Agent | Client

  // A pump is named by the side it reads from.
  datatype Pump = Pump(source: Side, sourceGen: nat, destinationGen: nat)

  // sourceGen is the generation of the transport the pump was reading.
  datatype PumpResult = PumpResult(source: Side, sourceGen: nat, failed: Side, failedGen: nat, sessionClose: bool)

  // Where the loop is. Waiting and Recovering carry the attachments that
  // waitForAttachments holds; Recovering precedes the bridge of a session rebuilt
  // after a relay restart.
  datatype Phase =
    | Head
    | Waiting(agent: Option<nat>, client: Option<nat>)
    | Recovering(agent: Option<nat>, client: Option<nat>)
    | Ended

  const QUEUE: nat := 2
  const RESULTS: nat := 2

  datatype Session = Session(
    agentGen: nat,
    clientGen: nat,
    pumps: seq<Pump>,
    results: seq<PumpResult>,
    running: set<Side>,
    agentQueue: seq<nat>,
    clientQueue: seq<nat>,
    agentHeld: Option<nat>,
    clientHeld: Option<nat>,
    phase: Phase,
    released: multiset<nat>,
    dead: set<nat>,
    enqueued: set<nat>,
    finished: bool)

  function Other(s: Side): Side {
    if s == Agent then Client else Agent
  }

  function Gen(s: Session, side: Side): nat {
    if side == Agent then s.agentGen else s.clientGen
  }

  function Queue(s: Session, side: Side): seq<nat> {
    if side == Agent then s.agentQueue else s.clientQueue
  }

  function SetQueue(s: Session, side: Side, q: seq<nat>): Session {
    if side == Agent then s.(agentQueue := q) else s.(clientQueue := q)
  }

  function One(a: Option<nat>): multiset<nat> {
    match a
    case None => multiset{}
    case Some(id) => multiset{id}
  }

  // Closes an attachment's Done channel.
  function Release(s: Session, a: Option<nat>): Session {
    s.(released := s.released + One(a))
  }

  function StartPump(s: Session, source: Side): Session {
    if source in s.running then s
    else s.(running := s.running + {source},
            pumps := s.pumps + [Pump(source, Gen(s, source), Gen(s, Other(source)))])
  }

  function StartPumps(s: Session): Session {
    StartPump(StartPump(s, Agent), Client)
  }

  // A session rebuilt from resume attachments, and a fresh pairing.
  const REBUILT: Session :=
    Session(1, 1, [], [], {}, [], [], None, None, Recovering(None, None), multiset{}, {}, {}, false)

  function Paired(): Session {
    StartPumps(REBUILT.(phase := Head))
  }

  // Both transports are given up and their attachments released.
  function Barrier(s: Session, agent: Option<nat>, client: Option<nat>): Session {
    Release(Release(s, s.agentHeld), s.clientHeld).(agentHeld := None, clientHeld := None, phase := Waiting(agent, client))
  }

  function End(s: Session): Session {
    s.(phase := Ended, finished := true)
  }

  // Branches of the loop's select

  function TakeResult(s: Session): Session
    requires s.results != []
  {
    var r := s.results[0];
    var s1 := s.(results := s.results[1..], running := s.running - {r.source});
    if r.sessionClose then
      End(Release(Release(s1, s1.agentHeld), s1.clientHeld).(agentHeld := None, clientHeld := None))
    else if Gen(s1, r.failed) != r.failedGen then StartPump(s1, r.source)
    else Barrier(s1, None, None)
  }

  function TakeEarly(s: Session, side: Side): Session
    requires Queue(s, side) != []
  {
    var id := Queue(s, side)[0];
    var s1 := SetQueue(s, side, Queue(s, side)[1..]);
    if id in s.dead then Release(s1, Some(id))
    else if side == Agent then Barrier(s1, Some(id), None)
    else Barrier(s1, None, Some(id))
  }

  // Waiting for both attachments

  datatype WaitEvent = Died(side: Side) | Arrived(side: Side) | Expired | Finished

  function Slot(p: Phase, side: Side): Option<nat>
    requires p.Waiting? || p.Recovering?
  {
    if side == Agent then p.agent else p.client
  }

  function SetSlot(s: Session, side: Side, a: Option<nat>): Session
    requires s.phase.Waiting? || s.phase.Recovering?
  {
    match s.phase
    case Waiting(agent, client) => s.(phase := if side == Agent then Waiting(a, client) else Waiting(agent, a))
    case Recovering(agent, client) => s.(phase := if side == Agent then Recovering(a, client) else Recovering(agent, a))
  }

  predicate Incomplete(p: Phase) {
    (p.Waiting? || p.Recovering?) && (p.agent.None? || p.client.None?)
  }

  predicate CanHappen(s: Session, e: WaitEvent) {
    && Incomplete(s.phase)
    && match e
       case Died(side) => Slot(s.phase, side).Some? && Slot(s.phase, side).value in s.dead
       case Arrived(side) => Queue(s, side) != []
       case Expired => true
       case Finished => s.finished
  }

  function OnEvent(s: Session, e: WaitEvent): Session
    requires CanHappen(s, e)
  {
    match e
    case Died(side) => SetSlot(Release(s, Slot(s.phase, side)), side, None)
    case Arrived(side) =>
      SetSlot(SetQueue(Release(s, Slot(s.phase, side)), side, Queue(s, side)[1..]), side, Some(Queue(s, side)[0]))
    case Expired => End(Release(Release(s, s.phase.agent), s.phase.client))
    case Finished => End(s)
  }

  // Pairing what has been waited for

  // The newest attachment of a side; every older one is released.
  function Latest(s: Session, side: Side, latest: nat): (Session, nat)
    decreases |Queue(s, side)|
  {
    if Queue(s, side) == [] then (s, latest)
    else Latest(SetQueue(Release(s, Some(latest)), side, Queue(s, side)[1..]), side, Queue(s, side)[0])
  }

  // Releases a dead attachment and keeps a live one.
  function KeepLive(s: Session, id: nat): (Session, Option<nat>) {
    if id in s.dead then (Release(s, Some(id)), None) else (s, Some(id))
  }

  function Replace(s: Session, agent: nat, client: nat): Session {
    s.(agentGen := s.agentGen + 1, clientGen := s.clientGen + 1, agentHeld := Some(agent), clientHeld := Some(client))
  }

  predicate Complete(p: Phase) {
    (p.Waiting? || p.Recovering?) && p.agent.Some? && p.client.Some?
  }

  // ready: both control messages were written.
  function Join(s: Session, agent: nat, client: nat, ready: bool): Session {
    if agent in s.dead || client in s.dead then
      var (s1, keptAgent) := KeepLive(s, agent);
      var (s2, keptClient) := KeepLive(s1, client);
      s2.(phase := Waiting(keptAgent, keptClient))
    else if ready then StartPumps(Replace(s, agent, client)).(phase := Head)
    else Barrier(Replace(s, agent, client), None, None)
  }

  function PairUp(s: Session, ready: bool): Session
    requires s.phase.Waiting? && Complete(s.phase)
  {
    var (s1, agent) := Latest(s, Agent, s.phase.agent.value);
    var (s2, client) := Latest(s1, Client, s.phase.client.value);
    Join(s2, agent, client, ready)
  }

  // The first pairing of a rebuilt session.
  function Recover(s: Session, ready: bool): Session
    requires s.phase.Recovering? && Complete(s.phase)
  {
    if ready then
      StartPumps(s.(agentHeld := s.phase.agent, clientHeld := s.phase.client, phase := Head))
    else
      Release(Release(s, s.phase.agent), s.phase.client).(phase := Recovering(None, None))
  }

  // The session as a system: its loop, its pumps and the sides that attach

  datatype Step =
    | Enqueue(side: Side, id: nat)
    | Die(id: nat)
    | Capture(pump: nat)
    | ReadFails(pump: nat, sessionClose: bool)
    | WriteFails(pump: nat, sessionClose: bool)
    | Result
    | Early(side: Side)
    | Wait(event: WaitEvent)
    | Pair(ready: bool)
    | FinishElsewhere

  predicate Enabled(s: Session, t: Step) {
    match t
    case Enqueue(side, id) => !s.phase.Ended? && |Queue(s, side)| < QUEUE && id !in s.enqueued
    case Die(_) => true
    case Capture(i) => i < |s.pumps|
    case ReadFails(i, _) => i < |s.pumps| && |s.results| < RESULTS
    case WriteFails(i, _) => i < |s.pumps| && |s.results| < RESULTS
    case Result => s.phase.Head? && s.results != []
    case Early(side) => s.phase.Head? && Queue(s, side) != []
    case Wait(e) => CanHappen(s, e)
    case Pair(_) => Complete(s.phase)
    case FinishElsewhere => true
  }

  function Without<T>(xs: seq<T>, i: nat): seq<T>
    requires i < |xs|
  {
    xs[..i] + xs[i + 1..]
  }

  // A pump that has read a message looks its destination up.
  function CaptureAt(s: Session, i: nat): Session
    requires i < |s.pumps|
  {
    s.(pumps := s.pumps[i := s.pumps[i].(destinationGen := Gen(s, Other(s.pumps[i].source)))])
  }

  function Report(s: Session, i: nat, failed: Side, failedGen: nat, sessionClose: bool): Session
    requires i < |s.pumps|
  {
    var p := s.pumps[i];
    s.(pumps := Without(s.pumps, i),
       results := s.results + [PumpResult(p.source, p.sourceGen, failed, failedGen, sessionClose)])
  }

  function Do(s: Session, t: Step): Session
    requires Enabled(s, t)
  {
    match t
    case Enqueue(side, id) => SetQueue(s, side, Queue(s, side) + [id]).(enqueued := s.enqueued + {id})
    case Die(id) => s.(dead := s.dead + {id})
    case Capture(i) => CaptureAt(s, i)
    case ReadFails(i, close) => Report(s, i, s.pumps[i].source, s.pumps[i].sourceGen, close)
    case WriteFails(i, close) => Report(s, i, Other(s.pumps[i].source), s.pumps[i].destinationGen, close)
    case Result => TakeResult(s)
    case Early(side) => TakeEarly(s, side)
    case Wait(e) => OnEvent(s, e)
    case Pair(ready) => if s.phase.Waiting? then PairUp(s, ready) else Recover(s, ready)
    case FinishElsewhere => s.(finished := true)
  }

  ghost predicate Run(s: Session, steps: seq<Step>)
    decreases |steps|
  {
    steps == [] || (Enabled(s, steps[0]) && Run(Do(s, steps[0]), steps[1..]))
  }

  ghost function Final(s: Session, steps: seq<Step>): Session
    requires Run(s, steps)
    decreases |steps|
  {
    if steps == [] then s else Final(Do(s, steps[0]), steps[1..])
  }
}
