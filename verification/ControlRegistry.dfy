// The relay's registry of agent control connections. A handler registers its
// control, replacing an earlier one of the same room and agent, is counted in its
// room, and on its way out removes itself from the registry only if it is still
// the one registered. Handlers are numbered in the order they register.
module ControlRegistry {
  import opened Counting

  datatype Room = Room(controlConnections: int, controlAgents: map<string, int>)

  // The relay joins the two with a slash; a room id never holds one, so the
  // joined text and the pair name the same control.
  datatype Key = Key(room: nat, agent: string)

  // Registered, then counted in the room, then out of the registry, then gone.
  datatype Stage = Registered | Connected | Left | Gone

  datatype Handler = Handler(key: Key, stage: Stage)

  datatype Hub = Hub(next: nat, controls: map<Key, nat>, handlers: map<nat, Handler>, rooms: map<nat, Room>)

  const INIT: Hub := Hub(0, map[], map[], map[])

  function ConnectedOne(r: Room, agent: string): Room {
    Room(r.controlConnections + 1, r.controlAgents[agent := Get(r.controlAgents, agent) + 1])
  }

  function DisconnectedOne(r: Room, agent: string): Room {
    Room(if r.controlConnections > 0 then r.controlConnections - 1 else r.controlConnections,
         if Get(r.controlAgents, agent) <= 1 then r.controlAgents - {agent}
         else r.controlAgents[agent := r.controlAgents[agent] - 1])
  }

  class RelayRoom {
    var controlConnections: int
    var controlAgents: map<string, int>

    function State(): Room
      reads this
    {
      Room(controlConnections, controlAgents)
    }

    constructor ()
      ensures State() == Room(0, map[])
    {
      controlConnections, controlAgents := 0, map[];
    }

    method ControlConnected(agent: string)
      modifies this
      ensures State() == ConnectedOne(old(State()), agent)
    {
      controlConnections := controlConnections + 1;
      controlAgents := controlAgents[agent := Get(controlAgents, agent) + 1];
    }

    method ControlDisconnected(agent: string)
      modifies this
      ensures State() == DisconnectedOne(old(State()), agent)
    {
      if controlConnections > 0 {
        controlConnections := controlConnections - 1;
      }
      if Get(controlAgents, agent) <= 1 {
        controlAgents := controlAgents - {agent};
      } else {
        controlAgents := controlAgents[agent := controlAgents[agent] - 1];
      }
    }
  }

  datatype Step =
    | Register(key: Key)
    | Connect(handler: nat)
    | Leave(handler: nat)
    | Disconnect(handler: nat)

  function RoomOf(h: Hub, room: nat): Room {
    if room in h.rooms then h.rooms[room] else Room(0, map[])
  }

  predicate AtStage(h: Hub, i: nat, stage: Stage) {
    i in h.handlers && h.handlers[i].stage == stage
  }

  predicate Enabled(h: Hub, t: Step) {
    match t
    case Register(_) => true
    case Connect(i) => AtStage(h, i, Registered)
    case Leave(i) => AtStage(h, i, Connected)
    case Disconnect(i) => AtStage(h, i, Left)
  }

  function SetStage(h: Hub, i: nat, stage: Stage): Hub
    requires i in h.handlers
  {
    h.(handlers := h.handlers[i := h.handlers[i].(stage := stage)])
  }

  function Do(h: Hub, t: Step): Hub
    requires Enabled(h, t)
  {
    match t
    case Register(key) =>
      h.(next := h.next + 1, controls := h.controls[key := h.next], handlers := h.handlers[h.next := Handler(key, Registered)])
    case Connect(i) =>
      var key := h.handlers[i].key;
      SetStage(h, i, Connected).(rooms := h.rooms[key.room := ConnectedOne(RoomOf(h, key.room), key.agent)])
    case Leave(i) =>
      var key := h.handlers[i].key;
      SetStage(h, i, Left).(controls := if key in h.controls && h.controls[key] == i then h.controls - {key} else h.controls)
    case Disconnect(i) =>
      var key := h.handlers[i].key;
      SetStage(h, i, Gone).(rooms := h.rooms[key.room := DisconnectedOne(RoomOf(h, key.room), key.agent)])
  }

  ghost predicate Run(h: Hub, steps: seq<Step>)
    decreases |steps|
  {
    steps == [] || (Enabled(h, steps[0]) && Run(Do(h, steps[0]), steps[1..]))
  }

  ghost function Final(h: Hub, steps: seq<Step>): Hub
    requires Run(h, steps)
    decreases |steps|
  {
    if steps == [] then h else Final(Do(h, steps[0]), steps[1..])
  }

  predicate Live(f: Handler) {
    f.stage == Registered || f.stage == Connected
  }

  // The handler registered last for a key.
  predicate Newest(h: Hub, key: Key, i: nat) {
    && i in h.handlers && h.handlers[i].key == key
    && forall j <- h.handlers :: h.handlers[j].key == key ==> j <= i
  }

  // The registry holds the newest control of a key while it is live, and nothing
  // otherwise.
  ghost predicate RegistryLaw(h: Hub) {
    && (forall i <- h.handlers :: i < h.next)
    && (forall key <- h.controls :: Newest(h, key, h.controls[key]) && Live(h.handlers[h.controls[key]]))
    && (forall i <- h.handlers :: Live(h.handlers[i]) && Newest(h, h.handlers[i].key, i) ==>
          h.handlers[i].key in h.controls && h.controls[h.handlers[i].key] == i)
  }

  predicate CountedIn(f: Handler) {
    f.stage == Connected || f.stage == Left
  }

  function InRoom(room: nat): Handler -> bool {
    (f: Handler) => f.key.room == room && CountedIn(f)
  }

  function OfAgent(room: nat, agent: string): Handler -> bool {
    (f: Handler) => f.key == Key(room, agent) && CountedIn(f)
  }

  ghost predicate RoomLaw(h: Hub, room: nat) {
    && RoomOf(h, room).controlConnections == CountIf(h.handlers, InRoom(room)) == Total(RoomOf(h, room).controlAgents)
    && (forall agent :: Get(RoomOf(h, room).controlAgents, agent) == CountIf(h.handlers, OfAgent(room, agent)))
    && (forall agent <- RoomOf(h, room).controlAgents :: RoomOf(h, room).controlAgents[agent] > 0)
  }

  ghost predicate Inv(h: Hub) {
    RegistryLaw(h) && forall room :: RoomLaw(h, room)
  }

  // Registry

  lemma NewestBefore(h: Hub, key: Key, k: Key, i: nat)
    requires RegistryLaw(h) && k != key
    ensures Newest(Do(h, Register(key)), k, i) <==> Newest(h, k, i)
  {
    var h' := Do(h, Register(key));
    assert h.next !in h.handlers;
    assert h'.handlers[h.next].key == key;
    assert forall j <- h.handlers :: h'.handlers[j] == h.handlers[j];
    assert forall j <- h'.handlers :: j == h.next || j in h.handlers;
  }

  lemma NewestNow(h: Hub, key: Key, i: nat)
    requires RegistryLaw(h)
    ensures Newest(Do(h, Register(key)), key, i) <==> i == h.next
  {
    var h' := Do(h, Register(key));
    assert h'.handlers[h.next].key == key;
    assert forall j <- h'.handlers :: j == h.next || j in h.handlers;
  }

  lemma RegisterKeepsRegistry(h: Hub, key: Key)
    requires RegistryLaw(h)
    ensures RegistryLaw(Do(h, Register(key)))
  {
    var h' := Do(h, Register(key));
    NewestNow(h, key, h.next);
    forall k | k in h'.controls
      ensures Newest(h', k, h'.controls[k]) && Live(h'.handlers[h'.controls[k]])
    {
      if k != key {
        NewestBefore(h, key, k, h.controls[k]);
      }
    }
    forall i | i in h'.handlers && Live(h'.handlers[i]) && Newest(h', h'.handlers[i].key, i)
      ensures h'.handlers[i].key in h'.controls && h'.controls[h'.handlers[i].key] == i
    {
      if h'.handlers[i].key == key {
        NewestNow(h, key, i);
      } else {
        NewestBefore(h, key, h'.handlers[i].key, i);
      }
    }
  }

  lemma NewestSame(h: Hub, i: nat, stage: Stage, key: Key, j: nat)
    requires i in h.handlers
    ensures Newest(SetStage(h, i, stage), key, j) <==> Newest(h, key, j)
  {
    var h' := SetStage(h, i, stage);
    assert forall k <- h.handlers :: h'.handlers[k].key == h.handlers[k].key;
    assert forall k <- h'.handlers :: k in h.handlers;
  }

  lemma StageKeepsRegistry(h: Hub, i: nat, stage: Stage)
    requires RegistryLaw(h) && i in h.handlers && Live(h.handlers[i]) == Live(Handler(h.handlers[i].key, stage))
    ensures RegistryLaw(SetStage(h, i, stage))
  {
    var h' := SetStage(h, i, stage);
    forall k | k in h'.controls
      ensures Newest(h', k, h'.controls[k]) && Live(h'.handlers[h'.controls[k]])
    {
      NewestSame(h, i, stage, k, h.controls[k]);
    }
    forall j | j in h'.handlers && Live(h'.handlers[j]) && Newest(h', h'.handlers[j].key, j)
      ensures h'.handlers[j].key in h'.controls && h'.controls[h'.handlers[j].key] == j
    {
      NewestSame(h, i, stage, h.handlers[j].key, j);
    }
  }

  // A late exit of a replaced control never removes its successor.
  lemma LeaveKeepsRegistry(h: Hub, i: nat)
    requires RegistryLaw(h) && AtStage(h, i, Connected)
    ensures RegistryLaw(Do(h, Leave(i)))
  {
    var h' := Do(h, Leave(i));
    forall k | k in h'.controls
      ensures Newest(h', k, h'.controls[k]) && Live(h'.handlers[h'.controls[k]])
    {
      NewestSame(h, i, Left, k, h.controls[k]);
      assert Newest(h, k, h.controls[k]);
      assert h.controls[k] != i;
    }
    forall j | j in h'.handlers && Live(h'.handlers[j]) && Newest(h', h'.handlers[j].key, j)
      ensures h'.handlers[j].key in h'.controls && h'.controls[h'.handlers[j].key] == j
    {
      NewestSame(h, i, Left, h.handlers[j].key, j);
    }
  }

  // Rooms

  // A handler's change of stage, seen by the counts of a room.
  lemma Recount(h: Hub, i: nat, f: Handler, room: nat, agent: string)
    ensures CountIf(h.handlers[i := f], InRoom(room)) ==
            CountIf(h.handlers, InRoom(room)) - (if i in h.handlers then Weight(InRoom(room), h.handlers[i]) else 0) + Weight(InRoom(room), f)
    ensures CountIf(h.handlers[i := f], OfAgent(room, agent)) ==
            CountIf(h.handlers, OfAgent(room, agent)) - (if i in h.handlers then Weight(OfAgent(room, agent), h.handlers[i]) else 0) + Weight(OfAgent(room, agent), f)
  {
    CountUpdate(h.handlers, i, f, InRoom(room));
    CountUpdate(h.handlers, i, f, OfAgent(room, agent));
  }

  // A handler entering or leaving a stage that is not counted changes no count.
  lemma UncountedKeepsRoom(h: Hub, h': Hub, i: nat, f: Handler, room: nat)
    requires RoomLaw(h, room)
    requires h'.handlers == h.handlers[i := f] && h'.rooms == h.rooms
    requires if i in h.handlers then f.key == h.handlers[i].key && CountedIn(f) == CountedIn(h.handlers[i]) else !CountedIn(f)
    ensures RoomLaw(h', room)
  {
    Recount(h, i, f, room, "");
    forall agent
      ensures Get(RoomOf(h', room).controlAgents, agent) == CountIf(h'.handlers, OfAgent(room, agent))
    {
      Recount(h, i, f, room, agent);
    }
  }

  // Another room's handler changes no count of this room.
  lemma ElsewhereKeepsRoom(h: Hub, h': Hub, i: nat, f: Handler, room: nat)
    requires RoomLaw(h, room)
    requires i in h.handlers && f.key == h.handlers[i].key && f.key.room != room
    requires h'.handlers == h.handlers[i := f] && RoomOf(h', room) == RoomOf(h, room)
    ensures RoomLaw(h', room)
  {
    Recount(h, i, f, room, "");
    forall agent
      ensures Get(RoomOf(h', room).controlAgents, agent) == CountIf(h'.handlers, OfAgent(room, agent))
    {
      Recount(h, i, f, room, agent);
    }
  }

  lemma ConnectKeepsRoom(h: Hub, i: nat)
    requires AtStage(h, i, Registered) && RoomLaw(h, h.handlers[i].key.room)
    ensures RoomLaw(Do(h, Connect(i)), h.handlers[i].key.room)
  {
    var h', key, f := Do(h, Connect(i)), h.handlers[i].key, h.handlers[i].(stage := Connected);
    var r := RoomOf(h, key.room);
    assert RoomOf(h', key.room) == ConnectedOne(r, key.agent);
    TotalUpdate(r.controlAgents, key.agent, Get(r.controlAgents, key.agent) + 1);
    Recount(h, i, f, key.room, key.agent);
    forall agent
      ensures Get(RoomOf(h', key.room).controlAgents, agent) == CountIf(h'.handlers, OfAgent(key.room, agent))
    {
      Recount(h, i, f, key.room, agent);
    }
  }

  // A counted handler holds both of its room's counters above zero.
  lemma CountedIsPositive(h: Hub, i: nat)
    requires i in h.handlers && CountedIn(h.handlers[i]) && RoomLaw(h, h.handlers[i].key.room)
    ensures RoomOf(h, h.handlers[i].key.room).controlConnections > 0
    ensures Get(RoomOf(h, h.handlers[i].key.room).controlAgents, h.handlers[i].key.agent) > 0
  {
    var key := h.handlers[i].key;
    MemberCounts(h.handlers, i, InRoom(key.room));
    MemberCounts(h.handlers, i, OfAgent(key.room, key.agent));
  }

  lemma DisconnectKeepsRoom(h: Hub, i: nat)
    requires AtStage(h, i, Left) && RoomLaw(h, h.handlers[i].key.room)
    ensures RoomLaw(Do(h, Disconnect(i)), h.handlers[i].key.room)
  {
    var h', key, f := Do(h, Disconnect(i)), h.handlers[i].key, h.handlers[i].(stage := Gone);
    var r := RoomOf(h, key.room);
    assert RoomOf(h', key.room) == DisconnectedOne(r, key.agent);
    CountedIsPositive(h, i);
    TotalUpdate(r.controlAgents, key.agent, Get(r.controlAgents, key.agent) - 1);
    TotalRemove(r.controlAgents, key.agent);
    Recount(h, i, f, key.room, key.agent);
    forall agent
      ensures Get(RoomOf(h', key.room).controlAgents, agent) == CountIf(h'.handlers, OfAgent(key.room, agent))
    {
      Recount(h, i, f, key.room, agent);
    }
  }

  lemma StepKeepsRoom(h: Hub, t: Step, room: nat)
    requires RegistryLaw(h) && RoomLaw(h, room) && Enabled(h, t)
    ensures RoomLaw(Do(h, t), room)
  {
    var h' := Do(h, t);
    match t
    case Register(key) => UncountedKeepsRoom(h, h', h.next, Handler(key, Registered), room);
    case Leave(i) => UncountedKeepsRoom(h, h', i, h.handlers[i].(stage := Left), room);
    case Connect(i) =>
      if h.handlers[i].key.room == room {
        ConnectKeepsRoom(h, i);
      } else {
        ElsewhereKeepsRoom(h, h', i, h.handlers[i].(stage := Connected), room);
      }
    case Disconnect(i) =>
      if h.handlers[i].key.room == room {
        DisconnectKeepsRoom(h, i);
      } else {
        ElsewhereKeepsRoom(h, h', i, h.handlers[i].(stage := Gone), room);
      }
  }

  // The registry does not look at the rooms.
  lemma RoomsAreApart(h: Hub, h': Hub)
    requires RegistryLaw(h) && h' == h.(rooms := h'.rooms)
    ensures RegistryLaw(h')
  {
    forall key, i
      ensures Newest(h', key, i) <==> Newest(h, key, i)
    {
    }
  }

  lemma StepKeepsRegistry(h: Hub, t: Step)
    requires RegistryLaw(h) && Enabled(h, t)
    ensures RegistryLaw(Do(h, t))
  {
    match t
    case Register(key) => RegisterKeepsRegistry(h, key);
    case Leave(i) => LeaveKeepsRegistry(h, i);
    case Connect(i) =>
      StageKeepsRegistry(h, i, Connected);
      RoomsAreApart(SetStage(h, i, Connected), Do(h, t));
    case Disconnect(i) =>
      StageKeepsRegistry(h, i, Gone);
      RoomsAreApart(SetStage(h, i, Gone), Do(h, t));
  }

  lemma InitialInv()
    ensures Inv(INIT)
  {
    forall room
      ensures RoomLaw(INIT, room)
    {
      assert Matching(INIT.handlers, InRoom(room)) == {};
      forall agent
        ensures Get(RoomOf(INIT, room).controlAgents, agent) == CountIf(INIT.handlers, OfAgent(room, agent))
      {
        assert Matching(INIT.handlers, OfAgent(room, agent)) == {};
      }
    }
  }

  lemma {:induction false} RunKeeps(h: Hub, steps: seq<Step>)
    requires Inv(h) && Run(h, steps)
    ensures Inv(Final(h, steps))
    decreases |steps|
  {
    if steps != [] {
      StepKeepsRegistry(h, steps[0]);
      forall room
        ensures RoomLaw(Do(h, steps[0]), room)
      {
        StepKeepsRoom(h, steps[0], room);
      }
      RunKeeps(Do(h, steps[0]), steps[1..]);
    }
  }

  // After any run, looking a key up gives a control exactly when the newest
  // handler of that key has not left, and then that handler; each room counts its
  // handlers, in all and per agent; and one that is about to be uncounted finds
  // both counters above zero.
  lemma RegistrySafety(steps: seq<Step>, key: Key)
    requires Run(INIT, steps)
    ensures var h := Final(INIT, steps);
      && (forall i :: key in h.controls && h.controls[key] == i <==> Newest(h, key, i) && Live(h.handlers[i]))
      && RoomOf(h, key.room).controlConnections == Total(RoomOf(h, key.room).controlAgents) == CountIf(h.handlers, InRoom(key.room))
      && Get(RoomOf(h, key.room).controlAgents, key.agent) == CountIf(h.handlers, OfAgent(key.room, key.agent))
      && (forall i :: AtStage(h, i, Left) && h.handlers[i].key == key ==>
            RoomOf(h, key.room).controlConnections > 0 && Get(RoomOf(h, key.room).controlAgents, key.agent) > 0)
  {
    InitialInv();
    RunKeeps(INIT, steps);
    var h := Final(INIT, steps);
    assert RoomLaw(h, key.room);
    forall i | AtStage(h, i, Left) && h.handlers[i].key == key
      ensures RoomOf(h, key.room).controlConnections > 0 && Get(RoomOf(h, key.room).controlAgents, key.agent) > 0
    {
      CountedIsPositive(h, i);
    }
  }

  // The exit of a control that has been replaced leaves the registry as it was.
  lemma ReplacedExitKeepsSuccessor(steps: seq<Step>, i: nat, j: nat)
    requires Run(INIT, steps)
    requires AtStage(Final(INIT, steps), i, Connected)
    requires j in Final(INIT, steps).handlers && j > i
    requires Final(INIT, steps).handlers[j].key == Final(INIT, steps).handlers[i].key
    ensures Do(Final(INIT, steps), Leave(i)).controls == Final(INIT, steps).controls
  {
    InitialInv();
    RunKeeps(INIT, steps);
  }
}
