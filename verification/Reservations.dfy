// On-demand session requests at the relay: the reservation each holds on an agent
// control, its entry in the table of pending sessions, and the room's counters.
// A request passes through the stages below; every stage change is one critical
// section, and sections of different requests interleave freely.
module Reservations {
  import opened Counting

  const PENDING_LIMIT: nat := 4096

  datatype Control = Control(active: int, concurrency: int, closed: bool)

  datatype Room = Room(pendingRequests: int, pendingByService: map<string, int>)

  // Refused: the pending table was full. Counted: registered and in the room's
  // counters. Removed: out of the table, still counted.
  datatype Stage = Reserved | Refused | Registered | Counted | Removed | Uncounted | Done

  datatype Request = Request(control: nat, room: nat, service: string, stage: Stage)

  datatype Hub = Hub(controls: map<nat, Control>, rooms: map<nat, Room>, pending: set<nat>, requests: map<nat, Request>)

  const INIT: Hub := Hub(map[], map[], {}, map[])

  // The sections

  predicate CanReserve(c: Control) {
    c.active < c.concurrency
  }

  function Acquire(c: Control): Control {
    c.(active := c.active + 1)
  }

  // Never below zero.
  function ReleaseOne(c: Control): Control {
    if c.active <= 0 then c else c.(active := c.active - 1)
  }

  function PendingStarted(r: Room, service: string): Room {
    Room(r.pendingRequests + 1, r.pendingByService[service := Get(r.pendingByService, service) + 1])
  }

  // Never below zero.
  function PendingEnded(r: Room, service: string): Room {
    Room(if r.pendingRequests > 0 then r.pendingRequests - 1 else r.pendingRequests,
         if Get(r.pendingByService, service) > 0
         then r.pendingByService[service := r.pendingByService[service] - 1] else r.pendingByService)
  }

  class AgentControl {
    var active: int
    var closed: bool
    const concurrency: int

    function State(): Control
      reads this
    {
      Control(active, concurrency, closed)
    }

    constructor (concurrency: int)
      ensures State() == Control(0, concurrency, false)
    {
      active, closed, this.concurrency := 0, false, concurrency;
    }

    method TryReserve() returns (ok: bool)
      modifies this`active
      ensures ok == (!closed && CanReserve(old(State())))
      ensures ok <==> !old(closed) && old(active) < concurrency
      ensures active == old(active) + (if ok then 1 else 0)
      ensures State() == if ok then Acquire(old(State())) else old(State())
    {
      if closed || active >= concurrency {
        return false;
      }
      active := active + 1;
      ok := true;
    }

    method Release()
      modifies this`active
      ensures State() == ReleaseOne(old(State()))
    {
      if active > 0 {
        active := active - 1;
      }
    }
  }

  class RelayRoom {
    var pendingRequests: int
    var pendingByService: map<string, int>

    function State(): Room
      reads this
    {
      Room(pendingRequests, pendingByService)
    }

    constructor ()
      ensures State() == Room(0, map[])
    {
      pendingRequests, pendingByService := 0, map[];
    }

    method Started(service: string)
      modifies this
      ensures State() == PendingStarted(old(State()), service)
    {
      pendingRequests := pendingRequests + 1;
      pendingByService := pendingByService[service := Get(pendingByService, service) + 1];
    }

    method Ended(service: string)
      modifies this
      ensures State() == PendingEnded(old(State()), service)
    {
      if pendingRequests > 0 {
        pendingRequests := pendingRequests - 1;
      }
      if service in pendingByService && pendingByService[service] > 0 {
        pendingByService := pendingByService[service := pendingByService[service] - 1];
      }
    }
  }

  // Runs

  datatype Step =
    | Connect(control: nat, concurrency: int)
    | Close(control: nat)
    | Reserve(request: nat, control: nat, room: nat, service: string)
    | Register(request: nat)
    | Count(request: nat)
    | Remove(request: nat)
    | Uncount(request: nat)
    | Release(request: nat)

  function RoomOf(h: Hub, room: nat): Room {
    if room in h.rooms then h.rooms[room] else Room(0, map[])
  }

  predicate AtStage(h: Hub, request: nat, stage: Stage) {
    request in h.requests && h.requests[request].stage == stage
  }

  predicate Enabled(h: Hub, t: Step) {
    match t
    case Connect(c, _) => c !in h.controls
    case Close(c) => c in h.controls
    case Reserve(r, c, _, _) => r !in h.requests && c in h.controls && CanReserve(h.controls[c])
    case Register(r) => AtStage(h, r, Reserved)
    case Count(r) => AtStage(h, r, Registered)
    case Remove(r) => AtStage(h, r, Counted)
    case Uncount(r) => AtStage(h, r, Removed)
    case Release(r) => (AtStage(h, r, Uncounted) || AtStage(h, r, Refused)) && h.requests[r].control in h.controls
  }

  function SetStage(h: Hub, r: nat, stage: Stage): Hub
    requires r in h.requests
  {
    h.(requests := h.requests[r := h.requests[r].(stage := stage)])
  }

  function SetRoom(h: Hub, room: nat, value: Room): Hub {
    h.(rooms := h.rooms[room := value])
  }

  function SetControl(h: Hub, c: nat, value: Control): Hub {
    h.(controls := h.controls[c := value])
  }

  function Do(h: Hub, t: Step): Hub
    requires Enabled(h, t)
  {
    match t
    case Connect(c, concurrency) => SetControl(h, c, Control(0, concurrency, false))
    case Close(c) => SetControl(h, c, h.controls[c].(closed := true))
    case Reserve(r, c, room, service) =>
      SetControl(h, c, Acquire(h.controls[c])).(requests := h.requests[r := Request(c, room, service, Reserved)])
    case Register(r) =>
      if |h.pending| >= PENDING_LIMIT then SetStage(h, r, Refused)
      else SetStage(h, r, Registered).(pending := h.pending + {r})
    case Count(r) =>
      var q := h.requests[r];
      SetRoom(SetStage(h, r, Counted), q.room, PendingStarted(RoomOf(h, q.room), q.service))
    case Remove(r) => SetStage(h, r, Removed).(pending := h.pending - {r})
    case Uncount(r) =>
      var q := h.requests[r];
      SetRoom(SetStage(h, r, Uncounted), q.room, PendingEnded(RoomOf(h, q.room), q.service))
    case Release(r) =>
      var c := h.requests[r].control;
      SetControl(SetStage(h, r, Done), c, ReleaseOne(h.controls[c]))
  }

  ghost predicate Run(h: Hub, steps: seq<Step>)
    decreases |steps|
  {
    steps == [] || (Enabled(h, steps[0]) && Run(Do(h, steps[0]), steps[1..]))
  }

  ghost function Final(h: Hub, steps: seq<Step>): Hub
    requires Run(h, steps)
    decreases |steps|
  {
    if steps == [] then h else Final(Do(h, steps[0]), steps[1..])
  }

  // What the counters count

  // A request holds its control from its reservation to its release, and counts
  // as open in its room from Counted to Uncounted.
  function Holds(c: nat): Request -> bool {
    (q: Request) => q.control == c && q.stage != Done
  }

  predicate IsOpen(q: Request) {
    q.stage == Counted || q.stage == Removed
  }

  function OpenIn(room: nat): Request -> bool {
    (q: Request) => q.room == room && IsOpen(q)
  }

  function OpenFor(room: nat, service: string): Request -> bool {
    (q: Request) => q.room == room && q.service == service && IsOpen(q)
  }

  predicate ControlLaw(h: Hub, c: nat)
    requires c in h.controls
  {
    && h.controls[c].active == CountIf(h.requests, Holds(c))
    && (h.controls[c].active <= h.controls[c].concurrency || h.controls[c].active == 0)
  }

  ghost predicate RoomLaw(h: Hub, room: nat) {
    && RoomOf(h, room).pendingRequests == CountIf(h.requests, OpenIn(room)) == Total(RoomOf(h, room).pendingByService)
    && forall service :: Get(RoomOf(h, room).pendingByService, service) == CountIf(h.requests, OpenFor(room, service))
  }

  predicate Tabled(q: Request) {
    q.stage == Registered || q.stage == Counted
  }

  predicate TableLaw(h: Hub) {
    && (forall r <- h.pending :: r in h.requests && Tabled(h.requests[r]))
    && (forall r <- h.requests :: Tabled(h.requests[r]) ==> r in h.pending)
    && |h.pending| <= PENDING_LIMIT
  }

  predicate HeldLaw(h: Hub) {
    forall r <- h.requests :: h.requests[r].control in h.controls
  }

  predicate ControlsLaw(h: Hub) {
    forall c <- h.controls :: ControlLaw(h, c)
  }

  ghost predicate Inv(h: Hub) {
    HeldLaw(h) && ControlsLaw(h) && TableLaw(h) && forall room :: RoomLaw(h, room)
  }

  // Changing the stage of a request

  lemma StageKeepsControls(h: Hub, r: nat, stage: Stage)
    requires ControlsLaw(h)
    requires r in h.requests && h.requests[r].stage != Done && stage != Done
    ensures ControlsLaw(SetStage(h, r, stage))
  {
    var q := h.requests[r].(stage := stage);
    forall c | c in h.controls
      ensures ControlLaw(SetStage(h, r, stage), c)
    {
      CountUpdate(h.requests, r, q, Holds(c));
    }
  }

  lemma StageKeepsRoom(h: Hub, r: nat, stage: Stage, room: nat)
    requires RoomLaw(h, room)
    requires r in h.requests && IsOpen(h.requests[r]) == IsOpen(h.requests[r].(stage := stage))
    ensures RoomLaw(SetStage(h, r, stage), room)
  {
    var q := h.requests[r].(stage := stage);
    CountUpdate(h.requests, r, q, OpenIn(room));
    forall service
      ensures CountIf(h.requests[r := q], OpenFor(room, service)) == CountIf(h.requests, OpenFor(room, service))
    {
      CountUpdate(h.requests, r, q, OpenFor(room, service));
    }
  }

  // Opening and closing a request in its room

  lemma OpenCounts(h: Hub, r: nat, stage: Stage, room: nat, service: string)
    requires r in h.requests
    ensures var q, q' := h.requests[r], h.requests[r].(stage := stage);
      && CountIf(SetStage(h, r, stage).requests, OpenIn(room)) ==
           CountIf(h.requests, OpenIn(room)) - Weight(OpenIn(room), q) + Weight(OpenIn(room), q')
      && CountIf(SetStage(h, r, stage).requests, OpenFor(room, service)) ==
           CountIf(h.requests, OpenFor(room, service)) - Weight(OpenFor(room, service), q) + Weight(OpenFor(room, service), q')
  {
    CountUpdate(h.requests, r, h.requests[r].(stage := stage), OpenIn(room));
    CountUpdate(h.requests, r, h.requests[r].(stage := stage), OpenFor(room, service));
  }

  lemma StartKeepsRoom(h: Hub, r: nat, room: nat)
    requires RoomLaw(h, room) && AtStage(h, r, Registered)
    ensures RoomLaw(Do(h, Count(r)), room)
  {
    var q := h.requests[r];
    TotalUpdate(RoomOf(h, q.room).pendingByService, q.service, Get(RoomOf(h, q.room).pendingByService, q.service) + 1);
    OpenCounts(h, r, Counted, room, q.service);
    forall service
      ensures Get(RoomOf(Do(h, Count(r)), room).pendingByService, service) ==
        CountIf(Do(h, Count(r)).requests, OpenFor(room, service))
    {
      OpenCounts(h, r, Counted, room, service);
    }
  }

  // An open request is counted in its room, so neither counter is zero.
  lemma {:induction false} OpenIsCounted(h: Hub, r: nat)
    requires r in h.requests && IsOpen(h.requests[r]) && RoomLaw(h, h.requests[r].room)
    ensures var q := h.requests[r];
      RoomOf(h, q.room).pendingRequests > 0 && Get(RoomOf(h, q.room).pendingByService, q.service) > 0
  {
    var q := h.requests[r];
    MemberCounts(h.requests, r, OpenIn(q.room));
    MemberCounts(h.requests, r, OpenFor(q.room, q.service));
  }

  lemma EndKeepsRoom(h: Hub, r: nat, room: nat)
    requires RoomLaw(h, room) && AtStage(h, r, Removed) && RoomLaw(h, h.requests[r].room)
    ensures RoomLaw(Do(h, Uncount(r)), room)
  {
    var q := h.requests[r];
    OpenIsCounted(h, r);
    TotalUpdate(RoomOf(h, q.room).pendingByService, q.service, Get(RoomOf(h, q.room).pendingByService, q.service) - 1);
    OpenCounts(h, r, Uncounted, room, q.service);
    forall service
      ensures Get(RoomOf(Do(h, Uncount(r)), room).pendingByService, service) ==
        CountIf(Do(h, Uncount(r)).requests, OpenFor(room, service))
    {
      OpenCounts(h, r, Uncounted, room, service);
    }
  }

  // Taking and giving back a reservation

  lemma ReserveKeepsControls(h: Hub, r: nat, c: nat, room: nat, service: string)
    requires ControlsLaw(h) && Enabled(h, Reserve(r, c, room, service))
    ensures ControlsLaw(Do(h, Reserve(r, c, room, service)))
  {
    var h' := Do(h, Reserve(r, c, room, service));
    forall d | d in h'.controls
      ensures ControlLaw(h', d)
    {
      assert ControlLaw(h, d);
      CountUpdate(h.requests, r, Request(c, room, service, Reserved), Holds(d));
    }
  }

  lemma ReserveKeepsRoom(h: Hub, r: nat, q: Request, room: nat)
    requires RoomLaw(h, room) && r !in h.requests && q.stage == Reserved
    ensures RoomLaw(h.(requests := h.requests[r := q]), room)
  {
    CountUpdate(h.requests, r, q, OpenIn(room));
    forall s
      ensures CountIf(h.requests[r := q], OpenFor(room, s)) == CountIf(h.requests, OpenFor(room, s))
    {
      CountUpdate(h.requests, r, q, OpenFor(room, s));
    }
  }

  // A request that holds its control is counted by it.
  lemma HolderIsCounted(h: Hub, r: nat)
    requires r in h.requests && h.requests[r].stage != Done
    requires h.requests[r].control in h.controls && ControlLaw(h, h.requests[r].control)
    ensures h.controls[h.requests[r].control].active > 0
  {
    MemberCounts(h.requests, r, Holds(h.requests[r].control));
  }

  lemma ReleaseKeepsControls(h: Hub, r: nat)
    requires ControlsLaw(h) && Enabled(h, Release(r))
    ensures ControlsLaw(Do(h, Release(r)))
  {
    var h', q := Do(h, Release(r)), h.requests[r];
    HolderIsCounted(h, r);
    forall d | d in h'.controls
      ensures ControlLaw(h', d)
    {
      assert ControlLaw(h, d);
      CountUpdate(h.requests, r, q.(stage := Done), Holds(d));
    }
  }

  // Every step keeps each law

  // A control's law looks at its own record and at the requests alone.
  lemma ControlsSame(h: Hub, h': Hub)
    requires ControlsLaw(h) && h'.controls == h.controls && h'.requests == h.requests
    ensures ControlsLaw(h')
  {
    forall c | c in h'.controls
      ensures ControlLaw(h', c)
    {
      assert ControlLaw(h, c);
    }
  }

  // So does a room's.
  lemma RoomSame(h: Hub, h': Hub, room: nat)
    requires RoomLaw(h, room) && RoomOf(h', room) == RoomOf(h, room) && h'.requests == h.requests
    ensures RoomLaw(h', room)
  {
    assert forall service :: Get(RoomOf(h, room).pendingByService, service) == CountIf(h.requests, OpenFor(room, service));
  }

  lemma MoveKeepsControls(h: Hub, h': Hub, r: nat, stage: Stage)
    requires ControlsLaw(h)
    requires r in h.requests && h.requests[r].stage != Done && stage != Done
    requires h'.controls == h.controls && h'.requests == h.requests[r := h.requests[r].(stage := stage)]
    ensures ControlsLaw(h')
  {
    StageKeepsControls(h, r, stage);
    ControlsSame(SetStage(h, r, stage), h');
  }

  lemma ConnectKeepsControls(h: Hub, c: nat, concurrency: int)
    requires HeldLaw(h) && ControlsLaw(h) && c !in h.controls
    ensures ControlsLaw(Do(h, Connect(c, concurrency)))
  {
    var h' := Do(h, Connect(c, concurrency));
    assert Matching(h.requests, Holds(c)) == {};
    forall d | d in h'.controls
      ensures ControlLaw(h', d)
    {
      assert d != c ==> ControlLaw(h, d);
    }
  }

  lemma CloseKeepsControls(h: Hub, c: nat)
    requires ControlsLaw(h) && c in h.controls
    ensures ControlsLaw(Do(h, Close(c)))
  {
    var h' := Do(h, Close(c));
    forall d | d in h'.controls
      ensures ControlLaw(h', d)
    {
      assert ControlLaw(h, d);
    }
  }

  lemma StepKeepsControls(h: Hub, t: Step)
    requires HeldLaw(h) && ControlsLaw(h) && Enabled(h, t)
    ensures ControlsLaw(Do(h, t))
  {
    var h' := Do(h, t);
    match t
    case Connect(c, concurrency) => ConnectKeepsControls(h, c, concurrency);
    case Close(c) => CloseKeepsControls(h, c);
    case Reserve(r, c, room, service) => ReserveKeepsControls(h, r, c, room, service);
    case Release(r) => ReleaseKeepsControls(h, r);
    case Register(r) => MoveKeepsControls(h, h', r, h'.requests[r].stage);
    case Count(r) => MoveKeepsControls(h, h', r, Counted);
    case Remove(r) => MoveKeepsControls(h, h', r, Removed);
    case Uncount(r) => MoveKeepsControls(h, h', r, Uncounted);
  }

  lemma StepKeepsRoom(h: Hub, t: Step, room: nat)
    requires (forall x :: RoomLaw(h, x)) && Enabled(h, t)
    ensures RoomLaw(Do(h, t), room)
  {
    var h' := Do(h, t);
    assert RoomLaw(h, room);
    match t
    case Connect(_, _) | Close(_) => RoomSame(h, h', room);
    case Reserve(r, c, x, service) =>
      ReserveKeepsRoom(h, r, h'.requests[r], room);
      RoomSame(h.(requests := h'.requests), h', room);
    case Count(r) => StartKeepsRoom(h, r, room);
    case Uncount(r) =>
      assert RoomLaw(h, h.requests[r].room);
      EndKeepsRoom(h, r, room);
    case _ =>
      var r := t.request;
      StageKeepsRoom(h, r, h'.requests[r].stage, room);
      RoomSame(SetStage(h, r, h'.requests[r].stage), h', room);
  }

  // A request whose membership of the table stays right keeps the rest right.
  lemma SetKeepsTable(h: Hub, h': Hub, r: nat, q: Request)
    requires TableLaw(h) && h'.requests == h.requests[r := q]
    requires forall x :: x != r ==> (x in h'.pending <==> x in h.pending)
    requires (r in h'.pending <==> Tabled(q)) && |h'.pending| <= PENDING_LIMIT
    ensures TableLaw(h')
  {
    forall x | x in h'.pending
      ensures x in h'.requests && Tabled(h'.requests[x])
    {
      assert x != r ==> x in h.pending;
    }
    forall x | x in h'.requests && Tabled(h'.requests[x])
      ensures x in h'.pending
    {
      assert x != r ==> x in h.requests && h.requests[x] == h'.requests[x];
    }
  }

  lemma RegisterKeepsTable(h: Hub, r: nat)
    requires TableLaw(h) && Enabled(h, Register(r))
    ensures TableLaw(Do(h, Register(r)))
  {
    var h' := Do(h, Register(r));
    assert r !in h.pending;
    assert |h.pending + {r}| == |h.pending| + 1;
    SetKeepsTable(h, h', r, h'.requests[r]);
  }

  lemma RemoveKeepsTable(h: Hub, r: nat)
    requires TableLaw(h) && Enabled(h, Remove(r))
    ensures TableLaw(Do(h, Remove(r)))
  {
    var h' := Do(h, Remove(r));
    SizeWithout(h.pending, r);
    SetKeepsTable(h, h', r, h'.requests[r]);
  }

  lemma StepKeepsTable(h: Hub, t: Step)
    requires TableLaw(h) && Enabled(h, t)
    ensures TableLaw(Do(h, t))
  {
    match t
    case Connect(_, _) =>
    case Close(_) =>
    case Register(r) => RegisterKeepsTable(h, r);
    case Remove(r) => RemoveKeepsTable(h, r);
    case _ => SetKeepsTable(h, Do(h, t), t.request, Do(h, t).requests[t.request]);
  }

  lemma StepKeepsHeld(h: Hub, t: Step)
    requires HeldLaw(h) && Enabled(h, t)
    ensures HeldLaw(Do(h, t))
  {
    var h' := Do(h, t);
    forall r | r in h'.requests
      ensures h'.requests[r].control in h'.controls
    {
      assert r in h.requests ==> h'.requests[r].control == h.requests[r].control;
    }
  }

  lemma StepKeeps(h: Hub, t: Step)
    requires Inv(h) && Enabled(h, t)
    ensures Inv(Do(h, t))
  {
    StepKeepsHeld(h, t);
    StepKeepsControls(h, t);
    StepKeepsTable(h, t);
    var h' := Do(h, t);
    forall room
      ensures RoomLaw(h', room)
    {
      StepKeepsRoom(h, t, room);
    }
  }

  lemma InitialInv()
    ensures Inv(INIT)
  {
    forall room
      ensures RoomLaw(INIT, room)
    {
      assert Matching(map[], OpenIn(room)) == {};
      forall service
        ensures CountIf(map[], OpenFor(room, service)) == 0
      {
        assert Matching(map[], OpenFor(room, service)) == {};
      }
    }
  }

  // A step whose section would have to stop at zero instead of counting down.
  predicate Clamped(h: Hub, t: Step)
    requires Enabled(h, t)
  {
    match t
    case Release(r) => h.controls[h.requests[r].control].active <= 0
    case Uncount(r) =>
      var q := h.requests[r];
      RoomOf(h, q.room).pendingRequests <= 0 || Get(RoomOf(h, q.room).pendingByService, q.service) <= 0
    case _ => false
  }

  ghost predicate NeverClamped(h: Hub, steps: seq<Step>)
    requires Run(h, steps)
    decreases |steps|
  {
    steps == [] || (!Clamped(h, steps[0]) && NeverClamped(Do(h, steps[0]), steps[1..]))
  }

  lemma StepNotClamped(h: Hub, t: Step)
    requires Inv(h) && Enabled(h, t)
    ensures !Clamped(h, t)
  {
    match t
    case Release(r) => HolderIsCounted(h, r);
    case Uncount(r) => OpenIsCounted(h, r);
    case _ =>
  }

  // Over every interleaving of requests, however each of them ends: a control's
  // active count is the number of requests holding it and within its concurrency;
  // the pending table holds exactly the registered requests, never more than its
  // limit; each room's pending count is the number of its open requests and the
  // sum of its per-service counts; and no counter is ever stopped at zero.
  lemma {:induction false} ReservationSafety(h: Hub, steps: seq<Step>)
    requires Inv(h) && Run(h, steps)
    ensures Inv(Final(h, steps)) && NeverClamped(h, steps)
    decreases |steps|
  {
    if steps != [] {
      StepNotClamped(h, steps[0]);
      StepKeeps(h, steps[0]);
      ReservationSafety(Do(h, steps[0]), steps[1..]);
    }
  }
}
