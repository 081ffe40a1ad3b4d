// The limits of reservations and of the pending table are reached and not passed:
// a control takes requests exactly up to its concurrency, the table exactly up to
// its own limit.
module ReservationLimits {
  import opened Counting
  import opened Reservations

  // In every state, a request not seen before can reserve a control exactly while
  // fewer requests hold it than its concurrency.
  lemma ReservableIff(h: Hub, r: nat, c: nat, room: nat, service: string)
    requires Inv(h) && c in h.controls && r !in h.requests
    ensures Enabled(h, Reserve(r, c, room, service)) <==> CountIf(h.requests, Holds(c)) < h.controls[c].concurrency
  {
    assert ControlLaw(h, c);
  }

  // A registration is refused exactly when the table already holds 4096 requests.
  lemma AdmittedIff(h: Hub, r: nat)
    requires Inv(h) && Enabled(h, Register(r))
    ensures Do(h, Register(r)).requests[r].stage == if CountIf(h.requests, Tabled) < 4096 then Registered else Refused
  {
    assert Matching(h.requests, Tabled) == h.pending;
  }

  function Reserves(c: nat, room: nat, service: string, first: nat, n: nat): seq<Step>
    decreases n
  {
    if n == 0 then [] else [Reserve(first, c, room, service)] + Reserves(c, room, service, first + 1, n - 1)
  }

  predicate Unseen(h: Hub, first: nat) {
    forall r <- h.requests :: r < first
  }

  lemma ReserveAct(h: Hub, r: nat, c: nat, room: nat, service: string)
    requires Inv(h) && c in h.controls && Unseen(h, r) && CountIf(h.requests, Holds(c)) < h.controls[c].concurrency
    ensures Enabled(h, Reserve(r, c, room, service))
    ensures var h' := Do(h, Reserve(r, c, room, service));
      && Inv(h') && c in h'.controls && h'.controls[c].concurrency == h.controls[c].concurrency
      && CountIf(h'.requests, Holds(c)) == CountIf(h.requests, Holds(c)) + 1 && Unseen(h', r + 1)
  {
    ReservableIff(h, r, c, room, service);
    StepKeeps(h, Reserve(r, c, room, service));
    CountUpdate(h.requests, r, Request(c, room, service, Reserved), Holds(c));
  }

  // No request can reserve the control any more.
  ghost predicate Full(h: Hub, c: nat) {
    forall r, room, service :: !Enabled(h, Reserve(r, c, room, service))
  }

  lemma FullRefuses(h: Hub, c: nat)
    requires Inv(h) && c in h.controls && CountIf(h.requests, Holds(c)) == h.controls[c].concurrency
    ensures Full(h, c)
  {
    assert ControlLaw(h, c);
  }

  lemma RunFirst(h: Hub, t: Step, steps: seq<Step>)
    requires Enabled(h, t) && Run(Do(h, t), steps)
    ensures Run(h, [t] + steps) && Final(h, [t] + steps) == Final(Do(h, t), steps)
  {
    assert ([t] + steps)[1..] == steps;
  }

  // From every state a control can be filled: as many new requests as it has free
  // places all reserve it, and then no more can.
  lemma {:induction false} Fills(h: Hub, c: nat, room: nat, service: string, first: nat, n: nat)
    requires Inv(h) && c in h.controls && Unseen(h, first)
    requires CountIf(h.requests, Holds(c)) + n == h.controls[c].concurrency
    ensures var steps := Reserves(c, room, service, first, n);
      && Run(h, steps) && c in Final(h, steps).controls
      && CountIf(Final(h, steps).requests, Holds(c)) == h.controls[c].concurrency
      && Full(Final(h, steps), c)
    decreases n
  {
    if n == 0 {
      FullRefuses(h, c);
    } else {
      var t := Reserve(first, c, room, service);
      ReserveAct(h, first, c, room, service);
      Fills(Do(h, t), c, room, service, first + 1, n - 1);
      RunFirst(h, t, Reserves(c, room, service, first + 1, n - 1));
    }
  }
}
