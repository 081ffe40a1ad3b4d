// The read-ahead connection over whole messages: a reader fills a bounded channel,
// and keeps the error that ends it apart from the channel.
module ReadAheadConn {
  import opened Prelude

  const CHANNEL_SIZE := 64

  datatype Message = Message(kind: int, data: seq<byte>)

  datatype Outcome = Got(message: Message) | Failed(error: string)

  // The channel, and the reader's error once it has stopped.
  datatype Ahead = Ahead(messages: seq<Message>, done: Option<string>)

  // A read waits until a message or the end of the reader.
  predicate Ready(a: Ahead) {
    a.messages != [] || a.done.Some?
  }

  // When the reader has stopped, the channel is looked at once more before the
  // error is given.
  function Received(a: Ahead): (Ahead, Outcome)
    requires Ready(a)
  {
    if a.messages != [] then (a.(messages := a.messages[1..]), Got(a.messages[0])) else (a, Failed(a.done.value))
  }

  class Conn {
    var messages: seq<Message>
    var done: Option<string>

    function State(): Ahead
      reads this
    {
      Ahead(messages, done)
    }

    constructor ()
      ensures State() == Ahead([], None)
    {
      messages, done := [], None;
    }

    // Either branch of the select may be the one taken when both are ready.
    method Read(doneFirst: bool) returns (outcome: Outcome)
      requires Ready(State())
      modifies this
      ensures (State(), outcome) == Received(old(State()))
    {
      if done.Some? && (doneFirst || messages == []) {
        if messages != [] {
          outcome := Got(messages[0]);
          messages := messages[1..];
        } else {
          outcome := Failed(done.value);
        }
      } else {
        outcome := Got(messages[0]);
        messages := messages[1..];
      }
    }
  }

  datatype System = System(inner: seq<Message>, error: string, held: Option<Message>, ahead: Ahead, given: seq<Message>)

  datatype Step = Fetch | Put | Fail | Read

  function Start(inner: seq<Message>, error: string): System {
    System(inner, error, None, Ahead([], None), [])
  }

  predicate Enabled(s: System, t: Step) {
    match t
    case Fetch => s.held.None? && s.ahead.done.None? && s.inner != []
    case Put => s.held.Some? && |s.ahead.messages| < CHANNEL_SIZE
    case Fail => s.held.None? && s.ahead.done.None? && s.inner == []
    case Read => Ready(s.ahead)
  }

  function Do(s: System, t: Step): System
    requires Enabled(s, t)
  {
    match t
    case Fetch => s.(held := Some(s.inner[0]), inner := s.inner[1..])
    case Put => s.(held := None, ahead := s.ahead.(messages := s.ahead.messages + [s.held.value]))
    case Fail => s.(ahead := s.ahead.(done := Some(s.error)))
    case Read =>
      var (ahead, outcome) := Received(s.ahead);
      s.(ahead := ahead, given := if outcome.Got? then s.given + [outcome.message] else s.given)
  }

  ghost predicate Run(s: System, steps: seq<Step>)
    decreases |steps|
  {
    steps == [] || (Enabled(s, steps[0]) && Run(Do(s, steps[0]), steps[1..]))
  }

  ghost function Final(s: System, steps: seq<Step>): System
    requires Run(s, steps)
    decreases |steps|
  {
    if steps == [] then s else Final(Do(s, steps[0]), steps[1..])
  }

  function All(s: System): seq<Message> {
    s.given + s.ahead.messages + (if s.held.Some? then [s.held.value] else []) + s.inner
  }

  ghost predicate Inv(s: System, inner: seq<Message>, error: string) {
    && All(s) == inner && s.error == error && |s.ahead.messages| <= CHANNEL_SIZE
    && (s.ahead.done.Some? ==> s.ahead.done.value == error && s.held.None? && s.inner == [])
  }

  lemma {:induction false} RunKeeps(s: System, steps: seq<Step>, inner: seq<Message>, error: string)
    requires Inv(s, inner, error) && Run(s, steps)
    ensures Inv(Final(s, steps), inner, error)
    decreases |steps|
  {
    if steps != [] {
      assert All(Do(s, steps[0])) == All(s);
      RunKeeps(Do(s, steps[0]), steps[1..], inner, error);
    }
  }

  // Reads give the inner messages in order, and the inner error only after all of
  // them, however the reader and the channel interleave.
  lemma Transparent(inner: seq<Message>, error: string, steps: seq<Step>)
    requires Run(Start(inner, error), steps)
    ensures var s := Final(Start(inner, error), steps);
      && s.given <= inner && |s.ahead.messages| <= 64
      && (Ready(s.ahead) && Received(s.ahead).1.Failed? ==> s.given == inner && Received(s.ahead).1.error == error)
  {
    RunKeeps(Start(inner, error), steps, inner, error);
  }
}
