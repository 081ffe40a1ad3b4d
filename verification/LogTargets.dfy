// Targets reading the hub: while lines are written and evicted, each target takes
// batches from its cursor, and moves the cursor only when a whole batch is
// acknowledged. The history of written lines and of acknowledged lines is kept
// beside the state to say what was delivered.
module LogTargets {
  import opened Prelude
  import opened LogHub

  datatype Pending = Pending(entries: seq<Text>, first: nat)

  datatype Cursor = Cursor(start: nat, next: nat, sent: Option<Pending>, acked: seq<Line>)

  datatype System = System(log: Log, written: seq<Line>, targets: map<nat, Cursor>)

  const INIT: System := System(EMPTY, [], map[])

  datatype Step =
    | Write(value: Text)
    | Start(target: nat)
    | Batch(target: nat)
    | Reply(target: nat, accepted: int)
    | Fail(target: nat)

  ghost predicate Enabled(s: System, t: Step) {
    match t
    case Write(value) => Valid(s.log) && 0 < |value| <= MAX_LINE_BYTES
    case Start(target) => target !in s.targets
    case Batch(target) => Valid(s.log) && target in s.targets && s.targets[target].sent == None
    case Reply(target, _) => target in s.targets && s.targets[target].sent.Some?
    case Fail(target) => target in s.targets && s.targets[target].sent.Some?
  }

  // The first number a new target asks for.
  function Beginning(l: Log): nat {
    if l.lines != [] then l.lines[0].number else l.next
  }

  ghost function Sent(l: Log, c: Cursor): Cursor
    requires Valid(l)
  {
    var (entries, first) := BatchOf(l, c.next);
    if entries == [] then c else c.(sent := Some(Pending(entries, first)))
  }

  function Numbered(p: Pending): (lines: seq<Line>)
    ensures |lines| == |p.entries|
    ensures forall i :: 0 <= i < |lines| ==> lines[i] == Line(p.first + i, p.entries[i])
  {
    seq(|p.entries|, i requires 0 <= i < |p.entries| => Line(p.first + i, p.entries[i]))
  }

  function Replied(c: Cursor, accepted: int): Cursor
    requires c.sent.Some?
  {
    var p := c.sent.value;
    if accepted != |p.entries| then c.(sent := None)
    else c.(next := p.first + |p.entries|, sent := None, acked := c.acked + Numbered(p))
  }

  ghost function Do(s: System, t: Step): System
    requires Enabled(s, t)
  {
    match t
    case Write(value) => s.(log := Append(s.log, value), written := s.written + [Line(s.log.next, value)])
    case Start(target) =>
      s.(targets := s.targets[target := Cursor(Beginning(s.log), Beginning(s.log), None, [])])
    case Batch(target) => s.(targets := s.targets[target := Sent(s.log, s.targets[target])])
    case Reply(target, accepted) => s.(targets := s.targets[target := Replied(s.targets[target], accepted)])
    case Fail(target) => s.(targets := s.targets[target := s.targets[target].(sent := None)])
  }

  ghost predicate Run(s: System, steps: seq<Step>)
    decreases |steps|
  {
    steps == [] || (Enabled(s, steps[0]) && Run(Do(s, steps[0]), steps[1..]))
  }

  ghost function Final(s: System, steps: seq<Step>): System
    requires Run(s, steps)
    decreases |steps|
  {
    if steps == [] then s else Final(Do(s, steps[0]), steps[1..])
  }

  // The laws

  // Every line ever written has the next number, and those kept are the newest.
  ghost predicate HistoryLaw(log: Log, written: seq<Line>) {
    && Valid(log) && |written| == log.next - 1
    && Consecutive(written, 1)
    && log.lines == Newest(written, |log.lines|) && (written != [] ==> log.lines != [])
  }

  ghost predicate IsAcked(acked: seq<Line>, n: int) {
    exists line <- acked :: line.number == n
  }

  // What a target has acknowledged: lines as they were written, in order and each
  // once, missing only lines that have been evicted.
  ghost predicate AckedLaw(oldest: int, written: seq<Line>, c: Cursor) {
    && 1 <= c.start <= c.next <= |written| + 1
    && (forall line <- c.acked :: c.start <= line.number < c.next && line == written[line.number - 1])
    && (forall i, j :: 0 <= i < j < |c.acked| ==> c.acked[i].number < c.acked[j].number)
    && (forall n :: c.start <= n < c.next && !IsAcked(c.acked, n) ==> n < oldest)
  }

  // A batch on its way is a run of written lines, after the cursor and after
  // nothing but evicted lines.
  ghost predicate SentLaw(oldest: int, written: seq<Line>, c: Cursor) {
    c.sent.Some? ==>
      var p := c.sent.value;
      && p.entries != [] && 1 <= c.next <= p.first && p.first + |p.entries| <= |written| + 1
      && (c.next < p.first ==> p.first <= oldest)
      && forall i :: 0 <= i < |p.entries| ==> p.entries[i] == written[p.first - 1 + i].text
  }

  ghost predicate TargetLaw(oldest: int, written: seq<Line>, c: Cursor) {
    AckedLaw(oldest, written, c) && SentLaw(oldest, written, c)
  }

  ghost predicate Inv(s: System) {
    HistoryLaw(s.log, s.written) && forall t <- s.targets :: TargetLaw(Oldest(s.log), s.written, s.targets[t])
  }

  // Steps keep the laws

  lemma NewestOfBoth(kept: seq<Line>, written: seq<Line>, line: Line, k: nat)
    requires |kept| <= |written| && kept == Newest(written, |kept|) && k <= |kept| + 1
    ensures Newest(kept + [line], k) == Newest(written + [line], k)
  {
  }

  lemma WriteKeepsHistory(log: Log, written: seq<Line>, value: Text)
    requires HistoryLaw(log, written) && 0 < |value| <= MAX_LINE_BYTES
    ensures HistoryLaw(Append(log, value), written + [Line(log.next, value)])
    ensures Oldest(Append(log, value)) >= Oldest(log)
  {
    AppendKeeps(log, value);
    AppendContents(log, value);
    NewestOfBoth(log.lines, written, Line(log.next, value), |Append(log, value).lines|);
  }

  lemma WriteKeepsTarget(oldest: int, oldest': int, written: seq<Line>, line: Line, c: Cursor)
    requires TargetLaw(oldest, written, c) && oldest' >= oldest
    ensures TargetLaw(oldest', written + [line], c)
  {
  }

  lemma StartKeepsTarget(log: Log, written: seq<Line>)
    requires HistoryLaw(log, written)
    ensures TargetLaw(Oldest(log), written, Cursor(Beginning(log), Beginning(log), None, []))
  {
  }

  // A batch is a run of written lines, from the cursor on or from the oldest kept.
  lemma BatchContents(log: Log, written: seq<Line>, next: nat)
    requires HistoryLaw(log, written)
    ensures var (entries, first) := BatchOf(log, next);
      entries != [] ==>
        && next <= first && first + |entries| <= |written| + 1 && (next < first ==> first == Oldest(log))
        && forall i :: 0 <= i < |entries| ==> entries[i] == written[first - 1 + i].text
  {
    var (entries, first) := BatchOf(log, next);
    if entries != [] {
      var k := |log.lines|;
      forall i | 0 <= i < |entries|
        ensures entries[i] == written[first - 1 + i].text
      {
        var j := first - Oldest(log) + i;
        assert entries[i] == log.lines[j].text;
        assert log.lines[j] == written[|written| - k..][j];
      }
    }
  }

  lemma AckedLawIgnoresSent(oldest: int, written: seq<Line>, c: Cursor, sent: Option<Pending>)
    requires AckedLaw(oldest, written, c)
    ensures AckedLaw(oldest, written, c.(sent := sent))
  {
  }

  lemma BatchSends(log: Log, written: seq<Line>, c: Cursor)
    requires HistoryLaw(log, written) && 1 <= c.next && SentLaw(Oldest(log), written, c)
    ensures SentLaw(Oldest(log), written, Sent(log, c))
  {
    BatchContents(log, written, c.next);
  }

  lemma BatchKeepsTarget(log: Log, written: seq<Line>, c: Cursor)
    requires HistoryLaw(log, written) && TargetLaw(Oldest(log), written, c)
    ensures TargetLaw(Oldest(log), written, Sent(log, c))
  {
    BatchSends(log, written, c);
    AckedLawIgnoresSent(Oldest(log), written, c, Sent(log, c).sent);
  }

  lemma AckedMore(acked: seq<Line>, more: seq<Line>, n: int)
    ensures IsAcked(acked + more, n) <==> IsAcked(acked, n) || IsAcked(more, n)
  {
    if IsAcked(acked, n) {
      var line :| line in acked && line.number == n;
      assert line in acked + more;
    }
    if IsAcked(more, n) {
      var line :| line in more && line.number == n;
      assert line in acked + more;
    }
  }

  lemma ReplyKeepsTarget(oldest: int, written: seq<Line>, c: Cursor, accepted: int)
    requires TargetLaw(oldest, written, c) && c.sent.Some?
    requires Consecutive(written, 1)
    ensures TargetLaw(oldest, written, Replied(c, accepted))
  {
    var p := c.sent.value;
    if accepted == |p.entries| {
      var c', more := Replied(c, accepted), Numbered(p);
      forall n | c'.start <= n < c'.next
        ensures IsAcked(c'.acked, n) || n < oldest
      {
        AckedMore(c.acked, more, n);
        if n >= p.first {
          assert more[n - p.first].number == n && more[n - p.first] in more;
        }
      }
      forall line | line in c'.acked
        ensures c'.start <= line.number < c'.next && line == written[line.number - 1]
      {
        if line !in c.acked {
          assert line in more;
        }
      }
      forall i, j | 0 <= i < j < |c'.acked|
        ensures c'.acked[i].number < c'.acked[j].number
      {
        if i < |c.acked| <= j {
          assert c'.acked[i] == c.acked[i] && c.acked[i] in c.acked;
          assert c'.acked[j] == more[j - |c.acked|];
        }
      }
    }
  }

  lemma StepKeeps(s: System, t: Step)
    requires Inv(s) && Enabled(s, t)
    ensures Inv(Do(s, t))
  {
    match t
    case Write(value) =>
      WriteKeepsHistory(s.log, s.written, value);
      forall x | x in s.targets
        ensures TargetLaw(Oldest(Append(s.log, value)), s.written + [Line(s.log.next, value)], s.targets[x])
      {
        WriteKeepsTarget(Oldest(s.log), Oldest(Append(s.log, value)), s.written, Line(s.log.next, value), s.targets[x]);
      }
    case Start(_) => StartKeepsTarget(s.log, s.written);
    case Batch(target) => BatchKeepsTarget(s.log, s.written, s.targets[target]);
    case Reply(target, accepted) => ReplyKeepsTarget(Oldest(s.log), s.written, s.targets[target], accepted);
    case Fail(_) =>
  }

  lemma {:induction false} RunKeeps(s: System, steps: seq<Step>)
    requires Inv(s) && Run(s, steps)
    ensures Inv(Final(s, steps))
    decreases |steps|
  {
    if steps != [] {
      StepKeeps(s, steps[0]);
      RunKeeps(Do(s, steps[0]), steps[1..]);
    }
  }

  // Over every interleaving of writes, batches, lost replies and refusals, the
  // lines kept carry consecutive numbers within both bounds, and what each target
  // has acknowledged is what was written, in order, without repeats, and without
  // any gap but of evicted lines.
  lemma Delivery(steps: seq<Step>, target: nat)
    requires Run(INIT, steps) && target in Final(INIT, steps).targets
    ensures var s := Final(INIT, steps);
      Valid(s.log) && AckedLaw(Oldest(s.log), s.written, s.targets[target])
  {
    RunKeeps(INIT, steps);
  }

  lemma {:induction false} NumbersInStep(oldest: int, written: seq<Line>, c: Cursor, i: nat)
    requires AckedLaw(oldest, written, c) && oldest <= c.start && i < |c.acked|
    ensures c.acked[i].number == c.start + i
    decreases i
  {
    assert c.acked[i] in c.acked;
    if i > 0 {
      NumbersInStep(oldest, written, c, i - 1);
    }
    if c.acked[i].number > c.start + i {
      assert IsAcked(c.acked, c.start + i);
      var k :| 0 <= k < |c.acked| && c.acked[k].number == c.start + i;
      assert k < i;
      NumbersInStep(oldest, written, c, k);
    }
  }

  // If nothing from the target's start on was evicted, it has acknowledged exactly
  // the lines between its start and its cursor.
  lemma CompleteUnlessEvicted(steps: seq<Step>, target: nat)
    requires Run(INIT, steps) && target in Final(INIT, steps).targets
    requires Oldest(Final(INIT, steps).log) <= Final(INIT, steps).targets[target].start
    ensures var s := Final(INIT, steps); var c := s.targets[target];
      1 <= c.start <= c.next <= |s.written| + 1 && c.acked == s.written[c.start - 1..c.next - 1]
  {
    Delivery(steps, target);
    var s := Final(INIT, steps);
    var c := s.targets[target];
    forall i | 0 <= i < |c.acked|
      ensures i < c.next - c.start && c.acked[i] == s.written[c.start - 1 + i]
    {
      NumbersInStep(Oldest(s.log), s.written, c, i);
      assert c.acked[i] in c.acked;
    }
    if |c.acked| < c.next - c.start {
      assert IsAcked(c.acked, c.next - 1);
      var k :| 0 <= k < |c.acked| && c.acked[k].number == c.next - 1;
      NumbersInStep(Oldest(s.log), s.written, c, k);
    }
    if c.acked != [] {
      NumbersInStep(Oldest(s.log), s.written, c, |c.acked| - 1);
      assert c.acked[|c.acked| - 1] in c.acked;
    }
    assert |c.acked| == c.next - c.start;
  }

  // The upload loop of one connection

  // One turn of the loop: what other components write while it waits, and the
  // count the relay acknowledges, if a reply arrives.
  datatype Round = Round(arrivals: Text, reply: Option<int>)

  function AfterWrite(l: Log, p: Text): (r: Log)
    requires Valid(l)
    ensures Valid(r)
  {
    AppendAll(l, Values(p))
  }

  // The log, the cursor and whether the connection goes on, after one turn.
  function Exchanged(l: Log, next: nat, round: Round): (r: (Log, nat, bool))
    requires Valid(l)
    ensures Valid(r.0)
  {
    var (entries, first) := BatchOf(l, next);
    var l' := AfterWrite(l, round.arrivals);
    if entries == [] then (l', next, true)
    else if round.reply != Some(|entries|) then (l', next, false)
    else (l', first + |entries|, true)
  }

  function Uploaded(l: Log, next: nat, rounds: seq<Round>, i: nat): (Log, nat)
    requires Valid(l) && i <= |rounds|
    decreases |rounds| - i
  {
    if i == |rounds| then (l, next)
    else
      var (l', next', goesOn) := Exchanged(l, next, rounds[i]);
      if goesOn then Uploaded(l', next', rounds, i + 1) else (l', next')
  }

  lemma ExchangeUnfolds(l: Log, next: nat, round: Round, entries: seq<Text>, first: nat)
    requires Valid(l) && (entries, first) == BatchOf(l, next)
    ensures var (l', next', goesOn) := Exchanged(l, next, round);
      && l' == AfterWrite(l, round.arrivals)
      && (goesOn <==> entries == [] || round.reply == Some(|entries|))
      && next' == if goesOn && entries != [] then first + |entries| else next
  {
  }

  method Exchange(hub: Hub, next: nat, round: Round) returns (cursor: nat, goesOn: bool)
    requires Valid(hub.State())
    modifies hub
    ensures Valid(hub.State())
    ensures (hub.State(), cursor, goesOn) == Exchanged(old(hub.State()), next, round)
  {
    var entries, first := hub.Batch(next);
    ExchangeUnfolds(hub.State(), next, round, entries, first);
    var _ := hub.Write(round.arrivals);
    if |entries| == 0 {
      return next, true;
    }
    if round.reply.None? || round.reply.value != |entries| {
      return next, false;
    }
    return first + round.reply.value, true;
  }

  method Upload(hub: Hub, next: nat, rounds: seq<Round>) returns (cursor: nat)
    requires Valid(hub.State())
    modifies hub
    ensures (hub.State(), cursor) == Uploaded(old(hub.State()), next, rounds, 0)
  {
    cursor := next;
    var index, goesOn := 0, true;
    while goesOn && index < |rounds|
      invariant 0 <= index <= |rounds| && Valid(hub.State())
      invariant (if goesOn then Uploaded(hub.State(), cursor, rounds, index) else (hub.State(), cursor))
             == Uploaded(old(hub.State()), next, rounds, 0)
      decreases |rounds| - index
    {
      cursor, goesOn := Exchange(hub, cursor, rounds[index]);
      index := index + 1;
    }
  }

  // The loop is a run of the system's steps, so everything above is said of it.

  ghost function Writes(values: seq<Text>): seq<Step> {
    if values == [] then [] else [Write(values[0])] + Writes(values[1..])
  }

  ghost function Turn(l: Log, next: nat, target: nat, round: Round): seq<Step>
    requires Valid(l)
  {
    var writes := Writes(Values(round.arrivals));
    if BatchOf(l, next).0 == [] then [Batch(target)] + writes
    else [Batch(target)] + writes + [if round.reply.Some? then Reply(target, round.reply.value) else Fail(target)]
  }

  ghost function Turns(l: Log, next: nat, target: nat, rounds: seq<Round>, i: nat): seq<Step>
    requires Valid(l) && i <= |rounds|
    decreases |rounds| - i
  {
    if i == |rounds| then []
    else
      var (l', next', goesOn) := Exchanged(l, next, rounds[i]);
      Turn(l, next, target, rounds[i]) + if goesOn then Turns(l', next', target, rounds, i + 1) else []
  }

  lemma {:induction false} RunJoined(s: System, a: seq<Step>, b: seq<Step>)
    requires Run(s, a) && Run(Final(s, a), b)
    ensures Run(s, a + b) && Final(s, a + b) == Final(Final(s, a), b)
    decreases |a|
  {
    if a == [] {
      assert a + b == b;
    } else {
      RunJoined(Do(s, a[0]), a[1..], b);
      assert (a + b)[0] == a[0] && (a + b)[1..] == a[1..] + b;
    }
  }

  lemma {:induction false} WritesRun(s: System, values: seq<Text>)
    requires Valid(s.log) && forall v <- values :: 0 < |v| <= MAX_LINE_BYTES
    ensures Run(s, Writes(values))
    ensures Final(s, Writes(values)).log == AppendAll(s.log, values)
    ensures Final(s, Writes(values)).targets == s.targets
    decreases |values|
  {
    if values != [] {
      AppendKeeps(s.log, values[0]);
      WritesRun(Do(s, Write(values[0])), values[1..]);
      var steps := Writes(values);
      assert steps[0] == Write(values[0]) && steps[1..] == Writes(values[1..]);
    }
  }

  lemma SingleRun(s: System, t: Step)
    requires Enabled(s, t)
    ensures Run(s, [t]) && Final(s, [t]) == Do(s, t)
  {
    assert [t][1..] == [];
    assert Run(Do(s, t), []);
  }

  lemma TurnRuns(s: System, target: nat, round: Round)
    requires Valid(s.log) && target in s.targets && s.targets[target].sent == None
    ensures var steps := Turn(s.log, s.targets[target].next, target, round);
      var (l', next', _) := Exchanged(s.log, s.targets[target].next, round);
      && Run(s, steps) && Final(s, steps).log == l' && target in Final(s, steps).targets
      && Final(s, steps).targets[target].sent == None && Final(s, steps).targets[target].next == next'
  {
    var c, values := s.targets[target], Values(round.arrivals);
    var asked := Do(s, Batch(target));
    SingleRun(s, Batch(target));
    WritesRun(asked, values);
    RunJoined(s, [Batch(target)], Writes(values));
    var waited := Final(asked, Writes(values));
    if BatchOf(s.log, c.next).0 != [] {
      var last := if round.reply.Some? then Reply(target, round.reply.value) else Fail(target);
      SingleRun(waited, last);
      RunJoined(s, [Batch(target)] + Writes(values), [last]);
    }
  }

  // The upload loop, with whatever is written meanwhile, is a run of the system.
  lemma {:induction false} UploadIsRun(s: System, target: nat, rounds: seq<Round>, i: nat)
    requires Valid(s.log) && target in s.targets && s.targets[target].sent == None && i <= |rounds|
    ensures var steps := Turns(s.log, s.targets[target].next, target, rounds, i);
      && Run(s, steps) && target in Final(s, steps).targets
      && (Final(s, steps).log, Final(s, steps).targets[target].next) == Uploaded(s.log, s.targets[target].next, rounds, i)
    decreases |rounds| - i
  {
    if i < |rounds| {
      var next := s.targets[target].next;
      var turn := Turn(s.log, next, target, rounds[i]);
      TurnRuns(s, target, rounds[i]);
      var s' := Final(s, turn);
      if Exchanged(s.log, next, rounds[i]).2 {
        UploadIsRun(s', target, rounds, i + 1);
        RunJoined(s, turn, Turns(s'.log, s'.targets[target].next, target, rounds, i + 1));
      } else {
        assert turn + [] == turn;
      }
    }
  }
}
