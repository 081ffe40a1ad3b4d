// A target can always catch up: whatever has been written, evicted or lost, some
// batches and their full acknowledgements bring its cursor to the end of the log.
module LogCatchUp {
  import opened Prelude
  import opened LogHub
  import opened LogTargets

  // A new target begins with the oldest line kept, or the next to be written.
  lemma StartAct(s: System, target: nat)
    requires Inv(s) && Enabled(s, Start(target))
    ensures var c := Do(s, Start(target)).targets[target];
      && c.start == c.next == Oldest(s.log) && c.sent == None && c.acked == []
  {
  }

  lemma BatchExact(l: Log, next: nat)
    requires Valid(l) && 1 <= next <= l.next && (l.lines == [] ==> l.next == 1)
    ensures var (entries, first) := BatchOf(l, next);
      && (entries == [] <==> next == l.next)
      && (entries != [] ==> first == Max(next, l.next - |l.lines|) && |entries| == Min(100, l.next - first))
  {
    var (entries, first) := BatchOf(l, next);
    if l.lines != [] && next < l.next {
      var from := first - Oldest(l);
      assert |entries| == Min(from + 100, |l.lines|) - from;
    }
  }

  lemma BatchLines(l: Log, written: seq<Line>, next: nat)
    requires HistoryLaw(l, written)
    ensures var (entries, first) := BatchOf(l, next);
      entries != [] ==> forall i :: 0 <= i < |entries| ==> Line(first + i, entries[i]) == written[first - 1 + i]
  {
    BatchContents(l, written, next);
  }

  ghost predicate AsksFor(l: Log, written: seq<Line>, c: Cursor, c': Cursor) {
    && c' == c.(sent := c'.sent) && (c'.sent.None? <==> c.next == l.next)
    && (c'.sent.Some? ==>
          var p := c'.sent.value;
          && p.first == Max(c.next, l.next - |l.lines|) && |p.entries| == Min(100, l.next - p.first)
          && 1 <= p.first && p.first + |p.entries| <= |written| + 1
          && forall i :: 0 <= i < |p.entries| ==> Line(p.first + i, p.entries[i]) == written[p.first - 1 + i])
  }

  lemma SentExact(l: Log, written: seq<Line>, c: Cursor)
    requires HistoryLaw(l, written) && 1 <= c.next <= l.next && c.sent.None?
    ensures AsksFor(l, written, c, Sent(l, c))
  {
    BatchExact(l, c.next);
    BatchLines(l, written, c.next);
  }

  // What asking for a batch sends: up to a hundred of the lines kept from the
  // cursor on, and none exactly when the cursor is at the end of the log.
  lemma BatchAct(s: System, target: nat)
    requires Inv(s) && Enabled(s, Batch(target))
    ensures AsksFor(s.log, s.written, s.targets[target], Do(s, Batch(target)).targets[target])
  {
    SentExact(s.log, s.written, s.targets[target]);
  }

  // A reply moves the cursor past the whole batch or leaves it.
  lemma ReplyAct(s: System, target: nat, accepted: int)
    requires Inv(s) && Enabled(s, Reply(target, accepted))
    ensures var c, c' := s.targets[target], Do(s, Reply(target, accepted)).targets[target];
      var p := c.sent.value;
      && c'.sent == None && c'.start == c.start
      && (accepted == |p.entries| ==>
            c'.next == p.first + |p.entries| && |c'.acked| == |c.acked| + |p.entries| && c'.acked[..|c.acked|] == c.acked)
      && (accepted != |p.entries| ==> c'.next == c.next && c'.acked == c.acked)
  {
  }

  // Batches for one target, each acknowledged in whole.
  ghost predicate Uploading(s: System, steps: seq<Step>, target: nat)
    requires Run(s, steps)
    decreases |steps|
  {
    steps == [] ||
    (&& (steps[0] == Batch(target)
         || (target in s.targets && s.targets[target].sent.Some?
             && steps[0] == Reply(target, |s.targets[target].sent.value.entries|)))
     && Uploading(Do(s, steps[0]), steps[1..], target))
  }

  ghost predicate CaughtUp(s: System, f: System, target: nat) {
    && f.log == s.log && f.written == s.written && target in s.targets && target in f.targets
    && f.targets[target].next == s.log.next && f.targets[target].start == s.targets[target].start
    && f.targets[target].sent == None
  }

  lemma UploadFirst(s: System, t: Step, steps: seq<Step>, target: nat)
    requires Enabled(s, t) && Run(Do(s, t), steps) && Uploading(Do(s, t), steps, target)
    requires t == Batch(target)
      || (target in s.targets && s.targets[target].sent.Some? && t == Reply(target, |s.targets[target].sent.value.entries|))
    ensures Run(s, [t] + steps) && Uploading(s, [t] + steps, target) && Final(s, [t] + steps) == Final(Do(s, t), steps)
  {
    assert ([t] + steps)[1..] == steps;
  }

  // The steps that finish: a batch on its way is acknowledged, and the next one
  // asked for until there is none.
  lemma {:induction false} Finish(s: System, target: nat) returns (steps: seq<Step>)
    requires Inv(s) && target in s.targets
    ensures Run(s, steps) && Uploading(s, steps, target) && CaughtUp(s, Final(s, steps), target)
    decreases s.log.next - s.targets[target].next, s.targets[target].sent.None?
  {
    var c := s.targets[target];
    if c.sent.None? && c.next == s.log.next {
      return [];
    }
    var t := if c.sent.Some? then Reply(target, |c.sent.value.entries|) else Batch(target);
    StepKeeps(s, t);
    if c.sent.Some? {
      ReplyAct(s, target, |c.sent.value.entries|);
    } else {
      BatchAct(s, target);
    }
    var rest := Finish(Do(s, t), target);
    UploadFirst(s, t, rest, target);
    steps := [t] + rest;
  }

  // From every reached state, batches and full acknowledgements bring a target to
  // the end of the log, having acknowledged every kept line since it started.
  lemma CatchesUp(s: System, target: nat) returns (steps: seq<Step>)
    requires Inv(s) && target in s.targets
    ensures Run(s, steps) && Uploading(s, steps, target)
    ensures var f := Final(s, steps);
      && CaughtUp(s, f, target)
      && forall line <- s.log.lines :: line.number >= s.targets[target].start ==> line in f.targets[target].acked
  {
    steps := Finish(s, target);
    RunKeeps(s, steps);
    var f := Final(s, steps);
    forall line | line in s.log.lines && line.number >= s.targets[target].start
      ensures line in f.targets[target].acked
    {
      KeptIsWritten(s, line);
      WrittenIsAcked(Oldest(s.log), s.written, f.targets[target], line);
    }
  }

  lemma WrittenIsAcked(oldest: int, written: seq<Line>, c: Cursor, line: Line)
    requires AckedLaw(oldest, written, c) && oldest <= line.number && c.start <= line.number < c.next
    requires line == written[line.number - 1]
    ensures line in c.acked
  {
    assert IsAcked(c.acked, line.number);
  }

  lemma KeptIsWritten(s: System, line: Line)
    requires Inv(s) && line in s.log.lines
    ensures Oldest(s.log) <= line.number < s.log.next && line == s.written[line.number - 1]
  {
    var i :| 0 <= i < |s.log.lines| && s.log.lines[i] == line;
  }
}
