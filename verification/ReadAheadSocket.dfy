// The read-ahead wrapper over a web socket that delivers messages in chunks: a
// reader task queues what arrives, and receives hand it out piece by piece into
// buffers of any size.
module ReadAheadSocket {
  import opened Prelude

  const QUEUE_LIMIT := 64

  datatype Chunk = Chunk(data: seq<byte>, kind: int, end: bool)

  // How the wrapped socket ends: with a close frame or with an exception.
  datatype Ending = CloseFrame(status: int) | Failure(error: string)

  datatype Frame = Data(chunk: Chunk) | End(ending: Ending)

  datatype Outcome = Piece(chunk: Chunk) | Ended(ending: Ending) | Unavailable

  // The queue, whether its writer has completed, and the chunk being handed out.
  datatype Ahead = Ahead(frames: seq<Frame>, completed: bool, partial: Option<Chunk>, offset: nat)

  const EMPTY: Ahead := Ahead([], false, None, 0)

  predicate Valid(a: Ahead) {
    && |a.frames| <= QUEUE_LIMIT
    && (a.partial.Some? ==> a.offset < |a.partial.value.data|)
  }

  // A receive waits until one of these holds.
  predicate Ready(a: Ahead) {
    a.partial.Some? || a.frames != [] || a.completed
  }

  function Queued(a: Ahead, chunk: Chunk): Ahead {
    a.(frames := a.frames + [Data(chunk)])
  }

  // The notice of the end is dropped when the queue is full.
  function Finished(a: Ahead, ending: Ending): Ahead {
    a.(frames := if |a.frames| < QUEUE_LIMIT then a.frames + [End(ending)] else a.frames, completed := true)
  }

  function HandOut(a: Ahead, current: Chunk, offset: nat, size: nat): (Ahead, Outcome)
    requires offset <= |current.data|
  {
    var count := Min(size, |current.data| - offset);
    var done := offset + count >= |current.data|;
    (a.(partial := if done then None else Some(current), offset := offset + count),
     Piece(Chunk(current.data[offset..offset + count], current.kind, done && current.end)))
  }

  function Received(a: Ahead, size: nat): (Ahead, Outcome)
    requires Valid(a) && Ready(a)
  {
    if a.partial.Some? then HandOut(a, a.partial.value, a.offset, size)
    else if a.frames == [] then (a, Unavailable)
    else
      var rest := a.(frames := a.frames[1..]);
      match a.frames[0]
      case End(ending) => (rest, Ended(ending))
      case Data(chunk) => HandOut(rest, chunk, 0, size)
  }

  class ReadAheadWebSocket {
    var frames: seq<Frame>
    var completed: bool
    var partial: Option<Chunk>
    var partialOffset: nat

    function State(): Ahead
      reads this
    {
      Ahead(frames, completed, partial, partialOffset)
    }

    constructor ()
      ensures State() == EMPTY
    {
      frames, completed, partial, partialOffset := [], false, None, 0;
    }

    method Write(chunk: Chunk)
      requires |frames| < QUEUE_LIMIT
      modifies this
      ensures State() == Queued(old(State()), chunk)
    {
      frames := frames + [Data(chunk)];
    }

    method Finish(ending: Ending)
      modifies this
      ensures State() == Finished(old(State()), ending)
    {
      if |frames| < QUEUE_LIMIT {
        frames := frames + [End(ending)];
      }
      completed := true;
    }

    method Receive(size: nat) returns (outcome: Outcome)
      requires Valid(State()) && Ready(State())
      modifies this
      ensures Valid(State())
      ensures (State(), outcome) == Received(old(State()), size)
      ensures outcome.Unavailable? <==> old(partial).None? && old(frames) == []
      ensures outcome.Ended? <==> old(partial).None? && old(frames) != [] && old(frames)[0].End?
      ensures outcome.Ended? ==> outcome.ending == old(frames)[0].ending && frames == old(frames)[1..]
      ensures outcome.Piece? ==>
        var source := if old(partial).Some? then old(partial).value.data[old(partialOffset)..] else old(frames)[0].chunk.data;
        outcome.chunk.data == source[..Min(size, |source|)]
    {
      if partial.None? {
        if frames == [] {
          return Unavailable;
        }
        var frame := frames[0];
        frames := frames[1..];
        if frame.End? {
          return Ended(frame.ending);
        }
        partial, partialOffset := Some(frame.chunk), 0;
      }
      var current := partial.value;
      var count := Min(size, |current.data| - partialOffset);
      var data := current.data[partialOffset..partialOffset + count];
      partialOffset := partialOffset + count;
      var finished := partialOffset >= |current.data|;
      outcome := Piece(Chunk(data, current.kind, finished && current.end));
      if finished {
        partial := None;
      }
    }
  }

  // What a reader assembles

  datatype Message = Message(kind: int, data: seq<byte>)

  // Complete messages, and the one still open.
  datatype Reading = Reading(messages: seq<Message>, open: Option<Message>)

  function Read(r: Reading, chunk: Chunk): Reading {
    var data := if r.open.Some? then r.open.value.data + chunk.data else chunk.data;
    if chunk.end then Reading(r.messages + [Message(chunk.kind, data)], None)
    else Reading(r.messages, Some(Message(chunk.kind, data)))
  }

  function ReadAll(r: Reading, chunks: seq<Chunk>): Reading
    decreases |chunks|
  {
    if chunks == [] then r else ReadAll(Read(r, chunks[0]), chunks[1..])
  }

  const NOTHING: Reading := Reading([], None)

  lemma {:induction false} ReadJoined(r: Reading, a: seq<Chunk>, b: seq<Chunk>)
    ensures ReadAll(r, a + b) == ReadAll(ReadAll(r, a), b)
    decreases |a|
  {
    if a == [] {
      assert a + b == b;
    } else {
      ReadJoined(Read(r, a[0]), a[1..], b);
      assert a + b == [a[0]] + (a[1..] + b);
      ReadOne(r, a[0], a[1..] + b);
    }
  }

  lemma ReadOne(r: Reading, chunk: Chunk, rest: seq<Chunk>)
    ensures ReadAll(r, [chunk] + rest) == ReadAll(Read(r, chunk), rest)
  {
    assert ([chunk] + rest)[1..] == rest;
  }

  // A chunk read in two pieces reads as the chunk.
  lemma PiecesRead(r: Reading, a: Chunk, b: Chunk, chunk: Chunk)
    requires !a.end && a.data + b.data == chunk.data && b.kind == chunk.kind && b.end == chunk.end
    ensures Read(Read(r, a), b) == Read(r, chunk)
  {
    if r.open.Some? {
      var open := r.open.value.data;
      assert open + (a.data + b.data) == open + a.data + b.data;
    }
  }

  // A piece is a whole chunk, or the part of it before what is left.
  predicate Splits(chunk: Chunk, piece: Chunk, left: Chunk) {
    && !piece.end && piece.data + left.data == chunk.data
    && left.kind == chunk.kind == piece.kind && left.end == chunk.end
  }

  // Chunks with the first one handed out, wholly or in part.
  predicate Advances(before: seq<Chunk>, piece: Chunk, after: seq<Chunk>) {
    && before != []
    && (before == [piece] + after
        || (after != [] && after[1..] == before[1..] && Splits(before[0], piece, after[0])))
  }

  lemma AdvanceReads(r: Reading, before: seq<Chunk>, piece: Chunk, after: seq<Chunk>, rest: seq<Chunk>)
    requires Advances(before, piece, after)
    ensures ReadAll(r, before + rest) == ReadAll(Read(r, piece), after + rest)
  {
    if before == [piece] + after {
      assert before + rest == [piece] + (after + rest);
      ReadOne(r, piece, after + rest);
    } else {
      var more := before[1..] + rest;
      assert before + rest == [before[0]] + more;
      assert after + rest == [after[0]] + more;
      ReadOne(r, before[0], more);
      ReadOne(Read(r, piece), after[0], more);
      PiecesRead(r, piece, after[0], before[0]);
    }
  }

  // Runs

  datatype System = System(inner: seq<Chunk>, ending: Ending, waiting: Option<Chunk>, ahead: Ahead, given: seq<Chunk>)

  datatype Step = Fetch | Put | Close | Receive(size: nat)

  function Start(inner: seq<Chunk>, ending: Ending): System {
    System(inner, ending, None, EMPTY, [])
  }

  predicate Enabled(s: System, t: Step) {
    match t
    case Fetch => s.waiting.None? && !s.ahead.completed && s.inner != []
    case Put => s.waiting.Some? && |s.ahead.frames| < QUEUE_LIMIT
    case Close => s.waiting.None? && !s.ahead.completed && s.inner == []
    case Receive(_) => Valid(s.ahead) && Ready(s.ahead)
  }

  function Do(s: System, t: Step): System
    requires Enabled(s, t)
  {
    match t
    case Fetch => s.(waiting := Some(s.inner[0]), inner := s.inner[1..])
    case Put => s.(waiting := None, ahead := Queued(s.ahead, s.waiting.value))
    case Close => s.(ahead := Finished(s.ahead, s.ending))
    case Receive(size) =>
      var (ahead, outcome) := Received(s.ahead, size);
      s.(ahead := ahead, given := if outcome.Piece? then s.given + [outcome.chunk] else s.given)
  }

  ghost predicate Run(s: System, steps: seq<Step>)
    decreases |steps|
  {
    steps == [] || (Enabled(s, steps[0]) && Run(Do(s, steps[0]), steps[1..]))
  }

  ghost function Final(s: System, steps: seq<Step>): System
    requires Run(s, steps)
    decreases |steps|
  {
    if steps == [] then s else Final(Do(s, steps[0]), steps[1..])
  }

  // What is still to be handed out

  function Unread(a: Ahead): seq<Chunk> {
    if a.partial.Some? && a.offset <= |a.partial.value.data|
    then [a.partial.value.(data := a.partial.value.data[a.offset..])] + Chunks(a.frames) else Chunks(a.frames)
  }

  function Chunks(frames: seq<Frame>): seq<Chunk> {
    if frames == [] then []
    else if frames[|frames| - 1].Data? then Chunks(frames[..|frames| - 1]) + [frames[|frames| - 1].chunk]
    else Chunks(frames[..|frames| - 1])
  }

  lemma {:induction false} ChunksHead(frames: seq<Frame>)
    requires frames != []
    ensures Chunks(frames) == (if frames[0].Data? then [frames[0].chunk] else []) + Chunks(frames[1..])
    decreases |frames|
  {
    if |frames| == 1 {
      assert Chunks(frames[..0]) == [];
    } else {
      ChunksHead(frames[..|frames| - 1]);
      assert frames[..|frames| - 1][1..] == frames[1..][..|frames| - 2];
    }
  }

  function Waiting(s: System): seq<Chunk> {
    if s.waiting.Some? then [s.waiting.value] else []
  }

  function Tail(s: System): seq<Chunk> {
    Waiting(s) + s.inner
  }

  // A notice of the end stands behind everything else.
  predicate EndLaw(s: System) {
    && (forall i :: 0 <= i < |s.ahead.frames| && s.ahead.frames[i].End? ==>
          i == |s.ahead.frames| - 1 && s.ahead.frames[i].ending == s.ending && s.ahead.completed)
    && (s.ahead.completed ==> s.waiting.None? && s.inner == [])
  }

  // Whatever has been handed out, read on by what has not.
  ghost function Reads(s: System): Reading {
    ReadAll(ReadAll(NOTHING, s.given), Unread(s.ahead) + Tail(s))
  }

  ghost predicate Inv(s: System, all: seq<Chunk>, ending: Ending) {
    && Valid(s.ahead) && EndLaw(s) && s.ending == ending
    && Reads(s) == ReadAll(NOTHING, all)
  }

  lemma HandOutAdvances(a: Ahead, current: Chunk, offset: nat, size: nat)
    requires offset <= |current.data|
    ensures var (a', outcome) := HandOut(a, current, offset, size);
      outcome.Piece? &&
      Advances([current.(data := current.data[offset..])] + Chunks(a.frames), outcome.chunk, Unread(a'))
  {
    var (a', outcome) := HandOut(a, current, offset, size);
    var left := current.(data := current.data[offset..]);
    if a'.partial.Some? {
      assert outcome.chunk.data + current.data[a'.offset..] == left.data;
    } else {
      assert outcome.chunk == left;
    }
  }

  // A receive hands out the next bytes, or reports an end and leaves the chunks.
  lemma ReceivedAdvances(a: Ahead, size: nat)
    requires Valid(a) && Ready(a)
    ensures var (a', outcome) := Received(a, size);
      if outcome.Piece? then Advances(Unread(a), outcome.chunk, Unread(a')) else Unread(a') == Unread(a)
  {
    if a.partial.Some? {
      HandOutAdvances(a, a.partial.value, a.offset, size);
    } else if a.frames != [] {
      ChunksHead(a.frames);
      if a.frames[0].Data? {
        var chunk := a.frames[0].chunk;
        assert chunk.(data := chunk.data[0..]) == chunk;
        HandOutAdvances(a.(frames := a.frames[1..]), chunk, 0, size);
      }
    }
  }

  lemma GiveMore(given: seq<Chunk>, piece: Chunk)
    ensures ReadAll(NOTHING, given + [piece]) == Read(ReadAll(NOTHING, given), piece)
  {
    ReadJoined(NOTHING, given, [piece]);
    ReadOne(ReadAll(NOTHING, given), piece, []);
    assert [piece] + [] == [piece];
  }

  lemma ReceiveKeepsEnd(s: System, size: nat)
    requires EndLaw(s) && Enabled(s, Receive(size))
    ensures EndLaw(Do(s, Receive(size)))
  {
    var frames, frames' := s.ahead.frames, Do(s, Receive(size)).ahead.frames;
    assert frames' == frames || frames' == frames[1..];
  }

  lemma ReceivedIsValid(a: Ahead, size: nat)
    requires Valid(a) && Ready(a)
    ensures Valid(Received(a, size).0)
  {
  }

  lemma ReceiveKeepsReading(s: System, size: nat)
    requires Enabled(s, Receive(size))
    ensures Reads(Do(s, Receive(size))) == Reads(s)
  {
    ReceivedAdvances(s.ahead, size);
    var (a', outcome) := Received(s.ahead, size);
    if outcome.Piece? {
      AdvanceReads(ReadAll(NOTHING, s.given), Unread(s.ahead), outcome.chunk, Unread(a'), Tail(s));
      GiveMore(s.given, outcome.chunk);
    }
  }

  lemma ReceiveKeeps(s: System, size: nat, all: seq<Chunk>, ending: Ending)
    requires Inv(s, all, ending) && Enabled(s, Receive(size))
    ensures Inv(Do(s, Receive(size)), all, ending)
  {
    ReceiveKeepsEnd(s, size);
    ReceiveKeepsReading(s, size);
    ReceivedIsValid(s.ahead, size);
  }

  lemma ChunksMore(frames: seq<Frame>, frame: Frame)
    ensures Chunks(frames + [frame]) == Chunks(frames) + if frame.Data? then [frame.chunk] else []
  {
    assert (frames + [frame])[..|frames|] == frames;
  }

  lemma UnreadMore(a: Ahead, a': Ahead, frame: Frame)
    requires a'.frames == a.frames + [frame] && a'.partial == a.partial && a'.offset == a.offset
    ensures Unread(a') == Unread(a) + if frame.Data? then [frame.chunk] else []
  {
    ChunksMore(a.frames, frame);
  }

  lemma PutMoves(s: System)
    requires Enabled(s, Put)
    ensures Unread(Do(s, Put).ahead) + Tail(Do(s, Put)) == Unread(s.ahead) + Tail(s)
  {
    UnreadMore(s.ahead, Do(s, Put).ahead, Data(s.waiting.value));
  }

  lemma CloseMoves(s: System)
    requires Enabled(s, Close)
    ensures Unread(Do(s, Close).ahead) + Tail(Do(s, Close)) == Unread(s.ahead) + Tail(s)
  {
    if |s.ahead.frames| < QUEUE_LIMIT {
      UnreadMore(s.ahead, Do(s, Close).ahead, End(s.ending));
      assert Unread(s.ahead) + [] == Unread(s.ahead);
    }
  }

  // The reader task only moves chunks along.
  lemma ReaderMoves(s: System, t: Step)
    requires Enabled(s, t) && !t.Receive?
    ensures Unread(Do(s, t).ahead) + Tail(Do(s, t)) == Unread(s.ahead) + Tail(s)
  {
    match t
    case Fetch => assert Tail(Do(s, t)) == Tail(s);
    case Put => PutMoves(s);
    case Close => CloseMoves(s);
  }

  lemma ReaderKeepsEnd(s: System, t: Step)
    requires EndLaw(s) && Enabled(s, t) && !t.Receive?
    ensures EndLaw(Do(s, t))
  {
  }

  lemma ReaderKeeps(s: System, t: Step, all: seq<Chunk>, ending: Ending)
    requires Inv(s, all, ending) && Enabled(s, t) && !t.Receive?
    ensures Inv(Do(s, t), all, ending)
  {
    ReaderMoves(s, t);
    ReaderKeepsEnd(s, t);
  }

  lemma {:induction false} RunKeeps(s: System, steps: seq<Step>, all: seq<Chunk>, ending: Ending)
    requires Inv(s, all, ending) && Run(s, steps)
    ensures Inv(Final(s, steps), all, ending)
    decreases |steps|
  {
    if steps != [] {
      if steps[0].Receive? {
        ReceiveKeeps(s, steps[0].size, all, ending);
      } else {
        ReaderKeeps(s, steps[0], all, ending);
      }
      RunKeeps(Do(s, steps[0]), steps[1..], all, ending);
    }
  }

  lemma InitialInv(inner: seq<Chunk>, ending: Ending)
    ensures Inv(Start(inner, ending), inner, ending)
  {
    var s := Start(inner, ending);
    assert Unread(s.ahead) + Tail(s) == inner;
  }

  lemma {:induction false} ReadExtends(r: Reading, chunks: seq<Chunk>)
    ensures r.messages <= ReadAll(r, chunks).messages
    decreases |chunks|
  {
    if chunks != [] {
      ReadExtends(Read(r, chunks[0]), chunks[1..]);
    }
  }

  // With buffers of any sizes and any timing, the messages received are the first of
  // the messages the wrapped socket delivered; and a receive that reports an end
  // does so when all of them, and any unfinished one, have been handed out.
  lemma Transparent(inner: seq<Chunk>, ending: Ending, steps: seq<Step>, size: nat)
    requires Run(Start(inner, ending), steps)
    ensures var s := Final(Start(inner, ending), steps);
      && ReadAll(NOTHING, s.given).messages <= ReadAll(NOTHING, inner).messages
      && (Enabled(s, Receive(size)) && !Received(s.ahead, size).1.Piece? ==>
            ReadAll(NOTHING, s.given) == ReadAll(NOTHING, inner) &&
            (Received(s.ahead, size).1.Ended? ==> Received(s.ahead, size).1.ending == ending))
  {
    InitialInv(inner, ending);
    RunKeeps(Start(inner, ending), steps, inner, ending);
    var s := Final(Start(inner, ending), steps);
    ReadExtends(ReadAll(NOTHING, s.given), Unread(s.ahead) + Tail(s));
    if Enabled(s, Receive(size)) && !Received(s.ahead, size).1.Piece? {
      if s.ahead.frames != [] {
        ChunksHead(s.ahead.frames);
        assert s.ahead.frames[0].End?;
      }
      assert s.ahead.frames != [] ==> Chunks(s.ahead.frames[1..]) == [] by {
        assert s.ahead.frames != [] ==> s.ahead.frames[1..] == [];
      }
      assert Unread(s.ahead) + Tail(s) == [];
    }
  }

  // How much is left to hand out, counting one for each chunk.
  function Work(chunks: seq<Chunk>): nat {
    if chunks == [] then 0 else |chunks[0].data| + 1 + Work(chunks[1..])
  }

  // A buffer with room always makes progress.
  lemma ReceiveProgresses(a: Ahead, size: nat)
    requires Valid(a) && Ready(a) && size > 0 && Received(a, size).1.Piece?
    ensures Work(Unread(Received(a, size).0)) < Work(Unread(a))
  {
    var a' := Received(a, size).0;
    if a.partial.None? {
      ChunksHead(a.frames);
      assert ([a.frames[0].chunk] + Chunks(a.frames[1..]))[1..] == Chunks(a.frames[1..]);
    } else {
      assert Unread(a)[1..] == Chunks(a.frames);
    }
    if a'.partial.Some? {
      assert Unread(a')[1..] == Chunks(a'.frames);
    }
  }

  // The notice of the end

  predicate Noticed(a: Ahead) {
    exists i :: 0 <= i < |a.frames| && a.frames[i].End?
  }

  // The notice reaches the queue exactly when there is room for it.
  lemma NoticeNeedsRoom(inner: seq<Chunk>, ending: Ending, steps: seq<Step>)
    requires Run(Start(inner, ending), steps) && Enabled(Final(Start(inner, ending), steps), Close)
    ensures var s := Final(Start(inner, ending), steps);
      Noticed(Do(s, Close).ahead) <==> |s.ahead.frames| < 64
  {
    InitialInv(inner, ending);
    RunKeeps(Start(inner, ending), steps, inner, ending);
    var s := Final(Start(inner, ending), steps);
    if |s.ahead.frames| < QUEUE_LIMIT {
      assert Do(s, Close).ahead.frames[|s.ahead.frames|].End?;
    }
  }

  // A receive that reports how the socket ended.
  predicate Reports(s: System, t: Step) {
    Enabled(s, t) && t.Receive? && Received(s.ahead, t.size).1.Ended?
  }

  ghost predicate Reported(s: System, steps: seq<Step>)
    requires Run(s, steps)
    decreases |steps|
  {
    steps != [] && (Reports(s, steps[0]) || Reported(Do(s, steps[0]), steps[1..]))
  }

  // A notice that was queued stays queued until it is reported.
  lemma NoticeStaysOne(s: System, t: Step)
    requires Noticed(s.ahead) && Enabled(s, t) && !Reports(s, t)
    ensures Noticed(Do(s, t).ahead)
  {
    var frames, frames' := s.ahead.frames, Do(s, t).ahead.frames;
    var i :| 0 <= i < |frames| && frames[i].End?;
    if frames' == frames[1..] {
      assert frames'[i - 1].End?;
    } else {
      assert frames'[i].End?;
    }
  }

  lemma {:induction false} NoticeStays(s: System, steps: seq<Step>)
    requires Noticed(s.ahead) && Run(s, steps) && !Reported(s, steps)
    ensures Noticed(Final(s, steps).ahead)
    decreases |steps|
  {
    if steps != [] {
      NoticeStaysOne(s, steps[0]);
      NoticeStays(Do(s, steps[0]), steps[1..]);
    }
  }

  // Once the writer has completed without a notice, none ever comes.
  predicate Silent(s: System) {
    s.ahead.completed && !Noticed(s.ahead)
  }

  lemma {:induction false} SilentStays(s: System, steps: seq<Step>)
    requires Silent(s) && Run(s, steps)
    ensures Silent(Final(s, steps))
    decreases |steps|
  {
    if steps != [] {
      var frames, s' := s.ahead.frames, Do(s, steps[0]);
      assert s'.ahead.frames == frames || (frames != [] && s'.ahead.frames == frames[1..]) || (steps[0].Put? && s'.ahead.frames[..|frames|] == frames);
      assert forall i :: 0 <= i < |s'.ahead.frames| ==> s'.ahead.frames[i].Data?;
      SilentStays(s', steps[1..]);
    }
  }

  lemma ClosedRunKeeps(inner: seq<Chunk>, ending: Ending, before: seq<Step>, after: seq<Step>)
    requires Run(Start(inner, ending), before) && Enabled(Final(Start(inner, ending), before), Close)
    requires Run(Do(Final(Start(inner, ending), before), Close), after)
    ensures var f := Final(Do(Final(Start(inner, ending), before), Close), after);
      Valid(f.ahead) && EndLaw(f) && f.ending == ending
  {
    var s := Final(Start(inner, ending), before);
    InitialInv(inner, ending);
    RunKeeps(Start(inner, ending), before, inner, ending);
    ReaderKeeps(s, Close, inner, ending);
    RunKeeps(Do(s, Close), after, inner, ending);
  }

  // What a receive that hands out no piece says.
  lemma LastReceive(s: System, size: nat)
    requires EndLaw(s) && Enabled(s, Receive(size)) && !Received(s.ahead, size).1.Piece?
    ensures Received(s.ahead, size).1 == Ended(s.ending) <==> Noticed(s.ahead)
  {
    if s.ahead.frames != [] {
      assert s.ahead.frames[0].End?;
    }
  }

  // The reader is told how the socket ended exactly when the queue had room at that
  // moment. In every run, whatever was received before and since, the first receive
  // that hands out no piece reports the ending if there was room, and no receive
  // does if there was none.
  lemma EndingReportedIffRoom(inner: seq<Chunk>, ending: Ending, before: seq<Step>, after: seq<Step>, size: nat)
    requires Run(Start(inner, ending), before) && Enabled(Final(Start(inner, ending), before), Close)
    requires var closed := Do(Final(Start(inner, ending), before), Close);
      Run(closed, after) && !Reported(closed, after)
    ensures var s := Final(Start(inner, ending), before);
      var f := Final(Do(s, Close), after);
      Enabled(f, Receive(size)) && !Received(f.ahead, size).1.Piece? ==>
        (Received(f.ahead, size).1 == Ended(ending) <==> |s.ahead.frames| < 64)
  {
    var s := Final(Start(inner, ending), before);
    var closed := Do(s, Close);
    var f := Final(closed, after);
    NoticeNeedsRoom(inner, ending, before);
    ClosedRunKeeps(inner, ending, before, after);
    if |s.ahead.frames| < QUEUE_LIMIT {
      NoticeStays(closed, after);
    } else {
      SilentStays(closed, after);
    }
    if Enabled(f, Receive(size)) && !Received(f.ahead, size).1.Piece? {
      LastReceive(f, size);
    }
  }

  function Filling(n: nat): seq<Step> {
    if n == 0 then [Close] else [Fetch, Put] + Filling(n - 1)
  }

  // The reader task takes everything in before the first receive.
  lemma {:induction false} FillingRuns(s: System)
    requires s.waiting.None? && !s.ahead.completed && !Noticed(s.ahead)
    requires |s.ahead.frames| + |s.inner| == QUEUE_LIMIT
    ensures Run(s, Filling(|s.inner|)) && Silent(Final(s, Filling(|s.inner|)))
    decreases |s.inner|
  {
    var steps := Filling(|s.inner|);
    if s.inner == [] {
      assert steps[1..] == [];
      assert Run(Do(s, Close), []);
    } else {
      var s1 := Do(s, Fetch);
      var s2 := Do(s1, Put);
      assert forall i :: 0 <= i < |s.ahead.frames| ==> s2.ahead.frames[i] == s.ahead.frames[i];
      FillingRuns(s2);
      assert steps[0] == Fetch && steps[1..][0] == Put && steps[1..][1..] == Filling(|s.inner| - 1);
      assert Run(s1, steps[1..]);
    }
  }

  // A socket that delivers as many chunks as the queue holds before the first
  // receive, and then ends, never has its end reported, whatever is received after.
  lemma EndingLost(inner: seq<Chunk>, ending: Ending, steps: seq<Step>, size: nat)
    requires |inner| == QUEUE_LIMIT
    ensures Run(Start(inner, ending), Filling(|inner|))
    ensures var s := Final(Start(inner, ending), Filling(|inner|));
      Run(s, steps) && Enabled(Final(s, steps), Receive(size)) ==> !Received(Final(s, steps).ahead, size).1.Ended?
  {
    FillingRuns(Start(inner, ending));
    var s := Final(Start(inner, ending), Filling(|inner|));
    if Run(s, steps) && Enabled(Final(s, steps), Receive(size)) {
      SilentStays(s, steps);
      var a := Final(s, steps).ahead;
      assert a.frames != [] ==> a.frames[0].Data?;
    }
  }
}
