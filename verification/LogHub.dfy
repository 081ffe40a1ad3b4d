// The hub that keeps a bounded backlog of log lines and hands batches of them to
// every target, each with a cursor of its own. Lines are numbered from 1 as they
// are written; the numbers are not followed past 64 bits.
module LogHub {
  import opened Prelude

  const MAX_QUEUED_BYTES := 0x10_0000
  const MAX_QUEUED_LINES := 2000
  const MAX_LINE_BYTES := 8192
  const MAX_BATCH_LINES := 100

  const LF: byte := 10
  const CR: byte := 13

  type Text = seq<byte>

  datatype Line = Line(number: nat, text: Text)

  datatype Log = Log(lines: seq<Line>, bytes: int, next: nat)

  const EMPTY: Log := Log([], 0, 1)

  // The lines of a write

  function WithoutCrLf(p: Text): Text {
    if p == [] then []
    else if |p| >= 2 && p[0] == CR && p[1] == LF then [LF] + WithoutCrLf(p[2..])
    else [p[0]] + WithoutCrLf(p[1..])
  }

  function SplitLines(p: Text): (parts: seq<Text>)
    ensures |parts| > 0
  {
    if p == [] then [[]]
    else
      var parts := SplitLines(p[1..]);
      if p[0] == LF then [[]] + parts else [[p[0]] + parts[0]] + parts[1..]
  }

  function Cleaned(part: Text): (text: Text)
    ensures |text| <= MAX_LINE_BYTES
  {
    var text := if part != [] && part[|part| - 1] == CR then part[..|part| - 1] else part;
    if |text| > MAX_LINE_BYTES then text[..MAX_LINE_BYTES] else text
  }

  function Kept(parts: seq<Text>): (values: seq<Text>)
    ensures forall v <- values :: 0 < |v| <= MAX_LINE_BYTES
  {
    if parts == [] then []
    else if Cleaned(parts[0]) == [] then Kept(parts[1..])
    else [Cleaned(parts[0])] + Kept(parts[1..])
  }

  function Values(p: Text): seq<Text> {
    Kept(SplitLines(WithoutCrLf(p)))
  }

  predicate Plain(line: Text) {
    LF !in line && CR !in line
  }

  // Lines, each with its end of line.
  function Joined(lines: seq<Text>, eol: Text): Text {
    if lines == [] then [] else lines[0] + eol + Joined(lines[1..], eol)
  }

  lemma {:induction false} PlainPrefix(line: Text, tail: Text)
    requires CR !in line
    ensures WithoutCrLf(line + tail) == line + WithoutCrLf(tail)
    decreases |line|
  {
    if line == [] {
      assert line + tail == tail;
    } else {
      PlainPrefix(line[1..], tail);
      assert line[0] in line;
      assert (line + tail)[1..] == line[1..] + tail;
      assert [line[0]] + line[1..] == line;
    }
  }

  lemma EndOfLine(eol: Text, rest: Text)
    requires eol == [LF] || eol == [CR, LF]
    ensures WithoutCrLf(eol + rest) == [LF] + WithoutCrLf(rest)
  {
    if eol == [LF] {
      assert (eol + rest)[1..] == rest;
    } else {
      assert (eol + rest)[2..] == rest;
    }
  }

  lemma LineEnds(line: Text, eol: Text, rest: Text)
    requires CR !in line && (eol == [LF] || eol == [CR, LF])
    ensures WithoutCrLf(line + eol + rest) == line + [LF] + WithoutCrLf(rest)
  {
    PlainPrefix(line, eol + rest);
    EndOfLine(eol, rest);
    assert line + eol + rest == line + (eol + rest);
  }

  lemma {:induction false} LineSplits(line: Text, rest: Text)
    requires LF !in line
    ensures SplitLines(line + [LF] + rest) == [line] + SplitLines(rest)
    decreases |line|
  {
    var p := line + [LF] + rest;
    if line == [] {
      assert p[1..] == rest;
    } else {
      LineSplits(line[1..], rest);
      assert line[0] in line && p[0] == line[0];
      assert p[1..] == line[1..] + [LF] + rest;
      assert [line[0]] + line[1..] == line;
    }
  }

  // What is kept of plain lines: the first 8192 bytes of each that is not empty.
  function Shown(lines: seq<Text>): seq<Text> {
    if lines == [] then []
    else (if lines[0] == [] then [] else [lines[0][..Min(|lines[0]|, 8192)]]) + Shown(lines[1..])
  }

  lemma CleanedPlain(line: Text, ending: Text)
    requires Plain(line) && (ending == [] || ending == [CR])
    ensures Cleaned(line + ending) == line[..Min(|line|, 8192)]
  {
    if ending == [CR] {
      assert (line + ending)[..|line|] == line;
    } else {
      assert line + ending == line;
      assert line != [] ==> line[|line| - 1] in line;
    }
  }

  lemma KeptPlain(line: Text, parts: seq<Text>)
    requires Plain(line)
    ensures Kept([line] + parts) == Shown([line]) + Kept(parts)
  {
    CleanedPlain(line, []);
    assert line + [] == line;
    assert ([line] + parts)[1..] == parts && [line][1..] == [];
  }

  lemma {:induction false} OneLine(line: Text)
    requires LF !in line
    ensures SplitLines(line) == [line]
    decreases |line|
  {
    if line != [] {
      assert line[0] in line && [line[0]] + line[1..] == line;
      OneLine(line[1..]);
    }
  }

  lemma StrayReturn(last: Text)
    requires Plain(last)
    ensures WithoutCrLf(last) == last && WithoutCrLf(last + [CR]) == last + [CR]
  {
    PlainPrefix(last, []);
    PlainPrefix(last, [CR]);
    assert last + [] == last;
    var cr: Text := [CR];
    assert cr[1..] == [] && WithoutCrLf(cr) == [CR];
  }

  // Text after the last end of line is a line too, with a stray return or without.
  lemma LastLine(last: Text, ending: Text)
    requires Plain(last) && (ending == [] || ending == [CR])
    ensures Values(last + ending) == Shown([last])
  {
    StrayReturn(last);
    assert last + [] == last;
    OneLine(last + ending);
    CleanedPlain(last, ending);
    KeptOne(last + ending);
    var one: seq<Text> := [last];
    assert one[1..] == [];
  }

  lemma KeptOne(part: Text)
    ensures Kept([part]) == if Cleaned(part) == [] then [] else [Cleaned(part)]
  {
    var one: seq<Text> := [part];
    assert one[1..] == [];
  }

  lemma FirstLine(line: Text, eol: Text, rest: Text)
    requires Plain(line) && (eol == [LF] || eol == [CR, LF])
    ensures Values(line + eol + rest) == Shown([line]) + Values(rest)
  {
    LineEnds(line, eol, rest);
    LineSplits(line, WithoutCrLf(rest));
    KeptPlain(line, SplitLines(WithoutCrLf(rest)));
  }

  lemma ShownFirst(lines: seq<Text>)
    requires lines != []
    ensures Shown(lines) == Shown([lines[0]]) + Shown(lines[1..])
  {
    var one: seq<Text> := [lines[0]];
    assert one[1..] == [];
  }

  lemma JoinedFirst(lines: seq<Text>, eol: Text, tail: Text)
    requires lines != []
    ensures Joined(lines, eol) + tail == lines[0] + eol + (Joined(lines[1..], eol) + tail)
  {
  }

  lemma Regroup<T>(a: seq<T>, b: seq<T>, c: seq<T>)
    ensures a + (b + c) == (a + b) + c
  {
  }

  // Writing text yields its lines, with either end of line: the empty ones are
  // left out and the others cut to 8192 bytes. A last line needs no end.
  lemma {:induction false} ValuesOfJoined(lines: seq<Text>, eol: Text, last: Text, ending: Text)
    requires (eol == [LF] || eol == [CR, LF]) && forall i :: 0 <= i < |lines| ==> Plain(lines[i])
    requires Plain(last) && (ending == [] || ending == [CR])
    ensures Values(Joined(lines, eol) + (last + ending)) == Shown(lines) + Shown([last])
    decreases |lines|
  {
    if lines == [] {
      LastLine(last, ending);
      assert Joined(lines, eol) + (last + ending) == last + ending;
    } else {
      JoinedFirst(lines, eol, last + ending);
      FirstLine(lines[0], eol, Joined(lines[1..], eol) + (last + ending));
      ValuesOfJoined(lines[1..], eol, last, ending);
      ShownFirst(lines);
      Regroup(Shown([lines[0]]), Shown(lines[1..]), Shown([last]));
    }
  }

  // The backlog

  function Size(lines: seq<Line>): nat {
    if lines == [] then 0 else |lines[0].text| + Size(lines[1..])
  }

  predicate Over(l: Log) {
    |l.lines| > MAX_QUEUED_LINES || l.bytes > MAX_QUEUED_BYTES
  }

  function Evict(l: Log): Log
    requires l.bytes == Size(l.lines)
    decreases |l.lines|
  {
    if Over(l) then Evict(l.(lines := l.lines[1..], bytes := l.bytes - |l.lines[0].text|)) else l
  }

  function Grown(l: Log, value: Text): Log {
    Log(l.lines + [Line(l.next, value)], l.bytes + |value|, l.next + 1)
  }

  function Append(l: Log, value: Text): Log
    requires l.bytes == Size(l.lines)
  {
    SizeMore(l.lines, Line(l.next, value));
    Evict(Grown(l, value))
  }

  lemma SizeMore(lines: seq<Line>, line: Line)
    ensures Size(lines + [line]) == Size(lines) + |line.text|
  {
    if lines != [] {
      SizeMore(lines[1..], line);
      assert (lines + [line])[1..] == lines[1..] + [line];
    }
  }

  // The number of the oldest line kept, or of the next one.
  function Oldest(l: Log): int {
    l.next - |l.lines|
  }

  predicate Consecutive(lines: seq<Line>, first: int) {
    forall i :: 0 <= i < |lines| ==> lines[i].number == first + i
  }

  predicate Proper(lines: seq<Line>) {
    forall i :: 0 <= i < |lines| ==> 0 < |lines[i].text| <= MAX_LINE_BYTES
  }

  // Consecutive numbers up to the newest line, within both bounds.
  predicate Valid(l: Log) {
    && l.bytes == Size(l.lines) && !Over(l) && Oldest(l) >= 1
    && Consecutive(l.lines, Oldest(l)) && Proper(l.lines)
  }

  function Newest(lines: seq<Line>, k: nat): seq<Line>
    requires k <= |lines|
  {
    lines[|lines| - k..]
  }

  predicate Excessive(lines: seq<Line>, k: nat)
    requires k <= |lines|
  {
    k > MAX_QUEUED_LINES || Size(Newest(lines, k)) > MAX_QUEUED_BYTES
  }

  lemma NewestOfRest(lines: seq<Line>, k: nat)
    requires k < |lines|
    ensures Newest(lines, k) == Newest(lines[1..], k) && Newest(lines, |lines|) == lines
  {
  }

  // Eviction keeps the longest newest part that is within the bounds.
  lemma {:induction false} EvictKeepsLongest(l: Log)
    requires l.bytes == Size(l.lines)
    ensures var e := Evict(l);
      && !Over(e) && e.next == l.next && e.bytes == Size(e.lines)
      && |e.lines| <= |l.lines| && e.lines == Newest(l.lines, |e.lines|)
      && forall k :: |e.lines| < k <= |l.lines| ==> Excessive(l.lines, k)
    decreases |l.lines|
  {
    if Over(l) {
      var rest := l.(lines := l.lines[1..], bytes := l.bytes - |l.lines[0].text|);
      EvictKeepsLongest(rest);
      var e := Evict(rest);
      NewestOfRest(l.lines, |e.lines|);
      forall k | |e.lines| < k <= |l.lines|
        ensures Excessive(l.lines, k)
      {
        if k < |l.lines| {
          NewestOfRest(l.lines, k);
          assert Excessive(rest.lines, k);
        } else {
          NewestOfRest(l.lines, 0);
        }
      }
    } else {
      assert Newest(l.lines, |l.lines|) == l.lines;
    }
  }

  // The newest line alone is within the bounds.
  lemma OneLineFits(lines: seq<Line>, line: Line)
    requires |line.text| <= MAX_LINE_BYTES
    ensures !Excessive(lines + [line], 1)
  {
    var last := Newest(lines + [line], 1);
    assert last == [line];
    assert last[1..] == [];
    assert Size(last) == |last[0].text| + Size(last[1..]);
  }

  // Any newest part within the bounds is a lawful log again.
  lemma NewestIsValid(a: Log, lines: seq<Line>, first: int)
    requires Consecutive(lines, first) && Proper(lines) && first >= 1
    requires |a.lines| <= |lines| && a.lines == Newest(lines, |a.lines|)
    requires a.bytes == Size(a.lines) && !Over(a) && a.next == first + |lines|
    ensures Valid(a) && Oldest(a) >= first
  {
  }

  lemma GrownAlike(l: Log, value: Text)
    requires Valid(l) && 0 < |value| <= MAX_LINE_BYTES
    ensures Consecutive(l.lines + [Line(l.next, value)], Oldest(l)) && Proper(l.lines + [Line(l.next, value)])
  {
  }

  // A write keeps its own line, which is the newest, and as many of the lines
  // before it as the bounds allow.
  lemma AppendContents(l: Log, value: Text)
    requires Valid(l) && 0 < |value| <= MAX_LINE_BYTES
    ensures var a := Append(l, value);
      && a.bytes == Size(a.lines) && !Over(a) && a.next == l.next + 1 && 0 < |a.lines| <= |l.lines| + 1
      && a.lines == Newest(l.lines + [Line(l.next, value)], |a.lines|)
      && a.lines[|a.lines| - 1] == Line(l.next, value)
      && forall k :: |a.lines| < k <= |l.lines| + 1 ==> Excessive(l.lines + [Line(l.next, value)], k)
  {
    SizeMore(l.lines, Line(l.next, value));
    EvictKeepsLongest(Grown(l, value));
    OneLineFits(l.lines, Line(l.next, value));
  }

  lemma AppendKeeps(l: Log, value: Text)
    requires Valid(l) && 0 < |value| <= MAX_LINE_BYTES
    ensures Valid(Append(l, value)) && Oldest(Append(l, value)) >= Oldest(l)
  {
    AppendContents(l, value);
    GrownAlike(l, value);
    NewestIsValid(Append(l, value), l.lines + [Line(l.next, value)], Oldest(l));
  }

  function AppendAll(l: Log, values: seq<Text>): (r: Log)
    requires Valid(l) && forall v <- values :: 0 < |v| <= MAX_LINE_BYTES
    ensures Valid(r)
    decreases |values|
  {
    if values == [] then l
    else
      AppendKeeps(l, values[0]);
      AppendAll(Append(l, values[0]), values[1..])
  }

  // What a batch for a cursor holds: up to a hundred of the lines kept from the
  // cursor on, and the number of the first.
  function BatchOf(l: Log, next: nat): (seq<Text>, nat)
    requires Valid(l)
  {
    if l.lines == [] then ([], next)
    else
      var first := Max(next, Oldest(l));
      if first >= l.next then ([], first)
      else (Texts(l.lines[first - Oldest(l)..Min(first - Oldest(l) + MAX_BATCH_LINES, |l.lines|)]), first)
  }

  function Texts(lines: seq<Line>): (texts: seq<Text>)
    ensures |texts| == |lines|
    ensures forall i :: 0 <= i < |lines| ==> texts[i] == lines[i].text
  {
    seq(|lines|, i requires 0 <= i < |lines| => lines[i].text)
  }

  class Hub {
    var lines: seq<Line>
    var bytes: int
    var next: nat

    function State(): Log
      reads this
    {
      Log(lines, bytes, next)
    }

    constructor ()
      ensures State() == EMPTY
    {
      lines, bytes, next := [], 0, 1;
    }

    // One line under the lock.
    method AppendLine(value: Text)
      requires Valid(State())
      modifies this
      ensures State() == Append(old(State()), value)
      ensures |lines| <= 2000 && bytes <= 1048576 && next == old(next) + 1
    {
      SizeMore(lines, Line(next, value));
      ghost var grown := Grown(State(), value);
      lines := lines + [Line(next, value)];
      next := next + 1;
      bytes := bytes + |value|;
      while |lines| > MAX_QUEUED_LINES || bytes > MAX_QUEUED_BYTES
        invariant bytes == Size(lines) && next == old(next) + 1
        invariant Evict(State()) == Evict(grown)
        decreases |lines|
      {
        bytes := bytes - |lines[0].text|;
        lines := lines[1..];
      }
    }

    method Write(p: Text) returns (written: nat)
      requires Valid(State())
      modifies this
      ensures State() == AppendAll(old(State()), Values(p)) && written == |p|
    {
      var parts := SplitLines(WithoutCrLf(p));
      var index := 0;
      while index < |parts|
        invariant 0 <= index <= |parts| && Valid(State())
        invariant AppendAll(State(), Kept(parts[index..])) == AppendAll(old(State()), Values(p))
      {
        var value := Cleaned(parts[index]);
        assert parts[index..][1..] == parts[index + 1..];
        index := index + 1;
        if value == [] {
          continue;
        }
        ghost var rest := Kept(parts[index..]);
        assert ([value] + rest)[1..] == rest;
        AppendKeeps(State(), value);
        AppendLine(value);
      }
      written := |p|;
    }

    method Batch(next: nat) returns (entries: seq<Text>, first: nat)
      requires Valid(State())
      ensures (entries, first) == BatchOf(State(), next)
      ensures lines == [] ==> entries == [] && first == next
      ensures lines != [] ==> first == Max(next, lines[0].number) && |entries| == Min(100, Max(0, this.next - first))
      ensures entries != [] ==>
        var skipped := first - lines[0].number;
        lines[skipped].number == first && entries == Texts(lines[skipped..skipped + |entries|])
    {
      if |lines| == 0 {
        return [], next;
      }
      var from := next;
      if from < lines[0].number {
        from := lines[0].number;
      }
      entries, first := [], from;
      ghost var start := from - Oldest(State());
      var i := 0;
      while i < |lines|
        invariant 0 <= i <= |lines| && first == from
        invariant if i <= start then entries == [] else entries == Texts(lines[start..i]) && i - start < MAX_BATCH_LINES
      {
        if lines[i].number < from {
          i := i + 1;
          continue;
        }
        if entries == [] {
          first := lines[i].number;
        }
        entries := entries + [lines[i].text];
        assert lines[start..i + 1] == lines[start..i] + [lines[i]];
        i := i + 1;
        assert entries == Texts(lines[start..i]);
        if |entries| == MAX_BATCH_LINES {
          break;
        }
      }
      if start < |lines| {
        assert i == Min(start + MAX_BATCH_LINES, |lines|);
        assert entries == Texts(lines[start..i]);
      }
    }
  }
}
