// The records of the HTTP-stream transport and the bodies that carry a batch of
// them: a kind byte, a big-endian 64-bit sequence, a big-endian 32-bit length and
// the payload. A body that was cut short loses only a tail of its records.
module HttpRecord {
  import opened Prelude
  import opened BigEndian

  const ACK: byte := 0
  const TEXT: byte := 1
  const BINARY: byte := 2
  const CLOSE: byte := 8
  const HEADER_LEN: nat := 13
  const READ_LIMIT: nat := 0x10_0000

  datatype Record = Record(kind: byte, seqNo: u64, payload: seq<byte>)

  datatype ReadError = Eof | UnexpectedEof | TooLong

  predicate Writable(r: Record) {
    |r.payload| <= READ_LIMIT
  }

  function Put32(v: nat): (b: seq<byte>)
    requires v <= READ_LIMIT
    ensures |b| == 4
  {
    Pow256Four();
    Put(v, 4)
  }

  function WriteRecord(r: Record): (b: seq<byte>)
    requires Writable(r)
    ensures |b| == HEADER_LEN + |r.payload|
  {
    [r.kind] + Put64(r.seqNo) + Put32(|r.payload|) + r.payload
  }

  // Reading exactly n bytes from what is left of a body.
  function ReadFull(b: seq<byte>, n: nat): Result<seq<byte>, ReadError> {
    if |b| >= n then Ok(b[..n]) else if b == [] then Err(Eof) else Err(UnexpectedEof)
  }

  function ReadRecord(b: seq<byte>): Result<(Record, seq<byte>), ReadError> {
    match ReadFull(b, HEADER_LEN)
    case Err(e) => Err(e)
    case Ok(header) =>
      var length := Get(header[9..13]);
      if length > READ_LIMIT then Err(TooLong)
      else
        match ReadFull(b[HEADER_LEN..], length)
        case Err(e) => Err(e)
        case Ok(payload) => Ok((Record(header[0], Get64(header[1..9]), payload), b[HEADER_LEN + length..]))
  }

  function WriteBatch(rs: seq<Record>): seq<byte>
    requires forall r <- rs :: Writable(r)
  {
    if rs == [] then [] else WriteRecord(rs[0]) + WriteBatch(rs[1..])
  }

  // The records a receiver gets out of a body, and why it stopped.
  function ReadBatch(b: seq<byte>): (seq<Record>, ReadError)
    decreases |b|
  {
    match ReadRecord(b)
    case Err(e) => ([], e)
    case Ok((r, rest)) => var (rs, e) := ReadBatch(rest); ([r] + rs, e)
  }

  // The receiver's loop over a body.
  method DecodeBody(body: seq<byte>) returns (records: seq<Record>, error: ReadError)
    ensures (records, error) == ReadBatch(body)
  {
    records := [];
    var rest := body;
    assert records + ReadBatch(rest).0 == ReadBatch(rest).0;
    while true
      invariant ReadBatch(body) == (records + ReadBatch(rest).0, ReadBatch(rest).1)
      decreases |rest|
    {
      match ReadRecord(rest)
      case Err(e) =>
        assert records + [] == records;
        return records, e;
      case Ok((r, tail)) =>
        assert records + ([r] + ReadBatch(tail).0) == (records + [r]) + ReadBatch(tail).0;
        records, rest := records + [r], tail;
    }
  }

  lemma BatchStep(rs: seq<Record>, i: nat)
    requires (forall r <- rs :: Writable(r)) && i < |rs|
    ensures WriteBatch(rs[i..]) == WriteRecord(rs[i]) + WriteBatch(rs[i + 1..])
  {
    assert rs[i..][1..] == rs[i + 1..];
  }

  // The sender's loop over a batch.
  method EncodeBody(ack: u64, frames: seq<Record>) returns (body: seq<byte>)
    requires forall r <- frames :: Writable(r)
    ensures body == WriteBatch([Record(ACK, ack, [])] + frames)
  {
    var all := [Record(ACK, ack, [])] + frames;
    body := [];
    var i := 0;
    while i < |all|
      invariant 0 <= i <= |all|
      invariant body + WriteBatch(all[i..]) == WriteBatch(all)
    {
      BatchStep(all, i);
      assert body + (WriteRecord(all[i]) + WriteBatch(all[i + 1..])) == body + WriteRecord(all[i]) + WriteBatch(all[i + 1..]);
      body := body + WriteRecord(all[i]);
      i := i + 1;
    }
    assert body + WriteBatch(all[i..]) == body;
  }

  lemma ReadOfWrite(r: Record, rest: seq<byte>)
    requires Writable(r)
    ensures ReadRecord(WriteRecord(r) + rest) == Ok((r, rest))
  {
    var b := WriteRecord(r) + rest;
    var header := b[..HEADER_LEN];
    assert header == [r.kind] + Put64(r.seqNo) + Put32(|r.payload|);
    assert header[1..9] == Put64(r.seqNo);
    assert header[9..13] == Put32(|r.payload|);
    RoundTrip64(r.seqNo, header[1..9]);
    Pow256Four();
    GetPut(|r.payload|, 4);
    assert b[HEADER_LEN..][..|r.payload|] == r.payload;
    assert b[HEADER_LEN + |r.payload|..] == rest;
  }

  lemma WriteOfRead(b: seq<byte>)
    requires ReadRecord(b).Ok?
    ensures var (r, rest) := ReadRecord(b).value; Writable(r) && b == WriteRecord(r) + rest
  {
    var (r, rest) := ReadRecord(b).value;
    var header := b[..HEADER_LEN];
    RoundTrip64(0, header[1..9]);
    PutGet(header[9..13]);
    assert header == [header[0]] + header[1..9] + header[9..13];
    assert b == header + r.payload + rest;
  }

  // Reading succeeds exactly on what writing produces.
  lemma RecordCodec(b: seq<byte>, r: Record, rest: seq<byte>)
    ensures ReadRecord(b) == Ok((r, rest)) <==> Writable(r) && b == WriteRecord(r) + rest
  {
    if Writable(r) && b == WriteRecord(r) + rest {
      ReadOfWrite(r, rest);
    }
    if ReadRecord(b).Ok? {
      WriteOfRead(b);
    }
  }

  // A record cut anywhere before its end cannot be read.
  lemma TruncatedRecord(r: Record, rest: seq<byte>, k: nat)
    requires Writable(r) && k < |WriteRecord(r)|
    ensures ReadRecord((WriteRecord(r) + rest)[..k]).Err?
  {
    var b := (WriteRecord(r) + rest)[..k];
    if ReadRecord(b).Ok? {
      var (r', rest') := ReadRecord(b).value;
      WriteOfRead(b);
      var tail := (WriteRecord(r) + rest)[k..];
      assert WriteRecord(r) + rest == b + tail == WriteRecord(r') + (rest' + tail);
      ReadOfWrite(r, rest);
      ReadOfWrite(r', rest' + tail);
    }
  }

  // How many records of a batch lie wholly within the first k bytes of its body.
  function Whole(rs: seq<Record>, k: nat): (n: nat)
    requires forall r <- rs :: Writable(r)
    ensures n <= |rs|
  {
    if rs == [] || |WriteRecord(rs[0])| > k then 0
    else 1 + Whole(rs[1..], k - |WriteRecord(rs[0])|)
  }

  lemma {:induction false} WholeIsLargest(rs: seq<Record>, k: nat)
    requires forall r <- rs :: Writable(r)
    ensures var n := Whole(rs, k);
      |WriteBatch(rs[..n])| <= k && (n < |rs| ==> |WriteBatch(rs[..n + 1])| > k)
  {
    var n := Whole(rs, k);
    if rs != [] && |WriteRecord(rs[0])| <= k {
      WholeIsLargest(rs[1..], k - |WriteRecord(rs[0])|);
      assert rs[..n][1..] == rs[1..][..n - 1];
      if n < |rs| {
        assert rs[..n + 1][1..] == rs[1..][..n];
      }
    } else if rs != [] {
      assert rs[..1] == [rs[0]];
      assert WriteBatch([rs[0]]) == WriteRecord(rs[0]) + WriteBatch([]);
    }
  }

  // A body cut within its first record yields nothing; one cut later yields it and
  // what the rest yields.
  lemma TruncationStep(rs: seq<Record>, k: nat)
    requires (forall r <- rs :: Writable(r)) && rs != [] && k <= |WriteBatch(rs)|
    ensures var first := WriteRecord(rs[0]);
      if k < |first| then ReadBatch(WriteBatch(rs)[..k]).0 == []
      else ReadBatch(WriteBatch(rs)[..k]).0 == [rs[0]] + ReadBatch(WriteBatch(rs[1..])[..k - |first|]).0
  {
    var first, rest := WriteRecord(rs[0]), WriteBatch(rs[1..]);
    if k < |first| {
      TruncatedRecord(rs[0], rest, k);
    } else {
      assert WriteBatch(rs)[..k] == first + rest[..k - |first|];
      ReadOfWrite(rs[0], rest[..k - |first|]);
    }
  }

  lemma WholeStep(rs: seq<Record>, k: nat)
    requires (forall r <- rs :: Writable(r)) && rs != []
    ensures var first := |WriteRecord(rs[0])|;
      rs[..Whole(rs, k)] == if k < first then [] else [rs[0]] + rs[1..][..Whole(rs[1..], k - first)]
  {
  }

  // Any byte prefix of a body yields a prefix of its records, namely those it
  // wholly contains.
  lemma {:induction false} TruncationLosesATail(rs: seq<Record>, k: nat)
    requires (forall r <- rs :: Writable(r)) && k <= |WriteBatch(rs)|
    ensures ReadBatch(WriteBatch(rs)[..k]).0 == rs[..Whole(rs, k)]
  {
    if rs == [] {
    } else {
      TruncationStep(rs, k);
      WholeStep(rs, k);
      if k >= |WriteRecord(rs[0])| {
        TruncationLosesATail(rs[1..], k - |WriteRecord(rs[0])|);
      }
    }
  }

  // A whole body yields exactly its records and ends cleanly.
  lemma {:induction false} WholeBody(rs: seq<Record>)
    requires forall r <- rs :: Writable(r)
    ensures ReadBatch(WriteBatch(rs)) == (rs, Eof)
  {
    if rs != [] {
      ReadOfWrite(rs[0], WriteBatch(rs[1..]));
      WholeBody(rs[1..]);
      assert [rs[0]] + rs[1..] == rs;
    }
  }

  // Close payloads have the layout of section 5.5.1 of RFC 6455: a status code
  // in network byte order, then a reason of at most 123 bytes.

  const REASON_LIMIT: nat := 123
  const NORMAL_CLOSURE: nat := 1000

  function EncodeClose(code: nat, reason: seq<byte>): (b: seq<byte>)
    requires code < 65536
    ensures |b| <= 125
  {
    Pow256Two();
    Put(code, 2) + reason[..Min(REASON_LIMIT, |reason|)]
  }

  function DecodeClose(b: seq<byte>): (nat, seq<byte>) {
    if |b| < 2 then (NORMAL_CLOSURE, []) else (Get(b[..2]), b[2..])
  }

  lemma CloseRoundTrip(code: nat, reason: seq<byte>)
    requires code < 65536
    ensures DecodeClose(EncodeClose(code, reason)) == (code, reason[..Min(REASON_LIMIT, |reason|)])
  {
    Pow256Two();
    GetPut(code, 2);
    var kept := reason[..Min(REASON_LIMIT, |reason|)];
    var b := Put(code, 2) + kept;
    assert EncodeClose(code, reason) == b;
    assert b[..2] == Put(code, 2) && b[2..] == kept;
  }

  // Which payloads decode to which code and reason.
  lemma CloseExact(b: seq<byte>, code: nat, reason: seq<byte>)
    ensures DecodeClose(b) == (code, reason) <==>
      if |b| < 2 then code == NORMAL_CLOSURE && reason == []
      else code < Pow256(2) && b == Put(code, 2) + reason
  {
    if |b| >= 2 {
      PutGet(b[..2]);
      assert b == b[..2] + b[2..];
      if code < Pow256(2) {
        GetPut(code, 2);
        if b == Put(code, 2) + reason {
          assert b[..2] == Put(code, 2) && b[2..] == reason;
        }
      }
    }
  }

  // Only the part of a reason beyond the limit is lost.
  lemma CloseKeepsReason(code: nat, reason: seq<byte>)
    requires code < 65536
    ensures DecodeClose(EncodeClose(code, reason)) == (code, reason) <==> |reason| <= REASON_LIMIT
  {
    CloseRoundTrip(code, reason);
    if |reason| <= REASON_LIMIT {
      assert reason[..|reason|] == reason;
    }
  }
}
