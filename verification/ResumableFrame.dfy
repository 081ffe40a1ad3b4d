// The frames two resumable endpoints exchange: a type byte, a big-endian 64-bit
// offset (or heartbeat nonce), and a payload carried only by data frames.
module ResumableFrame {
  import opened Prelude
  import opened BigEndian

  const DATA: byte := 1
  const ACK: byte := 2
  const PING: byte := 3
  const PONG: byte := 4
  const HEADER_LEN: nat := 9
  const CHUNK_SIZE: nat := 65536

  datatype Frame = Frame(kind: byte, offset: u64, payload: seq<byte>)

  datatype FrameError = TooShort | ControlPayload | ChunkLimit

  predicate IsControl(kind: byte) {
    kind == ACK || kind == PING || kind == PONG
  }

  // What a peer may put on the wire.
  predicate WellFormed(f: Frame) {
    && (IsControl(f.kind) ==> f.payload == [])
    && (f.kind == DATA ==> |f.payload| <= CHUNK_SIZE)
  }

  function MakeFrame(f: Frame): (b: seq<byte>)
    ensures |b| == HEADER_LEN + |f.payload|
  {
    [f.kind] + Put64(f.offset) + f.payload
  }

  function ParseFrame(b: seq<byte>): Result<Frame, FrameError> {
    if |b| < HEADER_LEN then Err(TooShort)
    else
      var kind := b[0];
      var offset := Get64(b[1..HEADER_LEN]);
      var payload := b[HEADER_LEN..];
      if IsControl(kind) && |payload| != 0 then Err(ControlPayload)
      else if kind == DATA && |payload| > CHUNK_SIZE then Err(ChunkLimit)
      else Ok(Frame(kind, offset, payload))
  }

  lemma ParseOfMake(f: Frame)
    ensures WellFormed(f) ==> ParseFrame(MakeFrame(f)) == Ok(f)
    ensures !WellFormed(f) ==> ParseFrame(MakeFrame(f)).Err?
  {
    var b := MakeFrame(f);
    assert b[1..HEADER_LEN] == Put64(f.offset);
    assert b[HEADER_LEN..] == f.payload;
    RoundTrip64(f.offset, b[1..HEADER_LEN]);
  }

  lemma MakeOfParse(b: seq<byte>)
    requires ParseFrame(b).Ok?
    ensures MakeFrame(ParseFrame(b).value) == b && WellFormed(ParseFrame(b).value)
  {
    RoundTrip64(0, b[1..HEADER_LEN]);
    assert b == [b[0]] + b[1..HEADER_LEN] + b[HEADER_LEN..];
  }

  // Parsing accepts exactly the images of well-formed frames, and only the frame
  // that was encoded.
  lemma FrameCodec(b: seq<byte>, f: Frame)
    ensures ParseFrame(b) == Ok(f) <==> WellFormed(f) && b == MakeFrame(f)
  {
    ParseOfMake(f);
    if ParseFrame(b).Ok? {
      MakeOfParse(b);
    }
  }
}
