// Frames as bytes, and the whole path of a screen stream: every captured image
// through the encoder, the byte stream, the reader and the viewer's canvas.
module ScreenWire {
  import opened Prelude
  import opened BigEndian
  import opened ScreenImage
  import opened ScreenDelta

  const MAX_METADATA_SIZE := 0x10_0000
  const MAX_PAYLOAD_SIZE := 0x1000_0000

  const DIMENSIONS_TEXT := "screen dimensions changed; start a new stream"

  // Writing a frame

  // The rectangles with the lengths of their payloads.
  function Sized(rects: seq<Rect>, payloads: seq<seq<byte>>): (sized: seq<Rect>)
    requires |rects| == |payloads|
    ensures |sized| == |rects|
  {
    seq(|rects|, i requires 0 <= i < |rects| => rects[i].(length := |payloads[i]|))
  }

  function Concat(payloads: seq<seq<byte>>): seq<byte> {
    if payloads == [] then [] else payloads[0] + Concat(payloads[1..])
  }

  function Written(c: Codec, frame: Frame, payloads: seq<seq<byte>>): Result<seq<byte>, Error> {
    if |frame.rects| != |payloads| then Err(CountsDiffer)
    else
      var metadata := c.marshal(frame.(rects := Sized(frame.rects, payloads)));
      if |metadata| > MAX_METADATA_SIZE then Err(MetadataTooLarge)
      else
        SizeFits(|metadata|);
        Ok(Put(|metadata|, 4) + metadata + Concat(payloads))
  }

  lemma SizeFits(n: nat)
    requires n <= MAX_METADATA_SIZE
    ensures n < Pow256(4)
  {
    Pow256Four();
  }

  lemma ConcatMore(done: seq<seq<byte>>, payload: seq<byte>)
    ensures Concat(done + [payload]) == Concat(done) + payload
  {
    if done != [] {
      ConcatMore(done[1..], payload);
      assert (done + [payload])[1..] == done[1..] + [payload];
    }
  }

  method WriteFrame(c: Codec, frame: Frame, payloads: seq<seq<byte>>) returns (r: Result<seq<byte>, Error>)
    ensures r == Written(c, frame, payloads)
    ensures r == Err(CountsDiffer) <==> |frame.rects| != |payloads|
    ensures r == Err(MetadataTooLarge) <==>
      |frame.rects| == |payloads| && |c.marshal(frame.(rects := Sized(frame.rects, payloads)))| > 1048576
  {
    if |frame.rects| != |payloads| {
      return Err(CountsDiffer);
    }
    var rects, index := frame.rects, 0;
    while index < |rects|
      invariant 0 <= index <= |rects| == |payloads|
      invariant forall i :: 0 <= i < index ==> rects[i] == frame.rects[i].(length := |payloads[i]|)
      invariant forall i :: index <= i < |rects| ==> rects[i] == frame.rects[i]
    {
      rects := rects[index := rects[index].(length := |payloads[index]|)];
      index := index + 1;
    }
    assert rects == Sized(frame.rects, payloads);
    var metadata := c.marshal(frame.(rects := rects));
    if |metadata| > MAX_METADATA_SIZE {
      return Err(MetadataTooLarge);
    }
    SizeFits(|metadata|);
    var head := Put(|metadata|, 4) + metadata;
    var body: seq<byte> := [];
    index := 0;
    while index < |payloads|
      invariant 0 <= index <= |payloads|
      invariant body == Concat(payloads[..index])
    {
      ConcatMore(payloads[..index], payloads[index]);
      assert payloads[..index] + [payloads[index]] == payloads[..index + 1];
      body := body + payloads[index];
      index := index + 1;
    }
    assert payloads[..index] == payloads;
    r := Ok(head + body);
  }

  // Reading a frame

  predicate ValidRect(r: Rect) {
    r.x >= 0 && r.y >= 0 && r.width > 0 && r.height > 0 && r.length > 0
  }

  // The payloads of a frame and what follows them in the stream.
  function Payloads(rects: seq<Rect>, stream: seq<byte>, total: nat): (r: Result<(seq<seq<byte>>, seq<byte>), Error>)
    ensures r.Ok? ==> |r.value.0| == |rects| && |r.value.1| <= |stream|
  {
    if rects == [] then Ok(([], stream))
    else if !ValidRect(rects[0]) then Err(InvalidRectangle)
    else if total + rects[0].length > MAX_PAYLOAD_SIZE then Err(PayloadTooLarge)
    else if |stream| < rects[0].length then Err(EndOfStream)
    else
      match Payloads(rects[1..], stream[rects[0].length..], total + rects[0].length)
      case Err(e) => Err(e)
      case Ok((payloads, rest)) => Ok(([stream[..rects[0].length]] + payloads, rest))
  }

  function Parsed(c: Codec, stream: seq<byte>): (r: Result<(Frame, seq<seq<byte>>, seq<byte>), Error>)
    ensures r.Ok? ==> |r.value.2| < |stream|
  {
    if |stream| < 4 then Err(EndOfStream)
    else
      var size := Get(stream[..4]);
      if size == 0 || size > MAX_METADATA_SIZE then Err(InvalidMetadataSize)
      else if |stream| < 4 + size then Err(EndOfStream)
      else
        match c.unmarshal(stream[4..4 + size])
        case None => Err(BadMetadata)
        case Some(frame) =>
          match Payloads(frame.rects, stream[4 + size..], 0)
          case Err(e) => Err(e)
          case Ok((payloads, rest)) => Ok((frame, payloads, rest))
  }

  method ReadFrame(c: Codec, stream: seq<byte>) returns (r: Result<(Frame, seq<seq<byte>>, seq<byte>), Error>)
    ensures r == Parsed(c, stream)
    ensures |stream| < 4 ==> r == Err(EndOfStream)
    ensures r == Err(InvalidMetadataSize) <==> |stream| >= 4 && !(0 < Get(stream[..4]) <= 1048576)
  {
    if |stream| < 4 {
      return Err(EndOfStream);
    }
    var size := Get(stream[..4]);
    if size <= 0 || size > MAX_METADATA_SIZE {
      return Err(InvalidMetadataSize);
    }
    if |stream| < 4 + size {
      return Err(EndOfStream);
    }
    var parsed := c.unmarshal(stream[4..4 + size]);
    if parsed.None? {
      return Err(BadMetadata);
    }
    var frame := parsed.value;
    var payloads: seq<seq<byte>>, total, rest, index := [], 0, stream[4 + size..], 0;
    assert frame.rects[0..] == frame.rects;
    PrefixedMore([], [], Payloads(frame.rects, rest, 0));
    while index < |frame.rects|
      invariant 0 <= index <= |frame.rects| && total >= 0
      invariant Payloads(frame.rects, stream[4 + size..], 0) == Prefixed(payloads, Payloads(frame.rects[index..], rest, total))
    {
      var rect := frame.rects[index];
      assert frame.rects[index..][1..] == frame.rects[index + 1..];
      if rect.x < 0 || rect.y < 0 || rect.width <= 0 || rect.height <= 0 || rect.length <= 0 {
        return Err(InvalidRectangle);
      }
      total := total + rect.length;
      if total > MAX_PAYLOAD_SIZE {
        return Err(PayloadTooLarge);
      }
      if |rest| < rect.length {
        return Err(EndOfStream);
      }
      PrefixedMore(payloads, rest[..rect.length], Payloads(frame.rects[index + 1..], rest[rect.length..], total));
      payloads, rest := payloads + [rest[..rect.length]], rest[rect.length..];
      index := index + 1;
    }
    assert payloads + [] == payloads;
    r := Ok((frame, payloads, rest));
  }

  // A reading preceded by payloads already read.
  function Prefixed(done: seq<seq<byte>>, r: Result<(seq<seq<byte>>, seq<byte>), Error>): Result<(seq<seq<byte>>, seq<byte>), Error> {
    match r
    case Err(e) => Err(e)
    case Ok((payloads, rest)) => Ok((done + payloads, rest))
  }

  lemma PrefixedMore(done: seq<seq<byte>>, next: seq<byte>, r: Result<(seq<seq<byte>>, seq<byte>), Error>)
    ensures Prefixed(done, Prefixed([next], r)) == Prefixed(done + [next], r)
    ensures Prefixed([], r) == r
  {
    if r.Ok? {
      assert [] + r.value.0 == r.value.0;
      assert done + ([next] + r.value.0) == done + [next] + r.value.0;
    }
  }

  // A written frame reads back

  function PayloadSize(payloads: seq<seq<byte>>): nat {
    if payloads == [] then 0 else |payloads[0]| + PayloadSize(payloads[1..])
  }

  predicate Readable(rects: seq<Rect>, payloads: seq<seq<byte>>)
    requires |rects| == |payloads|
  {
    && (forall i :: 0 <= i < |rects| ==> ValidRect(rects[i].(length := |payloads[i]|)))
    && PayloadSize(payloads) <= MAX_PAYLOAD_SIZE
  }

  lemma {:induction false} PayloadsOfConcat(rects: seq<Rect>, payloads: seq<seq<byte>>, rest: seq<byte>, total: nat)
    requires |rects| == |payloads| && total <= MAX_PAYLOAD_SIZE
    ensures var r := Payloads(Sized(rects, payloads), Concat(payloads) + rest, total);
      if (forall i :: 0 <= i < |rects| ==> ValidRect(rects[i].(length := |payloads[i]|)))
         && total + PayloadSize(payloads) <= MAX_PAYLOAD_SIZE
      then r == Ok((payloads, rest)) else r.Err?
    decreases |rects|
  {
    var sized, stream := Sized(rects, payloads), Concat(payloads) + rest;
    if rects == [] {
      assert stream == rest;
    } else {
      var first := sized[0];
      assert rects == [rects[0]] + rects[1..];
      assert sized[1..] == Sized(rects[1..], payloads[1..]);
      assert stream == payloads[0] + (Concat(payloads[1..]) + rest);
      assert stream[first.length..] == Concat(payloads[1..]) + rest;
      assert stream[..first.length] == payloads[0];
      if total + first.length <= MAX_PAYLOAD_SIZE {
        PayloadsOfConcat(rects[1..], payloads[1..], rest, total + first.length);
      }
      assert payloads == [payloads[0]] + payloads[1..];
    }
  }

  // A frame that could be written reads back, with its payload lengths and with the
  // rest of the stream untouched, when its rectangles are well formed and its
  // payloads are within the reader's bound, and is refused otherwise.
  lemma ReadOfWrite(c: Codec, frame: Frame, payloads: seq<seq<byte>>, rest: seq<byte>)
    requires Lossless(c) && Written(c, frame, payloads).Ok?
    requires Sendable(frame.(rects := Sized(frame.rects, payloads)))
    ensures var sized := frame.(rects := Sized(frame.rects, payloads));
      if Readable(frame.rects, payloads) then Parsed(c, Written(c, frame, payloads).value + rest) == Ok((sized, payloads, rest))
      else Parsed(c, Written(c, frame, payloads).value + rest).Err?
  {
    var sized := frame.(rects := Sized(frame.rects, payloads));
    var metadata := c.marshal(sized);
    SizeFits(|metadata|);
    var head := Put(|metadata|, 4);
    GetPut(|metadata|, 4);
    var stream := Written(c, frame, payloads).value + rest;
    assert stream == head + metadata + (Concat(payloads) + rest);
    assert stream[..4] == head;
    assert stream[4..4 + |metadata|] == metadata;
    assert stream[4 + |metadata|..] == Concat(payloads) + rest;
    assert c.unmarshal(metadata) == Some(sized);
    PayloadsOfConcat(frame.rects, payloads, rest, 0);
    if frame.rects == [] {
      assert payloads == [];
    }
  }

  // Receiving a stream

  // The images handed to the callback, and how the call ended. The callback may
  // refuse by what it has been given so far.
  function Received(c: Codec, single: bool, onFrame: seq<Image> -> bool, stream: seq<byte>, canvas: Option<Image>, seen: seq<Image>):
    (seq<Image>, Option<Error>)
    decreases |stream|
  {
    match Parsed(c, stream)
    case Err(e) => (seen, Some(e))
    case Ok((frame, payloads, rest)) =>
      var applied := Applied(c, canvas, frame, payloads);
      if applied.1.Some? || applied.0.None? then (seen, applied.1)
      else if !onFrame(seen + [applied.0.value]) then (seen + [applied.0.value], Some(Stopped))
      else if single then (seen + [applied.0.value], None)
      else Received(c, single, onFrame, rest, applied.0, seen + [applied.0.value])
  }

  method Receive(c: Codec, single: bool, onFrame: seq<Image> -> bool, stream: seq<byte>)
    returns (seen: seq<Image>, error: Option<Error>)
    ensures (seen, error) == Received(c, single, onFrame, stream, None, [])
  {
    var canvas: array2?<Pixel> := null;
    var rest := stream;
    seen := [];
    while true
      invariant canvas == null || fresh(canvas)
      invariant Received(c, single, onFrame, rest, View(canvas), seen) == Received(c, single, onFrame, stream, None, [])
      decreases |rest|
    {
      var parsed := ReadFrame(c, rest);
      if parsed.Err? {
        return seen, Some(parsed.error);
      }
      var frame, payloads := parsed.value.0, parsed.value.1;
      canvas, error := ApplyFrame(c, canvas, frame, payloads);
      if error.Some? {
        return;
      }
      rest := parsed.value.2;
      seen := seen + [Picture(canvas)];
      if !onFrame(seen) {
        return seen, Some(Stopped);
      }
      if single {
        return seen, None;
      }
    }
  }

  // The capturing side: a full frame, then, unless one image was asked for, deltas
  // until the dimensions change or a frame cannot be written.

  ghost function Deltas(c: Codec, tileSize: int, number: u64, prev: Image, rest: seq<Image>): seq<byte>
    decreases |rest|
  {
    if rest == [] then []
    else
      match DeltaFrame(c, number, prev, rest[0], tileSize)
      case Err(_) => Notice(c, number)
      case Ok((frame, payloads)) =>
        match Written(c, frame, payloads)
        case Err(_) => []
        case Ok(bytes) => bytes + Deltas(c, tileSize, Add64(number, 1), rest[0], rest[1..])
  }

  ghost function Notice(c: Codec, number: u64): seq<byte> {
    match Written(c, Frame(Failure, number, 0, 0, [], DIMENSIONS_TEXT), [])
    case Err(_) => []
    case Ok(bytes) => bytes
  }

  ghost function Stream(c: Codec, single: bool, tileSize: int, captures: seq<Image>): seq<byte> {
    if captures == [] then []
    else
      match FullFrame(c, 1, captures[0])
      case Err(_) => []
      case Ok((frame, payloads)) =>
        match Written(c, frame, payloads)
        case Err(_) => []
        case Ok(bytes) => bytes + if single then [] else Deltas(c, tileSize, 2, captures[0], captures[1..])
  }

  method RunCapture(c: Codec, single: bool, tileSize: int, captures: seq<Image>) returns (stream: seq<byte>)
    ensures stream == Stream(c, single, tileSize, captures)
  {
    if captures == [] {
      return [];
    }
    var full := EncodeFull(c, 1, captures[0]);
    if full.Err? {
      return [];
    }
    var written := WriteFrame(c, full.value.0, full.value.1);
    if written.Err? {
      return [];
    }
    stream := written.value;
    if single {
      return stream + [];
    }
    var previous, number: u64, i := captures[0], 2, 1;
    while i < |captures|
      invariant 1 <= i <= |captures|
      invariant stream + Deltas(c, tileSize, number, previous, captures[i..]) == Stream(c, single, tileSize, captures)
    {
      var current := captures[i];
      ghost var rest := captures[i + 1..];
      assert captures[i..][0] == current && captures[i..][1..] == rest;
      var delta := EncodeDelta(c, number, previous, current, tileSize);
      if delta.Err? {
        var notice := WriteFrame(c, Frame(Failure, number, 0, 0, [], DIMENSIONS_TEXT), []);
        return if notice.Ok? then stream + notice.value else stream;
      }
      written := WriteFrame(c, delta.value.0, delta.value.1);
      if written.Err? {
        return;
      }
      ghost var more := Deltas(c, tileSize, Add64(number, 1), current, rest);
      assert stream + (written.value + more) == stream + written.value + more;
      stream := stream + written.value;
      previous, number, i := current, Add64(number, 1), i + 1;
    }
  }

  // A frame within the bounds of both ends.
  ghost predicate Fits(c: Codec, frame: Frame, payloads: seq<seq<byte>>) {
    Written(c, frame, payloads).Ok? && PayloadSize(payloads) <= MAX_PAYLOAD_SIZE
  }

  // How many captures after the first keep its dimensions and fit.
  ghost function DeltasCarried(c: Codec, tileSize: int, number: u64, prev: Image, rest: seq<Image>): (n: nat)
    ensures n <= |rest|
    decreases |rest|
  {
    if rest == [] || prev.width != rest[0].width || prev.height != rest[0].height then 0
    else
      var delta := DeltaFrame(c, number, prev, rest[0], tileSize).value;
      if !Fits(c, delta.0, delta.1) then 0
      else 1 + DeltasCarried(c, tileSize, Add64(number, 1), rest[0], rest[1..])
  }

  ghost function Carried(c: Codec, tileSize: int, captures: seq<Image>): (n: nat)
    ensures n <= |captures|
  {
    if captures == [] || !Drawable(captures[0]) then 0
    else
      var full := FullFrame(c, 1, captures[0]).value;
      if !Fits(c, full.0, full.1) then 0
      else 1 + DeltasCarried(c, tileSize, 2, captures[0], captures[1..])
  }

  // Lengths play no part in drawing.
  lemma {:induction false} LengthsIrrelevant(c: Codec, base: Image, frame: Frame, frame': Frame, rects: seq<Rect>, payloads: seq<seq<byte>>)
    requires |rects| == |payloads| && frame'.width == frame.width && frame'.height == frame.height
    ensures PaintAll(c, base, frame', Sized(rects, payloads), payloads) == PaintAll(c, base, frame, rects, payloads)
    decreases |rects|
  {
    if rects != [] {
      var sized := Sized(rects, payloads);
      assert sized[1..] == Sized(rects[1..], payloads[1..]);
      var decoded := c.decode(payloads[0]);
      if decoded.Some? {
        var tile := decoded.value;
        forall x, y | InBounds(base, x, y)
          ensures At(Paint(base, sized[0], tile), x, y) == At(Paint(base, rects[0], tile), x, y)
        {
          PaintAt(base, sized[0], tile, x, y);
          PaintAt(base, rects[0], tile, x, y);
        }
        SameImage(Paint(base, sized[0], tile), Paint(base, rects[0], tile));
        LengthsIrrelevant(c, Paint(base, rects[0], tile), frame, frame', rects[1..], payloads[1..]);
      }
    }
  }

  lemma SizedApplies(c: Codec, base: Option<Image>, frame: Frame, payloads: seq<seq<byte>>)
    requires |frame.rects| == |payloads|
    ensures Applied(c, base, frame.(rects := Sized(frame.rects, payloads)), payloads) == Applied(c, base, frame, payloads)
  {
    var frame' := frame.(rects := Sized(frame.rects, payloads));
    if frame.width > 0 && frame.height > 0 {
      LengthsIrrelevant(c, Blank(frame.width, frame.height), frame, frame', frame.rects, payloads);
    }
    if base.Some? {
      LengthsIrrelevant(c, base.value, frame, frame', frame.rects, payloads);
    }
  }

  // Every capture arrives

  // What the viewer has been shown once these images have come, if it takes one
  // only or stops when the callback refuses.
  function Shown(single: bool, onFrame: seq<Image> -> bool, seen: seq<Image>, images: seq<Image>): seq<Image>
    decreases |images|
  {
    if images == [] then seen
    else if single || !onFrame(seen + [images[0]]) then seen + [images[0]]
    else Shown(single, onFrame, seen + [images[0]], images[1..])
  }

  lemma DeltaSendable(c: Codec, number: u64, prev: Image, next: Image, tileSize: int)
    requires Lossless(c) && Capture(next) && prev.width == next.width && prev.height == next.height
    ensures var d := DeltaFrame(c, number, prev, next, tileSize).value;
      && Sendable(d.0.(rects := Sized(d.0.rects, d.1)))
      && (PayloadSize(d.1) <= MAX_PAYLOAD_SIZE ==> Readable(d.0.rects, d.1))
  {
    var rects := DeltaRects(prev, next, tileSize);
    forall i | 0 <= i < |rects|
      ensures Within(rects[i], next.width, next.height) && 0 < |Pictures(c, next, rects)[i]| <= MAX_INT
    {
      PictureAt(c, next, rects, i);
      CropIsCapture(next, rects[i]);
      assert Drawable(Crop(next, rects[i]));
    }
  }

  // One frame through the reader and onto the canvas: it shows its image, or stops
  // the stream if its payloads are over the bound.
  ghost predicate Arrives(c: Codec, single: bool, onFrame: seq<Image> -> bool, canvas: Option<Image>, frame: Frame, payloads: seq<seq<byte>>,
                          next: Image, rest: seq<byte>, seen: seq<Image>)
    requires Written(c, frame, payloads).Ok?
  {
    var received := Received(c, single, onFrame, Written(c, frame, payloads).value + rest, canvas, seen);
    if !Fits(c, frame, payloads) then received.0 == seen
    else if single || !onFrame(seen + [next]) then received.0 == seen + [next]
    else received == Received(c, single, onFrame, rest, Some(next), seen + [next])
  }

  lemma FrameArrives(c: Codec, single: bool, onFrame: seq<Image> -> bool, canvas: Option<Image>, frame: Frame, payloads: seq<seq<byte>>,
                     next: Image, rest: seq<byte>, seen: seq<Image>)
    requires Lossless(c) && Written(c, frame, payloads).Ok? && Sendable(frame.(rects := Sized(frame.rects, payloads)))
    requires Applied(c, canvas, frame, payloads) == (Some(next), None)
    requires PayloadSize(payloads) <= MAX_PAYLOAD_SIZE ==> Readable(frame.rects, payloads)
    ensures Arrives(c, single, onFrame, canvas, frame, payloads, next, rest, seen)
  {
    ReadOfWrite(c, frame, payloads, rest);
    SizedApplies(c, canvas, frame, payloads);
  }

  lemma DeltaArrives(c: Codec, single: bool, onFrame: seq<Image> -> bool, tileSize: int, number: u64, prev: Image, next: Image,
                     rest: seq<byte>, seen: seq<Image>)
    requires Lossless(c) && Capture(next) && Drawable(next) && prev.width == next.width && prev.height == next.height
    requires var delta := DeltaFrame(c, number, prev, next, tileSize).value; Written(c, delta.0, delta.1).Ok?
    ensures var delta := DeltaFrame(c, number, prev, next, tileSize).value;
      Arrives(c, single, onFrame, Some(prev), delta.0, delta.1, next, rest, seen)
  {
    var delta := DeltaFrame(c, number, prev, next, tileSize).value;
    DeltaRebuilds(c, number, prev, next, tileSize);
    DeltaSendable(c, number, prev, next, tileSize);
    FrameArrives(c, single, onFrame, Some(prev), delta.0, delta.1, next, rest, seen);
  }

  lemma FullSendable(c: Codec, first: Image)
    requires Lossless(c) && Capture(first) && Drawable(first)
    ensures var full := FullFrame(c, 1, first).value;
      && Sendable(full.0.(rects := Sized(full.0.rects, full.1)))
      && (PayloadSize(full.1) <= MAX_PAYLOAD_SIZE ==> Readable(full.0.rects, full.1))
  {
    assert 0 < |c.encode(first)| <= MAX_INT;
  }

  lemma FullArrives(c: Codec, single: bool, onFrame: seq<Image> -> bool, first: Image, rest: seq<byte>)
    requires Lossless(c) && Capture(first) && Drawable(first)
    requires var full := FullFrame(c, 1, first).value; Written(c, full.0, full.1).Ok?
    ensures var full := FullFrame(c, 1, first).value;
      Arrives(c, single, onFrame, None, full.0, full.1, first, rest, [])
  {
    var full := FullFrame(c, 1, first).value;
    FullRebuilds(c, 1, None, first);
    FullSendable(c, first);
    FrameArrives(c, single, onFrame, None, full.0, full.1, first, rest, []);
  }

  // A notice of failure shows nothing and ends the stream.
  lemma NoticeEnds(c: Codec, single: bool, onFrame: seq<Image> -> bool, canvas: Option<Image>, number: u64, seen: seq<Image>)
    requires Lossless(c)
    ensures Received(c, single, onFrame, Notice(c, number), canvas, seen).0 == seen
  {
    var frame := Frame(Failure, number, 0, 0, [], DIMENSIONS_TEXT);
    var notice := Written(c, frame, []);
    if notice.Ok? {
      ReadOfWrite(c, frame, [], []);
      assert notice.value + [] == notice.value;
      SizedApplies(c, canvas, frame, []);
    }
  }

  lemma NothingReceived(c: Codec, single: bool, onFrame: seq<Image> -> bool, canvas: Option<Image>, seen: seq<Image>)
    ensures Received(c, single, onFrame, [], canvas, seen).0 == seen
  {
  }

  lemma DeltasUnfold(c: Codec, tileSize: int, number: u64, prev: Image, rest: seq<Image>)
    requires rest != [] && prev.width == rest[0].width && prev.height == rest[0].height
    ensures var delta := DeltaFrame(c, number, prev, rest[0], tileSize).value;
      Deltas(c, tileSize, number, prev, rest) ==
        match Written(c, delta.0, delta.1)
        case Err(_) => []
        case Ok(bytes) => bytes + Deltas(c, tileSize, Add64(number, 1), rest[0], rest[1..])
  {
  }

  lemma CarriedUnfold(c: Codec, tileSize: int, number: u64, prev: Image, rest: seq<Image>)
    requires rest != [] && prev.width == rest[0].width && prev.height == rest[0].height
    ensures var delta := DeltaFrame(c, number, prev, rest[0], tileSize).value;
      DeltasCarried(c, tileSize, number, prev, rest) ==
        if Fits(c, delta.0, delta.1) then 1 + DeltasCarried(c, tileSize, Add64(number, 1), rest[0], rest[1..]) else 0
  {
  }

  lemma ShownMore(single: bool, onFrame: seq<Image> -> bool, seen: seq<Image>, images: seq<Image>, n: nat)
    requires n < |images|
    ensures Shown(single, onFrame, seen, images[..n + 1]) ==
      if single || !onFrame(seen + [images[0]]) then seen + [images[0]]
      else Shown(single, onFrame, seen + [images[0]], images[1..][..n])
    ensures Shown(single, onFrame, seen, images[..0]) == seen
  {
    assert images[..n + 1][1..] == images[1..][..n];
  }

  // The deltas after one capture show what the captures after it allow.
  ghost predicate ShowsRest(c: Codec, single: bool, onFrame: seq<Image> -> bool, tileSize: int, number: u64, prev: Image, rest: seq<Image>, seen: seq<Image>) {
    Received(c, single, onFrame, Deltas(c, tileSize, number, prev, rest), Some(prev), seen).0
    == Shown(single, onFrame, seen, rest[..DeltasCarried(c, tileSize, number, prev, rest)])
  }

  lemma DeltasStop(c: Codec, single: bool, onFrame: seq<Image> -> bool, tileSize: int, number: u64, prev: Image, rest: seq<Image>, seen: seq<Image>)
    requires Lossless(c)
    requires rest == [] || prev.width != rest[0].width || prev.height != rest[0].height
    ensures ShowsRest(c, single, onFrame, tileSize, number, prev, rest, seen)
  {
    if rest == [] {
      NothingReceived(c, single, onFrame, Some(prev), seen);
    } else {
      NoticeEnds(c, single, onFrame, Some(prev), number, seen);
    }
  }

  lemma DeltasGoOn(c: Codec, single: bool, onFrame: seq<Image> -> bool, tileSize: int, number: u64, prev: Image, rest: seq<Image>, seen: seq<Image>)
    requires Lossless(c) && Drawable(prev) && rest != [] && Capture(rest[0])
    requires prev.width == rest[0].width && prev.height == rest[0].height
    requires ShowsRest(c, single, onFrame, tileSize, Add64(number, 1), rest[0], rest[1..], seen + [rest[0]])
    ensures ShowsRest(c, single, onFrame, tileSize, number, prev, rest, seen)
  {
    var tail := Deltas(c, tileSize, Add64(number, 1), rest[0], rest[1..]);
    var delta := DeltaFrame(c, number, prev, rest[0], tileSize).value;
    DeltasUnfold(c, tileSize, number, prev, rest);
    CarriedUnfold(c, tileSize, number, prev, rest);
    ShownMore(single, onFrame, seen, rest, DeltasCarried(c, tileSize, Add64(number, 1), rest[0], rest[1..]));
    if Written(c, delta.0, delta.1).Err? {
      NothingReceived(c, single, onFrame, Some(prev), seen);
    } else {
      DeltaArrives(c, single, onFrame, tileSize, number, prev, rest[0], tail, seen);
    }
  }

  lemma {:induction false} DeltasArrive(c: Codec, single: bool, onFrame: seq<Image> -> bool, tileSize: int, number: u64, prev: Image,
                                        rest: seq<Image>, seen: seq<Image>)
    requires Lossless(c) && Drawable(prev) && forall img <- rest :: Capture(img)
    ensures ShowsRest(c, single, onFrame, tileSize, number, prev, rest, seen)
    decreases |rest|
  {
    if rest == [] || prev.width != rest[0].width || prev.height != rest[0].height {
      DeltasStop(c, single, onFrame, tileSize, number, prev, rest, seen);
    } else {
      DeltasArrive(c, single, onFrame, tileSize, Add64(number, 1), rest[0], rest[1..], seen + [rest[0]]);
      DeltasGoOn(c, single, onFrame, tileSize, number, prev, rest, seen);
    }
  }

  lemma StreamUnfold(c: Codec, single: bool, tileSize: int, captures: seq<Image>)
    requires captures != [] && Drawable(captures[0])
    ensures var full := FullFrame(c, 1, captures[0]).value;
      && Stream(c, single, tileSize, captures) == (match Written(c, full.0, full.1)
           case Err(_) => []
           case Ok(bytes) => bytes + if single then [] else Deltas(c, tileSize, 2, captures[0], captures[1..]))
      && Carried(c, tileSize, captures) ==
           if Fits(c, full.0, full.1) then 1 + DeltasCarried(c, tileSize, 2, captures[0], captures[1..]) else 0
  {
  }

  // Over the byte stream, the viewer is shown the captures themselves, each once
  // and in order, up to the first that changes dimensions or does not fit a frame,
  // and no further than it asked for or its callback allowed.
  lemma StreamShowsCaptures(c: Codec, single: bool, onFrame: seq<Image> -> bool, tileSize: int, captures: seq<Image>)
    requires Lossless(c) && forall img <- captures :: Capture(img)
    ensures Received(c, single, onFrame, Stream(c, single, tileSize, captures), None, []).0
         == Shown(single, onFrame, [], captures[..Carried(c, tileSize, captures)])
  {
    if captures == [] || !Drawable(captures[0]) {
      NothingReceived(c, single, onFrame, None, []);
    } else {
      var first, rest := captures[0], captures[1..];
      var full := FullFrame(c, 1, first).value;
      StreamUnfold(c, single, tileSize, captures);
      ShownMore(single, onFrame, [], captures, DeltasCarried(c, tileSize, 2, first, rest));
      if Written(c, full.0, full.1).Err? {
        NothingReceived(c, single, onFrame, None, []);
      } else {
        FullArrives(c, single, onFrame, first, if single then [] else Deltas(c, tileSize, 2, first, rest));
        DeltasArrive(c, single, onFrame, tileSize, 2, first, rest, [] + [first]);
      }
    }
  }

  // With a callback that never refuses that is all of them, or the first if one was
  // asked for.
  lemma {:induction false} ShownIsPrefix(single: bool, onFrame: seq<Image> -> bool, seen: seq<Image>, images: seq<Image>)
    ensures seen <= Shown(single, onFrame, seen, images) <= seen + images
    ensures !single && (forall s :: onFrame(s)) ==> Shown(single, onFrame, seen, images) == seen + images
    decreases |images|
  {
    if images != [] {
      ShownIsPrefix(single, onFrame, seen + [images[0]], images[1..]);
      assert seen + [images[0]] + images[1..] == seen + images;
    }
  }
}
