// What a delta leaves out, which rectangles a canvas refuses, and what a reader
// makes of a frame that was cut short.
module ScreenLimits {
  import opened Prelude
  import opened BigEndian
  import opened ScreenImage
  import opened ScreenDelta
  import opened ScreenWire

  // A tile of the grid with the given step.
  predicate OnGrid(r: Rect, size: nat, width: nat, height: nat)
    requires size > 0
  {
    && r.x >= 0 && r.y >= 0 && r.x % size == 0 && r.y % size == 0
    && r.width == Min(size, width - r.x) && r.height == Min(size, height - r.y)
  }

  lemma NextMultiple(x: nat, size: nat)
    requires size > 0 && x % size == 0
    ensures (x + size) % size == 0
  {
    var q := x / size;
    assert x + size == size * (q + 1);
    MultipleHasNoRest(q + 1, size);
  }

  lemma MultipleHasNoRest(q: nat, size: nat)
    requires size > 0
    ensures (size * q) % size == 0
  {
    var rest, quotient := (size * q) % size, (size * q) / size;
    assert size * q == size * quotient + rest;
    assert size * (q - quotient) == rest;
    if q > quotient {
      AtLeastOne(size, q - quotient);
    } else if q < quotient {
      AtLeastOne(size, quotient - q);
    }
  }

  lemma AtLeastOne(size: nat, k: nat)
    requires k >= 1
    ensures size * k >= size
  {
  }

  lemma {:induction false} TilesOnGrid(width: nat, height: nat, size: nat, x: nat, y: nat)
    requires size > 0 && x % size == 0 && y % size == 0
    ensures forall r <- Tiles(width, height, size, x, y) :: OnGrid(r, size, width, height)
    decreases height - y, width - x
  {
    NextMultiple(x, size);
    NextMultiple(y, size);
    if y < height {
      if x >= width {
        TilesOnGrid(width, height, size, 0, y + size);
      } else {
        TilesOnGrid(width, height, size, x + size, y);
      }
    }
  }

  lemma {:induction false} ChangedOnly(prev: Image, next: Image, tiles: seq<Rect>)
    ensures forall r <- Changed(prev, next, tiles) :: r in tiles && !RegionEqual(prev, next, r)
  {
    if tiles != [] {
      ChangedOnly(prev, next, tiles[1..]);
    }
  }

  lemma {:induction false} ChangedCover(prev: Image, next: Image, tiles: seq<Rect>, x: int, y: int)
    ensures Cover(Changed(prev, next, tiles), x, y) <= Cover(tiles, x, y)
  {
    if tiles != [] {
      ChangedCover(prev, next, tiles[1..], x, y);
      var changed := Changed(prev, next, tiles);
      if !RegionEqual(prev, next, tiles[0]) {
        assert changed[1..] == Changed(prev, next, tiles[1..]);
      }
    }
  }

  // A delta sends nothing twice and nothing that did not change: its rectangles are
  // tiles of the grid, 64 pixels wide unless another size is asked for, each holds
  // a pixel that differs, and no pixel is in two of them. It is refused exactly
  // when the dimensions differ.
  lemma DeltaIsMinimal(c: Codec, number: u64, prev: Image, next: Image, tileSize: int)
    ensures var delta, size := DeltaFrame(c, number, prev, next, tileSize), if tileSize <= 0 then 64 else tileSize;
      && (delta.Err? <==> prev.width != next.width || prev.height != next.height)
      && (delta.Ok? ==>
            && (forall r <- delta.value.0.rects :: OnGrid(r, size, next.width, next.height) && !RegionEqual(prev, next, r))
            && forall x, y :: 0 <= x < next.width && 0 <= y < next.height ==> Cover(delta.value.0.rects, x, y) <= 1)
  {
    var tiles := Tiles(next.width, next.height, TileSize(tileSize), 0, 0);
    TilesOnGrid(next.width, next.height, TileSize(tileSize), 0, 0);
    ChangedOnly(prev, next, tiles);
    forall x, y | 0 <= x < next.width && 0 <= y < next.height
      ensures Cover(Changed(prev, next, tiles), x, y) <= 1
    {
      TilesPartition(next.width, next.height, tileSize, x, y);
      ChangedCover(prev, next, tiles, x, y);
    }
  }

  // Rectangles a canvas accepts

  predicate Fits(c: Codec, frame: Frame, rect: Rect, payload: seq<byte>) {
    var tile := c.decode(payload);
    && tile.Some? && tile.value.width == rect.width && tile.value.height == rect.height
    && rect.x + rect.width <= frame.width && rect.y + rect.height <= frame.height
  }

  lemma {:induction false} PaintsIff(c: Codec, base: Image, frame: Frame, rects: seq<Rect>, payloads: seq<seq<byte>>)
    requires |rects| == |payloads|
    ensures PaintAll(c, base, frame, rects, payloads).1 == None <==> forall i :: 0 <= i < |rects| ==> Fits(c, frame, rects[i], payloads[i])
    decreases |rects|
  {
    if rects != [] {
      if Fits(c, frame, rects[0], payloads[0]) {
        PaintsIff(c, Paint(base, rects[0], c.decode(payloads[0]).value), frame, rects[1..], payloads[1..]);
        assert forall i :: 1 <= i < |rects| ==> rects[i] == rects[1..][i - 1] && payloads[i] == payloads[1..][i - 1];
        assert forall i :: 0 <= i < |rects| - 1 ==> rects[1..][i] == rects[i + 1] && payloads[1..][i] == payloads[i + 1];
      }
    }
  }

  // A frame is accepted exactly when it is a full one, or a delta for the canvas at
  // hand, with positive dimensions and as many payloads as rectangles, and every
  // payload is a picture of its rectangle within them.
  lemma AcceptedIff(c: Codec, base: Option<Image>, frame: Frame, payloads: seq<seq<byte>>)
    ensures Applied(c, base, frame, payloads).1 == None <==>
      && (frame.kind == Full || (frame.kind == Delta && base.Some? && base.value.width == frame.width && base.value.height == frame.height))
      && frame.width > 0 && frame.height > 0 && |frame.rects| == |payloads|
      && forall i :: 0 <= i < |payloads| ==> Fits(c, frame, frame.rects[i], payloads[i])
  {
    if frame.width > 0 && frame.height > 0 && |frame.rects| == |payloads| {
      if frame.kind == Full {
        PaintsIff(c, Blank(frame.width, frame.height), frame, frame.rects, payloads);
      } else if base.Some? {
        PaintsIff(c, base.value, frame, frame.rects, payloads);
      }
    }
  }

  // A frame refused before any rectangle leaves the canvas as it was, and the error
  // tells why.
  lemma RefusedUndrawn(c: Codec, base: Option<Image>, frame: Frame, payloads: seq<seq<byte>>)
    ensures var (canvas, error) := Applied(c, base, frame, payloads);
      var sound := frame.width > 0 && frame.height > 0 && |frame.rects| == |payloads|;
      var foreign := base.None? || base.value.width != frame.width || base.value.height != frame.height;
      && (frame.kind == Failure ==> canvas == base && error == Some(Remote(frame.error)))
      && (frame.kind.Other? ==> canvas == base && error == Some(UnsupportedFrame))
      && ((frame.kind == Full || frame.kind == Delta) && !sound ==> canvas == base && error == Some(InvalidFrame))
      && (frame.kind == Delta && sound && foreign ==> canvas == base && error == Some(DeltaBeforeFull))
  {
  }

  // A frame cut short

  lemma {:induction false} PayloadsCut(rects: seq<Rect>, payloads: seq<seq<byte>>, k: nat, total: nat)
    requires |rects| == |payloads| && k < |Concat(payloads)|
    requires forall i :: 0 <= i < |rects| ==> ValidRect(rects[i].(length := |payloads[i]|))
    requires total + PayloadSize(payloads) <= MAX_PAYLOAD_SIZE
    ensures Payloads(Sized(rects, payloads), Concat(payloads)[..k], total) == Err(EndOfStream)
    decreases |rects|
  {
    var sized, stream := Sized(rects, payloads), Concat(payloads)[..k];
    var first := |payloads[0]|;
    assert sized[0] == rects[0].(length := first);
    if k >= first {
      assert sized[1..] == Sized(rects[1..], payloads[1..]);
      assert stream[first..] == Concat(payloads[1..])[..k - first];
      PayloadsCut(rects[1..], payloads[1..], k - first, total + first);
    }
  }

  lemma CutParts(head: seq<byte>, metadata: seq<byte>, body: seq<byte>, k: nat)
    requires |head| <= k <= |head + metadata + body|
    ensures var stream, end := (head + metadata + body)[..k], |head| + |metadata|;
      && stream[..|head|] == head
      && (k >= end ==> stream[|head|..end] == metadata && stream[end..] == body[..k - end])
  {
  }

  // A frame that reads back when whole is never taken for a frame when any of its
  // last bytes are missing: the reader reports the end of the stream.
  lemma CutFrameIsNoFrame(c: Codec, frame: Frame, payloads: seq<seq<byte>>, k: nat)
    requires Lossless(c) && Written(c, frame, payloads).Ok? && Sendable(frame.(rects := Sized(frame.rects, payloads)))
    requires Readable(frame.rects, payloads) && k < |Written(c, frame, payloads).value|
    ensures Parsed(c, Written(c, frame, payloads).value[..k]) == Err(EndOfStream)
  {
    var sized := frame.(rects := Sized(frame.rects, payloads));
    var metadata := c.marshal(sized);
    SizeFits(|metadata|);
    GetPut(|metadata|, 4);
    assert metadata != [];
    if k >= 4 {
      CutParts(Put(|metadata|, 4), metadata, Concat(payloads), k);
      if k >= 4 + |metadata| {
        assert c.unmarshal(metadata) == Some(sized);
        PayloadsCut(frame.rects, payloads, k - 4 - |metadata|, 0);
      }
    }
  }
}
