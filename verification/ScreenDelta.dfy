// Tiled screen deltas: which tiles the encoder visits, which it sends, and what
// the receiver's canvas becomes when it draws them.
module ScreenDelta {
  import opened Prelude
  import opened ScreenImage

  const DEFAULT_TILE_SIZE := 64

  // Tiles of a width by height image in the encoder's order, from one whose corner
  // is at (x, y).
  function Tiles(width: nat, height: nat, size: nat, x: nat, y: nat): (tiles: seq<Rect>)
    requires size > 0
    ensures forall r <- tiles :: Within(r, width, height)
    decreases height - y, width - x
  {
    if y >= height then []
    else if x >= width then Tiles(width, height, size, 0, y + size)
    else [Rect(x, y, Min(size, width - x), Min(size, height - y), 0)] + Tiles(width, height, size, x + size, y)
  }

  predicate Within(r: Rect, width: nat, height: nat) {
    r.x >= 0 && r.y >= 0 && r.width > 0 && r.height > 0 && r.x + r.width <= width && r.y + r.height <= height
  }

  ghost predicate RegionEqual(a: Image, b: Image, r: Rect) {
    forall x, y :: Inside(r, x, y) ==> At(a, x, y) == At(b, x, y)
  }

  // The tiles whose pixels differ.
  ghost function Changed(prev: Image, next: Image, tiles: seq<Rect>): (rects: seq<Rect>)
    ensures forall r <- rects :: r in tiles
  {
    if tiles == [] then []
    else if RegionEqual(prev, next, tiles[0]) then Changed(prev, next, tiles[1..])
    else [tiles[0]] + Changed(prev, next, tiles[1..])
  }

  function Pictures(c: Codec, img: Image, rects: seq<Rect>): (payloads: seq<seq<byte>>)
    requires forall r <- rects :: r.width > 0 && r.height > 0
    ensures |payloads| == |rects|
  {
    if rects == [] then []
    else Pictures(c, img, rects[..|rects| - 1]) + [c.encode(Crop(img, rects[|rects| - 1]))]
  }

  lemma PictureAt(c: Codec, img: Image, rects: seq<Rect>, i: nat)
    requires i < |rects| && forall r <- rects :: r.width > 0 && r.height > 0
    ensures Pictures(c, img, rects)[i] == c.encode(Crop(img, rects[i]))
  {
    if i < |rects| - 1 {
      PictureAt(c, img, rects[..|rects| - 1], i);
    }
  }

  lemma PicturesMore(c: Codec, img: Image, rects: seq<Rect>, r: Rect)
    requires forall q <- rects + [r] :: q.width > 0 && q.height > 0
    ensures Pictures(c, img, rects + [r]) == Pictures(c, img, rects) + [c.encode(Crop(img, r))]
  {
    assert (rects + [r])[..|rects|] == rects;
  }

  function TileSize(requested: int): (size: nat)
    ensures size > 0
  {
    if requested <= 0 then DEFAULT_TILE_SIZE else requested
  }

  // The changed tiles from the one at (x, y) on.
  ghost function ChangedFrom(prev: Image, next: Image, size: nat, x: nat, y: nat): (rects: seq<Rect>)
    requires size > 0
    ensures forall r <- rects :: Within(r, next.width, next.height)
  {
    Changed(prev, next, Tiles(next.width, next.height, size, x, y))
  }

  ghost function DeltaRects(prev: Image, next: Image, tileSize: int): (rects: seq<Rect>)
    ensures forall r <- rects :: Within(r, next.width, next.height)
  {
    ChangedFrom(prev, next, TileSize(tileSize), 0, 0)
  }

  function TileAt(img: Image, size: nat, x: nat, y: nat): Rect {
    Rect(x, y, Min(size, img.width - x), Min(size, img.height - y), 0)
  }

  lemma ChangedStep(prev: Image, next: Image, size: nat, x: nat, y: nat)
    requires size > 0 && x < next.width && y < next.height
    ensures var tile := TileAt(next, size, x, y);
      ChangedFrom(prev, next, size, x, y) ==
        (if RegionEqual(prev, next, tile) then [] else [tile]) + ChangedFrom(prev, next, size, x + size, y)
  {
    var tile, rest := TileAt(next, size, x, y), Tiles(next.width, next.height, size, x + size, y);
    assert Tiles(next.width, next.height, size, x, y) == [tile] + rest;
    assert ([tile] + rest)[1..] == rest;
  }

  lemma ChangedRow(prev: Image, next: Image, size: nat, x: nat, y: nat)
    requires size > 0 && x >= next.width && y < next.height
    ensures ChangedFrom(prev, next, size, x, y) == ChangedFrom(prev, next, size, 0, y + size)
  {
  }

  lemma ChangedEnd(prev: Image, next: Image, size: nat, x: nat, y: nat)
    requires size > 0 && y >= next.height
    ensures ChangedFrom(prev, next, size, x, y) == []
  {
  }

  // The sending side

  method RgbaRegionEqual(left: Image, right: Image, rect: Rect) returns (same: bool)
    requires left.width == right.width && left.height == right.height
    requires Within(rect, left.width, left.height)
    ensures same <==> RegionEqual(left, right, rect)
  {
    var y := rect.y;
    while y < rect.y + rect.height
      invariant rect.y <= y <= rect.y + rect.height
      invariant forall i, j :: Inside(rect, i, j) && j < y ==> At(left, i, j) == At(right, i, j)
    {
      var a := left.rows[y][rect.x..rect.x + rect.width];
      var b := right.rows[y][rect.x..rect.x + rect.width];
      if a != b {
        ghost var k :| 0 <= k < rect.width && a[k] != b[k];
        assert At(left, rect.x + k, y) != At(right, rect.x + k, y);
        assert Inside(rect, rect.x + k, y);
        return false;
      }
      forall i, j | Inside(rect, i, j) && j < y + 1
        ensures At(left, i, j) == At(right, i, j)
      {
        if j == y {
          assert a[i - rect.x] == b[i - rect.x];
        }
      }
      y := y + 1;
    }
    return true;
  }

  method EncodeFull(c: Codec, number: u64, source: Image) returns (r: Result<(Frame, seq<seq<byte>>), Error>)
    ensures r == FullFrame(c, number, source)
  {
    if !Drawable(source) {
      return Err(EmptyPicture);
    }
    var payload := c.encode(source);
    var rect := Rect(0, 0, source.width, source.height, 0);
    r := Ok((Frame(Full, number, source.width, source.height, [rect], ""), [payload]));
  }

  ghost function FullFrame(c: Codec, number: u64, source: Image): Result<(Frame, seq<seq<byte>>), Error> {
    if !Drawable(source) then Err(EmptyPicture)
    else Ok((Frame(Full, number, source.width, source.height, [Rect(0, 0, source.width, source.height, 0)], ""), [c.encode(source)]))
  }

  ghost function DeltaFrame(c: Codec, number: u64, prev: Image, next: Image, tileSize: int): Result<(Frame, seq<seq<byte>>), Error> {
    if prev.width != next.width || prev.height != next.height then Err(DimensionsChanged)
    else
      var rects := DeltaRects(prev, next, tileSize);
      Ok((Frame(Delta, number, next.width, next.height, rects, ""), Pictures(c, next, rects)))
  }

  // What the encoder has gathered when it comes to the tile at (x, y).
  ghost predicate Encoded(c: Codec, prev: Image, next: Image, size: nat, x: nat, y: nat, rects: seq<Rect>, payloads: seq<seq<byte>>)
    requires size > 0
  {
    && rects + ChangedFrom(prev, next, size, x, y) == ChangedFrom(prev, next, size, 0, 0)
    && (forall r <- rects :: Within(r, next.width, next.height))
    && payloads == Pictures(c, next, rects)
  }

  lemma Joined(a: seq<Rect>, b: seq<Rect>, rest: seq<Rect>)
    ensures a + (b + rest) == (a + b) + rest
    ensures a + ([] + rest) == a + rest
  {
  }

  lemma EncodedStep(c: Codec, prev: Image, next: Image, size: nat, x: nat, y: nat, rects: seq<Rect>, payloads: seq<seq<byte>>)
    requires size > 0 && x < next.width && y < next.height && Encoded(c, prev, next, size, x, y, rects, payloads)
    ensures var r := TileAt(next, size, x, y);
      if RegionEqual(prev, next, r) then Encoded(c, prev, next, size, x + size, y, rects, payloads)
      else Encoded(c, prev, next, size, x + size, y, rects + [r], payloads + [c.encode(Crop(next, r))])
  {
    var r, rest := TileAt(next, size, x, y), ChangedFrom(prev, next, size, x + size, y);
    ChangedStep(prev, next, size, x, y);
    if RegionEqual(prev, next, r) {
      Joined(rects, [], rest);
    } else {
      Joined(rects, [r], rest);
      PicturesMore(c, next, rects, r);
    }
  }

  lemma EncodedRow(c: Codec, prev: Image, next: Image, size: nat, x: nat, y: nat, rects: seq<Rect>, payloads: seq<seq<byte>>)
    requires size > 0 && x >= next.width && y < next.height && Encoded(c, prev, next, size, x, y, rects, payloads)
    ensures Encoded(c, prev, next, size, 0, y + size, rects, payloads)
  {
    ChangedRow(prev, next, size, x, y);
  }

  lemma EncodedEnd(c: Codec, prev: Image, next: Image, tileSize: int, x: nat, y: nat, rects: seq<Rect>, payloads: seq<seq<byte>>)
    requires prev.width == next.width && prev.height == next.height
    requires y >= next.height && Encoded(c, prev, next, TileSize(tileSize), x, y, rects, payloads)
    ensures forall number: u64 ::
      DeltaFrame(c, number, prev, next, tileSize) == Ok((Frame(Delta, number, next.width, next.height, rects, ""), payloads))
  {
    ChangedEnd(prev, next, TileSize(tileSize), x, y);
    assert rects == DeltaRects(prev, next, tileSize);
  }

  method EncodeDelta(c: Codec, number: u64, prev: Image, next: Image, tileSize: int)
    returns (r: Result<(Frame, seq<seq<byte>>), Error>)
    ensures r == DeltaFrame(c, number, prev, next, tileSize)
    ensures r.Err? <==> prev.width != next.width || prev.height != next.height
  {
    var size := TileSize(tileSize);
    if prev.width != next.width || prev.height != next.height {
      return Err(DimensionsChanged);
    }
    var rects, payloads := [], [];
    var y := 0;
    while y < next.height
      invariant y >= 0 && Encoded(c, prev, next, size, 0, y, rects, payloads)
    {
      var x := 0;
      while x < next.width
        invariant x >= 0 && Encoded(c, prev, next, size, x, y, rects, payloads)
      {
        var rect := TileAt(next, size, x, y);
        EncodedStep(c, prev, next, size, x, y, rects, payloads);
        var same := RgbaRegionEqual(prev, next, rect);
        if !same {
          payloads := payloads + [c.encode(Crop(next, rect))];
          rects := rects + [rect];
        }
        x := x + size;
      }
      EncodedRow(c, prev, next, size, x, y, rects, payloads);
      y := y + size;
    }
    EncodedEnd(c, prev, next, tileSize, 0, y, rects, payloads);
    r := Ok((Frame(Delta, number, next.width, next.height, rects, ""), payloads));
  }

  // The receiving side

  function PaintAll(c: Codec, base: Image, frame: Frame, rects: seq<Rect>, payloads: seq<seq<byte>>): (r: (Image, Option<Error>))
    requires |rects| == |payloads|
    decreases |rects|
  {
    if rects == [] then (base, None)
    else
      match c.decode(payloads[0])
      case None => (base, Some(BadPicture))
      case Some(tile) =>
        if tile.width != rects[0].width || tile.height != rects[0].height
           || rects[0].x + rects[0].width > frame.width || rects[0].y + rects[0].height > frame.height
        then (base, Some(RectangleMismatch))
        else PaintAll(c, Paint(base, rects[0], tile), frame, rects[1..], payloads[1..])
  }

  // The canvas after a frame, and the error if it is refused. A refused rectangle
  // leaves the ones before it drawn.
  function Applied(c: Codec, base: Option<Image>, frame: Frame, payloads: seq<seq<byte>>): (Option<Image>, Option<Error>) {
    if frame.kind == Failure then (base, Some(Remote(frame.error)))
    else if frame.kind != Full && frame.kind != Delta then (base, Some(UnsupportedFrame))
    else if frame.width <= 0 || frame.height <= 0 || |frame.rects| != |payloads| then (base, Some(InvalidFrame))
    else if frame.kind == Full then
      var r := PaintAll(c, Blank(frame.width, frame.height), frame, frame.rects, payloads);
      (Some(r.0), r.1)
    else if base.None? || base.value.width != frame.width || base.value.height != frame.height then (base, Some(DeltaBeforeFull))
    else
      var r := PaintAll(c, base.value, frame, frame.rects, payloads);
      (Some(r.0), r.1)
  }

  // What a canvas shows; its first index is the row.
  function Picture(a: array2<Pixel>): (img: Image)
    reads a
  {
    Raster(a.Length1, a.Length0, seq(a.Length0, y requires 0 <= y < a.Length0 reads a => seq(a.Length1, x requires 0 <= x < a.Length1 reads a => a[y, x])))
  }

  function View(a: array2?<Pixel>): Option<Image>
    reads if a == null then {} else {a}
  {
    if a == null then None else Some(Picture(a))
  }

  method Draw(canvas: array2<Pixel>, rect: Rect, tile: Image)
    modifies canvas
    ensures Picture(canvas) == Paint(old(Picture(canvas)), rect, tile)
  {
    forall y, x | 0 <= y < canvas.Length0 && 0 <= x < canvas.Length1 && Inside(rect, x, y) {
      canvas[y, x] := At(tile, x - rect.x, y - rect.y);
    }
    ghost var before := old(Picture(canvas));
    forall x, y | InBounds(before, x, y)
      ensures At(Picture(canvas), x, y) == At(Paint(before, rect, tile), x, y)
    {
      PaintAt(before, rect, tile, x, y);
      assert At(before, x, y) == old(canvas[y, x]);
    }
    SameImage(Picture(canvas), Paint(before, rect, tile));
  }

  method ApplyFrame(c: Codec, base: array2?<Pixel>, frame: Frame, payloads: seq<seq<byte>>)
    returns (canvas: array2?<Pixel>, error: Option<Error>)
    modifies if base == null then {} else {base}
    ensures canvas == base || fresh(canvas)
    ensures (View(canvas), error) == Applied(c, old(View(base)), frame, payloads)
  {
    canvas := base;
    if frame.kind == Failure {
      return canvas, Some(Remote(frame.error));
    }
    if frame.kind != Full && frame.kind != Delta {
      return canvas, Some(UnsupportedFrame);
    }
    if frame.width <= 0 || frame.height <= 0 || |frame.rects| != |payloads| {
      return canvas, Some(InvalidFrame);
    }
    if frame.kind == Full || canvas == null || canvas.Length1 != frame.width || canvas.Length0 != frame.height {
      if frame.kind != Full {
        return canvas, Some(DeltaBeforeFull);
      }
      canvas := new Pixel[frame.height, frame.width]((_, _) => BLANK);
      SameImage(Picture(canvas), Blank(frame.width, frame.height));
    }
    ghost var start := Picture(canvas);
    var index := 0;
    while index < |frame.rects|
      invariant 0 <= index <= |frame.rects|
      invariant canvas == base || fresh(canvas)
      invariant PaintAll(c, start, frame, frame.rects, payloads)
             == PaintAll(c, Picture(canvas), frame, frame.rects[index..], payloads[index..])
    {
      var rect := frame.rects[index];
      var decoded := c.decode(payloads[index]);
      if decoded.None? {
        return canvas, Some(BadPicture);
      }
      var tile := decoded.value;
      if tile.width != rect.width || tile.height != rect.height || rect.x + rect.width > frame.width || rect.y + rect.height > frame.height {
        return canvas, Some(RectangleMismatch);
      }
      assert frame.rects[index..][1..] == frame.rects[index + 1..];
      assert payloads[index..][1..] == payloads[index + 1..];
      Draw(canvas, rect, tile);
      index := index + 1;
    }
    error := None;
  }

  // Tiles partition the image

  // How many tiles hold a pixel.
  function Cover(tiles: seq<Rect>, x: int, y: int): nat {
    if tiles == [] then 0 else (if Inside(tiles[0], x, y) then 1 else 0) + Cover(tiles[1..], x, y)
  }

  lemma {:induction false} TilesCover(width: nat, height: nat, size: nat, x: nat, y: nat, px: int, py: int)
    requires size > 0 && 0 <= px < width && 0 <= py < height
    ensures Cover(Tiles(width, height, size, x, y), px, py) ==
            if py >= y + size || (py >= y && px >= x) then 1 else 0
    decreases height - y, width - x
  {
    if y < height {
      if x >= width {
        TilesCover(width, height, size, 0, y + size, px, py);
      } else {
        TilesCover(width, height, size, x + size, y, px, py);
        var rest := Tiles(width, height, size, x + size, y);
        var tiles := Tiles(width, height, size, x, y);
        assert tiles[1..] == rest;
      }
    }
  }

  // Every pixel of an image is in exactly one tile, and no tile reaches outside.
  lemma TilesPartition(width: nat, height: nat, tileSize: int, x: int, y: int)
    requires 0 <= x < width && 0 <= y < height
    ensures var tiles := Tiles(width, height, TileSize(tileSize), 0, 0);
      Cover(tiles, x, y) == 1 && forall r <- tiles :: Within(r, width, height)
  {
    TilesCover(width, height, TileSize(tileSize), 0, 0, x, y);
  }

  // A delta rebuilds the image

  ghost predicate Touched(rects: seq<Rect>, x: int, y: int) {
    exists r <- rects :: Inside(r, x, y)
  }

  // Drawing one rectangle of an image, encoded and decoded, shows that image there.
  lemma PaintCrop(base: Image, next: Image, r: Rect, x: int, y: int)
    requires base.width == next.width && base.height == next.height
    requires Within(r, next.width, next.height) && InBounds(next, x, y)
    ensures At(Paint(base, r, Crop(next, r)), x, y) == if Inside(r, x, y) then At(next, x, y) else At(base, x, y)
  {
    PaintAt(base, r, Crop(next, r), x, y);
    if Inside(r, x, y) {
      assert InBounds(Crop(next, r), x - r.x, y - r.y);
      assert At(Crop(next, r), x - r.x, y - r.y) == At(next, r.x + (x - r.x), r.y + (y - r.y));
    }
  }

  lemma TouchedHead(rects: seq<Rect>, x: int, y: int)
    requires rects != []
    ensures Touched(rects, x, y) <==> Inside(rects[0], x, y) || Touched(rects[1..], x, y)
  {
    assert rects == [rects[0]] + rects[1..];
  }

  lemma PictureSurvives(c: Codec, img: Image, r: Rect)
    requires Lossless(c) && Capture(img) && Within(r, img.width, img.height)
    ensures c.decode(c.encode(Crop(img, r))) == Some(Crop(img, r))
    ensures Crop(img, r).width == r.width && Crop(img, r).height == r.height
  {
    CropIsCapture(img, r);
    assert Drawable(Crop(img, r));
  }

  lemma {:induction false} PaintAllAt(c: Codec, base: Image, next: Image, frame: Frame, rects: seq<Rect>, payloads: seq<seq<byte>>)
    requires Lossless(c) && Capture(next) && |payloads| == |rects|
    requires base.width == next.width == frame.width && base.height == next.height == frame.height
    requires forall i :: 0 <= i < |rects| ==> Within(rects[i], next.width, next.height) && payloads[i] == c.encode(Crop(next, rects[i]))
    ensures var r := PaintAll(c, base, frame, rects, payloads);
      && r.1 == None && r.0.width == next.width && r.0.height == next.height
      && forall x, y :: InBounds(next, x, y) ==> At(r.0, x, y) == if Touched(rects, x, y) then At(next, x, y) else At(base, x, y)
    decreases |rects|
  {
    if rects != [] {
      var tile := Crop(next, rects[0]);
      PictureSurvives(c, next, rects[0]);
      var base' := Paint(base, rects[0], tile);
      PaintAllAt(c, base', next, frame, rects[1..], payloads[1..]);
      var img := PaintAll(c, base', frame, rects[1..], payloads[1..]).0;
      forall x, y | InBounds(next, x, y)
        ensures At(img, x, y) == if Touched(rects, x, y) then At(next, x, y) else At(base, x, y)
      {
        PaintCrop(base, next, rects[0], x, y);
        TouchedHead(rects, x, y);
      }
    }
  }

  // A pixel of a visited tile that is not drawn is a pixel that did not change.
  lemma {:induction false} UntouchedIsEqual(prev: Image, next: Image, tiles: seq<Rect>, x: int, y: int)
    requires Cover(tiles, x, y) > 0 && !Touched(Changed(prev, next, tiles), x, y)
    ensures At(prev, x, y) == At(next, x, y)
  {
    var changed := Changed(prev, next, tiles);
    if !RegionEqual(prev, next, tiles[0]) {
      assert changed[0] == tiles[0] && changed[1..] == Changed(prev, next, tiles[1..]);
      assert forall r <- changed[1..] :: r in changed;
      assert tiles[0] in changed;
    }
    if !Inside(tiles[0], x, y) || !RegionEqual(prev, next, tiles[0]) {
      UntouchedIsEqual(prev, next, tiles[1..], x, y);
    }
  }

  lemma DeltaPaints(c: Codec, prev: Image, next: Image, frame: Frame, tileSize: int)
    requires Lossless(c) && Capture(next) && prev.width == next.width == frame.width && prev.height == next.height == frame.height
    ensures var rects := DeltaRects(prev, next, tileSize);
      PaintAll(c, prev, frame, rects, Pictures(c, next, rects)) == (next, None)
  {
    var rects := DeltaRects(prev, next, tileSize);
    var img := PaintAll(c, prev, frame, rects, Pictures(c, next, rects)).0;
    forall i | 0 <= i < |rects|
      ensures Pictures(c, next, rects)[i] == c.encode(Crop(next, rects[i]))
    {
      PictureAt(c, next, rects, i);
    }
    PaintAllAt(c, prev, next, frame, rects, Pictures(c, next, rects));
    forall x, y | InBounds(next, x, y)
      ensures At(img, x, y) == At(next, x, y)
    {
      TilesPartition(next.width, next.height, tileSize, x, y);
      if !Touched(rects, x, y) {
        UntouchedIsEqual(prev, next, Tiles(next.width, next.height, TileSize(tileSize), 0, 0), x, y);
      }
    }
    SameImage(img, next);
  }

  // Applying a delta to the previous image yields the next one, whatever the tile
  // size and however much changed; only an image without pixels is refused.
  lemma DeltaRebuilds(c: Codec, number: u64, prev: Image, next: Image, tileSize: int)
    requires Lossless(c) && Capture(next) && prev.width == next.width && prev.height == next.height
    ensures var delta := DeltaFrame(c, number, prev, next, tileSize);
      && delta.Ok?
      && (Applied(c, Some(prev), delta.value.0, delta.value.1) == (Some(next), None) <==> Drawable(next))
  {
    var frame := DeltaFrame(c, number, prev, next, tileSize).value.0;
    if Drawable(next) {
      DeltaPaints(c, prev, next, frame, tileSize);
    }
  }

  // A full frame shows its image whatever the canvas held before.
  lemma FullRebuilds(c: Codec, number: u64, base: Option<Image>, source: Image)
    requires Lossless(c) && Capture(source) && Drawable(source)
    ensures var full := FullFrame(c, number, source);
      full.Ok? && Applied(c, base, full.value.0, full.value.1) == (Some(source), None)
  {
    var frame, payloads := FullFrame(c, number, source).value.0, FullFrame(c, number, source).value.1;
    var rect, blank := frame.rects[0], Blank(source.width, source.height);
    SameImage(Crop(source, rect), source);
    PaintAllAt(c, blank, source, frame, frame.rects, payloads);
    var img := PaintAll(c, blank, frame, frame.rects, payloads).0;
    forall x, y | InBounds(source, x, y)
      ensures At(img, x, y) == At(source, x, y)
    {
      assert Inside(rect, x, y) && rect in frame.rects;
    }
    SameImage(img, source);
  }
}
