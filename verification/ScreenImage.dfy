// Screen images, the frames that carry them, and the picture and metadata codecs
// as a pair of lossless conversions. A picture is read as blank outside its bounds,
// which is how drawing clips.
module ScreenImage {
  import opened Prelude

  datatype Pixel = Pixel(red: byte, green: byte, blue: byte, alpha: byte)

  const BLANK: Pixel := Pixel(0, 0, 0, 0)

  datatype Raster = Raster(width: nat, height: nat, rows: seq<seq<Pixel>>)

  type Image = r: Raster | |r.rows| == r.height && forall y :: 0 <= y < r.height ==> |r.rows[y]| == r.width
    witness Raster(0, 0, [])

  datatype Rect = Rect(x: int, y: int, width: int, height: int, length: int)

  datatype Kind = Full | Delta | Failure | Other(text: string)

  datatype Frame = Frame(kind: Kind, number: u64, width: int, height: int, rects: seq<Rect>, error: string)

  datatype Error =
    | EmptyPicture
    | DimensionsChanged
    | Remote(text: string)
    | UnsupportedFrame
    | InvalidFrame
    | DeltaBeforeFull
    | BadPicture
    | RectangleMismatch
    | CountsDiffer
    | MetadataTooLarge
    | EndOfStream
    | InvalidMetadataSize
    | BadMetadata
    | InvalidRectangle
    | PayloadTooLarge
    | Stopped

  // The picture codec and the metadata codec.
  datatype Codec = Codec(encode: Image -> seq<byte>, decode: seq<byte> -> Option<Image>,
                         marshal: Frame -> seq<byte>, unmarshal: seq<byte> -> Option<Frame>)

  const MAX_SIDE: int := 0x4000_0000
  const MAX_INT: int := 0x7fff_ffff_ffff_ffff

  predicate Drawable(img: Image) {
    img.width > 0 && img.height > 0
  }

  // What is captured: opaque, and of a size that the picture format can describe.
  ghost predicate Capture(img: Image) {
    && img.width < MAX_SIDE && img.height < MAX_SIDE
    && forall x, y :: InBounds(img, x, y) ==> At(img, x, y).alpha == 255
  }

  predicate IsInt(n: int) {
    -MAX_INT - 1 <= n <= MAX_INT
  }

  // The frames the program makes: of its three kinds, with fields of 64 bits.
  predicate Sendable(f: Frame) {
    && !f.kind.Other? && IsInt(f.width) && IsInt(f.height)
    && forall r <- f.rects :: IsInt(r.x) && IsInt(r.y) && IsInt(r.width) && IsInt(r.height) && IsInt(r.length)
  }

  // The codecs are asked for no more than the program's own keep: pictures with
  // partly transparent pixels, and frames it never makes, may come back changed.
  ghost predicate Lossless(c: Codec) {
    && (forall img: Image :: Drawable(img) && Capture(img) ==>
          0 < |c.encode(img)| <= MAX_INT && c.decode(c.encode(img)) == Some(img))
    && (forall f: Frame :: Sendable(f) ==> c.marshal(f) != [] && c.unmarshal(c.marshal(f)) == Some(f))
  }

  predicate InBounds(img: Image, x: int, y: int) {
    0 <= x < img.width && 0 <= y < img.height
  }

  function At(img: Image, x: int, y: int): Pixel {
    if InBounds(img, x, y) then img.rows[y][x] else BLANK
  }

  predicate Inside(r: Rect, x: int, y: int) {
    r.x <= x < r.x + r.width && r.y <= y < r.y + r.height
  }

  function Render(width: nat, height: nat, shade: (int, int) -> Pixel): (img: Image)
    ensures img.width == width && img.height == height
    ensures forall x, y :: InBounds(img, x, y) ==> At(img, x, y) == shade(x, y)
  {
    Raster(width, height, seq(height, y => seq(width, x => shade(x, y))))
  }

  function Blank(width: nat, height: nat): (img: Image) {
    Render(width, height, (_, _) => BLANK)
  }

  // The pixels of a rectangle as an image of their own.
  function Crop(img: Image, r: Rect): (tile: Image)
    requires r.width >= 0 && r.height >= 0
  {
    Render(r.width, r.height, (x, y) => At(img, r.x + x, r.y + y))
  }

  // The image with a tile drawn over a rectangle.
  function Paint(base: Image, r: Rect, tile: Image): (img: Image) {
    Render(base.width, base.height, (x, y) => if Inside(r, x, y) then At(tile, x - r.x, y - r.y) else At(base, x, y))
  }

  lemma PaintAt(base: Image, r: Rect, tile: Image, x: int, y: int)
    requires InBounds(base, x, y)
    ensures At(Paint(base, r, tile), x, y) == if Inside(r, x, y) then At(tile, x - r.x, y - r.y) else At(base, x, y)
  {
  }

  lemma SameImage(a: Image, b: Image)
    requires a.width == b.width && a.height == b.height
    requires forall x, y :: InBounds(a, x, y) ==> At(a, x, y) == At(b, x, y)
    ensures a == b
  {
    forall y | 0 <= y < a.height
      ensures a.rows[y] == b.rows[y]
    {
      forall x | 0 <= x < a.width
        ensures a.rows[y][x] == b.rows[y][x]
      {
        assert At(a, x, y) == At(b, x, y);
      }
    }
  }

  // A piece of a capture is one.
  lemma CropIsCapture(img: Image, r: Rect)
    requires Capture(img) && r.x >= 0 && r.y >= 0 && r.width >= 0 && r.height >= 0
    requires r.x + r.width <= img.width && r.y + r.height <= img.height
    ensures Capture(Crop(img, r))
  {
    var tile := Crop(img, r);
    forall x, y | InBounds(tile, x, y)
      ensures At(tile, x, y).alpha == 255
    {
      assert InBounds(img, r.x + x, r.y + y);
    }
  }
}
