/**
 * RGBA images as the `image` crate's `RgbaImage` holds them: `height` rows
 * of `width` pixels, top row first, each pixel four channel bytes. The raw
 * byte layout (`as_raw`, `ImageBuffer::from_raw`), the freshly allocated
 * all-zero buffer (`ImageBuffer::new`), cropping a region into such a
 * buffer and pasting a block with `put_pixel` are the pieces of the crate
 * the frame code relies on.
 */
module Image {
  import opened Text

  datatype Pixel = Pixel(r: Byte, g: Byte, b: Byte, a: Byte)

  /** The pixel value of a freshly allocated buffer. */
  const Zero: Pixel := Pixel(0, 0, 0, 0)

  datatype RgbaImage = RgbaImage(width: nat, height: nat, rows: seq<seq<Pixel>>)

  /** `height` rows of exactly `width` pixels each. */
  predicate WellFormed(img: RgbaImage)
  {
    |img.rows| == img.height && forall j :: 0 <= j < |img.rows| ==> |img.rows[j]| == img.width
  }

  /** The images a decoder of the crate hands back: always well-formed buffers. */
  type Frame = img: RgbaImage | WellFormed(img) witness RgbaImage(0, 0, [])

  /** The crate's JPEG encoder: width, height, RGB bytes and quality to the encoded bytes. */
  type JpegEncoder = (nat, nat, seq<Byte>, nat) -> Result<seq<Byte>>

  /** The crate's JPEG decoder (`load_from_memory_with_format` then `to_rgba8`). */
  type FrameDecoder = seq<Byte> -> Result<Frame>

  predicate SameDimensions(a: RgbaImage, b: RgbaImage)
  { a.width == b.width && a.height == b.height }

  /** ImageBuffer::new: a w×h image of zero pixels. */
  function Blank(w: nat, h: nat): (img: RgbaImage)
    ensures WellFormed(img) && img.width == w && img.height == h
    ensures forall j, i :: 0 <= j < h && 0 <= i < w ==> img.rows[j][i] == Zero
  {
    RgbaImage(w, h, seq(h, _ => seq(w, _ => Zero)))
  }

  // ----------------------------------------------------------- row-major pixels and raw bytes

  /** The rows laid end to end. */
  function Concat(rows: seq<seq<Pixel>>): seq<Pixel>
  {
    if rows == [] then [] else rows[0] + Concat(rows[1..])
  }

  /** The pixels in row-major order, as `pixels()` visits them. */
  function Pixels(img: RgbaImage): seq<Pixel>
  { Concat(img.rows) }

  lemma {:induction false} ConcatLength(rows: seq<seq<Pixel>>, w: nat)
    requires forall j :: 0 <= j < |rows| ==> |rows[j]| == w
    ensures |Concat(rows)| == |rows| * w
  {
    if rows != [] {
      ConcatLength(rows[1..], w);
      assert |rows| * w == (|rows| - 1) * w + w;
    }
  }

  /** A well-formed image has width·height pixels. */
  lemma PixelCount(img: RgbaImage)
    requires WellFormed(img)
    ensures |Pixels(img)| == img.width * img.height
  {
    ConcatLength(img.rows, img.width);
  }

  function PixelBytes(p: Pixel): seq<Byte>
  { [p.r, p.g, p.b, p.a] }

  /** Four bytes per pixel, R, G, B, A. */
  function BytesOf(ps: seq<Pixel>): (bs: seq<Byte>)
    ensures |bs| == 4 * |ps|
  {
    if ps == [] then [] else PixelBytes(ps[0]) + BytesOf(ps[1..])
  }

  /** Groups of four bytes read back as pixels. */
  function PixelsOf(bs: seq<Byte>): (ps: seq<Pixel>)
    requires |bs| % 4 == 0
    ensures 4 * |ps| == |bs|
  {
    if bs == [] then [] else [Pixel(bs[0], bs[1], bs[2], bs[3])] + PixelsOf(bs[4..])
  }

  /** Cut a row-major pixel sequence into h rows of w. */
  function RowsOf(ps: seq<Pixel>, w: nat, h: nat): (rows: seq<seq<Pixel>>)
    requires |ps| == w * h
    ensures |rows| == h && forall j :: 0 <= j < h ==> |rows[j]| == w
  {
    if h == 0 then []
    else
      assert w * h == w * (h - 1) + w;
      [ps[..w]] + RowsOf(ps[w..], w, h - 1)
  }

  /** as_raw: the channel bytes of every pixel, row by row. */
  function RawBytes(img: RgbaImage): seq<Byte>
  { BytesOf(Pixels(img)) }

  /**
   * ImageBuffer::from_raw: a w×h image from the first 4·w·h bytes; None
   * when the buffer is shorter than that.
   */
  function FromRaw(w: nat, h: nat, data: seq<Byte>): (r: Option<RgbaImage>)
    ensures r.Some? <==> |data| >= 4 * (w * h)
    ensures r.Some? ==> WellFormed(r.value) && r.value.width == w && r.value.height == h
  {
    if |data| < 4 * (w * h) then None
    else Some(RgbaImage(w, h, RowsOf(PixelsOf(data[..4 * (w * h)]), w, h)))
  }

  lemma {:induction false} PixelsOfBytesOf(ps: seq<Pixel>)
    ensures PixelsOf(BytesOf(ps)) == ps
  {
    if ps != [] {
      var bs := BytesOf(ps);
      assert bs[4..] == BytesOf(ps[1..]);
      PixelsOfBytesOf(ps[1..]);
    }
  }

  lemma {:induction false} BytesOfPixelsOf(bs: seq<Byte>)
    requires |bs| % 4 == 0
    ensures BytesOf(PixelsOf(bs)) == bs
  {
    if bs != [] {
      var ps := PixelsOf(bs);
      assert ps[1..] == PixelsOf(bs[4..]);
      BytesOfPixelsOf(bs[4..]);
    }
  }

  lemma {:induction false} RowsOfConcat(rows: seq<seq<Pixel>>, w: nat)
    requires forall j :: 0 <= j < |rows| ==> |rows[j]| == w
    ensures |Concat(rows)| == w * |rows|
    ensures RowsOf(Concat(rows), w, |rows|) == rows
  {
    ConcatLength(rows, w);
    if rows != [] {
      var c := Concat(rows);
      assert c[..w] == rows[0];
      assert c[w..] == Concat(rows[1..]);
      RowsOfConcat(rows[1..], w);
    }
  }

  lemma {:induction false} ConcatRowsOf(ps: seq<Pixel>, w: nat, h: nat)
    requires |ps| == w * h
    ensures Concat(RowsOf(ps, w, h)) == ps
  {
    if h > 0 {
      assert w * h == w * (h - 1) + w;
      var rows := RowsOf(ps, w, h);
      assert rows[1..] == RowsOf(ps[w..], w, h - 1);
      ConcatRowsOf(ps[w..], w, h - 1);
    }
  }

  /** Reading back the raw bytes of a well-formed image gives the image. */
  lemma FromRawOfRaw(img: RgbaImage)
    requires WellFormed(img)
    ensures |RawBytes(img)| == 4 * (img.width * img.height)
    ensures FromRaw(img.width, img.height, RawBytes(img)) == Some(img)
  {
    PixelCount(img);
    var bs := RawBytes(img);
    assert bs[..4 * (img.width * img.height)] == bs;
    PixelsOfBytesOf(Pixels(img));
    RowsOfConcat(img.rows, img.width);
  }

  /** An image built from raw bytes lays out exactly the bytes it consumed. */
  lemma RawOfFromRaw(w: nat, h: nat, data: seq<Byte>)
    requires FromRaw(w, h, data).Some?
    ensures RawBytes(FromRaw(w, h, data).value) == data[..4 * (w * h)]
  {
    var bs := data[..4 * (w * h)];
    ConcatRowsOf(PixelsOf(bs), w, h);
    BytesOfPixelsOf(bs);
  }

  // ----------------------------------------------------------- RGB bytes

  /** The R, G and B bytes of each pixel in turn, alpha dropped. */
  function RgbOf(ps: seq<Pixel>): (bs: seq<Byte>)
    ensures |bs| == 3 * |ps|
  {
    if ps == [] then [] else [ps[0].r, ps[0].g, ps[0].b] + RgbOf(ps[1..])
  }

  lemma {:induction false} RgbOfAppend(ps: seq<Pixel>, p: Pixel)
    ensures RgbOf(ps + [p]) == RgbOf(ps) + [p.r, p.g, p.b]
  {
    if ps != [] {
      assert (ps + [p])[1..] == ps[1..] + [p];
      RgbOfAppend(ps[1..], p);
    }
  }

  /** Bytes 3i, 3i+1 and 3i+2 are pixel i's red, green and blue. */
  lemma {:induction false} RgbLayout(ps: seq<Pixel>, i: nat)
    requires i < |ps|
    ensures RgbOf(ps)[3 * i] == ps[i].r && RgbOf(ps)[3 * i + 1] == ps[i].g && RgbOf(ps)[3 * i + 2] == ps[i].b
  {
    if i > 0 {
      RgbLayout(ps[1..], i - 1);
    }
  }

  // ----------------------------------------------------------- crop and paste

  /** The pixel copied to (i, j) of a crop at (x, y): the source pixel when inside, zero otherwise. */
  function CropPixel(img: RgbaImage, x: nat, y: nat, i: nat, j: nat): Pixel
    requires WellFormed(img)
  {
    if x + i < img.width && y + j < img.height then img.rows[y + j][x + i] else Zero
  }

  /** A w×h buffer filled from the source at offset (x, y), in-bounds pixels only. */
  function Crop(img: RgbaImage, x: nat, y: nat, w: nat, h: nat): (c: RgbaImage)
    requires WellFormed(img)
    ensures WellFormed(c) && c.width == w && c.height == h
  {
    RgbaImage(w, h, seq(h, j requires 0 <= j < h => seq(w, i requires 0 <= i < w => CropPixel(img, x, y, i, j))))
  }

  /** Each pixel of the crop is the source pixel at the offset, or zero past the source's edge. */
  lemma CropPixels(img: RgbaImage, x: nat, y: nat, w: nat, h: nat)
    requires WellFormed(img)
    ensures forall j, i :: 0 <= j < h && 0 <= i < w ==> Crop(img, x, y, w, h).rows[j][i] == CropPixel(img, x, y, i, j)
  {
  }

  /** The base pixel at (tx, ty) after pasting a block at (x, y). */
  function PastedPixel(base: RgbaImage, block: RgbaImage, x: nat, y: nat, tx: nat, ty: nat): Pixel
    requires WellFormed(base) && WellFormed(block) && tx < base.width && ty < base.height
  {
    if x <= tx < x + block.width && y <= ty < y + block.height then block.rows[ty - y][tx - x]
    else base.rows[ty][tx]
  }

  /** put_pixel of every block pixel whose target lies inside the base; the rest of the base is kept. */
  function Paste(base: RgbaImage, block: RgbaImage, x: nat, y: nat): (r: RgbaImage)
    requires WellFormed(base) && WellFormed(block)
    ensures WellFormed(r) && SameDimensions(r, base)
  {
    RgbaImage(base.width, base.height,
      seq(base.height, ty requires 0 <= ty < base.height =>
        seq(base.width, tx requires 0 <= tx < base.width => PastedPixel(base, block, x, y, tx, ty))))
  }

  /** Each pixel after pasting is the block's pixel inside the block and the base's elsewhere. */
  lemma PastePixels(base: RgbaImage, block: RgbaImage, x: nat, y: nat)
    requires WellFormed(base) && WellFormed(block)
    ensures forall ty, tx :: 0 <= ty < base.height && 0 <= tx < base.width ==>
      Paste(base, block, x, y).rows[ty][tx] == PastedPixel(base, block, x, y, tx, ty)
  {
  }

  /** Pixels outside the pasted block keep their value. */
  lemma PasteOutside(base: RgbaImage, block: RgbaImage, x: nat, y: nat, tx: nat, ty: nat)
    requires WellFormed(base) && WellFormed(block) && tx < base.width && ty < base.height
    requires tx < x || tx >= x + block.width || ty < y || ty >= y + block.height
    ensures Paste(base, block, x, y).rows[ty][tx] == base.rows[ty][tx]
  {
    PastePixels(base, block, x, y);
  }

  // ----------------------------------------------------------- the pixel loops

  /** put_pixel: the image with pixel (tx, ty) replaced. */
  function SetPixel(img: RgbaImage, tx: nat, ty: nat, p: Pixel): (r: RgbaImage)
    requires WellFormed(img) && tx < img.width && ty < img.height
    ensures WellFormed(r) && SameDimensions(r, img)
    ensures forall j, i :: 0 <= j < img.height && 0 <= i < img.width ==>
      r.rows[j][i] == if j == ty && i == tx then p else img.rows[j][i]
  {
    img.(rows := img.rows[ty := img.rows[ty][tx := p]])
  }

  /** Two well-formed images of the same size with the same pixels are equal. */
  lemma SamePixels(a: RgbaImage, b: RgbaImage)
    requires WellFormed(a) && WellFormed(b) && SameDimensions(a, b)
    requires forall j, i :: 0 <= j < a.height && 0 <= i < a.width ==> a.rows[j][i] == b.rows[j][i]
    ensures a == b
  {
    forall j | 0 <= j < a.height ensures a.rows[j] == b.rows[j] {
      assert forall i :: 0 <= i < a.width ==> a.rows[j][i] == b.rows[j][i];
    }
  }

  /**
   * The crop loop of the frame code: a fresh w×h buffer, then, pixel by
   * pixel in row-major order, the source pixel copied in wherever it exists.
   */
  method CropBlock(img: RgbaImage, x: nat, y: nat, w: nat, h: nat) returns (c: RgbaImage)
    requires WellFormed(img)
    ensures c == Crop(img, x, y, w, h)
  {
    c := Blank(w, h);
    var j := 0;
    while j < h
      invariant 0 <= j <= h
      invariant WellFormed(c) && c.width == w && c.height == h
      invariant forall jj, ii :: 0 <= jj < h && 0 <= ii < w ==>
        c.rows[jj][ii] == if jj < j then CropPixel(img, x, y, ii, jj) else Zero
    {
      var i := 0;
      while i < w
        invariant 0 <= i <= w
        invariant WellFormed(c) && c.width == w && c.height == h
        invariant forall jj, ii :: 0 <= jj < h && 0 <= ii < w ==>
          c.rows[jj][ii] == if jj < j || (jj == j && ii < i) then CropPixel(img, x, y, ii, jj) else Zero
      {
        if x + i < img.width && y + j < img.height {
          c := SetPixel(c, i, j, img.rows[y + j][x + i]);
        }
        i := i + 1;
      }
      j := j + 1;
    }
    CropPixels(img, x, y, w, h);
    SamePixels(c, Crop(img, x, y, w, h));
  }

  /**
   * The paste loop of the frame code: every pixel of the block, in
   * row-major order, is put at (x + i, y + j) when that lies inside the base.
   */
  method PasteBlock(base: RgbaImage, block: RgbaImage, x: nat, y: nat) returns (r: RgbaImage)
    requires WellFormed(base) && WellFormed(block)
    ensures r == Paste(base, block, x, y)
  {
    r := base;
    var j := 0;
    while j < block.height
      invariant 0 <= j <= block.height
      invariant WellFormed(r) && SameDimensions(r, base)
      invariant forall ty, tx :: 0 <= ty < base.height && 0 <= tx < base.width ==>
        r.rows[ty][tx] == if ty < y + j then PastedPixel(base, block, x, y, tx, ty) else base.rows[ty][tx]
    {
      var i := 0;
      while i < block.width
        invariant 0 <= i <= block.width
        invariant WellFormed(r) && SameDimensions(r, base)
        invariant forall ty, tx :: 0 <= ty < base.height && 0 <= tx < base.width ==>
          r.rows[ty][tx] ==
            if ty < y + j || (ty == y + j && tx < x + i) then PastedPixel(base, block, x, y, tx, ty) else base.rows[ty][tx]
      {
        if x + i < base.width && y + j < base.height {
          r := SetPixel(r, x + i, y + j, block.rows[j][i]);
        }
        i := i + 1;
      }
      j := j + 1;
    }
    PastePixels(base, block, x, y);
    SamePixels(r, Paste(base, block, x, y));
  }
}
