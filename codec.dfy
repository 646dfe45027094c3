/**
 * The video codec (`VideoCodec`): full-frame encoding in the configured
 * format, decoding, the raw format's byte layout, RGBA to RGB conversion
 * and the delta-frame decision over 16×16 blocks.
 *
 * JPEG and PNG come from the `image` crate and are parameters here:
 * functions from the image (or its RGB bytes) to a result. WebP falls
 * back to JPEG in both directions, as in the source.
 */
module Codec {
  import opened Text
  import opened Image
  import opened Tiling

  datatype CompressionFormat = Jpeg | Png | WebP | Raw

  /** The serde name of a format (lowercase). */
  function FormatName(f: CompressionFormat): string
  {
    match f
    case Jpeg => "jpeg"
    case Png => "png"
    case WebP => "webp"
    case Raw => "raw"
  }

  datatype CodecConfig = CodecConfig(format: CompressionFormat, quality: nat, enableDeltaCompression: bool,
                                     maxFrameSize: nat)

  const DefaultConfig: CodecConfig := CodecConfig(Jpeg, 80, true, 5 * 1024 * 1024)

  /** `compressionRatio` is None where the source divides by an empty encoding. */
  datatype FrameInfo = FrameInfo(width: nat, height: nat, format: CompressionFormat, quality: nat, size: nat,
                                 compressionRatio: Option<real>)

  datatype CodecStats = CodecStats(framesEncoded: nat, currentFormat: CompressionFormat, currentQuality: nat,
                                   deltaCompressionEnabled: bool)

  type PngEncoder = RgbaImage -> Result<seq<Byte>>
  type Decoder = seq<Byte> -> Result<RgbaImage>

  datatype Encoders = Encoders(jpeg: JpegEncoder, png: PngEncoder)
  datatype Decoders = Decoders(jpeg: Decoder, png: Decoder)

  const BlockSize: nat := 16

  /** block_differs: a pixel changed when its channel sum exceeds 30; a block when over 10% of it did. */
  const BlockDetector: Detector := Detector(SumAbove(30), PercentAbove(10))

  /** block_differs as written: the channel sum is cast to u8 before the comparison. */
  const BlockDetectorAsWritten: Detector := Detector(WrappedSumAbove(30), PercentAbove(10))

  // ----------------------------------------------------------- encoding

  /** encode_jpeg: the RGB bytes of the image at the configured quality. */
  function EncodeJpeg(img: RgbaImage, quality: nat, enc: Encoders): Result<seq<Byte>>
  { enc.jpeg(img.width, img.height, RgbOf(Pixels(img)), quality) }

  /** The bytes of a full-frame encode in the configured format. */
  function Encoded(config: CodecConfig, img: RgbaImage, enc: Encoders): (r: Result<seq<Byte>>)
    ensures config.format == Raw ==> r == Ok(RawBytes(img))
    ensures config.format in {Jpeg, WebP} ==> r == EncodeJpeg(img, config.quality, enc)
    ensures config.format == Png ==> r == enc.png(img)
  {
    match config.format
    case Jpeg => EncodeJpeg(img, config.quality, enc)
    case Png => enc.png(img)
    case WebP => EncodeJpeg(img, config.quality, enc)
    case Raw => Ok(RawBytes(img))
  }

  /** original_size / encoded size, with original_size = 4·width·height. */
  function Ratio(img: RgbaImage, size: nat): (r: Option<real>)
    ensures r.Some? <==> size > 0
    ensures r.Some? ==> r.value * size as real == (4 * img.width * img.height) as real
  {
    if size == 0 then None else Some((4 * img.width * img.height) as real / size as real)
  }

  /** encode_frame's result: the encoded bytes and the frame description. */
  function EncodeFrameResult(config: CodecConfig, img: RgbaImage, enc: Encoders): (r: Result<(seq<Byte>, FrameInfo)>)
    ensures r.Ok? <==> Encoded(config, img, enc).Ok?
    ensures r.Ok? ==> r.value.0 == Encoded(config, img, enc).value
    ensures r.Ok? ==> r.value.1.size == |r.value.0| && r.value.1.format == config.format
    ensures r.Ok? ==> r.value.1.width == img.width && r.value.1.height == img.height
    ensures r.Ok? ==> r.value.1.quality == config.quality
    ensures r.Err? ==> r.error == Encoded(config, img, enc).error
  {
    match Encoded(config, img, enc)
    case Err(e) => Err(e)
    case Ok(data) => Ok((data, FrameInfo(img.width, img.height, config.format, config.quality, |data|,
                                         Ratio(img, |data|))))
  }

  /** rgba_to_rgb: the loop pushing R, G and B of every pixel. */
  method RgbaToRgb(img: RgbaImage) returns (rgb: seq<Byte>)
    ensures rgb == RgbOf(Pixels(img))
  {
    var ps := Pixels(img);
    rgb := [];
    var i := 0;
    while i < |ps|
      invariant i <= |ps|
      invariant rgb == RgbOf(ps[..i])
    {
      RgbOfAppend(ps[..i], ps[i]);
      assert ps[..i + 1] == ps[..i] + [ps[i]];
      rgb := rgb + [ps[i].r, ps[i].g, ps[i].b];
      i := i + 1;
    }
    assert ps[..i] == ps;
  }

  /** The RGB conversion holds 3·w·h bytes: each pixel's red, green and blue in row-major order. */
  lemma RgbLayoutOfImage(img: RgbaImage, i: nat)
    requires WellFormed(img) && i < img.width * img.height
    ensures |RgbOf(Pixels(img))| == 3 * (img.width * img.height)
    ensures RgbOf(Pixels(img))[3 * i] == Pixels(img)[i].r
    ensures RgbOf(Pixels(img))[3 * i + 1] == Pixels(img)[i].g
    ensures RgbOf(Pixels(img))[3 * i + 2] == Pixels(img)[i].b
  {
    PixelCount(img);
    RgbLayout(Pixels(img), i);
  }

  // ----------------------------------------------------------- decoding

  /** The integer square root (the source truncates a float square root). */
  function ISqrt(n: nat): (r: nat)
    ensures r * r <= n < (r + 1) * (r + 1)
  {
    if n == 0 then 0
    else
      var s := ISqrt(n - 1);
      if (s + 1) * (s + 1) <= n then
        assert (s + 2) * (s + 2) == (s + 1) * (s + 1) + 2 * s + 3;
        s + 1
      else s
  }

  lemma SquareMonotone(a: nat, b: nat)
    requires a <= b
    ensures a * a <= b * b
  {
    assert a * a <= a * b <= b * b;
  }

  lemma ISqrtOfSquare(w: nat)
    ensures ISqrt(w * w) == w
  {
    var r := ISqrt(w * w);
    if r < w {
      SquareMonotone(r + 1, w);
    } else if r > w {
      SquareMonotone(w + 1, r);
    }
  }

  /**
   * decode_raw: the side is ⌊√(len/4)⌋, and the data must be exactly
   * 4·side² bytes; the image is then side×side.
   */
  function DecodeRaw(data: seq<Byte>): (r: Result<RgbaImage>)
    ensures r.Ok? ==> WellFormed(r.value) && r.value.width == r.value.height
    ensures r.Ok? ==> |data| == 4 * (r.value.width * r.value.width)
  {
    var w := ISqrt(|data| / 4);
    if w * w * 4 == |data| then
      match FromRaw(w, w, data)
      case Some(img) => Ok(img)
      case None => Err("Failed to create image from raw data")
    else Err("Cannot determine image dimensions from raw data")
  }

  /** decode_raw succeeds exactly on four times a perfect square bytes. */
  lemma DecodeRawSucceedsIff(data: seq<Byte>)
    ensures DecodeRaw(data).Ok? <==> exists w: nat :: |data| == 4 * (w * w)
  {
    if w: nat :| |data| == 4 * (w * w) {
      assert |data| / 4 == w * w;
      ISqrtOfSquare(w);
    }
  }

  /** What decode_raw returns lays out exactly the input bytes. */
  lemma DecodeRawKeepsBytes(data: seq<Byte>)
    requires DecodeRaw(data).Ok?
    ensures RawBytes(DecodeRaw(data).value) == data
  {
    var w := ISqrt(|data| / 4);
    RawOfFromRaw(w, w, data);
    assert data[..4 * (w * w)] == data;
  }

  /** The raw round trip is the identity on square images. */
  lemma RawRoundTrip(img: RgbaImage)
    requires WellFormed(img) && img.width == img.height
    ensures DecodeRaw(RawBytes(img)) == Ok(img)
  {
    FromRawOfRaw(img);
    assert |RawBytes(img)| / 4 == img.width * img.width;
    ISqrtOfSquare(img.width);
  }

  /** A non-square image does not survive the raw round trip. */
  lemma RawRoundTripNeedsSquare(img: RgbaImage)
    requires WellFormed(img) && img.width != img.height
    ensures DecodeRaw(RawBytes(img)) != Ok(img)
  {
  }

  /** decode_frame: WebP is decoded as JPEG. */
  function DecodeFrame(data: seq<Byte>, format: CompressionFormat, dec: Decoders): (r: Result<RgbaImage>)
    ensures format in {Jpeg, WebP} ==> r == dec.jpeg(data)
    ensures format == Png ==> r == dec.png(data)
    ensures format == Raw ==> r == DecodeRaw(data)
  {
    match format
    case Jpeg => dec.jpeg(data)
    case Png => dec.png(data)
    case WebP => dec.jpeg(data)
    case Raw => DecodeRaw(data)
  }

  /** Raw frames of square images decode to the image that was encoded. */
  lemma RawFrameRoundTrip(config: CodecConfig, img: RgbaImage, enc: Encoders, dec: Decoders)
    requires config.format == Raw && WellFormed(img) && img.width == img.height
    ensures EncodeFrameResult(config, img, enc).Ok?
    ensures DecodeFrame(EncodeFrameResult(config, img, enc).value.0, Raw, dec) == Ok(img)
  {
    RawRoundTrip(img);
  }

  // ----------------------------------------------------------- differences

  /**
   * calculate_differences: the 16×16 blocks that block_differs flags, in
   * row-major order. The block test is `d`: `BlockDetectorAsWritten` is the
   * code as written, `BlockDetector` the test without the u8 cast.
   */
  method CalculateDifferences(oldFrame: RgbaImage, newFrame: RgbaImage, d: Detector) returns (regions: seq<Region>)
    requires WellFormed(oldFrame) && WellFormed(newFrame) && SameDimensions(oldFrame, newFrame)
    ensures regions == ChangedIn(oldFrame, newFrame, d, Tiles(oldFrame.width, oldFrame.height, BlockSize))
  {
    regions := ChangedTiles(oldFrame, newFrame, d, BlockSize);
  }

  /** Two 1×1 frames, black then (255, 1, 0): the as-written block test misses the change. */
  lemma WrappedDiffMissesBlock()
    ensures var a := RgbaImage(1, 1, [[Pixel(0, 0, 0, 255)]]);
            var b := RgbaImage(1, 1, [[Pixel(255, 1, 0, 255)]]);
            WellFormed(a) && WellFormed(b) &&
            !BlockChanged(a, b, BlockDetectorAsWritten, Region(0, 0, 1, 1)) &&
            BlockChanged(a, b, BlockDetector, Region(0, 0, 1, 1))
  {
    var a := RgbaImage(1, 1, [[Pixel(0, 0, 0, 255)]]);
    var b := RgbaImage(1, 1, [[Pixel(255, 1, 0, 255)]]);
    var t := Region(0, 0, 1, 1);
    WrappedSumHidesChange();
    assert Hit(a, b, WrappedSumAbove(30), 0, 0) == 0;
    assert Hit(a, b, SumAbove(30), 0, 0) == 1;
    assert ChangedPixels(a, b, WrappedSumAbove(30), t) == 0;
    assert ChangedPixels(a, b, SumAbove(30), t) == 1;
  }

  /** What encode_delta_frame does with a frame. */
  datatype DeltaDecision = Skip | FullFrame

  /**
   * Disabled delta compression and unchanged frames are skipped; a first
   * frame, a frame of new dimensions and any changed frame are encoded
   * whole (the high-ratio test leads to the same full encode). `d` is the
   * block test, as in CalculateDifferences.
   */
  function DeltaDecisionFor(config: CodecConfig, last: Option<RgbaImage>, current: RgbaImage, d: Detector)
    : (r: DeltaDecision)
    requires WellFormed(current) && (last.Some? ==> WellFormed(last.value))
    ensures !config.enableDeltaCompression ==> r == Skip
    ensures config.enableDeltaCompression && (last.None? || !SameDimensions(last.value, current)) ==> r == FullFrame
    ensures config.enableDeltaCompression && last.Some? && SameDimensions(last.value, current) ==>
      (r == Skip <==> forall t :: t in Tiles(current.width, current.height, BlockSize) ==>
                        !BlockChanged(last.value, current, d, t))
  {
    if !config.enableDeltaCompression then Skip
    else if last.None? || !SameDimensions(last.value, current) then FullFrame
    else
      var s := Tiles(last.value.width, last.value.height, BlockSize);
      ChangedInMembers(last.value, current, d, s);
      if ChangedIn(last.value, current, d, s) == [] then Skip
      else
        assert ChangedIn(last.value, current, d, s)[0] in ChangedIn(last.value, current, d, s);
        FullFrame
  }

  /** A frame identical to the last one is skipped when delta compression is on, whatever the pixel rule. */
  lemma IdenticalFrameSkipped(config: CodecConfig, current: RgbaImage, d: Detector)
    requires WellFormed(current) && config.enableDeltaCompression
    ensures DeltaDecisionFor(config, Some(current), current, d) == Skip
  {
    var s := Tiles(current.width, current.height, BlockSize);
    forall t | t in s ensures !BlockChanged(current, current, d, t) {
      NoPixelChanged(current, d.pixel, t);
    }
  }

  lemma NoPixelChanged(img: RgbaImage, rule: PixelRule, t: Region)
    requires WellFormed(img)
    ensures ChangedPixels(img, img, rule, t) == 0
  {
    NoBlockHits(img, rule, t, t.height);
  }

  lemma {:induction false} NoBlockHits(img: RgbaImage, rule: PixelRule, t: Region, m: nat)
    requires WellFormed(img)
    ensures BlockHits(img, img, rule, t, m) == 0
  {
    if m > 0 {
      NoBlockHits(img, rule, t, m - 1);
      NoRowHits(img, rule, t, m - 1, t.width);
    }
  }

  lemma {:induction false} NoRowHits(img: RgbaImage, rule: PixelRule, t: Region, dy: nat, n: nat)
    requires WellFormed(img)
    ensures RowHits(img, img, rule, t, dy, n) == 0
  {
    if n > 0 {
      NoRowHits(img, rule, t, dy, n - 1);
    }
  }

  /**
   * A 1×1 frame that turns from black to (255, 1, 0) with delta compression
   * on: encode_delta_frame as written skips it; the test without the cast
   * encodes it.
   */
  lemma DeltaAsWrittenSkipsChange(config: CodecConfig)
    requires config.enableDeltaCompression
    ensures var a := RgbaImage(1, 1, [[Pixel(0, 0, 0, 255)]]);
            var b := RgbaImage(1, 1, [[Pixel(255, 1, 0, 255)]]);
            WellFormed(a) && WellFormed(b) &&
            DeltaDecisionFor(config, Some(a), b, BlockDetectorAsWritten) == Skip &&
            DeltaDecisionFor(config, Some(a), b, BlockDetector) == FullFrame
  {
    var a := RgbaImage(1, 1, [[Pixel(0, 0, 0, 255)]]);
    var b := RgbaImage(1, 1, [[Pixel(255, 1, 0, 255)]]);
    var t := Region(0, 0, 1, 1);
    assert Tiles(1, 1, BlockSize) == [t] by {
      assert RowFrom(1, 1, BlockSize, 0, 0) == [t];
      assert RowsFrom(1, 1, BlockSize, BlockSize) == [];
    }
    WrappedDiffMissesBlock();
  }

  /** Wrap a result as the optional result of encode_delta_frame. */
  function Some_(r: Result<(seq<Byte>, FrameInfo)>): Result<Option<(seq<Byte>, FrameInfo)>>
  {
    match r
    case Ok(v) => Ok(Some(v))
    case Err(e) => Err(e)
  }

  // ----------------------------------------------------------- the codec

  class VideoCodec {
    var config: CodecConfig
    var lastFrame: Option<RgbaImage>
    var frameCounter: nat

    /** The stored frame is a well-formed image. */
    ghost predicate Valid()
      reads this
    { lastFrame.Some? ==> WellFormed(lastFrame.value) }

    constructor (config: CodecConfig)
      ensures Valid() && this.config == config && lastFrame.None? && frameCounter == 0
    {
      this.config := config;
      lastFrame := None;
      frameCounter := 0;
    }

    /**
     * encode_frame: the counter rises before encoding, so a failed encode
     * still counts; the frame is kept for delta compression only after a
     * successful encode and only when delta compression is on.
     */
    method EncodeFrame(img: RgbaImage, enc: Encoders) returns (r: Result<(seq<Byte>, FrameInfo)>)
      requires Valid() && WellFormed(img)
      modifies this
      ensures Valid() && config == old(config)
      ensures frameCounter == old(frameCounter) + 1
      ensures r == EncodeFrameResult(config, img, enc)
      ensures lastFrame == if r.Ok? && config.enableDeltaCompression then Some(img) else old(lastFrame)
    {
      frameCounter := frameCounter + 1;
      r := EncodeFrameResult(config, img, enc);
      if r.Err? {
        return;
      }
      if config.enableDeltaCompression {
        lastFrame := Some(img);
      }
    }

    /**
     * encode_delta_frame: skipped frames return Ok(None) and change
     * nothing; every other outcome is a full-frame encode_frame. `d` is the
     * block test: `BlockDetectorAsWritten` for the code as written.
     */
    method EncodeDeltaFrame(current: RgbaImage, enc: Encoders, d: Detector)
      returns (r: Result<Option<(seq<Byte>, FrameInfo)>>)
      requires Valid() && WellFormed(current)
      modifies this
      ensures Valid() && config == old(config)
      ensures DeltaDecisionFor(config, old(lastFrame), current, d) == Skip ==>
        r == Ok(None) && lastFrame == old(lastFrame) && frameCounter == old(frameCounter)
      ensures DeltaDecisionFor(config, old(lastFrame), current, d) == FullFrame ==>
        r == Some_(EncodeFrameResult(config, current, enc)) && frameCounter == old(frameCounter) + 1
      ensures DeltaDecisionFor(config, old(lastFrame), current, d) == FullFrame ==>
        lastFrame == if r.Ok? then Some(current) else old(lastFrame)
    {
      if !config.enableDeltaCompression {
        return Ok(None);
      }
      if lastFrame.None? || !SameDimensions(lastFrame.value, current) {
        var full := EncodeFrame(current, enc);
        return Some_(full);
      }
      var diffRegions := CalculateDifferences(lastFrame.value, current, d);
      if diffRegions == [] {
        return Ok(None);
      }
      var full := EncodeFrame(current, enc);
      r := Some_(full);
    }

    method UpdateConfig(newConfig: CodecConfig)
      requires Valid()
      modifies this
      ensures Valid() && config == newConfig
      ensures lastFrame == old(lastFrame) && frameCounter == old(frameCounter)
    {
      config := newConfig;
    }

    method GetStats() returns (s: CodecStats)
      ensures s == CodecStats(frameCounter, config.format, config.quality, config.enableDeltaCompression)
    {
      s := CodecStats(frameCounter, config.format, config.quality, config.enableDeltaCompression);
    }
  }
}
