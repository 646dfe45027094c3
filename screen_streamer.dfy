/**
 * The screen streamer (`ScreenStreamer`): turns a grabbed screen into an
 * image, compresses it whole or as a delta against the last frame, counts
 * frames, and captures a clipped region of the screen.
 *
 * The primary-screen grab and the list of screen sizes come from the
 * capture layer and the screenshots crate, and are parameters.
 */
module ScreenStreamer {
  import opened Text
  import opened Image
  import opened Tiling
  import opened Streaming
  import opened Compression

  const NoScreensError: string := "No screens available"
  const ImageError: string := "Failed to create image from bytes"
  const RegionBoundsError: string := "Region coordinates out of bounds"

  /**
   * bytes_to_image: the grab as a w×h RGBA image, w×h being the first
   * screen's size; fails when there is no screen or too few bytes.
   */
  function BytesToImage(screens: Result<seq<(nat, nat)>>, bytes: seq<Byte>): (r: Result<RgbaImage>)
    ensures r.Ok? <==> screens.Ok? && |screens.value| > 0 && |bytes| >= 4 * (screens.value[0].0 * screens.value[0].1)
    ensures r.Ok? ==> WellFormed(r.value) && r.value.width == screens.value[0].0 && r.value.height == screens.value[0].1
    ensures r.Ok? ==> RawBytes(r.value) == bytes[..4 * (r.value.width * r.value.height)]
  {
    match screens
    case Err(e) => Err(e)
    case Ok(s) =>
      if s == [] then Err(NoScreensError)
      else
        var (w, h) := s[0];
        match FromRaw(w, h, bytes)
        case None => Err(ImageError)
        case Some(img) =>
          RawOfFromRaw(w, h, bytes);
          Ok(img)
  }

  /** The part of the region inside the w×h screen: its own size, clipped at the right and bottom edges. */
  function ClippedRegion(w: nat, h: nat, x: nat, y: nat, width: nat, height: nat): (t: Region)
    requires x < w && y < h
    ensures t.x == x && t.y == y && t.width <= width && t.height <= height
    ensures t.x + t.width <= w && t.y + t.height <= h
    ensures t.width == width || t.x + t.width == w
    ensures t.height == height || t.y + t.height == h
  {
    Region(x, y, Min(width, w - x), Min(height, h - y))
  }

  /** capture_region: the clipped block of the screen image, or an error when (x, y) lies off the screen. */
  function RegionImage(full: RgbaImage, x: nat, y: nat, width: nat, height: nat): (r: Result<RgbaImage>)
    requires WellFormed(full)
    ensures r.Ok? <==> x < full.width && y < full.height
    ensures r.Err? ==> r.error == RegionBoundsError
  {
    if x >= full.width || y >= full.height then Err(RegionBoundsError)
    else
      var t := ClippedRegion(full.width, full.height, x, y, width, height);
      Ok(Crop(full, t.x, t.y, t.width, t.height))
  }

  /** Every pixel (i, j) of a captured region is the screen's pixel (x + i, y + j). */
  lemma RegionPixels(full: RgbaImage, x: nat, y: nat, width: nat, height: nat, i: nat, j: nat)
    requires WellFormed(full) && RegionImage(full, x, y, width, height).Ok?
    requires i < RegionImage(full, x, y, width, height).value.width && j < RegionImage(full, x, y, width, height).value.height
    ensures x + i < full.width && y + j < full.height
    ensures RegionImage(full, x, y, width, height).value.rows[j][i] == full.rows[y + j][x + i]
  {
  }

  /** How capture_and_compress encodes a frame: as a delta only when enabled and a last frame exists. */
  function Encoding(config: StreamingConfig, last: Option<RgbaImage>, image: RgbaImage, quality: Byte,
                    jpeg: JpegEncoder, nowMs: nat): Result<seq<Byte>>
    requires WellFormed(image) && (last.Some? ==> WellFormed(last.value))
  {
    if config.enableDeltaCompression && last.Some? then
      DeltaCompressed(config.compressionType, image, last.value, quality, jpeg, nowMs)
    else
      CompressJpeg(image, quality, jpeg)
  }

  class ScreenStreamer {
    var config: StreamingConfig
    var compressor: Compressor
    var lastFrame: Option<RgbaImage>
    var frameCounter: nat

    ghost predicate Valid()
      reads this
    {
      lastFrame.Some? ==> WellFormed(lastFrame.value)
    }

    /** ScreenStreamer::new: no last frame, a zero counter and a compressor built from the configuration. */
    constructor(config: StreamingConfig)
      ensures this.config == config && lastFrame == None && frameCounter == 0
      ensures fresh(compressor) && compressor.config == config && compressor.Valid()
      ensures Valid()
    {
      this.config := config;
      compressor := new Compressor(config);
      lastFrame := None;
      frameCounter := 0;
    }

    /**
     * capture_and_compress. A failed grab, conversion or compression returns
     * its error and changes nothing. Otherwise the frame is encoded as
     * `Encoding` says, becomes the last frame when delta compression is
     * enabled, and the counter goes up by one.
     */
    method CaptureAndCompress(grab: Result<seq<Byte>>, screens: Result<seq<(nat, nat)>>, jpeg: JpegEncoder, nowMs: nat)
      returns (r: Result<seq<Byte>>)
      requires Valid()
      modifies this
      ensures Valid()
      ensures config == old(config) && compressor == old(compressor)
      ensures grab.Err? ==> r == Err(grab.error) && unchanged(this)
      ensures grab.Ok? && BytesToImage(screens, grab.value).Err? ==>
        r == Err(BytesToImage(screens, grab.value).error) && unchanged(this)
      ensures grab.Ok? && BytesToImage(screens, grab.value).Ok? ==>
        var image := BytesToImage(screens, grab.value).value;
        r == Encoding(config, old(lastFrame), image, compressor.jpegQuality, jpeg, nowMs)
        && (r.Err? ==> unchanged(this))
        && (r.Ok? ==> frameCounter == old(frameCounter) + 1
                      && lastFrame == if config.enableDeltaCompression then Some(image) else old(lastFrame))
    {
      if grab.Err? {
        return Err(grab.error);
      }
      var converted := BytesToImage(screens, grab.value);
      if converted.Err? {
        return Err(converted.error);
      }
      var image := converted.value;
      var useDelta := config.enableDeltaCompression;
      if useDelta && lastFrame.Some? {
        r := compressor.CompressFrameDelta(image, lastFrame.value, jpeg, nowMs);
      } else {
        r := compressor.CompressFrame(image, jpeg);
      }
      if r.Err? {
        return;
      }
      if useDelta {
        lastFrame := Some(image);
      }
      frameCounter := frameCounter + 1;
    }

    /** update_config: the new configuration, and a compressor rebuilt from it. */
    method UpdateConfig(newConfig: StreamingConfig) returns (r: Result<()>)
      modifies this
      ensures r == Ok(()) && config == newConfig
      ensures fresh(compressor) && compressor.config == newConfig && compressor.Valid()
      ensures lastFrame == old(lastFrame) && frameCounter == old(frameCounter)
    {
      config := newConfig;
      compressor := new Compressor(newConfig);
      return Ok(());
    }

    /**
     * set_quality: the streamer's own configuration takes the value before
     * the compressor checks it, so an out-of-range quality is kept there
     * although the call fails and the compressor is unchanged.
     */
    method SetQuality(quality: Byte) returns (r: Result<()>)
      modifies this, compressor
      ensures compressor == old(compressor) && config == old(config).(quality := quality)
      ensures lastFrame == old(lastFrame) && frameCounter == old(frameCounter)
      ensures !ValidQuality(quality) ==> r == Err(QualityError) && unchanged(compressor)
      ensures ValidQuality(quality) ==>
        r == Ok(()) && compressor.jpegQuality == quality && compressor.config == old(compressor.config).(quality := quality)
      ensures old(compressor.Valid()) ==> compressor.Valid()
    {
      config := config.(quality := quality);
      r := compressor.SetQuality(quality);
    }

    method GetFrameCount() returns (r: nat)
      ensures r == frameCounter
    {
      r := frameCounter;
    }

    method ResetFrameCount()
      modifies this
      ensures frameCounter == 0
      ensures config == old(config) && compressor == old(compressor) && lastFrame == old(lastFrame)
    {
      frameCounter := 0;
    }

    /** capture_region: grab, convert, clip to the screen and compress the region with the current quality. */
    method CaptureRegion(grab: Result<seq<Byte>>, screens: Result<seq<(nat, nat)>>, x: nat, y: nat, width: nat,
                         height: nat, jpeg: JpegEncoder) returns (r: Result<seq<Byte>>)
      ensures grab.Err? ==> r == Err(grab.error)
      ensures grab.Ok? && BytesToImage(screens, grab.value).Err? ==> r == Err(BytesToImage(screens, grab.value).error)
      ensures grab.Ok? && BytesToImage(screens, grab.value).Ok? ==>
        var full := BytesToImage(screens, grab.value).value;
        match RegionImage(full, x, y, width, height)
        case Err(e) => r == Err(e)
        case Ok(block) => r == CompressJpeg(block, compressor.jpegQuality, jpeg)
    {
      if grab.Err? {
        return Err(grab.error);
      }
      var converted := BytesToImage(screens, grab.value);
      if converted.Err? {
        return Err(converted.error);
      }
      var full := converted.value;
      if x >= full.width || y >= full.height {
        return Err(RegionBoundsError);
      }
      var t := ClippedRegion(full.width, full.height, x, y, width, height);
      var block := CropBlock(full, t.x, t.y, t.width, t.height);
      r := compressor.CompressFrame(block, jpeg);
    }

    method GetConfig() returns (r: StreamingConfig)
      ensures r == config
    {
      r := config;
    }
  }
}
