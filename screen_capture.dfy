/**
 * The advanced screen capture (`AdvancedScreenCapture`): choosing the
 * screen a region lies on, change detection over 64×64 blocks against the
 * previous frame, and the capture statistics.
 *
 * The list of screens and the screen grab come from the screenshots crate
 * and are parameters; instants are millisecond counts supplied by the
 * caller.
 */
module ScreenCapture {
  import opened Text
  import opened Image
  import opened Tiling

  /** x and y are i32 in the source, width and height u32. */
  datatype CaptureRegion = CaptureRegion(x: int, y: int, width: nat, height: nat)

  /** The part of a screen's display information the capture reads. */
  datatype DisplayInfo = DisplayInfo(x: int, y: int, width: nat, height: nat)

  /** The durations are kept in milliseconds; the fps is an f64 in the source. */
  datatype CaptureStats = CaptureStats(framesCaptured: nat, bytesCaptured: nat, averageFps: real,
                                       lastCaptureDurationMs: nat)

  const ZeroStats: CaptureStats := CaptureStats(0, 0, 0.0, 0)

  // ----------------------------------------------------------- choosing a screen

  /** The region and the screen overlap in a rectangle of positive area; touching edges do not count. */
  predicate Overlaps(r: CaptureRegion, d: DisplayInfo)
  {
    r.x < d.x + d.width && r.x + r.width > d.x && r.y < d.y + d.height && r.y + r.height > d.y
  }

  /** The index of the first screen the region overlaps. */
  function FirstOverlapping(screens: seq<DisplayInfo>, r: CaptureRegion): (k: Option<nat>)
    ensures k.Some? ==>
      k.value < |screens| && Overlaps(r, screens[k.value]) && forall i :: 0 <= i < k.value ==> !Overlaps(r, screens[i])
    ensures k.None? <==> forall i :: 0 <= i < |screens| ==> !Overlaps(r, screens[i])
  {
    if screens == [] then None
    else if Overlaps(r, screens[0]) then Some(0)
    else match FirstOverlapping(screens[1..], r)
      case None => None
      case Some(k) => Some(k + 1)
  }

  function NoScreenError(r: CaptureRegion): string
  {
    "No screen found containing region " + RegionText(r)
  }

  function IntText(n: int): string
  {
    if n < 0 then "-" + NatToString(-n) else NatToString(n)
  }

  /** The derived Debug rendering of a region. */
  function RegionText(r: CaptureRegion): string
  {
    "CaptureRegion { x: " + IntText(r.x) + ", y: " + IntText(r.y) + ", width: " + NatToString(r.width)
      + ", height: " + NatToString(r.height) + " }"
  }

  // ----------------------------------------------------------- change detection

  const CaptureBlockSize: nat := 64

  /** block_changed: over 5% (in integer percent) of the pixels moved by more than the threshold in channel sum. */
  function CaptureDetector(threshold: Byte): Detector
  {
    Detector(SumAbove(threshold), PercentAbove(5))
  }

  /** block_changed as written: the channel sum is cast to u8 before the comparison. */
  function CaptureDetectorAsWritten(threshold: Byte): Detector
  {
    Detector(WrappedSumAbove(threshold), PercentAbove(5))
  }

  function ToCaptureRegion(t: Region): CaptureRegion
  {
    CaptureRegion(t.x, t.y, t.width, t.height)
  }

  function ToCaptureRegions(ts: seq<Region>): (rs: seq<CaptureRegion>)
    ensures |rs| == |ts| && forall i :: 0 <= i < |ts| ==> rs[i] == ToCaptureRegion(ts[i])
  {
    seq(|ts|, i requires 0 <= i < |ts| => ToCaptureRegion(ts[i]))
  }

  /** The regions detect_changes reports for the current frame against the stored one. */
  function DetectedRegions(last: Option<RgbaImage>, current: RgbaImage, d: Detector): seq<CaptureRegion>
    requires WellFormed(current) && (last.Some? ==> WellFormed(last.value))
  {
    match last
    case None => []
    case Some(prev) =>
      if !SameDimensions(prev, current) then [CaptureRegion(0, 0, current.width, current.height)]
      else ToCaptureRegions(ChangedIn(prev, current, d, Tiles(current.width, current.height, CaptureBlockSize)))
  }

  /**
   * With a previous frame of the same size, the reported regions are the
   * 64×64 blocks (clipped at the edges) the detector flags, each exactly
   * once and in row-major order, and each lies inside the frame.
   */
  lemma DetectedBlocks(prev: RgbaImage, current: RgbaImage, d: Detector)
    requires WellFormed(prev) && WellFormed(current) && SameDimensions(prev, current)
    ensures var s := ChangedIn(prev, current, d, Tiles(current.width, current.height, CaptureBlockSize));
      DetectedRegions(Some(prev), current, d) == ToCaptureRegions(s) && RowMajor(s)
      && (forall t :: t in s <==> t in Tiles(current.width, current.height, CaptureBlockSize) && BlockChanged(prev, current, d, t))
      && (forall t :: t in s ==> Inside(t, current.width, current.height))
  {
    ChangedTilesFacts(prev, current, d, CaptureBlockSize);
  }

  /** 1×1 frames, black then (255, 1, 0), threshold 30: the as-written test reports nothing, the corrected one the pixel. */
  lemma WrappedCaptureMissesChange()
    ensures var a := RgbaImage(1, 1, [[Pixel(0, 0, 0, 255)]]);
            var b := RgbaImage(1, 1, [[Pixel(255, 1, 0, 255)]]);
            WellFormed(a) && WellFormed(b) &&
            DetectedRegions(Some(a), b, CaptureDetectorAsWritten(30)) == [] &&
            DetectedRegions(Some(a), b, CaptureDetector(30)) == [CaptureRegion(0, 0, 1, 1)]
  {
    var a := RgbaImage(1, 1, [[Pixel(0, 0, 0, 255)]]);
    var b := RgbaImage(1, 1, [[Pixel(255, 1, 0, 255)]]);
    var t := Region(0, 0, 1, 1);
    WrappedSumHidesChange();
    assert Tiles(1, 1, CaptureBlockSize) == [t] by {
      assert RowFrom(1, 1, CaptureBlockSize, 0, 0) == [t];
      assert RowsFrom(1, 1, CaptureBlockSize, CaptureBlockSize) == [];
    }
    assert Hit(a, b, WrappedSumAbove(30), 0, 0) == 0;
    assert Hit(a, b, SumAbove(30), 0, 0) == 1;
    assert ChangedPixels(a, b, WrappedSumAbove(30), t) == 0;
    assert ChangedPixels(a, b, SumAbove(30), t) == 1;
    assert ChangedIn(a, b, CaptureDetectorAsWritten(30), [t]) == [];
    assert ChangedIn(a, b, CaptureDetector(30), [t]) == [t];
  }

  // ----------------------------------------------------------- statistics

  /** update_stats: one more frame, the bytes added, and the rate from the time since the last capture. */
  function StatsAfter(s: CaptureStats, bytes: nat, startMs: nat, lastCaptureMs: nat, nowMs: nat): (r: CaptureStats)
    ensures r.framesCaptured == s.framesCaptured + 1 && r.bytesCaptured == s.bytesCaptured + bytes
    ensures nowMs <= lastCaptureMs ==> r.averageFps == s.averageFps
    ensures nowMs > lastCaptureMs ==> r.averageFps * (nowMs - lastCaptureMs) as real == 1000.0
    ensures r.lastCaptureDurationMs == if nowMs >= startMs then nowMs - startMs else 0
  {
    CaptureStats(
      s.framesCaptured + 1,
      s.bytesCaptured + bytes,
      if nowMs > lastCaptureMs then 1000.0 / (nowMs - lastCaptureMs) as real else s.averageFps,
      if nowMs >= startMs then nowMs - startMs else 0)
  }

  // ----------------------------------------------------------- the capture

  class AdvancedScreenCapture {
    var lastFrame: Option<RgbaImage>
    var captureStats: CaptureStats
    var lastCaptureTimeMs: nat

    ghost predicate Valid()
      reads this
    {
      lastFrame.Some? ==> WellFormed(lastFrame.value)
    }

    constructor(nowMs: nat)
      ensures lastFrame == None && captureStats == ZeroStats && lastCaptureTimeMs == nowMs
      ensures Valid()
    {
      lastFrame := None;
      captureStats := ZeroStats;
      lastCaptureTimeMs := nowMs;
    }

    method UpdateStats(bytes: nat, startMs: nat, nowMs: nat)
      modifies this
      ensures captureStats == StatsAfter(old(captureStats), bytes, startMs, old(lastCaptureTimeMs), nowMs)
      ensures lastCaptureTimeMs == nowMs && lastFrame == old(lastFrame)
    {
      captureStats := StatsAfter(captureStats, bytes, startMs, lastCaptureTimeMs, nowMs);
      lastCaptureTimeMs := nowMs;
    }

    /**
     * capture_region: the first screen the region overlaps is grabbed; the
     * output buffer is always empty, so the statistics grow by one frame and
     * no bytes. A failing screen list or grab is returned as it is, and no
     * overlapping screen is an error; neither touches the statistics.
     */
    method CaptureRegionOf(region: CaptureRegion, screens: Result<seq<DisplayInfo>>, grab: nat -> Result<()>,
                           startMs: nat, nowMs: nat) returns (r: Result<seq<Byte>>)
      modifies this
      ensures screens.Err? ==> r == Err(screens.error) && unchanged(this)
      ensures screens.Ok? && FirstOverlapping(screens.value, region).None? ==>
        r == Err(NoScreenError(region)) && unchanged(this)
      ensures screens.Ok? && FirstOverlapping(screens.value, region).Some? ==>
        var k := FirstOverlapping(screens.value, region).value;
        grab(k).Err? ==> r == Err(grab(k).error) && unchanged(this)
      ensures r.Ok? <==>
        screens.Ok? && FirstOverlapping(screens.value, region).Some? && grab(FirstOverlapping(screens.value, region).value).Ok?
      ensures r.Ok? ==>
        r.value == [] && captureStats == StatsAfter(old(captureStats), 0, startMs, old(lastCaptureTimeMs), nowMs)
        && lastCaptureTimeMs == nowMs
      ensures lastFrame == old(lastFrame)
    {
      if screens.Err? {
        return Err(screens.error);
      }
      var k := FirstOverlapping(screens.value, region);
      if k.None? {
        return Err(NoScreenError(region));
      }
      var image := grab(k.value);
      if image.Err? {
        return Err(image.error);
      }
      var buffer: seq<Byte> := [];
      UpdateStats(|buffer|, startMs, nowMs);
      return Ok(buffer);
    }

    /**
     * detect_changes: the regions against the stored frame (none the first
     * time, the whole frame when the size changed, the flagged blocks
     * otherwise); the current frame is stored in every case. `detector`
     * builds the block test from the threshold: `CaptureDetectorAsWritten`
     * for the code as written, `CaptureDetector` without the u8 cast.
     */
    method DetectChanges(current: RgbaImage, threshold: Byte, detector: Byte -> Detector)
      returns (regions: seq<CaptureRegion>)
      requires Valid() && WellFormed(current)
      modifies this
      ensures regions == DetectedRegions(old(lastFrame), current, detector(threshold))
      ensures lastFrame == Some(current) && Valid()
      ensures captureStats == old(captureStats) && lastCaptureTimeMs == old(lastCaptureTimeMs)
    {
      regions := [];
      if lastFrame.Some? {
        var prev := lastFrame.value;
        if !SameDimensions(prev, current) {
          regions := [CaptureRegion(0, 0, current.width, current.height)];
        } else {
          var blocks := ChangedTiles(prev, current, detector(threshold), CaptureBlockSize);
          regions := ToCaptureRegions(blocks);
        }
      }
      lastFrame := Some(current);
    }

    method ResetStats()
      modifies this
      ensures captureStats == ZeroStats
      ensures lastFrame == old(lastFrame) && lastCaptureTimeMs == old(lastCaptureTimeMs)
    {
      captureStats := ZeroStats;
    }

    method GetStats() returns (r: CaptureStats)
      ensures r == captureStats
    {
      r := captureStats;
    }
  }
}
