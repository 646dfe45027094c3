/**
 * The streaming configuration, the compression types, the statistics and
 * the events the streaming manager emits. The manager itself is in module
 * StreamingControl.
 */
module Streaming {
  import opened Text

  datatype CompressionType = JPEG | WebP | H264 | VP8 | AV1

  /** `quality` is a u8 (1-100 is the meaningful range); the bandwidth cap is an f32 in the source. */
  datatype StreamingConfig = StreamingConfig(
    targetFps: nat,
    quality: Byte,
    compressionType: CompressionType,
    adaptiveQuality: bool,
    maxBandwidthMbps: real,
    enableDeltaCompression: bool,
    bufferSize: nat)

  /** StreamingConfig::default. */
  const DefaultConfig: StreamingConfig := StreamingConfig(30, 75, JPEG, true, 10.0, true, 3)

  datatype StreamingStats = StreamingStats(
    fps: real,
    bandwidthMbps: real,
    averageFrameSizeKb: real,
    compressionRatio: real,
    latencyMs: real,
    droppedFrames: nat,
    totalFrames: nat,
    uptimeSeconds: nat)

  /** The statistics of a manager that has not streamed yet. */
  const ZeroStats: StreamingStats := StreamingStats(0.0, 0.0, 0.0, 0.0, 0.0, 0, 0, 0)

  datatype StreamingEvent =
    | FrameReady(data: seq<Byte>)
    | QualityAdjusted(quality: Byte)
    | FrameDropped(reason: string)
    | Error(message: string)
    | StatUpdate(stats: StreamingStats)

  /** The quality range every setter enforces: 1 to 100. */
  predicate ValidQuality(q: nat)
  { 1 <= q <= 100 }

  const QualityError: string := "Quality must be between 1 and 100"
}
