/**
 * The streaming manager (`StreamingManager`): its configuration, the
 * screen streamer it creates on initialisation, the frame buffer, the
 * statistics, the streaming flag and start time, and the events it sends.
 *
 * The event channel is the list of events sent so far, kept only once a
 * receiver exists; instants are millisecond counts supplied by the caller.
 */
module StreamingControl {
  import opened Text
  import opened Streaming
  import opened ScreenStreamer
  import FrameBuffer

  class StreamingManager {
    var config: StreamingConfig
    var streamer: Option<ScreenStreamer>
    var frameBuffer: FrameBuffer.FrameBuffer
    var stats: StreamingStats
    var hasEventSender: bool
    var sentEvents: seq<StreamingEvent>
    var isStreaming: bool
    var startTimeMs: Option<nat>

    /** StreamingManager::new: default configuration, no streamer, a 3-frame buffer, zero statistics, not streaming. */
    constructor()
      ensures config == DefaultConfig && streamer == None && stats == ZeroStats
      ensures fresh(frameBuffer) && frameBuffer.maxSize == 3 && frameBuffer.buffer == [] && frameBuffer.Valid()
      ensures !hasEventSender && sentEvents == [] && !isStreaming && startTimeMs == None
    {
      config := DefaultConfig;
      streamer := None;
      frameBuffer := new FrameBuffer.FrameBuffer(3);
      stats := ZeroStats;
      hasEventSender := false;
      sentEvents := [];
      isStreaming := false;
      startTimeMs := None;
    }

    /** initialize: opens the event channel and builds a streamer from the current configuration. */
    method Initialize() returns (r: Result<()>)
      modifies this
      ensures r == Ok(()) && hasEventSender && sentEvents == []
      ensures streamer.Some? && fresh(streamer.value) && streamer.value.config == config
      ensures streamer.value.lastFrame == None && streamer.value.frameCounter == 0
      ensures config == old(config) && isStreaming == old(isStreaming) && startTimeMs == old(startTimeMs)
      ensures stats == old(stats) && frameBuffer == old(frameBuffer)
    {
      hasEventSender := true;
      sentEvents := [];
      var s := new ScreenStreamer(config);
      streamer := Some(s);
      return Ok(());
    }

    /** start_streaming: the flag is set and the start time recorded (the capture loop itself is not modelled). */
    method StartStreaming(nowMs: nat) returns (r: Result<()>)
      modifies this
      ensures r == Ok(()) && isStreaming && startTimeMs == Some(nowMs)
      ensures config == old(config) && streamer == old(streamer) && stats == old(stats)
      ensures sentEvents == old(sentEvents) && hasEventSender == old(hasEventSender) && frameBuffer == old(frameBuffer)
    {
      isStreaming := true;
      startTimeMs := Some(nowMs);
      return Ok(());
    }

    /** stop_streaming: the flag is cleared and the start time forgotten. */
    method StopStreaming() returns (r: Result<()>)
      modifies this
      ensures r == Ok(()) && !isStreaming && startTimeMs == None
      ensures config == old(config) && streamer == old(streamer) && stats == old(stats)
      ensures sentEvents == old(sentEvents) && hasEventSender == old(hasEventSender) && frameBuffer == old(frameBuffer)
    {
      isStreaming := false;
      startTimeMs := None;
      return Ok(());
    }

    method IsStreaming() returns (r: bool)
      ensures r == isStreaming
    {
      r := isStreaming;
    }

    method GetStats() returns (r: StreamingStats)
      ensures r == stats
    {
      r := stats;
    }

    /** update_config: the whole configuration is replaced, and so is the streamer's. */
    method UpdateConfig(newConfig: StreamingConfig) returns (r: Result<()>)
      modifies this, if streamer.Some? then {streamer.value} else {}
      ensures r == Ok(()) && config == newConfig && streamer == old(streamer)
      ensures streamer.Some? ==> streamer.value.config == newConfig && streamer.value.compressor.config == newConfig
      ensures isStreaming == old(isStreaming) && startTimeMs == old(startTimeMs) && sentEvents == old(sentEvents)
      ensures stats == old(stats) && hasEventSender == old(hasEventSender) && frameBuffer == old(frameBuffer)
      ensures streamer.Some? ==>
        streamer.value.lastFrame == old(streamer.value.lastFrame) && streamer.value.frameCounter == old(streamer.value.frameCounter)
    {
      config := newConfig;
      if streamer.Some? {
        var _ := streamer.value.UpdateConfig(newConfig);
      }
      return Ok(());
    }

    /**
     * adjust_quality: 0 and values over 100 are refused before anything
     * changes. Otherwise the configuration and the streamer take the
     * quality and a QualityAdjusted event is sent.
     */
    method AdjustQuality(quality: Byte) returns (r: Result<()>)
      modifies this, if streamer.Some? then {streamer.value, streamer.value.compressor} else {}
      ensures !ValidQuality(quality) ==>
        r == Err(QualityError) && unchanged(this)
        && (streamer.Some? ==> unchanged(streamer.value) && unchanged(streamer.value.compressor))
      ensures ValidQuality(quality) ==> r == Ok(()) && config == old(config).(quality := quality)
      ensures ValidQuality(quality) && streamer.Some? ==>
        streamer.value.config.quality == quality && streamer.value.compressor.jpegQuality == quality
      ensures ValidQuality(quality) ==>
        sentEvents == if hasEventSender then old(sentEvents) + [QualityAdjusted(quality)] else old(sentEvents)
      ensures streamer == old(streamer) && isStreaming == old(isStreaming) && startTimeMs == old(startTimeMs)
      ensures stats == old(stats) && hasEventSender == old(hasEventSender) && frameBuffer == old(frameBuffer)
      ensures streamer.Some? ==>
        streamer.value.lastFrame == old(streamer.value.lastFrame) && streamer.value.frameCounter == old(streamer.value.frameCounter)
    {
      if quality == 0 || quality > 100 {
        return Err(QualityError);
      }
      config := config.(quality := quality);
      if streamer.Some? {
        var res := streamer.value.SetQuality(quality);
        if res.Err? {
          return res;
        }
      }
      if hasEventSender {
        sentEvents := sentEvents + [QualityAdjusted(quality)];
      }
      return Ok(());
    }
  }
}
