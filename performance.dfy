/**
 * The performance monitor (`PerformanceMonitor`): four bounded sample
 * queues (frame times, encode times, network latencies, bandwidth samples)
 * and the instant of the last frame, with the averages computed over them.
 *
 * Durations and instants are nanoseconds, as `std::time::Duration` counts
 * them; the averages follow `Duration / u32` and `as_millis`, both of which
 * truncate. The `f64` results are modelled as `real`. CPU and memory usage
 * come from the operating system and are parameters.
 */
module Performance {
  import opened Text

  const NanosPerMilli: nat := 1_000_000

  /** `fps` is None where the f64 quotient is infinite. */
  datatype PerformanceMetrics = PerformanceMetrics(
    fps: Option<real>,
    frameTimeMs: real,
    encodeTimeMs: real,
    networkLatencyMs: real,
    cpuUsage: real,
    memoryUsageMb: real,
    bandwidthKbps: real)

  function Max1(n: nat): nat { if n >= 1 then n else 1 }

  function Min(a: nat, b: nat): nat { if a <= b then a else b }

  /** A record_* call: pop the front when the queue holds max samples or more, then push. */
  function Pushed(q: seq<nat>, max: nat, x: nat): (r: seq<nat>)
    ensures r != [] && r[|r| - 1] == x
    ensures |q| <= Max1(max) ==> |r| == Min(|q| + 1, Max1(max))
  {
    if |q| >= max && q != [] then q[1..] + [x] else q + [x]
  }

  /** A record_* call keeps the newest samples, in arrival order: the queue is a suffix of q + [x]. */
  lemma PushedSuffix(q: seq<nat>, max: nat, x: nat)
    ensures |Pushed(q, max, x)| <= |q| + 1
    ensures Pushed(q, max, x) == (q + [x])[|q| + 1 - |Pushed(q, max, x)|..]
  {
    if |q| >= max && q != [] {
      assert q[1..] + [x] == (q + [x])[1..];
    } else {
      assert q + [x] == (q + [x])[0..];
    }
  }

  function Sum(q: seq<nat>): nat
  { if q == [] then 0 else q[0] + Sum(q[1..]) }

  /** The average of a duration queue in whole milliseconds, 0 for an empty queue. */
  function AverageMs(q: seq<nat>): nat
  { if q == [] then 0 else (Sum(q) / |q|) / NanosPerMilli }

  /** calculate_average_*: the truncated average as a float. */
  function AverageMsReal(q: seq<nat>): (r: real)
    ensures q == [] ==> r == 0.0
    ensures r == AverageMs(q) as real
  { AverageMs(q) as real }

  /** calculate_bandwidth: bits per millisecond over one sample per second, 0 with fewer than two samples. */
  function Bandwidth(q: seq<nat>): (r: real)
    ensures |q| < 2 ==> r == 0.0
    ensures |q| >= 2 ==> r * (|q| * 1000) as real == (Sum(q) * 8) as real
    ensures r >= 0.0
  {
    if |q| < 2 then 0.0 else (Sum(q) * 8) as real / (|q| * 1000) as real
  }

  /**
   * calculate_fps as written: 0 for no samples or a zero average duration,
   * otherwise 1000 / the average in whole milliseconds. None stands for the
   * infinite quotient when the average is positive but under a millisecond.
   */
  function FpsAsWritten(q: seq<nat>): (r: Option<real>)
    ensures r.None? <==> q != [] && Sum(q) / |q| > 0 && AverageMs(q) == 0
    ensures r.Some? && q != [] && AverageMs(q) > 0 ==> r.value * AverageMs(q) as real == 1000.0
  {
    if q == [] then Some(0.0)
    else if Sum(q) / |q| == 0 then Some(0.0)
    else if AverageMs(q) == 0 then None
    else Some(1000.0 / AverageMs(q) as real)
  }

  /** calculate_fps with the zero test made on the millisecond value the quotient divides by. */
  function Fps(q: seq<nat>): (r: real)
    ensures 0.0 <= r <= 1000.0
    ensures AverageMs(q) == 0 ==> r == 0.0
    ensures AverageMs(q) > 0 ==> r * AverageMs(q) as real == 1000.0
  {
    if AverageMs(q) == 0 then 0.0 else 1000.0 / AverageMs(q) as real
  }

  /**
   * Which calculate_fps get_metrics uses: NanosZeroTest is the code as
   * written, MillisZeroTest the corrected one.
   */
  datatype FpsRule = NanosZeroTest | MillisZeroTest

  function FpsBy(rule: FpsRule, q: seq<nat>): Option<real>
  {
    match rule
    case NanosZeroTest => FpsAsWritten(q)
    case MillisZeroTest => Some(Fps(q))
  }

  // ----------------------------------------------------------- properties

  /** The average is the sum divided by count·10⁶, rounded down: the two truncations compose. */
  lemma AverageMsBounds(q: seq<nat>)
    requires q != []
    ensures AverageMs(q) * (|q| * NanosPerMilli) <= Sum(q)
    ensures Sum(q) < (AverageMs(q) + 1) * (|q| * NanosPerMilli)
  {
    var n, total := |q|, Sum(q);
    var perSample := total / n;
    var whole := perSample / NanosPerMilli;
    assert AverageMs(q) == whole;
    DivBounds(total, n);
    DivBounds(perSample, NanosPerMilli);
    MulMonotone(whole * NanosPerMilli, perSample, n);
    MulMonotone(perSample + 1, (whole + 1) * NanosPerMilli, n);
    MulSwap(whole, NanosPerMilli, n);
    MulSwap(whole + 1, NanosPerMilli, n);
  }

  lemma DivBounds(x: nat, d: nat)
    requires d > 0
    ensures (x / d) * d <= x < (x / d + 1) * d
  {
  }

  lemma MulSwap(a: nat, b: nat, c: nat)
    ensures a * (c * b) == (a * b) * c
  {
  }

  lemma MulMonotone(a: nat, b: nat, n: nat)
    requires a <= b
    ensures a * n <= b * n
  {
  }

  lemma {:induction false} SumAppend(q: seq<nat>, x: nat)
    ensures Sum(q + [x]) == Sum(q) + x
  {
    if q != [] {
      assert (q + [x])[1..] == q[1..] + [x];
      SumAppend(q[1..], x);
    }
  }

  /** With samples all equal to d, the average is d in whole milliseconds. */
  lemma {:induction false} ConstantSamples(q: seq<nat>, d: nat)
    requires q != [] && forall i :: 0 <= i < |q| ==> q[i] == d
    ensures AverageMs(q) == d / NanosPerMilli
  {
    ConstantSum(q, d);
    MulDiv(d, |q|);
  }

  lemma MulDiv(d: nat, n: nat)
    requires n > 0
    ensures (d * n) / n == d
  {
    var k := (d * n) / n;
    var r := (d * n) % n;
    assert d * n == k * n + r && 0 <= r < n;
    assert (k + 1) * n == k * n + n && (d + 1) * n == d * n + n;
    MulCancel(d, k + 1, n);
    MulCancel(k, d + 1, n);
  }

  lemma MulCancel(a: nat, b: nat, n: nat)
    requires a * n < b * n
    ensures a < b
  {
    if a >= b {
      MulMonotone(b, a, n);
    }
  }

  lemma {:induction false} ConstantSum(q: seq<nat>, d: nat)
    requires forall i :: 0 <= i < |q| ==> q[i] == d
    ensures Sum(q) == d * |q|
  {
    if q != [] {
      ConstantSum(q[1..], d);
    }
  }

  /** The as-written fps has no finite value for frames 0.5 ms apart; the corrected one reports 0. */
  lemma SubMillisecondFrames(q: seq<nat>)
    requires q != [] && forall i :: 0 <= i < |q| ==> q[i] == 500_000
    ensures FpsAsWritten(q).None?
    ensures Fps(q) == 0.0
  {
    ConstantSamples(q, 500_000);
    ConstantSum(q, 500_000);
    MulDiv(500_000, |q|);
  }

  /** Where the as-written fps is finite it agrees with the corrected one. */
  lemma FpsAgrees(q: seq<nat>)
    requires FpsAsWritten(q).Some?
    ensures FpsAsWritten(q).value == Fps(q)
  {
    if q != [] && Sum(q) / |q| == 0 {
      assert AverageMs(q) == 0;
    }
  }

  // ----------------------------------------------------------- monitor

  class PerformanceMonitor {
    var frameTimes: seq<nat>
    var encodeTimes: seq<nat>
    var networkLatencies: seq<nat>
    var bandwidthSamples: seq<nat>
    var lastFrameTime: Option<nat>
    const maxSamples: nat

    /** No queue holds more than max(max_samples, 1) samples. */
    ghost predicate Valid()
      reads this
    {
      |frameTimes| <= Max1(maxSamples) && |encodeTimes| <= Max1(maxSamples)
      && |networkLatencies| <= Max1(maxSamples) && |bandwidthSamples| <= Max1(maxSamples)
    }

    constructor (maxSamples: nat)
      ensures Valid() && this.maxSamples == maxSamples
      ensures frameTimes == [] && encodeTimes == [] && networkLatencies == [] && bandwidthSamples == []
      ensures lastFrameTime.None?
    {
      this.maxSamples := maxSamples;
      frameTimes, encodeTimes, networkLatencies, bandwidthSamples := [], [], [], [];
      lastFrameTime := None;
    }

    /** record_frame: the first call only stores the instant; later calls push the elapsed time. */
    method RecordFrame(now: nat)
      requires Valid()
      modifies this
      ensures Valid() && lastFrameTime == Some(now)
      ensures old(lastFrameTime).None? ==> frameTimes == old(frameTimes)
      ensures old(lastFrameTime).Some? ==>
        frameTimes == Pushed(old(frameTimes), maxSamples, if now >= old(lastFrameTime).value then now - old(lastFrameTime).value else 0)
      ensures encodeTimes == old(encodeTimes) && networkLatencies == old(networkLatencies)
      ensures bandwidthSamples == old(bandwidthSamples)
    {
      if lastFrameTime.Some? {
        var last := lastFrameTime.value;
        var frameTime := if now >= last then now - last else 0;
        frameTimes := Pushed(frameTimes, maxSamples, frameTime);
      }
      lastFrameTime := Some(now);
    }

    method RecordEncodeTime(duration: nat)
      requires Valid()
      modifies this
      ensures Valid() && encodeTimes == Pushed(old(encodeTimes), maxSamples, duration)
      ensures frameTimes == old(frameTimes) && networkLatencies == old(networkLatencies)
      ensures bandwidthSamples == old(bandwidthSamples) && lastFrameTime == old(lastFrameTime)
    {
      encodeTimes := Pushed(encodeTimes, maxSamples, duration);
    }

    method RecordNetworkLatency(duration: nat)
      requires Valid()
      modifies this
      ensures Valid() && networkLatencies == Pushed(old(networkLatencies), maxSamples, duration)
      ensures frameTimes == old(frameTimes) && encodeTimes == old(encodeTimes)
      ensures bandwidthSamples == old(bandwidthSamples) && lastFrameTime == old(lastFrameTime)
    {
      networkLatencies := Pushed(networkLatencies, maxSamples, duration);
    }

    method RecordBandwidth(bytes: nat)
      requires Valid()
      modifies this
      ensures Valid() && bandwidthSamples == Pushed(old(bandwidthSamples), maxSamples, bytes)
      ensures frameTimes == old(frameTimes) && encodeTimes == old(encodeTimes)
      ensures networkLatencies == old(networkLatencies) && lastFrameTime == old(lastFrameTime)
    {
      bandwidthSamples := Pushed(bandwidthSamples, maxSamples, bytes);
    }

    /**
     * get_metrics; `cpuUsage` and `memoryUsageMb` are the operating system's
     * readings, and `rule` is NanosZeroTest for the code as written.
     */
    method GetMetrics(rule: FpsRule, cpuUsage: real, memoryUsageMb: real) returns (m: PerformanceMetrics)
      ensures m.fps == FpsBy(rule, frameTimes) && m.frameTimeMs == AverageMsReal(frameTimes)
      ensures m.encodeTimeMs == AverageMsReal(encodeTimes)
      ensures m.networkLatencyMs == AverageMsReal(networkLatencies)
      ensures m.bandwidthKbps == Bandwidth(bandwidthSamples)
      ensures m.cpuUsage == cpuUsage && m.memoryUsageMb == memoryUsageMb
    {
      m := PerformanceMetrics(FpsBy(rule, frameTimes), AverageMsReal(frameTimes), AverageMsReal(encodeTimes),
                              AverageMsReal(networkLatencies), cpuUsage, memoryUsageMb, Bandwidth(bandwidthSamples));
    }

    /** reset: every queue emptied and the last frame instant forgotten. */
    method Reset()
      modifies this
      ensures Valid()
      ensures frameTimes == [] && encodeTimes == [] && networkLatencies == [] && bandwidthSamples == []
      ensures lastFrameTime.None?
    {
      frameTimes, encodeTimes, networkLatencies, bandwidthSamples := [], [], [], [];
      lastFrameTime := None;
    }
  }
}
