/**
 * The bounded frame queue (`FrameBuffer`): frames get consecutive ids from
 * a counter, the oldest frame is evicted when the queue is full, and a
 * running byte total is kept beside the queue. Instants are milliseconds.
 */
module FrameBuffer {
  import opened Text

  const DefaultMaxSize: nat := 3

  datatype FrameData = FrameData(data: seq<Byte>, timestamp: nat, frameId: nat, sizeBytes: nat)

  datatype FrameBufferStats = FrameBufferStats(
    currentFrames: nat,
    maxFrames: nat,
    totalBytes: nat,
    averageFrameSizeBytes: nat,
    bufferDurationMs: nat,
    totalFramesProcessed: nat)

  /** Sum of size_bytes over a queue. */
  function TotalSize(q: seq<FrameData>): nat
  { if q == [] then 0 else q[0].sizeBytes + TotalSize(q[1..]) }

  /** `usize::saturating_sub`. */
  function SaturatingSub(a: nat, b: nat): (r: nat)
    ensures a >= b ==> r == a - b
    ensures a < b ==> r == 0
  { if a >= b then a - b else 0 }

  /** Frame ids strictly increase from front to back. */
  predicate IdsIncreasing(q: seq<FrameData>)
  { forall i, j :: 0 <= i < j < |q| ==> q[i].frameId < q[j].frameId }

  /** Every frame's recorded size is its data length. */
  predicate SizesExact(q: seq<FrameData>)
  { forall i :: 0 <= i < |q| ==> q[i].sizeBytes == |q[i].data| }

  /** The queue after add_frame: drop the front if full, then push the new frame. */
  function Admitted(q: seq<FrameData>, maxSize: nat, f: FrameData): (r: seq<FrameData>)
    ensures r != [] && r[|r| - 1] == f
    ensures |q| >= maxSize && q != [] ==> r == q[1..] + [f]
    ensures !(|q| >= maxSize && q != []) ==> r == q + [f]
    ensures |q| <= Max1(maxSize) ==> |r| <= Max1(maxSize)
  { (if |q| >= maxSize && q != [] then q[1..] else q) + [f] }

  function Max1(n: nat): nat { if n >= 1 then n else 1 }

  /** The queue after cleanup_old_frames: pop the front while it is older than the cutoff. */
  function DropOlder(q: seq<FrameData>, cutoff: int): (r: seq<FrameData>)
    ensures |r| <= |q|
    ensures forall i :: 0 <= i < |q| - |r| ==> q[i].timestamp < cutoff
    ensures r == [] || r[0].timestamp >= cutoff
  {
    if q != [] && q[0].timestamp < cutoff then DropOlder(q[1..], cutoff) else q
  }

  /** cleanup_old_frames only ever removes a prefix: what is kept is a suffix of the queue. */
  lemma {:induction false} DropOlderIsSuffix(q: seq<FrameData>, cutoff: int)
    ensures DropOlder(q, cutoff) == q[|q| - |DropOlder(q, cutoff)|..]
  {
    if q != [] && q[0].timestamp < cutoff {
      DropOlderIsSuffix(q[1..], cutoff);
      assert q[1..][|q[1..]| - |DropOlder(q[1..], cutoff)|..] == q[|q| - |DropOlder(q, cutoff)|..];
    }
  }

  /** The queue after set_max_size(n): pop the front until at most n remain. */
  function KeepNewest(q: seq<FrameData>, n: nat): (r: seq<FrameData>)
    ensures |r| == if |q| > n then n else |q|
    ensures r == q[|q| - |r|..]
  { if |q| > n then q[|q| - n..] else q }

  /** get_frame_by_id: the data of the first frame with that id. */
  function FindById(q: seq<FrameData>, id: nat): (r: Option<seq<Byte>>)
    ensures r.None? <==> forall i :: 0 <= i < |q| ==> q[i].frameId != id
    ensures r.Some? ==> exists i :: 0 <= i < |q| && q[i].frameId == id && q[i].data == r.value
  {
    if q == [] then None
    else if q[0].frameId == id then Some(q[0].data)
    else
      var r := FindById(q[1..], id);
      if r.Some? then
        var i :| 0 <= i < |q[1..]| && q[1..][i].frameId == id && q[1..][i].data == r.value;
        assert q[i + 1] == q[1..][i];
        r
      else r
  }

  /** get_frames_since: frames with timestamp at or after `since`, in queue order. */
  function FramesSince(q: seq<FrameData>, since: nat): (r: seq<FrameData>)
    ensures |r| <= |q|
    ensures forall f :: f in r <==> f in q && f.timestamp >= since
  {
    if q == [] then []
    else (if q[0].timestamp >= since then [q[0]] else []) + FramesSince(q[1..], since)
  }

  /** The filter works frame by frame, so it keeps the queue order: it distributes over concatenation. */
  lemma {:induction false} FramesSinceAppend(a: seq<FrameData>, b: seq<FrameData>, since: nat)
    ensures FramesSince(a + b, since) == FramesSince(a, since) + FramesSince(b, since)
  {
    if a == [] {
      assert a + b == b;
    } else {
      assert (a + b)[0] == a[0];
      assert (a + b)[1..] == a[1..] + b;
      FramesSinceAppend(a[1..], b, since);
    }
  }

  function Stats(q: seq<FrameData>, maxSize: nat, totalBytes: nat, counter: nat): (s: FrameBufferStats)
    ensures s.currentFrames == |q| && s.maxFrames == maxSize && s.totalBytes == totalBytes
    ensures s.totalFramesProcessed == counter
    ensures q == [] ==> s.averageFrameSizeBytes == 0 && s.bufferDurationMs == 0
    ensures q != [] ==> s.averageFrameSizeBytes == totalBytes / |q|
    ensures q != [] ==> s.bufferDurationMs == SaturatingSub(q[|q| - 1].timestamp, q[0].timestamp)
  {
    var avg := if q != [] then totalBytes / |q| else 0;
    var dur := if q != [] then SaturatingSub(q[|q| - 1].timestamp, q[0].timestamp) else 0;
    FrameBufferStats(|q|, maxSize, totalBytes, avg, dur, counter)
  }

  // ----------------------------------------------------------- properties

  lemma {:induction false} TotalSizeAppend(q: seq<FrameData>, f: FrameData)
    ensures TotalSize(q + [f]) == TotalSize(q) + f.sizeBytes
  {
    if q != [] {
      assert (q + [f])[1..] == q[1..] + [f];
      TotalSizeAppend(q[1..], f);
    }
  }

  /** Evicting the front subtracts exactly its size, so the saturating subtraction never clamps. */
  lemma EvictFront(q: seq<FrameData>)
    requires q != []
    ensures SaturatingSub(TotalSize(q), q[0].sizeBytes) == TotalSize(q[1..])
  {
  }

  /** Adding a frame with a larger id and its exact size keeps both queue invariants. */
  lemma AdmittedKeepsOrder(q: seq<FrameData>, maxSize: nat, f: FrameData)
    requires IdsIncreasing(q) && SizesExact(q)
    requires forall i :: 0 <= i < |q| ==> q[i].frameId < f.frameId
    requires f.sizeBytes == |f.data|
    ensures IdsIncreasing(Admitted(q, maxSize, f)) && SizesExact(Admitted(q, maxSize, f))
  {
    var base := if |q| >= maxSize && q != [] then q[1..] else q;
    assert forall i :: 0 <= i < |base| ==> base[i] == q[i + |q| - |base|];
    var r := base + [f];
    forall i, j | 0 <= i < j < |r| ensures r[i].frameId < r[j].frameId {
      if j < |base| {
        assert r[i] == q[i + |q| - |base|] && r[j] == q[j + |q| - |base|];
      }
    }
  }

  /** The frame just added is the latest one, and get_frame_by_id finds it by the counter's value. */
  lemma LatestIsNewest(q: seq<FrameData>, maxSize: nat, f: FrameData)
    requires IdsIncreasing(q) && SizesExact(q) && f.sizeBytes == |f.data|
    requires forall i :: 0 <= i < |q| ==> q[i].frameId < f.frameId
    ensures Admitted(q, maxSize, f)[|Admitted(q, maxSize, f)| - 1].data == f.data
    ensures FindById(Admitted(q, maxSize, f), f.frameId) == Some(f.data)
  {
    var r := Admitted(q, maxSize, f);
    AdmittedKeepsOrder(q, maxSize, f);
    FindUnique(r, |r| - 1);
  }

  /** With increasing ids, get_frame_by_id finds the one frame with that id. */
  lemma FindUnique(q: seq<FrameData>, k: nat)
    requires IdsIncreasing(q) && k < |q|
    ensures FindById(q, q[k].frameId) == Some(q[k].data)
  {
    if k > 0 {
      assert q[0].frameId < q[k].frameId;
      assert IdsIncreasing(q[1..]) by {
        forall i, j | 0 <= i < j < |q[1..]| ensures q[1..][i].frameId < q[1..][j].frameId {
          assert q[1..][i] == q[i + 1] && q[1..][j] == q[j + 1];
        }
      }
      FindUnique(q[1..], k - 1);
    }
  }

  lemma {:induction false} SuffixTotal(q: seq<FrameData>, k: nat)
    requires k <= |q|
    ensures TotalSize(q[k..]) <= TotalSize(q)
    decreases k
  {
    if k > 0 {
      assert q[k..] == q[1..][k - 1..];
      SuffixTotal(q[1..], k - 1);
    }
  }

  predicate IdsBounded(q: seq<FrameData>, counter: nat)
  { forall i :: 0 <= i < |q| ==> 1 <= q[i].frameId <= counter }

  /** The queue invariants: exact running total, increasing ids issued by the counter, exact sizes. */
  ghost predicate WellFormed(q: seq<FrameData>, total: nat, counter: nat)
  {
    total == TotalSize(q) && IdsIncreasing(q) && SizesExact(q) && IdsBounded(q, counter)
  }

  lemma SuffixKeepsInvariants(q: seq<FrameData>, total: nat, counter: nat, k: nat)
    requires k <= |q| && WellFormed(q, total, counter)
    ensures WellFormed(q[k..], TotalSize(q[k..]), counter)
  {
    assert forall i :: 0 <= i < |q| - k ==> q[k..][i] == q[k + i];
  }

  // -------------------------------------------- loops over a local queue

  /** The while-loop of cleanup_old_frames, with its running total. */
  method PopOlder(q: seq<FrameData>, total: nat, ghost counter: nat, cutoff: int) returns (r: seq<FrameData>, t: nat)
    requires WellFormed(q, total, counter)
    ensures r == DropOlder(q, cutoff) && WellFormed(r, t, counter)
  {
    r, t := q, total;
    while r != [] && r[0].timestamp < cutoff
      invariant DropOlder(r, cutoff) == DropOlder(q, cutoff)
      invariant t == TotalSize(r)
      decreases |r|
    {
      EvictFront(r);
      t := SaturatingSub(t, r[0].sizeBytes);
      r := r[1..];
    }
    DropOlderIsSuffix(q, cutoff);
    SuffixKeepsInvariants(q, total, counter, |q| - |r|);
  }

  /** The while-loop of set_max_size, with its running total. */
  method PopExcess(q: seq<FrameData>, total: nat, n: nat) returns (r: seq<FrameData>, t: nat)
    requires total == TotalSize(q)
    ensures r == KeepNewest(q, n) && t == TotalSize(r)
  {
    r, t := q, total;
    while |r| > n
      invariant |r| <= |q| && r == q[|q| - |r|..]
      invariant |q| > n ==> |r| >= n
      invariant |q| <= n ==> r == q
      invariant t == TotalSize(r)
      decreases |r|
    {
      EvictFront(r);
      t := SaturatingSub(t, r[0].sizeBytes);
      assert r[1..] == q[|q| - (|r| - 1)..];
      r := r[1..];
    }
  }

  // ---------------------------------------------------------------- buffer

  class FrameBuffer {
    var buffer: seq<FrameData>
    const maxSize: nat
    var frameCounter: nat
    var totalBytes: nat

    ghost predicate Valid()
      reads this
    {
      WellFormed(buffer, totalBytes, frameCounter)
    }

    constructor (maxSize: nat)
      ensures Valid()
      ensures this.maxSize == maxSize && buffer == [] && frameCounter == 0 && totalBytes == 0
    {
      this.maxSize := maxSize;
      buffer := [];
      frameCounter := 0;
      totalBytes := 0;
    }

    /** add_frame: the new frame's id is the incremented counter. */
    method AddFrame(data: seq<Byte>, now: nat)
      requires Valid()
      modifies this
      ensures Valid()
      ensures frameCounter == old(frameCounter) + 1
      ensures buffer == Admitted(old(buffer), maxSize, FrameData(data, now, frameCounter, |data|))
      ensures old(|buffer|) <= Max1(maxSize) ==> |buffer| <= Max1(maxSize)
    {
      frameCounter := frameCounter + 1;
      var frame := FrameData(data, now, frameCounter, |data|);
      AdmittedKeepsOrder(buffer, maxSize, frame);
      if |buffer| >= maxSize && buffer != [] {
        EvictFront(buffer);
        totalBytes := SaturatingSub(totalBytes, buffer[0].sizeBytes);
        buffer := buffer[1..];
      }
      TotalSizeAppend(buffer, frame);
      totalBytes := totalBytes + frame.sizeBytes;
      buffer := buffer + [frame];
    }

    method GetLatestFrame() returns (r: Option<seq<Byte>>)
      ensures buffer == [] ==> r.None?
      ensures buffer != [] ==> r == Some(buffer[|buffer| - 1].data)
    {
      if buffer == [] {
        r := None;
      } else {
        r := Some(buffer[|buffer| - 1].data);
      }
    }

    method GetFrameById(id: nat) returns (r: Option<seq<Byte>>)
      requires Valid()
      ensures r == FindById(buffer, id)
      ensures forall k :: 0 <= k < |buffer| && buffer[k].frameId == id ==> r == Some(buffer[k].data)
    {
      r := FindById(buffer, id);
      forall k | 0 <= k < |buffer| && buffer[k].frameId == id ensures r == Some(buffer[k].data) {
        FindUnique(buffer, k);
      }
    }

    method GetFramesSince(since: nat) returns (r: seq<FrameData>)
      ensures r == FramesSince(buffer, since)
    {
      r := FramesSince(buffer, since);
    }

    /** clear: empties the queue and the total; the counter is kept. */
    method Clear()
      requires Valid()
      modifies this
      ensures Valid()
      ensures buffer == [] && totalBytes == 0 && frameCounter == old(frameCounter)
    {
      buffer := [];
      totalBytes := 0;
    }

    method GetBufferStats() returns (s: FrameBufferStats)
      ensures s == Stats(buffer, maxSize, totalBytes, frameCounter)
    {
      s := Stats(buffer, maxSize, totalBytes, frameCounter);
    }

    /** cleanup_old_frames: only frames older than now − max_age, and only from the front. */
    method CleanupOldFrames(maxAge: nat, now: nat)
      requires Valid()
      modifies this
      ensures Valid()
      ensures buffer == DropOlder(old(buffer), now as int - maxAge as int)
      ensures frameCounter == old(frameCounter)
    {
      var q, t := PopOlder(buffer, totalBytes, frameCounter, now as int - maxAge as int);
      buffer, totalBytes := q, t;
    }

    /** set_max_size: trims to the new size; later adds still evict against the original maxSize. */
    method SetMaxSize(newMaxSize: nat)
      requires Valid()
      modifies this
      ensures Valid()
      ensures buffer == KeepNewest(old(buffer), newMaxSize)
      ensures frameCounter == old(frameCounter)
    {
      var q, t := PopExcess(buffer, totalBytes, newMaxSize);
      SuffixKeepsInvariants(buffer, totalBytes, frameCounter, |buffer| - |q|);
      buffer, totalBytes := q, t;
    }
  }
}
