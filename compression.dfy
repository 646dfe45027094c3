/**
 * The streaming compressor (`Compressor`): full frames as JPEG, delta
 * frames over 16×16 blocks, the bincode layout of the delta header and of
 * each block record, and the receiving side that applies a delta frame to
 * a base frame.
 *
 * bincode's default encoding writes an enum as its u32 variant index and
 * every integer as fixed-width little-endian, with no padding: the header
 * (frame type, block count, timestamp) takes 4 + 4 + 8 = 16 bytes and a
 * block record (x, y, width, height, data size) 5 · 4 = 20 bytes.
 */
module Compression {
  import opened Text
  import opened Image
  import opened Tiling
  import opened Streaming

  // ----------------------------------------------------------- little-endian integers

  function Pow256(k: nat): (p: nat)
    ensures p >= 1
  {
    if k == 0 then 1 else 256 * Pow256(k - 1)
  }

  const U32Bound: nat := 0x1_0000_0000
  const U64Bound: nat := 0x1_0000_0000_0000_0000

  lemma Pow256Bounds()
    ensures Pow256(4) == U32Bound && Pow256(8) == U64Bound
  {
    assert Pow256(2) == 65536;
    assert Pow256(4) == 65536 * 65536;
    assert Pow256(8) == Pow256(4) * Pow256(4) by {
      assert Pow256(6) == 65536 * Pow256(4);
    }
  }

  /** `n as uK` written little-endian in k bytes: only n mod 256^k survives. */
  function LeBytes(n: nat, k: nat): (bs: seq<Byte>)
    ensures |bs| == k
  {
    if k == 0 then [] else [n % 256] + LeBytes(n / 256, k - 1)
  }

  /** A little-endian unsigned integer read back. */
  function LeValue(bs: seq<Byte>): nat
  {
    if bs == [] then 0 else bs[0] + 256 * LeValue(bs[1..])
  }

  lemma ModUnique(n: nat, d: nat, q: nat, r: nat)
    requires d > 0 && r < d && n == q * d + r
    ensures n / d == q && n % d == r
  {
    DivUnique(n, d, q, r);
  }

  /** Splitting off the low byte: n mod 256p is its low byte plus 256 times (n / 256) mod p. */
  lemma ModSplit(n: nat, p: nat)
    requires p > 0
    ensures n % (256 * p) == n % 256 + 256 * ((n / 256) % p)
  {
    var q, r := n / 256, n % 256;
    var q2, r2 := q / p, q % p;
    assert n == (256 * p) * q2 + (256 * r2 + r) by {
      assert n == 256 * q + r;
      assert q == p * q2 + r2;
      assert 256 * q == 256 * (p * q2) + 256 * r2;
      assert 256 * (p * q2) == (256 * p) * q2;
    }
    assert 256 * r2 + r < 256 * p by {
      MulLe(r2 + 1, p, 256);
    }
    ModUnique(n, 256 * p, q2, 256 * r2 + r);
  }

  /** Writing then reading k bytes gives the value truncated to k bytes. */
  lemma {:induction false} LeRoundTrip(n: nat, k: nat)
    ensures LeValue(LeBytes(n, k)) == n % Pow256(k)
  {
    if k > 0 {
      LeRoundTrip(n / 256, k - 1);
      assert LeBytes(n, k)[1..] == LeBytes(n / 256, k - 1);
      ModSplit(n, Pow256(k - 1));
    }
  }

  /** A u32 written and read back is itself. */
  lemma LeRoundTrip32(n: nat)
    requires n < U32Bound
    ensures LeValue(LeBytes(n, 4)) == n
  {
    LeRoundTrip(n, 4);
    Pow256Bounds();
  }

  /** Reading then writing the same number of bytes gives the bytes back. */
  lemma {:induction false} LeBytesOfValue(bs: seq<Byte>)
    ensures LeBytes(LeValue(bs), |bs|) == bs
  {
    if bs != [] {
      var v, v' := LeValue(bs), LeValue(bs[1..]);
      ModUnique(v, 256, v', bs[0]);
      LeBytesOfValue(bs[1..]);
    }
  }

  // ----------------------------------------------------------- the delta header

  datatype DeltaFrameType = Full | Delta | NoChange

  function VariantIndex(t: DeltaFrameType): nat
  {
    match t
    case Full => 0
    case Delta => 1
    case NoChange => 2
  }

  datatype DeltaFrameHeader = DeltaFrameHeader(frameType: DeltaFrameType, blockCount: nat, timestamp: nat)

  const HeaderSize: nat := 16

  /** bincode::serialize of a header; the count and timestamp are the u32 and u64 the source casts to. */
  function EncodeHeader(h: DeltaFrameHeader): (bs: seq<Byte>)
    ensures |bs| == HeaderSize
  {
    LeBytes(VariantIndex(h.frameType), 4) + LeBytes(h.blockCount, 4) + LeBytes(h.timestamp, 8)
  }

  /**
   * The error text bincode 1 displays when the input ends before the value
   * does: its `io error: ` prefix on the reader's UnexpectedEof.
   */
  const EndOfInput: string := "io error: failed to fill whole buffer"

  /** The error text of `std::io::Read::read_exact` when the input ends before the buffer is full. */
  const ShortRead: string := "failed to fill whole buffer"

  /** The error text serde's derived enum visitor gives bincode for a tag that names no variant. */
  function InvalidVariant(tag: nat): string
  {
    "invalid value: integer `" + NatToString(tag) + "`, expected variant index 0 <= i < 3"
  }

  /** bincode::deserialize_from of a header: the header and the input after it. */
  function DecodeHeader(data: seq<Byte>): (r: Result<(DeltaFrameHeader, seq<Byte>)>)
    ensures r.Ok? ==> |data| >= HeaderSize && r.value.1 == data[HeaderSize..]
  {
    if |data| < 4 then Err(EndOfInput)
    else
      var tag := LeValue(data[..4]);
      if tag > 2 then Err(InvalidVariant(tag))
      else if |data| < HeaderSize then Err(EndOfInput)
      else
        var t := if tag == 0 then Full else if tag == 1 then Delta else NoChange;
        Ok((DeltaFrameHeader(t, LeValue(data[4..8]), LeValue(data[8..16])), data[16..]))
  }

  /** The header as it reads back: count and timestamp truncated to u32 and u64. */
  function Truncated(h: DeltaFrameHeader): DeltaFrameHeader
  {
    DeltaFrameHeader(h.frameType, h.blockCount % U32Bound, h.timestamp % U64Bound)
  }

  /** A written header reads back (truncated to its field widths) and leaves the rest of the input. */
  lemma HeaderRoundTrip(h: DeltaFrameHeader, rest: seq<Byte>)
    ensures DecodeHeader(EncodeHeader(h) + rest) == Ok((Truncated(h), rest))
  {
    var a, b, c := LeBytes(VariantIndex(h.frameType), 4), LeBytes(h.blockCount, 4), LeBytes(h.timestamp, 8);
    var data := EncodeHeader(h) + rest;
    assert data == a + b + c + rest;
    assert data[..4] == a && data[4..8] == b && data[8..16] == c && data[16..] == rest;
    Pow256Bounds();
    LeRoundTrip(VariantIndex(h.frameType), 4);
    LeRoundTrip(h.blockCount, 4);
    LeRoundTrip(h.timestamp, 8);
  }

  /** Data opening with byte 0xFF (as every JPEG stream does) is never read as a delta frame. */
  lemma JpegIsNotADeltaFrame(data: seq<Byte>)
    requires |data| >= 1 && data[0] == 0xFF
    ensures DecodeHeader(data) == if |data| < 4 then Err(EndOfInput) else Err(InvalidVariant(LeValue(data[..4])))
  {
    if |data| >= 4 {
      assert data[..4][0] == 0xFF;
    }
  }

  // ----------------------------------------------------------- block records

  datatype DeltaBlock = DeltaBlock(x: nat, y: nat, width: nat, height: nat, dataSize: nat)

  const BlockRecordSize: nat := 20

  function EncodeBlock(b: DeltaBlock): (bs: seq<Byte>)
    ensures |bs| == BlockRecordSize
  {
    LeBytes(b.x, 4) + LeBytes(b.y, 4) + LeBytes(b.width, 4) + LeBytes(b.height, 4) + LeBytes(b.dataSize, 4)
  }

  function DecodeBlock(data: seq<Byte>): (r: Result<(DeltaBlock, seq<Byte>)>)
    ensures r.Ok? <==> |data| >= BlockRecordSize
    ensures r.Ok? ==> r.value.1 == data[BlockRecordSize..]
  {
    if |data| < BlockRecordSize then Err(EndOfInput)
    else
      Ok((DeltaBlock(LeValue(data[..4]), LeValue(data[4..8]), LeValue(data[8..12]), LeValue(data[12..16]),
                     LeValue(data[16..20])), data[20..]))
  }

  /** Every field fits the u32 the source stores it in. */
  predicate FitsU32(b: DeltaBlock)
  {
    b.x < U32Bound && b.y < U32Bound && b.width < U32Bound && b.height < U32Bound && b.dataSize < U32Bound
  }

  lemma BlockRoundTrip(b: DeltaBlock, rest: seq<Byte>)
    requires FitsU32(b)
    ensures DecodeBlock(EncodeBlock(b) + rest) == Ok((b, rest))
  {
    var f0, f1, f2, f3, f4 := LeBytes(b.x, 4), LeBytes(b.y, 4), LeBytes(b.width, 4), LeBytes(b.height, 4), LeBytes(b.dataSize, 4);
    var data := EncodeBlock(b) + rest;
    assert data == f0 + (f1 + (f2 + (f3 + (f4 + rest))));
    assert data[..4] == f0;
    var d1 := data[4..];
    assert d1 == f1 + (f2 + (f3 + (f4 + rest)));
    assert data[4..8] == d1[..4] == f1;
    var d2 := d1[4..];
    assert d2 == f2 + (f3 + (f4 + rest));
    assert data[8..12] == d2[..4] == f2;
    var d3 := d2[4..];
    assert d3 == f3 + (f4 + rest);
    assert data[12..16] == d3[..4] == f3;
    var d4 := d3[4..];
    assert d4 == f4 + rest;
    assert data[16..20] == d4[..4] == f4;
    assert data[20..] == d4[4..] == rest;
    LeRoundTrip32(b.x);
    LeRoundTrip32(b.y);
    LeRoundTrip32(b.width);
    LeRoundTrip32(b.height);
    LeRoundTrip32(b.dataSize);
  }

  // ----------------------------------------------------------- full frames

  /** compress_jpeg: the RGB bytes of the image at the given quality. */
  function CompressJpeg(img: RgbaImage, quality: Byte, jpeg: JpegEncoder): Result<seq<Byte>>
  {
    jpeg(img.width, img.height, RgbOf(Pixels(img)), quality)
  }

  /** compress_frame: WebP, H.264, VP8 and AV1 are not implemented and all fall back to JPEG. */
  function FrameEncoding(t: CompressionType, img: RgbaImage, quality: Byte, jpeg: JpegEncoder): (r: Result<seq<Byte>>)
    ensures r == CompressJpeg(img, quality, jpeg)
  {
    match t
    case JPEG => CompressJpeg(img, quality, jpeg)
    case WebP => CompressJpeg(img, quality, jpeg)
    case H264 => CompressJpeg(img, quality, jpeg)
    case VP8 => CompressJpeg(img, quality, jpeg)
    case AV1 => CompressJpeg(img, quality, jpeg)
  }

  /** decompress_frame: every type is decoded as JPEG. */
  function Decompress(t: CompressionType, data: seq<Byte>, decode: FrameDecoder): (r: Result<Frame>)
    ensures r == decode(data)
  {
    match t
    case JPEG => decode(data)
    case WebP => decode(data)
    case H264 => decode(data)
    case VP8 => decode(data)
    case AV1 => decode(data)
  }

  // ----------------------------------------------------------- delta frames

  const DeltaBlockSize: nat := 16

  /** block_changed: a pixel differs when some channel moved by more than 10; a block when over 5% of it did. */
  const DeltaDetector: Detector := Detector(AnyChannelAbove(10), FractionAbove(5, 100))

  /** total_blocks: ⌈w/16⌉·⌈h/16⌉. */
  function TotalBlocks(w: nat, h: nat): nat
  {
    CeilDiv(w, DeltaBlockSize) * CeilDiv(h, DeltaBlockSize)
  }

  /** The block of img below t, copied into a fresh buffer (pixels past the image stay zero). */
  function BlockImage(img: RgbaImage, t: Region): (c: RgbaImage)
    requires WellFormed(img)
    ensures WellFormed(c)
  {
    Crop(img, t.x, t.y, t.width, t.height)
  }

  /** The records and JPEG data of the blocks, in order; the first block that fails to encode fails all. */
  function BlockPayloads(img: RgbaImage, blocks: seq<Region>, quality: Byte, jpeg: JpegEncoder): Result<seq<Byte>>
    requires WellFormed(img)
  {
    if blocks == [] then Ok([])
    else
      var t := blocks[0];
      match CompressJpeg(BlockImage(img, t), quality, jpeg)
      case Err(e) => Err(e)
      case Ok(bytes) =>
        match BlockPayloads(img, blocks[1..], quality, jpeg)
        case Err(e) => Err(e)
        case Ok(more) => Ok(EncodeBlock(DeltaBlock(t.x, t.y, t.width, t.height, |bytes|)) + bytes + more)
  }

  /** create_delta_frame: a Delta header counting the blocks, then each block's record and data. */
  function DeltaFrame(img: RgbaImage, blocks: seq<Region>, quality: Byte, jpeg: JpegEncoder, nowMs: nat): Result<seq<Byte>>
    requires WellFormed(img)
  {
    match BlockPayloads(img, blocks, quality, jpeg)
    case Err(e) => Err(e)
    case Ok(p) => Ok(EncodeHeader(DeltaFrameHeader(Delta, |blocks|, nowMs)) + p)
  }

  /** create_no_change_frame: a bare NoChange header. */
  function NoChangeFrame(nowMs: nat): seq<Byte>
  {
    EncodeHeader(DeltaFrameHeader(NoChange, 0, nowMs))
  }

  /** The blocks that changed between the frames, in row-major order. */
  function ChangedBlocks(current: RgbaImage, previous: RgbaImage): seq<Region>
    requires WellFormed(current) && WellFormed(previous) && SameDimensions(current, previous)
  {
    ChangedIn(current, previous, DeltaDetector, Tiles(current.width, current.height, DeltaBlockSize))
  }

  /**
   * compress_frame_delta: a full frame when the dimensions changed or more
   * than half the blocks did (changed/total > 0.5, compared exactly here), a
   * NoChange header when none did, and a delta frame otherwise.
   */
  function DeltaCompressed(t: CompressionType, current: RgbaImage, previous: RgbaImage, quality: Byte,
                           jpeg: JpegEncoder, nowMs: nat): Result<seq<Byte>>
    requires WellFormed(current) && WellFormed(previous)
  {
    if !SameDimensions(current, previous) then FrameEncoding(t, current, quality, jpeg)
    else
      var changed := ChangedBlocks(current, previous);
      if changed == [] then Ok(NoChangeFrame(nowMs))
      else if 2 * |changed| > TotalBlocks(current.width, current.height) then FrameEncoding(t, current, quality, jpeg)
      else DeltaFrame(current, changed, quality, jpeg, nowMs)
  }

  /** The create_delta_frame loop: append each block's record and JPEG data after the header. */
  method CreateDeltaFrame(img: RgbaImage, blocks: seq<Region>, quality: Byte, jpeg: JpegEncoder, nowMs: nat)
    returns (r: Result<seq<Byte>>)
    requires WellFormed(img)
    ensures r == DeltaFrame(img, blocks, quality, jpeg, nowMs)
  {
    var header := EncodeHeader(DeltaFrameHeader(Delta, |blocks|, nowMs));
    var deltaData := header;
    var i := 0;
    while i < |blocks|
      invariant 0 <= i <= |blocks|
      invariant DeltaFrame(img, blocks, quality, jpeg, nowMs) ==
        Prepended(deltaData, BlockPayloads(img, blocks[i..], quality, jpeg))
    {
      var t := blocks[i];
      var blockImage := CropBlock(img, t.x, t.y, t.width, t.height);
      var compressed := CompressJpeg(blockImage, quality, jpeg);
      PayloadsStep(img, blocks, i, quality, jpeg, deltaData);
      if compressed.Err? {
        return Err(compressed.error);
      }
      var info := DeltaBlock(t.x, t.y, t.width, t.height, |compressed.value|);
      deltaData := deltaData + EncodeBlock(info) + compressed.value;
      i := i + 1;
    }
    assert blocks[i..] == [];
    assert deltaData + [] == deltaData;
    return Ok(deltaData);
  }

  /** The bytes so far followed by the rest of the payloads, or the error that stopped them. */
  function Prepended(prefix: seq<Byte>, rest: Result<seq<Byte>>): (r: Result<seq<Byte>>)
    ensures rest.Err? ==> r == rest
    ensures rest.Ok? ==> r == Ok(prefix + rest.value)
  {
    match rest
    case Err(e) => Err(e)
    case Ok(p) => Ok(prefix + p)
  }

  /** One turn of the create_delta_frame loop: block i fails the frame, or its record and data join the prefix. */
  lemma PayloadsStep(img: RgbaImage, blocks: seq<Region>, i: nat, quality: Byte, jpeg: JpegEncoder, prefix: seq<Byte>)
    requires WellFormed(img) && i < |blocks|
    ensures var e := CompressJpeg(BlockImage(img, blocks[i]), quality, jpeg);
      e.Err? ==> Prepended(prefix, BlockPayloads(img, blocks[i..], quality, jpeg)) == Err(e.error)
    ensures var t := blocks[i];
      var e := CompressJpeg(BlockImage(img, t), quality, jpeg);
      e.Ok? ==>
        var info := DeltaBlock(t.x, t.y, t.width, t.height, |e.value|);
        Prepended(prefix, BlockPayloads(img, blocks[i..], quality, jpeg)) ==
        Prepended(prefix + EncodeBlock(info) + e.value, BlockPayloads(img, blocks[i + 1..], quality, jpeg))
  {
    var t := blocks[i];
    assert blocks[i..][0] == t && blocks[i..][1..] == blocks[i + 1..];
    var e := CompressJpeg(BlockImage(img, t), quality, jpeg);
    if e.Ok? {
      var info := DeltaBlock(t.x, t.y, t.width, t.height, |e.value|);
      match BlockPayloads(img, blocks[i + 1..], quality, jpeg) {
        case Err(_) =>
        case Ok(more) =>
          ConcatAssoc(prefix, EncodeBlock(info) + e.value, more);
          ConcatAssoc(prefix, EncodeBlock(info), e.value);
      }
    }
  }

  // ----------------------------------------------------------- applying a delta frame

  const FullFrameError: string := "Received full frame in delta context"

  /**
   * The block loop of apply_delta_frame: read a record, read its data,
   * decode it and paste it at (x, y). An error stops the loop, and the
   * blocks pasted before it stay in the frame.
   */
  function ApplyBlocks(base: RgbaImage, data: seq<Byte>, count: nat, decode: FrameDecoder): (r: (Result<()>, RgbaImage))
    requires WellFormed(base)
    ensures WellFormed(r.1) && SameDimensions(r.1, base)
    decreases count
  {
    if count == 0 then (Ok(()), base)
    else
      match DecodeBlock(data)
      case Err(e) => (Err(e), base)
      case Ok((info, rest)) =>
        if |rest| < info.dataSize then (Err(ShortRead), base)
        else
          match decode(rest[..info.dataSize])
          case Err(e) => (Err(e), base)
          case Ok(block) => ApplyBlocks(Paste(base, block, info.x, info.y), rest[info.dataSize..], count - 1, decode)
  }

  /** apply_delta_frame: the result and the base frame after it. */
  function ApplyDelta(base: RgbaImage, data: seq<Byte>, decode: FrameDecoder): (r: (Result<()>, RgbaImage))
    requires WellFormed(base)
    ensures WellFormed(r.1) && SameDimensions(r.1, base)
  {
    match DecodeHeader(data)
    case Err(e) => (Err(e), base)
    case Ok((h, rest)) =>
      match h.frameType
      case NoChange => (Ok(()), base)
      case Full => (Err(FullFrameError), base)
      case Delta => ApplyBlocks(base, rest, h.blockCount, decode)
  }

  /** apply_delta_frame, block by block; `frame` is the base frame after the call. */
  method ApplyDeltaFrame(base: RgbaImage, data: seq<Byte>, decode: FrameDecoder) returns (r: Result<()>, frame: RgbaImage)
    requires WellFormed(base)
    ensures (r, frame) == ApplyDelta(base, data, decode)
  {
    frame := base;
    var header := DecodeHeader(data);
    if header.Err? {
      return Err(header.error), frame;
    }
    var (h, rest) := header.value;
    match h.frameType {
      case NoChange => return Ok(()), frame;
      case Full => return Err(FullFrameError), frame;
      case Delta =>
    }
    var cursor := rest;
    var i := 0;
    while i < h.blockCount
      invariant 0 <= i <= h.blockCount
      invariant WellFormed(frame)
      invariant ApplyBlocks(frame, cursor, h.blockCount - i, decode) == ApplyDelta(base, data, decode)
    {
      var record := DecodeBlock(cursor);
      if record.Err? {
        return Err(record.error), frame;
      }
      var (info, after) := record.value;
      if |after| < info.dataSize {
        return Err(ShortRead), frame;
      }
      var blockData := after[..info.dataSize];
      var block := decode(blockData);
      if block.Err? {
        return Err(block.error), frame;
      }
      frame := PasteBlock(frame, block.value, info.x, info.y);
      cursor := after[info.dataSize..];
      i := i + 1;
    }
    return Ok(()), frame;
  }

  /** A NoChange frame leaves the base as it was. */
  lemma NoChangeKeepsBase(base: RgbaImage, nowMs: nat, decode: FrameDecoder)
    requires WellFormed(base)
    ensures ApplyDelta(base, NoChangeFrame(nowMs), decode) == (Ok(()), base)
  {
    HeaderRoundTrip(DeltaFrameHeader(NoChange, 0, nowMs), []);
    assert NoChangeFrame(nowMs) + [] == NoChangeFrame(nowMs);
  }

  /** A Full header is refused, whatever follows it, and the base is untouched. */
  lemma FullHeaderRejected(base: RgbaImage, count: nat, nowMs: nat, rest: seq<Byte>, decode: FrameDecoder)
    requires WellFormed(base)
    ensures ApplyDelta(base, EncodeHeader(DeltaFrameHeader(Full, count, nowMs)) + rest, decode) == (Err(FullFrameError), base)
  {
    HeaderRoundTrip(DeltaFrameHeader(Full, count, nowMs), rest);
  }

  // ----------------------------------------------------------- the delta round trip

  /** The base with the block of img below each region pasted over it, in order. */
  function PasteAll(base: RgbaImage, img: RgbaImage, blocks: seq<Region>): (r: RgbaImage)
    requires WellFormed(base) && WellFormed(img)
    ensures WellFormed(r) && SameDimensions(r, base)
    decreases |blocks|
  {
    if blocks == [] then base
    else
      var t := blocks[0];
      PasteAll(Paste(base, BlockImage(img, t), t.x, t.y), img, blocks[1..])
  }

  predicate InSomeBlock(blocks: seq<Region>, px: nat, py: nat)
  {
    exists i :: 0 <= i < |blocks| && Tiling.Contains(blocks[i], px, py)
  }

  /** After pasting, a pixel inside some block is img's pixel and any other pixel is the base's. */
  lemma {:induction false} PasteAllPixel(base: RgbaImage, img: RgbaImage, blocks: seq<Region>, px: nat, py: nat)
    requires WellFormed(base) && WellFormed(img) && SameDimensions(base, img)
    requires px < base.width && py < base.height
    ensures PasteAll(base, img, blocks).rows[py][px] == if InSomeBlock(blocks, px, py) then img.rows[py][px] else base.rows[py][px]
    decreases |blocks|
  {
    if blocks != [] {
      var t := blocks[0];
      var next := Paste(base, BlockImage(img, t), t.x, t.y);
      PastePixels(base, BlockImage(img, t), t.x, t.y);
      CropPixels(img, t.x, t.y, t.width, t.height);
      PasteAllPixel(next, img, blocks[1..], px, py);
      if InSomeBlock(blocks[1..], px, py) {
        var i :| 0 <= i < |blocks[1..]| && Tiling.Contains(blocks[1..][i], px, py);
        assert Tiling.Contains(blocks[i + 1], px, py);
      } else if Tiling.Contains(t, px, py) {
        assert Tiling.Contains(blocks[0], px, py);
      } else {
        forall i | 0 <= i < |blocks| ensures !Tiling.Contains(blocks[i], px, py) {
          if i > 0 {
            assert blocks[i] == blocks[1..][i - 1];
          }
        }
      }
    }
  }

  /** The JPEG codec reproduces the block exactly, and the encoding's length fits a u32. */
  predicate RoundTrips(img: RgbaImage, t: Region, quality: Byte, jpeg: JpegEncoder, decode: FrameDecoder)
    requires WellFormed(img)
  {
    var c := BlockImage(img, t);
    var e := CompressJpeg(c, quality, jpeg);
    e.Ok? && |e.value| < U32Bound && decode(e.value).Ok? && decode(e.value).value == c
  }

  predicate RegionFitsU32(t: Region)
  {
    t.x < U32Bound && t.y < U32Bound && t.width < U32Bound && t.height < U32Bound
  }

  /** Every block fits the u32 fields and the codec reproduces it. */
  predicate AllRoundTrip(img: RgbaImage, blocks: seq<Region>, quality: Byte, jpeg: JpegEncoder, decode: FrameDecoder)
    requires WellFormed(img)
    decreases |blocks|
  {
    blocks != [] ==>
      RegionFitsU32(blocks[0]) && RoundTrips(img, blocks[0], quality, jpeg, decode)
      && AllRoundTrip(img, blocks[1..], quality, jpeg, decode)
  }

  lemma {:induction false} AllRoundTripOf(img: RgbaImage, blocks: seq<Region>, quality: Byte, jpeg: JpegEncoder,
                                          decode: FrameDecoder)
    requires WellFormed(img)
    requires forall i :: 0 <= i < |blocks| ==> RegionFitsU32(blocks[i]) && RoundTrips(img, blocks[i], quality, jpeg, decode)
    ensures AllRoundTrip(img, blocks, quality, jpeg, decode)
    decreases |blocks|
  {
    if blocks != [] {
      assert forall i :: 0 <= i < |blocks[1..]| ==> blocks[1..][i] == blocks[i + 1];
      AllRoundTripOf(img, blocks[1..], quality, jpeg, decode);
    }
  }

  /** Reading back the block payloads pastes each block in turn. */
  lemma {:induction false} PayloadsApply(base: RgbaImage, img: RgbaImage, blocks: seq<Region>, quality: Byte,
                                         jpeg: JpegEncoder, decode: FrameDecoder)
    requires WellFormed(base) && WellFormed(img) && AllRoundTrip(img, blocks, quality, jpeg, decode)
    ensures BlockPayloads(img, blocks, quality, jpeg).Ok?
    ensures ApplyBlocks(base, BlockPayloads(img, blocks, quality, jpeg).value, |blocks|, decode) ==
      (Ok(()), PasteAll(base, img, blocks))
    decreases |blocks|
  {
    if blocks != [] {
      var t := blocks[0];
      var next := Paste(base, BlockImage(img, t), t.x, t.y);
      PayloadsApply(next, img, blocks[1..], quality, jpeg, decode);
      var c := BlockImage(img, t);
      var bytes := CompressJpeg(c, quality, jpeg).value;
      var more := BlockPayloads(img, blocks[1..], quality, jpeg).value;
      var info := DeltaBlock(t.x, t.y, t.width, t.height, |bytes|);
      PayloadsCons(img, blocks, quality, jpeg);
      ApplyCons(base, info, bytes, more, |blocks|, decode, c, PasteAll(next, img, blocks[1..]));
      assert PasteAll(base, img, blocks) == PasteAll(next, img, blocks[1..]);
    }
  }

  /** The payload of a non-empty list: the first block's record and data, then the rest's payload. */
  lemma PayloadsCons(img: RgbaImage, blocks: seq<Region>, quality: Byte, jpeg: JpegEncoder)
    requires WellFormed(img) && blocks != []
    requires CompressJpeg(BlockImage(img, blocks[0]), quality, jpeg).Ok?
    requires BlockPayloads(img, blocks[1..], quality, jpeg).Ok?
    ensures var t := blocks[0];
      var bytes := CompressJpeg(BlockImage(img, t), quality, jpeg).value;
      BlockPayloads(img, blocks, quality, jpeg) ==
      Ok(EncodeBlock(DeltaBlock(t.x, t.y, t.width, t.height, |bytes|)) + bytes + BlockPayloads(img, blocks[1..], quality, jpeg).value)
  {
  }

  /** A block record and data the decoder reads back, then blocks that turn the pasted base into `final`. */
  lemma ApplyCons(base: RgbaImage, info: DeltaBlock, bytes: seq<Byte>, more: seq<Byte>, count: nat,
                  decode: FrameDecoder, block: Frame, final: RgbaImage)
    requires WellFormed(base) && FitsU32(info) && info.dataSize == |bytes| && decode(bytes) == Ok(block) && count > 0
    requires ApplyBlocks(Paste(base, block, info.x, info.y), more, count - 1, decode) == (Ok(()), final)
    ensures ApplyBlocks(base, EncodeBlock(info) + bytes + more, count, decode) == (Ok(()), final)
  {
    ApplyOneBlock(base, info, bytes, more, count, decode, block);
  }

  /** A block record followed by data the decoder reads back pastes that block and goes on after the data. */
  lemma ApplyOneBlock(base: RgbaImage, info: DeltaBlock, bytes: seq<Byte>, more: seq<Byte>, count: nat,
                      decode: FrameDecoder, block: Frame)
    requires WellFormed(base) && FitsU32(info) && info.dataSize == |bytes| && decode(bytes) == Ok(block) && count > 0
    ensures ApplyBlocks(base, EncodeBlock(info) + bytes + more, count, decode) ==
      ApplyBlocks(Paste(base, block, info.x, info.y), more, count - 1, decode)
  {
    ConcatAssoc(EncodeBlock(info), bytes, more);
    BlockRoundTrip(info, bytes + more);
    assert (bytes + more)[..|bytes|] == bytes;
    assert (bytes + more)[|bytes|..] == more;
  }

  /** A delta frame of blocks the codec reproduces turns the base into the base with those blocks pasted. */
  lemma DeltaRoundTrip(base: RgbaImage, img: RgbaImage, blocks: seq<Region>, quality: Byte, jpeg: JpegEncoder,
                       decode: FrameDecoder, nowMs: nat)
    requires WellFormed(base) && WellFormed(img) && |blocks| < U32Bound
    requires forall i :: 0 <= i < |blocks| ==> RegionFitsU32(blocks[i]) && RoundTrips(img, blocks[i], quality, jpeg, decode)
    ensures DeltaFrame(img, blocks, quality, jpeg, nowMs).Ok?
    ensures ApplyDelta(base, DeltaFrame(img, blocks, quality, jpeg, nowMs).value, decode) == (Ok(()), PasteAll(base, img, blocks))
  {
    AllRoundTripOf(img, blocks, quality, jpeg, decode);
    PayloadsApply(base, img, blocks, quality, jpeg, decode);
    var p := BlockPayloads(img, blocks, quality, jpeg).value;
    var h := DeltaFrameHeader(Delta, |blocks|, nowMs);
    assert DeltaFrame(img, blocks, quality, jpeg, nowMs) == Ok(EncodeHeader(h) + p);
    HeaderRoundTrip(h, p);
    ModUnique(|blocks|, U32Bound, 0, |blocks|);
    assert Truncated(h).frameType == Delta;
  }

  /**
   * The receiver's view of compress_frame_delta: when the sender chose a
   * NoChange or a delta frame (same dimensions, at most half the blocks
   * changed) and the codec reproduces every block, applying it to the
   * previous frame makes each pixel of a changed block the current frame's
   * and leaves every other pixel the previous frame's.
   */
  lemma DeltaReconstruction(t: CompressionType, current: RgbaImage, previous: RgbaImage, quality: Byte,
                            jpeg: JpegEncoder, decode: FrameDecoder, nowMs: nat, px: nat, py: nat)
    requires WellFormed(current) && WellFormed(previous) && SameDimensions(current, previous)
    requires current.width < U32Bound && current.height < U32Bound
    requires TotalBlocks(current.width, current.height) < U32Bound
    requires forall i :: 0 <= i < |ChangedBlocks(current, previous)| ==>
      RoundTrips(current, ChangedBlocks(current, previous)[i], quality, jpeg, decode)
    requires 2 * |ChangedBlocks(current, previous)| <= TotalBlocks(current.width, current.height)
    requires px < current.width && py < current.height
    ensures DeltaCompressed(t, current, previous, quality, jpeg, nowMs).Ok?
    ensures ApplyDelta(previous, DeltaCompressed(t, current, previous, quality, jpeg, nowMs).value, decode).0 == Ok(())
    ensures ApplyDelta(previous, DeltaCompressed(t, current, previous, quality, jpeg, nowMs).value, decode).1.rows[py][px] ==
      if InSomeBlock(ChangedBlocks(current, previous), px, py) then current.rows[py][px] else previous.rows[py][px]
  {
    var changed := ChangedBlocks(current, previous);
    if changed == [] {
      NoChangeKeepsBase(previous, nowMs, decode);
    } else {
      ChangedTilesFacts(current, previous, DeltaDetector, DeltaBlockSize);
      forall i | 0 <= i < |changed| ensures RegionFitsU32(changed[i]) {
        assert changed[i] in changed;
        assert Inside(changed[i], current.width, current.height);
      }
      DeltaRoundTrip(previous, current, changed, quality, jpeg, decode, nowMs);
      PasteAllPixel(previous, current, changed, px, py);
    }
  }

  // ----------------------------------------------------------- the compressor

  datatype CompressionInfo = CompressionInfo(compressionType: CompressionType, quality: Byte, supportsDelta: bool,
                                             supportsAdaptive: bool)

  class Compressor {
    var config: StreamingConfig
    var jpegQuality: Byte
    /** An f32 in the source; every u8 is exact in it. */
    var webpQuality: real

    /** Both encoder qualities follow the configured quality. */
    ghost predicate Valid()
      reads this
    {
      jpegQuality == config.quality && webpQuality == config.quality as real
    }

    /** Compressor::new: both qualities are taken from the configuration. */
    constructor(config: StreamingConfig)
      ensures this.config == config && jpegQuality == config.quality && webpQuality == config.quality as real
      ensures Valid()
    {
      this.config := config;
      jpegQuality := config.quality;
      webpQuality := config.quality as real;
    }

    /** compress_frame at the current JPEG quality. */
    method CompressFrame(img: RgbaImage, jpeg: JpegEncoder) returns (r: Result<seq<Byte>>)
      ensures r == CompressJpeg(img, jpegQuality, jpeg)
    {
      r := FrameEncoding(config.compressionType, img, jpegQuality, jpeg);
    }

    /** compress_frame_delta. */
    method CompressFrameDelta(current: RgbaImage, previous: RgbaImage, jpeg: JpegEncoder, nowMs: nat)
      returns (r: Result<seq<Byte>>)
      requires WellFormed(current) && WellFormed(previous)
      ensures r == DeltaCompressed(config.compressionType, current, previous, jpegQuality, jpeg, nowMs)
    {
      if !SameDimensions(current, previous) {
        r := CompressFrame(current, jpeg);
        return;
      }
      var changed := ChangedTiles(current, previous, DeltaDetector, DeltaBlockSize);
      if changed == [] {
        return Ok(NoChangeFrame(nowMs));
      }
      var totalBlocks := TotalBlocks(current.width, current.height);
      if 2 * |changed| > totalBlocks {
        r := CompressFrame(current, jpeg);
        return;
      }
      r := CreateDeltaFrame(current, changed, jpegQuality, jpeg, nowMs);
    }

    /** set_quality: out-of-range values are refused and change nothing. */
    method SetQuality(quality: Byte) returns (r: Result<()>)
      modifies this
      ensures !ValidQuality(quality) ==> r == Err(QualityError) && unchanged(this)
      ensures ValidQuality(quality) ==>
        r == Ok(()) && jpegQuality == quality && webpQuality == quality as real && config == old(config).(quality := quality)
      ensures old(Valid()) ==> Valid()
    {
      if quality == 0 || quality > 100 {
        return Err(QualityError);
      }
      jpegQuality := quality;
      webpQuality := quality as real;
      config := config.(quality := quality);
      return Ok(());
    }

    /** get_compression_info: delta is always supported; adaptivity follows the configuration. */
    function GetCompressionInfo(): (info: CompressionInfo)
      reads this
      ensures info.supportsDelta && info.supportsAdaptive == config.adaptiveQuality
      ensures info.compressionType == config.compressionType && info.quality == config.quality
    {
      CompressionInfo(config.compressionType, config.quality, true, config.adaptiveQuality)
    }
  }
}
