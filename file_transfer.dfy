/**
 * The file-transfer manager (`FileTransferManager`): transfer sessions keyed
 * by id, the chunk arithmetic of sending and receiving, progress and ETA,
 * and the "name (n).ext" search for a free file name.
 *
 * The filesystem is an input: a path's kind and content when sending, the
 * set of existing paths when looking for a free name, and the outcome of a
 * write; writes and removals the manager performs are recorded. Compression,
 * decompression and the checksum are function-valued inputs. Instants are
 * nanoseconds; UUIDs are supplied by the caller.
 */
module FileTransfer {
  import opened Text

  const NanosPerSecond: nat := 1_000_000_000
  const SpeedWindowNs: nat := 10 * NanosPerSecond
  const MaxDuplicateSuffix: nat := 1000

  datatype CompressionType = NoCompression | Gzip | Lz4

  datatype TransferStatus = Pending | Transferring | Paused | Completed | Failed | Cancelled

  datatype TransferConfig = TransferConfig(
    maxConcurrentTransfers: nat,
    chunkSize: nat,
    maxSpeedBps: Option<nat>,
    enableCompression: bool,
    compressionLevel: nat,
    maxFileSize: nat,
    allowedExtensions: Option<seq<string>>,
    downloadDirectory: string)

  /** TransferConfig::default; the download directory is the platform's, supplied by the caller. */
  function DefaultConfig(downloadDirectory: string): (c: TransferConfig)
    ensures c.chunkSize == 65536 && c.maxFileSize == 10 * 1024 * 1024 * 1024
    ensures c.maxConcurrentTransfers == 3 && c.enableCompression && c.allowedExtensions.None?
  { TransferConfig(3, 64 * 1024, None, true, 6, 10 * 1024 * 1024 * 1024, None, downloadDirectory) }

  datatype FileTransferRequest = FileTransferRequest(
    transferId: string,
    fileName: string,
    fileSize: nat,
    chunkSize: nat,
    compression: CompressionType,
    encryptionEnabled: bool,
    checksum: Option<string>)

  datatype FileTransferResponse = FileTransferResponse(
    transferId: string,
    accepted: bool,
    reason: Option<string>,
    suggestedPath: Option<string>)

  datatype FileChunk = FileChunk(
    transferId: string,
    chunkIndex: nat,
    data: seq<Byte>,
    isCompressed: bool,
    checksum: string)

  datatype FileTransferProgress = FileTransferProgress(
    transferId: string,
    bytesTransferred: nat,
    totalBytes: nat,
    speedBps: nat,
    etaSeconds: Option<nat>,
    status: TransferStatus)

  /** One speed sample: the instant and the byte count at that instant. */
  datatype SpeedSample = SpeedSample(at: nat, bytes: nat)

  datatype TransferSession = TransferSession(
    id: string,
    filePath: string,
    fileSize: nat,
    bytesTransferred: nat,
    startTime: nat,
    lastChunkTime: nat,
    status: TransferStatus,
    isUpload: bool,
    speedSamples: seq<SpeedSample>)

  datatype TransferEvent =
    | TransferStarted(transferId: string, fileName: string)
    | ProgressUpdate(progress: FileTransferProgress)
    | TransferCompleted(transferId: string)
    | TransferFailed(transferId: string, error: string)
    | TransferCancelled(transferId: string)

  /** What the filesystem says about a path being sent. */
  datatype PathInfo = Missing | NotAFile | RegularFile(data: seq<Byte>)

  /** A chunk written into a file at a byte offset. */
  datatype FileWrite = FileWrite(path: string, offset: nat, data: seq<Byte>)

  type Codec = seq<Byte> -> Result<seq<Byte>>

  // ----------------------------------------------------------- paths

  function LastIndexOf(s: string, c: char): (r: Option<nat>)
    ensures r.None? <==> c !in s
    ensures r.Some? ==> r.value < |s| && s[r.value] == c && c !in s[r.value + 1..]
  {
    if s == [] then None
    else if s[|s| - 1] == c then Some(|s| - 1)
    else
      var r := LastIndexOf(s[..|s| - 1], c);
      if r.Some? then
        assert s[r.value + 1..] == s[..|s| - 1][r.value + 1..] + [s[|s| - 1]];
        r
      else r
  }

  /** A path as its parent and its last component (the part after the last '/'). */
  function ParentOf(p: string): string
  {
    match LastIndexOf(p, '/')
      case None => ""
      case Some(j) => if j == 0 then "/" else p[..j]
  }

  /** `Path::file_name` on a path without a trailing '/': the text after the last '/', or the whole path. */
  function FileNameOf(p: string): (n: string)
    ensures '/' !in n && EndsWith(p, n)
    ensures '/' !in p ==> n == p
    ensures '/' in p ==> |n| < |p| && p[|p| - |n| - 1] == '/'
  {
    match LastIndexOf(p, '/')
      case None => p
      case Some(j) => p[j + 1..]
  }

  /** `Path::join`: an absolute name replaces the directory. */
  function JoinPath(dir: string, name: string): (r: string)
    ensures StartsWith(name, "/") || dir == [] ==> r == name
    ensures !StartsWith(name, "/") && dir != [] ==>
      StartsWith(r, dir) && EndsWith(r, name) && |r| > |name| && r[|r| - |name| - 1] == '/'
    ensures !StartsWith(name, "/") && dir != [] ==> |r| == |dir| + |name| + (if EndsWith(dir, "/") then 0 else 1)
  {
    if StartsWith(name, "/") || dir == [] then name
    else if EndsWith(dir, "/") then dir + name
    else dir + "/" + name
  }

  /**
   * `Path::extension` of a file name: the text after the last '.', unless
   * there is no '.', the only '.' starts the name, or the name is "..".
   */
  function Extension(name: string): (r: Option<string>)
    ensures r.None? <==> name == ".." || '.' !in name || LastIndexOf(name, '.') == Some(0)
    ensures r.Some? ==> '.' !in r.value && EndsWith(name, "." + r.value) && |r.value| + 1 < |name|
  {
    if name == ".." then None
    else match LastIndexOf(name, '.')
      case None => None
      case Some(j) => if j == 0 then None else Some(name[j + 1..])
  }

  /** `Path::file_stem`: the name without its extension. */
  function Stem(name: string): (r: string)
    ensures Extension(name).None? ==> r == name
    ensures Extension(name).Some? ==> r + "." + Extension(name).value == name
  {
    if name == ".." then name
    else match LastIndexOf(name, '.')
      case None => name
      case Some(j) => if j == 0 then name else name[..j]
  }

  /** The n-th candidate of generate_unique_path: "stem (n).ext", or "stem (n)" without extension. */
  function Candidate(base: string, n: nat): string
  {
    var name := FileNameOf(base);
    var stem := Stem(name);
    var ext := Extension(name).UnwrapOr("");
    var newName := if ext == [] then stem + " (" + NatToString(n) + ")" else stem + " (" + NatToString(n) + ")." + ext;
    JoinPath(ParentOf(base), newName)
  }

  /** Candidate n is free and every earlier one is taken. */
  predicate FirstFree(base: string, existing: set<string>, n: nat)
  {
    Candidate(base, n) !in existing && forall m :: 1 <= m < n ==> Candidate(base, m) in existing
  }

  /** generate_unique_path: the first free candidate for n = 1 .. 1000, else an error. */
  method GenerateUniquePath(base: string, existing: set<string>) returns (r: Result<string>)
    ensures r.Ok? ==>
      exists n :: 1 <= n <= MaxDuplicateSuffix && r.value == Candidate(base, n) && FirstFree(base, existing, n)
    ensures r.Err? ==>
      r.error == "Too many duplicate files" && forall m :: 1 <= m <= MaxDuplicateSuffix ==> Candidate(base, m) in existing
  {
    var counter := 1;
    while true
      invariant 1 <= counter <= MaxDuplicateSuffix
      invariant forall m :: 1 <= m < counter ==> Candidate(base, m) in existing
      decreases MaxDuplicateSuffix - counter
    {
      var newPath := Candidate(base, counter);
      if newPath !in existing {
        assert FirstFree(base, existing, counter);
        return Ok(newPath);
      }
      TakenUpTo(base, existing, counter);
      counter := counter + 1;
      if counter > MaxDuplicateSuffix {
        return Err("Too many duplicate files");
      }
    }
  }

  lemma TakenUpTo(base: string, existing: set<string>, n: nat)
    requires forall m :: 1 <= m < n ==> Candidate(base, m) in existing
    requires Candidate(base, n) in existing
    ensures forall m :: 1 <= m < n + 1 ==> Candidate(base, m) in existing
  {
    forall m | 1 <= m < n + 1 ensures Candidate(base, m) in existing {
      if m == n {
      } else {
        assert m < n;
      }
    }
  }

  /** A remote name that is absolute is saved where it says, whatever the download directory. */
  lemma AbsoluteNameEscapes(dir: string, name: string)
    requires StartsWith(name, "/")
    ensures JoinPath(dir, name) == name
  {
  }

  /** A plain name with an extension keeps it: "stem.ext" → "stem (n).ext", in the same (current) directory. */
  lemma CandidateKeepsExtension(stem: string, ext: string, n: nat)
    requires stem != [] && ext != []
    requires '.' !in stem && '.' !in ext && '/' !in stem && '/' !in ext
    ensures Candidate(stem + "." + ext, n) == stem + " (" + NatToString(n) + ")." + ext
  {
    var name := stem + "." + ext;
    assert '/' !in name;
    DotOfName(stem, ext);
    assert name[..|stem|] == stem && name[|stem| + 1..] == ext;
    assert name != ".." by {
      assert name[|stem|] == '.';
    }
    var newName := stem + " (" + NatToString(n) + ")." + ext;
    assert newName[0] == stem[0];
  }

  /** The one '.' of "stem.ext" is the last one. */
  lemma DotOfName(stem: string, ext: string)
    requires '.' !in stem && '.' !in ext
    ensures LastIndexOf(stem + "." + ext, '.') == Some(|stem|)
  {
    var name := stem + "." + ext;
    assert name[|stem|] == '.';
    assert name[|stem| + 1..] == ext;
  }

  // ----------------------------------------------------------- sending

  /** send_file's size and extension checks; files without an extension always pass the list. */
  function AdmitFile(config: TransferConfig, path: string, size: nat): (r: Result<()>)
    ensures size > config.maxFileSize ==> r.Err?
    ensures config.allowedExtensions.None? && size <= config.maxFileSize ==> r.Ok?
    ensures Extension(FileNameOf(path)).None? && size <= config.maxFileSize ==> r.Ok?
    ensures (size <= config.maxFileSize && config.allowedExtensions.Some? && Extension(FileNameOf(path)).Some?) ==>
      (r.Ok? <==> ToLower(Extension(FileNameOf(path)).value) in config.allowedExtensions.value)
  {
    if size > config.maxFileSize then
      Err("File too large: " + NatToString(size) + " bytes (max: " + NatToString(config.maxFileSize) + " bytes)")
    else if config.allowedExtensions.Some? && Extension(FileNameOf(path)).Some?
         && ToLower(Extension(FileNameOf(path)).value) !in config.allowedExtensions.value then
      Err("File extension not allowed: " + ToLower(Extension(FileNameOf(path)).value))
    else Ok(())
  }

  /**
   * The offset of a chunk, the number of bytes it carries, and the bytes read:
   * out of bounds once index·chunk_size reaches the file size, and at most
   * chunk_size bytes otherwise; a file shorter than its recorded size fails the read.
   */
  function ReadChunk(fileSize: nat, chunkSize: nat, index: nat, fileData: seq<Byte>): (r: Result<seq<Byte>>)
    ensures index * chunkSize >= fileSize ==> r == Err("Chunk index out of bounds")
    ensures r.Ok? ==> index * chunkSize < fileSize && |r.value| == Min(fileSize - index * chunkSize, chunkSize)
    ensures r.Ok? ==> index * chunkSize + |r.value| <= |fileData|
    ensures r.Ok? ==> r.value == fileData[index * chunkSize..index * chunkSize + |r.value|]
    ensures index * chunkSize < fileSize && index * chunkSize + Min(fileSize - index * chunkSize, chunkSize) <= |fileData|
      ==> r.Ok?
  {
    var offset := index * chunkSize;
    if offset >= fileSize then Err("Chunk index out of bounds")
    else
      var actual := Min(fileSize - offset, chunkSize);
      if offset + actual > |fileData| then Err("failed to fill whole buffer")
      else Ok(fileData[offset..offset + actual])
  }

  function Min(a: nat, b: nat): nat { if a <= b then a else b }

  /** The compressed form is sent only when compression is on, succeeds, and is strictly shorter. */
  function Packed(buffer: seq<Byte>, enable: bool, compress: Codec): (r: (seq<Byte>, bool))
    ensures r.1 ==> enable && compress(buffer).Ok? && r.0 == compress(buffer).value && |r.0| < |buffer|
    ensures !r.1 ==> r.0 == buffer
    ensures enable && compress(buffer).Ok? && |compress(buffer).value| < |buffer| ==> r.1
  {
    if enable && compress(buffer).Ok? && |compress(buffer).value| < |buffer| then (compress(buffer).value, true)
    else (buffer, false)
  }

  /** update_speed_tracking: add a sample, keep those less than ten seconds old. */
  function Tracked(samples: seq<SpeedSample>, now: nat, bytes: nat): (r: seq<SpeedSample>)
    ensures forall s :: s in r <==> s in samples + [SpeedSample(now, bytes)] && (s.at > now || now - s.at < SpeedWindowNs)
    ensures r != [] && r[|r| - 1] == SpeedSample(now, bytes)
  {
    Recent(samples, now) + [SpeedSample(now, bytes)]
  }

  function Recent(samples: seq<SpeedSample>, now: nat): (r: seq<SpeedSample>)
    ensures forall s :: s in r <==> s in samples && (s.at > now || now - s.at < SpeedWindowNs)
  {
    if samples == [] then []
    else
      var s := samples[0];
      (if s.at > now || now - s.at < SpeedWindowNs then [s] else []) + Recent(samples[1..], now)
  }

  /**
   * calculate_progress's speed: (newest − oldest bytes) / elapsed seconds,
   * truncated, or 0 with fewer than two samples or no elapsed time.
   */
  function Speed(samples: seq<SpeedSample>): (r: nat)
    ensures |samples| < 2 ==> r == 0
    ensures |samples| >= 2 && samples[|samples| - 1].at > samples[0].at
            && samples[|samples| - 1].bytes >= samples[0].bytes ==>
      r * (samples[|samples| - 1].at - samples[0].at)
        <= (samples[|samples| - 1].bytes - samples[0].bytes) * NanosPerSecond
        < (r + 1) * (samples[|samples| - 1].at - samples[0].at)
    ensures |samples| >= 2 && samples[|samples| - 1].at <= samples[0].at ==> r == 0
    ensures |samples| >= 2 && samples[|samples| - 1].bytes < samples[0].bytes ==> r == 0
  {
    if |samples| < 2 then 0
    else
      var oldest := samples[0];
      var newest := samples[|samples| - 1];
      if newest.at <= oldest.at || newest.bytes < oldest.bytes then 0
      else ((newest.bytes - oldest.bytes) * NanosPerSecond) / (newest.at - oldest.at)
  }

  /** calculate_progress's ETA: remaining bytes over the speed, only while the speed is positive and bytes remain. */
  function Eta(fileSize: nat, transferred: nat, speed: nat): (r: Option<nat>)
    ensures r.Some? <==> speed > 0 && transferred < fileSize
    ensures r.Some? ==> r.value * speed <= fileSize - transferred < (r.value + 1) * speed
  {
    if speed > 0 && transferred < fileSize then Some((fileSize - transferred) / speed) else None
  }

  function Progress(s: TransferSession): (p: FileTransferProgress)
    ensures p.transferId == s.id && p.bytesTransferred == s.bytesTransferred && p.totalBytes == s.fileSize
    ensures p.speedBps == Speed(s.speedSamples) && p.status == s.status
    ensures p.etaSeconds == Eta(s.fileSize, s.bytesTransferred, Speed(s.speedSamples))
  {
    var speed := Speed(s.speedSamples);
    FileTransferProgress(s.id, s.bytesTransferred, s.fileSize, speed, Eta(s.fileSize, s.bytesTransferred, speed), s.status)
  }

  /** A session after a chunk of n bytes went through at `now`. */
  function AfterChunk(s: TransferSession, n: nat, now: nat): (r: TransferSession)
    ensures r.bytesTransferred == s.bytesTransferred + n && r.status == Transferring
    ensures r.lastChunkTime == now && r.speedSamples == Tracked(s.speedSamples, now, s.bytesTransferred + n)
    ensures r.id == s.id && r.filePath == s.filePath && r.fileSize == s.fileSize && r.isUpload == s.isUpload
  {
    s.(bytesTransferred := s.bytesTransferred + n, lastChunkTime := now, status := Transferring,
       speedSamples := Tracked(s.speedSamples, now, s.bytesTransferred + n))
  }

  // ----------------------------------------------------------- reassembly

  /** The file after writing `d` at byte `off`; a gap before `off` reads as zeros. */
  function WriteAt(c: seq<Byte>, off: nat, d: seq<Byte>): (r: seq<Byte>)
    ensures |r| == if off + |d| > |c| then off + |d| else |c|
    ensures forall k :: off <= k < off + |d| ==> r[k] == d[k - off]
    ensures forall k :: 0 <= k < |c| && !(off <= k < off + |d|) ==> r[k] == c[k]
  {
    var padded := if |c| < off then c + seq(off - |c|, _ => 0) else c;
    padded[..off] + d + (if off + |d| < |padded| then padded[off + |d|..] else [])
  }

  /** The i-th chunk of a file cut into pieces of c bytes. */
  function ChunkOf(file: seq<Byte>, c: nat, i: nat): (r: seq<Byte>)
    requires i * c <= |file|
  { file[i * c..Min(|file|, i * c + c)] }

  /**
   * The receiver's file after chunks 0 .. n−1 of c bytes arrive in order and
   * uncompressed, each written where `rule` puts it.
   */
  function Assembled(rule: OffsetRule, file: seq<Byte>, c: nat, n: nat): seq<Byte>
    requires n == 0 || (n - 1) * c <= |file|
  {
    if n == 0 then []
    else
      MulMono(n - 1, n - 2, c);
      var chunk := ChunkOf(file, c, n - 1);
      WriteAt(Assembled(rule, file, c, n - 1), WriteOffset(rule, n - 1, c, chunk), chunk)
  }

  lemma MulMono(a: nat, b: int, c: nat)
    requires b < a
    ensures b < 0 || b * c <= a * c
  {
  }

  /** Writing right at the end of the file appends. */
  lemma WriteAtEnd(c: seq<Byte>, d: seq<Byte>)
    ensures WriteAt(c, |c|, d) == c + d
  {
    assert c[..|c|] == c;
  }

  lemma MulSucc(m: nat, c: nat)
    ensures (m + 1) * c == m * c + c
  {
  }

  /** Writing every chunk at index · chunk_size, in order, rebuilds the file prefix by prefix. */
  lemma {:induction false} AssembledPrefix(file: seq<Byte>, c: nat, n: nat)
    requires n == 0 || (n - 1) * c <= |file|
    ensures Assembled(ChunkSizeOffset, file, c, n) == file[..Min(|file|, n * c)]
  {
    if n > 0 {
      var m := n - 1;
      MulMono(m, m - 1, c);
      AssembledPrefix(file, c, m);
      MulSucc(m, c);
      var prev := file[..m * c];
      var chunk := ChunkOf(file, c, m);
      WriteAtEnd(prev, chunk);
      assert prev + chunk == file[..Min(|file|, n * c)];
    }
  }

  /** With chunks of c > 0 bytes, ⌈|file| / c⌉ chunks rebuild the whole file. */
  lemma ReassemblyRoundTrip(file: seq<Byte>, c: nat)
    requires c > 0 && |file| > 0
    ensures ((|file| + c - 1) / c - 1) * c <= |file|
    ensures Assembled(ChunkSizeOffset, file, c, (|file| + c - 1) / c) == file
  {
    var n := (|file| + c - 1) / c;
    CeilDivBounds(|file|, c);
    AssembledPrefix(file, c, n);
  }

  /** ⌈x / c⌉ chunks of c cover x, and one fewer does not. */
  lemma CeilDivBounds(x: nat, c: nat)
    requires c > 0 && x > 0
    ensures (x + c - 1) / c >= 1
    ensures ((x + c - 1) / c) * c >= x && ((x + c - 1) / c - 1) * c < x
  {
    var q, r := (x + c - 1) / c, (x + c - 1) % c;
    assert x + c - 1 == q * c + r && r < c;
    assert q >= 1;
    MulSucc(q - 1, c);
  }

  /** As written, a 100-byte file sent in 64-byte chunks is received as 72 bytes. */
  lemma LastChunkMisplaced(file: seq<Byte>)
    requires |file| == 100
    ensures |Assembled(ChunkLengthOffset, file, 64, 2)| == 72
    ensures |Assembled(ChunkSizeOffset, file, 64, 2)| == 100
  {
    assert |ChunkOf(file, 64, 0)| == 64;
    assert |ChunkOf(file, 64, 1)| == 36;
    assert |Assembled(ChunkLengthOffset, file, 64, 1)| == 64;
    AssembledPrefix(file, 64, 2);
  }

  /** ReadChunk on a file of the recorded size cuts the file at multiples of chunk_size. */
  lemma ReadChunkIsChunkOf(file: seq<Byte>, c: nat, index: nat)
    requires index * c < |file|
    ensures ReadChunk(|file|, c, index, file) == Ok(ChunkOf(file, c, index))
  {
  }

  /** What the receiver does with a chunk's payload: decompress it when it says it is compressed. */
  function Unpacked(data: seq<Byte>, isCompressed: bool, decompress: Codec): (r: Result<seq<Byte>>)
    ensures !isCompressed ==> r == Ok(data)
  {
    if isCompressed then decompress(data) else Ok(data)
  }

  /** When decompression undoes compression, the receiver recovers exactly the bytes the sender read. */
  lemma PackedRoundTrip(buffer: seq<Byte>, enable: bool, compress: Codec, decompress: Codec)
    requires compress(buffer).Ok? ==> decompress(compress(buffer).value) == Ok(buffer)
    ensures Unpacked(Packed(buffer, enable, compress).0, Packed(buffer, enable, compress).1, decompress) == Ok(buffer)
  {
  }

  /** receive_chunk's write offset as written: the index times this chunk's own (decompressed) length. */
  function ReceiveOffsetAsWritten(index: nat, data: seq<Byte>): (r: nat)
    ensures data == [] ==> r == 0
  { index * |data| }

  /** The write offset the sender's arithmetic calls for: the index times the chunk size. */
  function ReceiveOffset(index: nat, chunkSize: nat): (r: nat)
    ensures index >= 1 ==> r >= chunkSize
  { index * chunkSize }

  /**
   * Where receive_chunk writes a chunk: ChunkLengthOffset is the code as
   * written (index × this chunk's length), ChunkSizeOffset the offset the
   * sender read from (index × chunk_size).
   */
  datatype OffsetRule = ChunkLengthOffset | ChunkSizeOffset

  function WriteOffset(rule: OffsetRule, index: nat, chunkSize: nat, data: seq<Byte>): nat
  {
    match rule
    case ChunkLengthOffset => ReceiveOffsetAsWritten(index, data)
    case ChunkSizeOffset => ReceiveOffset(index, chunkSize)
  }

  /** Only the last, short chunk is misplaced: a full-size chunk lands in the same place either way. */
  lemma OffsetsAgreeOnFullChunks(index: nat, data: seq<Byte>, chunkSize: nat)
    requires |data| == chunkSize
    ensures ReceiveOffsetAsWritten(index, data) == ReceiveOffset(index, chunkSize)
  {
  }

  /** The outcome of a successful send_chunk: the chunk sent and the updated session. */
  datatype Sent = Sent(chunk: FileChunk, session: TransferSession)

  /**
   * send_chunk against the sessions: unknown id, a download session, an
   * index past the end and a failed read are errors; otherwise the raw
   * chunk is read, packed, checksummed, and its raw length counted.
   */
  function SendChunkStep(transfers: map<string, TransferSession>, config: TransferConfig, id: string, index: nat,
                         fileData: seq<Byte>, compress: Codec, checksum: seq<Byte> -> string, now: nat): (r: Result<Sent>)
    ensures id !in transfers ==> r == Err("Transfer not found: " + id)
    ensures id in transfers && !transfers[id].isUpload ==> r == Err("Not an upload transfer")
    ensures id in transfers && index * config.chunkSize >= transfers[id].fileSize ==> r.Err?
    ensures r.Ok? ==>
      id in transfers && transfers[id].isUpload && ReadChunk(transfers[id].fileSize, config.chunkSize, index, fileData).Ok?
    ensures r.Ok? ==>
      var raw := ReadChunk(transfers[id].fileSize, config.chunkSize, index, fileData).value;
      var packed := Packed(raw, config.enableCompression, compress);
      r.value.chunk == FileChunk(id, index, packed.0, packed.1, checksum(packed.0))
      && r.value.session == AfterChunk(transfers[id], |raw|, now)
  {
    if id !in transfers then Err("Transfer not found: " + id)
    else if !transfers[id].isUpload then Err("Not an upload transfer")
    else
      var s := transfers[id];
      match ReadChunk(s.fileSize, config.chunkSize, index, fileData)
      case Err(e) => Err(e)
      case Ok(raw) =>
        var packed := Packed(raw, config.enableCompression, compress);
        Ok(Sent(FileChunk(id, index, packed.0, packed.1, checksum(packed.0)), AfterChunk(s, |raw|, now)))
  }

  /** The outcome of a successful receive_chunk: the updated session and the write performed. */
  datatype Received = Received(session: TransferSession, write: FileWrite)

  /** A session is complete once it has counted at least its file size. */
  function Settled(s: TransferSession): (r: TransferSession)
    ensures r.status == Completed <==> s.bytesTransferred >= s.fileSize || s.status == Completed
    ensures r == s.(status := r.status)
  {
    if s.bytesTransferred >= s.fileSize then s.(status := Completed) else s
  }

  /**
   * receive_chunk against the sessions: unknown id, an upload session, a
   * checksum mismatch, a decompression failure and a failed write are
   * errors, in that order; otherwise the payload is written at the offset
   * `rule` gives and its length counted.
   */
  function ReceiveChunkStep(transfers: map<string, TransferSession>, config: TransferConfig, chunk: FileChunk,
                            checksum: seq<Byte> -> string, decompress: Codec, writeError: Option<string>,
                            rule: OffsetRule, now: nat)
    : (r: Result<Received>)
    ensures chunk.transferId !in transfers ==> r == Err("Transfer not found: " + chunk.transferId)
    ensures chunk.transferId in transfers && transfers[chunk.transferId].isUpload ==> r == Err("Not a download transfer")
    ensures chunk.transferId in transfers && !transfers[chunk.transferId].isUpload && checksum(chunk.data) != chunk.checksum
      ==> r == Err("Chunk checksum mismatch")
    ensures r.Ok? ==>
      chunk.transferId in transfers && !transfers[chunk.transferId].isUpload && checksum(chunk.data) == chunk.checksum
      && writeError.None? && Unpacked(chunk.data, chunk.isCompressed, decompress).Ok?
    ensures r.Ok? ==>
      var data := Unpacked(chunk.data, chunk.isCompressed, decompress).value;
      var s := transfers[chunk.transferId];
      r.value.write == FileWrite(s.filePath, WriteOffset(rule, chunk.chunkIndex, config.chunkSize, data), data)
      && r.value.session == Settled(AfterChunk(s, |data|, now))
  {
    if chunk.transferId !in transfers then Err("Transfer not found: " + chunk.transferId)
    else if transfers[chunk.transferId].isUpload then Err("Not a download transfer")
    else if checksum(chunk.data) != chunk.checksum then Err("Chunk checksum mismatch")
    else
      var s := transfers[chunk.transferId];
      match Unpacked(chunk.data, chunk.isCompressed, decompress)
      case Err(e) => Err(e)
      case Ok(data) =>
        if writeError.Some? then Err(writeError.value)
        else Ok(Received(Settled(AfterChunk(s, |data|, now)),
                         FileWrite(s.filePath, WriteOffset(rule, chunk.chunkIndex, config.chunkSize, data), data)))
  }

  /** The event receive_chunk sends: completion once the size is reached, progress otherwise. */
  function ReceiveEvent(s: TransferSession): (e: TransferEvent)
    ensures s.status == Completed ==> e == TransferCompleted(s.id)
    ensures s.status != Completed ==> e == ProgressUpdate(Progress(s))
  {
    if s.status == Completed then TransferCompleted(s.id) else ProgressUpdate(Progress(s))
  }

  /** A download that reaches its size by one chunk is reported as completed, never as progress. */
  lemma LastChunkCompletes(s: TransferSession, n: nat, now: nat)
    requires s.bytesTransferred + n >= s.fileSize
    ensures Settled(AfterChunk(s, n, now)).status == Completed
    ensures ReceiveEvent(Settled(AfterChunk(s, n, now))) == TransferCompleted(s.id)
  {
  }

  /** A download still short of its size stays Transferring, with an ETA only when the speed is positive. */
  lemma ShortChunkProgresses(s: TransferSession, n: nat, now: nat)
    requires s.bytesTransferred + n < s.fileSize
    ensures Settled(AfterChunk(s, n, now)).status == Transferring
    ensures Progress(Settled(AfterChunk(s, n, now))).etaSeconds.Some?
            <==> Speed(Settled(AfterChunk(s, n, now)).speedSamples) > 0
  {
  }

  /** Where accept_file_transfer saves: the given path, else the remote name joined to the download directory. */
  function Target(config: TransferConfig, request: FileTransferRequest, savePath: Option<string>): (p: string)
    ensures savePath.Some? ==> p == savePath.value
    ensures savePath.None? && StartsWith(request.fileName, "/") ==> p == request.fileName
    ensures savePath.None? && !StartsWith(request.fileName, "/") && config.downloadDirectory != [] ==>
      StartsWith(p, config.downloadDirectory) && EndsWith(p, request.fileName)
      && |p| > |request.fileName| && p[|p| - |request.fileName| - 1] == '/'
  {
    if savePath.Some? then savePath.value else JoinPath(config.downloadDirectory, request.fileName)
  }

  // ----------------------------------------------------------- manager

  class FileTransferManager {
    var config: TransferConfig
    var activeTransfers: map<string, TransferSession>
    var events: seq<TransferEvent>
    var writes: seq<FileWrite>
    var removed: seq<string>

    /** Every session is stored under its own id. */
    ghost predicate Valid()
      reads this
    { forall id :: id in activeTransfers ==> activeTransfers[id].id == id }

    constructor (downloadDirectory: string)
      ensures Valid() && config == DefaultConfig(downloadDirectory)
      ensures activeTransfers == map[] && events == [] && writes == [] && removed == []
    {
      config := DefaultConfig(downloadDirectory);
      activeTransfers := map[];
      events := [];
      writes := [];
      removed := [];
    }

    /**
     * send_file: the checks in order (exists, is a file, size, extension,
     * has a name), then a Pending upload session under the fresh id.
     */
    method SendFile(path: string, info: PathInfo, transferId: string, now: nat) returns (r: Result<string>)
      requires Valid()
      modifies this
      ensures Valid() && config == old(config) && writes == old(writes) && removed == old(removed)
      ensures info.Missing? ==> r == Err("File does not exist: " + path)
      ensures info.NotAFile? ==> r == Err("Path is not a file: " + path)
      ensures info.RegularFile? && AdmitFile(config, path, |info.data|).Err? ==> r == Err(AdmitFile(config, path, |info.data|).error)
      ensures info.RegularFile? && AdmitFile(config, path, |info.data|).Ok? && FileNameOf(path) == [] ==>
        r == Err("Invalid file name")
      ensures r.Err? ==> activeTransfers == old(activeTransfers) && events == old(events)
      ensures r.Ok? ==> info.RegularFile? && AdmitFile(config, path, |info.data|).Ok? && r.value == transferId
      ensures r.Ok? ==>
        activeTransfers == old(activeTransfers)[transferId := TransferSession(transferId, path, |info.data|, 0, now, now, Pending, true, [])]
      ensures r.Ok? ==> events == old(events) + [TransferStarted(transferId, FileNameOf(path))]
    {
      match info
      case Missing => return Err("File does not exist: " + path);
      case NotAFile => return Err("Path is not a file: " + path);
      case RegularFile(data) =>
        var admit := AdmitFile(config, path, |data|);
        if admit.Err? {
          return Err(admit.error);
        }
        var name := FileNameOf(path);
        if name == [] {
          return Err("Invalid file name");
        }
        activeTransfers := activeTransfers[transferId := TransferSession(transferId, path, |data|, 0, now, now, Pending, true, [])];
        events := events + [TransferStarted(transferId, name)];
        return Ok(transferId);
    }

    /**
     * accept_file_transfer: the target is the given path or the name joined
     * to the download directory; an existing target is declined with a free
     * name suggested and no session; otherwise a Pending download session.
     */
    method AcceptFileTransfer(request: FileTransferRequest, savePath: Option<string>, existing: set<string>, now: nat)
      returns (r: Result<FileTransferResponse>)
      requires Valid()
      modifies this
      ensures Valid() && config == old(config) && events == old(events)
      ensures writes == old(writes) && removed == old(removed)
      ensures Target(config, request, savePath) in existing ==> activeTransfers == old(activeTransfers)
      ensures Target(config, request, savePath) in existing && r.Ok? ==>
        !r.value.accepted && r.value.reason == Some("File already exists")
        && exists n :: 1 <= n <= MaxDuplicateSuffix
             && r.value.suggestedPath == Some(Candidate(Target(config, request, savePath), n))
             && FirstFree(Target(config, request, savePath), existing, n)
      ensures Target(config, request, savePath) in existing && r.Err? ==>
        r.error == "Too many duplicate files"
        && forall m :: 1 <= m <= MaxDuplicateSuffix ==> Candidate(Target(config, request, savePath), m) in existing
      ensures Target(config, request, savePath) !in existing ==>
        r == Ok(FileTransferResponse(request.transferId, true, None, Some(Target(config, request, savePath))))
      ensures Target(config, request, savePath) !in existing ==>
        activeTransfers == old(activeTransfers)[request.transferId :=
          TransferSession(request.transferId, Target(config, request, savePath), request.fileSize, 0, now, now, Pending, false, [])]
    {
      var target := Target(config, request, savePath);
      if target in existing {
        var unique := GenerateUniquePath(target, existing);
        if unique.Err? {
          return Err(unique.error);
        }
        return Ok(FileTransferResponse(request.transferId, false, Some("File already exists"), Some(unique.value)));
      }
      activeTransfers := activeTransfers[request.transferId :=
        TransferSession(request.transferId, target, request.fileSize, 0, now, now, Pending, false, [])];
      return Ok(FileTransferResponse(request.transferId, true, None, Some(target)));
    }

    /** send_chunk: on success the session is updated and a progress event sent. */
    method SendChunk(id: string, index: nat, fileData: seq<Byte>, compress: Codec, checksum: seq<Byte> -> string, now: nat)
      returns (r: Result<FileChunk>)
      requires Valid()
      modifies this
      ensures Valid() && config == old(config) && writes == old(writes) && removed == old(removed)
      ensures SendChunkStep(old(activeTransfers), config, id, index, fileData, compress, checksum, now).Err? ==>
        r == Err(SendChunkStep(old(activeTransfers), config, id, index, fileData, compress, checksum, now).error)
        && activeTransfers == old(activeTransfers) && events == old(events)
      ensures SendChunkStep(old(activeTransfers), config, id, index, fileData, compress, checksum, now).Ok? ==>
        var sent := SendChunkStep(old(activeTransfers), config, id, index, fileData, compress, checksum, now).value;
        r == Ok(sent.chunk) && activeTransfers == old(activeTransfers)[id := sent.session]
        && events == old(events) + [ProgressUpdate(Progress(sent.session))]
    {
      var step := SendChunkStep(activeTransfers, config, id, index, fileData, compress, checksum, now);
      if step.Err? {
        return Err(step.error);
      }
      activeTransfers := activeTransfers[id := step.value.session];
      events := events + [ProgressUpdate(Progress(step.value.session))];
      return Ok(step.value.chunk);
    }

    /**
     * receive_chunk: on success the write is recorded, the session updated
     * and an event sent; `rule` is ChunkLengthOffset for the code as written.
     */
    method ReceiveChunk(chunk: FileChunk, checksum: seq<Byte> -> string, decompress: Codec, writeError: Option<string>,
                        rule: OffsetRule, now: nat)
      returns (r: Result<()>)
      requires Valid()
      modifies this
      ensures Valid() && config == old(config) && removed == old(removed)
      ensures ReceiveChunkStep(old(activeTransfers), config, chunk, checksum, decompress, writeError, rule, now).Err? ==>
        r == Err(ReceiveChunkStep(old(activeTransfers), config, chunk, checksum, decompress, writeError, rule, now).error)
        && activeTransfers == old(activeTransfers) && events == old(events) && writes == old(writes)
      ensures ReceiveChunkStep(old(activeTransfers), config, chunk, checksum, decompress, writeError, rule, now).Ok? ==>
        var got := ReceiveChunkStep(old(activeTransfers), config, chunk, checksum, decompress, writeError, rule, now).value;
        r == Ok(()) && activeTransfers == old(activeTransfers)[chunk.transferId := got.session]
        && writes == old(writes) + [got.write] && events == old(events) + [ReceiveEvent(got.session)]
    {
      var step := ReceiveChunkStep(activeTransfers, config, chunk, checksum, decompress, writeError, rule, now);
      if step.Err? {
        return Err(step.error);
      }
      writes := writes + [step.value.write];
      activeTransfers := activeTransfers[chunk.transferId := step.value.session];
      events := events + [ReceiveEvent(step.value.session)];
      return Ok(());
    }

    /** cancel_transfer: drop the session; an unfinished download's partial file is removed. Always succeeds. */
    method CancelTransfer(id: string) returns (r: Result<()>)
      requires Valid()
      modifies this
      ensures Valid() && r == Ok(()) && config == old(config) && writes == old(writes)
      ensures activeTransfers == old(activeTransfers) - {id}
      ensures id !in old(activeTransfers) ==> events == old(events) && removed == old(removed)
      ensures id in old(activeTransfers) ==> events == old(events) + [TransferCancelled(id)]
      ensures id in old(activeTransfers) ==>
        var s := old(activeTransfers)[id];
        removed == old(removed) + (if !s.isUpload && s.bytesTransferred < s.fileSize then [s.filePath] else [])
    {
      if id in activeTransfers {
        var s := activeTransfers[id];
        activeTransfers := activeTransfers - {id};
        if !s.isUpload && s.bytesTransferred < s.fileSize {
          removed := removed + [s.filePath];
        }
        events := events + [TransferCancelled(id)];
      }
      return Ok(());
    }

    method GetTransferProgress(id: string) returns (r: Option<FileTransferProgress>)
      ensures id in activeTransfers <==> r.Some?
      ensures r.Some? ==> r.value == Progress(activeTransfers[id])
    {
      if id in activeTransfers {
        return Some(Progress(activeTransfers[id]));
      }
      return None;
    }

    /** get_active_transfers: one progress report per session, in no particular order. */
    method GetActiveTransfers() returns (r: seq<FileTransferProgress>)
      ensures |r| == |activeTransfers.Keys|
      ensures forall p :: p in r <==> exists id :: id in activeTransfers && p == Progress(activeTransfers[id])
    {
      var m := activeTransfers;
      var rest := m.Keys;
      r := [];
      ghost var done: set<string> := {};
      while rest != {}
        invariant rest !! done && rest + done == m.Keys
        invariant |r| == |done|
        invariant forall p :: p in r <==> exists id :: id in done && p == Progress(m[id])
        decreases |rest|
      {
        var id :| id in rest;
        ghost var r0 := r;
        r := r + [Progress(m[id])];
        assert forall p :: p in r <==> p in r0 || p == Progress(m[id]);
        done := done + {id};
        rest := rest - {id};
      }
    }
  }
}
