# AnyViewer core, modelled in Dafny

AnyViewer is a remote-desktop application: a Tauri shell around a Rust back end that captures the screen, compresses and streams frames, injects remote mouse and keyboard input, discovers peers on the LAN, authorises incoming connections and transfers files. This project models the bookkeeping at the heart of that back end in Dafny and proves what it promises. That bookkeeping covers:

- the candidate-connection ledger and the permission and grant manager;
- the LAN peer directory;
- the seven-digit connection ids;
- the authentication rate limiter and the session-key registry;
- the P2P-then-relay status machine and the session table;
- the bounded frame, metric, sample and log queues;
- file-transfer chunking;
- the string parsers and formatters;
- block-based frame differencing and delta frames;
- the input state machines and key tables;
- the wire protocol's names and constructors.

One Dafny module mirrors each Rust file:

| Rust file | Dafny file (module) |
|---|---|
| network/connection_requests.rs | connection_requests.dfy (`ConnectionRequests`) |
| permissions/mod.rs | permissions.dfy (`Permissions`) |
| network/discovery.rs | discovery.dfy (`Discovery`) |
| utils/id_generator.rs | id_generator.dfy (`IdGenerator`) |
| security/mod.rs | security.dfy (`Security`) |
| network/connection_manager.rs | connection_manager.dfy (`ConnectionManager`) |
| network/mod.rs | network_sessions.dfy (`NetworkSessions`) |
| streaming/frame_buffer.rs | frame_buffer.dfy (`FrameBuffer`) |
| metrics/mod.rs | metrics.dfy (`Metrics`) |
| utils/performance.rs | performance.dfy (`Performance`) |
| utils/logging.rs | logging.dfy (`Logging`) |
| utils/file_transfer.rs | file_transfer.dfy (`FileTransfer`) |
| utils/mod.rs | utils.dfy (`Utils`) |
| utils/system.rs | system.dfy (`SystemParse`) |
| config/mod.rs | config.dfy (`Config`) |
| codec/mod.rs | codec.dfy (`Codec`) |
| streaming/compression.rs | compression.dfy (`Compression`) |
| capture/screen_capture.rs | screen_capture.dfy (`ScreenCapture`) |
| streaming/screen_streamer.rs | screen_streamer.dfy (`ScreenStreamer`) |
| streaming/mod.rs | streaming.dfy (`Streaming`, the types) and streaming_manager.dfy (`StreamingControl`, the manager) |
| input/mod.rs | input.dfy (`Enigo`, the calls made into the enigo crate, and `Input`) |
| input/enhanced_input.rs | enhanced_input.dfy (`EnhancedInput`) |
| network/protocol.rs | protocol.dfy (`Protocol`) |
| main.rs | commands.dfy (`AppCommands`, the pure parts of the command handlers) |

Three more modules are shared:

- `Text` (text.dfy): Option and Result, and the Rust `str` operations the code relies on (`lines`, `trim`, `split`, `split_whitespace`, `parse`, decimal rendering, UTF-8 length). These helpers have no rows below.
- `Image` (image.dfy): the `image` crate's RGBA buffers.
- `Tiling` (tiling.dfy): the block tiling and per-block change test that the codec, the compressor and the screen capture share.

Where the Rust code changes state in place, the model is a class with the same fields. Its methods say in `ensures` what the new state is, usually as a pure function of the old state, and lemmas prove the promised properties of those functions. Loops in the source, such as the sweeps and retain passes, the interpolation loop, the order of the interface parsers and the searches, are `while` loops with invariants, proved equal to their specification functions.

- Locks are taken as sequential access.
- Every instant is a parameter (`now`, `nowMs`).
- UUIDs and random draws are values supplied by the caller, with freshness preconditions where the source relies on uniqueness.
- Foreign codecs, the AEAD cipher, checksums, the file system and operating-system calls are function-valued or plain inputs.
- Channel sends and enigo calls are recorded as sequences of events or effects.

Three behaviours of the code are easy to miss:

- Connection requests and responses are not validated. There is no non-empty check, no vocabulary check, no check that the granted permissions are a subset of the requested ones, and no bound on pending requests per requester. The model has none either; `ConnectionRequests.RespondOutcome` passes the response through unchecked.
- Connection ids are seven decimal digits, and `IdGenerator` models those.
- `NetworkManager::connect_to_host` never enforces `max_connections`. `NetworkSessions.NoConnectionLimit` states this.

Where the code computes something other than it evidently means (see Findings), the operation takes the rule it applies as a parameter, so the same member runs both the code as written and the corrected reading:

- the per-pixel test of the codec and the screen capture: `Tiling.Detector` values `Codec.BlockDetectorAsWritten` / `Codec.BlockDetector` and `ScreenCapture.CaptureDetectorAsWritten` / `ScreenCapture.CaptureDetector`;
- the write offset of a received file chunk: `FileTransfer.OffsetRule` (`ChunkLengthOffset` as written, `ChunkSizeOffset` corrected);
- the zero test of the frame rate: `Performance.FpsRule` (`NanosZeroTest` as written, `MillisZeroTest` corrected);
- the grants that `check_permission` consults: `AppCommands.CheckPermissionCommand` takes them, a fresh manager's as written (`AppCommands.CheckPermissionAsWritten`), the application's as intended.

## Model

| member | source | states |
|---|---|---|
| AppCommands.PermissionByName | src-tauri/src/main.rs:649-657 | a permission read from a front-end name is the one with that name; other names stand for none |
| AppCommands.PermissionNameRoundTrip | src-tauri/src/main.rs:649-657 | the six names and the six permissions correspond one to one |
| AppCommands.PermissionsByNames | src-tauri/src/main.rs:648-658 | the requested permissions are exactly those whose names appear, never more than the names |
| AppCommands.UnknownNamesDropped | src-tauri/src/main.rs:656 | an unknown name anywhere in the list changes nothing |
| AppCommands.CheckPermissionCommand | src-tauri/src/main.rs:714-730 | the answer from the grants of the manager asked: an unknown permission name is refused; a known one is granted exactly when the connection holds an unexpired grant containing it (as written the manager is a fresh one, see CheckPermissionAsWritten) |
| AppCommands.CheckPermissionAsWritten | src-tauri/src/main.rs:714-730 | the command as written, which asks a fresh manager, answers false for every name |
| AppCommands.CheckPermissionNeverGrants | src-tauri/src/main.rs:714-730 | as written the check asks a fresh manager, so even a live grant of screen_view reads as refused, while the intended check grants it |
| AppCommands.PermissionResponseOf | src-tauri/src/main.rs:672-702 | a grant carries the named permissions and the duration; a denial carries the reason, "Access denied" by default |
| AppCommands.CompressionByName | src-tauri/src/main.rs:585-592 | the compression named, and JPEG for an unknown name |
| AppCommands.CompressionNameRoundTrip | src-tauri/src/main.rs:585-592 | every compression type is read back from its name |
| AppCommands.MetricsConnectionType | src-tauri/src/main.rs:934-938 | "relay" is exactly the relayed connection type; every other name is direct |
| AppCommands.FullAddress | src-tauri/src/main.rs:353-358 | an address with a colon is kept; otherwise the port, 7878 by default, is appended after a colon |
| AppCommands.FullAddressSplits | src-tauri/src/main.rs:353-358 | a bare host and port split back out of the full address |
| AppCommands.ConnectToIpResponse | src-tauri/src/main.rs:360-386 | connect_to_ip always answers success with the new session id, version 1.0.0, encryption, three capabilities and no error |
| AppCommands.ParseStatusString | src-tauri/src/main.rs:458-473 | a status read from its string is the one with that string |
| AppCommands.StatusStringRoundTrip | src-tauri/src/main.rs:458-473 | every connection status reads back from its string, and distinct statuses give distinct strings |
| AppCommands.StatusReads | src-tauri/src/main.rs:458-473 | every connection status, a failure with its reason included, reads back from its string |
| ConnectionManager.SendOutcome | src-tauri/src/network/connection_manager.rs:336-385 | sending fails with "No active connection to send …" unless connected; a direct connection accepts the payload; a relayed one hands it to the relay client when there is one |
| ConnectionManager.StatusEvents | src-tauri/src/network/connection_manager.rs:418-428 | each status update is announced once, in order, as a StatusChanged event |
| ConnectionManager.AnnouncedPair | src-tauri/src/network/connection_manager.rs:418-428 | announcing two updates appends their two StatusChanged events in order |
| ConnectionManager.HostingStartsConnecting | src-tauri/src/network/connection_manager.rs:129-229 | hosting first reports Connecting; without a connection id it fails with that alone; success returns the connection id |
| ConnectionManager.HostingP2PWins | src-tauri/src/network/connection_manager.rs:143-166 | when peer-to-peer hosting succeeds the relay is never tried and the status ends Connected(P2P) |
| ConnectionManager.HostingNoFallback | src-tauri/src/network/connection_manager.rs:152-158 | a failed peer-to-peer host without relay fallback returns that error, leaving the status Connecting |
| ConnectionManager.HostingFinalStatus | src-tauri/src/network/connection_manager.rs:129-229 | the final status is Connected(P2P) exactly when peer-to-peer hosting succeeded; it is Failed exactly when no path was available or succeeded, and then the result is the failure |
| ConnectionManager.ConnectP2POutcomes | src-tauri/src/network/connection_manager.rs:231-311 | a connected peer-to-peer attempt ends Connected(P2P); a failed one without fallback errs "P2P connection failed" |
| ConnectionManager.ConnectPendingFallsThrough | src-tauri/src/network/connection_manager.rs:231-311 | a peer-to-peer attempt still pending or disconnected falls through to the relay, which connects |
| ConnectionManager.ConnectFailsWithoutPaths | src-tauri/src/network/connection_manager.rs:231-311 | with no relay and no usable peer-to-peer result, the attempt ends Failed with the connect failure |
| ConnectionManager.ConnectionManager.constructor | src-tauri/src/network/connection_manager.rs:73-83 | the default configuration, no connection id, no clients, no event sender, Disconnected |
| ConnectionManager.ConnectionManager.UpdateStatus | src-tauri/src/network/connection_manager.rs:418-428 | the status is set and, when a sender exists, announced; nothing else changes |
| ConnectionManager.ConnectionManager.Initialize | src-tauri/src/network/connection_manager.rs:85-127 | a generated id is stored; a failed peer-to-peer discovery start is returned as the error; otherwise the enabled clients are created |
| ConnectionManager.ConnectionManager.StartHosting | src-tauri/src/network/connection_manager.rs:129-229 | the result, the final status and the events are those of the hosting run from the old state |
| ConnectionManager.ConnectionManager.ConnectToHost | src-tauri/src/network/connection_manager.rs:231-311 | the result, the final status and the events are those of the connecting run from the old state |
| ConnectionManager.ConnectionManager.Disconnect | src-tauri/src/network/connection_manager.rs:313-334 | the status becomes Disconnected and is announced; the call succeeds |
| ConnectionManager.ConnectionManager.SendScreenFrame | src-tauri/src/network/connection_manager.rs:336-360 | succeeds only while connected, as the send outcome says |
| ConnectionManager.ConnectionManager.SendInputEvent | src-tauri/src/network/connection_manager.rs:362-385 | succeeds only while connected, as the send outcome says |
| ConnectionManager.ConnectionManager.HandleRelayEvent | src-tauri/src/network/connection_manager.rs:175-214 | a registration success sets Connected(Relay) and announces it; a relay connection request is forwarded as needing permission; a relay error is forwarded; other events change nothing |
| ConnectionManager.ConnectionManager.GetConnectionId | src-tauri/src/network/connection_manager.rs:391-393 | the current connection id |
| ConnectionManager.ConnectionManager.UpdateConfig | src-tauri/src/network/connection_manager.rs:395-400 | the configuration is replaced and nothing else changes |
| ConnectionManager.ConnectionManager.GetAvailablePeers | src-tauri/src/network/connection_manager.rs:402-416 | the peers discovered over peer-to-peer, and none without a peer-to-peer client or when discovery fails |
| Codec.Encoded | src-tauri/src/codec/mod.rs:69-74 | the configured format picks the encoder: JPEG and WebP both go through the JPEG encoder at the configured quality, PNG through the PNG encoder, Raw is the RGBA bytes unchanged |
| Codec.Ratio | src-tauri/src/codec/mod.rs:65-76 | the compression ratio exists for a non-empty encoding and times the encoded size gives the 4·width·height original size |
| Codec.EncodeFrameResult | src-tauri/src/codec/mod.rs:62-96 | encoding succeeds exactly when the chosen encoder does; the frame info reports the encoded size, the image's dimensions and the configured format and quality; an encoder error is passed on |
| Codec.RgbaToRgb | src-tauri/src/codec/mod.rs:182-195 | the alpha byte of every pixel is dropped, pixels in row-major order |
| Codec.RgbLayoutOfImage | src-tauri/src/codec/mod.rs:182-195 | the RGB buffer is three bytes per pixel and pixel i's red, green and blue sit at 3i, 3i+1, 3i+2 |
| Codec.ISqrt | src-tauri/src/codec/mod.rs:170-171 | the side of a raw frame is the integer square root of its pixel count |
| Codec.ISqrtOfSquare | src-tauri/src/codec/mod.rs:170-171 | the integer square root of w² is w |
| Codec.DecodeRaw | src-tauri/src/codec/mod.rs:167-180 | a successfully decoded raw frame is a square image whose 4 bytes per pixel account for the whole buffer |
| Codec.DecodeRawSucceedsIff | src-tauri/src/codec/mod.rs:167-180 | raw decoding succeeds exactly when the length is four times a perfect square |
| Codec.DecodeRawKeepsBytes | src-tauri/src/codec/mod.rs:167-180 | a decoded raw frame holds the buffer's bytes unchanged |
| Codec.RawRoundTrip | src-tauri/src/codec/mod.rs:133-135 | decoding an encoded square raw frame gives the image back |
| Codec.RawRoundTripNeedsSquare | src-tauri/src/codec/mod.rs:167-180 | a non-square raw frame does not come back from decoding, since the decoder assumes a square |
| Codec.DecodeFrame | src-tauri/src/codec/mod.rs:137-146 | the format picks the decoder: JPEG and WebP through the JPEG decoder, PNG through the PNG decoder, Raw through the square raw decoder |
| Codec.RawFrameRoundTrip | src-tauri/src/codec/mod.rs:62-146 | a square frame encoded in the Raw format decodes back to the same image |
| Codec.CalculateDifferences | src-tauri/src/codec/mod.rs:233-255 | the regions are exactly the 16×16 tiles, in scan order, that the given block test finds changed; the code as written is the u8-casting BlockDetectorAsWritten |
| Codec.WrappedDiffMissesBlock | src-tauri/src/codec/mod.rs:272-274 | a one-pixel change of 256 in summed channel difference is missed by the u8 cast as written and found by the intended sum |
| Codec.IdenticalFrameSkipped | src-tauri/src/codec/mod.rs:197-220 | with delta compression on, a frame identical to the last one is skipped, under either pixel test |
| Codec.NoPixelChanged | src-tauri/src/codec/mod.rs:257-285 | comparing a frame with itself counts no changed pixel in any tile, under any pixel rule |
| Codec.NoBlockHits | src-tauri/src/codec/mod.rs:264-280 | the row loop over a tile of an unchanged frame counts nothing, under any pixel rule |
| Codec.NoRowHits | src-tauri/src/codec/mod.rs:265-279 | the pixel loop over one row of an unchanged frame counts nothing, under any pixel rule |
| Codec.DeltaDecisionFor | src-tauri/src/codec/mod.rs:197-227 | disabled delta compression skips; a first frame or one of new dimensions is encoded whole; a same-sized frame is skipped exactly when no tile changed under the block test |
| Codec.DeltaAsWrittenSkipsChange | src-tauri/src/codec/mod.rs:197-227 | with delta compression on, a 1×1 frame turning from black to (255, 1, 0) is skipped by the u8-casting test as written and encoded whole by the test without the cast |
| Codec.VideoCodec.constructor | src-tauri/src/codec/mod.rs:52-60 | the encoder keeps the configuration, holds no last frame and has encoded nothing |
| Codec.VideoCodec.EncodeFrame | src-tauri/src/codec/mod.rs:62-96 | the frame counter goes up even when encoding fails; the result is the encoding of the frame; the frame is kept for delta compression only when encoding succeeded and delta compression is on |
| Codec.VideoCodec.EncodeDeltaFrame | src-tauri/src/codec/mod.rs:197-231 | under the given block test (the code as written with BlockDetectorAsWritten), a frame is skipped (nothing encoded, nothing changed) when delta compression is off or no block changed; otherwise it is encoded in full, whatever the change ratio |
| Codec.VideoCodec.UpdateConfig | src-tauri/src/codec/mod.rs:287-291 | the configuration is replaced and the last frame and counter are kept |
| Codec.VideoCodec.GetStats | src-tauri/src/codec/mod.rs:293-300 | the frame count and the current format, quality and delta flag |
| Compression.Pow256Bounds | src-tauri/src/streaming/compression.rs:241-245 | four bytes hold a u32 (2^32) and eight a u64 (2^64) |
| Compression.LeBytes | src-tauri/src/streaming/compression.rs:241-245 | a fixed-width little-endian integer takes exactly its width in bytes |
| Compression.LeRoundTrip | src-tauri/src/streaming/compression.rs:241-245 | reading back k little-endian bytes gives the value modulo 256^k |
| Compression.LeRoundTrip32 | src-tauri/src/streaming/compression.rs:241-245 | a value below 2^32 reads back unchanged from its four bytes |
| Compression.LeBytesOfValue | src-tauri/src/streaming/compression.rs:241-245 | writing back what k bytes read as gives the same bytes |
| Compression.EncodeHeader | src-tauri/src/streaming/compression.rs:240-245 | a serialized delta header is 16 bytes: u32 variant, u32 block count, u64 timestamp |
| Compression.DecodeHeader | src-tauri/src/streaming/compression.rs:298 | a header that reads consumes exactly 16 bytes and leaves the rest of the input |
| Compression.HeaderRoundTrip | src-tauri/src/streaming/compression.rs:240-245 | a written header reads back, its count and timestamp truncated to u32 and u64, and the input after it is untouched |
| Compression.JpegIsNotADeltaFrame | src-tauri/src/streaming/compression.rs:298 | data starting with the JPEG marker 0xFF is refused as a delta frame: too short, or an invalid variant naming the tag read |
| Compression.EncodeBlock | src-tauri/src/streaming/compression.rs:254-261 | a serialized block record is 20 bytes, five little-endian u32 |
| Compression.DecodeBlock | src-tauri/src/streaming/compression.rs:315 | a block record reads exactly when 20 bytes remain, and consumes exactly those |
| Compression.BlockRoundTrip | src-tauri/src/streaming/compression.rs:254-261 | a block record whose fields fit in u32 reads back unchanged, leaving the rest of the input |
| Compression.FrameEncoding | src-tauri/src/streaming/compression.rs:26-34 | every compression type is encoded as JPEG at the compressor's quality (the others are not implemented) |
| Compression.Decompress | src-tauri/src/streaming/compression.rs:272-292 | every compression type is decoded as JPEG |
| Compression.BlockImage | src-tauri/src/streaming/compression.rs:185-196 | the extracted block is a well-formed image |
| Compression.CreateDeltaFrame | src-tauri/src/streaming/compression.rs:167-215 | the delta frame is the Delta header with the block count and time, then for each block its record and JPEG data, in order; the first block that fails to encode fails the frame |
| Compression.Prepended | src-tauri/src/streaming/compression.rs:178-212 | appending to the delta being built passes a failure on and otherwise prefixes the bytes so far |
| Compression.PayloadsStep | src-tauri/src/streaming/compression.rs:181-212 | one step of the block loop: a failing block fails the frame, otherwise its record and data are appended and the loop goes on with the next block |
| Compression.ApplyBlocks | src-tauri/src/streaming/compression.rs:312-330 | applying blocks never changes the base frame's dimensions |
| Compression.ApplyDelta | src-tauri/src/streaming/compression.rs:294-335 | applying a delta frame, successful or not, leaves a frame of the base's dimensions |
| Compression.ApplyDeltaFrame | src-tauri/src/streaming/compression.rs:294-335 | the in-place application gives the result and the frame the delta's meaning prescribes: NoChange keeps the base, Full is refused, Delta pastes each decoded block clipped to the frame, and block data shorter than its header says fails with read_exact's "failed to fill whole buffer" |
| Compression.NoChangeKeepsBase | src-tauri/src/streaming/compression.rs:156-165 | a no-change frame applied to any base succeeds and keeps it as it is |
| Compression.FullHeaderRejected | src-tauri/src/streaming/compression.rs:305-308 | a header of type Full is refused as "full frame in delta context", and the base is kept |
| Compression.PasteAll | src-tauri/src/streaming/compression.rs:312-330 | pasting blocks one after another keeps the base's dimensions |
| Compression.PasteAllPixel | src-tauri/src/streaming/compression.rs:312-330 | after pasting the blocks of a same-sized image, a pixel comes from the image when some block covers it and from the base otherwise |
| Compression.AllRoundTripOf | src-tauri/src/streaming/compression.rs:167-215 | blocks that each fit u32 and survive JPEG coding make a list that survives as a whole |
| Compression.PayloadsApply | src-tauri/src/streaming/compression.rs:181-330 | applying the encoded block list to a base pastes exactly those blocks of the image |
| Compression.PayloadsCons | src-tauri/src/streaming/compression.rs:181-212 | the encoded list is the first block's record and data followed by the encoding of the rest |
| Compression.ApplyCons | src-tauri/src/streaming/compression.rs:312-330 | reading a record and its data pastes that block and goes on with the rest |
| Compression.ApplyOneBlock | src-tauri/src/streaming/compression.rs:312-330 | one step of the apply loop: the record and data are read back and the decoded block pasted at its position |
| Compression.DeltaRoundTrip | src-tauri/src/streaming/compression.rs:167-335 | a delta frame built from blocks that survive JPEG coding applies to any base and yields the base with those blocks replaced |
| Compression.DeltaReconstruction | src-tauri/src/streaming/compression.rs:36-335 | when at most half the blocks changed, applying the delta of the current frame to the previous one rebuilds every pixel: changed blocks from the current frame, the rest from the previous |
| Compression.Compressor.constructor | src-tauri/src/streaming/compression.rs:15-24 | the compressor keeps the configuration and takes its quality for JPEG and WebP |
| Compression.Compressor.CompressFrame | src-tauri/src/streaming/compression.rs:26-34 | a frame is JPEG-encoded at the compressor's quality |
| Compression.Compressor.CompressFrameDelta | src-tauri/src/streaming/compression.rs:36-78 | the result is the delta compression of the current frame against the previous one: full frame when the dimensions differ or over half the blocks changed, a no-change frame when none did, a delta frame of the changed blocks otherwise |
| Compression.Compressor.SetQuality | src-tauri/src/streaming/compression.rs:217-228 | 0 and values above 100 are refused with nothing changed; otherwise the JPEG, WebP and configured quality all take the value |
| Compression.Compressor.GetCompressionInfo | src-tauri/src/streaming/compression.rs:230-237 | the configured type and quality, delta always supported, adaptive as configured |
| Config.ValidateAcceptsValid | src-tauri/src/config/mod.rs:191-250 | Config.Validate (validate) succeeds exactly when every rule holds |
| Config.FirstFailing | src-tauri/src/config/mod.rs:191-250 | a rejected configuration is reported with the message of the first rule, in source order, that it breaks |
| Config.ValidateReportsFirstFailure | src-tauri/src/config/mod.rs:191-250 | whichever rule fails first decides the error message |
| Config.DefaultIsValid | src-tauri/src/config/mod.rs:74-118 | the default configuration passes validation |
| Config.SamePortsRejected | src-tauri/src/config/mod.rs:201-203 | with a nonzero port and connection limit, equal server and discovery ports are rejected with that message |
| Config.Load | src-tauri/src/config/mod.rs:122-142 | a missing file yields the default, which is saved first (a failed save fails the load); an existing file is returned as parsed, parse errors included |
| Config.LoadDoesNotValidate | src-tauri/src/config/mod.rs:122-142 | a file that parses is loaded without validation |
| Config.Reload | src-tauri/src/config/mod.rs:252-256 | the configuration becomes the loaded one; when loading fails it is left as it was and the error returned |
| Config.ResetToDefaults | src-tauri/src/config/mod.rs:258-263 | the configuration becomes the default before saving, so even a failed save leaves the default in place |
| Config.ImportFromFile | src-tauri/src/config/mod.rs:274-285 | a file that does not parse leaves the configuration alone; one that parses replaces it, and is saved only when valid and writable; the import succeeds exactly when it was saved |
| Config.InvalidImportStillReplaces | src-tauri/src/config/mod.rs:277-280 | an invalid file still replaces the configuration, is not saved, and the import reports validate's error |
| Config.ImportedIsValid | src-tauri/src/config/mod.rs:274-285 | after a successful import the configuration is valid and is what was saved |
| Discovery.LocalDeviceInfo | src-tauri/src/network/discovery.rs:70-96 | the local device announces its id, name, port and address as type "AnyViewer" version 1.0.0 with screen capture, input forwarding and file transfer |
| Discovery.WithDevice | src-tauri/src/network/discovery.rs:398-425 | the device is stored under its id, seen now at the sender's address; any other device with the same IP is dropped and all others are kept unchanged |
| Discovery.Age | src-tauri/src/network/discovery.rs:373-375 | the time since a device was last seen, 0 when that lies in the future |
| Discovery.Fresh | src-tauri/src/network/discovery.rs:373-375 | exactly the devices seen less than the timeout ago are kept, unchanged |
| Discovery.WithDevicePreserves | src-tauri/src/network/discovery.rs:398-425 | storing a device keeps the directory keyed by device id with no two devices sharing an IP |
| Discovery.FreshKeepsFuture | src-tauri/src/network/discovery.rs:373-375 | a device last seen in the future is never cleaned up |
| Discovery.FreshPreserves | src-tauri/src/network/discovery.rs:373-375 | cleanup keeps the directory keyed by device id with distinct IPs |
| Discovery.FindByDeviceId | src-tauri/src/network/discovery.rs:181-204 | with the directory keyed by device id, a device with the id exists exactly when the id is a key, and it is that entry |
| Discovery.RetainFresh | src-tauri/src/network/discovery.rs:373-375 | the retain loop keeps exactly the devices seen within the timeout |
| Discovery.NetworkDiscovery.constructor | src-tauri/src/network/discovery.rs:70-96 | the local device information, no devices, not running, no request channel, nothing sent |
| Discovery.NetworkDiscovery.WithConnectionRequestSender | src-tauri/src/network/discovery.rs:98-101 | a request channel is attached and nothing else changes |
| Discovery.NetworkDiscovery.Start | src-tauri/src/network/discovery.rs:103-147 | the discovery is running; devices and outbox are unchanged |
| Discovery.NetworkDiscovery.Stop | src-tauri/src/network/discovery.rs:149-175 | the discovery stops; when running before, a Goodbye is broadcast and the devices are forgotten |
| Discovery.NetworkDiscovery.GetDiscoveredDevices | src-tauri/src/network/discovery.rs:177-179 | every discovered device once |
| Discovery.NetworkDiscovery.SendConnectionRequest | src-tauri/src/network/discovery.rs:181-204 | an unknown target is refused by id; otherwise a ConnectionRequest carrying the data is sent to its address, and the result is the send's |
| Discovery.NetworkDiscovery.HandleMessage | src-tauri/src/network/discovery.rs:246-322 | while running, messages from itself (same id or same IP) are ignored; an Announce is answered with a Response and stored, a Response stored, a ConnectionRequest forwarded when it carries data and a channel exists, a Goodbye removes the device, a ConnectionResponse changes nothing |
| Discovery.NetworkDiscovery.Cleanup | src-tauri/src/network/discovery.rs:363-396 | one cleanup tick keeps exactly the devices seen within the timeout, and sends the remaining devices on the device-updates channel exactly when some were removed |
| Discovery.CleanupSendsIffStale | src-tauri/src/network/discovery.rs:373-384 | the device count changes, so an update is sent, exactly when some device was last seen at least the timeout ago |
| ConnectionRequests.NewPending | src-tauri/src/network/connection_requests.rs:89-92 | a pending request keeps the request and expires 60 seconds after its timestamp |
| ConnectionRequests.Stored | src-tauri/src/network/connection_requests.rs:96-97 | the request is stored under its id, expiring after the timeout; every other entry is untouched, and the ledger grows by one for a new id |
| ConnectionRequests.RespondOutcome | src-tauri/src/network/connection_requests.rs:108-143 | responding fails exactly when the request is not pending; otherwise the response carries the id, decision, granted permissions, duration and reason |
| ConnectionRequests.Removed | src-tauri/src/network/connection_requests.rs:117 | the request is no longer pending and every other entry is untouched |
| ConnectionRequests.CancelOutcome | src-tauri/src/network/connection_requests.rs:154-163 | cancelling succeeds exactly when the request was pending |
| ConnectionRequests.Swept | src-tauri/src/network/connection_requests.rs:208 | exactly the requests whose expiry is still ahead are kept, unchanged |
| ConnectionRequests.RespondTwiceFails | src-tauri/src/network/connection_requests.rs:108-163 | once answered, a request can be neither answered again ("Request not found or expired") nor cancelled |
| ConnectionRequests.StoredSurvivesSweep | src-tauri/src/network/connection_requests.rs:89-97 | a stored request survives a sweep exactly while the sweep runs before its timestamp plus the timeout |
| ConnectionRequests.SweepKeepsKeying | src-tauri/src/network/connection_requests.rs:204-208 | a sweep keeps every entry under its own request id and only removes entries |
| ConnectionRequests.KeyedRequestsCount | src-tauri/src/network/connection_requests.rs:145-152 | with entries keyed by request id, the pending requests listed are as many as the entries |
| ConnectionRequests.RetainUnexpired | src-tauri/src/network/connection_requests.rs:208 | the retain loop keeps exactly the unexpired requests |
| ConnectionRequests.ConnectionRequestManager.constructor | src-tauri/src/network/connection_requests.rs:44-54 | no pending request and no update sent |
| ConnectionRequests.ConnectionRequestManager.CreateConnectionRequest | src-tauri/src/network/connection_requests.rs:68-106 | the new request is stored under its fresh id with the timeout, announced to the front end, and its id returned |
| ConnectionRequests.ConnectionRequestManager.RespondToRequest | src-tauri/src/network/connection_requests.rs:108-143 | the request is removed; an unknown one is refused with nothing sent; a known one's response is sent |
| ConnectionRequests.ConnectionRequestManager.GetPendingRequests | src-tauri/src/network/connection_requests.rs:145-152 | every pending request once |
| ConnectionRequests.ConnectionRequestManager.CancelRequest | src-tauri/src/network/connection_requests.rs:154-163 | the request is removed; the result says whether it was pending |
| ConnectionRequests.ConnectionRequestManager.HandleIncomingDiscoveryRequest | src-tauri/src/network/connection_requests.rs:165-196 | the forwarded request is stored under the sender's request id, stamped now, announced, and accepted |
| ConnectionRequests.ConnectionRequestManager.Cleanup | src-tauri/src/network/connection_requests.rs:198-215 | one cleanup tick keeps exactly the unexpired requests |
| ConnectionRequests.ConnectionRequestManager.GetStats | src-tauri/src/network/connection_requests.rs:227-237 | the pending count, and zero for the three daily totals |
| FileTransfer.DefaultConfig | src-tauri/src/utils/file_transfer.rs:81-94 | 64 KiB chunks, a 10 GiB size limit, three concurrent transfers, compression on and every extension allowed |
| FileTransfer.LastIndexOf | src-tauri/src/utils/file_transfer.rs:489-491 | none exactly when the character is absent; otherwise a position holding it with no later occurrence |
| FileTransfer.FileNameOf | src-tauri/src/utils/file_transfer.rs:171-172 | the file name is the path's last component: it holds no '/', ends the path, is the whole path when there is no '/', and otherwise follows a '/' |
| FileTransfer.JoinPath | src-tauri/src/utils/file_transfer.rs:228 | joining an absolute name, or joining to an empty directory, gives the name; otherwise the result starts with the directory and ends with the name, with exactly one '/' added between them when the directory does not end in one |
| FileTransfer.Extension | src-tauri/src/utils/file_transfer.rs:162 | there is no extension exactly for "..", a name without '.', or a name whose only '.' leads; otherwise the extension holds no '.', and the name ends with '.' and the extension after a non-empty stem |
| FileTransfer.Stem | src-tauri/src/utils/file_transfer.rs:489 | the stem is the whole name when there is no extension, and otherwise the stem, a '.' and the extension make up the name |
| FileTransfer.GenerateUniquePath | src-tauri/src/utils/file_transfer.rs:487-510 | the first free name among "stem (1).ext" … "stem (1000).ext", every earlier one being taken; if all 1000 are taken, the error "Too many duplicate files" |
| FileTransfer.AbsoluteNameEscapes | src-tauri/src/utils/file_transfer.rs:225-229 | a remote file name starting with '/' is saved at that absolute path, not under the download directory |
| FileTransfer.CandidateKeepsExtension | src-tauri/src/utils/file_transfer.rs:489-500 | "stem.ext" in the current directory becomes "stem (n).ext" |
| FileTransfer.AdmitFile | src-tauri/src/utils/file_transfer.rs:154-168 | an oversized file is refused; with no extension list, or a file without extension, a file within the limit passes; otherwise it passes exactly when its lower-cased extension is listed |
| FileTransfer.ReadChunk | src-tauri/src/utils/file_transfer.rs:286-298 | an index at or past the end is refused; otherwise the chunk is the file's bytes from index·chunk_size, min(chunk_size, what remains) of them |
| FileTransfer.Packed | src-tauri/src/utils/file_transfer.rs:300-314 | the compressed bytes are sent only when compression is on, succeeds and comes out strictly shorter; in every other case the raw bytes are sent |
| FileTransfer.Unpacked | src-tauri/src/utils/file_transfer.rs:364-369 | uncompressed data is used as received |
| FileTransfer.PackedRoundTrip | src-tauri/src/utils/file_transfer.rs:300-369 | when the decompressor inverts the compressor, the receiver recovers the chunk's bytes whatever the sender chose |
| FileTransfer.Tracked | src-tauri/src/utils/file_transfer.rs:512-518 | the new sample is kept last and the other samples are those less than ten seconds old |
| FileTransfer.Recent | src-tauri/src/utils/file_transfer.rs:517 | the retain keeps exactly the samples taken less than ten seconds before now |
| FileTransfer.Speed | src-tauri/src/utils/file_transfer.rs:521-534 | 0 with fewer than two samples and when no time passed between the oldest and newest sample; otherwise the bytes gained per second, rounded down (r·Δt ≤ Δbytes·10⁹ < (r+1)·Δt) |
| FileTransfer.Eta | src-tauri/src/utils/file_transfer.rs:536-541 | an estimate exists exactly when the speed is positive and bytes remain; it is the remaining bytes divided by the speed, rounded down |
| FileTransfer.Progress | src-tauri/src/utils/file_transfer.rs:520-551 | the report carries the session's id, counts, status, speed and estimate |
| FileTransfer.AfterChunk | src-tauri/src/utils/file_transfer.rs:319-325 | a chunk adds its length to the bytes transferred, marks the session Transferring, stamps the time and adds a speed sample; nothing else changes |
| FileTransfer.WriteAt | src-tauri/src/utils/file_transfer.rs:386-387 | writing at an offset replaces those bytes, extends the file when it runs past the end and leaves every other byte alone |
| FileTransfer.WriteAtEnd | src-tauri/src/utils/file_transfer.rs:386-387 | writing at the end of the file appends |
| FileTransfer.ReadChunkIsChunkOf | src-tauri/src/utils/file_transfer.rs:286-298 | an in-range read is the index-th chunk of the file |
| FileTransfer.AssembledPrefix | src-tauri/src/utils/file_transfer.rs:372-387 | with the ChunkSizeOffset rule, writing the first n chunks in order yields the first n·chunk_size bytes of the file |
| FileTransfer.ReassemblyRoundTrip | src-tauri/src/utils/file_transfer.rs:286-387 | receiving every chunk of a file, in order, with the ChunkSizeOffset rule rebuilds the file exactly |
| FileTransfer.CeilDivBounds | src-tauri/src/utils/file_transfer.rs:286-290 | a non-empty file has ⌈size / chunk_size⌉ ≥ 1 chunks, the last one starting inside the file |
| FileTransfer.ReceiveOffsetAsWritten | src-tauri/src/utils/file_transfer.rs:372-373 | as written, the offset is the index times the length of this chunk; an empty chunk is written at 0 |
| FileTransfer.ReceiveOffset | src-tauri/src/utils/file_transfer.rs:286-287 | corrected, the offset is the index times the configured chunk size, the offset the sender read from |
| FileTransfer.OffsetsAgreeOnFullChunks | src-tauri/src/utils/file_transfer.rs:372-373 | for a full-size chunk the as-written and corrected offsets coincide |
| FileTransfer.LastChunkMisplaced | src-tauri/src/utils/file_transfer.rs:372-373 | a 100-byte file in 64-byte chunks is rebuilt as 72 bytes with the ChunkLengthOffset rule as written (its 36-byte tail lands at 36) and as the full 100 bytes with ChunkSizeOffset |
| FileTransfer.SendChunkStep | src-tauri/src/utils/file_transfer.rs:270-344 | unknown id, download and out-of-range index are refused with the source's messages; otherwise the chunk carries the bytes read, packed, with their checksum and the session advances by the raw chunk length |
| FileTransfer.Settled | src-tauri/src/utils/file_transfer.rs:398-400 | the session becomes Completed exactly when all bytes have arrived (or it already was); nothing else changes |
| FileTransfer.ReceiveChunkStep | src-tauri/src/utils/file_transfer.rs:347-415 | unknown id, upload and checksum mismatch are refused with the source's messages; a success writes the unpacked data at the offset the rule gives (ChunkLengthOffset as written, ChunkSizeOffset corrected) and advances and settles the session |
| FileTransfer.ReceiveEvent | src-tauri/src/utils/file_transfer.rs:398-406 | a completed session reports completion, any other a progress update |
| FileTransfer.LastChunkCompletes | src-tauri/src/utils/file_transfer.rs:398-401 | a chunk that brings the total to the file size completes the transfer and reports TransferCompleted |
| FileTransfer.ShortChunkProgresses | src-tauri/src/utils/file_transfer.rs:403-405 | a chunk that leaves bytes missing keeps the transfer Transferring, with an estimate exactly when the speed is positive |
| FileTransfer.Target | src-tauri/src/utils/file_transfer.rs:224-229 | the explicit save path if given, else the remote name under the download directory (an absolute remote name replacing it): the result starts with the directory and ends with the name after a '/' |
| FileTransfer.FileTransferManager.constructor | src-tauri/src/utils/file_transfer.rs:126-138 | the default configuration and no transfers |
| FileTransfer.FileTransferManager.SendFile | src-tauri/src/utils/file_transfer.rs:141-218 | missing path, non-file, size and extension checks and a nameless path fail with the source's messages and change nothing; otherwise a Pending upload session is stored and TransferStarted is sent |
| FileTransfer.FileTransferManager.AcceptFileTransfer | src-tauri/src/utils/file_transfer.rs:221-267 | an existing target is declined with "File already exists", storing nothing, and the suggested name is the first free "stem (n).ext" for n up to 1000; when all 1000 are taken the call fails with "Too many duplicate files"; otherwise a Pending download session is stored and the target is returned |
| FileTransfer.FileTransferManager.SendChunk | src-tauri/src/utils/file_transfer.rs:270-344 | the refusals change nothing; a success stores the advanced session and sends its progress |
| FileTransfer.FileTransferManager.ReceiveChunk | src-tauri/src/utils/file_transfer.rs:347-415 | the refusals change nothing; a success records the write at the offset the rule gives, stores the settled session and sends completion or progress |
| FileTransfer.FileTransferManager.CancelTransfer | src-tauri/src/utils/file_transfer.rs:418-436 | the transfer is removed; a known one sends TransferCancelled and an unfinished download's partial file is deleted |
| FileTransfer.FileTransferManager.GetTransferProgress | src-tauri/src/utils/file_transfer.rs:439-442 | the progress of a known transfer, none for an unknown one |
| FileTransfer.FileTransferManager.GetActiveTransfers | src-tauri/src/utils/file_transfer.rs:445-448 | one report per transfer: exactly the progress of every stored session |
| FrameBuffer.SaturatingSub | src-tauri/src/streaming/frame_buffer.rs:51 | the subtraction is exact when it does not underflow and clamps to 0 otherwise |
| FrameBuffer.Admitted | src-tauri/src/streaming/frame_buffer.rs:47-61 | the new frame is at the back; a full non-empty queue first loses its front frame; a queue within max(max_size, 1) stays within it |
| FrameBuffer.DropOlder | src-tauri/src/streaming/frame_buffer.rs:131-144 | only frames older than the cutoff are removed, all from the front, and the remaining front (if any) is not older |
| FrameBuffer.DropOlderIsSuffix | src-tauri/src/streaming/frame_buffer.rs:137-143 | cleanup keeps a suffix of the queue |
| FrameBuffer.KeepNewest | src-tauri/src/streaming/frame_buffer.rs:146-159 | trimming keeps the newest min(len, n) frames, a suffix of the queue |
| FrameBuffer.FindById | src-tauri/src/streaming/frame_buffer.rs:69-74 | nothing is found exactly when no buffered frame has the id; otherwise the data of a frame with that id |
| FrameBuffer.FramesSince | src-tauri/src/streaming/frame_buffer.rs:76-82 | exactly the buffered frames stamped at or after the instant |
| FrameBuffer.FramesSinceAppend | src-tauri/src/streaming/frame_buffer.rs:78-81 | filtering keeps order: the frames since an instant from two buffers appended are those from the first followed by those from the second |
| FrameBuffer.Stats | src-tauri/src/streaming/frame_buffer.rs:101-129 | current and maximum frame count, total bytes and frames processed are reported as held; the average size is total / frames in integers and the duration is the newest frame's timestamp less the oldest's (0 if earlier); both are 0 for an empty queue |
| FrameBuffer.TotalSizeAppend | src-tauri/src/streaming/frame_buffer.rs:56-61 | pushing a frame adds its size to the byte total |
| FrameBuffer.EvictFront | src-tauri/src/streaming/frame_buffer.rs:49-52 | when the total is exact, evicting the front subtracts exactly its size and the saturating subtraction never clamps |
| FrameBuffer.AdmittedKeepsOrder | src-tauri/src/streaming/frame_buffer.rs:32-61 | a frame with a larger id and its exact size keeps ids strictly increasing front to back and sizes exact |
| FrameBuffer.LatestIsNewest | src-tauri/src/streaming/frame_buffer.rs:31-67 | after an add the latest frame is the one just added, and looking up the counter's value finds it |
| FrameBuffer.FindUnique | src-tauri/src/streaming/frame_buffer.rs:69-74 | with increasing ids, looking up a buffered frame's id finds that frame's data |
| FrameBuffer.SuffixTotal | src-tauri/src/streaming/frame_buffer.rs:131-159 | dropping frames from the front never raises the byte total |
| FrameBuffer.SuffixKeepsInvariants | src-tauri/src/streaming/frame_buffer.rs:131-159 | a suffix of a well-kept queue is well kept, with its own exact total |
| FrameBuffer.PopOlder | src-tauri/src/streaming/frame_buffer.rs:137-143 | the cleanup loop removes exactly the old prefix and keeps the running total exact |
| FrameBuffer.PopExcess | src-tauri/src/streaming/frame_buffer.rs:151-155 | the trimming loop keeps exactly the newest n frames and keeps the running total exact |
| FrameBuffer.FrameBuffer.constructor | src-tauri/src/streaming/frame_buffer.rs:22-29 | an empty queue with the given maximum, a zero counter and a zero total |
| FrameBuffer.FrameBuffer.AddFrame | src-tauri/src/streaming/frame_buffer.rs:31-62 | the counter goes up and its new value is the frame's id; the frame is admitted (evicting the front when full); the total stays exact and the length within max(max_size, 1) |
| FrameBuffer.FrameBuffer.GetLatestFrame | src-tauri/src/streaming/frame_buffer.rs:64-67 | nothing for an empty queue, otherwise the back frame's data |
| FrameBuffer.FrameBuffer.GetFrameById | src-tauri/src/streaming/frame_buffer.rs:69-74 | the data of the buffered frame with the id, or nothing |
| FrameBuffer.FrameBuffer.GetFramesSince | src-tauri/src/streaming/frame_buffer.rs:76-82 | the buffered frames stamped at or after the instant, in buffer order (see FramesSinceAppend) |
| FrameBuffer.FrameBuffer.Clear | src-tauri/src/streaming/frame_buffer.rs:93-99 | the queue and total are emptied and the counter is kept |
| FrameBuffer.FrameBuffer.GetBufferStats | src-tauri/src/streaming/frame_buffer.rs:101-129 | the statistics of the current queue |
| FrameBuffer.FrameBuffer.CleanupOldFrames | src-tauri/src/streaming/frame_buffer.rs:131-144 | exactly the frames older than now − max_age at the front are removed; the total stays exact |
| FrameBuffer.FrameBuffer.SetMaxSize | src-tauri/src/streaming/frame_buffer.rs:146-159 | the queue is trimmed to its newest n frames with the total exact; the stored maximum is unchanged, so later adds still evict against it |
| Image.Blank | src-tauri/src/streaming/compression.rs:185 | a new buffer has the requested size and every pixel zero |
| Image.PixelCount | src-tauri/src/codec/mod.rs:65 | a well-formed image holds width·height pixels |
| Image.BytesOf | src-tauri/src/codec/mod.rs:133-135 | the raw layout takes four bytes per pixel |
| Image.PixelsOf | src-tauri/src/codec/mod.rs:178 | four raw bytes make one pixel |
| Image.RowsOf | src-tauri/src/codec/mod.rs:178 | pixels regroup into h rows of w |
| Image.FromRaw | src-tauri/src/codec/mod.rs:178-179 | a buffer is built exactly when the data holds at least 4·w·h bytes, and it is then a w×h image |
| Image.PixelsOfBytesOf | src-tauri/src/codec/mod.rs:133-178 | pixels laid out as bytes read back unchanged |
| Image.BytesOfPixelsOf | src-tauri/src/codec/mod.rs:133-178 | bytes read as pixels lay out back to the same bytes |
| Image.RowsOfConcat | src-tauri/src/codec/mod.rs:133-178 | rows flattened and regrouped by the width come back unchanged |
| Image.ConcatRowsOf | src-tauri/src/codec/mod.rs:133-178 | pixels regrouped into rows and flattened come back unchanged |
| Image.FromRawOfRaw | src-tauri/src/codec/mod.rs:133-178 | the raw bytes of an image are 4·w·h long and rebuild the same image |
| Image.RawOfFromRaw | src-tauri/src/codec/mod.rs:178 | a buffer built from data lays out exactly the first 4·w·h bytes of it |
| Image.RgbOf | src-tauri/src/codec/mod.rs:182-195 | dropping alpha leaves three bytes per pixel |
| Image.RgbOfAppend | src-tauri/src/codec/mod.rs:186-192 | one more pixel appends its red, green and blue |
| Image.RgbLayout | src-tauri/src/codec/mod.rs:186-192 | pixel i's red, green and blue sit at 3i, 3i+1 and 3i+2 |
| Image.Crop | src-tauri/src/streaming/compression.rs:185-196 | the extracted block is a w×h image |
| Image.CropPixels | src-tauri/src/streaming/compression.rs:187-195 | each pixel of the block is the source pixel at the offset, or zero where the block runs past the source |
| Image.Paste | src-tauri/src/streaming/compression.rs:321-328 | pasting keeps the base's dimensions |
| Image.PastePixels | src-tauri/src/streaming/compression.rs:321-328 | after pasting, a pixel under the block is the block's and any other is the base's |
| Image.PasteOutside | src-tauri/src/streaming/compression.rs:321-328 | pixels outside the block are left as they were |
| Image.SetPixel | src-tauri/src/streaming/compression.rs:326 | put_pixel changes exactly the one pixel |
| Image.SamePixels | src-tauri/src/streaming/compression.rs:185-196 | two same-sized images with the same pixels are the same image |
| Image.CropBlock | src-tauri/src/streaming/compression.rs:185-196 | the pixel-by-pixel copy into a fresh buffer gives exactly the crop |
| Image.PasteBlock | src-tauri/src/streaming/compression.rs:321-328 | the pixel-by-pixel put_pixel loop gives exactly the paste |
| IdGenerator.FirstUnused | src-tauri/src/utils/id_generator.rs:33-48 | no value exactly when every draw is already used; otherwise a draw that is unused and preceded only by used ones |
| IdGenerator.DrawUnused | src-tauri/src/utils/id_generator.rs:28-48 | the retry loop returns the first unused among the first 1000 random draws |
| IdGenerator.IssuedId | src-tauri/src/utils/id_generator.rs:50-64 | the id, its text and its formatted form agree: the formatted id is the decimal digits of the number |
| IdGenerator.Cleaned | src-tauri/src/utils/id_generator.rs:74 | spaces and dashes are removed and every other character kept |
| IdGenerator.ParseConnectionId | src-tauri/src/utils/id_generator.rs:72-82 | a success needs 7 bytes after cleaning and is the u32 value of the cleaned text; any other length is refused with the message naming the length |
| IdGenerator.IssuedIdRoundTrip | src-tauri/src/utils/id_generator.rs:39-82 | every issued 7-digit id passes validate_id_format and parses back to its number |
| IdGenerator.ValidParses | src-tauri/src/utils/id_generator.rs:72-94 | text that validate_id_format accepts parses to the value of its digits |
| IdGenerator.SignedIdParsesButFailsCheck | src-tauri/src/utils/id_generator.rs:80-93 | "+" followed by six digits parses as a number but fails validate_id_format: the parser and the validator disagree |
| IdGenerator.SeparatorIgnoredByParser | src-tauri/src/utils/id_generator.rs:74-87 | a space or dash anywhere changes neither the parse nor the validation |
| IdGenerator.IdGenerator.constructor | src-tauri/src/utils/id_generator.rs:20-25 | no id used, no session registered |
| IdGenerator.IdGenerator.GenerateConnectionId | src-tauri/src/utils/id_generator.rs:28-69 | fails after 1000 used draws with the source's message and nothing reserved; otherwise the first unused draw is reserved and returned in its 7-digit form |
| IdGenerator.IdGenerator.RegisterSession | src-tauri/src/utils/id_generator.rs:97-102 | the formatted id now maps to the session, replacing any earlier mapping |
| IdGenerator.IdGenerator.GetSessionById | src-tauri/src/utils/id_generator.rs:105-108 | the session registered for the id, if any |
| IdGenerator.IdGenerator.ReleaseId | src-tauri/src/utils/id_generator.rs:111-124 | the number is no longer used and its session mapping is gone |
| IdGenerator.IdGenerator.GetActiveIds | src-tauri/src/utils/id_generator.rs:127-130 | exactly the used numbers, each once |
| IdGenerator.IdGenerator.IsIdInUse | src-tauri/src/utils/id_generator.rs:133-136 | true exactly for a used number |
| IdGenerator.TwoIdsDiffer | src-tauri/src/utils/id_generator.rs:174-181 | two ids generated one after the other by the same generator differ in number and in formatted form |
| Enigo.TruncReal | src-tauri/src/input/mod.rs:92-93 | a float-to-integer cast truncates toward zero |
| Enigo.ClampI32 | src-tauri/src/input/mod.rs:92-93 | a cast to i32 saturates at the 32-bit bounds and keeps in-range values |
| Enigo.Scale | src-tauri/src/input/mod.rs:88-100 | the accelerated coordinate is a 32-bit value; acceleration 1.0 leaves it unchanged, and a non-negative one keeps it non-negative |
| Input.KeyName | src-tauri/src/input/mod.rs:182-262 | a one-character name is a key exactly when it is a lower-case letter or a digit, and stands for that character |
| Input.LowerCharIdempotent | src-tauri/src/input/mod.rs:183 | lower-casing a character twice is lower-casing it once, and keeps it ASCII exactly when it was |
| Input.ToLowerIdempotent | src-tauri/src/input/mod.rs:183 | lower-casing a name twice is lower-casing it once |
| Input.ParseKey | src-tauri/src/input/mod.rs:182-281 | a key name fails exactly when its lower-cased form is not in the table and it is not a single character, with "Unknown key: …"; table names give their key, single characters their lower-cased self |
| Input.ParseKeyIgnoresCase | src-tauri/src/input/mod.rs:182-281 | a key name and its lower-cased form parse to the same key |
| Input.ParseButton | src-tauri/src/input/mod.rs:102-130 | "right" is the right button, "middle" the middle one, anything else the left |
| Input.ScrollAmount | src-tauri/src/input/mod.rs:136-140 | the scroll amount is a 32-bit number and 1 when the text after the direction does not parse |
| Input.ParseScroll | src-tauri/src/input/mod.rs:132-150 | the direction is 1 after "up", -1 after "down" and 0 otherwise, where nothing scrolls |
| Input.ScrollText | src-tauri/src/input/mod.rs:132-150 | "upN" scrolls by N, "downN" by -N, a bare direction by one notch, and other text not at all |
| Input.ScrollUp | src-tauri/src/input/mod.rs:137 | "upN" scrolls by N |
| Input.ScrollDown | src-tauri/src/input/mod.rs:139 | "downN" scrolls by -N |
| Input.ScrollBare | src-tauri/src/input/mod.rs:137-139 | a bare "up" or "down" scrolls one notch |
| Input.SendInputEffects | src-tauri/src/input/mod.rs:48-86 | an unknown event type or a disabled device does nothing; only a key press with an unknown key fails; a click moves then presses and releases the button; a key press presses and releases the key |
| Input.InputManager.constructor | src-tauri/src/input/mod.rs:35-46 | the default configuration and nothing sent |
| Input.InputManager.SendInput | src-tauri/src/input/mod.rs:48-86 | the effects of the event are sent, or its error returned with nothing sent |
| Input.InputManager.UpdateConfig | src-tauri/src/input/mod.rs:283-288 | the configuration is replaced and nothing is sent |
| Input.InputManager.GetConfig | src-tauri/src/input/mod.rs:290-292 | the current configuration |
| Input.InputManager.IsInputAvailable | src-tauri/src/input/mod.rs:294-299 | input is always reported available |
| Logging.DefaultLimits | src-tauri/src/utils/logging.rs:15-26 | the default logs at Info with no file path, 10 MiB per file and five files |
| Logging.BackupName | src-tauri/src/utils/logging.rs:99-104 | backup i is named with the stem, then ".i", then ".ext" |
| Logging.BackupNamesDistinct | src-tauri/src/utils/logging.rs:99-110 | different backup numbers give different file names, so no rename overwrites another backup |
| Logging.RotateLogFiles | src-tauri/src/utils/logging.rs:92-130 | after the loop from max_files−1 down to 1 and the final move, the current log is gone and every backup slot holds what the rotation rule says |
| Logging.RotationShifts | src-tauri/src/utils/logging.rs:98-126 | backup k−1 moves to k for 2 ≤ k ≤ max_files, and an existing current log becomes backup 1 |
| Logging.RotationDropsOldest | src-tauri/src/utils/logging.rs:98-126 | the last slot takes the one below it (its old content is overwritten), slots above max_files are untouched, and without a current log slot 1 ends empty |
| Logging.NoLoopForOneFile | src-tauri/src/utils/logging.rs:98 | with max_files 0 or 1 the loop does nothing, and only slot 1 can change |
| Logging.Appended | src-tauri/src/utils/logging.rs:174-181 | the new entry is last, the capture never grows beyond its limit, and below the limit nothing is dropped |
| Logging.AppendedSuffix | src-tauri/src/utils/logging.rs:174-181 | the capture after adding is a suffix of the old entries plus the new one: only the oldest entry is dropped |
| Logging.ByLevel | src-tauri/src/utils/logging.rs:187-192 | exactly the entries of the given level are returned |
| Logging.ByLevelAppend | src-tauri/src/utils/logging.rs:187-192 | filtering distributes over concatenation, so the entries keep their order |
| Logging.ExportLine | src-tauri/src/utils/logging.rs:201-209 | a line starts with the timestamp and "[level] ", and with "unknown - " when the entry has no module |
| Logging.ExportLines | src-tauri/src/utils/logging.rs:199-210 | one line per entry, in order |
| Logging.ExportLineSingle | src-tauri/src/utils/logging.rs:202-208 | an entry whose fields hold no newline renders as one line |
| Logging.ExportOneLinePerEntry | src-tauri/src/utils/logging.rs:198-212 | splitting the export at newlines gives back the line of each entry |
| Logging.LogCapture.constructor | src-tauri/src/utils/logging.rs:167-172 | an empty capture with the given limit |
| Logging.LogCapture.AddEntry | src-tauri/src/utils/logging.rs:174-181 | the entries become the appended list and stay within the limit |
| Logging.LogCapture.GetEntries | src-tauri/src/utils/logging.rs:183-185 | all entries, in order |
| Logging.LogCapture.GetEntriesByLevel | src-tauri/src/utils/logging.rs:187-192 | the entries of the level, in order |
| Logging.LogCapture.Clear | src-tauri/src/utils/logging.rs:194-196 | no entries remain |
| Logging.LogCapture.ExportToString | src-tauri/src/utils/logging.rs:198-212 | the lines of the entries joined with newlines |
| EnhancedInput.ToEnigoButton | src-tauri/src/input/enhanced_input.rs:467-474 | left, X1 and X2 become the left button; right and middle map to themselves |
| EnhancedInput.ModifierKey | src-tauri/src/input/enhanced_input.rs:452-465 | each modifier presses Control, Alt, Shift or Meta, with both Meta and Super pressing Meta |
| EnhancedInput.EnhancedKeyName | src-tauri/src/input/enhanced_input.rs:476-570 | the extended key table keeps every name the basic table knows |
| EnhancedInput.ConvertKey | src-tauri/src/input/enhanced_input.rs:476-570 | a key name fails exactly when its lower-cased form is not in the extended table and it is not one character, with "Unknown key: …"; table names give their key, single characters their lower-cased self |
| EnhancedInput.ConvertKeyExtendsParseKey | src-tauri/src/input/enhanced_input.rs:476-570 | every key the basic handler accepts converts to the same key here, and "ArrowUp" is accepted here only |
| EnhancedInput.ArrowUpName | src-tauri/src/input/enhanced_input.rs:476-570 | "ArrowUp" converts to the up arrow, which the basic handler rejects |
| EnhancedInput.DoubleClickEffects | src-tauri/src/input/enhanced_input.rs:306-326 | a double click moves once, then presses and releases the button twice |
| EnhancedInput.SmoothSteps | src-tauri/src/input/enhanced_input.rs:198-226 | a smooth move takes at least one step |
| EnhancedInput.TruncDivBounds | src-tauri/src/input/enhanced_input.rs:198-226 | a truncated interpolated offset lies between zero and the distance, and equals it at the last step |
| EnhancedInput.SmoothPathFacts | src-tauri/src/input/enhanced_input.rs:198-226 | a smooth move makes as many moves as steps, ends on the target, and never leaves the box between start and target |
| EnhancedInput.SmoothMoves | src-tauri/src/input/enhanced_input.rs:198-226 | the interpolation loop emits the smooth path |
| EnhancedInput.DisabledMouseIgnored | src-tauri/src/input/enhanced_input.rs:145-157 | with the mouse disabled an event changes nothing and sends nothing |
| EnhancedInput.PressRelease | src-tauri/src/input/enhanced_input.rs:228-263 | a press adds the button and moves to the point; a release removes it and ends a drag by that button |
| EnhancedInput.ClickRule | src-tauri/src/input/enhanced_input.rs:265-304 | a click near the last one in time and place is a double click that leaves the state alone; otherwise a single click recorded as the last click |
| EnhancedInput.SecondClickDoubles | src-tauri/src/input/enhanced_input.rs:265-304 | a second click at the same point within the double-click time is a double click |
| EnhancedInput.ScrollNotches | src-tauri/src/input/enhanced_input.rs:328-336 | a scroll moves three notches up for a positive delta and three down otherwise, zero included, changing no state |
| EnhancedInput.DragRule | src-tauri/src/input/enhanced_input.rs:338-365 | a drag starts at the last position with the button and time, or continues the current one, and moves to the point |
| EnhancedInput.ModifierPresses | src-tauri/src/input/enhanced_input.rs:452-465 | each modifier of the event is pressed once, in order |
| EnhancedInput.ApplyModifiers | src-tauri/src/input/enhanced_input.rs:452-465 | the modifier loop presses the modifiers in order |
| EnhancedInput.DisabledKeyboardIgnored | src-tauri/src/input/enhanced_input.rs:368-380 | with the keyboard disabled an event changes nothing and sends nothing |
| EnhancedInput.ModifiersNeverReleased | src-tauri/src/input/enhanced_input.rs:368-465 | active modifiers never change; the event's modifiers are pressed first and never released; only key-up and key-press events release a key, and that key is the event's |
| EnhancedInput.KeyDownUp | src-tauri/src/input/enhanced_input.rs:410-433 | key down adds the name to the pressed keys and stamps the time, key up removes it; an unknown key fails with nothing changed |
| EnhancedInput.EnhancedInputManager.constructor | src-tauri/src/input/enhanced_input.rs:123-142 | the default configuration, the initial mouse and keyboard states, nothing sent |
| EnhancedInput.EnhancedInputManager.HandleMouseEvent | src-tauri/src/input/enhanced_input.rs:145-365 | a smooth move records the target and sends the smooth path; any other event takes the mouse step |
| EnhancedInput.EnhancedInputManager.HandleKeyboardEvent | src-tauri/src/input/enhanced_input.rs:368-450 | the keyboard step: its result, its new state and its effects |
| EnhancedInput.EnhancedInputManager.UpdateConfig | src-tauri/src/input/enhanced_input.rs:573-578 | the configuration is replaced and nothing else changes |
| EnhancedInput.EnhancedInputManager.GetConfig | src-tauri/src/input/enhanced_input.rs:580-583 | the current configuration |
| EnhancedInput.EnhancedInputManager.GetInputStats | src-tauri/src/input/enhanced_input.rs:586-597 | the position, the drag flag and the numbers of pressed buttons and keys, with the active modifiers, which stay empty because none is ever recorded |
| Metrics.NewHistory | src-tauri/src/metrics/mod.rs:91-96 | a new history is empty and keeps the given capacity |
| Metrics.Latest | src-tauri/src/metrics/mod.rs:115-117 | there is a latest value exactly when the history is non-empty, and it is the value of the newest sample |
| Metrics.Add | src-tauri/src/metrics/mod.rs:98-105 | the sample is appended at the back and, once the length exceeds the capacity, the oldest is dropped; the length stays within capacity and a history of capacity ≥ 1 has the new value as latest |
| Metrics.ZeroCapacityForgets | src-tauri/src/metrics/mod.rs:98-105 | a history of capacity 0 drops the value it was just given, so it has no latest value |
| Metrics.Recent | src-tauri/src/metrics/mod.rs:107-113 | the recent values are never more than the stored samples |
| Metrics.RecentAppend | src-tauri/src/metrics/mod.rs:107-113 | filtering is sample by sample: a sample appended at the back shows up at the end of the result exactly when it is not older than the cutoff |
| Metrics.RecentMembers | src-tauri/src/metrics/mod.rs:107-113 | a value is among the recent ones exactly when some stored sample at or after the cutoff carries it |
| Metrics.RecentAll | src-tauri/src/metrics/mod.rs:107-113 | with the cutoff at the start of time every stored value is returned, oldest first |
| Metrics.ConnectionDrafts | src-tauri/src/metrics/mod.rs:362-409 | one connection reading raises at most four alerts |
| Metrics.ConnectionDraftsBreaches | src-tauri/src/metrics/mod.rs:366-408 | an alert of each type is raised exactly when its threshold is breached: latency above the maximum, packet loss above the maximum, bandwidth below the minimum, quality below the minimum; no other type is raised |
| Metrics.ConnectionDraftsSeverity | src-tauri/src/metrics/mod.rs:366-408 | packet-loss alerts are High and the other connection alerts Medium |
| Metrics.ConnectionDraftsOrdered | src-tauri/src/metrics/mod.rs:366-408 | the alerts come in the order the checks are made: latency, packet loss, bandwidth, quality |
| Metrics.Checked | src-tauri/src/metrics/mod.rs:366-375 | a check contributes its alert exactly when the threshold is breached, and nothing else |
| Metrics.SystemDrafts | src-tauri/src/metrics/mod.rs:294-318 | a CPU alert is raised exactly when CPU usage exceeds its maximum, a memory alert exactly when memory usage exceeds its maximum, both High |
| Metrics.QualityDrafts | src-tauri/src/metrics/mod.rs:327-351 | a low-quality alert is raised exactly when the video score is below its minimum, a frame-drop alert exactly when drops exceed their maximum, both Medium |
| Metrics.CreateAlerts | src-tauri/src/metrics/mod.rs:417-436 | each alert takes its fresh id, type, severity, message, value and threshold, the connection it concerns and the current time, and starts unacknowledged |
| Metrics.Acknowledged | src-tauri/src/metrics/mod.rs:259-266 | only the first alert with the id is marked acknowledged; every other alert is unchanged |
| Metrics.AcknowledgeUnknown | src-tauri/src/metrics/mod.rs:259-266 | an unknown id changes nothing (and is not an error) |
| Metrics.Unacknowledged | src-tauri/src/metrics/mod.rs:268-271 | exactly the unacknowledged alerts are kept |
| Metrics.UnacknowledgedAppend | src-tauri/src/metrics/mod.rs:268-271 | clearing works alert by alert, so it distributes over concatenation and keeps the order |
| Metrics.UnacknowledgedIdempotent | src-tauri/src/metrics/mod.rs:268-271 | clearing twice is clearing once |
| Metrics.NewAlertsSurviveClear | src-tauri/src/metrics/mod.rs:268-271 | freshly created alerts all survive a clear, since they start unacknowledged |
| Metrics.AllUnacknowledgedKept | src-tauri/src/metrics/mod.rs:268-271 | when no alert is acknowledged, clearing keeps the list as it is |
| Metrics.DefaultLatencyAlertOnly | src-tauri/src/metrics/mod.rs:140-150 | with the default thresholds (100 ms, 5 %, 1 Mbps, 70) a reading of 150 ms, 4 %, 10 Mbps and quality 90 raises only a latency alert |
| Metrics.RetainUnacknowledged | src-tauri/src/metrics/mod.rs:268-271 | the retain loop leaves exactly the unacknowledged alerts, in order |
| Metrics.UnacknowledgedStep | src-tauri/src/metrics/mod.rs:268-271 | the retaining pass over one more alert keeps it exactly when it is unacknowledged |
| Metrics.AllLatest | src-tauri/src/metrics/mod.rs:216-223 | exactly the connections with a non-empty history appear, each mapped to its latest reading |
| Metrics.MonitorTick | src-tauri/src/metrics/mod.rs:285-357 | with no system or quality reading no alert is raised; every alert raised concerns no connection, is stamped now and starts unacknowledged |
| Metrics.MetricsCollector.constructor | src-tauri/src/metrics/mod.rs:154-162 | no connection histories, empty system and quality histories of 300 samples, no alerts, default thresholds |
| Metrics.MetricsCollector.RecordSystemMetrics | src-tauri/src/metrics/mod.rs:176-180 | the system history takes the sample, it becomes the latest reading, and nothing else changes |
| Metrics.MetricsCollector.RecordQualityMetrics | src-tauri/src/metrics/mod.rs:182-186 | the quality history takes the sample, it becomes the latest reading, and nothing else changes |
| Metrics.MetricsCollector.RecordConnectionMetrics | src-tauri/src/metrics/mod.rs:197-207 | the connection's history (created with capacity 300 on first use) takes the reading, it becomes the latest, and the alerts it breaches are appended |
| Metrics.MetricsCollector.CheckConnectionAlerts | src-tauri/src/metrics/mod.rs:362-414 | the alerts raised under the current thresholds are appended for the connection, and nothing else changes |
| Metrics.MetricsCollector.MonitorAlerts | src-tauri/src/metrics/mod.rs:288-357 | one monitoring tick appends the system and quality alerts raised by the latest readings, and nothing else changes |
| Metrics.MetricsCollector.GetConnectionMetrics | src-tauri/src/metrics/mod.rs:209-214 | none for an unknown connection, otherwise its latest reading |
| Metrics.MetricsCollector.GetAllConnectionMetrics | src-tauri/src/metrics/mod.rs:216-223 | the latest reading of every connection that has one |
| Metrics.MetricsCollector.GetSystemMetrics | src-tauri/src/metrics/mod.rs:225-228 | the latest system reading, if any |
| Metrics.MetricsCollector.GetQualityMetrics | src-tauri/src/metrics/mod.rs:230-233 | the latest quality reading, if any |
| Metrics.MetricsCollector.GetConnectionHistory | src-tauri/src/metrics/mod.rs:235-242 | nothing for an unknown connection, otherwise its readings within the duration |
| Metrics.MetricsCollector.GetSystemHistory | src-tauri/src/metrics/mod.rs:244-247 | the system readings within the duration |
| Metrics.MetricsCollector.GetQualityHistory | src-tauri/src/metrics/mod.rs:249-252 | the quality readings within the duration |
| Metrics.MetricsCollector.GetAlerts | src-tauri/src/metrics/mod.rs:254-257 | all alerts as stored |
| Metrics.MetricsCollector.AcknowledgeAlert | src-tauri/src/metrics/mod.rs:259-266 | always succeeds; the first alert with the id is acknowledged and nothing else changes |
| Metrics.MetricsCollector.ClearAcknowledgedAlerts | src-tauri/src/metrics/mod.rs:268-271 | exactly the unacknowledged alerts remain, and nothing else changes |
| Metrics.MetricsCollector.UpdateAlertThresholds | src-tauri/src/metrics/mod.rs:273-277 | the thresholds are replaced as a whole, and nothing else changes |
| NetworkSessions.HostSession | src-tauri/src/network/mod.rs:80-112 | a hosted session records its id as host at address 0.0.0.0 and the current time |
| NetworkSessions.AfterConnect | src-tauri/src/network/mod.rs:114-146 | the session is recorded as a remote non-host connected now; every other session is untouched |
| NetworkSessions.ConnectReply | src-tauri/src/network/mod.rs:114-146 | every connection attempt succeeds with the session id, version 1.0.0, three capabilities, encryption and no error |
| NetworkSessions.NoConnectionLimit | src-tauri/src/network/mod.rs:114-146 | a full session table still accepts a new connection: the maximum is never enforced |
| NetworkSessions.ReconnectOverwrites | src-tauri/src/network/mod.rs:139 | connecting with an existing session id replaces that session (now a non-host) without growing the table |
| NetworkSessions.NetworkManager.constructor | src-tauri/src/network/mod.rs:72-78 | the default configuration and no session |
| NetworkSessions.NetworkManager.StartHostServer | src-tauri/src/network/mod.rs:80-112 | a server start failure is returned with no session; otherwise a host session is stored under the new id, which is returned |
| NetworkSessions.NetworkManager.ConnectToHost | src-tauri/src/network/mod.rs:114-146 | the simulated success reply, with the session recorded |
| NetworkSessions.NetworkManager.DisconnectSession | src-tauri/src/network/mod.rs:148-156 | the session is removed and the call succeeds |
| NetworkSessions.NetworkManager.GetActiveSessions | src-tauri/src/network/mod.rs:158-160 | every active session once |
| NetworkSessions.NetworkManager.UpdateConfig | src-tauri/src/network/mod.rs:162-167 | the configuration is replaced; the sessions are untouched |
| NetworkSessions.NetworkManager.GetNetworkStats | src-tauri/src/network/mod.rs:169-184 | the active and total counts are the session count, the byte counts zero, the uptime the clock's seconds |
| Protocol.ParseMessageType | src-tauri/src/network/protocol.rs:12-37 | a message type read from its wire name is the one with that name |
| Protocol.MessageTypeRoundTrip | src-tauri/src/network/protocol.rs:12-37 | every message type reads back from its snake_case name, and distinct types have distinct names |
| Protocol.ParseImageFormat | src-tauri/src/network/protocol.rs:59-67 | an image format read from its wire name is the one with that name |
| Protocol.ImageFormatRoundTrip | src-tauri/src/network/protocol.rs:59-67 | every image format reads back from its lowercase name, and distinct formats have distinct names |
| Protocol.ParseInputEventType | src-tauri/src/network/protocol.rs:80-90 | an input event type read from its wire name is the one with that name |
| Protocol.InputEventTypeRoundTrip | src-tauri/src/network/protocol.rs:80-90 | every input event type reads back from its snake_case name, and distinct types have distinct names |
| Protocol.ParseMouseButton | src-tauri/src/network/protocol.rs:92-100 | a mouse button read from its wire name is the one with that name |
| Protocol.MouseButtonRoundTrip | src-tauri/src/network/protocol.rs:92-100 | every mouse button reads back from its lowercase name, and distinct buttons have distinct names |
| Protocol.ParseKeyModifier | src-tauri/src/network/protocol.rs:102-110 | a key modifier read from its wire name is the one with that name |
| Protocol.KeyModifierRoundTrip | src-tauri/src/network/protocol.rs:102-110 | every key modifier reads back from its lowercase name, and distinct modifiers have distinct names |
| Protocol.ParseConnectionQuality | src-tauri/src/network/protocol.rs:146-154 | a connection quality read from its wire name is the one with that name |
| Protocol.ConnectionQualityRoundTrip | src-tauri/src/network/protocol.rs:146-154 | every connection quality reads back from its lowercase name, and distinct qualities have distinct names |
| Protocol.ErrorCodesDistinct | src-tauri/src/network/protocol.rs:169-176 | the seven error codes are distinct and fit in 32 bits |
| Protocol.StringsJson | src-tauri/src/network/protocol.rs:189-218 | a list of strings becomes a JSON array of those strings, in order |
| Protocol.NewMessage | src-tauri/src/network/protocol.rs:179-186 | a message carries the given id, type, payload and time |
| Protocol.AuthRequestMessage | src-tauri/src/network/protocol.rs:188-206 | an AuthRequest carrying the credentials as given (null when absent) and client information with the name and the three capabilities |
| Protocol.AuthResponseMessage | src-tauri/src/network/protocol.rs:208-221 | an AuthResponse carrying the success flag, error and token as given and the three server capabilities |
| Protocol.ScreenFrameMessage | src-tauri/src/network/protocol.rs:223-225 | a ScreenFrame message whose payload is the frame's JSON |
| Protocol.InputEventMessage | src-tauri/src/network/protocol.rs:227-229 | an InputEvent message whose payload is the event's JSON |
| Protocol.ErrorMessageOf | src-tauri/src/network/protocol.rs:231-239 | an Error message carrying the code, the text, and the details or null |
| Protocol.HeartbeatMessage | src-tauri/src/network/protocol.rs:241-246 | a Heartbeat stamped now whose payload holds the current time and protocol version 1.0.0 |
| Protocol.MouseMoveEvent | src-tauri/src/network/protocol.rs:250-260 | a mouse move at the point only, with no button, key or modifiers |
| Protocol.MouseClickEvent | src-tauri/src/network/protocol.rs:262-272 | a mouse click is the mouse move at the same point with the button added |
| Protocol.KeyPressEvent | src-tauri/src/network/protocol.rs:274-284 | a key press carries the key and the modifiers, and no point or button |
| Protocol.KeyTypeEvent | src-tauri/src/network/protocol.rs:286-296 | typed text travels in the key field with nothing else set |
| Protocol.MouseMoveWire | src-tauri/src/network/protocol.rs:68-78 | a mouse move is sent as event_type "mouse_move" with x and y and null button, key and modifiers |
| Permissions.NewGrant | src-tauri/src/permissions/mod.rs:247-271 | the grant records the connection, device and permissions, is granted now, and expires the given number of minutes later or never when no duration is given |
| Permissions.WithGrant | src-tauri/src/permissions/mod.rs:262-268 | the connection's grant is replaced by the new one; every other connection's grant is untouched |
| Permissions.Without | src-tauri/src/permissions/mod.rs:308 | exactly the permissions not being revoked are kept |
| Permissions.Revoked | src-tauri/src/permissions/mod.rs:296-337 | revoking all removes the connection's grant; revoking some removes them and drops the grant once none remain; an unknown connection and every other connection are untouched |
| Permissions.SweptPending | src-tauri/src/permissions/mod.rs:372-384 | exactly the requests not past their expiry are kept, unchanged |
| Permissions.SweptGrants | src-tauri/src/permissions/mod.rs:386-411 | exactly the grants that have not expired are kept (a grant without expiry never does), unchanged |
| Permissions.HasPermissionIff | src-tauri/src/permissions/mod.rs:273-294 | a permission checks as granted exactly when the connection holds an unexpired grant that lists it |
| Permissions.CheckAfterGrant | src-tauri/src/permissions/mod.rs:247-294 | right after a grant, a permission checks as granted exactly when it was granted and its duration (if any) has not run out |
| Permissions.CheckAfterRevoke | src-tauri/src/permissions/mod.rs:296-322 | a revoked permission no longer checks as granted; the others check as before |
| Permissions.CheckAfterRevokeAll | src-tauri/src/permissions/mod.rs:323-333 | after revoking everything, no permission checks as granted |
| Permissions.SweepKeepsIndefinite | src-tauri/src/permissions/mod.rs:390-397 | a grant without expiry survives the sweep and one past its expiry does not |
| Permissions.SweepAgreesWithCheck | src-tauri/src/permissions/mod.rs:273-294 | the sweep changes no permission check made at the same instant |
| Permissions.RemoveExpiredGrants | src-tauri/src/permissions/mod.rs:386-411 | the sweep loop keeps exactly the unexpired grants and reports each expired connection once |
| Permissions.ExpiredAmongAdd | src-tauri/src/permissions/mod.rs:388-397 | the expired connections among a key set grow by one exactly when the added grant has expired |
| Permissions.RemoveExpiredRequests | src-tauri/src/permissions/mod.rs:370-384 | the sweep loop keeps exactly the unexpired requests |
| Permissions.ExpiredEvents | src-tauri/src/permissions/mod.rs:402-408 | one expiry event per removed grant, in order |
| Permissions.PermissionManager.constructor | src-tauri/src/permissions/mod.rs:103-110 | the default configuration, no pending request, no grant, no event channel |
| Permissions.PermissionManager.Initialize | src-tauri/src/permissions/mod.rs:112-127 | the event channel is opened; nothing else changes |
| Permissions.PermissionManager.RequestPermission | src-tauri/src/permissions/mod.rs:129-191 | a whitelisted connection id or device name is granted at once for the default duration (whitelisting on); otherwise at the concurrent-connection limit the request is refused, and below it a request expiring in 5 minutes is stored, announced, and its id returned |
| Permissions.PermissionManager.RespondToRequest | src-tauri/src/permissions/mod.rs:193-245 | an unknown request is refused; a known one is removed; past its expiry an Expired response is announced and nothing granted; otherwise a grant response is granted, and the response announced |
| Permissions.PermissionManager.CheckPermission | src-tauri/src/permissions/mod.rs:273-294 | granted exactly when the connection holds an unexpired grant listing the permission |
| Permissions.PermissionManager.RevokePermissions | src-tauri/src/permissions/mod.rs:296-337 | the grants become the revoked ones; a revocation event naming the revoked permissions is sent only when the connection held a grant |
| Permissions.PermissionManager.GetActiveGrants | src-tauri/src/permissions/mod.rs:339-342 | each active grant once, in some order |
| Permissions.PermissionManager.GetPendingRequests | src-tauri/src/permissions/mod.rs:344-347 | each pending request once, in some order |
| Permissions.PermissionManager.UpdateConfig | src-tauri/src/permissions/mod.rs:349-354 | the configuration is replaced, and nothing else changes |
| Permissions.PermissionManager.Cleanup | src-tauri/src/permissions/mod.rs:360-417 | one cleanup tick keeps exactly the unexpired requests and grants, and with a channel sends one expiry event per removed grant |
| Permissions.PermissionManager.GetPermissionStats | src-tauri/src/permissions/mod.rs:419-429 | the active and pending counts, and zero for both totals |
| Performance.Pushed | src-tauri/src/utils/performance.rs:69-75 | the new sample is last, and a queue within max(max_samples, 1) grows by one up to that bound |
| Performance.PushedSuffix | src-tauri/src/utils/performance.rs:69-91 | each queue keeps the newest samples in arrival order: it is a suffix of the old queue plus the new sample |
| Performance.AverageMsBounds | src-tauri/src/utils/performance.rs:125-133 | the average in whole milliseconds is the sum divided by count·10⁶, rounded down (the u32 division and as_millis truncations compose) |
| Performance.AverageMsReal | src-tauri/src/utils/performance.rs:125-153 | 0.0 for an empty queue, otherwise the truncated millisecond average |
| Performance.ConstantSamples | src-tauri/src/utils/performance.rs:131-132 | a queue of equal samples averages to that sample in whole milliseconds |
| Performance.Bandwidth | src-tauri/src/utils/performance.rs:155-169 | 0.0 with fewer than two samples; otherwise the value times count·1000 is eight times the bytes, and it is never negative |
| Performance.Fps | src-tauri/src/utils/performance.rs:111-123 | corrected calculate_fps: 0 when the millisecond average is 0, otherwise 1000 divided by that average, so between 0 and 1000 |
| Performance.FpsAsWritten | src-tauri/src/utils/performance.rs:111-123 | as written the rate is infinite exactly when the nanosecond average is positive and the millisecond average is 0; a finite rate over a positive millisecond average times that average is 1000 |
| Performance.SubMillisecondFrames | src-tauri/src/utils/performance.rs:117-122 | frames 0.5 ms apart pass the is_zero guard yet divide 1000 by 0 milliseconds as written; the corrected rate is 0 |
| Performance.FpsAgrees | src-tauri/src/utils/performance.rs:111-123 | wherever the as-written rate is finite it equals the corrected one |
| Performance.PerformanceMonitor.constructor | src-tauri/src/utils/performance.rs:41-50 | four empty queues, no last frame, the given capacity |
| Performance.PerformanceMonitor.RecordFrame | src-tauri/src/utils/performance.rs:52-67 | the first frame only records its instant; later frames push the time since the previous one (0 if the clock went backwards) |
| Performance.PerformanceMonitor.RecordEncodeTime | src-tauri/src/utils/performance.rs:69-75 | the encode queue takes the duration and the other queues are untouched |
| Performance.PerformanceMonitor.RecordNetworkLatency | src-tauri/src/utils/performance.rs:77-83 | the latency queue takes the duration and the other queues are untouched |
| Performance.PerformanceMonitor.RecordBandwidth | src-tauri/src/utils/performance.rs:85-91 | the bandwidth queue takes the byte count and the other queues are untouched |
| Performance.PerformanceMonitor.GetMetrics | src-tauri/src/utils/performance.rs:93-109 | the rate is the zero rule's reading of the frame times (NanosZeroTest as written, where None is the infinite f64 quotient; MillisZeroTest corrected); each other field is the corresponding calculation over its queue; CPU and memory are the supplied readings |
| Performance.PerformanceMonitor.Reset | src-tauri/src/utils/performance.rs:337-343 | all four queues are emptied and the last frame is forgotten |
| ScreenCapture.FirstOverlapping | src-tauri/src/capture/screen_capture.rs:49-56 | the chosen screen is the first one the region overlaps with positive area; there is none exactly when the region overlaps no screen |
| ScreenCapture.ToCaptureRegions | src-tauri/src/capture/screen_capture.rs:112-117 | each changed block becomes a region with the same position and size, in the same order |
| ScreenCapture.DetectedBlocks | src-tauri/src/capture/screen_capture.rs:100-121 | with a same-sized previous frame, the regions are the 64×64 blocks (clipped at the edges) the detector flags, each once, in row-major order, inside the frame |
| ScreenCapture.WrappedCaptureMissesChange | src-tauri/src/capture/screen_capture.rs:145-149 | 1×1 frames black then (255, 1, 0) at threshold 30: the u8-cast test as written reports nothing, the intended sum reports the pixel |
| ScreenCapture.StatsAfter | src-tauri/src/capture/screen_capture.rs:160-180 | one more frame and its bytes are counted; the rate becomes one per interval since the last capture when that interval is positive and is kept otherwise; the duration is the time since the start |
| ScreenCapture.AdvancedScreenCapture.constructor | src-tauri/src/capture/screen_capture.rs:29-40 | no previous frame, zero statistics, the last capture time set to now |
| ScreenCapture.AdvancedScreenCapture.UpdateStats | src-tauri/src/capture/screen_capture.rs:160-180 | the statistics advance as update_stats prescribes and the last capture time becomes now |
| ScreenCapture.AdvancedScreenCapture.CaptureRegionOf | src-tauri/src/capture/screen_capture.rs:43-84 | a failing screen list or grab is passed on with nothing changed; a region on no screen is refused with its Debug text; otherwise the first overlapping screen is grabbed, an empty buffer returned and the statistics updated |
| ScreenCapture.AdvancedScreenCapture.DetectChanges | src-tauri/src/capture/screen_capture.rs:87-128 | with the block test the threshold selects (CaptureDetectorAsWritten as written), nothing is reported without a previous frame, the whole frame when the dimensions changed, the changed blocks otherwise; the current frame is kept for next time |
| ScreenCapture.AdvancedScreenCapture.ResetStats | src-tauri/src/capture/screen_capture.rs:186-193 | the statistics return to zero and nothing else changes |
| ScreenCapture.AdvancedScreenCapture.GetStats | src-tauri/src/capture/screen_capture.rs:182-184 | the current statistics |
| ScreenStreamer.BytesToImage | src-tauri/src/streaming/screen_streamer.rs:98-110 | the grab becomes an image exactly when there is a first screen and at least 4·w·h bytes; the image has that screen's size and lays out the leading bytes of the grab |
| ScreenStreamer.ClippedRegion | src-tauri/src/streaming/screen_streamer.rs:152-158 | the region keeps its corner, never grows, stays inside the screen, and is cut only at the right or bottom edge |
| ScreenStreamer.RegionImage | src-tauri/src/streaming/screen_streamer.rs:146-170 | a region is extracted exactly when its corner lies on the screen; otherwise "Region coordinates out of bounds" |
| ScreenStreamer.RegionPixels | src-tauri/src/streaming/screen_streamer.rs:160-169 | every pixel of the extracted region is the screen pixel at the offset, none of it past the screen |
| ScreenStreamer.ScreenStreamer.constructor | src-tauri/src/streaming/screen_streamer.rs:22-35 | no last frame, a zero counter, and a compressor built from the configuration |
| ScreenStreamer.ScreenStreamer.CaptureAndCompress | src-tauri/src/streaming/screen_streamer.rs:37-86 | a failing grab or conversion is passed on with nothing changed; otherwise the frame is delta-compressed against the last one when delta compression is on and a last frame exists, JPEG-compressed otherwise; on success the counter goes up and (with delta on) the frame is kept |
| ScreenStreamer.ScreenStreamer.UpdateConfig | src-tauri/src/streaming/screen_streamer.rs:112-122 | the configuration is replaced and a fresh compressor is built from it; the last frame and counter are kept |
| ScreenStreamer.ScreenStreamer.SetQuality | src-tauri/src/streaming/screen_streamer.rs:124-131 | the streamer's configured quality takes the value even when the compressor refuses it; the compressor accepts 1 to 100 only |
| ScreenStreamer.ScreenStreamer.ResetFrameCount | src-tauri/src/streaming/screen_streamer.rs:137-140 | the counter returns to zero and nothing else changes |
| ScreenStreamer.ScreenStreamer.GetFrameCount | src-tauri/src/streaming/screen_streamer.rs:133-135 | the frame counter |
| ScreenStreamer.ScreenStreamer.GetConfig | src-tauri/src/streaming/screen_streamer.rs:176-178 | the streamer's configuration |
| ScreenStreamer.ScreenStreamer.CaptureRegion | src-tauri/src/streaming/screen_streamer.rs:142-174 | a failing grab or conversion is passed on; a corner off the screen is refused; otherwise the clipped region is JPEG-compressed |
| SystemParse.Flushed | src-tauri/src/utils/system.rs:232-234 | the final flush adds the open interface, if any, after the finished ones |
| SystemParse.Opened | src-tauri/src/utils/system.rs:215-219 | a new interface starts with no addresses; only an `ip addr` header without a second ':' field opens none |
| SystemParse.AddressOf | src-tauri/src/utils/system.rs:260-263 | an `ip addr` address never keeps its "/prefix" |
| SystemParse.Classify | src-tauri/src/utils/system.rs:209-222 | a line is a header exactly when the format's header test holds, else an address line exactly when it carries an address, else ignored |
| SystemParse.Step | src-tauri/src/utils/system.rs:209-229 | a header flushes the open interface and opens the next; other lines never finish an interface, and an ignored line or a line with no interface open changes nothing |
| SystemParse.ParseOutput | src-tauri/src/utils/system.rs:202-237 | each of the three parsers returns the fold of its lines followed by the final flush |
| SystemParse.ParseLines | src-tauri/src/utils/system.rs:206-236 | the loop over the lines and the final flush return the interfaces the fold defines |
| SystemParse.ParseLineAt | src-tauri/src/utils/system.rs:206-230 | one iteration of the loop advances the parser state by exactly one line |
| SystemParse.ParseLine | src-tauri/src/utils/system.rs:209-229 | the branch taken for a classified line changes the state as the step rule says |
| SystemParse.FoldNext | src-tauri/src/utils/system.rs:206 | the state after i+1 lines is one step past the state after i |
| SystemParse.Names | src-tauri/src/utils/system.rs:215 | the names of the interfaces, one per interface, in order |
| SystemParse.InterfacesInOrder | src-tauri/src/utils/system.rs:209-234 | the interfaces returned are named exactly as their header lines were, in line order |
| SystemParse.DoneOnlyGrows | src-tauri/src/utils/system.rs:211-213 | further lines only append to the finished interfaces |
| SystemParse.NoHeaderNoInterfaces | src-tauri/src/utils/system.rs:220 | output without a header line yields no interface: addresses before any header are dropped |
| SystemParse.AddressJoinsOpenInterface | src-tauri/src/utils/system.rs:220-228 | an address line appends its address to the open interface and touches nothing else |
| SystemParse.IpAddrHeaderWithoutName | src-tauri/src/utils/system.rs:247-259 | an `ip addr` header without a second ':' field closes the open interface and leaves none open |
| SystemParse.AddressDroppedWhenClosed | src-tauri/src/utils/system.rs:220 | with no interface open, a non-header line changes nothing |
| SystemParse.IpconfigGuardVacuous | src-tauri/src/utils/system.rs:286-288 | after trimming, the `ipconfig` test "does not start with ' '" is always true, so a header is any line ending with ':' |
| SystemParse.IfconfigGuardVacuous | src-tauri/src/utils/system.rs:207-209 | as written, the ifconfig test "does not start with ' '" follows the trim and can never fail, so every line containing ':' is a header |
| SystemParse.ClassifyHeader | src-tauri/src/utils/system.rs:209-219 | an unindented line with ':' opens an interface named by the text before the first ':', in both readings |
| SystemParse.ClassifyIndented | src-tauri/src/utils/system.rs:207-209 | an indented line with ':' that is not an inet line opens a new interface as written, and is ignored by the corrected reading |
| SystemParse.ClassifyInet | src-tauri/src/utils/system.rs:220-222 | an indented inet line without ':' is an address line in both readings |
| SystemParse.IndentedColonLine | src-tauri/src/utils/system.rs:207-229 | header, indented "ether: …" line, inet line: as written this gives two interfaces and the first one loses its address; corrected, one interface holds the address |
| SystemParse.KbOf | src-tauri/src/utils/system.rs:123-124 | a figure exists exactly when the line has a second field; it fits a u64, and text that does not parse counts as 0 |
| SystemParse.ParseMeminfo | src-tauri/src/utils/system.rs:116-134 | the loop over the lines yields the total and available figures of the scan, times 1024 |
| SystemParse.MemScanIgnores | src-tauri/src/utils/system.rs:121-131 | lines starting with neither key leave both figures alone |
| SystemParse.MemTotalLine | src-tauri/src/utils/system.rs:122-125 | a MemTotal line with a second field sets the total to its value (0 when it does not parse) and leaves the available figure |
| SystemParse.MemLineWithoutField | src-tauri/src/utils/system.rs:122-130 | a key line without a second field keeps the earlier figures |
| Security.RecentFailures | src-tauri/src/security/mod.rs:192-206 | the recent failures counted are at most the attempts logged |
| Security.Recorded | src-tauri/src/security/mod.rs:208-223 | the attempt is appended, then the log is drained from the front to its newest 1000 entries |
| Security.SweptSessions | src-tauri/src/security/mod.rs:225-242 | exactly the sessions used within the timeout are kept, unchanged |
| Security.EncryptFrame | src-tauri/src/security/mod.rs:101-123 | an unknown session is refused with its id; a successful result is the nonce followed by the ciphertext sealed under the session's key |
| Security.DecryptFrame | src-tauri/src/security/mod.rs:125-146 | fewer than 12 bytes are refused before the key lookup; an unknown session is refused next; a success is the opening of the rest under the session's key and the leading 12-byte nonce |
| Security.RecentFailuresAppend | src-tauri/src/security/mod.rs:196-203 | the failure count is additive over the log |
| Security.FailureKeepsLimit | src-tauri/src/security/mod.rs:162-166 | recording a rate-limited client's failure keeps it rate-limited (the count does not drop, even with the 1000-entry drain) |
| Security.FailureCounts | src-tauri/src/security/mod.rs:208-223 | a new failure of the client raises its recent count by one, and dropping the oldest entry does not lower it below the old count |
| Security.CountsPartition | src-tauri/src/security/mod.rs:260-274 | successful and failed attempts add up to the total |
| Security.FrameRoundTrip | src-tauri/src/security/mod.rs:101-146 | with a cipher that opens what it seals and a 12-byte nonce, decrypting an encrypted frame gives the data back |
| Security.RetainActive | src-tauri/src/security/mod.rs:229-236 | the retain loop keeps exactly the sessions used within the timeout |
| Security.CountOutcomes | src-tauri/src/security/mod.rs:264-265 | the counting loop finds the successful and failed attempts, which add up to the total |
| Security.SecurityManager.constructor | src-tauri/src/security/mod.rs:54-73 | the default configuration, no session keys and no attempts |
| Security.SecurityManager.CreateSessionKey | src-tauri/src/security/mod.rs:80-99 | the new session maps to its key, created and last used now; its id is returned and nothing else changes |
| Security.SecurityManager.EncryptData | src-tauri/src/security/mod.rs:101-123 | the frame is encrypted under the session's key and begins with the nonce |
| Security.SecurityManager.DecryptData | src-tauri/src/security/mod.rs:125-146 | the frame is decrypted under the session's key |
| Security.SecurityManager.AuthenticateClient | src-tauri/src/security/mod.rs:159-190 | a rate-limited client is refused and a failure recorded; otherwise the credentials decide (every field non-empty) and the outcome is recorded |
| Security.SecurityManager.CleanupExpiredSessions | src-tauri/src/security/mod.rs:225-242 | exactly the sessions used within the session timeout remain |
| Security.SecurityManager.UpdateSessionActivity | src-tauri/src/security/mod.rs:244-250 | a known session's last use becomes now; an unknown id changes nothing |
| Security.SecurityManager.RevokeSession | src-tauri/src/security/mod.rs:252-258 | the session is removed, and nothing else changes |
| Security.SecurityManager.GetSecurityStats | src-tauri/src/security/mod.rs:260-274 | active session count, attempt count, successes and failures (adding up to the attempts) and the encryption flag |
| Security.SecurityManager.UpdateConfig | src-tauri/src/security/mod.rs:276-281 | the configuration is replaced, and nothing else changes |
| Tiling.TileCount | src-tauri/src/codec/mod.rs:238-242 | the stepped loops visit ⌈w/bs⌉·⌈h/bs⌉ blocks |
| Tiling.TilesInOrder | src-tauri/src/codec/mod.rs:238-242 | blocks are visited row by row, left to right, and each clipped block lies inside the frame |
| Tiling.TilesCoverOnce | src-tauri/src/codec/mod.rs:238-242 | every pixel of the frame lies in exactly one block, so clipping at the right and bottom edges loses and duplicates nothing |
| Tiling.RowCover | src-tauri/src/codec/mod.rs:239-241 | within one block row, a pixel of that row is in exactly one block from the starting column on |
| Tiling.RowsCover | src-tauri/src/codec/mod.rs:238-242 | from a given block row on, every pixel at or below it is in exactly one block |
| Tiling.ChannelSum | src-tauri/src/codec/mod.rs:270-272 | the summed absolute channel difference is at most 765, more than a u8 holds |
| Tiling.WrappedSumAgrees | src-tauri/src/codec/mod.rs:270-276 | while the channel sum is below 256 the u8 cast changes nothing, so the wrapped rule and the intended rule agree |
| Tiling.SumRuleMonotone | src-tauri/src/codec/mod.rs:270-276 | under the plain sum, a pixel whose channels move at least as far as a changed pixel's is changed too |
| Tiling.WrappedSumHidesChange | src-tauri/src/codec/mod.rs:270-276 | black to (255, 1, 0) sums to 256, which the u8 cast turns into 0: the wrapped rule misses it, the plain rule sees it; a change summing to 200 is seen by both |
| Tiling.RowHits | src-tauri/src/codec/mod.rs:265-279 | the inner loop counts at most one hit per pixel of the row |
| Tiling.BlockHits | src-tauri/src/codec/mod.rs:264-280 | the outer loop counts at most one hit per pixel of the visited rows |
| Tiling.ChangedPixels | src-tauri/src/codec/mod.rs:257-281 | the changed pixels of a block are at most its area |
| Tiling.CountChangedPixels | src-tauri/src/codec/mod.rs:259-281 | the nested dy/dx loops count exactly the pixels inside the frame that the pixel rule flags |
| Tiling.BlockChangedMethod | src-tauri/src/codec/mod.rs:257-285 | the block test is the share of changed pixels against the block rule (integer percentage above the bound, or an exact fraction) |
| Tiling.ChangedIn | src-tauri/src/codec/mod.rs:243-251 | no more regions are reported than blocks visited |
| Tiling.ChangedInMembers | src-tauri/src/codec/mod.rs:243-251 | a block is reported exactly when it is visited and the detector flags it |
| Tiling.NoneChanged | src-tauri/src/codec/mod.rs:243-251 | when no block is flagged, nothing is reported |
| Tiling.ChangedInAppend | src-tauri/src/codec/mod.rs:238-252 | reporting works block by block, so it distributes over the concatenation of block lists |
| Tiling.ChangedInOrder | src-tauri/src/codec/mod.rs:238-252 | the reported regions keep the row-major scan order |
| Tiling.ChangedTilesFacts | src-tauri/src/codec/mod.rs:233-255 | the changed regions of a frame are in scan order, lie inside the frame, and are exactly the flagged blocks |
| Tiling.RowStep | src-tauri/src/codec/mod.rs:239-251 | one step of the column loop reports the current block exactly when it is flagged, then goes on bs columns further |
| Tiling.RowsStep | src-tauri/src/codec/mod.rs:238-252 | one step of the row loop reports the flagged blocks of that row, then goes on bs rows further |
| Tiling.ChangedInRow | src-tauri/src/codec/mod.rs:239-251 | the column loop of one block row reports exactly that row's flagged blocks, in order |
| Tiling.ChangedTiles | src-tauri/src/codec/mod.rs:233-255 | the two stepped loops report exactly the flagged blocks of the whole frame, in scan order |
| StreamingControl.StreamingManager.constructor | src-tauri/src/streaming/mod.rs:81-100 | the default configuration, no streamer, a 3-frame buffer that is empty, zero statistics, no events, not streaming |
| StreamingControl.StreamingManager.Initialize | src-tauri/src/streaming/mod.rs:102-123 | an event channel is opened and a fresh streamer, with no last frame and a zero counter, is built from the current configuration; the configuration, statistics, frame buffer and streaming state are kept |
| StreamingControl.StreamingManager.StartStreaming | src-tauri/src/streaming/mod.rs:125-238 | streaming is on and the start time recorded; configuration, streamer, statistics, frame buffer and events are kept |
| StreamingControl.StreamingManager.StopStreaming | src-tauri/src/streaming/mod.rs:240-254 | streaming is off and the start time cleared; configuration, streamer, statistics, frame buffer and events are kept |
| StreamingControl.StreamingManager.IsStreaming | src-tauri/src/streaming/mod.rs:256-258 | whether streaming is on |
| StreamingControl.StreamingManager.GetStats | src-tauri/src/streaming/mod.rs:260-262 | the current statistics |
| StreamingControl.StreamingManager.UpdateConfig | src-tauri/src/streaming/mod.rs:264-278 | the manager and its streamer both take the new configuration; the statistics, event channel, frame buffer, streaming state and the streamer's last frame and counter are kept |
| StreamingControl.StreamingManager.AdjustQuality | src-tauri/src/streaming/mod.rs:280-301 | a quality of 0 or above 100 is refused with nothing changed; otherwise the manager, the streamer and its JPEG quality take it and a QualityAdjusted event is sent; the statistics, event channel, frame buffer, streaming state and the streamer's last frame and counter are kept |
| Utils.Scale | src-tauri/src/utils/mod.rs:32-38 | the division loop ends at a unit index in range, the scaled value times 1024^(steps) is the original size, and it is below 1024 unless the largest unit (TB) was reached |
| Utils.FormatBytes | src-tauri/src/utils/mod.rs:24-41 | below 1024 the size is shown whole in bytes; otherwise the value and unit are those of the division loop |
| Utils.RenderWhole | src-tauri/src/utils/mod.rs:28-29 | the whole-byte text is the decimal number followed by " B" |
| Utils.ScaleMeaning | src-tauri/src/utils/mod.rs:32-40 | for at least 1024 bytes the shown value is at least 1.0, at least one division happened, their product restores the size, and the value is below 1024 unless the unit is TB |
| Utils.ScaleExamples | src-tauri/src/utils/mod.rs:124-129 | 512 → "512 B", 1024 → (1.0, KB), 1536 → (1.5, KB), 1 MiB → (1.0, MB), as the unit test expects |
| Utils.Clock | src-tauri/src/utils/mod.rs:48-50 | minutes and seconds are below 60 and hours·3600 + minutes·60 + seconds is the whole number of seconds |
| Utils.ClockPieces | src-tauri/src/utils/mod.rs:52-58 | one to three pieces, the last always the seconds |
| Utils.FormatDuration | src-tauri/src/utils/mod.rs:43-59 | under a second the text is "<n>ms"; under a minute it is the whole seconds with "s" |
| Utils.PieceValue | src-tauri/src/utils/mod.rs:53-57 | an "<n>h", "<n>m" or "<n>s" piece reads back as n hours, minutes or seconds in milliseconds |
| Utils.ClockPiecesTotal | src-tauri/src/utils/mod.rs:52-58 | the pieces read back to the total of hours, minutes and seconds, and no piece holds a space |
| Utils.PiecesTotal | src-tauri/src/utils/mod.rs:48-58 | from one second up the pieces add up to the duration truncated to whole seconds |
| Utils.DurationRoundTrip | src-tauri/src/utils/mod.rs:43-59 | reading the text back gives the duration itself under a second and the duration truncated to whole seconds otherwise |
| Utils.DurationExamples | src-tauri/src/utils/mod.rs:132-137 | 500 → "500ms", 1500 → "1s", 65000 → "1m 5s", 3665000 → "1h 1m 5s" |
| Utils.ValidateNetworkAddress | src-tauri/src/utils/mod.rs:61-78 | true exactly when there is a ':' whose left side (before the first ':') is an IPv4 address or "localhost" and whose right side is a nonzero u16 |
| Utils.DottedIsIpv4 | src-tauri/src/utils/mod.rs:65 | four octets up to 255, printed with dots, form an IPv4 host that holds no ':' |
| Utils.ValidAddresses | src-tauri/src/utils/mod.rs:61-78 | every valid host followed by ":" and a port 1..65535 is accepted |
| Utils.InvalidAddresses | src-tauri/src/utils/mod.rs:61-78 | an address without ':' is refused, and so is one whose port is 0 or above 65535 (the test's "127.0.0.1:70000") |
| Utils.SessionId | src-tauri/src/utils/mod.rs:80-86 | the id has 11 characters, '-' at positions 3 and 7, and three groups of digits |
| Utils.SessionIdGroups | src-tauri/src/utils/mod.rs:85 | the three groups are the millions, thousands and units of the number, each zero-padded to three digits |
| Utils.SessionIdDigits | src-tauri/src/utils/mod.rs:84-85 | the nine digits of the id, read together, are the random number it was made from |
| Utils.SanitizeChar | src-tauri/src/utils/mod.rs:91-97 | the result is always an allowed character; an allowed one is kept and any other becomes '_' |
| Utils.SanitizeFilename | src-tauri/src/utils/mod.rs:88-99 | same length; every character is allowed, and a position changes exactly when its character was not allowed |
| Utils.SanitizeIdempotent | src-tauri/src/utils/mod.rs:88-99 | sanitising twice is sanitising once |
| Utils.SanitizeFixedPoints | src-tauri/src/utils/mod.rs:88-99 | a name is left unchanged exactly when every character is allowed |
| Utils.SanitizeExamples | src-tauri/src/utils/mod.rs:150-154 | the unit test's examples: "test file.txt" → "test_file.txt", "file@name#.log" → "file_name_.log" |

## Left out

- Concurrency: tokio tasks, interval ticks, locks, channels and the file-transfer semaphore. Each operation is one sequential step, background sweeps are explicit `Cleanup` calls, and a channel is the list of messages sent on it.
- The periodic loops themselves are not modelled. These are: the streaming capture loop of `start_streaming` (including its fps-derived interval); the discovery listener, announcer and sweeper tasks, whose per-message and per-tick steps are `HandleMessage` and `Cleanup`; the relay event task, whose step is `HandleRelayEvent`; and the metrics `start_collection` loop.
- Sockets and transports: UDP binding and sending in discovery, and network/p2p.rs, server.rs, client.rs and relay_client.rs. Their outcomes are inputs of the modelled operations.
- Cryptography: RSA key handling and AES-GCM in security/mod.rs are a function-valued cipher. Only the nonce framing and length checks are modelled. The `DefaultHasher` checksums in file_transfer.rs are a function-valued input.
- Foreign libraries: JPEG, PNG and WebP codecs, bincode error texts, gzip, the screenshots crate (capture/mod.rs is not part of this model) and enigo injection. The calls to enigo are recorded effects; enigo failures and the sleeps between its calls are not modelled.
- Clock and randomness: `Utc::now`, `Instant` and `SystemTime` are parameters, and the monotonic clock is not distinguished from UTC. UUIDs and `rand` draws are supplied values.
- The file system and the OS:
  - config load and save paths, log-file setup (`init_logging`, `setup_file_logging`, `log_system_info`, `log_performance`, `save_to_file`) and config `export_to_file`;
  - `is_admin`, `get_system_info`, `get_platform_info`;
  - the commands that produce the parsed text of `get_cpu_usage` and `get_memory_usage`; only the `/proc/meminfo` line parsing is modelled;
  - reading the file system in `send_file` and `send_chunk`: the path's kind and the file's bytes are parameters, so a failing `fs::metadata` in `send_file` and a failing `File::open` or read in `send_chunk` do not occur in the model.
- Floating point:
  - the `f64` averages and rates are exact `real`s;
  - metric readings and thresholds (`f32`) are integers with the same comparisons;
  - `format_bytes` above 1023 bytes divides exactly and returns the value and the unit; its `"{:.1} {unit}"` text rendering is not modelled;
  - the compressor's 5 % and 50 % ratios and the codec's integer percentages are exact rationals, so IEEE rounding at the boundaries is not modelled;
  - `decode_raw`'s `f64` square root is an exact integer square root.
- Integer widths: the wrap-around of `u64`/`u32`/`i32` arithmetic is not modelled where it needs inputs near the bounds. This covers:
  - the squared click distance and the `dx` of a smooth move in enhanced_input.rs;
  - `direction * amount` in the scroll of input/mod.rs (negating `i32::MIN`);
  - `width + 15` in the block counts;
  - the `u32` product `width * width * 4` in `decode_raw`.
  - `ParseMeminfo`'s multiplication of the kB figure by 1024, which overflows `u64` for figures of 2^54 kB and more.
  The `u8` casts of the per-pixel channel sums are modelled as the as-written detectors; the corrected detectors compare the full sum (see Findings).
- EnhancedInput.SmoothPoint: the code truncates the `f64` product `dx * (i / steps)` toward zero, while the model divides `dx * i` by `steps` exactly before truncating, so the two can differ by one pixel (from (0, 0) to (49, 490) in 49 steps, step 1 is x = 0 in the code and x = 1 in the model); `SmoothMoves` and `HandleMouseEvent` inherit this.
- SystemParse.ParseOutput: the `ip addr` header test (`SystemParse.IsHeader`) accepts only the ASCII digits '0'..'9' as a leading numeric character, while `char::is_numeric` accepts every Unicode numeric character (such as '٣', '²' or 'Ⅻ'); a line starting with one of those opens an interface in the code and not in the model.
- Text: lower-casing is ASCII only, and names outside ASCII are compared as given. `Utils.SanitizeChar` treats only ASCII letters and digits as alphanumeric (Rust's `is_alphanumeric` is Unicode-wide). JSON member order is not modelled, and timestamps are their rendered text.
- FileTransfer.FileNameOf: Rust's `Path::file_name` gives "dir" for "dir/", but the model gives the empty name, which the transfer rejects as an invalid file name.
- Getters with no logic of their own are not modelled: frame_buffer `get_buffer_size` and `get_total_bytes`, permissions `get_config`, streaming `get_latest_frame` and `get_frame_buffer_size`. Neither are frame_buffer's `f32` `get_frame_rate` and `get_bandwidth_usage`, or metrics `export_metrics_csv`, `collect_system_metrics` and `collect_quality_metrics`.
- `ScreenCaptureManager::new` and `ScreenStreamer::new` failing: creating a streamer always succeeds here.
- main.rs: everything beyond the pure mappings, the address composition and the status strings. This includes the tray, the global managers, the debug commands and the performance-test commands. `get_connection_status` asks a freshly created manager and so always reports "disconnected"; only the string mapping is modelled.
- testing/mod.rs (random simulated results and sleeps) is not part of this model.

## Findings

| source | as written | input that shows it | evidently intended | confidence | as-written member | corrected member |
|---|---|---|---|---|---|---|
| src-tauri/src/utils/performance.rs:117-122 | the zero test is on the nanosecond average, but the quotient divides by its whole milliseconds | frame times of 0.5 ms each: the average is non-zero and truncates to 0 ms, so 1000.0 / 0 gives infinity | test the millisecond value that is divided by | not executed | Performance.FpsAsWritten, Performance.SubMillisecondFrames | Performance.Fps, Performance.FpsAgrees, Performance.PerformanceMonitor.GetMetrics |
| src-tauri/src/utils/file_transfer.rs:372-373 | a received chunk is written at chunk_index × the length of this chunk | a 100-byte file in 64-byte chunks: the 36-byte last chunk lands at offset 36, giving a 72-byte file | offset chunk_index × configured chunk_size, as send_chunk reads it | not executed | FileTransfer.ReceiveOffsetAsWritten, FileTransfer.LastChunkMisplaced | FileTransfer.ReceiveOffset, FileTransfer.ReassemblyRoundTrip |
| src-tauri/src/utils/system.rs:207-209 | the line is trimmed before the no-leading-whitespace test, so every line with ':' opens a new interface | an indented "ether: …" line under an interface header opens a second, bogus interface | test the leading whitespace of the untrimmed line | not executed | SystemParse.IfconfigGuardVacuous, SystemParse.IndentedColonLine | SystemParse.ClassifyIndented |
| src-tauri/src/codec/mod.rs:272-274 | the per-pixel sum of the absolute channel differences is cast to u8 before the comparison with 30 | black to (255, 1, 0): the sum 256 wraps to 0 and the changed block is missed | compare the full sum | not executed | Codec.WrappedDiffMissesBlock, Codec.DeltaAsWrittenSkipsChange, Tiling.WrappedSumHidesChange | Codec.CalculateDifferences, Codec.VideoCodec.EncodeDeltaFrame, Tiling.WrappedSumAgrees |
| src-tauri/src/capture/screen_capture.rs:145-147 | the same u8 cast of the channel sum before the threshold comparison | black to (255, 1, 0) with threshold 30: no region reported | compare the full sum | not executed | ScreenCapture.WrappedCaptureMissesChange | ScreenCapture.AdvancedScreenCapture.DetectChanges |
| src-tauri/src/main.rs:714-730 | check_permission asks a permission manager created for the call, which holds no grant | any connection holding a live screen_view grant: the command answers false | ask the application's permission manager | not executed | AppCommands.CheckPermissionAsWritten, AppCommands.CheckPermissionNeverGrants | AppCommands.CheckPermissionCommand |
