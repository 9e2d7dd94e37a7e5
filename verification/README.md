# pupil ingest server — a Dafny model

pupil is a live audio/video ingest server. A broadcaster connects over
TCP and is greeted with `HI\n`. It sends its broadcast ID as a line of
text and gets `BEGIN\n` back. From then on it streams length-prefixed
binary packets: parameter sets, picture dimensions, the stream type, and
audio and video samples. The server writes them into fragmented MP4
segments and HLS playlists, samples a keyframe for a thumbnail every so
often, uploads every produced file to S3 under `<broadcastID>/<file>`,
and reports the broadcast's status (`LIVE`, `DONE`) to a metadata API.

This project models that core as pure functions over immutable
datatypes:

- `SessionCore` models one connection (`PupilSession`):
  - the lifecycle STARTING → LIVE → DONE and its status pushes;
  - the packet handlers, including the keyframe counter (a thumbnail at the
    sync frame after five counted ones);
  - writer set-up, and `close`.
- `Framing` models the binary framing:
  - `read(bytes:)` as written (`Read`), which the server model
    (`AppServer.ReadLoopStep`) uses;
  - the intended decoder loop (`DrainBy`/`IngestBy`, and `Ingest` with the
    session's own dispatch; see Findings), and `ReadAgreesWithIngest`, which
    says when the two give the same result.
- `MediaWriterModel` models the separate `MediaWriter` pipeline.
- `AppServer` models the server executable's connection handling:
  - the session map keyed by socket descriptor;
  - the handshake (`handleText`);
  - one turn of the read loop;
  - the stored completion that removes a finished session.
- `CoreServer` models the library's `Server`/`Session` types:
  - the text responses;
  - the session list kept by `connected`/`disconnected`;
  - session equality by hash value.
- `CoreCloud` and `AppCloud` model the two uploaders:
  - the bucket key;
  - the content type;
  - the thumbnail bookkeeping on the cached broadcast;
  - the retry loop;
  - the status payload.
- `Config` models reading the configuration from the environment, and the
  getters with their fallbacks.
- `Broadcasts` models the broadcast record and `add(thumbnail:)`.
- `Effects` is the effect log. `Seqs` holds the standard-library sequence
  operations the code relies on (`components(separatedBy:)`,
  `split(separator:)`, `replacingOccurrences`, `contains`).

How the model represents the outside world:

- Every call into the writer, the thumbnailer, a socket, S3, the metadata
  API or the file system is an `Effect` value. Effects are recorded in the
  order the code makes the calls.
- A Swift trap (an out-of-range slice, a force-unwrap of `nil`) is a
  `Crash` result.
- The opaque parsers of the media library are fields of the `Env` record:
  - the 4-byte length decoder;
  - the sample-type decoder;
  - the sample and settings constructors;
  - the stream-type parser;
  - UTF-8 decoding;
  - whether creating a writer succeeds.
- Socket reads are `ReadOutcome` values. The outcomes of reading a file,
  `putObject` and the deletion are `UploadIO` flags.

Where the code's behaviour is surprising, the model follows the code:

- The 4-byte length counts the whole packet, its own four bytes included.
- A stream-type packet creates a new writer every time. There is no guard
  against a second one.
- `close` does not remove a session from the server's map. It stores the
  removal as the completion that runs after the next finished upload
  (`UploadFinished`), so a closed session stays registered until then.
- `PupilSession` pushes its state with `update(broadcast:with:)` taking a
  state. That overload is commented out in the library's uploader and
  exists only in the executable's uploader. The pushed payload is therefore
  the executable's `{"status": <raw value>}` (`AppCloud.StatusPayload`).

## Model

| member | source | states |
|---|---|---|
| SessionCore.SetState | Sources/pupilCore/PupilSession.swift:15-21 | Setting the state fetches the broadcast and then pushes the new state's raw value, but only when a broadcast ID is known; otherwise nothing is sent |
| SessionCore.AssignBroadcastID | Sources/pupilCore/PupilSession.swift:40-45 | Assigning an ID makes the session LIVE. It announces LIVE for that ID and creates a thumbnailer under root/ID; buffer, root and stored completion are untouched |
| SessionCore.Close | Sources/pupilCore/PupilSession.swift:199-204 | Close goes DONE and stores the completion. It closes the socket first, stops the writer exactly when one exists, and ends with the DONE push when the ID is known |
| SessionCore.LifecycleOrder | Sources/pupilCore/PupilSession.swift:7-21 | A new session starts in STARTING with no ID. Handshake then close goes STARTING → LIVE → DONE, and the metadata API hears exactly LIVE then DONE |
| SessionCore.SetupWriter | Sources/pupilCore/PupilSession.swift:182-197 | Without a broadcast ID nothing happens. Otherwise a writer is created in root/ID when creation succeeds; on failure the previous writer is kept |
| SessionCore.ThumbnailStage | Sources/pupilCore/PupilSession.swift:120-140 | Non-sync frames change nothing. A sync frame below 5 bumps the counter. At 5 without parameter sets nothing happens. At 5 with them the counter resets and, with a thumbnailer, the frame is digested: the sps/pps without their first byte, then each NAL unit without its 4-byte prefix, in order. It traps iff a parameter set is empty or a NAL unit is shorter than 4 bytes, and only in that case |
| SessionCore.SettingsStage | Sources/pupilCore/PupilSession.swift:142-164 | With params, dimensions and a writer, the sample is appended last. The writer is configured first exactly when the derived settings differ from the stored ones, and those settings are stored. Otherwise nothing happens |
| SessionCore.HandleVideo | Sources/pupilCore/PupilSession.swift:117-165 | A video packet traps iff the thumbnail stage traps. A configure happens iff the sample reaches the writer with new settings; the append comes last; nothing else in the media state changes. The effects are the thumbnail stage's digest followed by the writer's configure and append |
| SessionCore.AudioEffects | Sources/pupilCore/PupilSession.swift:167-174 | With a writer: configure with the sample's own settings, then append. Without one: nothing |
| SessionCore.Dispatch | Sources/pupilCore/PupilSession.swift:77-103 | The type byte selects the handler. Params are split at 0x70 with empty pieces dropped; dimensions are replaced; a parsed stream type is stored, and with a known ID and a successful creation the writer becomes the one in root/ID with that type, announced by exactly one create effect; otherwise nothing else changes. Unknown tags are ignored. Only video packets can trap |
| SessionCore.ThumbnailStageValid | Sources/pupilCore/PupilSession.swift:120-140 | The keyframe counter never exceeds 5 |
| SessionCore.DispatchValid | Sources/pupilCore/PupilSession.swift:77-103 | Every packet keeps the invariant (counter ≤ 5, no empty parameter set). So the sps/pps slicing cannot trap; the only possible trap is a NAL unit shorter than four bytes |
| SessionCore.ThumbnailCadence | Sources/pupilCore/PupilSession.swift:120-139 | From a counter of 0, five sync frames only count: they produce no effects and leave the counter at 5 |
| SessionCore.SixthFrameSampled | Sources/pupilCore/PupilSession.swift:120-134 | At 5 with parameter sets, the next sync frame resets the counter. With a thumbnailer it produces the sps/pps (first byte dropped), then one decode per NAL unit. It cannot trap when both sets are non-empty and every NAL unit has at least four bytes. Without a thumbnailer it produces nothing |
| SessionCore.SampledKeyframeDispatched | Sources/pupilCore/PupilSession.swift:117-134 | Dispatching that sixth sync frame as a video packet resets the counter and sends the sps/pps, then each NAL unit with its 4-byte prefix dropped, to the thumbnailer before the writer's effects. It cannot trap when the sets are non-empty and every NAL unit has at least four bytes |
| SessionCore.DimensionChangeReconfigures | Sources/pupilCore/PupilSession.swift:142-159 | After a dimensions change, the next sample reconfigures the writer with the new settings before appending |
| SessionCore.SameSettingsConfigureOnce | Sources/pupilCore/PupilSession.swift:150-155 | A second sample with unchanged settings is appended with no new configure |
| Effects.KeyframeDigest | Sources/pupilCore/PupilSession.swift:122-131 | The thumbnailer gets the parameter sets without their first byte, then each NAL unit without its 4-byte prefix, in order. It traps exactly on an empty parameter set or a NAL unit shorter than 4 bytes |
| Effects.DecodeKeyframes | Sources/pupilCore/PupilSession.swift:129-131 | One decode per NAL unit, in order, each without its first four bytes. It traps iff some unit is shorter than four bytes |
| Framing.DecodeOne | Sources/pupilCore/PupilSession.swift:70-76 | A packet is complete iff four bytes and a decodable length are there and the length fits the buffer. Its length is the decoded prefix and its payload is the bytes 4..length. The front is malformed iff the prefix fits the buffer but is below 5 |
| Framing.DecodeOneStable | Sources/pupilCore/PupilSession.swift:70-76 | Once the front of the buffer is decided (packet or malformed), later bytes do not change the decision |
| Framing.Read | Sources/pupilCore/PupilSession.swift:66-110 | As written: an empty read does nothing and fewer than 4 buffered bytes trap. Otherwise it waits for a longer packet, traps on a length below 5, or dispatches exactly one packet and drops exactly `length` bytes |
| Framing.ReadTrapsOnShortHeader | Sources/pupilCore/PupilSession.swift:67-70 | The first 1–3 bytes of a stream trap instead of waiting |
| Framing.ReadLeavesCompletePacket | Sources/pupilCore/PupilSession.swift:73-107 | When a read brings two complete packets, a complete packet is left undispatched in the buffer |
| Framing.DrainBy | Sources/pupilCore/PupilSession.swift:66-110 | Corrected loop: the buffer left holds no complete packet, is a suffix of the input, and nothing else in the session but the buffer and media changes |
| Framing.IngestBy | Sources/pupilCore/PupilSession.swift:66-110 | Append, then drain: the leftover holds no complete packet and is a suffix of buffer + bytes |
| Framing.Ingest | Sources/pupilCore/PupilSession.swift:66-110 | The same, with the session's own dispatch |
| Framing.IngestWaitsOnShortHeader | Sources/pupilCore/PupilSession.swift:66-73 | Fewer than four buffered bytes only wait |
| Framing.DrainAppend | Sources/pupilCore/PupilSession.swift:66-110 | Bytes appended behind the buffer are looked at only after everything in front has been dispatched |
| Framing.IngestSplit | Sources/pupilCore/PupilSession.swift:66-110 | Reading a then b equals reading a + b: same state, same effects, same trap |
| Framing.ChunkingInvariance | Sources/pupilCore/PupilSession.swift:66-110 | However a stream is cut into reads, the same packets are dispatched in the same order with the same effects and final state |
| Framing.SessionChunkingInvariance | Sources/pupilCore/PupilSession.swift:66-110 | The same, for the session's own dispatch |
| Framing.PartialPacketWaits | Sources/pupilCore/PupilSession.swift:66-110 | All but the last byte of a packet dispatch nothing; the last byte then does what the whole packet does |
| Framing.DrainValid | Sources/pupilCore/PupilSession.swift:66-110 | Draining keeps the media invariant and can only trap on a too-short packet or NAL unit |
| Framing.ReadValid | Sources/pupilCore/PupilSession.swift:66-110 | The as-written read keeps the media invariant |
| Framing.ReadAgreesWithIngest | Sources/pupilCore/PupilSession.swift:66-110 | The as-written read and the intended loop give the same result whenever at most one packet is complete. That holds when nothing behind the first packet forms a complete one |
| MediaWriterModel.Init | Sources/pupilCore/MediaWriter.swift:21-38 | Creating the writer either fails (throws) or registers the three playlists vod.m3u8, event.m3u8 and live.m38u, in that order. A thumbnailer exists iff the stream is video; no settings are known yet |
| MediaWriterModel.HandleAudio | Sources/pupilCore/MediaWriter.swift:40-47 | With a writer: configure with the sample's settings, then append as audio. Without one: nothing |
| MediaWriterModel.CheckForVideoSettingChanges | Sources/pupilCore/MediaWriter.swift:73-86 | With stored settings, the writer is configured with the derived settings, and they are stored, iff they differ from the stored ones. Without stored settings nothing happens |
| MediaWriterModel.DigestForThumbnail | Sources/pupilCore/MediaWriter.swift:88-100 | Every sync frame goes to the thumbnailer, with no counter, once params are known and a thumbnailer exists. It sends the sps/pps without their first byte, then each NAL unit without its 4-byte prefix, in order. It traps iff a parameter set is empty or a NAL unit is shorter than 4 bytes |
| MediaWriterModel.HandleVideo | Sources/pupilCore/MediaWriter.swift:49-100 | As written: the frame is appended last and the digest comes right before it. The stored settings stay empty when they were. A configurable writer with no stored settings is configured first. With stored settings, the writer is configured and the new settings stored iff they differ. At most one configure happens, and it happens iff the derived settings differ from the stored ones. It traps iff the digest traps |
| MediaWriterModel.EverySyncFrameDigested | Sources/pupilCore/MediaWriter.swift:88-100 | With params and a thumbnailer, every sync frame hands the parameter sets to the thumbnailer; no frame is skipped |
| MediaWriterModel.ConfigureRepeatsForIdenticalSamples | Sources/pupilCore/MediaWriter.swift:60-86 | As written, two identical samples both configure the writer; the state after the first is unchanged |
| MediaWriterModel.HandleVideoStoringSettings | Sources/pupilCore/MediaWriter.swift:60-86 | Corrected: the derived settings are stored. The writer is configured iff they differ from the stored ones |
| MediaWriterModel.StoringSettingsConfiguresOnce | Sources/pupilCore/MediaWriter.swift:73-86 | Corrected: a second sample with unchanged settings is appended without configuring |
| MediaWriterModel.StoringOnlyChangesState | Sources/pupilCore/MediaWriter.swift:49-100 | For every writer and packet, the as-written and corrected handlers trap alike and produce the same effects. Their writers differ at most in the stored settings, and not at all once settings are stored |
| Config.ParseInt | Sources/pupilCore/Config.swift:101-103 | An integer parse succeeds exactly when the text is an optional sign followed only by digits (at least one) and its value lies inside the type's range; the value is the digits' decimal value, negated after `-` |
| Config.ParseIntExamples | Sources/pupilCore/Config.swift:101-103 | Trailing junk ("8080abc") and a bare sign give no value; "+5" is 5 and "007" is 7 |
| Config.ParseShow | Sources/pupilCore/Config.swift:101-103 | Round trip: the parser reads back the decimal text of every in-range value, negatives included |
| Config.FromEnvironment | Sources/pupilCore/Config.swift:99-131 | Succeeds iff bucket, region, key ID and secret are all present. Otherwise the error names the first missing key in the order checked. The values are copied; root is PUPIL_ROOT or the current directory; port and interval are parsed or default to 42000 and 30 |
| Config.PortFromEnvironment | Sources/pupilCore/Config.swift:100-103 | A decimal port in range is read back exactly |
| Config.ThumbnailIntervalDefault | Sources/pupilCore/Config.swift:117-120 | A missing interval, or one that is not a 64-bit decimal integer, gives 30 |
| Config.NotInt64Examples | Sources/pupilCore/Config.swift:117-120 | "", "abc", "-x" and "99999999999999999999" are not 64-bit integers, so each of them gives the default interval |
| Config.TooManyDigitsOutOfRange | Sources/pupilCore/Config.swift:117-120 | Twenty or more digits without a leading zero never parse as a 64-bit integer |
| Config.GettersBeforeAndAfterLoading | Sources/pupilCore/Config.swift:39-57 | Before loading, the getters give 42000, the current directory, 30 and "". After loading they give the loaded values |
| CoreCloud.CloudManagerInit | Sources/pupilCore/CloudManager.swift:18-22 | The uploader exists iff region, key ID and secret are all in the environment |
| CoreCloud.FileName | Sources/pupilCore/CloudManager.swift:85-86 | The file name holds no '/' and is what follows the URL's last '/' |
| CoreCloud.BucketKey | Sources/pupilCore/CloudManager.swift:85-88 | It traps iff the URL has no '/'. Otherwise the key is a suffix of the URL cut after a '/' and holds exactly one '/' |
| CoreCloud.BucketKeyEndsWithFileName | Sources/pupilCore/CloudManager.swift:85-88 | The key ends with '/' followed by the file name |
| CoreCloud.BucketKeyUnique | Sources/pupilCore/CloudManager.swift:85-88 | Those two properties determine the key: any suffix cut after a '/' that holds exactly one '/' is the key |
| CoreCloud.ContentType | Sources/pupilCore/CloudManager.swift:95-108 | jpg overrides mp4, which overrides m3u8; a name with none of them gets "" |
| CoreCloud.ContentTypeExamples | Sources/pupilCore/CloudManager.swift:95-105 | vod.m3u8, fileSeq0.mp4 and thumb.jpg get the playlist, MP4 and JPEG types |
| CoreCloud.Attempted | Sources/pupilCore/CloudManager.swift:92-146 | An attempt completes iff read, put and (when asked) delete succeed. A failed read does nothing. Otherwise a thumbnail is noted on the cached broadcast before the put, the put comes first, the broadcast is pushed only after a successful thumbnail put, and the file is deleted iff the put succeeded and deletion was asked |
| CoreCloud.Upload | Sources/pupilCore/CloudManager.swift:84-147 | It traps iff the URL has no '/'; otherwise it makes one attempt on the URL's file name under its bucket key |
| CoreCloud.Retried | Sources/pupilCore/PupilSession.swift:240-251 | The callback retries until an attempt completes. Every attempt before the last failed; it completes iff the last attempt does; it gives up only when the outcomes run out |
| CoreCloud.UploadWithRetry | Sources/pupilCore/PupilSession.swift:210-221 | A URL without '/' traps on the first attempt; otherwise every attempt uses the same key and file name |
| CoreCloud.RetriedThumbnailNotedPerAttempt | Sources/pupilCore/CloudManager.swift:104-108 | The thumbnail is noted before the put. Retries therefore list it once per attempt, failed attempts included |
| CoreCloud.PutFailureListsThumbnailTwice | Sources/pupilCore/PupilSession.swift:240-251 | One failed put then success: two attempts, and the thumbnail is listed twice |
| CoreCloud.BroadcastFetched | Sources/pupilCore/CloudManager.swift:40-48 | A decoded response replaces the cached broadcast; a failed request or decode keeps it |
| AppCloud.ContentType | Sources/pupil/CloudManager.swift:68-70 | The playlist type iff the name is exactly out.m3u8; MP4 otherwise; never "" |
| AppCloud.ContentTypeDiffersFromLibrary | Sources/pupil/CloudManager.swift:69-70 | vod.m3u8 is MP4 here but a playlist in the library uploader; the two agree on out.m3u8 |
| AppCloud.ContentTypeAgreesWithLibrary | Sources/pupil/CloudManager.swift:69-70 | For every file name, the two uploaders give the same type exactly for out.m3u8 and for names with `mp4` but no `jpg` |
| AppCloud.Attempt | Sources/pupil/CloudManager.swift:67-109 | One attempt completes iff read, put and (when asked) delete succeed. The put comes first, under the given key. The file is deleted iff the put succeeded and deletion was asked. The broadcast is never pushed |
| AppCloud.Upload | Sources/pupil/CloudManager.swift:60-109 | It traps iff the URL has no '/'. Otherwise it is one attempt under the URL's bucket key: it completes iff read, put and (when asked) delete succeed; the put comes first; the file is deleted iff the put succeeded and deletion was asked |
| AppCloud.SameKeyAsLibrary | Sources/pupil/CloudManager.swift:61-64 | Both uploaders store a file under the same key |
| AppCloud.StatusPayload | Sources/pupil/CloudManager.swift:36-38 | The payload has exactly the key "status", holding STARTING, LIVE or DONE |
| AppCloud.StatusPayloadInjective | Sources/pupil/CloudManager.swift:36-38 | Distinct states send distinct payloads |
| AppCloud.PushedStatusIsPayload | Sources/pupilCore/PupilSession.swift:15-21 | The status pushed when a session goes LIVE is the payload's value |
| CoreServer.NewSession | Sources/pupilCore/Session.swift:38-46 | A new session is in text mode and equals exactly the sessions with its descriptor |
| CoreServer.SameSessionIsEquivalence | Sources/pupilCore/Session.swift:18-20 | Session `==` is reflexive, symmetric and transitive |
| CoreServer.SameSessionByDescriptor | Sources/pupilCore/Session.swift:31-36 | Sessions with clients are equal iff they share a descriptor, whatever their mode. A client-less session equals one with descriptor -1 |
| CoreServer.RawResponse | Sources/pupilCore/Server.swift:39-42 | The responses are "HI\n" and "BEGIN\n" |
| CoreServer.ResponsesDistinct | Sources/pupilCore/Server.swift:39-42 | The two responses differ and both end the line |
| CoreServer.Init | Sources/pupilCore/Server.swift:64-71 | The root is the given one, or the current directory; no sessions yet |
| CoreServer.Connected | Sources/pupilCore/Server.swift:104-106 | The session is added at the end; the others are kept in order |
| CoreServer.IndexWhere | Sources/pupilCore/Server.swift:110 | The first position of an equal session, or the length when there is none |
| CoreServer.Disconnected | Sources/pupilCore/Server.swift:108-113 | The first equal session is removed: the length drops by one iff one exists, order is kept, and every non-equal session stays |
| CoreServer.ConnectThenDisconnect | Sources/pupilCore/Server.swift:104-113 | Connecting a new session and then disconnecting it restores the list |
| CoreServer.DisconnectRemovesOnlyFirst | Sources/pupilCore/Server.swift:108-113 | With two equal sessions, one disconnect leaves the other |
| CoreServer.ConnectAndLeave | Sources/pupilCore/Server.swift:104-113 | A client connecting to a fresh server and leaving: one session, then none |
| Broadcasts.AddThumbnail | Sources/pupilCore/Broadcast.swift:13-20 | A missing list becomes [t]; an existing list gets t at its end; nothing else changes |
| Broadcasts.AddThumbnailsAppends | Tests/pupilTests/pupilTests.swift:21-29 | Adding names one by one lists them after the earlier ones, in order. Four adds to a record without thumbnails give four |
| Seqs.SplitOmittingEmptyKeepsContent | Sources/pupilCore/PupilSession.swift:88 | Splitting the params packet at 0x70 loses nothing but the separators |
| AppServer.ResponsesAreTheLibrarys | Sources/pupil/PupilServer.swift:8-9 | The server's greeting and go-ahead are the library's two responses |
| AppServer.NewServer | Sources/pupil/PupilServer.swift:20-23 | The root defaults to "."; the session map starts empty |
| AppServer.AddNewConnection | Sources/pupil/PupilServer.swift:65-70 | Without cloud credentials, nothing is registered. Otherwise a STARTING session is registered under the socket descriptor and greeted with HI |
| AppServer.HandleText | Sources/pupil/PupilServer.swift:128-138 | Text that is not UTF-8 is ignored. Otherwise the ID is the text with every newline deleted, in order and with nothing else lost. The session goes LIVE, then BEGIN is written. A failed write closes the session with a completion that does nothing |
| AppServer.TrailingNewlineIgnored | Sources/pupil/PupilServer.swift:128-138 | A line and the same line ending in a newline give the same session and the same effects |
| AppServer.InnerNewlinesDeleted | Sources/pupil/PupilServer.swift:130-133 | A newline inside the line is deleted too: "x\ny\n" gives ID "xy" |
| AppServer.ReadLoopStep | Sources/pupil/PupilServer.swift:84-108 | A read error changes nothing. An empty read is exactly `Close` with the removing completion: the socket closes, the writer stops, DONE is pushed, and the session stays in the map with its other fields kept. Otherwise STARTING goes to the handshake and LIVE to the as-written `read(bytes:)`, with the same state, effects and trap. DONE ignores the data. Other sessions are untouched |
| AppServer.StreamingShortReadTraps | Sources/pupil/PupilServer.swift:89-90 | A LIVE connection with an empty buffer whose read brings 1–3 bytes stops the server |
| AppServer.UploadFinished | Sources/pupil/PupilServer.swift:104-108 | A finished upload removes the session iff its stored completion is the removing one |
| AppServer.RemovedOnlyAfterUpload | Sources/pupil/PupilServer.swift:94-108 | After end of stream the session is still registered. The next finished upload removes it and no other session |
| AppServer.FailedGreetingNeverRemoved | Sources/pupil/PupilServer.swift:135-136 | A failed BEGIN write leaves the session DONE with the no-op completion, and the finished uploads that follow do not remove it |
| AppServer.Handshake | Sources/pupil/PupilServer.swift:82-88 | HI on connect; the ID line makes the session LIVE with that ID; the effects are fetch, LIVE push, thumbnailer, then BEGIN |
| AppServer.StreamingKeyframeReachesThumbnailer | Sources/pupil/PupilServer.swift:89-90 | A LIVE read holding exactly one packet with the sampled sync frame sends the sps/pps to the thumbnailer as its first effect and resets the counter |
| AppServer.StreamingReadDrains | Sources/pupil/PupilServer.swift:89-90 | A LIVE read of exactly one whole packet leaves the buffer empty |

## Left out

- Sockets, accept loops, dispatch queues and locks are not modelled. Each
  operation is one atomic step, so interleavings of a session's upload
  queue with its read loop are not covered.
- S3, HTTP, JSON encoding and decoding, and the file system are not
  modelled. They appear as effects and as outcome flags.
- The media library's parsers, writer and thumbnailer internals are the
  opaque `Env` functions. Which byte values are the audio and video type
  tags is left to them.
- `ConfigValues.load(from:)` (reading the JSON file) and `Config.load` are
  not modelled, because they only decode a file. `FileNotFound` is declared
  but never produced.
- The `user` field of `Broadcast` is left out because no operation reads
  or changes it.
- Logging (`print`, `configureLogger`) is not modelled.
- Shutdown, `deinit`, `start`, `stop` and `started` of both servers are
  not modelled, because they only drive sockets. The library's `Client`
  and its disconnect callback are not modelled either.
- AppServer.AddNewConnection: does not model a failed HI write. In the
  code that failure ends the connection's task without a close, so the
  session is neither read nor removed; the model always emits the write.
- AppServer.UploadFinished: takes the descriptor the session was
  registered under. It does not model what the socket library reports as
  the descriptor of an already closed socket.
- AppServer.ReadLoopStep: the bytes of one read are not bounded by the
  4096-byte buffer, because the framing does not depend on read sizes.
- AppServer.ReadLoopStep: looks the session up in the map under its
  descriptor. The code holds the session object itself. The two differ
  only if another connection re-registers the same descriptor while the
  first one is still reading.
- AppServer.ReadLoopStep: does not model reads on a socket the session
  has already closed. In the code such a read throws and the loop ends;
  in the model an empty read on a DONE session closes it again and
  replaces its stored completion.
- CoreCloud.Retried: the unbounded retry is modelled over a finite
  sequence of attempt outcomes. When they run out, the loop is reported
  as not completed.
- Config.FromEnvironment: the root URL is the path string itself.
  `URL(fileURLWithPath:)` normalisation is not modelled.

## Findings

| source | as written | input that shows it | evidently intended | confidence | as-written member | corrected member |
|---|---|---|---|---|---|---|
| Sources/pupilCore/PupilSession.swift:70 | `buffer[0..<4]` is sliced before checking that four bytes are buffered | a first read of 1–3 bytes traps (index out of range) | wait for more bytes until the prefix is complete | not executed | Framing.ReadTrapsOnShortHeader | Framing.IngestWaitsOnShortHeader |
| Sources/pupilCore/PupilSession.swift:70-108 | each read dispatches at most one packet | one read holding two complete packets leaves the second in the buffer until more bytes arrive | dispatch every complete packet, whatever the chunking | not executed | Framing.ReadLeavesCompletePacket | Framing.ChunkingInvariance |
| Sources/pupilCore/MediaWriter.swift:59-86 | `checkForVideoSettings` configures but never stores the settings, so `checkForVideoSettingChanges` never runs | two video samples with identical settings both configure the writer | store the first settings; reconfigure only on a change | not executed | MediaWriterModel.ConfigureRepeatsForIdenticalSamples | MediaWriterModel.StoringSettingsConfiguresOnce |
