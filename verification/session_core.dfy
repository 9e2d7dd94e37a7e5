/** One ingest connection (Sources/pupilCore/PupilSession.swift): its
    lifecycle (STARTING, LIVE, DONE), and the media state that the packet
    handlers read and update. The byte buffer and the framing live in
    module Framing; everything here works on one already-framed packet. */
module SessionCore {
  import opened Common
  import opened Seqs
  import opened Media
  import opened Effects

  /** `PupilSessionState`, with its raw values. */
  datatype PupilSessionState = Starting | Streaming | Done

  function RawValue(st: PupilSessionState): string
  {
    match st
    case Starting => "STARTING"
    case Streaming => "LIVE"
    case Done => "DONE"
  }

  /** The writer a stream-type packet created, with its output directory. */
  datatype Writer = Writer(dir: string, streamType: StreamType)

  /** What the completion stored by `close(onComplete:)` does when it runs. */
  datatype CloseAction = RemoveFromServer | NoAction

  /** The media part of a session: everything the packet handlers touch. */
  datatype MediaState = MediaState(
    params: Option<seq<seq<uint8>>>,
    videoSettings: Option<VideoSettings>,
    dimensions: Option<VideoDimensions>,
    writer: Option<Writer>,
    streamType: Option<StreamType>,
    thumbnailer: bool,
    keyframeCount: nat)

  datatype PupilSession = PupilSession(
    root: string,
    state: PupilSessionState,
    broadcastID: Option<string>,
    buffer: seq<uint8>,
    media: MediaState,
    onUploaded: Option<CloseAction>)

  /** A thumbnail is taken at the sync frame that follows five counted ones. */
  const KEYFRAME_INTERVAL: nat := 5

  const PARAMS_TAG: uint8 := 0x70
  const DIMENSIONS_TAG: uint8 := 0x71
  const STREAM_TYPE_TAG: uint8 := 0x72

  /** `root.appendingPathComponent(broadcastID)`. */
  function OutputDir(root: string, broadcastID: string): string
  {
    root + "/" + broadcastID
  }

  const EmptyMedia: MediaState := MediaState(None, None, None, None, None, false, 0)

  /** `init(socket:root:)`. */
  function NewSession(root: string): PupilSession
  {
    PupilSession(root, Starting, None, [], EmptyMedia, None)
  }

  // ---------------------------------------------------------------------
  // Lifecycle

  /** Assigning `state`: its observer fetches the broadcast and pushes the
      new status, but only once a broadcast ID is known. */
  function SetState(s: PupilSession, st: PupilSessionState): (r: (PupilSession, seq<Effect>))
    ensures r.0 == s.(state := st)
    ensures s.broadcastID.None? ==> r.1 == []
    ensures s.broadcastID.Some? ==>
      r.1 == [FetchBroadcast(s.broadcastID.value), PushStatus(s.broadcastID.value, RawValue(st))]
  {
    var effects :=
      match s.broadcastID
      case None => []
      case Some(id) => [FetchBroadcast(id), PushStatus(id, RawValue(st))];
    (s.(state := st), effects)
  }

  /** Assigning `broadcastID`: the session goes LIVE (announced to the
      metadata API) and gets a thumbnailer writing under root/broadcastID. */
  function AssignBroadcastID(s: PupilSession, id: string): (r: (PupilSession, seq<Effect>))
    ensures r.0.state == Streaming && r.0.broadcastID == Some(id)
    ensures r.0.media == s.media.(thumbnailer := true)
    ensures r.0.buffer == s.buffer && r.0.root == s.root && r.0.onUploaded == s.onUploaded
    ensures r.1 == [FetchBroadcast(id), PushStatus(id, "LIVE"), CreateThumbnailer(OutputDir(s.root, id))]
  {
    var (s1, e1) := SetState(s.(broadcastID := Some(id)), Streaming);
    (s1.(media := s1.media.(thumbnailer := true)), e1 + [CreateThumbnailer(OutputDir(s.root, id))])
  }

  /** `close(onComplete:)`: close the socket, stop the writer if any, store
      the completion for the next finished upload, and go DONE. */
  function Close(s: PupilSession, action: CloseAction): (r: (PupilSession, seq<Effect>))
    ensures r.0 == s.(state := Done, onUploaded := Some(action))
    ensures |r.1| >= 1 && r.1[0] == CloseSocket
    ensures StopWriter in r.1 <==> s.media.writer.Some?
    ensures s.broadcastID.Some? ==> r.1[|r.1| - 1] == PushStatus(s.broadcastID.value, "DONE")
    ensures s.broadcastID.None? ==> forall e :: e in r.1 ==> e == CloseSocket || e == StopWriter
  {
    var stop := if s.media.writer.Some? then [StopWriter] else [];
    var (s1, e1) := SetState(s.(onUploaded := Some(action)), Done);
    (s1, [CloseSocket] + stop + e1)
  }

  /** The lifecycle of a connection that completes the handshake and is
      then closed: STARTING, then LIVE, then DONE, and the metadata API
      hears exactly LIVE then DONE (nothing while the ID is unknown). */
  lemma LifecycleOrder(root: string, id: string, action: CloseAction)
    ensures NewSession(root).state == Starting && NewSession(root).broadcastID.None?
    ensures var (live, e1) := AssignBroadcastID(NewSession(root), id);
            var (done, e2) := Close(live, action);
            && live.state == Streaming && done.state == Done
            && done.broadcastID == Some(id)
            && e1 == [FetchBroadcast(id), PushStatus(id, "LIVE"), CreateThumbnailer(OutputDir(root, id))]
            && e2 == [CloseSocket, FetchBroadcast(id), PushStatus(id, "DONE")]
  {
  }

  // ---------------------------------------------------------------------
  // Writer set-up

  /** `setupWriter(streamType:)`: only once a broadcast ID is known; when
      directory or writer creation fails the previous writer is kept. */
  function SetupWriter(env: Env, root: string, id: Option<string>, m: MediaState, t: StreamType): (r: (MediaState, seq<Effect>))
    ensures id.None? ==> r == (m, [])
    ensures id.Some? && env.writerCreated(OutputDir(root, id.value), t) ==>
      r == (m.(writer := Some(Writer(OutputDir(root, id.value), t))), [CreateWriter(OutputDir(root, id.value), t)])
    ensures id.Some? && !env.writerCreated(OutputDir(root, id.value), t) ==> r == (m, [])
  {
    match id
    case None => (m, [])
    case Some(bid) =>
      var dir := OutputDir(root, bid);
      if env.writerCreated(dir, t) then (m.(writer := Some(Writer(dir, t))), [CreateWriter(dir, t)])
      else (m, [])
  }

  // ---------------------------------------------------------------------
  // Packet handlers

  /** The params are present and have a first (sps) and last (pps) element. */
  predicate HasParameterSets(m: MediaState)
  {
    m.params.Some? && |m.params.value| > 0
  }

  /** First half of `handleVideoPacket`: the keyframe counter and the
      thumbnail sampling. */
  function ThumbnailStage(m: MediaState, sample: VideoSample): (r: Step<MediaState>)
    ensures r.Ok? ==> r.state == m.(keyframeCount := r.state.keyframeCount)
    ensures !sample.isSync ==> r == Ok(m, [])
    ensures sample.isSync && m.keyframeCount != KEYFRAME_INTERVAL ==>
      r == Ok(m.(keyframeCount := m.keyframeCount + 1), [])
    ensures sample.isSync && m.keyframeCount == KEYFRAME_INTERVAL && !HasParameterSets(m) ==> r == Ok(m, [])
    ensures sample.isSync && m.keyframeCount == KEYFRAME_INTERVAL && HasParameterSets(m) && r.Ok? ==>
      r.state.keyframeCount == 0
    ensures r.Ok? ==> forall e :: e in r.effects ==> e.SetParameterSets? || e.DecodeKeyframe?
    ensures r.Ok? && r.effects != [] ==>
      m.thumbnailer && m.keyframeCount == KEYFRAME_INTERVAL && sample.isSync
      && HasParameterSets(m) && |m.params.value[0]| > 0 && |m.params.value[|m.params.value| - 1]| > 0
      && r.effects[0] == SetParameterSets(m.params.value[0][1..], m.params.value[|m.params.value| - 1][1..])
      && |r.effects| == |sample.nalus| + 1
    ensures r.Crash? ==> m.thumbnailer && sample.isSync && m.keyframeCount == KEYFRAME_INTERVAL && HasParameterSets(m)
    ensures sample.isSync && m.keyframeCount == KEYFRAME_INTERVAL && HasParameterSets(m) && !m.thumbnailer ==>
      r == Ok(m.(keyframeCount := 0), [])
    ensures sample.isSync && m.keyframeCount == KEYFRAME_INTERVAL && HasParameterSets(m) && m.thumbnailer ==>
      var ps := m.params.value;
      && (r.Crash? <==> |ps[0]| == 0 || |ps[|ps| - 1]| == 0 || exists i :: 0 <= i < |sample.nalus| && |sample.nalus[i]| < 4)
      && (r.Ok? ==> |r.effects| == |sample.nalus| + 1)
      && (r.Ok? ==> r.effects[0] == SetParameterSets(ps[0][1..], ps[|ps| - 1][1..]))
      && (r.Ok? ==> forall i :: 0 <= i < |sample.nalus| ==> r.effects[i + 1] == DecodeKeyframe(sample.nalus[i][4..]))
  {
    if !sample.isSync then Ok(m, [])
    else if m.keyframeCount != KEYFRAME_INTERVAL then Ok(m.(keyframeCount := m.keyframeCount + 1), [])
    else if !HasParameterSets(m) then Ok(m, [])
    else
      var ps := m.params.value;
      var reset := m.(keyframeCount := 0);
      if !m.thumbnailer then Ok(reset, [])
      else
        match KeyframeDigest(ps[0], ps[|ps| - 1], sample.nalus)
        case Failure(t) => Crash(t)
        case Success(e) => Ok(reset, e)
  }

  /** The settings a video sample would configure the writer with. */
  function SettingsFor(m: MediaState, sample: VideoSample): VideoSettings
    requires m.params.Some? && m.dimensions.Some?
  {
    VideoSettings(m.params.value, m.dimensions.value, sample.timescale)
  }

  /** Whether a video sample reaches the writer at all: params, dimensions
      and a writer must all exist. */
  predicate ReachesWriter(m: MediaState)
  {
    m.params.Some? && m.dimensions.Some? && m.writer.Some?
  }

  /** Second half of `handleVideoPacket`: (re)configure on first or changed
      settings, then append. */
  function SettingsStage(m: MediaState, sample: VideoSample): (r: (MediaState, seq<Effect>))
    ensures !ReachesWriter(m) ==> r == (m, [])
    ensures ReachesWriter(m) ==>
      var settings := SettingsFor(m, sample);
      && r.0 == m.(videoSettings := Some(settings))
      && |r.1| >= 1 && r.1[|r.1| - 1] == Append(VideoFrame(sample), sample.kind)
      && (|r.1| == 2 <==> m.videoSettings != Some(settings))
      && (|r.1| == 2 ==> r.1[0] == Configure(VideoConfig(settings)))
      && |r.1| <= 2
  {
    if ReachesWriter(m) then
      var settings := VideoSettings(m.params.value, m.dimensions.value, sample.timescale);
      var append := [Append(VideoFrame(sample), sample.kind)];
      match m.videoSettings
      case Some(prev) =>
        if prev != settings then (m.(videoSettings := Some(settings)), [Configure(VideoConfig(settings))] + append)
        else (m, append)
      case None => (m.(videoSettings := Some(settings)), [Configure(VideoConfig(settings))] + append)
    else (m, [])
  }

  /** `handleVideoPacket`. */
  function HandleVideo(env: Env, m: MediaState, packet: seq<uint8>): (r: Step<MediaState>)
    ensures var sample := env.videoSampleOf(packet);
      && (r.Crash? <==> ThumbnailStage(m, sample).Crash?)
      && (r.Ok? ==> r.state.(keyframeCount := m.keyframeCount, videoSettings := m.videoSettings) == m)
      && (r.Ok? ==> r.state.keyframeCount == ThumbnailStage(m, sample).state.keyframeCount)
      && (r.Ok? && ReachesWriter(m) ==>
            && r.state.videoSettings == Some(SettingsFor(m, sample))
            && |r.effects| >= 1 && r.effects[|r.effects| - 1] == Append(VideoFrame(sample), sample.kind))
      && (r.Ok? ==>
            ((exists e :: e in r.effects && e.Configure?) <==>
               ReachesWriter(m) && m.videoSettings != Some(SettingsFor(m, sample))))
      && (r.Ok? && !ReachesWriter(m) ==>
            r.state.videoSettings == m.videoSettings
            && forall e :: e in r.effects ==> e.SetParameterSets? || e.DecodeKeyframe?)
    // the thumbnail stage's digest comes first, the writer's effects after it
    ensures r.Ok? ==>
      var t := ThumbnailStage(m, env.videoSampleOf(packet));
      && t.Ok?
      && r.effects == t.effects + SettingsStage(t.state, env.videoSampleOf(packet)).1
  {
    var sample := env.videoSampleOf(packet);
    match ThumbnailStage(m, sample)
    case Crash(t) => Crash(t)
    case Ok(m1, e1) =>
      assert m1 == m.(keyframeCount := m1.keyframeCount);
      assert forall e :: e in e1 ==> !e.Configure?;
      var (m2, e2) := SettingsStage(m1, sample);
      Ok(m2, e1 + e2)
  }

  /** `handleAudioPacket`: configure with the sample's own settings, then
      append, whenever a writer exists; the state never changes. */
  function AudioEffects(env: Env, m: MediaState, packet: seq<uint8>): (r: seq<Effect>)
    ensures m.writer.None? ==> r == []
    ensures m.writer.Some? ==>
      var sample := env.audioSampleOf(packet);
      r == [Configure(AudioConfig(env.audioSettingsOf(sample))), Append(AudioFrame(sample), sample.kind)]
  {
    var sample := env.audioSampleOf(packet);
    var settings := env.audioSettingsOf(sample);
    if m.writer.Some? then [Configure(AudioConfig(settings)), Append(AudioFrame(sample), sample.kind)] else []
  }

  /** How the type byte of a packet is classified: sample types first,
      then the three control tags, anything else is unrecognised. */
  datatype PacketKind = VideoPacket | AudioPacket | ParamsPacket | DimensionsPacket | StreamTypePacket | UnknownPacket

  function Classify(env: Env, tag: uint8): PacketKind
  {
    match env.sampleTypeOf(tag)
    case Some(Video) => VideoPacket
    case Some(Audio) => AudioPacket
    case None =>
      if tag == PARAMS_TAG then ParamsPacket
      else if tag == DIMENSIONS_TAG then DimensionsPacket
      else if tag == STREAM_TYPE_TAG then StreamTypePacket
      else UnknownPacket
  }

  /** The dispatch part of `read(bytes:)` for one packet, whose first byte
      is its type byte. */
  function Dispatch(env: Env, root: string, id: Option<string>, m: MediaState, packet: seq<uint8>): (r: Step<MediaState>)
    requires |packet| >= 1
    ensures Classify(env, packet[0]) == UnknownPacket ==> r == Ok(m, [])
    ensures Classify(env, packet[0]) == ParamsPacket ==>
      r.Ok? && r.effects == [] && r.state == m.(params := r.state.params)
      && r.state.params == Some(SplitOmittingEmpty(packet, PARAMS_TAG))
    ensures Classify(env, packet[0]) == DimensionsPacket ==>
      r == Ok(m.(dimensions := Some(env.dimensionsOf(packet))), [])
    ensures Classify(env, packet[0]) == StreamTypePacket ==>
      r.Ok? && (env.streamTypeOf(packet).None? ==> r == Ok(m, []))
      && (env.streamTypeOf(packet).Some? ==>
            r.state.streamType == env.streamTypeOf(packet)
            && r.state.(writer := m.writer, streamType := m.streamType) == m
            && (r.state.writer != m.writer || r.effects != [] <==>
                  id.Some? && env.writerCreated(OutputDir(root, id.value), env.streamTypeOf(packet).value)))
    ensures Classify(env, packet[0]) == StreamTypePacket && env.streamTypeOf(packet).Some? ==>
      var t := env.streamTypeOf(packet).value;
      var typed := m.(streamType := Some(t));
      && (id.Some? && env.writerCreated(OutputDir(root, id.value), t) ==>
            r == Ok(typed.(writer := Some(Writer(OutputDir(root, id.value), t))), [CreateWriter(OutputDir(root, id.value), t)]))
      && (!(id.Some? && env.writerCreated(OutputDir(root, id.value), t)) ==> r == Ok(typed, []))
    ensures Classify(env, packet[0]) == AudioPacket ==> r == Ok(m, AudioEffects(env, m, packet))
    ensures Classify(env, packet[0]) == VideoPacket ==> r == HandleVideo(env, m, packet)
    ensures r.Crash? ==> Classify(env, packet[0]) == VideoPacket
  {
    var tag := packet[0];
    match env.sampleTypeOf(tag)
    case Some(Video) => HandleVideo(env, m, packet)
    case Some(Audio) => Ok(m, AudioEffects(env, m, packet))
    case None =>
      if tag == PARAMS_TAG then Ok(m.(params := Some(SplitOmittingEmpty(packet, PARAMS_TAG))), [])
      else if tag == DIMENSIONS_TAG then Ok(m.(dimensions := Some(env.dimensionsOf(packet))), [])
      else if tag == STREAM_TYPE_TAG then
        match env.streamTypeOf(packet)
        case None => Ok(m, [])
        case Some(t) =>
          var (m1, e1) := SetupWriter(env, root, id, m.(streamType := Some(t)), t);
          Ok(m1, e1)
      else Ok(m, [])
  }

  // ---------------------------------------------------------------------
  // Invariant

  /** What holds of the media state of every session: the keyframe counter
      is within 0..5 and every stored parameter set is non-empty. */
  predicate Valid(m: MediaState)
  {
    && m.keyframeCount <= KEYFRAME_INTERVAL
    && (m.params.Some? ==> forall i :: 0 <= i < |m.params.value| ==> |m.params.value[i]| > 0)
  }

  lemma EmptyMediaValid()
    ensures Valid(EmptyMedia)
  {
  }

  /** The keyframe counter only moves up to 5, and only a sampled frame at
      5 with parameter sets resets it; both stay within the invariant. */
  lemma ThumbnailStageValid(m: MediaState, sample: VideoSample)
    requires Valid(m)
    ensures ThumbnailStage(m, sample).Ok?
      ==> Valid(ThumbnailStage(m, sample).state)
  {
  }

  /** Under the invariant a stored parameter set is never empty, so the
      sps/pps slicing never traps: the only possible trap of a packet is a
      NAL unit shorter than its four-byte length prefix. */
  lemma {:induction false} DispatchValid(env: Env, root: string, id: Option<string>, m: MediaState, packet: seq<uint8>)
    requires Valid(m) && |packet| >= 1
    ensures Dispatch(env, root, id, m, packet).Ok? ==> Valid(Dispatch(env, root, id, m, packet).state)
    ensures Dispatch(env, root, id, m, packet).Crash? ==> Dispatch(env, root, id, m, packet).trap == NaluTooShort
  {
    var r := Dispatch(env, root, id, m, packet);
    var kind := Classify(env, packet[0]);
    if kind == VideoPacket {
      var sample := env.videoSampleOf(packet);
      ThumbnailStageValid(m, sample);
      var t := ThumbnailStage(m, sample);
      if t.Crash? {
        var ps := m.params.value;
        assert |ps[0]| > 0 && |ps[|ps| - 1]| > 0;
      }
    } else if kind == ParamsPacket {
      var pieces := SplitOmittingEmpty(packet, PARAMS_TAG);
      assert forall i :: 0 <= i < |pieces| ==> |pieces[i]| > 0;
    }
  }

  // ---------------------------------------------------------------------
  // Scenarios

  /** Thumbnail cadence, first part: from a counter of 0, five sync frames
      only count and are not sampled. */
  lemma ThumbnailCadence(m: MediaState, sample: VideoSample)
    requires sample.isSync && HasParameterSets(m) && m.keyframeCount == 0
    ensures var r1 := ThumbnailStage(m, sample);
            var r2 := ThumbnailStage(r1.state, sample);
            var r3 := ThumbnailStage(r2.state, sample);
            var r4 := ThumbnailStage(r3.state, sample);
            var r5 := ThumbnailStage(r4.state, sample);
            && r1.Ok? && r2.Ok? && r3.Ok? && r4.Ok? && r5.Ok?
            && r1.effects + r2.effects + r3.effects + r4.effects + r5.effects == []
            && r5.state == m.(keyframeCount := KEYFRAME_INTERVAL)
  {
  }

  /** Thumbnail cadence, second part: the sixth sync frame resets the
      counter and, when there is a thumbnailer, hands it the parameter sets
      and the frame; well-formed parameter sets and NAL units never trap. */
  lemma SixthFrameSampled(m: MediaState, sample: VideoSample)
    requires sample.isSync && HasParameterSets(m) && m.keyframeCount == KEYFRAME_INTERVAL
    ensures var r := ThumbnailStage(m, sample);
            var ps := m.params.value;
            && (r.Ok? ==> r.state == m.(keyframeCount := 0))
            && (!m.thumbnailer ==> r == Ok(m.(keyframeCount := 0), []))
            && (m.thumbnailer && r.Ok? ==>
                  |r.effects| == |sample.nalus| + 1
                  && r.effects[0] == SetParameterSets(ps[0][1..], ps[|ps| - 1][1..]))
            && (m.thumbnailer && |ps[0]| > 0 && |ps[|ps| - 1]| > 0 &&
                  (forall i :: 0 <= i < |sample.nalus| ==> |sample.nalus[i]| >= 4)
                ==> r.Ok?)
  {
  }

  /** The same sampled keyframe arriving as a packet: dispatching it sends
      the parameter sets and then every NAL unit to the thumbnailer, ahead
      of anything the writer receives. */
  lemma SampledKeyframeDispatched(env: Env, root: string, id: Option<string>, m: MediaState, packet: seq<uint8>)
    requires |packet| >= 1 && Classify(env, packet[0]) == VideoPacket
    requires env.videoSampleOf(packet).isSync && HasParameterSets(m) && m.keyframeCount == KEYFRAME_INTERVAL
    requires m.thumbnailer
    ensures var r := Dispatch(env, root, id, m, packet);
            var nalus := env.videoSampleOf(packet).nalus;
            var ps := m.params.value;
            && (r.Ok? ==> r.state.keyframeCount == 0)
            && (r.Ok? ==> |ps[0]| > 0 && |ps[|ps| - 1]| > 0)
            && (r.Ok? ==> |r.effects| > |nalus| && r.effects[0] == SetParameterSets(ps[0][1..], ps[|ps| - 1][1..]))
            && (r.Ok? ==> forall i :: 0 <= i < |nalus| ==> r.effects[i + 1] == DecodeKeyframe(nalus[i][4..]))
            && (|ps[0]| > 0 && |ps[|ps| - 1]| > 0 && (forall i :: 0 <= i < |nalus| ==> |nalus[i]| >= 4) ==> r.Ok?)
  {
    var sample := env.videoSampleOf(packet);
    var t := ThumbnailStage(m, sample);
    SixthFrameSampled(m, sample);
    if t.Ok? {
      var e := t.effects + SettingsStage(t.state, sample).1;
      assert forall i :: 0 <= i < |t.effects| ==> e[i] == t.effects[i];
    }
  }

  /** A settings change reconfigures: once the writer was configured for
      one set of dimensions, a dimensions packet with different dimensions
      makes the next video sample (same params, same timescale) configure
      the writer again, with the new settings, before it is appended. */
  lemma DimensionChangeReconfigures(m: MediaState, sample: VideoSample, d2: VideoDimensions)
    requires ReachesWriter(m) && m.dimensions != Some(d2)
    ensures var (m1, e1) := SettingsStage(m, sample);
            var m2 := m1.(dimensions := Some(d2));
            var (m3, e2) := SettingsStage(m2, sample);
            && m3.videoSettings == Some(VideoSettings(m.params.value, d2, sample.timescale))
            && e2 == [Configure(VideoConfig(VideoSettings(m.params.value, d2, sample.timescale))),
                      Append(VideoFrame(sample), sample.kind)]
  {
    var (m1, e1) := SettingsStage(m, sample);
    assert m1.videoSettings == Some(SettingsFor(m, sample));
    assert SettingsFor(m, sample).dimensions != d2;
  }

  /** Unchanged settings configure only once: a second sample with the same
      timescale is appended without a new configure. */
  lemma SameSettingsConfigureOnce(m: MediaState, sample: VideoSample, next: VideoSample)
    requires ReachesWriter(m) && next.timescale == sample.timescale
    ensures var (m1, e1) := SettingsStage(m, sample);
            SettingsStage(m1, next) == (m1, [Append(VideoFrame(next), next.kind)])
  {
  }
}
