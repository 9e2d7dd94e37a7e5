/** The parallel writer pipeline of Sources/pupilCore/MediaWriter.swift:
    a writer with its own copy of the video configuration and no keyframe
    counter. It is not driven by the session model; it is modelled on its
    own, as written (`HandleVideo`) and with the first derived settings
    stored (`HandleVideoStoringSettings`). */
module MediaWriterModel {
  import opened Common
  import opened Media
  import opened Effects

  datatype MediaWriter = MediaWriter(
    writer: Option<StreamType>,
    thumbnailer: bool,
    videoSettings: Option<VideoSettings>,
    videoDimensions: Option<VideoDimensions>,
    videoParams: Option<seq<seq<uint8>>>)

  /** The three playlists registered on the writer, as named in the code. */
  const Playlists: seq<(PlaylistType, string)> :=
    [(HlsVod, "vod.m3u8"), (HlsEvent, "event.m3u8"), (HlsLive, "live.m38u")]

  /** `init(streamType:outputDir:)`. `created` says whether building the
      writer and registering its playlists succeeded; when it did not, the
      initialiser throws (`None`). A thumbnailer exists only for a video
      stream. */
  function Init(t: StreamType, outputDir: string, created: bool): (r: Option<(MediaWriter, seq<Effect>)>)
    ensures r.None? <==> !created
    ensures r.Some? ==> r.value.0.writer == Some(t)
    ensures r.Some? ==> (r.value.0.thumbnailer <==> t == VideoStream)
    ensures r.Some? ==> r.value.0.videoSettings.None? && r.value.0.videoDimensions.None? && r.value.0.videoParams.None?
    ensures r.Some? ==> |r.value.1| >= 4 && r.value.1[0] == CreateWriter(outputDir, t)
    ensures r.Some? ==> forall i :: 0 <= i < 3 ==> r.value.1[i + 1] == AddPlaylist(Playlists[i].0, Playlists[i].1)
    ensures r.Some? ==> (CreateThumbnailer(outputDir) in r.value.1 <==> t == VideoStream)
  {
    if !created then None
    else
      var isVideo := t == VideoStream;
      var adds := [AddPlaylist(HlsVod, "vod.m3u8"), AddPlaylist(HlsEvent, "event.m3u8"), AddPlaylist(HlsLive, "live.m38u")];
      var thumb := if isVideo then [CreateThumbnailer(outputDir)] else [];
      Some((MediaWriter(Some(t), isVideo, None, None, None), [CreateWriter(outputDir, t)] + adds + thumb))
  }

  /** `handle(audio:)`: configure with the sample's settings, then append as
      audio, whenever there is a writer. */
  function HandleAudio(env: Env, w: MediaWriter, packet: seq<uint8>): (r: seq<Effect>)
    ensures w.writer.None? ==> r == []
    ensures w.writer.Some? ==>
      var sample := env.audioSampleOf(packet);
      r == [Configure(AudioConfig(env.audioSettingsOf(sample))), Append(AudioFrame(sample), Audio)]
  {
    var sample := env.audioSampleOf(packet);
    var settings := env.audioSettingsOf(sample);
    if w.writer.Some? then [Configure(AudioConfig(settings)), Append(AudioFrame(sample), Audio)] else []
  }

  /** Dimensions and params are both known. */
  predicate Configurable(w: MediaWriter)
  {
    w.videoDimensions.Some? && w.videoParams.Some?
  }

  function SettingsFor(w: MediaWriter, sample: VideoSample): VideoSettings
    requires Configurable(w)
  {
    VideoSettings(w.videoParams.value, w.videoDimensions.value, sample.timescale)
  }

  /** `checkForVideoSettings`: with no stored settings, configure, but do
      not store. */
  function CheckForVideoSettings(w: MediaWriter, sample: VideoSample): seq<Effect>
  {
    if w.writer.Some? && Configurable(w) && w.videoSettings.None? then
      [Configure(VideoConfig(SettingsFor(w, sample)))]
    else []
  }

  /** `checkForVideoSettingChanges`: with stored settings, configure and
      store when the new ones differ. */
  function CheckForVideoSettingChanges(w: MediaWriter, sample: VideoSample): (r: (MediaWriter, seq<Effect>))
    ensures !(w.writer.Some? && Configurable(w) && w.videoSettings.Some?) ==> r == (w, [])
    ensures w.writer.Some? && Configurable(w) && w.videoSettings.Some? ==>
      var settings := SettingsFor(w, sample);
      && r.0 == w.(videoSettings := Some(settings))
      && (r.1 != [] <==> w.videoSettings.value != settings)
      && (r.1 != [] ==> r.1 == [Configure(VideoConfig(settings))])
  {
    if w.writer.Some? && Configurable(w) && w.videoSettings.Some? then
      var settings := SettingsFor(w, sample);
      if w.videoSettings.value != settings then
        (w.(videoSettings := Some(settings)), [Configure(VideoConfig(settings))])
      else (w, [])
    else (w, [])
  }

  /** Params are known and have a first (sps) and last (pps) element. */
  predicate HasParams(w: MediaWriter)
  {
    w.videoParams.Some? && |w.videoParams.value| > 0
  }

  /** `digestForThumbnailProcessing`: every sync frame with parameter sets
      goes to the thumbnailer (if there is one); there is no counter. */
  function DigestForThumbnail(w: MediaWriter, sample: VideoSample): (r: Result<seq<Effect>, Trap>)
    ensures !(sample.isSync && HasParams(w) && w.thumbnailer) ==> r == Success([])
    ensures sample.isSync && HasParams(w) && w.thumbnailer ==>
      var ps := w.videoParams.value;
      && (r.Failure? <==> |ps[0]| == 0 || |ps[|ps| - 1]| == 0 || exists i :: 0 <= i < |sample.nalus| && |sample.nalus[i]| < 4)
      && (r.Success? ==> |r.value| == |sample.nalus| + 1)
      && (r.Success? ==> r.value[0] == SetParameterSets(ps[0][1..], ps[|ps| - 1][1..]))
      && (r.Success? ==> forall i :: 0 <= i < |sample.nalus| ==> r.value[i + 1] == DecodeKeyframe(sample.nalus[i][4..]))
    ensures r.Success? ==> forall e :: e in r.value ==> e.SetParameterSets? || e.DecodeKeyframe?
  {
    if !(sample.isSync && HasParams(w) && w.thumbnailer) then Success([])
    else
      var ps := w.videoParams.value;
      KeyframeDigest(ps[0], ps[|ps| - 1], sample.nalus)
  }

  /** The end of `handle(video:)`: after the settings checks produced
      `configure`, digest the frame for the thumbnailer, then append it. */
  function DigestAndAppend(w: MediaWriter, sample: VideoSample, configure: seq<Effect>): (r: Step<MediaWriter>)
    ensures r.Crash? <==> DigestForThumbnail(w, sample).Failure?
    ensures r.Ok? ==> r.state == w
    ensures r.Ok? ==> r.effects == configure + DigestForThumbnail(w, sample).value + [Append(VideoFrame(sample), Video)]
  {
    match DigestForThumbnail(w, sample)
    case Failure(t) => Crash(t)
    case Success(e) => Ok(w, configure + e + [Append(VideoFrame(sample), Video)])
  }

  /** `handle(video:)` as written. */
  function HandleVideo(env: Env, w: MediaWriter, packet: seq<uint8>): (r: Step<MediaWriter>)
    ensures w.writer.None? ==> r == Ok(w, [])
    ensures r.Ok? && w.writer.Some? ==>
      |r.effects| >= 1 && r.effects[|r.effects| - 1] == Append(VideoFrame(env.videoSampleOf(packet)), Video)
    ensures r.Ok? ==> r.state.(videoSettings := w.videoSettings) == w
    ensures r.Ok? && w.videoSettings.None? ==> r.state.videoSettings.None?
    ensures r.Ok? && w.writer.Some? && Configurable(w) && w.videoSettings.None? ==>
      r.effects[0] == Configure(VideoConfig(SettingsFor(w, env.videoSampleOf(packet))))
    ensures r.Crash? <==>
      var sample := env.videoSampleOf(packet);
      w.writer.Some? && DigestForThumbnail(w, sample).Failure?
    ensures r.Ok? && w.writer.Some? && Configurable(w) && w.videoSettings.Some? ==>
      var settings := SettingsFor(w, env.videoSampleOf(packet));
      && r.state.videoSettings == Some(settings)
      && (r.effects[0] == Configure(VideoConfig(settings)) <==> w.videoSettings.value != settings)
    ensures r.Ok? && w.writer.Some? ==>
      var digest := DigestForThumbnail(w, env.videoSampleOf(packet)).value;
      && |digest| + 1 <= |r.effects| <= |digest| + 2
      && r.effects[|r.effects| - 1 - |digest|..|r.effects| - 1] == digest
      && (|r.effects| == |digest| + 2 <==>
            Configurable(w) && w.videoSettings != Some(SettingsFor(w, env.videoSampleOf(packet))))
  {
    if w.writer.None? then Ok(w, [])
    else
      var sample := env.videoSampleOf(packet);
      var (w2, e2) := CheckForVideoSettingChanges(w, sample);
      assert DigestForThumbnail(w2, sample) == DigestForThumbnail(w, sample);
      DigestAndAppend(w2, sample, CheckForVideoSettings(w, sample) + e2)
  }

  /** There is no keyframe counter here: every sync frame is digested once
      params are known and a thumbnailer exists, where the session digests
      only one sync frame in six (`SessionCore.ThumbnailCadence`). */
  lemma EverySyncFrameDigested(env: Env, w: MediaWriter, packet: seq<uint8>)
    requires w.writer.Some? && w.thumbnailer && HasParams(w)
    requires env.videoSampleOf(packet).isSync
    requires HandleVideo(env, w, packet).Ok?
    ensures var ps := w.videoParams.value;
            SetParameterSets(ps[0][1..], ps[|ps| - 1][1..]) in HandleVideo(env, w, packet).effects
  {
    var sample := env.videoSampleOf(packet);
    var (w1, e1) := CheckForVideoSettingChanges(w, sample);
    var configure := CheckForVideoSettings(w, sample) + e1;
    assert HandleVideo(env, w, packet) == DigestAndAppend(w1, sample, configure);
    var digest := DigestForThumbnail(w1, sample).value;
    assert HandleVideo(env, w, packet).effects[|configure|] == digest[0];
  }

  /** As written, the first derived settings are never stored, so the
      change check never runs: every video sample configures the writer
      again, identical settings or not. */
  lemma ConfigureRepeatsForIdenticalSamples(env: Env, w: MediaWriter, packet: seq<uint8>)
    requires w.writer.Some? && Configurable(w) && w.videoSettings.None?
    requires HandleVideo(env, w, packet).Ok?
    ensures var r1 := HandleVideo(env, w, packet);
            var r2 := HandleVideo(env, r1.state, packet);
            && r2.Ok?
            && r1.effects[0] == Configure(VideoConfig(SettingsFor(w, env.videoSampleOf(packet))))
            && r2.effects[0] == r1.effects[0]
            && r2.state == w
  {
  }

  /** `handle(video:)` with the first derived settings stored: configure on
      the first settings and on every change, and only then. */
  function HandleVideoStoringSettings(env: Env, w: MediaWriter, packet: seq<uint8>): (r: Step<MediaWriter>)
    ensures w.writer.None? ==> r == Ok(w, [])
    ensures r.Ok? && w.writer.Some? ==>
      |r.effects| >= 1 && r.effects[|r.effects| - 1] == Append(VideoFrame(env.videoSampleOf(packet)), Video)
    ensures r.Ok? ==> r.state.(videoSettings := w.videoSettings) == w
    ensures r.Ok? && w.writer.Some? && Configurable(w) ==>
      var settings := SettingsFor(w, env.videoSampleOf(packet));
      && r.state.videoSettings == Some(settings)
      && (r.effects[0] == Configure(VideoConfig(settings)) <==> w.videoSettings != Some(settings))
  {
    if w.writer.None? then Ok(w, [])
    else
      var sample := env.videoSampleOf(packet);
      var (w2, e1) :=
        if Configurable(w) && w.videoSettings != Some(SettingsFor(w, sample)) then
          var settings := SettingsFor(w, sample);
          (w.(videoSettings := Some(settings)), [Configure(VideoConfig(settings))])
        else (w, []);
      assert DigestForThumbnail(w2, sample) == DigestForThumbnail(w, sample);
      DigestAndAppend(w2, sample, e1)
  }

  /** The two handlers differ only in what they remember: for every writer
      and packet they trap alike and produce the same effects, and their
      writers differ at most in the stored settings, which the handler as
      written never fills in. Once settings are stored they agree entirely. */
  lemma StoringOnlyChangesState(env: Env, w: MediaWriter, packet: seq<uint8>)
    ensures var r1 := HandleVideo(env, w, packet);
            var r2 := HandleVideoStoringSettings(env, w, packet);
            && (r1.Crash? <==> r2.Crash?)
            && (r1.Ok? ==> r1.effects == r2.effects)
            && (r1.Ok? ==> r1.state == r2.state.(videoSettings := r1.state.videoSettings))
            && (w.videoSettings.Some? ==> r1 == r2)
  {
    if w.writer.Some? {
      var sample := env.videoSampleOf(packet);
      var (w1, e1) := CheckForVideoSettingChanges(w, sample);
      var changed := Configurable(w) && w.videoSettings != Some(SettingsFor(w, sample));
      var configure := if changed then [Configure(VideoConfig(SettingsFor(w, sample)))] else [];
      var w2 := if changed then w.(videoSettings := Some(SettingsFor(w, sample))) else w;
      assert CheckForVideoSettings(w, sample) + e1 == configure;
      assert HandleVideo(env, w, packet) == DigestAndAppend(w1, sample, configure);
      assert HandleVideoStoringSettings(env, w, packet) == DigestAndAppend(w2, sample, configure);
      assert DigestForThumbnail(w1, sample) == DigestForThumbnail(w2, sample);
    }
  }

  /** With the settings stored, a second sample with unchanged settings is
      appended without configuring again. */
  lemma StoringSettingsConfiguresOnce(env: Env, w: MediaWriter, packet: seq<uint8>, next: seq<uint8>)
    requires w.writer.Some? && Configurable(w)
    requires env.videoSampleOf(next).timescale == env.videoSampleOf(packet).timescale
    requires HandleVideoStoringSettings(env, w, packet).Ok?
    ensures var r1 := HandleVideoStoringSettings(env, w, packet);
            var r2 := HandleVideoStoringSettings(env, r1.state, next);
            r2.Ok? ==> forall e :: e in r2.effects ==> !e.Configure?
  {
    var r1 := HandleVideoStoringSettings(env, w, packet);
    var w1 := r1.state;
    assert SettingsFor(w1, env.videoSampleOf(next)) == SettingsFor(w, env.videoSampleOf(packet));
  }
}
