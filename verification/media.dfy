/** The media-side collaborators of the ingest path (the morsel parsers,
    the memento thumbnailer and the file system), reduced to the values
    they produce. Their internals are not part of this model: every parser
    is a field of `Env`, an arbitrary total function. */
module Media {
  import opened Common

  /** `AVSampleType`: which media a sample packet carries. */
  datatype SampleType = Audio | Video

  /** `AVStreamType` / `StreamType`: what the connection will carry. */
  datatype StreamType = AudioStream | VideoStream | AudioVideoStream

  datatype VideoDimensions = VideoDimensions(width: nat, height: nat)

  /** A parsed video sample: only the parts the ingest logic reads. `kind`
      is the sample's own `type` property. */
  datatype VideoSample = VideoSample(isSync: bool, timescale: nat, nalus: seq<seq<uint8>>, kind: SampleType)

  datatype AudioSample = AudioSample(kind: SampleType, payload: seq<uint8>)

  /** `AudioSettings(sample)`: derived from the sample by the parser. */
  datatype AudioSettings = AudioSettings(fields: seq<uint8>)

  /** `VideoSettings`, compared structurally: a change in any field is a change. */
  datatype VideoSettings = VideoSettings(params: seq<seq<uint8>>, dimensions: VideoDimensions, timescale: nat)

  datatype Settings = VideoConfig(video: VideoSettings) | AudioConfig(audio: AudioSettings)

  datatype Sample = VideoFrame(video: VideoSample) | AudioFrame(audio: AudioSample)

  /** The collaborators whose behaviour the model does not fix:
      - `lengthOf`: `UInt32(bytes:)` on the four length bytes (byte order unknown);
      - `sampleTypeOf`: `AVSampleType(rawValue:)`;
      - `videoSampleOf`, `audioSampleOf`, `audioSettingsOf`, `dimensionsOf`,
        `streamTypeOf`: the morsel constructors and `AVStreamType.parse`;
      - `writerCreated`: whether creating the output directory and the
        fragmented-MP4 writer for that directory succeeds;
      - `utf8`: `String(data:encoding: .utf8)`. */
  datatype Env = Env(
    lengthOf: seq<uint8> -> Option<uint32>,
    sampleTypeOf: uint8 -> Option<SampleType>,
    videoSampleOf: seq<uint8> -> VideoSample,
    audioSampleOf: seq<uint8> -> AudioSample,
    audioSettingsOf: AudioSample -> AudioSettings,
    dimensionsOf: seq<uint8> -> VideoDimensions,
    streamTypeOf: seq<uint8> -> Option<StreamType>,
    writerCreated: (string, StreamType) -> bool,
    utf8: seq<uint8> -> Option<string>)
}
