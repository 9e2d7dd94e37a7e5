/** The effect log. Every call the Swift code makes into the writer, the
    thumbnailer, the socket, the cloud manager or the file system appears
    here as a value, in the order the code makes the calls. */
module Effects {
  import opened Common
  import opened Media
  import opened Broadcasts

  datatype PlaylistType = HlsVod | HlsEvent | HlsLive

  datatype Effect =
    | Configure(settings: Settings)                       // writer.configure(settings:)
    | Append(sample: Sample, kind: SampleType)            // writer.append(sample:type:)
    | SetParameterSets(sps: seq<uint8>, pps: seq<uint8>)  // thumbnailer.set(sps:pps:)
    | DecodeKeyframe(nal: seq<uint8>)                     // thumbnailer.decode(keyframe:)
    | CreateWriter(dir: string, streamType: StreamType)   // directory + FragmentedMP4Writer
    | AddPlaylist(playlist: PlaylistType, fileName: string)
    | CreateThumbnailer(dir: string)                      // Memento(outputDir:delegate:)
    | StopWriter                                          // writer.stop()
    | FetchBroadcast(broadcastID: string)                 // cloudManager.setup(with:)
    | PushStatus(broadcastID: string, status: string)     // cloudManager.update(broadcast:with:)
    | WriteText(text: string)                             // socket write of a text response
    | CloseSocket
    | PutObject(bucket: string, key: string, contentType: string)
    | PushBroadcast(broadcast: Broadcast)                 // metadata update after a thumbnail upload
    | DeleteFile(url: string)

  /** One step of a component: its new state and the effects it caused, or
      the trap that stops the process. */
  datatype Step<S> = Ok(state: S, effects: seq<Effect>) | Crash(trap: Trap)

  /** The memento calls made for one sampled keyframe: the parameter sets
      without their first byte, then every NAL unit without its first four
      bytes (its length prefix), in order. Slicing traps on an empty
      parameter set or a NAL unit shorter than four bytes. */
  function KeyframeDigest(sps: seq<uint8>, pps: seq<uint8>, nalus: seq<seq<uint8>>): (r: Result<seq<Effect>, Trap>)
    ensures r.Failure? <==> |sps| == 0 || |pps| == 0 || exists i :: 0 <= i < |nalus| && |nalus[i]| < 4
    ensures r.Success? ==> |r.value| == |nalus| + 1 && r.value[0] == SetParameterSets(sps[1..], pps[1..])
    ensures r.Success? ==> forall i :: 0 <= i < |nalus| ==> r.value[i + 1] == DecodeKeyframe(nalus[i][4..])
    ensures r.Success? ==> forall e :: e in r.value ==> e.SetParameterSets? || e.DecodeKeyframe?
  {
    if |sps| == 0 || |pps| == 0 then Failure(EmptyParameterSet)
    else
      match DecodeKeyframes(nalus)
      case Failure(t) => Failure(t)
      case Success(e) => Success([SetParameterSets(sps[1..], pps[1..])] + e)
  }

  /** The `for nalu in sample.nalus` loop of the keyframe digest. */
  function DecodeKeyframes(nalus: seq<seq<uint8>>): (r: Result<seq<Effect>, Trap>)
    ensures r.Failure? <==> exists i :: 0 <= i < |nalus| && |nalus[i]| < 4
    ensures r.Failure? ==> r.error == NaluTooShort
    ensures r.Success? ==> |r.value| == |nalus|
    ensures r.Success? ==> forall i :: 0 <= i < |nalus| ==> r.value[i] == DecodeKeyframe(nalus[i][4..])
  {
    if |nalus| == 0 then Success([])
    else if |nalus[0]| < 4 then Failure(NaluTooShort)
    else
      match DecodeKeyframes(nalus[1..])
      case Failure(t) => Failure(t)
      case Success(e) => Success([DecodeKeyframe(nalus[0][4..])] + e)
  }
}
