/** The uploader of the server executable (Sources/pupil/CloudManager.swift):
    the same bucket key as the library's uploader, a two-way content type,
    no thumbnail bookkeeping, and the status payload pushed on every
    session state change. */
module AppCloud {
  import opened Common
  import opened Effects
  import opened SessionCore
  import CoreCloud
  import Seqs
  import Broadcasts

  const PLAYLIST_NAME: string := "out.m3u8"

  /** The content type: the playlist by exact name, everything else as
      MP4. */
  function ContentType(fileName: string): (r: string)
    ensures r == CoreCloud.CONTENT_M3U8 <==> fileName == PLAYLIST_NAME
    ensures r != CoreCloud.CONTENT_M3U8 ==> r == CoreCloud.CONTENT_MP4
    ensures r != ""
  {
    if fileName == PLAYLIST_NAME then CoreCloud.CONTENT_M3U8 else CoreCloud.CONTENT_MP4
  }

  /** Only the exact playlist name counts: a name that merely contains
      `m3u8` is uploaded as MP4, unlike in the library's uploader. */
  lemma ContentTypeDiffersFromLibrary()
    ensures ContentType("vod.m3u8") == CoreCloud.CONTENT_MP4
    ensures CoreCloud.ContentType("vod.m3u8") == CoreCloud.CONTENT_M3U8
    ensures ContentType("out.m3u8") == CoreCloud.ContentType("out.m3u8")
  {
    CoreCloud.ContentTypeExamples();
    assert Seqs.OccursAt("out.m3u8", "m3u8", 4);
    CoreCloud.ContainsHasChar("out.m3u8", "mp4", 'p');
    CoreCloud.ContainsHasChar("out.m3u8", "jpg", 'j');
  }

  /** Over every file name: the two uploaders agree exactly on the playlist
      and on names the library also classifies as MP4 (an `mp4` but no
      `jpg` in them). */
  lemma ContentTypeAgreesWithLibrary(name: string)
    ensures ContentType(name) == CoreCloud.ContentType(name) <==>
      name == PLAYLIST_NAME || (!Seqs.Contains(name, "jpg") && Seqs.Contains(name, "mp4"))
  {
    if name == PLAYLIST_NAME {
      ContentTypeDiffersFromLibrary();
    }
  }

  /** One upload of the file at `url` under `key`, after the key was
      derived: `putObject`, then the deletion. The flag says whether the
      call returned without throwing. */
  function Attempt(url: string, key: string, deleteAfterUpload: bool, io: CoreCloud.UploadIO): (r: (seq<Effect>, bool))
    ensures r.1 <==> CoreCloud.Completes(io, deleteAfterUpload)
    ensures !io.readOk ==> r.0 == []
    ensures io.readOk ==> |r.0| >= 1 && r.0[0] == PutObject(CoreCloud.BUCKET, key, ContentType(CoreCloud.FileName(url)))
    ensures DeleteFile(url) in r.0 <==> io.readOk && io.putOk && deleteAfterUpload
    ensures forall e :: e in r.0 ==> !e.PushBroadcast?
  {
    if !io.readOk then ([], false)
    else
      var put := [PutObject(CoreCloud.BUCKET, key, ContentType(CoreCloud.FileName(url)))];
      if !io.putOk then (put, false)
      else if deleteAfterUpload then (put + [DeleteFile(url)], io.deleteOk)
      else (put, true)
  }

  /** `upload(file:deleteAfterUpload:)`: the key trap, then `putObject`,
      then the deletion. `readOk`, `putOk` and `deleteOk` are the outcomes
      of reading the file, the S3 call and the removal; the flag says
      whether the call returned without throwing. */
  function Upload(url: string, deleteAfterUpload: bool, io: CoreCloud.UploadIO): (r: Result<(seq<Effect>, bool), Trap>)
    ensures r.Failure? <==> '/' !in url
    ensures r.Success? ==> r.value == Attempt(url, CoreCloud.BucketKey(url).value, deleteAfterUpload, io)
    ensures r.Success? ==> (r.value.1 <==> CoreCloud.Completes(io, deleteAfterUpload))
    ensures r.Success? && io.readOk ==>
      |r.value.0| >= 1 &&
      r.value.0[0] == PutObject(CoreCloud.BUCKET, CoreCloud.BucketKey(url).value, ContentType(CoreCloud.FileName(url)))
    ensures r.Success? ==> (DeleteFile(url) in r.value.0 <==> io.readOk && io.putOk && deleteAfterUpload)
  {
    match CoreCloud.BucketKey(url)
    case Failure(t) => Failure(t)
    case Success(key) => Success(Attempt(url, key, deleteAfterUpload, io))
  }

  /** Both uploaders store a file under the same key. */
  lemma SameKeyAsLibrary(cache: Option<Broadcasts.Broadcast>, url: string, deleteAfterUpload: bool, io: CoreCloud.UploadIO)
    requires '/' in url && io.readOk
    ensures Upload(url, deleteAfterUpload, io).value.0[0].key
         == CoreCloud.Upload(cache, url, deleteAfterUpload, io).value.effects[0].key
  {
  }

  /** `update(broadcast:with:)`: the JSON object sent for a state. */
  function StatusPayload(state: PupilSessionState): (r: map<string, string>)
    ensures r.Keys == {"status"}
    ensures state == Starting ==> r["status"] == "STARTING"
    ensures state == Streaming ==> r["status"] == "LIVE"
    ensures state == Done ==> r["status"] == "DONE"
  {
    map["status" := RawValue(state)]
  }

  /** Distinct states send distinct payloads. */
  lemma StatusPayloadInjective(a: PupilSessionState, b: PupilSessionState)
    ensures StatusPayload(a) == StatusPayload(b) <==> a == b
  {
    if StatusPayload(a) == StatusPayload(b) {
      assert StatusPayload(a)["status"] == StatusPayload(b)["status"];
    }
  }

  /** The status a session pushes is the payload's value. */
  lemma PushedStatusIsPayload(s: PupilSession, id: string)
    ensures var r := AssignBroadcastID(s, id);
            PushStatus(id, StatusPayload(r.0.state)["status"]) in r.1
  {
  }
}
