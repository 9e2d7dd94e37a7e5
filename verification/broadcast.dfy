/** The broadcast record mirrored from the metadata API
    (Sources/pupilCore/Broadcast.swift). */
module Broadcasts {
  import opened Common

  datatype Broadcast = Broadcast(
    userID: string,
    title: Option<string>,
    broadcastID: string,
    status: string,
    thumbnails: Option<seq<string>>,
    createdAt: Option<nat>)

  /** `add(thumbnail:)`: a missing list becomes `[t]`, an existing list gets
      `t` at its end; no other field is touched. */
  function AddThumbnail(b: Broadcast, t: string): (r: Broadcast)
    ensures r.thumbnails.Some?
    ensures b.thumbnails.None? ==> r.thumbnails.value == [t]
    ensures r.thumbnails.value == b.thumbnails.GetOr([]) + [t]
    ensures |r.thumbnails.value| == |b.thumbnails.GetOr([])| + 1
    ensures r.(thumbnails := b.thumbnails) == b
  {
    match b.thumbnails
    case Some(nails) => b.(thumbnails := Some(nails + [t]))
    case None => b.(thumbnails := Some([t]))
  }

  /** Several `add(thumbnail:)` calls in a row. */
  function AddThumbnails(b: Broadcast, ts: seq<string>): Broadcast
    decreases |ts|
  {
    if |ts| == 0 then b else AddThumbnails(AddThumbnail(b, ts[0]), ts[1..])
  }

  /** Adding names one by one lists them after the previous thumbnails, in
      the order they were added (starting from no list at all when none of
      them was ever added). */
  lemma {:induction false} AddThumbnailsAppends(b: Broadcast, ts: seq<string>)
    requires |ts| > 0
    ensures AddThumbnails(b, ts).thumbnails == Some(b.thumbnails.GetOr([]) + ts)
    ensures AddThumbnails(b, ts).(thumbnails := b.thumbnails) == b
    decreases |ts|
  {
    var b1 := AddThumbnail(b, ts[0]);
    assert b1.thumbnails == Some(b.thumbnails.GetOr([]) + [ts[0]]);
    if |ts| > 1 {
      AddThumbnailsAppends(b1, ts[1..]);
      assert b1.thumbnails.GetOr([]) == b.thumbnails.GetOr([]) + [ts[0]];
      assert b.thumbnails.GetOr([]) + [ts[0]] + ts[1..] == b.thumbnails.GetOr([]) + ts;
    } else {
      assert [ts[0]] == ts;
    }
  }
}
