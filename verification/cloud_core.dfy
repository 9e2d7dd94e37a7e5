/** The uploader of Sources/pupilCore/CloudManager.swift: the bucket key and
    content type derived from a file URL, the thumbnail bookkeeping on the
    cached broadcast record, and the retry-until-success loop of the
    session's writer callbacks. S3, HTTP and the file system are the
    outcome flags of `UploadIO`; the calls themselves are effects. */
module CoreCloud {
  import opened Common
  import opened Seqs
  import opened Broadcasts
  import opened Effects

  const BUCKET: string := "krad-tv-staging-video"

  const CONTENT_M3U8: string := "application/x-mpegURL"
  const CONTENT_MP4: string := "video/mp4"
  const CONTENT_JPEG: string := "image/jpeg"

  datatype CloudManagerError = ConfigInfoMissing

  /** `init()`: the region, key ID and secret must all be in the
      environment. */
  function CloudManagerInit(env: map<string, string>): (r: Result<(), CloudManagerError>)
    ensures r.Success? <==> "AWS_REGION" in env && "AWS_KEYID" in env && "AWS_KEYSECRET" in env
  {
    if "AWS_REGION" in env && "AWS_KEYID" in env && "AWS_KEYSECRET" in env then Success(())
    else Failure(ConfigInfoMissing)
  }

  // ---------------------------------------------------------------------
  // Bucket key

  /** `key` holds exactly one '/'. */
  predicate ExactlyOneSlash(key: string)
  {
    && '/' in key
    && forall p, q :: 0 <= p < q < |key| && key[p] == '/' ==> key[q] != '/'
  }

  /** `key` is what is left of `url` after cutting it right after some '/'
      (or not at all). */
  predicate PathSuffix(url: string, key: string)
  {
    |key| <= |url| && url[|url| - |key|..] == key
    && (|key| == |url| || url[|url| - |key| - 1] == '/')
  }

  lemma Regroup<T>(p: seq<T>, q: seq<T>, r: seq<T>, s: seq<T>, t: seq<T>)
    ensures p + q + r + s + t == (p + q) + (r + s + t)
  {
  }

  /** A suffix whose front part is empty or ends in '/' is a path suffix. */
  lemma SuffixAfterSlash(url: string, front: string, key: string)
    requires url == front + key
    requires front == [] || front[|front| - 1] == '/'
    ensures PathSuffix(url, key)
  {
    assert url[|front|..] == key;
  }

  /** Two slash-free names joined by '/' hold exactly one '/', the one in
      front of the second name. */
  lemma OneSlash(dir: string, name: string)
    requires '/' !in dir && '/' !in name
    ensures ExactlyOneSlash(dir + "/" + name)
  {
    var key := dir + "/" + name;
    assert key[|dir|] == '/';
    assert forall i :: 0 <= i < |dir| ==> key[i] == dir[i];
    assert forall i :: |dir| < i < |key| ==> key[i] == name[i - |dir| - 1];
  }

  /** The last two of the slash-free pieces a string is joined from, with
      '/' between them, are a suffix of the string cut after a '/'. */
  lemma LastTwoComponents(url: string, parts: seq<string>)
    requires |parts| >= 2 && url == Join(parts, '/')
    requires forall i :: 0 <= i < |parts| ==> '/' !in parts[i]
    ensures PathSuffix(url, parts[|parts| - 2] + "/" + parts[|parts| - 1])
    ensures ExactlyOneSlash(parts[|parts| - 2] + "/" + parts[|parts| - 1])
  {
    var n := |parts|;
    var dir, name := parts[n - 2], parts[n - 1];
    var key := dir + "/" + name;
    var init := parts[..n - 1];
    JoinLast(parts, '/');
    assert url == Join(init, '/') + "/" + name;
    if n == 2 {
      assert init == [dir];
      assert url == key;
      SuffixAfterSlash(url, [], key);
    } else {
      JoinLast(init, '/');
      var m := |init| - 1;
      var front := Join(init[..m], '/') + "/";
      assert init[m] == dir;
      assert Join(init, '/') == Join(init[..m], '/') + "/" + dir;
      Regroup(Join(init[..m], '/'), "/", dir, "/", name);
      assert url == front + key;
      SuffixAfterSlash(url, front, key);
    }
    OneSlash(dir, name);
  }

  /** The last `/`-component: the file name. */
  function FileName(url: string): (name: string)
    ensures '/' !in name
    ensures PathSuffix(url, name)
  {
    var parts := Split(url, '/');
    if |parts| >= 2 then
      JoinLast(parts, '/');
      SuffixAfterSlash(url, Join(parts[..|parts| - 1], '/') + "/", parts[|parts| - 1]);
      parts[|parts| - 1]
    else
      parts[0]
  }

  /** `components(separatedBy: "/")` then two `popLast()!`: the second one
      traps on a string without '/'. The key is the last two components
      joined by '/'. */
  function BucketKey(url: string): (r: Result<string, Trap>)
    ensures r.Failure? <==> '/' !in url
    ensures r.Failure? ==> r.error == MissingPathComponent
    ensures r.Success? ==> PathSuffix(url, r.value) && ExactlyOneSlash(r.value)
  {
    var parts := Split(url, '/');
    if |parts| < 2 then Failure(MissingPathComponent)
    else
      LastTwoComponents(url, parts);
      Success(parts[|parts| - 2] + "/" + parts[|parts| - 1])
  }

  /** The key ends with '/' and the file name. */
  lemma BucketKeyEndsWithFileName(url: string)
    requires '/' in url
    ensures var key := BucketKey(url).value;
            var name := FileName(url);
            |name| < |key| && key[|key| - |name|..] == name && key[|key| - |name| - 1] == '/'
  {
    var key, name := BucketKey(url).value, FileName(url);
    SecondSlashOrShorter(url, name, key);
    SuffixOfSuffix(url, key, name);
  }

  /** A path suffix of a URL is a suffix of every longer suffix. */
  lemma SuffixOfSuffix(url: string, long: string, short: string)
    requires |long| <= |url| && url[|url| - |long|..] == long
    requires |short| <= |long| && url[|url| - |short|..] == short
    ensures long[|long| - |short|..] == short
  {
    assert long[|long| - |short|..] == url[|url| - |short|..];
  }

  /** A character of a suffix is a character of every longer suffix. */
  lemma SlashInLonger(url: string, long: string, short: string, j: nat)
    requires |long| <= |url| && url[|url| - |long|..] == long
    requires |short| <= |long| && url[|url| - |short|..] == short
    requires j < |short|
    ensures short[j] in long
  {
    SuffixOfSuffix(url, long, short);
    assert long[|long| - |short| + j] == short[j];
  }

  /** Shorter than a key with one '/' and cut after a '/': the file name
      sits right behind the key's '/'. */
  lemma SecondSlashOrShorter(url: string, name: string, key: string)
    requires PathSuffix(url, name) && '/' !in name
    requires PathSuffix(url, key) && ExactlyOneSlash(key)
    ensures |name| < |key| && key[|key| - |name| - 1] == '/'
  {
    var j := IndexOf(key, '/');
    SuffixIndex(url, key, j);
    if |key| <= |name| {
      SlashInLonger(url, name, key, j);
      assert false;
    }
    var cut := |key| - |name| - 1;
    SuffixIndex(url, key, cut);
  }

  /** A bucket key is determined by the two properties above: any suffix
      of the URL cut after a '/' that holds exactly one '/' is it. */
  lemma BucketKeyUnique(url: string, key: string)
    requires PathSuffix(url, key) && ExactlyOneSlash(key)
    ensures BucketKey(url) == Success(key)
  {
    var k := BucketKey(url).value;
    if |key| < |k| {
      TwoSlashes(url, key, k);
      assert false;
    } else if |k| < |key| {
      TwoSlashes(url, k, key);
      assert false;
    }
  }

  /** Of two path suffixes of one URL, the longer one has a '/' at the cut
      of the shorter, so if the shorter holds a '/' the longer holds two. */
  lemma TwoSlashes(url: string, short: string, long: string)
    requires PathSuffix(url, short) && '/' in short
    requires PathSuffix(url, long) && |short| < |long|
    ensures !ExactlyOneSlash(long)
  {
    var cut := |long| - |short| - 1;
    SuffixIndex(url, long, cut);
    var j := IndexOf(short, '/');
    SuffixIndex(url, long, cut + 1 + j);
    SuffixIndex(url, short, j);
    assert long[cut] == '/' && long[cut + 1 + j] == '/';
  }

  lemma SuffixIndex(url: string, suffix: string, k: nat)
    requires |suffix| <= |url| && url[|url| - |suffix|..] == suffix && k < |suffix|
    ensures suffix[k] == url[|url| - |suffix| + k]
  {
  }

  // ---------------------------------------------------------------------
  // Content type

  /** Three checks in a row, each overriding the one before: `m3u8`, then
      `mp4`, then `jpg`. */
  function ContentType(name: string): (r: string)
    ensures r == "" <==> !Contains(name, "m3u8") && !Contains(name, "mp4") && !Contains(name, "jpg")
    ensures Contains(name, "jpg") ==> r == CONTENT_JPEG
    ensures !Contains(name, "jpg") && Contains(name, "mp4") ==> r == CONTENT_MP4
    ensures !Contains(name, "jpg") && !Contains(name, "mp4") && Contains(name, "m3u8") ==> r == CONTENT_M3U8
  {
    var afterM3u8 := if Contains(name, "m3u8") then CONTENT_M3U8 else "";
    var afterMp4 := if Contains(name, "mp4") then CONTENT_MP4 else afterM3u8;
    if Contains(name, "jpg") then CONTENT_JPEG else afterMp4
  }

  /** A string without `c` contains no substring holding `c`. */
  lemma ContainsHasChar(s: string, sub: string, c: char)
    requires c in sub
    ensures Contains(s, sub) ==> c in s
  {
    if Contains(s, sub) {
      var i :| 0 <= i <= |s| - |sub| && OccursAt(s, sub, i);
      var k := IndexOf(sub, c);
      assert s[i..i + |sub|][k] == c;
      assert s[i + k] == c;
    }
  }

  lemma ContentTypeExamples()
    ensures ContentType("vod.m3u8") == CONTENT_M3U8
    ensures ContentType("fileSeq0.mp4") == CONTENT_MP4
    ensures ContentType("thumb.jpg") == CONTENT_JPEG
  {
    assert OccursAt("vod.m3u8", "m3u8", 4);
    ContainsHasChar("vod.m3u8", "mp4", 'p');
    ContainsHasChar("vod.m3u8", "jpg", 'j');
    assert OccursAt("fileSeq0.mp4", "mp4", 9);
    ContainsHasChar("fileSeq0.mp4", "jpg", 'j');
    assert OccursAt("thumb.jpg", "jpg", 6);
  }

  // ---------------------------------------------------------------------
  // One upload attempt and the retry loop

  /** What the outside world does to one attempt: reading the file,
      `putObject`, and the deletion after upload. */
  datatype UploadIO = UploadIO(readOk: bool, putOk: bool, deleteOk: bool)

  /** The cached broadcast after the attempt, the calls made, and whether
      the attempt finished without throwing. */
  datatype Attempt = Attempt(cache: Option<Broadcast>, effects: seq<Effect>, completed: bool)

  predicate Completes(io: UploadIO, deleteAfterUpload: bool)
  {
    io.readOk && io.putOk && (!deleteAfterUpload || io.deleteOk)
  }

  predicate IsThumbnail(name: string)
  {
    Contains(name, "jpg")
  }

  /** The cached broadcast once an attempt on `name` got past reading the
      file. */
  function Noted(cache: Option<Broadcast>, name: string): Option<Broadcast>
  {
    if IsThumbnail(name) && cache.Some? then Some(AddThumbnail(cache.value, name)) else cache
  }

  /** One attempt on the file `name` at `url`, to be stored under `key`. */
  function Attempted(cache: Option<Broadcast>, key: string, name: string, url: string, deleteAfterUpload: bool, io: UploadIO): (a: Attempt)
    ensures a.completed <==> Completes(io, deleteAfterUpload)
    ensures !io.readOk ==> a == Attempt(cache, [], false)
    ensures io.readOk ==>
      && a.cache == Noted(cache, name)
      && |a.effects| >= 1
      && a.effects[0] == PutObject(BUCKET, key, ContentType(name))
    ensures DeleteFile(url) in a.effects <==> io.readOk && io.putOk && deleteAfterUpload
    ensures forall e :: e in a.effects && e.PushBroadcast? ==>
      io.readOk && io.putOk && IsThumbnail(name) && a.cache == Some(e.broadcast)
    ensures io.readOk && io.putOk && IsThumbnail(name) && cache.Some? ==>
      PushBroadcast(a.cache.value) in a.effects
  {
    if !io.readOk then Attempt(cache, [], false)
    else
      var cache1 := Noted(cache, name);
      var put := [PutObject(BUCKET, key, ContentType(name))];
      if !io.putOk then Attempt(cache1, put, false)
      else
        var push := if IsThumbnail(name) && cache1.Some? then [PushBroadcast(cache1.value)] else [];
        var delete := if deleteAfterUpload then [DeleteFile(url)] else [];
        Attempt(cache1, put + push + delete, !deleteAfterUpload || io.deleteOk)
  }

  /** `upload(file:deleteAfterUpload:)`, one attempt: the key trap first,
      then the attempt on the URL's file name. */
  function Upload(cache: Option<Broadcast>, url: string, deleteAfterUpload: bool, io: UploadIO): (r: Result<Attempt, Trap>)
    ensures r.Failure? <==> '/' !in url
    ensures r.Success? ==> r.value == Attempted(cache, BucketKey(url).value, FileName(url), url, deleteAfterUpload, io)
  {
    match BucketKey(url)
    case Failure(t) => Failure(t)
    case Success(key) => Success(Attempted(cache, key, FileName(url), url, deleteAfterUpload, io))
  }

  /** The writer and thumbnailer callbacks: upload, and on a throw upload
      again, until an attempt completes. `ios` are the outcomes of the
      attempts the world allows; the result counts the attempts made. */
  function Retried(cache: Option<Broadcast>, key: string, name: string, url: string, deleteAfterUpload: bool, ios: seq<UploadIO>): (r: (Attempt, nat))
    ensures r.1 <= |ios|
    ensures forall i :: 0 <= i < r.1 - 1 ==> !Completes(ios[i], deleteAfterUpload)
    ensures r.0.completed <==> r.1 > 0 && Completes(ios[r.1 - 1], deleteAfterUpload)
    ensures !r.0.completed ==> r.1 == |ios|
    decreases |ios|
  {
    if |ios| == 0 then (Attempt(cache, [], false), 0)
    else
      var a := Attempted(cache, key, name, url, deleteAfterUpload, ios[0]);
      if a.completed then (a, 1)
      else
        var (b, n) := Retried(a.cache, key, name, url, deleteAfterUpload, ios[1..]);
        (Attempt(b.cache, a.effects + b.effects, b.completed), n + 1)
  }

  /** The retry loop on a URL: the first attempt traps when the URL has no
      '/', otherwise every attempt uploads the same key. */
  function UploadWithRetry(cache: Option<Broadcast>, url: string, deleteAfterUpload: bool, ios: seq<UploadIO>): (r: Result<(Attempt, nat), Trap>)
    ensures r.Failure? <==> '/' !in url && |ios| > 0
    ensures r.Success? && |ios| > 0 ==> r.value == Retried(cache, BucketKey(url).value, FileName(url), url, deleteAfterUpload, ios)
    ensures r.Success? && |ios| == 0 ==> r.value == (Attempt(cache, [], false), 0)
  {
    if |ios| == 0 then Success((Attempt(cache, [], false), 0))
    else
      match BucketKey(url)
      case Failure(t) => Failure(t)
      case Success(key) => Success(Retried(cache, key, FileName(url), url, deleteAfterUpload, ios))
  }

  function Repeat(name: string, n: nat): (r: seq<string>)
    ensures |r| == n && forall i :: 0 <= i < n ==> r[i] == name
  {
    if n == 0 then [] else [name] + Repeat(name, n - 1)
  }

  /** The thumbnail is noted before `putObject`: when every attempt reads
      the file, the cached broadcast gets the file name once per attempt,
      failed attempts included. */
  lemma {:induction false} RetriedThumbnailNotedPerAttempt(b: Broadcast, key: string, name: string, url: string, deleteAfterUpload: bool, ios: seq<UploadIO>)
    requires IsThumbnail(name)
    requires forall i :: 0 <= i < |ios| ==> ios[i].readOk
    ensures var r := Retried(Some(b), key, name, url, deleteAfterUpload, ios);
            r.0.cache == Some(AddThumbnails(b, Repeat(name, r.1)))
    decreases |ios|
  {
    if |ios| > 0 {
      var a := Attempted(Some(b), key, name, url, deleteAfterUpload, ios[0]);
      var b1 := AddThumbnail(b, name);
      assert a.cache == Some(b1);
      assert Repeat(name, 1)[1..] == [];
      if !a.completed {
        RetriedThumbnailNotedPerAttempt(b1, key, name, url, deleteAfterUpload, ios[1..]);
        var n := Retried(a.cache, key, name, url, deleteAfterUpload, ios[1..]).1;
        assert Repeat(name, n + 1)[1..] == Repeat(name, n);
      }
    }
  }

  /** One failed `putObject`, then success: two uploads attempted and the
      thumbnail listed twice. */
  lemma PutFailureListsThumbnailTwice(b: Broadcast, url: string)
    requires '/' in url && IsThumbnail(FileName(url))
    ensures var r := UploadWithRetry(Some(b), url, true, [UploadIO(true, false, true), UploadIO(true, true, true)]);
            && r.Success? && r.value.0.completed && r.value.1 == 2
            && r.value.0.cache.value.thumbnails == Some(b.thumbnails.GetOr([]) + [FileName(url), FileName(url)])
  {
    var ios := [UploadIO(true, false, true), UploadIO(true, true, true)];
    var name := FileName(url);
    var key := BucketKey(url).value;
    RetriedThumbnailNotedPerAttempt(b, key, name, url, true, ios);
    var r := Retried(Some(b), key, name, url, true, ios);
    assert !Completes(ios[0], true) && Completes(ios[1], true);
    assert r.1 == 2;
    assert Repeat(name, 2) == [name, name];
    AddThumbnailsAppends(b, [name, name]);
  }

  /** `setup(with:)` completion: a decoded broadcast replaces the cache, a
      failed request or decode leaves it as it was. */
  function BroadcastFetched(cache: Option<Broadcast>, decoded: Option<Broadcast>): (r: Option<Broadcast>)
    ensures decoded.Some? ==> r == decoded
    ensures decoded.None? ==> r == cache
  {
    if decoded.Some? then decoded else cache
  }
}
