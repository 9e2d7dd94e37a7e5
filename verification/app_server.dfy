/** The server executable's connection handling
    (Sources/pupil/PupilServer.swift): the session map keyed by socket
    descriptor, the greeting, the handshake that reads the broadcast ID,
    one turn of a connection's read loop, and the completion that removes
    a closed session. Binary data goes through `Framing.Read` as written:
    at most one packet per read, and a trap on fewer than four buffered
    bytes (see Findings in the README). The socket reads themselves are the
    `ReadOutcome` values the loop is given. */
module AppServer {
  import opened Common
  import opened Seqs
  import opened Media
  import opened Effects
  import opened SessionCore
  import opened Framing
  import CoreServer
  import CoreCloud

  const HI_RESPONSE: string := "HI\n"
  const GO_RESPONSE: string := "BEGIN\n"

  /** The capacity of the read buffer; one read delivers at most this many
      bytes. */
  const BUFFER_SIZE: nat := 4096

  datatype PupilServer = PupilServer(port: int, root: string, sessions: map<int, PupilSession>)

  /** The greeting and the go-ahead are the library's two text responses. */
  lemma ResponsesAreTheLibrarys()
    ensures HI_RESPONSE == CoreServer.RawResponse(CoreServer.Connect)
    ensures GO_RESPONSE == CoreServer.RawResponse(CoreServer.Begin)
  {
  }

  /** `init(port:root:)`: the root defaults to ".". */
  function NewServer(port: int, root: Option<string>): (srv: PupilServer)
    ensures srv.port == port && srv.sessions == map[]
    ensures srv.root == (if root.Some? then root.value else ".")
  {
    PupilServer(port, root.GetOr("."), map[])
  }

  /** `addNewConnection(socket:)`: a session needs a cloud manager, whose
      initialiser reads the credentials from the environment; with one, the
      session is registered under the socket descriptor and greeted. */
  function AddNewConnection(srv: PupilServer, fd: int, environment: map<string, string>): (r: (PupilServer, seq<Effect>))
    ensures CoreCloud.CloudManagerInit(environment).Failure? ==> r == (srv, [])
    ensures CoreCloud.CloudManagerInit(environment).Success? ==>
      && r.0.sessions == srv.sessions[fd := NewSession(srv.root)]
      && r.0.sessions[fd].state == Starting
      && r.1 == [WriteText(HI_RESPONSE)]
    ensures r.0.port == srv.port && r.0.root == srv.root
  {
    if CoreCloud.CloudManagerInit(environment).Failure? then (srv, [])
    else (srv.(sessions := srv.sessions[fd := NewSession(srv.root)]), [WriteText(HI_RESPONSE)])
  }

  /** `handleText(data:for:)`: the broadcast ID is the text with every
      newline deleted; assigning it makes the session LIVE, then BEGIN is
      written, and a failed write closes the session. Text that is not
      UTF-8 is ignored. */
  function HandleText(env: Env, s: PupilSession, data: seq<uint8>, writeOk: bool): (r: (PupilSession, seq<Effect>))
    ensures env.utf8(data).None? ==> r == (s, [])
    ensures env.utf8(data).Some? ==>
      var text := env.utf8(data).value;
      && r.0.broadcastID == Some(RemoveAll(text, '\n'))
      && '\n' !in r.0.broadcastID.value
      && multiset(r.0.broadcastID.value) == multiset(text)['\n' := 0]
      && ('\n' !in text ==> r.0.broadcastID.value == text)
      && r.0.media == s.media.(thumbnailer := true)
      && r.0.buffer == s.buffer
    ensures env.utf8(data).Some? ==>
      var id := r.0.broadcastID.value;
      && |r.1| >= 4
      && r.1[..4] == [FetchBroadcast(id), PushStatus(id, "LIVE"), CreateThumbnailer(OutputDir(s.root, id)), WriteText(GO_RESPONSE)]
    ensures env.utf8(data).Some? && writeOk ==> r.0.state == Streaming && |r.1| == 4
    ensures env.utf8(data).Some? && !writeOk ==>
      && r.0.state == Done
      && r.0.onUploaded == Some(NoAction)
      && |r.1| >= 5 && r.1[4] == CloseSocket
      && r.1[|r.1| - 1] == PushStatus(r.0.broadcastID.value, "DONE")
  {
    match env.utf8(data)
    case None => (s, [])
    case Some(text) =>
      var id := RemoveAll(text, '\n');
      var (s1, e1) := AssignBroadcastID(s, id);
      if writeOk then (s1, e1 + [WriteText(GO_RESPONSE)])
      else
        var (s2, e2) := Close(s1, NoAction);
        (s2, e1 + [WriteText(GO_RESPONSE)] + e2)
  }

  lemma RemoveNewlinesOfTwoLines(x: string, y: string)
    requires '\n' !in x && '\n' !in y
    ensures RemoveAll(x + "\n" + y + "\n", '\n') == x + y
  {
    var nl: string := "\n";
    assert RemoveAll(nl, '\n') == [];
    RemoveAllAppend(x, nl, '\n');
    RemoveAllAppend(x + nl, y, '\n');
    RemoveAllAppend(x + nl + y, nl, '\n');
  }

  /** Not only a trailing newline goes: one between two parts of the line
      goes too, and the ID is the parts joined. */
  lemma InnerNewlinesDeleted(env: Env, s: PupilSession, data: seq<uint8>, x: string, y: string)
    requires '\n' !in x && '\n' !in y
    requires env.utf8(data) == Some(x + "\n" + y + "\n")
    ensures HandleText(env, s, data, true).0.broadcastID == Some(x + y)
  {
    RemoveNewlinesOfTwoLines(x, y);
  }

  /** What one socket read returned: bytes (possibly none, at end of
      stream), or an error. */
  datatype ReadOutcome = Received(bytes: seq<uint8>) | ReadFailed

  /** The `repeat … while shouldKeepRunning` condition: only a read that
      delivered bytes keeps the loop going. */
  predicate KeepReading(o: ReadOutcome)
  {
    o.Received? && |o.bytes| > 0
  }

  /** One turn of the read loop of the connection `fd`. A read error leaves
      the loop without closing; an empty read closes the session with the
      completion that removes it from the map; otherwise the session's state
      decides where the bytes go. */
  function ReadLoopStep(env: Env, srv: PupilServer, fd: int, o: ReadOutcome, writeOk: bool): (r: Step<PupilServer>)
    requires fd in srv.sessions
    ensures o.ReadFailed? ==> r == Ok(srv, [])
    ensures r.Ok? ==> r.state.sessions.Keys == srv.sessions.Keys
    ensures r.Ok? ==> forall k :: k in srv.sessions && k != fd ==> r.state.sessions[k] == srv.sessions[k]
    ensures r.Ok? ==> r.state.port == srv.port && r.state.root == srv.root
    ensures o.Received? && |o.bytes| == 0 ==>
      && r.Ok?
      && r.state.sessions[fd].state == Done
      && r.state.sessions[fd].onUploaded == Some(RemoveFromServer)
      && |r.effects| >= 1 && r.effects[0] == CloseSocket
    // in full: the session is closed by `Close`, nothing else about it changes
    ensures o.Received? && |o.bytes| == 0 ==>
      var (closed, e) := Close(srv.sessions[fd], RemoveFromServer);
      r == Ok(srv.(sessions := srv.sessions[fd := closed]), e)
    ensures KeepReading(o) && srv.sessions[fd].state == Starting ==>
      && r.Ok?
      && r.state.sessions[fd] == HandleText(env, srv.sessions[fd], o.bytes, writeOk).0
      && r.effects == HandleText(env, srv.sessions[fd], o.bytes, writeOk).1
    ensures KeepReading(o) && srv.sessions[fd].state == Streaming ==>
      && (r.Crash? <==> Read(env, srv.sessions[fd], o.bytes).Crash?)
      && (r.Crash? ==> r.trap == Read(env, srv.sessions[fd], o.bytes).trap)
      && (r.Ok? ==> r.state.sessions[fd] == Read(env, srv.sessions[fd], o.bytes).state)
      && (r.Ok? ==> r.effects == Read(env, srv.sessions[fd], o.bytes).effects)
      && (r.Ok? ==> r.state.sessions[fd].state == Streaming)
    ensures KeepReading(o) && srv.sessions[fd].state == Done ==> r == Ok(srv, [])
  {
    match o
    case ReadFailed => Ok(srv, [])
    case Received(bytes) =>
      var s := srv.sessions[fd];
      if |bytes| == 0 then
        var (s1, e) := Close(s, RemoveFromServer);
        Ok(srv.(sessions := srv.sessions[fd := s1]), e)
      else
        match s.state
        case Starting =>
          var (s1, e) := HandleText(env, s, bytes, writeOk);
          Ok(srv.(sessions := srv.sessions[fd := s1]), e)
        case Streaming =>
          (match Read(env, s, bytes)
           case Crash(t) => Crash(t)
           case Ok(s1, e) => Ok(srv.(sessions := srv.sessions[fd := s1]), e))
        case Done => Ok(srv, [])
  }

  /** The stored completion runs after each finished upload: it removes the
      session only when it was stored by an end-of-stream close. */
  function UploadFinished(srv: PupilServer, fd: int): (r: PupilServer)
    ensures fd in srv.sessions && srv.sessions[fd].onUploaded == Some(RemoveFromServer) ==>
      r == srv.(sessions := srv.sessions - {fd})
    ensures !(fd in srv.sessions && srv.sessions[fd].onUploaded == Some(RemoveFromServer)) ==> r == srv
    ensures fd !in r.sessions || r == srv
  {
    if fd in srv.sessions && srv.sessions[fd].onUploaded == Some(RemoveFromServer) then
      srv.(sessions := srv.sessions - {fd})
    else srv
  }

  /** A connection that reaches the end of its stream stays registered
      until an upload finishes; the next finished upload removes it and no
      other session. */
  lemma RemovedOnlyAfterUpload(env: Env, srv: PupilServer, fd: int)
    requires fd in srv.sessions
    ensures var r := ReadLoopStep(env, srv, fd, Received([]), true);
            && r.Ok? && fd in r.state.sessions
            && fd !in UploadFinished(r.state, fd).sessions
            && UploadFinished(r.state, fd).sessions.Keys == srv.sessions.Keys - {fd}
  {
  }

  /** A failed BEGIN write closes the session with a completion that does
      nothing, so it is never removed from the map. */
  lemma FailedGreetingNeverRemoved(env: Env, srv: PupilServer, fd: int, data: seq<uint8>)
    requires fd in srv.sessions && srv.sessions[fd].state == Starting
    requires |data| > 0 && env.utf8(data).Some?
    ensures var r := ReadLoopStep(env, srv, fd, Received(data), false);
            && r.Ok? && r.state.sessions[fd].state == Done
            && UploadFinished(r.state, fd) == r.state
  {
  }

  /** The handshake: a new connection is greeted, the broadcast ID line
      makes its session LIVE with a thumbnailer under root/ID, and BEGIN is
      the last thing written. */
  lemma Handshake(env: Env, port: int, fd: int, environment: map<string, string>, data: seq<uint8>, id: string)
    requires CoreCloud.CloudManagerInit(environment).Success?
    requires |data| > 0 && env.utf8(data) == Some(id + "\n") && '\n' !in id
    ensures var (srv, greeting) := AddNewConnection(NewServer(port, None), fd, environment);
            var r := ReadLoopStep(env, srv, fd, Received(data), true);
            && greeting == [WriteText(HI_RESPONSE)]
            && r.Ok?
            && r.state.sessions[fd].state == Streaming
            && r.state.sessions[fd].broadcastID == Some(id)
            && r.effects == [FetchBroadcast(id), PushStatus(id, "LIVE"), CreateThumbnailer(OutputDir(".", id)), WriteText(GO_RESPONSE)]
  {
    RemoveAllAppend(id, "\n", '\n');
    assert RemoveAll("\n", '\n') == [];
    assert RemoveAll(id + "\n", '\n') == id;
  }

  /** A trailing newline does not change the outcome of the handshake: the
      ID is the same whether or not the client ends its line. */
  lemma TrailingNewlineIgnored(env: Env, s: PupilSession, d1: seq<uint8>, d2: seq<uint8>, text: string, writeOk: bool)
    requires env.utf8(d1) == Some(text) && env.utf8(d2) == Some(text + "\n")
    ensures HandleText(env, s, d1, writeOk) == HandleText(env, s, d2, writeOk)
  {
    RemoveAllAppend(text, "\n", '\n');
    assert RemoveAll("\n", '\n') == [];
    assert RemoveAll(text + "\n", '\n') == RemoveAll(text, '\n');
  }

  /** A LIVE connection whose buffer is empty and whose read brings fewer
      than four bytes stops the server process (see Findings). */
  lemma StreamingShortReadTraps(env: Env, srv: PupilServer, fd: int, bytes: seq<uint8>)
    requires fd in srv.sessions && srv.sessions[fd].state == Streaming
    requires srv.sessions[fd].buffer == [] && 0 < |bytes| < 4
    ensures ReadLoopStep(env, srv, fd, Received(bytes), true) == Crash(HeaderOutOfRange)
  {
    ReadTrapsOnShortHeader(env, srv.sessions[fd], bytes);
  }

  /** Once LIVE, a read that holds one whole packet and nothing more leaves
      the session's buffer empty. */
  lemma StreamingReadDrains(env: Env, srv: PupilServer, fd: int, packet: seq<uint8>)
    requires fd in srv.sessions && srv.sessions[fd].state == Streaming
    requires |srv.sessions[fd].buffer| == 0
    requires |packet| >= 5 && LengthPrefix(env, packet) == Some(|packet|)
    ensures var r := ReadLoopStep(env, srv, fd, Received(packet), true);
            r.Ok? ==> r.state.sessions[fd].buffer == []
  {
    var s := srv.sessions[fd];
    assert s.buffer + packet == packet;
    assert DecodeOne(env, packet).Packet?;
    assert packet[|packet|..] == [];
  }

  /** Once LIVE, a read holding exactly one packet with the sixth sync
      frame since the last sample reaches the thumbnailer: the parameter
      sets are its first effect and the counter starts again. */
  lemma StreamingKeyframeReachesThumbnailer(env: Env, srv: PupilServer, fd: int, packet: seq<uint8>)
    requires fd in srv.sessions && srv.sessions[fd].state == Streaming
    requires |srv.sessions[fd].buffer| == 0
    requires |packet| >= 5 && LengthPrefix(env, packet) == Some(|packet|)
    requires Classify(env, packet[4]) == VideoPacket && env.videoSampleOf(packet[4..]).isSync
    requires var m := srv.sessions[fd].media;
             HasParameterSets(m) && m.keyframeCount == KEYFRAME_INTERVAL && m.thumbnailer
    ensures var r := ReadLoopStep(env, srv, fd, Received(packet), true);
            var ps := srv.sessions[fd].media.params.value;
            r.Ok? ==>
              && |ps[0]| > 0 && |ps[|ps| - 1]| > 0
              && |r.effects| >= 1 && r.effects[0] == SetParameterSets(ps[0][1..], ps[|ps| - 1][1..])
              && r.state.sessions[fd].media.keyframeCount == 0
  {
    var s := srv.sessions[fd];
    var p := packet[4..];
    assert s.buffer + packet == packet;
    assert DecodeOne(env, packet) == Packet(p, |packet|);
    var d := Dispatch(env, s.root, s.broadcastID, s.media, p);
    SampledKeyframeDispatched(env, s.root, s.broadcastID, s.media, p);
    var r := ReadLoopStep(env, srv, fd, Received(packet), true);
    if r.Ok? {
      assert d.Ok? && Read(env, s, packet) == Ok(s.(buffer := packet[|packet|..], media := d.state), d.effects);
      assert r.effects == d.effects && r.state.sessions[fd].media == d.state;
    }
  }
}
