/** The library's server object and session type
    (Sources/pupilCore/Server.swift, Sources/pupilCore/Session.swift): the
    text responses of the handshake, the root default, the live-session list
    kept by `connected`/`disconnected`, and session equality by hash value.
    Sockets, the accept loop and the lock queue are not modelled; a session
    is its client's socket descriptor and its mode. */
module CoreServer {
  import opened Common

  // ---------------------------------------------------------------------
  // Sessions

  datatype SessionMode = TextMode | StreamingMode

  datatype Client = Client(socketfd: int)

  datatype PSession = PSession(client: Option<Client>, mode: SessionMode)

  /** `hashValue`: the client's socket descriptor, or -1 without a client. */
  function HashValue(s: PSession): int
  {
    match s.client
    case Some(c) => c.socketfd
    case None => -1
  }

  /** The `==` on sessions: equal hash values. */
  predicate SameSession(a: PSession, b: PSession)
  {
    HashValue(a) == HashValue(b)
  }

  /** `init(socket:delegate:)`: a session over a new client starts in text
      mode and hashes to the client's descriptor. */
  function NewSession(socketfd: int): (s: PSession)
    ensures s.mode == TextMode
    ensures HashValue(s) == socketfd
    ensures forall other: PSession :: SameSession(s, other) <==> HashValue(other) == socketfd
  {
    PSession(Some(Client(socketfd)), TextMode)
  }

  /** Session `==` is an equivalence relation. */
  lemma SameSessionIsEquivalence(a: PSession, b: PSession, c: PSession)
    ensures SameSession(a, a)
    ensures SameSession(a, b) ==> SameSession(b, a)
    ensures SameSession(a, b) && SameSession(b, c) ==> SameSession(a, c)
  {
  }

  /** Two sessions with clients are equal exactly when they share a socket
      descriptor, whatever their modes; two sessions without a client are
      always equal; and a session without a client equals one whose
      descriptor is -1. */
  lemma SameSessionByDescriptor(a: PSession, b: PSession)
    ensures a.client.Some? && b.client.Some? ==>
      (SameSession(a, b) <==> a.client.value.socketfd == b.client.value.socketfd)
    ensures a.client.None? && b.client.None? ==> SameSession(a, b)
    ensures a.client.None? && b.client == Some(Client(-1)) ==> SameSession(a, b)
    ensures a.client.None? && b.client.Some? && b.client.value.socketfd >= 0 ==> !SameSession(a, b)
  {
  }

  // ---------------------------------------------------------------------
  // Text responses

  datatype ServerTextResponse = Connect | Begin

  /** The raw values of the responses. */
  function RawResponse(r: ServerTextResponse): (text: string)
    ensures r == Connect ==> text == "HI\n"
    ensures r == Begin ==> text == "BEGIN\n"
  {
    match r
    case Connect => "HI\n"
    case Begin => "BEGIN\n"
  }

  /** The two responses are told apart by their text, and both end the
      line. */
  lemma ResponsesDistinct(a: ServerTextResponse, b: ServerTextResponse)
    ensures RawResponse(a) == RawResponse(b) <==> a == b
    ensures |RawResponse(a)| > 0 && RawResponse(a)[|RawResponse(a)| - 1] == '\n'
  {
    if a != b {
      assert |RawResponse(a)| != |RawResponse(b)|;
    }
  }

  // ---------------------------------------------------------------------
  // The server's session list

  datatype Server = Server(port: int, root: string, sessions: seq<PSession>)

  /** `init(port:root:)`: the given root, or the current directory. */
  function Init(port: int, root: Option<string>, cwd: string): (srv: Server)
    ensures srv.port == port && srv.sessions == []
    ensures root.Some? ==> srv.root == root.value
    ensures root.None? ==> srv.root == cwd
  {
    Server(port, root.GetOr(cwd), [])
  }

  /** `connected(_:)`: the session goes to the end of the list. */
  function Connected(srv: Server, s: PSession): (r: Server)
    ensures |r.sessions| == |srv.sessions| + 1 && r.sessions[|srv.sessions|] == s
    ensures r.sessions[..|srv.sessions|] == srv.sessions
    ensures r.port == srv.port && r.root == srv.root
  {
    srv.(sessions := srv.sessions + [s])
  }

  /** `index(where: { $0 == session })`: the position of the first equal
      session, or the length of the list when there is none. */
  function IndexWhere(sessions: seq<PSession>, s: PSession): (k: nat)
    ensures k <= |sessions|
    ensures k < |sessions| ==> SameSession(sessions[k], s)
    ensures forall j :: 0 <= j < k ==> !SameSession(sessions[j], s)
  {
    if |sessions| == 0 then 0
    else if SameSession(sessions[0], s) then 0
    else 1 + IndexWhere(sessions[1..], s)
  }

  /** The list without its element at `k`, the others in order. */
  function RemoveAt(sessions: seq<PSession>, k: nat): (r: seq<PSession>)
    requires k < |sessions|
    ensures |r| == |sessions| - 1
    ensures forall i :: 0 <= i < k ==> r[i] == sessions[i]
    ensures forall i :: k <= i < |r| ==> r[i] == sessions[i + 1]
  {
    sessions[..k] + sessions[k + 1..]
  }

  /** Removing one element keeps every element that differs from it. */
  lemma RemoveAtKeepsOthers(sessions: seq<PSession>, k: nat, x: PSession)
    requires k < |sessions| && x in sessions && x != sessions[k]
    ensures x in RemoveAt(sessions, k)
  {
    var r := RemoveAt(sessions, k);
    var i :| 0 <= i < |sessions| && sessions[i] == x;
    if i < k {
      assert r[i] == x;
    } else {
      assert r[i - 1] == sessions[i];
    }
  }

  /** `disconnected(session:)`: remove the first equal session, if any. */
  function Disconnected(srv: Server, s: PSession): (r: Server)
    ensures r.port == srv.port && r.root == srv.root
    ensures (forall i :: 0 <= i < |srv.sessions| ==> !SameSession(srv.sessions[i], s)) ==> r == srv
    ensures (exists i :: 0 <= i < |srv.sessions| && SameSession(srv.sessions[i], s)) ==>
      |r.sessions| == |srv.sessions| - 1
    ensures var k := IndexWhere(srv.sessions, s);
      && (forall i :: 0 <= i < k && i < |r.sessions| ==> r.sessions[i] == srv.sessions[i])
      && (forall i :: k <= i < |r.sessions| ==> r.sessions[i] == srv.sessions[i + 1])
    ensures forall x :: x in srv.sessions && !SameSession(x, s) ==> x in r.sessions
  {
    var k := IndexWhere(srv.sessions, s);
    if k == |srv.sessions| then srv
    else
      var rest := RemoveAt(srv.sessions, k);
      assert forall x :: x in srv.sessions && !SameSession(x, s) ==> x in rest by {
        forall x | x in srv.sessions && !SameSession(x, s) ensures x in rest {
          RemoveAtKeepsOthers(srv.sessions, k, x);
        }
      }
      srv.(sessions := rest)
  }

  /** Disconnecting a session that was just connected, when no equal one
      was there before, restores the list. */
  lemma ConnectThenDisconnect(srv: Server, s: PSession)
    requires forall i :: 0 <= i < |srv.sessions| ==> !SameSession(srv.sessions[i], s)
    ensures Disconnected(Connected(srv, s), s) == srv
  {
    var c := Connected(srv, s);
    var k := IndexWhere(c.sessions, s);
    assert c.sessions[|srv.sessions|] == s;
    assert k == |srv.sessions|;
    assert c.sessions[..k] == srv.sessions;
  }

  /** Only the first of several equal sessions goes: the others stay, so a
      later `disconnected` for the same hash removes the next one. */
  lemma DisconnectRemovesOnlyFirst(srv: Server, s: PSession, i: nat, j: nat)
    requires i < j < |srv.sessions|
    requires SameSession(srv.sessions[i], s) && SameSession(srv.sessions[j], s)
    ensures |Disconnected(srv, s).sessions| == |srv.sessions| - 1
    ensures exists j' :: 0 <= j' < |Disconnected(srv, s).sessions| && SameSession(Disconnected(srv, s).sessions[j'], s)
  {
    var k := IndexWhere(srv.sessions, s);
    var r := Disconnected(srv, s);
    assert k <= i;
    assert r.sessions[j - 1] == srv.sessions[j];
  }

  /** A client connects to a fresh server and leaves: one session while
      connected, none after. */
  lemma ConnectAndLeave(port: int, cwd: string, fd: int)
    ensures var srv := Connected(Init(port, None, cwd), NewSession(fd));
            && |srv.sessions| == 1
            && |Disconnected(srv, NewSession(fd)).sessions| == 0
  {
    var srv := Connected(Init(port, None, cwd), NewSession(fd));
    assert SameSession(srv.sessions[0], NewSession(fd));
  }
}
