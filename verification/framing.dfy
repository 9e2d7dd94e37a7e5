/** The framing of the binary part of the protocol: `read(bytes:)` of
    Sources/pupilCore/PupilSession.swift, as written (`Read`), which the
    server model uses, and the intended decoder loop (`Ingest`, see Findings
    in the README). A packet is `[4-byte length][type byte][payload]` where, in the
    code, the length counts the whole packet including its own four bytes. */
module Framing {
  import opened Common
  import opened Seqs
  import opened Media
  import opened Effects
  import opened SessionCore

  /** What the front of a buffer holds. */
  datatype Decoded =
    | NeedMore                                  // no complete packet yet
    | Malformed                                 // a complete "packet" shorter than five bytes
    | Packet(payload: seq<uint8>, length: nat)  // type byte + payload, and the bytes to drop

  /** The length prefix of `buf`, when four bytes are there and decode. */
  function LengthPrefix(env: Env, buf: seq<uint8>): Option<nat>
  {
    if |buf| < 4 then None
    else match env.lengthOf(buf[..4])
      case None => None
      case Some(len) => Some(len as nat)
  }

  /** One decoding attempt at the front of the buffer. */
  function DecodeOne(env: Env, buf: seq<uint8>): (d: Decoded)
    ensures d.Packet? ==> 5 <= d.length <= |buf| && d.payload == buf[4..d.length]
    ensures d.NeedMore? <==> LengthPrefix(env, buf).None? || LengthPrefix(env, buf).value > |buf|
    ensures d.Packet? ==> LengthPrefix(env, buf) == Some(d.length)
    ensures d.Malformed? <==> LengthPrefix(env, buf).Some? && LengthPrefix(env, buf).value <= |buf| && LengthPrefix(env, buf).value < 5
  {
    match LengthPrefix(env, buf)
    case None => NeedMore
    case Some(len) =>
      if len > |buf| then NeedMore
      else if len < 5 then Malformed
      else Packet(buf[4..len], len)
  }

  /** A decision already taken on a buffer is not changed by bytes that
      arrive later: the prefix and the packet it delimits are all there. */
  lemma DecodeOneStable(env: Env, buf: seq<uint8>, more: seq<uint8>)
    requires !DecodeOne(env, buf).NeedMore?
    ensures DecodeOne(env, buf + more) == DecodeOne(env, buf)
  {
    assert (buf + more)[..4] == buf[..4];
    if DecodeOne(env, buf).Packet? {
      var len := DecodeOne(env, buf).length;
      assert (buf + more)[4..len] == buf[4..len];
    }
  }

  // ---------------------------------------------------------------------
  // As written

  /** `read(bytes:)` as the code does it: append, then look at the front
      once. Fewer than four buffered bytes trap at `buffer[0..<4]`; a
      length below five traps at `packet[4]`; otherwise at most ONE packet
      is dispatched and exactly `length` bytes leave the buffer. */
  function Read(env: Env, s: PupilSession, bytes: seq<uint8>): (r: Step<PupilSession>)
    ensures |bytes| == 0 ==> r == Ok(s, [])
    ensures |bytes| > 0 && |s.buffer + bytes| < 4 ==> r == Crash(HeaderOutOfRange)
    ensures |bytes| > 0 && |s.buffer + bytes| >= 4 ==>
      var buf := s.buffer + bytes;
      match DecodeOne(env, buf)
      case NeedMore => r == Ok(s.(buffer := buf), [])
      case Malformed => r == Crash(PacketTooShort)
      case Packet(p, len) =>
        match Dispatch(env, s.root, s.broadcastID, s.media, p)
        case Crash(t) => r == Crash(t)
        case Ok(m, e) => r == Ok(s.(buffer := buf[len..], media := m), e)
  {
    if |bytes| == 0 then Ok(s, [])
    else
      var buf := s.buffer + bytes;
      if |buf| < 4 then Crash(HeaderOutOfRange)
      else
        match env.lengthOf(buf[..4])
        case None => Ok(s.(buffer := buf), [])
        case Some(length) =>
          if length as int > |buf| then Ok(s.(buffer := buf), [])
          else if length < 5 then Crash(PacketTooShort)
          else
            var packet := buf[4..length];
            match Dispatch(env, s.root, s.broadcastID, s.media, packet)
            case Crash(t) => Crash(t)
            case Ok(m, e) => Ok(s.(buffer := buf[length..], media := m), e)
  }

  /** The first bytes of a stream, fewer than four of them, stop the process
      instead of waiting for the rest of the length prefix. */
  lemma ReadTrapsOnShortHeader(env: Env, s: PupilSession, bytes: seq<uint8>)
    requires s.buffer == [] && 0 < |bytes| < 4
    ensures Read(env, s, bytes) == Crash(HeaderOutOfRange)
  {
  }

  /** When one read brings two complete packets, `Read` dispatches the first
      and leaves the second complete packet in the buffer, undispatched,
      until more bytes arrive. */
  lemma ReadLeavesCompletePacket(env: Env, s: PupilSession, bytes: seq<uint8>)
    requires |bytes| > 0
    requires DecodeOne(env, s.buffer + bytes).Packet?
    requires DecodeOne(env, (s.buffer + bytes)[DecodeOne(env, s.buffer + bytes).length..]).Packet?
    requires Read(env, s, bytes).Ok?
    ensures DecodeOne(env, Read(env, s, bytes).state.buffer).Packet?
  {
  }

  // ---------------------------------------------------------------------
  // Corrected: dispatch every complete packet, wait for an incomplete one

  /** `a` is what is left of `b` after dropping some bytes from its front. */
  predicate IsSuffix(a: seq<uint8>, b: seq<uint8>)
  {
    |a| <= |b| && a == b[|b| - |a|..]
  }

  /** What the decoder loop does with one packet (type byte and payload):
      given the session's root, broadcast ID and media state, the new media
      state and the effects, or a trap. The framing below is
      proved for every handler; the session's own is `Dispatcher`. */
  type Handler = (string, Option<string>, MediaState, seq<uint8>) -> Step<MediaState>

  /** The session's handler: `Dispatch` on the session's root, broadcast ID
      and media state. A payload is never empty (a packet has at least five
      bytes), so the first branch is never taken by the loop. */
  function Dispatcher(env: Env): Handler
  {
    (root: string, id: Option<string>, m: MediaState, p: seq<uint8>) =>
      if |p| == 0 then Ok(m, []) else Dispatch(env, root, id, m, p)
  }

  /** Effects `e` happened before the step `r`. */
  function Prepend(e: seq<Effect>, r: Step<PupilSession>): (q: Step<PupilSession>)
    ensures q.Ok? <==> r.Ok?
    ensures q.Ok? ==> q.state == r.state && q.effects == e + r.effects
    ensures q.Crash? ==> q.trap == r.trap
  {
    match r
    case Crash(t) => Crash(t)
    case Ok(s2, e2) => Ok(s2, e + e2)
  }

  /** Dispatch packets from the front until the buffer holds no complete
      packet. */
  function DrainBy(env: Env, h: Handler, s: PupilSession): (r: Step<PupilSession>)
    ensures r.Ok? ==> DecodeOne(env, r.state.buffer).NeedMore?
    ensures r.Ok? ==> IsSuffix(r.state.buffer, s.buffer)
    ensures r.Ok? ==> r.state.(buffer := s.buffer, media := s.media) == s
    decreases |s.buffer|
  {
    match DecodeOne(env, s.buffer)
    case NeedMore => Ok(s, [])
    case Malformed => Crash(PacketTooShort)
    case Packet(p, len) =>
      match h(s.root, s.broadcastID, s.media, p)
      case Crash(t) => Crash(t)
      case Ok(m, e1) =>
        var rest := DrainBy(env, h, s.(buffer := s.buffer[len..], media := m));
        assert rest.Ok? ==>
          s.buffer[len..][|s.buffer[len..]| - |rest.state.buffer|..] == s.buffer[|s.buffer| - |rest.state.buffer|..];
        Prepend(e1, rest)
  }

  /** Append, then dispatch every complete packet in arrival order. */
  function IngestBy(env: Env, h: Handler, s: PupilSession, bytes: seq<uint8>): (r: Step<PupilSession>)
    ensures r.Ok? ==> DecodeOne(env, r.state.buffer).NeedMore?
    ensures r.Ok? ==> r.state.(buffer := s.buffer, media := s.media) == s
    ensures r.Ok? ==> IsSuffix(r.state.buffer, s.buffer + bytes)
  {
    DrainBy(env, h, s.(buffer := s.buffer + bytes))
  }

  /** `read(bytes:)` as intended, with the session's own dispatch. */
  function Ingest(env: Env, s: PupilSession, bytes: seq<uint8>): (r: Step<PupilSession>)
    ensures r.Ok? ==> DecodeOne(env, r.state.buffer).NeedMore?
    ensures r.Ok? ==> r.state.(buffer := s.buffer, media := s.media) == s
    ensures r.Ok? ==> IsSuffix(r.state.buffer, s.buffer + bytes)
  {
    IngestBy(env, Dispatcher(env), s, bytes)
  }

  /** A short first read only waits for the rest of the prefix. */
  lemma IngestWaitsOnShortHeader(env: Env, s: PupilSession, bytes: seq<uint8>)
    requires |s.buffer + bytes| < 4
    ensures Ingest(env, s, bytes) == Ok(s.(buffer := s.buffer + bytes), [])
  {
  }

  /** A buffer left by `Ingest` holds no complete packet. */
  predicate Drained(env: Env, s: PupilSession)
  {
    DecodeOne(env, s.buffer).NeedMore?
  }

  /** Continue a step with a further read. */
  function IngestAfter(env: Env, h: Handler, r: Step<PupilSession>, bytes: seq<uint8>): Step<PupilSession>
  {
    match r
    case Crash(t) => Crash(t)
    case Ok(s1, e1) => Prepend(e1, IngestBy(env, h, s1, bytes))
  }

  /** Earlier effects stay in front when a further read follows. */
  lemma IngestAfterPrepend(env: Env, h: Handler, e: seq<Effect>, r: Step<PupilSession>, bytes: seq<uint8>)
    ensures IngestAfter(env, h, Prepend(e, r), bytes) == Prepend(e, IngestAfter(env, h, r, bytes))
  {
    match r
    case Crash(t) =>
    case Ok(s1, e1) =>
      match IngestBy(env, h, s1, bytes)
      case Crash(t) =>
      case Ok(s2, e2) => assert e + (e1 + e2) == (e + e1) + e2;
  }

  /** Appended bytes do not disturb a buffer that waits for more: they are
      simply the next read. */
  lemma DrainAppendWaiting(env: Env, h: Handler, s: PupilSession, b: seq<uint8>)
    requires DecodeOne(env, s.buffer).NeedMore?
    ensures DrainBy(env, h, s.(buffer := s.buffer + b)) == IngestAfter(env, h, DrainBy(env, h, s), b)
  {
    assert DrainBy(env, h, s) == Ok(s, []);
    match IngestBy(env, h, s, b)
    case Crash(t) =>
    case Ok(s2, e2) => assert [] + e2 == e2;
  }

  /** One dispatched packet in front of appended bytes: if the rest of the
      buffer drains the same with or without them, so does the whole. */
  lemma DrainAppendPacket(env: Env, h: Handler, s: PupilSession, b: seq<uint8>, m: MediaState, e1: seq<Effect>)
    requires DecodeOne(env, s.buffer).Packet?
    requires h(s.root, s.broadcastID, s.media, DecodeOne(env, s.buffer).payload) == Ok(m, e1)
    requires var rest := s.(buffer := s.buffer[DecodeOne(env, s.buffer).length..], media := m);
             DrainBy(env, h, rest.(buffer := rest.buffer + b)) == IngestAfter(env, h, DrainBy(env, h, rest), b)
    ensures DrainBy(env, h, s.(buffer := s.buffer + b)) == IngestAfter(env, h, DrainBy(env, h, s), b)
  {
    var buf := s.buffer;
    var len := DecodeOne(env, buf).length;
    var rest := s.(buffer := buf[len..], media := m);
    var whole := s.(buffer := buf + b);
    DecodeOneStable(env, buf, b);
    DropFromAppend(buf, b, len);
    assert whole.(buffer := whole.buffer[len..], media := m) == rest.(buffer := rest.buffer + b);
    calc {
      DrainBy(env, h, whole);
      Prepend(e1, DrainBy(env, h, rest.(buffer := rest.buffer + b)));
      Prepend(e1, IngestAfter(env, h, DrainBy(env, h, rest), b));
      { IngestAfterPrepend(env, h, e1, DrainBy(env, h, rest), b); }
      IngestAfter(env, h, Prepend(e1, DrainBy(env, h, rest)), b);
      IngestAfter(env, h, DrainBy(env, h, s), b);
    }
  }

  /** Bytes appended behind the buffer are only looked at once everything
      in front of them has been dispatched. */
  lemma {:induction false} DrainAppend(env: Env, h: Handler, s: PupilSession, b: seq<uint8>)
    ensures DrainBy(env, h, s.(buffer := s.buffer + b)) == IngestAfter(env, h, DrainBy(env, h, s), b)
    decreases |s.buffer|
  {
    var d := DecodeOne(env, s.buffer);
    if d.NeedMore? {
      DrainAppendWaiting(env, h, s, b);
    } else {
      DecodeOneStable(env, s.buffer, b);
      if d.Packet? {
        match h(s.root, s.broadcastID, s.media, d.payload)
        case Crash(t) =>
        case Ok(m, e1) =>
          DrainAppend(env, h, s.(buffer := s.buffer[d.length..], media := m), b);
          DrainAppendPacket(env, h, s, b, m, e1);
      }
    }
  }

  /** Two reads of `a` then `b` do what one read of `a + b` does. */
  lemma IngestSplit(env: Env, h: Handler, s: PupilSession, a: seq<uint8>, b: seq<uint8>)
    ensures IngestBy(env, h, s, a + b) == IngestAfter(env, h, IngestBy(env, h, s, a), b)
  {
    var s1 := s.(buffer := s.buffer + a);
    var whole := s.(buffer := s.buffer + (a + b));
    AppendAssoc(s.buffer, a, b);
    assert whole == s1.(buffer := s1.buffer + b);
    DrainAppend(env, h, s1, b);
    assert IngestBy(env, h, s, a + b) == DrainBy(env, h, whole);
    assert IngestBy(env, h, s, a) == DrainBy(env, h, s1);
  }

  /** A sequence of reads, one chunk each. */
  function IngestChunks(env: Env, h: Handler, s: PupilSession, chunks: seq<seq<uint8>>): Step<PupilSession>
    decreases |chunks|
  {
    if |chunks| == 0 then Ok(s, [])
    else
      match IngestBy(env, h, s, chunks[0])
      case Crash(t) => Crash(t)
      case Ok(s1, e1) =>
        match IngestChunks(env, h, s1, chunks[1..])
        case Crash(t) => Crash(t)
        case Ok(s2, e2) => Ok(s2, e1 + e2)
  }

  function Concat(chunks: seq<seq<uint8>>): seq<uint8>
  {
    if |chunks| == 0 then [] else chunks[0] + Concat(chunks[1..])
  }

  /** Framing round trip: however the stream is cut into reads (whole, in
      pieces, byte by byte), the same packets are dispatched in the same
      order with the same effects, and the same state results. */
  lemma {:induction false} ChunkingInvariance(env: Env, h: Handler, s: PupilSession, chunks: seq<seq<uint8>>)
    requires Drained(env, s)
    ensures IngestChunks(env, h, s, chunks) == IngestBy(env, h, s, Concat(chunks))
    decreases |chunks|
  {
    if |chunks| == 0 {
      assert s.(buffer := s.buffer + []) == s;
    } else {
      IngestSplit(env, h, s, chunks[0], Concat(chunks[1..]));
      match IngestBy(env, h, s, chunks[0])
      case Crash(t) =>
      case Ok(s1, e1) =>
        ChunkingInvariance(env, h, s1, chunks[1..]);
    }
  }

  /** The same for the session's own dispatch: a stream read in chunks
      does what it does read whole. */
  lemma SessionChunkingInvariance(env: Env, s: PupilSession, chunks: seq<seq<uint8>>)
    requires Drained(env, s)
    ensures IngestChunks(env, Dispatcher(env), s, chunks) == Ingest(env, s, Concat(chunks))
  {
    ChunkingInvariance(env, Dispatcher(env), s, chunks);
  }

  /** Partial-packet safety: all but the last byte of a packet dispatch
      nothing; the last byte dispatches it. */
  lemma PartialPacketWaits(env: Env, h: Handler, s: PupilSession, packet: seq<uint8>)
    requires s.buffer == [] && |packet| >= 5
    requires LengthPrefix(env, packet) == Some(|packet|)
    ensures IngestBy(env, h, s, packet[..|packet| - 1]) == Ok(s.(buffer := packet[..|packet| - 1]), [])
    ensures var front := s.(buffer := packet[..|packet| - 1]);
            IngestBy(env, h, front, [packet[|packet| - 1]]) == IngestBy(env, h, s, packet)
  {
    var front := packet[..|packet| - 1];
    assert s.buffer + front == front;
    assert front[..4] == packet[..4];
    assert DecodeOne(env, front).NeedMore?;
    assert front + [packet[|packet| - 1]] == packet;
    assert s.buffer + packet == packet;
  }

  /** The as-written read and the intended loop agree whenever the read
      completes at most one packet: what the buffer holds behind the first
      packet is still incomplete. */
  lemma ReadAgreesWithIngest(env: Env, s: PupilSession, bytes: seq<uint8>)
    requires |bytes| > 0 && |s.buffer + bytes| >= 4
    requires var buf := s.buffer + bytes;
             DecodeOne(env, buf).Packet? ==> DecodeOne(env, buf[DecodeOne(env, buf).length..]).NeedMore?
    ensures Read(env, s, bytes) == Ingest(env, s, bytes)
  {
    var buf := s.buffer + bytes;
    var d := DecodeOne(env, buf);
    if d.Packet? {
      assert Dispatcher(env)(s.root, s.broadcastID, s.media, d.payload) == Dispatch(env, s.root, s.broadcastID, s.media, d.payload);
      match Dispatch(env, s.root, s.broadcastID, s.media, d.payload)
      case Crash(t) =>
      case Ok(m, e) =>
        var rest := s.(buffer := buf[d.length..], media := m);
        assert DrainBy(env, Dispatcher(env), rest) == Ok(rest, []);
        assert e + [] == e;
    }
  }

  // ---------------------------------------------------------------------
  // The invariant of module SessionCore is kept

  lemma {:induction false} DrainValid(env: Env, s: PupilSession)
    requires Valid(s.media)
    ensures DrainBy(env, Dispatcher(env), s).Ok? ==> Valid(DrainBy(env, Dispatcher(env), s).state.media)
    ensures DrainBy(env, Dispatcher(env), s).Crash? ==> DrainBy(env, Dispatcher(env), s).trap in {PacketTooShort, NaluTooShort}
    decreases |s.buffer|
  {
    match DecodeOne(env, s.buffer)
    case NeedMore =>
    case Malformed =>
    case Packet(p, len) =>
      DispatchValid(env, s.root, s.broadcastID, s.media, p);
      assert Dispatcher(env)(s.root, s.broadcastID, s.media, p) == Dispatch(env, s.root, s.broadcastID, s.media, p);
      match Dispatch(env, s.root, s.broadcastID, s.media, p)
      case Crash(t) =>
      case Ok(m, e1) =>
        DrainValid(env, s.(buffer := s.buffer[len..], media := m));
  }

  lemma ReadValid(env: Env, s: PupilSession, bytes: seq<uint8>)
    requires Valid(s.media)
    ensures Read(env, s, bytes).Ok? ==> Valid(Read(env, s, bytes).state.media)
  {
    var buf := s.buffer + bytes;
    if |bytes| > 0 && |buf| >= 4 && DecodeOne(env, buf).Packet? {
      DispatchValid(env, s.root, s.broadcastID, s.media, DecodeOne(env, buf).payload);
    }
  }
}
