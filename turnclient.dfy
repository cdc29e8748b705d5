/** The relay session client of internal/turnclient/client.go: building the Auth and registration
    payloads, classifying the relay's replies, registering download and upload sessions, and the
    two session handles that carry the file's bytes over the registered connection. */
module TurnClient {
  import opened Wrappers
  import opened Bytes
  import opened Frames
  import Decimal

  /** An error raised by code outside the model: dialling, a source reader, crypto/rand. */
  datatype IoError = IoError(code: nat)

  /** The errors the client reports; the comment on each says the text Go formats for it. */
  datatype Error =
    | CredentialsMissing               // "relay auth: username and secret required"
    | AuthRejected(reason: seq<byte>)  // "relay auth: <reason>"
    | AuthUnexpected(ty: MsgType)      // "relay: unexpected response to auth (type <ty>)"
    | RelayRejected(reason: seq<byte>) // "relay: <reason>"
    | UnexpectedResponse               // "relay: unexpected response"
    | UnexpectedMsgType(ty: MsgType)   // "relay: unexpected msg type <ty>"
    | MissingHost                      // "missing host in <url>"
    | Transport(ce: ConnError)        // the framed channel's own error
    | Io(ie: IoError)                 // an error passed through from outside the model
    | EndOfStream                      // io.EOF

  function Min(a: nat, b: nat): nat
  {
    if a <= b then a else b
  }

  // ---------------------------------------------------------------------------------------------
  // The client and its construction

  const DefaultRelayPort: int := 5349

  /** A relay client. Go never updates a Client after NewClient, so it is a value here.
      The TLS configuration is not part of this model. */
  datatype Client = Client(relayHost: string, relayPort: int, authUsername: seq<byte>, authSecret: seq<byte>)

  /** `NewClient`, given the host and port text that `url.Parse` split out of the relay URL. */
  function NewClient(host: string, port: string, username: seq<byte>, secret: seq<byte>): (r: Result<Client, Error>)
    ensures r.Failure? <==> host == ""
    ensures r.Failure? ==> r.error == MissingHost
    ensures r.Success? ==> r.value.relayHost == host && r.value.authUsername == username && r.value.authSecret == secret
    ensures r.Success? && port == "" ==> r.value.relayPort == DefaultRelayPort
    ensures r.Success? && port != "" ==> r.value.relayPort == Decimal.AtoiValue(port)
  {
    var p := if port != "" then Decimal.AtoiValue(port) else DefaultRelayPort;
    if host == "" then Failure(MissingHost) else Success(Client(host, p, username, secret))
  }

  // ---------------------------------------------------------------------------------------------
  // Session identifiers

  /** `GenerateSessionID`, given what `crypto/rand` produced for its 16-byte buffer. */
  function GenerateSessionID(random: Result<seq<byte>, IoError>): (r: Result<seq<byte>, IoError>)
    requires random.Success? ==> |random.value| == 16
    ensures random.Failure? ==> r == Failure(random.error)
    ensures r.Success? ==> forall i :: 0 <= i < |r.value| ==> IsLowerHexDigit(r.value[i])
    ensures random.Success? ==> r.Success? && |r.value| == 32 && Unhex(r.value) == random.value
  {
    match random
    case Failure(e) => Failure(e)
    case Success(b) => HexRoundTrip(b); Success(Hex(b))
  }

  // ---------------------------------------------------------------------------------------------
  // Authentication

  predicate HasCredentials(c: Client)
  {
    c.authUsername != [] && c.authSecret != []
  }

  /** The Auth payload: the username's length as a big-endian 32-bit value (Go's `uint32`
      conversion keeps the low 32 bits), the username, then the secret. */
  function AuthPayload(username: seq<byte>, secret: seq<byte>): (p: seq<byte>)
    ensures |p| == 4 + |username| + |secret|
    ensures p[4..4 + |username|] == username && p[4 + |username|..] == secret
  {
    Be32(|username| % TwoTo32) + username + secret
  }

  /** How a relay reads an Auth payload back: the first four bytes give the username's length. */
  function ParseAuthPayload(p: seq<byte>): (r: Option<(seq<byte>, seq<byte>)>)
    ensures r.Some? ==> |p| == 4 + |r.value.0| + |r.value.1|
  {
    if |p| < 4 then None
    else
      var n := Be32Value(p);
      if |p| < 4 + n then None else Some((p[4..4 + n], p[4 + n..]))
  }

  lemma AuthPayloadRoundTrip(username: seq<byte>, secret: seq<byte>)
    requires |username| < TwoTo32
    ensures ParseAuthPayload(AuthPayload(username, secret)) == Some((username, secret))
  {
    var p := AuthPayload(username, secret);
    assert |username| % TwoTo32 == |username|;
    assert p == Be32(|username|) + (username + secret);
    Be32RoundTrip(|username|, username + secret);
    assert Be32Value(p) == |username|;
  }

  function AuthFrame(c: Client): Frame
  {
    Frame(Auth, AuthPayload(c.authUsername, c.authSecret))
  }

  /** How `auth` classifies the relay's reply: None means authenticated. */
  function AuthReply(f: Frame): (r: Option<Error>)
    ensures r == None <==> f.ty == AuthOk
    ensures f.ty == Error ==> r == Some(AuthRejected(f.payload))
    ensures f.ty != Error && f.ty != AuthOk ==> r == Some(AuthUnexpected(f.ty))
  {
    if f.ty == Error then Some(AuthRejected(f.payload))
    else if f.ty != AuthOk then Some(AuthUnexpected(f.ty))
    else None
  }

  /** `auth`: refuses to run without both credentials, then writes one Auth frame and reads one reply. */
  method Authenticate(c: Client, conn: Conn) returns (err: Option<Error>)
    modifies conn
    ensures conn.closed == old(conn.closed)
    ensures !HasCredentials(c) ==>
              err == Some(CredentialsMissing) && conn.written == old(conn.written) &&
              conn.incoming == old(conn.incoming) && conn.room == old(conn.room)
    ensures HasCredentials(c) && old(conn.Capacity()) == 0 ==>
              err == Some(Transport(old(conn.WriteError()))) && conn.written == old(conn.written) &&
              conn.incoming == old(conn.incoming) && conn.room == old(conn.room)
    ensures HasCredentials(c) && old(conn.Capacity()) > 0 ==>
              conn.written == old(conn.written) + [AuthFrame(c)] && conn.room == old(conn.room) - 1
    ensures HasCredentials(c) && old(conn.Capacity()) > 0 && old(conn.incoming) == [] ==>
              err == Some(Transport(PeerClosed)) && conn.incoming == []
    ensures HasCredentials(c) && old(conn.Capacity()) > 0 && old(conn.incoming) != [] ==>
              err == AuthReply(old(conn.incoming)[0]) && conn.incoming == old(conn.incoming)[1..]
  {
    if c.authUsername == [] || c.authSecret == [] {
      return Some(CredentialsMissing);
    }
    var werr := conn.WriteFrame(AuthFrame(c));
    if werr.Some? {
      return Some(Transport(werr.value));
    }
    var r := conn.ReadFrame();
    if r.Failure? {
      return Some(Transport(r.error));
    }
    var f := r.value;
    if f.ty == Error {
      return Some(AuthRejected(f.payload));
    }
    if f.ty != AuthOk {
      return Some(AuthUnexpected(f.ty));
    }
    return None;
  }

  // ---------------------------------------------------------------------------------------------
  // Registration

  const SessionIdWidth: nat := 36

  /** The registration payload: the session id truncated or zero-padded to 36 bytes, then the
      filename unchanged. */
  function RegistrationBytes(sessionID: seq<byte>, filename: seq<byte>): (p: seq<byte>)
    ensures |p| == SessionIdWidth + |filename|
    ensures forall i :: 0 <= i < SessionIdWidth ==> p[i] == if i < |sessionID| then sessionID[i] else 0
    ensures p[SessionIdWidth..] == filename
  {
    var id := if |sessionID| > SessionIdWidth then sessionID[..SessionIdWidth] else sessionID;
    id + seq(SessionIdWidth - |id|, _ => 0) + filename
  }

  /** The payload builder shared by RegisterDownload and RegisterUploadStream: truncate, append,
      pad with zero bytes up to 36, append the filename. */
  method BuildRegistrationPayload(sessionID: seq<byte>, filename: seq<byte>) returns (payload: seq<byte>)
    ensures payload == RegistrationBytes(sessionID, filename)
  {
    var id := sessionID;
    if |id| > SessionIdWidth {
      id := id[..SessionIdWidth];
    }
    payload := id;
    while |payload| < SessionIdWidth
      invariant |id| <= |payload| <= SessionIdWidth
      invariant payload[..|id|] == id
      invariant forall i :: |id| <= i < |payload| ==> payload[i] == 0
    {
      payload := payload + [0];
    }
    payload := payload + filename;
    assert payload[..SessionIdWidth] == RegistrationBytes(sessionID, filename)[..SessionIdWidth];
    assert payload[SessionIdWidth..] == RegistrationBytes(sessionID, filename)[SessionIdWidth..];
    assert payload == payload[..SessionIdWidth] + payload[SessionIdWidth..];
    assert RegistrationBytes(sessionID, filename) ==
      RegistrationBytes(sessionID, filename)[..SessionIdWidth] + RegistrationBytes(sessionID, filename)[SessionIdWidth..];
  }

  /** A session id from GenerateSessionID is 32 hex characters, so its registration payload
      carries the id, exactly four zero bytes, then the filename. */
  lemma GeneratedIdPadding(random: seq<byte>, filename: seq<byte>)
    requires |random| == 16
    ensures var id := GenerateSessionID(Success(random)).value;
            var p := RegistrationBytes(id, filename);
            p[..32] == id && p[32..36] == [0, 0, 0, 0] && p[36..] == filename
  {
    var id := GenerateSessionID(Success(random)).value;
    var p := RegistrationBytes(id, filename);
    assert p[32..36] == [p[32], p[33], p[34], p[35]];
  }

  /** How registration classifies the relay's reply: the port on success. */
  function RegisterReply(f: Frame): (r: Result<nat, Error>)
    ensures r.Success? <==> f.ty == PortAlloc && |f.payload| >= 4
    ensures r.Success? ==> r.value == Be32Value(f.payload) && r.value < TwoTo32
    ensures f.ty == Error ==> r == Failure(RelayRejected(f.payload))
    ensures r.Failure? && f.ty != Error ==> r == Failure(UnexpectedResponse)
  {
    if f.ty == Error then Failure(RelayRejected(f.payload))
    else if f.ty != PortAlloc || |f.payload| < 4 then Failure(UnexpectedResponse)
    else Success(Be32Value(f.payload))
  }

  lemma PortAllocRoundTrip(port: nat, extra: seq<byte>)
    requires port < TwoTo32
    ensures RegisterReply(Frame(PortAlloc, Be32(port) + extra)) == Success(port)
  {
    Be32RoundTrip(port, extra);
  }

  /** What a registration on a freshly dialled connection comes to, given the relay's replies in
      order and how many frames the connection accepts: the allocated port, or the first error. */
  function RegistrationOutcome(c: Client, replies: seq<Frame>, room: nat): (r: Result<nat, Error>)
    ensures r.Success? <==>
              HasCredentials(c) && room >= 2 && |replies| >= 2 && replies[0].ty == AuthOk &&
              replies[1].ty == PortAlloc && |replies[1].payload| >= 4
    ensures r.Success? ==> r.value == Be32Value(replies[1].payload)
    ensures !HasCredentials(c) ==> r == Failure(CredentialsMissing)
    ensures HasCredentials(c) && room >= 1 && replies != [] && replies[0].ty == Error ==>
              r == Failure(AuthRejected(replies[0].payload))
    ensures HasCredentials(c) && room >= 2 && |replies| >= 2 && replies[0].ty == AuthOk && replies[1].ty == Error ==>
              r == Failure(RelayRejected(replies[1].payload))
  {
    if !HasCredentials(c) then Failure(CredentialsMissing)
    else if room == 0 then Failure(Transport(WriteRefused))
    else if replies == [] then Failure(Transport(PeerClosed))
    else if AuthReply(replies[0]).Some? then Failure(AuthReply(replies[0]).value)
    else if room == 1 then Failure(Transport(WriteRefused))
    else if |replies| == 1 then Failure(Transport(PeerClosed))
    else RegisterReply(replies[1])
  }

  /** The frames a registration writes before it stops. */
  function RegistrationWrites(c: Client, ty: MsgType, replies: seq<Frame>, room: nat,
                              sessionID: seq<byte>, filename: seq<byte>): (w: seq<Frame>)
    ensures w <= [AuthFrame(c), Frame(ty, RegistrationBytes(sessionID, filename))] && |w| <= room
    ensures RegistrationOutcome(c, replies, room).Success? ==> |w| == 2
    ensures HasCredentials(c) && room > 0 ==> w != []
  {
    if !HasCredentials(c) || room == 0 then []
    else if replies == [] || replies[0].ty != AuthOk || room == 1 then [AuthFrame(c)]
    else [AuthFrame(c), Frame(ty, RegistrationBytes(sessionID, filename))]
  }

  /** The steps RegisterDownload and RegisterUploadStream share: dial, auth, send the registration
      frame `ty`, classify the reply. Dialling is a parameter: it fails with `dialFailure`, or
      yields a fresh open connection on which the relay sends `replies` and accepts `room` frames.
      On every failure after the dial the connection is closed before returning. */
  method Register(c: Client, ty: MsgType, dialFailure: Option<IoError>, replies: seq<Frame>, room: nat,
                  sessionID: seq<byte>, filename: seq<byte>)
    returns (host: string, port: nat, conn: Conn?, err: Option<Error>)
    ensures dialFailure.Some? ==> conn == null && err == Some(Io(dialFailure.value))
    ensures dialFailure.None? ==> conn != null && fresh(conn)
    ensures dialFailure.None? ==> conn.written == RegistrationWrites(c, ty, replies, room, sessionID, filename)
    ensures dialFailure.None? && RegistrationOutcome(c, replies, room).Failure? ==>
              err == Some(RegistrationOutcome(c, replies, room).error)
    ensures err.None? <==> dialFailure.None? && RegistrationOutcome(c, replies, room).Success?
    ensures err.None? ==>
              host == c.relayHost && port == RegistrationOutcome(c, replies, room).value &&
              !conn.closed && conn.incoming == replies[2..] && conn.room == room - 2
    ensures err.Some? ==> host == "" && port == 0 && (conn != null ==> conn.closed)
  {
    host, port := "", 0;
    if dialFailure.Some? {
      return host, port, null, Some(Io(dialFailure.value));
    }
    conn := new Conn(replies, room);
    err := Authenticate(c, conn);
    if err.Some? {
      var _ := conn.Close();
      return;
    }
    var payload := BuildRegistrationPayload(sessionID, filename);
    var werr := conn.WriteFrame(Frame(ty, payload));
    if werr.Some? {
      var _ := conn.Close();
      return host, port, conn, Some(Transport(werr.value));
    }
    var r := conn.ReadFrame();
    if r.Failure? {
      var _ := conn.Close();
      return host, port, conn, Some(Transport(r.error));
    }
    var f := r.value;
    if f.ty == Error {
      var _ := conn.Close();
      return host, port, conn, Some(RelayRejected(f.payload));
    }
    if f.ty != PortAlloc || |f.payload| < 4 {
      var _ := conn.Close();
      return host, port, conn, Some(UnexpectedResponse);
    }
    return c.relayHost, Be32Value(f.payload), conn, None;
  }

  // ---------------------------------------------------------------------------------------------
  // The download session: streaming a source to the relay

  /** SendFile reads into a buffer of this many bytes. */
  const ChunkSize: nat := 32 * 1024

  /** What one `Read` call on the source reports alongside its bytes. */
  datatype ReadStatus = More | AtEof | ReadFailed(e: IoError)

  /** One `Read` call's result: the bytes it returned and its error value. */
  datatype Chunk = Chunk(data: seq<byte>, status: ReadStatus)

  /** The source eventually reports io.EOF or an error (a reader that never does makes Go's loop
      run for ever). */
  predicate Terminates(src: seq<Chunk>)
  {
    |src| > 0 && (src[0].status != More || Terminates(src[1..]))
  }

  /** A source as io.Reader promises it: no call returns more bytes than the buffer holds. */
  predicate ValidSource(src: seq<Chunk>)
  {
    Terminates(src) && forall i :: 0 <= i < |src| ==> |src[i].data| <= ChunkSize
  }

  /** Every byte the source yields, up to and including the call that reports io.EOF or an error. */
  function SourceBytes(src: seq<Chunk>): seq<byte>
  {
    if src == [] then []
    else src[0].data + (if src[0].status == More then SourceBytes(src[1..]) else [])
  }

  /** Whether the source ends with io.EOF rather than an error. */
  predicate EndsAtEof(src: seq<Chunk>)
  {
    src != [] && (if src[0].status == More then EndsAtEof(src[1..]) else src[0].status == AtEof)
  }

  /** The first error the source reports. */
  function SourceError(src: seq<Chunk>): Option<IoError>
  {
    if src == [] then None
    else match src[0].status
      case More => SourceError(src[1..])
      case AtEof => None
      case ReadFailed(e) => Some(e)
  }

  /** `s` limited to a cap of `maxBytes` of which `sent` are used; no cap when `maxBytes <= 0`. */
  function Capped(s: seq<byte>, maxBytes: int, sent: nat): (r: seq<byte>)
    requires maxBytes > 0 ==> sent <= maxBytes
    ensures maxBytes > 0 ==> sent + |r| <= maxBytes
  {
    if maxBytes > 0 && sent + |s| > maxBytes then s[..maxBytes - sent] else s
  }

  const EofFrame: Frame := Frame(EOF, [])

  /** What SendFile means to write: its frames in order, and the source error it ends with. */
  datatype Plan = Plan(frames: seq<Frame>, failure: Option<IoError>)

  /** How many of a chunk's bytes SendFile forwards: all of them, or what is left under the cap. */
  function Take(c: Chunk, maxBytes: int, sent: nat): (n: nat)
    requires maxBytes > 0 ==> sent < maxBytes
    ensures n <= |c.data|
    ensures maxBytes > 0 ==> sent + n <= maxBytes
    ensures n == |c.data| || (maxBytes > 0 && sent + n == maxBytes)
  {
    if maxBytes > 0 && sent + |c.data| > maxBytes then maxBytes - sent else |c.data|
  }

  /** The Data frame SendFile writes for one chunk; none for an empty read. */
  function Emit(c: Chunk, maxBytes: int, sent: nat): seq<Frame>
    requires maxBytes > 0 ==> sent < maxBytes
  {
    if |c.data| > 0 then [Frame(Data, c.data[..Take(c, maxBytes, sent)])] else []
  }

  /** This chunk brings the running total up to the cap. */
  predicate ReachesCap(c: Chunk, maxBytes: int, sent: nat)
    requires maxBytes > 0 ==> sent < maxBytes
  {
    |c.data| > 0 && maxBytes > 0 && sent + Take(c, maxBytes, sent) >= maxBytes
  }

  /** The frames SendFile writes when every write succeeds, from `sent` bytes already sent. */
  function SendPlan(src: seq<Chunk>, maxBytes: int, sent: nat): (p: Plan)
    requires Terminates(src)
    requires maxBytes > 0 ==> sent < maxBytes
    decreases |src|
  {
    var c := src[0];
    var out := Emit(c, maxBytes, sent);
    if ReachesCap(c, maxBytes, sent) || c.status == AtEof then Plan(out + [EofFrame], None)
    else if c.status.ReadFailed? then Plan(out, Some(c.status.e))
    else
      var rest := SendPlan(src[1..], maxBytes, sent + Take(c, maxBytes, sent));
      Plan(out + rest.frames, rest.failure)
  }

  /** Data frames only, each with a non-empty payload of at most one buffer's worth. */
  predicate IsDataRun(fs: seq<Frame>)
  {
    forall i :: 0 <= i < |fs| ==> fs[i].ty == Data && 0 < |fs[i].payload| <= ChunkSize
  }

  /** A successful run: Data frames then one EOF frame, last. A failed run: Data frames only. */
  predicate WellShaped(plan: Plan)
  {
    if plan.failure == None then
      |plan.frames| >= 1 && plan.frames[|plan.frames| - 1] == EofFrame &&
      IsDataRun(plan.frames[..|plan.frames| - 1])
    else IsDataRun(plan.frames)
  }

  /** SendFile writes non-empty Data frames; a run that succeeds ends with exactly one EOF frame,
      after all the Data frames, and one that fails on the source writes no EOF frame. */
  lemma {:induction false} SendPlanShape(src: seq<Chunk>, maxBytes: int, sent: nat)
    requires ValidSource(src)
    requires maxBytes > 0 ==> sent < maxBytes
    ensures WellShaped(SendPlan(src, maxBytes, sent))
  {
    var c := src[0];
    assert |c.data| <= ChunkSize;
    var out := Emit(c, maxBytes, sent);
    assert IsDataRun(out);
    if ReachesCap(c, maxBytes, sent) || c.status == AtEof {
      assert [EofFrame][..0] == [];
      PrependDataRun(out, Plan([EofFrame], None));
    } else if c.status.ReadFailed? {
      PrependDataRun(out, Plan([], Some(c.status.e)));
    } else {
      assert ValidSource(src[1..]) by {
        forall i | 0 <= i < |src[1..]| ensures |src[1..][i].data| <= ChunkSize {
          assert src[1..][i] == src[i + 1];
        }
      }
      var sent' := sent + Take(c, maxBytes, sent);
      SendPlanShape(src[1..], maxBytes, sent');
      PrependDataRun(out, SendPlan(src[1..], maxBytes, sent'));
    }
  }

  lemma PrependDataRun(out: seq<Frame>, rest: Plan)
    requires IsDataRun(out) && WellShaped(rest)
    ensures WellShaped(Plan(out + rest.frames, rest.failure))
  {
    if rest.failure == None {
      var fs := out + rest.frames;
      assert fs[..|fs| - 1] == out + rest.frames[..|rest.frames| - 1];
      DataRunAppend(out, rest.frames[..|rest.frames| - 1]);
    } else {
      DataRunAppend(out, rest.frames);
    }
  }

  lemma DataRunAppend(a: seq<Frame>, b: seq<Frame>)
    requires IsDataRun(a) && IsDataRun(b)
    ensures IsDataRun(a + b)
  {
    forall i | 0 <= i < |a + b| ensures (a + b)[i].ty == Data && 0 < |(a + b)[i].payload| <= ChunkSize {
      if i < |a| {
        assert (a + b)[i] == a[i];
      } else {
        assert (a + b)[i] == b[i - |a|];
      }
    }
  }

  lemma EmitBytes(c: Chunk, maxBytes: int, sent: nat)
    requires maxBytes > 0 ==> sent < maxBytes
    ensures DataConcat(Emit(c, maxBytes, sent)) == c.data[..Take(c, maxBytes, sent)]
    ensures DataConcat(Emit(c, maxBytes, sent) + [EofFrame]) == c.data[..Take(c, maxBytes, sent)]
  {
    var out := Emit(c, maxBytes, sent);
    if |c.data| > 0 {
      assert out[1..] == [];
    }
    assert [EofFrame][1..] == [];
    DataConcatAppend(out, [EofFrame]);
  }

  /** The Data frames carry the source's bytes in order, cut off at the cap: with
      `maxBytes <= 0` all of them, with `maxBytes = M > 0` the first min(L, M). */
  lemma {:induction false} SendPlanBytes(src: seq<Chunk>, maxBytes: int, sent: nat)
    requires Terminates(src)
    requires maxBytes > 0 ==> sent < maxBytes
    ensures DataConcat(SendPlan(src, maxBytes, sent).frames) == Capped(SourceBytes(src), maxBytes, sent)
    decreases |src|, 1
  {
    if ReachesCap(src[0], maxBytes, sent) || src[0].status != More {
      SendPlanBytesLast(src, maxBytes, sent);
    } else {
      SendPlanBytesStep(src, maxBytes, sent);
    }
  }

  /** SendPlanBytes for the chunk that ends the run. */
  lemma SendPlanBytesLast(src: seq<Chunk>, maxBytes: int, sent: nat)
    requires Terminates(src)
    requires maxBytes > 0 ==> sent < maxBytes
    requires ReachesCap(src[0], maxBytes, sent) || src[0].status != More
    ensures DataConcat(SendPlan(src, maxBytes, sent).frames) == Capped(SourceBytes(src), maxBytes, sent)
  {
    var c := src[0];
    var n := Take(c, maxBytes, sent);
    var out := Emit(c, maxBytes, sent);
    var plan := SendPlan(src, maxBytes, sent);
    var tail := if c.status == More then SourceBytes(src[1..]) else [];
    assert SourceBytes(src) == c.data + tail;
    EmitBytes(c, maxBytes, sent);
    if ReachesCap(c, maxBytes, sent) {
      assert plan.frames == out + [EofFrame];
      assert n == maxBytes - sent;
      CappedAtChunk(c.data, tail, maxBytes, sent);
    } else {
      assert n == |c.data| && c.data[..n] == c.data;
      assert SourceBytes(src) == c.data;
      assert plan.frames == out + [EofFrame] || plan.frames == out;
    }
  }

  /** SendPlanBytes for a chunk after which the run goes on. */
  lemma {:induction false} SendPlanBytesStep(src: seq<Chunk>, maxBytes: int, sent: nat)
    requires Terminates(src)
    requires maxBytes > 0 ==> sent < maxBytes
    requires !ReachesCap(src[0], maxBytes, sent) && src[0].status == More
    ensures DataConcat(SendPlan(src, maxBytes, sent).frames) == Capped(SourceBytes(src), maxBytes, sent)
    decreases |src|, 0
  {
    var c := src[0];
    var n := Take(c, maxBytes, sent);
    var out := Emit(c, maxBytes, sent);
    var plan := SendPlan(src, maxBytes, sent);
    var tail := SourceBytes(src[1..]);
    assert SourceBytes(src) == c.data + tail;
    EmitBytes(c, maxBytes, sent);
    assert n == |c.data| && c.data[..n] == c.data;
    var rest := SendPlan(src[1..], maxBytes, sent + n);
    assert plan.frames == out + rest.frames;
    SendPlanBytes(src[1..], maxBytes, sent + n);
    BytesStep(plan.frames, out, rest.frames, c.data, tail, maxBytes, sent, n);
  }

  lemma BytesStep(fs: seq<Frame>, out: seq<Frame>, rest: seq<Frame>, d: seq<byte>, tail: seq<byte>,
                  maxBytes: int, sent: nat, n: nat)
    requires fs == out + rest && n == |d|
    requires maxBytes > 0 ==> sent + n < maxBytes
    requires DataConcat(out) == d
    requires DataConcat(rest) == Capped(tail, maxBytes, sent + n)
    ensures DataConcat(fs) == Capped(d + tail, maxBytes, sent)
  {
    DataConcatAppend(out, rest);
    CappedPastChunk(d, tail, maxBytes, sent);
  }

  lemma CappedAtChunk(d: seq<byte>, tail: seq<byte>, maxBytes: int, sent: nat)
    requires maxBytes > 0 && sent < maxBytes
    requires sent + |d| >= maxBytes
    ensures Capped(d + tail, maxBytes, sent) == d[..maxBytes - sent]
  {
    if sent + |d + tail| > maxBytes {
      assert (d + tail)[..maxBytes - sent] == d[..maxBytes - sent];
    } else {
      assert tail == [];
      assert d + tail == d;
    }
  }

  lemma CappedPastChunk(d: seq<byte>, tail: seq<byte>, maxBytes: int, sent: nat)
    requires maxBytes > 0 ==> sent + |d| < maxBytes
    ensures Capped(d + tail, maxBytes, sent) == d + Capped(tail, maxBytes, sent + |d|)
  {
    if maxBytes > 0 && sent + |d| + |tail| > maxBytes {
      assert (d + tail)[..maxBytes - sent] == d + tail[..maxBytes - sent - |d|];
    }
  }

  /** SendFile fails on the source exactly when the source reports an error before the cap is
      reached; reaching the cap ends the run successfully whatever the source would do next. */
  lemma {:induction false} SendPlanFailure(src: seq<Chunk>, maxBytes: int, sent: nat)
    requires Terminates(src)
    requires maxBytes > 0 ==> sent < maxBytes
    ensures var plan := SendPlan(src, maxBytes, sent);
            (plan.failure == None <==> EndsAtEof(src) || (maxBytes > 0 && sent + |SourceBytes(src)| >= maxBytes)) &&
            (plan.failure != None ==> plan.failure == SourceError(src))
  {
    var c := src[0];
    if !ReachesCap(c, maxBytes, sent) && c.status == More {
      SendPlanFailure(src[1..], maxBytes, sent + Take(c, maxBytes, sent));
    }
  }

  /** The result SendFile reports: a write error once the connection stops accepting frames,
      else the source's error, else success. */
  function SendResult(plan: Plan, capacity: nat, writeError: ConnError): (r: Option<Error>)
    ensures r.None? <==> capacity >= |plan.frames| && plan.failure.None?
    ensures capacity < |plan.frames| ==> r == Some(Transport(writeError))
  {
    if capacity < |plan.frames| then Some(Transport(writeError))
    else if plan.failure.Some? then Some(Io(plan.failure.value))
    else None
  }

  /** The chunk that reaches the cap or reports io.EOF ends the plan with the EOF frame. */
  lemma PlanEnds(s: seq<Chunk>, maxBytes: int, sent: nat)
    requires Terminates(s) && (maxBytes > 0 ==> sent < maxBytes)
    requires ReachesCap(s[0], maxBytes, sent) || s[0].status == AtEof
    ensures SendPlan(s, maxBytes, sent) == Plan(Emit(s[0], maxBytes, sent) + [EofFrame], None)
  {
  }

  /** The chunk that reports an error ends the plan with that error and no EOF frame. */
  lemma PlanFails(s: seq<Chunk>, maxBytes: int, sent: nat)
    requires Terminates(s) && (maxBytes > 0 ==> sent < maxBytes)
    requires !ReachesCap(s[0], maxBytes, sent) && s[0].status.ReadFailed?
    ensures SendPlan(s, maxBytes, sent) == Plan(Emit(s[0], maxBytes, sent), Some(s[0].status.e))
  {
  }

  /** Any other chunk contributes its Data frame and the plan goes on with the next read. */
  lemma PlanContinues(s: seq<Chunk>, maxBytes: int, sent: nat, next: nat)
    requires Terminates(s) && (maxBytes > 0 ==> sent < maxBytes)
    requires !ReachesCap(s[0], maxBytes, sent) && s[0].status == More
    requires next == sent + Take(s[0], maxBytes, sent)
    ensures Terminates(s[1..]) && (maxBytes > 0 ==> next < maxBytes)
    ensures SendPlan(s, maxBytes, sent) ==
            Plan(Emit(s[0], maxBytes, sent) + SendPlan(s[1..], maxBytes, next).frames,
                 SendPlan(s[1..], maxBytes, next).failure)
  {
  }

  /** The plan always begins with what the first chunk emits. */
  lemma PlanStarts(s: seq<Chunk>, maxBytes: int, sent: nat)
    requires Terminates(s) && (maxBytes > 0 ==> sent < maxBytes)
    ensures var out := Emit(s[0], maxBytes, sent);
            |out| <= |SendPlan(s, maxBytes, sent).frames| &&
            SendPlan(s, maxBytes, sent).frames[..|out|] == out
  {
  }

  /** Concatenation regroups. */
  lemma SeqAssoc<T>(a: seq<T>, b: seq<T>, c: seq<T>)
    ensures a + (b + c) == a + b + c
  {
  }

  /** The planned frames a connection that accepts `capacity` more frames receives. */
  function Delivered(plan: Plan, capacity: nat): (fs: seq<Frame>)
    ensures |fs| == Min(|plan.frames|, capacity) && fs <= plan.frames
  {
    plan.frames[..Min(|plan.frames|, capacity)]
  }

  /** SendFile's result when a write fails: the frames before it were written, the rest were not. */
  lemma StoppedWriting(plan: Plan, done: seq<Frame>, more: seq<Frame>, cap: nat, writeError: ConnError)
    requires plan.frames == done + more && more != [] && |done| == cap
    ensures Delivered(plan, cap) == done
    ensures SendResult(plan, cap, writeError) == Some(Transport(writeError))
  {
    assert plan.frames[..|done|] == done;
  }

  /** SendFile's result when every planned frame was written. */
  lemma FinishedWriting(plan: Plan, done: seq<Frame>, cap: nat, writeError: ConnError)
    requires plan.frames == done && |done| <= cap
    ensures Delivered(plan, cap) == done
    ensures SendResult(plan, cap, writeError) == if plan.failure.Some? then Some(Io(plan.failure.value)) else None
  {
    assert plan.frames[..|done|] == done;
  }

  /** How one pass of SendFile's loop ends. */
  datatype Step = Continue | Stop | Failed(err: Error)

  /** What one pass of SendFile's loop does next, given how many frames the connection still
      accepts: fail on a refused write, stop at the cap or at io.EOF, fail on a read error. */
  function ChunkStep(c: Chunk, maxBytes: int, sent: nat, capacity: nat, writeError: ConnError): (r: Step)
    requires maxBytes > 0 ==> sent < maxBytes
    ensures r.Continue? <==>
              capacity >= |Emit(c, maxBytes, sent)| && !ReachesCap(c, maxBytes, sent) && c.status == More
    ensures r.Stop? ==> capacity >= |Emit(c, maxBytes, sent)| && (ReachesCap(c, maxBytes, sent) || c.status == AtEof)
    ensures capacity < |Emit(c, maxBytes, sent)| ==> r == Failed(Transport(writeError))
  {
    if capacity < |Emit(c, maxBytes, sent)| then Failed(Transport(writeError))
    else if ReachesCap(c, maxBytes, sent) || c.status == AtEof then Stop
    else if c.status.ReadFailed? then Failed(Io(c.status.e))
    else Continue
  }

  /** The handle RegisterDownload returns; `conn == null` once it is closed. */
  class DownloadSession {
    var conn: Conn?

    constructor (conn: Conn)
      ensures this.conn == conn
    {
      this.conn := conn;
    }

    /** One pass of SendFile's loop over the result of one read: forward its bytes, cut to what is
        left under the cap, as one Data frame, then stop at the cap, stop at io.EOF, fail on an error
        or go on reading. */
    method SendChunk(chunk: Chunk, maxBytes: int, sent: nat) returns (step: Step, n: nat)
      requires conn != null
      requires maxBytes > 0 ==> sent < maxBytes
      modifies conn
      ensures n == Take(chunk, maxBytes, sent)
      ensures conn.incoming == old(conn.incoming) && conn.closed == old(conn.closed)
      ensures var out := Emit(chunk, maxBytes, sent);
              if |out| <= old(conn.Capacity())
              then conn.written == old(conn.written) + out && conn.room == old(conn.room) - |out|
              else conn.written == old(conn.written) && conn.room == old(conn.room)
      ensures step == ChunkStep(chunk, maxBytes, sent, old(conn.Capacity()), old(conn.WriteError()))
    {
      n := |chunk.data|;
      if n > 0 {
        if maxBytes > 0 && sent + n > maxBytes {
          n := maxBytes - sent;
        }
        var werr := conn.WriteFrame(Frame(Data, chunk.data[..n]));
        if werr.Some? {
          return Failed(Transport(werr.value)), n;
        }
        if maxBytes > 0 && sent + n >= maxBytes {
          return Stop, n;
        }
      }
      if chunk.status == AtEof {
        return Stop, n;
      }
      if chunk.status.ReadFailed? {
        return Failed(Io(chunk.status.e)), n;
      }
      return Continue, n;
    }

    /** `SendFile`: copy the source to the relay as Data frames, at most `maxBytes` bytes when
        `maxBytes > 0`, then one EOF frame. The connection receives the planned frames for as
        long as it accepts them. */
    method SendFile(src: seq<Chunk>, maxBytes: int) returns (err: Option<Error>)
      requires conn != null
      requires Terminates(src)
      modifies conn
      ensures conn.written == old(conn.written) + Delivered(SendPlan(src, maxBytes, 0), old(conn.Capacity()))
      ensures conn.room == old(conn.room) - |Delivered(SendPlan(src, maxBytes, 0), old(conn.Capacity()))|
      ensures err == SendResult(SendPlan(src, maxBytes, 0), old(conn.Capacity()), old(conn.WriteError()))
      ensures conn.incoming == old(conn.incoming) && conn.closed == old(conn.closed)
    {
      ghost var plan := SendPlan(src, maxBytes, 0);
      ghost var cap := conn.Capacity();
      ghost var done: seq<Frame> := [];
      ghost var rest := plan;
      var sent: nat := 0;
      var reader := src;
      while true
        invariant conn != null && Terminates(reader)
        invariant maxBytes > 0 ==> sent < maxBytes
        invariant rest == SendPlan(reader, maxBytes, sent)
        invariant plan.frames == done + rest.frames && plan.failure == rest.failure
        invariant |done| <= cap && conn.Capacity() == cap - |done|
        invariant conn.WriteError() == old(conn.WriteError())
        invariant conn.written == old(conn.written) + done && conn.room == old(conn.room) - |done|
        invariant conn.incoming == old(conn.incoming) && conn.closed == old(conn.closed)
        decreases |reader|
      {
        var chunk := reader[0];
        ghost var out := Emit(chunk, maxBytes, sent);
        ghost var sent0, done0 := sent, done;
        var step, n := SendChunk(chunk, maxBytes, sent);
        if step.Failed? && step.err.Transport? {
          assert conn.written == old(conn.written) + done;
          PlanStarts(reader, maxBytes, sent0);
          StoppedWriting(plan, done, rest.frames, cap, old(conn.WriteError()));
          return Some(step.err);
        }
        done := done + out;
        assert conn.written == old(conn.written) + done by {
          SeqAssoc(old(conn.written), done0, out);
        }
        if step == Stop {
          assert plan.frames == done + [EofFrame] && plan.failure == None by {
            PlanEnds(reader, maxBytes, sent0);
            SeqAssoc(done0, out, [EofFrame]);
          }
          break;
        }
        if step.Failed? {
          assert plan.frames == done && plan.failure == Some(chunk.status.e) by {
            PlanFails(reader, maxBytes, sent0);
          }
          FinishedWriting(plan, done, cap, old(conn.WriteError()));
          return Some(step.err);
        }
        sent := sent + n;
        PlanContinues(reader, maxBytes, sent0, sent);
        reader := reader[1..];
        rest := SendPlan(reader, maxBytes, sent);
        SeqAssoc(done0, out, rest.frames);
      }
      var werr := conn.WriteFrame(EofFrame);
      if werr.Some? {
        assert |done| == cap && conn.written == old(conn.written) + done;
        StoppedWriting(plan, done, [EofFrame], cap, werr.value);
        return Some(Transport(werr.value));
      }
      SeqAssoc(old(conn.written), done, [EofFrame]);
      done := done + [EofFrame];
      assert conn.written == old(conn.written) + done && conn.room == old(conn.room) - |done|;
      FinishedWriting(plan, done, cap, conn.WriteError());
      return None;
    }

    /** `Close`: closes the connection once; a second call does nothing and returns nil. */
    method Close() returns (err: Option<Error>)
      modifies this, conn
      ensures conn == null
      ensures old(conn) == null ==> err == None
      ensures old(conn) != null ==>
                old(conn).closed && old(conn).written == old(conn.written) &&
                old(conn).incoming == old(conn.incoming) && old(conn).room == old(conn.room) &&
                err == if old(conn.closed) then Some(Transport(UseOfClosed)) else None
    {
      if conn != null {
        var cerr := conn.Close();
        conn := null;
        return if cerr.Some? then Some(Transport(cerr.value)) else None;
      }
      return None;
    }
  }

  /** `RegisterDownload`: register a download session and hand back the relay's host, the port it
      allocated and a session that streams the file over the registered connection. Dialling is a
      parameter, as for `Register`. */
  method RegisterDownload(c: Client, dialFailure: Option<IoError>, replies: seq<Frame>, room: nat,
                          sessionID: seq<byte>, filename: seq<byte>)
    returns (host: string, port: nat, sess: DownloadSession?, err: Option<Error>)
    ensures err.None? <==> dialFailure.None? && RegistrationOutcome(c, replies, room).Success?
    ensures dialFailure.Some? ==> err == Some(Io(dialFailure.value))
    ensures dialFailure.None? && RegistrationOutcome(c, replies, room).Failure? ==>
              err == Some(RegistrationOutcome(c, replies, room).error)
    ensures err.Some? ==> host == "" && port == 0 && sess == null
    ensures err.None? ==>
              host == c.relayHost && port == RegistrationOutcome(c, replies, room).value &&
              sess != null && fresh(sess) && sess.conn != null && fresh(sess.conn) && !sess.conn.closed &&
              sess.conn.written == [AuthFrame(c), Frame(Frames.RegisterDownload, RegistrationBytes(sessionID, filename))] &&
              sess.conn.incoming == replies[2..] && sess.conn.room == room - 2
  {
    var conn;
    host, port, conn, err := Register(c, Frames.RegisterDownload, dialFailure, replies, room, sessionID, filename);
    if err.Some? {
      return host, port, null, err;
    }
    sess := new DownloadSession(conn);
  }

  // ---------------------------------------------------------------------------------------------
  // The upload stream: reading the relayed file as an io.Reader

  /** What the refill loop of `UploadStream.Read` ends with. */
  datatype Pulled =
    | GotData(payload: seq<byte>)   // a Data frame with a non-empty payload
    | GotEof                        // an EOF frame
    | GotError(reason: seq<byte>)   // an Error frame
    | GotOther(ty: MsgType)         // a frame of any other type
    | Broken(ce: ConnError)         // the read itself failed

  /** How one frame ends the refill loop; None for an empty Data frame, which the loop skips. */
  function Classify(f: Frame): (r: Option<Pulled>)
  {
    if f.ty == EOF then Some(GotEof)
    else if f.ty == Error then Some(GotError(f.payload))
    else if f.ty != Data then Some(GotOther(f.ty))
    else if f.payload != [] then Some(GotData(f.payload))
    else None
  }

  /** Only an empty Data frame is skipped; a Data frame hands on its payload, any other frame ends
      the loop with what it is. */
  lemma ClassifyCases(f: Frame)
    ensures Classify(f).None? <==> f.ty == Data && f.payload == []
    ensures Classify(f).Some? ==> !Classify(f).value.Broken? && (Classify(f).value.GotData? <==> f.ty == Data)
    ensures Classify(f).Some? && Classify(f).value.GotData? ==> Classify(f).value.payload == f.payload
  {
  }

  /** The refill loop over the relay's queue `q`: how many frames it takes and what it ends with.
      It passes over empty Data frames and stops at the first other frame, or when the queue runs
      out, which the read reports as the connection ending. */
  function Pull(q: seq<Frame>): (r: (nat, Pulled))
    ensures r.0 <= |q|
    ensures r.1.GotData? ==> r.1.payload != []
    ensures q != [] ==> r.0 > 0
    decreases |q|
  {
    if q == [] then (0, Broken(PeerClosed))
    else if Classify(q[0]).Some? then (1, Classify(q[0]).value)
    else var r := Pull(q[1..]); (r.0 + 1, r.1)
  }

  /** What the refill loop over `q` comes to when it ends with `r`: it passed over empty Data
      frames only, and stopped at the first other frame or, when the queue ran out, with the
      connection ending. The frames it took carry exactly the payload it hands on. */
  ghost predicate PullFacts(q: seq<Frame>, r: (nat, Pulled))
    requires r.0 <= |q|
  {
    SkippedEmpty(q, r.0 as int - 1) && EndedBy(q, r) && CarriesPayload(q, r)
  }

  /** The first `n` frames of `q` are empty Data frames. */
  ghost predicate SkippedEmpty(q: seq<Frame>, n: int)
    requires n <= |q|
  {
    forall i :: 0 <= i < n ==> q[i].ty == Data && q[i].payload == []
  }

  /** The last frame taken decides the outcome; running out of frames is the connection ending. */
  ghost predicate EndedBy(q: seq<Frame>, r: (nat, Pulled))
    requires r.0 <= |q|
  {
    (r.1.Broken? ==> r.1.ce == PeerClosed && (r.0 > 0 ==> Classify(q[r.0 - 1]).None?)) &&
    (!r.1.Broken? ==> r.0 > 0 && Classify(q[r.0 - 1]) == Some(r.1))
  }

  /** The frames taken carry exactly the payload handed on. */
  ghost predicate CarriesPayload(q: seq<Frame>, r: (nat, Pulled))
    requires r.0 <= |q|
  {
    DataConcat(q[..r.0]) == if r.1.GotData? then r.1.payload else []
  }

  /** The refill loop passes over empty Data frames only, and stops at the first other frame or,
      when the queue runs out, with the connection ending. The frames it takes carry exactly the
      payload it hands on. */
  lemma {:induction false} PullEnds(q: seq<Frame>)
    ensures PullFacts(q, Pull(q))
    decreases |q|
  {
    if q == [] {
    } else if Classify(q[0]).Some? {
      assert q[..1] == [q[0]];
    } else {
      var r := Pull(q[1..]);
      PullEnds(q[1..]);
      assert Pull(q) == (r.0 + 1, r.1);
      SkipKeepsEmpty(q, r.0 as int - 1);
      SkipKeepsEnd(q, r);
      SkipKeepsPayload(q, r);
    }
  }

  /** Passing over an empty first frame extends the run of empty frames by one. */
  lemma SkipKeepsEmpty(q: seq<Frame>, n: int)
    requires q != [] && Classify(q[0]).None? && n < |q|
    requires SkippedEmpty(q[1..], n)
    ensures SkippedEmpty(q, n + 1)
  {
    forall i | 0 <= i < n + 1 ensures q[i].ty == Data && q[i].payload == [] {
      if i > 0 {
        assert q[i] == q[1..][i - 1];
      }
    }
  }

  /** Passing over the first frame leaves the frame that decides the outcome where it was. */
  lemma SkipKeepsEnd(q: seq<Frame>, r: (nat, Pulled))
    requires q != [] && Classify(q[0]).None? && r.0 < |q|
    requires EndedBy(q[1..], r)
    ensures EndedBy(q, (r.0 + 1, r.1))
  {
    if r.0 > 0 {
      assert q[r.0] == q[1..][r.0 - 1];
    }
  }

  /** Passing over an empty first frame adds no payload. */
  lemma SkipKeepsPayload(q: seq<Frame>, r: (nat, Pulled))
    requires q != [] && Classify(q[0]).None? && r.0 < |q|
    requires CarriesPayload(q[1..], r)
    ensures CarriesPayload(q, (r.0 + 1, r.1))
  {
    var taken := q[..r.0 + 1];
    assert taken[0] == q[0] && taken[1..] == q[1..][..r.0];
  }

  /** The error `Read` returns for how its refill loop ended; None when it found data. */
  function PulledError(p: Pulled): (r: Option<Error>)
    ensures r.None? <==> p.GotData?
    ensures r == Some(EndOfStream) <==> p == GotEof
  {
    match p
    case GotData(_) => None
    case GotEof => Some(EndOfStream)
    case GotError(reason) => Some(RelayRejected(reason))
    case GotOther(ty) => Some(UnexpectedMsgType(ty))
    case Broken(ce) => Some(Transport(ce))
  }

  /** Whether `fs` holds an EOF frame. */
  predicate HasEof(fs: seq<Frame>)
  {
    exists i :: 0 <= i < |fs| && fs[i].ty == EOF
  }

  /** The handle RegisterUploadStream returns: an io.Reader over the Data frames the relay sends. */
  class UploadStream {
    var conn: Conn?
    /** The rest of the last Data payload, not yet handed to a caller. */
    var buf: seq<byte>
    var eof: bool
    /** Every frame Read has taken from the connection, oldest first. */
    ghost var consumed: seq<Frame>
    /** Every byte Read has handed to its callers, in order. */
    ghost var delivered: seq<byte>

    /** The bytes handed out so far and the buffered rest are exactly the Data payloads read so
        far, in order; `eof` is set exactly when an EOF frame has been read, and then nothing is
        buffered. */
    ghost predicate Valid()
      reads this, conn
    {
      delivered + buf == DataConcat(consumed) && (eof <==> HasEof(consumed)) && (eof ==> buf == []) &&
      (conn != null ==> !conn.closed)
    }

    /** A stream over a connection RegisterUploadStream has just registered, which is open. */
    constructor (conn: Conn)
      requires !conn.closed
      ensures this.conn == conn && buf == [] && !eof
      ensures consumed == [] && delivered == [] && Valid()
    {
      this.conn := conn;
      buf := [];
      eof := false;
      consumed := [];
      delivered := [];
    }

    /** The refill loop of `Read`, entered with nothing buffered and no io.EOF seen yet: read frames
        until a non-empty Data frame arrives, or return the error that stops it. */
    method Fill() returns (err: Option<Error>)
      requires Valid() && buf == [] && !eof && conn != null
      modifies this, conn
      ensures Valid() && conn == old(conn) && delivered == old(delivered)
      ensures conn.written == old(conn.written) && conn.closed == old(conn.closed) && conn.room == old(conn.room)
      ensures var r := Pull(old(conn.incoming));
              conn.incoming == old(conn.incoming)[r.0..] && consumed == old(consumed) + old(conn.incoming)[..r.0] &&
              err == PulledError(r.1) && eof == r.1.GotEof? && buf == if r.1.GotData? then r.1.payload else []
    {
      var c := conn;
      ghost var q := c.incoming;
      ghost var k := 0;
      ghost var t := Pull(q);
      assert q[0..] == q;
      while |buf| == 0
        invariant k <= |q| && c.incoming == q[k..]
        invariant conn == c && delivered == old(delivered) && consumed == old(consumed) && !eof
        invariant c.written == old(c.written) && c.closed == old(c.closed) && c.room == old(c.room)
        invariant buf == [] ==> t == (k + Pull(q[k..]).0, Pull(q[k..]).1)
        invariant buf != [] ==> t == (k, GotData(buf))
        decreases |c.incoming|
      {
        var r := c.ReadFrame();
        if r.Failure? {
          assert q[k..] == [];
          RefillKeepsValid(consumed, delivered, q, k, Broken(PeerClosed));
          consumed := consumed + q[..k];
          return Some(Transport(r.error));
        }
        var f := r.value;
        assert f == q[k] && c.incoming == q[k + 1..];
        if f.ty != Data {
          PullStops(q, k, t);
          err := Stopped(f, q, k);
          return;
        }
        buf := f.payload;
        if buf == [] {
          PullSkips(q, k, t);
        } else {
          PullStops(q, k, t);
        }
        k := k + 1;
      }
      RefillKeepsValid(consumed, delivered, q, k, GotData(buf));
      consumed := consumed + q[..k];
      return None;
    }

    /** The refill loop meets a frame other than Data, `q[k]`, after passing over `q[..k]`: record
        what was taken and return the frame's error. */
    method Stopped(f: Frame, ghost q: seq<Frame>, ghost k: nat) returns (err: Option<Error>)
      requires Valid() && buf == [] && !eof && conn != null
      requires f.ty != Data && Pull(q) == (k + 1, Classify(f).value)
      modifies this
      ensures Valid() && conn == old(conn) && delivered == old(delivered) && buf == []
      ensures consumed == old(consumed) + q[..k + 1]
      ensures err == PulledError(Classify(f).value) && eof == (f.ty == EOF)
    {
      RefillKeepsValid(consumed, delivered, q, k + 1, Classify(f).value);
      consumed := consumed + q[..k + 1];
      if f.ty == EOF {
        eof := true;
        return Some(EndOfStream);
      }
      if f.ty == Error {
        return Some(RelayRejected(f.payload));
      }
      return Some(UnexpectedMsgType(f.ty));
    }

    /** `Read`: hand out buffered bytes, refilling the buffer first when it is empty and io.EOF has
        not been seen. Reading without a connection (after `Close`) with nothing to hand out is not
        something Go allows: it dereferences the nil connection. */
    method Read(p: array<byte>) returns (n: nat, err: Option<Error>)
      requires Valid()
      requires conn != null || buf != [] || eof
      modifies this, conn, p
      ensures Valid() && conn == old(conn)
      ensures n <= p.Length && p[n..] == old(p[n..])
      ensures delivered == old(delivered) + p[..n]
      ensures conn != null ==>
                conn.written == old(conn.written) && conn.closed == old(conn.closed) && conn.room == old(conn.room)
      ensures old(buf) != [] ==>
                n == Min(p.Length, |old(buf)|) && buf == old(buf)[n..] && err == None &&
                eof == old(eof) && consumed == old(consumed) && (conn != null ==> conn.incoming == old(conn.incoming))
      ensures old(buf) == [] && old(eof) ==>
                n == 0 && err == Some(EndOfStream) && buf == [] && eof &&
                consumed == old(consumed) && (conn != null ==> conn.incoming == old(conn.incoming))
      ensures old(buf) == [] && !old(eof) ==>
                var r := Pull(old(conn.incoming));
                conn.incoming == old(conn.incoming)[r.0..] && consumed == old(consumed) + old(conn.incoming)[..r.0] &&
                err == PulledError(r.1) && eof == r.1.GotEof? &&
                (r.1.GotData? ==> n == Min(p.Length, |r.1.payload|) && buf == r.1.payload[n..]) &&
                (!r.1.GotData? ==> n == 0 && buf == [])
    {
      if |buf| == 0 && !eof {
        err := Fill();
        if err.Some? {
          return 0, err;
        }
      }
      if |buf| == 0 {
        return 0, Some(EndOfStream);
      }
      n := CopyOut(p);
      return n, None;
    }

    /** The last step of `Read`: copy as much of the buffer as `p` holds, keep the rest. */
    method CopyOut(p: array<byte>) returns (n: nat)
      requires Valid() && buf != []
      modifies this, p
      ensures Valid() && conn == old(conn) && eof == old(eof) && consumed == old(consumed)
      ensures n == Min(p.Length, |old(buf)|)
      ensures p[..n] == old(buf)[..n] && p[n..] == old(p[n..]) && buf == old(buf)[n..]
      ensures delivered == old(delivered) + p[..n]
    {
      n := Min(p.Length, |buf|);
      forall i | 0 <= i < n {
        p[i] := buf[i];
      }
      assert p[..n] == buf[..n];
      assert buf == buf[..n] + buf[n..];
      SeqAssoc(delivered, buf[..n], buf[n..]);
      delivered := delivered + buf[..n];
      buf := buf[n..];
    }

    /** `Close`: closes the connection once; a second call does nothing and returns nil. */
    method Close() returns (err: Option<Error>)
      modifies this, conn
      ensures conn == null && buf == old(buf) && eof == old(eof)
      ensures consumed == old(consumed) && delivered == old(delivered)
      ensures old(conn) == null ==> err == None
      ensures old(conn) != null ==>
                old(conn).closed && old(conn).written == old(conn.written) &&
                old(conn).incoming == old(conn.incoming) && old(conn).room == old(conn.room) &&
                err == if old(conn.closed) then Some(Transport(UseOfClosed)) else None
    {
      if conn != null {
        var cerr := conn.Close();
        conn := null;
        return if cerr.Some? then Some(Transport(cerr.value)) else None;
      }
      return None;
    }
  }

  /** `RegisterUploadStream`: register an upload session and hand back the relay's host, the port
      it allocated and a stream that reads the uploaded file from the registered connection.
      Dialling is a parameter, as for `Register`. */
  method RegisterUploadStream(c: Client, dialFailure: Option<IoError>, replies: seq<Frame>, room: nat,
                              sessionID: seq<byte>, filename: seq<byte>)
    returns (host: string, port: nat, stream: UploadStream?, err: Option<Error>)
    ensures err.None? <==> dialFailure.None? && RegistrationOutcome(c, replies, room).Success?
    ensures dialFailure.Some? ==> err == Some(Io(dialFailure.value))
    ensures dialFailure.None? && RegistrationOutcome(c, replies, room).Failure? ==>
              err == Some(RegistrationOutcome(c, replies, room).error)
    ensures err.Some? ==> host == "" && port == 0 && stream == null
    ensures err.None? ==>
              host == c.relayHost && port == RegistrationOutcome(c, replies, room).value &&
              stream != null && fresh(stream) && stream.conn != null && fresh(stream.conn) &&
              stream.Valid() && stream.buf == [] && !stream.eof &&
              stream.consumed == [] && stream.delivered == [] &&
              stream.conn.written == [AuthFrame(c), Frame(RegisterUpload, RegistrationBytes(sessionID, filename))] &&
              stream.conn.incoming == replies[2..] && stream.conn.room == room - 2
  {
    var conn;
    host, port, conn, err := Register(c, RegisterUpload, dialFailure, replies, room, sessionID, filename);
    if err.Some? {
      return host, port, null, err;
    }
    stream := new UploadStream(conn);
  }

  /** The refill loop, having passed over `q[..k]`, passes over the empty Data frame `q[k]` too. */
  lemma PullSkips(q: seq<Frame>, k: nat, t: (nat, Pulled))
    requires k < |q| && Classify(q[k]).None?
    requires t == (k + Pull(q[k..]).0, Pull(q[k..]).1)
    ensures t == (k + 1 + Pull(q[k + 1..]).0, Pull(q[k + 1..]).1)
  {
    assert q[k..][0] == q[k] && q[k..][1..] == q[k + 1..];
    var r := Pull(q[k + 1..]);
    assert Pull(q[k..]) == (r.0 + 1, r.1);
  }

  /** The refill loop, having passed over `q[..k]`, stops at any other frame `q[k]`. */
  lemma PullStops(q: seq<Frame>, k: nat, t: (nat, Pulled))
    requires k < |q| && Classify(q[k]).Some?
    requires t == (k + Pull(q[k..]).0, Pull(q[k..]).1)
    ensures t == (k + 1, Classify(q[k]).value)
  {
    assert q[k..][0] == q[k];
  }

  /** One refill on top of a valid state with nothing buffered: the frames it takes add exactly the
      payload it buffers, and an EOF frame exactly when it ends with io.EOF. */
  lemma RefillKeepsValid(consumed: seq<Frame>, delivered: seq<byte>, q: seq<Frame>, k: nat, got: Pulled)
    requires delivered == DataConcat(consumed) && !HasEof(consumed)
    requires Pull(q) == (k, got)
    ensures k <= |q|
    ensures DataConcat(consumed + q[..k]) == delivered + (if got.GotData? then got.payload else [])
    ensures HasEof(consumed + q[..k]) <==> got.GotEof?
  {
    var r := Pull(q);
    PullEnds(q);
    DataConcatAppend(consumed, q[..r.0]);
    var fs := consumed + q[..r.0];
    if r.1.GotEof? {
      assert fs[|consumed| + r.0 - 1] == q[r.0 - 1];
    }
    if HasEof(fs) {
      var i :| 0 <= i < |fs| && fs[i].ty == EOF;
      assert i >= |consumed|;
      assert fs[i] == q[i - |consumed|];
      if i - |consumed| < r.0 - 1 {
      } else {
        assert i - |consumed| == r.0 - 1;
        assert !r.1.Broken?;
      }
    }
  }

  // ---------------------------------------------------------------------------------------------
  // From SendFile's frames back to the file

  /** What repeated `Read` calls recover from a queue of frames: the bytes of every refill that
      found data, and how the first refill that found none ended. */
  function ReadAll(q: seq<Frame>): (r: (seq<byte>, Pulled))
    ensures !r.1.GotData?
    decreases |q|
  {
    var p := Pull(q);
    if p.1.GotData? then
      var rest := ReadAll(q[p.0..]);
      (p.1.payload + rest.0, rest.1)
    else ([], p.1)
  }

  /** A reader passes over a run of Data frames collecting their payloads, in order. */
  lemma {:induction false} ReadAllDataRun(ds: seq<Frame>, tail: seq<Frame>)
    requires IsDataRun(ds)
    ensures ReadAll(ds + tail) == (DataConcat(ds) + ReadAll(tail).0, ReadAll(tail).1)
    decreases |ds|
  {
    if ds == [] {
      var r := ReadAll(tail);
      assert ds + tail == tail && DataConcat(ds) == [];
      assert DataConcat(ds) + r.0 == r.0;
    } else {
      var q, q' := ds + tail, ds[1..] + tail;
      assert q[0] == ds[0] && q[1..] == q';
      DataRunTail(ds);
      ReadAllData(q);
      ReadAllDataRun(ds[1..], tail);
      SeqAssoc(ds[0].payload, DataConcat(ds[1..]), ReadAll(tail).0);
    }
  }

  /** A reader takes a non-empty Data frame at the head of the queue as one refill. */
  lemma ReadAllData(q: seq<Frame>)
    requires q != [] && q[0].ty == Data && q[0].payload != []
    ensures ReadAll(q) == (q[0].payload + ReadAll(q[1..]).0, ReadAll(q[1..]).1)
  {
    assert Pull(q) == (1, GotData(q[0].payload));
  }

  lemma DataRunTail(ds: seq<Frame>)
    requires IsDataRun(ds) && ds != []
    ensures IsDataRun(ds[1..]) && ds[0].ty == Data && ds[0].payload != []
    ensures DataConcat(ds) == ds[0].payload + DataConcat(ds[1..])
  {
    forall i | 0 <= i < |ds[1..]| ensures ds[1..][i].ty == Data && 0 < |ds[1..][i].payload| <= ChunkSize {
      assert ds[1..][i] == ds[i + 1];
    }
  }

  /** What SendFile writes, read back by an UploadStream on the other side of the relay, is the
      file's bytes cut at the cap: followed by io.EOF when SendFile succeeds, and by the connection
      ending when it fails on the source. */
  lemma SendThenRead(src: seq<Chunk>, maxBytes: int)
    requires ValidSource(src)
    ensures var plan := SendPlan(src, maxBytes, 0);
            ReadAll(plan.frames) ==
              (Capped(SourceBytes(src), maxBytes, 0), if plan.failure == None then GotEof else Broken(PeerClosed))
  {
    SendPlanShape(src, maxBytes, 0);
    SendPlanBytes(src, maxBytes, 0);
    ReadBack(SendPlan(src, maxBytes, 0));
  }

  /** Reading back a well-shaped run of frames yields the bytes its Data frames carry. */
  lemma ReadBack(plan: Plan)
    requires WellShaped(plan)
    ensures ReadAll(plan.frames) == (DataConcat(plan.frames), if plan.failure == None then GotEof else Broken(PeerClosed))
  {
    if plan.failure == None {
      var ds := plan.frames[..|plan.frames| - 1];
      assert plan.frames == ds + [EofFrame];
      ReadAllDataRun(ds, [EofFrame]);
      DataConcatAppend(ds, [EofFrame]);
      ReadAllEnds();
    } else {
      assert plan.frames == plan.frames + [];
      ReadAllDataRun(plan.frames, []);
      ReadAllEnds();
      assert DataConcat(plan.frames) + [] == DataConcat(plan.frames);
    }
  }

  lemma ReadAllEnds()
    ensures ReadAll([EofFrame]) == ([], GotEof) && DataConcat([EofFrame]) == []
    ensures ReadAll([]) == ([], Broken(PeerClosed))
  {
    assert [EofFrame][1..] == [];
    assert Pull([EofFrame]) == (1, GotEof);
    assert Pull([]) == (0, Broken(PeerClosed));
  }
}
