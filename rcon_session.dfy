/** The session half of classes/EnhancedArkRcon.php: a connection that
    authenticates once and then runs one command per request/response
    exchange, numbering every packet it creates.

    The socket is an abstract byte stream: the bytes the peer has sent and
    not yet been read, the bytes written so far, and whether writes succeed.
    A read hands out at most the bytes that have arrived, so asking for more
    than that is a short read. */
module RconSession {
  import opened Wrappers
  import opened PhpText
  import opened RconCodec
  import opened RconText

  datatype Stream = Stream(inbound: Bytes, sent: Bytes, writable: bool)

  /** What fsockopen finds at the other end: a refusal with PHP's error
      string and number, or an open stream. */
  datatype Endpoint = Refuses(errstr: string, errno: int) | Accepts(stream: Stream)

  /** The mutable part of a connection: the next request id and the socket
      (None where PHP holds null or false). */
  datatype Session = Session(requestId: int, socket: Option<Stream>)

  const NotConnected: string := "Not connected to RCON server"
  const SendFailed: string := "Failed to send RCON packet"
  const AuthFailed: string := "RCON authentication failed"

  /** A PHP string as the bytes it is made of. */
  function ToBytes(s: string): (b: Bytes)
    ensures |b| == |s|
  {
    seq(|s|, i requires 0 <= i < |s| => (s[i] as int) % 256)
  }

  /** Bytes read from the socket as a PHP string. */
  function ToText(b: Bytes): (s: string)
    ensures |s| == |b|
  {
    seq(|b|, i requires 0 <= i < |b| => b[i] as char)
  }

  lemma TextBytesRoundTrip(b: Bytes)
    ensures ToBytes(ToText(b)) == b
  {
  }

  /** fread($socket, $n): the first n bytes that have arrived, or all of
      them when fewer have. PHP rejects a length of 0. */
  function Fread(st: Stream, n: nat): (Bytes, Stream)
    requires n > 0
  {
    var k := if n < |st.inbound| then n else |st.inbound|;
    (st.inbound[..k], st.(inbound := st.inbound[k..]))
  }

  /** createPacket: the packet carries the current id, which then advances. */
  function CreateSpec(s: Session, ptype: Word, body: string): (Session, Bytes) {
    (s.(requestId := s.requestId + 1), EncodePacket(s.requestId, ptype, ToBytes(body)))
  }

  /** sendPacket. */
  function SendSpec(s: Session, packet: Bytes): (Session, Outcome<string>) {
    match s.socket
    case None => (s, Fail(NotConnected))
    case Some(st) =>
      if !st.writable then (s, Fail(SendFailed))
      else (s.(socket := Some(st.(sent := st.sent + packet))), Pass)
  }

  /** readPacket: at most one response, None for readPacket's `false`. */
  function ReadSpec(s: Session): (Session, Result<Option<Response>, string>) {
    match s.socket
    case None => (s, Failure(NotConnected))
    case Some(st) =>
      var (r, rest) := ReadFrame(st.inbound);
      (s.(socket := Some(st.(inbound := rest))), Success(r))
  }

  /** One request/response exchange: create, send, then read. */
  function ExchangeSpec(s: Session, ptype: Word, body: string): (Session, Result<Option<Response>, string>) {
    var (s1, packet) := CreateSpec(s, ptype, body);
    var (s2, sent) := SendSpec(s1, packet);
    if sent.Fail? then (s2, Failure(sent.error)) else ReadSpec(s2)
  }

  /** executeCommand: the body of the one response, or an error. */
  function ExecuteSpec(s: Session, command: string): (Session, Result<string, string>) {
    var (s1, r) := ExchangeSpec(s, EXECCOMMAND, command);
    (s1, match r
      case Failure(e) => Failure(e)
      case Success(None) => Failure("Failed to execute RCON command: " + command)
      case Success(Some(resp)) => Success(ToText(resp.body)))
  }

  /** The authentication test as written: the id compared with -1. The id
      was decoded unsigned, so the comparison never holds. */
  function AuthCheckAsWritten(response: Option<Response>): Outcome<string> {
    match response
    case None => Fail(AuthFailed)
    case Some(r) => if r.id.Some? && r.id.value as int == -1 then Fail(AuthFailed) else Pass
  }

  /** The authentication test as intended: the server signals a wrong
      password with request id -1, which arrives as the word 0xFFFFFFFF. */
  function AuthCheck(response: Option<Response>): Outcome<string> {
    match response
    case None => Fail(AuthFailed)
    case Some(r) => if r.id.Some? && Signed32(r.id.value) == -1 then Fail(AuthFailed) else Pass
  }

  /** authenticate: one AUTH exchange with the password as body. */
  function AuthenticateSpec(s: Session, password: string): (Session, Outcome<string>) {
    var (s1, r) := ExchangeSpec(s, AUTH, password);
    (s1, match r
      case Failure(e) => Fail(e)
      case Success(resp) => AuthCheck(resp))
  }

  /** connect: open the stream, then authenticate on it. */
  function ConnectSpec(s: Session, password: string, peer: Endpoint): (Session, Outcome<string>) {
    match peer
    case Refuses(errstr, errno) =>
      (s.(socket := None), Fail("Failed to connect to RCON: " + errstr + " (" + IntToString(errno) + ")"))
    case Accepts(st) => AuthenticateSpec(s.(socket := Some(st)), password)
  }

  /** The constructor: a fresh session (id 1, no socket) that connects; the
      exception of a failed connect escapes it. */
  function OpenSpec(password: string, peer: Endpoint): Result<Session, string> {
    var (s, o) := ConnectSpec(Session(1, None), password, peer);
    if o.Fail? then Failure(o.error) else Success(s)
  }

  /** getPlayerList: the parsed output, or (0, []) when the command throws. */
  function PlayerListOf(reply: Result<string, string>): PlayerListResult {
    match reply
    case Failure(_) => PlayerListResult(0, [])
    case Success(output) =>
      var ps := PlayersOf(OutputLines(output));
      PlayerListResult(|ps|, ps)
  }

  /** getMaxPlayers: the figure in the game log, or 150 when the command throws. */
  function MaxPlayersOfReply(reply: Result<string, string>): int {
    match reply
    case Failure(_) => DefaultMaxPlayers
    case Success(output) => MaxPlayersOf(output)
  }

  /** getPing: the measured round trip in milliseconds, or 0 when the command
      throws. The measurement comes from the clock and is a parameter here. */
  function PingOf(reply: Result<string, string>, measuredMs: int): int {
    if reply.Failure? then 0 else measuredMs
  }

  /** The message a wrapper puts in front of the error it rethrows. */
  function Rethrown(prefix: string, reply: Result<string, string>): Result<string, string> {
    match reply
    case Failure(e) => Failure(prefix + e)
    case Success(v) => Success(v)
  }

  class EnhancedArkRcon {
    const host: string
    const port: int
    const password: string
    const timeout: int
    var socket: Option<Stream>
    var requestId: int

    function State(): Session
      reads this
    {
      Session(requestId, socket)
    }

    /** Field initialisation; the PHP constructor then connects (see Open). */
    constructor (host: string, port: int, password: string, timeout: int)
      ensures this.host == host && this.port == port
      ensures this.password == password && this.timeout == timeout
      ensures State() == Session(1, None)
    {
      this.host := host;
      this.port := port;
      this.password := password;
      this.timeout := timeout;
      socket := None;
      requestId := 1;
    }

    /** `new EnhancedArkRcon(...)`: construct and connect; a failed connect
        or authentication is the constructor's exception. */
    static method Open(host: string, port: int, password: string, timeout: int, peer: Endpoint)
      returns (r: Result<EnhancedArkRcon, string>)
      ensures r.Success? <==> OpenSpec(password, peer).Success?
      ensures r.Success? ==> fresh(r.value) && r.value.State() == OpenSpec(password, peer).value
      ensures r.Success? ==> r.value.host == host && r.value.port == port && r.value.password == password
      ensures r.Failure? ==> r.error == OpenSpec(password, peer).error
    {
      var rcon := new EnhancedArkRcon(host, port, password, timeout);
      var o := rcon.Connect(peer);
      if o.Fail? {
        return Failure(o.error);
      }
      return Success(rcon);
    }

    method Connect(peer: Endpoint) returns (o: Outcome<string>)
      modifies this
      ensures (State(), o) == ConnectSpec(old(State()), password, peer)
    {
      match peer
      case Refuses(errstr, errno) =>
        socket := None;
        o := Fail("Failed to connect to RCON: " + errstr + " (" + IntToString(errno) + ")");
      case Accepts(st) =>
        socket := Some(st);
        o := Authenticate();
    }

    method Authenticate() returns (o: Outcome<string>)
      modifies this
      ensures (State(), o) == AuthenticateSpec(old(State()), password)
    {
      var packet := CreatePacket(AUTH, password);
      var sent := SendPacket(packet);
      if sent.Fail? {
        return sent;
      }
      var response := ReadPacket();
      if response.Failure? {
        return Fail(response.error);
      }
      o := AuthCheck(response.value);
    }

    method CreatePacket(ptype: Word, body: string) returns (packet: Bytes)
      modifies this
      ensures (State(), packet) == CreateSpec(old(State()), ptype, body)
    {
      var id := requestId;
      requestId := requestId + 1;
      packet := EncodePacket(id, ptype, ToBytes(body));
    }

    method SendPacket(packet: Bytes) returns (o: Outcome<string>)
      modifies this
      ensures (State(), o) == SendSpec(old(State()), packet)
    {
      if socket.None? {
        return Fail(NotConnected);
      }
      var st := socket.value;
      if !st.writable {
        return Fail(SendFailed);
      }
      socket := Some(st.(sent := st.sent + packet));
      o := Pass;
    }

    /** Two reads, one for the size and one for the rest, each allowed to
        come back short. */
    method ReadPacket() returns (r: Result<Option<Response>, string>)
      modifies this
      ensures (State(), r) == ReadSpec(old(State()))
    {
      if socket.None? {
        return Failure(NotConnected);
      }
      var st := socket.value;
      ghost var inbound := st.inbound;
      var (sizeData, st1) := Fread(st, 4);
      st := st1;
      socket := Some(st);
      if |sizeData| < 4 {
        assert st.inbound == [];
        return Success(None);
      }
      assert sizeData == inbound[..4] && st.inbound == inbound[4..];
      var size := UnLe32(sizeData);
      if size == 0 {
        return Success(None);
      }
      var (packetData, st2) := Fread(st, size);
      st := st2;
      socket := Some(st);
      if |packetData| < size {
        assert st.inbound == [];
        return Success(None);
      }
      r := Success(Some(DecodePayload(packetData)));
    }

    method ExecuteCommand(command: string) returns (r: Result<string, string>)
      modifies this
      ensures (State(), r) == ExecuteSpec(old(State()), command)
    {
      var packet := CreatePacket(EXECCOMMAND, command);
      var sent := SendPacket(packet);
      if sent.Fail? {
        return Failure(sent.error);
      }
      var response := ReadPacket();
      if response.Failure? {
        return Failure(response.error);
      }
      if response.value.None? {
        return Failure("Failed to execute RCON command: " + command);
      }
      r := Success(ToText(response.value.value.body));
    }

    method GetPlayerList() returns (r: PlayerListResult)
      modifies this
      ensures var (s, reply) := ExecuteSpec(old(State()), "listplayers");
        State() == s && r == PlayerListOf(reply)
    {
      var reply := ExecuteCommand("listplayers");
      if reply.Failure? {
        return PlayerListResult(0, []);
      }
      r := ParsePlayerList(reply.value);
    }

    method GetPing(measuredMs: int) returns (ms: int)
      modifies this
      ensures var (s, reply) := ExecuteSpec(old(State()), "GetGameLog");
        State() == s && ms == PingOf(reply, measuredMs)
    {
      var reply := ExecuteCommand("GetGameLog");
      if reply.Failure? {
        return 0;
      }
      ms := measuredMs;
    }

    method GetMaxPlayers() returns (n: int)
      modifies this
      ensures var (s, reply) := ExecuteSpec(old(State()), "GetGameLog");
        State() == s && n == MaxPlayersOfReply(reply)
    {
      var reply := ExecuteCommand("GetGameLog");
      if reply.Failure? {
        return DefaultMaxPlayers;
      }
      n := MaxPlayersOf(reply.value);
    }

    method SaveWorld() returns (r: Result<string, string>)
      modifies this
      ensures var (s, reply) := ExecuteSpec(old(State()), "SaveWorld");
        State() == s && r == Rethrown("Failed to save world: ", reply)
    {
      var reply := ExecuteCommand("SaveWorld");
      if reply.Failure? {
        return Failure("Failed to save world: " + reply.error);
      }
      r := reply;
    }

    method Broadcast(message: string) returns (r: Result<string, string>)
      modifies this
      ensures var (s, reply) := ExecuteSpec(old(State()), "Broadcast " + message);
        State() == s && r == Rethrown("Failed to broadcast message: ", reply)
    {
      var reply := ExecuteCommand("Broadcast " + message);
      if reply.Failure? {
        return Failure("Failed to broadcast message: " + reply.error);
      }
      r := reply;
    }

    method Disconnect()
      modifies this
      ensures State() == old(State()).(socket := None)
    {
      if socket.Some? {
        socket := None;
      }
    }
  }

  // ---------------------------------------------------------------------
  // Properties of the session

  /** Commands run one after another on a session. */
  function RunCommands(s: Session, commands: seq<string>): Session {
    if |commands| == 0 then s
    else ExecuteSpec(RunCommands(s, commands[..|commands| - 1]), commands[|commands| - 1]).0
  }

  /** The packets of a run of commands, the k-th numbered first + k. */
  function CommandPackets(first: int, commands: seq<string>): Bytes {
    if |commands| == 0 then []
    else
      var n := |commands| - 1;
      CommandPackets(first, commands[..n]) + EncodePacket(first + n, EXECCOMMAND, ToBytes(commands[n]))
  }

  /** Whatever the replies, each command takes the next id and, on a
      writable socket, writes its one packet, so the k-th command of a run
      (counting from 0) carries the id the session had plus k. */
  lemma {:induction false} CommandIds(s: Session, commands: seq<string>)
    requires s.socket.Some? && s.socket.value.writable
    ensures var e := RunCommands(s, commands);
      && e.requestId == s.requestId + |commands|
      && e.socket.Some? && e.socket.value.writable
      && e.socket.value.sent == s.socket.value.sent + CommandPackets(s.requestId, commands)
  {
    if |commands| > 0 {
      var front := commands[..|commands| - 1];
      CommandIds(s, front);
    }
  }

  /** A session that opens sent exactly one packet, the AUTH packet with id 1
      and the password as body, and its next id is 2: the first command
      carries id 2, the k-th id k + 1. */
  lemma OpenSendsAuthFirst(password: string, st: Stream)
    requires OpenSpec(password, Accepts(st)).Success?
    ensures var s := OpenSpec(password, Accepts(st)).value;
      && s.requestId == 2
      && s.socket.Some? && s.socket.value.writable
      && s.socket.value.sent == st.sent + EncodePacket(1, AUTH, ToBytes(password))
  {
  }

  /** Everything an opened session writes, in order: the AUTH packet with
      id 1, then the k-th command's packet (from 0) with id 2 + k, so no id
      is used twice. */
  lemma SessionPackets(password: string, st: Stream, commands: seq<string>)
    requires OpenSpec(password, Accepts(st)).Success?
    ensures var s := OpenSpec(password, Accepts(st)).value;
      var e := RunCommands(s, commands);
      && e.requestId == 2 + |commands|
      && e.socket.Some?
      && e.socket.value.sent == st.sent + EncodePacket(1, AUTH, ToBytes(password)) + CommandPackets(2, commands)
  {
    var s := OpenSpec(password, Accepts(st)).value;
    OpenSendsAuthFirst(password, st);
    CommandIds(s, commands);
  }

  /** A refused connection reports PHP's error string and number. */
  lemma OpenRefused(password: string, errstr: string, errno: int)
    ensures OpenSpec(password, Refuses(errstr, errno))
      == Failure("Failed to connect to RCON: " + errstr + " (" + IntToString(errno) + ")")
  {
  }

  /** When the server answers the AUTH packet with a whole packet, the
      session opens exactly when the answer's id is not -1. */
  lemma AuthenticationVerdict(password: string, st: Stream, id: Word, ptype: Word, body: Bytes, more: Bytes)
    requires st.writable
    requires |body| + 10 < WordLimit
    requires st.inbound == EncodePacket(id, ptype, body) + more
    ensures OpenSpec(password, Accepts(st)).Success? <==> id != 0xFFFF_FFFF
    ensures OpenSpec(password, Accepts(st)).Failure? ==> OpenSpec(password, Accepts(st)).error == AuthFailed
  {
    var frame := ReadFrame(st.inbound).0;
    RoundTrip(id, ptype, body, more);
    ToWordOfWord(id);
    assert frame == Some(Response(Some(id), Some(ptype), body));
    SignedMinusOne(id);
    assert AuthCheck(frame).Pass? <==> id != 0xFFFF_FFFF;
    OpenVerdict(password, st);
  }

  /** Opening on a writable stream is decided by the test on the first frame
      the server sent. */
  lemma OpenVerdict(password: string, st: Stream)
    requires st.writable
    ensures var o := AuthCheck(ReadFrame(st.inbound).0);
      && (OpenSpec(password, Accepts(st)).Success? <==> o.Pass?)
      && (o.Fail? ==> OpenSpec(password, Accepts(st)) == Failure(o.error))
  {
    ExchangeReads(Session(1, Some(st)), AUTH, password);
  }

  /** An exchange on a writable stream sends its packet and reads one frame. */
  lemma ExchangeReads(s: Session, ptype: Word, body: string)
    requires s.socket.Some? && s.socket.value.writable
    ensures ExchangeSpec(s, ptype, body).1 == Success(ReadFrame(s.socket.value.inbound).0)
  {
  }

  /** Without a full answer to the AUTH packet the session does not open. */
  lemma AuthenticationNeedsReply(password: string, st: Stream)
    requires st.writable
    requires ReadFrame(st.inbound).0.None?
    ensures OpenSpec(password, Accepts(st)) == Failure(AuthFailed)
  {
  }

  /** The check as written accepts every answer, the server's -1 included;
      the intended check rejects that answer. */
  lemma AuthCheckAsWrittenNeverRejects(r: Response)
    ensures AuthCheckAsWritten(Some(r)) == Pass
    ensures AuthCheck(Some(Response(Some(0xFFFF_FFFF), r.ptype, r.body))) == Fail(AuthFailed)
  {
  }

  /** A command on a writable session whose server has sent one whole packet
      returns that packet's body and leaves what followed it unread. */
  lemma ExecuteReturnsBody(s: Session, command: string, id: Word, ptype: Word, body: Bytes, more: Bytes)
    requires s.socket.Some? && s.socket.value.writable
    requires |body| + 10 < WordLimit
    requires s.socket.value.inbound == EncodePacket(id, ptype, body) + more
    ensures var (e, reply) := ExecuteSpec(s, command);
      && reply == Success(ToText(body))
      && e.requestId == s.requestId + 1
      && e.socket == Some(s.socket.value.(
           inbound := more,
           sent := s.socket.value.sent + EncodePacket(s.requestId, EXECCOMMAND, ToBytes(command))))
  {
    RoundTrip(id, ptype, body, more);
  }

  /** A short or empty answer makes the command fail with its own name. */
  lemma ExecuteWithoutReply(s: Session, command: string)
    requires s.socket.Some? && s.socket.value.writable
    requires ReadFrame(s.socket.value.inbound).0.None?
    ensures ExecuteSpec(s, command).1 == Failure("Failed to execute RCON command: " + command)
  {
  }

  /** Once disconnected, every command fails with "Not connected" while the
      id still advances; the wrappers report their defaults. */
  lemma DisconnectedCommandFails(s: Session, command: string, measuredMs: int)
    requires s.socket.None?
    ensures ExecuteSpec(s, command) == (s.(requestId := s.requestId + 1), Failure(NotConnected))
    ensures Rethrown("Failed to save world: ", ExecuteSpec(s, "SaveWorld").1)
      == Failure("Failed to save world: " + NotConnected)
    ensures PlayerListOf(ExecuteSpec(s, "listplayers").1) == PlayerListResult(0, [])
    ensures MaxPlayersOfReply(ExecuteSpec(s, "GetGameLog").1) == 150
    ensures PingOf(ExecuteSpec(s, "GetGameLog").1, measuredMs) == 0
  {
  }

  /** The player count reported is always the length of the player list. */
  lemma PlayerCountIsLength(reply: Result<string, string>)
    ensures PlayerListOf(reply).count == |PlayerListOf(reply).players|
    ensures reply.Failure? ==> PlayerListOf(reply).players == []
  {
  }
}
