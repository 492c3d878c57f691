/** `socks5/mod.rs` and `socks5/tcp_client.rs`: the SOCKS5 client messages and handshake, sections 3 to
    6 of RFC 1928. */
module Socks5 {
  import opened Io

  const VERSION: Byte := 5
  const METHOD_NONE: Byte := 0
  const ATYP_IPV4: Byte := 1
  const ATYP_DOMAIN: Byte := 3
  const ATYP_IPV6: Byte := 4
  const CMD_CONNECT: Byte := 1

  type Octets4 = b: Bytes | |b| == 4 witness [0, 0, 0, 0]
  type Octets16 = b: Bytes | |b| == 16 witness seq(16, _ => 0)
  type Port = n: nat | n < 0x1_0000

  datatype Addr = V4(ip4: Octets4, port: Port) | V6(ip6: Octets16, port: Port) | Domain(name: Bytes, port: Port)

  // ---------------------------------------------------------------------------------------------
  // Messages of the client

  /** The length bytes are the low eight bits of the length. */
  function EncodeGreeting(methods: Bytes): Bytes { [VERSION, |methods| % 256] + methods }

  function EncodeRequest(command: Byte, addr: Addr): Bytes {
    [VERSION, command, 0] +
    match addr
    case V4(ip, port) => [ATYP_IPV4] + ip + Be16(port)
    case V6(ip, port) => [ATYP_IPV6] + ip + Be16(port)
    case Domain(name, port) => [ATYP_DOMAIN, |name| % 256] + name + Be16(port)
  }

  // The server's side of the same formats, as RFC 1928 defines them.

  function DecodeGreeting(s: Bytes): Option<(Bytes, Bytes)> {
    if |s| < 2 || s[0] != VERSION || |s| < 2 + s[1] as int then None
    else Some((s[2..2 + s[1] as int], s[2 + s[1] as int..]))
  }

  function DecodeAddr(s: Bytes): Option<(Addr, Bytes)> {
    if |s| < 2 then None
    else if s[0] == ATYP_IPV4 then
      if |s| < 7 then None else Some((V4(s[1..5], U16(s[5], s[6])), s[7..]))
    else if s[0] == ATYP_IPV6 then
      if |s| < 19 then None else Some((V6(s[1..17], U16(s[17], s[18])), s[19..]))
    else if s[0] == ATYP_DOMAIN then
      var n := s[1] as int;
      if |s| < 4 + n then None else Some((Domain(s[2..2 + n], U16(s[2 + n], s[3 + n])), s[4 + n..]))
    else None
  }

  function DecodeRequest(s: Bytes): Option<(Byte, Addr, Bytes)> {
    if |s| < 3 || s[0] != VERSION || s[2] != 0 then None
    else match DecodeAddr(s[3..])
      case Some((addr, rest)) => Some((s[1], addr, rest))
      case None => None
  }

  lemma U16OfBe16(n: nat)
    requires n < 0x1_0000
    ensures U16(Be16(n)[0], Be16(n)[1]) == n
  {
  }

  /** A greeting is decoded to its methods, with what follows left over, exactly when the method count
      fits one byte. */
  lemma GreetingRoundTrip(methods: Bytes, rest: Bytes)
    ensures DecodeGreeting(EncodeGreeting(methods) + rest) == Some((methods, rest)) <==> |methods| <= 255
  {
    var s := EncodeGreeting(methods) + rest;
    if |methods| <= 255 {
      assert s[2..2 + |methods|] == methods && s[2 + |methods|..] == rest;
    }
  }

  lemma DomainRoundTrip(name: Bytes, port: Port, rest: Bytes)
    ensures DecodeAddr([ATYP_DOMAIN, |name| % 256] + name + Be16(port) + rest) == Some((Domain(name, port), rest))
      <==> |name| <= 255
  {
    var s := [ATYP_DOMAIN, |name| % 256] + name + Be16(port) + rest;
    U16OfBe16(port);
    if |name| <= 255 {
      var n := |name|;
      assert s[2..2 + n] == name;
      assert s[2 + n] == Be16(port)[0] && s[3 + n] == Be16(port)[1];
      assert s[4 + n..] == rest;
    } else if DecodeAddr(s).Some? {
      assert |s[2..2 + s[1] as int]| <= 255;
    }
  }

  lemma IpRoundTrip(kind: Byte, ip: Bytes, port: Port, rest: Bytes)
    requires (kind == ATYP_IPV4 && |ip| == 4) || (kind == ATYP_IPV6 && |ip| == 16)
    ensures DecodeAddr([kind] + ip + Be16(port) + rest)
         == Some((if kind == ATYP_IPV4 then V4(ip, port) else V6(ip, port), rest))
  {
    var s := [kind] + ip + Be16(port) + rest;
    U16OfBe16(port);
    var n := |ip|;
    assert s[1..1 + n] == ip && s[1 + n] == Be16(port)[0] && s[2 + n] == Be16(port)[1] && s[3 + n..] == rest;
  }

  /** Requests are uniquely decodable when followed by any payload, exactly for domains of at most 255
      bytes; longer ones go out with a truncated length byte. */
  lemma RequestRoundTrip(command: Byte, addr: Addr, rest: Bytes)
    ensures DecodeRequest(EncodeRequest(command, addr) + rest) == Some((command, addr, rest))
      <==> (addr.Domain? ==> |addr.name| <= 255)
  {
    var s := EncodeRequest(command, addr) + rest;
    match addr {
      case V4(ip, port) =>
        assert s[3..] == [ATYP_IPV4] + ip + Be16(port) + rest;
        IpRoundTrip(ATYP_IPV4, ip, port, rest);
      case V6(ip, port) =>
        assert s[3..] == [ATYP_IPV6] + ip + Be16(port) + rest;
        IpRoundTrip(ATYP_IPV6, ip, port, rest);
      case Domain(name, port) =>
        assert s[3..] == [ATYP_DOMAIN, |name| % 256] + name + Be16(port) + rest;
        DomainRoundTrip(name, port, rest);
    }
  }

  /** The client's messages, byte for byte. */
  lemma MessageBytes(addr: Addr)
    ensures EncodeGreeting([0]) == [5, 1, 0]
    ensures EncodeRequest(1, addr) ==
      match addr
      case V4(ip, port) => [5, 1, 0, 1] + ip + [port / 256, port % 256]
      case V6(ip, port) => [5, 1, 0, 4] + ip + [port / 256, port % 256]
      case Domain(name, port) => [5, 1, 0, 3, |name| % 256] + name + [port / 256, port % 256]
  {
  }

  // ---------------------------------------------------------------------------------------------
  // Replies

  datatype Reply =
    | Succeeded | GeneralFailure | ConnectionNotAllowed | NetworkUnreachable | HostUnreachable
    | ConnectionRefused | TtlExpired | CommandNotSupported | AddressTypeNotSupported | OtherReply(code: Byte)

  function ReplyCode(r: Reply): Byte {
    match r
    case Succeeded => 0
    case GeneralFailure => 1
    case ConnectionNotAllowed => 2
    case NetworkUnreachable => 3
    case HostUnreachable => 4
    case ConnectionRefused => 5
    case TtlExpired => 6
    case CommandNotSupported => 7
    case AddressTypeNotSupported => 8
    case OtherReply(c) => c
  }

  function ReplyOf(code: Byte): Reply {
    match code
    case 0 => Succeeded
    case 1 => GeneralFailure
    case 2 => ConnectionNotAllowed
    case 3 => NetworkUnreachable
    case 4 => HostUnreachable
    case 5 => ConnectionRefused
    case 6 => TtlExpired
    case 7 => CommandNotSupported
    case 8 => AddressTypeNotSupported
    case _ => OtherReply(code)
  }

  /** The names of the codes, and no other code has one of them. */
  lemma ReplyNames(code: Byte)
    ensures ReplyOf(code) == if code <= 8
      then [Succeeded, GeneralFailure, ConnectionNotAllowed, NetworkUnreachable, HostUnreachable,
            ConnectionRefused, TtlExpired, CommandNotSupported, AddressTypeNotSupported][code]
      else OtherReply(code)
  {
  }

  /** Codes survive the round trip through replies; a reply does unless it is a named code in disguise. */
  lemma ReplyRoundTrip(code: Byte, r: Reply)
    ensures ReplyCode(ReplyOf(code)) == code
    ensures ReplyOf(ReplyCode(r)) == r <==> !(r.OtherReply? && r.code <= 8)
  {
  }

  // ---------------------------------------------------------------------------------------------
  // The handshake

  datatype Failure = Truncated | BadVersion | BadMethod | Refused(reply: Reply)

  /** A connection to the proxy: what the server has sent and is still unread, and what the client has
      written. */
  datatype Wire = Wire(input: Bytes, output: Bytes)

  function ReadExact(w: Wire, n: nat): Option<(Wire, Bytes)> {
    if |w.input| < n then None else Some((w.(input := w.input[n..]), w.input[..n]))
  }

  /** `Unimplemented`: the code panics on this address type. */
  datatype Response = Got(reply: Reply, bound: Addr) | Unread(why: Failure) | Unimplemented

  /** `Socks5TcpResponse::read_from`. */
  function ReadResponse(w: Wire): (Wire, Response) {
    match ReadExact(w, 4)
    case None => (w.(input := []), Unread(Truncated))
    case Some((w1, head)) =>
      if head[0] != VERSION then (w1, Unread(BadVersion))
      else if head[3] == ATYP_IPV4 then
        match ReadExact(w1, 6)
        case None => (w1.(input := []), Unread(Truncated))
        case Some((w2, b)) => (w2, Got(ReplyOf(head[1]), V4(b[..4], U16(b[4], b[5]))))
      else if head[3] == ATYP_IPV6 then
        match ReadExact(w1, 18)
        case None => (w1.(input := []), Unread(Truncated))
        case Some((w2, b)) => (w2, Got(ReplyOf(head[1]), V6(b[..16], U16(b[16], b[17]))))
      else (w1, Unimplemented)
  }

  datatype Outcome = Connected | Aborted(why: Failure) | Panic

  /** `Sock5TcpStream::connect`, once the TCP connection to the proxy is up. */
  function Handshake(w: Wire, addr: Addr): (Wire, Outcome) {
    var w0 := w.(output := w.output + EncodeGreeting([METHOD_NONE]));
    match ReadExact(w0, 2)
    case None => (w0.(input := []), Aborted(Truncated))
    case Some((w1, hello)) =>
      if hello[0] != VERSION then (w1, Aborted(BadVersion))
      else if hello[1] != METHOD_NONE then (w1, Aborted(BadMethod))
      else
        match ReadResponse(w1.(output := w1.output + EncodeRequest(CMD_CONNECT, addr)))
        case (w2, Unread(why)) => (w2, Aborted(why))
        case (w2, Unimplemented) => (w2, Panic)
        case (w2, Got(reply, _)) => (w2, if reply.Succeeded? then Connected else Aborted(Refused(reply)))
  }

  // What a server sends, as RFC 1928 defines it, with an IPv4 or IPv6 bound address.

  function EncodeBound(bound: Addr): Bytes
    requires !bound.Domain?
  {
    match bound
    case V4(ip, port) => ip + Be16(port)
    case V6(ip, port) => ip + Be16(port)
  }

  function EncodeResponse(code: Byte, reserved: Byte, bound: Addr): Bytes
    requires !bound.Domain?
  { [VERSION, code, reserved, if bound.V4? then ATYP_IPV4 else ATYP_IPV6] + EncodeBound(bound) }

  /** Version 5 without authentication, then version 5, reply 0 and the bound address. */
  function Acceptance(reserved: Byte, bound: Addr): Bytes
    requires !bound.Domain?
  {
    match bound
    case V4(ip, port) => [5, 0, 5, 0, reserved, 1] + ip + [port / 256, port % 256]
    case V6(ip, port) => [5, 0, 5, 0, reserved, 4] + ip + [port / 256, port % 256]
  }

  lemma AcceptanceParts(reserved: Byte, bound: Addr)
    requires !bound.Domain?
    ensures Acceptance(reserved, bound) == [VERSION, METHOD_NONE] + EncodeResponse(0, reserved, bound)
  {
  }

  /** The server accepts and `rest` is what it sends afterwards. */
  ghost predicate ServerAccepts(input: Bytes, rest: Bytes) {
    exists reserved: Byte, bound: Addr :: !bound.Domain? && input == Acceptance(reserved, bound) + rest
  }

  /** A response is read back with its reply and bound address, and not a byte further. */
  lemma ResponseRoundTrip(code: Byte, reserved: Byte, bound: Addr, rest: Bytes, output: Bytes)
    requires !bound.Domain?
    ensures ReadResponse(Wire(EncodeResponse(code, reserved, bound) + rest, output))
         == (Wire(rest, output), Got(ReplyOf(code), bound))
  {
    var i := EncodeResponse(code, reserved, bound) + rest;
    var b := EncodeBound(bound);
    U16OfBe16(bound.port);
    assert i[..4] == [VERSION, code, reserved, if bound.V4? then ATYP_IPV4 else ATYP_IPV6];
    assert i[4..] == b + rest;
    assert i[4..][..|b|] == b && i[4..][|b|..] == rest;
    match bound {
      case V4(ip, port) => assert b[..4] == ip && b[4..] == Be16(port);
      case V6(ip, port) => assert b[..16] == ip && b[16..] == Be16(port);
    }
  }

  /** When the server accepts, the connection is made; exactly the handshake is consumed, so that the
      first byte of application data is still unread; and the client has written its greeting and its
      request, nothing else. */
  lemma AcceptedConnects(w: Wire, addr: Addr, rest: Bytes)
    requires ServerAccepts(w.input, rest)
    ensures Handshake(w, addr)
         == (Wire(rest, w.output + EncodeGreeting([0]) + EncodeRequest(1, addr)), Connected)
  {
    var reserved: Byte, bound: Addr :| !bound.Domain? && w.input == Acceptance(reserved, bound) + rest;
    AcceptanceParts(reserved, bound);
    Regroup(EncodeResponse(0, reserved, bound), rest);
    ResponseConnects(w, addr, EncodeResponse(0, reserved, bound) + rest, reserved, bound, rest);
  }

  lemma Regroup(response: Bytes, rest: Bytes)
    ensures [VERSION, METHOD_NONE] + response + rest == [VERSION, METHOD_NONE] + (response + rest)
  {
  }

  lemma ResponseConnects(w: Wire, addr: Addr, tail: Bytes, reserved: Byte, bound: Addr, rest: Bytes)
    requires !bound.Domain? && tail == EncodeResponse(0, reserved, bound) + rest
    requires w.input == [VERSION, METHOD_NONE] + tail
    ensures Handshake(w, addr)
         == (Wire(rest, w.output + EncodeGreeting([METHOD_NONE]) + EncodeRequest(CMD_CONNECT, addr)), Connected)
  {
    assert w.input[..2] == [VERSION, METHOD_NONE] && w.input[2..] == tail;
    ResponseRoundTrip(0, reserved, bound, rest,
                      w.output + EncodeGreeting([METHOD_NONE]) + EncodeRequest(CMD_CONNECT, addr));
  }

  /** A response that is read was sent as the encoding of its reply and address. */
  lemma ResponseWasSent(w: Wire)
    requires ReadResponse(w).1.Got?
    ensures var (w', got) := ReadResponse(w);
      |w.input| >= 3 && !got.bound.Domain? && got.reply == ReplyOf(w.input[1])
      && w.input == EncodeResponse(w.input[1], w.input[2], got.bound) + w'.input
  {
    var i := w.input;
    var n := if i[3] == ATYP_IPV4 then 6 else 18;
    var b := i[4..][..n];
    assert b == b[..n - 2] + [b[n - 2], b[n - 1]];
    assert EncodeBound(ReadResponse(w).1.bound) == b;
    assert i == i[..4] + (b + i[4..][n..]);
  }

  lemma ConnectedWasAccepted(w: Wire, addr: Addr)
    requires Handshake(w, addr).1 == Connected
    ensures ServerAccepts(w.input, Handshake(w, addr).0.input)
  {
    var i, rest := w.input, Handshake(w, addr).0.input;
    var w1 := Wire(i[2..], w.output + EncodeGreeting([METHOD_NONE]) + EncodeRequest(CMD_CONNECT, addr));
    ResponseWasSent(w1);
    var bound := ReadResponse(w1).1.bound;
    assert ReplyCode(ReplyOf(w1.input[1])) == 0;
    assert i[..2] == [VERSION, METHOD_NONE] && i == i[..2] + i[2..];
    SplitAcceptance(i, w1.input[2], bound, rest);
  }

  lemma SplitAcceptance(i: Bytes, reserved: Byte, bound: Addr, rest: Bytes)
    requires !bound.Domain? && i == [VERSION, METHOD_NONE] + (EncodeResponse(0, reserved, bound) + rest)
    ensures ServerAccepts(i, rest)
  {
    AcceptanceParts(reserved, bound);
    assert i == Acceptance(reserved, bound) + rest;
  }

  /** `connect` succeeds exactly on an accepting server, and then with the stream just past the
      handshake. */
  lemma ConnectExactly(w: Wire, addr: Addr, rest: Bytes)
    ensures ServerAccepts(w.input, rest) <==> Handshake(w, addr).1 == Connected && Handshake(w, addr).0.input == rest
  {
    if ServerAccepts(w.input, rest) { AcceptedConnects(w, addr, rest); }
    if Handshake(w, addr).1 == Connected { ConnectedWasAccepted(w, addr); }
  }

  /** How many bytes a response with address type `kind` has, if that type is read at all. */
  function ResponseLength(kind: Byte): Option<nat> {
    match kind
    case 1 => Some(10)
    case 4 => Some(22)
    case _ => None
  }

  /** The server's choice of method is in: version 5, no authentication. */
  predicate Welcomed(i: Bytes) { |i| >= 2 && i[0] == 5 && i[1] == 0 }

  /** The head of the response is in, with version 5. */
  predicate Responded(i: Bytes) { Welcomed(i) && |i| >= 6 && i[2] == 5 }

  predicate Complete(i: Bytes) { Responded(i) && ResponseLength(i[5]).Some? && |i| >= 2 + ResponseLength(i[5]).value }

  /** Every outcome of reading a response, exactly. */
  lemma ResponseExactly(w: Wire)
    ensures var i := w.input; var (w', got) := ReadResponse(w);
      && w'.output == w.output
      && (got == Unread(BadVersion) <==> |i| >= 4 && i[0] != 5)
      && (got == Unimplemented <==> |i| >= 4 && i[0] == 5 && ResponseLength(i[3]).None?)
      && (got.Got? <==> |i| >= 4 && i[0] == 5 && ResponseLength(i[3]).Some? && |i| >= ResponseLength(i[3]).value)
      && (got.Got? ==> got.reply == ReplyOf(i[1]) && w'.input == i[ResponseLength(i[3]).value..])
      && got != Unread(BadMethod) && (got.Unread? ==> got.why == Truncated || got.why == BadVersion)
  {
  }

  lemma Unwelcome(w: Wire, addr: Addr)
    requires !Welcomed(w.input)
    ensures var i := w.input; var (w', o) := Handshake(w, addr);
      && w'.output == w.output + [5, 1, 0]
      && o == Aborted(if |i| < 2 then Truncated else if i[0] != 5 then BadVersion else BadMethod)
  {
    MessageBytes(addr);
  }

  lemma AfterWelcome(w: Wire, addr: Addr)
    requires Welcomed(w.input)
    ensures Handshake(w, addr) ==
      match ReadResponse(Wire(w.input[2..], w.output + [5, 1, 0] + EncodeRequest(1, addr)))
      case (w2, Unread(why)) => (w2, Aborted(why))
      case (w2, Unimplemented) => (w2, Panic)
      case (w2, Got(reply, _)) => (w2, if reply.Succeeded? then Connected else Aborted(Refused(reply)))
  {
    MessageBytes(addr);
  }

  /** Every outcome of the handshake, exactly, in terms of the bytes that the server sends; what is none of
      these is `Aborted(Truncated)`. */
  lemma HandshakeExactly(w: Wire, addr: Addr)
    ensures var i := w.input; var (w', o) := Handshake(w, addr);
      && (o == Connected <==> Complete(i) && i[3] == 0)
      && (forall r :: o == Aborted(Refused(r)) <==> Complete(i) && i[3] != 0 && r == ReplyOf(i[3]))
      && (o == Aborted(BadMethod) <==> |i| >= 2 && i[0] == 5 && i[1] != 0)
      && (o == Aborted(BadVersion) <==> (|i| >= 2 && i[0] != 5) || (Welcomed(i) && |i| >= 6 && i[2] != 5))
      && (o == Panic <==> Responded(i) && i[5] != 1 && i[5] != 4)
      && w'.output == w.output + [5, 1, 0] + (if Welcomed(i) then EncodeRequest(1, addr) else [])
  {
    var i := w.input;
    if Welcomed(i) {
      AfterWelcome(w, addr);
      ResponseExactly(Wire(i[2..], w.output + [5, 1, 0] + EncodeRequest(1, addr)));
      if |i| >= 6 { ReplyNames(i[3]); }
    } else {
      Unwelcome(w, addr);
    }
  }

  /** The stream object that `connect` reads and writes. */
  class ProxyStream {
    var input: Bytes
    var output: Bytes

    function View(): Wire
      reads this
    { Wire(input, output) }

    constructor (input: Bytes)
      ensures View() == Wire(input, [])
    { this.input, output := input, []; }

    method WriteAll(data: Bytes)
      modifies this`output
      ensures output == old(output) + data
    { output := output + data; }

    method ReadExactly(n: nat) returns (r: Option<Bytes>)
      modifies this`input
      ensures match ReadExact(old(View()), n)
              case None => r.None? && input == []
              case Some((w, data)) => r == Some(data) && input == w.input
    {
      if |input| < n {
        input := [];
        return None;
      }
      r := Some(input[..n]);
      input := input[n..];
    }

    method ReadReply() returns (o: Response)
      modifies this`input
      ensures (View(), o) == ReadResponse(old(View()))
    {
      var head := ReadExactly(4);
      if head.None? { return Unread(Truncated); }
      if head.value[0] != VERSION { return Unread(BadVersion); }
      var reply := ReplyOf(head.value[1]);
      if head.value[3] == ATYP_IPV4 {
        var b := ReadExactly(6);
        if b.None? { return Unread(Truncated); }
        return Got(reply, V4(b.value[..4], U16(b.value[4], b.value[5])));
      } else if head.value[3] == ATYP_IPV6 {
        var b := ReadExactly(18);
        if b.None? { return Unread(Truncated); }
        return Got(reply, V6(b.value[..16], U16(b.value[16], b.value[17])));
      } else {
        return Unimplemented;
      }
    }

    method Connect(addr: Addr) returns (o: Outcome)
      modifies this
      ensures (View(), o) == Handshake(old(View()), addr)
    {
      WriteAll(EncodeGreeting([METHOD_NONE]));
      var hello := ReadExactly(2);
      if hello.None? { return Aborted(Truncated); }
      if hello.value[0] != VERSION { return Aborted(BadVersion); }
      if hello.value[1] != METHOD_NONE { return Aborted(BadMethod); }
      WriteAll(EncodeRequest(CMD_CONNECT, addr));
      var resp := ReadReply();
      match resp {
        case Unread(why) => return Aborted(why);
        case Unimplemented => return Panic;
        case Got(reply, _) =>
          if reply.Succeeded? { return Connected; }
          return Aborted(Refused(reply));
      }
    }
  }
}
