/** `tcp.rs`: how a tunnelled connection finds its way back from a fake address to the domain that was
    asked for, and what the SOCKS5 proxy is told. */
module Tunnel {
  import opened Io
  import opened FakeDns
  import opened Socks5

  datatype Destination = Ip4(ip: nat, port: Port) | Ip6(ip6: Octets16, port: Port)

  datatype Dial = ViaProxy(addr: Addr) | Direct(dst: Destination)

  /** Which way `handle_tcp_stream` connects: an IPv4 address with a recorded domain goes through the
      proxy by name, everything else directly. */
  function Route(t: Table, dst: Destination): Dial {
    if dst.Ip4? && dst.ip in t.ipToDomain then ViaProxy(Domain(t.ipToDomain[dst.ip], dst.port)) else Direct(dst)
  }

  /** Where every connection goes, after any queries: through the proxy, by the name that holds its fake
      address now, if one does; and directly to its own destination otherwise. */
  lemma RouteExactly(domains: seq<Text>, dst: Destination)
    ensures var dial := Route(Resolves(EmptyTable(), domains), dst); var log := LogOf(domains);
      && (forall i :: Live(log, i) && dst.Ip4? && dst.ip == AddressAt(i) ==> dial == ViaProxy(Domain(log[i], dst.port)))
      && ((forall i :: Live(log, i) ==> !(dst.Ip4? && dst.ip == AddressAt(i))) ==> dial == Direct(dst))
  {
    TableRefinesLog(domains);
  }

  /** What a server that follows RFC 1928 makes of the client's bytes: the methods offered, then the
      command and the address, and what is left. */
  function ServerReads(output: Bytes): Option<(Bytes, Byte, Addr, Bytes)> {
    match DecodeGreeting(output)
    case None => None
    case Some((methods, more)) =>
      match DecodeRequest(more)
      case None => None
      case Some((command, addr, rest)) => Some((methods, command, addr, rest))
  }

  lemma ServerUnderstands(addr: Addr)
    requires addr.Domain? ==> |addr.name| <= 255
    ensures ServerReads([] + EncodeGreeting([METHOD_NONE]) + EncodeRequest(CMD_CONNECT, addr))
         == Some(([METHOD_NONE], CMD_CONNECT, addr, []))
  {
    var request := EncodeRequest(CMD_CONNECT, addr);
    GreetingRoundTrip([METHOD_NONE], request);
    RequestRoundTrip(CMD_CONNECT, addr, []);
    assert request + [] == request;
    assert [] + EncodeGreeting([METHOD_NONE]) + request == EncodeGreeting([METHOD_NONE]) + request;
  }

  /** End to end: a client asks for `d` and is given a fake address; queries go on, with at most 65023
      further allocations; a connection to that address is then made through the proxy, and an accepting
      proxy is asked for exactly `d` and the client's port, with nothing before, after or lost. */
  lemma DomainReachesProxy(before: seq<Text>, d: Text, later: seq<Text>, port: Port, input: Bytes, rest: Bytes)
    requires !Known(LogOf(before), d) && |d| <= 255
    requires |LogOf(before + [d] + later)| - |LogOf(before)| - 1 < SLOTS
    requires ServerAccepts(input, rest)
    ensures var ip := Resolve(Resolves(EmptyTable(), before), d).1;
      && ip.Some?
      && var dial := Route(Resolves(EmptyTable(), before + [d] + later), Ip4(ip.value, port));
         && dial == ViaProxy(Domain(d, port))
         && var (w, o) := Handshake(Wire(input, []), dial.addr);
            o == Connected && w.input == rest
            && ServerReads(w.output) == Some(([METHOD_NONE], CMD_CONNECT, Domain(d, port), []))
  {
    AddressLifetime(before, d, later);
    AcceptedConnects(Wire(input, []), Domain(d, port), rest);
    ServerUnderstands(Domain(d, port));
  }
}
