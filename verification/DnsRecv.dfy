/** `dns_proxy.rs`: the receive task, which takes datagrams, or frames reassembled from arbitrary partial
    reads, into one reused buffer and answers clients out of the session map. */
module DnsRecv {
  import opened Io
  import opened DnsSessions
  import opened DnsFraming

  datatype UpstreamIn = TcpIn(r: ReadHalf) | UdpIn(u: DatagramIn)
  {
    ghost predicate Valid() {
      match this
      case TcpIn(r) => r.Valid()
      case UdpIn(u) => u.Valid()
    }

    /** Bytes or datagrams not yet received. */
    function Unread(): nat
      requires Valid()
    {
      match this
      case TcpIn(r) => r.Unread()
      case UdpIn(u) => |u.incoming| - u.taken
    }

    ghost predicate Unused() {
      match this
      case TcpIn(r) => r.taken == 0
      case UdpIn(u) => u.taken == 0
    }

    /** Everything that the upstream sends on the same connection or to the same socket. */
    ghost predicate SameSender(that: UpstreamIn) {
      match this
      case TcpIn(r) => that.TcpIn? && that.r.source == r.source
      case UdpIn(u) => that.UdpIn? && that.u.incoming == u.incoming
    }
  }

  datatype RecvState = Begin | Header(got: nat) | Body(len: nat, got: nat) | Locked

  /** `RecvFut`.  `handed` records the payloads given to the message decoder. */
  datatype RecvTask = RecvTask(state: RecvState, buf: Bytes, up: UpstreamIn, msg: Option<Message>, handed: seq<Bytes>)

  /** A datagram written to the tunnel. */
  datatype Packet = Packet(data: Bytes, from: nat, to: nat)

  datatype RecvEnd = Again | Wait | Cancelled | UpstreamClosed | ReceiveFailed

  datatype RecvOut = RecvOut(t: RecvTask, sessions: map<Wire, Session>, packets: seq<Packet>, end: RecvEnd)

  function Fill(buf: Bytes, at: nat, data: Bytes): (b: Bytes)
    requires at + |data| <= |buf|
    ensures |b| == |buf| && b[..at + |data|] == buf[..at] + data
  { buf[..at] + data + buf[at + |data|..] }

  function Grow(buf: Bytes, len: nat): (b: Bytes)
    ensures |b| >= len && buf <= b
  { if |buf| < len then buf + seq(len - |buf|, _ => 0) else buf }

  ghost predicate RecvShape(t: RecvTask) {
    && t.up.Valid() && |t.buf| >= 2
    && (t.state.Header? ==> t.up.TcpIn? && t.state.got < 2)
    && (t.state.Body? ==> t.up.TcpIn? && t.state.got < t.state.len <= |t.buf| && t.state.len < WRAP)
    && (t.state.Locked? ==> t.msg.Some?)
  }

  /** What a header with `n` bytes read leads to: more header, the next frame, or the body. */
  function HeaderRead(buf: Bytes, n: nat): (res: (RecvState, Bytes))
    requires 0 < n <= 2 <= |buf|
    ensures |res.1| >= 2
    ensures res.0.Header? ==> res.0.got < 2
    ensures res.0.Body? ==> res.0.got < res.0.len <= |res.1| && res.0.len < WRAP
    ensures !res.0.Locked? && (n == 2 ==> !res.0.Header?)
  {
    if n < 2 then (Header(n), buf)
    else
      var len := U16(buf[0], buf[1]);
      if len == 0 then (Begin, buf) else (Body(len, 0), Grow(buf, len))
  }

  /** Give a whole payload to the decoder; a message is kept for its session, anything else is skipped. */
  function Hand(c: Codec, t: RecvTask, payload: Bytes): (t': RecvTask)
    requires t.up.Valid() && |t.buf| >= 2
    ensures RecvShape(t') && t'.up == t.up && t'.buf == t.buf && t'.handed == t.handed + [payload]
    ensures t'.state == (if c.decode(payload).Some? then Locked else Begin)
    ensures t'.state.Locked? ==> t'.msg == c.decode(payload)
  {
    var t' := t.(handed := t.handed + [payload]);
    match c.decode(payload)
    case None => t'.(state := Begin)
    case Some(m) => t'.(msg := Some(m), state := Locked)
  }

  function DatagramStep(c: Codec, t: RecvTask): (o: (RecvTask, RecvEnd))
    requires RecvShape(t) && t.state.Begin? && t.up.UdpIn?
    ensures RecvShape(o.0) && o.0.up.SameSender(t.up) && (o.1.Again? ==> o.0.up.Unread() < t.up.Unread())
  {
    var (u', p) := t.up.u.PollRecv(|t.buf|);
    var t' := t.(up := UdpIn(u'));
    match p
    case Pending => (t', Wait)
    case Failed(_) => (t', ReceiveFailed)
    case Ready(data) =>
      var buf' := Fill(t.buf, 0, data);
      (Hand(c, t'.(buf := buf'), buf'[..|data|]), Again)
  }

  function HeaderStep(t: RecvTask): (o: (RecvTask, RecvEnd))
    requires RecvShape(t) && t.state.Header?
    ensures RecvShape(o.0) && o.0.up.SameSender(t.up) && (o.1.Again? ==> o.0.up.Unread() < t.up.Unread())
    ensures o.0.handed == t.handed && !o.0.state.Locked?
  {
    var got := t.state.got;
    var (r', p) := t.up.r.PollRead(2 - got);
    var t' := t.(up := TcpIn(r'));
    match p
    case Pending => (t', Wait)
    case Failed(_) => (t', ReceiveFailed)
    case Ready(data) =>
      if data == [] then (t', UpstreamClosed)
      else
        var (state, buf) := HeaderRead(Fill(t.buf, got, data), got + |data|);
        (t'.(buf := buf, state := state), if state.Header? then Wait else Again)
  }

  function BodyStep(c: Codec, t: RecvTask): (o: (RecvTask, RecvEnd))
    requires RecvShape(t) && t.state.Body?
    ensures RecvShape(o.0) && o.0.up.SameSender(t.up) && (o.1.Again? ==> o.0.up.Unread() < t.up.Unread())
  {
    var (len, got) := (t.state.len, t.state.got);
    var (r', p) := t.up.r.PollRead(len - got);
    var t' := t.(up := TcpIn(r'));
    match p
    case Pending => (t', Wait)
    case Failed(_) => (t', ReceiveFailed)
    case Ready(data) =>
      if data == [] then (t', UpstreamClosed)
      else
        var buf' := Fill(t.buf, got, data);
        if got + |data| < len then (t'.(buf := buf', state := Body(len, got + |data|)), Wait)
        else (Hand(c, t'.(buf := buf'), buf'[..len]), Again)
  }

  /** The reply's session is removed; the reply goes out under the client's own id. */
  function LockedStep(c: Codec, m: Message, sessions: map<Wire, Session>): (map<Wire, Session>, seq<Packet>) {
    if m.id !in sessions then (sessions, [])
    else
      var x := sessions[m.id];
      (sessions - {m.id},
       match c.encode(m.(id := x.oldId))
       case Some(data) => [Packet(data, x.peer.dest, x.peer.src)]
       case None => [])
  }

  /** One round of the `RecvFut::poll` loop.  `running` is the cancel flag as loaded in this round,
      `locked` whether the session map's lock is obtained. */
  function RecvStep(c: Codec, t: RecvTask, sessions: map<Wire, Session>, running: bool, locked: bool): (o: RecvOut)
    requires RecvShape(t)
    ensures RecvShape(o.t) && o.t.up.SameSender(t.up)
    ensures o.end.Again? ==> (t.up.Unread(), RecvRank(t) decreases to o.t.up.Unread(), RecvRank(o.t))
    ensures !t.state.Locked? || !running || !locked ==> o.sessions == sessions && o.packets == []
    ensures t.state.Locked? && !(running && locked) ==> o.t == t
    ensures t.state.Locked? && running ==> o.end.Again? || o.end.Wait?
  {
    if !running then RecvOut(t, sessions, [], Cancelled)
    else match t.state
      case Begin =>
        (match t.up
         case TcpIn(_) => RecvOut(t.(state := Header(0)), sessions, [], Again)
         case UdpIn(_) => var (t', e) := DatagramStep(c, t); RecvOut(t', sessions, [], e))
      case Header(_) => var (t', e) := HeaderStep(t); RecvOut(t', sessions, [], e)
      case Body(_, _) => var (t', e) := BodyStep(c, t); RecvOut(t', sessions, [], e)
      case Locked =>
        if !locked then RecvOut(t, sessions, [], Wait)
        else
          var (sessions', packets) := LockedStep(c, t.msg.value, sessions);
          RecvOut(t.(msg := None, state := Begin), sessions', packets, Again)
  }

  function RecvRank(t: RecvTask): nat {
    match t.state
    case Locked => 2
    case Begin => 1
    case _ => 0
  }

  /** The bytes of the frame being received. */
  function PartOf(state: RecvState, buf: Bytes): Bytes
    requires (state.Header? ==> state.got <= |buf|) && (state.Body? ==> state.got <= |buf| && state.len < WRAP)
  {
    match state
    case Header(got) => buf[..got]
    case Body(len, got) => Be16(len) + buf[..got]
    case _ => []
  }

  function Partial(t: RecvTask): Bytes
    requires RecvShape(t)
  { PartOf(t.state, t.buf) }

  /** The datagrams as they fit a buffer of `room` bytes. */
  function Cut(datagrams: seq<Bytes>, room: nat): seq<Bytes> {
    seq(|datagrams|, i requires 0 <= i < |datagrams| => datagrams[i][..Min(room, |datagrams[i]|)])
  }

  /** The task has handed over exactly what it has received: over TCP the payloads of the bytes read, of
      which it holds the rest; over UDP the datagrams. */
  ghost predicate Reassembled(t: RecvTask) {
    && RecvShape(t)
    && match t.up
       case TcpIn(r) => Deframe(r.source[..r.taken]) == (t.handed, Partial(t))
       case UdpIn(u) => t.handed == Cut(u.incoming[..u.taken], |t.buf|)
  }

  /** `r'` is `r` after reading `data`. */
  ghost predicate Reads(r: ReadHalf, data: Bytes, r': ReadHalf)
    requires r.Valid() && r'.Valid()
  { r'.source[..r'.taken] == r.source[..r.taken] + data }

  /** Reading `data` keeps reassembly exact when the frame in progress is deframed correctly. */
  lemma Absorbed(t: RecvTask, t': RecvTask, data: Bytes, ps: seq<Bytes>)
    requires Reassembled(t) && RecvShape(t') && t.up.TcpIn? && t'.up.TcpIn? && Reads(t.up.r, data, t'.up.r)
    requires Deframe(Partial(t) + data) == (ps, Partial(t')) && t'.handed == t.handed + ps
    ensures Reassembled(t')
  {
    DeframeResumes(t.up.r.source[..t.up.r.taken], data, t.handed, Partial(t));
  }

  lemma DeframeHeader(read: Bytes)
    requires |read| <= 2
    ensures Deframe(read) == ([], HeaderRest(read))
  {
    if |read| == 2 && U16(read[0], read[1]) == 0 {
      assert read == Be16(0) + [];
      DeframeWhole([]);
    } else {
      assert FirstLength(read).None?;
    }
  }

  /** What is left of a header once a zero length has been skipped. */
  function HeaderRest(read: Bytes): Bytes {
    if |read| == 2 && U16(read[0], read[1]) == 0 then [] else read
  }

  lemma HeaderReadPart(buf: Bytes, n: nat)
    requires 0 < n <= 2 <= |buf|
    ensures var (state, buf') := HeaderRead(buf, n); PartOf(state, buf') == HeaderRest(buf[..n])
  {
    var (state, buf') := HeaderRead(buf, n);
    if state.Body? {
      assert buf[..2] == [buf[0], buf[1]] && buf'[..0] == [];
    }
  }

  lemma HeaderPartial(t: RecvTask, data: Bytes)
    requires RecvShape(t) && t.state.Header? && t.up.r.PollRead(2 - t.state.got).1 == Ready(data) && data != []
    ensures var t' := HeaderStep(t).0; Partial(t') == HeaderRest(Partial(t) + data) && Reads(t.up.r, data, t'.up.r)
  {
    HeaderReadPart(Fill(t.buf, t.state.got, data), t.state.got + |data|);
  }

  lemma HeaderAbsorbs(t: RecvTask, t': RecvTask, data: Bytes)
    requires Reassembled(t) && t.state.Header? && |Partial(t) + data| <= 2 && RecvShape(t') && t'.up.TcpIn?
    requires Partial(t') == HeaderRest(Partial(t) + data) && t'.handed == t.handed && Reads(t.up.r, data, t'.up.r)
    ensures Reassembled(t')
  {
    DeframeHeader(Partial(t) + data);
    assert t'.handed == t.handed + [];
    Absorbed(t, t', data, []);
  }

  lemma HeaderKeeps(t: RecvTask)
    requires Reassembled(t) && t.state.Header?
    ensures Reassembled(HeaderStep(t).0)
  {
    var p := t.up.r.PollRead(2 - t.state.got).1;
    if p.Ready? && p.value != [] {
      HeaderPartial(t, p.value);
      HeaderAbsorbs(t, HeaderStep(t).0, p.value);
    }
  }

  /** The frame in progress once `data` has landed in the buffer behind the first `got` bytes. */
  lemma BodyPartial(len: nat, buf: Bytes, got: nat, data: Bytes)
    requires len < WRAP && got + |data| <= len <= |buf|
    ensures Be16(len) + buf[..got] + data == Be16(len) + Fill(buf, got, data)[..got + |data|]
  {
    Regroup(Be16(len), buf[..got], data);
  }

  /** What a body read leaves: a longer frame in progress, or one more payload handed over. */
  lemma BodyRead(c: Codec, t: RecvTask, data: Bytes)
    requires RecvShape(t) && t.state.Body? && t.up.r.PollRead(t.state.len - t.state.got).1 == Ready(data) && data != []
    ensures var t' := BodyStep(c, t).0; var n := t.state.got + |data|;
      && t'.up.TcpIn? && Reads(t.up.r, data, t'.up.r) && |t'.buf| >= n
      && (n < t.state.len ==> t'.handed == t.handed && Partial(t') == Be16(t.state.len) + t'.buf[..n])
      && (n == t.state.len ==> t'.handed == t.handed + [t'.buf[..n]] && Partial(t') == [])
      && t'.buf == Fill(t.buf, t.state.got, data)
  {
  }

  lemma BodyShort(c: Codec, t: RecvTask, data: Bytes)
    requires Reassembled(t) && t.state.Body? && t.up.r.PollRead(t.state.len - t.state.got).1 == Ready(data)
    requires data != [] && t.state.got + |data| < t.state.len
    ensures Reassembled(BodyStep(c, t).0)
  {
    BodyRead(c, t, data);
    BodyPartial(t.state.len, t.buf, t.state.got, data);
    DeframeShort(t.state.len, Fill(t.buf, t.state.got, data)[..t.state.got + |data|]);
    assert t.handed == t.handed + [];
    Absorbed(t, BodyStep(c, t).0, data, []);
  }

  lemma BodyWhole(c: Codec, t: RecvTask, data: Bytes)
    requires Reassembled(t) && t.state.Body? && t.up.r.PollRead(t.state.len - t.state.got).1 == Ready(data)
    requires data != [] && t.state.got + |data| == t.state.len
    ensures Reassembled(BodyStep(c, t).0)
  {
    var part := Fill(t.buf, t.state.got, data)[..t.state.len];
    BodyRead(c, t, data);
    BodyPartial(t.state.len, t.buf, t.state.got, data);
    DeframeWhole(part);
    Absorbed(t, BodyStep(c, t).0, data, [part]);
  }

  lemma BodyKeeps(c: Codec, t: RecvTask)
    requires Reassembled(t) && t.state.Body?
    ensures Reassembled(BodyStep(c, t).0)
  {
    var p := t.up.r.PollRead(t.state.len - t.state.got).1;
    if p.Ready? && p.value != [] {
      if t.state.got + |p.value| < t.state.len { BodyShort(c, t, p.value); } else { BodyWhole(c, t, p.value); }
    }
  }

  lemma CutSnoc(datagrams: seq<Bytes>, taken: nat, room: nat)
    requires taken < |datagrams|
    ensures Cut(datagrams[..taken + 1], room)
         == Cut(datagrams[..taken], room) + [datagrams[taken][..Min(room, |datagrams[taken]|)]]
  {
  }

  lemma DatagramKeeps(c: Codec, t: RecvTask)
    requires Reassembled(t) && t.state.Begin? && t.up.UdpIn?
    ensures Reassembled(DatagramStep(c, t).0) && |DatagramStep(c, t).0.buf| == |t.buf|
  {
    var p := t.up.u.PollRecv(|t.buf|).1;
    if p.Ready? {
      CutSnoc(t.up.u.incoming, t.up.u.taken, |t.buf|);
      assert Fill(t.buf, 0, p.value)[..|p.value|] == p.value;
    }
  }

  lemma OthersKeep(c: Codec, t: RecvTask, sessions: map<Wire, Session>, locked: bool)
    requires Reassembled(t) && (t.state.Locked? || (t.state.Begin? && t.up.TcpIn?))
    ensures Reassembled(RecvStep(c, t, sessions, true, locked).t)
  {
    assert t.buf[..0] == [];
  }

  /** Every round keeps reassembly exact, whatever is received, decoded, locked or cancelled. */
  lemma RecvStepReassembles(c: Codec, t: RecvTask, sessions: map<Wire, Session>, running: bool, locked: bool)
    requires Reassembled(t)
    ensures var o := RecvStep(c, t, sessions, running, locked);
      Reassembled(o.t) && o.t.up.SameSender(t.up) && (t.up.UdpIn? ==> |o.t.buf| == |t.buf|)
  {
    if running {
      match t.state {
        case Header(_) => HeaderKeeps(t);
        case Body(_, _) => BodyKeeps(c, t);
        case _ => if t.state.Begin? && t.up.UdpIn? { DatagramKeeps(c, t); } else { OthersKeep(c, t, sessions, locked); }
      }
    }
  }

  const BUFFER: nat := 1500

  function FreshRecv(up: UpstreamIn): RecvTask { RecvTask(Begin, seq(BUFFER, _ => 0), up, None, []) }

  /** What the rest of the program does between two rounds: flag, lock and session map as found. */
  datatype Surroundings = Surroundings(running: bool, locked: bool, sessions: map<Wire, Session>)

  function RecvRounds(c: Codec, t: RecvTask, rounds: seq<Surroundings>): (t': RecvTask)
    requires RecvShape(t)
    ensures RecvShape(t')
  {
    if rounds == [] then t
    else
      var before := RecvRounds(c, t, rounds[..|rounds| - 1]);
      var e := rounds[|rounds| - 1];
      RecvStep(c, before, e.sessions, e.running, e.locked).t
  }

  lemma FreshReassembled(up: UpstreamIn)
    requires up.Valid() && up.Unused()
    ensures Reassembled(FreshRecv(up))
  {
    if up.UdpIn? { assert up.u.incoming[..0] == []; }
  }

  /** Over any rounds of any polls and any chopping of the stream into reads. */
  lemma {:induction false} RoundsReassemble(c: Codec, up: UpstreamIn, rounds: seq<Surroundings>)
    requires up.Valid() && up.Unused()
    ensures var t := RecvRounds(c, FreshRecv(up), rounds);
      Reassembled(t) && up.SameSender(t.up) && (up.UdpIn? ==> |t.buf| == BUFFER)
  {
    if rounds == [] {
      FreshReassembled(up);
    } else {
      RoundsReassemble(c, up, rounds[..|rounds| - 1]);
      var e := rounds[|rounds| - 1];
      RecvStepReassembles(c, RecvRounds(c, FreshRecv(up), rounds[..|rounds| - 1]), e.sessions, e.running, e.locked);
    }
  }

  /** Framing and reassembly undo each other: of a stream of frames, the decoder is handed a prefix of
      the non-empty payloads in order, and all of them once the stream has been read. */
  lemma ReassemblyUndoesFraming(c: Codec, up: UpstreamIn, payloads: seq<Payload>, rounds: seq<Surroundings>)
    requires up.Valid() && up.Unused() && up.TcpIn? && up.r.source == FrameAll(payloads)
    ensures var t := RecvRounds(c, FreshRecv(up), rounds);
      && t.up.TcpIn? && t.handed <= NonEmpty(payloads)
      && (t.up.r.taken == |FrameAll(payloads)| ==> t.handed == NonEmpty(payloads) && Partial(t) == [])
  {
    RoundsReassemble(c, up, rounds);
    DeframeUndoesFrame(payloads);
    var t := RecvRounds(c, FreshRecv(up), rounds);
    DeframePrefix(up.r.source, t.up.r.taken, t.handed, Partial(t));
  }

  /** Over UDP the decoder is handed one payload for each datagram received, in order: all of them whole
      if and only if none has more than 1500 bytes. */
  lemma DatagramsHandedOver(c: Codec, up: UpstreamIn, rounds: seq<Surroundings>)
    requires up.Valid() && up.Unused() && up.UdpIn?
    ensures var t := RecvRounds(c, FreshRecv(up), rounds);
      && t.up.UdpIn? && t.up.u.incoming == up.u.incoming && t.up.u.taken <= |up.u.incoming|
      && var got := up.u.incoming[..t.up.u.taken];
         && t.handed == Cut(got, 1500)
         && (t.handed == got <==> forall i :: 0 <= i < |got| ==> |got[i]| <= 1500)
  {
    RoundsReassemble(c, up, rounds);
    var t := RecvRounds(c, FreshRecv(up), rounds);
    var got := up.u.incoming[..t.up.u.taken];
    forall i | 0 <= i < |got| ensures t.handed[i] == got[i] <==> |got[i]| <= BUFFER {
      if |got[i]| <= BUFFER { assert t.handed[i] == got[i]; } else { assert |t.handed[i]| == BUFFER; }
    }
    if t.handed == got {
      forall i | 0 <= i < |got| ensures |got[i]| <= BUFFER { assert t.handed[i] == got[i]; }
    }
  }

  /** Holding a message, with the lock: the reply's session is taken out and nothing else changes, and the
      client gets the message under its own id, from the server it asked, exactly if there is a session
      and the message encodes. */
  lemma AnswerExactly(c: Codec, t: RecvTask, sessions: map<Wire, Session>)
    requires RecvShape(t) && t.state.Locked?
    ensures var o := RecvStep(c, t, sessions, true, true); var m := t.msg.value;
      && o.end == Again && o.t == t.(msg := None, state := Begin)
      && (forall id :: id in o.sessions <==> id in sessions && id != m.id)
      && (forall id :: id in o.sessions ==> o.sessions[id] == sessions[id])
      && (m.id !in sessions ==> o.packets == [])
      && (m.id in sessions ==>
            var x := sessions[m.id]; var data := c.encode(Message(x.oldId, m.body));
            o.packets == if data.Some? then [Packet(data.value, x.peer.dest, x.peer.src)] else [])
  {
  }

  /** The bytes that a task over TCP still needs before it can go on. */
  function Needs(state: RecvState): int {
    match state
    case Header(got) => 2 - got
    case Body(len, got) => len - got
    case _ => 0
  }

  /** The upstream answers a receive with an error. */
  ghost predicate ReceiveFails(t: RecvTask) {
    match t.up
    case TcpIn(r) => (t.state.Header? || t.state.Body?) && r.plan(r.calls).ReadError?
    case UdpIn(u) => t.state.Begin? && u.plan(u.calls).SocketError?
  }

  /** The upstream has nothing, or not enough, to give now. */
  ghost predicate ReceiveWaits(t: RecvTask)
    requires t.up.Valid()
  {
    match t.up
    case TcpIn(r) =>
      (t.state.Header? || t.state.Body?)
      && (r.plan(r.calls).ReadLater?
          || (r.plan(r.calls).ReadUpTo? && 0 < r.Unread() && Min(r.plan(r.calls).max, r.Unread()) < Needs(t.state)))
    case UdpIn(u) =>
      t.state.Begin? && (u.plan(u.calls).NotNow? || (u.plan(u.calls).Now? && u.taken == |u.incoming|))
  }

  /** What the upstream makes of a receive: `e` is how the round ends. */
  ghost predicate EndsAs(t: RecvTask, e: RecvEnd)
    requires t.up.Valid()
  {
    && !e.Cancelled?
    && (e.UpstreamClosed? <==>
          t.up.TcpIn? && (t.state.Header? || t.state.Body?)
          && t.up.r.plan(t.up.r.calls).ReadUpTo? && t.up.Unread() == 0)
    && (e.ReceiveFailed? <==> ReceiveFails(t)) && (e.Wait? <==> ReceiveWaits(t))
  }

  lemma HeaderEndsExactly(t: RecvTask)
    requires RecvShape(t) && t.state.Header?
    ensures EndsAs(t, HeaderStep(t).1)
  {
  }

  lemma BodyEndsExactly(c: Codec, t: RecvTask)
    requires RecvShape(t) && t.state.Body?
    ensures EndsAs(t, BodyStep(c, t).1)
  {
  }

  lemma DatagramEndsExactly(c: Codec, t: RecvTask)
    requires RecvShape(t) && t.state.Begin? && t.up.UdpIn?
    ensures EndsAs(t, DatagramStep(c, t).1)
  {
  }

  /** How every round ends, exactly: cancelled if and only if the flag is cleared; otherwise closed, failed,
      waiting or going on as the upstream answers or the lock is obtained. */
  lemma RecvEndsExactly(c: Codec, t: RecvTask, sessions: map<Wire, Session>, running: bool, locked: bool)
    requires RecvShape(t)
    ensures !running ==> RecvStep(c, t, sessions, running, locked) == RecvOut(t, sessions, [], Cancelled)
    ensures var e := RecvStep(c, t, sessions, running, locked).end;
      && (e.Cancelled? <==> !running)
      && (running && t.state.Locked? ==> e == if locked then Again else Wait)
      && (running && !t.state.Locked? ==> EndsAs(t, e))
  {
    match t.state {
      case Header(_) => HeaderEndsExactly(t);
      case Body(_, _) => BodyEndsExactly(c, t);
      case Begin => if t.up.UdpIn? { DatagramEndsExactly(c, t); }
      case Locked =>
    }
  }

  /** A held message is what the decoder made of the latest payload. */
  ghost predicate Provenance(c: Codec, t: RecvTask) {
    t.state.Locked? ==> t.handed != [] && c.decode(t.handed[|t.handed| - 1]) == t.msg && t.msg.Some?
  }

  /** What a round adds to the payloads handed over: nothing, or one that leads to `Locked` exactly if it
      decodes. */
  ghost predicate HandsOver(c: Codec, t: RecvTask, t': RecvTask) {
    || (t'.handed == t.handed && (t'.state.Locked? ==> t' == t))
    || (|t'.handed| == |t.handed| + 1 && t'.handed[..|t.handed|] == t.handed && !t.state.Locked?
        && (t'.state.Locked? <==> c.decode(t'.handed[|t.handed|]).Some?))
  }

  lemma RecvStepHandsOver(c: Codec, t: RecvTask, sessions: map<Wire, Session>, running: bool, locked: bool)
    requires RecvShape(t)
    ensures HandsOver(c, t, RecvStep(c, t, sessions, running, locked).t)
  {
  }

  lemma RecvStepProvenance(c: Codec, t: RecvTask, sessions: map<Wire, Session>, running: bool, locked: bool)
    requires RecvShape(t) && Provenance(c, t)
    ensures Provenance(c, RecvStep(c, t, sessions, running, locked).t)
  {
  }
}
