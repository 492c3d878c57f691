/** `dns_proxy.rs`: the send task, which gives each query a fresh id, sends it as one datagram or as one
    frame across any short writes, and then records its session. */
module DnsSend {
  import opened Io
  import opened DnsSessions
  import opened DnsFraming

  datatype UpstreamOut = TcpOut(w: WriteHalf) | UdpOut(d: DatagramOut)
  {
    ghost predicate Unused() {
      match this
      case TcpOut(w) => w.accepted == []
      case UdpOut(d) => d.sent == []
    }
  }

  datatype SendState = Idle | Sending(data: Bytes) | Inserting

  /** History: a message taken from the channel, the id it was given and the number of that allocation. */
  datatype Dequeued = Dequeued(peer: Peer, asked: Message, id: Wire, serial: nat)
  {
    /** What goes upstream. */
    function Renamed(): Message { asked.(id := id) }
  }

  /** `SendFut`. */
  datatype SendTask = SendTask(state: SendState, session: Option<Session>, sendn: nat,
                               rx: seq<(Peer, Message)>, closed: bool, out: UpstreamOut, dequeued: seq<Dequeued>)

  /** `issued` counts the id allocations made so far by all send tasks. */
  datatype Shared = Shared(counter: Wire, issued: nat, sessions: map<Wire, Session>)

  datatype SendEnd = Go | Stay | ChannelClosed | SendFailed

  datatype SendOut = SendOut(t: SendTask, sh: Shared, end: SendEnd)

  /** The session in hand is that of the latest message taken. */
  ghost predicate InHand(t: SendTask) {
    && t.session.Some? && t.dequeued != []
    && var (x, d) := (t.session.value, t.dequeued[|t.dequeued| - 1]);
       x.peer == d.peer && x.oldId == d.asked.id && x.id == d.id && x.serial == d.serial
  }

  ghost predicate SendShape(t: SendTask) {
    && (!t.state.Idle? ==> InHand(t))
    && (t.state.Sending? ==> if t.out.TcpOut? then t.sendn < |t.state.data| else t.sendn == 0)
    && (t.state.Idle? ==> t.sendn == 0)
  }

  /** What is sent for an encoded message: a frame over TCP, if it fits one, and the bytes themselves
      over UDP. */
  function Wrap(out: UpstreamOut, payload: Bytes): Option<Bytes> {
    match out
    case TcpOut(_) => Frame(payload)
    case UdpOut(_) => Some(payload)
  }

  /** Dequeue a query, give it the next id and encode it; a query that cannot be encoded or framed is
      skipped. */
  function DequeueStep(c: Codec, t: SendTask, sh: Shared, now: nat): (o: SendOut)
    requires SendShape(t) && t.state.Idle? && t.rx != []
    ensures SendShape(o.t) && |o.t.rx| == |t.rx| - 1
  {
    var (peer, m) := t.rx[0];
    var id := sh.counter;
    var t' := t.(rx := t.rx[1..], session := Some(Session(peer, m.id, id, now, sh.issued)),
                 dequeued := t.dequeued + [Dequeued(peer, m, id, sh.issued)]);
    var sh' := sh.(counter := (id + 1) % WRAP, issued := sh.issued + 1);
    match c.encode(m.(id := id))
    case None => SendOut(t', sh', Go)
    case Some(payload) =>
      match Wrap(t.out, payload)
      case None => SendOut(t', sh', Go)
      case Some(data) => SendOut(t'.(state := Sending(data)), sh', Go)
  }

  /** One `poll_write` or `poll_send_to`. */
  function Offer(out: UpstreamOut, data: Bytes, to: nat): (UpstreamOut, Poll<nat>) {
    match out
    case TcpOut(w) => var (w', p) := w.PollWrite(data); (TcpOut(w'), p)
    case UdpOut(d) => var (d', p) := d.PollSend(data, to); (UdpOut(d'), p)
  }

  function WriteStep(t: SendTask): (o: (SendTask, SendEnd))
    requires SendShape(t) && t.state.Sending?
    ensures SendShape(o.0) && o.0.rx == t.rx && (o.1.Go? ==> o.0.state.Inserting?)
  {
    var data := t.state.data;
    var (out', p) := Offer(t.out, data[t.sendn..], t.session.value.peer.dest);
    match p
    case Pending => (t.(out := out'), Stay)
    case Failed(_) => (t.(out := out'), SendFailed)
    case Ready(n) =>
      if t.sendn + n < |data| then (t.(out := out', sendn := t.sendn + n), Stay)
      else (t.(out := out', sendn := t.sendn + n, state := Inserting), Go)
  }

  /** One round of the `SendFut::poll` loop. */
  function SendStep(c: Codec, t: SendTask, sh: Shared, now: nat, locked: bool): (o: SendOut)
    requires SendShape(t)
    ensures SendShape(o.t)
    ensures o.end.Go? ==> (|t.rx|, SendRank(t) decreases to |o.t.rx|, SendRank(o.t))
    ensures o.end.SendFailed? ==> t.state.Sending?
    ensures o.end.ChannelClosed? ==> t.state.Idle? && t.rx == []
  {
    match t.state
    case Idle =>
      if t.rx == [] then SendOut(t, sh, if t.closed then ChannelClosed else Stay)
      else DequeueStep(c, t, sh, now)
    case Sending(_) => var (t', e) := WriteStep(t); SendOut(t', sh, e)
    case Inserting =>
      if !locked then SendOut(t, sh, Stay)
      else
        var x := t.session.value;
        SendOut(t.(session := None, sendn := 0, state := Idle), sh.(sessions := sh.sessions[x.id := x]), Go)
  }

  function SendRank(t: SendTask): nat {
    match t.state
    case Sending(_) => 2
    case Inserting => 1
    case Idle => 0
  }

  // ---------------------------------------------------------------------------------------------
  // What every round does

  /** The upstream answers a write with an error. */
  ghost predicate WriteFails(out: UpstreamOut) {
    match out
    case TcpOut(w) => w.plan(w.calls).WriteError?
    case UdpOut(d) => d.plan(d.calls).SocketError?
  }

  /** The upstream takes all of `data` now. */
  ghost predicate TakesAll(out: UpstreamOut, data: Bytes) {
    match out
    case TcpOut(w) => w.plan(w.calls).Accept? && w.plan(w.calls).max >= |data|
    case UdpOut(d) => d.plan(d.calls).Now?
  }

  /** How every round ends, exactly: the task ends if and only if the channel is closed and empty between
      two messages, or a write fails. */
  lemma SendEndsExactly(c: Codec, t: SendTask, sh: Shared, now: nat, locked: bool)
    requires SendShape(t)
    ensures var e := SendStep(c, t, sh, now, locked).end;
      && (e.ChannelClosed? <==> t.state.Idle? && t.rx == [] && t.closed)
      && (e.SendFailed? <==> t.state.Sending? && WriteFails(t.out))
      && (e.Go? <==> (t.state.Idle? && t.rx != []) || (t.state.Inserting? && locked)
                     || (t.state.Sending? && TakesAll(t.out, t.state.data[t.sendn..])))
  {
  }

  /** Taking a message: it gets the counter's id, the counter moves on modulo 65536, the session keeps the
      client's own id, and the message is sent unless it cannot be encoded or framed. */
  lemma DequeueExactly(c: Codec, t: SendTask, sh: Shared, now: nat, locked: bool)
    requires SendShape(t) && t.state.Idle? && t.rx != []
    ensures var o := SendStep(c, t, sh, now, locked); var (peer, m) := t.rx[0];
      var payload := c.encode(Message(sh.counter, m.body));
      && o.sh.counter == (sh.counter + 1) % 65536 && o.sh.issued == sh.issued + 1 && o.sh.sessions == sh.sessions
      && o.t.rx == t.rx[1..] && o.t.session == Some(Session(peer, m.id, sh.counter, now, sh.issued))
      && o.t.out == t.out
      && o.t.state == if payload.None? || (t.out.TcpOut? && |payload.value| > 65535) then Idle
                      else if t.out.UdpOut? then Sending(payload.value)
                      else Sending([|payload.value| / 256, |payload.value| % 256] + payload.value)
  {
    var payload := c.encode(Message(sh.counter, t.rx[0].1.body));
    if payload.Some? { FrameBytes(payload.value); }
  }

  /** Everything that is left of a frame is offered, and as much goes as the upstream takes; the counter and
      the sessions are not touched. */
  lemma WriteExactly(c: Codec, t: SendTask, sh: Shared, now: nat, locked: bool)
    requires SendShape(t) && t.state.Sending? && t.out.TcpOut? && t.out.w.plan(t.out.w.calls).Accept?
    ensures var o := SendStep(c, t, sh, now, locked); var rest := t.state.data[t.sendn..];
      var n := Min(t.out.w.plan(t.out.w.calls).max, |rest|);
      && o.sh == sh && o.t.session == t.session && o.t.rx == t.rx
      && o.t.out.TcpOut? && o.t.out.w.accepted == t.out.w.accepted + rest[..n] && o.t.sendn == t.sendn + n
      && o.t.state == (if n < |rest| then t.state else Inserting)
  {
  }

  /** Once a message is sent and the lock obtained, its session is recorded: under its new id, with the
      client's addresses and own id; no other session changes. */
  lemma InsertExactly(c: Codec, t: SendTask, sh: Shared, now: nat)
    requires SendShape(t) && t.state.Inserting?
    ensures var o := SendStep(c, t, sh, now, true); var d := t.dequeued[|t.dequeued| - 1];
      && o.t == t.(session := None, sendn := 0, state := Idle)
      && o.sh == sh.(sessions := sh.sessions[d.id := Session(d.peer, d.asked.id, d.id, t.session.value.time, d.serial)])
  {
  }

  // ---------------------------------------------------------------------------------------------
  // What has been sent

  /** The framed payload of a message, or `None` when it is skipped. */
  function PayloadOf(c: Codec, m: Message): Option<Payload> {
    match c.encode(m)
    case Some(p) => if Frame(p).Some? then Some(p) else None
    case None => None
  }

  /** The payloads of a list of messages, skipped ones left out. */
  function PayloadsOf(c: Codec, ds: seq<Dequeued>): seq<Payload> {
    if ds == [] then []
    else
      var last := PayloadOf(c, ds[|ds| - 1].Renamed());
      PayloadsOf(c, ds[..|ds| - 1]) + (if last.Some? then [last.value] else [])
  }

  /** The datagrams of a list of messages, to the servers that their clients asked. */
  function DatagramsOf(c: Codec, ds: seq<Dequeued>): seq<Datagram> {
    if ds == [] then []
    else
      var d := ds[|ds| - 1];
      var last := c.encode(d.Renamed());
      DatagramsOf(c, ds[..|ds| - 1]) + (if last.Some? then [Datagram(d.peer.dest, last.value)] else [])
  }

  /** The messages that are sent or skipped, and the bytes of the frame in progress. */
  function Sent(t: SendTask): seq<Dequeued>
    requires SendShape(t)
  { if t.state.Sending? then t.dequeued[..|t.dequeued| - 1] else t.dequeued }

  function InProgress(t: SendTask): Bytes
    requires SendShape(t)
  { if t.state.Sending? then t.state.data[..t.sendn] else [] }

  /** What is being sent is the latest message under its new id. */
  ghost predicate Current(c: Codec, t: SendTask)
    requires SendShape(t) && t.state.Sending?
  {
    var m := t.dequeued[|t.dequeued| - 1].Renamed();
    match t.out
    case TcpOut(_) => PayloadOf(c, m).Some? && t.state.data == Be16(|PayloadOf(c, m).value|) + PayloadOf(c, m).value
    case UdpOut(_) => c.encode(m) == Some(t.state.data)
  }

  /** Over TCP the bytes written are whole frames in dequeue order followed by the first `sendn` bytes of
      the current one; over UDP one datagram has gone out for each message. */
  ghost predicate Written(c: Codec, t: SendTask) {
    && SendShape(t) && (t.state.Sending? ==> Current(c, t))
    && match t.out
       case TcpOut(w) => w.accepted == FrameAll(PayloadsOf(c, Sent(t))) + InProgress(t)
       case UdpOut(d) => d.sent == DatagramsOf(c, Sent(t))
  }

  lemma PayloadsSnoc(c: Codec, ds: seq<Dequeued>, d: Dequeued)
    ensures var p := PayloadOf(c, d.Renamed());
      PayloadsOf(c, ds + [d]) == PayloadsOf(c, ds) + (if p.Some? then [p.value] else [])
  {
    assert (ds + [d])[..|ds|] == ds;
  }

  lemma DatagramsSnoc(c: Codec, ds: seq<Dequeued>, d: Dequeued)
    ensures var p := c.encode(d.Renamed());
      DatagramsOf(c, ds + [d]) == DatagramsOf(c, ds) + (if p.Some? then [Datagram(d.peer.dest, p.value)] else [])
  {
    assert (ds + [d])[..|ds|] == ds;
  }

  lemma DequeueFrame(c: Codec, t: SendTask, sh: Shared, now: nat)
    requires Written(c, t) && t.state.Idle? && t.rx != [] && t.out.TcpOut?
    ensures Written(c, DequeueStep(c, t, sh, now).t)
  {
    var t' := DequeueStep(c, t, sh, now).t;
    PayloadsSnoc(c, t.dequeued, Dequeued(t.rx[0].0, t.rx[0].1, sh.counter, sh.issued));
    assert t'.dequeued[..|t.dequeued|] == t.dequeued && InProgress(t') == [];
    assert PayloadsOf(c, t.dequeued) + [] == PayloadsOf(c, t.dequeued);
  }

  lemma DequeueDatagram(c: Codec, t: SendTask, sh: Shared, now: nat)
    requires Written(c, t) && t.state.Idle? && t.rx != [] && t.out.UdpOut?
    ensures Written(c, DequeueStep(c, t, sh, now).t)
  {
    var t' := DequeueStep(c, t, sh, now).t;
    DatagramsSnoc(c, t.dequeued, Dequeued(t.rx[0].0, t.rx[0].1, sh.counter, sh.issued));
    assert t'.dequeued[..|t.dequeued|] == t.dequeued;
    assert DatagramsOf(c, t.dequeued) + [] == DatagramsOf(c, t.dequeued);
  }

  lemma WriteExtends(base: Bytes, data: Bytes, from: nat, n: nat)
    requires from + n <= |data|
    ensures base + data[..from] + data[from..][..n] == base + data[..from + n]
  {
    assert data[..from] + data[from..][..n] == data[..from + n];
    Regroup(base, data[..from], data[from..][..n]);
  }

  lemma LastFrameComplete(c: Codec, ds: seq<Dequeued>)
    requires ds != [] && PayloadOf(c, ds[|ds| - 1].Renamed()).Some?
    ensures var p := PayloadOf(c, ds[|ds| - 1].Renamed()).value;
      FrameAll(PayloadsOf(c, ds)) == FrameAll(PayloadsOf(c, ds[..|ds| - 1])) + (Be16(|p|) + p)
  {
    FrameAllSnoc(PayloadsOf(c, ds[..|ds| - 1]), PayloadOf(c, ds[|ds| - 1].Renamed()).value);
  }

  lemma WriteShort(c: Codec, t: SendTask, n: nat)
    requires Written(c, t) && t.state.Sending? && t.out.TcpOut?
    requires t.out.w.PollWrite(t.state.data[t.sendn..]).1 == Ready(n) && t.sendn + n < |t.state.data|
    ensures Written(c, WriteStep(t).0)
  {
    WriteExtends(FrameAll(PayloadsOf(c, Sent(t))), t.state.data, t.sendn, n);
  }

  lemma WriteWhole(c: Codec, t: SendTask, n: nat)
    requires Written(c, t) && t.state.Sending? && t.out.TcpOut?
    requires t.out.w.PollWrite(t.state.data[t.sendn..]).1 == Ready(n) && t.sendn + n == |t.state.data|
    ensures Written(c, WriteStep(t).0)
  {
    var data := t.state.data;
    WriteExtends(FrameAll(PayloadsOf(c, Sent(t))), data, t.sendn, n);
    assert data[..t.sendn + n] == data;
    LastFrameComplete(c, t.dequeued);
  }

  lemma WriteDatagram(c: Codec, t: SendTask)
    requires Written(c, t) && t.state.Sending? && t.out.UdpOut?
    ensures Written(c, WriteStep(t).0)
  {
    assert t.state.data[0..] == t.state.data;
  }

  lemma WriteBlocked(c: Codec, t: SendTask)
    requires Written(c, t) && t.state.Sending? && t.out.TcpOut?
    requires !t.out.w.PollWrite(t.state.data[t.sendn..]).1.Ready?
    ensures Written(c, WriteStep(t).0)
  {
  }

  lemma WriteKeeps(c: Codec, t: SendTask)
    requires Written(c, t) && t.state.Sending?
    ensures Written(c, WriteStep(t).0)
  {
    match t.out {
      case UdpOut(_) => WriteDatagram(c, t);
      case TcpOut(w) =>
        var p := w.PollWrite(t.state.data[t.sendn..]).1;
        if !p.Ready? {
          WriteBlocked(c, t);
        } else if t.sendn + p.value < |t.state.data| {
          WriteShort(c, t, p.value);
        } else {
          WriteWhole(c, t, p.value);
        }
    }
  }

  /** Every round keeps what is sent equal to what was taken; neither unwrap of the session can fail. */
  lemma SendStepWritesFrames(c: Codec, t: SendTask, sh: Shared, now: nat, locked: bool)
    requires Written(c, t)
    ensures Written(c, SendStep(c, t, sh, now, locked).t)
  {
    match t.state {
      case Idle =>
        if t.rx != [] {
          if t.out.TcpOut? { DequeueFrame(c, t, sh, now); } else { DequeueDatagram(c, t, sh, now); }
        }
      case Sending(_) => WriteKeeps(c, t);
      case Inserting =>
    }
  }

  // ---------------------------------------------------------------------------------------------
  // Runs

  function FreshSend(out: UpstreamOut): SendTask { SendTask(Idle, None, 0, [], false, out, []) }

  /** What other tasks and clients do between two rounds of a send task. */
  datatype SendSurroundings = SendSurroundings(sh: Shared, now: nat, locked: bool, more: seq<(Peer, Message)>, closed: bool)

  function SendRounds(c: Codec, t: SendTask, rounds: seq<SendSurroundings>): (t': SendTask)
    requires SendShape(t)
    ensures SendShape(t')
  {
    if rounds == [] then t
    else
      var before := SendRounds(c, t, rounds[..|rounds| - 1]);
      var e := rounds[|rounds| - 1];
      SendStep(c, before.(rx := before.rx + e.more, closed := e.closed), e.sh, e.now, e.locked).t
  }

  lemma FreshWritten(c: Codec, out: UpstreamOut)
    requires out.Unused()
    ensures Written(c, FreshSend(out))
  {
  }

  /** What has been sent does not depend on what waits in the channel. */
  lemma ChannelWritten(c: Codec, t: SendTask, rx: seq<(Peer, Message)>, closed: bool)
    requires Written(c, t)
    ensures Written(c, t.(rx := rx, closed := closed))
  {
  }

  lemma {:induction false} RoundsWriteFrames(c: Codec, out: UpstreamOut, rounds: seq<SendSurroundings>)
    requires out.Unused()
    ensures Written(c, SendRounds(c, FreshSend(out), rounds))
  {
    if rounds == [] {
      FreshWritten(c, out);
    } else {
      RoundsWriteFrames(c, out, rounds[..|rounds| - 1]);
      var e := rounds[|rounds| - 1];
      var before := SendRounds(c, FreshSend(out), rounds[..|rounds| - 1]);
      ChannelWritten(c, before, before.rx + e.more, e.closed);
      SendStepWritesFrames(c, before.(rx := before.rx + e.more, closed := e.closed), e.sh, e.now, e.locked);
    }
  }

  /** Everything clients have put on the channel. */
  function Enqueued(rounds: seq<SendSurroundings>): seq<(Peer, Message)> {
    if rounds == [] then [] else Enqueued(rounds[..|rounds| - 1]) + rounds[|rounds| - 1].more
  }

  ghost predicate InOrder(t: SendTask, all: seq<(Peer, Message)>) {
    && |t.dequeued| <= |all| && t.rx == all[|t.dequeued|..]
    && forall i :: 0 <= i < |t.dequeued| ==> (t.dequeued[i].peer, t.dequeued[i].asked) == all[i]
  }

  /** Messages are taken in the order they were put on the channel, each once and with its peer. */
  lemma {:induction false} DequeuedInOrder(c: Codec, out: UpstreamOut, rounds: seq<SendSurroundings>)
    ensures InOrder(SendRounds(c, FreshSend(out), rounds), Enqueued(rounds))
  {
    if rounds != [] {
      var rest := rounds[..|rounds| - 1];
      var e := rounds[|rounds| - 1];
      DequeuedInOrder(c, out, rest);
      var t, all := SendRounds(c, FreshSend(out), rest), Enqueued(rest);
      var t1 := t.(rx := t.rx + e.more, closed := e.closed);
      assert t1.rx == (all + e.more)[|t.dequeued|..];
      StepInOrder(c, t1, e.sh, e.now, e.locked, all + e.more);
    }
  }

  lemma StepInOrder(c: Codec, t: SendTask, sh: Shared, now: nat, locked: bool, all: seq<(Peer, Message)>)
    requires SendShape(t) && InOrder(t, all)
    ensures InOrder(SendStep(c, t, sh, now, locked).t, all)
  {
    if t.state.Idle? && t.rx != [] {
      var n := |t.dequeued|;
      assert t.rx[0] == all[n] && t.rx[1..] == all[n + 1..];
    }
  }

  /** What an upstream makes of what a task has sent: exactly the messages taken, under their new ids, in
      order, and over TCP the bytes of the frame in progress. */
  ghost predicate UpstreamSees(c: Codec, t: SendTask)
    requires SendShape(t)
  {
    match t.out
    case TcpOut(w) => Deframe(w.accepted) == (NonEmpty(PayloadsOf(c, Sent(t))), InProgress(t))
    case UdpOut(d) => d.sent == DatagramsOf(c, Sent(t))
  }

  lemma WrittenDeframes(c: Codec, t: SendTask)
    requires Written(c, t)
    ensures UpstreamSees(c, t)
  {
    if t.out.TcpOut? {
      var ps, part := PayloadsOf(c, Sent(t)), InProgress(t);
      DeframeUndoesFrame(ps);
      if t.state.Sending? {
        DeframeProperPrefix(PayloadOf(c, t.dequeued[|t.dequeued| - 1].Renamed()).value, t.sendn);
      }
      assert Deframe(part) == ([], part);
      DeframeResumes(FrameAll(ps), part, NonEmpty(ps), []);
      assert [] + part == part && NonEmpty(ps) + [] == NonEmpty(ps);
    }
  }

  /** At every moment of every run the upstream sees exactly the messages sent so far. */
  lemma UpstreamSeesWholeMessages(c: Codec, out: UpstreamOut, rounds: seq<SendSurroundings>)
    requires out.Unused()
    ensures UpstreamSees(c, SendRounds(c, FreshSend(out), rounds))
  {
    RoundsWriteFrames(c, out, rounds);
    WrittenDeframes(c, SendRounds(c, FreshSend(out), rounds));
  }
}
