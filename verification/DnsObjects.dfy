/** `dns_proxy.rs`: the send and receive futures as objects, polled in place over shared state. */
module DnsObjects {
  import opened Io
  import opened DnsSessions
  import opened DnsFraming
  import opened DnsRecv
  import opened DnsSend

  /** The id counter, the session map and the tunnel's output, shared by every task.  `issued` is
      history: the number of ids handed out. */
  class ProxyState {
    var counter: Wire
    var issued: nat
    var sessions: map<Wire, Session>
    var packets: seq<Packet>

    function Ids(): Shared
      reads this
    { Shared(counter, issued, sessions) }

    constructor ()
      ensures Ids() == Shared(1, 0, map[]) && packets == []
    { counter, issued, sessions, packets := 1, 0, map[], []; }

    /** One pass of the expiry loop: collect the expired ids, then remove them. */
    method Sweep(now: nat, timeout: nat)
      modifies this`sessions
      ensures sessions == Unexpired(old(sessions), now, timeout)
    {
      var removed, todo := {}, sessions.Keys;
      while todo != {}
        invariant todo <= sessions.Keys
        invariant forall id :: id in removed <==> id in sessions && id !in todo && Expired(sessions[id], now, timeout)
        decreases todo
      {
        var id :| id in todo;
        if Expired(sessions[id], now, timeout) { removed := removed + {id}; }
        todo := todo - {id};
      }
      sessions := sessions - removed;
    }
  }

  /** Readings of the clock, the lock and the cancel flag in each round of one poll. */
  datatype Readings = Readings(now: nat -> nat, locked: nat -> bool, running: nat -> bool)

  /** One call of `SendFut::poll`: rounds until one of them does not go on. */
  function SendPoll(c: Codec, e: Readings, t: SendTask, sh: Shared, tick: nat): (o: SendOut)
    requires SendShape(t)
    ensures SendShape(o.t) && !o.end.Go?
    decreases |t.rx|, SendRank(t)
  {
    var o := SendStep(c, t, sh, e.now(tick), e.locked(tick));
    if o.end.Go? then SendPoll(c, e, o.t, o.sh, tick + 1) else o
  }

  /** `os` are consecutive rounds from `t`, round `n` with the readings `tick + n`; each but the last goes on. */
  ghost predicate SendRoundsOf(c: Codec, e: Readings, t: SendTask, sh: Shared, tick: nat, os: seq<SendOut>)
    requires SendShape(t)
    decreases |os|
  {
    && os != [] && os[0] == SendStep(c, t, sh, e.now(tick), e.locked(tick))
    && (|os| > 1 ==> os[0].end.Go? && SendRoundsOf(c, e, os[0].t, os[0].sh, tick + 1, os[1..]))
  }

  /** A poll is consecutive rounds up to the first that does not go on. */
  lemma {:induction false} SendPollIsRounds(c: Codec, e: Readings, t: SendTask, sh: Shared, tick: nat)
    returns (os: seq<SendOut>)
    requires SendShape(t)
    ensures SendRoundsOf(c, e, t, sh, tick, os) && os[|os| - 1] == SendPoll(c, e, t, sh, tick)
    ensures !os[|os| - 1].end.Go?
    decreases |t.rx|, SendRank(t)
  {
    var o := SendStep(c, t, sh, e.now(tick), e.locked(tick));
    os := [o];
    if o.end.Go? {
      var rest := SendPollIsRounds(c, e, o.t, o.sh, tick + 1);
      os := [o] + rest;
      assert os[1..] == rest;
    }
  }

  class SendFut {
    var state: SendState
    var session: Option<Session>
    var sendn: nat
    var rx: seq<(Peer, Message)>
    var closed: bool
    var out: UpstreamOut
    var dequeued: seq<Dequeued>
    const shared: ProxyState

    function View(): SendTask
      reads this
    { SendTask(state, session, sendn, rx, closed, out, dequeued) }

    constructor (out: UpstreamOut, rx: seq<(Peer, Message)>, shared: ProxyState)
      ensures View() == FreshSend(out).(rx := rx) && this.shared == shared
    {
      state, session, sendn, closed, dequeued := Idle, None, 0, false, [];
      this.out, this.rx, this.shared := out, rx, shared;
    }

    method Dequeue(c: Codec, now: nat)
      requires SendShape(View()) && state.Idle? && rx != []
      modifies this, shared
      ensures var o := DequeueStep(c, old(View()), old(shared.Ids()), now);
        View() == o.t && shared.Ids() == o.sh && o.end.Go?
      ensures shared.packets == old(shared.packets)
    {
      var (peer, m) := rx[0];
      rx := rx[1..];
      var id := shared.counter;
      shared.counter := (id + 1) % WRAP;
      session := Some(Session(peer, m.id, id, now, shared.issued));
      dequeued := dequeued + [Dequeued(peer, m, id, shared.issued)];
      shared.issued := shared.issued + 1;
      match c.encode(m.(id := id)) {
        case None =>
        case Some(payload) =>
          match out {
            case UdpOut(_) => state := Sending(payload);
            case TcpOut(_) =>
              match Frame(payload) {
                case None =>
                case Some(data) => state := Sending(data);
              }
          }
      }
    }

    method Write() returns (end: SendEnd)
      requires SendShape(View()) && state.Sending?
      modifies this
      ensures (View(), end) == WriteStep(old(View()))
    {
      var data, p := state.data, Pending;
      match out {
        case TcpOut(w) =>
          var (w', q) := w.PollWrite(data[sendn..]);
          out, p := TcpOut(w'), q;
        case UdpOut(d) =>
          var (d', q) := d.PollSend(data[sendn..], session.value.peer.dest);
          out, p := UdpOut(d'), q;
      }
      match p {
        case Pending => return Stay;
        case Failed(_) => return SendFailed;
        case Ready(n) =>
          sendn := sendn + n;
          if sendn < |data| { return Stay; }
          state := Inserting;
          return Go;
      }
    }

    method Poll(c: Codec, e: Readings) returns (end: SendEnd)
      requires SendShape(View())
      modifies this, shared
      ensures SendOut(View(), shared.Ids(), end) == old(SendPoll(c, e, View(), shared.Ids(), 0))
      ensures shared.packets == old(shared.packets)
    {
      ghost var goal := SendPoll(c, e, View(), shared.Ids(), 0);
      var tick := 0;
      while true
        invariant SendShape(View()) && shared.packets == old(shared.packets)
        invariant SendPoll(c, e, View(), shared.Ids(), tick) == goal
        decreases |rx|, SendRank(View())
      {
        match state {
          case Idle =>
            if rx == [] {
              if closed { return ChannelClosed; }
              return Stay;
            }
            Dequeue(c, e.now(tick));
          case Sending(_) =>
            end := Write();
            if !end.Go? { return; }
          case Inserting =>
            if !e.locked(tick) { return Stay; }
            var x := session.value;
            session, sendn, state := None, 0, Idle;
            shared.sessions := shared.sessions[x.id := x];
        }
        tick := tick + 1;
      }
    }
  }

  /** One call of `RecvFut::poll`; `packets` collects what it writes to the tunnel. */
  function RecvPoll(c: Codec, e: Readings, t: RecvTask, sessions: map<Wire, Session>, packets: seq<Packet>, tick: nat)
    : (o: RecvOut)
    requires RecvShape(t)
    ensures RecvShape(o.t) && !o.end.Again?
    decreases t.up.Unread(), RecvRank(t)
  {
    var o := RecvStep(c, t, sessions, e.running(tick), e.locked(tick));
    if o.end.Again? then RecvPoll(c, e, o.t, o.sessions, packets + o.packets, tick + 1)
    else o.(packets := packets + o.packets)
  }

  ghost predicate RecvRoundsOf(c: Codec, e: Readings, t: RecvTask, sessions: map<Wire, Session>, tick: nat, os: seq<RecvOut>)
    requires RecvShape(t)
    decreases |os|
  {
    && os != [] && os[0] == RecvStep(c, t, sessions, e.running(tick), e.locked(tick))
    && (|os| > 1 ==> os[0].end.Again? && RecvRoundsOf(c, e, os[0].t, os[0].sessions, tick + 1, os[1..]))
  }

  /** All packets that some rounds write. */
  function PacketsOf(os: seq<RecvOut>): seq<Packet> { if os == [] then [] else os[0].packets + PacketsOf(os[1..]) }

  /** A poll is consecutive rounds up to the first that does not go on, and writes the packets of all. */
  lemma {:induction false} RecvPollIsRounds(c: Codec, e: Readings, t: RecvTask, sessions: map<Wire, Session>,
                                            packets: seq<Packet>, tick: nat)
    returns (os: seq<RecvOut>)
    requires RecvShape(t)
    ensures RecvRoundsOf(c, e, t, sessions, tick, os) && !os[|os| - 1].end.Again?
    ensures RecvPoll(c, e, t, sessions, packets, tick) == os[|os| - 1].(packets := packets + PacketsOf(os))
    decreases t.up.Unread(), RecvRank(t)
  {
    var o := RecvStep(c, t, sessions, e.running(tick), e.locked(tick));
    os := [o];
    assert o.packets + [] == o.packets;
    if o.end.Again? {
      var rest := RecvPollIsRounds(c, e, o.t, o.sessions, packets + o.packets, tick + 1);
      os := [o] + rest;
      assert os[1..] == rest;
      Regroup(packets, o.packets, PacketsOf(rest));
    }
  }

  class RecvFut {
    var state: RecvState
    var buf: Bytes
    var up: UpstreamIn
    var msg: Option<Message>
    var handed: seq<Bytes>
    const shared: ProxyState

    function View(): RecvTask
      reads this
    { RecvTask(state, buf, up, msg, handed) }

    constructor (up: UpstreamIn, shared: ProxyState)
      ensures View() == FreshRecv(up) && this.shared == shared
    {
      state, buf, msg, handed := Begin, seq(BUFFER, _ => 0), None, [];
      this.up, this.shared := up, shared;
    }

    /** Give a whole payload to the decoder. */
    method Decode(c: Codec, payload: Bytes)
      requires up.Valid() && |buf| >= 2
      modifies this
      ensures View() == Hand(c, old(View()), payload)
    {
      handed := handed + [payload];
      match c.decode(payload) {
        case None => state := Begin;
        case Some(m) =>
          msg := Some(m);
          state := Locked;
      }
    }

    method ReceiveDatagram(c: Codec) returns (end: RecvEnd)
      requires RecvShape(View()) && state.Begin? && up.UdpIn?
      modifies this
      ensures (View(), end) == DatagramStep(c, old(View()))
    {
      var (u', p) := up.u.PollRecv(|buf|);
      up := UdpIn(u');
      match p {
        case Pending => return Wait;
        case Failed(_) => return ReceiveFailed;
        case Ready(data) =>
          buf := Fill(buf, 0, data);
          Decode(c, buf[..|data|]);
          return Again;
      }
    }

    method ReadHeader() returns (end: RecvEnd)
      requires RecvShape(View()) && state.Header?
      modifies this
      ensures (View(), end) == HeaderStep(old(View()))
    {
      var got := state.got;
      var (r', p) := up.r.PollRead(2 - got);
      up := TcpIn(r');
      match p {
        case Pending => return Wait;
        case Failed(_) => return ReceiveFailed;
        case Ready(data) =>
          if data == [] { return UpstreamClosed; }
          buf := Fill(buf, got, data);
          state := Header(got + |data|);
          if got + |data| < 2 { return Wait; }
          var len := U16(buf[0], buf[1]);
          if len == 0 {
            state := Begin;
          } else {
            buf := Grow(buf, len);
            state := Body(len, 0);
          }
          return Again;
      }
    }

    method ReadBody(c: Codec) returns (end: RecvEnd)
      requires RecvShape(View()) && state.Body?
      modifies this
      ensures (View(), end) == BodyStep(c, old(View()))
    {
      var len, got := state.len, state.got;
      var (r', p) := up.r.PollRead(len - got);
      up := TcpIn(r');
      match p {
        case Pending => return Wait;
        case Failed(_) => return ReceiveFailed;
        case Ready(data) =>
          if data == [] { return UpstreamClosed; }
          buf := Fill(buf, got, data);
          state := Body(len, got + |data|);
          if got + |data| < len { return Wait; }
          Decode(c, buf[..len]);
          return Again;
      }
    }

    /** Take the reply's session out of the map and answer its client. */
    method Answer(c: Codec)
      requires RecvShape(View()) && state.Locked?
      modifies this, shared
      ensures var (sessions', packets') := LockedStep(c, old(msg.value), old(shared.sessions));
        shared.sessions == sessions' && shared.packets == old(shared.packets) + packets'
      ensures View() == old(View()).(msg := None, state := Begin)
      ensures shared.counter == old(shared.counter) && shared.issued == old(shared.issued)
    {
      var m := msg.value;
      msg, state := None, Begin;
      if m.id in shared.sessions {
        var x := shared.sessions[m.id];
        shared.sessions := shared.sessions - {m.id};
        match c.encode(m.(id := x.oldId)) {
          case Some(data) => shared.packets := shared.packets + [Packet(data, x.peer.dest, x.peer.src)];
          case None =>
        }
      }
    }

    method Poll(c: Codec, e: Readings) returns (end: RecvEnd)
      requires RecvShape(View())
      modifies this, shared
      ensures RecvOut(View(), shared.sessions, shared.packets, end)
           == old(RecvPoll(c, e, View(), shared.sessions, shared.packets, 0))
      ensures shared.counter == old(shared.counter) && shared.issued == old(shared.issued)
    {
      ghost var goal := RecvPoll(c, e, View(), shared.sessions, shared.packets, 0);
      var tick := 0;
      while true
        invariant RecvShape(View())
        invariant shared.counter == old(shared.counter) && shared.issued == old(shared.issued)
        invariant RecvPoll(c, e, View(), shared.sessions, shared.packets, tick) == goal
        decreases up.Unread(), RecvRank(View())
      {
        assert shared.packets + [] == shared.packets;
        if !e.running(tick) { return Cancelled; }
        match state {
          case Begin =>
            if up.TcpIn? {
              state := Header(0);
            } else {
              end := ReceiveDatagram(c);
              if !end.Again? { return; }
            }
          case Header(_) =>
            end := ReadHeader();
            if !end.Again? { return; }
          case Body(_, _) =>
            end := ReadBody(c);
            if !end.Again? { return; }
          case Locked =>
            if !e.locked(tick) { return Wait; }
            Answer(c);
        }
        tick := tick + 1;
      }
    }
  }
}
