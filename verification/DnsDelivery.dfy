/** `dns_proxy.rs`: what the whole DNS proxy gets to its clients and to the upstream, in every run of all
    its tasks. */
module DnsDelivery {
  import opened Io
  import opened DnsSessions
  import opened DnsFraming
  import opened DnsRecv
  import opened DnsSend
  import opened DnsSystem

  // ---------------------------------------------------------------------------------------------
  // What reaches the tunnel

  /** Payload `n` of receive task `j` is the answer to query number `answers`: it decodes to a message with
      the wire id of that query, and `data` is that message under the id `id`. */
  ghost predicate Source(c: Codec, recvs: seq<RecvTask>, tags: seq<seq<nat>>, j: nat, n: nat,
                         answers: nat, id: Wire, data: Bytes)
  {
    && j < |recvs| == |tags| && n < |recvs[j].handed| == |tags[j]| && tags[j][n] == answers
    && var m := c.decode(recvs[j].handed[n]);
       m.Some? && m.value.id == WireId(answers) && c.encode(m.value.(id := id)) == Some(data)
  }

  /** A packet carries the answer to query `d.answers`, under id `d.id`, between `d`'s addresses. */
  ghost predicate Carries(c: Codec, x: System, p: Packet, d: Delivery) {
    && p.from == d.from && p.to == d.to
    && exists j: nat, n: nat :: Source(c, x.recvs, x.tags, j, n, d.answers, d.id, p.data)
  }

  ghost predicate Accounted(c: Codec, x: System) {
    && |x.packets| == |x.delivered|
    && (forall k :: 0 <= k < |x.packets| ==> Carries(c, x, x.packets[k], x.delivered[k]))
    && (forall j :: 0 <= j < |x.recvs| ==> Provenance(c, x.recvs[j]))
  }

  /** Payloads and their tags are never taken back. */
  ghost predicate Grows(x: System, x': System) {
    && |x.recvs| == |x.tags| <= |x'.recvs| == |x'.tags|
    && (forall j :: 0 <= j < |x.recvs| ==> x.recvs[j].handed <= x'.recvs[j].handed && x.tags[j] <= x'.tags[j])
    && (forall j :: 0 <= j < |x'.recvs| ==> |x'.recvs[j].handed| == |x'.tags[j]|)
  }

  lemma CarriesGrows(c: Codec, x: System, x': System, p: Packet, d: Delivery)
    requires Carries(c, x, p, d) && Grows(x, x')
    ensures Carries(c, x', p, d)
  {
    var j: nat, n: nat :| Source(c, x.recvs, x.tags, j, n, d.answers, d.id, p.data);
    assert x.recvs[j].handed <= x'.recvs[j].handed && x.tags[j] <= x'.tags[j];
    assert Source(c, x'.recvs, x'.tags, j, n, d.answers, d.id, p.data);
  }

  lemma RecvGrows(c: Codec, x: System, j: nat, running: bool, locked: bool, tag: nat)
    requires Shaped(x) && j < |x.recvs|
    ensures Grows(x, AfterRecv(c, x, j, running, locked, tag))
  {
    RecvShaped(c, x, j, running, locked, tag);
    RecvStepHandsOver(c, x.recvs[j], x.sh.sessions, running, locked);
  }

  /** The packet that a round writes, and the delivery recorded for it. */
  lemma AnswerCarried(c: Codec, x: System, ev: Event)
    requires Shaped(x) && Possible(c, x, ev) && Records(Abs(x)) && ev.RecvRound? && Provenance(c, x.recvs[ev.j])
    ensures var x' := After(c, x, ev);
      || (x'.packets == x.packets && x'.delivered == x.delivered)
      || exists p, d :: x'.packets == x.packets + [p] && x'.delivered == x.delivered + [d] && Carries(c, x, p, d)
  {
    var x', j := After(c, x, ev), ev.j;
    var t, tags := x.recvs[j], x.tags[j];
    if x'.packets != x.packets {
      var m := t.msg.value;
      var s := x.sh.sessions[m.id];
      var d := Delivery(s.peer.src, s.peer.dest, s.oldId, s.serial, tags[|tags| - 1]);
      var p := Packet(c.encode(m.(id := s.oldId)).value, s.peer.dest, s.peer.src);
      assert Abs(x).replies[j] == Reply(m.id, d.answers);
      assert Source(c, x.recvs, x.tags, j, |tags| - 1, d.answers, d.id, p.data);
      assert x'.packets == x.packets + [p] && x'.delivered == x.delivered + [d];
    }
  }

  lemma RecvProvenance(c: Codec, x: System, j: nat, running: bool, locked: bool, tag: nat)
    requires Shaped(x) && j < |x.recvs| && forall k :: 0 <= k < |x.recvs| ==> Provenance(c, x.recvs[k])
    ensures var x' := AfterRecv(c, x, j, running, locked, tag);
      forall k :: 0 <= k < |x'.recvs| ==> Provenance(c, x'.recvs[k])
  {
    RecvStepProvenance(c, x.recvs[j], x.sh.sessions, running, locked);
  }

  lemma RecvAccounted(c: Codec, x: System, ev: Event)
    requires Shaped(x) && Possible(c, x, ev) && Records(Abs(x)) && Accounted(c, x) && ev.RecvRound?
    ensures Accounted(c, After(c, x, ev))
  {
    var x' := After(c, x, ev);
    RecvGrows(c, x, ev.j, ev.running, ev.locked, ev.tag);
    RecvProvenance(c, x, ev.j, ev.running, ev.locked, ev.tag);
    AnswerCarried(c, x, ev);
    forall k | 0 <= k < |x'.packets| ensures Carries(c, x', x'.packets[k], x'.delivered[k]) {
      CarriesGrows(c, x, x', x'.packets[k], x'.delivered[k]);
    }
  }

  lemma EventAccounted(c: Codec, x: System, ev: Event)
    requires Shaped(x) && Possible(c, x, ev) && Records(Abs(x)) && Accounted(c, x)
    ensures Accounted(c, After(c, x, ev))
  {
    if ev.RecvRound? {
      RecvAccounted(c, x, ev);
    } else {
      var x' := After(c, x, ev);
      forall k | 0 <= k < |x.packets| ensures Carries(c, x', x'.packets[k], x'.delivered[k]) {
        CarriesGrows(c, x, x', x.packets[k], x.delivered[k]);
      }
    }
  }

  lemma EventDeliversRight(c: Codec, x: System, ev: Event)
    requires Shaped(x) && Possible(c, x, ev) && Records(Abs(x)) && Span(Abs(x)) && AllRight(Abs(x))
    ensures var x' := After(c, x, ev); Shaped(x') ==> AllRight(Abs(x'))
  {
    var x' := After(c, x, ev);
    if x'.delivered != x.delivered {
      var s, id := Abs(x), x.recvs[ev.j].msg.value.id;
      assert s.replies[ev.j].id == id;
      assert Near(s.sessions[id].serial, s.replies[ev.j].answers);
      SameWireIdExactly(s.sessions[id].serial, s.replies[ev.j].answers);
    }
  }

  lemma SystemRecords(c: Codec, xs: seq<System>, evs: seq<Event>, k: nat)
    requires SystemRun(c, xs, evs) && k < |xs|
    ensures Counted(xs[k]) && Records(Abs(xs[k])) && OneLife(Abs(xs[k]))
  {
    var trace, steps, at := SystemRefinesProtocol(c, xs, evs, k);
    assert trace[at[k]] == Abs(xs[..k + 1][k]);
    RunKeeps(trace, steps, at[k]);
  }

  lemma {:induction false} SystemAccounted(c: Codec, xs: seq<System>, evs: seq<Event>, k: nat)
    requires SystemRun(c, xs, evs) && k < |xs|
    ensures Accounted(c, xs[k])
  {
    if k > 0 {
      SystemAccounted(c, xs, evs, k - 1);
      SystemRecords(c, xs, evs, k - 1);
      assert xs[k] == After(c, xs[k - 1], evs[k - 1]);
      EventAccounted(c, xs[k - 1], evs[k - 1]);
    }
  }

  /** Each packet carries the answer to one query to the client of one query with the same wire id; no
      client query is used twice; and the two are the same query if and only if they were allocated fewer
      than 65536 apart. */
  ghost predicate PacketsAccounted(c: Codec, x: System) {
    && |x.packets| == |x.delivered|
    && (forall k :: 0 <= k < |x.packets| ==>
          var d, p := x.delivered[k], x.packets[k];
          && Carries(c, x, p, d) && d.answers < |x.queries|
          && d.session < |x.queries| && Query(Peer(p.to, p.from), d.id) == x.queries[d.session]
          && WireId(d.session) == WireId(d.answers) && (d.session == d.answers <==> Near(d.session, d.answers)))
    && (forall i, k :: 0 <= i < k < |x.packets| ==> x.delivered[i].session != x.delivered[k].session)
  }

  /** In every run, whatever the wrap. */
  lemma PacketsRightExactly(c: Codec, xs: seq<System>, evs: seq<Event>)
    requires SystemRun(c, xs, evs)
    ensures PacketsAccounted(c, xs[|evs|])
  {
    var x := xs[|evs|];
    SystemAccounted(c, xs, evs, |evs|);
    SystemRecords(c, xs, evs, |evs|);
    forall k | 0 <= k < |x.delivered|
      ensures Sound(Abs(x), x.delivered[k])
      ensures x.delivered[k].session == x.delivered[k].answers <==> Near(x.delivered[k].session, x.delivered[k].answers)
    {
      assert Sound(Abs(x), Abs(x).delivered[k]);
      SameWireIdExactly(x.delivered[k].session, x.delivered[k].answers);
    }
  }

  // ---------------------------------------------------------------------------------------------
  // What becomes of a session

  lemma {:induction false} PacketsGrow(c: Codec, xs: seq<System>, evs: seq<Event>, k: nat, n: nat)
    requires SystemRun(c, xs, evs) && k <= n < |xs|
    ensures xs[k].packets <= xs[n].packets
  {
    if k < n {
      PacketsGrow(c, xs, evs, k, n - 1);
      assert xs[n] == After(c, xs[n - 1], evs[n - 1]);
    }
  }

  /** How one event can end the session `s` recorded under `id`: by a sweep that finds it older than the
      timeout, by a newer session under the same id, or by a reply, whose packet is then the next one in
      `packets` unless the reply cannot be encoded. */
  ghost predicate EndsSession(c: Codec, x: System, ev: Event, id: Wire, s: Session, packets: seq<Packet>) {
    match ev
    case SweepNow(now, timeout) => now - s.time >= 1000 * (timeout + 1)
    case SendRound(i, _, _) =>
      i < |x.sends| && x.sends[i].state.Inserting? && InHand(x.sends[i]) && x.sends[i].session.value.id == id
    case RecvRound(j, _, _, _) =>
      j < |x.recvs| && x.recvs[j].state.Locked? && x.recvs[j].msg.Some? && x.recvs[j].msg.value.id == id
      && (var data := c.encode(Message(s.oldId, x.recvs[j].msg.value.body));
          data.Some? ==> |x.packets| < |packets| && packets[|x.packets|] == Packet(data.value, s.peer.dest, s.peer.src))
    case _ => false
  }

  lemma EventEndsSession(c: Codec, x: System, ev: Event, id: Wire)
    requires Shaped(x) && Possible(c, x, ev) && id in x.sh.sessions
    ensures var x' := After(c, x, ev); var s := x.sh.sessions[id];
      (id in x'.sh.sessions && x'.sh.sessions[id] == s) || EndsSession(c, x, ev, id, s, x'.packets)
  {
    match ev {
      case SendRound(i, now, locked) => SendSessions(c, x.sends[i], x.sh, now, locked, id);
      case RecvRound(j, running, locked, _) =>
        if x.recvs[j].state.Locked? && running && locked { AnswerExactly(c, x.recvs[j], x.sh.sessions); }
      case SweepNow(now, timeout) => UnexpiredExactly(x.sh.sessions, now, timeout, id);
      case _ =>
    }
  }

  lemma SendSessions(c: Codec, t: SendTask, sh: Shared, now: nat, locked: bool, id: Wire)
    requires SendShape(t) && id in sh.sessions
    ensures var sh' := SendStep(c, t, sh, now, locked).sh;
      || (id in sh'.sessions && sh'.sessions[id] == sh.sessions[id])
      || (t.state.Inserting? && InHand(t) && t.session.value.id == id)
  {
  }

  /** No session is lost: in every run a recorded session stays until a sweep finds it too old, a newer one
      takes its id, or a reply with its id arrives; and then the client's packet is written, under its own
      id and from the server it asked, unless that reply cannot be encoded. */
  lemma NoSessionLost(c: Codec, xs: seq<System>, evs: seq<Event>, k: nat, id: Wire)
    requires SystemRun(c, xs, evs) && k < |evs| && id in xs[k].sh.sessions
    ensures var s := xs[k].sh.sessions[id];
      || (id in xs[k + 1].sh.sessions && xs[k + 1].sh.sessions[id] == s)
      || EndsSession(c, xs[k], evs[k], id, s, xs[|evs|].packets)
  {
    EventEndsSession(c, xs[k], evs[k], id);
    assert xs[k + 1] == After(c, xs[k], evs[k]);
    PacketsGrow(c, xs, evs, k + 1, |evs|);
  }

  /** A send task lets go of a message that it was sending only by recording its session: under the id that
      went upstream, with the client's addresses and own id. */
  lemma EverySentIsRecorded(c: Codec, xs: seq<System>, evs: seq<Event>, k: nat, i: nat)
    requires SystemRun(c, xs, evs) && k < |evs| && i < |xs[k].sends| && i < |xs[k + 1].sends|
    requires !xs[k].sends[i].state.Idle? && xs[k + 1].sends[i].state.Idle?
    ensures InHand(xs[k].sends[i])
    ensures var t := xs[k].sends[i]; var d := t.dequeued[|t.dequeued| - 1];
      && d.id in xs[k + 1].sh.sessions
      && xs[k + 1].sh.sessions[d.id] == Session(d.peer, d.asked.id, d.id, t.session.value.time, d.serial)
  {
    assert xs[k + 1] == After(c, xs[k], evs[k]) && SendShape(xs[k].sends[i]);
    assert evs[k].SendRound? && evs[k].i == i;
    SentRecorded(c, xs[k].sends[i], xs[k].sh, evs[k].now, evs[k].locked);
  }

  lemma SentRecorded(c: Codec, t: SendTask, sh: Shared, now: nat, locked: bool)
    requires SendShape(t) && !t.state.Idle? && SendStep(c, t, sh, now, locked).t.state.Idle?
    ensures var d := t.dequeued[|t.dequeued| - 1]; var sh' := SendStep(c, t, sh, now, locked).sh;
      && d.id in sh'.sessions
      && sh'.sessions[d.id] == Session(d.peer, d.asked.id, d.id, t.session.value.time, d.serial)
  {
    InsertExactly(c, t, sh, now);
  }

  lemma {:induction false} SystemDeliversRight(c: Codec, xs: seq<System>, evs: seq<Event>, k: nat)
    requires SystemRun(c, xs, evs) && k < |xs|
    requires forall i :: 0 <= i < |evs| ==> Span(Abs(xs[i]))
    ensures AllRight(Abs(xs[k]))
  {
    if k > 0 {
      SystemDeliversRight(c, xs, evs, k - 1);
      SystemRecords(c, xs, evs, k - 1);
      assert xs[k] == After(c, xs[k - 1], evs[k - 1]);
      EventDeliversRight(c, xs[k - 1], evs[k - 1]);
    }
  }

  /** Packet `k` carries the message that answers query `d.answers`, to the client who asked it, from the
      server that client asked, under the client's original id. */
  ghost predicate RightPacket(c: Codec, x: System, k: nat)
    requires k < |x.packets| == |x.delivered|
  {
    var d, p := x.delivered[k], x.packets[k];
    && d.answers < |x.queries|
    && Query(Peer(p.to, p.from), d.id) == x.queries[d.answers]
    && exists j: nat, n: nat :: Source(c, x.recvs, x.tags, j, n, d.answers, d.id, p.data)
  }

  lemma KeptPacketsAreRight(c: Codec, x: System, k: nat)
    requires Shaped(x) && Accounted(c, x) && Records(Abs(x)) && AllRight(Abs(x)) && k < |x.packets|
    ensures RightPacket(c, x, k)
  {
    var s := Abs(x);
    assert Sound(s, s.delivered[k]) && s.delivered[k].session == s.delivered[k].answers;
    assert Carries(c, x, x.packets[k], x.delivered[k]);
  }

  lemma KeptPacketsDiffer(x: System, i: nat, k: nat)
    requires Shaped(x) && OneLife(Abs(x)) && AllRight(Abs(x)) && i < k < |x.delivered|
    ensures x.delivered[i].answers != x.delivered[k].answers
  {
    var s := Abs(x);
    assert s.delivered[i].session != s.delivered[k].session;
  }

  /** In every run in which the outstanding queries span fewer than 65536 allocations, every packet that
      the proxy writes to the tunnel is right, and no query gets two. */
  lemma PacketsReachTheirClients(c: Codec, xs: seq<System>, evs: seq<Event>)
    requires SystemRun(c, xs, evs)
    requires forall i :: 0 <= i < |evs| ==> Span(Abs(xs[i]))
    ensures var x := xs[|evs|];
      && |x.packets| == |x.delivered|
      && (forall k :: 0 <= k < |x.packets| ==> RightPacket(c, x, k))
      && (forall i, k :: 0 <= i < k < |x.packets| ==> x.delivered[i].answers != x.delivered[k].answers)
  {
    var x := xs[|evs|];
    SystemAccounted(c, xs, evs, |evs|);
    SystemDeliversRight(c, xs, evs, |evs|);
    SystemRecords(c, xs, evs, |evs|);
    forall k | 0 <= k < |x.packets| ensures RightPacket(c, x, k) { KeptPacketsAreRight(c, x, k); }
    forall i, k | 0 <= i < k < |x.packets| ensures x.delivered[i].answers != x.delivered[k].answers {
      KeptPacketsDiffer(x, i, k);
    }
  }

  // ---------------------------------------------------------------------------------------------
  // What reaches the upstream

  /** The n-th message that send task `i` took from its channel is query number `q`. */
  ghost predicate Took(sends: seq<SendTask>, i: nat, n: nat, q: nat) {
    i < |sends| && n < |sends[i].dequeued| && sends[i].dequeued[n].serial == q
  }

  ghost predicate Taken(sends: seq<SendTask>, q: nat) { exists i: nat, n: nat :: Took(sends, i, n, q) }

  /** Every message taken is a query, under that query's wire id; every query was taken by one task, once. */
  ghost predicate Numbered(sends: seq<SendTask>, queries: seq<Query>) {
    && (forall i: nat, n: nat, q: nat :: Took(sends, i, n, q) ==>
          var d := sends[i].dequeued[n];
          q < |queries| && d.id == (1 + q) % 65536 && queries[q] == Query(d.peer, d.asked.id))
    && (forall q: nat :: q < |queries| ==> Taken(sends, q))
    && (forall i: nat, n: nat, j: nat, m: nat, q: nat :: Took(sends, i, n, q) && Took(sends, j, m, q) ==> i == j && n == m)
  }

  lemma NumberedSame(sends: seq<SendTask>, sends': seq<SendTask>, queries: seq<Query>)
    requires Numbered(sends, queries) && |sends| <= |sends'|
    requires forall i :: 0 <= i < |sends| ==> sends'[i].dequeued == sends[i].dequeued
    requires forall i :: |sends| <= i < |sends'| ==> sends'[i].dequeued == []
    ensures Numbered(sends', queries)
  {
    forall i: nat, n: nat, q: nat ensures Took(sends', i, n, q) <==> Took(sends, i, n, q) {}
    forall q: nat | q < |queries| ensures Taken(sends', q) {
      assert Taken(sends, q);
      var i: nat, n: nat :| Took(sends, i, n, q);
      assert Took(sends', i, n, q);
    }
  }

  lemma NumberedNext(sends: seq<SendTask>, sends': seq<SendTask>, i: nat, d: Dequeued, queries: seq<Query>)
    requires Numbered(sends, queries) && i < |sends| == |sends'|
    requires forall k :: 0 <= k < |sends| ==>
      sends'[k].dequeued == if k == i then sends[k].dequeued + [d] else sends[k].dequeued
    requires d.serial == |queries| && d.id == WireId(d.serial)
    ensures Numbered(sends', queries + [Query(d.peer, d.asked.id)])
  {
    var last := |sends[i].dequeued|;
    forall k: nat, n: nat, q: nat
      ensures Took(sends', k, n, q) <==> Took(sends, k, n, q) || (k == i && n == last && q == |queries|)
    {}
    forall q: nat | q <= |queries| ensures Taken(sends', q) {
      if q < |queries| {
        assert Taken(sends, q);
        var k: nat, n: nat :| Took(sends, k, n, q);
        assert Took(sends', k, n, q);
      } else {
        assert Took(sends', i, last, q);
      }
    }
  }

  ghost predicate Upstreamed(c: Codec, x: System) {
    Numbered(x.sends, x.queries) && forall i :: 0 <= i < |x.sends| ==> Written(c, x.sends[i])
  }

  lemma SendNumbered(c: Codec, x: System, i: nat, now: nat, locked: bool)
    requires Shaped(x) && Counted(x) && Records(Abs(x)) && Numbered(x.sends, x.queries) && i < |x.sends|
    ensures var x' := AfterSend(c, x, i, now, locked); Numbered(x'.sends, x'.queries)
  {
    var t, x' := x.sends[i], AfterSend(c, x, i, now, locked);
    if t.state.Idle? && t.rx != [] {
      var d := Dequeued(t.rx[0].0, t.rx[0].1, x.sh.counter, x.sh.issued);
      assert x'.sends[i].dequeued == t.dequeued + [d];
      NumberedNext(x.sends, x'.sends, i, d, x.queries);
    } else {
      NumberedSame(x.sends, x'.sends, x.queries);
    }
  }

  lemma SendUpstreamed(c: Codec, x: System, i: nat, now: nat, locked: bool)
    requires Shaped(x) && Counted(x) && Records(Abs(x)) && Upstreamed(c, x) && i < |x.sends|
    ensures Upstreamed(c, AfterSend(c, x, i, now, locked))
  {
    SendNumbered(c, x, i, now, locked);
    SendStepWritesFrames(c, x.sends[i], x.sh, now, locked);
  }

  lemma OpenUpstreamed(c: Codec, x: System, ev: Event)
    requires Shaped(x) && Upstreamed(c, x) && Possible(c, x, ev) && ev.OpenUpstream?
    ensures Upstreamed(c, After(c, x, ev))
  {
    FreshWritten(c, ev.out);
    NumberedSame(x.sends, x.sends + [FreshSend(ev.out)], x.queries);
  }

  lemma ChannelUpstreamed(c: Codec, x: System, i: nat, rx: seq<(Peer, Message)>, closed: bool)
    requires Upstreamed(c, x) && i < |x.sends|
    ensures Upstreamed(c, x.(sends := x.sends[i := x.sends[i].(rx := rx, closed := closed)]))
  {
    ChannelWritten(c, x.sends[i], rx, closed);
    NumberedSame(x.sends, x.sends[i := x.sends[i].(rx := rx, closed := closed)], x.queries);
  }

  lemma EventUpstreamed(c: Codec, x: System, ev: Event)
    requires Shaped(x) && Counted(x) && Records(Abs(x)) && Upstreamed(c, x) && Possible(c, x, ev)
    ensures Upstreamed(c, After(c, x, ev))
  {
    match ev {
      case SendRound(i, now, locked) => SendUpstreamed(c, x, i, now, locked);
      case RecvRound(_, _, _, _) =>
      case SweepNow(_, _) =>
      case Enqueue(i, peer, m) => ChannelUpstreamed(c, x, i, x.sends[i].rx + [(peer, m)], x.sends[i].closed);
      case DropSender(i) => ChannelUpstreamed(c, x, i, x.sends[i].rx, true);
      case OpenUpstream(_, _) => OpenUpstreamed(c, x, ev);
    }
  }

  lemma {:induction false} SystemUpstreamed(c: Codec, xs: seq<System>, evs: seq<Event>, k: nat)
    requires SystemRun(c, xs, evs) && k < |xs|
    ensures Upstreamed(c, xs[k])
  {
    if k > 0 {
      SystemUpstreamed(c, xs, evs, k - 1);
      SystemRecords(c, xs, evs, k - 1);
      assert xs[k] == After(c, xs[k - 1], evs[k - 1]);
      EventUpstreamed(c, xs[k - 1], evs[k - 1]);
    }
  }

  /** In every run each query is taken by exactly one send task, once, and each upstream connection sees
      exactly the queries its task has sent, in order, query number `q` under wire id `WireId(q)`. */
  lemma QueriesGoUpstream(c: Codec, xs: seq<System>, evs: seq<Event>)
    requires SystemRun(c, xs, evs)
    ensures var x := xs[|evs|];
      && Numbered(x.sends, x.queries)
      && forall i :: 0 <= i < |x.sends| ==> SendShape(x.sends[i]) && UpstreamSees(c, x.sends[i])
  {
    var x := xs[|evs|];
    SystemUpstreamed(c, xs, evs, |evs|);
    forall i | 0 <= i < |x.sends| ensures SendShape(x.sends[i]) && UpstreamSees(c, x.sends[i]) {
      WrittenDeframes(c, x.sends[i]);
    }
  }
}
