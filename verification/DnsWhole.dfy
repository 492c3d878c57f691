/** `dns_proxy.rs`: the slots and the tasks behind them as one machine.  Upstream `u` of the slots has send
    task `u` and receive task `u`; a receive task's flag load and what it then does are two moves, so that a
    sender may be dropped in between. */
module DnsWhole {
  import opened Io
  import opened DnsSessions
  import opened DnsFraming
  import opened DnsRecv
  import opened DnsSend
  import opened DnsSystem
  import opened DnsDelivery
  import opened DnsSlots

  /** `loaded`: the receive tasks that have found their flag set and not yet acted on it.  `sent` has the
      messages whose `send` returned `Ok`. */
  datatype Whole = Whole(slots: Slots, sys: System, loaded: set<nat>, sent: multiset<Item>)

  datatype Move =
    | Ask(item: Item, ok: bool, out: UpstreamOut, up: UpstreamIn)       // DnsProxy::send
    | Vacate(i: nat)                                                    // the clear loop at slot i
    | LoadFlag(j: nat)                                                  // a receive task loads its flag
    | Act(j: nat, locked: bool, tag: nat)                               // and goes on
    | Transmit(i: nat, now: nat, locked: bool)                          // a round of a send task
    | Expire(now: nat, timeout: nat)

  function Fresh(max: nat): Whole { Whole(NoUpstream(max), Boot(), {}, multiset{}) }

  function Slot(w: Whole): Option<nat>
    requires |w.slots.slots| > 0
  { w.slots.slots[w.slots.idx % |w.slots.slots|] }

  /** Whether the slot's channel still has its receiver: the send task has not ended. */
  predicate IsOpen(w: Whole)
    requires |w.slots.slots| > 0
  { Slot(w).Some? && Slot(w).value !in w.sys.endedSends }

  /** What a move is to the system of tasks. */
  function Effects(w: Whole, mv: Move): seq<Event>
    requires |w.slots.slots| > 0 && |w.slots.running| == |w.sys.recvs|
  {
    match mv
    case Ask(item, ok, out, up) =>
      if IsOpen(w) then [Enqueue(Slot(w).value, item.0, item.1)]
      else if !ok then []
      else
        (if Slot(w).Some? then [DropSender(Slot(w).value)] else [])
        + [OpenUpstream(out, up), Enqueue(|w.sys.sends|, item.0, item.1)]
    case Vacate(i) =>
      if i < |w.slots.slots| && w.slots.slots[i].Some? then [DropSender(w.slots.slots[i].value)] else []
    case LoadFlag(j) => if j < |w.sys.recvs| && !w.slots.running[j] then [RecvRound(j, false, false, 0)] else []
    case Act(j, locked, tag) => [RecvRound(j, true, locked, tag)]
    case Transmit(i, now, locked) => [SendRound(i, now, locked)]
    case Expire(now, timeout) => [SweepNow(now, timeout)]
  }

  /** System events taken one after the other from `x`. */
  ghost predicate SystemLeads(c: Codec, x: System, evs: seq<Event>, x': System)
    decreases |evs|
  {
    if evs == [] then x == x'
    else Shaped(x) && Possible(c, x, evs[0]) && SystemLeads(c, After(c, x, evs[0]), evs[1..], x')
  }

  /** The slots, the flag loads and the record of sends after a move. */
  function SlotsNext(w: Whole, mv: Move): Slots
    requires |w.slots.slots| > 0
  {
    match mv
    case Ask(item, ok, _, _) => SendVia(w.slots, item, IsOpen(w), ok)
    case Vacate(i) =>
      if i < |w.slots.slots| then
        w.slots.(slots := w.slots.slots[i := None], running := Release(w.slots.running, w.slots.slots[i]))
      else w.slots
    case _ => w.slots
  }

  function LoadedNext(w: Whole, mv: Move): set<nat>
    requires |w.slots.running| == |w.sys.recvs|
  {
    match mv
    case LoadFlag(j) => if j < |w.sys.recvs| && w.slots.running[j] then w.loaded + {j} else w.loaded
    case Act(j, _, _) => w.loaded - {j}
    case _ => w.loaded
  }

  function SentNext(w: Whole, mv: Move): multiset<Item>
    requires |w.slots.slots| > 0
  {
    if mv.Ask? && Accepts(w.slots, IsOpen(w), mv.ok) then w.sent + multiset{mv.item} else w.sent
  }

  ghost predicate Moves(c: Codec, w: Whole, mv: Move, w': Whole) {
    && |w.slots.slots| > 0 && |w.slots.running| == |w.sys.recvs|
    && (mv.LoadFlag? ==> mv.j < |w.sys.recvs| && mv.j !in w.sys.endedRecvs && mv.j !in w.loaded)
    && (mv.Act? ==> mv.j in w.loaded)
    && SystemLeads(c, w.sys, Effects(w, mv), w'.sys)
    && w'.slots == SlotsNext(w, mv) && w'.loaded == LoadedNext(w, mv) && w'.sent == SentNext(w, mv)
  }

  ghost predicate WholeRun(c: Codec, max: nat, ws: seq<Whole>, mvs: seq<Move>) {
    && max > 0 && |ws| == |mvs| + 1 && ws[0] == Fresh(max)
    && forall k :: 0 <= k < |mvs| ==> Moves(c, ws[k], mvs[k], ws[k + 1])
  }

  // ---------------------------------------------------------------------------------------------
  // Every run is a run of the system of tasks

  lemma SystemRunSnoc(c: Codec, xs: seq<System>, evs: seq<Event>, ev: Event, y: System)
    requires SystemRun(c, xs, evs) && Possible(c, xs[|evs|], ev) && y == After(c, xs[|evs|], ev) && Shaped(y)
    ensures SystemRun(c, xs + [y], evs + [ev])
  {
  }

  lemma SystemRunExtends(c: Codec, xs: seq<System>, evs: seq<Event>, ev: Event)
    requires SystemRun(c, xs, evs) && Counted(xs[|evs|]) && Possible(c, xs[|evs|], ev)
    ensures var y := After(c, xs[|evs|], ev); SystemRun(c, xs + [y], evs + [ev]) && Counted(y)
  {
    var steps := EventRefines(c, xs[|evs|], ev);
    SystemRunSnoc(c, xs, evs, ev, After(c, xs[|evs|], ev));
  }

  lemma {:induction false} SystemRunAppends(c: Codec, xs: seq<System>, evs: seq<Event>, more: seq<Event>, x: System)
    returns (xs': seq<System>, evs': seq<Event>)
    requires SystemRun(c, xs, evs) && Counted(xs[|evs|]) && SystemLeads(c, xs[|evs|], more, x)
    ensures SystemRun(c, xs', evs') && Counted(xs'[|evs'|]) && xs'[|evs'|] == x
    decreases |more|
  {
    if more == [] {
      xs', evs' := xs, evs;
    } else {
      SystemRunExtends(c, xs, evs, more[0]);
      xs', evs' := SystemRunAppends(c, xs + [After(c, xs[|evs|], more[0])], evs + [more[0]], more[1..], x);
    }
  }

  lemma {:induction false} LedIsSystemRun(c: Codec, ys: seq<System>, k: nat) returns (xs: seq<System>, evs: seq<Event>)
    requires k < |ys| && ys[0] == Boot()
    requires forall i :: 0 <= i < |ys| - 1 ==> Led(c, ys[i], ys[i + 1])
    ensures SystemRun(c, xs, evs) && Counted(xs[|evs|]) && xs[|evs|] == ys[k]
  {
    if k == 0 {
      xs, evs := [Boot()], [];
    } else {
      var xs0, evs0 := LedIsSystemRun(c, ys, k - 1);
      assert Led(c, ys[k - 1], ys[k]);
      var more :| SystemLeads(c, ys[k - 1], more, ys[k]);
      xs, evs := SystemRunAppends(c, xs0, evs0, more, ys[k]);
    }
  }

  /** Some events lead from one state to the other. */
  ghost predicate Led(c: Codec, x: System, x': System) { exists evs :: SystemLeads(c, x, evs, x') }

  lemma WholeIsSystemRun(c: Codec, max: nat, ws: seq<Whole>, mvs: seq<Move>, k: nat)
    returns (xs: seq<System>, evs: seq<Event>)
    requires WholeRun(c, max, ws, mvs) && k < |ws|
    ensures SystemRun(c, xs, evs) && Counted(xs[|evs|]) && xs[|evs|] == ws[k].sys
  {
    var ys := seq(|ws|, i requires 0 <= i < |ws| => ws[i].sys);
    forall i | 0 <= i < |ys| - 1 ensures Led(c, ys[i], ys[i + 1]) {
      assert Moves(c, ws[i], mvs[i], ws[i + 1]);
    }
    xs, evs := LedIsSystemRun(c, ys, k);
  }

  // ---------------------------------------------------------------------------------------------
  // Slots and tasks stay in step

  /** Everything that a send task's channel has carried: the messages taken, then those waiting. */
  function Carried(t: SendTask): seq<Item> { Items(t.dequeued) + t.rx }

  function Items(ds: seq<Dequeued>): seq<Item> {
    seq(|ds|, i requires 0 <= i < |ds| => (ds[i].peer, ds[i].asked))
  }

  /** The channels are those of the send tasks, and a channel is closed exactly when its flag is cleared. */
  ghost predicate Matched(slots: Slots, sends: seq<SendTask>, recvs: seq<RecvTask>) {
    && |slots.running| == |slots.channels| == |sends| == |recvs|
    && forall u :: 0 <= u < |sends| ==>
         Carried(sends[u]) == slots.channels[u] && (sends[u].closed <==> !slots.running[u])
  }

  ghost predicate WholeOk(w: Whole) {
    && SlotsOk(w.slots) && |w.slots.slots| > 0 && Matched(w.slots, w.sys.sends, w.sys.recvs)
    && Total(w.slots.channels) == w.sent && Shaped(w.sys)
  }

  lemma CarriedRound(c: Codec, t: SendTask, sh: Shared, now: nat, locked: bool)
    requires SendShape(t)
    ensures var t' := SendStep(c, t, sh, now, locked).t; Carried(t') == Carried(t) && t'.closed == t.closed
  {
    if t.state.Idle? && t.rx != [] {
      var d := Dequeued(t.rx[0].0, t.rx[0].1, sh.counter, sh.issued);
      assert Items(t.dequeued + [d]) == Items(t.dequeued) + [t.rx[0]];
      assert t.rx == [t.rx[0]] + t.rx[1..];
    }
  }

  lemma MatchedPut(slots: Slots, sends: seq<SendTask>, recvs: seq<RecvTask>, u: nat, item: Item)
    requires Matched(slots, sends, recvs) && u < |sends|
    ensures Matched(slots.(channels := Put(slots.channels, u, item)),
                    sends[u := sends[u].(rx := sends[u].rx + [item])], recvs)
  {
  }

  lemma MatchedRelease(slots: Slots, sends: seq<SendTask>, recvs: seq<RecvTask>, u: nat)
    requires Matched(slots, sends, recvs) && u < |sends|
    ensures Matched(slots.(running := Release(slots.running, Some(u))), sends[u := sends[u].(closed := true)], recvs)
  {
  }

  lemma MatchedOpen(slots: Slots, sends: seq<SendTask>, recvs: seq<RecvTask>, out: UpstreamOut, up: UpstreamIn, item: Item)
    requires Matched(slots, sends, recvs)
    ensures Matched(slots.(running := slots.running + [true], channels := slots.channels + [[item]]),
                    sends + [FreshSend(out).(rx := [item])], recvs + [FreshRecv(up)])
  {
  }

  lemma LeadsHead(c: Codec, x: System, ev: Event, rest: seq<Event>, x': System)
    requires SystemLeads(c, x, [ev] + rest, x')
    ensures Shaped(x) && Possible(c, x, ev) && SystemLeads(c, After(c, x, ev), rest, x')
  {
    assert ([ev] + rest)[1..] == rest;
  }

  lemma LeadsOne(c: Codec, x: System, ev: Event, x': System)
    requires SystemLeads(c, x, [ev], x')
    ensures Shaped(x) && Possible(c, x, ev) && x' == After(c, x, ev)
  {
    assert [ev] == [ev] + [];
    LeadsHead(c, x, ev, [], x');
  }

  /** A new upstream with its first message. */
  lemma StartMatched(c: Codec, slots: Slots, x: System, out: UpstreamOut, up: UpstreamIn, item: Item, x': System)
    requires Matched(slots, x.sends, x.recvs)
    requires SystemLeads(c, x, [OpenUpstream(out, up), Enqueue(|x.sends|, item.0, item.1)], x')
    ensures Matched(slots.(running := slots.running + [true], channels := slots.channels + [[item]]), x'.sends, x'.recvs)
  {
    var open, put := OpenUpstream(out, up), Enqueue(|x.sends|, item.0, item.1);
    assert [open, put] == [open] + [put];
    LeadsHead(c, x, open, [put], x');
    LeadsOne(c, After(c, x, open), put, x');
    MatchedOpen(slots, x.sends, x.recvs, out, up, item);
    assert x'.sends == x.sends + [FreshSend(out).(rx := [item])];
  }

  lemma DropMatched(c: Codec, slots: Slots, x: System, u: nat, x': System)
    requires Matched(slots, x.sends, x.recvs) && Shaped(x) && Possible(c, x, DropSender(u))
    requires x' == After(c, x, DropSender(u))
    ensures Matched(slots.(running := Release(slots.running, Some(u))), x'.sends, x'.recvs)
  {
    MatchedRelease(slots, x.sends, x.recvs, u);
  }

  /** Matching does not depend on the slots themselves, nor on the cursor. */
  lemma MatchedFrame(slots: Slots, slots': Slots, sends: seq<SendTask>, recvs: seq<RecvTask>)
    requires Matched(slots, sends, recvs) && slots'.running == slots.running && slots'.channels == slots.channels
    ensures Matched(slots', sends, recvs)
  {
  }

  lemma RestartMatched(c: Codec, w: Whole, mv: Move, x': System)
    requires WholeOk(w) && mv.Ask? && !IsOpen(w) && mv.ok && SystemLeads(c, w.sys, Effects(w, mv), x')
    ensures Matched(SlotsNext(w, mv), x'.sends, x'.recvs)
  {
    var x, slots := w.sys, w.slots;
    var rest := [OpenUpstream(mv.out, mv.up), Enqueue(|x.sends|, mv.item.0, mv.item.1)];
    if Slot(w).Some? {
      var drop := DropSender(Slot(w).value);
      LeadsHead(c, x, drop, rest, x');
      DropMatched(c, slots, x, Slot(w).value, After(c, x, drop));
      x, slots := After(c, x, drop), slots.(running := Release(slots.running, Slot(w)));
    } else {
      assert Effects(w, mv) == rest;
    }
    StartMatched(c, slots, x, mv.out, mv.up, mv.item, x');
    MatchedFrame(slots.(running := slots.running + [true], channels := slots.channels + [[mv.item]]),
                 SlotsNext(w, mv), x'.sends, x'.recvs);
  }

  lemma AskMatched(c: Codec, w: Whole, mv: Move, x': System)
    requires WholeOk(w) && mv.Ask? && SystemLeads(c, w.sys, Effects(w, mv), x')
    ensures Matched(SlotsNext(w, mv), x'.sends, x'.recvs)
  {
    if IsOpen(w) {
      var u := Slot(w).value;
      LeadsOne(c, w.sys, Enqueue(u, mv.item.0, mv.item.1), x');
      MatchedPut(w.slots, w.sys.sends, w.sys.recvs, u, mv.item);
      MatchedFrame(w.slots.(channels := Put(w.slots.channels, u, mv.item)), SlotsNext(w, mv), x'.sends, x'.recvs);
    } else if mv.ok {
      RestartMatched(c, w, mv, x');
    } else {
      MatchedFrame(w.slots, SlotsNext(w, mv), x'.sends, x'.recvs);
    }
  }

  lemma VacateMatched(c: Codec, w: Whole, mv: Move, x': System)
    requires WholeOk(w) && mv.Vacate? && SystemLeads(c, w.sys, Effects(w, mv), x')
    ensures Matched(SlotsNext(w, mv), x'.sends, x'.recvs)
  {
    if mv.i < |w.slots.slots| && w.slots.slots[mv.i].Some? {
      var u := w.slots.slots[mv.i].value;
      LeadsOne(c, w.sys, DropSender(u), x');
      DropMatched(c, w.slots, w.sys, u, x');
      MatchedFrame(w.slots.(running := Release(w.slots.running, Some(u))), SlotsNext(w, mv), x'.sends, x'.recvs);
    } else {
      MatchedFrame(w.slots, SlotsNext(w, mv), x'.sends, x'.recvs);
    }
  }

  lemma RoundMatched(c: Codec, slots: Slots, x: System, ev: Event)
    requires Matched(slots, x.sends, x.recvs) && Shaped(x) && Possible(c, x, ev)
    requires ev.SendRound? || ev.RecvRound? || ev.SweepNow?
    ensures var x' := After(c, x, ev); Matched(slots, x'.sends, x'.recvs)
  {
    if ev.SendRound? { CarriedRound(c, x.sends[ev.i], x.sh, ev.now, ev.locked); }
  }

  lemma MoveMatched(c: Codec, w: Whole, mv: Move, w': Whole)
    requires WholeOk(w) && Moves(c, w, mv, w')
    ensures Matched(w'.slots, w'.sys.sends, w'.sys.recvs)
  {
    if mv.Ask? {
      AskMatched(c, w, mv, w'.sys);
    } else if mv.Vacate? {
      VacateMatched(c, w, mv, w'.sys);
    } else if Effects(w, mv) != [] {
      var ev := Effects(w, mv)[0];
      assert Effects(w, mv) == [ev];
      LeadsOne(c, w.sys, ev, w'.sys);
      RoundMatched(c, w.slots, w.sys, ev);
    }
  }

  lemma MoveSlots(c: Codec, w: Whole, mv: Move, w': Whole)
    requires WholeOk(w) && Moves(c, w, mv, w')
    ensures SlotsOk(w'.slots) && NeverRevived(w.slots, w'.slots) && |w'.slots.slots| > 0
    ensures Total(w'.slots.channels) == w'.sent
  {
    match mv {
      case Ask(item, ok, _, _) =>
        SendKeeps(w.slots, item, IsOpen(w), ok);
        SendConserves(w.slots, item, IsOpen(w), ok);
      case Vacate(i) => if i < |w.slots.slots| { ReleaseKeeps(w.slots, i); }
      case _ =>
    }
  }

  lemma {:induction false} WholeKeeps(c: Codec, max: nat, ws: seq<Whole>, mvs: seq<Move>, k: nat)
    requires WholeRun(c, max, ws, mvs) && k < |ws|
    ensures WholeOk(ws[k])
  {
    var xs, evs := WholeIsSystemRun(c, max, ws, mvs, k);
    assert Shaped(xs[|evs|]);
    if k > 0 {
      WholeKeeps(c, max, ws, mvs, k - 1);
      assert Moves(c, ws[k - 1], mvs[k - 1], ws[k]);
      MoveMatched(c, ws[k - 1], mvs[k - 1], ws[k]);
      MoveSlots(c, ws[k - 1], mvs[k - 1], ws[k]);
    }
  }

  // ---------------------------------------------------------------------------------------------
  // When tasks end

  /** The latest send on this connection or socket failed. */
  ghost predicate SendBroken(out: UpstreamOut) {
    match out
    case TcpOut(w) => w.calls > 0 && w.plan(w.calls - 1).WriteError?
    case UdpOut(d) => d.calls > 0 && d.plan(d.calls - 1).SocketError?
  }

  /** The latest receive failed, or met the end of the stream. */
  ghost predicate ReceiveSpent(up: UpstreamIn) {
    match up
    case TcpIn(r) => r.calls > 0 && (r.plan(r.calls - 1).ReadError? || r.sawEof)
    case UdpIn(u) => u.calls > 0 && u.plan(u.calls - 1).SocketError?
  }

  /** A send task has ended only if its channel is closed or its latest send failed; a receive task only
      if its flag is cleared or its upstream is spent. */
  ghost predicate EndsExplained(slots: Slots, x: System) {
    && |slots.running| == |x.recvs|
    && (forall u :: u in x.endedSends ==> u < |x.sends| && (x.sends[u].closed || SendBroken(x.sends[u].out)))
    && (forall j :: j in x.endedRecvs ==> j < |x.recvs| && (!slots.running[j] || ReceiveSpent(x.recvs[j].up)))
  }

  /** No task has ended meanwhile, and the connections of the old ones are as they were. */
  ghost predicate NoneEnds(x: System, x': System) {
    && x'.endedSends == x.endedSends && x'.endedRecvs == x.endedRecvs
    && |x.sends| <= |x'.sends| && |x.recvs| <= |x'.recvs|
    && (forall u :: 0 <= u < |x.sends| ==> x'.sends[u].out == x.sends[u].out && (x.sends[u].closed ==> x'.sends[u].closed))
    && (forall j :: 0 <= j < |x.recvs| ==> x'.recvs[j].up == x.recvs[j].up)
  }

  ghost predicate OfChannels(evs: seq<Event>) {
    forall e :: e in evs ==> e.Enqueue? || e.DropSender? || e.OpenUpstream?
  }

  lemma ChannelEventEndsNone(c: Codec, x: System, ev: Event)
    requires Shaped(x) && Possible(c, x, ev) && (ev.Enqueue? || ev.DropSender? || ev.OpenUpstream?)
    ensures NoneEnds(x, After(c, x, ev))
  {
  }

  lemma {:induction false} ChannelsEndNone(c: Codec, x: System, evs: seq<Event>, x': System)
    requires SystemLeads(c, x, evs, x') && OfChannels(evs)
    ensures NoneEnds(x, x')
    decreases |evs|
  {
    if evs != [] {
      ChannelEventEndsNone(c, x, evs[0]);
      ChannelsEndNone(c, After(c, x, evs[0]), evs[1..], x');
    }
  }

  lemma NoneEndsExplained(slots: Slots, x: System, slots': Slots, x': System)
    requires EndsExplained(slots, x) && NoneEnds(x, x') && NeverRevived(slots, slots') && |slots'.running| == |x'.recvs|
    ensures EndsExplained(slots', x')
  {
  }

  lemma SendRoundExplained(c: Codec, slots: Slots, x: System, i: nat, now: nat, locked: bool)
    requires Shaped(x) && EndsExplained(slots, x) && Possible(c, x, SendRound(i, now, locked))
    ensures EndsExplained(slots, After(c, x, SendRound(i, now, locked)))
  {
    SendEndsExactly(c, x.sends[i], x.sh, now, locked);
  }

  lemma RecvEndBroken(c: Codec, t: RecvTask, sessions: map<Wire, Session>, locked: bool)
    requires RecvShape(t)
    ensures var o := RecvStep(c, t, sessions, true, locked); !o.end.Again? && !o.end.Wait? ==> ReceiveSpent(o.t.up)
  {
    RecvEndsExactly(c, t, sessions, true, locked);
  }

  lemma RecvRoundExplained(c: Codec, slots: Slots, x: System, j: nat, running: bool, locked: bool, tag: nat)
    requires Shaped(x) && EndsExplained(slots, x) && Possible(c, x, RecvRound(j, running, locked, tag))
    requires !running ==> !slots.running[j]
    ensures EndsExplained(slots, After(c, x, RecvRound(j, running, locked, tag)))
  {
    if running { RecvEndBroken(c, x.recvs[j], x.sh.sessions, locked); }
  }

  lemma RoundExplained(c: Codec, slots: Slots, x: System, ev: Event)
    requires Shaped(x) && EndsExplained(slots, x) && Possible(c, x, ev)
    requires ev.SendRound? || ev.SweepNow? || (ev.RecvRound? && (ev.running || !slots.running[ev.j]))
    ensures EndsExplained(slots, After(c, x, ev))
  {
    match ev {
      case SendRound(i, now, locked) => SendRoundExplained(c, slots, x, i, now, locked);
      case RecvRound(j, running, locked, tag) => RecvRoundExplained(c, slots, x, j, running, locked, tag);
      case SweepNow(_, _) =>
    }
  }

  lemma EffectsOfMove(w: Whole, mv: Move)
    requires |w.slots.slots| > 0 && |w.slots.running| == |w.sys.recvs|
    ensures mv.Ask? || mv.Vacate? ==> OfChannels(Effects(w, mv))
    ensures !mv.Ask? && !mv.Vacate? && Effects(w, mv) != [] ==>
      |Effects(w, mv)| == 1 && SlotsNext(w, mv) == w.slots
      && var ev := Effects(w, mv)[0];
         ev.SendRound? || ev.SweepNow?
         || (ev.RecvRound? && (ev.running || (ev.j < |w.slots.running| && !w.slots.running[ev.j])))
  {
  }

  lemma ChannelMoveExplained(c: Codec, w: Whole, mv: Move, w': Whole)
    requires WholeOk(w) && EndsExplained(w.slots, w.sys) && Moves(c, w, mv, w') && OfChannels(Effects(w, mv))
    ensures EndsExplained(w'.slots, w'.sys)
  {
    MoveSlots(c, w, mv, w');
    MoveMatched(c, w, mv, w');
    ChannelsEndNone(c, w.sys, Effects(w, mv), w'.sys);
    NoneEndsExplained(w.slots, w.sys, w'.slots, w'.sys);
  }

  lemma MoveExplained(c: Codec, w: Whole, mv: Move, w': Whole)
    requires WholeOk(w) && EndsExplained(w.slots, w.sys) && Moves(c, w, mv, w')
    ensures EndsExplained(w'.slots, w'.sys)
  {
    EffectsOfMove(w, mv);
    if mv.Ask? || mv.Vacate? || Effects(w, mv) == [] {
      ChannelMoveExplained(c, w, mv, w');
    } else {
      var ev := Effects(w, mv)[0];
      assert Effects(w, mv) == [ev];
      LeadsOne(c, w.sys, ev, w'.sys);
      RoundExplained(c, w.slots, w.sys, ev);
    }
  }

  lemma {:induction false} WholeExplained(c: Codec, max: nat, ws: seq<Whole>, mvs: seq<Move>, k: nat)
    requires WholeRun(c, max, ws, mvs) && k < |ws|
    ensures EndsExplained(ws[k].slots, ws[k].sys)
  {
    if k > 0 {
      WholeExplained(c, max, ws, mvs, k - 1);
      WholeKeeps(c, max, ws, mvs, k - 1);
      assert Moves(c, ws[k - 1], mvs[k - 1], ws[k]);
      MoveExplained(c, ws[k - 1], mvs[k - 1], ws[k]);
    }
  }

  /** In every run a task has ended only for cause, and so a slot is given up only for cause: while an
      upstream is in a slot and its sends do not fail, its channel is open and every `send` on that slot
      goes to it; its receive task has ended only if the upstream failed or closed. */
  lemma UpstreamsLast(c: Codec, max: nat, ws: seq<Whole>, mvs: seq<Move>, i: nat)
    requires WholeRun(c, max, ws, mvs)
    requires var w := ws[|mvs|]; i < |w.slots.slots| && w.slots.slots[i].Some?
    ensures var w := ws[|mvs|]; var u := w.slots.slots[i].value;
      && u < |w.sys.sends| == |w.sys.recvs|
      && (u in w.sys.endedSends ==> SendBroken(w.sys.sends[u].out))
      && (u in w.sys.endedRecvs ==> ReceiveSpent(w.sys.recvs[u].up))
      && (|w.slots.slots| > 0 && i == w.slots.idx % |w.slots.slots| && !SendBroken(w.sys.sends[u].out) ==> IsOpen(w))
  {
    var w := ws[|mvs|];
    WholeKeeps(c, max, ws, mvs, |mvs|);
    WholeExplained(c, max, ws, mvs, |mvs|);
    assert w.slots.slots[i] in w.slots.slots;
  }

  // ---------------------------------------------------------------------------------------------
  // What the whole proxy promises

  /** Conservation, from `send` to the upstream: over any sends, restarts, clears, failures and rounds, the
      messages on all channels together are exactly those whose `send` returned `Ok`; each channel's are
      those its send task has taken, in order, then those that wait; each message taken is a query that
      goes up under its own wire id, and each upstream sees exactly what its task has sent. */
  lemma AcceptedGoUpstream(c: Codec, max: nat, ws: seq<Whole>, mvs: seq<Move>)
    requires WholeRun(c, max, ws, mvs)
    ensures var w := ws[|mvs|];
      && Total(w.slots.channels) == w.sent && Matched(w.slots, w.sys.sends, w.sys.recvs)
      && Numbered(w.sys.sends, w.sys.queries)
      && forall u :: 0 <= u < |w.sys.sends| ==> SendShape(w.sys.sends[u]) && UpstreamSees(c, w.sys.sends[u])
  {
    WholeKeeps(c, max, ws, mvs, |mvs|);
    var xs, evs := WholeIsSystemRun(c, max, ws, mvs, |mvs|);
    QueriesGoUpstream(c, xs, evs);
  }

  /** The flag of upstream `u` is cleared, and its receive task may have loaded it before. */
  ghost predicate Stopped(w: Whole, u: nat) { u < |w.slots.running| && !w.slots.running[u] }

  ghost predicate Turn(mv: Move, u: nat) { (mv.LoadFlag? || mv.Act?) && mv.j == u }

  /** A dropped upstream stays dropped, and no move gives its receive task another turn. */
  ghost predicate GivesNoTurn(w: Whole, mv: Move, w': Whole, u: nat) {
    Stopped(w, u) ==> Stopped(w', u) && (u in w'.loaded ==> u in w.loaded && !Turn(mv, u))
  }

  lemma NoNewLoad(w: Whole, mv: Move, u: nat)
    requires Stopped(w, u) && |w.slots.running| == |w.sys.recvs| && (mv.LoadFlag? ==> mv.j !in w.loaded)
    ensures u in LoadedNext(w, mv) ==> u in w.loaded && !Turn(mv, u)
  {
  }

  lemma StoppedStays(c: Codec, w: Whole, mv: Move, w': Whole, u: nat)
    requires WholeOk(w) && Moves(c, w, mv, w')
    ensures GivesNoTurn(w, mv, w', u)
  {
    if Stopped(w, u) {
      MoveSlots(c, w, mv, w');
      NoNewLoad(w, mv, u);
    }
  }

  /** A flag load that finds the flag cleared ends the task, and changes nothing else. */
  lemma LoadEnds(c: Codec, w: Whole, u: nat, w': Whole)
    requires WholeOk(w) && Moves(c, w, LoadFlag(u), w') && Stopped(w, u)
    ensures w'.sys == w.sys.(endedRecvs := w.sys.endedRecvs + {u})
  {
    LeadsOne(c, w.sys, RecvRound(u, false, false, 0), w'.sys);
  }

  lemma {:induction false} NoTurnsGiven(ws: seq<Whole>, mvs: seq<Move>, k: nat, n: nat, u: nat)
    requires k <= n < |ws| == |mvs| + 1 && Stopped(ws[k], u)
    requires forall i :: k <= i < n ==> GivesNoTurn(ws[i], mvs[i], ws[i + 1], u)
    ensures Stopped(ws[n], u)
    ensures u in ws[n].loaded ==> u in ws[k].loaded && forall e :: k <= e < n ==> !Turn(mvs[e], u)
  {
    if k < n {
      NoTurnsGiven(ws, mvs, k, n - 1, u);
      assert GivesNoTurn(ws[n - 1], mvs[n - 1], ws[n], u);
    }
  }

  lemma OneTurnLeft(c: Codec, max: nat, ws: seq<Whole>, mvs: seq<Move>, k: nat, n: nat, u: nat)
    requires WholeRun(c, max, ws, mvs) && k <= n < |ws| && Stopped(ws[k], u)
    ensures Stopped(ws[n], u)
    ensures u in ws[n].loaded ==> u in ws[k].loaded && forall e :: k <= e < n ==> !Turn(mvs[e], u)
  {
    forall i | k <= i < n ensures GivesNoTurn(ws[i], mvs[i], ws[i + 1], u) {
      WholeKeeps(c, max, ws, mvs, i);
      StoppedStays(c, ws[i], mvs[i], ws[i + 1], u);
    }
    NoTurnsGiven(ws, mvs, k, n, u);
  }

  /** Once the sender of an upstream has been dropped, by a clear or a restart, its receive task does
      nothing more than what it had loaded its flag for: at most one more round, before any further flag
      load; the next flag load ends it without writing a packet or touching a session. */
  lemma DroppedFallsSilent(c: Codec, max: nat, ws: seq<Whole>, mvs: seq<Move>, k: nat, n: nat, u: nat)
    requires WholeRun(c, max, ws, mvs) && k <= n < |mvs| && Stopped(ws[k], u)
    ensures mvs[n].Act? && mvs[n].j == u ==> u in ws[k].loaded && forall e :: k <= e < n ==> !Turn(mvs[e], u)
    ensures mvs[n] == LoadFlag(u) ==> ws[n + 1].sys == ws[n].sys.(endedRecvs := ws[n].sys.endedRecvs + {u})
  {
    OneTurnLeft(c, max, ws, mvs, k, n, u);
    WholeKeeps(c, max, ws, mvs, n);
    assert Moves(c, ws[n], mvs[n], ws[n + 1]);
    if mvs[n] == LoadFlag(u) { LoadEnds(c, ws[n], u, ws[n + 1]); }
  }

  /** Every packet that the whole proxy writes is accounted for as in `PacketsRightExactly`. */
  lemma WholePacketsRight(c: Codec, max: nat, ws: seq<Whole>, mvs: seq<Move>)
    requires WholeRun(c, max, ws, mvs)
    ensures PacketsAccounted(c, ws[|mvs|].sys)
  {
    var xs, evs := WholeIsSystemRun(c, max, ws, mvs, |mvs|);
    PacketsRightExactly(c, xs, evs);
  }
}
