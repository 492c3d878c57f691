/** The whole DNS proxy: any number of send and receive tasks over TCP or UDP, byte by byte, under any
    schedule of rounds.  Every round refines the session protocol. */
module DnsSystem {
  import opened Io
  import opened DnsSessions
  import opened DnsFraming
  import opened DnsRecv
  import opened DnsSend

  /** A finished task is never polled again.  The remaining fields but `packets` are history: `tags[j][n]`
      is the serial of the query answered by the n-th payload that receive task `j` gave to the decoder. */
  datatype System = System(sh: Shared, sends: seq<SendTask>, endedSends: set<nat>,
                           recvs: seq<RecvTask>, endedRecvs: set<nat>, packets: seq<Packet>,
                           tags: seq<seq<nat>>, queries: seq<Query>, delivered: seq<Delivery>)

  datatype Event =
    | SendRound(i: nat, now: nat, locked: bool)
    | RecvRound(j: nat, running: bool, locked: bool, tag: nat)
    | Enqueue(i: nat, peer: Peer, m: Message)
    | DropSender(i: nat)
    | OpenUpstream(out: UpstreamOut, up: UpstreamIn)
    | SweepNow(now: nat, timeout: nat)

  function Boot(): System { System(Shared(1, 0, map[]), [], {}, [], {}, [], [], [], []) }

  /** Every payload has a tag. */
  ghost predicate Tagged(t: RecvTask, tags: seq<nat>) {
    |tags| == |t.handed| && (t.state.Locked? ==> tags != [])
  }

  ghost predicate Shaped(x: System) {
    && |x.tags| == |x.recvs|
    && (forall i :: i in x.endedSends ==> i < |x.sends|) && (forall j :: j in x.endedRecvs ==> j < |x.recvs|)
    && (forall i :: 0 <= i < |x.sends| ==> SendShape(x.sends[i]))
    && (forall j :: 0 <= j < |x.recvs| ==> RecvShape(x.recvs[j]) && Tagged(x.recvs[j], x.tags[j]))
  }

  /** Upstream echoes ids: a message that a receive task decodes answers query number `tag`. */
  ghost predicate Possible(c: Codec, x: System, ev: Event)
    requires Shaped(x)
  {
    match ev
    case SendRound(i, _, _) => i < |x.sends| && i !in x.endedSends
    case Enqueue(i, _, _) => i < |x.sends|
    case DropSender(i) => i < |x.sends|
    case RecvRound(j, running, locked, tag) =>
      j < |x.recvs| && j !in x.endedRecvs
      && (var o := RecvStep(c, x.recvs[j], x.sh.sessions, running, locked);
          o.t.state.Locked? && !x.recvs[j].state.Locked? ==> tag < |x.queries| && WireId(tag) == o.t.msg.value.id)
    case OpenUpstream(out, up) => out.Unused() && up.Valid() && up.Unused()
    case SweepNow(_, _) => true
  }

  function AfterSend(c: Codec, x: System, i: nat, now: nat, locked: bool): System
    requires i < |x.sends| && SendShape(x.sends[i])
  {
    var t := x.sends[i];
    var o := SendStep(c, t, x.sh, now, locked);
    x.(sh := o.sh, sends := x.sends[i := o.t],
       endedSends := if o.end.ChannelClosed? || o.end.SendFailed? then x.endedSends + {i} else x.endedSends,
       queries := if t.state.Idle? && t.rx != [] then x.queries + [Query(t.rx[0].0, t.rx[0].1.id)] else x.queries)
  }

  function AfterRecv(c: Codec, x: System, j: nat, running: bool, locked: bool, tag: nat): System
    requires Shaped(x) && j < |x.recvs|
  {
    var (t, tags) := (x.recvs[j], x.tags[j]);
    assert RecvShape(t) && Tagged(t, tags);
    var o := RecvStep(c, t, x.sh.sessions, running, locked);
    var answered := t.state.Locked? && o.packets != [] && t.msg.value.id in x.sh.sessions;
    x.(sh := x.sh.(sessions := o.sessions), recvs := x.recvs[j := o.t],
       endedRecvs := if o.end.Again? || o.end.Wait? then x.endedRecvs else x.endedRecvs + {j},
       packets := x.packets + o.packets,
       tags := x.tags[j := if |o.t.handed| > |t.handed| then tags + [tag] else tags],
       delivered := if !answered then x.delivered
                    else
                      var s := x.sh.sessions[t.msg.value.id];
                      x.delivered + [Delivery(s.peer.src, s.peer.dest, s.oldId, s.serial, tags[|tags| - 1])])
  }

  function After(c: Codec, x: System, ev: Event): System
    requires Shaped(x) && Possible(c, x, ev)
  {
    match ev
    case SendRound(i, now, locked) => AfterSend(c, x, i, now, locked)
    case RecvRound(j, running, locked, tag) => AfterRecv(c, x, j, running, locked, tag)
    case Enqueue(i, peer, m) => x.(sends := x.sends[i := x.sends[i].(rx := x.sends[i].rx + [(peer, m)])])
    case DropSender(i) => x.(sends := x.sends[i := x.sends[i].(closed := true)])
    case OpenUpstream(out, up) =>
      x.(sends := x.sends + [FreshSend(out)], recvs := x.recvs + [FreshRecv(up)], tags := x.tags + [[]])
    case SweepNow(now, timeout) => x.(sh := x.sh.(sessions := Unexpired(x.sh.sessions, now, timeout)))
  }

  /** The sessions in the hands of the send tasks, and the replies in those of the receive tasks. */
  function HeldBy(sends: seq<SendTask>, ended: set<nat>): map<nat, Session>
    requires forall i :: 0 <= i < |sends| ==> SendShape(sends[i])
  {
    map i: nat | i < |sends| && i !in ended && !sends[i].state.Idle? :: assert SendShape(sends[i]); sends[i].session.value
  }

  function RepliesOf(recvs: seq<RecvTask>, tags: seq<seq<nat>>, ended: set<nat>): map<nat, Reply>
    requires |tags| == |recvs| && forall j :: 0 <= j < |recvs| ==> RecvShape(recvs[j]) && Tagged(recvs[j], tags[j])
  {
    map j: nat | j < |recvs| && j !in ended && recvs[j].state.Locked? ::
      assert RecvShape(recvs[j]) && Tagged(recvs[j], tags[j]);
      Reply(recvs[j].msg.value.id, tags[j][|tags[j]| - 1])
  }

  /** The protocol state that a system state stands for. */
  function Abs(x: System): Proxy
    requires Shaped(x)
  {
    Proxy(x.sh.counter, x.sh.sessions, HeldBy(x.sends, x.endedSends), RepliesOf(x.recvs, x.tags, x.endedRecvs),
          x.queries, x.delivered)
  }

  /** Protocol steps taken one after the other from `s`. */
  ghost predicate Leads(s: Proxy, steps: seq<Step>, s': Proxy)
    decreases |steps|
  {
    if steps == [] then s == s' else Enabled(s, steps[0]) && Leads(Next(s, steps[0]), steps[1..], s')
  }

  ghost predicate Counted(x: System) { x.sh.issued == |x.queries| }

  // ---------------------------------------------------------------------------------------------
  // Send rounds

  lemma HeldUpdate(sends: seq<SendTask>, ended: set<nat>, i: nat, t: SendTask)
    requires i < |sends| && i !in ended && SendShape(t) && forall k :: 0 <= k < |sends| ==> SendShape(sends[k])
    ensures HeldBy(sends[i := t], ended)
         == if t.state.Idle? then HeldBy(sends, ended) - {i} else HeldBy(sends, ended)[i := t.session.value]
  {
  }

  lemma HeldEnd(sends: seq<SendTask>, ended: set<nat>, i: nat, t: SendTask)
    requires i < |sends| && SendShape(t) && forall k :: 0 <= k < |sends| ==> SendShape(sends[k])
    ensures HeldBy(sends[i := t], ended + {i}) == HeldBy(sends, ended) - {i}
  {
  }

  /** A task that still holds what it held, or nothing as before, leaves the picture unchanged. */
  lemma HeldSame(sends: seq<SendTask>, ended: set<nat>, i: nat, t: SendTask)
    requires i < |sends| && SendShape(t) && forall k :: 0 <= k < |sends| ==> SendShape(sends[k])
    requires t.state.Idle? == sends[i].state.Idle? && (!t.state.Idle? ==> t.session == sends[i].session)
    ensures HeldBy(sends[i := t], ended) == HeldBy(sends, ended)
    ensures t.state.Idle? ==> HeldBy(sends[i := t], ended + {i}) == HeldBy(sends, ended)
  {
  }

  lemma SendShaped(c: Codec, x: System, i: nat, now: nat, locked: bool)
    requires Shaped(x) && i < |x.sends|
    ensures Shaped(AfterSend(c, x, i, now, locked))
  {
  }

  function Allocation(x: System, i: nat, now: nat): Step
    requires i < |x.sends| && x.sends[i].rx != []
  { Allocate(i, Query(x.sends[i].rx[0].0, x.sends[i].rx[0].1.id), now) }

  lemma DequeueRefines(c: Codec, x: System, i: nat, now: nat, locked: bool)
    requires Shaped(x) && Counted(x) && Possible(c, x, SendRound(i, now, locked))
    requires x.sends[i].state.Idle? && x.sends[i].rx != []
    requires !SendStep(c, x.sends[i], x.sh, now, locked).t.state.Idle?
    ensures var x' := AfterSend(c, x, i, now, locked);
      Shaped(x') && Leads(Abs(x), [Allocation(x, i, now)], Abs(x'))
  {
    SendShaped(c, x, i, now, locked);
    HeldUpdate(x.sends, x.endedSends, i, SendStep(c, x.sends[i], x.sh, now, locked).t);
    assert Next(Abs(x), Allocation(x, i, now)) == Abs(AfterSend(c, x, i, now, locked));
  }

  lemma LeadsTwo(s: Proxy, a: Step, b: Step)
    requires Enabled(s, a) && Enabled(Next(s, a), b)
    ensures Leads(s, [a, b], Next(Next(s, a), b))
  {
    assert Leads(Next(s, a), [b], Next(Next(s, a), b));
    assert [a, b][1..] == [b];
  }

  lemma AbandonedAllocation(s: Proxy, i: nat, q: Query, now: nat)
    ensures Next(Next(s, Allocate(i, q, now)), Abandon(i))
         == s.(counter := (s.counter + 1) % WRAP, held := s.held - {i}, queries := s.queries + [q])
  {
    assert Next(s, Allocate(i, q, now)).held - {i} == s.held - {i};
  }

  /** A query that is skipped has used up an id. */
  lemma SkipRefines(c: Codec, x: System, i: nat, now: nat, locked: bool)
    requires Shaped(x) && Counted(x) && Possible(c, x, SendRound(i, now, locked))
    requires x.sends[i].state.Idle? && x.sends[i].rx != []
    requires SendStep(c, x.sends[i], x.sh, now, locked).t.state.Idle?
    ensures var x' := AfterSend(c, x, i, now, locked);
      Shaped(x') && Leads(Abs(x), [Allocation(x, i, now), Abandon(i)], Abs(x'))
  {
    SendShaped(c, x, i, now, locked);
    HeldUpdate(x.sends, x.endedSends, i, SendStep(c, x.sends[i], x.sh, now, locked).t);
    AbandonedAllocation(Abs(x), i, Allocation(x, i, now).query, now);
    LeadsTwo(Abs(x), Allocation(x, i, now), Abandon(i));
    assert Abs(AfterSend(c, x, i, now, locked)) == Next(Next(Abs(x), Allocation(x, i, now)), Abandon(i));
  }

  lemma InsertRefines(c: Codec, x: System, i: nat, now: nat)
    requires Shaped(x) && Possible(c, x, SendRound(i, now, true)) && x.sends[i].state.Inserting?
    ensures var x' := AfterSend(c, x, i, now, true); Shaped(x') && Leads(Abs(x), [Insert(i)], Abs(x'))
  {
    SendShaped(c, x, i, now, true);
    HeldUpdate(x.sends, x.endedSends, i, SendStep(c, x.sends[i], x.sh, now, true).t);
    assert Next(Abs(x), Insert(i)) == Abs(AfterSend(c, x, i, now, true));
  }

  /** A task that fails while sending is dropped with its session. */
  lemma FailRefines(c: Codec, x: System, i: nat, now: nat, locked: bool)
    requires Shaped(x) && Possible(c, x, SendRound(i, now, locked))
    requires SendStep(c, x.sends[i], x.sh, now, locked).end.SendFailed?
    ensures var x' := AfterSend(c, x, i, now, locked); Shaped(x') && Leads(Abs(x), [Abandon(i)], Abs(x'))
  {
    var x' := AfterSend(c, x, i, now, locked);
    SendShaped(c, x, i, now, locked);
    HeldEnd(x.sends, x.endedSends, i, x'.sends[i]);
    assert Next(Abs(x), Abandon(i)) == Abs(x');
  }

  lemma SendQuietRefines(c: Codec, x: System, i: nat, now: nat, locked: bool)
    requires Shaped(x) && Possible(c, x, SendRound(i, now, locked))
    requires var t := x.sends[i]; !(t.state.Idle? && t.rx != []) && !(t.state.Inserting? && locked)
    requires !SendStep(c, x.sends[i], x.sh, now, locked).end.SendFailed?
    ensures var x' := AfterSend(c, x, i, now, locked); Shaped(x') && Abs(x') == Abs(x)
  {
    var x' := AfterSend(c, x, i, now, locked);
    SendShaped(c, x, i, now, locked);
    HeldSame(x.sends, x.endedSends, i, x'.sends[i]);
  }

  lemma SendCounts(c: Codec, x: System, i: nat, now: nat, locked: bool)
    requires Shaped(x) && Counted(x) && i < |x.sends|
    ensures Counted(AfterSend(c, x, i, now, locked))
  {
  }

  lemma SendRefines(c: Codec, x: System, i: nat, now: nat, locked: bool) returns (steps: seq<Step>)
    requires Shaped(x) && Counted(x) && Possible(c, x, SendRound(i, now, locked))
    ensures var x' := AfterSend(c, x, i, now, locked);
      Shaped(x') && Counted(x') && Leads(Abs(x), steps, Abs(x'))
  {
    var t := x.sends[i];
    SendCounts(c, x, i, now, locked);
    if t.state.Idle? && t.rx != [] {
      if SendStep(c, t, x.sh, now, locked).t.state.Idle? {
        steps := [Allocation(x, i, now), Abandon(i)];
        SkipRefines(c, x, i, now, locked);
      } else {
        steps := [Allocation(x, i, now)];
        DequeueRefines(c, x, i, now, locked);
      }
    } else if t.state.Inserting? && locked {
      steps := [Insert(i)];
      InsertRefines(c, x, i, now);
    } else if SendStep(c, t, x.sh, now, locked).end.SendFailed? {
      steps := [Abandon(i)];
      FailRefines(c, x, i, now, locked);
    } else {
      steps := [];
      SendQuietRefines(c, x, i, now, locked);
    }
  }

  // ---------------------------------------------------------------------------------------------
  // Receive rounds

  lemma RepliesUpdate(recvs: seq<RecvTask>, tags: seq<seq<nat>>, ended: set<nat>, j: nat, t: RecvTask, ts: seq<nat>)
    requires j < |recvs| == |tags| && j !in ended && RecvShape(t) && Tagged(t, ts)
    requires forall k :: 0 <= k < |recvs| ==> RecvShape(recvs[k]) && Tagged(recvs[k], tags[k])
    ensures RepliesOf(recvs[j := t], tags[j := ts], ended)
         == if t.state.Locked? then RepliesOf(recvs, tags, ended)[j := Reply(t.msg.value.id, ts[|ts| - 1])]
            else RepliesOf(recvs, tags, ended) - {j}
  {
  }

  lemma RepliesEnd(recvs: seq<RecvTask>, tags: seq<seq<nat>>, ended: set<nat>, j: nat)
    requires |tags| == |recvs| && forall k :: 0 <= k < |recvs| ==> RecvShape(recvs[k]) && Tagged(recvs[k], tags[k])
    ensures RepliesOf(recvs, tags, ended + {j}) == RepliesOf(recvs, tags, ended) - {j}
  {
  }

  lemma RepliesSame(recvs: seq<RecvTask>, tags: seq<seq<nat>>, ended: set<nat>, j: nat, t: RecvTask, ts: seq<nat>)
    requires j < |recvs| == |tags| && RecvShape(t) && Tagged(t, ts)
    requires forall k :: 0 <= k < |recvs| ==> RecvShape(recvs[k]) && Tagged(recvs[k], tags[k])
    requires t.state.Locked? == recvs[j].state.Locked? && (t.state.Locked? ==> t.msg == recvs[j].msg && ts == tags[j])
    ensures RepliesOf(recvs[j := t], tags[j := ts], ended) == RepliesOf(recvs, tags, ended)
    ensures !t.state.Locked? ==> RepliesOf(recvs[j := t], tags[j := ts], ended + {j}) == RepliesOf(recvs, tags, ended)
  {
  }

  lemma RecvShaped(c: Codec, x: System, j: nat, running: bool, locked: bool, tag: nat)
    requires Shaped(x) && j < |x.recvs|
    ensures var x' := AfterRecv(c, x, j, running, locked, tag);
      && Shaped(x') && x'.recvs == x.recvs[j := x'.recvs[j]] && x'.tags == x.tags[j := x'.tags[j]]
  {
    RecvStepHandsOver(c, x.recvs[j], x.sh.sessions, running, locked);
  }

  lemma DeliverRefines(c: Codec, x: System, j: nat, tag: nat) returns (steps: seq<Step>)
    requires Shaped(x) && Possible(c, x, RecvRound(j, true, true, tag)) && x.recvs[j].state.Locked?
    ensures var x' := AfterRecv(c, x, j, true, true, tag); Shaped(x') && Leads(Abs(x), steps, Abs(x'))
  {
    RecvShaped(c, x, j, true, true, tag);
    var m, x' := x.recvs[j].msg.value, AfterRecv(c, x, j, true, true, tag);
    RepliesUpdate(x.recvs, x.tags, x.endedRecvs, j, x'.recvs[j], x'.tags[j]);
    var encodes := m.id in x.sh.sessions && c.encode(m.(id := x.sh.sessions[m.id].oldId)).Some?;
    steps := [Deliver(j, encodes)];
    assert Next(Abs(x), Deliver(j, encodes)) == Abs(x');
  }

  lemma CancelRefines(c: Codec, x: System, j: nat, locked: bool, tag: nat)
    requires Shaped(x) && Possible(c, x, RecvRound(j, false, locked, tag))
    ensures var x' := AfterRecv(c, x, j, false, locked, tag); Shaped(x') && Leads(Abs(x), [Drop(j)], Abs(x'))
  {
    RecvShaped(c, x, j, false, locked, tag);
    RepliesEnd(x.recvs, x.tags, x.endedRecvs, j);
    var x' := AfterRecv(c, x, j, false, locked, tag);
    assert x'.recvs == x.recvs && x'.tags == x.tags;
    assert Next(Abs(x), Drop(j)) == Abs(x');
  }

  lemma ArriveRefines(c: Codec, x: System, j: nat, locked: bool, tag: nat)
    requires Shaped(x) && Possible(c, x, RecvRound(j, true, locked, tag)) && !x.recvs[j].state.Locked?
    requires RecvStep(c, x.recvs[j], x.sh.sessions, true, locked).t.state.Locked?
    ensures var x' := AfterRecv(c, x, j, true, locked, tag);
      Shaped(x') && Leads(Abs(x), [Arrive(j, Reply(x'.recvs[j].msg.value.id, tag))], Abs(x'))
  {
    RecvShaped(c, x, j, true, locked, tag);
    RecvStepHandsOver(c, x.recvs[j], x.sh.sessions, true, locked);
    var x' := AfterRecv(c, x, j, true, locked, tag);
    RepliesUpdate(x.recvs, x.tags, x.endedRecvs, j, x'.recvs[j], x'.tags[j]);
    assert x'.endedRecvs == x.endedRecvs;
    assert Next(Abs(x), Arrive(j, Reply(x'.recvs[j].msg.value.id, tag))) == Abs(x');
  }

  lemma RecvQuietRefines(c: Codec, x: System, j: nat, locked: bool, tag: nat)
    requires Shaped(x) && Possible(c, x, RecvRound(j, true, locked, tag))
    requires x.recvs[j].state.Locked? ==> !locked
    requires RecvStep(c, x.recvs[j], x.sh.sessions, true, locked).t.state.Locked? ==> x.recvs[j].state.Locked?
    ensures var x' := AfterRecv(c, x, j, true, locked, tag); Shaped(x') && Abs(x') == Abs(x)
  {
    RecvShaped(c, x, j, true, locked, tag);
    var x' := AfterRecv(c, x, j, true, locked, tag);
    RepliesSame(x.recvs, x.tags, x.endedRecvs, j, x'.recvs[j], x'.tags[j]);
  }

  lemma RecvRefines(c: Codec, x: System, j: nat, running: bool, locked: bool, tag: nat) returns (steps: seq<Step>)
    requires Shaped(x) && Counted(x) && Possible(c, x, RecvRound(j, running, locked, tag))
    ensures var x' := AfterRecv(c, x, j, running, locked, tag);
      Shaped(x') && Counted(x') && Leads(Abs(x), steps, Abs(x'))
  {
    var t := x.recvs[j];
    var t' := RecvStep(c, t, x.sh.sessions, running, locked).t;
    if !running {
      steps := [Drop(j)];
      CancelRefines(c, x, j, locked, tag);
    } else if t.state.Locked? && locked {
      steps := DeliverRefines(c, x, j, tag);
    } else if !t.state.Locked? && t'.state.Locked? {
      steps := [Arrive(j, Reply(t'.msg.value.id, tag))];
      ArriveRefines(c, x, j, locked, tag);
    } else {
      steps := [];
      RecvQuietRefines(c, x, j, locked, tag);
    }
  }

  // ---------------------------------------------------------------------------------------------
  // Runs

  lemma OpenRefines(c: Codec, x: System, ev: Event)
    requires Shaped(x) && Possible(c, x, ev) && ev.OpenUpstream?
    ensures var x' := After(c, x, ev); Shaped(x') && Abs(x) == Abs(x')
  {
    var x' := After(c, x, ev);
    assert Shaped(x');
    assert HeldBy(x'.sends, x'.endedSends) == HeldBy(x.sends, x.endedSends);
    assert RepliesOf(x'.recvs, x'.tags, x'.endedRecvs) == RepliesOf(x.recvs, x.tags, x.endedRecvs);
  }

  lemma ChannelRefines(c: Codec, x: System, ev: Event)
    requires Shaped(x) && Possible(c, x, ev) && (ev.Enqueue? || ev.DropSender?)
    ensures var x' := After(c, x, ev); Shaped(x') && Abs(x) == Abs(x')
  {
    HeldSame(x.sends, x.endedSends, ev.i, After(c, x, ev).sends[ev.i]);
  }

  /** Every event of the system is a sequence of protocol steps. */
  lemma EventRefines(c: Codec, x: System, ev: Event) returns (steps: seq<Step>)
    requires Shaped(x) && Counted(x) && Possible(c, x, ev)
    ensures var x' := After(c, x, ev); Shaped(x') && Counted(x') && Leads(Abs(x), steps, Abs(x'))
  {
    match ev {
      case SendRound(i, now, locked) => steps := SendRefines(c, x, i, now, locked);
      case RecvRound(j, running, locked, tag) => steps := RecvRefines(c, x, j, running, locked, tag);
      case SweepNow(now, timeout) => steps := [Sweep(now, timeout)];
      case OpenUpstream(_, _) =>
        steps := [];
        OpenRefines(c, x, ev);
      case _ =>
        steps := [];
        ChannelRefines(c, x, ev);
    }
  }

  /** A run of the system; `xs[k]` is the state before event `k`. */
  ghost predicate SystemRun(c: Codec, xs: seq<System>, evs: seq<Event>) {
    && |xs| == |evs| + 1 && xs[0] == Boot()
    && (forall k :: 0 <= k < |xs| ==> Shaped(xs[k]))
    && (forall k :: 0 <= k < |evs| ==> Possible(c, xs[k], evs[k]) && xs[k + 1] == After(c, xs[k], evs[k]))
  }

  lemma {:induction false} RunAppends(trace: seq<Proxy>, steps: seq<Step>, more: seq<Step>, s: Proxy)
    returns (trace': seq<Proxy>, steps': seq<Step>)
    requires Run(trace, steps) && Leads(trace[|steps|], more, s)
    ensures Run(trace', steps') && trace'[|steps'|] == s && trace <= trace'
    decreases |more|
  {
    if more == [] {
      trace', steps' := trace, steps;
    } else {
      RunExtends(trace, steps, more[0]);
      trace', steps' := RunAppends(trace + [Next(trace[|steps|], more[0])], steps + [more[0]], more[1..], s);
    }
  }

  /** The trace passes through the protocol states of `xs`, in order, at the positions `at`, and ends at
      the last of them. */
  ghost predicate PassesThrough(trace: seq<Proxy>, at: seq<nat>, xs: seq<System>)
    requires forall k :: 0 <= k < |xs| ==> Shaped(xs[k])
  {
    && |at| == |xs| > 0 && at[0] == 0 && at[|at| - 1] == |trace| - 1
    && (forall i, k :: 0 <= i < k < |at| ==> at[i] <= at[k])
    && (forall k :: 0 <= k < |at| ==> at[k] < |trace| && trace[at[k]] == Abs(xs[k]))
  }

  lemma PassesFurther(trace: seq<Proxy>, at: seq<nat>, xs: seq<System>, trace': seq<Proxy>, x: System)
    requires (forall k :: 0 <= k < |xs| ==> Shaped(xs[k])) && PassesThrough(trace, at, xs)
    requires trace <= trace' && Shaped(x) && trace'[|trace'| - 1] == Abs(x)
    ensures PassesThrough(trace', at + [|trace'| - 1], xs + [x])
  {
  }

  /** Every run of the byte-level system is a run of the session protocol, state by state: one protocol
      trace passes through what every state of the run stands for. */
  lemma {:induction false} SystemRefinesProtocol(c: Codec, xs: seq<System>, evs: seq<Event>, k: nat)
    returns (trace: seq<Proxy>, steps: seq<Step>, at: seq<nat>)
    requires SystemRun(c, xs, evs) && k < |xs|
    ensures Counted(xs[k]) && Run(trace, steps) && PassesThrough(trace, at, xs[..k + 1])
  {
    if k == 0 {
      trace, steps, at := [Start()], [], [0];
      assert Abs(Boot()) == Start();
    } else {
      var trace0, steps0, at0 := SystemRefinesProtocol(c, xs, evs, k - 1);
      var more := EventRefines(c, xs[k - 1], evs[k - 1]);
      assert xs[k] == After(c, xs[k - 1], evs[k - 1]);
      trace, steps := RunAppends(trace0, steps0, more, Abs(xs[k]));
      at := at0 + [|steps|];
      PassesFurther(trace0, at0, xs[..k], trace, xs[k]);
      assert xs[..k] + [xs[k]] == xs[..k + 1];
    }
  }
}
