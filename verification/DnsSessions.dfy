/** `dns_proxy.rs`: the session protocol.  Send tasks, receive tasks and the expiry sweep interleave
    over one wrapping 16-bit counter and one session map.

    `serial` numbers the id allocations from 0 and never wraps; the program does not store it. */
module DnsSessions {
  const WRAP: nat := 0x1_0000

  type Wire = n: nat | n < WRAP

  datatype Peer = Peer(src: nat, dest: nat)

  datatype Session = Session(peer: Peer, oldId: Wire, id: Wire, time: nat, serial: nat)

  datatype Query = Query(peer: Peer, id: Wire)

  /** A reply held by a receive task; `answers` is the serial of the query that it answers. */
  datatype Reply = Reply(id: Wire, answers: nat)

  /** A reply handed to the tunnel: to `to` from `from`, with message id `id`.  `session` is the
      serial of the session that was used. */
  datatype Delivery = Delivery(to: nat, from: nat, id: Wire, session: nat, answers: nat)

  datatype Proxy = Proxy(counter: Wire, sessions: map<Wire, Session>, held: map<nat, Session>,
                         replies: map<nat, Reply>, queries: seq<Query>, delivered: seq<Delivery>)

  /** The counter starts at 1. */
  function WireId(serial: nat): Wire { (1 + serial) % WRAP }

  function Start(): Proxy { Proxy(1, map[], map[], map[], [], []) }

  datatype Step =
    | Allocate(task: nat, query: Query, now: nat)      // dequeue, fetch_add, set_id
    | Insert(task: nat)                                // SessionsLock of a send task
    | Abandon(task: nat)                               // a send task fails while sending
    | Arrive(recv: nat, reply: Reply)                  // a receive task decodes a message
    | Deliver(recv: nat, encodes: bool)                // SessionsLock of a receive task
    | Drop(recv: nat)                                  // a receive task is cancelled
    | Sweep(now: nat, timeout: nat)                    // the expiry loop

  /** Upstream echoes ids: a message answers some query that was allocated, and carries its wire id. */
  predicate Enabled(s: Proxy, step: Step) {
    match step
    case Insert(task) => task in s.held
    case Arrive(recv, reply) => recv !in s.replies && reply.answers < |s.queries| && reply.id == WireId(reply.answers)
    case Deliver(recv, _) => recv in s.replies
    case _ => true
  }

  /** Clock readings are in milliseconds; the age is compared in whole seconds. */
  predicate Expired(x: Session, now: nat, timeout: nat) { now >= x.time && (now - x.time) / 1000 > timeout }

  function Unexpired(sessions: map<Wire, Session>, now: nat, timeout: nat): map<Wire, Session> {
    map id | id in sessions && !Expired(sessions[id], now, timeout) :: sessions[id]
  }

  /** A sweep keeps exactly the sessions younger than one second more than the timeout. */
  lemma UnexpiredExactly(sessions: map<Wire, Session>, now: nat, timeout: nat, id: Wire)
    ensures id in Unexpired(sessions, now, timeout) <==>
      id in sessions && now - sessions[id].time < 1000 * (timeout + 1)
    ensures id in Unexpired(sessions, now, timeout) ==> Unexpired(sessions, now, timeout)[id] == sessions[id]
  {
  }

  function Next(s: Proxy, step: Step): Proxy
    requires Enabled(s, step)
  {
    match step
    case Allocate(task, q, now) =>
      var x := Session(q.peer, q.id, s.counter, now, |s.queries|);
      s.(counter := (s.counter + 1) % WRAP, held := s.held[task := x], queries := s.queries + [q])
    case Insert(task) =>
      var x := s.held[task];
      s.(sessions := s.sessions[x.id := x], held := s.held - {task})
    case Abandon(task) => s.(held := s.held - {task})
    case Arrive(recv, reply) => s.(replies := s.replies[recv := reply])
    case Deliver(recv, encodes) =>
      var r := s.replies[recv];
      var s' := s.(replies := s.replies - {recv});
      if r.id !in s.sessions then s'
      else
        var x := s.sessions[r.id];
        var s'' := s'.(sessions := s.sessions - {r.id});
        if !encodes then s''
        else s''.(delivered := s.delivered + [Delivery(x.peer.src, x.peer.dest, x.oldId, x.serial, r.answers)])
    case Drop(recv) => s.(replies := s.replies - {recv})
    case Sweep(now, timeout) =>
      s.(sessions := Unexpired(s.sessions, now, timeout))
  }

  /** A run of the protocol under any schedule. */
  ghost predicate Run(trace: seq<Proxy>, steps: seq<Step>) {
    && |trace| == |steps| + 1 && trace[0] == Start()
    && forall i :: 0 <= i < |steps| ==> Enabled(trace[i], steps[i]) && trace[i + 1] == Next(trace[i], steps[i])
  }

  // ---------------------------------------------------------------------------------------------
  // What every step keeps

  /** A session record is that of its query. */
  ghost predicate Faithful(s: Proxy, x: Session) {
    && x.serial < |s.queries| && x.id == WireId(x.serial)
    && x.peer == s.queries[x.serial].peer && x.oldId == s.queries[x.serial].id
  }

  /** A delivery went out with the addresses and the id of the query whose session was used. */
  ghost predicate Sound(s: Proxy, d: Delivery) {
    && d.session < |s.queries| && d.answers < |s.queries| && WireId(d.session) == WireId(d.answers)
    && Query(Peer(d.to, d.from), d.id) == s.queries[d.session]
  }

  ghost predicate Records(s: Proxy) {
    && s.counter == WireId(|s.queries|)
    && (forall id :: id in s.sessions ==> Faithful(s, s.sessions[id]) && s.sessions[id].id == id)
    && (forall t :: t in s.held ==> Faithful(s, s.held[t]))
    && (forall r :: r in s.replies ==> s.replies[r].answers < |s.queries| && s.replies[r].id == WireId(s.replies[r].answers))
    && (forall i :: 0 <= i < |s.delivered| ==> Sound(s, s.delivered[i]))
  }

  /** Each allocation has at most one life: held, then in the map, then used for a delivery. */
  ghost predicate OneLife(s: Proxy) {
    && (forall t, u :: t in s.held && u in s.held && t != u ==> s.held[t].serial != s.held[u].serial)
    && (forall t, id :: t in s.held && id in s.sessions ==> s.held[t].serial != s.sessions[id].serial)
    && (forall t, i :: t in s.held && 0 <= i < |s.delivered| ==> s.held[t].serial != s.delivered[i].session)
    && (forall id, i :: id in s.sessions && 0 <= i < |s.delivered| ==> s.sessions[id].serial != s.delivered[i].session)
    && (forall i, j :: 0 <= i < j < |s.delivered| ==> s.delivered[i].session != s.delivered[j].session)
  }

  lemma CounterFollows(n: nat)
    ensures (WireId(n) + 1) % WRAP == WireId(n + 1)
  {
    var q, r := (1 + n) / WRAP, (1 + n) % WRAP;
    assert 1 + n == WRAP * q + r;
    if r + 1 == WRAP { assert 2 + n == WRAP * (q + 1); }
  }

  lemma StepKeepsRecords(s: Proxy, step: Step)
    requires Records(s) && Enabled(s, step)
    ensures Records(Next(s, step))
  {
    CounterFollows(|s.queries|);
  }

  lemma AllocateKeepsOneLife(s: Proxy, step: Step)
    requires Records(s) && OneLife(s) && step.Allocate?
    ensures OneLife(Next(s, step))
  {
    forall i | 0 <= i < |s.delivered| ensures s.delivered[i].session < |s.queries| {
      assert Sound(s, s.delivered[i]);
    }
  }

  lemma InsertKeepsOneLife(s: Proxy, step: Step)
    requires OneLife(s) && step.Insert? && Enabled(s, step)
    ensures OneLife(Next(s, step))
  {
  }

  lemma SessionsDiffer(s: Proxy, k: Wire, id: Wire)
    requires Records(s) && k in s.sessions && id in s.sessions && k != id
    ensures s.sessions[k].serial != s.sessions[id].serial
  {
    assert Faithful(s, s.sessions[k]) && Faithful(s, s.sessions[id]);
  }

  /** Taking a session out of the map and using it once keeps every allocation's one life. */
  lemma UseKeepsOneLife(s: Proxy, s': Proxy, id: Wire, d: Delivery)
    requires OneLife(s) && id in s.sessions && d.session == s.sessions[id].serial
    requires forall k :: k in s.sessions && k != id ==> s.sessions[k].serial != s.sessions[id].serial
    requires s'.held == s.held && s'.sessions == s.sessions - {id}
    requires s'.delivered == s.delivered || s'.delivered == s.delivered + [d]
    ensures OneLife(s')
  {
  }

  lemma DeliverKeepsOneLife(s: Proxy, step: Step)
    requires Records(s) && OneLife(s) && step.Deliver? && Enabled(s, step)
    ensures OneLife(Next(s, step))
  {
    var r := s.replies[step.recv];
    if r.id in s.sessions {
      forall k | k in s.sessions && k != r.id ensures s.sessions[k].serial != s.sessions[r.id].serial {
        SessionsDiffer(s, k, r.id);
      }
      var x := s.sessions[r.id];
      UseKeepsOneLife(s, Next(s, step), r.id, Delivery(x.peer.src, x.peer.dest, x.oldId, x.serial, r.answers));
    }
  }

  lemma StepKeepsOneLife(s: Proxy, step: Step)
    requires Records(s) && OneLife(s) && Enabled(s, step)
    ensures OneLife(Next(s, step))
  {
    match step {
      case Allocate(_, _, _) => AllocateKeepsOneLife(s, step);
      case Insert(_) => InsertKeepsOneLife(s, step);
      case Deliver(_, _) => DeliverKeepsOneLife(s, step);
      case _ =>
    }
  }

  lemma {:induction false} RunKeeps(trace: seq<Proxy>, steps: seq<Step>, k: nat)
    requires Run(trace, steps) && k < |trace|
    ensures Records(trace[k]) && OneLife(trace[k])
  {
    if k > 0 {
      RunKeeps(trace, steps, k - 1);
      StepKeepsRecords(trace[k - 1], steps[k - 1]);
      StepKeepsOneLife(trace[k - 1], steps[k - 1]);
    }
  }

  /** Whatever the schedule, the ids and the upstream do, every delivery uses the recorded addresses
      and original id of one earlier query, and no query is used for two deliveries. */
  lemma DeliveriesAreOfQueries(trace: seq<Proxy>, steps: seq<Step>)
    requires Run(trace, steps)
    ensures var s := trace[|steps|];
      && (forall i :: 0 <= i < |s.delivered| ==> Sound(s, s.delivered[i]))
      && (forall i, j :: 0 <= i < j < |s.delivered| ==> s.delivered[i].session != s.delivered[j].session)
  {
    RunKeeps(trace, steps, |steps|);
  }

  /** How a recorded session can go: exactly by a reply with its id, a new session under its id, or
      its expiry. */
  lemma SessionStaysExactly(s: Proxy, step: Step, id: Wire)
    requires Enabled(s, step) && OneLife(s) && id in s.sessions
    ensures id in Next(s, step).sessions && Next(s, step).sessions[id] == s.sessions[id] <==>
      match step
      case Deliver(recv, _) => s.replies[recv].id != id
      case Insert(task) => s.held[task].id != id
      case Sweep(now, timeout) => !Expired(s.sessions[id], now, timeout)
      case _ => true
  {
    if step.Insert? {
      assert s.held[step.task].serial != s.sessions[id].serial;
    }
  }

  // ---------------------------------------------------------------------------------------------
  // When the right client gets the reply

  ghost predicate Near(a: nat, b: nat) { -65536 < a - b < 65536 }

  lemma SameWireIdExactly(a: nat, b: nat)
    requires WireId(a) == WireId(b)
    ensures a == b <==> Near(a, b)
  {
    assert 1 + a == WRAP * ((1 + a) / WRAP) + WireId(a);
    assert 1 + b == WRAP * ((1 + b) / WRAP) + WireId(b);
    assert a - b == WRAP * ((1 + a) / WRAP - (1 + b) / WRAP);
  }

  /** Outstanding sessions and replies span fewer than 65536 allocations. */
  ghost predicate Span(s: Proxy) {
    forall id, r :: id in s.sessions && r in s.replies ==> Near(s.sessions[id].serial, s.replies[r].answers)
  }

  /** One delivery, exactly: the session found is the one of the query answered if and only if the two
      were allocated fewer than 65536 apart. */
  lemma DeliveryRightExactly(s: Proxy, recv: nat)
    requires Records(s) && recv in s.replies && s.replies[recv].id in s.sessions
    ensures var s' := Next(s, Deliver(recv, true));
      && |s'.delivered| == |s.delivered| + 1
      && var d := s'.delivered[|s.delivered|];
         d.answers == s.replies[recv].answers
         && (d.session == d.answers <==> Near(s.sessions[s.replies[recv].id].serial, d.answers))
  {
    SameWireIdExactly(s.sessions[s.replies[recv].id].serial, s.replies[recv].answers);
  }

  ghost predicate AllRight(s: Proxy) {
    forall i :: 0 <= i < |s.delivered| ==> s.delivered[i].session == s.delivered[i].answers
  }

  lemma {:induction false} RunDeliversRight(trace: seq<Proxy>, steps: seq<Step>, k: nat)
    requires Run(trace, steps) && k < |trace|
    requires forall i :: 0 <= i < |steps| ==> Span(trace[i])
    ensures AllRight(trace[k])
  {
    if k > 0 {
      RunDeliversRight(trace, steps, k - 1);
      RunKeeps(trace, steps, k - 1);
      var s, step := trace[k - 1], steps[k - 1];
      assert Span(s) && trace[k] == Next(s, step);
      if step.Deliver? && s.replies[step.recv].id in s.sessions {
        DeliveryRightExactly(s, step.recv);
      }
    }
  }

  /** For any interleaving in which the outstanding queries span fewer than 65536 allocations, every
      delivered reply goes to the client whose query it answers, from the address that client asked,
      with that client's original id, and no query is answered twice. */
  lemma RepliesReachTheirClients(trace: seq<Proxy>, steps: seq<Step>)
    requires Run(trace, steps)
    requires forall i :: 0 <= i < |steps| ==> Span(trace[i])
    ensures var s := trace[|steps|];
      && (forall i :: 0 <= i < |s.delivered| ==> var d := s.delivered[i];
            d.answers < |s.queries| && Query(Peer(d.to, d.from), d.id) == s.queries[d.answers])
      && (forall i, j :: 0 <= i < j < |s.delivered| ==> s.delivered[i].answers != s.delivered[j].answers)
  {
    RunKeeps(trace, steps, |steps|);
    RunDeliversRight(trace, steps, |steps|);
    var s := trace[|steps|];
    forall i | 0 <= i < |s.delivered|
      ensures var d := s.delivered[i];
        d.answers < |s.queries| && Query(Peer(d.to, d.from), d.id) == s.queries[d.answers]
    {
      assert Sound(s, s.delivered[i]);
    }
  }

  lemma RunExtends(trace: seq<Proxy>, steps: seq<Step>, step: Step)
    requires Run(trace, steps) && Enabled(trace[|steps|], step)
    ensures Run(trace + [Next(trace[|steps|], step)], steps + [step])
  {
  }

  /** At a span of exactly 65536 the claim fails: an old session still in the map catches the reply to
      the query that was given the same id one full wrap later, which has been sent and whose session is
      not yet recorded.  The queries in between could not be encoded. */
  lemma WrapMisdelivers() returns (trace: seq<Proxy>, steps: seq<Step>)
    ensures Run(trace, steps)
    ensures var s := trace[|steps|];
      |s.delivered| == 1 && var d := s.delivered[0];
      d.answers == d.session + 65536 && d.answers < |s.queries|
      && (exists task :: task in s.held && s.held[task].serial == d.answers)
      && Query(Peer(d.to, d.from), d.id) != s.queries[d.answers]
  {
    var first, other := Query(Peer(10, 53), 7), Query(Peer(20, 53), 8);
    trace, steps := [Start()], [];
    trace, steps := Extended(trace, steps, Allocate(0, first, 0));
    trace, steps := Extended(trace, steps, Insert(0));
    var x := Session(first.peer, first.id, 1, 0, 0);
    var n := 0;
    while n < WRAP - 1
      invariant n < WRAP && Run(trace, steps)
      invariant var s := trace[|steps|];
        && s.sessions == map[1 := x] && s.replies == map[] && s.delivered == [] && |s.queries| == n + 1
    {
      trace, steps := Extended(trace, steps, Allocate(1, other, 0));
      trace, steps := Extended(trace, steps, Abandon(1));
      n := n + 1;
    }
    trace, steps := Extended(trace, steps, Allocate(1, other, 0));
    trace, steps := Extended(trace, steps, Arrive(0, Reply(1, WRAP)));
    trace, steps := Extended(trace, steps, Deliver(0, true));
    assert trace[|steps|].held[1].serial == WRAP;
  }

  lemma Extended(trace: seq<Proxy>, steps: seq<Step>, step: Step) returns (trace': seq<Proxy>, steps': seq<Step>)
    requires Run(trace, steps) && Enabled(trace[|steps|], step)
    ensures Run(trace', steps') && steps' == steps + [step] && trace' == trace + [Next(trace[|steps|], step)]
  {
    RunExtends(trace, steps, step);
    trace', steps' := trace + [Next(trace[|steps|], step)], steps + [step];
  }
}
