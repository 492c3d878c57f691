/** `tcp.rs`: all connection tasks together.  Each one relays inside a `Cancelable` whose handle is in the
    registry; polls, clear-alls, key reuse and the two halves of each cancel interleave at every atomic
    access. */
module Connections {
  import opened Io
  import Copy
  import Relay
  import Cancel
  import Registry

  type Outcome = Poll<(nat, nat)>

  /** One connection: the steps of its cancel cell so far, and the polls of its relay as a run.  `ended` is
      the time of the relay's last poll once that was not pending. */
  datatype Conn = Conn(steps: seq<Cancel.Step<Outcome>>, cell: Cancel.Cell<Outcome>,
                       st: seq<Relay.RelayState>, now: seq<nat>, ended: Option<nat>)

  datatype World = World(reg: Registry.Registry, conns: seq<Conn>)

  datatype Event =
    | Open(key: Registry.Key, relay: Relay.RelayState)
    | Record(change: Registry.Step)
    | Touch(t: nat, step: Cancel.Step<Outcome>)
    | PollRelay(t: nat, now: nat)

  function Nothing(): World { World(Registry.Empty(), []) }

  /** A new relay with buffers of `size` bytes over untouched streams. */
  ghost predicate FreshFor(size: nat, x: Relay.RelayState) { x.Valid() && Relay.Run(size, [x], []) }

  function NewConn(relay: Relay.RelayState): Conn { Conn([], Cancel.NewCell(), [relay], [], None) }

  ghost predicate ConnOk(size: nat, c: Conn) {
    && Cancel.After(c.steps) == Some(c.cell) && Relay.Run(size, c.st, c.now)
    && (c.ended.Some? ==>
          var (y, p) := Relay.RelayPoll(c.st[|c.now|], c.ended.value);
          !p.Pending? && c.cell.pc == Cancel.Finished(Cancel.Yielded(p)))
    && (c.cell.pc.Finished? ==> c.ended.Some? || (c.cell.flag && c.cell.pc.result.Cancelled?))
    && c.cell.innerPolls == |c.now| + (if c.ended.Some? then 1 else 0)
  }

  ghost predicate WorldOk(size: nat, w: World) {
    && Registry.Consistent(w.reg) && |w.conns| == |w.reg.tasks|
    && (forall t :: 0 <= t < |w.conns| ==> ConnOk(size, w.conns[t]))
    && (forall t :: 0 <= t < |w.conns| && w.conns[t].cell.flag ==> t in w.reg.cancelled)
  }

  /** A flag is stored only by dropping a handle that was taken out of the map; a task polls only while it
      is registered and unfinished, and removes its key once it is finished. */
  predicate Possible(w: World, ev: Event) {
    match ev
    case Open(_, _) => true
    case Record(change) =>
      !change.Spawn? && Registry.Enabled(w.reg, change)
      && (change.Finish? ==> change.task < |w.conns| && w.conns[change.task].cell.pc.Finished?)
    case Touch(t, step) =>
      && t < |w.conns| && Cancel.Enabled(w.conns[t].cell, step) && !step.PollInner?
      && (step.Load? ==> Registry.Up(w.reg, t) && !w.conns[t].cell.pc.Finished?)
      && (step.Store? ==> t in w.reg.cancelled)
    case PollRelay(t, _) => t < |w.conns| && w.conns[t].cell.pc.Loaded?
  }

  function Touched(c: Conn, step: Cancel.Step<Outcome>): Conn
    requires Cancel.Enabled(c.cell, step)
  { c.(steps := c.steps + [step], cell := Cancel.Next(c.cell, step)) }

  /** The inner poll of a `Cancelable`: one poll of the relay. */
  function Polled(c: Conn, now: nat): Conn
    requires c.cell.pc.Loaded? && |c.st| == |c.now| + 1 && c.st[|c.now|].Valid()
  {
    var (y, p) := Relay.RelayPoll(c.st[|c.now|], now);
    if p.Pending? then Touched(c.(st := c.st + [y], now := c.now + [now]), Cancel.PollInner(None))
    else Touched(c.(ended := Some(now)), Cancel.PollInner(Some(p)))
  }

  ghost function After(size: nat, w: World, ev: Event): World
    requires WorldOk(size, w) && Possible(w, ev)
  {
    match ev
    case Open(key, relay) =>
      World(Registry.Next(w.reg, Registry.Spawn(key)), w.conns + [NewConn(relay)])
    case Record(change) => w.(reg := Registry.Next(w.reg, change))
    case Touch(t, step) => w.(conns := w.conns[t := Touched(w.conns[t], step)])
    case PollRelay(t, now) =>
      assert ConnOk(size, w.conns[t]);
      w.(conns := w.conns[t := Polled(w.conns[t], now)])
  }

  /** One event takes `w` to `w'`. */
  ghost predicate Happens(size: nat, w: World, ev: Event, w': World) {
    && WorldOk(size, w) && Possible(w, ev) && (ev.Open? ==> FreshFor(size, ev.relay))
    && w' == After(size, w, ev)
  }

  ghost predicate WorldRun(size: nat, ws: seq<World>, evs: seq<Event>) {
    && |ws| == |evs| + 1 && ws[0] == Nothing()
    && forall k :: 0 <= k < |evs| ==> Happens(size, ws[k], evs[k], ws[k + 1])
  }

  // ---------------------------------------------------------------------------------------------
  // What every event keeps

  lemma TouchedOk(size: nat, c: Conn, step: Cancel.Step<Outcome>)
    requires ConnOk(size, c) && Cancel.Enabled(c.cell, step) && !step.PollInner?
    requires step.Load? ==> !c.cell.pc.Finished?
    ensures ConnOk(size, Touched(c, step))
  {
    var c' := Touched(c, step);
    assert c'.steps[..|c'.steps| - 1] == c.steps;
  }

  lemma PolledOk(size: nat, c: Conn, now: nat)
    requires ConnOk(size, c) && c.cell.pc.Loaded?
    ensures ConnOk(size, Polled(c, now))
  {
    var c' := Polled(c, now);
    assert c'.steps[..|c'.steps| - 1] == c.steps;
    var x := c.st[|c.now|];
    Relay.RunOk(size, c.st, c.now, |c.now|);
    Relay.PollKeeps(x, now, size);
    var (y, p) := Relay.RelayPoll(x, now);
    if p.Pending? { Relay.RunExtends(size, c.st, c.now, y, now); }
  }

  lemma ConnChanges(size: nat, w: World, t: nat, c: Conn)
    requires WorldOk(size, w) && t < |w.conns| && ConnOk(size, c) && (c.cell.flag ==> t in w.reg.cancelled)
    ensures WorldOk(size, w.(conns := w.conns[t := c]))
  {
  }

  lemma EventKeeps(size: nat, w: World, ev: Event, w': World)
    requires Happens(size, w, ev, w')
    ensures WorldOk(size, w')
  {
    match ev {
      case Open(key, _) => Registry.StepKeeps(w.reg, Registry.Spawn(key));
      case Record(change) => Registry.StepKeeps(w.reg, change);
      case Touch(t, step) =>
        TouchedOk(size, w.conns[t], step);
        ConnChanges(size, w, t, Touched(w.conns[t], step));
      case PollRelay(t, now) =>
        PolledOk(size, w.conns[t], now);
        ConnChanges(size, w, t, Polled(w.conns[t], now));
    }
  }

  lemma WorldKeeps(size: nat, ws: seq<World>, evs: seq<Event>, k: nat)
    requires WorldRun(size, ws, evs) && k < |ws|
    ensures WorldOk(size, ws[k])
  {
    if k > 0 { EventKeeps(size, ws[k - 1], evs[k - 1], ws[k]); }
  }

  // ---------------------------------------------------------------------------------------------
  // Bytes

  /** The relay of a connection as its last poll left it. */
  function Current(c: Conn): Relay.RelayState
    requires |c.st| == |c.now| + 1 && c.st[|c.now|].Valid()
  { if c.ended.Some? then Relay.RelayPoll(c.st[|c.now|], c.ended.value).0 else c.st[|c.now|] }

  /** What each side received is the beginning of what the other side sends. */
  ghost predicate InStep(c: Conn)
    requires |c.st| == |c.now| + 1 && c.st[|c.now|].Valid()
  {
    Current(c).ab.w.accepted <= c.st[0].ab.r.source && Current(c).ba.w.accepted <= c.st[0].ba.r.source
  }

  lemma PrefixOfSource(d: Copy.Direction, size: nat)
    requires Copy.DirectionOk(d, size)
    ensures d.w.accepted <= d.r.source
  {
    if d.state.Running? { assert d.r.source[..d.r.taken] == d.w.accepted + d.state.copy.Held(); }
  }

  lemma ConnInStep(size: nat, c: Conn)
    requires ConnOk(size, c)
    ensures InStep(c)
  {
    Relay.RunOk(size, c.st, c.now, |c.now|);
    if c.ended.Some? { Relay.PollKeeps(c.st[|c.now|], c.ended.value, size); }
    PrefixOfSource(Current(c).ab, size);
    PrefixOfSource(Current(c).ba, size);
  }

  /** At every moment of every run of all connections, cancelled or not, no side of any of them has
      received anything but the beginning of the other side's stream; a task that yields `Ok` has
      relayed both streams whole. */
  lemma EveryRelayInStep(size: nat, ws: seq<World>, evs: seq<Event>, k: nat, t: nat)
    requires WorldRun(size, ws, evs) && k < |ws| && t < |ws[k].conns| && size > 0
    ensures var c := ws[k].conns[t];
      && |c.st| == |c.now| + 1 && c.st[|c.now|].Valid() && InStep(c)
      && (c.cell.pc.Finished? && c.cell.pc.result.Yielded? && c.cell.pc.result.value.Ready? ==>
            && Relay.Finished(Current(c).ab, c.st[0].ab.r.source) && Relay.Finished(Current(c).ba, c.st[0].ba.r.source)
            && c.cell.pc.result.value.value == (|c.st[0].ab.r.source|, |c.st[0].ba.r.source|))
  {
    WorldKeeps(size, ws, evs, k);
    var c := ws[k].conns[t];
    ConnInStep(size, c);
    if c.cell.pc.Finished? && c.cell.pc.result.Yielded? && c.cell.pc.result.value.Ready? {
      Relay.RelayComplete(size, c.st, c.now, c.ended.value);
    }
  }

  // ---------------------------------------------------------------------------------------------
  // Clear-all

  /** A later state of a connection: its histories go on. */
  ghost predicate Continues(c: Conn, c': Conn) {
    c.steps <= c'.steps && c.st <= c'.st && c.now <= c'.now
  }

  /** What an event never takes back of connection `t`. */
  ghost predicate Later(w: World, t: nat, w': World) {
    && t < |w.conns| && t < |w'.conns| && Continues(w.conns[t], w'.conns[t])
    && (t in w.reg.cancelled ==> t in w'.reg.cancelled)
  }

  lemma PolledContinues(size: nat, c: Conn, now: nat)
    requires ConnOk(size, c) && c.cell.pc.Loaded?
    ensures Continues(c, Polled(c, now))
  {
  }

  lemma EventContinues(size: nat, w: World, ev: Event, w': World, t: nat)
    requires Happens(size, w, ev, w') && t < |w.conns|
    ensures Later(w, t, w')
  {
    if ev.PollRelay? { PolledContinues(size, w.conns[ev.t], ev.now); }
  }

  lemma LaterTransitive(w: World, t: nat, w': World, w'': World)
    requires Later(w, t, w') && Later(w', t, w'')
    ensures Later(w, t, w'')
  {
  }

  lemma {:induction false} LaterThrough(ws: seq<World>, t: nat, k: nat, n: nat)
    requires k <= n < |ws| && t < |ws[k].conns|
    requires forall i :: k <= i < n && t < |ws[i].conns| ==> Later(ws[i], t, ws[i + 1])
    ensures Later(ws[k], t, ws[n])
  {
    if k < n {
      LaterThrough(ws, t, k, n - 1);
      LaterTransitive(ws[k], t, ws[n - 1], ws[n]);
    }
  }

  lemma RunContinues(size: nat, ws: seq<World>, evs: seq<Event>, t: nat, k: nat, n: nat)
    requires WorldRun(size, ws, evs) && k <= n < |ws| && t < |ws[k].conns|
    ensures Later(ws[k], t, ws[n])
  {
    forall i | k <= i < n && t < |ws[i].conns| ensures Later(ws[i], t, ws[i + 1]) {
      EventContinues(size, ws[i], evs[i], ws[i + 1], t);
    }
    LaterThrough(ws, t, k, n);
  }

  /** From the moment its flag is stored a connection polls its relay at most once more, exactly if a poll
      had loaded the flag before. */
  ghost predicate Stopping(c: Conn, c': Conn) {
    && c'.cell.flag
    && c'.cell.innerPolls == c.cell.innerPolls + (if c.cell.pc.Loaded? && !c'.cell.pc.Loaded? then 1 else 0)
  }

  lemma StoredStops(size: nat, c: Conn, c': Conn)
    requires ConnOk(size, c) && ConnOk(size, c') && Continues(c, c') && c.cell.flag
    ensures Stopping(c, c')
  {
    var later := c'.steps[|c.steps|..];
    assert c.steps + later == c'.steps;
    Cancel.CancelIsFinal(c.steps, later);
  }

  lemma RunStops(size: nat, ws: seq<World>, evs: seq<Event>, t: nat, m: nat, n: nat)
    requires WorldRun(size, ws, evs) && m <= n < |ws| && t < |ws[m].conns| && ws[m].conns[t].cell.flag
    ensures t < |ws[n].conns| && Stopping(ws[m].conns[t], ws[n].conns[t])
  {
    WorldKeeps(size, ws, evs, m);
    WorldKeeps(size, ws, evs, n);
    RunContinues(size, ws, evs, t, m, n);
    StoredStops(size, ws[m].conns[t], ws[n].conns[t]);
  }

  lemma LoadFindsFlag(size: nat, w: World, t: nat, w': World)
    requires Happens(size, w, Touch(t, Cancel.Load), w') && w.conns[t].cell.flag
    ensures t < |w'.conns| && w'.conns[t].cell.pc == Cancel.Finished(Cancel.Cancelled)
  {
  }

  /** A clear-all stops every connection that is registered: its handle is taken out of the map, its flag
      can be stored from then on, and once it is, the relay is polled at most once more, by the poll in
      flight; what each side has received by then is still the beginning of the other side's stream. */
  lemma ClearStopsEveryRelay(size: nat, ws: seq<World>, evs: seq<Event>, t: nat, k: nat, m: nat, n: nat)
    requires WorldRun(size, ws, evs) && k < m <= n < |ws|
    requires evs[k] == Record(Registry.ClearAll) && Registry.Up(ws[k].reg, t)
    ensures ws[k + 1].reg.connects == map[] && t < |ws[m].conns| && t < |ws[n].conns|
    ensures var c := ws[m].conns[t]; !c.cell.flag && c.cell.cancel.Quiet? ==> Possible(ws[m], Touch(t, Cancel.Store))
    ensures var c, c' := ws[m].conns[t], ws[n].conns[t];
      && |c'.st| == |c'.now| + 1 && c'.st[|c'.now|].Valid() && InStep(c')
      && (c.cell.flag ==> Stopping(c, c'))
      && (c.cell.flag && n < |evs| && evs[n] == Touch(t, Cancel.Load) ==>
            t < |ws[n + 1].conns| && ws[n + 1].conns[t].cell.pc == Cancel.Finished(Cancel.Cancelled))
  {
    ClearTakes(size, ws[k], ws[k + 1], t);
    RunContinues(size, ws, evs, t, k + 1, m);
    RunContinues(size, ws, evs, t, m, n);
    WorldKeeps(size, ws, evs, n);
    ConnInStep(size, ws[n].conns[t]);
    if ws[m].conns[t].cell.flag {
      RunStops(size, ws, evs, t, m, n);
      if n < |evs| && evs[n] == Touch(t, Cancel.Load) { LoadFindsFlag(size, ws[n], t, ws[n + 1]); }
    }
  }

  lemma ClearTakes(size: nat, w: World, w': World, t: nat)
    requires Happens(size, w, Record(Registry.ClearAll), w') && Registry.Up(w.reg, t)
    ensures w'.reg.connects == map[] && t < |w'.conns| && t in w'.reg.cancelled
  {
    Registry.ClearTakesAll(w.reg);
  }

  /** No two unfinished tasks share a key, and the event is neither a clear-all nor the removal of `t`. */
  ghost predicate Calm(w: World, ev: Event, t: nat) {
    Registry.DistinctKeys(w.reg) && ev != Record(Registry.ClearAll) && ev != Record(Registry.Finish(t))
  }

  ghost predicate KeepsSafe(w: World, ev: Event, w': World, t: nat) {
    Registry.Safe(w.reg, t) || ev == Record(Registry.Enlist(t)) ==> Registry.Safe(w'.reg, t)
  }

  lemma CalmKeepsSafe(size: nat, w: World, ev: Event, w': World, t: nat)
    requires Happens(size, w, ev, w') && Calm(w, ev, t)
    ensures KeepsSafe(w, ev, w', t)
  {
    if Registry.Safe(w.reg, t) || ev == Record(Registry.Enlist(t)) {
      match ev {
        case Open(key, _) => Registry.StaysSafe(w.reg, Registry.Spawn(key), t);
        case Record(change) => Registry.StaysSafe(w.reg, change, t);
        case _ =>
      }
    }
  }

  lemma {:induction false} SafeThrough(ws: seq<World>, evs: seq<Event>, t: nat, from: nat, k: nat)
    requires |ws| == |evs| + 1 && from < k < |ws| && evs[from] == Record(Registry.Enlist(t))
    requires forall i :: from <= i < k ==> KeepsSafe(ws[i], evs[i], ws[i + 1], t)
    ensures Registry.Safe(ws[k].reg, t)
  {
    assert KeepsSafe(ws[k - 1], evs[k - 1], ws[k], t);
    if from < k - 1 { SafeThrough(ws, evs, t, from, k - 1); }
  }

  /** While no two unfinished tasks share a key, nothing but a clear-all stores the flag of a registered
      connection before it removes itself: it does not end as cancelled. */
  lemma UndisturbedUntilClear(size: nat, ws: seq<World>, evs: seq<Event>, t: nat, from: nat, k: nat)
    requires WorldRun(size, ws, evs) && from < k < |ws| && evs[from] == Record(Registry.Enlist(t))
    requires forall i :: from <= i < k ==> Calm(ws[i], evs[i], t)
    ensures t < |ws[k].conns| && !ws[k].conns[t].cell.flag
    ensures var pc := ws[k].conns[t].cell.pc; !(pc.Finished? && pc.result.Cancelled?)
  {
    forall i | from <= i < k ensures KeepsSafe(ws[i], evs[i], ws[i + 1], t) {
      CalmKeepsSafe(size, ws[i], evs[i], ws[i + 1], t);
    }
    SafeThrough(ws, evs, t, from, k);
    WorldKeeps(size, ws, evs, k);
    assert ConnOk(size, ws[k].conns[t]);
  }
}
