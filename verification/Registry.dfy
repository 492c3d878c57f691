/** `tcp.rs`: the registry of live connections.  A connection task puts its cancel handle under its
    (source, destination) key; whoever takes a handle out of the map drops it, and dropping cancels. */
module Registry {
  type Key = (nat, nat)

  datatype Phase = Connecting | Registered | Gone

  datatype Connection = Connection(key: Key, phase: Phase)

  /** `connects` maps a key to the task whose handle it holds; `cancelled` has the tasks whose flag is set. */
  datatype Registry = Registry(tasks: seq<Connection>, connects: map<Key, nat>, cancelled: set<nat>)

  function Empty(): Registry { Registry([], map[], {}) }

  datatype Step =
    | Spawn(key: Key)           // handle_tcp_stream
    | GiveUp(task: nat)         // the outbound connect fails
    | Enlist(task: nat)         // insert the handle
    | Finish(task: nat)         // the copy ended or was cancelled: remove the key
    | ClearAll                  // the network changed

  predicate Enabled(x: Registry, step: Step) {
    match step
    case GiveUp(t) => t < |x.tasks| && x.tasks[t].phase.Connecting?
    case Enlist(t) => t < |x.tasks| && x.tasks[t].phase.Connecting?
    case Finish(t) => t < |x.tasks| && x.tasks[t].phase.Registered?
    case _ => true
  }

  /** The task whose handle is dropped when the entry under `key` goes away. */
  function Dropped(connects: map<Key, nat>, key: Key): set<nat> {
    if key in connects then {connects[key]} else {}
  }

  function Next(x: Registry, step: Step): Registry
    requires Enabled(x, step)
  {
    match step
    case Spawn(key) => x.(tasks := x.tasks + [Connection(key, Connecting)])
    case GiveUp(t) => x.(tasks := x.tasks[t := x.tasks[t].(phase := Gone)])
    case Enlist(t) =>
      var key := x.tasks[t].key;
      Registry(x.tasks[t := x.tasks[t].(phase := Registered)], x.connects[key := t],
               x.cancelled + Dropped(x.connects, key))
    case Finish(t) =>
      var key := x.tasks[t].key;
      Registry(x.tasks[t := x.tasks[t].(phase := Gone)], x.connects - {key}, x.cancelled + Dropped(x.connects, key))
    case ClearAll => x.(connects := map[], cancelled := x.cancelled + x.connects.Values)
  }

  ghost predicate Run(trace: seq<Registry>, steps: seq<Step>) {
    && |trace| == |steps| + 1 && trace[0] == Empty()
    && forall i :: 0 <= i < |steps| ==> Enabled(trace[i], steps[i]) && trace[i + 1] == Next(trace[i], steps[i])
  }

  predicate Up(x: Registry, t: nat) { t < |x.tasks| && x.tasks[t].phase.Registered? }

  /** A registered task's handle is in the map exactly while the task is not cancelled. */
  ghost predicate Consistent(x: Registry) {
    && (forall k :: k in x.connects ==> Up(x, x.connects[k]) && x.tasks[x.connects[k]].key == k)
    && (forall t: nat :: Up(x, t) ==>
          (t !in x.cancelled <==> x.tasks[t].key in x.connects && x.connects[x.tasks[t].key] == t))
    && (forall t :: t in x.cancelled ==> t < |x.tasks| && !x.tasks[t].phase.Connecting?)
  }

  lemma ClearTakesAll(x: Registry)
    requires Consistent(x)
    ensures forall t: nat :: Up(x, t) ==> t in Next(x, ClearAll).cancelled
  {
    forall t: nat | Up(x, t) ensures t in Next(x, ClearAll).cancelled {
      if t !in x.cancelled { assert x.connects[x.tasks[t].key] in x.connects.Values; }
    }
  }

  lemma StepKeeps(x: Registry, step: Step)
    requires Consistent(x) && Enabled(x, step)
    ensures Consistent(Next(x, step))
  {
    if step.ClearAll? { ClearTakesAll(x); }
  }

  lemma {:induction false} RunKeeps(trace: seq<Registry>, steps: seq<Step>, k: nat)
    requires Run(trace, steps) && k < |trace|
    ensures Consistent(trace[k])
  {
    if k > 0 {
      RunKeeps(trace, steps, k - 1);
      StepKeeps(trace[k - 1], steps[k - 1]);
    }
  }

  /** A clear-all sets the flag of every task registered before it, however keys were reused. */
  lemma ClearReachesEveryone(trace: seq<Registry>, steps: seq<Step>, k: nat)
    requires Run(trace, steps) && k < |steps| && steps[k].ClearAll?
    ensures forall t: nat :: Up(trace[k], t) ==> t in trace[k + 1].cancelled
    ensures trace[k + 1].connects == map[]
  {
    RunKeeps(trace, steps, k);
    ClearTakesAll(trace[k]);
  }

  /** A task that gave up connecting or removed its key is gone for good: it never registers again. */
  lemma {:induction false} GoneForGood(trace: seq<Registry>, steps: seq<Step>, t: nat, k: nat, n: nat)
    requires Run(trace, steps) && k < n < |trace| && (steps[k] == GiveUp(t) || steps[k] == Finish(t))
    ensures t < |trace[n].tasks| && trace[n].tasks[t].phase.Gone? && !Up(trace[n], t)
  {
    if k < n - 1 { GoneForGood(trace, steps, t, k, n - 1); }
    assert Enabled(trace[n - 1], steps[n - 1]) && trace[n] == Next(trace[n - 1], steps[n - 1]);
  }

  /** Exactly whom one task's insert or remove cancels besides itself: a registered, uncancelled task
      under the same key. */
  lemma CollateralExactly(x: Registry, step: Step, u: nat)
    requires Consistent(x) && Enabled(x, step) && (step.Enlist? || step.Finish?)
    requires u != step.task && u !in x.cancelled
    ensures u in Next(x, step).cancelled <==> Up(x, u) && x.tasks[u].key == x.tasks[step.task].key
  {
  }

  predicate Unfinished(x: Registry, t: nat) { t < |x.tasks| && !x.tasks[t].phase.Gone? }

  /** No two unfinished tasks share a key. */
  ghost predicate DistinctKeys(x: Registry) {
    forall t: nat, u: nat :: Unfinished(x, t) && Unfinished(x, u) && t != u ==> x.tasks[t].key != x.tasks[u].key
  }

  predicate Safe(x: Registry, t: nat) { Up(x, t) && t !in x.cancelled }

  lemma StaysSafe(x: Registry, step: Step, t: nat)
    requires Consistent(x) && Enabled(x, step) && DistinctKeys(x) && (Safe(x, t) || step == Enlist(t))
    requires !step.ClearAll? && step != Finish(t)
    ensures Safe(Next(x, step), t)
  {
    if step.Enlist? || step.Finish? {
      assert Unfinished(x, step.task) && Unfinished(x, t);
      if step.task != t {
        CollateralExactly(x, step, t);
      } else {
        var key := x.tasks[t].key;
        if key in x.connects { assert Unfinished(x, x.connects[key]); }
      }
    }
  }

  lemma {:induction false} SafeUntilClear(trace: seq<Registry>, steps: seq<Step>, t: nat, from: nat, k: nat)
    requires Run(trace, steps) && from < k < |trace| && steps[from] == Enlist(t)
    requires forall i :: from <= i < k ==> DistinctKeys(trace[i]) && !steps[i].ClearAll? && steps[i] != Finish(t)
    ensures Safe(trace[k], t)
  {
    if from < k - 1 { SafeUntilClear(trace, steps, t, from, k - 1); }
    RunKeeps(trace, steps, k - 1);
    StaysSafe(trace[k - 1], steps[k - 1], t);
  }

  /** While no two unfinished tasks share a key, a registered task keeps exactly its own handle in the
      map, uncancelled, until a clear-all or its own removal: no other task's insert or remove touches
      it. */
  lemma OnlyClearCancels(trace: seq<Registry>, steps: seq<Step>, t: nat, from: nat, k: nat)
    requires Run(trace, steps) && from < k < |trace| && steps[from] == Enlist(t)
    requires forall i :: from <= i < k ==> DistinctKeys(trace[i]) && !steps[i].ClearAll? && steps[i] != Finish(t)
    ensures var x := trace[k];
      Up(x, t) && t !in x.cancelled && x.tasks[t].key in x.connects && x.connects[x.tasks[t].key] == t
  {
    RunKeeps(trace, steps, k);
    SafeUntilClear(trace, steps, t, from, k);
  }

  /** With a reused key the claim fails: the second connection's insert cancels the first, whose
      removal then cancels the second. */
  lemma ReusedKeyCancelsBoth() returns (trace: seq<Registry>, steps: seq<Step>)
    ensures Run(trace, steps) && (forall i :: 0 <= i < |steps| ==> !steps[i].ClearAll?)
    ensures var x := trace[|steps|]; Up(x, 1) && 1 in x.cancelled && 0 in x.cancelled && x.connects == map[]
  {
    var k: Key := (1, 2);
    steps := [Spawn(k), Enlist(0), Spawn(k), Enlist(1), Finish(0)];
    var a := Next(Empty(), Spawn(k));
    var b := Next(a, Enlist(0));
    var c := Next(b, Spawn(k));
    var d := Next(c, Enlist(1));
    var e := Next(d, Finish(0));
    trace := [Empty(), a, b, c, d, e];
    assert d.connects == map[k := 1];
  }

  /** The shared `connects` map and the flags behind its handles. */
  class TcpConnects {
    var tasks: seq<Connection>
    var connects: map<Key, nat>
    var cancelled: set<nat>

    function View(): Registry
      reads this
    { Registry(tasks, connects, cancelled) }

    constructor ()
      ensures View() == Empty()
    { tasks, connects, cancelled := [], map[], {}; }

    method Insert(t: nat) returns (count: nat)
      requires Enabled(View(), Enlist(t))
      modifies this
      ensures View() == Next(old(View()), Enlist(t)) && count == |connects|
    {
      var key := tasks[t].key;
      if key in connects { cancelled := cancelled + {connects[key]}; }
      connects := connects[key := t];
      tasks := tasks[t := tasks[t].(phase := Registered)];
      count := |connects|;
    }

    method Remove(t: nat) returns (count: nat)
      requires Enabled(View(), Finish(t))
      modifies this
      ensures View() == Next(old(View()), Finish(t)) && count == |connects|
    {
      var key := tasks[t].key;
      if key in connects { cancelled := cancelled + {connects[key]}; }
      connects := connects - {key};
      tasks := tasks[t := tasks[t].(phase := Gone)];
      count := |connects|;
    }

    method Clear()
      modifies this`connects, this`cancelled
      ensures View() == Next(old(View()), ClearAll)
    {
      cancelled := cancelled + connects.Values;
      connects := map[];
    }
  }
}
