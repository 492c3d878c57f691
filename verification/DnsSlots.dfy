/** `dns_proxy.rs`: the upstream slots.  Each slot holds the sender of at most one upstream, whose
    receive task runs while its `running` flag is set.  Dropping a sender clears the flag. */
module DnsSlots {
  import opened Io
  import opened DnsSessions
  import opened DnsFraming

  type Item = (Peer, Message)

  /** Upstreams are numbered in the order of their creation.  `running[u]` is the flag of upstream `u`, and
      `channels[u]` everything that was put on its channel. */
  datatype Slots = Slots(slots: seq<Option<nat>>, running: seq<bool>, channels: seq<seq<Item>>, idx: nat)

  function NoUpstream(max: nat): Slots { Slots(seq(max, _ => None), [], [], 0) }

  /** Dropping the sender of a slot. */
  function Release(running: seq<bool>, slot: Option<nat>): seq<bool> {
    if slot.Some? && slot.value < |running| then running[slot.value := false] else running
  }

  /** `start_upstream` on slot `i`; on failure nothing has changed. */
  function StartUpstream(x: Slots, i: nat, item: Item, ok: bool): Slots
    requires i < |x.slots|
  {
    if !ok then x
    else x.(slots := x.slots[i := Some(|x.running|)], running := Release(x.running, x.slots[i]) + [true],
            channels := x.channels + [[item]])
  }

  function Put(channels: seq<seq<Item>>, u: nat, item: Item): seq<seq<Item>> {
    if u < |channels| then channels[u := channels[u] + [item]] else channels
  }

  /** `DnsProxy::send`: `open` tells whether the channel of the slot's sender still has a receiver, and
      `ok` whether a new upstream can be started if one is needed. */
  function SendVia(x: Slots, item: Item, open: bool, ok: bool): Slots
    requires |x.slots| > 0
  {
    var i := x.idx % |x.slots|;
    var y := x.(idx := x.idx + 1);
    if x.slots[i].Some? && open then y.(channels := Put(x.channels, x.slots[i].value, item))
    else StartUpstream(y, i, item, ok)
  }

  /** Whether `send` returns `Ok`. */
  predicate Accepts(x: Slots, open: bool, ok: bool)
    requires |x.slots| > 0
  { ok || (open && x.slots[x.idx % |x.slots|].Some?) }

  /** The clear task: every slot is emptied. */
  function ClearFrom(x: Slots, i: nat): Slots
    requires i <= |x.slots|
    decreases |x.slots| - i
  {
    if i == |x.slots| then x
    else ClearFrom(x.(slots := x.slots[i := None], running := Release(x.running, x.slots[i])), i + 1)
  }

  /** A receive task runs exactly while its sender occupies a slot, and each slot has its own. */
  ghost predicate SlotsOk(x: Slots) {
    && |x.channels| == |x.running|
    && (forall i :: 0 <= i < |x.slots| && x.slots[i].Some? ==> x.slots[i].value < |x.running|)
    && (forall i, j :: 0 <= i < j < |x.slots| && x.slots[i].Some? && x.slots[j].Some? ==> x.slots[i] != x.slots[j])
    && (forall u :: 0 <= u < |x.running| ==> (x.running[u] <==> Some(u) in x.slots))
  }

  /** No flag that was cleared is ever set again. */
  ghost predicate NeverRevived(x: Slots, y: Slots) {
    |x.running| <= |y.running| && forall u :: 0 <= u < |x.running| && !x.running[u] ==> !y.running[u]
  }

  lemma ReleaseKeeps(x: Slots, i: nat)
    requires SlotsOk(x) && i < |x.slots|
    ensures var y := x.(slots := x.slots[i := None], running := Release(x.running, x.slots[i]));
      SlotsOk(y) && NeverRevived(x, y)
  {
    var y := x.(slots := x.slots[i := None], running := Release(x.running, x.slots[i]));
    forall u | 0 <= u < |y.running| ensures y.running[u] <==> Some(u) in y.slots {
      if Some(u) in x.slots && x.slots[i] != Some(u) {
        var j :| 0 <= j < |x.slots| && x.slots[j] == Some(u);
        assert y.slots[j] == Some(u);
      }
    }
  }

  lemma OccupyKeeps(x: Slots, i: nat, item: Item)
    requires SlotsOk(x) && i < |x.slots| && x.slots[i].None?
    ensures var y := StartUpstream(x, i, item, true); SlotsOk(y) && NeverRevived(x, y)
  {
    var y := StartUpstream(x, i, item, true);
    assert y.slots[i] == Some(|x.running|);
    forall u | 0 <= u < |x.running| ensures Some(u) in x.slots <==> Some(u) in y.slots {
      if Some(u) in x.slots {
        var j :| 0 <= j < |x.slots| && x.slots[j] == Some(u);
        assert y.slots[j] == Some(u);
      }
    }
  }

  lemma StartKeeps(x: Slots, i: nat, item: Item, ok: bool)
    requires SlotsOk(x) && i < |x.slots|
    ensures var y := StartUpstream(x, i, item, ok);
      && SlotsOk(y) && NeverRevived(x, y)
      && (ok ==> y.slots[i] == Some(|x.running|) && y.running[|x.running|])
      && (!ok ==> y == x)
      && (forall k :: 0 <= k < |x.slots| && k != i ==> y.slots[k] == x.slots[k])
  {
    if ok {
      ReleaseKeeps(x, i);
      var mid := x.(slots := x.slots[i := None], running := Release(x.running, x.slots[i]));
      OccupyKeeps(mid, i, item);
      assert mid.slots[i := Some(|x.running|)] == x.slots[i := Some(|x.running|)];
    }
  }

  lemma SendKeeps(x: Slots, item: Item, open: bool, ok: bool)
    requires SlotsOk(x) && |x.slots| > 0
    ensures var y := SendVia(x, item, open, ok); SlotsOk(y) && NeverRevived(x, y)
  {
    StartKeeps(x.(idx := x.idx + 1), x.idx % |x.slots|, item, ok);
  }

  lemma {:induction false} ClearKeeps(x: Slots, i: nat)
    requires SlotsOk(x) && i <= |x.slots| && (forall k :: 0 <= k < i ==> x.slots[k].None?)
    ensures var y := ClearFrom(x, i);
      && SlotsOk(y) && NeverRevived(x, y) && |y.slots| == |x.slots| && |y.running| == |x.running|
      && (forall k :: 0 <= k < |y.slots| ==> y.slots[k].None?) && (forall u :: 0 <= u < |y.running| ==> !y.running[u])
    decreases |x.slots| - i
  {
    if i < |x.slots| {
      ReleaseKeeps(x, i);
      ClearKeeps(x.(slots := x.slots[i := None], running := Release(x.running, x.slots[i])), i + 1);
    } else {
      forall u | 0 <= u < |x.running| ensures !x.running[u] {
        assert Some(u) !in x.slots;
      }
    }
  }

  datatype SlotEvent = SendEvent(item: Item, open: bool, ok: bool) | ClearEvent

  function SlotsAfter(max: nat, events: seq<SlotEvent>): (x: Slots)
    requires max > 0
    ensures |x.slots| == max
  {
    if events == [] then NoUpstream(max)
    else
      var x := SlotsAfter(max, events[..|events| - 1]);
      match events[|events| - 1]
      case SendEvent(item, open, ok) => SendVia(x, item, open, ok)
      case ClearEvent => ClearLength(x, 0); ClearFrom(x, 0)
  }

  lemma {:induction false} ClearLength(x: Slots, i: nat)
    requires i <= |x.slots|
    ensures |ClearFrom(x, i).slots| == |x.slots|
    decreases |x.slots| - i
  {
    if i < |x.slots| {
      ClearLength(x.(slots := x.slots[i := None], running := Release(x.running, x.slots[i])), i + 1);
    }
  }

  lemma {:induction false} RunningInSlots(slots: seq<Option<nat>>, running: set<nat>)
    requires forall u :: u in running ==> Some(u) in slots
    ensures |running| <= |slots|
  {
    if slots == [] {
      assert running == {};
    } else {
      var last := |slots| - 1;
      var gone := if slots[last].Some? then {slots[last].value} else {};
      forall u | u in running - gone ensures Some(u) in slots[..last] {
        var k :| 0 <= k < |slots| && slots[k] == Some(u);
        assert k < last && slots[..last][k] == Some(u);
      }
      RunningInSlots(slots[..last], running - gone);
      assert |gone| <= 1 && |running| <= |running - gone| + |gone| by {
        assert running <= (running - gone) + gone;
        SubsetSize(running, (running - gone) + gone);
      }
    }
  }

  lemma {:induction false} SubsetSize(a: set<nat>, b: set<nat>)
    requires a <= b
    ensures |a| <= |b|
  {
    if a != {} {
      var x :| x in a;
      SubsetSize(a - {x}, b - {x});
    }
  }

  /** In every reachable state a receive task's flag is set exactly when its sender occupies a slot, and
      at most `max` flags are set. */
  lemma {:induction false} SlotsReachable(max: nat, events: seq<SlotEvent>)
    requires max > 0
    ensures var x := SlotsAfter(max, events);
      SlotsOk(x) && |set u | 0 <= u < |x.running| && x.running[u]| <= max
  {
    if events != [] {
      SlotsReachable(max, events[..|events| - 1]);
      var x := SlotsAfter(max, events[..|events| - 1]);
      match events[|events| - 1] {
        case SendEvent(item, open, ok) => SendKeeps(x, item, open, ok);
        case ClearEvent => ClearKeeps(x, 0);
      }
    }
    var x := SlotsAfter(max, events);
    RunningInSlots(x.slots, set u | 0 <= u < |x.running| && x.running[u]);
  }

  /** A cleared flag stays cleared through any further events. */
  lemma {:induction false} ReplacedNeverRuns(max: nat, before: seq<SlotEvent>, later: seq<SlotEvent>)
    requires max > 0
    ensures NeverRevived(SlotsAfter(max, before), SlotsAfter(max, before + later))
  {
    if later == [] {
      assert before + later == before;
    } else {
      var all := before + later;
      assert all[..|all| - 1] == before + later[..|later| - 1];
      ReplacedNeverRuns(max, before, later[..|later| - 1]);
      SlotsReachable(max, all[..|all| - 1]);
      var x := SlotsAfter(max, all[..|all| - 1]);
      match all[|all| - 1] {
        case SendEvent(item, open, ok) => SendKeeps(x, item, open, ok);
        case ClearEvent => ClearKeeps(x, 0);
      }
    }
  }

  /** A send goes round robin over the slots.  It leaves a working slot alone; a restart that fails
      leaves even a dead sender in place; a restart that succeeds stops the upstream it replaces. */
  lemma SendEffect(x: Slots, item: Item, open: bool, ok: bool)
    requires SlotsOk(x) && |x.slots| > 0
    ensures var y := SendVia(x, item, open, ok); var i := x.idx % |x.slots|;
      && y.idx == x.idx + 1 && (forall k :: 0 <= k < |x.slots| && k != i ==> y.slots[k] == x.slots[k])
      && ((x.slots[i].Some? && open) || !ok ==> y.slots == x.slots && y.running == x.running)
      && (x.slots[i].Some? && open ==>
            var u := x.slots[i].value; u < |x.channels| && y.channels == x.channels[u := x.channels[u] + [item]])
      && (!(x.slots[i].Some? && open) && !ok ==> y.channels == x.channels)
      && (!(x.slots[i].Some? && open) && ok ==>
            && y.channels == x.channels + [[item]]
            && y.slots[i] == Some(|x.running|) && y.running[|x.running|]
            && (x.slots[i].Some? ==> !y.running[x.slots[i].value]))
  {
    var i := x.idx % |x.slots|;
    StartKeeps(x.(idx := x.idx + 1), i, item, ok);
  }

  /** Everything on all channels together. */
  function Total(channels: seq<seq<Item>>): multiset<Item> {
    if channels == [] then multiset{}
    else Total(channels[..|channels| - 1]) + multiset(channels[|channels| - 1])
  }

  lemma TotalSnoc(channels: seq<seq<Item>>, items: seq<Item>)
    ensures Total(channels + [items]) == Total(channels) + multiset(items)
  {
    assert (channels + [items])[..|channels|] == channels;
  }

  lemma {:induction false} TotalPut(channels: seq<seq<Item>>, u: nat, item: Item)
    requires u < |channels|
    ensures Total(Put(channels, u, item)) == Total(channels) + multiset{item}
  {
    var last := |channels| - 1;
    var after := Put(channels, u, item);
    if u < last {
      TotalPut(channels[..last], u, item);
      assert after[..last] == Put(channels[..last], u, item);
    } else {
      assert after[..last] == channels[..last];
      assert multiset(channels[u] + [item]) == multiset(channels[u]) + multiset{item};
    }
  }

  /** The messages of the sends that returned `Ok`. */
  function Accepted(max: nat, events: seq<SlotEvent>): multiset<Item>
    requires max > 0
  {
    if events == [] then multiset{}
    else
      var before := events[..|events| - 1];
      match events[|events| - 1]
      case SendEvent(item, open, ok) =>
        Accepted(max, before) + (if Accepts(SlotsAfter(max, before), open, ok) then multiset{item} else multiset{})
      case ClearEvent => Accepted(max, before)
  }

  lemma SendConserves(x: Slots, item: Item, open: bool, ok: bool)
    requires SlotsOk(x) && |x.slots| > 0
    ensures Total(SendVia(x, item, open, ok).channels)
         == Total(x.channels) + (if Accepts(x, open, ok) then multiset{item} else multiset{})
  {
    var i := x.idx % |x.slots|;
    if x.slots[i].Some? && open {
      TotalPut(x.channels, x.slots[i].value, item);
    } else if ok {
      TotalSnoc(x.channels, [item]);
    }
  }

  lemma {:induction false} ClearConserves(x: Slots, i: nat)
    requires i <= |x.slots|
    ensures ClearFrom(x, i).channels == x.channels
    decreases |x.slots| - i
  {
    if i < |x.slots| {
      ClearConserves(x.(slots := x.slots[i := None], running := Release(x.running, x.slots[i])), i + 1);
    }
  }

  /** Over any sends, failures, restarts and clears, the messages put on all channels together are exactly
      those whose send returned `Ok`, each as often as it was sent. */
  lemma {:induction false} SendsConserved(max: nat, events: seq<SlotEvent>)
    requires max > 0
    ensures Total(SlotsAfter(max, events).channels) == Accepted(max, events)
  {
    if events != [] {
      var before := events[..|events| - 1];
      SendsConserved(max, before);
      SlotsReachable(max, before);
      var x := SlotsAfter(max, before);
      match events[|events| - 1] {
        case SendEvent(item, open, ok) => SendConserves(x, item, open, ok);
        case ClearEvent => ClearConserves(x, 0);
      }
    }
  }

  /** `DnsProxy`, as far as its upstream slots go. */
  class DnsProxy {
    var upstream: seq<Option<nat>>
    var running: seq<bool>
    var channels: seq<seq<Item>>
    var idx: nat

    function View(): Slots
      reads this
    { Slots(upstream, running, channels, idx) }

    constructor (max: nat)
      ensures View() == NoUpstream(max)
    { upstream, running, channels, idx := seq(max, _ => None), [], [], 0; }

    method Send(item: Item, open: bool, ok: bool) returns (sent: bool)
      requires |upstream| > 0
      modifies this
      ensures View() == SendVia(old(View()), item, open, ok)
      ensures sent <==> old(Accepts(View(), open, ok))
    {
      var i := idx % |upstream|;
      idx := idx + 1;
      if upstream[i].Some? && open {
        if upstream[i].value < |channels| {
          channels := channels[upstream[i].value := channels[upstream[i].value] + [item]];
        }
        return true;
      }
      if !ok { return false; }
      if upstream[i].Some? && upstream[i].value < |running| {
        running := running[upstream[i].value := false];
      }
      upstream := upstream[i := Some(|running|)];
      running, channels := running + [true], channels + [[item]];
      return true;
    }

    method Clear()
      modifies this`upstream, this`running
      ensures View() == ClearFrom(old(View()), 0)
    {
      ghost var goal := ClearFrom(View(), 0);
      for i := 0 to |upstream|
        invariant |upstream| == |old(upstream)| && idx == old(idx)
        invariant ClearFrom(View(), i) == goal
      {
        if upstream[i].Some? && upstream[i].value < |running| {
          running := running[upstream[i].value := false];
        }
        upstream := upstream[i := None];
      }
    }
  }
}
