/** `net/copy.rs`: both directions of a relay, with and without the idle timer. */
module Relay {
  import opened Io
  import opened Copy

  /** `CopyBidirectional`; `sleep` holds the deadline of the idle timer once it is armed. */
  datatype RelayState = RelayState(ab: Direction, ba: Direction, timeout: nat, sleep: Option<nat>)
  {
    ghost predicate Valid() { ab.Valid() && ba.Valid() }
  }

  /** How `CopyBidirectional::copy` combines the polls of its two directions at time `now`. */
  function Combine(x: RelayState, now: nat, ab: Direction, p: Poll<nat>, ba: Direction, q: Poll<nat>)
    : (RelayState, Poll<(nat, nat)>)
  {
    var y := x.(ab := ab, ba := ba);
    if p.Failed? then (x.(ab := ab), Failed(p.error))
    else if q.Failed? then (y, Failed(q.error))
    else if p.Pending? && q.Pending? then
      if ab.amt == x.ab.amt && ba.amt == x.ba.amt then
        match x.sleep
        case Some(deadline) => if now < deadline then (y, Pending) else (y, Failed(IdleTimeout))
        case None => (y.(sleep := Some(now + x.timeout)), Pending)
      else (y.(sleep := None), Pending)
    else if p.Ready? && q.Ready? then (y, Ready((p.value, q.value)))
    else (y, Pending)
  }

  /** `CopyBidirectional::copy`, polled at time `now`. */
  function RelayPoll(x: RelayState, now: nat): (RelayState, Poll<(nat, nat)>)
    requires x.Valid()
  {
    var (ab, p) := CopyDirection(x.ab);
    var (ba, q) := CopyDirection(x.ba);
    Combine(x, now, ab, p, ba, q)
  }

  /** One poll of the closure in `copy_bidirectional`. */
  function SimplePoll(ab: Direction, ba: Direction): (Direction, Direction, Poll<(nat, nat)>)
    requires ab.Valid() && ba.Valid()
  {
    var (ab', p) := TransferDirection(ab);
    if p.Failed? then (ab', ba, Failed(p.error))
    else
      var (ba', q) := TransferDirection(ba);
      if q.Failed? then (ab', ba', Failed(q.error))
      else if q.Pending? then (ab', ba', Pending)
      else if p.Pending? then (ab', ba', Pending)
      else (ab', ba', Ready((p.value, q.value)))
  }

  ghost predicate RelayOk(x: RelayState, size: nat) {
    DirectionOk(x.ab, size) && DirectionOk(x.ba, size) && Synced(x.ab) && Synced(x.ba)
  }

  function FreshRelay(size: nat, timeout: nat, ra: ReadHalf, wa: WriteHalf, rb: ReadHalf, wb: WriteHalf): RelayState {
    RelayState(FreshDirection(size, ra, wb), FreshDirection(size, rb, wa), timeout, None)
  }

  ghost predicate Untouched(r: ReadHalf, w: WriteHalf) {
    r == FreshReader(r.plan, r.source) && w == FreshWriter(w.plan)
  }

  /** A run in which every poll so far was pending; `st[i]` is the state before the poll at `now[i]`. */
  ghost predicate Run(size: nat, st: seq<RelayState>, now: seq<nat>) {
    && |st| == |now| + 1
    && Untouched(st[0].ab.r, st[0].ba.w) && Untouched(st[0].ba.r, st[0].ab.w)
    && st[0] == FreshRelay(size, st[0].timeout, st[0].ab.r, st[0].ba.w, st[0].ba.r, st[0].ab.w)
    && (forall i :: 0 <= i < |st| ==> st[i].Valid())
    && (forall i :: 0 <= i < |now| ==> RelayPoll(st[i], now[i]) == (st[i + 1], Pending))
  }

  ghost predicate Kept(x: RelayState, y: RelayState, p: Poll<(nat, nat)>, size: nat) {
    && y.Valid() && DirectionOk(y.ab, size) && DirectionOk(y.ba, size)
    && y.ab.r.source == x.ab.r.source && y.ba.r.source == x.ba.r.source && y.timeout == x.timeout
    && (!p.Failed? ==> RelayOk(y, size))
    && (p.Ready? ==> y.ab.state == Done(p.value.0) && y.ba.state == Done(p.value.1))
    && (p.Pending? ==> !(y.ab.state.Done? && y.ba.state.Done?))
    && y.ab.Rank() <= x.ab.Rank() && y.ba.Rank() <= x.ba.Rank()
  }

  lemma PollKeeps(x: RelayState, now: nat, size: nat)
    requires RelayOk(x, size)
    ensures x.Valid() && Kept(x, RelayPoll(x, now).0, RelayPoll(x, now).1, size)
  {
    DirectionKept(x.ab, size);
    DirectionKept(x.ba, size);
    var (ab, p) := CopyDirection(x.ab);
    var (ba, q) := CopyDirection(x.ba);
    CombineKeeps(x, now, size, ab, p, ba, q);
  }

  lemma CombineKeeps(x: RelayState, now: nat, size: nat, ab: Direction, p: Poll<nat>, ba: Direction, q: Poll<nat>)
    requires RelayOk(x, size) && x.Valid() && Advance(x.ab, ab, p, size) && Advance(x.ba, ba, q, size)
    ensures var (y, res) := Combine(x, now, ab, p, ba, q); Kept(x, y, res, size)
  {
  }

  lemma {:induction false} RunOk(size: nat, st: seq<RelayState>, now: seq<nat>, k: nat)
    requires Run(size, st, now) && k < |st|
    ensures RelayOk(st[k], size) && st[k].timeout == st[0].timeout
    ensures st[k].ab.r.source == st[0].ab.r.source && st[k].ba.r.source == st[0].ba.r.source
  {
    if k > 0 {
      RunOk(size, st, now, k - 1);
      PollKeeps(st[k - 1], now[k - 1], size);
      assert RelayPoll(st[k - 1], now[k - 1]) == (st[k], Pending);
    }
  }

  /** What a finished direction has done: `w` received all of `source`, flushed, then shut down. */
  ghost predicate Finished(d: Direction, source: Bytes) {
    && d.w.accepted == source && d.w.flushed == |source|
    && d.w.shut && d.w.shutAt == |source| && d.w.lateCalls == 0
    && d.r.sawEof && d.r.lateReads == 0
  }

  /** If the relay returns `Ok((x, y))`, each side received, flushed and was then shut down exactly
      after the other side's entire stream; `x` and `y` are the stream lengths; no reader is polled
      after its end of stream. */
  lemma RelayComplete(size: nat, st: seq<RelayState>, now: seq<nat>, t: nat)
    requires Run(size, st, now) && size > 0
    requires RelayPoll(st[|now|], t).1.Ready?
    ensures var (y, p) := RelayPoll(st[|now|], t);
      && Finished(y.ab, st[0].ab.r.source) && Finished(y.ba, st[0].ba.r.source)
      && p.value == (|st[0].ab.r.source|, |st[0].ba.r.source|)
  {
    RunOk(size, st, now, |now|);
    PollKeeps(st[|now|], t, size);
    var y := RelayPoll(st[|now|], t).0;
    assert y.ab.r.source[..y.ab.r.taken] == y.ab.r.source;
    assert y.ba.r.source[..y.ba.r.taken] == y.ba.r.source;
  }

  ghost predicate SamePlans(d: Direction, d': Direction) { d'.r.plan == d.r.plan && d'.w.plan == d.w.plan }

  lemma PollPlans(x: RelayState, now: nat)
    requires x.Valid()
    ensures SamePlans(x.ab, RelayPoll(x, now).0.ab) && SamePlans(x.ba, RelayPoll(x, now).0.ba)
  {
    HealthyDirection(x.ab);
    HealthyDirection(x.ba);
  }

  lemma {:induction false} RunPlans(size: nat, st: seq<RelayState>, now: seq<nat>, k: nat)
    requires Run(size, st, now) && k < |st|
    ensures SamePlans(st[0].ab, st[k].ab) && SamePlans(st[0].ba, st[k].ba)
  {
    if k > 0 {
      RunPlans(size, st, now, k - 1);
      PollPlans(st[k - 1], now[k - 1]);
      assert RelayPoll(st[k - 1], now[k - 1]) == (st[k], Pending);
    }
  }

  /** Between healthy streams no poll of any run fails, except by the idle timer. */
  lemma HealthyRelayNeverFails(size: nat, st: seq<RelayState>, now: seq<nat>, t: nat)
    requires Run(size, st, now)
    requires Healthy(st[0].ab.r.plan, st[0].ab.w.plan) && Healthy(st[0].ba.r.plan, st[0].ba.w.plan)
    ensures var p := RelayPoll(st[|now|], t).1; p.Failed? ==> p.error == IdleTimeout
  {
    RunPlans(size, st, now, |now|);
    HealthyDirection(st[|now|].ab);
    HealthyDirection(st[|now|].ba);
  }

  /** Between prompt streams the first poll relays everything: each side gets the other side's stream. */
  lemma PromptRelayFinishes(size: nat, timeout: nat, ra: ReadHalf, wa: WriteHalf, rb: ReadHalf, wb: WriteHalf, t: nat)
    requires size > 0 && Untouched(ra, wa) && Untouched(rb, wb)
    requires Prompt(ra.plan, wb.plan) && Prompt(rb.plan, wa.plan)
    ensures var x := FreshRelay(size, timeout, ra, wa, rb, wb);
      && x.Valid() && RelayPoll(x, t).1 == Ready((|ra.source|, |rb.source|))
      && RelayPoll(x, t).0.ab.w.accepted == ra.source && RelayPoll(x, t).0.ba.w.accepted == rb.source
  {
    var x := FreshRelay(size, timeout, ra, wa, rb, wb);
    assert Run(size, [x], []);
    HealthyDirection(x.ab);
    HealthyDirection(x.ba);
    RelayComplete(size, [x], [], t);
  }

  /** Who gets what, in terms of the two streams given to the relay: on `Ok` the writer of B has exactly
      what A's reader had to give, and the other way round. */
  lemma RelayDeliversAcross(size: nat, st: seq<RelayState>, now: seq<nat>, t: nat,
                            ra: ReadHalf, wa: WriteHalf, rb: ReadHalf, wb: WriteHalf)
    requires Run(size, st, now) && size > 0 && st[0] == FreshRelay(size, st[0].timeout, ra, wa, rb, wb)
    requires RelayPoll(st[|now|], t).1.Ready?
    ensures var (y, p) := RelayPoll(st[|now|], t);
      && p.value == (|ra.source|, |rb.source|)
      && y.ab.w.plan == wb.plan && Finished(y.ab, ra.source) && y.ba.w.plan == wa.plan && Finished(y.ba, rb.source)
  {
    RelayComplete(size, st, now, t);
    RunPlans(size, st, now, |now|);
    PollPlans(st[|now|], t);
  }

  /** The result of a relay whose one direction is done with `n` bytes, from a poll of the other one. */
  function WithDone(n: nat, first: bool, other: Poll<nat>): Poll<(nat, nat)> {
    match other
    case Ready(m) => Ready(if first then (n, m) else (m, n))
    case Pending => Pending
    case Failed(e) => Failed(e)
  }

  /** One direction being done never ends the relay: the other one still gets every byte through, and
      its result alone, error or not, is that of the relay. */
  lemma DoneNeverCutsShort(size: nat, x: RelayState, now: nat)
    requires RelayOk(x, size) && x.Valid() && (x.ab.state.Done? || x.ba.state.Done?)
    ensures var (y, p) := RelayPoll(x, now);
      && (x.ab.state.Done? ==>
            y.ab == x.ab && y.ba == CopyDirection(x.ba).0
            && p == WithDone(x.ab.state.count, true, CopyDirection(x.ba).1))
      && (x.ba.state.Done? ==>
            y.ba == x.ba && y.ab == CopyDirection(x.ab).0
            && p == WithDone(x.ba.state.count, false, CopyDirection(x.ab).1))
      && y.sleep == x.sleep && p != Failed(IdleTimeout)
  {
    DirectionKept(x.ab, size);
    DirectionKept(x.ba, size);
  }

  // ---------------------------------------------------------------------------------------------
  // The idle timer

  /** A step that looks idle to the timer: nothing was written, or the direction wrote its last
      bytes and stopped publishing its total. */
  ghost predicate LooksIdle(d: Direction, d': Direction) {
    && (d'.w.accepted == d.w.accepted || (d.state.Running? && d'.state.Closing?))
    && d'.Rank() <= d.Rank()
  }

  ghost predicate NoneDone(x: RelayState) { !x.ab.state.Done? && !x.ba.state.Done? }

  /** The bytes that a poll of `d` gets accepted are not published: the direction is past copying, or its
      copy loop ends in this poll. */
  ghost predicate Unpublished(d: Direction)
    requires d.Valid()
  {
    match d.state
    case Running(copy) => PollCopy(copy, d.r, d.w).poll.Ready?
    case _ => true
  }

  /** A direction looks idle in a poll: nothing was accepted, or what was is not published. */
  ghost predicate SeemsIdle(d: Direction)
    requires d.Valid()
  { CopyDirection(d).0.w.accepted == d.w.accepted || Unpublished(d) }

  lemma {:induction false} UnpublishedExactly(d: Direction)
    requires d.Valid()
    ensures Unpublished(d) <==> !CopyDirection(d).0.state.Running?
    decreases d.Rank()
  {
    match d.state {
      case Running(copy) =>
        var o := PollCopy(copy, d.r, d.w);
        if o.poll.Ready? { UnpublishedExactly(Direction(Closing(o.poll.value), o.r, o.w, d.amt)); }
      case Closing(n) =>
        var (w', down) := d.w.PollShutdown();
        if down.Ready? { UnpublishedExactly(d.(state := Done(n), w := w')); }
      case Done(_) =>
    }
  }

  /** One poll, exactly: the idle error is returned if and only if both directions are pending, the timer
      was armed and has run out, and each direction either got nothing accepted or did not publish it. */
  lemma IdleErrorExactly(x: RelayState, now: nat, size: nat)
    requires RelayOk(x, size) && x.Valid()
    ensures RelayPoll(x, now).1 == Failed(IdleTimeout) <==>
      && CopyDirection(x.ab).1.Pending? && CopyDirection(x.ba).1.Pending?
      && x.sleep.Some? && x.sleep.value <= now
      && SeemsIdle(x.ab) && SeemsIdle(x.ba)
  {
    DirectionKept(x.ab, size);
    DirectionKept(x.ba, size);
    if CopyDirection(x.ab).1.Pending? && CopyDirection(x.ba).1.Pending? {
      PublishedProgressExactly(x.ab, size);
      PublishedProgressExactly(x.ba, size);
      UnpublishedExactly(x.ab);
      UnpublishedExactly(x.ba);
    }
  }

  /** The result of every poll, exactly.  A failed first direction leaves the second unpolled. */
  lemma RelayResultExactly(x: RelayState, now: nat)
    requires x.Valid()
    ensures var (y, res) := RelayPoll(x, now); var (p, q) := (CopyDirection(x.ab).1, CopyDirection(x.ba).1);
      && y.ab == CopyDirection(x.ab).0 && y.ba == (if p.Failed? then x.ba else CopyDirection(x.ba).0)
      && (forall e :: e != IdleTimeout ==> (res == Failed(e) <==> p == Failed(e) || (!p.Failed? && q == Failed(e))))
      && (forall n, m :: res == Ready((n, m)) <==> p == Ready(n) && q == Ready(m))
  {
    NoIdle(x.ab);
    NoIdle(x.ba);
  }

  /** The timer after every poll, exactly: it moves only when both directions wait; silence arms it or
      leaves it armed, published progress disarms it. */
  lemma RelayTimerExactly(x: RelayState, now: nat, size: nat)
    requires RelayOk(x, size) && x.Valid()
    ensures var y := RelayPoll(x, now).0;
      && y.timeout == x.timeout
      && y.sleep == (if !CopyDirection(x.ab).1.Pending? || !CopyDirection(x.ba).1.Pending? then x.sleep
                     else if !SeemsIdle(x.ab) || !SeemsIdle(x.ba) then None
                     else if x.sleep.Some? then x.sleep else Some(now + x.timeout))
  {
    if CopyDirection(x.ab).1.Pending? && CopyDirection(x.ba).1.Pending? {
      PublishedProgressExactly(x.ab, size);
      PublishedProgressExactly(x.ba, size);
      UnpublishedExactly(x.ab);
      UnpublishedExactly(x.ba);
    }
  }

  ghost predicate IdleFacts(x: RelayState, now: nat, y: RelayState, p: Poll<(nat, nat)>) {
    && (p == Failed(IdleTimeout) ==> x.sleep.Some? && x.sleep.value <= now && NoneDone(y))
    && (p == Failed(IdleTimeout) || (p.Pending? && NoneDone(y) && y.sleep.Some?) ==>
          NoneDone(x) && LooksIdle(x.ab, y.ab) && LooksIdle(x.ba, y.ba))
    && (p.Pending? && NoneDone(y) && y.sleep.Some? ==>
          y.sleep == x.sleep || (x.sleep.None? && y.sleep == Some(now + x.timeout)))
  }

  lemma IdlePollLooksIdle(x: RelayState, now: nat, size: nat)
    requires RelayOk(x, size) && x.Valid()
    ensures IdleFacts(x, now, RelayPoll(x, now).0, RelayPoll(x, now).1)
  {
    DirectionKept(x.ab, size);
    DirectionKept(x.ba, size);
    var (ab, p) := CopyDirection(x.ab);
    var (ba, q) := CopyDirection(x.ba);
    if !p.Failed? { PublishedProgressExactly(x.ab, size); }
    if !q.Failed? { PublishedProgressExactly(x.ba, size); }
    CombineIdle(x, now, size, ab, p, ba, q);
  }

  lemma CombineIdle(x: RelayState, now: nat, size: nat, ab: Direction, p: Poll<nat>, ba: Direction, q: Poll<nat>)
    requires Advance(x.ab, ab, p, size) && Advance(x.ba, ba, q, size)
    requires (!p.Failed? ==> PublishesExactly(x.ab, ab)) && (!q.Failed? ==> PublishesExactly(x.ba, ba))
    ensures var (y, res) := Combine(x, now, ab, p, ba, q); IdleFacts(x, now, y, res)
  {
  }

  /** Every poll from `j` up to `k` looked idle. */
  ghost predicate IdleSince(st: seq<RelayState>, j: nat, k: nat)
    requires j <= k < |st|
  {
    forall i :: j <= i < k ==> LooksIdle(st[i].ab, st[i + 1].ab) && LooksIdle(st[i].ba, st[i + 1].ba)
  }

  /** Every pending poll of a run, as the timer sees it. */
  ghost predicate IdleHistory(st: seq<RelayState>, now: seq<nat>) {
    && |st| == |now| + 1 && st[0].sleep.None?
    && (forall k :: 0 <= k < |st| ==> st[k].timeout == st[0].timeout)
    && (forall k :: 0 <= k < |now| ==> IdleFacts(st[k], now[k], st[k + 1], Pending))
  }

  lemma RunIdleHistory(size: nat, st: seq<RelayState>, now: seq<nat>)
    requires Run(size, st, now)
    ensures IdleHistory(st, now)
  {
    forall k | 0 <= k < |st| ensures st[k].timeout == st[0].timeout { RunOk(size, st, now, k); }
    forall k | 0 <= k < |now| ensures IdleFacts(st[k], now[k], st[k + 1], Pending) {
      RunOk(size, st, now, k);
      IdlePollLooksIdle(st[k], now[k], size);
      assert RelayPoll(st[k], now[k]) == (st[k + 1], Pending);
    }
  }

  /** Poll `j` armed the timer, which has stayed as it is up to state `k`. */
  ghost predicate ArmedBy(st: seq<RelayState>, now: seq<nat>, j: nat, k: nat)
    requires j < k < |st| == |now| + 1
  {
    st[j].sleep.None? && forall i :: j < i <= k ==> st[i].sleep == Some(now[j] + st[0].timeout)
  }

  /** An armed timer was armed by one poll `j`, and every poll from `j` on looked idle. */
  lemma {:induction false} ArmedByIdlePoll(st: seq<RelayState>, now: seq<nat>, k: nat) returns (j: nat)
    requires IdleHistory(st, now) && k < |st| && st[k].sleep.Some? && NoneDone(st[k])
    ensures j < k && ArmedBy(st, now, j, k) && IdleSince(st, j, k)
  {
    assert IdleFacts(st[k - 1], now[k - 1], st[k], Pending);
    if st[k].sleep == st[k - 1].sleep {
      j := ArmedByIdlePoll(st, now, k - 1);
    } else {
      j := k - 1;
    }
  }

  /** The idle error at poll time `t`: some poll at least `timeout` earlier armed the timer, and since
      then every poll, this one included, looked idle; neither direction is done. */
  lemma IdleErrorJustified(size: nat, st: seq<RelayState>, now: seq<nat>, t: nat) returns (j: nat)
    requires Run(size, st, now)
    requires RelayPoll(st[|now|], t).1 == Failed(IdleTimeout)
    ensures var y := RelayPoll(st[|now|], t).0;
      && j < |now| && ArmedBy(st, now, j, |now|) && now[j] + st[0].timeout <= t
      && IdleSince(st + [y], j, |st|) && NoneDone(y)
  {
    var k := |now|;
    RunOk(size, st, now, k);
    IdlePollLooksIdle(st[k], t, size);
    RunIdleHistory(size, st, now);
    j := ArmedByIdlePoll(st, now, k);
    IdleExtends(st, RelayPoll(st[k], t).0, j);
  }

  lemma IdleExtends(st: seq<RelayState>, y: RelayState, j: nat)
    requires j < |st| && IdleSince(st, j, |st| - 1)
    requires LooksIdle(st[|st| - 1].ab, y.ab) && LooksIdle(st[|st| - 1].ba, y.ba)
    ensures IdleSince(st + [y], j, |st|)
  {
    var all := st + [y];
    forall i | j <= i < |st|
      ensures LooksIdle(all[i].ab, all[i + 1].ab) && LooksIdle(all[i].ba, all[i + 1].ba)
    {
      if i < |st| - 1 { assert all[i] == st[i] && all[i + 1] == st[i + 1]; }
    }
  }

  /** A poll in which the copy loop of `d` finishes with bytes accepted: progress that is not published. */
  ghost predicate FinishesWithBytes(d: Direction) {
    d.Valid() && d.state.Running?
    && var o := PollCopy(d.state.copy, d.r, d.w); o.poll.Ready? && o.w.accepted != d.w.accepted
  }

  /** A poll that looks idle is silent exactly if it does not finish a copy loop with bytes. */
  lemma SilentExactly(d: Direction, size: nat)
    requires DirectionOk(d, size) && d.Valid() && LooksIdle(d, CopyDirection(d).0)
    ensures d.w.accepted == CopyDirection(d).0.w.accepted <==> !FinishesWithBytes(d)
  {
    DirectionKept(d, size);
    UnpublishedExactly(d);
    if d.state.Running? {
      PollCopyLossless(d.state.copy, d.r, d.w);
      var o := PollCopy(d.state.copy, d.r, d.w);
      if o.poll.Ready? {
        DirectionKept(Direction(Closing(o.poll.value), o.r, o.w, d.amt), size) by { assert o.s.Held() == []; }
      }
    }
  }

  /** The states of one direction before and after some polls: from the one numbered `j` on each looked
      idle. */
  ghost predicate IdlePolls(ds: seq<Direction>, j: nat, size: nat) {
    && j < |ds| && (forall i :: j <= i < |ds| ==> DirectionOk(ds[i], size) && ds[i].Valid())
    && (forall i :: j <= i < |ds| - 1 ==> ds[i + 1] == CopyDirection(ds[i]).0 && LooksIdle(ds[i], ds[i + 1]))
  }

  /** From state `j` on nothing was accepted. */
  ghost predicate AllSilent(ds: seq<Direction>, j: nat) {
    forall i :: j <= i < |ds| ==> ds[i].w.accepted == ds[|ds| - 1].w.accepted
  }

  /** No poll from the one numbered `j` on finished a copy loop with bytes. */
  ghost predicate NoneFinishes(ds: seq<Direction>, j: nat) {
    forall i :: j <= i < |ds| - 1 ==> !FinishesWithBytes(ds[i])
  }

  lemma {:induction false} NoneFinishesSilent(ds: seq<Direction>, j: nat, size: nat, i: nat)
    requires IdlePolls(ds, j, size) && NoneFinishes(ds, j) && j <= i < |ds|
    ensures ds[i].w.accepted == ds[|ds| - 1].w.accepted
    decreases |ds| - i
  {
    if i < |ds| - 1 {
      NoneFinishesSilent(ds, j, size, i + 1);
      assert ds[i + 1] == CopyDirection(ds[i]).0;
      SilentExactly(ds[i], size);
    }
  }

  /** Over any number of polls that looked idle: silence, exactly if no poll finished with bytes. */
  lemma AllSilentExactly(ds: seq<Direction>, j: nat, size: nat)
    requires IdlePolls(ds, j, size)
    ensures AllSilent(ds, j) <==> NoneFinishes(ds, j)
  {
    if NoneFinishes(ds, j) {
      forall i | j <= i < |ds| ensures ds[i].w.accepted == ds[|ds| - 1].w.accepted {
        NoneFinishesSilent(ds, j, size, i);
      }
    }
    if AllSilent(ds, j) {
      forall i | j <= i < |ds| - 1 ensures !FinishesWithBytes(ds[i]) {
        assert ds[i].w.accepted == ds[|ds| - 1].w.accepted && ds[i + 1].w.accepted == ds[|ds| - 1].w.accepted;
        assert ds[i + 1] == CopyDirection(ds[i]).0;
        SilentExactly(ds[i], size);
      }
    }
  }

  function AbOf(st: seq<RelayState>): seq<Direction> { seq(|st|, i requires 0 <= i < |st| => st[i].ab) }
  function BaOf(st: seq<RelayState>): seq<Direction> { seq(|st|, i requires 0 <= i < |st| => st[i].ba) }

  /** A poll that returns `Pending` or the idle error has polled both directions. */
  lemma BothPolled(x: RelayState, now: nat)
    requires x.Valid() && (RelayPoll(x, now).1.Pending? || RelayPoll(x, now).1 == Failed(IdleTimeout))
    ensures RelayPoll(x, now).0.ab == CopyDirection(x.ab).0 && RelayPoll(x, now).0.ba == CopyDirection(x.ba).0
  {
    NoIdle(x.ab);
    NoIdle(x.ba);
  }

  /** `y` is what a poll of both directions of `x` leaves. */
  ghost predicate PolledTo(x: RelayState, y: RelayState, size: nat) {
    && x.Valid() && DirectionOk(x.ab, size) && DirectionOk(x.ba, size)
    && y.ab == CopyDirection(x.ab).0 && y.ba == CopyDirection(x.ba).0
  }

  lemma RunPolled(size: nat, st: seq<RelayState>, now: seq<nat>, i: nat)
    requires Run(size, st, now) && i < |now|
    ensures PolledTo(st[i], st[i + 1], size)
  {
    RunOk(size, st, now, i);
    assert RelayPoll(st[i], now[i]) == (st[i + 1], Pending);
    BothPolled(st[i], now[i]);
  }

  lemma PolledIdle(all: seq<RelayState>, j: nat, size: nat)
    requires j < |all| && IdleSince(all, j, |all| - 1)
    requires forall i :: j <= i < |all| - 1 ==> PolledTo(all[i], all[i + 1], size)
    requires var y := all[|all| - 1]; y.Valid() && DirectionOk(y.ab, size) && DirectionOk(y.ba, size)
    ensures IdlePolls(AbOf(all), j, size) && IdlePolls(BaOf(all), j, size)
  {
    forall i | j <= i < |all| ensures all[i].Valid() && DirectionOk(all[i].ab, size) && DirectionOk(all[i].ba, size) {
      if i < |all| - 1 { assert PolledTo(all[i], all[i + 1], size); }
    }
    forall i | j <= i < |all| - 1
      ensures all[i + 1].ab == CopyDirection(all[i].ab).0 && LooksIdle(all[i].ab, all[i + 1].ab)
      ensures all[i + 1].ba == CopyDirection(all[i].ba).0 && LooksIdle(all[i].ba, all[i + 1].ba)
    {
      assert PolledTo(all[i], all[i + 1], size);
    }
  }

  lemma AllPolled(size: nat, st: seq<RelayState>, now: seq<nat>, t: nat)
    requires Run(size, st, now) && RelayPoll(st[|now|], t).1 == Failed(IdleTimeout)
    ensures var y := RelayPoll(st[|now|], t).0; y.Valid() && DirectionOk(y.ab, size) && DirectionOk(y.ba, size)
    ensures var all := st + [RelayPoll(st[|now|], t).0];
      forall i :: 0 <= i < |st| ==> PolledTo(all[i], all[i + 1], size)
  {
    RunOk(size, st, now, |now|);
    PollKeeps(st[|now|], t, size);
    BothPolled(st[|now|], t);
    var all := st + [RelayPoll(st[|now|], t).0];
    forall i | 0 <= i < |st| ensures PolledTo(all[i], all[i + 1], size) {
      if i < |now| { RunPolled(size, st, now, i); }
    }
  }

  /** The whole run, exactly: on an idle error, with the timer armed by poll `j`, no byte was accepted
      in a direction since then if and only if no poll from `j` on, the last one included, finished
      that direction's copy loop with bytes accepted. */
  lemma IdleErrorSilentExactly(size: nat, st: seq<RelayState>, now: seq<nat>, t: nat) returns (j: nat)
    requires Run(size, st, now)
    requires RelayPoll(st[|now|], t).1 == Failed(IdleTimeout)
    ensures j < |now| && ArmedBy(st, now, j, |now|) && now[j] + st[0].timeout <= t
    ensures var all := st + [RelayPoll(st[|now|], t).0];
      && (AllSilent(AbOf(all), j) <==> NoneFinishes(AbOf(all), j))
      && (AllSilent(BaOf(all), j) <==> NoneFinishes(BaOf(all), j))
  {
    j := IdleErrorJustified(size, st, now, t);
    var all := st + [RelayPoll(st[|now|], t).0];
    AllPolled(size, st, now, t);
    PolledIdle(all, j, size);
    AllSilentExactly(AbOf(all), j, size);
    AllSilentExactly(BaOf(all), j, size);
  }

  /** When both directions are still running no copy loop has finished, so not a byte was written either
      way since the timer was armed. */
  lemma IdleErrorMeansSilence(size: nat, st: seq<RelayState>, now: seq<nat>, t: nat) returns (j: nat)
    requires Run(size, st, now)
    requires RelayPoll(st[|now|], t).1 == Failed(IdleTimeout)
    requires var y := RelayPoll(st[|now|], t).0; y.ab.state.Running? && y.ba.state.Running?
    ensures j < |now| && now[j] + st[0].timeout <= t
    ensures var y := RelayPoll(st[|now|], t).0;
      forall i :: j <= i < |st| ==>
        st[i].ab.w.accepted == y.ab.w.accepted && st[i].ba.w.accepted == y.ba.w.accepted
  {
    j := IdleErrorJustified(size, st, now, t);
    var all := st + [RelayPoll(st[|now|], t).0];
    forall i | j <= i < |st|
      ensures st[i].ab.w.accepted == all[|st|].ab.w.accepted && st[i].ba.w.accepted == all[|st|].ba.w.accepted
    {
      assert st[i] == all[i];
      SilentBack(all, j, |st|, i);
    }
  }

  lemma {:induction false} SilentBack(all: seq<RelayState>, j: nat, k: nat, i: nat)
    requires j <= i <= k < |all| && IdleSince(all, j, k) && all[k].ab.state.Running? && all[k].ba.state.Running?
    ensures all[i].ab.state.Running? && all[i].ba.state.Running?
    ensures all[i].ab.w.accepted == all[k].ab.w.accepted && all[i].ba.w.accepted == all[k].ba.w.accepted
    decreases k - i
  {
    if i < k { SilentBack(all, j, k, i + 1); }
  }

  /** Both directions are running and a poll wrote nothing either way. */
  ghost predicate Silent(x: RelayState, y: RelayState) {
    && y.ab.state.Running? && y.ba.state.Running?
    && y.ab.w.accepted == x.ab.w.accepted && y.ba.w.accepted == x.ba.w.accepted
  }

  lemma SilentPollKeepsTimer(x: RelayState, now: nat, size: nat)
    requires RelayOk(x, size) && x.Valid() && RelayPoll(x, now).1.Pending? && Silent(x, RelayPoll(x, now).0)
    ensures RelayPoll(x, now).0.sleep == if x.sleep.Some? then x.sleep else Some(now + x.timeout)
  {
    DirectionKept(x.ab, size);
    DirectionKept(x.ba, size);
    PublishedProgressExactly(x.ab, size);
    PublishedProgressExactly(x.ba, size);
  }

  /** What silence does to the timer: an armed one stays, an unarmed one is armed. */
  ghost predicate TimerHeld(x: RelayState, now: nat, timeout: nat, y: RelayState) {
    y.sleep == if x.sleep.Some? then x.sleep else Some(now + timeout)
  }

  lemma RunSilentPoll(size: nat, st: seq<RelayState>, now: seq<nat>, k: nat)
    requires Run(size, st, now) && k < |now| && Silent(st[k], st[k + 1])
    ensures TimerHeld(st[k], now[k], st[0].timeout, st[k + 1])
  {
    RunOk(size, st, now, k);
    assert RelayPoll(st[k], now[k]) == (st[k + 1], Pending);
    SilentPollKeepsTimer(st[k], now[k], size);
  }

  lemma {:induction false} SilenceKeepsTimer(st: seq<RelayState>, now: seq<nat>, timeout: nat, j: nat, k: nat)
    requires j < k < |st| == |now| + 1 && st[j].sleep.None?
    requires forall i :: j <= i < k ==> TimerHeld(st[i], now[i], timeout, st[i + 1])
    ensures st[k].sleep == Some(now[j] + timeout)
  {
    assert TimerHeld(st[k - 1], now[k - 1], timeout, st[k]);
    if j < k - 1 { SilenceKeepsTimer(st, now, timeout, j, k - 1); }
  }

  /** The converse: when a silent poll finds the timer unarmed and all polls since were silent, the first
      silent poll at least `timeout` later returns the idle error. */
  lemma SilenceMeansIdleError(size: nat, st: seq<RelayState>, now: seq<nat>, j: nat, t: nat)
    requires Run(size, st, now) && j < |now| && st[j].sleep.None? && now[j] + st[0].timeout <= t
    requires forall i :: j <= i < |now| ==> Silent(st[i], st[i + 1])
    requires var x := st[|now|];
      && CopyDirection(x.ab).1.Pending? && CopyDirection(x.ba).1.Pending?
      && Silent(x, RelayPoll(x, t).0)
    ensures RelayPoll(st[|now|], t).1 == Failed(IdleTimeout)
  {
    forall i | j <= i < |now| ensures TimerHeld(st[i], now[i], st[0].timeout, st[i + 1]) {
      RunSilentPoll(size, st, now, i);
    }
    SilenceKeepsTimer(st, now, st[0].timeout, j, |now|);
    RunOk(size, st, now, |now|);
    IdleErrorExactly(st[|now|], t, size);
  }

  // A reader that is idle once, then yields one byte and the end of its stream; a writer that takes
  // the byte and the flush and then blocks; and a pair of halves that do nothing.

  function OnceIdle(): ReadHalf { FreshReader(k => if k == 0 then ReadLater else ReadUpTo(1), [7]) }
  function SlowToClose(): WriteHalf { FreshWriter(k => if k < 2 then Accept(1) else WriteLater) }
  function NeverReads(): ReadHalf { FreshReader(k => ReadLater, []) }
  function NeverWrites(): WriteHalf { FreshWriter(k => WriteLater) }

  lemma QuietDirection(d: Direction)
    requires d.Valid() && d.r.plan == NeverReads().plan && d.state.Running?
    requires var s := d.state.copy; s.pos == s.cap && !s.readDone && !s.needFlush && d.amt == s.amt
    ensures CopyDirection(d) == (d.(r := d.r.PollRead(|d.state.copy.buf|).0), Pending)
  {
    assert CopyStep(d.state.copy, d.r, d.w).Return?;
  }

  /** One call reads the byte, writes it, reads the end of the stream and flushes. */
  lemma LastByteCopied(s: CopyState, r: ReadHalf, w: WriteHalf)
    requires s == FreshCopy(1) && r == OnceIdle().PollRead(1).0 && w == SlowToClose()
    ensures var o := PollCopy(s, r, w);
      o.poll == Ready(1) && o.w.accepted == [7] && o.w.plan == w.plan && o.w.calls == 2
  {
    var m1 := CopyStep(s, r, w);
    assert m1.Again? && m1.s.Held() == [7];
    var m2 := CopyStep(m1.s, m1.r, m1.w);
    assert m2.Again? && m2.w.accepted == [7];
    var m3 := CopyStep(m2.s, m2.r, m2.w);
    assert m3.Again? && m3.s.readDone;
    var m4 := CopyStep(m3.s, m3.r, m3.w);
    assert PollCopy(s, r, w) == m4.o;
  }

  lemma LastByteUnpublished(d: Direction)
    requires d == Direction(Running(FreshCopy(1)), OnceIdle().PollRead(1).0, SlowToClose(), 0)
    ensures d.Valid()
    ensures var (d', p) := CopyDirection(d);
      && p == Pending && d'.amt == 0 && d'.w.accepted == [7]
      && d'.state.Closing? && d'.w.plan == SlowToClose().plan && d'.w.calls >= 2
  {
    LastByteCopied(d.state.copy, d.r, d.w);
    var o := PollCopy(d.state.copy, d.r, d.w);
    ClosingWaits(Direction(Closing(1), o.r, o.w, 0));
  }

  /** Not so once a direction is closing: here the very poll that relays a byte, reads the end of the
      stream and waits for the shutdown returns the idle error. */
  lemma IdleErrorDespiteProgress() returns (st: seq<RelayState>, now: seq<nat>, t: nat)
    ensures Run(1, st, now) && RelayPoll(st[|now|], t).1 == Failed(IdleTimeout)
    ensures RelayPoll(st[|now|], t).0.ab.w.accepted != st[|now|].ab.w.accepted
  {
    var x, y := FirstPollArms();
    LastByteUnpublished(y.ab);
    QuietDirection(y.ba);
    st, now, t := [x, y], [0], 9;
  }

  /** The relay of the two witness runs after its first poll, at time 0: the timer is armed for 5. */
  lemma FirstPollArms() returns (x: RelayState, y: RelayState)
    ensures Run(1, [x, y], [0]) && y.sleep == Some(5) && y.Valid()
    ensures y.ab == Direction(Running(FreshCopy(1)), OnceIdle().PollRead(1).0, SlowToClose(), 0)
    ensures y.ba == Direction(Running(FreshCopy(1)), NeverReads().PollRead(1).0, NeverWrites(), 0)
  {
    x := FreshRelay(1, 5, OnceIdle(), NeverWrites(), NeverReads(), SlowToClose());
    assert CopyStep(x.ab.state.copy, x.ab.r, x.ab.w).Return?;
    QuietDirection(x.ba);
    y := RelayPoll(x, 0).0;
  }

  lemma SecondPollRelays(y: RelayState) returns (z: RelayState)
    requires y.sleep == Some(5) && y.Valid()
    requires y.ab == Direction(Running(FreshCopy(1)), OnceIdle().PollRead(1).0, SlowToClose(), 0)
    requires y.ba == Direction(Running(FreshCopy(1)), NeverReads().PollRead(1).0, NeverWrites(), 0)
    ensures RelayPoll(y, 4) == (z, Pending) && z.sleep == Some(5) && z.Valid()
    ensures z.ab.w.accepted == [7] && z.ab.state.Closing? && z.ab.w.plan == SlowToClose().plan && z.ab.w.calls >= 2
    ensures z.ba == y.ba.(r := y.ba.r.PollRead(1).0)
  {
    LastByteUnpublished(y.ab);
    QuietDirection(y.ba);
    TransferValid(y.ab);
    DirectionsAgree(y.ab, 0);
    z := RelayPoll(y, 4).0;
  }

  /** A poll later the idle error can come with nothing accepted in that poll, one tick after a byte: the
      poll at time 4 relays it, and the timer of time 0 runs out at 5. */
  lemma IdleErrorAfterProgress() returns (st: seq<RelayState>, now: seq<nat>, t: nat)
    ensures Run(1, st, now) && now == [0, 4] && t == 5 && RelayPoll(st[2], t).1 == Failed(IdleTimeout)
    ensures st[2].ab.w.accepted != st[1].ab.w.accepted
    ensures var y := RelayPoll(st[2], t).0;
      y.ab.w.accepted == st[2].ab.w.accepted && y.ba.w.accepted == st[2].ba.w.accepted
  {
    var x, y := FirstPollArms();
    var z := SecondPollRelays(y);
    RunExtends(1, [x, y], [0], z, 4);
    QuietDirection(z.ba);
    ClosingWaits(z.ab);
    st, now, t := [x, y] + [z], [0] + [4], 5;
  }

  lemma ClosingWaits(d: Direction)
    requires d.Valid() && d.state.Closing? && d.w.plan == SlowToClose().plan && d.w.calls >= 2
    ensures var (d', p) := CopyDirection(d);
      && p == Pending && d'.amt == d.amt && d'.w.accepted == d.w.accepted
      && d'.state == d.state && d'.w.plan == d.w.plan && d'.w.calls == d.w.calls + 1
  {
  }

  lemma RunExtends(size: nat, st: seq<RelayState>, now: seq<nat>, y: RelayState, t: nat)
    requires Run(size, st, now) && RelayPoll(st[|now|], t) == (y, Pending) && y.Valid()
    ensures Run(size, st + [y], now + [t])
  {
  }

  // ---------------------------------------------------------------------------------------------
  // The timed relay against the simple one

  ghost predicate SameTransfers(x: RelayState, ab: Direction, ba: Direction) {
    x.ab.(amt := 0) == ab && x.ba.(amt := 0) == ba
  }

  /** Polled in matching states the two relays reach matching states and return the same result,
      except that an idle error of the timed relay is `Pending` in the simple one. */
  lemma PollsAgree(x: RelayState, now: nat, ab: Direction, ba: Direction)
    requires x.Valid() && SameTransfers(x, ab, ba)
    ensures ab.Valid() && ba.Valid()
    ensures var (y, p) := RelayPoll(x, now); var (ab', ba', q) := SimplePoll(ab, ba);
      SameTransfers(y, ab', ba') && q == (if p == Failed(IdleTimeout) then Pending else p)
  {
    DirectionsAgree(x.ab, 0);
    DirectionsAgree(x.ba, 0);
    NoIdle(x.ab);
    NoIdle(x.ba);
  }

  lemma {:induction false} NoIdle(d: Direction)
    requires d.Valid()
    ensures CopyDirection(d).1 != Failed(IdleTimeout)
    decreases d.Rank()
  {
    match d.state {
      case Running(copy) =>
        var o := PollCopy(copy, d.r, d.w);
        if o.poll.Ready? { NoIdle(Direction(Closing(o.poll.value), o.r, o.w, d.amt)); }
      case Closing(n) =>
        var (w', down) := d.w.PollShutdown();
        if down.Ready? { NoIdle(d.(state := Done(n), w := w')); }
      case Done(_) =>
    }
  }

  /** The simple relay after `polls` polls from the given directions. */
  function SimpleAfter(ab: Direction, ba: Direction, polls: nat): (res: (Direction, Direction))
    requires ab.Valid() && ba.Valid()
    ensures res.0.Valid() && res.1.Valid()
  {
    if polls == 0 then (ab, ba)
    else
      var (x, y) := SimpleAfter(ab, ba, polls - 1);
      TransferValid(x);
      TransferValid(y);
      var (x', y', _) := SimplePoll(x, y);
      (x', y')
  }

  lemma {:induction false} TransferValid(d: Direction)
    requires d.Valid()
    ensures TransferDirection(d).0.Valid()
    decreases d.Rank()
  {
    match d.state {
      case Running(copy) =>
        var o := PollCopy(copy, d.r, d.w);
        if o.poll.Ready? { TransferValid(d.(state := Closing(o.poll.value), r := o.r, w := o.w)); }
      case Closing(n) =>
        var (w', down) := d.w.PollShutdown();
        if down.Ready? { TransferValid(d.(state := Done(n), w := w')); }
      case Done(_) =>
    }
  }

  lemma {:induction false} RunsAgree(size: nat, st: seq<RelayState>, now: seq<nat>, k: nat)
    requires Run(size, st, now) && k < |st|
    ensures SameTransfers(st[k], SimpleAfter(st[0].ab, st[0].ba, k).0, SimpleAfter(st[0].ab, st[0].ba, k).1)
  {
    if k > 0 {
      RunsAgree(size, st, now, k - 1);
      var (ab, ba) := SimpleAfter(st[0].ab, st[0].ba, k - 1);
      PollsAgree(st[k - 1], now[k - 1], ab, ba);
      assert RelayPoll(st[k - 1], now[k - 1]) == (st[k], Pending);
    }
  }

  /** At every poll of every run the two relays have the same transfer states and the same reader and
      writer histories, and the next poll returns the same result unless the idle timer fires. */
  lemma RelaysAgree(size: nat, st: seq<RelayState>, now: seq<nat>, k: nat, t: nat)
    requires Run(size, st, now) && k < |st|
    ensures var (ab, ba) := SimpleAfter(st[0].ab, st[0].ba, k);
      var (ab', ba', q) := SimplePoll(ab, ba);
      && SameTransfers(st[k], ab, ba) && SameTransfers(RelayPoll(st[k], t).0, ab', ba')
      && q == (if RelayPoll(st[k], t).1 == Failed(IdleTimeout) then Pending else RelayPoll(st[k], t).1)
  {
    RunsAgree(size, st, now, k);
    var (ab, ba) := SimpleAfter(st[0].ab, st[0].ba, k);
    PollsAgree(st[k], t, ab, ba);
  }
}
