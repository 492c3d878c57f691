/** `cancelable.rs`: a flag-and-waker protocol between a polled task and the holder of its handle.

    Polls and cancels interleave at each atomic access: flag load, inner poll, waker registration,
    flag store, wake. */
module Cancel {
  import opened Io

  datatype Result<+T> = Yielded(value: T) | Cancelled

  /** Where the task stands: not being polled, past a flag load that saw it clear, past a pending inner
      poll, or parked after registering its waker. */
  datatype TaskPc<+T> = Idle | Loaded | Unregistered | Parked | Finished(result: Result<T>)

  datatype CancelPc = Quiet | Stored

  /** `woken`: a cancel's wake has reached the task since its latest poll began.  The remaining fields
      are history: the number of inner polls and of registrations, a clock of atomic accesses, and
      when the latest load and registration, the first store and the latest wake took place. */
  datatype Cell<+T> = Cell(flag: bool, waker: bool, woken: bool, pc: TaskPc<T>, cancel: CancelPc,
                           innerPolls: nat, registrations: nat, clock: nat,
                           loadAt: nat, registerAt: nat, storeAt: Option<nat>, wakeAt: Option<nat>)

  function NewCell<T>(): Cell<T> {
    Cell(false, false, false, Idle, Quiet, 0, 0, 0, 0, 0, None, None)
  }

  datatype Step<+T> = Load | PollInner(answer: Option<T>) | Register | Store | Wake

  predicate Enabled<T>(s: Cell<T>, step: Step<T>) {
    match step
    case Load => s.pc.Idle? || s.pc.Parked? || s.pc.Finished?
    case PollInner(_) => s.pc.Loaded?
    case Register => s.pc.Unregistered?
    case Store => s.cancel.Quiet?
    case Wake => s.cancel.Stored?
  }

  function Next<T>(s: Cell<T>, step: Step<T>): Cell<T>
    requires Enabled(s, step)
  {
    var t := s.(clock := s.clock + 1);
    match step
    case Load => t.(woken := false, loadAt := s.clock, pc := if s.flag then Finished(Cancelled) else Loaded)
    case PollInner(answer) =>
      t.(innerPolls := s.innerPolls + 1, pc := if answer.Some? then Finished(Yielded(answer.value)) else Unregistered)
    case Register => t.(waker := true, registrations := s.registrations + 1, registerAt := s.clock, pc := Parked)
    case Store => t.(flag := true, cancel := Stored, storeAt := if s.storeAt.None? then Some(s.clock) else s.storeAt)
    case Wake => t.(cancel := Quiet, waker := false, woken := s.woken || s.waker, wakeAt := Some(s.clock))
  }

  function After<T>(steps: seq<Step<T>>): Option<Cell<T>> {
    if steps == [] then Some(NewCell())
    else
      var s := After(steps[..|steps| - 1]);
      if s.Some? && Enabled(s.value, steps[|steps| - 1]) then Some(Next(s.value, steps[|steps| - 1])) else None
  }

  ghost predicate Inv<T>(s: Cell<T>) {
    && (s.flag <==> s.storeAt.Some?) && (s.cancel.Stored? ==> s.flag)
    && (s.pc.Loaded? || s.pc.Unregistered? || s.pc.Parked? ==> s.loadAt < s.clock)
    && (s.storeAt.Some? ==> s.storeAt.value < s.clock)
    && (s.wakeAt.Some? ==> s.storeAt.Some? && s.storeAt.value < s.wakeAt.value < s.clock)
    && (s.flag && s.cancel.Quiet? ==> s.wakeAt.Some?)
    && (s.flag && (s.pc.Loaded? || s.pc.Unregistered? || s.pc.Parked?) ==> s.loadAt < s.storeAt.value)
    && (s.pc.Parked? ==> s.registrations > 0 && s.registerAt < s.clock)
    && (s.pc.Parked? && !s.woken ==> s.waker)
    && (s.pc.Parked? && s.waker && s.wakeAt.Some? ==> s.wakeAt.value < s.registerAt)
    && (s.registrations == 0 ==> !s.waker && !s.woken)
    && (s.registrations == 1 && s.pc.Parked? && s.woken ==> s.wakeAt.Some? && s.registerAt < s.wakeAt.value)
    && (s.wakeAt.None? ==> !s.woken) && (s.registrations > 0 && s.wakeAt.None? ==> s.waker)
    && (s.registrations > 0 && s.wakeAt.Some? && (s.pc.Loaded? || s.pc.Unregistered?) ==> s.woken)
    && (s.registrations > 1 && s.wakeAt.Some? && s.pc.Parked? ==> s.woken)
  }

  lemma StepKeeps<T>(s: Cell<T>, step: Step<T>)
    requires Inv(s) && Enabled(s, step)
    ensures Inv(Next(s, step))
  {
  }

  lemma {:induction false} Reachable<T>(steps: seq<Step<T>>)
    ensures After(steps).Some? ==> Inv(After(steps).value)
  {
    if steps != [] && After(steps).Some? {
      Reachable(steps[..|steps| - 1]);
      StepKeeps(After(steps[..|steps| - 1]).value, steps[|steps| - 1]);
    }
  }

  /** The task sleeps although a cancel has run to completion, and no wake will come of it. */
  predicate Stranded<T>(s: Cell<T>) { s.pc.Parked? && s.flag && s.cancel.Quiet? && !s.woken }

  /** A stranded task has just registered its waker for the first time, and every cancel, from first
      store to last wake, fell between the flag load of that poll and the registration. */
  lemma StrandedOnlyInTheGap<T>(steps: seq<Step<T>>)
    requires After(steps).Some? && Stranded(After(steps).value)
    ensures var s := After(steps).value;
      && s.registrations == 1 && s.storeAt.Some? && s.wakeAt.Some?
      && s.loadAt < s.storeAt.value < s.wakeAt.value < s.registerAt
  {
    Reachable(steps);
  }

  /** Of all tasks that sleep when a cancel has run to completion, exactly those are stranded whose first
      registration came after the last wake.  A task that has slept before is never stranded. */
  lemma StrandedExactly<T>(steps: seq<Step<T>>)
    requires After(steps).Some?
    requires var s := After(steps).value; s.pc.Parked? && s.flag && s.cancel.Quiet?
    ensures var s := After(steps).value;
      Stranded(s) <==> s.registrations == 1 && s.wakeAt.Some? && s.wakeAt.value < s.registerAt
  {
    Reachable(steps);
  }

  /** Such a run exists: load, inner poll pending, store, wake, register. */
  lemma StrandedIsReachable() returns (steps: seq<Step<nat>>)
    ensures After(steps).Some? && Stranded(After(steps).value)
  {
    var s1: seq<Step<nat>> := [Load];
    var s2 := s1 + [PollInner(None)];
    var s3 := s2 + [Store];
    var s4 := s3 + [Wake];
    steps := s4 + [Register];
    assert s1[..0] == [] && s2[..1] == s1 && s3[..2] == s2 && s4[..3] == s3 && steps[..4] == s4;
    var c1 := Next(NewCell<nat>(), Load);
    assert After(s1) == Some(c1);
    var c2 := Next(c1, PollInner(None));
    assert After(s2) == Some(c2);
    var c3 := Next(c2, Store);
    assert After(s3) == Some(c3);
    var c4 := Next(c3, Wake);
    assert After(s4) == Some(c4);
    assert After(steps) == Some(Next(c4, Register));
  }

  /** Once the flag is set every later poll returns `Cancelled`; only a poll that had already loaded the
      flag can still poll the inner future, once, and yield its value. */
  lemma {:induction false} CancelIsFinal<T>(before: seq<Step<T>>, later: seq<Step<T>>)
    requires After(before).Some? && After(before + later).Some?
    requires After(before).value.flag
    ensures var s, t := After(before).value, After(before + later).value;
      && t.flag && (later != [] && later[|later| - 1].Load? ==> t.pc == Finished(Cancelled))
      && t.innerPolls == s.innerPolls + (if s.pc.Loaded? && !t.pc.Loaded? then 1 else 0)
      && (t.pc.Loaded? ==> s.pc.Loaded?)
      && (t.pc.Finished? && t.pc.result.Yielded? ==> s.pc.Loaded? || t.pc == s.pc)
  {
    if later == [] {
      assert before + later == before;
    } else {
      var all := before + later;
      assert all[..|all| - 1] == before + later[..|later| - 1];
      CancelIsFinal(before, later[..|later| - 1]);
    }
  }

  /** `Cancelable` and its `CancelHandle`, each call run without interleaving. */
  class Cancelable<T> {
    var cancelled: bool
    var waker: bool
    var woken: bool
    var innerPolls: nat

    constructor ()
      ensures !cancelled && !waker && !woken && innerPolls == 0
    { cancelled, waker, woken, innerPolls := false, false, false, 0; }

    /** The shared state agrees with a protocol state. */
    ghost predicate Shows(s: Cell<T>)
      reads this
    { s.flag == cancelled && s.waker == waker && s.woken == woken && s.innerPolls == innerPolls }

    /** `cancel`, also what dropping the handle does. */
    method Cancel(ghost s: Cell<T>)
      requires Shows(s) && s.cancel.Quiet?
      modifies this
      ensures Shows(Next(Next(s, Store), Wake))
      ensures cancelled && !waker && woken == old(woken || waker) && innerPolls == old(innerPolls)
    {
      cancelled := true;
      if waker { woken := true; }
      waker := false;
    }

    /** `Future::poll`, with what the inner future answers if it is polled. */
    method Poll(inner: Option<T>, ghost s: Cell<T>) returns (r: Option<Result<T>>, ghost s': Cell<T>)
      requires Shows(s) && Enabled(s, Load)
      modifies this
      ensures Shows(s') && (if r.Some? then s'.pc == Finished(r.value) else s'.pc.Parked?)
      ensures r == (if old(cancelled) then Some(Cancelled) else if inner.Some? then Some(Yielded(inner.value)) else None)
      ensures innerPolls == old(innerPolls) + (if old(cancelled) then 0 else 1) && cancelled == old(cancelled)
      ensures waker == (old(waker) || r.None?) && !woken
      ensures s' == var a := Next(s, Load);
                    if a.pc.Finished? then a
                    else var b := Next(a, PollInner(inner)); if b.pc.Finished? then b else Next(b, Register)
    {
      s' := Next(s, Load);
      woken := false;
      if cancelled { return Some(Cancelled), s'; }
      innerPolls := innerPolls + 1;
      s' := Next(s', PollInner(inner));
      match inner {
        case Some(v) => r := Some(Yielded(v));
        case None =>
          waker := true;
          s' := Next(s', Register);
          r := None;
      }
    }
  }

  /** A stream's item: an exhausted inner stream ends the stream. */
  function AsItem<T>(r: Result<Option<T>>): Option<Result<T>> {
    match r
    case Cancelled => Some(Cancelled)
    case Yielded(None) => None
    case Yielded(Some(v)) => Some(Yielded(v))
  }

  /** `Stream::poll_next`: pending as `poll` is, and otherwise the item of what `poll` returns. */
  method PollNext<T>(stream: Cancelable<Option<T>>, inner: Option<Option<T>>, ghost s: Cell<Option<T>>)
    returns (r: Option<Option<Result<T>>>, ghost s': Cell<Option<T>>)
    requires stream.Shows(s) && Enabled(s, Load)
    modifies stream
    ensures stream.Shows(s') && (s'.pc.Finished? || s'.pc.Parked?)
    ensures s'.innerPolls == s.innerPolls + (if s.flag then 0 else 1)
    ensures r == if s.flag then Some(Some(Cancelled))
                 else match inner
                      case None => None
                      case Some(None) => Some(None)
                      case Some(Some(v)) => Some(Some(Yielded(v)))
  {
    var p;
    p, s' := stream.Poll(inner, s);
    r := if p.Some? then Some(AsItem(p.value)) else None;
  }
}
