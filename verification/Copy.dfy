/** `net/copy.rs`: one direction of a relay, from a buffered re-entrant copy loop up to the
    `Running -> Shuttingdow -> Done` machine. */
module Copy {
  import opened Io

  /** The fields of `CopyBuf`. */
  datatype CopyState = CopyState(readDone: bool, needFlush: bool, pos: nat, cap: nat, amt: nat, buf: Bytes)
  {
    ghost predicate Valid() { pos <= cap <= |buf| }

    function Held(): Bytes requires Valid() { buf[pos..cap] }
  }

  datatype CopyOutcome = CopyOutcome(s: CopyState, r: ReadHalf, w: WriteHalf, poll: Poll<nat>)

  /** One decision of the `poll_copy` loop: go round again, or return. */
  datatype CopyMove = Again(s: CopyState, r: ReadHalf, w: WriteHalf) | Return(o: CopyOutcome)

  function CopyStep(s: CopyState, r: ReadHalf, w: WriteHalf): (m: CopyMove)
    requires s.Valid() && r.Valid()
    ensures m.Return? ==> m.o.s.Valid() && m.o.r.Valid() && m.o.poll != Failed(IdleTimeout)
    ensures m.Again? ==> m.s.Valid() && m.r.Valid()
    ensures m.Again? ==>
      (r.Unread(), !s.readDone, s.cap - s.pos decreases to m.r.Unread(), !m.s.readDone, m.s.cap - m.s.pos)
  {
    if s.pos == s.cap && !s.readDone then
      var (r', got) := r.PollRead(|s.buf|);
      match got
      case Failed(e) => Return(CopyOutcome(s, r', w, Failed(e)))
      case Pending =>
        if !s.needFlush then Return(CopyOutcome(s, r', w, Pending))
        else
          var (w', fl) := w.PollFlush();
          if fl.Ready? then Return(CopyOutcome(s.(needFlush := false), r', w', Pending))
          else Return(CopyOutcome(s, r', w', fl))
      case Ready(data) =>
        if data == [] then Again(s.(readDone := true), r', w)
        else Again(s.(pos := 0, cap := |data|, buf := data + s.buf[|data|..]), r', w)
    else if s.pos < s.cap then
      var (w', put) := w.PollWrite(s.Held());
      match put
      case Failed(e) => Return(CopyOutcome(s, r, w', Failed(e)))
      case Pending => Return(CopyOutcome(s, r, w', Pending))
      case Ready(n) =>
        if n == 0 then Return(CopyOutcome(s, r, w', Failed(WriteZero)))
        else Again(s.(pos := s.pos + n, amt := s.amt + n, needFlush := true), r, w')
    else
      var (w', fl) := w.PollFlush();
      match fl
      case Failed(e) => Return(CopyOutcome(s, r, w', Failed(e)))
      case Pending => Return(CopyOutcome(s, r, w', Pending))
      case Ready(_) => Return(CopyOutcome(s, r, w', Ready(s.amt)))
  }

  /** The transition that one call of `poll_copy` makes.  The measure shows that the call returns
      on every finite source, whatever the plans of the two halves. */
  function PollCopy(s: CopyState, r: ReadHalf, w: WriteHalf): (o: CopyOutcome)
    requires s.Valid() && r.Valid()
    ensures o.s.Valid() && o.r.Valid() && o.poll != Failed(IdleTimeout)
    decreases r.Unread(), !s.readDone, s.cap - s.pos
  {
    match CopyStep(s, r, w)
    case Again(s', r', w') => PollCopy(s', r', w')
    case Return(o) => o
  }

  /** Nothing lost, duplicated or reordered: what was read is what was accepted followed by what is
      still held.  A clear `needFlush` means every accepted byte is flushed. */
  ghost predicate Lossless(s: CopyState, r: ReadHalf, w: WriteHalf) {
    && s.Valid() && r.Valid()
    && r.source[..r.taken] == w.accepted + s.Held()
    && s.amt == |w.accepted|
    && w.flushed <= |w.accepted| && (!s.needFlush ==> w.flushed == |w.accepted|)
    && s.readDone == r.sawEof && r.lateReads == 0
    && !w.shut && w.lateCalls == 0
    && (s.readDone ==> s.pos == s.cap && (s.buf != [] ==> r.taken == |r.source|))
    && (s.buf == [] ==> r.taken == 0)
  }

  /** Why a copy loop may stop: on `Ready` everything read so far is written and flushed; on
      `Pending` a sub-poll of this very call was pending, and an idle reader leaves unflushed bytes
      only behind a pending flush. */
  ghost predicate Explained(o: CopyOutcome) {
    match o.poll
    case Ready(n) => o.s.readDone && o.s.pos == o.s.cap && n == |o.w.accepted| == o.w.flushed
    case Pending =>
      if o.s.pos < o.s.cap then o.w.blocked == Writing
      else if o.s.readDone then o.w.blocked == Flushing
      else o.r.waiting && (if o.s.needFlush then o.w.blocked == Flushing else o.w.flushed == |o.w.accepted|)
    case Failed(_) => true
  }

  /** What every decision of the loop keeps. */
  ghost predicate MoveLossless(m: CopyMove, s: CopyState, r: ReadHalf, w: WriteHalf) {
    match m
    case Again(s', r', w') =>
      Lossless(s', r', w') && r'.source == r.source && |s'.buf| == |s.buf| && w.accepted <= w'.accepted
    case Return(o) =>
      Lossless(o.s, o.r, o.w) && Explained(o)
      && o.r.source == r.source && |o.s.buf| == |s.buf| && w.accepted == o.w.accepted
  }

  lemma ReadStepLossless(s: CopyState, r: ReadHalf, w: WriteHalf)
    requires Lossless(s, r, w) && s.pos == s.cap && !s.readDone
    ensures MoveLossless(CopyStep(s, r, w), s, r, w)
  {
    var (r', got) := r.PollRead(|s.buf|);
    assert w.accepted + s.Held() == w.accepted;
    if got.Ready? && got.value != [] {
      var m := CopyStep(s, r, w);
      assert m.s.Held() == got.value;
    }
  }

  lemma WriteStepLossless(s: CopyState, r: ReadHalf, w: WriteHalf)
    requires Lossless(s, r, w) && s.pos < s.cap
    ensures MoveLossless(CopyStep(s, r, w), s, r, w)
  {
    var (w', put) := w.PollWrite(s.Held());
    if put.Ready? && put.value > 0 {
      var m := CopyStep(s, r, w);
      assert s.Held() == s.Held()[..put.value] + m.s.Held();
      assert m.w.accepted + m.s.Held() == w.accepted + s.Held();
    } else if put.Ready? {
      assert w'.accepted == w.accepted + [];
    }
  }

  lemma CopyStepLossless(s: CopyState, r: ReadHalf, w: WriteHalf)
    requires Lossless(s, r, w)
    ensures MoveLossless(CopyStep(s, r, w), s, r, w)
  {
    if s.pos == s.cap && !s.readDone {
      ReadStepLossless(s, r, w);
    } else if s.pos < s.cap {
      WriteStepLossless(s, r, w);
    }
  }

  lemma {:induction false} PollCopyLossless(s: CopyState, r: ReadHalf, w: WriteHalf)
    requires Lossless(s, r, w)
    ensures var o := PollCopy(s, r, w);
      Lossless(o.s, o.r, o.w) && Explained(o)
      && o.r.source == r.source && |o.s.buf| == |s.buf| && w.accepted <= o.w.accepted
    decreases r.Unread(), !s.readDone, s.cap - s.pos
  {
    CopyStepLossless(s, r, w);
    var m := CopyStep(s, r, w);
    if m.Again? { PollCopyLossless(m.s, m.r, m.w); }
  }

  // ---------------------------------------------------------------------------------------------
  // What a call returns

  /** The answer to the latest call since call number `from`, if there was one. */
  function LastRead(from: nat, r: ReadHalf): Option<ReadAnswer> {
    if from < r.calls then Some(r.plan(r.calls - 1)) else None
  }

  function LastWrite(from: nat, w: WriteHalf): Option<WriteAnswer> {
    if from < w.calls then Some(w.plan(w.calls - 1)) else None
  }

  /** Every sub-poll but the latest of each half was answered in a way that lets the call go on. */
  ghost predicate GoesOn(r: ReadHalf, w: WriteHalf, r': ReadHalf, w': WriteHalf) {
    && r'.plan == r.plan && r.calls <= r'.calls && w'.plan == w.plan && w.calls <= w'.calls
    && (forall k :: r.calls <= k < r'.calls - 1 ==> r.plan(k).ReadUpTo?)
    && (forall k :: w.calls <= k < w'.calls - 1 ==> w.plan(k).Accept?)
  }

  /** What the two latest answers make of a call that has written `amt` bytes in all and still has bytes
      to write if `held`. */
  function Verdict(read: Option<ReadAnswer>, write: Option<WriteAnswer>, held: bool, amt: nat): Poll<nat> {
    if read == Some(ReadError) then Failed(ReadFailed)
    else if write == Some(WriteError) then Failed(if held then WriteFailed else FlushFailed)
    else if write == Some(Accept(0)) && held then Failed(WriteZero)
    else if read == Some(ReadLater) || write == Some(WriteLater) then Pending
    else Ready(amt)
  }

  /** A call fails, waits or is ready exactly as its latest sub-polls were answered. */
  ghost predicate Answered(r: ReadHalf, w: WriteHalf, o: CopyOutcome) {
    && GoesOn(r, w, o.r, o.w)
    && o.poll == Verdict(LastRead(r.calls, o.r), LastWrite(w.calls, o.w), o.s.pos < o.s.cap, o.s.amt)
    && (o.poll.Ready? ==> w.calls < o.w.calls)
  }

  /** A round that goes on has made one call, answered with bytes read or bytes taken. */
  ghost predicate OneGoodCall(r: ReadHalf, w: WriteHalf, r': ReadHalf, w': WriteHalf) {
    && r'.plan == r.plan && w'.plan == w.plan
    && ((w' == w && r'.calls == r.calls + 1 && r.plan(r.calls).ReadUpTo?)
        || (r' == r && w'.calls == w.calls + 1 && w.plan(w.calls).Accept? && w.plan(w.calls).max > 0))
  }

  lemma StepAnswered(s: CopyState, r: ReadHalf, w: WriteHalf)
    requires s.Valid() && r.Valid()
    ensures var m := CopyStep(s, r, w);
      if m.Again? then OneGoodCall(r, w, m.r, m.w) else Answered(r, w, m.o)
  {
  }

  lemma AnsweredBefore(r: ReadHalf, w: WriteHalf, r': ReadHalf, w': WriteHalf, o: CopyOutcome)
    requires OneGoodCall(r, w, r', w') && Answered(r', w', o)
    ensures Answered(r, w, o)
  {
  }

  /** An empty buffer is refilled with as many bytes as the reader gives and the buffer holds; none mean the
      end of the stream. */
  lemma RefillExactly(s: CopyState, r: ReadHalf, w: WriteHalf)
    requires s.Valid() && r.Valid() && s.pos == s.cap && !s.readDone && r.plan(r.calls).ReadUpTo?
    ensures var m := CopyStep(s, r, w); var n := Min(Min(r.plan(r.calls).max, |s.buf|), r.Unread());
      && m.Again? && m.w == w && m.s.amt == s.amt && m.s.needFlush == s.needFlush && |m.s.buf| == |s.buf|
      && m.r.taken == r.taken + n && m.r.source == r.source && m.s.readDone == (n == 0)
      && m.s.Held() == r.source[r.taken..r.taken + n]
  {
  }

  /** While the reader is idle the writer is called only to flush what has been written since the latest
      flush. */
  lemma IdleExactly(s: CopyState, r: ReadHalf, w: WriteHalf)
    requires s.Valid() && r.Valid() && s.pos == s.cap && !s.readDone && !r.plan(r.calls).ReadUpTo?
    ensures var m := CopyStep(s, r, w); var flush := s.needFlush && r.plan(r.calls).ReadLater?;
      && m.Return? && m.o.r.taken == r.taken && m.o.w.accepted == w.accepted
      && m.o.w.calls == w.calls + (if flush then 1 else 0) && (!flush ==> m.o.w == w)
      && m.o.s == s.(needFlush := s.needFlush && !(flush && w.plan(w.calls).Accept?))
      && (flush && w.plan(w.calls).Accept? ==> m.o.w.flushed == |w.accepted|)
  {
  }

  /** Held bytes are all offered, and as many go as the writer takes. */
  lemma OfferExactly(s: CopyState, r: ReadHalf, w: WriteHalf)
    requires s.Valid() && r.Valid() && s.pos < s.cap && w.plan(w.calls).Accept? && w.plan(w.calls).max > 0
    ensures var m := CopyStep(s, r, w); var n := Min(w.plan(w.calls).max, |s.Held()|);
      && m.Again? && m.r == r && m.s.needFlush && m.s.readDone == s.readDone && m.s.amt == s.amt + n
      && m.w.accepted == w.accepted + s.Held()[..n] && m.s.Held() == s.Held()[n..]
  {
  }

  /** The result of every call, exactly. */
  lemma {:induction false} PollCopyExactly(s: CopyState, r: ReadHalf, w: WriteHalf)
    requires s.Valid() && r.Valid()
    ensures Answered(r, w, PollCopy(s, r, w))
    decreases r.Unread(), !s.readDone, s.cap - s.pos
  {
    StepAnswered(s, r, w);
    var m := CopyStep(s, r, w);
    if m.Again? {
      PollCopyExactly(m.s, m.r, m.w);
      AnsweredBefore(r, w, m.r, m.w, PollCopy(m.s, m.r, m.w));
    }
  }

  /** Streams that never fail and never take zero bytes. */
  ghost predicate Healthy(rp: nat -> ReadAnswer, wp: nat -> WriteAnswer) {
    && (forall k :: !rp(k).ReadError?)
    && (forall k :: !wp(k).WriteError? && wp(k) != Accept(0))
  }

  /** Streams that never wait either. */
  ghost predicate Prompt(rp: nat -> ReadAnswer, wp: nat -> WriteAnswer) {
    (forall k :: rp(k).ReadUpTo?) && (forall k :: wp(k).Accept? && wp(k).max > 0)
  }

  lemma HealthyPoll(s: CopyState, r: ReadHalf, w: WriteHalf)
    requires s.Valid() && r.Valid()
    ensures var o := PollCopy(s, r, w);
      && o.r.plan == r.plan && o.w.plan == w.plan
      && (Healthy(r.plan, w.plan) ==> !o.poll.Failed?) && (Prompt(r.plan, w.plan) ==> o.poll.Ready?)
  {
    PollCopyExactly(s, r, w);
  }

  function FreshCopy(size: nat): CopyState {
    CopyState(false, false, 0, 0, 0, seq(size, _ => 0))
  }

  /** The state after `polls` calls, whatever each of them returned. */
  function CopyAfter(size: nat, r: ReadHalf, w: WriteHalf, polls: nat): (o: CopyOutcome)
    requires r.Valid()
    ensures o.s.Valid() && o.r.Valid()
  {
    if polls == 0 then CopyOutcome(FreshCopy(size), r, w, Pending)
    else
      var o := CopyAfter(size, r, w, polls - 1);
      PollCopy(o.s, o.r, o.w)
  }

  /** Over any number of polls, with errors and re-polls after errors included, the bytes accepted
      followed by the bytes held are exactly the bytes read, and the count is exact. */
  lemma {:induction false} CopyNeverLosesBytes(size: nat, rp: nat -> ReadAnswer, source: Bytes,
                                               wp: nat -> WriteAnswer, polls: nat)
    ensures var o := CopyAfter(size, FreshReader(rp, source), FreshWriter(wp), polls);
      Lossless(o.s, o.r, o.w) && o.r.source == source && |o.s.buf| == size
      && (polls > 0 ==> Explained(o))
  {
    if polls > 0 {
      CopyNeverLosesBytes(size, rp, source, wp, polls - 1);
      var o := CopyAfter(size, FreshReader(rp, source), FreshWriter(wp), polls - 1);
      PollCopyLossless(o.s, o.r, o.w);
    }
  }

  lemma {:induction false} CopyPlans(size: nat, r: ReadHalf, w: WriteHalf, polls: nat)
    requires r.Valid()
    ensures CopyAfter(size, r, w, polls).r.plan == r.plan && CopyAfter(size, r, w, polls).w.plan == w.plan
  {
    if polls > 0 {
      CopyPlans(size, r, w, polls - 1);
      var o := CopyAfter(size, r, w, polls - 1);
      HealthyPoll(o.s, o.r, o.w);
    }
  }

  /** Between healthy streams a copy never fails, however often it is polled; between prompt ones the first
      poll finishes it. */
  lemma HealthyCopyNeverFails(size: nat, rp: nat -> ReadAnswer, source: Bytes, wp: nat -> WriteAnswer, polls: nat)
    ensures var o := CopyAfter(size, FreshReader(rp, source), FreshWriter(wp), polls);
      (Healthy(rp, wp) ==> !o.poll.Failed?) && (Prompt(rp, wp) && polls > 0 ==> o.poll.Ready?)
  {
    if polls > 0 {
      CopyPlans(size, FreshReader(rp, source), FreshWriter(wp), polls - 1);
      var o := CopyAfter(size, FreshReader(rp, source), FreshWriter(wp), polls - 1);
      HealthyPoll(o.s, o.r, o.w);
    }
  }

  /** A completed copy delivered the whole stream exactly when the buffer has room or the stream is
      empty: a zero-sized buffer makes the first read look like the end of the stream. */
  lemma CopyCompleteExactly(size: nat, rp: nat -> ReadAnswer, source: Bytes, wp: nat -> WriteAnswer, polls: nat)
    requires polls > 0
    requires CopyAfter(size, FreshReader(rp, source), FreshWriter(wp), polls).poll.Ready?
    ensures var o := CopyAfter(size, FreshReader(rp, source), FreshWriter(wp), polls);
      (o.w.accepted == source && o.poll.value == |source|) <==> (size > 0 || source == [])
  {
    CopyNeverLosesBytes(size, rp, source, wp, polls);
    var o := CopyAfter(size, FreshReader(rp, source), FreshWriter(wp), polls);
    assert o.s.Held() == [];
    assert size > 0 ==> o.r.source[..o.r.taken] == source;
  }

  // ---------------------------------------------------------------------------------------------
  // One direction

  datatype Transfer = Running(copy: CopyState) | Closing(count: nat) | Done(count: nat)

  /** A `CopyOneDirection` together with the halves it drives. */
  datatype Direction = Direction(state: Transfer, r: ReadHalf, w: WriteHalf, amt: nat)
  {
    ghost predicate Valid() { r.Valid() && (state.Running? ==> state.copy.Valid()) }

    function Rank(): nat { if state.Running? then 2 else if state.Closing? then 1 else 0 }
  }

  function FreshDirection(size: nat, r: ReadHalf, w: WriteHalf): Direction {
    Direction(Running(FreshCopy(size)), r, w, 0)
  }

  /** `CopyOneDirection::copy`: the running total is published only when the copy loop is pending. */
  function CopyDirection(d: Direction): (Direction, Poll<nat>)
    requires d.Valid()
    decreases d.Rank()
  {
    match d.state
    case Running(copy) =>
      var o := PollCopy(copy, d.r, d.w);
      (match o.poll
       case Ready(n) => CopyDirection(Direction(Closing(n), o.r, o.w, d.amt))
       case Pending => (Direction(Running(o.s), o.r, o.w, o.s.amt), Pending)
       case Failed(e) => (Direction(Running(o.s), o.r, o.w, d.amt), Failed(e)))
    case Closing(n) =>
      var (w', down) := d.w.PollShutdown();
      (match down
       case Ready(_) => CopyDirection(d.(state := Done(n), w := w'))
       case Pending => (d.(w := w'), Pending)
       case Failed(e) => (d.(w := w'), Failed(e)))
    case Done(n) => (d, Ready(n))
  }

  /** `transfer_one_direction`: the same machine without a running total. */
  function TransferDirection(d: Direction): (Direction, Poll<nat>)
    requires d.Valid()
    decreases d.Rank()
  {
    match d.state
    case Running(copy) =>
      var o := PollCopy(copy, d.r, d.w);
      if o.poll.Ready? then TransferDirection(d.(state := Closing(o.poll.value), r := o.r, w := o.w))
      else (d.(state := Running(o.s), r := o.r, w := o.w), o.poll)
    case Closing(n) =>
      var (w', down) := d.w.PollShutdown();
      if down.Ready? then TransferDirection(d.(state := Done(n), w := w')) else (d.(w := w'), down)
    case Done(n) => (d, Ready(n))
  }

  /** The whole stream went through and was flushed; `size` is the buffer size. */
  ghost predicate Delivered(d: Direction, size: nat, count: nat) {
    && d.r.Valid() && d.r.sawEof && d.r.lateReads == 0
    && d.w.accepted == d.r.source[..d.r.taken]
    && count == |d.w.accepted| == d.w.flushed
    && (size > 0 ==> d.r.taken == |d.r.source|)
  }

  ghost predicate DirectionOk(d: Direction, size: nat) {
    match d.state
    case Running(copy) => Lossless(copy, d.r, d.w) && |copy.buf| == size && d.amt <= copy.amt
    case Closing(n) => Delivered(d, size, n) && !d.w.shut && d.w.lateCalls == 0
    case Done(n) => Delivered(d, size, n) && d.w.shut && d.w.shutAt == n && d.w.lateCalls == 0
  }

  /** The published total is current.  It holds as long as no poll failed. */
  ghost predicate Synced(d: Direction) { d.state.Running? ==> d.amt == d.state.copy.amt }

  /** What one poll of a direction keeps and may change. */
  ghost predicate Advance(d: Direction, d': Direction, p: Poll<nat>, size: nat) {
    && DirectionOk(d', size) && d'.Valid()
    && d'.r.source == d.r.source && d.w.accepted <= d'.w.accepted && d'.Rank() <= d.Rank()
    && (p.Ready? <==> d'.state.Done?) && (p.Ready? ==> p.value == d'.state.count)
    && (!d.state.Running? ==> d'.w.accepted == d.w.accepted && d'.amt == d.amt)
    && (d.state.Done? ==> d' == d)
    && (Synced(d) && !p.Failed? ==> Synced(d'))
    && (p.Pending? && d'.state.Closing? ==> d'.w.blocked == ShuttingDown)
    && p != Failed(IdleTimeout)
  }

  lemma DoneKept(d: Direction, size: nat)
    requires DirectionOk(d, size) && d.state.Done?
    ensures Advance(d, d, Ready(d.state.count), size)
  {
  }

  lemma ClosingKept(d: Direction, size: nat)
    requires DirectionOk(d, size) && d.state.Closing?
    ensures d.Valid() && Advance(d, CopyDirection(d).0, CopyDirection(d).1, size)
  {
    var (w', down) := d.w.PollShutdown();
    if down.Ready? {
      var done := d.(state := Done(d.state.count), w := w');
      assert CopyDirection(d) == (done, Ready(d.state.count));
      DoneKept(done, size);
    }
  }

  /** What every poll of a direction keeps, whatever it returns. */
  lemma DirectionKept(d: Direction, size: nat)
    requires DirectionOk(d, size)
    ensures d.Valid() && Advance(d, CopyDirection(d).0, CopyDirection(d).1, size)
  {
    match d.state {
      case Running(copy) =>
        PollCopyLossless(copy, d.r, d.w);
        var o := PollCopy(copy, d.r, d.w);
        if o.poll.Ready? {
          assert o.s.Held() == [];
          var closing := Direction(Closing(o.poll.value), o.r, o.w, d.amt);
          assert CopyDirection(d) == CopyDirection(closing);
          ClosingKept(closing, size);
        }
      case Closing(n) => ClosingKept(d, size);
      case Done(n) => DoneKept(d, size);
    }
  }

  ghost predicate PublishesExactly(d: Direction, d': Direction) {
    d'.amt != d.amt <==> d'.w.accepted != d.w.accepted && d'.state.Running?
  }

  /** The published total moves exactly when bytes were accepted and the direction is still running:
      a poll that writes its last bytes and leaves `Running` publishes nothing. */
  lemma PublishedProgressExactly(d: Direction, size: nat)
    requires DirectionOk(d, size) && Synced(d)
    requires d.Valid() && !CopyDirection(d).1.Failed?
    ensures PublishesExactly(d, CopyDirection(d).0)
  {
    DirectionKept(d, size);
    if d.state.Running? {
      PollCopyLossless(d.state.copy, d.r, d.w);
      var o := PollCopy(d.state.copy, d.r, d.w);
      if o.poll.Ready? {
        DirectionKept(Direction(Closing(o.poll.value), o.r, o.w, d.amt), size) by { assert o.s.Held() == []; }
      }
    }
  }

  /** What the two latest answers make of a poll that leaves a direction in `state`. */
  function DirectionVerdict(read: Option<ReadAnswer>, write: Option<WriteAnswer>, state: Transfer): Poll<nat> {
    match state
    case Running(copy) => Verdict(read, write, copy.pos < copy.cap, copy.amt)
    case Closing(_) => if write == Some(WriteError) then Failed(ShutdownFailed) else Pending
    case Done(n) => Ready(n)
  }

  /** The poll has stopped where its latest sub-polls stopped it, and nowhere before. */
  ghost predicate StoppedBy(d: Direction, d': Direction, p: Poll<nat>) {
    && GoesOn(d.r, d.w, d'.r, d'.w)
    && var read, write := LastRead(d.r.calls, d'.r), LastWrite(d.w.calls, d'.w);
       && p == DirectionVerdict(read, write, d'.state)
       && (d'.state.Running? ==> !p.Ready?)
       && (d'.state.Closing? ==> write == Some(WriteError) || write == Some(WriteLater))
  }

  lemma ClosingExactly(d: Direction)
    requires d.Valid() && d.state.Closing?
    ensures var (d', p) := CopyDirection(d);
      && StoppedBy(d, d', p) && d'.r == d.r && d'.w.calls == d.w.calls + 1
  {
    var (w', down) := d.w.PollShutdown();
    if down.Ready? { assert CopyDirection(d) == (d.(state := Done(d.state.count), w := w'), Ready(d.state.count)); }
  }

  lemma ClosedAfterCopy(d: Direction, o: CopyOutcome, d': Direction, p: Poll<nat>)
    requires Answered(d.r, d.w, o) && o.poll.Ready?
    requires StoppedBy(Direction(Closing(o.poll.value), o.r, o.w, d.amt), d', p) && !d'.state.Running?
    requires d'.r == o.r && d'.w.calls == o.w.calls + 1
    ensures StoppedBy(d, d', p)
  {
  }

  /** The result of every poll of a direction, exactly. */
  lemma DirectionExactly(d: Direction)
    requires d.Valid()
    ensures StoppedBy(d, CopyDirection(d).0, CopyDirection(d).1)
  {
    match d.state {
      case Running(copy) =>
        PollCopyExactly(copy, d.r, d.w);
        var o := PollCopy(copy, d.r, d.w);
        if o.poll.Ready? {
          var closing := Direction(Closing(o.poll.value), o.r, o.w, d.amt);
          ClosingExactly(closing);
          ClosedAfterCopy(d, o, CopyDirection(closing).0, CopyDirection(closing).1);
        }
      case Closing(_) => ClosingExactly(d);
      case Done(_) =>
    }
  }

  lemma HealthyDirection(d: Direction)
    requires d.Valid()
    ensures var (d', p) := CopyDirection(d);
      && d'.r.plan == d.r.plan && d'.w.plan == d.w.plan
      && (Healthy(d.r.plan, d.w.plan) ==> !p.Failed?)
      && (Prompt(d.r.plan, d.w.plan) ==> p.Ready?)
  {
    DirectionExactly(d);
  }

  /** The two one-direction machines agree on everything but the published total. */
  lemma {:induction false} DirectionsAgree(d: Direction, amt: nat)
    requires d.Valid()
    ensures var (x, p) := CopyDirection(d); var (y, q) := TransferDirection(d.(amt := amt));
      p == q && x.(amt := amt) == y
    decreases d.Rank()
  {
    match d.state {
      case Running(copy) =>
        var o := PollCopy(copy, d.r, d.w);
        if o.poll.Ready? {
          DirectionsAgree(Direction(Closing(o.poll.value), o.r, o.w, d.amt), amt);
        }
      case Closing(n) =>
        var (w', down) := d.w.PollShutdown();
        if down.Ready? { DirectionsAgree(d.(state := Done(n), w := w'), amt); }
      case Done(n) =>
    }
  }
}
