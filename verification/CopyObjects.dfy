/** `net/copy.rs` as the objects that the program updates in place. */
module CopyObjects {
  import opened Io
  import opened Copy
  import opened Relay

  class CopyBuf {
    var readDone: bool
    var needFlush: bool
    var pos: nat
    var cap: nat
    var amt: nat
    const buf: array<Byte>

    ghost function View(): CopyState
      reads this, buf
    { CopyState(readDone, needFlush, pos, cap, amt, buf[..]) }

    constructor (size: nat)
      ensures View() == FreshCopy(size) && fresh(buf)
    {
      readDone, needFlush, pos, cap, amt := false, false, 0, 0, 0;
      buf := new Byte[size](_ => 0);
      new;
      assert buf[..] == seq(size, _ => 0 as Byte);
    }

    /** The read half of a round: refill an empty buffer, or flush before waiting for the reader. */
    method Refill(reader: Reader, writer: Writer) returns (stop: Option<Poll<nat>>)
      requires View().Valid() && reader.half.Valid() && pos == cap && !readDone
      modifies this, buf, reader, writer
      ensures stop.None? ==>
        CopyMove.Again(View(), reader.half, writer.half) == old(CopyStep(View(), reader.half, writer.half))
      ensures stop.Some? ==>
        Return(CopyOutcome(View(), reader.half, writer.half, stop.value))
        == old(CopyStep(View(), reader.half, writer.half))
    {
      var got := reader.PollRead(buf);
      match got {
        case Failed(e) => return Some(Failed(e));
        case Pending =>
          if needFlush {
            var fl := writer.PollFlush();
            if !fl.Ready? { return Some(fl); }
            needFlush := false;
          }
          return Some(Pending);
        case Ready(n) =>
          if n == 0 {
            readDone := true;
          } else {
            pos, cap := 0, n;
          }
          return None;
      }
    }

    /** One write of the held bytes. */
    method Offer(writer: Writer, ghost r: ReadHalf) returns (stop: Option<Poll<nat>>)
      requires View().Valid() && r.Valid() && pos < cap
      modifies this, writer
      ensures readDone == old(readDone) && cap == old(cap)
      ensures stop.None? ==> old(pos) < pos
      ensures stop.None? ==> CopyMove.Again(View(), r, writer.half) == old(CopyStep(View(), r, writer.half))
      ensures stop.Some? ==>
        Return(CopyOutcome(View(), r, writer.half, stop.value)) == old(CopyStep(View(), r, writer.half))
    {
      var put := writer.PollWrite(buf[pos..cap]);
      match put {
        case Pending => return Some(Pending);
        case Failed(e) => return Some(Failed(e));
        case Ready(n) =>
          if n == 0 { return Some(Failed(WriteZero)); }
          pos, amt, needFlush := pos + n, amt + n, true;
          return None;
      }
    }

    /** The write half of a round: offer the held bytes until they are gone or the writer stops. */
    method Drain(writer: Writer, ghost r: ReadHalf) returns (stop: Option<Poll<nat>>)
      requires View().Valid() && r.Valid()
      modifies this, writer
      ensures View().Valid() && readDone == old(readDone) && cap == old(cap)
      ensures stop.None? ==> pos == cap
      ensures stop.None? ==>
        Copy.PollCopy(View(), r, writer.half) == old(Copy.PollCopy(View(), r, writer.half))
      ensures stop.Some? ==>
        CopyOutcome(View(), r, writer.half, stop.value) == old(Copy.PollCopy(View(), r, writer.half))
    {
      ghost var goal := Copy.PollCopy(View(), r, writer.half);
      while pos < cap
        invariant View().Valid() && readDone == old(readDone) && cap == old(cap)
        invariant Copy.PollCopy(View(), r, writer.half) == goal
      {
        stop := Offer(writer, r);
        if stop.Some? { return; }
      }
      return None;
    }

    method PollCopy(reader: Reader, writer: Writer) returns (poll: Poll<nat>)
      requires View().Valid() && reader.half.Valid()
      modifies this, buf, reader, writer
      ensures CopyOutcome(View(), reader.half, writer.half, poll)
           == old(Copy.PollCopy(View(), reader.half, writer.half))
    {
      ghost var goal := Copy.PollCopy(View(), reader.half, writer.half);
      while true
        invariant View().Valid() && reader.half.Valid()
        invariant Copy.PollCopy(View(), reader.half, writer.half) == goal
        decreases reader.half.Unread(), !readDone, cap - pos
      {
        if pos == cap && !readDone {
          var stop := Refill(reader, writer);
          if stop.Some? { return stop.value; }
        }
        var stop := Drain(writer, reader.half);
        if stop.Some? { return stop.value; }
        if pos == cap && readDone {
          var fl := writer.PollFlush();
          if !fl.Ready? { return fl; }
          return Ready(amt);
        }
      }
    }
  }

  /** `TransferState` holding the live buffer object. */
  datatype TransferCell = Copying(copyBuf: CopyBuf) | ClosingAt(count: nat) | DoneAt(count: nat)

  /** `CopyOneDirection` with the halves it drives. */
  class OneDirection {
    const reader: Reader
    const writer: Writer
    var state: TransferCell
    var amt: nat

    ghost function Repr(): set<object>
      reads this
    { {this, reader, writer} + (if state.Copying? then {state.copyBuf, state.copyBuf.buf} else {}) }

    ghost function View(): Direction
      reads this, Repr()
    {
      Direction(match state
                case Copying(c) => Running(c.View())
                case ClosingAt(n) => Closing(n)
                case DoneAt(n) => Done(n),
                reader.half, writer.half, amt)
    }

    constructor (size: nat, reader: Reader, writer: Writer)
      ensures View() == FreshDirection(size, reader.half, writer.half)
      ensures fresh(Repr() - {reader, writer}) && this.reader == reader && this.writer == writer
    {
      this.reader, this.writer, amt := reader, writer, 0;
      var c := new CopyBuf(size);
      state := Copying(c);
    }

    method Copy() returns (p: Poll<nat>)
      requires View().Valid()
      modifies Repr()
      ensures Repr() <= old(Repr())
      ensures (View(), p) == CopyDirection(old(View()))
    {
      ghost var goal := CopyDirection(View());
      while true
        invariant Repr() <= old(Repr()) && View().Valid()
        invariant CopyDirection(View()) == goal
        decreases View().Rank()
      {
        match state {
          case Copying(c) =>
            var got := c.PollCopy(reader, writer);
            match got {
              case Ready(n) => state := ClosingAt(n);
              case Pending => amt := c.amt; return Pending;
              case Failed(e) => return Failed(e);
            }
          case ClosingAt(n) =>
            var down := writer.PollShutdown();
            if !down.Ready? { return down; }
            state := DoneAt(n);
          case DoneAt(n) => return Ready(n);
        }
      }
    }

    /** `transfer_one_direction`. */
    method Transfer() returns (p: Poll<nat>)
      requires View().Valid()
      modifies Repr()
      ensures Repr() <= old(Repr())
      ensures (View(), p) == TransferDirection(old(View()))
    {
      ghost var goal := TransferDirection(View());
      while true
        invariant Repr() <= old(Repr()) && View().Valid()
        invariant TransferDirection(View()) == goal
        decreases View().Rank()
      {
        match state {
          case Copying(c) =>
            var got := c.PollCopy(reader, writer);
            if !got.Ready? { return got; }
            state := ClosingAt(got.value);
          case ClosingAt(n) =>
            var down := writer.PollShutdown();
            if !down.Ready? { return down; }
            state := DoneAt(n);
          case DoneAt(n) => return Ready(n);
        }
      }
    }
  }

  /** `CopyBidirectional`. */
  class TimedRelay {
    const ab: OneDirection
    const ba: OneDirection
    const timeout: nat
    var sleep: Option<nat>

    ghost predicate Valid()
      reads this, ab, ba, ab.Repr(), ba.Repr()
    { this !in ab.Repr() && this !in ba.Repr() && ab.Repr() !! ba.Repr() && View().Valid() }

    ghost function View(): RelayState
      reads this, ab, ba, ab.Repr(), ba.Repr()
    { RelayState(ab.View(), ba.View(), timeout, sleep) }

    constructor (ab: OneDirection, ba: OneDirection, timeout: nat)
      requires ab.Repr() !! ba.Repr() && ab.View().Valid() && ba.View().Valid()
      ensures Valid() && View() == RelayState(ab.View(), ba.View(), timeout, None)
      ensures this.ab == ab && this.ba == ba
    { this.ab, this.ba, this.timeout, sleep := ab, ba, timeout, None; }

    /** What is made of two polls that did not fail; `x` is the state before them. */
    method Settle(now: nat, abOld: nat, p: Poll<nat>, baOld: nat, q: Poll<nat>, ghost x: RelayState)
      returns (res: Poll<(nat, nat)>)
      requires !p.Failed? && !q.Failed? && this !in ab.Repr() && this !in ba.Repr()
      requires abOld == x.ab.amt && baOld == x.ba.amt && sleep == x.sleep && timeout == x.timeout
      modifies this`sleep
      ensures (View(), res) == Combine(x, now, ab.View(), p, ba.View(), q)
    {
      match (p, q) {
        case (Pending, Pending) =>
          if abOld == ab.amt && baOld == ba.amt {
            match sleep {
              case Some(deadline) =>
                if now < deadline { return Pending; }
                return Failed(IdleTimeout);
              case None => sleep := Some(now + timeout);
            }
          } else {
            sleep := None;
          }
          return Pending;
        case (Ready(n), Ready(m)) => return Ready((n, m));
        case _ => return Pending;
      }
    }

    method Copy(now: nat) returns (res: Poll<(nat, nat)>)
      requires Valid()
      modifies this, ab.Repr(), ba.Repr()
      ensures ab.Repr() <= old(ab.Repr()) && ba.Repr() <= old(ba.Repr())
      ensures (View(), res) == RelayPoll(old(View()), now)
    {
      ghost var x := View();
      var abOld, baOld := ab.amt, ba.amt;
      var p := ab.Copy();
      assert ba.View() == x.ba;
      if p.Failed? { return Failed(p.error); }
      var q := ba.Copy();
      assert (ab.View(), p) == CopyDirection(x.ab);
      if q.Failed? { return Failed(q.error); }
      res := Settle(now, abOld, p, baOld, q, x);
    }

    /** One poll of the closure in `copy_bidirectional`, on the same two directions. */
    method SimpleCopy() returns (res: Poll<(nat, nat)>)
      requires Valid()
      modifies ab.Repr(), ba.Repr()
      ensures ab.Repr() <= old(ab.Repr()) && ba.Repr() <= old(ba.Repr())
      ensures (ab.View(), ba.View(), res) == SimplePoll(old(ab.View()), old(ba.View()))
    {
      var p := ab.Transfer();
      if p.Failed? { return Failed(p.error); }
      var q := ba.Transfer();
      if q.Failed? { return Failed(q.error); }
      if q.Pending? { return Pending; }
      if p.Pending? { return Pending; }
      return Ready((p.value, q.value));
    }
  }
}
