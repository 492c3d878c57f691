/** The asynchronous stream and datagram contract that the tunnel is written against.

    A stream half or socket side is a value whose future behaviour is fixed by a `plan`: what it will
    answer to its k-th call.  Theorems quantify over every plan, so they cover every mix of
    pendings, short reads, short writes and errors, including adaptive ones. */
module Io {
  type Byte = x: int | 0 <= x < 256 witness 0
  type Bytes = seq<Byte>
  type Pos = n: nat | n > 0 witness 1

  datatype Option<+T> = None | Some(value: T)

  datatype IoError = ReadFailed | WriteFailed | FlushFailed | ShutdownFailed | WriteZero | IdleTimeout

  /** `Poll<io::Result<T>>`. */
  datatype Poll<+T> = Pending | Ready(value: T) | Failed(error: IoError)

  /** A ready reader fills at least one byte unless the buffer is empty or the stream has ended. */
  datatype ReadAnswer = ReadLater | ReadUpTo(max: Pos) | ReadError

  datatype WriteAnswer = WriteLater | Accept(max: nat) | WriteError

  datatype WriteCall = NoCall | Writing | Flushing | ShuttingDown

  /** Big-endian 16-bit numbers. */
  function Be16(n: nat): Bytes
    requires n < 0x1_0000
  { [n / 256, n % 256] }

  function U16(hi: Byte, lo: Byte): (n: nat)
    ensures n < 0x1_0000 && Be16(n) == [hi, lo]
  { hi as int * 256 + lo as int }

  function Min(a: nat, b: nat): nat { if a < b then a else b }

  /** `source` is everything the peer sends before closing; `taken` bytes of it were handed out.
      `sawEof`: some read was answered with zero bytes; `lateReads` counts reads after that.
      `waiting`: the latest read was answered `Pending`. */
  datatype ReadHalf = ReadHalf(plan: nat -> ReadAnswer, calls: nat, source: Bytes, taken: nat,
                               sawEof: bool, lateReads: nat, waiting: bool)
  {
    ghost predicate Valid() { taken <= |source| }

    function Unread(): nat requires Valid() { |source| - taken }

    function PollRead(room: nat): (res: (ReadHalf, Poll<Bytes>))
      requires Valid()
      ensures res.0.Valid() && res.0.source == source && res.0.plan == plan && taken <= res.0.taken
      ensures res.1.Ready? ==> |res.1.value| <= room && res.0.taken == taken + |res.1.value|
      ensures res.1.Ready? ==> source[..res.0.taken] == source[..taken] + res.1.value
      ensures !res.1.Ready? ==> res.0.taken == taken && res.0.sawEof == sawEof
      ensures res.1.Ready? ==> (res.1.value == [] <==> room == 0 || taken == |source|)
      ensures res.0.waiting <==> res.1.Pending?
    {
      var h := this.(calls := calls + 1, lateReads := if sawEof then lateReads + 1 else lateReads, waiting := false);
      match plan(calls)
      case ReadLater => (h.(waiting := true), Pending)
      case ReadError => (h, Failed(ReadFailed))
      case ReadUpTo(max) =>
        var n := Min(Min(max, room), |source| - taken);
        (h.(taken := taken + n, sawEof := sawEof || n == 0), Ready(source[taken..taken + n]))
    }
  }

  /** `accepted`: all bytes taken so far; `flushed`: how many of them the latest completed flush
      covered.  `shut`: a shutdown completed; `shutAt` is `flushed` at that moment, and `lateCalls`
      counts the calls made afterwards.  `blocked`: the call that was answered `Pending`, if the
      latest one was. */
  datatype WriteHalf = WriteHalf(plan: nat -> WriteAnswer, calls: nat, accepted: Bytes, flushed: nat,
                                 shut: bool, shutAt: nat, lateCalls: nat, blocked: WriteCall)
  {
    function Called(): WriteHalf {
      this.(calls := calls + 1, lateCalls := if shut then lateCalls + 1 else lateCalls, blocked := NoCall)
    }

    function PollWrite(data: Bytes): (res: (WriteHalf, Poll<nat>))
      ensures res.1.Ready? ==> res.1.value <= |data| && res.0.accepted == accepted + data[..res.1.value]
      ensures !res.1.Ready? ==> res.0.accepted == accepted
      ensures res.0.flushed == flushed && res.0.shut == shut && res.0.plan == plan
      ensures res.0.blocked == (if res.1.Pending? then Writing else NoCall)
    {
      match plan(calls)
      case WriteLater => (Called().(blocked := Writing), Pending)
      case WriteError => (Called(), Failed(WriteFailed))
      case Accept(max) =>
        var n := Min(max, |data|);
        (Called().(accepted := accepted + data[..n]), Ready(n))
    }

    function PollFlush(): (res: (WriteHalf, Poll<nat>))
      ensures res.0.accepted == accepted && res.0.shut == shut && res.0.plan == plan
      ensures res.0.flushed == (if res.1.Ready? then |accepted| else flushed)
      ensures res.0.blocked == (if res.1.Pending? then Flushing else NoCall)
    {
      match plan(calls)
      case WriteLater => (Called().(blocked := Flushing), Pending)
      case WriteError => (Called(), Failed(FlushFailed))
      case Accept(_) => (Called().(flushed := |accepted|), Ready(0))
    }

    function PollShutdown(): (res: (WriteHalf, Poll<nat>))
      ensures res.0.accepted == accepted && res.0.flushed == flushed && res.0.plan == plan
      ensures res.0.shut == (shut || res.1.Ready?)
      ensures res.1.Ready? ==> res.0.shutAt == flushed
      ensures res.0.blocked == (if res.1.Pending? then ShuttingDown else NoCall)
    {
      match plan(calls)
      case WriteLater => (Called().(blocked := ShuttingDown), Pending)
      case WriteError => (Called(), Failed(ShutdownFailed))
      case Accept(_) => (Called().(shut := true, shutAt := flushed), Ready(0))
    }
  }

  function FreshReader(plan: nat -> ReadAnswer, source: Bytes): ReadHalf {
    ReadHalf(plan, 0, source, 0, false, 0, false)
  }

  function FreshWriter(plan: nat -> WriteAnswer): WriteHalf {
    WriteHalf(plan, 0, [], 0, false, 0, 0, NoCall)
  }

  datatype DatagramAnswer = NotNow | Now | SocketError

  /** The receiving side of a UDP socket: the first `taken` of the datagrams `incoming` were received.
      A datagram that is larger than the buffer is cut. */
  datatype DatagramIn = DatagramIn(plan: nat -> DatagramAnswer, calls: nat, incoming: seq<Bytes>, taken: nat)
  {
    ghost predicate Valid() { taken <= |incoming| }

    function PollRecv(room: nat): (res: (DatagramIn, Poll<Bytes>))
      requires Valid()
      ensures res.0.Valid() && res.0.incoming == incoming
      ensures res.1.Ready? ==>
        && taken < |incoming| && res.0.taken == taken + 1
        && res.1.value == incoming[taken][..Min(room, |incoming[taken]|)]
      ensures !res.1.Ready? ==> res.0.taken == taken
    {
      var h := this.(calls := calls + 1);
      match plan(calls)
      case NotNow => (h, Pending)
      case SocketError => (h, Failed(ReadFailed))
      case Now =>
        if taken == |incoming| then (h, Pending)
        else (h.(taken := taken + 1), Ready(incoming[taken][..Min(room, |incoming[taken]|)]))
    }
  }

  datatype Datagram = Datagram(to: nat, data: Bytes)

  /** The sending side of a UDP socket: a datagram goes out whole or not at all. */
  datatype DatagramOut = DatagramOut(plan: nat -> DatagramAnswer, calls: nat, sent: seq<Datagram>)
  {
    function PollSend(data: Bytes, to: nat): (res: (DatagramOut, Poll<nat>))
      ensures res.1.Ready? ==> res.1.value == |data|
      ensures res.0.sent == (if res.1.Ready? then sent + [Datagram(to, data)] else sent)
    {
      var h := this.(calls := calls + 1);
      match plan(calls)
      case NotNow => (h, Pending)
      case SocketError => (h, Failed(WriteFailed))
      case Now => (h.(sent := sent + [Datagram(to, data)]), Ready(|data|))
    }
  }

  /** A reader object: reads land in a window of the caller's buffer. */
  class Reader {
    var half: ReadHalf

    constructor (half: ReadHalf)
      ensures this.half == half
    { this.half := half; }

    method PollRead(buf: array<Byte>) returns (r: Poll<nat>)
      requires half.Valid()
      modifies this, buf
      ensures half == old(half).PollRead(buf.Length).0
      ensures match old(half).PollRead(buf.Length).1
              case Pending => r == Pending && buf[..] == old(buf[..])
              case Failed(e) => r == Failed(e) && buf[..] == old(buf[..])
              case Ready(data) => r == Ready(|data|) && buf[..] == data + old(buf[..])[|data|..]
    {
      var (h, p) := half.PollRead(buf.Length);
      half := h;
      match p {
        case Pending => r := Pending;
        case Failed(e) => r := Failed(e);
        case Ready(data) =>
          forall i | 0 <= i < |data| { buf[i] := data[i]; }
          r := Ready(|data|);
      }
    }
  }

  class Writer {
    var half: WriteHalf

    constructor (half: WriteHalf)
      ensures this.half == half
    { this.half := half; }

    method PollWrite(data: Bytes) returns (r: Poll<nat>)
      modifies this
      ensures (half, r) == old(half).PollWrite(data)
    { var (h, p) := half.PollWrite(data); half := h; r := p; }

    method PollFlush() returns (r: Poll<nat>)
      modifies this
      ensures (half, r) == old(half).PollFlush()
    { var (h, p) := half.PollFlush(); half := h; r := p; }

    method PollShutdown() returns (r: Poll<nat>)
      modifies this
      ensures (half, r) == old(half).PollShutdown()
    { var (h, p) := half.PollShutdown(); half := h; r := p; }
  }
}
