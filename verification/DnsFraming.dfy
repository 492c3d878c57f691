/** `dns_proxy.rs`: DNS over TCP.  Length-prefix framing (section 4.2.2 of RFC 1035, section 8 of
    RFC 7766), against a reference that takes a whole stream apart. */
module DnsFraming {
  import opened Io
  import opened DnsSessions

  // ---------------------------------------------------------------------------------------------
  // Framing

  /** `frame_dns_tcp`; `None` when the payload does not fit the 16-bit length. */
  function Frame(payload: Bytes): Option<Bytes> {
    if |payload| >= WRAP then None else Some(Be16(|payload|) + payload)
  }

  /** The bytes of a frame: the length in two bytes, the higher one first, and the payload. */
  lemma FrameBytes(payload: Bytes)
    ensures Frame(payload) == if |payload| <= 65535 then Some([|payload| / 256, |payload| % 256] + payload) else None
  {
  }

  /** Payloads that fit the 16-bit length. */
  type Payload = b: Bytes | |b| < WRAP witness []

  function FrameAll(payloads: seq<Payload>): Bytes {
    if payloads == [] then [] else Be16(|payloads[0]|) + payloads[0] + FrameAll(payloads[1..])
  }

  /** The length of the first frame's payload, when that frame is complete. */
  function FirstLength(stream: Bytes): (len: Option<nat>)
    ensures len.Some? ==> 2 + len.value <= |stream| && len.value < WRAP && stream[..2] == Be16(len.value)
  {
    if |stream| < 2 || |stream| < 2 + U16(stream[0], stream[1]) then None else Some(U16(stream[0], stream[1]))
  }

  /** The reference: the non-empty payloads of a stream, and the incomplete frame at its end. */
  function Deframe(stream: Bytes): (seq<Bytes>, Bytes) {
    match FirstLength(stream)
    case None => ([], stream)
    case Some(len) =>
      var (payloads, rest) := Deframe(stream[2 + len..]);
      (Kept(stream[2..2 + len]) + payloads, rest)
  }

  function NonEmpty(payloads: seq<Bytes>): seq<Bytes> {
    if payloads == [] then [] else Kept(payloads[0]) + NonEmpty(payloads[1..])
  }

  function Kept(payload: Bytes): seq<Bytes> { if payload == [] then [] else [payload] }

  lemma DeframeFirst(payload: Payload, rest: Bytes)
    ensures Deframe(Be16(|payload|) + payload + rest)
         == (Kept(payload) + Deframe(rest).0, Deframe(rest).1)
  {
    var all := Be16(|payload|) + payload + rest;
    assert U16(all[0], all[1]) == |payload|;
    assert all[2..2 + |payload|] == payload && all[2 + |payload|..] == rest;
  }

  lemma DeframeShort(len: nat, part: Bytes)
    requires |part| < len < WRAP
    ensures Deframe(Be16(len) + part) == ([], Be16(len) + part)
  {
    var all := Be16(len) + part;
    assert U16(all[0], all[1]) == len;
  }

  lemma DeframeWhole(payload: Payload)
    ensures Deframe(Be16(|payload|) + payload) == (Kept(payload), [])
  {
    DeframeFirst(payload, []);
    assert Be16(|payload|) + payload + [] == Be16(|payload|) + payload;
    assert Kept(payload) + [] == Kept(payload);
  }

  /** Deframing undoes framing; empty frames are skipped without losing the frame boundaries. */
  lemma {:induction false} DeframeUndoesFrame(payloads: seq<Payload>)
    ensures Deframe(FrameAll(payloads)) == (NonEmpty(payloads), [])
  {
    if payloads != [] {
      DeframeUndoesFrame(payloads[1..]);
      DeframeFirst(payloads[0], FrameAll(payloads[1..]));
    }
  }

  lemma SplitFrame(stream: Bytes)
    requires FirstLength(stream).Some?
    ensures var len := FirstLength(stream).value; stream == Be16(len) + stream[2..2 + len] + stream[2 + len..]
  {
    assert stream == stream[..2] + stream[2..];
  }

  lemma Regroup<T>(a: seq<T>, b: seq<T>, c: seq<T>)
    ensures (a + b) + c == a + (b + c)
  {
  }

  /** Deframing can be resumed from the incomplete frame. */
  lemma {:induction false} DeframeResumes(stream: Bytes, more: Bytes, ps: seq<Bytes>, rest: Bytes)
    requires Deframe(stream) == (ps, rest)
    ensures Deframe(stream + more) == (ps + Deframe(rest + more).0, Deframe(rest + more).1)
  {
    var len := FirstLength(stream);
    if len.Some? {
      var first, tail := stream[2..2 + len.value], stream[2 + len.value..];
      var (qs, rest') := Deframe(tail);
      DeframeResumes(tail, more, qs, rest');
      SplitFrame(stream);
      DeframeFirst(first, tail);
      DeframeFirst(first, tail + more);
      Regroup(Be16(len.value) + first, tail, more);
      Regroup(Kept(first), qs, Deframe(rest + more).0);
    } else {
      assert [] + Deframe(stream + more).0 == Deframe(stream + more).0;
    }
  }

  /** The payloads of a prefix of a stream are a prefix of the payloads of the stream. */
  lemma DeframePrefix(source: Bytes, taken: nat, ps: seq<Bytes>, rest: Bytes)
    requires taken <= |source| && Deframe(source[..taken]) == (ps, rest)
    ensures ps <= Deframe(source).0
    ensures taken == |source| ==> Deframe(source) == (ps, rest)
  {
    assert source[..taken] + source[taken..] == source;
    DeframeResumes(source[..taken], source[taken..], ps, rest);
    if taken == |source| { assert source[..taken] == source; }
  }

  lemma DeframeProperPrefix(payload: Payload, n: nat)
    requires n < 2 + |payload|
    ensures Deframe((Be16(|payload|) + payload)[..n]) == ([], (Be16(|payload|) + payload)[..n])
  {
    var part := (Be16(|payload|) + payload)[..n];
    if n >= 2 {
      assert part == Be16(|payload|) + payload[..n - 2];
      DeframeShort(|payload|, payload[..n - 2]);
    }
  }

  lemma {:induction false} FrameAllSnoc(ps: seq<Payload>, p: Payload)
    ensures FrameAll(ps + [p]) == FrameAll(ps) + (Be16(|p|) + p)
  {
    if ps == [] {
      assert ps + [p] == [p];
      assert FrameAll([p]) == Be16(|p|) + p + FrameAll([]);
    } else {
      FrameAllSnoc(ps[1..], p);
      assert (ps + [p])[1..] == ps[1..] + [p];
      Regroup(Be16(|ps[0]|) + ps[0], FrameAll(ps[1..]), Be16(|p|) + p);
    }
  }

  datatype Message = Message(id: Wire, body: Bytes)

  /** The DNS message library: partial in both directions. */
  datatype Codec = Codec(encode: Message -> Option<Bytes>, decode: Bytes -> Option<Message>)
}
