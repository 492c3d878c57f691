/** `fakedns.rs`: the fake-address allocator behind the DNS answers. */
module FakeDns {
  import opened Io

  type Text = Bytes

  const RANGE_START: nat := 192 * 0x100_0000 + 18 * 0x1_0000
  const RANGE_END: nat := RANGE_START + 0xffff
  const SLOTS: nat := 65024 // 256 * 254

  // ---------------------------------------------------------------------------------------------
  // The cursor

  /** One try of `prepare_next_cursor`: advance, wrapping at the end of the range. */
  function Bump(cursor: nat): nat {
    if cursor + 1 >= RANGE_END then RANGE_START else cursor + 1
  }

  predicate HostByte(cursor: nat) { cursor % 256 != 0 && cursor % 256 != 255 }

  /** The cursor after at most `tries` tries; `None` when every try hit a host byte of 0 or 255. */
  function NextCursor(cursor: nat, tries: nat): Option<nat>
    decreases tries
  {
    if tries == 0 then None
    else if HostByte(Bump(cursor)) then Some(Bump(cursor))
    else NextCursor(Bump(cursor), tries - 1)
  }

  /** The i-th usable address: 254 hosts in each of the 256 subnets of 192.18.0.0/16. */
  function Slot(i: nat): nat
    requires i < SLOTS
  { RANGE_START + 256 * (i / 254) + 1 + i % 254 }

  function SlotIndex(ip: nat): nat
    requires RANGE_START <= ip <= RANGE_END && HostByte(ip)
  { 254 * ((ip - RANGE_START) / 256) + ip % 256 - 1 }

  /** `Slot` enumerates each address of the range with a host byte of 1 to 254 exactly once. */
  lemma SlotsAreTheRange(i: nat, ip: nat)
    ensures i < SLOTS ==> RANGE_START <= Slot(i) <= RANGE_END && HostByte(Slot(i)) && SlotIndex(Slot(i)) == i
    ensures RANGE_START <= ip <= RANGE_END && HostByte(ip) ==> SlotIndex(ip) < SLOTS && Slot(SlotIndex(ip)) == ip
  {
    if i < SLOTS {
      var q, r := i / 254, i % 254;
      assert i == 254 * q + r;
      assert q <= 255;
      var off := 256 * q + 1 + r;
      assert off / 256 == q && off % 256 == 1 + r;
    }
    if RANGE_START <= ip <= RANGE_END && HostByte(ip) {
      var q, r := (ip - RANGE_START) / 256, ip % 256;
      assert ip - RANGE_START == 256 * q + r;
      var k := SlotIndex(ip);
      assert k == 254 * q + (r - 1) && 0 <= r - 1 < 254;
      assert k / 254 == q && k % 254 == r - 1;
    }
  }

  function Dotted(a: nat, b: nat, c: nat, d: nat): nat { ((a * 256 + b) * 256 + c) * 256 + d }

  lemma SlotLastByte(i: nat)
    requires i < SLOTS
    ensures Slot(i) % 256 == 1 + i % 254
  {
    SlotsAreTheRange(i, 0);
  }

  lemma NextWithinSubnet(i: nat)
    requires i < SLOTS && i % 254 < 253
    ensures i + 1 < SLOTS && Bump(Slot(i)) == Slot(i + 1)
  {
    assert (i + 1) / 254 == i / 254 && (i + 1) % 254 == i % 254 + 1;
    SlotsAreTheRange(i + 1, 0);
  }

  lemma NextSubnet(i: nat)
    requires i + 1 < SLOTS && i % 254 == 253
    ensures Slot(i + 1) == Slot(i) + 3 && Slot(i) + 3 < RANGE_END
  {
    assert (i + 1) / 254 == i / 254 + 1 && (i + 1) % 254 == 0;
    SlotsAreTheRange(i + 1, 0);
  }

  /** Three tries always suffice, and they move the cursor to the next slot of one cycle of 65024. */
  lemma NextCursorCycles(i: nat)
    requires i < SLOTS
    ensures NextCursor(Slot(i), 3) == Some(Slot((i + 1) % SLOTS))
  {
    var a := Slot(i);
    SlotLastByte(i);
    if i % 254 < 253 {
      NextWithinSubnet(i);
      SlotLastByte(i + 1);
      assert (i + 1) % SLOTS == i + 1;
    } else if i + 1 < SLOTS {
      NextSubnet(i);
      assert !HostByte(Bump(a)) && !HostByte(Bump(Bump(a))) && HostByte(a + 3);
      assert NextCursor(a, 3) == NextCursor(Bump(a), 2) == NextCursor(Bump(Bump(a)), 1);
      assert (i + 1) % SLOTS == i + 1;
    } else {
      assert a == RANGE_END - 1 && !HostByte(RANGE_START);
      assert NextCursor(a, 3) == NextCursor(RANGE_START, 2);
      assert (i + 1) % SLOTS == 0;
    }
  }

  /** The constructor leaves the cursor on the first slot. */
  lemma FirstCursor()
    ensures NextCursor(RANGE_START, 3) == Some(Slot(0))
  {
  }

  // ---------------------------------------------------------------------------------------------
  // The allocator

  datatype Table = Table(ipToDomain: map<nat, Text>, domainToIp: map<Text, nat>, cursor: nat)

  /** The map updates of `alloc_fake_ip`: the previous owner of the address is forgotten. */
  function Record(t: Table, domain: Text): Table {
    var stale := if t.cursor in t.ipToDomain then {t.ipToDomain[t.cursor]} else {};
    t.(ipToDomain := t.ipToDomain[t.cursor := domain],
       domainToIp := (t.domainToIp - stale)[domain := t.cursor])
  }

  /** `alloc_fake_ip`; `None` when no next cursor can be prepared. */
  function Alloc(t: Table, domain: Text): (Table, Option<nat>) {
    match NextCursor(t.cursor, 3)
    case Some(next) => (Record(t, domain).(cursor := next), Some(t.cursor))
    case None => (Record(t, domain).(cursor := Bump(Bump(Bump(t.cursor)))), None)
  }

  /** The lookup-or-allocate at the heart of `process_dns_packet`. */
  function Resolve(t: Table, domain: Text): (Table, Option<nat>) {
    if domain in t.domainToIp then (t, Some(t.domainToIp[domain])) else Alloc(t, domain)
  }

  function EmptyTable(): Table { Table(map[], map[], Slot(0)) }

  function Resolves(t: Table, domains: seq<Text>): Table {
    if domains == [] then t
    else Resolve(Resolves(t, domains[..|domains| - 1]), domains[|domains| - 1]).0
  }

  // The reference: a plain log of allocations, of which the last 65024 are live.

  predicate Live(log: seq<Text>, i: int) { 0 <= i < |log| <= i + SLOTS }

  predicate Known(log: seq<Text>, domain: Text) { exists i | 0 <= i < |log| :: Live(log, i) && log[i] == domain }

  function LogOf(domains: seq<Text>): seq<Text> {
    if domains == [] then []
    else
      var log := LogOf(domains[..|domains| - 1]);
      var d := domains[|domains| - 1];
      if Known(log, d) then log else log + [d]
  }

  function AddressAt(i: nat): nat { Slot(i % SLOTS) }

  /** The table is exactly the live part of the log, each entry at the address of its position. */
  ghost predicate Refines(t: Table, log: seq<Text>) {
    && t.cursor == AddressAt(|log|)
    && (forall i :: Live(log, i) ==>
          && AddressAt(i) in t.ipToDomain && t.ipToDomain[AddressAt(i)] == log[i]
          && log[i] in t.domainToIp && t.domainToIp[log[i]] == AddressAt(i))
    && (forall ip :: ip in t.ipToDomain ==> exists i :: Live(log, i) && ip == AddressAt(i))
    && (forall d :: d in t.domainToIp ==> exists i :: Live(log, i) && d == log[i])
  }

  /** The fake addresses are 192.18.0.1 to 192.18.255.254 without the host bytes 0 and 255, in order and
      then again. */
  lemma AddressDotted(n: nat)
    ensures var i := n % 65024; AddressAt(n) == Dotted(192, 18, i / 254, 1 + i % 254)
  {
    DottedSlot(n % 65024);
  }

  lemma DottedSlot(i: nat)
    requires i < 65024
    ensures Slot(i) == Dotted(192, 18, i / 254, 1 + i % 254)
  {
  }

  lemma AddressesCollide(i: nat, j: nat)
    ensures AddressAt(i) == AddressAt(j) <==> i % SLOTS == j % SLOTS
  {
    SlotsAreTheRange(i % SLOTS, 0);
    SlotsAreTheRange(j % SLOTS, 0);
  }

  lemma NearPositionsDiffer(i: nat, j: nat)
    requires i < j < i + SLOTS
    ensures AddressAt(i) != AddressAt(j)
  {
    AddressesCollide(i, j);
    NearRemaindersDiffer(i, j);
  }

  lemma NearRemaindersDiffer(i: nat, j: nat)
    requires i < j < i + 65024
    ensures i % 65024 != j % 65024
  {
  }

  lemma NextRemainder(n: nat)
    ensures (n % 65024 + 1) % 65024 == (n + 1) % 65024
  {
  }

  lemma RemainderRepeats(n: nat)
    ensures (n + 65024) % 65024 == n % 65024
  {
  }

  lemma CursorFollowsLog(n: nat)
    ensures NextCursor(AddressAt(n), 3) == Some(AddressAt(n + 1))
  {
    NextCursorCycles(n % SLOTS);
    NextRemainder(n);
  }

  /** The cursor after `n` advances from the constructor's state; `None` if some advance failed. */
  function CursorAfter(n: nat): Option<nat> {
    if n == 0 then NextCursor(RANGE_START, 3)
    else
      var prev := CursorAfter(n - 1);
      if prev.None? then None else NextCursor(prev.value, 3)
  }

  /** No advance ever fails. */
  lemma {:induction false} CursorNeverFails(n: nat)
    ensures CursorAfter(n) == Some(AddressAt(n))
  {
    if n == 0 {
      FirstCursor();
    } else {
      CursorNeverFails(n - 1);
      CursorFollowsLog(n - 1);
    }
  }

  /** Within each round of 65024 advances the cursor visits every usable address exactly once. */
  lemma CursorOrbit(n: nat, ip: nat)
    requires RANGE_START <= ip <= RANGE_END && HostByte(ip)
    ensures SlotIndex(ip) < SLOTS
    ensures CursorAfter(n) == Some(ip) <==> n % SLOTS == SlotIndex(ip)
  {
    CursorNeverFails(n);
    SlotsAreTheRange(n % SLOTS, ip);
  }

  lemma WrapsAround(i: nat)
    ensures AddressAt(i) == AddressAt(i + SLOTS)
  {
    RemainderRepeats(i);
  }

  lemma StaleIsAnother(t: Table, log: seq<Text>, i: nat)
    requires Refines(t, log) && Live(log, i) && i + SLOTS > |log|
    ensures AddressAt(i) != t.cursor
    ensures t.cursor in t.ipToDomain ==> t.ipToDomain[t.cursor] != log[i]
  {
    NearPositionsDiffer(i, |log|);
    if t.cursor in t.ipToDomain {
      var j :| Live(log, j) && t.cursor == AddressAt(j);
      assert t.ipToDomain[t.cursor] == log[j] && t.domainToIp[log[j]] == t.cursor;
    }
  }

  /** Every entry that stays live, and the new one, can be looked up both ways after an allocation. */
  lemma RecordKeepsLive(t: Table, log: seq<Text>, d: Text, i: nat)
    requires Refines(t, log) && !Known(log, d) && Live(log + [d], i)
    ensures var t' := Record(t, d); var x := (log + [d])[i];
      && AddressAt(i) in t'.ipToDomain && t'.ipToDomain[AddressAt(i)] == x
      && x in t'.domainToIp && t'.domainToIp[x] == AddressAt(i)
  {
    if i < |log| {
      assert Live(log, i) && log[i] != d;
      StaleIsAnother(t, log, i);
    }
  }

  /** An allocation leaves nothing in the tables that is not live. */
  lemma RecordedAddressLive(t: Table, log: seq<Text>, d: Text, ip: nat)
    requires Refines(t, log) && ip in Record(t, d).ipToDomain
    ensures exists i :: Live(log + [d], i) && ip == AddressAt(i)
  {
    if ip == t.cursor {
      assert Live(log + [d], |log|);
    } else {
      var i :| Live(log, i) && ip == AddressAt(i);
      if i + SLOTS == |log| { WrapsAround(i); }
      assert Live(log + [d], i);
    }
  }

  lemma RecordedDomainLive(t: Table, log: seq<Text>, d: Text, x: Text)
    requires Refines(t, log) && !Known(log, d) && x in Record(t, d).domainToIp
    ensures exists i :: Live(log + [d], i) && x == (log + [d])[i]
  {
    if x == d {
      assert Live(log + [d], |log|) && (log + [d])[|log|] == d;
    } else {
      var i :| Live(log, i) && x == log[i];
      if i + SLOTS == |log| { WrapsAround(i); }
      assert Live(log + [d], i) && (log + [d])[i] == x;
    }
  }

  lemma AllocRefines(t: Table, log: seq<Text>, d: Text)
    requires Refines(t, log) && !Known(log, d)
    ensures var (t', ip) := Alloc(t, d); ip == Some(AddressAt(|log|)) && Refines(t', log + [d])
  {
    CursorFollowsLog(|log|);
    forall ip | ip in Record(t, d).ipToDomain ensures exists i :: Live(log + [d], i) && ip == AddressAt(i) {
      RecordedAddressLive(t, log, d, ip);
    }
    forall x | x in Record(t, d).domainToIp ensures exists i :: Live(log + [d], i) && x == (log + [d])[i] {
      RecordedDomainLive(t, log, d, x);
    }
    forall i | Live(log + [d], i)
      ensures var t' := Record(t, d); var x := (log + [d])[i];
        && AddressAt(i) in t'.ipToDomain && t'.ipToDomain[AddressAt(i)] == x
        && x in t'.domainToIp && t'.domainToIp[x] == AddressAt(i)
    {
      RecordKeepsLive(t, log, d, i);
    }
  }

  lemma ResolveRefines(t: Table, log: seq<Text>, d: Text)
    requires Refines(t, log)
    ensures var (t', ip) := Resolve(t, d); var log' := if Known(log, d) then log else log + [d];
      && Refines(t', log') && ip.Some? && ip.value in t'.ipToDomain && t'.ipToDomain[ip.value] == d
      && d in t'.domainToIp && t'.domainToIp[d] == ip.value
  {
    if !Known(log, d) {
      AllocRefines(t, log, d);
      assert Live(log + [d], |log|);
    }
  }

  /** After any run of queries the two maps and the cursor are exactly the log of allocations. */
  lemma {:induction false} TableRefinesLog(domains: seq<Text>)
    ensures Refines(Resolves(EmptyTable(), domains), LogOf(domains)) && Inverse(Resolves(EmptyTable(), domains))
  {
    if domains != [] {
      var before := domains[..|domains| - 1];
      TableRefinesLog(before);
      ResolveRefines(Resolves(EmptyTable(), before), LogOf(before), domains[|domains| - 1]);
    }
    MapsAreInverse(Resolves(EmptyTable(), domains), LogOf(domains));
  }

  /** The two maps undo each other. */
  ghost predicate Inverse(t: Table) {
    && (forall ip :: ip in t.ipToDomain ==>
          t.ipToDomain[ip] in t.domainToIp && t.domainToIp[t.ipToDomain[ip]] == ip)
    && (forall d :: d in t.domainToIp ==>
          t.domainToIp[d] in t.ipToDomain && t.ipToDomain[t.domainToIp[d]] == d)
  }

  lemma MapsAreInverse(t: Table, log: seq<Text>)
    requires Refines(t, log)
    ensures Inverse(t)
  {
  }

  lemma {:induction false} LogGrows(before: seq<Text>, later: seq<Text>)
    ensures LogOf(before) <= LogOf(before + later)
  {
    if later == [] {
      assert before + later == before;
    } else {
      var all := before + later;
      assert all[..|all| - 1] == before + later[..|later| - 1];
      LogGrows(before, later[..|later| - 1]);
    }
  }

  /** Two log entries of one domain are more than 65024 positions apart. */
  lemma {:induction false} LogSpaced(domains: seq<Text>, i: nat, j: nat)
    requires i < j < |LogOf(domains)| && LogOf(domains)[i] == LogOf(domains)[j]
    ensures j > i + SLOTS
  {
    var before, d := domains[..|domains| - 1], domains[|domains| - 1];
    if j < |LogOf(before)| {
      LogSpaced(before, i, j);
    } else {
      assert !Known(LogOf(before), d) && LogOf(before)[i] == d;
      assert !Live(LogOf(before), i);
    }
  }

  /** An address given to a domain maps back to it, and the domain keeps it, through any further
      queries that make at most 65023 allocations; the 65024th takes the address away and removes the
      domain from both lookups. */
  lemma AddressLifetime(before: seq<Text>, d: Text, later: seq<Text>)
    requires !Known(LogOf(before), d)
    ensures var ip := AddressAt(|LogOf(before)|);
      var all := before + [d] + later;
      var t := Resolves(EmptyTable(), all);
      var further := |LogOf(all)| - |LogOf(before)| - 1;
      && Resolve(Resolves(EmptyTable(), before), d).1 == Some(ip)
      && 0 <= further
      && (further < 65024 ==>
            ip in t.ipToDomain && t.ipToDomain[ip] == d && d in t.domainToIp && t.domainToIp[d] == ip)
      && (further == 65024 ==> ip in t.ipToDomain && t.ipToDomain[ip] != d && d !in t.domainToIp)
  {
    var n := |LogOf(before)|;
    var first, all := before + [d], before + [d] + later;
    TableRefinesLog(before);
    AllocRefines(Resolves(EmptyTable(), before), LogOf(before), d);
    assert first[..|first| - 1] == before;
    LogGrows(first, later);
    TableRefinesLog(all);
    var log := LogOf(all);
    assert log[n] == LogOf(first)[n] == d;
    if |log| - n - 1 < SLOTS {
      assert Live(log, n);
    } else if |log| - n - 1 == SLOTS {
      WrapsAround(n);
      assert Live(log, n + SLOTS);
      forall i | Live(log, i) ensures log[i] != d {
        if log[i] == d { LogSpaced(all, n, i); }
      }
    }
  }

  // ---------------------------------------------------------------------------------------------
  // Queries

  predicate OccursAt(text: Text, part: Text, k: nat) {
    k + |part| <= |text| && text[k..k + |part|] == part
  }

  predicate Contains(text: Text, part: Text) {
    exists k: nat | k <= |text| :: OccursAt(text, part, k)
  }

  const STAR: Text := [42]

  predicate Accepts(filter: seq<Text>, text: Text) {
    exists f | f in filter :: Contains(text, f) || f == STAR
  }

  datatype QueryType = TypeA | TypeAAAA | TypeHTTPS | OtherType

  /** `name` is without the final dot that a fully qualified name is printed with. */
  datatype Question = Question(internet: bool, qtype: QueryType, name: Text, qualified: bool)
  {
    function Printed(): Text { if qualified then name + [46] else name }
  }

  datatype Outcome = BadPacket | NoQuestion | Upstream | NoCursor | BadAnswer | Response(answer: Option<nat>)

  /** Goes to the fake resolver rather than upstream. */
  predicate Wanted(filter: seq<Text>, q: Question) {
    q.internet && !q.qtype.OtherType? && Accepts(filter, q.Printed())
  }

  /** `process_dns_packet`.  `packet` is the decoded question list, if the packet decodes;
      `encodes`: the answer can be serialised. */
  function Process(t: Table, filter: seq<Text>, packet: Option<seq<Question>>, encodes: bool): (Table, Outcome) {
    if packet.None? then (t, BadPacket)
    else if packet.value == [] then (t, NoQuestion)
    else
      var q := packet.value[0];
      if !Wanted(filter, q) then (t, Upstream)
      else
        var (t', ip) := Resolve(t, q.name);
        if ip.None? then (t', NoCursor)
        else if !encodes then (t', BadAnswer)
        else (t', Response(if q.qtype.TypeA? then ip else None))
  }

  /** In every state that a run of queries can reach: the cursor never runs out; only a wanted first
      question touches the table, and then exactly as one resolution of its name; an answer with an
      address maps back to the name that was asked. */
  lemma ProcessAnswersTruthfully(domains: seq<Text>, filter: seq<Text>, packet: Option<seq<Question>>, encodes: bool)
    ensures var t := Resolves(EmptyTable(), domains);
      var (t', o) := Process(t, filter, packet, encodes);
      var wanted := packet.Some? && packet.value != [] && Wanted(filter, packet.value[0]);
      && o != NoCursor
      && (!wanted ==> t' == t && !o.Response?)
      && (wanted ==> t' == Resolves(EmptyTable(), domains + [packet.value[0].name]))
      && (o.Response? <==> wanted && encodes)
      && (o.Response? ==> (o.answer.Some? <==> packet.value[0].qtype.TypeA?))
      && (o.Response? && o.answer.Some? ==>
            o.answer.value in t'.ipToDomain && t'.ipToDomain[o.answer.value] == packet.value[0].name)
  {
    TableRefinesLog(domains);
    if packet.Some? && packet.value != [] {
      var d := packet.value[0].name;
      ResolveRefines(Resolves(EmptyTable(), domains), LogOf(domains), d);
      var all := domains + [d];
      assert all[..|all| - 1] == domains;
    }
  }

  ghost predicate Around(text: Text, before: Text, part: Text, after: Text) { text == before + part + after }

  /** A rule occurs in a name exactly if the name is the rule with something before and after it. */
  lemma ContainsExactly(text: Text, part: Text)
    ensures Contains(text, part) <==> exists before, after :: Around(text, before, part, after)
  {
    if Contains(text, part) {
      var k: nat :| k <= |text| && OccursAt(text, part, k);
      assert Around(text, text[..k], part, text[k + |part|..]);
    }
    if exists before, after :: Around(text, before, part, after) {
      var before, after :| Around(text, before, part, after);
      assert OccursAt(text, part, |before|);
    }
  }

  /** The question is one for the fake resolver: an internet question of type A, AAAA or HTTPS whose printed
      name, with a final dot if it is fully qualified, meets a rule: the rule `*`, or one that occurs in it. */
  ghost predicate Ours(filter: seq<Text>, q: Question) {
    && q.internet && (q.qtype.TypeA? || q.qtype.TypeAAAA? || q.qtype.TypeHTTPS?)
    && exists f :: f in filter && (f == [42] || Contains(q.name + (if q.qualified then [46] else []), f))
  }

  lemma WantedExactly(filter: seq<Text>, q: Question)
    ensures Wanted(filter, q) <==> Ours(filter, q)
  {
    assert q.Printed() == q.name + (if q.qualified then [46] else []);
    if Ours(filter, q) {
      var f :| f in filter && (f == [42] || Contains(q.name + (if q.qualified then [46] else []), f));
      assert f in filter && (Contains(q.Printed(), f) || f == STAR);
    }
    if Wanted(filter, q) {
      var f :| f in filter && (Contains(q.Printed(), f) || f == STAR);
      assert f in filter;
    }
  }

  /** Every outcome, exactly, in every state that a run of queries can reach.  What is not ours goes
      upstream with the table untouched; what is, is resolved and answered, with the address if the
      question is of type A, unless the answer cannot be encoded. */
  lemma ProcessExactly(domains: seq<Text>, filter: seq<Text>, packet: Option<seq<Question>>, encodes: bool)
    ensures var t := Resolves(EmptyTable(), domains); var (t', o) := Process(t, filter, packet, encodes);
      && (o == BadPacket <==> packet.None?) && (o == NoQuestion <==> packet == Some([]))
      && (packet.Some? && packet.value != [] ==>
            var q := packet.value[0];
            && (o == Upstream <==> !Ours(filter, q)) && (o == BadAnswer <==> Ours(filter, q) && !encodes)
            && (!Ours(filter, q) ==> t' == t)
            && (Ours(filter, q) && encodes ==>
                  q.name in t'.domainToIp
                  && o == Response(if q.qtype.TypeA? then Some(t'.domainToIp[q.name]) else None)))
  {
    TableRefinesLog(domains);
    if packet.Some? && packet.value != [] {
      ResolveRefines(Resolves(EmptyTable(), domains), LogOf(domains), packet.value[0].name);
      WantedExactly(filter, packet.value[0]);
    }
  }

  /** `FakeDNSInner`. */
  class FakeDnsServer {
    var ipToDomain: map<nat, Text>
    var domainToIp: map<Text, nat>
    var cursor: nat
    var filter: seq<Text>

    function View(): Table
      reads this
    { Table(ipToDomain, domainToIp, cursor) }

    constructor ()
      ensures View() == EmptyTable() && filter == []
    {
      ipToDomain, domainToIp, cursor, filter := map[], map[], RANGE_START, [];
      new;
      FirstCursor();
      var ok := PrepareNextCursor();
    }

    method PrepareNextCursor() returns (ok: bool)
      modifies this`cursor
      ensures match NextCursor(old(cursor), 3)
              case Some(next) => ok && cursor == next
              case None => !ok && cursor == Bump(Bump(Bump(old(cursor))))
    {
      for i := 0 to 3
        invariant NextCursor(old(cursor), 3) == NextCursor(cursor, 3 - i)
        invariant cursor == [old(cursor), Bump(old(cursor)), Bump(Bump(old(cursor))), Bump(Bump(Bump(old(cursor))))][i]
      {
        cursor := cursor + 1;
        if cursor >= RANGE_END { cursor := RANGE_START; }
        if HostByte(cursor) { return true; }
      }
      return false;
    }

    method AllocFakeIp(domain: Text) returns (ip: Option<nat>)
      modifies this`ipToDomain, this`domainToIp, this`cursor
      ensures (View(), ip) == Alloc(old(View()), domain)
    {
      if cursor in ipToDomain {
        domainToIp := domainToIp - {ipToDomain[cursor]};
      }
      ipToDomain := ipToDomain[cursor := domain];
      domainToIp := domainToIp[domain := cursor];
      assert old(domainToIp) - {} == old(domainToIp);
      assert View() == Record(old(View()), domain);
      var given := cursor;
      var ok := PrepareNextCursor();
      ip := if ok then Some(given) else None;
    }

    method Accept(text: Text) returns (ok: bool)
      ensures ok == Accepts(filter, text)
    {
      for i := 0 to |filter|
        invariant forall k :: 0 <= k < i ==> !Contains(text, filter[k]) && filter[k] != STAR
      {
        if Contains(text, filter[i]) || filter[i] == STAR { return true; }
      }
      return false;
    }

    method ProcessDnsPacket(packet: Option<seq<Question>>, encodes: bool) returns (o: Outcome)
      modifies this`ipToDomain, this`domainToIp, this`cursor
      ensures (View(), o) == Process(old(View()), filter, packet, encodes)
    {
      if packet.None? { return BadPacket; }
      if packet.value == [] { return NoQuestion; }
      var q := packet.value[0];
      if !q.internet { return Upstream; }
      if q.qtype.OtherType? { return Upstream; }
      var ok := Accept(q.Printed());
      if !ok { return Upstream; }
      var ip: Option<nat>;
      if q.name in domainToIp {
        ip := Some(domainToIp[q.name]);
      } else {
        ip := AllocFakeIp(q.name);
        if ip.None? { return NoCursor; }
      }
      if !encodes { return BadAnswer; }
      return Response(if q.qtype.TypeA? then ip else None);
    }
  }
}
