# rtun: verified models of the tunnel's state machines

rtun carries the traffic of a TUN device: TCP connections are relayed to their destination, or by name
through a SOCKS5 proxy when the destination is a fake address that the tunnel's own DNS handed out; other DNS
queries go to an upstream resolver. This project models the hand-written state machines behind that and
proves what they keep over every run.

`dafny verify dfyconfig.toml` checks everything.

| file | what it models |
|---|---|
| `Io.dfy` | the asynchronous stream and datagram contract: readers, writers and sockets whose answers are an arbitrary plan |
| `Copy.dfy`, `Relay.dfy`, `CopyObjects.dfy` | `net/copy.rs`: copy loop, one direction, two directions with the idle timer; then the same as objects updated in place |
| `FakeDns.dfy` | `fakedns.rs`: the fake-address allocator and its DNS front |
| `DnsSessions.dfy` | `dns_proxy.rs`: ids, sessions, replies and expiry as an interleaved step system |
| `DnsFraming.dfy`, `DnsRecv.dfy`, `DnsSend.dfy`, `DnsObjects.dfy` | `dns_proxy.rs` over TCP and UDP: framing, the receive and send futures, round by round and as objects |
| `DnsSystem.dfy`, `DnsDelivery.dfy` | all tasks together, byte by byte; every round refines `DnsSessions`; what clients and upstream get in every run |
| `DnsSlots.dfy`, `DnsWhole.dfy` | `dns_proxy.rs`: upstream slots and their running flags; slots and tasks as one machine |
| `Cancel.dfy`, `Registry.dfy`, `Connections.dfy` | `cancelable.rs` and the connection registry of `tcp.rs`; all connections with their relays, handles and registry as one machine |
| `Socks5.dfy`, `Tunnel.dfy` | the SOCKS5 client, and the way of a domain from a DNS answer to the proxy |

How the models are built. An operation that the program performs by updating state is a method of a class,
and its postcondition equates the new state and the result with a function of the old state; the theorems are
about those functions, over all plans, schedules and runs. The environment is never assumed to be kind: a
reader or writer may be pending, short or failing at any call, and any task may run next. "Poll again" is a
step of the environment, so the claims are about safety, except where a lemma says what must happen.

What turned out not to hold in general, with the exact condition proved instead:

- The idle timer compares published byte totals, and a direction that writes its last bytes and leaves the
  running state publishes nothing (copy.rs:173-181). The comment at copy.rs:242 promises a timeout only "when
  both upstream and downstream are idle"; `Relay.IdleErrorDespiteProgress` is a run where the poll that
  relays a byte returns the idle error, and `Relay.IdleErrorAfterProgress` one where the error comes one tick
  after a byte, from a poll that relays none. `Relay.IdleErrorExactly` says for every state when the error is
  returned, and `Relay.IdleErrorSilentExactly` for every run when it is deserved: a direction was silent since
  the timer was armed if and only if none of the polls since finished its copy loop with bytes accepted.
- With a buffer of size zero a copy "completes" without copying (`Copy.CopyCompleteExactly`).
- A reply reaches the right client exactly when the session found under its id was allocated fewer than 65536
  ids away from the query it answers (`DnsSessions.DeliveryRightExactly`, and `DnsDelivery.PacketsRightExactly`
  for the packets of every run); `DnsSessions.WrapMisdelivers` is a run at distance 65536.
- A UDP reply reaches the decoder whole exactly if it has at most 1500 bytes (`DnsRecv.DatagramsHandedOver`).
- A cancelled task can be left asleep, exactly when its first waker registration came after the last wake;
  a task that has slept before cannot (`Cancel.StrandedExactly`).
- One connection's insert or removal cancels another exactly when they share a key
  (`Registry.CollateralExactly`, `Registry.ReusedKeyCancelsBoth`).
- SOCKS5 requests with names over 255 bytes go out with a truncated length (`Socks5.RequestRoundTrip`).

## Model

| member | source | states |
|---|---|---|
| Copy.CopyStep | crates/tun/src/net/copy.rs:46-104 | each decision of the copy loop returns or strictly decreases (unread bytes, end of stream not yet seen, bytes held), so a call terminates on every finite source and every writer |
| Copy.RefillExactly | crates/tun/src/net/copy.rs:47-72 | an empty buffer is refilled with exactly as many bytes as the reader gives and the buffer holds; none mean the end of the stream |
| Copy.IdleExactly | crates/tun/src/net/copy.rs:51-59 | while the reader is idle the writer is called only to flush bytes written since the latest flush, once, and the flush is then no longer needed |
| Copy.OfferExactly | crates/tun/src/net/copy.rs:73-89 | all held bytes are offered, and exactly as many leave the buffer as the writer takes |
| Copy.CopyStepLossless | crates/tun/src/net/copy.rs:46-104 | each decision keeps: bytes read = bytes accepted then bytes held, count exact, `need_flush` clear only if all is flushed, no read after end of stream |
| Copy.PollCopyLossless | crates/tun/src/net/copy.rs:36-104 | a whole call keeps the same, never takes bytes back, and returns `Ready` only with everything flushed; `Pending` only when a sub-poll of this call was pending, and with an idle reader only with all flushed or the flush itself pending |
| Copy.PollCopyExactly | crates/tun/src/net/copy.rs:36-104 | a call fails, waits or is ready exactly as its latest sub-polls were answered: each error, pending and zero-byte write, and nothing else, stops it, at once |
| Copy.CopyNeverLosesBytes | crates/tun/src/net/copy.rs:36-104 | the same after any number of polls of a fresh copy, errors and polls after errors included |
| Copy.HealthyCopyNeverFails | crates/tun/src/net/copy.rs:36-104 | over any number of polls a copy between streams that do not fail or take zero bytes never fails, and between streams that do not wait either the first poll finishes it |
| Copy.CopyCompleteExactly | crates/tun/src/net/copy.rs:49-66 | a finished copy delivered the whole stream and its length if and only if the buffer has room or the stream is empty |
| Copy.DirectionKept | crates/tun/src/net/copy.rs:164-190 | one poll of a direction keeps the invariant of its phase: delivered and flushed before shutdown, shut down once, nothing after; `Ready` exactly in `Done`; phases only advance |
| Copy.DirectionExactly | crates/tun/src/net/copy.rs:164-190 | a poll of a direction fails, waits or is ready exactly as its latest sub-polls were answered, shutdown included |
| Copy.PublishedProgressExactly | crates/tun/src/net/copy.rs:173-181 | the published total changes if and only if bytes were accepted and the direction is still running |
| Copy.DirectionsAgree | crates/tun/src/net/copy.rs:124-190 | the two one-direction machines agree on result, phase and both histories |
| CopyObjects.CopyBuf.Refill | crates/tun/src/net/copy.rs:47-72 | the read part of a round, in place, is that decision of the loop |
| CopyObjects.CopyBuf.Offer | crates/tun/src/net/copy.rs:74-88 | one write, in place, is that decision of the loop |
| CopyObjects.CopyBuf.Drain | crates/tun/src/net/copy.rs:73-89 | the write loop empties the buffer or stops with the call's result, without changing what the call computes |
| CopyObjects.CopyBuf.PollCopy | crates/tun/src/net/copy.rs:36-104 | the in-place loop computes `Copy.PollCopy` |
| CopyObjects.OneDirection.Copy | crates/tun/src/net/copy.rs:164-190 | the in-place machine computes `CopyDirection` |
| CopyObjects.OneDirection.Transfer | crates/tun/src/net/copy.rs:124-149 | the in-place machine computes `TransferDirection` |
| CopyObjects.TimedRelay.Settle | crates/tun/src/net/copy.rs:240-260 | results of two unfailed polls and the timer are combined as `Combine` says |
| CopyObjects.TimedRelay.Copy | crates/tun/src/net/copy.rs:209-261 | the in-place relay computes `RelayPoll`; a failed first direction leaves the second unpolled |
| CopyObjects.TimedRelay.SimpleCopy | crates/tun/src/net/copy.rs:295-301 | the in-place simple relay computes `SimplePoll` |
| Relay.RunOk | crates/tun/src/net/copy.rs:209-285 | every state of every pending run keeps both directions' invariants, exact totals and sources |
| Relay.RelayComplete | crates/tun/src/net/copy.rs:209-261 | on `Ok((x, y))` each side received, flushed and was then shut down after exactly the other's whole stream; x and y are the lengths; no reader is polled after its end |
| Relay.RelayDeliversAcross | crates/tun/src/net/copy.rs:209-285 | on `Ok` the writer of B has exactly A's stream, flushed and shut down, and the other way round, with both lengths returned in that order |
| Relay.HealthyRelayNeverFails | crates/tun/src/net/copy.rs:209-261 | between streams that do not fail or take zero bytes no poll of any run fails except by the idle timer |
| Relay.PromptRelayFinishes | crates/tun/src/net/copy.rs:209-285 | between streams that never wait the first poll relays both streams whole |
| Relay.RelayResultExactly | crates/tun/src/net/copy.rs:222-260 | each error is returned if and only if the first direction, or else the second, failed with it; a failed first leaves the second unpolled; `Ok` if and only if both are done |
| Relay.DoneNeverCutsShort | crates/tun/src/net/copy.rs:240-260 | with one direction done the relay's result, `Ok` with both counts, pending or error, is the other's alone, the timer is untouched, and the idle error is impossible |
| Relay.IdleErrorExactly | crates/tun/src/net/copy.rs:173-257 | in every state: the idle error is returned if and only if both directions are pending, the timer was armed and ran out, and each direction either got nothing accepted or does not publish it, being past copying or finishing its copy loop in this poll |
| Relay.RelayTimerExactly | crates/tun/src/net/copy.rs:240-257 | the timer moves only when both directions wait: silence arms it for now plus the timeout or leaves it armed, published progress disarms it |
| Relay.ArmedByIdlePoll | crates/tun/src/net/copy.rs:244-255 | an armed timer was armed by one poll that found it unarmed, at its time plus the timeout, has not changed since, and every poll since looked idle |
| Relay.IdleErrorJustified | crates/tun/src/net/copy.rs:222-261 | an idle error comes at least the timeout after the arming poll, all polls since looked idle, and neither direction is done |
| Relay.IdleErrorSilentExactly | crates/tun/src/net/copy.rs:173-261 | on an idle error of any run, per direction: no byte was accepted since the one poll that armed the timer, the erring poll included, if and only if no poll since then finished the copy loop with bytes accepted |
| Relay.IdleErrorMeansSilence | crates/tun/src/net/copy.rs:222-261 | if both directions are still running, not a byte was written either way since the arming poll |
| Relay.SilenceMeansIdleError | crates/tun/src/net/copy.rs:241-257 | conversely, silence from an unarmed poll on makes the first silent poll after the timeout return the idle error |
| Relay.IdleErrorDespiteProgress | crates/tun/src/net/copy.rs:173-181 | a run in which the poll that relays a byte returns the idle error |
| Relay.IdleErrorAfterProgress | crates/tun/src/net/copy.rs:173-257 | a run in which the idle error comes one tick after a byte was relayed, from a poll that relays none |
| Relay.PollsAgree | crates/tun/src/net/copy.rs:209-303 | from matching states the timed and the simple relay reach matching states and return the same, an idle error being `Pending` |
| Relay.RelaysAgree | crates/tun/src/net/copy.rs:209-303 | at every poll of every run both relays have the same phases and histories, and the same result unless the timer fires |
| FakeDns.SlotsAreTheRange | crates/tun/src/fakedns.rs:72-95 | slots enumerate the addresses of 192.18.0.0/16 with last byte 1 to 254 exactly once |
| FakeDns.AddressDotted | crates/tun/src/fakedns.rs:72-99 | the n-th address is 192.18.a.b with a and b counting through 0 to 255 and 1 to 254, and then again |
| FakeDns.NextCursorCycles | crates/tun/src/fakedns.rs:87-99 | three tries always suffice and lead to the next slot, modulo 65024 |
| FakeDns.CursorNeverFails | crates/tun/src/fakedns.rs:72-99 | from the constructor no advance ever fails, and the n-th leads to slot n modulo 65024 |
| FakeDns.CursorOrbit | crates/tun/src/fakedns.rs:72-99 | the cursor is at a given usable address exactly once per 65024 advances |
| FakeDns.AllocRefines | crates/tun/src/fakedns.rs:173-181 | an allocation appends to the log: old owner gone from both maps, new entry at the cursor's address |
| FakeDns.ResolveRefines | crates/tun/src/fakedns.rs:147-150 | a lookup-or-allocate keeps the refinement and the address maps back to the domain |
| FakeDns.TableRefinesLog | crates/tun/src/fakedns.rs:87-181 | after any queries the maps and cursor are exactly the last 65024 entries of the allocation log, each at its position modulo 65024, and the two maps are inverse to each other |
| FakeDns.LogSpaced | crates/tun/src/fakedns.rs:147-150 | a domain is allocated again only more than 65024 allocations later |
| FakeDns.AddressLifetime | crates/tun/src/fakedns.rs:147-208 | domain and address map to each other through up to 65023 further allocations; the 65024th reassigns the address and removes the domain from both lookups |
| FakeDns.ProcessAnswersTruthfully | crates/tun/src/fakedns.rs:109-171 | in every reachable state: only a wanted question touches the table, as one resolution; a response is given exactly then; an answered address maps back to the name asked |
| FakeDns.ProcessExactly | crates/tun/src/fakedns.rs:109-171 | every outcome exactly: invalid packet, no question, upstream with the table untouched if and only if not an internet question of type A, AAAA or HTTPS whose printed name meets a rule, unencodable answer, or the response with the address exactly for type A |
| FakeDns.ContainsExactly | crates/tun/src/fakedns.rs:187-194 | a rule occurs in a name if and only if the name is the rule with something before and after it |
| FakeDns.FakeDnsServer.PrepareNextCursor | crates/tun/src/fakedns.rs:87-99 | the three-try loop computes `NextCursor`, failing exactly when it does |
| FakeDns.FakeDnsServer.AllocFakeIp | crates/tun/src/fakedns.rs:173-181 | the in-place allocation computes `Alloc` |
| FakeDns.FakeDnsServer.Accept | crates/tun/src/fakedns.rs:187-194 | true exactly if some rule is `*` or occurs in the name |
| FakeDns.FakeDnsServer.ProcessDnsPacket | crates/tun/src/fakedns.rs:109-171 | the in-place query computes `Process`, error cases included |
| DnsSessions.StepKeepsRecords | crates/tun/src/dns_proxy.rs:127-202 | every step keeps the counter in step with the allocations and each session true to its query |
| DnsSessions.StepKeepsOneLife | crates/tun/src/dns_proxy.rs:195-383 | every step keeps: an allocation is held once, recorded once, delivered once |
| DnsSessions.UnexpiredExactly | crates/tun/src/dns_proxy.rs:434-442 | a sweep keeps exactly the sessions younger than one second more than the timeout |
| DnsSessions.DeliveriesAreOfQueries | crates/tun/src/dns_proxy.rs:364-383 | under any schedule and any wrap a delivery uses the addresses and original id of one query, and no query twice |
| DnsSessions.SessionStaysExactly | crates/tun/src/dns_proxy.rs:364-443 | a session leaves the map exactly by a reply with its id, a new session under its id, or expiry |
| DnsSessions.DeliveryRightExactly | crates/tun/src/dns_proxy.rs:364-383 | the session found belongs to the query answered if and only if the two were allocated fewer than 65536 apart |
| DnsSessions.RepliesReachTheirClients | crates/tun/src/dns_proxy.rs:127-202 | for any interleaving with outstanding queries spanning fewer than 65536 allocations, every reply goes to its own client, from the server asked, under the original id, at most once per query |
| DnsSessions.WrapMisdelivers | crates/tun/src/dns_proxy.rs:137-200 | a run at a span of 65536, the queries in between skipped as unencodable, in which the reply to a query whose session is still in hand goes to the wrong client |
| DnsFraming.DeframeUndoesFrame | crates/tun/src/dns_proxy.rs:70-78 | taking a stream of frames apart gives back the non-empty payloads and no rest |
| DnsFraming.FrameBytes | crates/tun/src/dns_proxy.rs:70-78 | a frame is the length in two bytes, the higher first, and the payload; none exists above 65535 bytes |
| DnsFraming.DeframeResumes | crates/tun/src/dns_proxy.rs:295-363 | a stream can be taken apart piecewise from its incomplete frame |
| DnsRecv.RecvStepReassembles | crates/tun/src/dns_proxy.rs:264-386 | every round keeps: payloads handed to the decoder and frame in progress are exactly what the bytes read come apart to; over UDP, exactly the datagrams received, cut to the buffer |
| DnsRecv.ReassemblyUndoesFraming | crates/tun/src/dns_proxy.rs:295-363 | for any payloads of up to 65535 bytes and any chopping into reads, the decoder gets a prefix of the non-empty payloads in order, and all of them once the stream is read; empty and undecodable frames do not desynchronise |
| DnsRecv.DatagramsHandedOver | crates/tun/src/dns_proxy.rs:271-294 | over any rounds the decoder gets one payload per datagram received, in order; all of them whole if and only if none exceeds 1500 bytes |
| DnsRecv.RecvStepHandsOver | crates/tun/src/dns_proxy.rs:264-386 | a round hands over at most one payload and takes none back; it ends waiting for the lock with a new message exactly if that payload decodes |
| DnsRecv.RecvStepProvenance | crates/tun/src/dns_proxy.rs:352-366 | a message waiting for the lock is what the decoder made of the latest payload, so the unwrap cannot fail |
| DnsRecv.AnswerExactly | crates/tun/src/dns_proxy.rs:364-383 | with the lock the reply's session and no other is removed, and exactly one packet goes out, from the server asked to the client under its own id, if and only if there is a session and the message encodes |
| DnsRecv.RecvEndsExactly | crates/tun/src/dns_proxy.rs:264-386 | a round is cancelled if and only if the flag is cleared, changing nothing; otherwise it ends closed, failed, waiting or going on exactly as the upstream answers or the lock is obtained |
| DnsSend.SendStepWritesFrames | crates/tun/src/dns_proxy.rs:125-204 | every round keeps: bytes written = whole frames in dequeue order, then `sendn` bytes of the current one, or one datagram per message to the server its client asked; the session in hand is that of the latest message taken |
| DnsSend.UpstreamSeesWholeMessages | crates/tun/src/dns_proxy.rs:125-204 | at every moment of every run the bytes written come apart to exactly the messages sent, under their new ids, and the frame in progress; over UDP the datagrams are exactly those messages; skipped messages emit nothing |
| DnsSend.DequeuedInOrder | crates/tun/src/dns_proxy.rs:127-140 | messages leave the channel in order, each once and with its peer |
| DnsSend.SendEndsExactly | crates/tun/src/dns_proxy.rs:125-204 | a send task ends if and only if its channel is closed and empty between two messages or a write fails; it goes on exactly when it took a message, sent one whole or recorded one |
| DnsSend.DequeueExactly | crates/tun/src/dns_proxy.rs:127-164 | a message taken gets the counter's id, the counter moves on modulo 65536, the session keeps the client's addresses, own id and the time, and exactly the bytes of its frame or datagram are to be sent unless it cannot be encoded or framed |
| DnsSend.WriteExactly | crates/tun/src/dns_proxy.rs:166-185 | all that is left of a frame is offered, and as much goes as the upstream takes |
| DnsSend.InsertExactly | crates/tun/src/dns_proxy.rs:195-202 | once a message is sent its session is recorded under its new id with the client's addresses and own id, and no other session changes |
| DnsObjects.SendFut.Dequeue | crates/tun/src/dns_proxy.rs:127-164 | the in-place dequeue computes `DequeueStep` for either protocol |
| DnsObjects.SendFut.Write | crates/tun/src/dns_proxy.rs:166-194 | the in-place write or datagram send computes `WriteStep` |
| DnsObjects.SendFut.Poll | crates/tun/src/dns_proxy.rs:115-205 | the in-place poll computes `SendPoll` on the task and the shared state, and terminates |
| DnsObjects.SendPollIsRounds | crates/tun/src/dns_proxy.rs:125-204 | a poll is consecutive rounds, each with its own readings of clock and lock, up to the first that does not go on |
| DnsObjects.RecvFut.ReadHeader | crates/tun/src/dns_proxy.rs:299-330 | the in-place header read computes `HeaderStep` |
| DnsObjects.RecvFut.ReadBody | crates/tun/src/dns_proxy.rs:331-363 | the in-place body read computes `BodyStep` |
| DnsObjects.RecvFut.ReceiveDatagram | crates/tun/src/dns_proxy.rs:271-294 | the in-place datagram receive computes `DatagramStep` |
| DnsObjects.RecvFut.Answer | crates/tun/src/dns_proxy.rs:364-383 | the session is removed and one packet goes out under the original id, or nothing |
| DnsObjects.RecvFut.Poll | crates/tun/src/dns_proxy.rs:253-388 | the in-place poll computes `RecvPoll` on the task, the map and the tunnel, and terminates |
| DnsObjects.RecvPollIsRounds | crates/tun/src/dns_proxy.rs:264-387 | a poll is consecutive rounds, each with its own readings of flag and lock, up to the first that does not go on, and writes the packets of all of them in order |
| DnsObjects.ProxyState.Sweep | crates/tun/src/dns_proxy.rs:430-443 | exactly the sessions older than the timeout, in whole seconds, are removed |
| DnsSystem.SendRefines | crates/tun/src/dns_proxy.rs:125-204 | every round of a send task, over TCP or UDP, failed and skipped sends included, is a sequence of protocol steps |
| DnsSystem.RecvRefines | crates/tun/src/dns_proxy.rs:264-386 | every round of a receive task, over TCP or UDP, cancellation included, is a sequence of protocol steps |
| DnsSystem.SystemRefinesProtocol | crates/tun/src/dns_proxy.rs:112-389 | for every run of all tasks at byte level one run of the session protocol passes, in order, through what each state of the run stands for |
| DnsDelivery.PacketsReachTheirClients | crates/tun/src/dns_proxy.rs:112-389 | with outstanding queries spanning fewer than 65536 allocations, every packet written to the tunnel carries the decoded payload that answers a query, to the client who asked it, from the server asked, under the original id, one per query |
| DnsDelivery.PacketsRightExactly | crates/tun/src/dns_proxy.rs:112-389 | in every run, with no bound on the span, each packet carries the answer to one query to the client of a query with the same wire id, used once; the two queries are the same if and only if allocated fewer than 65536 apart |
| DnsDelivery.QueriesGoUpstream | crates/tun/src/dns_proxy.rs:112-205 | in every run each query is taken by exactly one send task, once, under wire id 1 + its number modulo 65536, and each upstream sees exactly the messages its task has sent, in order |
| DnsDelivery.NoSessionLost | crates/tun/src/dns_proxy.rs:195-443 | in every run a recorded session stays until a sweep finds it too old, a newer one takes its id, or a reply arrives; and then the client's packet is written unless that reply cannot be encoded |
| DnsDelivery.EverySentIsRecorded | crates/tun/src/dns_proxy.rs:166-202 | in every run a send task lets go of a message it was sending only by recording its session under the id that went upstream |
| DnsSlots.StartKeeps | crates/tun/src/dns_proxy.rs:476-534 | starting an upstream keeps flags and slots in step and stops the one it replaces; a failed start changes nothing |
| DnsSlots.ClearKeeps | crates/tun/src/dns_proxy.rs:453-458 | clearing empties every slot and clears every flag |
| DnsSlots.SlotsReachable | crates/tun/src/dns_proxy.rs:404-586 | in every reachable state a running flag is set exactly when its sender occupies a slot, and at most `max_upstream` are |
| DnsSlots.ReplacedNeverRuns | crates/tun/src/dns_proxy.rs:404-409 | a cleared flag stays cleared through any further events |
| DnsSlots.SendEffect | crates/tun/src/dns_proxy.rs:536-586 | round robin; a working slot and a failed restart leave all slots as they were; a successful restart replaces and stops |
| DnsSlots.SendsConserved | crates/tun/src/dns_proxy.rs:517-586 | over any sends, restarts, failures and clears the messages on all channels together are exactly those whose send returned `Ok` |
| DnsSlots.DnsProxy.Send | crates/tun/src/dns_proxy.rs:536-586 | the in-place send computes `SendVia`, channel content included, and fails exactly when a needed start fails |
| DnsSlots.DnsProxy.Clear | crates/tun/src/dns_proxy.rs:453-458 | the clear loop computes `ClearFrom` |
| DnsWhole.WholeIsSystemRun | crates/tun/src/dns_proxy.rs:112-586 | every run of slots and tasks together, a channel being open while its send task has not ended, ends as a run of the system of tasks does |
| DnsWhole.AcceptedGoUpstream | crates/tun/src/dns_proxy.rs:125-586 | in every such run the messages on all channels are exactly those whose `send` returned `Ok`; each channel holds what its send task has taken, in order, then what waits; each message taken goes up under its own wire id; a channel is closed exactly when its flag is cleared |
| DnsWhole.DroppedFallsSilent | crates/tun/src/dns_proxy.rs:264-409 | once an upstream's sender is dropped its receive task has at most the one round left that it had loaded its flag for; its next flag load ends it without writing a packet or touching a session |
| DnsWhole.WholePacketsRight | crates/tun/src/dns_proxy.rs:112-586 | every packet of such a run carries the answer to one query to the client of a query with the same wire id, used once; the two are the same if and only if allocated fewer than 65536 apart |
| DnsWhole.UpstreamsLast | crates/tun/src/dns_proxy.rs:125-586 | in every run an upstream in a slot has an ended send task only if its latest send failed, and an ended receive task only if its upstream failed or closed; otherwise its channel is open |
| Cancel.StepKeeps | crates/tun/src/cancelable.rs:12-74 | every atomic access keeps the ordering facts between load, registration, store and wake |
| Cancel.CancelIsFinal | crates/tun/src/cancelable.rs:61-73 | once the flag is set every later poll returns `Cancelled`; the inner future is polled at most once more, exactly by a poll that had loaded the flag before |
| Cancel.StrandedOnlyInTheGap | crates/tun/src/cancelable.rs:13-73 | a parked, cancelled, unwoken task is on its first registration, and every cancel fell between that poll's flag load and the registration |
| Cancel.StrandedExactly | crates/tun/src/cancelable.rs:13-73 | of all tasks parked when a cancel has completed, exactly those on their first registration, made after the last wake, are stranded |
| Cancel.StrandedIsReachable | crates/tun/src/cancelable.rs:61-73 | such a run exists |
| Cancel.Cancelable.Cancel | crates/tun/src/cancelable.rs:13-24 | an uninterrupted cancel is a store followed by a wake |
| Cancel.Cancelable.Poll | crates/tun/src/cancelable.rs:61-73 | an uninterrupted poll is load, inner poll, registration: cancelled if the flag is set, else what the inner future yields, else pending with the waker registered |
| Cancel.PollNext | crates/tun/src/cancelable.rs:82-96 | a cancelled stream yields `Cancelled` without touching the inner stream; otherwise pending, end or item as the inner stream answers |
| Registry.StepKeeps | crates/tun/src/tcp.rs:43-162 | every step keeps: a registered task's handle is in the map if and only if the task is not cancelled |
| Registry.ClearReachesEveryone | crates/tun/src/tcp.rs:46-51 | a clear-all sets the flag of every registered task and empties the map |
| Registry.GoneForGood | crates/tun/src/tcp.rs:117-162 | a task that gave up connecting or removed its key never registers again |
| Registry.CollateralExactly | crates/tun/src/tcp.rs:143-162 | an insert or remove cancels another task if and only if it is registered under the same key |
| Registry.OnlyClearCancels | crates/tun/src/tcp.rs:133-162 | while no two unfinished tasks share a key, a registered task keeps its own handle, uncancelled, until a clear-all or its own removal |
| Registry.ReusedKeyCancelsBoth | crates/tun/src/tcp.rs:143-162 | with a reused key both connections end up cancelled |
| Registry.TcpConnects.Insert | crates/tun/src/tcp.rs:143-147 | the displaced handle's task is cancelled, the map holds the new one, the count is its size |
| Registry.TcpConnects.Remove | crates/tun/src/tcp.rs:158-162 | whichever handle is under the key is dropped and its task cancelled |
| Registry.TcpConnects.Clear | crates/tun/src/tcp.rs:49-50 | all handles are dropped and their tasks cancelled |
| Connections.EveryRelayInStep | crates/tun/src/tcp.rs:134-156 | in every run of all connections, with polls, clear-alls, key reuse and cancels interleaved at each atomic access, each side has received only the beginning of the other side's stream; a task that yields `Ok` relayed both streams whole |
| Connections.ClearStopsEveryRelay | crates/tun/src/tcp.rs:46-162 | a clear-all takes the handle of every registered connection; once its flag is stored the relay is polled at most once more, exactly if a poll had loaded the flag before, later loads end as cancelled, and the bytes received stay the beginning of the stream |
| Connections.UndisturbedUntilClear | crates/tun/src/tcp.rs:133-162 | while no two unfinished tasks share a key, a registered connection's flag is not stored and it does not end as cancelled before a clear-all or its own removal |
| Socks5.GreetingRoundTrip | crates/tun/src/socks5/mod.rs:122-128 | a greeting followed by anything decodes to its methods if and only if there are at most 255 |
| Socks5.RequestRoundTrip | crates/tun/src/socks5/mod.rs:182-208 | a request followed by any payload decodes to itself and the payload if and only if its name has at most 255 bytes |
| Socks5.MessageBytes | crates/tun/src/socks5/mod.rs:122-208 | the greeting is 5, 1, 0; a request is 5, 1, 0, then 1, 4 or 3 with the address, the name after its length, and the port with the higher byte first |
| Socks5.ReplyRoundTrip | crates/tun/src/socks5/mod.rs:54-86 | codes survive; a reply does unless it is `OtherReply` of a named code |
| Socks5.ReplyNames | crates/tun/src/socks5/mod.rs:71-86 | the reply of each code from 0 to 8 by name; other codes have none of them |
| Socks5.ResponseRoundTrip | crates/tun/src/socks5/mod.rs:225-277 | a response with an IPv4 or IPv6 address is read back exactly, and not a byte further |
| Socks5.ResponseWasSent | crates/tun/src/socks5/mod.rs:225-277 | a response that is read was on the wire as the encoding of its reply and address |
| Socks5.AcceptedConnects | crates/tun/src/socks5/tcp_client.rs:29-53 | on an accepting server `connect` succeeds, has written greeting and request only, and leaves the first application byte unread |
| Socks5.ConnectExactly | crates/tun/src/socks5/tcp_client.rs:29-53 | `connect` succeeds, with a given rest unread, if and only if the server sent method 0 and reply 0 with valid versions followed by that rest |
| Socks5.HandshakeExactly | crates/tun/src/socks5/tcp_client.rs:29-53 | every outcome exactly, in terms of the bytes the server sends: connected, refused with the code's reply, wrong version, wrong method, unimplemented address type; and exactly what has been written in each case |
| Socks5.ProxyStream.ReadReply | crates/tun/src/socks5/mod.rs:225-277 | the in-place read computes `ReadResponse`, error cases included |
| Socks5.ProxyStream.Connect | crates/tun/src/socks5/tcp_client.rs:29-53 | the in-place handshake computes `Handshake`, error cases included |
| Tunnel.DomainReachesProxy | crates/tun/src/tcp.rs:98-116 | a domain given a fake address is, up to 65023 allocations later, exactly what an accepting proxy is asked for when a client connects to that address |
| Tunnel.RouteExactly | crates/tun/src/tcp.rs:98-116 | after any queries a connection goes through the proxy by the name that holds its address now, if one does, and directly to its own destination otherwise |

## Left out

- Wake-up liveness: several `Pending` returns of `dns_proxy.rs` and the idle `Sleep` register no wake-up, so
  nothing is claimed about when a task is polled again.
- The 64-bit byte totals of `net/copy.rs` are unbounded here; they do not wrap in practice.
- DnsSlots.DnsProxy.Send: does not model the listen port or the sockets behind an upstream; whether a channel
  still has its receiver and whether a start succeeds are parameters.
- A `max_upstream` of 0, on which `send` divides by zero: `DnsSlots` assumes at least one slot.
- DnsObjects.RecvFut.Poll: within one poll the session map changes only by this task, as in the next line.
- DnsObjects.SendFut.Poll: within one poll the counter and map change only by this task; interleaving inside a
  poll is covered round by round in `DnsSystem`.
- Cancel.Cancelable.Poll: runs without interleaving; interleavings are the step system of the same file.
- DNS message encoding and decoding, flags and TTL of the answer: an arbitrary partial codec.
- Tokio's channels, mutexes, timers and `AtomicWaker` beyond their contracts (FIFO, mutual exclusion, elapsed
  after a deadline, wakes what was registered last).
- Connect timeouts and socket creation in `tcp.rs`, and `udp.rs`: forwarding around the machines modelled here.
- `cmd.rs`, `lib.rs`, `power.rs`, `option.rs`, `net/sys`, rule files: platform calls and configuration.
