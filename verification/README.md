# Verified model of the ombrac tunnel's data paths

ombrac carries TCP streams and UDP datagrams over a QUIC connection, from a SOCKS5 or TUN
endpoint on the client to a server that opens the real connections. This project models, in
Dafny, the parts of it where bytes, addresses, wake-ups and connections could be lost, repeated
or confused, and proves that they are not; where the code does less than one would expect, it
proves exactly when.

Concurrency is modelled as step systems: each atomic access, lock, await point and environment
event is one step, steps interleave freely, and the results are about every run. The operations
that the program writes as methods over mutable objects are also written here as Dafny classes
and methods with the same branches; each is shown to have its stated effect when nothing
interrupts it and to be a run of the step system (`Reaches`), so that the results about all runs
apply to it.

| files | part of the program |
|---|---|
| `Protocol`, `Reassembly`, `ReassemblyRoundTrip`, `ReassemblyAnyTraffic`, `ReassemblyInterleaving`, `ReassemblyOverlap` | UDP fragmentation and reassembly |
| `TcpBridge`, `TcpBridgeInvariant`, `TcpBridgeResults`, `TcpBridgeTokens`, `TcpBridgeEnd`, `TcpBridgeServed`, `TcpBridgeAbandoned`, `TcpBridgeEndOfStream`, `TcpBridgeMethods`, `FlowDispatch` | the userspace TCP bridge and the dispatcher in front of its workers |
| `FakeDnsPool`, `FakeDnsConservation`, `FakeDnsAgreement`, `FakeDnsMethods` | the fake DNS address allocator |
| `Backoff`, `Reconnect`, `ReconnectProofs`, `ReconnectResults`, `ReconnectMethods` | the client's shared connection: generations and retry pacing |
| `Streams`, `LengthCodec`, `FramedStream`, `CopyLoop`, `CopyMethods`, `Handover` | handshake frames, the switch to raw bytes, the copy loop |
| `Socks5`, `Socks5Methods` | the SOCKS5 wire form (RFC 1928, sections 4, 5 and 7) |
| `Base`, `Runs` | integer widths, sequence vocabulary, runs of a step relation |

Findings that are stated as theorems rather than assumed away:

- A datagram survives splitting and reassembly if and only if it has at most 256 fragments
  (`RoundTripExactly`); longer ones are never returned, under any delivery.
- A call emits if and only if its fragment brings the last missing index of the count its key
  committed to and an address has come by then, for arbitrary traffic (`EmitsExactly`). So when
  the indices become complete, a datagram is returned if and only if some first fragment carried
  an address (`CompletionEmitsIffAddressed`); if none did, nothing is ever returned, whatever comes
  later (`UnaddressedStallsForGood`, with a concrete input in `StalledBufferExists`).
- A parked reader, writer or flusher can be left parked when the worker lets go of the
  connection, by pruning it or because the worker's task ends. From every reachable state the
  exact condition is that it has not been woken and its wake is not certain
  (`ReaderAbandonedExactly`, `SenderAbandonedExactly`); pruning alone abandons a reader exactly
  when, besides, the socket is no longer active (`ReaderPrunedExactly`).
- Once the end of the stream is recorded, a parked reader is woken if and only if it has been or
  the wake is due at that moment; otherwise never, in any continuation
  (`EndOfStreamDecidesReaders`). A reader that checks the flag before the wake is spent and
  registers after it is lost this way (`LateRegistrationIsLost`, reachable on a connected socket
  by `EndOfStreamWakeCanBeLost`), because the flag is not read again after registering; readers
  that registered earlier are safe (`EndOfStreamWakesEarlyReaders`).
- The two fake DNS maps agree exactly as long as no reverse entry leaves between the two inserts
  of its query (`MapsAgree`, `DisturbedRunsCanDisagree`).
- A retry "on the new connection" can run on the very connection that failed, because the
  connection is loaded before the id. It can from exactly those states in which the connection a
  task has loaded is newer than the id it is about to load (`RetryCanRepeatExactly`); otherwise it
  is strictly newer (`RetryIsNewer`).
- SOCKS5 addresses come back from the wire exactly when the wire can carry them: no flow or scope
  on IPv6, and names of 1 to 255 bytes (`RoundTripExactly` in `Socks5`). `TryFrom` lets an empty
  name and scoped addresses through (`ConvertedSurvives`).

The comment on `with_retry` says the retry uses the new connection; the code, followed here, only
guarantees what `RetryIsNewer` and `RetryCanRepeatExactly` state.

## Model

| member | source | states |
|---|---|---|
| Protocol.ChunksJoin | crates/ombrac/src/protocol.rs:141-145 | the chunks a datagram is cut into join back to it |
| Protocol.SplitsExactly | crates/ombrac/src/protocol.rs:141-166 | splitting fails exactly when the number of fragments is a multiple of 65536, as for no data; else there are as many fragments as it takes, each with its slice of the data |
| ReassemblyRoundTrip.SplitGivesParts | crates/ombrac/src/protocol.rs:133-166 | with at most 256 fragments they are numbered from 0, all carry the count, only the first carries the address, and their data joins to the datagram |
| Reassembly.AddKeepsWellFormed | crates/ombrac/src/reassembly.rs:64-126 | before an emission the counter equals the filled slots, after it the counter stays above the count so no second emission is possible, and it never exceeds 512 |
| Reassembly.AddAcceptsExactly | crates/ombrac/src/reassembly.rs:76-120 | exactly which fragments are taken, and that a refusal changes no filled slot, known address or known count |
| Reassembly.CompleteEmitsInOrder | crates/ombrac/src/reassembly.rs:133-160 | a complete buffer that has not emitted emits its fragments in index order and becomes spent |
| Reassembly.FullBufferTakesNothing | crates/ombrac/src/reassembly.rs:91-120 | a full buffer that has not emitted refuses every fragment and keeps its slots: one step of the stall that `FullNeverEmits` follows over whole runs |
| Reassembly.StalledBufferExists | crates/ombrac/src/reassembly.rs:91-120 | a concrete input that stalls, its address stored by a fragment that is refused; exactly which traffic stalls is `CompletionEmitsIffAddressed` |
| Reassembly.ProcessInSteps | crates/ombrac/src/reassembly.rs:208-238 | one call of `process` is look up or create, add, then emit and forget |
| Reassembly.ReassemblyBuffer.AddFragment | crates/ombrac/src/reassembly.rs:64-121 | the field updates of `add_fragment` implement the specified step, counter included |
| Reassembly.ReassemblyBuffer.AssembleAndTake | crates/ombrac/src/reassembly.rs:133-160 | the taking loop yields the fragments joined in index order and empties every slot |
| Reassembly.UdpReassembler.ProcessPacket | crates/ombrac/src/reassembly.rs:193-240 | `process` on the cache of shared buffers changes only its key's entry, as specified; an unfragmented packet is returned as it is and changes nothing |
| Reassembly.UdpReassembler.Evict | crates/ombrac/src/reassembly.rs:177-184 | expiry drops one entry and leaves the others |
| ReassemblyRoundTrip.ReassemblesExactly | crates/ombrac/src/reassembly.rs:193-240 | for every order, duplication and mix with other keys, a call returns the original exactly when it completes the indices delivered since the last completion |
| ReassemblyRoundTrip.EmitsOnLastMissingIndex | crates/ombrac/src/reassembly.rs:211-238 | the first emission is the first arrival of the last missing index, and nothing is returned earlier |
| ReassemblyRoundTrip.LongDatagramNeverReturns | crates/ombrac/src/reassembly.rs:76-79 | a datagram of more than 256 fragments is never returned, whatever arrives in whatever order |
| ReassemblyRoundTrip.RoundTripExactly | crates/ombrac/src/protocol.rs:133-166 | split then process returns the original if and only if there are at most 256 fragments |
| ReassemblyAnyTraffic.EmitsExactly | crates/ombrac/src/reassembly.rs:64-126 | for arbitrary traffic, a call returns a datagram if and only if its fragment brings the last missing index of the count its key committed to and an address has come by then |
| ReassemblyAnyTraffic.FullNeverEmits | crates/ombrac/src/reassembly.rs:112-120 | a key that has every index but has not emitted never returns anything again, whatever arrives |
| ReassemblyAnyTraffic.CompletionEmitsIffAddressed | crates/ombrac/src/reassembly.rs:91-126 | with one count and any addresses and data, the call that completes the indices returns a datagram if and only if an addressed first fragment has arrived |
| ReassemblyAnyTraffic.UnaddressedStallsForGood | crates/ombrac/src/reassembly.rs:91-120 | if none has arrived by then, no call of the key returns anything, before or after |
| ReassemblyAnyTraffic.WholePassesThrough | crates/ombrac/src/reassembly.rs:195-202 | an unfragmented packet yields its own datagram at once and changes what no key has gathered |
| ReassemblyAnyTraffic.ArrivesAsSent | crates/ombrac/src/reassembly.rs:193-240 | a datagram arrives as sent if and only if it is sent whole or in at most 256 fragments |
| ReassemblyInterleaving.ApplyKeeps | crates/ombrac/src/reassembly.rs:208-238 | every step of overlapping calls keeps the buffers, their sources and the results consistent |
| ReassemblyInterleaving.EmissionsAreSound | crates/ombrac/src/reassembly.rs:203-238 | for arbitrary and malformed traffic, every emitted payload is one delivered fragment per index of its key, all of one count, in index order, and its address was carried by an index-0 fragment of the key |
| ReassemblyInterleaving.BuffersEmitOnce | crates/ombrac/src/reassembly.rs:147-155 | no two calls emit from one buffer, even when late callers still hold it |
| ReassemblyInterleaving.EmissionsNeedDeliveries | crates/ombrac/src/reassembly.rs:211-234 | k emissions of a key need at least k deliveries of every index |
| ReassemblyInterleaving.HonestEmissionsAreOriginal | crates/ombrac/src/reassembly.rs:203-238 | with honest fragments, every datagram returned under any overlap and eviction is the original |
| ReassemblyInterleaving.OverlappingCallsReassemble | crates/ombrac/src/reassembly.rs:208-238 | without eviction of the key, once all indices have been processed by overlapping calls some call has the original |
| ReassemblyOverlap.OverlapEmitsExactly | crates/ombrac/src/reassembly.rs:220-234 | for arbitrary traffic and every overlap, a call emits if and only if its fragment brings the last missing index of what the locked sections before it gathered in its buffer and an address has come by then |
| ReassemblyOverlap.NoEmissionAfterwards | crates/ombrac/src/reassembly.rs:220-234 | once a call has emitted, no later locked section on its buffer does |
| ReassemblyOverlap.BuffersEmitExactly | crates/ombrac/src/reassembly.rs:220-234 | a buffer has emitted if and only if its locked sections completed it, with an address, at some point |
| ReassemblyOverlap.EmissionFreesKey | crates/ombrac/src/reassembly.rs:229-233 | after an emission the key leaves the cache and the result is returned |
| ReassemblyOverlap.NextLookupStartsAfresh | crates/ombrac/src/reassembly.rs:211-218 | the next call of a key that is not cached gets a buffer of its own in which nothing is gathered, so a second complete delivery emits again |
| ReassemblyOverlap.EveryCallCanReturn | crates/ombrac/src/reassembly.rs:211-238 | from every reachable state every call can go on until it has returned; no lock is held for ever |
| TcpBridgeInvariant.NextKeeps | crates/ombrac-netstack/src/tcp.rs:389-496 | every single access of either side keeps conservation, the close order, and the wake-up obligations of reader, writer, flusher and worker |
| TcpBridgeResults.BytesAreConserved | crates/ombrac-netstack/src/tcp.rs:389-458 | in every interleaving the bytes read, in the ring and in the socket are the bytes received in order, and likewise for sending; no ring exceeds its capacity |
| TcpBridgeResults.NoLostApplicationWakeup | crates/ombrac-netstack/src/tcp.rs:573-638 | a reader parked beside bytes, a writer beside space or a flusher beside an empty ring has been woken or is about to be |
| TcpBridgeResults.NoLostWorkerWakeup | crates/ombrac-netstack/src/tcp.rs:201-307 | a worker waiting without a permit has nothing to move, no drop to clean up and no close to carry out |
| TcpBridgeResults.ProgressIsBytes | crates/ombrac-netstack/src/tcp.rs:397-451 | from any reachable state, bytes that can be received or sent are moved, and receiving or sending counts as progress only if bytes moved |
| TcpBridgeResults.OwedWakesAreGiven | crates/ombrac-netstack/src/tcp.rs:434-455 | a wake the worker owes is carried along until it wakes the registered task |
| TcpBridgeResults.CloseComesLast | crates/ombrac-netstack/src/tcp.rs:478-485 | when the socket is closed, the send ring is empty and every accepted byte is already in the socket in order |
| TcpBridgeResults.NothingAcceptedAfterClose | crates/ombrac-netstack/src/tcp.rs:604-611 | once writes are closed no byte is ever accepted again |
| TcpBridgeResults.EndOfStreamWakesEarlyReaders | crates/ombrac-netstack/src/tcp.rs:421-436 | at end of stream every reader parked before the wake was spent is woken |
| TcpBridgeResults.GoneWakesNobody | crates/ombrac-netstack/src/tcp.rs:465-493 | after pruning a connection the worker never wakes its application again |
| TcpBridgeTokens.NextKeepsTokens | crates/ombrac-netstack/src/tcp.rs:573-638 | the waker of one poll is never registered for, or woken as, another's |
| TcpBridgeEnd.NextKeepsEnd | crates/ombrac-netstack/src/tcp.rs:421-493 | a socket that has closed is seen closed once, in the pass under way or the next, and is let go of at the end of that pass |
| TcpBridgeServed.NextServes | crates/ombrac-netstack/src/tcp.rs:201-307 | a wake that is certain stays certain until it comes, whatever step is taken, the worker's exit included |
| TcpBridgeAbandoned.ReaderToGone | crates/ombrac-netstack/src/tcp.rs:201-307 | from any reachable state, a continuation to the end of the connection that never wakes a reader whose wake is not certain; by pruning alone if the socket is inactive |
| TcpBridgeAbandoned.SenderToGone | crates/ombrac-netstack/src/tcp.rs:438-493 | the same for a writer or flusher, always by pruning alone |
| TcpBridgeAbandoned.ReaderAbandonedExactly | crates/ombrac-netstack/src/tcp.rs:201-307 | from any reachable state a parked reader can be abandoned if and only if it has not been woken and its wake is not certain |
| TcpBridgeAbandoned.ReaderPrunedExactly | crates/ombrac-netstack/src/tcp.rs:465-493 | while the worker's task goes on, it can if and only if, besides, the socket is no longer active |
| TcpBridgeAbandoned.SenderAbandonedExactly | crates/ombrac-netstack/src/tcp.rs:438-493 | a parked writer or flusher can be abandoned, and then by pruning alone, if and only if it has not been woken and the pass under way is not about to wake it |
| TcpBridgeEndOfStream.EndOfStreamDecidesReaders | crates/ombrac-netstack/src/tcp.rs:421-436 | once the end of the stream is recorded, a parked reader can ever be woken if and only if it has been or the wake is due now |
| TcpBridgeEndOfStream.LateRegistrationIsLost | crates/ombrac-netstack/src/tcp.rs:573-583 | from any reachable state where a reader passed the check and the end-of-stream wake was spent before it registers, its next two steps park it with nothing left to wake it |
| TcpBridgeEndOfStream.EndOfStreamWakeCanBeLost | crates/ombrac-netstack/src/tcp.rs:573-583 | such a state is reachable on a socket that was connected |
| TcpBridgeMethods.Connection.HandleSocketIo | crates/ombrac-netstack/src/tcp.rs:389-458 | one pass moves as many received bytes as it sees and the ring has space for, some whenever there are both, drains the send ring until it is empty or the socket is full, wakes everyone who is due and nobody else, and is a run of the model; the count of written bytes it returns adds up the room the socket offered, as the source does, and is positive exactly when bytes moved |
| TcpBridgeMethods.Connection.DrainSendRing | crates/ombrac-netstack/src/tcp.rs:438-455 | the send loop moves a prefix of the ring in order and wakes the sender if it moved anything |
| TcpBridgeMethods.Connection.PruneSocket | crates/ombrac-netstack/src/tcp.rs:465-493 | a connection is kept exactly when it is neither dropped nor inactive, and closed exactly when drained after its writes closed |
| TcpBridgeMethods.Connection.PollRead | crates/ombrac-netstack/src/tcp.rs:568-596 | a read takes the oldest bytes that fit off the ring, yields nothing only at the end, and parks with its waker registered exactly when the ring is empty and the stream open |
| TcpBridgeMethods.Connection.PollWrite | crates/ombrac-netstack/src/tcp.rs:599-626 | a write is an error exactly when closed or dropped, parks exactly when full, and else appends a prefix and notifies |
| TcpBridgeMethods.Connection.PollShutdown | crates/ombrac-netstack/src/tcp.rs:628-652 | writes are closed exactly when the send ring is empty, and the worker is notified |
| TcpBridgeMethods.Connection.PollFlush | crates/ombrac-netstack/src/tcp.rs:628-639 | a flush is done exactly when the send ring is empty, else it parks with its waker registered |
| TcpBridgeMethods.Connection.DropStream | crates/ombrac-netstack/src/tcp.rs:655-662 | a dropped stream tells the worker and then notifies it |
| FlowDispatch.BothDirectionsMeet | crates/ombrac-netstack/src/tcp.rs:134-155 | both directions of a connection hash to one worker |
| FlowDispatch.HashesLowerFirst | crates/ombrac-netstack/src/tcp.rs:138-150 | the lower endpoint is hashed first, whichever way the packet goes |
| FlowDispatch.EveryWorkerServes | crates/ombrac-netstack/src/tcp.rs:134-155 | which worker a connection gets is up to the hash alone, and everything that is not TCP goes to worker 0 |
| FlowDispatch.HandedExactly | crates/ombrac-netstack/src/tcp.rs:126-170 | handed over are exactly the packets before the first event that stops the dispatcher |
| FlowDispatch.RoutesExactly | crates/ombrac-netstack/src/tcp.rs:134-157 | each worker's queue is exactly its share of the packets, in order |
| FlowDispatch.DistributePackets | crates/ombrac-netstack/src/tcp.rs:120-172 | the dispatch loop appends to each worker's queue exactly its packets, in order, until it stops |
| FlowDispatch.ConnectionsKeepOrder | crates/ombrac-netstack/src/tcp.rs:120-172 | for any packets, workers and hash, all of a connection's packets are in one queue in arrival order and in no other |
| FakeDnsConservation.AddressesAreConserved | crates/ombrac-client/src/endpoint/tun.rs:98-155 | over all interleavings every issued address is in exactly one of: a query, the reverse map, a listener, the recycle queue; nothing else is anywhere |
| FakeDnsConservation.IssuedAddressesAreHosts | crates/ombrac-client/src/endpoint/tun.rs:114-116 | for every prefix length issued addresses lie strictly between network and broadcast, without overflow |
| FakeDnsConservation.NoneMeansUsedUp | crates/ombrac-client/src/endpoint/tun.rs:103-122 | over all interleavings a query ends without an address only when every address from network + 3 to broadcast - 1 has been issued and is somewhere |
| FakeDnsConservation.FreshIsLowest | crates/ombrac-client/src/endpoint/tun.rs:109-117 | a fresh address is the lowest from network + 3 on that has not been issued, and nothing else is issued with it |
| FakeDnsConservation.NetworkSizes | crates/ombrac-client/src/endpoint/tun.rs:60 | the number of hosts by prefix length, as 65534 for a /16 |
| FakeDnsConservation.MapFitsPool | crates/ombrac-client/src/endpoint/tun.rs:82-86 | the reverse map holds at most max_hosts - 2 addresses, so its capacity never evicts |
| FakeDnsConservation.RetriesAreBounded | crates/ombrac-client/src/endpoint/tun.rs:103-118 | one query's exchange fails at most max_hosts - 2 times |
| FakeDnsConservation.FailedExchangeIsProgress | crates/ombrac-client/src/endpoint/tun.rs:109-118 | a failed exchange means fewer fresh addresses are left |
| FakeDnsAgreement.MapsAgree | crates/ombrac-client/src/endpoint/tun.rs:147-155 | a forward entry is backed by the reverse entry or by a listener yet to forget it, in every run with no removal between a query's two inserts |
| FakeDnsAgreement.ForwardMapIsInjective | crates/ombrac-client/src/endpoint/tun.rs:147-155 | no two domains resolve to one address, and no address resolves back to a wrong domain |
| FakeDnsAgreement.ReusableIsUnreferenced | crates/ombrac-client/src/endpoint/tun.rs:72-80 | an address becomes reusable only after no domain resolves to it |
| FakeDnsAgreement.DisturbedRunsCanDisagree | crates/ombrac-client/src/endpoint/tun.rs:147-155 | the condition is exact: from any state where a removal hits between the inserts, the run can go on to a domain that resolves to a reusable address |
| FakeDnsMethods.FakeDns.AllocateUniqueIp | crates/ombrac-client/src/endpoint/tun.rs:98-122 | with others moving the cursor in any way, the loop ends with a recycled or a fresh address, or with none and the cursor past the last host; undisturbed it is a run of the model and fails exactly when nothing is recycled and all 2^(32-prefix) - 4 fresh addresses are gone |
| FakeDnsMethods.FakeDns.HandleDnsQuery | crates/ombrac-client/src/endpoint/tun.rs:124-168 | a known domain keeps its address, a new one gets an address that resolves back, none exactly when nothing is recycled and no fresh address is left; other types are refused, and the call is a run of the model |
| FakeDnsMethods.FakeDns.EvictIp | crates/ombrac-client/src/endpoint/tun.rs:72-80 | the listener forgets the domain and then recycles the address |
| Backoff.NextBackoffBounds | crates/ombrac-client/src/connection/mod.rs:49-64 | one failure raises the floor of the backoff by a factor of 1.6 up to 48 s, never past 60 s, for every jitter |
| Backoff.NextBackoffIsJittered | crates/ombrac-client/src/connection/mod.rs:49-64 | the next backoff is within a fifth of twice the current one, capped at 60 s, and exactly that in the middle of the clock's second |
| Backoff.FloorsByNumber | crates/ombrac-client/src/connection/mod.rs:59-64 | min(1.6^n, 48 s) by number: 1, 1.6, 2.56, ... and 48 from the ninth failure on |
| Backoff.PaceInClosedForm | crates/ombrac-client/src/connection/mod.rs:59-64 | the sum of these bounds in closed form |
| Backoff.BackoffIsBounded | crates/ombrac-client/src/connection/mod.rs:59-64 | after n failures min(1.6^n, 48 s) <= backoff <= 60 s for every sequence of jitters |
| ReconnectProofs.NextKeepsGenerations | crates/ombrac-client/src/connection/mod.rs:265-367 | every step of any number of tasks keeps the id, the installs and what each task saw in order |
| ReconnectProofs.NextPaces | crates/ombrac-client/src/connection/mod.rs:314-366 | every step keeps the pacing of the current and all past streaks, task cancellation included |
| ReconnectResults.OneInstallPerId | crates/ombrac-client/src/connection/mod.rs:304-350 | of all callers passing one id at most one installs a connection |
| ReconnectResults.IdCountsInstalls | crates/ombrac-client/src/connection/mod.rs:349-350 | with the mutex free the id equals the number of installs and names the stored connection |
| ReconnectResults.OneTaskReconnects | crates/ombrac-client/src/connection/mod.rs:305 | at most one task is inside the critical section |
| ReconnectResults.RetryIsNewer | crates/ombrac-client/src/connection/mod.rs:265-291 | a retry runs on a connection installed after the id the task saw, never older than the one first tried, and newer unless that one was newer than the id |
| ReconnectResults.RetryCanRepeatExactly | crates/ombrac-client/src/connection/mod.rs:270-287 | from any reachable state where a task has loaded its connection, a retry on that same connection is possible if and only if it is newer than the id about to be loaded |
| ReconnectResults.NewerThanIdCanRepeat | crates/ombrac-client/src/connection/mod.rs:270-287 | from every such state, the run that repeats the connection |
| ReconnectResults.RetryCanRepeatConnection | crates/ombrac-client/src/connection/mod.rs:270-287 | such a state is reachable |
| ReconnectResults.BackoffTracksFailures | crates/ombrac-client/src/connection/mod.rs:334-358 | in every state of every run the backoff is between min(1.6^n, 48 s) and 60 s after n failures |
| ReconnectResults.ConnectionsOnlyAdvance | crates/ombrac-client/src/connection/mod.rs:349-350 | connection, id and history only grow |
| ReconnectResults.AttemptsArePaced | crates/ombrac-client/src/connection/mod.rs:314-328 | between any two attempts of a streak lies at least the sum of the pauses due before each of them, attempts that follow a dropped one included |
| ReconnectResults.NthAttemptIsPaced | crates/ombrac-client/src/connection/mod.rs:314-366 | with no attempt dropped, the n-th retry starts no sooner than the sum of min(1.6^i, 48 s) for i up to n |
| ReconnectResults.GateOpensExactly | crates/ombrac-client/src/connection/mod.rs:314-326 | a caller is let through if and only if no attempt of this streak has been made or the backoff has passed since the last |
| ReconnectMethods.ClientConnection.ReconnectFrom | crates/ombrac-client/src/connection/mod.rs:304-368 | the four outcomes of `reconnect` and the state each leaves, as a run of the model |
| ReconnectMethods.ClientConnection.WithRetry | crates/ombrac-client/src/connection/mod.rs:265-291 | the operation is retried exactly when it met a connection error and a new connection could be installed, and then on that one |
| LengthCodec.PrefixIsBigEndian | crates/ombrac/src/codec.rs:45-56 | the four length bytes are read most significant first |
| LengthCodec.FirstFrameExactly | crates/ombrac/src/codec.rs:53-61 | by its bytes: over 65536 is refused as soon as the four length bytes are there, else the frame is there exactly when all its bytes are |
| LengthCodec.ParseResumes | crates/ombrac/src/codec.rs:53-61 | decoding may stop after any byte and go on with the leftover |
| LengthCodec.ChunkingDoesNotMatter | crates/ombrac/src/codec.rs:53-61 | any split of a string gives the frames, leftover and oversize error of the whole |
| LengthCodec.DecodeUndoesEncode | crates/ombrac/src/codec.rs:53-61 | frames of at most 65536 bytes come back from their encoding, whatever follows |
| LengthCodec.EncodeUndoesDecode | crates/ombrac/src/codec.rs:53-61 | a string is its decoded frames, encoded, and a rest that holds no complete frame |
| LengthCodec.EncodedExactlyWhenItFits | crates/ombrac/src/codec.rs:12-61 | a payload is encoded exactly when it is at most 65536 bytes, and is then the one frame of its encoding |
| FramedStream.Framed.Decode | crates/ombrac/src/codec.rs:53-61 | the two-state decoder answers what the pending bytes, header included, decode to and loses none |
| FramedStream.Framed.Next | crates/ombrac-client/src/connection/mod.rs:164-178 | however the reads cut the stream, the answer is that of the whole stream, and buffer and stream together hold exactly what follows the frame |
| CopyLoop.NextKeeps | crates/ombrac-transport/src/io.rs:32-62 | every poll of either direction keeps written a prefix of read and the count exact |
| CopyLoop.WriterHasPrefix | crates/ombrac-transport/src/io.rs:32-62 | at every moment the writer has a prefix of what was read, at most one 8192-byte buffer short |
| CopyLoop.OutcomeIsExact | crates/ombrac-transport/src/io.rs:67-113 | both counts are reported on every outcome, exact unless that writer failed and then at most one buffer short; an error is reported exactly when a direction failed |
| CopyLoop.OneSideEndsItself | crates/ombrac-transport/src/io.rs:78-91 | no direction is cancelled unless the other ended by itself; one that saw the end delivered everything |
| CopyLoop.NothingReadAfterCancel | crates/ombrac-transport/src/io.rs:35-39 | once either direction has finished neither reads another byte |
| CopyLoop.EveryCopyCanFinish | crates/ombrac-transport/src/io.rs:67-113 | from every reachable state both directions can finish; from the start without an error, with all that one side sends delivered and counted |
| CopyMethods.CopyWithCancel | crates/ombrac-transport/src/io.rs:14-65 | every ending is a run of the model and every failure one that a stream reported; on success all that was read is written and counted; with no failure and no cancellation that is everything; a reset counts as the end; a token cancelled before the start gives 0 and touches nothing |
| Handover.PayloadFollowsFrame | crates/ombrac-server/src/connection/stream.rs:115-118 | one encoded message followed by raw bytes is read back as exactly these |
| Handover.ReadConnectMessage | crates/ombrac-server/src/connection/stream.rs:141-160 | the destination comes from the first frame and what is left is exactly the raw bytes |
| Handover.ExchangeData | crates/ombrac-server/src/connection/stream.rs:217-258 | the leftover goes first, then the copy; the destination gets a prefix of the raw bytes, the two counts add up to it, and if no stream failed and nobody cancelled it is all of them |
| Handover.HandleConnect | crates/ombrac-server/src/connection/stream.rs:110-136 | for every chunking and failure the destination receives exactly a prefix of the raw bytes, and nothing before the handshake is over; with no failure and no cancellation it receives all of them, and every error is one that was met |
| Handover.ExchangeInOrder | crates/ombrac-server/src/connection/stream.rs:217-258 | both directions at every moment, so also when a shutdown drops the copy in the middle of a write: the destination has a prefix of the raw bytes and the client a prefix of the answer |
| Handover.ExchangeCountsExactly | crates/ombrac-server/src/connection/stream.rs:82-90 | leftover and stats together count exactly what each side received when no error is reported; a side that came to its end delivered everything |
| Handover.ClientReadsAnswer | crates/ombrac-client/src/connection/mod.rs:208-225 | end to end: after the response frame the client reads a prefix of the destination's answer |
| Handover.BufferedStream.PollRead | crates/ombrac-client/src/connection/stream.rs:42-68 | a read yields the next bytes, buffer first, and none only at the end of both |
| Handover.BufferedStream.ReadMany | crates/ombrac-client/src/connection/stream.rs:42-68 | reads of any sizes together yield exactly the remaining bytes in order |
| Handover.OpenBidirectional | crates/ombrac-client/src/connection/mod.rs:145-243 | the stream handed out yields exactly the bytes after the response frame, and one is handed out whenever an accepting response is there and no read failed |
| Socks5.PortIsBigEndian | crates/ombrac-client/src/endpoint/socks/protocol.rs:117 | ports are read most significant byte first |
| Socks5.WireIpv4 | crates/ombrac-client/src/endpoint/socks/protocol.rs:22-24 | type 1 is four octets and a port, read and written |
| Socks5.WireIpv6 | crates/ombrac-client/src/endpoint/socks/protocol.rs:22-24 | type 4 is sixteen octets and a port, read and written |
| Socks5.WireDomain | crates/ombrac-client/src/endpoint/socks/protocol.rs:22-24 | type 3 is a length octet, a name of that length and a port, read and written |
| Socks5.RejectsExactly | crates/ombrac-client/src/endpoint/socks/protocol.rs:105-154 | exactly which strings are rejected, and as what |
| Socks5.WireRequest | crates/ombrac-client/src/endpoint/socks/protocol.rs:250-268 | version 5, command 1, 2 or 3, a reserved octet and an address; the version is looked at first and the command last |
| Socks5.WireUdp | crates/ombrac-client/src/endpoint/socks/protocol.rs:343-355 | two reserved octets, the fragment number, an address, and all the rest is data |
| Socks5.RoundTripExactly | crates/ombrac-client/src/endpoint/socks/protocol.rs:105-176 | an address comes back from its encoding, whatever follows, exactly when the wire can carry it |
| Socks5.EncodeUndoesParse | crates/ombrac-client/src/endpoint/socks/protocol.rs:105-154 | an accepted string is the encoding of its address followed by the rest |
| Socks5.EncodingsAreUnambiguous | crates/ombrac-client/src/endpoint/socks/protocol.rs:157-176 | no string starts with the encodings of two addresses |
| Socks5.CutsAreTruncated | crates/ombrac-client/src/endpoint/socks/protocol.rs:106-144 | every cut through an encoding is rejected as too short |
| Socks5.ConvertedSurvives | crates/ombrac-client/src/endpoint/socks/protocol.rs:199-226 | the conversions undo each other, and which converted addresses survive the wire |
| Socks5.UdpRoundTripExactly | crates/ombrac-client/src/endpoint/socks/protocol.rs:343-366 | a UDP datagram round-trips exactly when its address can be carried |
| Socks5.EncodeUndoesUdpParse | crates/ombrac-client/src/endpoint/socks/protocol.rs:343-366 | an accepted datagram is its header bytes, address and data in that order |
| Socks5.RequestRoundTripExactly | crates/ombrac-client/src/endpoint/socks/protocol.rs:250-268 | a request round-trips exactly when its address can be carried, whatever its reserved byte |
| Socks5.EncodeUndoesRequestParse | crates/ombrac-client/src/endpoint/socks/protocol.rs:250-268 | an accepted request is its encoding followed by the rest |
| Socks5Methods.EncodeInto | crates/ombrac-client/src/endpoint/socks/protocol.rs:157-176 | appending part by part yields the wire form and touches nothing before it |
| Socks5Methods.BuildUnfragmented | crates/ombrac-client/src/endpoint/socks/protocol.rs:358-366 | the datagram built part by part is the specified one, which `UdpRoundTripExactly` parses back |
| Socks5Methods.FromBuf | crates/ombrac-client/src/endpoint/socks/protocol.rs:105-154 | the cursor reads are the specified parse, and where the cursor is left, on errors too |
| Socks5Methods.ReadExact | crates/ombrac-client/src/endpoint/socks/protocol.rs:63-68 | the next n bytes however the stream cuts them |
| Socks5Methods.ReadAddress | crates/ombrac-client/src/endpoint/socks/protocol.rs:63-102 | the stream reader accepts what `from_buf` accepts, with the same address and consumption |
| Socks5Methods.ReadRequest | crates/ombrac-client/src/endpoint/socks/protocol.rs:250-268 | the stream reader of requests against the specified parse |
| Socks5Methods.UdpFromBuf | crates/ombrac-client/src/endpoint/socks/protocol.rs:343-355 | the datagram reader is the specified parse; all that follows the address is data |

## Left out

- QUIC and TLS setup, sockets, DNS resolution, the HTTP proxy, TUN device I/O, FFI, logging, command line and configuration: plumbing or library calls.
- smoltcp, ringbuf, moka, tokio, tokio-util: modelled by their visible contract (bounded queues with a state, a map that may drop entries at any step and then runs the listener, a stored permit, wakers, cancellation, the length-delimited decoder's two states).
- Serialisation of messages (bincode): `decode` is an arbitrary function in `Handover`. `fragmented_overhead` counts fixed widths while the encoding is variable-length, so no bound is claimed from it.
- Weak memory orderings: each atomic access is one step of a sequentially consistent interleaving.
- TcpBridgeResults.NoLostApplicationWakeup: covers bytes and space in the rings; who can be left parked when the connection ends is `ReaderAbandonedExactly` and `SenderAbandonedExactly`.
- TcpBridgeAbandoned.ReaderAbandonedExactly: of smoltcp it uses what `Permitted` states: a closed socket stays closed, an active one is open, an open one that has left the listening state is active, only an active one sends, and received bytes stay receivable. Its states and timers are not modelled beyond that.
- TcpBridgeResults.BytesAreConserved: bytes still in the receive ring or the socket when a dead connection is pruned stay unread; conservation says where they are, not that they are delivered.
- The error arms of `socket.recv` and `socket.send`: not reachable after `can_recv` and `can_send`. The map of sockets and `accept_new_connection`: one connection is modelled, and progress on others is an open choice of the environment.
- A send half and a receive half polled truly at once: the halves come from `tokio::io::split`, whose lock makes polls of one stream exclusive, and the model keeps them so.
- FlowDispatch.ConnectionsKeepOrder: a full channel only delays the dispatcher; the channels themselves are not modelled. The order on IPv6 endpoints that differ only in flow or scope is not modelled, since parsed packets have neither.
- FakeDnsAgreement.MapsAgree: needs that no reverse entry is removed between the two inserts of its query; `DisturbedRunsCanDisagree` shows that this cannot be dropped.
- DNS messages in `handle_dns_query` beyond the first question, its type, and the answer record.
- ReassemblyInterleaving.OverlappingCallsReassemble: needs that the key is not evicted meanwhile; cache capacity and expiry are evictions at arbitrary moments.
- Backoff.BackoffIsBounded: exact reals for f64 seconds and Duration; rounding to nanoseconds is not modelled, and neither is a system clock set before 1970, which only makes the jitter 0.8.
- ReconnectResults.NthAttemptIsPaced: an attempt dropped with its task raises no backoff in the code, so the count of failures is less than the count of attempts then; `AttemptsArePaced` covers that case.
- The 64-bit wrap-around of `connection_id`, of the copy counters and of the metrics counters.
- CopyMethods.CopyWithCancel: a poll that is pending is not shown as such; time passes in `Token.Await` and in the steps of `CopyLoop`. Both directions together are a step system only.
- Handover.HandleConnect: as a method, only the upstream half; the other direction appears as a token that may be cancelled at any moment, connecting and responding as outcomes. Both directions, and a shutdown at any moment, are `ExchangeInOrder` and `ExchangeCountsExactly`. Timeouts appear as failed reads.
- Handover.ExchangeData: as a method, only the upstream half, as above.
- Handover.OpenBidirectional: sending the request is one outcome and the write buffer's length a parameter.
- FramedStream.Framed.Next: reads that are pending are not shown; after an error the reader is not used again, as in the program.
- `encode_reply` and the reply codes: an easy member beside `Socks5Methods.EncodeInto`.
- The server's lookup cache, the metrics and the drain, `BufferPool`, `UdpDispatcher`, `StackSplitSink`, private-address predicates, error-kind mappings: easy, or no exact property holds of them.
