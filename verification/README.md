# Verified model of the rVPN transport core

This project models the parts of rVPN whose guarantees are about whole runs:
the pooled, multiplexed transport of the desktop client, the uplink session of
the Android client, the DNS proxy, the trust store for server identities, and
the traffic statistics. Each component is one or more Dafny modules:

| file | component |
|---|---|
| `PoolModel`, `PoolRuns`, `PoolTheorems`, `PoolSupply`, `PoolDrain`, `PoolStriping`, `PoolClass` | the tunnel pool: one atomic step per locked section, all interleavings, and the class that takes the steps |
| `Ratchet`, `WireOrder` | message numbers of the Double Ratchet, and the encrypt-then-enqueue serializer under two locks |
| `Framing` | frames, padding |
| `SendLoop`, `FlowSystem`, `FlowLosses`, `FlowOverflow`, `FlowFragments`, `FlowProgress`, `FlowPair`, `FlowDeadlock`, `Residues` | the credit gate and the send loop, one direction of a flow end to end, what it loses and when its channel overflows, and both directions with the task that couples them |
| `NatRewrite`, `UplinkStash`, `UplinkBatch` | in-place address rewriting, the stash before an address is known, batching |
| `DnsCodec`, `DnsReader`, `DnsAnswers`, `DnsSession` | the proxy's DNS codec, a reader by RFC 1035 alone, what it makes of the responses, and pending queries across reconnects |
| `Base32`, `IdentityPin`, `PinSpacing`, `KnownHosts` | pins and the trust-on-first-use store |
| `FakeIp`, `TimeSeries`, `Histogram` | virtual addresses, the dashboard's history, latency histograms |

State machines are written as `Enabled`/`Next` over values with `Run` for whole
traces. Where the code mutates an object or an array, a class or an array method
is proved against a function of the old state. For the pool and the DNS manager
these functions are the steps of the machine; the stash's session, the send loop
and the histogram are sequential models of their own beside it.

## What is taken as given

- Clocks, random draws, the network, file contents and the results of sends and
  handshakes are parameters or arguments of steps, so every theorem holds for
  all of them. This covers rotation jitter (thresholds are arbitrary), padding
  filler, the keys drawn in a ratchet step and every arrival schedule.
- A pool step sees one snapshot of liveness, flow counts, age and bytes. The code
  reads these again within a locked section (tunnel_pool.rs:327, 342). A dead
  tunnel stays dead (socks5_tunnel.rs:247, 262, 669, 757).
- The pool's configuration satisfies 1 <= pool_size <= pool_max, which
  rvpn/crates/rvpn-client/src/config.rs:289-302 enforces.
- Keys and ciphertexts are symbolic: a message opens with the key that sealed it
  and with no other, and peers' messages cannot be forged.
- SHA-256, UTF-8 validity of a DNS label and the upper-casing of characters
  outside ASCII other than white space are arbitrary functions, the same throughout.
- Integers are unbounded except where the width shows: checksums, frame lengths,
  the 16-bit answer count, 32-bit addresses and the saturating credit counter.

## Where the code does not do what it says

- Skipped message keys are stored under the bare DH key but looked up under the
  whole serialised header, so they are never found and every reordered message
  is refused (`Ratchet.SkippedKeysAreNeverFound`). The exact condition for a
  receiver to open everything is `Ratchet.OpensIffInOrder`.
- The DH ratchet never steps between two honest parties
  (`Ratchet.DhNeverSteps`).
- Rewriting an address and back does not always restore the packet, because
  the incremental update maps 0xffff to 0 (`NatRewrite.RoundTripCanFail`); the
  exact condition is `NatRewrite.RoundTripIff`.
- The DNS proxy takes labels of up to 191 bytes where RFC 1035 has 63, so it
  answers queries whose responses no reader can read
  (`DnsAnswers.LongLabelUnread`), and the answer count wraps at 65536. The exact
  condition for a readable response is `DnsAnswers.AnswersRead`.
- Flow control can deadlock. The task that drains the incoming direction of a
  flow also feeds the outgoing one, and takes nothing while it waits for room
  there (socks5_tunnel.rs:983). Two ends running this code can wait for each
  other until the 60-second stall valve closes the flow
  (`FlowDeadlock.MutualDeadlock`). That is the only way a healthy pair without
  oversize frames gets stuck (`FlowPair.PairQuietIff`).
- The comment at socks5_tunnel.rs:831-837 says that credit keeps the dispatch
  channel from filling. Credit bounds bytes and the channel bounds frames, and
  credit also cuts large chunks into small frames
  (`FlowFragments.FragmentsOverflow`). The exact condition for equal chunks is
  `FlowFragments.OverflowIff`; multiples of 1024 bytes, equal or not, never
  overflow it (`FlowOverflow.WholeChunksFit`).
- A chunk cut to more than 16376 bytes cannot be padded, so it ends its flow
  (`FlowProgress.LargeChunkStops`); http_proxy.rs:508 hands over a whole body as
  one chunk. The exact condition is `FlowProgress.DeliversIff`.
- The comment at identity_pin.rs:124-125 promises that all white space in a pin
  is ignored. Within the `ik:` form the code refuses most of it
  (`PinSpacing.SpacedPinRefused`), within the hexadecimal forms all but ASCII
  white space (`PinSpacing.BrokenHexRefused`). The exact conditions are
  `PinSpacing.WhiteSpaceIff` and `PinSpacing.HexWhiteSpaceIff`.
- The exported line of a histogram's last finite bound also counts samples above
  that bound (`Histogram.LastCountsAll`).

## Model

| member | source | states |
|---|---|---|
| `PoolRuns.RunKeepsInv` | rvpn/crates/rvpn-client/src/tunnel_pool.rs:300-547 | over every interleaving of picks, connects, failures, ticks, deaths and load changes: `connecting` is exactly the picks between their two locked sections plus the background connects (so the saturating subtraction never clips); assignable tunnels born in the background plus background connects never exceed `pool_max`; entries are distinct and each has exactly one watcher; once a pick has begun, a connect is in flight or a non-draining entry exists |
| `PoolRuns.StepKeepsInv` | rvpn/crates/rvpn-client/src/tunnel_pool.rs:300-547 | each single step keeps that invariant, for any configuration with 1 <= pool_size <= pool_max |
| `PoolTheorems.Recovers` | rvpn/crates/rvpn-client/src/tunnel_pool.rs:349-547 | no run is ever stuck: from any reachable state after the first pick, at most two of the pool's own steps (a watcher tick, a connect that succeeds) lead to an assignable tunnel |
| `PoolTheorems.TopUp` | rvpn/crates/rvpn-client/src/tunnel_pool.rs:313-347 | after a served pick, a completed handshake, a started drain or a prune by a watcher, assignable plus connecting is at least `pool_size` |
| `PoolTheorems.FailureLosesNothing` | rvpn/crates/rvpn-client/src/tunnel_pool.rs:432-441 | a failed connect never lowers min(assignable + connecting, `pool_size`) |
| `PoolTheorems.ShrinkBack` | rvpn/crates/rvpn-client/src/tunnel_pool.rs:463-480 | a dead tunnel's watcher starts a connect if and only if it pruned something and the survivors are below target |
| `PoolSupply.SupplyIsExact` | rvpn/crates/rvpn-client/src/tunnel_pool.rs:313-547 | in every run each step moves assignable + connecting exactly as read off the entries and the world before it: a pick that serves adds one connect beyond topping up if and only if every assignable tunnel is at its flow cap and the pool is below `pool_max`; a pick that cannot serve reserves one slot; a failure is made up only below the target; a death or a rotation is made up to the target |
| `PoolSupply.PickSupplies` | rvpn/crates/rvpn-client/src/tunnel_pool.rs:313-352 | the case of a pick, for any pool and any world |
| `PoolSupply.StepWatches` | rvpn/crates/rvpn-client/src/tunnel_pool.rs:449-544 | a tick ends its watcher if and only if its tunnel is dead or has left the pool; a delivered tunnel gets one watcher; no other step touches them |
| `PoolTheorems.BackoffCountsFailures` | rvpn/crates/rvpn-client/src/tunnel_pool.rs:432-436 | in every run the attempt counter equals the number of failed connects since the last success, counted on the steps alone |
| `PoolClass.BackoffIsCappedDoubling` | rvpn/crates/rvpn-client/src/tunnel_pool.rs:583-586 | the delay after the n-th failure is 500 ms doubled n - 1 times, cut at 30 s: capping the shift at six changes nothing, and delays never decrease |
| `PoolDrain.PhasesAdvance` | rvpn/crates/rvpn-client/src/tunnel_pool.rs:141-159 | over any run an entry only moves from serving to draining to removed, and the drain's start time is set exactly while it drains and never changes |
| `PoolDrain.NoPickAfterDrain` | rvpn/crates/rvpn-client/src/tunnel_pool.rs:313-346 | no pick after a tunnel's drain has begun returns that tunnel |
| `PoolDrain.LeavesOnlyWhenDone` | rvpn/crates/rvpn-client/src/tunnel_pool.rs:515-544 | a tunnel that leaves the pool with flows open was dead or past its drain timeout |
| `PoolDrain.TickDecides` | rvpn/crates/rvpn-client/src/tunnel_pool.rs:481-544 | a live tunnel's tick keeps it serving if and only if it is not draining and below both thresholds, and removes and shuts it down if and only if it drains with no flows left or for too long |
| `PoolDrain.ThresholdsAreDrawn` | rvpn/crates/rvpn-client/src/tunnel_pool.rs:163-175 | the rotation thresholds of an entry are, in every run, those drawn by the handshake of that very tunnel |
| `PoolDrain.DeliveryServes` | rvpn/crates/rvpn-client/src/tunnel_pool.rs:358-383 | a completed handshake puts its tunnel in the pool, serving |
| `PoolDrain.RotationsCountDrains` | rvpn/crates/rvpn-client/src/tunnel_pool.rs:481-513 | the rotations counter equals the number of drains started, a drain being read off the entries' phases and not off the code that counts |
| `PoolModel.PickIsLeastLoaded` | rvpn/crates/rvpn-client/src/tunnel_pool.rs:313-346 | both the under-cap and the at-cap branch serve a tunnel of minimum flow count among all assignable ones; a pick reserves only if there is none |
| `PoolStriping.StripingIsFair` | rvpn/crates/rvpn-client/src/tunnel_pool.rs:313-346 | over any number of picks that each open their flow, the spread of flow counts stays within max(initial spread, 1) |
| `PoolModel.PruneKeepsLive` | rvpn/crates/rvpn-client/src/tunnel_pool.rs:208-213 | pruning keeps exactly the live entries, and changes nothing when all are alive |
| `PoolModel.EnsureTargetReaches` | rvpn/crates/rvpn-client/src/tunnel_pool.rs:390-398 | topping up reaches the target and starts no connect when it is already met |
| `PoolClass.TunnelPool.constructor` | rvpn/crates/rvpn-client/src/tunnel_pool.rs:255-281 | an empty pool |
| `PoolClass.TunnelPool.PickTunnel` | rvpn/crates/rvpn-client/src/tunnel_pool.rs:313-352 | the first locked section of a pick moves the pool exactly as the step the run theorems are about |
| `PoolClass.TunnelPool.FindLeastLoaded` | rvpn/crates/rvpn-client/src/tunnel_pool.rs:319-343 | the scan returns the first tunnel of least load, under the cap when one is given |
| `PoolClass.TunnelPool.ConnectSucceeded` | rvpn/crates/rvpn-client/src/tunnel_pool.rs:358-383 | a finished handshake adds the entry and its watcher, resets the backoff and tops up |
| `PoolClass.TunnelPool.ConnectRefused` | rvpn/crates/rvpn-client/src/tunnel_pool.rs:432-441 | a failed one releases its slot, raises the backoff and retries only below target |
| `PoolClass.TunnelPool.TopUp` | rvpn/crates/rvpn-client/src/tunnel_pool.rs:390-398 | the loop of `ensure_target` |
| `PoolClass.TunnelPool.Prune` | rvpn/crates/rvpn-client/src/tunnel_pool.rs:208-213 | the in-place retain |
| `PoolClass.TunnelPool.Watch` | rvpn/crates/rvpn-client/src/tunnel_pool.rs:463-544 | one watcher tick: prune and replace, start a drain, finish a drain |
| `WireOrder.WireOrderIsRatchetOrder` | rvpn/crates/rvpn-client/src/socks5_tunnel.rs:55-89 | for any number of sender tasks, any interleaving, cancellation and backpressure, message numbers on the wire strictly increase, and are exactly 0, 1, 2, ... while no number was lost |
| `WireOrder.RatchetNeverBlocked` | rvpn/crates/rvpn-client/src/socks5_tunnel.rs:67-88 | a sender waiting for channel room never holds the ratchet lock, and one that holds it can always finish and hand it to the receive loop |
| `WireOrder.PeerOpensIff` | rvpn/crates/rvpn-client/src/socks5_tunnel.rs:55-89 | the peer decrypts every message of a wire the senders can produce if and only if nowhere more than 1000 numbers in a row are missing from it |
| `WireOrder.PeerOpensEverything` | rvpn/crates/rvpn-client/src/socks5_tunnel.rs:55-89 | as long as at most 1000 numbers were lost, the peer decrypts every message of every wire the senders can produce |
| `WireOrder.WireCarriesWhatWasHanded` | rvpn/crates/rvpn-client/src/socks5_tunnel.rs:78-88 | in every run the payloads and message types on the wire are, in order, exactly those handed over by the tasks that reached the channel, read off the steps alone |
| `WireOrder.PeerReceivesWhatWasHanded` | rvpn/crates/rvpn-client/src/socks5_tunnel.rs:55-89 | the peer recovers exactly those payloads, in order, if and only if nowhere more than 1000 numbers in a row are missing |
| `WireOrder.ReceivesAsIfAlone` | rvpn/crates/rvpn-client/src/socks5_tunnel.rs:55-89 | however sends and receives interleave on the one ratchet, the receive loop gets, message by message, what a party that never sends would get |
| `WireOrder.CountedBySteps` | rvpn/crates/rvpn-client/src/socks5_tunnel.rs:78-88 | a message number is used by every encryption that succeeds and by nothing else; when the receive loop holds the ratchet and when the channel is closed, read off the steps |
| `WireOrder.RunKeepsInv` | rvpn/crates/rvpn-client/src/socks5_tunnel.rs:78-88 | in every reachable state the locks are held by exactly the tasks inside, and every number used is on the wire, in hand or lost |
| `Ratchet.OpensIffInOrder` | rvpn/crates/rvpn-core/src/crypto/ratchet.rs:376-447 | a receiver opens a whole sequence of messages from one peer if and only if their numbers strictly increase with gaps of at most 1000 |
| `Ratchet.SkippedKeysAreNeverFound` | rvpn/crates/rvpn-core/src/crypto/ratchet.rs:376-478 | whatever arrives, no stored skipped key is ever found again: it is stored under a bare 32-byte key or under nothing and looked up under a header of 42 bytes, or 10 without a DH key; messages may come from anyone and each step may draw any key |
| `Ratchet.LateIsRefused` | rvpn/crates/rvpn-core/src/crypto/ratchet.rs:394-409 | so a message behind the receiving number is refused and changes nothing |
| `Ratchet.DhNeverSteps` | rvpn/crates/rvpn-core/src/crypto/ratchet.rs:411-422 | between two honest parties, under any delay, reordering, duplication and loss, the DH ratchet never steps and numbers never restart |
| `Ratchet.InStepDecrypts` | rvpn/crates/rvpn-core/src/crypto/ratchet.rs:411-447 | a receiver in step opens the next message within 1000, and refuses exactly the late and the too far ahead |
| `Ratchet.DeliveryOpensWhatWasSent` | rvpn/crates/rvpn-core/src/crypto/ratchet.rs:330-447 | between two parties over any network that does not forge: a delivered message opens if and only if its number is at or after the receiver's and at most 1000 ahead, and opens to the payload and type of an earlier send of the other side |
| `Ratchet.NewKeyDecides` | rvpn/crates/rvpn-core/src/crypto/ratchet.rs:411-447 | a message under a new DH key opens if and only if neither gap exceeds 1000 and it was sealed on the chain derived from the remote key before last; what the receiver holds after the step |
| `Ratchet.SkipStores` | rvpn/crates/rvpn-core/src/crypto/ratchet.rs:450-478 | skipping stores the key of every number passed over, under the remote key in use, and disturbs no other stored key |
| `Ratchet.StoredKeyUsedOnce` | rvpn/crates/rvpn-core/src/crypto/ratchet.rs:394-402 | a stored key that is found is used once: it opens its message or not, and is gone either way |
| `Ratchet.HeaderBytesTell` | rvpn/crates/rvpn-core/src/crypto/ratchet.rs:897-907 | headers that differ, as far as their 32-bit numbers go, are looked up under different bytes |
| `Ratchet.SkipMessageKeys` | rvpn/crates/rvpn-core/src/crypto/ratchet.rs:450-478 | the skipping loop stores one key per number passed over and stops at the target |
| `Framing.ParseEncoded` | rvpn/crates/rvpn-core/src/protocol/multiplex.rs:292-314 | parsing concatenated frames gives back exactly those frames and leaves a partial tail alone |
| `Framing.EncodeParsed` | rvpn/crates/rvpn-core/src/protocol/multiplex.rs:292-314 | conversely, on any bytes the frames parsed re-encode to exactly a prefix of them, after which no whole frame is left |
| `Framing.ParseFramesLoop` | rvpn/crates/rvpn-core/src/protocol/multiplex.rs:292-314 | the loop's frames and position are these |
| `Framing.DecodeEncoded` | rvpn/crates/rvpn-core/src/protocol/multiplex.rs:183-239 | a frame decodes to itself whatever follows it |
| `Framing.EncodeDecoded` | rvpn/crates/rvpn-core/src/protocol/multiplex.rs:217-239 | a decoded frame encodes to the bytes it was read from |
| `Framing.PadRoundTrip` | rvpn/crates/rvpn-core/src/protocol/padding.rs:101-176 | padding succeeds exactly up to 16382 bytes, makes the fewest whole kilobytes that hold the data and its length, and is undone by unpadding whatever the random filler |
| `Framing.UnpadIff` | rvpn/crates/rvpn-core/src/protocol/padding.rs:150-176 | any bytes unpad if and only if their last two give a filler that fits, to what stands before it |
| `Framing.ReceivedIsSent` | rvpn/crates/rvpn-core/src/protocol/padding.rs:101-176 | a message padded, unpadded and parsed gives the frames that went in |
| `SendLoop.FlowToWs` | rvpn/crates/rvpn-client/src/socks5_tunnel.rs:857-938 | for every chunk sequence and every schedule of grants, closes and send failures: frames carry a prefix of the input, all of it on a clean close; none is empty or too large to pad; each ends its chunk or takes all the credit, so there are at most as many as chunks and events seen, and one; frames, credit left and credit spoilt never exceed what was granted; the loop gives up only with data left and no credit, or with only a grant that landed as the stall timer fired |
| `SendLoop.Park` | rvpn/crates/rvpn-core/src/protocol/multiplex.rs:512-535 | parking ends with credit to use, or for good: closed, timed out or at the end of the schedule, with no credit or only a grant that came as the timer fired |
| `SendLoop.FlowSendCredits.TryConsume` | rvpn/crates/rvpn-core/src/protocol/multiplex.rs:442-459 | takes min(wanted, balance) and no more |
| `SendLoop.FlowSendCredits.Grant` | rvpn/crates/rvpn-core/src/protocol/multiplex.rs:463-472 | adds, saturating at the 64-bit maximum |
| `SendLoop.FlowSendCredits.Close` | rvpn/crates/rvpn-core/src/protocol/multiplex.rs:496-499 | closes |
| `FlowSystem.CreditIsConserved` | rvpn/crates/rvpn-client/src/socks5_tunnel.rs:807-1001 | in every state of every run: credits + payload in flight + payload queued + bytes written and not granted + grants in flight + losses by named cause (failed sends, unknown flows, a full channel, failed writes, a consumer that ended with frames queued, lost grants) = 256 KiB, so unconsumed data never exceeds the window |
| `FlowLosses.OnlyOverflowLoses` | rvpn/crates/rvpn-client/src/socks5_tunnel.rs:826-1001 | a run without failures loses exactly the bytes that arrive at a full dispatch channel, so it stays healthy if and only if none do |
| `FlowLosses.TornDownBySteps` | rvpn/crates/rvpn-client/src/socks5_tunnel.rs:857-1001 | which parts of a flow are torn down, read off the steps of the run |
| `FlowLosses.StepLoses` | rvpn/crates/rvpn-client/src/socks5_tunnel.rs:807-1001 | each named loss grows exactly at its cause, by exactly the bytes concerned |
| `FlowFragments.OverflowIff` | rvpn/crates/rvpn-client/src/socks5_tunnel.rs:826-850 | fed with equal chunks of any length, a flow can overflow the 256-frame dispatch channel, with no failure and within its credit, if and only if the chunks can be sent at all (1 to 16376 bytes) and are not a multiple of 1024 |
| `FlowOverflow.WholeChunksFit` | rvpn/crates/rvpn-client/src/socks5_tunnel.rs:826-850 | in any run that offers only multiples of 1024 bytes the channel never overflows |
| `FlowOverflow.SmallChunksOverflow` | rvpn/crates/rvpn-client/src/socks5_tunnel.rs:494-495 | for any chunk below 1024 bytes, a run that loses data at a full channel |
| `FlowFragments.FragmentsOverflow` | rvpn/crates/rvpn-client/src/socks5_tunnel.rs:494-495 | and for any larger sendable chunk that is not a multiple of 1024: credit cuts it into ever smaller frames |
| `FlowSystem.GrantConserves` | rvpn/crates/rvpn-client/src/socks5_tunnel.rs:807-820 | the saturating add of a grant never clips |
| `FlowSystem.StreamIsKept` | rvpn/crates/rvpn-client/src/socks5_tunnel.rs:826-938 | the stages hold, in order, exactly the bytes offered, as long as none was dropped |
| `FlowSystem.WrittenIsPrefix` | rvpn/crates/rvpn-client/src/socks5_tunnel.rs:976-1001 | what reached the local socket is a prefix of what was offered |
| `FlowProgress.QuietIff` | rvpn/crates/rvpn-client/src/socks5_tunnel.rs:857-1001 | a healthy direction that goes quiet has not delivered every byte if and only if its next frame is above 16376 bytes, or its consumer waits for room in the other direction with data queued |
| `FlowProgress.DeliversIff` | rvpn/crates/rvpn-client/src/socks5_tunnel.rs:857-938 | for every chunk sequence: every healthy run that offers some of it in order and goes quiet without its consumer kept waiting delivers what it was offered, if and only if all chunks are at most 16376 bytes |
| `FlowProgress.QuietMeansDelivered` | rvpn/crates/rvpn-client/src/socks5_tunnel.rs:857-1001 | the direction a caller uses: small chunks and a consumer that is not kept waiting mean delivery |
| `FlowProgress.LargeChunkStops` | rvpn/crates/rvpn-client/src/socks5_tunnel.rs:922-933 | a larger chunk, offered at any point to a flow at rest, leaves it healthy, quiet and undelivered |
| `FlowProgress.WaitingConsumerStops` | rvpn/crates/rvpn-client/src/socks5_tunnel.rs:976-1001 | a consumer kept waiting leaves a flow with a frame on its way healthy, quiet and undelivered |
| `FlowProgress.ForwardTerminates` | rvpn/crates/rvpn-client/src/socks5_tunnel.rs:857-1001 | one direction cannot go on for ever: forward steps are bounded by the work left |
| `FlowPair.PairIsSound` | rvpn/crates/rvpn-client/src/socks5_tunnel.rs:976-1001 | with the two directions coupled by one task at each end, each still conserves its credit and keeps its stream |
| `FlowPair.PairQuietIff` | rvpn/crates/rvpn-client/src/socks5_tunnel.rs:976-1001 | a healthy pair with no oversize frame and nothing left to do has delivered everything both ways if and only if the two tasks do not wait for each other, with both channels full, no credit and a window queued both ways |
| `FlowPair.OnlyDeadlockStops` | rvpn/crates/rvpn-client/src/socks5_tunnel.rs:974-1001 | so with local reads of at most 16376 bytes (the relay reads 8190) that mutual wait is the only way to get stuck |
| `FlowPair.PairTerminates` | rvpn/crates/rvpn-client/src/socks5_tunnel.rs:857-1001 | and the pair gets there in finitely many steps |
| `FlowDeadlock.MutualDeadlock` | rvpn/crates/rvpn-client/src/socks5_tunnel.rs:976-1001 | a run of 4096-byte reads, without loss or oversize frames, that ends in the mutual wait |
| `UplinkStash.RunKeepsInv` | rvpn/crates/rvpn-mobile/src/android_server_session.rs:1161-1242 | over every interleaving of enqueues, address stores, flushes and drops: at most 32 packets stashed, always the newest since the last emptying in arrival order; every packet ever enqueued is stashed, in a sender's hands or settled, and in one of these only |
| `UplinkStash.RunIsFaithful` | rvpn/crates/rvpn-mobile/src/android_server_session.rs:1161-1242 | a settled packet was sent with its source rewritten to an address stored before, or dropped for one named cause, as malformed only if it is; senders and flushes hold only stored addresses |
| `UplinkStash.RunSettles` | rvpn/crates/rvpn-mobile/src/android_server_session.rs:1161-1242 | each step of every run settles exactly the packet it sends, the stash it flushes or drops, or the oldest of a full stash; a usable packet is sent if and only if the channel took it, to the address its sender or flush had read; refused, malformed, discarded and oldest only for that cause |
| `UplinkStash.FateHasCause` | rvpn/crates/rvpn-mobile/src/android_server_session.rs:1161-1242 | so every settled packet has such a step behind it |
| `UplinkStash.ArrivalGoes` | rvpn/crates/rvpn-mobile/src/android_server_session.rs:1161-1196 | a packet is stashed if and only if no address was stored before it, else held for the address stored last; a flush takes the address stored last before it began |
| `UplinkStash.IpIsLastStored` | rvpn/crates/rvpn-mobile/src/android_server_session.rs:397-401 | the address known is the one stored last |
| `UplinkStash.StoredBySteps` | rvpn/crates/rvpn-mobile/src/android_server_session.rs:397-401 | the addresses stored by a state are those of the stores before it and no others |
| `UplinkStash.FateIsFinal` | rvpn/crates/rvpn-mobile/src/android_server_session.rs:1161-1242 | a packet is settled once |
| `UplinkStash.EmptyAfterFlush` | rvpn/crates/rvpn-mobile/src/android_server_session.rs:397-423 | once the first flush is done the stash stays empty for ever |
| `UplinkStash.PushKeepsNewest` | rvpn/crates/rvpn-mobile/src/android_server_session.rs:1184-1194 | dropping the oldest keeps exactly the newest 32 |
| `UplinkStash.Session.EnqueueUplink` | rvpn/crates/rvpn-mobile/src/android_server_session.rs:1161-1196 | stash, send rewritten, refuse a bad header or a full channel: which, and what changes |
| `UplinkStash.FlushedIsFirstUsable` | rvpn/crates/rvpn-mobile/src/android_server_session.rs:1217-1221 | what a flush sends are the first usable packets of the stash, in order, as many as there is room for, each rewritten |
| `UplinkStash.Session.FlushPending` | rvpn/crates/rvpn-mobile/src/android_server_session.rs:1203-1227 | empties the stash; the channel grows by exactly the first min(room, usable) usable packets of the old stash, in order, each rewritten to the stored address |
| `UplinkStash.Session.DropPending` | rvpn/crates/rvpn-mobile/src/android_server_session.rs:1232-1242 | empties the stash |
| `UplinkStash.Session.TrySend` | rvpn/crates/rvpn-mobile/src/android_server_session.rs:1145-1150 | appends if there is room |
| `NatRewrite.HeaderStaysValid` | rvpn/crates/rvpn-mobile/src/nat_rewrite.rs:52-75 | the IPv4 header checksum is valid after the rewrite if and only if it was before |
| `NatRewrite.TransportStaysValid` | rvpn/crates/rvpn-mobile/src/nat_rewrite.rs:77-103 | the same for the TCP or UDP checksum over the pseudo-header, when it is adjusted |
| `NatRewrite.AdjustsIff` | rvpn/crates/rvpn-mobile/src/nat_rewrite.rs:80-97 | read off the bytes: a transport checksum is adjusted if and only if the packet is a first fragment, TCP or UDP, long enough to hold it and, for UDP, with a checksum in use |
| `NatRewrite.SegmentStaysValid` | rvpn/crates/rvpn-mobile/src/nat_rewrite.rs:77-103 | such a packet keeps its checksum valid or invalid as it was, a UDP one is never turned off, and of any other packet nothing past the header changes |
| `NatRewrite.RewriteTouches` | rvpn/crates/rvpn-mobile/src/nat_rewrite.rs:52-103 | no byte outside the address and the two checksums changes, and the address is the new one |
| `NatRewrite.RoundTripIff` | rvpn/crates/rvpn-mobile/src/nat_rewrite.rs:210-221 | rewriting there and back restores the packet if and only if the address did not change or neither the header checksum nor an adjusted TCP checksum is 0xffff |
| `NatRewrite.RoundTripCanFail` | rvpn/crates/rvpn-mobile/src/nat_rewrite.rs:210-221 | a packet for which the round trip fails |
| `NatRewrite.UpdateIsDelta` | rvpn/crates/rvpn-mobile/src/nat_rewrite.rs:107-119 | the incremental update changes the checksum by the difference of the words modulo 65535 (RFC 1624), and when it is all ones |
| `NatRewrite.UpdateLoop` | rvpn/crates/rvpn-mobile/src/nat_rewrite.rs:107-119 | the folding loop computes it |
| `NatRewrite.RewriteAddr` | rvpn/crates/rvpn-mobile/src/nat_rewrite.rs:52-103 | the in-place rewrite of the byte array, and its refusals |
| `UplinkBatch.RunTx` | rvpn/crates/rvpn-mobile/src/android_server_session.rs:721-844 | for every arrival and timeout schedule and every send result: batches sent, the batch in hand and the carried packet are the packets taken, in order; a clean close loses nothing; shutdown or a failed send loses at most the batch in hand and the carry; a batch fails by itself only if it is one packet above 16376 bytes; and what is on the wire reads back as the batches |
| `UplinkBatch.Collect` | rvpn/crates/rvpn-mobile/src/android_server_session.rs:757-796 | a batch has 1 to 16 packets, within the byte limit unless it is one packet, and stops growing only when full, at a packet that does not fit, at the deadline, at close or at shutdown |
| `UplinkBatch.AwaitFirst` | rvpn/crates/rvpn-mobile/src/android_server_session.rs:729-751 | waits past deadlines for a packet, close or shutdown |
| `UplinkBatch.BuildMessage` | rvpn/crates/rvpn-mobile/src/android_server_session.rs:1034-1051 | the padded message of a batch reads back as the batch; when building fails |
| `UplinkBatch.EncodedBound` | rvpn/crates/rvpn-mobile/src/android_server_session.rs:60-62 | packets of at most 14330 bytes make at most 14426 bytes of frames |
| `UplinkBatch.BatchFits` | rvpn/crates/rvpn-mobile/src/android_server_session.rs:1034-1051 | a batch can be encoded and padded if and only if it is several packets or one of at most 16376 bytes |
| `UplinkBatch.PeerReadsStream` | rvpn/crates/rvpn-server/src/handler.rs:3643-3653 | the frames the server unpads and parses out of the messages, put together, are the packets sent, in order |
| `DnsCodec.AcceptedIff` | rvpn/crates/rvpn-client/src/dns_proxy.rs:675-718 | a packet with labels of 1 to 191 bytes and a zero byte at byte 12 is accepted if and only if type and class follow, with the id, labels and type that stand there |
| `DnsCodec.AcceptedIsName` | rvpn/crates/rvpn-client/src/dns_proxy.rs:675-718 | and every accepted packet has such labels |
| `DnsCodec.WalkIff` | rvpn/crates/rvpn-client/src/dns_proxy.rs:684-708 | walking the labels succeeds exactly on that grammar, with the only labels that fit |
| `DnsCodec.RefusedIff` | rvpn/crates/rvpn-client/src/dns_proxy.rs:675-718 | which error a refused packet gets: too short below 17 bytes, else the first thing wrong with its labels, else a question cut short |
| `DnsCodec.StopHasReason` | rvpn/crates/rvpn-client/src/dns_proxy.rs:684-708 | and a walk that fails has read whole labels up to exactly such a place |
| `DnsCodec.ParseDnsQuery` | rvpn/crates/rvpn-client/src/dns_proxy.rs:675-718 | the parsing loop, errors included |
| `DnsCodec.EndAfterName` | rvpn/crates/rvpn-client/src/dns_proxy.rs:766-779 | the second walk, which shares no code with the parser, ends exactly four bytes past the name the parser read |
| `DnsCodec.AcceptedInBounds` | rvpn/crates/rvpn-client/src/dns_proxy.rs:739-742 | so the question of an accepted query is in bounds |
| `DnsCodec.FindQuestionEnd` | rvpn/crates/rvpn-client/src/dns_proxy.rs:766-779 | the loop of that walk |
| `DnsCodec.BuildDnsResponse` | rvpn/crates/rvpn-client/src/dns_proxy.rs:725-759 | the response built by appending |
| `DnsCodec.ResponseReparses` | rvpn/crates/rvpn-client/src/dns_proxy.rs:725-759 | the response parses to the same labels and type with the supplied id, is flagged as a response, and announces one question and no other sections |
| `DnsAnswers.AnswersRead` | rvpn/crates/rvpn-client/src/dns_proxy.rs:725-759 | a reader by RFC 1035, which shares nothing with the parser, gets the addresses in order under the queried name with TTL max(ttl, 30): all of them if and only if every label of the query is at most 63 bytes, its name is within the reader's size limit, if it has one, and there are at most 65535; the first n mod 65536 of n; nothing with a longer label or name |
| `DnsAnswers.LabelsRead` | rvpn/crates/rvpn-client/src/dns_proxy.rs:684-708 | on a name the proxy takes, the reader succeeds, with the same labels, if and only if all are at most 63 bytes |
| `DnsAnswers.LongLabelUnread` | rvpn/crates/rvpn-client/src/dns_proxy.rs:697-701 | a query for a label of 64 letters, which the proxy accepts, and whose responses no reader reads |
| `DnsSession.RunKeepsInv` | rvpn/crates/rvpn-client/src/dns_proxy.rs:406-556 | over every run across reconnects each query is in exactly one place, and what is pending went out on the running session |
| `DnsSession.TransmittedOnce` | rvpn/crates/rvpn-client/src/dns_proxy.rs:439-466 | no query is written to the wire twice, on one session or several |
| `DnsSession.OutcomeIsFinal` | rvpn/crates/rvpn-client/src/dns_proxy.rs:406-556 | a reply channel is resolved or dropped once |
| `DnsSession.ExitsCleanAnswersHonest` | rvpn/crates/rvpn-client/src/dns_proxy.rs:471-556 | an ended session leaves nothing pending, and an answer carries the id of the query it answers, which had been sent |
| `DnsSession.LateReplyIgnored` | rvpn/crates/rvpn-client/src/dns_proxy.rs:498-512 | a duplicate, late or unknown response changes nothing |
| `DnsSession.ReplyAnswers` | rvpn/crates/rvpn-client/src/dns_proxy.rs:498-512 | a reply to a query written on the running session and not over answers it with the whole response, and changes no other query, the queue or the wire; any other reply changes nothing |
| `DnsSession.RunEnds` | rvpn/crates/rvpn-client/src/dns_proxy.rs:406-556 | each step of every run ends exactly the queries it should, in exactly the way it should: a reply its own query with that response, a refused send its query and all pending, an overdue one all pending |
| `DnsSession.OutcomeHasCause` | rvpn/crates/rvpn-client/src/dns_proxy.rs:406-556 | so every outcome has such a step behind it, and an answer is the whole response of an earlier reply |
| `DnsSession.PendingIff` | rvpn/crates/rvpn-client/src/dns_proxy.rs:439-466 | on a session that is up, pending are exactly the queries written to it and not over |
| `DnsSession.PendingSince` | rvpn/crates/rvpn-client/src/dns_proxy.rs:461-465 | a pending query's time is that of the very send that wrote it |
| `DnsSession.QueueIsFifo` | rvpn/crates/rvpn-client/src/dns_proxy.rs:406-466 | queries leave the queue in the order they entered it |
| `DnsSession.WireGrows` | rvpn/crates/rvpn-client/src/dns_proxy.rs:439-466 | a send writes the head of the queue on the running session, and nothing else is ever written |
| `DnsSession.PhaseMoves` | rvpn/crates/rvpn-client/src/dns_proxy.rs:406-556 | when a session is draining, up and over, step by step |
| `DnsSession.ClosedBySteps` | rvpn/crates/rvpn-client/src/dns_proxy.rs:466-468 | the queue is closed once it has been closed |
| `DnsSession.StaleNeverSent` | rvpn/crates/rvpn-client/src/dns_proxy.rs:406-416 | a query waiting when a session starts is failed and never sent on any session |
| `DnsSession.TickBoundsWait` | rvpn/crates/rvpn-client/src/dns_proxy.rs:542-553 | after a check that lets the session go on no query has waited ten seconds; otherwise all are failed at once |
| `DnsSession.Manager.DrainQueue` | rvpn/crates/rvpn-client/src/dns_proxy.rs:409-416 | fails everything queued |
| `DnsSession.Manager.SettleAll` | rvpn/crates/rvpn-client/src/dns_proxy.rs:513-519 | drains the pending map |
| `DnsSession.Manager.TakeQuery` | rvpn/crates/rvpn-client/src/dns_proxy.rs:439-466 | sends one query, or gives up the session |
| `DnsSession.Manager.OnReply` | rvpn/crates/rvpn-client/src/dns_proxy.rs:498-512 | takes the reply step, which answers the query it names if that is pending |
| `DnsSession.Manager.OnTick` | rvpn/crates/rvpn-client/src/dns_proxy.rs:542-553 | finds the oldest query by a scan and compares only it |
| `Base32.DecodeEncoded` | rvpn/crates/rvpn-core/src/identity_pin.rs:85-113 | base32 decoding undoes encoding (section 6 of RFC 4648) |
| `Base32.EncodeDecoded` | rvpn/crates/rvpn-core/src/identity_pin.rs:150-156 | and only what encoding writes is decoded: strict length and trailing bits |
| `IdentityPin.CanonicalParses` | rvpn/crates/rvpn-core/src/identity_pin.rs:85-113 | printing a pin and parsing it gives the hash back, for every hash |
| `IdentityPin.EncodedPinParses` | rvpn/crates/rvpn-core/src/identity_pin.rs:85-113 | a key is given a pin exactly if it has 32 bytes, and the pin reads back as the hash of the key |
| `IdentityPin.PinIff` | rvpn/crates/rvpn-core/src/identity_pin.rs:126-161 | in the `ik:` form a pin with hash h is accepted if and only if its version reads as one and its body, trimmed and upper-cased, is the one text of h |
| `IdentityPin.AcceptedHasParts` | rvpn/crates/rvpn-core/src/identity_pin.rs:132-143 | everything accepted in that form has a version and a body |
| `IdentityPin.HexIff` | rvpn/crates/rvpn-core/src/identity_pin.rs:163-201 | outside the `ik:` form a text is the pin of given bytes if and only if, without colons and ASCII white space and in lower case, it is their hexadecimal text: 64 digits for a full hash, 32 for a legacy pin |
| `IdentityPin.HexAccepted` | rvpn/crates/rvpn-core/src/identity_pin.rs:163-201 | and everything accepted there is such a text |
| `IdentityPin.SqueezeDrops` | rvpn/crates/rvpn-core/src/identity_pin.rs:163-168 | the separators taken out are exactly colons and ASCII white space, anywhere; all else is kept in order |
| `IdentityPin.TrimsEnds` | rvpn/crates/rvpn-core/src/identity_pin.rs:130 | trimming takes off all white space before and after the text, and nothing else |
| `IdentityPin.VersionIff` | rvpn/crates/rvpn-core/src/identity_pin.rs:139-148 | version one may be spelt with a plus sign and leading zeros, and in no other way |
| `IdentityPin.UppercaseParses` | rvpn/crates/rvpn-core/src/identity_pin.rs:126-161 | a pin with an upper-case body is the same pin |
| `PinSpacing.WhiteSpaceIff` | rvpn/crates/rvpn-core/src/identity_pin.rs:120-160 | a text that is a pin of the `ik:` form once all white space is taken out is read as that pin if and only if it had none within the prefix, the version or the body |
| `PinSpacing.HexWhiteSpaceIff` | rvpn/crates/rvpn-core/src/identity_pin.rs:120-201 | and one of the hexadecimal forms if and only if the white space between its ends is ASCII white space |
| `PinSpacing.BrokenHexRefused` | rvpn/crates/rvpn-core/src/identity_pin.rs:163-168 | the legacy pin of any 16 bytes, with a no-break space behind its first digit, is refused |
| `PinSpacing.SpacedPinRefused` | rvpn/crates/rvpn-core/src/identity_pin.rs:124-133 | the canonical pin of any hash, written with spaces around its colons, is refused |
| `KnownHosts.PinIsFinal` | rvpn/crates/rvpn-client/src/identity_verification.rs:180-311 | over any run of verifications an address with a full pin keeps it and its date, and every later unconfigured call about it that proceeds presented a key with that hash |
| `KnownHosts.VerdictIff` | rvpn/crates/rvpn-client/src/identity_verification.rs:180-311 | on hashes and key bytes: a call proceeds if and only if the configured pin, or else the stored one, is the full pin of the key's hash or the legacy pin of its first 16 bytes, or there is neither and trust on first use is on and not strict; which verdict, and what a mismatch shows |
| `KnownHosts.StoreAfter` | rvpn/crates/rvpn-client/src/identity_verification.rs:228-304 | what a call that proceeds leaves in the store: both dates, and the full pin of the key, spelt afresh unless it was there |
| `KnownHosts.FirstUseBinds` | rvpn/crates/rvpn-client/src/identity_verification.rs:285-304 | the key taken on at first use fixes the only hash accepted from then on |
| `KnownHosts.LegacyMigratesOnce` | rvpn/crates/rvpn-client/src/identity_verification.rs:228-281 | a legacy entry changes at most once, at a call whose key it matched, to that key's full pin, keeping its date |
| `KnownHosts.LegacyMatch` | rvpn/crates/rvpn-core/src/identity_pin.rs:216-230 | a pin of 32 hexadecimal digits, in either case and with separators, is legacy and matches exactly the keys that start with its 16 bytes |
| `KnownHosts.LegacyHasBytes` | rvpn/crates/rvpn-core/src/identity_pin.rs:186-196 | and every legacy pin is one |
| `KnownHosts.ChangesOnlyWhenTrusted` | rvpn/crates/rvpn-client/src/identity_verification.rs:174-187 | the store changes only at the address verified and only when the call proceeds; a configured pin never changes it |
| `KnownHosts.BrokenPinStays` | rvpn/crates/rvpn-client/src/identity_verification.rs:234-262 | an entry that does not parse is neither trusted nor repaired |
| `KnownHosts.PinsRoundTrip` | rvpn/crates/rvpn-core/src/identity_pin.rs:85-201 | the parser modelled here has the one property the store needs |
| `KnownHosts.Hosts.VerifyServerIdentity` | rvpn/crates/rvpn-client/src/identity_verification.rs:180-311 | the nested checks give the verdict, the decision and the store that the theorems are about |
| `KnownHosts.Hosts.AddServer` | rvpn/crates/rvpn-client/src/identity_verification.rs:129-149 | keeps the first date |
| `KnownHosts.Hosts.UpdateVerified` | rvpn/crates/rvpn-client/src/identity_verification.rs:153-157 | touches only the last date, of a known address |
| `FakeIp.ResolveIff` | rvpn/crates/rvpn-client/src/dns.rs:30-60 | every address handed out is in 198.18.0.0/15 and leads to a domain that holds it; it leads back to its own domain if and only if fewer than 131072 newer domains were asked for |
| `FakeIp.FakeIpPool.Query` | rvpn/crates/rvpn-client/src/dns.rs:30-48 | the k-th distinct domain gets base + k mod 131072, a known one what it had; both maps stay consistent |
| `FakeIp.FakeIpPool.Resolve` | rvpn/crates/rvpn-client/src/dns.rs:51-53 | the latest domain an address was given to, which is one of the newest 131072; none exactly if it was never given |
| `FakeIp.FakeIff` | rvpn/crates/rvpn-client/src/dns.rs:56-60 | the octet test is the range test |
| `FakeIp.OctetsMakeAddress` | rvpn/crates/rvpn-client/src/dns.rs:56-60 | the octets tested are those of the address, most significant first |
| `TimeSeries.DeltasTelescope` | rvpn/crates/rvpn-client/src/dashboard.rs:240-256 | for every field, the deltas of a whole run sum to the last snapshot plus what the counter lost on the way |
| `TimeSeries.BucketsAreSlots` | rvpn/crates/rvpn-client/src/dashboard.rs:240-256 | each tick makes one bucket: the start of the five-second slot of its clock, connections accepted less completed, and what each counter gained since the tick before |
| `TimeSeries.RingAndEvicted` | rvpn/crates/rvpn-client/src/dashboard.rs:206-212 | evicted and retained buckets sum to the last snapshot if and only if the counter never went down |
| `TimeSeries.Dashboard.RunSampler` | rvpn/crates/rvpn-client/src/dashboard.rs:426-436 | the ring holds exactly the newest 17280 buckets |
| `TimeSeries.Dashboard.PushBucket` | rvpn/crates/rvpn-client/src/dashboard.rs:206-212 | one push |
| `TimeSeries.TotalsKept` | rvpn/crates/rvpn-client/src/dashboard.rs:943-966 | re-bucketing keeps the total of every field |
| `TimeSeries.OnePerSlot` | rvpn/crates/rvpn-client/src/dashboard.rs:943-966 | on ascending times the result has one bucket per slot that occurs, in order, with the slot's totals and the time and gauge of its last bucket |
| `TimeSeries.NestsIff` | rvpn/crates/rvpn-client/src/dashboard.rs:943-966 | re-bucketing twice is re-bucketing once at the second width, for every history and equally for every ascending one, if and only if the first width divides it |
| `TimeSeries.RebucketLoop` | rvpn/crates/rvpn-client/src/dashboard.rs:943-966 | the in-place loop |
| `Histogram.CountsSumToTotal` | rvpn/crates/rvpn-client/src/metrics.rs:84-102 | bucket counts sum to the number of samples if and only if there is a bucket or no sample |
| `Histogram.CumulativeIsAtMost` | rvpn/crates/rvpn-client/src/metrics.rs:93-102 | up to any bound but the last, the running count is the number of samples at or below it |
| `Histogram.LastCountsAll` | rvpn/crates/rvpn-client/src/metrics.rs:93-102 | the running count of the last bound is the number of samples at or below it if and only if no sample is above it |
| `Histogram.PercentileMeaning` | rvpn/crates/rvpn-client/src/metrics.rs:105-123 | so a percentile that is not the last bound is the least bound with the target number of samples at or below it |
| `Histogram.TargetIsShare` | rvpn/crates/rvpn-client/src/metrics.rs:112 | the target is the share of the samples rounded down: none below zero percent, all of them at one hundred and only there |
| `Histogram.LatencyHistogram.Record` | rvpn/crates/rvpn-client/src/metrics.rs:84-102 | counts the sample in its bucket and nowhere else |
| `Histogram.LatencyHistogram.Percentile` | rvpn/crates/rvpn-client/src/metrics.rs:105-123 | the first bound whose running count reaches floor(total * p / 100), else the last, and zero for no samples |
| `Histogram.ExportIsMonotone` | rvpn/crates/rvpn-client/src/metrics_exporter.rs:243-262 | in every interleaving of recorders with an export, no finite line exceeds the `+Inf` line |
| `Histogram.ExportSees` | rvpn/crates/rvpn-client/src/metrics_exporter.rs:243-262 | each line of an export is what its counter held at the moment it was read, and so is the `+Inf` line |
| `Histogram.CountersFollowSteps` | rvpn/crates/rvpn-client/src/metrics.rs:84-102 | the counters hold what the recorders have counted, and the export is as far as its own steps have taken it |
| `Histogram.RenderBuckets` | rvpn/crates/rvpn-client/src/metrics_exporter.rs:243-254 | the accumulating loop |

## Left out

- Cryptography proper: X3DH, AEAD, key derivation, Ed25519 and the rotation signature are symbolic or absent.
- Eviction of skipped keys past their cap: no stored key is ever found, so it cannot be observed.
- Ratchet.OpensIffInOrder: message numbers are unbounded; the 32-bit code agrees as long as every number stays below 2^32 - 1001. The refusal of messages above 1 MiB is not modelled.
- PoolRuns.RunKeepsInv: does not bound live tunnels by `pool_max` in total; concurrent synchronous picks reserve unconditionally and draining tunnels are not counted.
- PoolRuns.RunKeepsInv: counters are unbounded, not 32- or 64-bit.
- PoolClass.TunnelPool.PickTunnel: covers the locked section before the handshake; the handshake itself is a separate step.
- Pool metrics, the multiplexing path, per-server pool maps and the jitter formula.
- SendLoop.FlowToWs: the 60-second stall timer fires where the event schedule says, or at its end; time itself is not modelled.
- FlowPair.PairQuietIff: takes both ends to run the client's relay loop; the server's own relay is not modelled. A peer that stops reading is a step that does not happen.
- FlowSystem.CreditIsConserved: starts at registration; frames that arrive before the receiver has inserted the flow are outside it.
- FlowFragments.OverflowIff: decides for equal chunks; for mixed lengths it is shown only that multiples of 1024 never overflow the channel.
- The flow counter across a tunnel shutdown, which is stored outside the map lock.
- UplinkStash.RunKeepsInv: an assigned address that is not IPv4 counts as no address.
- Order of stashed packets relative to packets enqueued between the address store and the flush, which the code does not promise.
- The reconnect loop of the Android session, its keepalive and receive tasks, and the iOS twin of the session.
- DnsCodec.ParseDnsQuery: gives the labels; joining them with dots is not modelled.
- The DNS cache, split-tunnel decisions, local resolution and the NXDOMAIN and SERVFAIL packets.
- DnsSession.RunKeepsInv: the decryption and JSON parsing of a response either yield a response or change nothing.
- Reading and writing known_hosts.json, and the shortened display of fingerprints.
- TimeSeries.DeltasTelescope: 64-bit overflow of counters and of the signed gauge is not modelled.
- Histogram.LatencyHistogram.Percentile: computes with real numbers; rounding of `f64` is not modelled.
- Histogram.ExportIsMonotone: assumes a sequentially consistent order of the atomic operations and no reset during an export.
- The sum of squares, average and standard deviation of a histogram.
- HTML and SVG rendering, configuration parsing, JNI and FFI, the command line, SOCKS5 and HTTP socket handling.
