# Verified models of hideck's concurrent and bit-level core

This project models, in Dafny 4.11, the parts of hideck whose correctness rests on
interleavings or on exact bit layouts, and proves what callers rely on. `dafny verify
dfyconfig.toml` checks everything.

**The APDU arbiter** (`Arbiter*.dfy`, `Scheduling.dfy`). One SIM's scheduler: a wait queue of
lease and barrier tickets, sessions, a oneshot, exclusive transports or a window of QMI-channel
transports, barriers that block classes, AKA priority with 500 ms aging, a watchdog, and one
broadcast channel. It is modelled twice. `Arbiter.Arbiter` is the object with its fields and
loops, each method proved equal to a function of `ArbiterState`. `ArbiterProtocol` is the same
functions as steps of any number of callers: ids and enqueue times are taken before the lock, so
the queue follows neither; the clock is read anew at every evaluation; handles and timers may
fire late, twice or with a stale id. Safety, identity, overtaking and watchdog results hold over
every run. `ArbiterWatch` adds the timers and the callers of `WaitIdle`: no lease goes unwatched,
and idleness is never missed; `ArbiterOrder` that the queue keeps the order of arrival. Who may
enter is also stated the other way round: with transports active somebody enters if and only if a
queued one can run (`WindowIsUsed`), and the one chosen is the best of those (`SelectionIsBest`).
Two promises hold only with a proviso, which is stated exactly and
shown to be needed: a caller can sleep through a grant precisely when its ticket crosses the aging
threshold unnoticed (`AsleepExactlyWhenRefused`, `AgingCanStall`), and every run of steps that do
something ends idle unless that has happened (`EveryMaximalRunEnds`, `StallMeansAging`).

**SIM-authentication readiness** (`SimAuthReady.dfy`): a single-flight probe with generations and
invalidations, as an object and as a protocol: what every look and every probe result comes to,
and that every call can succeed.

**AMR and EVS payloads** (`Bits.dfy`, `AmrPacket.dfy`, `AmrRoundTrip.dfy`, `OctetAligned.dfy`,
`EvsIo.dfy`). A bit string (`seq<bool>`) is the specification; the bit reader, the bit writer,
parsers and printers are methods over byte buffers. The framings are sections 4.3 and 4.4 of
RFC 4867 and annexes A.2.1 and A.2.2 of 3GPP TS 26.445, with the constants the code uses. The
bandwidth-efficient parser is the exact inverse of serialisation, the octet-aligned one up to
reserved bits; EVS size dispatch has one collision, mode 7 header-full with mode 8 compact
(`HeaderFullRoundTrip`). What the parsers report of a frame, its badness included, is also read off
the payload's bits (`FrameFieldsOnPayload`).

**WAV files** (`Wav.dfy`, `WavAgreement.dfy`, `WavStereo.dfy`): the encoder, the strict and the
lenient chunk walker, exactly when they agree, exactly when a recording comes back, and the mix of
two channels.

**The backward block scan** of the log reader (`LastLines.dfy`), against splitting the whole file.

**The command event stream** (`EventLog.dfy`, `EventStream.dfy`): an ordered log that is paged and
cleared, and clients that recover gaps in live events from it and always catch up.

**Balance queries** (`Balance*.dfy`): the table with its guarded updates, the calls of one caller,
and the protocol of starts, send results, replies, sweeps, manual balances, failing statements and
restarts. Whatever is stored is traced to the message, answer or failure it came from
(`StoredIsWhatWasSaid`).

**Automatic tasks** (`Automation*.dfy`): queues and loops per device between one Start and its
Stop. Execution order and completeness hold over every run. "At most once" does not: RunNow is let
in as soon as Start sets `started`, and a run it commits before recovery reads the table is handed
out twice. `SameRunExecutedTwice` is such a session. The exact condition compares ids: when recovery
reads the table, no continuation executes a run twice if and only if every row it finds is older
than the session, or the session has been stopped or cancelled already (`AtMostOnceExactly`).

The comment beside the EVS tables says the compact sizes stay unique; they do among themselves
(`CompactSizesDiffer`), but not against the header-full sizes, as above. The model follows the code.

Bytes are naturals below 256 with bit operations written as arithmetic. Times are integers
(nanoseconds in the arbiter and in WAV durations, milliseconds in balance queries). Errors are
`Result` and `Option` values. Protocols are functions `Apply` on a state, guarded by `Enabled`;
`Runs` and `After` fold a sequence of steps. Each step is one locked section, one database
statement, one channel operation or one call of the environment.

## Model

| member | source | states |
|---|---|---|
| ArbiterState.LeaseTicketWellFormed | internal/apduarbiter/arbiter.go:894-924 | a normalised lease request is queued as a lease wait: QMI-scoped if and only if it is a transport asking for it in mode QMI on a positive channel, its class kept, an unset one AKA for a oneshot and eUICC write otherwise |
| ArbiterState.BarrierTicketWellFormed | internal/apduarbiter/arbiter.go:197-234 | a barrier ticket blocks exactly the classes the policy lists, an unset one standing for AKA, and AKA and SMSC when it lists none |
| Arbiter.Arbiter.constructor | internal/apduarbiter/arbiter.go:176-191 | an idle arbiter with normalised limits and an open channel |
| Arbiter.Arbiter.IsBlockedByActiveBarrier | internal/apduarbiter/arbiter.go:617-624 | the loop answers whether some active barrier blocks the class |
| Arbiter.Arbiter.HasActiveExclusiveTransport | internal/apduarbiter/arbiter.go:809-816 | the loop answers whether some active transport is not QMI-scoped |
| Arbiter.Arbiter.ActiveQMITransportCount | internal/apduarbiter/arbiter.go:818-826 | the loop counts the QMI-scoped active transports |
| Arbiter.Arbiter.HasActiveTransportOnChannel | internal/apduarbiter/arbiter.go:828-835 | the loop answers whether the channel is held |
| Arbiter.Arbiter.CanAcquireTransportNow | internal/apduarbiter/arbiter.go:573-587 | an exclusive transport fits if and only if none is active; a QMI one if and only if every active transport is a QMI one on another channel and the window has room |
| Arbiter.Arbiter.TransportWaitGatesQueue | internal/apduarbiter/arbiter.go:589-600 | a waiting ticket stops the selection scan unless it is a QMI transport and the window has room |
| Arbiter.Arbiter.ScanTicket | internal/apduarbiter/arbiter.go:528-551 | one position of the selection scan: it stops there, takes the ticket or goes on |
| Arbiter.Arbiter.SelectedTransport | internal/apduarbiter/arbiter.go:526-571 | the one-pass scan with three candidates returns the first aged non-AKA, else the first AKA, else the first eligible ticket of the part of the queue the scan reaches |
| Arbiter.Arbiter.SelectedBarrier | internal/apduarbiter/arbiter.go:517-524 | the first barrier of the queue |
| Arbiter.Arbiter.HasPendingBarrierAhead | internal/apduarbiter/arbiter.go:602-615 | whether a barrier queued ahead of the ticket blocks its class |
| Arbiter.Arbiter.CanAcquireLease | internal/apduarbiter/arbiter.go:481-505 | the admission verdict for a lease; for a session or oneshot at the head of the queue outright: no barrier blocks it, no oneshot and no transport is active, and sessions are below their limit, or none for a oneshot |
| Arbiter.Arbiter.CanAcquireBarrier | internal/apduarbiter/arbiter.go:507-515 | the admission verdict for a barrier |
| Arbiter.Arbiter.FindActiveLocked | internal/apduarbiter/arbiter.go:738-758 | the active lease of that type and id, or none |
| Arbiter.Arbiter.IsIdle | internal/apduarbiter/arbiter.go:797-803 | idle exactly when the queue and the four active sets are all empty |
| Arbiter.Arbiter.SignalLocked | internal/apduarbiter/arbiter.go:837-840 | the old channel is closed and a fresh open one takes its place |
| Arbiter.Arbiter.RemoveTicketLocked | internal/apduarbiter/arbiter.go:786-795 | the first ticket with the id leaves the queue, the others keep their order; says whether there was one |
| Arbiter.Arbiter.AddActiveLocked | internal/apduarbiter/arbiter.go:630-639 | the lease joins the set of its type |
| Arbiter.Arbiter.RemoveActiveLocked | internal/apduarbiter/arbiter.go:760-784 | the lease leaves the set of its type, nothing else changes; an absent one changes nothing |
| Arbiter.Arbiter.EnqueueTicket | internal/apduarbiter/arbiter.go:425-429 | appends the ticket, counts the request, closes and replaces the channel |
| Arbiter.Arbiter.TryAcquireLease | internal/apduarbiter/arbiter.go:431-464 | one turn of the acquire loop: enters exactly when admissible, arms the lease's timer for its deadline and closes and replaces the channel; otherwise changes nothing |
| Arbiter.Arbiter.TryBeginBarrier | internal/apduarbiter/arbiter.go:237-260 | one turn of the barrier loop: enters exactly when admissible, and closes and replaces the channel; otherwise changes nothing |
| Arbiter.Arbiter.GiveUp | internal/apduarbiter/arbiter.go:468-474 | a cancelled wait leaves the queue and is counted once; the channel is closed and replaced exactly if it was queued |
| Arbiter.Arbiter.Touch | internal/apduarbiter/arbiter.go:641-663 | moves the deadline of exactly the named lease to now plus the hold limit, and its timer with it |
| Arbiter.Arbiter.Release | internal/apduarbiter/arbiter.go:665-684 | removes exactly the named lease, stops its timer and closes and replaces the channel; a stale id changes nothing |
| Arbiter.Arbiter.ReleaseExpired | internal/apduarbiter/arbiter.go:702-730 | the same for the watchdog, counted as forced, and only from the deadline on; before it the timer is armed again for the deadline |
| Arbiter.Arbiter.ReleaseBarrier | internal/apduarbiter/arbiter.go:686-700 | removes exactly the named barrier and closes and replaces the channel; a stale id changes nothing |
| Arbiter.ScanDone | internal/apduarbiter/arbiter.go:526-571 | what the single pass has found where it stops is what looking at the whole queue three times would find |
| Scheduling.NoLeaseCrossesBarrier | internal/apduarbiter/arbiter.go:481-505 | an admissible lease has no barrier ahead of it in the queue, whatever that barrier blocks |
| Scheduling.PendingBarrierCheckRedundant | internal/apduarbiter/arbiter.go:481-505 | hence a lease is admissible if and only if the other conditions hold: the pending-barrier check decides nothing |
| Scheduling.BarriersEnterInOrder | internal/apduarbiter/arbiter.go:507-524 | a barrier is admissible if and only if no lease is active and no barrier is queued before it |
| Scheduling.AdmittedPosition | internal/apduarbiter/arbiter.go:481-505 | sessions and oneshots are admitted only at the head; a transport only behind transports |
| Scheduling.AdmissionIsUnique | internal/apduarbiter/arbiter.go:481-571 | at any instant at most one queued lease is admissible |
| Scheduling.SelectionNotBehindAged | internal/apduarbiter/arbiter.go:526-571 | the selection never lies behind an aged non-AKA transport that could run |
| Scheduling.LimitedOvertaking | internal/apduarbiter/arbiter.go:526-600 | an aged, unblocked non-AKA transport is passed only by a QMI transport on another channel while its own channel is held and the window has room |
| Scheduling.ExclusiveClosesQueue | internal/apduarbiter/arbiter.go:526-600 | an unblocked waiting exclusive transport lets no lease behind it through while a transport is active |
| Scheduling.CandidateIffSomeoneCanEnter | internal/apduarbiter/arbiter.go:481-571 | with no lease active somebody can enter if and only if the queue has a candidate, a condition without the clock |
| Scheduling.NeverStuckWhenFree | internal/apduarbiter/arbiter.go:481-571 | with no lease and no barrier active, a non-empty queue has somebody who can enter |
| Scheduling.FitsExactly | internal/apduarbiter/arbiter.go:573-587 | what a transport needs: none active, or, if QMI-scoped, only QMI transports on other channels and room in the window |
| Scheduling.EligibleExactly | internal/apduarbiter/arbiter.go:526-600 | the transports the scan would take are those behind transports alone, unblocked, with what they need, and with nobody in front who has to be waited for |
| Scheduling.SelectionIsBest | internal/apduarbiter/arbiter.go:526-571 | for every queue the selection is the best of these: aged ordinary transports before AKA before the rest, then by place |
| Scheduling.LeaseEntersExactly | internal/apduarbiter/arbiter.go:481-571 | the verdict on each kind of lease, both directions, read off queue and holders |
| Scheduling.WindowIsUsed | internal/apduarbiter/arbiter.go:481-600 | what is free is used: with transports active, somebody can enter if and only if some queued transport can run |
| Scheduling.HeadTransportIsServed | internal/apduarbiter/arbiter.go:481-600 | an unblocked QMI transport at the head on a free channel means that somebody enters while the window has room |
| Scheduling.SessionsShareExactly | internal/apduarbiter/arbiter.go:481-505 | with sessions active, somebody can enter if and only if the head is an unblocked session and fewer than the limit are active |
| Scheduling.OneshotKeepsAllOut | internal/apduarbiter/arbiter.go:481-515 | while a oneshot is active nobody can enter |
| Scheduling.AKAGoesBeforeFresh | internal/apduarbiter/arbiter.go:526-571 | an AKA transport that can run goes before every ordinary one that has not aged, in every queue |
| ArbiterInvariant.EnterExclusion | internal/apduarbiter/arbiter.go:481-505 | admission keeps the limits and the separation of lease types |
| ArbiterInvariant.EnterIsolation | internal/apduarbiter/arbiter.go:481-515 | admission of a lease or a barrier keeps leases and blocked classes apart |
| ArbiterInvariant.GainOwnership | internal/apduarbiter/arbiter.go:431-464 | admission moves an id from the queue to one lease set and nowhere else |
| ArbiterInvariant.LeaveOwnership | internal/apduarbiter/arbiter.go:760-784 | removal takes an id out of one lease set only |
| ArbiterInvariant.BroadcastWakesAll | internal/apduarbiter/arbiter.go:837-840 | a section that broadcasts leaves nobody asleep on the current channel |
| ArbiterInvariant.StepKeepsInv | internal/apduarbiter/arbiter.go:193-479 | every step of the protocol keeps ownership, exclusion, isolation, conservation and the standing of refusals |
| ArbiterRuns.RunKeepsInv | internal/apduarbiter/arbiter.go:193-479 | so does every run |
| ArbiterRuns.EveryRunIsSafe | internal/apduarbiter/arbiter.go:407-479 | over every run: sessions, oneshot and transports never together, each within its limit; the transport window; barrier isolation; requests = acquires + timeouts + queue length |
| ArbiterRuns.EveryRunKeepsIdsApart | internal/apduarbiter/arbiter.go:407-447 | over every run: ids are pairwise distinct across queue, leases and barriers |
| ArbiterRuns.OnlyOwnLeaseLeaves | internal/apduarbiter/arbiter.go:760-784 | removing a lease leaves every other lease and barrier in place |
| ArbiterRuns.StaleReleaseIsNoOp | internal/apduarbiter/arbiter.go:665-684 | a late or second release, or one with another kind of id, does nothing |
| ArbiterRuns.ReleaseTakesOnlyOwn | internal/apduarbiter/arbiter.go:665-684 | a release takes the lease of its id and no other lease, barrier or ticket |
| ArbiterRuns.WatchdogWaitsForHold | internal/apduarbiter/arbiter.go:702-730 | a timer that takes anything takes its own lease, at or after its last acquire or touch plus the hold limit |
| ArbiterRuns.CallersOnlyMoveForward | internal/apduarbiter/arbiter.go:407-479 | from any state reachable from Start, over every further run, a caller only moves forward and the time of its last acquire or touch never moves back |
| ArbiterRuns.NoEarlyForcedRelease | internal/apduarbiter/arbiter.go:641-730 | in every run from Start, however many steps lie between, no forced release comes before acquire or touch time plus the hold limit |
| ArbiterRuns.RefusalLiftedOnlyByAging | internal/apduarbiter/arbiter.go:526-571 | with nothing but time passing a refused ticket becomes admissible if and only if it is the first runnable non-AKA transport to age, and aged since |
| ArbiterRuns.AsleepExactlyWhenRefused | internal/apduarbiter/arbiter.go:430-477 | lost wake-ups, exactly: a caller asleep on the current channel is admissible if and only if its ticket is that one |
| ArbiterRuns.NoLostWakeUp | internal/apduarbiter/arbiter.go:430-477 | a sleeper whose ticket does not cross the threshold cannot be admitted |
| ArbiterRuns.OvertakingInEveryRun | internal/apduarbiter/arbiter.go:526-600 | limited overtaking for every grant in every reachable state, to a woken waiter or to a newcomer in its first locked section: both are QMI transports on different channels, the one passed waits for a held channel, and the window has room |
| ArbiterDrain.EffectiveStepLowersRank | internal/apduarbiter/arbiter.go:407-479 | wake-ups, releases, expiries, timeouts and barrier exits that do something lower a rank |
| ArbiterDrain.EffectiveRunsAreShort | internal/apduarbiter/arbiter.go:407-479 | without new requests every run is at most as long as the rank |
| ArbiterDrain.StallMeansAging | internal/apduarbiter/arbiter.go:430-477 | when nothing is held and everybody queued sleeps, a ticket that crossed the threshold unnoticed is admissible |
| ArbiterDrain.NoneCrossedNotStalled | internal/apduarbiter/arbiter.go:430-477 | without such a ticket there is no stall |
| ArbiterDrain.SomebodyCanMove | internal/apduarbiter/arbiter.go:407-479 | a busy arbiter that is not stalled has a step towards idle |
| ArbiterDrain.AtRestIffIdleOrStalled | internal/apduarbiter/arbiter.go:407-479 | no step towards idle is left exactly when the arbiter is idle or stalled |
| ArbiterDrain.EveryMaximalRunEnds | internal/apduarbiter/arbiter.go:407-479 | every run of steps that do something, in any order and with any time passing, is at most as long as the rank, and where it can go no further the arbiter is idle or stalled |
| ArbiterDrain.QueueDrains | internal/apduarbiter/arbiter.go:407-479 | if holders let go and nobody crosses the threshold unnoticed, a run of wake-ups and releases no longer than the rank serves the whole queue |
| ArbiterDrain.AgingCanStall | internal/apduarbiter/arbiter.go:430-477 | the proviso is needed: a concrete run ends with nothing held and an admissible caller asleep on the current channel |
| ArbiterOrder.RunKeepsAhead | internal/apduarbiter/arbiter.go:425-474 | over every run, two callers who wait all along keep their order in the queue |
| ArbiterOrder.QueueIsInArrivalOrder | internal/apduarbiter/arbiter.go:425-474 | in every run from Start, whoever arrives while another waits stands behind it as long as both wait |
| ArbiterWatch.StepKeepsInv | internal/apduarbiter/arbiter.go:641-730 | every step of callers, timers, callbacks and idle waiters keeps the invariant |
| ArbiterWatch.EveryLeaseIsWatched | internal/apduarbiter/arbiter.go:437-444 | over every run each active lease has its timer armed for exactly its deadline, or a callback on its way |
| ArbiterWatch.NoTimerWithoutLease | internal/apduarbiter/arbiter.go:665-684 | over every run an armed timer belongs to an active lease |
| ArbiterWatch.OverdueLeaseCanBeTaken | internal/apduarbiter/arbiter.go:702-730 | once a lease is past its deadline, its timer and callback alone take it away, in at most two steps, and it is counted as forced |
| ArbiterWatch.IdleIsNeverMissed | internal/apduarbiter/arbiter.go:284-302 | over every run a caller of WaitIdle asleep on the current channel means that the arbiter is not idle |
| SimAuthReady.ReadyGate.InvalidateSIMAuthReady | internal/apduarbiter/simauth_ready.go:25-48 | advances the generation and clears the verdict |
| SimAuthReady.ReadyGate.CheckReady | internal/apduarbiter/simauth_ready.go:60-90 | the first locked section: done, wait on the gate's channel, or start a probe under the current generation |
| SimAuthReady.ReadyGate.SettleProbe | internal/apduarbiter/simauth_ready.go:92-114 | the second: a failed probe is reported as failed, a successful one as outdated exactly when the generation moved on; only a current one sets the verdict; the channel is closed exactly when it is still the gate's |
| SimAuthReady.StepKeepsInv | internal/apduarbiter/simauth_ready.go:50-115 | every step keeps the protocol's invariant |
| SimAuthReady.SingleFlight | internal/apduarbiter/simauth_ready.go:50-115 | over every interleaving at most one probe is in flight, and one is exactly while the gate says so |
| SimAuthReady.NilChannelBranchUnreachable | internal/apduarbiter/simauth_ready.go:66-74 | while a probe runs there is an open channel, so the branch that makes a missing one is never taken |
| SimAuthReady.ReadyIsJustified | internal/apduarbiter/simauth_ready.go:92-108 | over every run the verdict is positive if and only if a probe has succeeded that started after the latest invalidation |
| SimAuthReady.NilReturnIsJustified | internal/apduarbiter/simauth_ready.go:50-115 | every nil return is backed by a successful probe that started after the invalidation latest at that moment |
| SimAuthReady.WaitersAreWoken | internal/apduarbiter/simauth_ready.go:66-108 | a waiter's channel is closed, or the probe in flight closes it when it returns, whatever its result |
| SimAuthReady.ProbeDecidesCall | internal/apduarbiter/simauth_ready.go:92-114 | over every run: a failed probe ends its call with an error; a successful one ends it with nil and sets the verdict if it started after the latest invalidation; only one that succeeded too late sends its caller round again |
| SimAuthReady.LookDecidesCall | internal/apduarbiter/simauth_ready.go:60-90 | over every run: a caller returns nil at once if a probe has succeeded since the latest invalidation, else waits for the probe in flight, and probes itself if there is none |
| SimAuthReady.EveryCallCanSucceed | internal/apduarbiter/simauth_ready.go:50-115 | wherever a call stands in a reachable state, at most five steps lead it to a nil return, if probes succeed and nobody invalidates |
| Bits.AmrBitReader.Read | internal/audiotranscode/amr_packet.go:150-166 | returns the next bits as a number, or consumes nothing at the end of data or beyond a byte |
| Bits.AmrBitReader.ReadBitsAsBytes | internal/audiotranscode/amr_packet.go:168-186 | returns the next bits packed from the left with zero padding, or consumes nothing at the end of data |
| Bits.AmrBitWriter.Write | internal/audiotranscode/amr_packet.go:192-196 | appends the low bits of the value, most significant first |
| Bits.AmrBitWriter.WriteBytes | internal/audiotranscode/amr_packet.go:198-202 | appends the first bits of the bytes |
| Bits.AmrBitWriter.Bytes | internal/audiotranscode/amr_packet.go:204-212 | packs the bits written, zero padded |
| Bits.SetSpeechBit | internal/audiotranscode/evs_io.go:189-191 | sets exactly one bit of a buffer |
| Bits.BitsOfPack | internal/audiotranscode/amr_packet.go:204-212 | packing and reading back gives the bits with zero padding |
| Bits.PackOfBits | internal/audiotranscode/amr_packet.go:168-212 | reading all bits and packing them gives the bytes back |
| AmrPacket.ReadTocLoop | internal/audiotranscode/amr_packet.go:66-88 | the table-of-contents loop returns the entries up to the first without follow bit and leaves the reader behind them, with the error of the first thing missing |
| AmrPacket.ParseBandwidthEfficientFrames | internal/audiotranscode/amr_packet.go:57-109 | the reader-based parser computes the specified parse of section 4.3 of RFC 4867 |
| AmrPacket.EntryRoundTrip | internal/audiotranscode/amr_packet.go:66-88 | an entry is determined by its six bits |
| AmrRoundTrip.TocSound | internal/audiotranscode/amr_packet.go:66-88 | the entries read serialise to the bits consumed; 1 to 32 of them |
| AmrRoundTrip.FramesSound | internal/audiotranscode/amr_packet.go:89-107 | the frames read are canonical and their speech bits are those consumed |
| AmrRoundTrip.TocComplete | internal/audiotranscode/amr_packet.go:66-88 | a serialised table of contents is read back, whatever follows |
| AmrRoundTrip.FramesComplete | internal/audiotranscode/amr_packet.go:89-107 | so are the serialised speech bits |
| AmrRoundTrip.ParsedReserialises | internal/audiotranscode/amr_packet.go:57-109 | whatever is accepted begins with the serialisation of what is returned |
| AmrRoundTrip.SerialisedParses | internal/audiotranscode/amr_packet.go:57-109 | every payload that begins with a serialisation of 1 to 32 frames parses to them |
| AmrRoundTrip.ParserIsExactInverse | internal/audiotranscode/amr_packet.go:57-109 | the two together: parse result and language, if and only if |
| AmrRoundTrip.FrameFieldsOnPayload | internal/audiotranscode/amr_packet.go:57-107 | read off the payload: the mode request in its first four bits, type and quality of frame i in bits 4 + 6i on; a frame is reported bad if and only if its quality bit is clear |
| OctetAligned.ParseOctetAlignedFrames | internal/audiotranscode/realtime.go:222-264 | the index-based parser computes the specified parse of section 4.4 of RFC 4867 |
| OctetAligned.StorageFrameToRTP | internal/audiotranscode/realtime.go:266-279 | the octet-aligned printer |
| OctetAligned.StorageFrameToBandwidthEfficientRTP | internal/audiotranscode/amr_packet.go:111-139 | the bandwidth-efficient printer writes mode request 15, one entry and the speech bits of the type |
| OctetAligned.OctetSerialisedParses | internal/audiotranscode/realtime.go:222-264 | whatever begins with a serialisation of 1 to 32 frames parses to them, with any reserved bits and anything behind |
| OctetAligned.OctetParsedReserialises | internal/audiotranscode/realtime.go:222-264 | whatever is accepted begins, reserved bits cleared, with the serialisation of what is returned |
| OctetAligned.OctetParserIsExactInverse | internal/audiotranscode/realtime.go:222-264 | the two together: parse result and language up to reserved bits, if and only if |
| OctetAligned.OctetFieldsOnPayload | internal/audiotranscode/realtime.go:222-264 | read off the payload: type and quality of frame i in byte 1 + i; a frame is reported bad if and only if its quality bit is clear |
| OctetAligned.SerialisedIsUnreserved | internal/audiotranscode/realtime.go:266-279 | a serialisation itself has no reserved bit set |
| OctetAligned.CodecTablesAgree | internal/audiotranscode/amr_packet.go:8-11 | storage bytes are speech bits rounded up, for every type of both codecs that has storage bytes |
| OctetAligned.SpeechSizesAreBitRates | internal/audiotranscode/evs_io.go:20-26 | fifty times the speech bits of a mode are its bit rate, for the eight narrow-band and the nine wide-band modes |
| OctetAligned.FramingIndependence | internal/audiotranscode/realtime.go:222-264 | canonical frames come out of both parsers alike, any number of them |
| OctetAligned.PrintersAcceptTogether | internal/audiotranscode/realtime.go:266-279 | the printers accept the same speech and SID frames |
| OctetAligned.OctetPrintParses | internal/audiotranscode/realtime.go:222-279 | octet-aligned print then parse gives back header and speech |
| OctetAligned.BandwidthEfficientPrintParses | internal/audiotranscode/amr_packet.go:57-139 | bandwidth-efficient print then parse gives them back with spare bits cleared |
| OctetAligned.PrintedFramesAgree | internal/audiotranscode/amr_packet.go:111-139 | both give mode request 15, the same header and flag; the same frame if and only if the spare bits are zero |
| AmrErrors.RefusedExactly | internal/audiotranscode/amr_packet.go:57-107 | bandwidth-efficient refusal, error by error, if and only if: no payload; 32 entries that all announce another; a table of contents cut off; fewer bits than the types ask for |
| AmrErrors.OctetRefusedExactly | internal/audiotranscode/realtime.go:222-264 | octet-aligned refusal: fewer than two bytes; a table of contents that runs to the end or beyond 32 entries; or the first frame that cannot be read, for its type or its length |
| EvsIo.StorageToEVSIOCompact | internal/audiotranscode/evs_io.go:85-112 | the compact printer: mode request, speech with bit 0 moved to the end, padding; SID goes header-full |
| EvsIo.StorageToEVSIOHeaderFull | internal/audiotranscode/evs_io.go:114-128 | the header-full printer: request byte, frame type of the mode, speech, and nothing else; it refuses what is no storage frame |
| EvsIo.EvsCompactIOMode | internal/audiotranscode/evs_io.go:47-54 | the first mode of that protected size |
| EvsIo.UnpackEVSCompactIO | internal/audiotranscode/evs_io.go:56-83 | the compact parser puts the late bit back in front |
| EvsIo.EvsIOPayloadToStorageBits | internal/audiotranscode/evs_io.go:32-45 | dispatch by size, compact first |
| EvsIo.CompactPayloadSize | internal/audiotranscode/evs_io.go:85-112 | a packed payload has exactly the protected size of its mode |
| EvsIo.CompactRoundTrip | internal/audiotranscode/evs_io.go:32-112 | for modes 0 to 8, every mode request and storage frame: unpacking gives the frame back with quality bit set and spare bits cleared |
| EvsIo.CompactSizesDiffer | internal/audiotranscode/evs_io.go:20-26 | no two modes share a compact size |
| EvsIo.CompactRepacks | internal/audiotranscode/evs_io.go:32-112 | every payload of a compact size decodes, and repacks to itself if and only if its padding is zero |
| EvsIo.OnlySizeCollision | internal/audiotranscode/evs_io.go:32-54 | header-full sizes are no compact sizes, except mode 7's, which is compact mode 8 |
| EvsIo.BareSizesNeverCollide | internal/audiotranscode/evs_io.go:32-54 | sizes of header-full payloads without the request byte, which the parser also takes, meet no compact size |
| EvsIo.BareHeaderFullDecodes | internal/audiotranscode/evs_io.go:130-168 | so such a payload decodes to its mode and speech for all ten modes, mode 7 included |
| EvsIo.HeaderFullRoundTrip | internal/audiotranscode/evs_io.go:32-168 | header-full output decodes back to mode and speech if and only if the mode is not 7; mode 7 comes back as mode 8 |
| EvsIo.RequestComesBack | internal/audiotranscode/evs_io.go:85-128 | the mode request comes back modulo 8 from bits 4 to 6 of the header-full request byte and from the first three bits of a compact payload |
| EvsIo.SidGoesHeaderFull | internal/audiotranscode/evs_io.go:85-112 | a comfort-noise frame asked for in compact form survives |
| EvsLanguage.GoodHeaderIsGood | internal/audiotranscode/evs_io.go:130-168 | the storage header made of a mode has its type, the quality bit and nothing else |
| EvsLanguage.HeaderFullExactly | internal/audiotranscode/evs_io.go:130-168 | a header-full payload is accepted, with this mode and speech, if and only if they stand behind at most one request byte |
| EvsLanguage.HeaderFullRefusedExactly | internal/audiotranscode/evs_io.go:130-168 | and refused for each reason exactly when its bytes say so |
| EvsLanguage.DecodeExactly | internal/audiotranscode/evs_io.go:32-83 | every payload of a compact size decodes as compact whatever it holds, any other as header-full |
| Wav.EncodePCM16WAV | internal/audiotranscode/mp3.go:104-127 | the buffer holds header and little-endian samples |
| Wav.DecodePCM16WAV | internal/audiotranscode/decoder.go:192-225 | the strict chunk walker, with its errors |
| Wav.DecodeWAVFlexibleWithin | internal/audiotranscode/wav_flexible.go:18-86 | the lenient chunk walker, with its errors |
| Wav.WalkChunks | internal/audiotranscode/wav_flexible.go:23-53 | the lenient loop stops at the first empty chunk and cuts a chunk that overruns |
| Wav.MixFrames | internal/audiotranscode/wav_flexible.go:70-85 | mono samples, or left plus right halved toward zero |
| WavAgreement.DurationLimitIsExact | internal/audiotranscode/transcoder.go:261-276 | for every rate a header can hold the limit is the exact number of whole samples, capped at the largest integer; the intermediate products do not overflow |
| WavAgreement.WalkersAgree | internal/audiotranscode/wav_flexible.go:23-53 | the lenient walk finds what the strict walk would find if it stopped at the first empty chunk |
| WavAgreement.DecodersAgreeExactly | internal/audiotranscode/decoder.go:192-225 | on an accepted file the decoders agree if and only if nothing behind the first empty chunk changes rate or samples |
| WavAgreement.DecodersAgree | internal/audiotranscode/decoder.go:192-225 | so they agree on every accepted file without an empty chunk |
| WavAgreement.DecodersAgreeByChunks | internal/audiotranscode/decoder.go:192-225 | and on every accepted file without a fmt or data chunk behind its first empty one |
| WavAgreement.StrictRoundTrip | internal/audiotranscode/mp3.go:104-127 | encode then strict decode returns samples and rate if and only if there are samples and both sizes fit 32 bits |
| WavAgreement.LenientRoundTrip | internal/audiotranscode/mp3.go:104-127 | encode then lenient decode returns them if and only if the same condition holds |
| WavAgreement.LimitKeepsPrefix | internal/audiotranscode/wav_flexible.go:61-86 | a duration limit changes neither verdict nor rate and keeps the first samples, all of them when it spans no whole sample |
| WavAgreement.HeaderDescribesFile | internal/audiotranscode/mp3.go:104-127 | the header of an encoded file counts its bytes modulo 2^32, and byte rate and frame size follow from rate, channels and sample size |
| WavAgreement.EmptyChunkHidesFile | internal/audiotranscode/wav_flexible.go:23-53 | behind an empty chunk the strict decoder finds any recording and the lenient one nothing |
| WavStereo.StereoIsMixed | internal/audiotranscode/wav_flexible.go:70-85 | whatever chunks it comes from, two-channel data decodes to one sample a pair, half of left plus right rounded toward zero |
| WavStereo.StereoFileIsMixed | internal/audiotranscode/wav_flexible.go:18-86 | so does every two-channel file, written out; the strict decoder refuses it |
| WavStereo.EqualChannelsAreMono | internal/audiotranscode/wav_flexible.go:70-85 | equal channels give the mono recording back |
| WavStereo.SwappedChannelsSame | internal/audiotranscode/wav_flexible.go:70-85 | swapping the channels changes nothing |
| LastLines.ReadLastLines | internal/api/server.go:854-915 | the block scan, joined, split, trimmed and cut, is a function of where the scan stops |
| LastLines.ScanBack | internal/api/server.go:877-905 | the chunks read, joined in reverse, are the content from the stop offset on |
| LastLines.BackwardScanExact | internal/api/server.go:854-915 | it returns what the whole file would give if and only if it read everything, kept more lines than asked for, kept exactly as many right behind a newline, or all is blank |
| LastLines.BackwardScanRefines | internal/api/server.go:854-915 | it does whenever the scan ended at the start of the file or with enough newlines, whatever the cap, and the last line is not blank, a final newline aside |
| LastLines.BelowCapNotStopped | internal/api/server.go:877-905 | a scan that ends below the cap ended for one of these two reasons |
| LastLines.ScanEndsExactly | internal/api/server.go:877-905 | why the scan ends, and that it reads no further: at the start, at the cap or with enough newlines, and a block earlier with none of these |
| LastLines.BlankEndingHidesLine | internal/api/server.go:854-915 | a block of blank lines at the end hides the line before it |
| EventLog.PageIsGapless | internal/commandcenter/database_store.go:65-73 | a page is ordered, lies behind the cursor and leaves out no row up to its last; a short page none at all |
| EventLog.CommandLog.AddEvent | internal/commandcenter/database_store.go:41-50 | ids follow commit order and are not given out again |
| EventLog.CommandLog.ListEvents | internal/commandcenter/database_store.go:65-73 | the next rows, within the clamped limit: in order, behind the cursor, and with no row left out up to the last one returned |
| EventLog.CommandLog.ListEventsBefore | internal/commandcenter/database_store.go:75-87 | the rows asked for in descending order and turned round are the last rows in ascending order |
| EventLog.CommandLog.ClearCompleted | internal/commandcenter/database_store.go:89-107 | removes the rows of finished executions and keeps the order of the others |
| EventLog.ReverseEvents | internal/commandcenter/database_store.go:159-163 | reverses the slice in place |
| EventLog.ClampLimit | internal/commandcenter/database_store.go:149-157 | a limit from 1 to 200 is kept, a greater one becomes 200, any other 100 |
| EventStream.LatestIsGreatest | internal/api/command_center.go:214-220 | the start cursor without a resume request is the id of the newest row |
| EventStream.Connection.WriteCommandBacklog | internal/api/command_center.go:222-239 | page after page writes exactly the rows behind the cursor, in order |
| EventStream.Connection.HandleEvent | internal/api/command_center.go:250-264 | an old event is dropped, the next one written, a gap filled from the table |
| EventStream.ReadPageKeepsInv | internal/api/command_center.go:222-239 | a page keeps what was written ordered, without duplicates and without gaps |
| EventStream.ReceiveKeepsInv | internal/api/command_center.go:241-264 | so does a live event, in whatever order and however often it comes |
| EventStream.StreamIsExactlyOnce | internal/api/command_center.go:222-271 | over every run: ids written strictly increase, and the surviving events behind the start up to the cursor are precisely those written |
| EventStream.EndOfPagingCatchesUp | internal/api/command_center.go:222-239 | when paging ends the client has every surviving event behind its start |
| EventStream.ReceivedEventIsCovered | internal/api/command_center.go:250-264 | after a live event no surviving one up to it is missing, or the client turns to the table |
| EventStream.OnlyClearedEventsGo | internal/commandcenter/database_store.go:89-107 | over every run an event that is gone from the table belonged to an execution cleared as finished |
| EventStream.ClientCatchesUp | internal/api/command_center.go:222-271 | from any reachable state the client's own steps alone lead to an empty channel and nothing to page, and then no surviving event up to any received one is missing |
| BalanceStore.DatabaseStore.CreatePending | internal/balance/database_store.go:20-33 | inserts exactly when no query of the card is pending and the id is new |
| BalanceStore.DatabaseStore.DeleteManual | internal/balance/database_store.go:39-44 | removes the device's manual row and says whether there was one |
| BalanceStore.DatabaseStore.MarkAwaitingReply | internal/balance/database_store.go:46-51 | only a sending query moves on, keeping all but state and update time; otherwise an error and no change |
| BalanceStore.DatabaseStore.MarkFailed | internal/balance/database_store.go:53-62 | only a pending query fails, with the cause given and its request and answer fields kept; otherwise an error and no change |
| BalanceStore.DatabaseStore.Complete | internal/balance/database_store.go:64-72 | only a pending query completes, with the completion given and its request kept; otherwise nothing changes; says which |
| BalanceStore.DatabaseStore.FindPending | internal/balance/database_store.go:74-84 | a pending query of the card whose window holds the time, started last, or none |
| BalanceStore.DatabaseStore.ExpirePending | internal/balance/database_store.go:86-92 | times out exactly the pending queries past their deadline, keeping request and answer fields, and counts them |
| BalanceStore.LookupIsUnambiguous | internal/balance/database_store.go:74-84 | with one pending query a card the lookup has one possible answer |
| BalanceStore.SweepFreesCard | internal/balance/database_store.go:20-33 | after a sweep a card is free if and only if all its pending queries had run out of time |
| BalanceStore.BoundaryBelongsToBoth | internal/balance/database_store.go:74-92 | the last instant of a window still matches a reply and is already swept |
| BalanceService.Service.Send | internal/balance/service.go:52-96 | sends by the rule's transport and moves the query on, or says why not and leaves it alone |
| BalanceService.Service.StartQuery | internal/balance/service.go:27-50 | the result and the row it leaves when nobody interferes, error by error and field by field |
| BalanceService.Service.HandleInboundSMS | internal/balance/service.go:98-114 | completes the matching query with the reply read from the message, field by field, or changes nothing |
| BalanceProtocol.QueryKeepsFit | internal/balance/service.go:27-114 | every step keeps a query's row, its starter and its cause of ending in agreement, and undoes nothing that is final |
| BalanceRuns.StepKeepsInv | internal/balance/service.go:27-140 | every step keeps the invariant |
| BalanceRuns.OnePendingOverEveryRun | internal/balance/database_store.go:20-33 | over every run, restarts included, at most one query a card is pending |
| BalanceRuns.EndedIsForever | internal/balance/database_store.go:46-92 | completed, failed and timed out are absorbing: the row never changes again |
| BalanceRuns.EndedForOneReason | internal/balance/database_store.go:53-92 | a query is ended if and only if one cause is on record; replies lie in its window, sweeps not before its deadline |
| BalanceRuns.EachReplyEndsOneQuery | internal/balance/service.go:98-114 | a message reported as matched ended exactly one query, and no other message the same |
| BalanceRuns.GoodReturnIsSent | internal/balance/service.go:27-50 | without an error an answered USSD query returns completed, any other awaiting, completed or timed out |
| BalanceRuns.EarlyEndMeansError | internal/balance/service.go:38-96 | whoever ends a query while its own start is still sending, or has not yet stored the outcome: the row stays as it was ended and the start can only return an error |
| BalanceRuns.EarlyReplyStaysCompleted | internal/balance/service.go:38-96 | so a reply handled that early, even before the send call or the USSD answer is back, stays with what was read from it, and the start can only return an error |
| BalanceTrace.StoredIsWhatWasSaid | internal/balance/service.go:27-114 | over every run, a query was created by a start with its card, rule and window; ended by a reply it holds what that message, matched with it, was read as; ended by an answer, its own session's; failed, its gateway's cause or one of the service's own; pending or swept, no answer |
| BalanceTrace.ManualIsWhatWasEntered | internal/balance/manual.go:18-47 | over every run a manual balance in the table is one that was entered for its device, field by field |
| BalanceTrace.ManualStays | internal/balance/manual.go:18-55 | it stays until another is entered or it is cleared, whatever else goes on |
| BalanceTrace.UndisturbedStart | internal/balance/service.go:27-96 | a start nobody interferes with does in the protocol what StartQuery does alone, for every transport, answer and refusal |
| BalanceTrace.UndisturbedReply | internal/balance/service.go:98-114 | a message nobody interferes with completes the pending query in whose window it lies with what was read, and says so |
| Automation.Service.Begin | internal/automation/service.go:68-80 | the locked part of Start: fresh queues, or nothing if started |
| Automation.Service.End | internal/automation/service.go:112-126 | the locked part of Stop: no longer started, queues kept |
| Automation.Service.Register | internal/automation/runner.go:44-58 | one queue and one loop per device, made together, and only while started |
| Automation.Channel.TrySend | internal/automation/runner.go:59-65 | accepts in order up to the capacity |
| Automation.Channel.TryReceive | internal/automation/runner.go:67-80 | hands out in order |
| Automation.ExecuteAttempts | internal/automation/runner.go:101-120 | attempts stop at the first success, permanent failure, cut pause or the last retry; the result is the last attempt's |
| AutomationRuns.StepKeepsInv | internal/automation/runner.go:10-80 | every step keeps the invariant |
| AutomationRuns.ExecutedInAcceptedOrder | internal/automation/runner.go:44-80 | over every run, per device: accepted = executed, then what the loop holds, then the queue |
| AutomationRuns.OneRunAtATime | internal/automation/runner.go:67-80 | no two loops execute for a device, and the one that does executes the latest |
| AutomationRuns.RecoveredRunsComeFirst | internal/automation/service.go:82-110 | no recovered run is accepted or executed after one the scheduler claimed |
| AutomationRuns.NoRunIsLost | internal/db/automatic_task_runs.go:117-147 | every run found or created is still queued in the table or was executed |
| AutomationRuns.NothingRunsAfterStop | internal/automation/service.go:112-138 | after a completed Stop no run is executed and no loop comes back, whatever late callers do |
| AutomationTable.QueuedUntilMarked | internal/automation/runner.go:82-99 | over every run, a run is queued in the table if and only if it was found or created and has not been marked as begun |
| AutomationOnce.UnhandedIffOld | internal/automation/service.go:77-89 | recovery picks up nothing this session has handed out if every row it finds is older than the session; in a session neither stopped nor cancelled, only if |
| AutomationOnce.OldRowsRunOnce | internal/automation/runner.go:10-80 | over every run of a session whose recovery finds only rows older than the session, no run is executed twice |
| AutomationOnce.HandedRunsTwice | internal/automation/service.go:77-110 | from any undisturbed state: if recovery picks up a run that has been handed out, the session can go on to execute that run twice |
| AutomationOnce.AtMostOnceExactly | internal/automation/service.go:68-138 | at most once, exactly: from any reachable state about to recover, no continuation executes a run twice if and only if every row found is older than the session, or Stop or the end of the context has come first |
| AutomationDuplicate.SameRunExecutedTwice | internal/automation/service.go:68-89 | a whole session in which this happens: a run committed by RunNow between Start and recovery is executed twice |

## Left out

- Owner and mode strings are taken as normalised: trimming, upper-casing and the names given to empty ones are not modelled.
- Counters and ids are unbounded; the wrap-around of 64-bit counters is not modelled.
- Leases are values in the arbiter's sets, found by id; sharing of lease pointers is not modelled.
- Stats, Snapshot, logging and error texts of the arbiter: reports without influence on admission.
- Go timers, select and goroutine scheduling are nondeterministic steps; fairness is not assumed, so progress is stated as existence of runs, bounds on their length and the states in which they can end.
- ArbiterDrain.QueueDrains: the run it gives lets no time pass between its steps; runs with time passing are covered by EveryMaximalRunEnds and can stall as in AgingCanStall.
- The reason and last error kept with the readiness verdict, and nil receivers, contexts and probes.
- OctetAligned.FramingIndependence: NO_DATA frames and types without storage bytes, which the octet-aligned printer refuses.
- Native codecs, MP3 decoding, resampling by floating point, format-parameter strings, mode selection and the mode switch a received mode request makes (`applyCMR`).
- EvsIo.EvsIOPayloadToStorageBits: the choice of payload by media description and the mapping of bit rates to modes are not modelled.
- LastLines.ReadLastLines: file errors, short reads and a file that changes during the scan; blank means ASCII white space.
- Event payloads, server-sent event syntax, heartbeats, failed client writes and the routes around the stream.
- EventStream.StreamIsExactlyOnce: assumes, as the table's key does, that ids follow commit order and are not given out again.
- The channel of a subscriber drops an event when it is full; which events are published, late, twice or never, is left open.
- Balance rules: parsing of replies by regular expression, matching of senders and choice of a rule are parameters of the steps.
- BalanceStore.DatabaseStore.FindPending: times are compared as integers, not as Julian days, and ties in the start time are left open.
- Manual balances: the check of amount and currency texts. Lists of queries: ordering and paging.
- The run of an automatic task itself, notifications, task editing, next-run dates and time zones.
- AutomationRuns.RecoveredRunsComeFirst: recovered runs are taken in any order; that the table lists them by scheduled time is not used.
- AutomationOnce.OldRowsRunOnce: sessions that overlap because an earlier Stop gave up waiting are not modelled.
- Modem backends, card policies, HTTP handlers, settings, authentication and notification services.
