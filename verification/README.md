# Verification of Busker's response path and of the Tempo run engine

Two parts of this repository promise things over unbounded runs, and this
project proves them on models of the code.

**The native response path** (`src/shim/shim.c`).  Handler threads claim slots
of a lock-free ring, pack a response into the slot and publish or abort it; the
event loop drains the ring, looks each response's request up in an intrusive
hash table and sends it.  Around this sit the layout arithmetic of the ring, the
claim handles, the attachment table of an HTTP/3 transport and the private
header that carries a QUIC datagram from one worker to another.

**The Tempo run engine** (`swamp/extensions/models/_lib`).  A state machine of
fifteen phases measures, changes, tests and reviews code under budgets.  A
driver saves each step so that a crash loses no result and repeats no effect, a
verifier replays the saved steps of a parent run before a restart builds on it,
and an acceptance rule decides which measurements count as an improvement.

The modules, in reading order:

| file | content |
|---|---|
| `Wrappers.dfy`, `Numbers.dfy`, `Bits.dfy`, `Counting.dfy` | optional values and results; machine limits; masks and shifts on numbers; counting in sequences |
| `SlotLayout.dfy`, `Handles.dfy` | strides, payload regions and slot checks; claim handles |
| `ResponseRing.dfy` | the ring as a step relation, one atomic operation a step |
| `RingInvariant.dfy`, `RingTheorems.dfy`, `RingDelivery.dfy` | its invariant; what follows for whole runs; which responses are sent |
| `ClaimScan.dfy` | one caller alone: what a claim's scan visits, and that the ring's own steps do the same |
| `RingProgress.dfy` | that a request can always be answered |
| `RequestTable.dfy` | the chained hash table, relinked in place |
| `Attachments.dfy`, `ForwardHeader.dfy` | HTTP/3 attachments; the forwarding header |
| `RunState.dfy`, `RunHistory.dfy`, `RunLaws.dfy` | the state machine; every history it can produce; its laws, told from records and numbers |
| `Driver.dfy`, `DriverLaws.dfy`, `Execution.dfy` | the crash-safe driver; what can be loaded, saved and recovered; the loop around it |
| `Campaign.dfy`, `ReplaySoundness.dfy` | the replay of a parent run and the search for what justified each kept revision; what the replay is worth on any evidence |
| `Control.dfy`, `ScoreGrowth.dfy`, `ControlLaws.dfy` | the acceptance rule; outcomes, best measurements and chains of kept ones; what the rule says, told from the rates |
| `Restarts.dfy` | restarts one after the other, and when the best h1 rate can fall |
| `ScoredRuns.dfy`, `VerdictSoundness.dfy` | histories with their measurements: how every run grows, and the verifier's whole verdict; what the verdict is worth on any evidence |
| `Profiles.dfy` | the summary of a profile recording |

How the models stand for the code:

- The ring assumes what `src/shim/shim.h:307-310` asks of callers: a handle gets
  one publish attempt or an abort, and an abort after a failed publish.  Every
  atomic operation is one step, in any interleaving and in one total order; a
  client between two steps stands at its next operation.  The log, the tickets
  and the snapshot are history, which no step reads.
- Registering a request assumes that its context is not linked yet.  The table's
  own invariant is suspended between linking a context and setting its request
  number, and holds again when `Install` returns.
- The hash mixing function is an arbitrary function.
- A worker is attached under a descriptor that no other attachment has, and that is
  not -1; `Transport.Valid` says so and every operation keeps it.
- That the ring's addresses do not wrap is what the allocator guarantees.
- A write of the driver succeeds, is lost, or takes effect without the caller
  learning it; the caller may also die while it performs a step.  Together these
  are a crash at any point.  Calls of one run do not overlap, as the driver asks.
- A scored history is a history in which every valid measurement step has a saved
  measurement of the code it worked on, and ended as the comparison of its scores
  says.  Which measurement a step is compared with is taken from the outputs of the
  earlier steps, as the run does.  An invalid measurement may end in any way.
- Rates and fractions are real numbers.

Where the code and what one would expect of it part:

- The claim scan adds the cursor in 64-bit arithmetic before it takes the
  remainder.  When the cursor wraps within a scan and the ring's size does not
  divide 2^64, some slot is not visited (`ClaimScan.ScanCoversExactly`,
  `ClaimScan.ClaimCanMissFreeSlot`, and with three slots `ClaimScan.LastCursorMissesFreeSlot`).
- Receiver destruction reads the claimed counter before the ready counter.  That
  order matters: the other one can miss a response
  (`RingTheorems.ReversedReadsMiss`).  `clj_h2o_mt_response_pending` adds both
  loads in one expression, whose order C leaves open, so nothing is claimed for it.
- Nothing keeps two published slots from naming the same request.  The ring
  guarantees at most one send for each publish, not one for each request.
- A worker of the active generation that does not accept can be the target of its
  own forwarded Initials; `Attachments.InitialsReachActive` says exactly when, and
  `Attachments.InitialComesBack` is an instance.
- The replay gives only the last finished step the final time.  It therefore
  refuses two kinds of genuine runs: one whose clean-up was tried again after time
  alone had ended the run, and one abandoned in a step that a budget had wound
  down, or that came after a step which would not have begun at the later time.
  `Campaign.DoneCertified` and `Campaign.AbandonedCertified` give the exact
  conditions, `Campaign.RetriedFinishRejected` and
  `Campaign.AbandonedLateRejected` an example each.  A restart whose parent had
  kept a change is refused too when it is abandoned in its very first step.
- The verifier asks of a finished restart what the live run never checks: that the
  baseline exists, and that it repeats the parent's best h1 rate within five per
  cent.  `ScoredRuns.DoneAccepted` gives the exact condition;
  `ScoredRuns.FailedBaselineVerdict` and `ScoredRuns.DriftedRestartRefused` are
  genuine finished restarts that are refused.
- The best h1 rate never falls over accepted restarts when h1 is a workload of the
  goal.  It can fall when h1 is only protected: `Restarts.H1NeverFallsExactly` says
  so for every policy, and `Restarts.TlsChangeSlowsH1` is an accepted restart that
  takes h1 from 100 to 96.
- A fresh run's baseline is compared with itself and so never meets the floor; a
  fresh run cannot end with its target met at the baseline.

## Main results

- **Ring.** Every state of every run has the invariant (`RingInvariant.ReachableInv`),
  so both counters account for all slots (`RingTheorems.CounterBalance`,
  `RingTheorems.NoUnderflow`), every claim is resolved once and none is lost
  (`RingTheorems.EachClaimResolvedOnce`), a pass frees every slot that was READY
  (`RingTheorems.PassFreesReady`), a response is sent exactly when its request is
  registered (`RingDelivery.ResponsesAreSentExactly`, `RingDelivery.PassAnswersReady`,
  `RingTheorems.NoSendAfterCleanup`), every request can be answered while a slot is
  FREE (`RingProgress.RequestIsAnswered`), and two zero reads in the right order mean
  that the ring is quiet (`RingTheorems.ZeroReadsMeanQuiescent`, `RingTheorems.ReversedReadsMiss`).
- **Claims.** A scan covers the ring exactly when its cursor does not wrap out of
  step (`ClaimScan.ScanCoversExactly`); run alone, the ring's own steps end as the
  scan says, and while it covers the ring they claim whenever a slot is FREE
  (`ClaimScan.ClaimAlone`).
- **Layout and handles.** Accepted rings, ranges and handles are exactly the sound
  ones (`SlotLayout.StrideExact`, `SlotLayout.ChecksExact`, `Handles.HandleDecodes`).
- **Request table.** The intrusive table refines a finite map
  (`RequestTable.Receiver.Install`, `RequestTable.Receiver.Find`,
  `RequestTable.RequestCtx.CleanupRequest`).
- **HTTP/3 forwarding.** `Attachments.InitialsReachActive`,
  `Attachments.Transport.Detach`, `ForwardHeader.RoundTrip`,
  `ForwardHeader.AcceptedExactly`, `ForwardHeader.ForwardingUndone`.
- **Run engine.** Every history is sound and pays for its steps
  (`RunHistory.EveryHistoryIsSound`, `RunHistory.BestIsJustified`,
  `RunHistory.StepsAreBounded`); which step follows which outcome, when a budget steps
  in and why a run stops is told from its records alone (`RunLaws.EveryStepFollows`,
  `RunLaws.EveryStateTells`, `RunLaws.BegunExactly`).
- **Driver.** Whatever fails, the store shows a history of the engine
  (`Driver.StoreShowsHistory`, `Driver.AtMostOnce`, `Driver.RecoveryIsTransparent`,
  `DriverLaws.RecoversExactly`), and the loop around it ends (`Execution.ExecuteRun`).
- **Scores.** An assessment says what the rates say, and names a fault exactly when it
  has a cause (`ControlLaws.AssessmentIsTold`,
  `ControlLaws.CandidateFaultsHaveCauses`); the kept changes of every run grow by the required factor each and never below an
  allowance (`ScoredRuns.KeptMeasurementsChain`, `ScoredRuns.EveryRunGrows`); the best
  h1 rate never falls over restarts, exactly unless h1 is only protected
  (`Restarts.H1NeverFallsExactly`).
- **Verifier.** On any evidence its replay certifies exactly what the engine does
  (`ReplaySoundness.CertifiesExactly`), and whatever it accepts has grown with every
  kept change (`VerdictSoundness.VerdictIsSound`); of the genuine runs it certifies
  exactly those that time did not wind down before their last step (`Campaign.DoneCertified`, `Campaign.AbandonedCertified`), and
  its whole verdict accepts exactly those of them that, on a restart, requalified
  (`ScoredRuns.VerdictIsReplayAndBaseline`, `ScoredRuns.DoneAccepted`,
  `ScoredRuns.SavedRunAccepted`).
- **Profiles.** A summary counts every line once and ignores their order
  (`Profiles.Summarize`, `Profiles.SummaryIgnoresOrder`).

The other rows below are the operations themselves, proved against their
specifications, and the steps on the way.

## Model

| member | source | states |
|---|---|---|
| Bits.MaskIsMod | src/shim/shim.c:607 | masking with a power of two less one is taking the remainder, for every number |
| SlotLayout.StrideExact | src/shim/shim.c:1145-1162 | a ring is accepted exactly when its parameters are in range and the whole aligned allocation fits a word in unbounded arithmetic; the stride is then the least aligned slot size |
| SlotLayout.CreatedGeometryValid | src/shim/shim.c:1149-1181 | an accepted ring has an aligned stride that holds slot and payload, and a valid geometry at any address the allocator gives that does not wrap |
| SlotLayout.PayloadsDisjoint | src/shim/shim.c:908-915 | payload regions lie inside the allocation, each in its own slot, and never overlap |
| SlotLayout.CheckSlotData | src/shim/shim.c:966-986 | the validation loop accepts exactly the data whose every header and body range passes |
| SlotLayout.ChecksExact | src/shim/shim.c:939-986 | the overflow-safe checks accept exactly the ranges that lie in the slot's own payload under unbounded arithmetic |
| SlotLayout.AcceptedRangesStayHome | src/shim/shim.c:948-986 | an accepted header range never reaches into another slot |
| Handles.SequenceFieldFits | src/shim/shim.c:1030-1034 | the sequence field stays within 48 bits when its counter wraps |
| Handles.HandleDecodes | src/shim/shim.c:1030-1036 | a handle is nonzero, fits a word and decodes to its own slot for every ring up to 65535 slots |
| Handles.LiveHandlesDiffer | src/shim/shim.c:917-931 | handles of different slots differ even when their sequence fields collide |
| RingInvariant.ClientLegal | src/shim/shim.c:1013-1087 | every atomic operation of claim, publish and abort writes only the client's own slot, moves the counters by what it owes, and logs what it did |
| RingInvariant.StepKeepsInv | src/shim/shim.c:1013-1123 | every step of any thread, of the drainer and of the request table keeps the ring's invariant |
| RingInvariant.ReachableInv | src/shim/shim.c:1013-1123 | every state of every run has the invariant |
| RingInvariant.NoReadyWhenZero | src/shim/shim.c:1090-1092 | when the ready counter is zero no slot is READY or DRAINING, no publisher is past its increment, and the drainer owes no decrement |
| RingTheorems.CounterBalance | src/shim/shim.c:1013-1123 | both counters account exactly for slot states, claims not yet counted and decrements still due, and are never negative |
| RingTheorems.NoUnderflow | src/shim/shim.c:1061-1119 | no decrement takes a counter below zero |
| RingTheorems.EarlyReturnSkipsNothing | src/shim/shim.c:1089-1092 | a drain returns early exactly when no slot is READY and no publisher stands between its increment and its exchange |
| RingTheorems.EachClaimResolvedOnce | src/shim/shim.c:1013-1123 | every claim is aborted, or taken once, read as exactly the data its owner published, sent at most once and freed; until then it sits in exactly one slot, so none is lost |
| RingTheorems.OnlyOwnerWrites | src/shim/shim.c:1013-1123 | between claim and return to FREE only the owner writes a slot's data |
| RingTheorems.HeldSlotIsIntact | src/shim/shim.h:307-310 | a held handle names its CLAIMED slot with the packed data, and its publish cannot lose the exchange |
| RingTheorems.HeldHandlesDiffer | src/shim/shim.c:1028-1040 | two clients never hold the same handle |
| RingTheorems.PassFreesReady | src/shim/shim.c:1094-1122 | every slot READY when a pass starts is read with its data and freed exactly once by the end of the pass |
| RingTheorems.HistoryPrefix | src/shim/shim.c:1013-1123 | a claim's history only ever grows |
| RingTheorems.SendsFollowRegistrations | src/shim/shim.c:897-906 | a drained response is sent only to the context registered under its module and request at that moment; RingDelivery.ResponsesAreSentExactly adds that it is sent |
| RingTheorems.NoSendAfterCleanup | src/shim/shim.c:692-715 | after a request's cleanup no drain touches its context until it is installed again |
| RingTheorems.ZeroReadsMeanQuiescent | src/shim/shim.c:1217-1231 | with claims refused and none in flight, reading claimed as zero and later ready as zero means that every slot is FREE, no publish or abort is part-way, and the drainer holds no slot, though it may still be scanning |
| RingTheorems.ReversedReadsMiss | src/shim/shim.c:1056-1067 | reading the counters in the other order can miss a response that is being published |
| RingTheorems.PublisherCaughtMidway | src/shim/shim.c:1046-1069 | the state in which the reversed reads fail is reachable |
| RingDelivery.PublishedDataIsOwned | src/shim/shim.c:1046-1069 | in every reachable state the data of a READY or DRAINING slot lies in that slot's own payload |
| RingDelivery.ResponsesAreSentExactly | src/shim/shim.c:1101-1116 | a response that was read was sent exactly when its request was registered at that moment, and to that context |
| RingDelivery.DeliveryIsExact | src/shim/shim.c:1101-1116 | the drain sends what it holds exactly when the data lies in its slot, in unbounded arithmetic, and its request is registered under its module |
| RingDelivery.PassAnswersReady | src/shim/shim.c:1094-1122 | a response READY when a pass starts is read during the pass, and sent exactly when its request is registered then |
| RingDelivery.UnpackedIsRefused | src/shim/shim.c:1028-1053 | a claim hands its slot over without a module number, and a publish of data without one is refused and changes nothing |
| ClaimScan.ScanCoversExactly | src/shim/shim.c:1020-1025 | a scan looks at every slot exactly when the cursor does not wrap within it or the ring's size divides the cursor's range |
| ClaimScan.FindFreeExact | src/shim/shim.c:1022-1028 | the scan's find is a FREE slot, and finding none means that it met none |
| ClaimScan.ClaimFailsOnlyWhenFull | src/shim/shim.c:1013-1044 | alone and without wrap a claim fails exactly when claims are refused or no slot is FREE; slots, tokens, counters, cursor and sequence afterwards are as stated |
| ClaimScan.ClaimCanMissFreeSlot | src/shim/shim.c:1020-1024 | when the cursor wraps out of step a claim can fail although a slot is FREE |
| ClaimScan.LastCursorMissesFreeSlot | src/shim/shim.c:1020-1025 | an instance: three slots, the last one FREE, the cursor at 2^64-1, and the claim fails |
| ClaimScan.ClaimAlone | src/shim/shim.c:1013-1044 | a whole claim by one client of the ring, with no other step between, ends as the claim function says, and without wrap it holds a handle exactly when claims are accepted and some slot was FREE |
| RingProgress.PassEnds | src/shim/shim.c:1089-1123 | from any reachable state the drainer, left to itself, comes to the end of its pass |
| RingProgress.AnswerArrives | src/shim/shim.c:1046-1123 | an answer that its holder packs and publishes is read by the pass that follows, and sent exactly when its request is registered |
| RingProgress.RequestIsAnswered | src/shim/shim.c:859-1123 | in any reachable state that accepts, has a FREE slot and a drain at rest, any request that may be registered can be registered, claimed for and answered, and the answer is sent to its context |
| RingProgress.LateAnswerIsDropped | src/shim/shim.c:692-715 | the same answer, when its request is cleaned up first, is read and sent to nobody |
| RingProgress.RegistrationsAreNew | src/shim/shim.c:858-875 | every registration was of a request with a number and a module, and neither request nor context was registered at that moment |
| RingProgress.RefusalIsFinal | src/shim/shim.c:858-870 | once claims are refused they stay refused and no request is registered any more |
| ClaimScan.SoloRing.constructor | src/shim/shim.c:1179-1192 | a created ring: all slots FREE, counters and cursor zero, claims accepted |
| ClaimScan.SoloRing.TryClaim | src/shim/shim.c:1013-1044 | the claim loop in place does what the claim function says, on slots, tokens, cursor, sequence and counter |
| RequestTable.BucketInRange | src/shim/shim.c:600-608 | the bucket is the mixed key's remainder, hence an index, for every power-of-two capacity |
| RequestTable.PushHolds | src/shim/shim.c:665-669 | a context put in front of a chain is in that chain only |
| RequestTable.DropHolds | src/shim/shim.c:681-687 | a context taken out of its chain is in none, and every other stays where it was |
| RequestTable.Walk | src/shim/shim.c:617-621 | the walk finds a context of the list with the number, or there is none |
| RequestTable.MoveChain | src/shim/shim.c:635-643 | relinking one list moves each of its contexts into the bucket of its key |
| RequestTable.Rehash | src/shim/shim.c:634-644 | after all rounds every context is in one list, the one its key selects |
| RequestTable.Unlink | src/shim/shim.c:678-689 | the pointer walk removes the context if it is in the bucket's list and changes nothing otherwise |
| RequestTable.UnlinkAt | src/shim/shim.c:682-686 | one removal leaves every other list as it was |
| RequestTable.Rebuild | src/shim/shim.c:630-650 | the new bucket array holds the same contexts, each in the bucket of its key |
| RequestTable.Receiver.Response | src/shim/shim.c:1164-1192 | a new response receiver has an empty table of 256 buckets |
| RequestTable.Receiver.Wakeup | src/shim/shim.c:1133-1141 | a wake-up receiver has no table and refuses responses |
| RequestTable.Receiver.ChainHasKey | src/shim/shim.c:610-623 | in the bucket of a key the only context linked under it is the table's |
| RequestTable.Receiver.Find | src/shim/shim.c:610-623 | find is lookup in the finite map, null when absent |
| RequestTable.Receiver.Resize | src/shim/shim.c:625-650 | for any power of two that the entries fit, resize keeps the map; on a zero size, a size or an allocation failure it fails and changes nothing |
| RequestTable.Receiver.Register | src/shim/shim.c:652-671 | registering inserts an absent key and fails exactly on a present key or when the table cannot grow |
| RequestTable.Receiver.Install | src/shim/shim.c:857-875 | install inserts exactly one entry and binds the context, or changes nothing; chains stay disjoint, hashed and within the load limit |
| RequestTable.Receiver.Unregister | src/shim/shim.c:673-690 | unregistering removes exactly the context's own entry |
| RequestTable.Receiver.ResponseRequest | src/shim/shim.c:897-906 | a response is routed exactly to the live context registered under its number and module |
| RequestTable.RequestCtx.CleanupRequest | src/shim/shim.c:692-715 | cleanup takes the context out of its table, clears its identity, and notifies exactly when it had a callback, a module and a number |
| Attachments.RegisterUpdates | src/shim/shim.c:2250-2290 | registering changes what is found under one key only, and keys stay unique |
| Attachments.UnregisterRemoves | src/shim/shim.c:2318-2339 | unregistering removes exactly the entry of the key, and only with its descriptor |
| Attachments.ForwardFdRoutes | src/shim/shim.c:2292-2316 | the exact entry's descriptor is used, otherwise with fallback the first of the node, otherwise none |
| Attachments.ForwardFdFindsReachable | src/shim/shim.c:2292-2316 | the same for any descriptors: the exact entry's if it has one, or else, with a fallback, that of the first entry of the node before it that has one |
| Attachments.RoutedPacketsLeave | src/shim/shim.c:2341-2378 | a packet that a connection ID routes is never forwarded to the worker that has it |
| Attachments.InitialsReachActive | src/shim/shim.c:2358-2378 | an unknown Initial goes to the active generation; it comes back to its own worker in exactly one situation |
| Attachments.InitialComesBack | src/shim/shim.c:2358-2378 | an instance of that situation: two workers of the active generation, the first not accepting |
| Attachments.Http3Ctx.StopAccepting | src/shim/shim.c:2727-2736 | a worker that stops accepting leaves the transport valid, its table as it is, and every other worker accepting as before |
| Attachments.Transport.Register | src/shim/shim.c:2250-2290 | the array replaces the entry of the key or appends one, fails exactly when it cannot grow, and keeps at most one entry a key |
| Attachments.Transport.GetForwardFd | src/shim/shim.c:2292-2316 | the loop finds what the table's meaning says |
| Attachments.Transport.Unregister | src/shim/shim.c:2318-2339 | the entry is removed in place and the rest keeps its order |
| Attachments.Transport.Attach | src/shim/shim.c:2668-2692 | a new worker is attached under its key and descriptor and does not accept yet |
| Attachments.Transport.Activate | src/shim/shim.c:2695-2713 | exactly the attached contexts of the activated generation accept |
| Attachments.Transport.Detach | src/shim/shim.c:2744-2764 | a leaving worker takes its own entry and no other, also when it was replaced |
| ForwardHeader.VersionBytes | src/shim/shim.c:2212-2234 | the version check accepts exactly the four bytes the encoder writes |
| ForwardHeader.RoundTrip | src/shim/shim.c:2205-2248 | decoding an encoded header with any payload behind it gives back address fields, ttl and payload offset, and the header is never longer than 44 bytes |
| ForwardHeader.Reencode | src/shim/shim.c:2224-2248 | every accepted header encodes to exactly the bytes it was read from |
| ForwardHeader.AcceptedExactly | src/shim/shim.c:2224-2248 | a byte string is accepted exactly when it starts with the encoding of some header |
| ForwardHeader.Extends | src/shim/shim.c:2224-2248 | what follows a header does not change how it is read |
| ForwardHeader.CutShort | src/shim/shim.c:2224-2248 | a header cut short anywhere is refused |
| ForwardHeader.EncodeAddress | src/shim/shim.c:2143-2167 | writes the address's encoding at the position, or nothing usable for an unknown family |
| ForwardHeader.EncodeHeader | src/shim/shim.c:2205-2222 | fills the 44-byte buffer with the header's encoding and never writes past it |
| ForwardHeader.DecodeAddress | src/shim/shim.c:2169-2203 | reads the address at a position, never past the end |
| ForwardHeader.DecodeHeader | src/shim/shim.c:2224-2248 | reads the header at the front and its length, never past the end |
| ForwardHeader.ForwardingUndone | src/shim/shim.c:2396-2442 | a forwarded packet and its addressing arrive unchanged exactly when the port of an IPv4 or IPv6 destination is the listener's |
| ForwardHeader.OnlyForwardedIsUnpacked | src/shim/shim.c:2396-2442 | any other datagram is left as it is: only what starts with an encoded header for the listener's port is unpacked |
| ForwardHeader.HeaderLayout | src/shim/shim.c:2140-2222 | the bytes of an encoded header, one by one: mark, version, both addresses with their family digits, time to live |
| RunState.InTheWay | swamp/extensions/models/_lib/control.ts:39-51 | the reported reasons are exactly the budgets that are used up |
| RunState.CheckLimits | swamp/extensions/models/_lib/control.ts:24-56 | fails exactly on numbers out of range; otherwise waits, continues or winds up as the budgets say |
| RunState.FinishStep | swamp/extensions/models/_lib/state.ts:153-299 | the switch assigns phase, stop reason, target flag and revisions as the transition functions say, and rejects every other result; RunLaws says what that comes to |
| RunState.TwoBeginsReserve | swamp/extensions/models/_lib/driver.ts:88-89 | at most two begins always reserve the next step, unless the run is over, busy, or its numbers are off |
| RunLaws.BeginsExactly | swamp/extensions/models/_lib/state.ts:96-124 | a step begins exactly when the run is neither over nor in a step, time has not gone back and every number is in range; each error has its own cause |
| RunLaws.BegunExactly | swamp/extensions/models/_lib/state.ts:116-150 | a begun step is the finish for want of a budget exactly when time, attempts or Pi calls stand in its way, with exactly those reasons; a discard exactly when the repair budget alone does, the stop reason staying; else the state's phase; nothing else changes but number, time and counters |
| RunLaws.FinishesExactly | swamp/extensions/models/_lib/state.ts:153-299 | a step finishes exactly with its own number, a named output and an outcome that fits its phase and names its code; each error has its own cause |
| RunHistory.NewRunStarts | swamp/extensions/models/_lib/state.ts:73-94 | a new run is a start state |
| RunHistory.StopsStep | swamp/extensions/models/_lib/state.ts:125-297 | every step keeps: a stop reason exactly in the stopping phases |
| RunHistory.SupportedStep | swamp/extensions/models/_lib/state.ts:193-271 | every step keeps: the phases measure, review and keep follow their passing test, accepted measurement and review of the same revision |
| RunHistory.JustifiedStep | swamp/extensions/models/_lib/state.ts:260-279 | a keep step comes right after the three steps that justify it |
| RunHistory.BestStep | swamp/extensions/models/_lib/state.ts:249-289 | the best revision is the last kept one, and unedited attempts work on it |
| RunHistory.TargetStep | swamp/extensions/models/_lib/state.ts:193-279 | stopping for the target keeps the measurement that met it |
| RunHistory.BudgetStep | swamp/extensions/models/_lib/state.ts:138-150 | the counters count exactly the steps taken, and no attempt, repair or Pi budget is overdrawn |
| RunHistory.PaidStep | swamp/extensions/models/_lib/state.ts:96-299 | every step is paid for by an attempt, a Pi call, the fixed allowance, or a failed clean-up |
| RunHistory.EveryHistoryIsSound | swamp/extensions/models/_lib/state.ts:96-299 | all of these hold in every state of every history from every start |
| RunHistory.BestIsJustified | swamp/extensions/models/_lib/state.ts:193-279 | the best revision is the starting one, or was kept by a step k whose steps k-3, k-2, k-1 were its passing test, accepted measurement and passing review |
| RunHistory.DoneTargetMet | swamp/extensions/models/_lib/state.ts:165-297 | a finished run reports its target met exactly when that was its stop reason, and then its best revision was measured to meet it |
| RunHistory.StepsAreBounded | swamp/extensions/models/_lib/state.ts:96-299 | no run takes more than 3 (attempts + Pi calls) + 3 steps, besides one for each failed clean-up, and attempts, Pi calls and the repairs of each attempt stay within their budgets |
| RunHistory.ActiveStopsRightly | swamp/extensions/models/_lib/state.ts:125-150 | a step in progress has a stop reason exactly when it cleans up |
| RunHistory.OutputsFollowSteps | swamp/extensions/models/_lib/state.ts:165-169 | the output of every phase is the saved result of its last step |
| RunHistory.NamesDiffer | swamp/extensions/models/_lib/driver.ts:90 | different steps are saved under different names |
| RunLaws.LeadsToOne | swamp/extensions/models/_lib/state.ts:193-297 | an outcome leads to one phase only |
| RunLaws.EveryStepFollows | swamp/extensions/models/_lib/state.ts:96-299 | every step is in the phase that the step before leads to, or in the one that a used-up budget puts in its place; it works on the code last edited or restored, and ends as its phase can |
| RunLaws.StepsComeInOrder | swamp/extensions/models/_lib/state.ts:193-289 | implement follows a change, research a look-up, profile a new attempt or the wish for another recording, repair a failed test or review, discard a measurement that did not improve or is inconclusive or a used-up repair budget, and so on |
| RunLaws.EveryStateTells | swamp/extensions/models/_lib/state.ts:96-299 | the phase, code, target flag, requested profile and stop reason of every state, told from the records: the stop reason names the failure, the analysis, the measurement or the budgets that ended the run |
| Driver.BeginKeepsSchema | swamp/extensions/models/_lib/schemas.ts:25-44 | reserving a step keeps a state that can be loaded again, exactly as long as its sequence number stays a safe integer |
| Driver.FinishKeepsSchema | swamp/extensions/models/_lib/schemas.ts:25-44 | finishing a step keeps a state that can be loaded again |
| Driver.Store.RunSavedStep | swamp/extensions/models/_lib/driver.ts:81-138 | the driver's writes, in their order and under any faults, leave exactly the store that the call's meaning says |
| Driver.Store.SaveAndAdvance | swamp/extensions/models/_lib/driver.ts:97-138 | what was performed is saved as it was returned or as an error, then finished |
| Driver.Store.RecoverSavedStep | swamp/extensions/models/_lib/driver.ts:140-164 | recovery finishes the active step from its saved result, or says why not |
| Driver.RecordedFinishes | swamp/extensions/models/_lib/driver.ts:97-120 | whatever performing did, the outcome that is saved can be finished |
| Driver.CallShows | swamp/extensions/models/_lib/driver.ts:81-164 | any call with any faults takes a store that shows a history to one that shows it or its next step |
| Driver.StoreShowsHistory | swamp/extensions/models/_lib/driver.ts:81-164 | after any calls and faults the store shows a history that the engine can produce without faults |
| Driver.AtMostOnce | swamp/extensions/models/_lib/driver.ts:88-99 | the effects of each step number are started at most once |
| Driver.RecoveryNeverRejects | swamp/extensions/models/_lib/driver.ts:140-164 | recovery succeeds exactly when a step is active and its result was saved |
| Driver.RecoveryIsTransparent | swamp/extensions/models/_lib/driver.ts:129-164 | a call that would succeed undisturbed fails for a write only, and recovery leaves exactly the store of the undisturbed call if and only if the step's result reached the disk |
| DriverLaws.StartLoads | swamp/extensions/models/_lib/run.ts:399-408 | the state that a run or restart starts from loads exactly when its initial revision is a commit and what it takes over of attempts, Pi calls and time is in range |
| DriverLaws.LoadedCanBeReplayed | swamp/extensions/models/_lib/campaign.ts:406-412 | a loaded state names a run that can be started again, as its replay does |
| DriverLaws.LoadedStateBegins | swamp/extensions/models/_lib/driver.ts:69-92 | from a loaded state a step begins exactly when the run is neither over nor in a step and time has not gone back |
| DriverLaws.AcceptedIsSaved | swamp/extensions/models/_lib/driver.ts:97-133 | whatever a loaded step may finish with can be saved and read back, but for an error without a text |
| DriverLaws.RecordReadsBack | swamp/extensions/models/_lib/schemas.ts:59-106 | a saved result reads back exactly when its number is in range, it names commits only, and an error has a text |
| DriverLaws.RecoversExactly | swamp/extensions/models/_lib/driver.ts:140-164 | on any store whatever, when recovery succeeds, and the cause of each failure |
| Driver.UndisturbedSucceeds | swamp/extensions/models/_lib/driver.ts:81-138 | without faults a step that may begin succeeds |
| Driver.SuccessAdvances | swamp/extensions/models/_lib/driver.ts:129-137 | a successful call advances the saved history by one step, saved with its record |
| Execution.ExecuteRun | swamp/extensions/models/_lib/run.ts:417-466 | the loop always ends, keeps the store on a genuine history, returns only finished runs, and succeeds when nothing outside fails: no write, no support check, no change of client, no abandonment |
| Execution.CalmSucceeds | swamp/extensions/models/_lib/run.ts:445-466 | in calm conditions every step succeeds and a clean-up ends the run |
| Campaign.RestartStarts | swamp/extensions/models/_lib/run.ts:399-408 | a restart begins in a start state, and the verifier replays from the same one but for the time |
| Campaign.CountSteps | swamp/extensions/models/_lib/campaign.ts:374-386 | the count of steps in given phases |
| Campaign.Certify | swamp/extensions/models/_lib/campaign.ts:359-443 | counting, replaying and comparing answer what the replay half of the verdict says; ReplaySoundness says what that is worth |
| ReplaySoundness.ReplayExtends | swamp/extensions/models/_lib/campaign.ts:413-433 | a replayed step is accepted exactly when the engine's own next step makes just this record, field by field |
| ReplaySoundness.CertifiesExactly | swamp/extensions/models/_lib/campaign.ts:359-443 | on any evidence whatever the replay certifies exactly when the engine, played from the same start with the same outcomes, makes just these steps and ends in what the saved state says of sequence, phase, revisions, target flag and counters |
| ReplaySoundness.CertifiedWasPlayed | swamp/extensions/models/_lib/campaign.ts:359-443 | so for whatever is certified there are moves with which the engine does it |
| Campaign.OnlyTimeDiffers | swamp/extensions/models/_lib/campaign.ts:414-420 | without the clock a step begins in the phase it really had, except a finish that time alone brought on |
| Campaign.ReplayAgrees | swamp/extensions/models/_lib/campaign.ts:413-433 | a replayed step is accepted exactly when its phase agrees, and then gives the real state but for the time |
| Campaign.ReplayFollows | swamp/extensions/models/_lib/campaign.ts:413-433 | up to any step but the last the replay follows the run exactly as long as no earlier finish came from time alone |
| Campaign.CountsComeOut | swamp/extensions/models/_lib/campaign.ts:374-393 | the reservations of every genuine run come out right |
| Campaign.DoneCertified | swamp/extensions/models/_lib/campaign.ts:359-443 | the replay half of the verdict: it passes a finished run exactly when its first step prepared it and no step but the last was a finish brought on by time alone, and then reproduces the whole state |
| Campaign.SingleFinishCertified | swamp/extensions/models/_lib/campaign.ts:359-443 | the replay half passes every prepared run that is done after one finish step, with phase, sequence, revisions, target flag and counts reproduced |
| Campaign.SavedRunCertified | swamp/extensions/models/_lib/campaign.ts:362-443 | whatever was called and whatever failed on the way, the replay half passes a prepared run that the store shows done after one finish step |
| Campaign.AbandonedCertified | swamp/extensions/models/_lib/campaign.ts:321-443 | the exact condition under which the replay half passes an abandoned run |
| Campaign.RetriedFinishRejected | swamp/extensions/models/_lib/campaign.ts:414-426 | a genuine run that the replay refuses: a clean-up tried again after expiry |
| Campaign.FailedBaselineCertified | swamp/extensions/models/_lib/campaign.ts:359-443 | the replay half passes a concrete run with a failed baseline and one clean-up; for the whole verdict see ScoredRuns.FailedBaselineVerdict |
| Campaign.AbandonedLateRejected | swamp/extensions/models/_lib/campaign.ts:434-443 | a genuine abandoned run that the comparison refuses |
| Campaign.FindLast | swamp/extensions/models/_lib/campaign.ts:573-587 | the backward search finds the last step of a window that shows some evidence |
| Campaign.VerifyKeeps | swamp/extensions/models/_lib/campaign.ts:567-595 | accepts exactly when every keep has its grounds, and returns them in order |
| Campaign.GroundsHold | swamp/extensions/models/_lib/campaign.ts:571-595 | the grounds of a keep are a passing test, a valid measurement and a passing review of the kept revision, in this order, all after the keep before |
| Campaign.GroundsExactly | swamp/extensions/models/_lib/campaign.ts:571-595 | a keep has its grounds exactly when they are the last passing test, valid measurement and passing review of its revision since the keep before, in this order |
| Campaign.GroundsOfGenuine | swamp/extensions/models/_lib/campaign.ts:571-595 | on every genuine history the backward search succeeds and finds the three steps right before each keep |
| Campaign.KeepWindow | swamp/extensions/models/_lib/campaign.ts:573-587 | the justifying steps lie after the keep before and are the last of their kind |
| Control.RateIs | swamp/extensions/models/_lib/control.ts:108-123 | a rate exists exactly when one entry matches, is valid and is positive |
| Control.Fastest | swamp/extensions/models/_lib/control.ts:138-143 | the loop over competitors finds their greatest rate and notes every missing one |
| Control.BestOfIsGreatest | swamp/extensions/models/_lib/control.ts:138-143 | the beat-all target is a competitor's rate that no other exceeds |
| Control.AssessGoal | swamp/extensions/models/_lib/control.ts:78-171 | comparisons, faults and target flag of a goal, pushed workload by workload |
| Control.AssessCandidate | swamp/extensions/models/_lib/control.ts:173-267 | the whole assessment of a candidate, from both goal results, the protections and the improvements |
| Control.AssessmentIsExact | swamp/extensions/models/_lib/control.ts:224-266 | a valid assessment says improved exactly when every goal workload beats the best by more than the fraction and every protection holds, and target met exactly when the goal is met besides |
| Control.FaultlessGoal | swamp/extensions/models/_lib/control.ts:83-123 | without faults the measurements are comparable and have every rate of the goal |
| Control.BaselineNeverImproves | swamp/extensions/models/_lib/control.ts:242-262 | a measurement compared with itself never improves nor meets the target |
| ControlLaws.GoalFaultsHaveCauses | swamp/extensions/models/_lib/control.ts:83-160 | comparing two measurements for a goal reports a fault exactly when there is a cause for it |
| ControlLaws.CandidateFaultsHaveCauses | swamp/extensions/models/_lib/control.ts:173-232 | so does assessing a candidate: goal, fraction, doubled protections, allowances and protected scores |
| ControlLaws.GoalMetExactly | swamp/extensions/models/_lib/control.ts:124-168 | without a fault the goal is met exactly when each workload is at least as fast as the multiplier asks, or faster than every competitor |
| ControlLaws.AssessmentIsTold | swamp/extensions/models/_lib/control.ts:173-267 | every line of an assessment and its three flags, told from the rates |
| ControlLaws.AcceptedExactly | swamp/extensions/models/_lib/campaign.ts:175-200 | a saved comparison is accepted exactly when it is the one that the scores give, without a fault, of a measurement that beats the best one and keeps every protection, and the outcome says so |
| ControlLaws.H1IsFirst | swamp/extensions/models/_lib/campaign.ts:545-552 | the h1 rate that a restart repeats is that of the own server's first h1 score |
| ControlLaws.RequalifiedExactly | swamp/extensions/models/_lib/campaign.ts:532-565 | a baseline repeats the parent's best exactly when it has the same library, no fault, every protection kept and h1 within five per cent |
| ControlLaws.FirstBestExactly | swamp/extensions/models/_lib/campaign.ts:480-566 | what the verifier starts the kept changes from, and exactly when it refuses to |
| ScoreGrowth.CompareSaved | swamp/extensions/models/_lib/measurement.ts:236-348 | which measurements are compared, and how the assessment becomes the step's outcome or its error, in the loop's own order |
| ScoreGrowth.FreshBaselineGoesOn | swamp/extensions/models/_lib/measurement.ts:268-300 | a fresh run's baseline never ends the run as met |
| ScoreGrowth.AcceptedMeasurementsVerify | swamp/extensions/models/_lib/campaign.ts:175-200 | of the outcomes a run derives from an assessment the verifier accepts exactly those the run accepted |
| ScoreGrowth.VerifyScores | swamp/extensions/models/_lib/campaign.ts:480-650 | the walk over kept changes accepts exactly the chains in which each beats the one before, and returns the last |
| ScoreGrowth.BestsAgree | swamp/extensions/models/_lib/run.ts:728-765 | the verifier compares every kept change with the same measurement as the live run |
| ScoreGrowth.LinkGrows | swamp/extensions/models/_lib/control.ts:224-266 | one accepted change beats the best on every goal workload and keeps every protection |
| ScoreGrowth.GrowthCompounds | swamp/extensions/models/_lib/control.ts:235-263 | in every chain of n accepted changes each goal workload's last rate exceeds the first one times (1 + f)^n |
| ScoreGrowth.ProtectionDoesNotCompound | swamp/extensions/models/_lib/control.ts:194-232 | in every chain of accepted changes each protected workload is at least its initial rate times (1 - d) |
| ScoreGrowth.VerifiedIsChain | swamp/extensions/models/_lib/campaign.ts:568-650 | what the verifier accepts is such a chain from its first best measurement |
| Restarts.H1NeverFalls | swamp/extensions/models/_lib/campaign.ts:532-566 | with h1 in the goal, a restart that the verifier accepts ends with no slower h1 than its parent's best, and a faster one once it keeps a change |
| Restarts.H1NeverFallsAcrossRestarts | swamp/extensions/models/_lib/campaign.ts:480-716 | with h1 in the goal the best h1 rate never falls, through any number of accepted restarts, abandoned ones included |
| Restarts.H1NeverFallsExactly | swamp/extensions/models/_lib/campaign.ts:480-716 | over all parents and accepted restarts that measure the policy's workloads the best h1 rate cannot fall, exactly unless the policy is a valid one that protects h1 without making it a workload of the goal |
| Restarts.ProtectedH1CanFall | swamp/extensions/models/_lib/campaign.ts:532-650 | under every valid policy that only protects h1 an accepted restart takes its rate from 110 to 105 |
| Restarts.TlsChangeSlowsH1 | swamp/extensions/models/_lib/campaign.ts:532-650 | an instance: the goal improves tls-h1, h1 may lose 5 per cent, and the accepted change takes h1 from 100 to 96 |
| ScoredRuns.CandidateComparison | swamp/extensions/models/_lib/run.ts:712-765 | on every genuine history a candidate is compared with the first of all measurements and with the last kept one, or what the run started from |
| ScoredRuns.EveryHistoryIsGenuine | swamp/extensions/models/_lib/state.ts:165-299 | in every history only clean-ups follow a failure, the one baseline is the second step and measures the starting revision, and all work follows a valid one |
| ScoredRuns.KeptMeasurementsAre | swamp/extensions/models/_lib/run.ts:728-778 | the kept measurements of a run are, one for one, those two steps before its keep steps |
| ScoredRuns.KeptMeasurementsChain | swamp/extensions/models/_lib/run.ts:712-778 | the kept measurements of every scored history form a chain from what the run started with, and the last one is of its best revision |
| ScoredRuns.EveryRunGrows | swamp/extensions/models/_lib/control.ts:194-263 | in every state of every scored run, after n kept changes each goal workload is faster than at the start by more than (1 + f)^n, and no kept change took a protected workload below (1 - d) of its initial rate |
| ScoredRuns.CollectKept | swamp/extensions/models/_lib/campaign.ts:567-648 | the loop over keep steps collects the measurement, comparison and outcome of each, or fails when one is missing |
| ScoredRuns.VerifyRun | swamp/extensions/models/_lib/campaign.ts:359-716 | replay, baseline, kept changes and scores together answer what the verdict says |
| ScoredRuns.VerdictIsReplayAndBaseline | swamp/extensions/models/_lib/campaign.ts:359-716 | a scored run is accepted exactly when the replay comes out and, on a restart from measurements, the baseline repeated the parent's h1 rate; its kept changes always pass, and what is passed on is its own best |
| ScoredRuns.PassedOnIsSound | swamp/extensions/models/_lib/campaign.ts:705-716 | what is passed on is a sound parent for the next restart |
| ScoredRuns.DoneAccepted | swamp/extensions/models/_lib/campaign.ts:359-716 | the exact condition under which a finished scored run is accepted, and what is passed on |
| ScoredRuns.AbandonedAccepted | swamp/extensions/models/_lib/campaign.ts:321-716 | the exact condition under which an abandoned scored run is accepted |
| ScoredRuns.SavedRunAccepted | swamp/extensions/models/_lib/campaign.ts:359-716 | whatever was called and whatever failed on the way, a prepared scored run that the store shows done after one finish step is accepted, unless it is a restart that did not requalify |
| ScoredRuns.FailedBaselineVerdict | swamp/extensions/models/_lib/campaign.ts:480-494 | a run with a failed baseline is accepted exactly when it does not restart from measurements |
| ScoredRuns.DriftedRestartRefused | swamp/extensions/models/_lib/campaign.ts:545-560 | a genuine finished restart with a valid baseline is refused, because its h1 came out half as fast again |
| ScoredRuns.AcceptedIsLeg | swamp/extensions/models/_lib/campaign.ts:480-716 | every restart that the verdict accepts is one of those over which the h1 rate is followed |
| ScoredRuns.AcceptedRestartKeepsH1 | swamp/extensions/models/_lib/campaign.ts:532-716 | with h1 in the goal, whatever the verdict accepts of a restart passes on no slower h1 |
| VerdictSoundness.VerdictIsSound | swamp/extensions/models/_lib/campaign.ts:359-716 | whatever evidence is accepted, the engine played the run in it, its baseline and kept changes are backed by valid measurements of their code, and the kept measurements form a chain from what the run started with |
| Profiles.TallyIsWeight | swamp/extensions/models/_lib/profile.ts:96-100 | every leaf, role and stack count is the weight of exactly the lines with that key |
| Profiles.FramesAreWeight | swamp/extensions/models/_lib/profile.ts:98 | a frame's inclusive count is the weight of the lines that contain it, each counted once |
| Profiles.TallySums | swamp/extensions/models/_lib/profile.ts:90-100 | leaf, role and stack counts each add up to the total |
| Profiles.RoleIsPlayed | swamp/extensions/models/_lib/profile.ts:21-31 | a line is counted under a role exactly when its thread's name begins like it, or else says that it compiles, or is any other; the order of the tests does not matter |
| Profiles.MissingIsUnattributed | swamp/extensions/models/_lib/profile.ts:89-102 | the weight without a thread is the unattributed role's weight |
| Profiles.TallyFits | swamp/extensions/models/_lib/profile.ts:33-39 | no single count leaves the safe range before the total does |
| Profiles.AddFrames | swamp/extensions/models/_lib/profile.ts:98 | a line's weight is charged once to each of its different frames |
| Profiles.Summarize | swamp/extensions/models/_lib/profile.ts:41-119 | a recording is refused exactly when its event, request count or list length is out of range, a line is malformed, there is none, or the total overflows, each with its own error; otherwise every leaf, frame, role and stack weighs what the lines with it weigh, and the depth is reached by some line and exceeded by none |
| Profiles.SummaryIgnoresOrder | swamp/extensions/models/_lib/profile.ts:41-119 | the whole summary is the same for every order of the lines |
| Profiles.Rank | swamp/extensions/models/_lib/profile.ts:125-127 | ranks entries by falling weight, then alphabetically, and cuts the list; whatever is left out comes after all of it |
| Profiles.Reported | swamp/extensions/models/_lib/profile.ts:41-155 | the summary with the heaviest leaves and frames, as many as were asked for and otherwise twenty |
| Profiles.OneRanking | swamp/extensions/models/_lib/profile.ts:125-127 | given entries have only one ranking |
| Profiles.OneTop | swamp/extensions/models/_lib/profile.ts:125-127 | given entries have only one ranked list of a given length |
| Profiles.RankingIgnoresLineOrder | swamp/extensions/models/_lib/profile.ts:125-127 | the ranked and cut lists of leaves and frames do not depend on the order of the lines |

## Left out

- Weak memory: atomic operations take effect in one total order; the acquire, release and relaxed orders of the C code are not told apart.
- Sockets, TLS, QUIC and event-loop set-up, certificates and ticket encryption: wrappers over libraries whose code is not here.  Sending a response is an entry in the log.
- Mutexes of the HTTP/3 transport: its operations are atomic here, and a failing lock is not modelled.
- Allocation either fails cleanly, as a parameter says, or succeeds; freeing memory is not modelled.
- Null receivers and contexts: the early returns for a null pointer are left out, except that installing into a null context fails.
- RequestTable.Receiver.Install: does not set the body-chunk callback, and cleanup clears only the callback that it calls, because callbacks play no part in the table.
- Attachments.Transport.Attach: leaves out opening sockets and the failures before registration.
- ForwardHeader.EncodeAddress: byte order of addresses and ports is not interpreted; they travel as the bytes in memory.
- RunState.FinishStep: stop reasons are structured values where the source joins them into one string, and error texts are not reproduced.
- Driver.Store.RunSavedStep: evidence references and returned data handles are left out, as is the check that a loaded state belongs to the run, because one store holds one run here.
- Driver.RecordedFinishes: the text of the error that replaces an unacceptable result is one fixed string.
- Execution.ExecuteRun: leaves out the report written after the run; the checks of the support snapshot and the client version are parameters that pass or fail.
- Campaign.Certify: takes parsed steps and the saved state; hashes, bundle records, receipts, logs, live queries and the identity of parent and child are left out.
- Campaign.VerifyKeeps: does not look into the saved test, review and comparison records that the evidence refers to.
- Control.AssessGoal: rates are real numbers, so the checks for non-finite numbers have no counterpart.
- ScoreGrowth.CompareSaved: reading a saved measurement is a parameter that succeeds or fails; sample statistics and writing the comparison are left out.
- ScoreGrowth.VerifyScores: comparison provenance and raw benchmark files are left out; the repeatability bound of five per cent is stated without division, which is the same for positive rates.
- ScoredRuns.VerifyRun: takes parsed steps, state, measurements and comparisons; what Campaign.Certify, Campaign.VerifyKeeps and ScoreGrowth.VerifyScores leave out is left out here too.
- Profiles.OneRanking: names are compared by Unicode code points, where the source compares UTF-16 code units; the order of names outside the basic plane can differ.
- Profiles.Summarize: lines are given split into weight, thread name and frames, because splitting them is a matter of regular expressions; the quality counters other than the missing thread, percentages and rates per request are left out.
- Profiles.RankingIgnoresLineOrder: is stated for leaves and frames; the counts of roles and stacks are shown not to depend on line order, their ranked lists are not spelled out.
- The command runner, git worktrees, profilers, benchmark statistics, placement, prompts, and everything in Clojure, Python, Nix and Zig.
