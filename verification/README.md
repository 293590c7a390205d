# A model of bitcoin-shard-listener

The listener receives transaction frames from a multicast fabric, filters and forwards
them, notices missing sequence numbers per sender and asks retry endpoints for them
(NACK), and puts fragmented frames together again. This project models its stateful
core and proves what holds over every run of it.

Each component comes in three layers:

- a value-level specification (`...Spec.dfy`): a state and one function per locked operation;
- a class (`Tracker.dfy`, `Reassembly.dfy`, `Dedup.dfy`, `Registry.dfy`, `SubtreeGroups.dfy`,
  `Listener.dfy`) with the source's mutable fields, loops, in-place arrays and caches. Every
  method is proved to compute its specification function from the old state;
- run-level theorems over arbitrary sequences of steps. The `...Laws.dfy` files say what each
  operation does to a reachable state in plain fields and numbers, without the
  specification's own helper definitions.

A run is any sequence of steps. A step whose guard fails changes nothing, so no
schedule is excluded. Time is a parameter: frame arrivals read a clock that never goes
back, the sweeper's time is unconstrained. Map iteration is an arbitrary complete
visiting order. Random hold-offs, hash functions, group indices, endpoint answers and
send outcomes are parameters too.

## Main results

- **Tracker, epochs.** Between two restarts of a flow, the counter is the highest number
  that arrived, every number that was jumped over is registered exactly once and no other
  number ever, pending gaps have not arrived, and a closed gap is not reopened
  (`EveryRunEpochs`, `ClosedStaysClosed`).
- **Tracker, conservation.** Over every run, gaps detected = suppressed + unrecovered +
  pending (`Conservation`). Per metric label this fails (`LabelBooksDrift`); the books of any
  labels balance throughout a run if and only if every ACK is on its flow's side of them
  (`AlwaysBalancedIff`).
- **Tracker, attempts.** A run is orderly for a gap when its flow lives on and at most one
  copy of the gap is ever out (`OrderlyIff`); attempts that finish inside their hold-off make
  it so (`PunctualRunsOrderly`). Then MaxRetries bounds NACKs and failed attempts together,
  NACK number k goes to position min(k, n - 1) of the n endpoints, counting failed attempts,
  tiers never decrease across beacon refreshes, and only the last endpoint is asked twice
  (`AtMostMaxRetries`, `NackPosition`, `RegistryClimb`, `OnlyLastAgain`). Late attempts break
  the bound (`LateAttemptsExceedMaxRetries`). In every run, resets and evictions included, one
  copy is out at a time if and only if no sweep enqueues a gap while a copy of it is out
  (`OneCopyIff`).
- **Tracker, silence.** A sweep later than the last arrival plus the gap TTL leaves a flow
  no gap, and later than the flow TTL no flow, in every visiting order (`SilenceExpires`).
- **Tracker, retries.** In every run a sweep gives a gap up exactly when the gap TTL has passed
  since its registration or its retries are used up (`SweepGivesUpIff`), and a failed attempt
  puts it off by exactly the capped doubling (`OrderlyWaits`).
- **Reassembly.** In every run that spares a slot from eviction the buffer follows a
  reference that only collects distinct indices: it delivers the original payload once per
  completed set, at the arrival of the last missing index (`FollowsRounds`,
  `DeliversExactlyOnce`). The order list, the slot bound and the books are invariants of
  every run (`ReassemblyRuns.EveryRunKeeps`). Whatever is completed was received, part by part
  (`ProvenanceLaw`), and is delivered exactly as version, hash and callbacks say (`VerdictLaw`).
- **Dedup.** The exact answer after every run (`ExactAnswer`), a plain sliding window when
  nothing expires (`WindowWithoutExpiry`), and exactly when the two differ (`WindowAgreesIff`).
- **Registry.** Under any interleaving of calls, every snapshot is a sorted arrangement of
  exactly the endpoints of that moment (`Serve`), and what a caller writes into objects it was
  given, however long it held them, never shows in a later snapshot (`CallerIsolated`).
- **Composition.** What the tracker and the buffer see does not depend on dedup or on send
  outcomes, with sweeps, attempts and ticks between the datagrams (`TrackingIgnoresEgress`);
  dedup only removes frames from the output (`DedupOnlyThins`), and exactly those of
  `KeptBackIff`.

## Where the code and its documentation differ

The model follows the code.

- `docs/architecture.md:104-106` says old frames never move `lastSeqNum` back. They do,
  exactly when they read as a restart; this includes a late retransmit that fills a gap
  (`RegressesIffRestart`, `FillClosesOnlyItself`). `LateRetransmitRewinds` is such a run.
- `docs/architecture.md:126-127` says a timeout leaves the endpoint index unchanged. It moves
  the gap on to the next endpoint, exactly when the gap is still pending (`TimeoutAdvances`,
  and `TimeoutMovesOn` for a run).
- `filter/filter.go:7-8` says that with both sets empty everything is accepted. A configured
  group registry closes the filter even while it has no member (`AllowedIff`, and
  `EmptyGroupsClose` for the empty configuration).

## Limits of the code

- The dedup key has no hash key, so frames of different senders can shadow each other
  (`OtherSenderKeptBack`).
- A payload of the largest 32-bit length is refused by the metadata test, because length + 1
  wraps to zero (`PlausibleIff`).
- From 35 retries on the backoff product overflows (`ProductExactIff`, `NoWaitFrom56`).
- A key that is let through again after its expiry can be forgotten early (`StaleCopyForgets`).

## Model

| member | source | states |
|---|---|---|
| TrackerClass.Tracker.constructor | nack/nack.go:95-125 | a new tracker has no flows, an empty queue and zero counters |
| TrackerClass.Tracker.Observe | nack/nack.go:135-222 | the in-place update is the Observe step of the specification: state, queue and all three counters |
| TrackerClass.Tracker.AutoFill | nack/nack.go:157-164 | a frame closes the pending gap with its number and books it once |
| TrackerClass.Tracker.Classify | nack/nack.go:166-221 | first frame, old frame, restart, next frame and jump give the specified flow and counts |
| TrackerClass.Tracker.GiveUp | nack/nack.go:184-189 | a restart books every pending gap as unrecovered, in any order |
| TrackerClass.Tracker.RegisterGaps | nack/nack.go:203-220 | the loop, with its 64-bit increment that never wraps, registers the specified gaps |
| TrackerClass.Tracker.Fill | nack/nack.go:227-242 | refines Fill, including number zero and an unknown gap |
| TrackerClass.Tracker.CancelGap | nack/nack.go:484-496 | refines CancelGap, with the label taken from the queued copy |
| TrackerClass.Tracker.AdvanceEndpoint | nack/nack.go:437-463 | refines AdvanceEndpoint; only the flows change |
| TrackerClass.Tracker.SweepGap | nack/nack.go:277-310 | one visit drops, enqueues or leaves the gap and touches nothing else |
| TrackerClass.Tracker.SweepFlow | nack/nack.go:275-317 | one flow's turn is a fold over its gaps in some order, then the idle test; other flows stay |
| TrackerClass.Tracker.SweepOnce | nack/nack.go:266-318 | deleting while iterating, the sweep is a fold over some order that visits every gap once |
| TrackerClass.Tracker.Dequeue | nack/nack.go:321-338 | takes the oldest queued copy |
| TrackerClass.Tracker.PendingGaps | nack/nack.go:466-474 | the sum over the flows is the number of distinct pending gaps |
| TrackerInvariant.RegisterContents | nack/nack.go:203-220 | old gaps untouched, each new number fresh, one count per new gap |
| TrackerInvariant.StepOk | nack/nack.go:135-496 | every step keeps: keys in range and below the counter, retries = endpointIdx, deadline within the gap TTL of the last frame |
| TrackerInvariant.EveryRunOk | nack/nack.go:135-496 | that invariant after every run |
| TrackerConservation.StepBalancedIff | nack/nack.go:135-496 | a step keeps the books of a set of labels exactly when it is no ACK for a copy on the other side of them than its flow |
| TrackerConservation.CancelBalancedIff | nack/nack.go:484-496 | an ACK keeps the books of a set of labels exactly when copy and flow are on the same side of it |
| TrackerConservation.AlwaysBalancedIff | nack/nack.go:135-496 | in every run the books of any set of labels balance after every step if and only if every ACK is on its flow's side |
| TrackerConservation.Conservation | nack/nack.go:135-496 | detected = suppressed + unrecovered + pending after every run |
| TrackerConservation.RunLabelled | nack/nack.go:145-154 | if each sender keeps to one label, all records carry it in every run |
| TrackerConservation.LabelConservation | nack/nack.go:35-44 | under that condition the books balance for every set of labels |
| TrackerEpochs.ContinuedFlow | nack/nack.go:157-221 | without a restart the counter is the maximum, and the pending set loses the frame's number and gains the jumped-over ones |
| TrackerEpochs.JumpSnoc | nack/nack.go:203-221 | which numbers a further arrival jumps over |
| TrackerEpochs.ExtendLaw | nack/nack.go:157-221 | one more arrival keeps the epoch law |
| TrackerEpochs.EveryRunEpochs | nack/nack.go:135-222 | the epoch law in every run: counter = maximum, each jumped-over number registered once, no other ever, pending ones still missing |
| TrackerEpochs.ClosedStaysClosed | nack/nack.go:157-221 | no step that keeps the epoch reopens a closed gap |
| TrackerEpochs.RegressesIffRestart | nack/nack.go:172-195 | the counter goes back exactly when the number is at most the limit (100 by default) and the counter above it |
| TrackerEpochs.FillClosesOnlyItself | nack/nack.go:157-195 | a filling frame never advances the counter; it closes only its own gap exactly when it is not at most the limit on a flow above it |
| TrackerEpochs.RegisterCount | nack/nack.go:204-220 | the membership test never hits when all keys are lower |
| TrackerEpochs.JumpRegistersAll | nack/nack.go:203-221 | a jump registers exactly seqNum - lastSeqNum - 1 gaps |
| TrackerCopies.SecondCopyIff | nack/nack.go:299-310 | a visit puts a second copy in circulation exactly when a copy is out, its hold-off is over, the gap is alive and the queue has room |
| TrackerCopies.VisitOneCopyIff | nack/nack.go:277-310 | a visit keeps to one copy of a gap exactly when it does not enqueue the gap with a copy out |
| TrackerCopies.SweepOneCopyIff | nack/nack.go:266-318 | the same for a whole sweep in any order |
| TrackerCopies.OneCopyIff | nack/nack.go:266-496 | in every run, one copy at a time after every step if and only if no sweep enqueues a gap with a copy out |
| TrackerAttempts.TimeoutAdvances | nack/nack.go:400-403 | a timeout raises the gap's endpoint index and retries by one exactly when it is pending, and changes no other gap |
| TrackerAttempts.StepDisciplined | nack/nack.go:266-463 | every orderly step keeps one copy per gap, whose index is the number of tries before it, and the record of its NACKs |
| TrackerAttempts.OrderlyRunsDisciplined | nack/nack.go:266-463 | that discipline after every orderly run |
| TrackerAttempts.OrderlyIff | nack/nack.go:266-463 | a run is orderly exactly when the flow lives on and at most one copy of the gap is ever out |
| TrackerAttempts.PunctualRunsOrderly | nack/nack.go:299-310 | attempts that finish inside their hold-off make a run orderly |
| TrackerAttempts.AtMostMaxRetries | nack/nack.go:288-310 | while the flow lives on and copies exist one at a time, NACKs and failed attempts together are at most MaxRetries |
| TrackerAttempts.PunctualAtMostMaxRetries | nack/nack.go:299-310 | the same when every attempt finishes inside its hold-off |
| TrackerAttempts.NackPosition | nack/nack.go:349-356 | NACK number k goes to position min(k + f, n - 1) of its snapshot, where f attempts failed before it |
| TrackerAttempts.NackInOrder | nack/nack.go:349-356 | without failed attempts NACK number k goes to position min(k, n - 1) |
| TrackerAttempts.NextIndex | nack/nack.go:450-451 | a copy, or a gap without one, carries the number of tries made for it |
| TrackerAttempts.TiersNeverDecrease | nack/nack.go:349-356 | if two attempts saw the same tiers and preferences, the later one goes no lower, however ties are ordered |
| TrackerAttempts.EachPositionOnce | nack/nack.go:352-356 | of two NACKs that saw equally many endpoints the later went to a later position, or both to the last |
| TrackerAttempts.RetriesBounded | nack/nack.go:288-298 | in an orderly run the retry count is the endpoint index and at most MaxRetries |
| Escalation.SameRanks | discovery/registry.go:123-128 | refreshed beacons give snapshots with the same tiers and preferences |
| Escalation.RegistryClimb | nack/tier_escalation_test.go:91-165 | lower tiers are not retried, across any number of beacon refreshes |
| Escalation.OnlyLastAgain | nack/nack.go:349-356 | while the order of the endpoints stays, through refreshes and for beacons and seeds alike, one endpoint is asked twice for a gap only if it is the last |
| TrackerExpiry.SweptPartway | nack/nack.go:275-317 | after any part of a visiting order, visited gaps are swept and the others untouched |
| TrackerExpiry.SweepOutcome | nack/nack.go:266-318 | per gap and per flow, whatever the visiting order: gone exactly past the deadline or out of retries, else queued, put off or untouched; a flow goes exactly when it is idle past its TTL and no gap survives |
| TrackerLaws.FirstArrivalLaw | nack/nack.go:145-170 | the first frame sets counter, group, subtree, label and time, and registers nothing |
| TrackerLaws.RestartLaw | nack/nack.go:172-193 | a number at most the limit on a flow above it rewinds the counter, fills its own gap and loses all others, booked one by one |
| TrackerLaws.ContinueLaw | nack/nack.go:157-221 | any other frame: counter the maximum, own gap filled, exactly the jumped-over numbers registered with their first attempt and deadline, other flows untouched |
| TrackerLaws.SweepLaw | nack/nack.go:275-311 | a gap is gone exactly past its deadline or out of retries; a due one is queued with a 400 ms hold-off or put off by a queue of 4096 |
| TrackerLaws.SweepAddsOnlyDue | nack/nack.go:299-310 | in every run a sweep queues only gaps that were alive and due, each at most once |
| TrackerLaws.DeadlineLaw | nack/nack.go:213 | in every run a pending gap's deadline is its registration time plus the gap TTL |
| TrackerLaws.SweepGivesUpIff | nack/nack.go:277-298 | in every run a sweep gives a gap up exactly when the gap TTL has passed since its registration or its retries are used up |
| TrackerLaws.SweepSparesLive | nack/nack.go:277-298 | in an orderly run no sweep closes a gap inside its TTL with fewer than MaxRetries tries |
| TrackerLaws.MissLaw | nack/nack.go:420-463 | after a MISS the next endpoint is due at once; after the last one the gap waits min(2^retries * 500 ms, BackoffMax) |
| TrackerLaws.NoAnswerLaw | nack/nack.go:358-463 | a timeout or failure moves the gap on and makes it wait min(2^retries * 500 ms, BackoffMax) |
| TrackerLaws.OrderlyWaits | nack/nack.go:437-463 | in an orderly run with MaxRetries at most 34 every unanswered attempt sets exactly that next attempt |
| TrackerLaws.AckLaw | nack/nack.go:484-496 | an ACK closes the copy's gap alone and books it under the copy's label |
| TrackerLaws.FillLaw | nack/nack.go:227-242 | filling closes the named gap alone and books it under the flow's label |
| TrackerLaws.LabelLaw | nack/nack.go:35-44 | groups 0xFFFE and 0xFFFB have their own labels, all others share one |
| TrackerLaws.DispatchLaw | nack/nack.go:321-338 | the dispatcher takes the oldest copy |
| TrackerExpiry.LastSeenIsLastArrival | nack/nack.go:155 | lastSeen is the time of the flow's last frame in every run |
| TrackerExpiry.SilenceExpires | nack/nack.go:213-316 | silence past the gap TTL leaves no gap, past the flow TTL no flow |
| TrackerExpiry.SilenceEmpties | nack/nack.go:270-316 | after a bounded silence one sweep empties the tracker |
| TrackerBackoff.ProductExactIff | nack/nack.go:457 | the int64 product is the true one exactly up to 34 retries |
| TrackerBackoff.BackoffExactIff | nack/nack.go:457-461 | the wait is the intended one exactly without overflow, or when the overflowed product reaches the cap |
| TrackerBackoff.OverflowRetriesAtOnce | nack/nack.go:457-461 | at 35 retries the wait is negative |
| TrackerBackoff.NoWaitFrom56 | nack/nack.go:457-461 | from 56 retries on the wait is zero |
| TrackerBackoff.BackoffIntended | nack/nack.go:457-461 | up to 34 retries the wait is min(2^retries * 500 ms, BackoffMax) |
| TrackerBackoff.BackoffMonotone | nack/nack.go:457-461 | up to 34 retries the wait never shrinks |
| TrackerBackoff.OrderlyBackoff | nack/nack.go:288-461 | with MaxRetries at most 34, every attempt of an orderly run waits as intended and no shorter than before |
| TrackerExamples.LateAttemptsExceedMaxRetries | nack/nack.go:299-310 | a late attempt lets two NACKs out with MaxRetries 1 |
| TrackerExamples.LabelBooksDrift | nack/nack.go:484-496 | one sender on two groups unbalances the books of two labels, not their sum |
| TrackerExamples.TimeoutMovesOn | nack/nack.go:437-463 | a run in which one unanswered NACK takes the endpoint index from 0 to 1 |
| TrackerExamples.LateRetransmitRewinds | nack/nack.go:172-195 | frames 99, 102 and 100 take the counter from 102 back to 100 and give gap 101 up |
| ReassemblyClass.Buffer.constructor | reassembly/reassembly.go:105-119 | an empty buffer with the defaults for non-positive limits |
| ReassemblyClass.Buffer.DropExpired | reassembly/reassembly.go:299-311 | exactly the expired listed slots go, each counted once |
| ReassemblyClass.Buffer.Compact | reassembly/reassembly.go:312-320 | the in-place compaction leaves exactly the live ids in order |
| ReassemblyClass.Buffer.EvictExpired | reassembly/reassembly.go:299-320 | refines EvictExpired |
| ReassemblyClass.Buffer.RemoveAt | reassembly/reassembly.go:323-334 | removes one id by shifting the tail |
| ReassemblyClass.Buffer.EvictOldest | reassembly/reassembly.go:323-334 | refines EvictOldest: the first id with a slot |
| ReassemblyClass.Buffer.FindLive | reassembly/reassembly.go:323-326 | the scan stops at the first id with a slot |
| ReassemblyClass.Buffer.DropAt | reassembly/reassembly.go:326-331 | the slot, its id and the counter go together |
| ReassemblyClass.Buffer.Append | reassembly/reassembly.go:191 | the id joins the end, in place or in a grown array |
| ReassemblyClass.Buffer.Open | reassembly/reassembly.go:163-195 | refines Open: eviction when full, then a slot with the fragment's metadata |
| ReassemblyClass.Buffer.Assemble | reassembly/reassembly.go:229-232 | the payload is the concatenation in index order |
| ReassemblyClass.Buffer.Complete | reassembly/reassembly.go:228-295 | the verdict by version, hash and callback, with its counter |
| ReassemblyClass.Buffer.Store | reassembly/reassembly.go:196-218 | refines Store, with wrong totals, bad indices and duplicates ignored |
| ReassemblyClass.Buffer.Observe | reassembly/reassembly.go:153-218 | refines Observe: state and completion |
| ReassemblyClass.Buffer.Tick | reassembly/reassembly.go:353-357 | evicts the expired slots |
| ReassemblyClass.Buffer.Purge | reassembly/reassembly.go:368-378 | drops and counts every slot |
| ReassemblyDelivery.LenIsOpenSlots | reassembly/reassembly.go:360-365 | in every run the length is the number of slots started and neither completed nor abandoned, at most maxSlots, and the order list is at most one longer |
| ReassemblyRuns.LiveKeeps | reassembly/reassembly.go:299-320 | compaction keeps exactly the live ids, without duplicates, in deadline order |
| ReassemblyRuns.EvictOldestIsEarliest | reassembly/reassembly.go:323-334 | capacity eviction takes a slot with the earliest deadline |
| ReassemblyRuns.ObserveKeeps | reassembly/reassembly.go:153-218 | a fragment keeps the buffer invariant and the books |
| ReassemblyRuns.CallKeeps | reassembly/reassembly.go:153-378 | every call keeps the invariant |
| ReassemblyRuns.EveryRunKeeps | reassembly/reassembly.go:153-378 | in every run: order list duplicate-free, complete, at most one stale id, in deadline order; 1 <= received < fragTotal and received counts the parts; at most maxSlots; started = delivered + discarded + mismatched + abandoned + live |
| ReassemblyDelivery.PlausibleIff | reassembly/reassembly.go:165-171 | the metadata test in plain numbers; the largest 32-bit length is refused |
| ReassemblyDelivery.ExpiredIsPrefix | reassembly/reassembly.go:299-320 | expired slots are a prefix of the live ids |
| ReassemblyDelivery.TickEmpties | reassembly/reassembly.go:299-357 | a tick later than the last call plus the TTL empties the buffer |
| ReassemblyDelivery.NoMoreThanArrived | reassembly/reassembly.go:153-232 | completions of an id never exceed the arrivals of any one index |
| ReassemblyRounds.ObserveCollects | reassembly/reassembly.go:153-218 | a genuine fragment does to the slot what it does to the reference |
| ReassemblyRounds.ObserveOther | reassembly/reassembly.go:153-218 | a fragment of another id leaves the slot alone |
| ReassemblyRounds.FollowsRounds | reassembly/reassembly.go:153-232 | for every payload, split and sparing run, slot and deliveries are those of the reference |
| ReassemblyRounds.DeliversExactlyOnce | reassembly/reassembly.go:196-295 | nothing before the last missing index; that fragment delivers the original payload once |
| ReassemblyLaws.VerdictLaw | reassembly/reassembly.go:234-295 | in every run each completion is a mismatch, a delivery or a discard exactly by version, hash and callback, and each kind is counted apart |
| ReassemblyLaws.ProvenanceLaw | reassembly/reassembly.go:153-232 | in every run a completion's metadata comes from one received fragment and each part from one with that index, total and content |
| ReassemblyLaws.DeadlineLaw | reassembly/reassembly.go:178-190 | in every run a slot's deadline is its opening time plus the TTL, never extended |
| ReassemblyLaws.TickLaw | reassembly/reassembly.go:299-357 | a tick leaves exactly the slots whose deadline has not passed |
| ReassemblyLaws.ArrivalSpares | reassembly/reassembly.go:153-195 | an arrival costs other ids only expired slots and, when it opens one in a full buffer, one with the earliest deadline |
| ReassemblyLaws.PurgeLaw | reassembly/reassembly.go:368-378 | a purge empties the buffer and abandons every slot |
| DedupClass.Set.constructor | dedup/dedup.go:42-52 | an empty set; a non-positive capacity switches it off |
| DedupClass.Set.SeenAndAdd | dedup/dedup.go:57-89 | map, ring, head and count change as specified, and the answer agrees |
| DedupWindow.LenIsMisses | dedup/dedup.go:93-97 | in every run the length is the number of misses up to the capacity; if the map is as large, it holds every key of the window |
| DedupWindow.RememberedSnoc | dedup/dedup.go:75-88 | what one more miss adds to and takes from the remembered keys |
| DedupWindow.EveryRunKeeps | dedup/dedup.go:57-89 | in every run the ring holds the latest misses and the map exactly the remembered keys with their expiry |
| DedupWindow.ExactAnswer | dedup/dedup.go:57-89 | true exactly for a remembered key whose last call is unexpired |
| DedupWindow.WindowAgreesIff | dedup/dedup.go:75-87 | remembered and in the window differ exactly when an older copy has been overwritten |
| DedupWindow.SeenIsSound | dedup/dedup.go:57-73 | true only for a key among the last misses whose last call is unexpired |
| DedupWindow.MapWithinRing | dedup/dedup.go:75-88 | map size <= count <= capacity in every run, double copies included |
| DedupWindow.WindowWhileSpaced | dedup/dedup.go:57-89 | the window law while no key is missed again inside the window |
| DedupWindow.WindowWithoutExpiry | dedup/dedup.go:57-89 | without expiry: true exactly for the last capacity misses, and equal misses are more than capacity apart |
| DedupWindow.RingIsMap | dedup/dedup.go:75-88 | without expiry map and ring hold the same distinct keys, as many as the count |
| DedupWindow.StaleCopyForgets | dedup/dedup.go:69-88 | with expiry a re-inserted key is forgotten early |
| DedupWindow.DisabledForgets | dedup/dedup.go:57-60 | without capacity every call of every run answers false and records nothing |
| RegistryClass.Registry.constructor | discovery/registry.go:33-39 | an empty registry |
| RegistryClass.Registry.Upsert | discovery/registry.go:42-69 | the beacon's values are stored under its instance id, in place or in a fresh object |
| RegistryClass.Registry.Evict | discovery/registry.go:72-83 | exactly the expired beacons go, no object joins, and the cache stays honest |
| RegistryClass.Registry.DropExpired | discovery/registry.go:72-83 | the deleting loop, and when it marks the cache dirty |
| RegistryClass.Registry.Seed | discovery/registry.go:87-102 | the seeds are replaced by fresh objects with synthetic ids |
| RegistryClass.Registry.Merge | discovery/registry.go:113-122 | the merged list is the beacons, or the seeds when there are none |
| RegistryClass.Sort | discovery/registry.go:123-128 | a sorted permutation |
| RegistryClass.Registry.Snapshot | discovery/registry.go:107-147 | cached or rebuilt, a sorted arrangement of exactly the current endpoints in fresh objects that are not the registry's; a rebuilt cache is fresh too |
| RegistrySpec.LenIsSnapshotIff | discovery/registry.go:150-154 | the length is that of a snapshot exactly when no seed is hidden behind a beacon |
| RegistryClass.CallerMutation | discovery/registry.go:139-147 | overwriting the returned objects changes neither the registry nor its cache |
| RegistryClass.Serve | discovery/registry.go:42-147 | under any interleaving of calls every snapshot is one of the state at its point, and only fresh objects join the registry |
| RegistryClass.HoldAcross | discovery/registry.go:139-147 | the objects of a snapshot stay the caller's own through any calls |
| RegistryClass.CallerIsolated | discovery/registry.go:139-147 | objects held through any calls and then overwritten change no answer before or after |
| RegistrySpec.SnapshotsAgree | discovery/registry.go:123-128 | two snapshots of one state agree on tier and preference at every position |
| RegistrySpec.BeaconsHideSeeds | discovery/registry.go:113-122 | with beacons present no seed is listed and every beacon is listed once |
| RegistrySpec.EveryRunNumbered | discovery/registry.go:42-102 | in every run entries sit under their ids and seeds carry consecutive synthetic ids |
| RegistrySpec.SnapshotIdsDiffer | discovery/registry.go:87-122 | the endpoints of a snapshot have distinct ids, beacons and seeds alike |
| RegistryLaws.EntriesLaw | discovery/registry.go:42-83 | in every run an instance is listed exactly when no eviction came later than three intervals after its last beacon, with that beacon's address, tier, preference, flags and unicast bit |
| RegistryLaws.SeedsLaw | discovery/registry.go:87-102 | in every run the seeds are those of the last list, at tier 255, with consecutive ids and an expiry in the year 9999 |
| RegistryLaws.SnapshotOrder | discovery/registry.go:113-128 | tiers ascend and preferences descend within a tier; the beacons are listed, or the seeds when there are none |
| NackWire.Encode | nack/wire.go:83-93 | the first 64 bytes are the datagram, the rest of the buffer stays |
| NackWire.EncodeResponse | nack/wire.go:127-134 | the first 16 bytes are the response, the rest of the buffer stays |
| Bytes.MostSignificantFirst | nack/wire.go:83-93 | the first byte weighs 256^(n - 1) |
| NackWire.HeadBytes | nack/wire.go:85-88 | the eight header bytes of request and response, one by one |
| NackWire.NackLayout | nack/wire.go:83-93 | each field of a request at its offset |
| NackWire.ResponseLayout | nack/wire.go:127-134 | each field of a response at its offset |
| NackWire.NackRoundTrip | nack/wire.go:83-117 | decoding gives the NACK back exactly when its type is NACK |
| NackWire.ResponseRoundTrip | nack/wire.go:127-155 | decoding gives the response back exactly for MISS and ACK |
| NackWire.ReencodesIff | nack/wire.go:98-117 | re-encoding restores the bytes exactly when version and reserved byte are standard |
| AdvertWire.Encode | discovery/advert.go:48-67 | the 56 bytes, with the old address bytes left where there is no 16-byte form |
| AdvertWire.DecodeAdvert | discovery/advert.go:72-108 | the decoder with its scanning loop computes Decode |
| AdvertWire.HeadFields | discovery/advert.go:50-53 | magic, type and scope at their offsets |
| AdvertWire.MiddleFields | discovery/advert.go:55-57 | port, tier and preference at their offsets |
| AdvertWire.TailFields | discovery/advert.go:58-60 | interval, flags and instance id at their offsets |
| AdvertWire.WireRoundTrip | discovery/advert.go:48-108 | the beacon comes back with the address bytes on the wire, unless these are zero |
| AdvertWire.RoundTripIff | discovery/advert.go:48-108 | the beacon itself comes back exactly for a non-zero 16-byte address |
| AdvertWire.Ipv4RoundTrip | discovery/advert.go:54 | an IPv4 beacon comes back mapped |
| AdvertWire.OneKindOnly | nack/wire.go:98-155 | no byte string decodes as two of NACK, response and ADVERT |
| SubtreeGroups.Registry.constructor | subtreegroup/registry.go:29-40 | exactly the subscribed groups, all empty |
| SubtreeGroups.Registry.Add | subtreegroup/registry.go:45-57 | refines Added, with the default TTL and unsubscribed groups ignored |
| SubtreeGroups.Registry.Remove | subtreegroup/registry.go:60-67 | refines Removed |
| SubtreeGroups.Registry.Contains | subtreegroup/registry.go:71-83 | true exactly for a live member of some group, in any order of search |
| SubtreeGroups.Registry.Evict | subtreegroup/registry.go:88-102 | the expired entries go; the count returned is what the size loses |
| SubtreeGroups.Registry.Len | subtreegroup/registry.go:106-114 | the number of stored pairs |
| SubtreeRuns.RunsAgree | subtreegroup/registry.go:45-102 | leaving out evictions keeps all answers of a run and, from the latest eviction on, the live entries; only an eviction and a later query need be in clock order |
| SubtreeRuns.EvictionIsInvisible | subtreegroup/registry.go:71-102 | no query in the run, and none after its evictions, can tell |
| SubtreeRuns.MemberIff | subtreegroup/registry.go:45-83 | in every run a subtree is a member exactly when the last word on it in some subscribed group is an announcement whose TTL, or the default, still runs |
| SubtreeRuns.EvictKeepsIff | subtreegroup/registry.go:88-102 | eviction keeps exactly the pairs whose expiry has not passed |
| Filter.New | filter/filter.go:36-58 | the compiled sets hold the lists; an empty list compiles to none |
| Filter.AllowedIff | filter/filter.go:64-85 | a frame passes exactly when shard, exclusion and inclusion rules admit it |
| Filter.ReasonIff | filter/filter.go:64-83 | which of the three reasons a refusal has, in terms of the lists |
| Filter.EmptyGroupsClose | filter/filter.go:75-83 | with nothing configured every frame passes, with an empty group registry none |
| Filter.EvictionChangesNoVerdict | filter/filter.go:75-83 | group eviction changes no verdict and no reason |
| ListenerClass.Worker.constructor | listener/listener.go:89-118 | a worker around shared or absent components |
| ListenerClass.Worker.OnFrame | listener/listener.go:262-347 | the transaction path refines OnFrame across filter, dedup set, senders and tracker |
| ListenerClass.Worker.OnFragment | listener/listener.go:220-240 | a fragment goes through the buffer and, if it completes one, through delivery |
| ListenerClass.Worker.Collect | listener/listener.go:238 | the buffer's part of a fragment, which leaves the other components alone |
| ListenerClass.Worker.OnBlock | listener/listener.go:354-399 | a block control frame is handed out and tracked on its control group |
| ListenerClass.Worker.OnSubtree | listener/listener.go:457-496 | a subtree data frame is handed out and tracked on its control group |
| ListenerClass.Worker.Deliver | listener/listener.go:502-653 | a reassembled frame is filtered, sent and tracked, without dedup |
| ListenerClass.Worker.DeliverFrame | listener/listener.go:601-653 | a reassembled transaction frame passes filter, encoding, egress and tracker in that order |
| ListenerClass.Worker.ProcessFrame | listener/listener.go:207-347 | dispatch by kind; undecodable datagrams change nothing |
| ListenerRuns.TrackingIgnoresEgress | listener/listener.go:292-338 | tracker and buffer end up the same for any dedup set and any send outcomes, whatever sweeps, attempts, ticks and frames of other workers come between |
| ListenerRuns.FrameTracks | listener/listener.go:292-338 | a frame is observed, under its own group, subtree, sender and number, exactly when it passes and is stamped |
| ListenerLaws.RefusedLaw | listener/listener.go:207-290 | refused and undecodable datagrams change nothing |
| ListenerLaws.UnstampedLaw | listener/listener.go:312-338 | an unstamped frame is handed out and seen by neither tracker nor dedup set |
| ListenerLaws.StampedLaw | listener/listener.go:292-338 | a stamped frame: the tracker's arrival, the dedup key, the hand-out and the failed sends, field by field |
| ListenerLaws.BlockLaw | listener/listener.go:354-399 | a block frame is handed out and tracked under group 0xFFFE and the zero subtree |
| ListenerLaws.SubtreeLaw | listener/listener.go:457-496 | subtree data is handed out and tracked under group 0xFFFB and its own id |
| ListenerLaws.FragmentLaw | listener/listener.go:220-240 | the buffer observes a fragment; a delivered completion is handed out and tracked with the slot's fields, by version |
| ListenerLaws.DeliverLaw | listener/listener.go:502-653 | the three deliveries field by field: filter, encoding, hand-out, tracking |
| ListenerLaws.ReassembledFromFragments | listener/listener.go:601-653 | in every run a reassembled frame handed out carries the id, sender, number and subtree of one received fragment |
| ListenerRuns.DedupOnlyThins | listener/listener.go:292-310 | with dedup, what is handed out is a subsequence of what is handed out without |
| ListenerRuns.EveryRunMirrors | listener/listener.go:292-338 | in every run the dedup set is the replay of the passing stamped frames at their times, and its misses are the frames handed out |
| ListenerRuns.KeptBackIff | listener/listener.go:296-310 | after every run a passing stamped frame is kept back exactly when its key is remembered from the frames handed out and its last arrival is within the TTL |
| ListenerRuns.KeptBackHasTwin | listener/listener.go:292-310 | after every run a frame kept back has a twin key among the last frames handed out |
| ListenerRuns.OtherSenderKeptBack | listener/listener.go:296-297 | after every run a frame of another sender with the same group, subtree and number within the TTL is kept back |

## Left out

- Sockets, multicast joins, receive loops and sending: a send is an input that says whether it worked, an answer is ACK, MISS or silence.
- Metrics other than the gap and reassembly counters, logging, health endpoints, start-up wiring and configuration parsing.
- The frame and shard codecs are not part of this model: frames are values, a decode error is an input, the group index is a parameter.
- SHA-256 and Merkle checking: the payload hash is a parameter, the Merkle root is not modelled.
- Mutexes, channels and the 64 attempt slots: a locked method is one step and the number of running attempts is unbounded, which allows more schedules than the code.
- References between flows and gaps in the tracker: its records are values in a map, since every record it hands out is a copy.
- Range limits of time values and of JitterMax + 1: times are integers; only the backoff product is computed in 64 bits.
- Text form of addresses: an advertised address stays a byte string with a port.
- Stability of the library sort: the model sorts by insertion and promises only a sorted permutation, as the source's sort does.
- TrackerClass.Tracker.constructor: does not model the default registry and the seeding of retry endpoints, because the tracker meets the registry only through the snapshots of its attempts.
- TrackerClass.Tracker.Dequeue: does not model the 64 attempt slots or the goroutine start; a run may start any number of attempts.
- RegistryClass.CallerMutation: does not write the instance id, which is constant in the model's entries.
- ListenerClass.Worker.OnBlock: does not model block header egress, which rests on the block codec and touches neither tracker, dedup set nor buffer.
- ListenerClass.Worker.Deliver: does not model block header egress, for the same reason.
- TrackerAttempts.AtMostMaxRetries: the bound may hold although two copies were out, when the second is dropped unsent.
- RegistrySpec.EveryRunNumbered: lists of more than 2^32 seeds are left out, since their synthetic ids come round again.
- ListenerClass.Worker.OnFrame: the subtree-group contents enter as an input of each call, because the registry is changed by another goroutine.
