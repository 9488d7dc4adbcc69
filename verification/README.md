# shard-proxy, modelled and proved in Dafny

shard-proxy takes transaction, block, subtree and BEEF frames off UDP and TCP sockets, admits each one
once, stamps it with a per-flow sequence number, splits or bundles it to fit the path, and multicasts it
through an unreliable batch writer. This project models the parts of the proxy that are hard to get right
and proves what they promise, for every input, every run and every interleaving.

`dafny verify dfyconfig.toml` checks the whole project (Dafny 4.11).

| file | what it models |
|---|---|
| `Bytes.dfy` | bytes, 64-bit wrap-around, big-endian fields |
| `SeqSpace.dfy` | the striped map of atomic flow counters, as a class and as an interleaving machine |
| `Stamping.dfy` | HashKey and SeqNum written into a frame in place |
| `Fragment.dfy` | BRC-130 fragmentation and reassembly |
| `Coalesce.dfy` | BRC-142 bundling of a batch's small transactions |
| `Claims.dfy` | the first-claim-wins store |
| `Pipeline.dfy` | the single-worker pipeline as a specification: gates, claim, fragments, bundles, stamps, relays |
| `PipelineOrder.dfy`, `PipelineSizes.dfy`, `PreStamped.dfy` | what its runs keep: order and honesty, sizes, what pre-stamped frames do |
| `UdpWorker.dfy` | the UDP receive loop, which queues and stamps reused buffers by reference |
| `Admission.dfy` | many workers at once: gates, budget, claim and emission as separate steps over shared state |
| `Delivery.dfy`, `ObjectBudget.dfy` | what becomes of every admitted frame; what the rate budget promises about emitted objects |
| `RateLimit.dfy`, `LimiterRace.dfy` | the BEEF token buckets and the evicting source table; concurrent callers |
| `Beef.dfy`, `BeefForwarder.dfy` | BEEF admission on its two paths: specification with the refinement, imperative class |
| `SubtreeRoot.dfy` | the BRC-132 Merkle root over two alternating buffers and parallel ranges |
| `Egress.dfy`, `EgressQueue.dfy` | draining a queue through an adversarial writer; the per-target queues |
| `Sender.dfy` | the sender goroutine with its two bounded channels |
| `RetryTee.dfy` | the background tee with close and wait |
| `TcpFrames.dfy` | the TCP lane: grammar, framed reader, object readers and flush cadence in front of the pipeline |
| `FlowMetrics.dfy` | copy-on-write sharded counters |

The code of the shared library (frame and object codecs, SHA-256d, the HashKey hash, group derivation) is
not part of this model. Those functions are parameters: every theorem holds for all of them, and where one
needs a law of a codec the law is a named predicate (`Fragment.Sized`, `Coalesce.SizedBundles`,
`UdpWorker.InPlace`, `Beef.FramesRecords`, `TcpFrames.Settled`). Clocks, kernel writes, network chunking and
goroutine scheduling are arguments, adversarial choices or action lists. State that the source updates in place is a class with
`modifies` clauses, proved against specification functions; the theorems are about those functions.

Some promises turned out not to hold as stated. For those the exact condition is proved:

- A submission rate given in objects per second is honoured exactly when it is at least one per second:
  `RateLimit.ObjectBudgetIffAtLeastOne`.
- One extra burst per eviction bounds a source whose clock has not gone back whenever it has to enter the table
  again; without that guard it can take more, and the bound by its stays in the table holds instead:
  `RateLimit.SourceBound`, `RateLimit.OutOfOrderBreaksTheBound`, `RateLimit.LifetimeBound`.
- The in-line and the split BEEF path emit the same datagrams, over every run and every choice of paths, exactly
  when no record has fragments that encode beside fragments that do not: `Beef.PathsAreOneIff`, with a concrete
  record in `Beef.UncleanRecord`.
- A pre-stamped frame is said never to advance its flow's counter. Wherever it stands in its batch and whatever
  follows, it does exactly when it is cut into at most 65535 fragments, or bundled where the batch's members of its
  flow need more bundles with it than without: `PreStamped.PreStampedAdvancesIff`, by how much in
  `PreStamped.PreStampedCosts`, with a concrete datagram in `PreStamped.PreStampedCanAdvance`.
- A claimed key does not always reach the wire. It comes to nothing exactly when its frame needs more than 65535
  fragments, none of them encodes, or the one bundle that carries it does not encode:
  `Delivery.AClaimedKeyIsAdmittedOnce`, with a concrete run in `Delivery.ABundleCanFail`.
- Stamping is idempotent exactly until the 64-bit counter wraps to the value that reads as unstamped:
  `Stamping.RestampIffNotWrapped`.
- Zero padding is neutral up to the next power of two. Beyond it the root is combined once more for each doubling,
  so padding of every amount is neutral exactly when the root is zero or hashes with itself to itself:
  `SubtreeRoot.PaddingKeepsRoot`, `SubtreeRoot.PaddingDoubles`, `SubtreeRoot.AnyPaddingIsNeutralIff`.

Where code and comments disagree the code is followed:

- The limiter charges the source first and the plane second (forwarder/ratelimit.go:192-195).
- A byte refusal comes after the object token was taken (forwarder/ratelimit.go:195, 222).
- Progress restarts the reliable retry budget, but the round that made the progress already counts as the
  first attempt of the new budget (forwarder/egress.go:658-660).
- `handleConn` is documented as flushing once per frame; it flushes by batch (worker/tcp.go:452, 591).

## Model

| member | source | states |
|---|---|---|
| `SeqSpace.StripeIndex` | forwarder/forwarder.go:1563-1567 | every address maps to one of the 64 stripes |
| `SeqSpace.Chains.constructor` | forwarder/forwarder.go:507-524 | a new forwarder has no flow counters |
| `SeqSpace.Chains.Resolve` | forwarder/forwarder.go:1545-1554 | the flow's cell under the stripe lock, made at zero on first sight; no other flow changes |
| `SeqSpace.Chains.Advance` | forwarder/forwarder.go:1555-1557 | the atomic add returns the first of n numbers after the old counter, with 64-bit wrap |
| `SeqSpace.Chains.ReserveSeq` | forwarder/forwarder.go:1545-1558 | n consecutive numbers from the flow's counter; every other flow keeps its own |
| `SeqSpace.Chains.NextSeq` | forwarder/forwarder.go:1536-1538 | one number, the counter's next |
| `SeqSpace.Chains.NextSeqTimes` | forwarder/forwarder.go:1540-1545 | n single draws hand out exactly the block that one reservation of n would, 64-bit wrap included |
| `SeqSpace.RunKeeps` | forwarder/forwarder.go:1545-1558 | over every interleaving of lookups and adds, pointers stay injective and counters equal the grants on their flow |
| `SeqSpace.StripesRefineFlatMap` | forwarder/forwarder.go:1536-1567 | below 2^64 draws the striped map of pointers serves what one flat map serving the same requests in order would |
| `SeqSpace.EverySeqNumOnce` | forwarder/forwarder.go:1536-1558 | over every interleaving each of 1..counter is handed out exactly once on its flow, and nothing else is |
| `Stamping.PutUint64` | forwarder/forwarder.go:1507-1526 | the eight big-endian bytes go to their offset and no other byte changes |
| `Stamping.Uint64` | forwarder/forwarder.go:1508-1509 | reads the big-endian value of eight bytes of the frame |
| `Stamping.StampInPlace` | forwarder/forwarder.go:1507-1526 | in any prefix of a buffer: a frame without a SeqNum draws one and gets both fields; a pre-stamped one draws none and gets at most the HashKey |
| `Stamping.FieldsRead` | forwarder/forwarder.go:1507-1526 | the two fields read back what was written and do not disturb each other |
| `Stamping.RestampIffNotWrapped` | forwarder/forwarder.go:1500-1526 | stamping a stamped frame draws nothing and changes nothing, if and only if the counter did not wrap to 0 |
| `Stamping.StampTouchesTwoFields` | forwarder/forwarder.go:1507-1526 | stamping leaves the frame's length and every byte outside the two fields as they were |
| `Fragment.CeilIsLeast` | forwarder/forwarder.go:1018-1019 | the ceiling division is the least number of pieces that holds the payload |
| `Fragment.FragmentParcel` | forwarder/forwarder.go:1013-1083 | the loop queues the encodable pieces in order and draws one SeqNum per piece from the parcel's flow alone |
| `Fragment.AnyArrivalRebuilds` | forwarder/forwarder.go:1037-1073 | the pieces rebuild the payload from any arrival order, with any repeats |
| `Fragment.PermutationRebuilds` | forwarder/forwarder.go:1234-1300 | in particular from any permutation, by index |
| `Fragment.FragmentsFitThePath` | forwarder/forwarder.go:591-597 | every encoded fragment, IPv6 and UDP headers included, fits the MTU its size was derived from |
| `Fragment.AllPiecesQueued` | forwarder/forwarder.go:1399-1475 | without an encoding failure every piece is queued in index order, carrying byte 7 where its kind has one |
| `Fragment.OverflowDrawsNothing` | forwarder/forwarder.go:1018-1030 | past 65535 full pieces nothing is emitted and no number drawn; up to there the count is the ceiling |
| `Coalesce.MemberCap` | forwarder/coalesce.go:41-48 | the member cap is between 1 and the 16-bit maximum |
| `Coalesce.CoalBuffer.constructor` | forwarder/coalesce.go:41-48 | a new buffer is empty with the clamped cap |
| `Coalesce.CoalBuffer.Add` | forwarder/coalesce.go:50-66 | the member joins its flow's bucket, or opens one at the end |
| `Coalesce.CoalBuffer.Reset` | forwarder/coalesce.go:69 | the buffer is empty |
| `Coalesce.BufferedByFlow` | forwarder/coalesce.go:29-66 | a batch is one bucket per flow, each holding that flow's arrivals in order |
| `Coalesce.PackKeepsMembers` | forwarder/coalesce.go:146-168 | packing loses, repeats and reorders no member |
| `Coalesce.PackWithinLimits` | forwarder/coalesce.go:156-168 | every bundle has a member, meets the cap, and meets the budget unless it is a lone oversize member |
| `Coalesce.PackOneMore` | forwarder/coalesce.go:146-168 | one member more fills the last bundle, or opens one exactly when that bundle has no room |
| `Coalesce.GreedyIsOptimal` | forwarder/coalesce.go:146-168 | no order-preserving partition within both limits uses fewer bundles |
| `Coalesce.InsertingAddsAtMostTwo` | forwarder/coalesce.go:146-168 | one member put in anywhere among a flow's members costs no bundle, one or two, and never saves any |
| `Coalesce.FlushedIsSealed` | forwarder/coalesce.go:146-187 | a flush queues exactly the stamped bundles that encode, in order; the others draw their numbers all the same |
| `Coalesce.SealedOnce` | forwarder/coalesce.go:146-187 | a flush stamps each buffered member into bundles of its own flow, exactly as often as it was buffered |
| `Coalesce.FillBundle` | forwarder/coalesce.go:155-168 | the inner loop takes exactly the greedy prefix |
| `Coalesce.PackBucket` | forwarder/coalesce.go:146-187 | a bucket's bundles are the greedy packing, stamped with consecutive numbers of its flow, unencodable ones skipped |
| `Coalesce.FlushCoalesced` | forwarder/coalesce.go:129-189 | every bucket is packed, stamped and queued in order, and the buffer is empty after |
| `Pipeline.PlannedPassedItsGates` | forwarder/forwarder.go:843-934 | a frame past its gates was not stamped by its sender unless that is allowed, is Extended Format where required, and has the identifier of its own payload where that is checked |
| `PipelineOrder.Extends` | forwarder/forwarder.go:1528-1558 | queueing the next k numbers of one flow keeps every flow in order |
| `PipelineOrder.SplitOrdered` | forwarder/forwarder.go:1037-1073 | fragmenting a frame keeps every flow in order |
| `PipelineOrder.StampOrdered` | forwarder/forwarder.go:965-996 | stamping a whole frame, with its bridged copy, keeps every flow in order |
| `PipelineOrder.FlushOrdered` | forwarder/coalesce.go:146-187 | flushing the bundles keeps every flow in order |
| `PipelineOrder.EveryFlowLeavesInOrder` | forwarder/forwarder.go:947-996 | in every single-worker run without an encoding failure, a flow's stamped datagrams leave with 1, 2, 3, ... across frames, fragments and bundles |
| `PipelineOrder.QueueIsTruthful` | forwarder/forwarder.go:972-992 | every queued datagram carries the number and key it was given, and a bridged copy directly follows its first with the same bytes, for a different group |
| `PipelineSizes.EveryDatagramFits` | forwarder/forwarder.go:415-424 | in every run each queued fragment fits the fragmentation MTU and each queued bundle the coalescing MTU, 48 header bytes included, and whatever is buffered passed the eligibility gate |
| `PreStamped.FlushCount` | forwarder/coalesce.go:146-187 | a flush advances each flow's counter by the number of its bundles, and no other |
| `PreStamped.PreStampedCosts` | forwarder/forwarder.go:1500-1526 | with any events before, in the rest of the batch and after, the counters of the run with a pre-stamped frame and of the run in which it only claims differ on its flow alone, by its fragments, or by the bundles its flow needs more, which are at most two |
| `PreStamped.PreStampedAdvancesIff` | forwarder/forwarder.go:1500-1526 | they differ if and only if it won its claim and was cut into at most 65535 fragments, or bundled where the batch's members of its flow need more bundles with it than without |
| `PreStamped.LastOfItsFlow` | forwarder/coalesce.go:146-168 | for the last of its flow in the batch that is to find no room in the flow's last bundle |
| `PreStamped.ClaimAloneIsIdle` | forwarder/forwarder.go:481-496 | a claim that emits nothing leaves the rest of the run as it would have been without it, unless a later frame carries its key |
| `PreStamped.PreStampedCanAdvance` | forwarder/forwarder.go:950-954 | a concrete stamped BRC-124 datagram that a relay lane admits, that leaves as two fragments and moves its flow's counter to 2 |
| `Admission.RunFrames` | forwarder/forwarder.go:659-996 | over every interleaving of workers, whatever a worker carries and whatever was emitted comes from a datagram that passed its gates |
| `Admission.EachKeyOnce` | forwarder/forwarder.go:467-496 | over every interleaving of workers taking real datagrams through gates, budget, claim and emission, each key of a plane whose store is set admits at most one frame, with one store or two |
| `Admission.EveryAdmissionIsEntitled` | forwarder/forwarder.go:843-992 | every admission met the stamped, EF, payload-hash, class, subtree-root and BEEF conformance gates, and went to one group, or to two distinct ones while bridging, its datagrams nowhere else; they are the frame itself but for its two stamped fields, or the pieces of its own payload |
| `Admission.RefusalsCanBeStruck` | forwarder/forwarder.go:659-934 | a datagram refused by a gate, a malformed bundle among them, may be struck out of any run, at any place, without a trace |
| `Admission.OnlyAWonClaimSpends` | forwarder/beef.go:380-456 | the store changes only by the one free key of a worker whose datagram passed every gate and, for an object, whose own charge the limiter had allowed |
| `Admission.AloneItIsThePipeline` | forwarder/forwarder.go:843-996 | a worker left alone does what `Pipeline` specifies for the datagram |
| `Delivery.EveryMemberIsBundled` | forwarder/coalesce.go:129-189 | between batches, over every interleaving, each member admitted for bundling was stamped into bundles of its own flow exactly as often as it was admitted |
| `Delivery.SentIsTheLog` | forwarder/coalesce.go:182-187 | what each worker sent, in order, is what its admissions and its batches' bundles put on the wire |
| `Delivery.AClaimedKeyIsAdmittedOnce` | forwarder/forwarder.go:936-1030 | between batches a claimed key has exactly one admission, a bundled one is in exactly one stamped bundle of its own flow and group, and its frame came to nothing if and only if it needs more than 65535 fragments, none of its fragments encodes, or that bundle does not encode |
| `Delivery.ABundleCanFail` | forwarder/coalesce.go:171-180 | a concrete run of one worker in which a claimed transaction of two bytes is sent nowhere because its bundle does not encode |
| `ObjectBudget.RunReplays` | forwarder/beef.go:413-422 | over every interleaving the fleet's charges are a run of the limiter, verdicts included |
| `ObjectBudget.EveryObjectIsPaidFor` | forwarder/beef.go:413-456 | over every interleaving a source's objects emitted or under way are no more than its charges allowed |
| `ObjectBudget.ObjectsWithinBudget` | forwarder/ratelimit.go:188-239 | with at least one object a second, the objects of a source that all workers together emit are at most a burst for each of its stays in the table and the refill of the time they cover, or of its own span when its clock is guarded |
| `UdpWorker.Worker.constructor` | worker/worker.go:270-273 | an empty pipeline over distinct receive buffers of one size |
| `UdpWorker.Worker.PushWhole` | forwarder/forwarder.go:972-992 | queues a reference to the frame's buffer and, while bridging to another group, a second one |
| `UdpWorker.Worker.SplitFrame` | forwarder/forwarder.go:1013-1083 | the fragments, in buffers of their own, are those specified, as are counters and losses |
| `UdpWorker.Worker.StampFrame` | forwarder/forwarder.go:965-976 | stamps inside the receive buffer and queues the buffer; nothing shown before changes |
| `UdpWorker.Worker.BufferFrame` | forwarder/forwarder.go:956-965 | keeps the payload as a slice of the receive buffer |
| `UdpWorker.Worker.EmitFrame` | forwarder/forwarder.go:938-992 | fragments, buffers or stamps, as specified |
| `UdpWorker.Worker.PerformPlan` | forwarder/forwarder.go:922-992 | claims first; a lost claim emits nothing |
| `UdpWorker.Worker.Dispatch` | forwarder/forwarder.go:659-799 | the whole path of one datagram is the specified one, framed ones stamped in their own buffer, bare ones in a new one |
| `UdpWorker.Worker.ReadBatch` | worker/worker.go:279-290 | the kernel overwrites receive buffers, which needs queue and coalescing buffer drained |
| `UdpWorker.Worker.FlushMembers` | forwarder/coalesce.go:129-189 | the members, read through their references, leave as the specified bundles |
| `UdpWorker.Worker.FlushAll` | worker/worker.go:313-317 | everything specified so far is written and every reference dropped |
| `UdpWorker.Worker.Run` | worker/worker.go:279-319 | over every run the bytes written, their groups and their order are exactly those of the pipeline's queue for the same datagrams, though the buffers they lie in are reused |
| `RateLimit.SoundForever` | forwarder/ratelimit.go:71-95 | tokens stay between 0 and the burst over any arrivals, in or out of order |
| `RateLimit.SpentBound` | forwarder/ratelimit.go:54-95 | over any arrivals, even out of order, the charge is at most the burst plus the rate times latest minus first |
| `RateLimit.AdmittedAfterIdle` | forwarder/ratelimit.go:71-95 | after burst/rate idle seconds any request is admitted |
| `RateLimit.ObjectBudgetIffAtLeastOne` | forwarder/ratelimit.go:54-69 | the objects-per-second budget bounds the objects admitted if and only if the rate is at least one |
| `RateLimit.Cap` | forwarder/ratelimit.go:136-150 | the source table's cap is at least one |
| `RateLimit.BeefLimiter.constructor` | forwarder/ratelimit.go:136-150 | a new limiter has full plane buckets and no sources |
| `RateLimit.BeefLimiter.EvictOldest` | forwarder/ratelimit.go:228-239 | drops the key the scan picks |
| `RateLimit.BeefLimiter.AllowFromSource` | forwarder/ratelimit.go:201-226 | looks up or admits the source, evicting at the cap, and charges the object bucket then the byte bucket |
| `RateLimit.BeefLimiter.AllowOne` | forwarder/ratelimit.go:188-199 | charges the source tier first, then the plane, and stops at the first refusal |
| `RateLimit.EvictsTheLeastRecent` | forwarder/ratelimit.go:228-239 | eviction drops one source, and none was seen longer ago, whatever order the map is scanned in |
| `RateLimit.AllowKeeps` | forwarder/ratelimit.go:188-239 | every decision keeps the table within its cap and every bucket within its burst |
| `RateLimit.SourceRefusalSparesThePlane` | forwarder/ratelimit.go:188-199 | a source refusal leaves the plane buckets untouched; a relayed object costs nobody; other sources are never charged |
| `RateLimit.LifetimeBound` | forwarder/ratelimit.go:188-239 | with any clock a source takes at most a burst for each of its stays in the table and the refill of the time they cover |
| `RateLimit.SourceBound` | forwarder/ratelimit.go:188-239 | if its clock has not gone back whenever it has to enter the table again, a source takes at most one burst more than its evictions, plus rate times latest minus first of its own instants |
| `RateLimit.OrderedIsGuarded` | forwarder/ratelimit.go:188-239 | that condition holds for every source whose own instants are in order |
| `RateLimit.NoEvictionIsGuarded` | forwarder/ratelimit.go:188-239 | and for every source that is not evicted, with any clock |
| `RateLimit.OutOfOrderBreaksTheBound` | forwarder/ratelimit.go:201-239 | a concrete run, its scans visiting the table, that violates the condition, exceeds the bound, and attains the bound by lifetimes |
| `RateLimit.AllowedIsPaid` | forwarder/ratelimit.go:188-226 | with at least one object a second each object allowed was paid for in full |
| `LimiterRace.RunKeeps` | forwarder/ratelimit.go:188-239 | over every interleaving of lookups and charges each bucket, evicted or not, is what its own charges made of it, and a source's cells are its evictions and its place in the table |
| `LimiterRace.RacedTableIsCapped` | forwarder/ratelimit.go:201-239 | over every interleaving the table keeps its cap and every bucket stays between empty and full |
| `LimiterRace.RacedSourceBound` | forwarder/ratelimit.go:201-239 | over every interleaving, with any clock, a source takes at most a burst for each cell it was given and the refill of the time they were charged, though a caller may charge a cell already evicted |
| `LimiterRace.RacedPlaneBound` | forwarder/ratelimit.go:188-199 | and each bucket of the plane gives at most its burst and the refill between its first and latest charge |
| `LimiterRace.RacedGuardedBound` | forwarder/ratelimit.go:201-239 | over every interleaving in which no call of the source is earlier than one that was given another of its cells, it takes at most a burst for each cell and the refill between its own first and latest charge |
| `LimiterRace.InOrderIsGuarded` | forwarder/ratelimit.go:201-239 | lookups in the order of their instants meet that condition, in whatever order the charges then happen |
| `LimiterRace.SourceRefusalsSpareThePlane` | forwarder/ratelimit.go:188-199 | over every interleaving and for every call, the plane was charged for it exactly as often as its source permitted it, one token at its own instant; a call its source refuses never touches the plane |
| `Beef.DeliverCount` | forwarder/beef.go:249-265 | the policy's answer is clamped to 1..n, and is at most 1 without a policy or a source |
| `Beef.BoundFor` | forwarder/beef.go:94-103 | a policy lifts a source's object bound and never lowers it |
| `Beef.RefusalKeepsTheStore` | forwarder/beef.go:319-456 | no refusal spends a claim, a conformance refusal touches nothing, and an admission claims exactly its own free key |
| `Beef.BlockIsDraws` | forwarder/forwarder.go:1540-1558 | a block reserved at once holds the numbers that many single draws give, wrap included |
| `Beef.ReserveLikeEmit` | forwarder/beef.go:605-641 | after the checks both paths leave the same plane, and agree on the datagrams exactly under the all-or-none condition |
| `Beef.PathsAgreeIff` | forwarder/beef.go:229-244 | for one record, in-line and split leave the same limiter, store and counters, and emit the same datagrams if and only if all its fragments encode or none does |
| `Beef.AnySplitLeavesTheSamePlane` | forwarder/beef.go:605-641 | for every run and every per-record choice of path, limiter, dedup store and flow counters end the same |
| `Beef.AnySplitEmitsTheSame` | forwarder/beef.go:665-694 | for every run and every choice, with the held records built only at the end, datagrams, groups and order are the same |
| `Beef.UncleanRunsDiffer` | forwarder/beef.go:488-494 | for every run that does not encode cleanly, some choice of paths emits something else |
| `Beef.PathsAreOneIff` | forwarder/beef.go:605-694 | for every run, all choices of paths emit the same datagrams, groups and order if and only if no record has fragments that encode beside fragments that do not |
| `Beef.UncleanRecord` | forwarder/beef.go:488-494 | a concrete record of two fragments, one of which fails to encode: in-line it queues one datagram, split none |
| `Beef.EachKeyOnce` | forwarder/beef.go:448-456 | in any run no (content, topic) key is admitted twice and the store gains just the admitted keys |
| `Beef.AdmissionAnnouncesItself` | forwarder/beef.go:563-580 | Datagrams and Bytes announce exactly the number and total length of what is then built |
| `Beef.PreparedPassesTheGates` | forwarder/beef.go:190-244 | a prepared record passes every conformance gate at the same bound, and the content check skipped for it would have passed |
| `BeefForwarder.Forwarder.constructor` | forwarder/beef.go:44-47 | a new plane has a full limiter, an empty store and no counters |
| `BeefForwarder.Forwarder.ClaimKey` | forwarder/forwarder.go:474-496 | first claim wins; without a store every claim does |
| `BeefForwarder.Forwarder.CheckBeef` | forwarder/beef.go:319-456 | gates, DeliverCount written into byte 7, budget, content check and claim, in that order, with the effects of each |
| `BeefForwarder.Forwarder.Emit` | forwarder/beef.go:287-302 | fragments or stamps and queues an admitted frame |
| `BeefForwarder.Forwarder.DispatchBeef` | forwarder/beef.go:229-244 | the in-line path meets its specification |
| `BeefForwarder.Forwarder.ReserveBlock` | forwarder/beef.go:622-641 | one reservation for all fragments, or a stamp in place for a whole frame |
| `BeefForwarder.Forwarder.AdmitBeef` | forwarder/beef.go:605-641 | the split path's first half meets its specification and queues nothing |
| `BeefForwarder.Forwarder.FragmentBeefInto` | forwarder/beef.go:665-694 | builds all the datagrams or none; it fails if and only if a fragment does not encode or the allocator returns another length than datagram i needs on call i; it reads only the admission |
| `SubtreeRoot.RootIsPaddedTree` | forwarder/subtreeroot.go:67-87 | the level-by-level root equals the recursive root of the zero-padded full tree |
| `SubtreeRoot.PaddingKeepsRoot` | forwarder/subtreeroot.go:21-24 | zero padding up to the next power of two leaves the root unchanged |
| `SubtreeRoot.PaddingPastThePowerOfTwo` | forwarder/subtreeroot.go:21-24 | past it the root is combined once more |
| `SubtreeRoot.PaddingDoubles` | forwarder/subtreeroot.go:21-24 | padding of any amount combines the root once for each doubling of the tree's width |
| `SubtreeRoot.AnyPaddingIsNeutralIff` | forwarder/subtreeroot.go:21-24 | padding of every amount is neutral if and only if the root is zero or hashes with itself to itself |
| `SubtreeRoot.RootNamesOneList` | forwarder/subtreeroot.go:67-136 | two lists of one length without zero nodes and with one root are the same list, or hand over two different pairs, hashed at the same place of the two computations to one value, or a pair one of them hashes to zero |
| `SubtreeRoot.LengthsCanShareARoot` | forwarder/subtreeroot.go:114-136 | the fixed count is needed: repeating an odd list's last node keeps the root |
| `SubtreeRoot.ZeroNodesCanShareARoot` | forwarder/subtreeroot.go:114-136 | so is the absence of zero nodes |
| `SubtreeRoot.AnyScheduleHashesTheLevel` | forwarder/subtreeroot.go:90-112 | whatever ranges cover a level and whatever order their goroutines run in, the level is the same |
| `SubtreeRoot.ProgramSplitHashesTheLevel` | forwarder/subtreeroot.go:90-112 | the split the program makes is such a cover, in any schedule |
| `SubtreeRoot.HashPair` | forwarder/subtreeroot.go:114-136 | one parent, with the odd-duplicate and zero-as-absent rules |
| `SubtreeRoot.HashRange` | forwarder/subtreeroot.go:114-136 | parents lo..hi-1 are written and no other byte changes |
| `SubtreeRoot.HashLevel` | forwarder/subtreeroot.go:90-112 | the destination holds the whole next level, at any stride and processor count |
| `SubtreeRoot.ComputeRoot` | forwarder/subtreeroot.go:67-87 | the two-buffer computation yields the specified root, in bounds throughout |
| `SubtreeRoot.VerifySubtreePayload` | forwarder/subtreeroot.go:45-63 | malformed exactly when header or node bytes are short; accepted exactly when well formed and the root matches |
| `SubtreeRoot.AcceptsOneListPerCount` | forwarder/subtreeroot.go:45-63 | two payloads accepted for one root and count carry one node list, or hand over such a flaw of the hash |
| `SubtreeRoot.FeeAndSizeAreNotRead` | forwarder/subtreeroot.go:45-63 | the verdict depends on the count and the hash bytes alone |
| `Egress.WriteBatchAll` | forwarder/egress.go:82-104 | for every writer it terminates, what is accepted is a prefix in order, each call offers exactly the rest, and no error means all was sent |
| `Egress.FlushReliable` | forwarder/egress.go:648-687 | a prefix is sent once in order; the rest is surrendered only on a hard error or at least 50 calls without progress |
| `Egress.DrainVia` | forwarder/egress.go:508-561 | the alternative transport gets a prefix in order, each message retried within its budget before the rest is given up |
| `Egress.RecordMeta` | forwarder/egress.go:818-844 | the events of one target's flush |
| `Egress.QueuedIsForwardedOrDropped` | forwarder/egress.go:818-844 | forwarded plus dropped is what was queued |
| `EgressQueue.Queue.Grow` | forwarder/egress.go:436-499 | growing the address cache keeps every entry and stays coherent |
| `EgressQueue.Queue.Resolve` | forwarder/egress.go:436-499 | the cached address is the destination, zoned for its target |
| `EgressQueue.Queue.Enqueue` | forwarder/egress.go:436-499 | one entry on every target's queue, in lock-step with the metadata, and its copies for the tee and the mirror, which stay those of the queue |
| `EgressQueue.Queue.DrainTarget` | forwarder/egress.go:597-622 | one target is offered its queue and its outcome recorded |
| `EgressQueue.Queue.Flush` | forwarder/egress.go:597-641 | every target is offered its queue; then all queues are empty, every copy is handed to its sender and each pooled buffer is back once |
| `EgressQueue.Queue.Clear` | forwarder/egress.go:628-641 | tee and mirror flushed, queues and metadata emptied, pooled buffers returned |
| `EgressQueue.Queue.FlushVia` | forwarder/egress.go:508-561 | the same through one sink per target |
| `EgressQueue.FlushConserves` | forwarder/egress.go:597-641 | over a flush, each target's forwards and drops add up to what was queued |
| `Sender.RunKeeps` | forwarder/egress.go:699-766 | over every interleaving the depth+1 batches are conserved across free list, queue, sender and flusher |
| `Sender.OfferedInOrder` | forwarder/egress.go:723-744 | each target's writer is offered a prefix of what was enqueued, in order, none skipped or repeated |
| `Sender.BuffersReturnOnceAfterEveryTarget` | forwarder/egress.go:723-744 | pooled buffers return once each, in order, and only after every target was written |
| `Sender.NoDeadlock` | forwarder/egress.go:699-766 | whenever the flusher is blocked the sender can move |
| `Sender.SenderStepsRunOut` | forwarder/egress.go:723-744 | each sender step uses up work, so a flush waits and a stop returns after finitely many |
| `Sender.StopLeavesNothing` | forwarder/egress.go:714-721 | once StopSender has returned, all that was flushed was offered to every target and every batch is free |
| `RetryTee.FlushedIsAccountedFor` | forwarder/retrytee.go:207-273 | flushed equals delivered plus failed plus queued plus in the sender's hands |
| `RetryTee.DeliveredAsAppended` | forwarder/retrytee.go:191-205 | each delivered copy is the bytes at append time, in append order, once |
| `RetryTee.NoSendOnClosedChannel` | forwarder/retrytee.go:207-237 | no send meets a closed channel |
| `RetryTee.CloseLeavesNothing` | forwarder/retrytee.go:306-324 | once close returns nothing is outstanding and the counts balance |
| `RetryTee.NoDeadlock` | forwarder/retrytee.go:191-324 | no reachable state is stuck |
| `RetryTee.SenderStepsRunOut` | forwarder/retrytee.go:207-273 | each sender step uses up one unit of work, and nobody adds any while the channel is closed or a waiter holds the mutex |
| `RetryTee.CloseReturns` | forwarder/retrytee.go:306-324 | from a close on, whatever everyone does, the sender exits with the step that uses up its work, at most 195, and only then; every closer can then return |
| `RetryTee.WaitReturns` | forwarder/retrytee.go:289-300 | a waiter is acknowledged after exactly as many sender steps as were ahead of it, at most 194, whatever is queued meanwhile |
| `RetryTee.WaitSeesEarlierFlushes` | forwarder/retrytee.go:289-300 | when wait is acknowledged, every datagram flushed before it was written or dropped |
| `TcpFrames.PrefixFree` | worker/tcp.go:503-549 | no well-formed frame is a proper prefix of another |
| `TcpFrames.LongestPrefix` | worker/tcp.go:489-592 | any list of frames read off a stream is a prefix of the greedy one |
| `TcpFrames.OneReading` | worker/tcp.go:489-592 | a stream splits in one way into frames and a remainder no frame starts |
| `TcpFrames.Conn.constructor` | worker/tcp.go:454-467 | a new connection holds nothing |
| `TcpFrames.Conn.FlushEgress` | worker/tcp.go:254-276 | the batch's members are bundled and everything the pipeline queued is written; nothing is left |
| `TcpFrames.Conn.FlushBatch` | worker/tcp.go:84-89 | after it nothing is pending |
| `TcpFrames.Conn.ReadKernel` | worker/tcp.go:114-131 | a read that can block without limit is issued only with nothing pending, queued or buffered |
| `TcpFrames.Conn.ReadFull` | worker/tcp.go:492-493 | n bytes exactly when the stream has them, however it is chunked |
| `TcpFrames.Conn.Detect` | worker/tcp.go:479-487 | the grammar by the first four bytes, consuming none |
| `TcpFrames.Conn.Dispatch` | worker/tcp.go:77-82 | the pipeline handles the submission; what it queues is held or written, in order, never lost, and 64 submissions force a flush |
| `TcpFrames.Conn.ReadFrame` | worker/tcp.go:489-573 | the next frame, or none exactly when no well-formed frame starts the stream |
| `TcpFrames.Conn.HandleFramed` | worker/tcp.go:489-592 | submits the stream's frames in order up to a remainder no frame starts, announcements on the control path; no unlimited read finds anything held; all the pipeline queued is written |
| `TcpFrames.Conn.NextObject` | worker/tcp.go:616-617 | the next object exactly when the stream starts with one, however it is chunked |
| `TcpFrames.Conn.HandleObjects` | worker/tcp.go:608-671 | the BEEF and the bare lane submit the stream's objects in order up to where none starts, under the same cadence, and all the pipeline queued is written |
| `TcpFrames.Conn.HandleConn` | worker/tcp.go:454-592 | behind grammar detection each grammar's whole stream is submitted to the pipeline; no unlimited read finds anything held; the bytes written, their groups and their order are those of the pipeline's queue |
| `TcpFrames.EndsDoNotMatter` | worker/tcp.go:114-131 | without coalescing, where batches end makes no difference to the pipeline |
| `TcpFrames.DispatchesTheListSent` | worker/tcp.go:489-592 | any list of well-formed frames, in any chunking, followed by any stub, is submitted exactly and what the pipeline queues for it is written; without coalescing the bytes written are a function of the frames alone |
| `FlowMetrics.Grown` | metrics/metrics.go:1113-1127 | the copied table keeps every pointer and adds one |
| `FlowMetrics.CollectGroup` | metrics/metrics.go:1149-1153 | the sum over a group's workers |
| `FlowMetrics.ResolveKeeps` | metrics/metrics.go:1094-1127 | copy-on-write growth loses and doubles no count, whatever table a goroutine still holds |
| `FlowMetrics.RunKeeps` | metrics/metrics.go:1094-1127 | over every interleaving, scraped plus owed equals called |
| `FlowMetrics.ScrapeAtRestIsExact` | metrics/metrics.go:1140-1160 | at rest a group's totals are exactly the calls with an in-range worker |
| `FlowMetrics.ScrapeNeverOvercounts` | metrics/metrics.go:1140-1160 | read cell by cell while the counters move, a scrape reports no less than stood there at its start and no more than at its end, so never more than was called |

## Left out

- SeqSpace.EverySeqNumOnce: assumes fewer than 2^64 draws on a flow; the class methods state the wrap-around itself.
- RateLimit.SourceBound: the guard suffices and cannot be dropped; that some unguarded runs keep the bound, for want of traffic, is not characterised, because a run's spending depends on its request sizes and not on its clock alone.
- RateLimit.BeefLimiter.AllowFromSource: one call is one step; `LimiterRace` takes it apart into its lookup and its charges. Floating-point rounding is not modelled.
- RateLimit.BeefLimiter.AllowOne: one call is one step, as above.
- Admission.EachKeyOnce: the store never forgets and never errs; expiry and the fail-open reply of a remote store are not modelled. An emission draws its numbers in one step; `SeqSpace` interleaves the draws themselves.
- Admission.OnlyAWonClaimSpends: a charge is one step; `LimiterRace` takes it apart.
- ObjectBudget.ObjectsWithinBudget: each eviction scan visits the whole table, as a map range does; bytes are bounded at the limiter, in `RateLimit.LifetimeBound`, and not followed to the wire.
- LimiterRace.RacedGuardedBound: the guard suffices; runs that keep the bound without it, for want of traffic, are not characterised.
- FlowMetrics.ScrapeNeverOvercounts: one scrape of one group at a time; cells do not wrap.
- TcpFrames.Conn.HandleObjects: the object reader is a parameter that tells an object from the bytes it has; its window and its copying are not part of this model.
- TcpFrames.Conn.Dispatch: one connection with the pipeline to itself; frames and records of the BEEF path queue nothing here, their path is `BeefForwarder`, and other connections share the counters and the store in `Admission`. Control and data queues are one.
- UdpWorker.Worker.Run: transaction and control frames and relayed bundles; objects go to a path of their own, in `BeefForwarder`. The sender goroutine, which this loop does not start, is in `Sender`.
- UdpWorker.Worker.BufferFrame: members are kept in one list and bucketed when they are flushed; bucketing as they arrive is `Coalesce.CoalBuffer.Add`.
- BeefForwarder.Forwarder.FragmentBeefInto: an allocation is its length; the encoder's result does not depend on the buffer it writes to.
- Beef.AnySplitEmitsTheSame: one admitting goroutine, as the source asks of its callers; the building is free of order.
- PipelineOrder.EveryFlowLeavesInOrder: transaction and control frames; BEEF frames, which share the counters, are in `Beef`.
- PipelineSizes.EveryDatagramFits: fragments and bundles; a whole frame is as long as its submitter made it.
- The atomic multicast-address cache of the forwarder: a single-branch lookup.
- Sockets, probing, accept loops and tee dialing: foreign calls.
- Logging, metric labels, tracing, health handlers: observability only.
- Configuration, manifest handling, the object-stream ingress and process start-up: wiring, or logic that lives in the shared library.
