# Krafka in Dafny

A model of the algorithmic core of Krafka, an asynchronous Kafka client in Rust,
and of three of the Python checks that guard its dependency tree and sources.
`dafny verify dfyconfig.toml` checks the whole project.

## What is modelled

**The metadata cache and its writer** (`Metadata*.dfy`). Callers queue requests,
one writer coalesces them into fetches, and each response is merged into an
immutable snapshot, while leader hints (KIP-951) and rebootstraps (KIP-899,
KIP-1102) happen beside it. `MetadataMerge` is the loop over a response, proved
against a fold per name; `MetadataMergeLaws` proves what that means for retention,
order, well-formedness and leader epochs. `MetadataStore` is the shared object
with the sections that change it. `MetadataProtocol` is the whole system as a
state machine, one event for each uninterrupted piece of code, and
`MetadataSafety`, `MetadataRuns`, `MetadataWriter`, `MetadataWaking`,
`MetadataPacing` and `MetadataBounds` prove statements about every run of it; `MetadataDriving` builds
the runs that show a promise broken. `Backoff` is the retry policy and the rate
limiter the writer keeps with it. History fields (which pass built an entry,
when a request was queued) are bookkeeping that no guard reads, and
`MetadataRuns` restates the results in terms of the run's events alone (only the
callers' futures among them, whether queued or given up, are looked at by guards).

**The in-flight barrier** (`Barrier*.dfy`). The object with its lock sections,
and a state machine in which ending an operation is a decrement and then a
broadcast, and waiting is register, check, park.

**The producer's topic recorder** (`TopicRecorder`, `ProducerRecorder`,
`MapSum`). A copy-on-write map with a lock-free look, a re-check under a lock, a
cap and an overflow bucket, as a state machine over every load, store and
counter access, and the object one thread sees.

**Smaller cores.** Varints and correlation IDs (`Varint`, `CorrelationId`), the
chunked body reader (`HttpText`, `HttpTextLaws`, `ChunkedBody`, `ChunkedCodec`), the owner-tagged
record context of interceptor chains (`RecordContext`), the sampling argument
over version ranges (`AdvisoryFloors`), breadth-first and depth-first search
(`DependencyGraph`) and the comment blanker (`StripComments`).

## Where the code falls short of a promise

Four promises do not hold of the code as it stands. Each has a concrete family of
inputs and the exact condition under which the promise is kept.

- *Stamps cover exactly the cached topics.* A response that describes a topic and
  later in the same response denies it leaves a stamp with no topic
  (`DuplicateLeavesOrphanStamp`). Every snapshot of a run is well formed exactly
  when no merge of the run orphans a name (`WellFormedIsExact`); brokers that name
  each topic once are enough (`SnapshotsWellFormed`). All the rest of
  well-formedness holds of every run (`SnapshotsSound`).
- *Timer rebootstraps are at least the trigger apart.* The streak restart reads
  the clock before it takes the lock, so a user's rebootstrap can read the clock
  before the timer fires and store that reading after the writer's own restart;
  the next check then fires too soon (`StaleBreaks`). At a firing this can be told
  exactly: every continuation of the run is paced if and only if the trigger is
  zero, the handle is closed, the shortest backoff is as long as the trigger, or
  no user holds a reading from before the firing (`PacedFromIff`). `AlwaysPacedIff`
  says which configurations are paced whatever happens, and `TimerIsPaced` how much
  distance is left between two firings of any run.
- *`first_affected` is exact* (`xtask/advisory_floors.py:10-12`). Upper ends of
  tildes are not sampled, nor the upper end of a caret such as `^0.5`
  (`TildeIsMissed`, `BareZeroIsMissed`). The result is right exactly when every
  affected unsampled upper end in the range has an affected sample before it
  (`SamplingIsExactIff`). That is always so without caret and tilde
  (`OrderOnlyIsExact`), and for advisories without tildes for every requirement
  but a bare `0` (`RequirementsAreExact`).
- *Interceptors do not see each other's values.* A callback holds a mutable
  reference to the context and can move another context in (`OverwriteLosesValue`);
  moving it out and back is harmless (`TakeAndPutBack`). What any other interceptor
  stored is left alone exactly when the context in place at the end of the callback
  is the one it was handed (`IsolationIsExact`). Owner tags are distinct exactly up
  to 65,536 interceptors (`TagsDistinctIff`).

## Model

| member | source | states |
|---|---|---|
| MetadataMerge.MergeBrokers | src/metadata.rs:476-485 | each broker ID maps to the last broker listed under it, and to nothing if none is |
| MetadataMerge.MergePartitions | src/metadata.rs:577-623 | exactly the reported partitions are there, and the last report decides each, field by field: taken as it is if healthy, without leader and epoch if errored, and the cached partition instead when that one has a newer epoch than a known reported one |
| MetadataMerge.ReportsDecide | src/metadata.rs:577-623 | the same of any map that is pointwise the last report fenced by the cached epoch |
| MetadataMerge.MergeItem | src/metadata.rs:527-636 | one response item changes its own name only: healthy replaces, transient keeps or restores, any other error removes |
| MetadataMerge.MergeTopics | src/metadata.rs:487-636 | after the loop every name is the fold of the items that carry it over what was retained of it |
| MetadataMerge.MergeStamps | src/metadata.rs:638-649 | dropped topics lose their stamp; a fetched one is renewed and keeps its last use |
| MetadataMerge.IndexIds | src/metadata.rs:651-658 | the name index is exact and the ID index maps back consistently, in whatever order the topics come |
| MetadataMerge.Merge | src/metadata.rs:467-673 | the next snapshot is the pointwise merge, one generation later, under the same reset epoch |
| MetadataMergeLaws.SlotOfOwnItems | src/metadata.rs:527-636 | a name's outcome depends on the items carrying that name and on no other |
| MetadataMergeLaws.MergeUnnamed | src/metadata.rs:487-523 | a name no item carries keeps its entry exactly when the refresh is partial and the entry was fetched or used within the TTL |
| MetadataMergeLaws.MergeNamed | src/metadata.rs:527-636 | with distinct names the one item decides entry, error and stamp of its name, in each of its three outcomes |
| MetadataMergeLaws.MergedPartition | src/metadata.rs:561-623 | the merged partition written out: reported leader, epoch, replicas, ISR and code when nothing newer is cached or the topic was re-created; the cached partition when the report is older and known; leader and epoch -1 when it is errored; gone when not reported |
| MetadataMergeLaws.MergedError | src/metadata.rs:532-557 | an item with code 3 or 100 drops its topic, any other retriable code leaves it as cached, every other code drops it; the code is recorded |
| MetadataMergeLaws.MergedBroker | src/metadata.rs:476-485 | a broker is there exactly when the response lists it, as it was listed last |
| MetadataMergeLaws.MergeEvicts | src/metadata.rs:487-523 | a name the response does not mention goes in a full refresh; in a partial one it stays as it was, unless a TTL is set and both its last fetch and its last use lie further back |
| MetadataMergeLaws.MergeDetermined | src/metadata.rs:467-673 | two responses with the same items per name give the same snapshot, up to which of two topics sharing an ID the index names |
| MetadataMergeLaws.MergeOrderIrrelevant | src/metadata.rs:467-673 | with distinct names the order of the topics in the response does not matter |
| MetadataMergeLaws.EntryOrigin | src/metadata.rs:527-636 | an entry after the merge is the cached one or was built by one healthy item, never a mixture |
| MetadataMergeLaws.MergeStampsExact | src/metadata.rs:638-649 | a stamp without topic is left exactly for the names a response fills and later removes, whatever stamps there were before |
| MetadataMergeLaws.DuplicateLeavesOrphanStamp | src/metadata.rs:550-556 | a response that lists a topic and then denies it does leave such a stamp |
| MetadataMergeLaws.MergeKeepsSound | src/metadata.rs:467-673 | every merge keeps a sound snapshot sound, and makes it well formed exactly when its response orphans no name |
| MetadataMergeLaws.MergeKeepsEpochs | src/metadata.rs:561-620 | a known leader epoch does not go down in a merge unless it becomes unknown or the topic carries a different ID |
| MetadataMergeLaws.HintSurvivesOlderResponse | src/metadata.rs:1147-1212 | the leader a hint set is still routed to after a later response with an older known epoch |
| MetadataHint.HintFrame | src/metadata.rs:1160-1211 | a hint changes at most its own partition's leader, epoch and error and its own broker; no partition set, stamp or index |
| MetadataHint.HintIsExact | src/metadata.rs:1160-1211 | a hint moves a cached partition exactly when it names a reachable leader with a known epoch above the cached one, registers an endpoint exactly when the broker is unknown or moved, and changes nothing otherwise; each field it leaves is given |
| MetadataHint.HintKeepsSound | src/metadata.rs:1160-1211 | a hint keeps a snapshot sound, and leaves a stray stamp only where there was one |
| MetadataHint.HintRaisesEpochs | src/metadata.rs:1168-1208 | a hint never lowers a known epoch |
| MetadataStore.Inner.constructor | src/metadata.rs:761-785 | the cache starts empty and well formed, with an empty batch and no failure streak |
| MetadataStore.FreshIsExact | src/metadata.rs:1475-1483 | names are fresh exactly when there are brokers and each is cached with a last fetch no longer ago than the maximum age |
| MetadataStore.Inner.Apply | src/metadata.rs:1499-1514 | a response is merged exactly when the reset epoch is still the one its pass read; otherwise nothing changes |
| MetadataStore.Inner.ApplyLeaderHint | src/metadata.rs:1147-1212 | reports a change exactly when the hint is newer than what is known, and then publishes the hinted snapshot; a hint that names a leader marks its topic as in use either way |
| MetadataStore.Inner.ResetToSeeds | src/metadata.rs:1652-1662 | publishes an empty snapshot under strictly larger generation and reset epoch and restarts the streak at the clock reading |
| MetadataStore.Inner.TouchTopics | src/metadata.rs:1448-1459 | exactly the named topics that are cached get a new last use; without a TTL nothing changes |
| MetadataStore.Inner.Request | src/metadata.rs:940-965 | a request is answered from the cache exactly when it is not forced, names topics, and each was itself fetched within the maximum age; otherwise exactly its names, or every topic, and its waiter are added to the batch, which then covers it and everything already in it |
| MetadataStore.Inner.TakeBatch | src/metadata.rs:1822-1858 | the writer gets everything requested so far and leaves nothing behind |
| MetadataSafety.KeptOrBuilt | src/metadata.rs:527-636 | a merged entry is the cached one, or its ID, kind and partition set are those of one healthy item of the response |
| MetadataSafety.SnapshotIsTraced | src/metadata.rs:1499-1514 | in every reachable state each topic and broker goes back to an applied fetch that read its reset epoch after the latest rebootstrap, or a broker to a hint since |
| MetadataSafety.WaitersAreServed | src/metadata.rs:1822-1858 | in every reachable state each waiter is queued, held, cancelled or answered, never in two places and never answered twice, and each answer comes from a fetch that began after the request and covers it |
| MetadataRuns.PassHappened | src/metadata.rs:1556-1557 | a recorded pass is an event of the run that read the reset epoch it records |
| MetadataRuns.ApplyHappened | src/metadata.rs:1499-1514 | a recorded application is an event that merged that response under its own reset epoch, as a full refresh exactly when its batch asked for every topic, with the TTL of the configuration and the time of the event |
| MetadataRuns.TopicsAreCurrent | src/metadata.rs:1499-1514 | every cached topic was described by a response merged at some event, fetched by an earlier pass, with no rebootstrap written from that pass on |
| MetadataRuns.BrokersAreCurrent | src/metadata.rs:1160-1211 | every cached broker is the last one listed by such a response, or the endpoint of a hint with no rebootstrap since |
| MetadataRuns.OkMeansApplied | src/metadata.rs:1822-1858 | behind an `Ok` answer there are, in this order, the request, a pass, and the merge of that pass's response for a batch that asked for every topic or for all the names requested |
| MetadataRuns.GenerationVersions | src/metadata.rs:1485-1495 | the generation never falls, and two states with the same one hold the same snapshot up to last-use times |
| MetadataRuns.EpochsNeverFall | src/metadata.rs:604-620 | along any run a partition's epoch does not decrease while every snapshot in between knows it and the topic is not re-created |
| MetadataRuns.SnapshotsSound | src/metadata.rs:577-658 | in every run, whatever brokers answer: every topic has a stamp, the indexes agree with the entries, errored partitions have no leader and epoch |
| MetadataRuns.WellFormedIsExact | src/metadata.rs:638-649 | every snapshot of a run is well formed if and only if no merge of the run orphans a name |
| MetadataRuns.SnapshotsWellFormed | src/metadata.rs:638-658 | brokers that name each topic at most once keep every snapshot well formed |
| MetadataWriter.HeldWasReceived | src/metadata.rs:1596-1617 | a response in the writer's hands was received, without an error code, by the very pass it is held for |
| MetadataWriter.MergeSparesUnnamed | src/metadata.rs:1609-1621 | over every run: only a response without error code is merged; one fetched for every topic leaves none that it does not name; one fetched by name leaves each other topic and its stamp exactly as they were, unless idle beyond the TTL |
| MetadataWriter.TouchMarksUse | src/metadata.rs:1438-1459 | marking a topic renews its last use and changes nothing else |
| MetadataWriter.UsedTopicSurvives | src/metadata.rs:487-511 | a topic used at some moment outlives the next merge that was not asked for it, for as long as the TTL from then |
| MetadataWriter.WriterResetsExactly | src/metadata.rs:1544-1608 | over every run: the writer turns to a rebootstrap exactly when it was asked to, the streak has outlasted trigger and jitter, no broker of a non-empty map answers or a broker requires one, the last two at most once per call and all but the first only when enabled |
| MetadataWriter.CallEndsExactly | src/metadata.rs:1544-1627 | a call succeeds exactly by a merge, with the pass that was merged, and fails exactly when its passes are used up, the send fails, an error is answered or nothing connects, and no rebootstrap is left to try |
| MetadataWriter.FetchNeedsWaiter | src/metadata.rs:1839-1841 | a batch is fetched exactly when one of its callers still waits |
| MetadataWriter.BatchesAskExactly | src/metadata.rs:940-965 | in every reachable state the pending batch and the one in the writer's hands ask for what their waiters asked for, and for nothing else |
| MetadataWriter.FetchAsksExactly | src/metadata.rs:1843-1848 | what a call fetches, by the requests of the run: every topic exactly when one of its waiters asked for that, and otherwise exactly the names its waiters asked for |
| MetadataWriter.AskedResetIsDone | src/metadata.rs:1834-1838 | a rebootstrap that was asked for is written before the batch it was asked in is begun |
| MetadataWriter.StreakGoesBack | src/metadata.rs:1524-1527 | a running failure streak starts at the first fetch begun, or the last rebootstrap stored, since a response was accepted |
| MetadataWriter.NoStreakAfterSuccess | src/metadata.rs:1616-1617 | without a running streak a response was accepted since the last fetch that was begun |
| MetadataWriter.TimerMeansFailing | src/metadata.rs:1668-1696 | when the timer resets, no response was accepted for the trigger and the jitter drawn, counted from the start of the streak |
| MetadataWriter.LongStreakResets | src/metadata.rs:1668-1696 | a streak a fifth longer than the trigger resets at the next fetch, whatever the jitter |
| MetadataWriter.FailedMeansNotMerged | src/metadata.rs:1849-1855 | a waiter told that its fetch failed was served by a call none of whose responses was merged |
| MetadataPacing.TimerIsPaced | src/metadata.rs:1668-1691 | two firings of the streak timer are the trigger apart, counted from the earlier firing or the oldest clock reading a user's rebootstrap stores in between |
| MetadataPacing.FreshReadingsPace | src/metadata.rs:1652-1662 | with no older reading pending at a firing, every later firing is the trigger away |
| MetadataPacing.StaleBreaks | src/metadata.rs:1652-1662 | from any state just after a firing in which a user still holds an older reading, the timer can fire again before the trigger has passed |
| MetadataPacing.PacedFromIff | src/metadata.rs:1668-1691 | for a run that has just fired: every continuation keeps the next firing the trigger away, if and only if the trigger is zero, the handle is closed, the backoff is as long as the trigger, or no user holds a reading from before the firing |
| MetadataPacing.AlwaysPacedIff | src/metadata.rs:1668-1691 | every run of a configuration is paced if and only if the timer is off, the trigger is zero or the backoff is as long as the trigger |
| MetadataBounds.OneCallIsBounded | src/metadata.rs:1524-1627 | at any point of one call of `refresh` at most three passes have begun and at most one rebootstrap of its own was decided |
| MetadataBounds.UnreachableNeedsRefill | src/metadata.rs:1558-1571 | between two rebootstraps for unreachability lie the first one's reset and then a hint or merge that refills the empty broker map |
| MetadataBounds.LimiterCounts | src/metadata.rs:305-338 | the limiter's counter is the number of fetches that have failed in a row, up to what it can count |
| MetadataBounds.FetchesAreSpaced | src/metadata.rs:305-338 | after a fetch completes, the next batch is taken no sooner than the policy's delay for the failures in a row so far, and never sooner than the initial delay |
| MetadataWaking.ParkedWriterIsWoken | src/metadata.rs:1824-1831 | in every reachable state a parked writer with a waiter, a request for every topic or for a rebootstrap, or a closed handle has a permit or a caller about to give it one, and a writer never spawned has a caller about to spawn it |
| MetadataWaking.PermitIsUsedOnce | src/metadata.rs:1828-1831 | a parked writer wakes only with a permit, uses it up, and looks at the handle and the batch again |
| MetadataWaking.PermitWakes | src/metadata.rs:1822-1833 | with its permit the writer gets to the batch in three steps of its own, or stops in two |
| MetadataWaking.WaiterIsNotForgotten | src/metadata.rs:940-973 | while the handle lives, a request neither answered nor given up is in the writer's hands, or in a batch whose writer runs or is about to be woken |
| Backoff.BaseGrows | src/util.rs:140-144 | with a multiplier of at least one the curve never falls, from the initial delay up to the ceiling |
| Backoff.CurveSteps | src/util.rs:140-144 | the first attempt waits the initial delay and each further one the multiple of the one before, until that would exceed the ceiling |
| Backoff.CeilingIsReached | src/util.rs:140-144 | it is at the ceiling no later than linear growth by its first step would be |
| Backoff.DelayBounds | src/util.rs:107-184 | whatever the multiplier and the draw, a delay is at least the initial one, at most the ceiling plus its jitter, and below the curve by at most the jitter |
| Backoff.DelayIsExact | src/util.rs:107-184 | the delay is the curve moved by the drawn fraction of the clamped jitter, or the initial delay if that is more; attempt zero waits nothing |
| Backoff.InitialIsDrawn | src/util.rs:107-184 | the lower bound is met: the first attempt can draw the initial delay |
| Backoff.RefreshBackoffState.constructor | src/metadata.rs:306-312 | the first fetch is free |
| Backoff.RefreshBackoffState.Remaining | src/metadata.rs:315-323 | nothing is left exactly when a fetch is allowed; otherwise a fetch is allowed exactly from that much later on |
| Backoff.RefreshBackoffState.RecordSuccess | src/metadata.rs:326-330 | the count is cleared and no fetch is allowed for at least the initial delay |
| Backoff.RefreshBackoffState.RecordFailure | src/metadata.rs:333-337 | the count goes up by one until it saturates, the delay is drawn for it, and no fetch is allowed for at least the initial delay |
| Barrier.InFlightBarrier.constructor | src/barrier.rs:34-40 | a new barrier is open with nothing running |
| Barrier.InFlightBarrier.Start | src/barrier.rs:48-61 | an operation joins the current generation, or is refused once closing |
| Barrier.InFlightBarrier.Snapshot | src/barrier.rs:64-69 | the returned generation is ended: later operations get a larger one |
| Barrier.InFlightBarrier.BeginClose | src/barrier.rs:73-81 | only the first close gets a generation; a later one changes nothing |
| Barrier.InFlightBarrier.IsDrained | src/barrier.rs:96-103 | true exactly when no generation up to the given one has a running operation |
| Barrier.InFlightBarrier.Complete | src/barrier.rs:105-117 | one operation of the generation fewer, every other count as it was, no zero count kept |
| BarrierProtocol.RunKeepsInv | src/barrier.rs:48-117 | in every reachable state the counts are those of the live operations, tickets separate by generation, a close seals the set of operations, and no wakeup is lost |
| BarrierProtocol.ClosingIsExact | src/barrier.rs:73-81 | shutdown has begun exactly when some call of the run began it |
| BarrierProtocol.OpsAreExact | src/barrier.rs:48-61 | the operations are exactly the calls that started before shutdown began, and one is live exactly until its decrement |
| BarrierProtocol.DrainedIsExact | src/barrier.rs:96-103 | `is_drained(g)` holds if and only if every operation started before the call that returned `g` has completed |
| BarrierProtocol.DrainedIsStable | src/barrier.rs:11-19 | whom a generation waits for never changes, and once drained it stays drained |
| BarrierProtocol.TicketListsStarted | src/barrier.rs:64-81 | a generation handed out is new and stands for exactly the operations started by then |
| BarrierProtocol.ParkedWaiterWillBeWoken | src/barrier.rs:84-117 | a parked waiter not yet notified has an operation left that still has to broadcast |
| BarrierProtocol.BroadcastReachesRegistered | src/barrier.rs:84-117 | a broadcast notifies every waiter that registered before it, parked or not, and no one else |
| BarrierProtocol.WaiterReturns | src/barrier.rs:84-94 | once nothing it waits for is left, a waiter returns within three steps of its own |
| BarrierProtocol.CloseWinsOnce | src/barrier.rs:73-81 | a second `begin_close` in a run hands out nothing and changes nothing |
| BarrierProtocol.ClosedIsQuiet | src/barrier.rs:11-19 | once the wait of the winning close has returned, nothing runs and nothing ever starts again |
| TopicRecorder.NamedTopicCountIsExact | src/metrics.rs:1067-1069 | the count is the number of topics other than the overflow bucket |
| TopicRecorder.FastPathRoutes | src/metrics.rs:1050-1064 | a look at any earlier map, however stale, finds the recorder the topic belongs to in the current one |
| TopicRecorder.RegisterRoutes | src/metrics.rs:1074-1093 | registration keeps the cap, moves no topic and leaves the topic served by the recorder it returns |
| TopicRecorder.RegisterIsExact | src/metrics.rs:1074-1093 | a topic with an entry keeps it; a new one gets its own exactly while fewer than the cap are tracked, and the overflow bucket afterwards, created when first needed |
| TopicRecorder.StepKeepsInv | src/metrics.rs:1050-1112 | every load, publication, lock and counter access of any thread keeps conservation, cap and routing |
| TopicRecorder.RecordsAreConserved | src/metrics.rs:1097-1112 | in every interleaving the per-topic counters and the calls in progress sum to the total, the cap holds, and no topic is split between its entry and the overflow bucket |
| TopicRecorder.LedgerCounts | src/metrics.rs:1097-1112 | what is booked per topic is the sum of what the calls of the run for it have added |
| TopicRecorder.CallIsAsBegun | src/metrics.rs:1097-1112 | a call records for the topic and the amount it was made with |
| TopicRecorder.RecorderIsExact | src/metrics.rs:1050-1112 | in every interleaving a tracked topic's recorder holds exactly what the calls for that topic have added, and a topic recorded without its own entry means that exactly the cap of others is tracked |
| ProducerRecorder.GainKeepsBalance | src/metrics.rs:1097-1112 | adding the same amount to a total and to one recorder keeps the total equal to the sum |
| ProducerRecorder.GainCredits | src/metrics.rs:1097-1112 | a gain raises the total and one share by the amount and changes no other share |
| ProducerRecorder.ProducerRecorder.RegisterTopic | src/metrics.rs:1074-1093 | the topic is found, created or resolved to the overflow bucket, as `RegisterIsExact` says; no counter changes and the map only grows |
| ProducerRecorder.ProducerRecorder.WithTopic | src/metrics.rs:1050-1064 | the recorder returned serves the topic: its own, or the overflow bucket of a full map |
| ProducerRecorder.ProducerRecorder.RecordBatchForTopic | src/metrics.rs:1097-1105 | the totals of records and bytes, and the shares of the recorder that serves the topic, grow by the amounts, a new recorder from zero; every other share is as it was, and totals stay the sums of their shares |
| ProducerRecorder.ProducerRecorder.RecordErrorForTopic | src/metrics.rs:1109-1112 | the error total and the share of the serving recorder grow by one; every other share and the other counters are as they were |
| Varint.DecodeUnsigned | src/util.rs:525-624 | accepts exactly the varints of at most five (ten) bytes whose value fits, with that value and length; truncation is reported exactly when more bytes could still complete one |
| Varint.AcceptsOnce | src/util.rs:525-624 | a buffer starts with at most one varint |
| Varint.EncodeUnsigned | src/util.rs:479-502 | appends the base-128 encoding |
| Varint.UnsignedSize | src/util.rs:436-461 | the size function is the length the encoder writes |
| Varint.EncodingIsVarint | src/util.rs:479-502 | an encoding spells its value and is as long as the value needs |
| Varint.EncodingIsShortest | src/util.rs:479-502 | no shorter varint has the same value |
| Varint.RoundTrip | src/util.rs:479-624 | decoding an encoding followed by anything gives the value back and leaves what followed |
| Varint.ZigzagRoundTrip | src/util.rs:472-513 | zigzag maps the signed range into the unsigned one and back |
| Varint.UnzigzagRoundTrip | src/util.rs:510-513 | every unsigned value is the image of exactly one signed one |
| Varint.EncodeSigned | src/util.rs:472-475 | the shift-and-mask form writes 2v for v not below zero and -2v - 1 otherwise |
| Varint.DecodeSigned | src/util.rs:510-513 | accepts exactly the zigzag images of values in range |
| Varint.SignedRoundTrip | src/util.rs:472-513 | what the signed encoder writes the signed decoder reads back, whatever follows |
| CorrelationId.Generator.Next | src/util.rs:388-414 | an ID is a 32-bit integer other than the reserved one, and the counter moves past it |
| CorrelationId.IssuedInOrder | src/util.rs:388-414 | in every interleaving of atomic increments the k-th ID handed out is the k-th of one fixed cycle |
| CorrelationId.IdsAreDistinct | src/util.rs:251 | any 2^32 - 1 consecutive IDs are pairwise distinct and never the reserved one, and the next one repeats |
| ChunkedBody.Buffer.Grow | src/http.rs:524-535 | the body is kept and grown by zeros within the limit, reallocating exactly when the capacity is exceeded, to twice the capacity, the limit or what is needed; a length beyond the type, which only the largest limit lets through, yields nothing |
| ChunkedBody.ReallocationsLogarithmic | src/http.rs:524-535 | a buffer within a limit of 2^k was reallocated at most k + 1 times |
| ChunkedBody.Reader.ReadLineBounded | src/http.rs:69-86 | a line ends with its LF or the input, is within the length bound and is UTF-8, or is an error; the bytes are consumed either way |
| ChunkedBody.ReadOneChunk | src/http.rs:558-566 | a chunk and the two bytes behind it are consumed, the chunk is appended, or the input was too short |
| ChunkedBody.ReadChunks | src/http.rs:537-570 | the loop returns what the grammar of chunks assigns to the bytes and stops in front of the trailers |
| ChunkedBody.ReadChunkedBody | src/http.rs:537-582 | on any input the buffer stays within the limit; the result is the parsed body, or an error exactly when there is none; up to 32 trailer lines behind it are consumed |
| ChunkedBody.DrainTrailers | src/http.rs:574-580 | the cursor stops behind the blank line, the unreadable line or the end that stops the loop, or behind the last line allowed |
| ChunkedBody.ReadToEnd | src/http.rs:460-489 | a body without framing is the whole rest of the input, or an error exactly when that exceeds the limit |
| HttpTextLaws.Utf8IsExact | src/http.rs:69-86 | bytes are read as a text exactly when they are its UTF-8 encoding by RFC 3629: shortest forms, no surrogates, nothing above U+10FFFF |
| HttpTextLaws.NumberComesBack | src/http.rs:547-549 | every number is read back from its base-sixteen digits in either case, with or without a plus sign, and refused exactly when it does not fit 64 bits |
| HttpTextLaws.ZeroIsIgnored | src/http.rs:547-549 | a leading zero changes nothing |
| HttpTextLaws.OthersAreRefused | src/http.rs:547-549 | nothing, a sign alone or any other character is refused |
| ChunkedCodec.LineComesBack | src/http.rs:69-86 | a line of valid text within the bound is read back whole, whatever follows |
| ChunkedCodec.LineIsExact | src/http.rs:69-86 | a line is read exactly as the bytes up to the first LF or the end, if these are the encoding of a text and at most 8192 |
| ChunkedCodec.SizeIgnoresWhite | src/http.rs:546-547 | white space around the size and everything from a semicolon on is ignored |
| ChunkedCodec.SizeComesBack | src/http.rs:546-549 | the announced size is read back whatever its spelling, padding and extension, and refused exactly when it does not fit the type |
| ChunkedCodec.ChunkComesBack | src/http.rs:543-567 | a chunk in front of others is read as itself and what they are read as, or refused exactly when it does not fit |
| ChunkedCodec.BodyComesBack | src/http.rs:537-582 | whatever the split into non-empty chunks and the extensions, the reader returns exactly the body that was sent, if it fits |
| ChunkedCodec.OversizeIsRefused | src/http.rs:553-557 | a body that does not fit is refused |
| ChunkedCodec.WireComesBack | src/http.rs:537-582 | pieces written with their sizes in hexadecimal come back joined, exactly when they fit the limit, and what follows is left |
| ChunkedCodec.TrailersAreSkipped | src/http.rs:574-580 | up to 31 trailer lines and the blank line are consumed and nothing behind them |
| ChunkedCodec.BareBlankLineEnds | src/http.rs:577 | a bare LF ends the trailers too |
| ChunkedCodec.TrailersAreBounded | src/http.rs:574 | more trailer lines than the bound are left where they are from there on |
| RecordContext.Position | src/interceptor.rs:287-292 | the first entry of that owner and type, or the end |
| RecordContext.StoredAt | src/interceptor.rs:301-319 | storing changes what one owner sees under one type and nothing else, and keeps entries unique |
| RecordContext.RemovedAt | src/interceptor.rs:342-346 | so does removing, although the later entries shift down |
| RecordContext.AccessIsPrivate | src/interceptor.rs:301-346 | one accessor answers from and changes the caller's own map, and no one else's view |
| RecordContext.SharedRefinesPrivate | src/interceptor.rs:282-346 | a callback that reacts to its answers, moves contexts in and out, fails or panics acts as on a private map; if the context it was handed is in place at the end, everyone else's view is as it was, and if not, the one in place owes nothing to it |
| RecordContext.IsolationIsExact | src/interceptor.rs:330-333 | a callback leaves what any other interceptor stored alone, whatever that is, if and only if the context in place when it ends is the one it was handed |
| RecordContext.OverwriteLosesValue | src/interceptor.rs:558-580 | swapping another context in loses what every other interceptor stored, the first one included |
| RecordContext.TakeAndPutBack | src/interceptor.rs:558-580 | moving the context out and back before returning loses nothing |
| RecordContext.RecordContext.constructor | src/interceptor.rs:270-275 | a new context is empty and owned by interceptor 0 |
| RecordContext.RecordContext.SetOwner | src/interceptor.rs:282-284 | sets the tag and returns the previous one |
| RecordContext.RecordContext.Insert | src/interceptor.rs:301-319 | returns what it replaces; each owner keeps at most one entry per type |
| RecordContext.RecordContext.Get | src/interceptor.rs:323-326 | what the current owner stored under the type |
| RecordContext.RecordContext.Take | src/interceptor.rs:342-346 | returns and removes it |
| RecordContext.RecordContext.Run | src/interceptor.rs:558-580 | a callback on the object and a stash is the callback on their values, and entries stay unique |
| RecordContext.TagsDistinctIff | src/interceptor.rs:538-540 | the tags of a chain are distinct if and only if it has at most 65,536 interceptors |
| RecordContext.CallKeepsMaps | src/interceptor.rs:558-580 | one call that leaves the context in place keeps the vector and one private map per interceptor in step |
| RecordContext.RunChain | src/interceptor.rs:558-622 | whatever the callbacks do: they run in order, each on the record, entries and stash the one before left, under its own tag; a failure never ends the chain, a panic ends it exactly when `stop` is set, at the first one; the outcome is that of the last callback run, the owner tag is restored and entries stay unique; with distinct tags and the context always left in place the chain acts as on private maps |
| AdvisoryFloors.CollectPoints | xtask/advisory_floors.py:108-116 | the samples are the floor and every version named in the texts, readable comparator or not, with its next patch |
| AdvisoryFloors.NamedIsSampled | xtask/advisory_floors.py:111-114 | every version a text names is sampled, and so is its next patch |
| AdvisoryFloors.ComparatorMeaning | xtask/advisory_floors.py:48-62 | each comparator on the components: `>=` is not before, `<` before, `>` and `<=` the same one patch later, `=` equal, `^` the same leftmost part that is not zero, `~` the same major and minor |
| AdvisoryFloors.ShortComparatorMeaning | xtask/advisory_floors.py:33-62 | missing parts are zero, except that `^` and `~` leave them open |
| AdvisoryFloors.CommaMeaning | xtask/advisory_floors.py:65-66 | a requirement holds where all of its comparators do |
| AdvisoryFloors.BackportMeaning | xtask/advisory_floors.py:102-105 | a version is safe where any of the requirements holds: with a fix and a backported one, affected before the backport and between it and the fix |
| AdvisoryFloors.FirstAffected | xtask/advisory_floors.py:108-118 | the least affected sample in the range, and none exactly when no sample is affected; `WindowIsFound` and `PatchedFromIsFound` say which version that is |
| AdvisoryFloors.WindowMeaning | xtask/advisory_floors.py:102-105 | patched from c and unaffected before a: affected exactly from a on and before c |
| AdvisoryFloors.WindowIsFound | xtask/advisory_floors.py:108-118 | for such an advisory the scan finds the floor when it lies in the window, the start of the window when that lies in the range, and nothing otherwise; nothing when a is c |
| AdvisoryFloors.PatchedFromIsFound | xtask/advisory_floors.py:108-118 | patched `>=x.y.z` alone marks the floor exactly when it is before x.y.z |
| AdvisoryFloors.MatchesBetweenCuts | xtask/advisory_floors.py:48-62 | a comparator does not change between two neighbouring cut points |
| AdvisoryFloors.AffectedBetweenCuts | xtask/advisory_floors.py:102-105 | neither does being affected |
| AdvisoryFloors.LastCut | xtask/advisory_floors.py:108-118 | below every version of the range there is a last cut, with no cut in between |
| AdvisoryFloors.SamplingIsExactIff | xtask/advisory_floors.py:108-118 | the sampled answer is the least affected version if and only if the unsampled upper ends are covered |
| AdvisoryFloors.OrderOnlyIsExact | xtask/advisory_floors.py:108-118 | without caret and tilde the answer is exact on every range |
| AdvisoryFloors.CaretUpperSampled | xtask/advisory_floors.py:38-45 | inside the range of a caret requirement other than a bare `0`, the upper end of a caret is a sample or the floor |
| AdvisoryFloors.RequirementsAreExact | xtask/advisory_floors.py:69-75 | so for such requirements only tildes can be missed |
| AdvisoryFloors.TildeIsMissed | xtask/advisory_floors.py:48-62 | patched `~x.y.z` under requirement `x.y.z` misses `x.(y+1).0`, for every x above zero |
| AdvisoryFloors.BareZeroIsMissed | xtask/advisory_floors.py:38-45 | patched `<0.y` and `^0.y` under requirement `0` misses `0.(y+1).0`, for every y above zero |
| DependencyGraph.Graph.Add | xtask/no_c.py:80-83 | exactly one edge more, in both directions, and both ends are nodes |
| DependencyGraph.NameOf | xtask/no_c.py:121-122 | the text up to the first space, all of it if there is none |
| DependencyGraph.AnyKindLeadsOn | xtask/no_c.py:94-98 | a child is whatever an edge of any kind leads to |
| DependencyGraph.Graph.PathTo | xtask/no_c.py:88-105 | the names along a path that really leads from the root to the node and is no longer than any other; for an unreachable node its own name |
| DependencyGraph.Graph.Search | xtask/no_c.py:90-99 | the search ends with a tree of real links in which the node has its least distance, or the node is unreachable, on cyclic graphs too |
| DependencyGraph.Graph.Walk | xtask/no_c.py:100-105 | walking the links back gives a path as long as the recorded distance |
| DependencyGraph.SearchFollows | xtask/no_c.py:90-99 | any path from the root has been followed to its end in time, or one of its nodes still waits |
| DependencyGraph.FrontIsShortest | xtask/no_c.py:90-99 | the distance of the front of the queue is the least over all paths |
| DependencyGraph.Graph.Reaches | xtask/no_c.py:107-118 | true if and only if some path leads to a node of that name |
| StripComments.LexIsValid | xtask/secret_debug.py:88-115 | the tokens spell the text, and comments are those of Rust: to the end of the line, or nested blocks closed exactly or never |
| StripComments.LexIsUnique | xtask/secret_debug.py:88-115 | there is no other such reading of a text |
| StripComments.Strip | xtask/secret_debug.py:88-115 | the scan blanks exactly the comment tokens |
| StripComments.CodeIsKept | xtask/secret_debug.py:113-114 | text without a slash stays |
| StripComments.LineCommentIsBlanked | xtask/secret_debug.py:93-96 | two slashes blank their line up to its end and no more |
| StripComments.BlockCommentIsBlanked | xtask/secret_debug.py:97-112 | slash and star blank everything up to star and slash, newlines kept, and no more |
| StripComments.NestedCommentIsBlanked | xtask/secret_debug.py:103-109 | a block inside a block does not end it |
| StripComments.OpenCommentIsBlanked | xtask/secret_debug.py:97-112 | a block that is not closed is blanked to the end |
| StripComments.BlankLine | xtask/secret_debug.py:93-96 | a line comment is blanked up to its newline and nothing else is touched |
| StripComments.BlankBlock | xtask/secret_debug.py:97-112 | a nested block comment is blanked up to its own end, newlines kept, and nothing else is touched |
| StripComments.StrippedPointwise | xtask/secret_debug.py:88-115 | length and newlines are kept; every other character is kept or becomes a blank |
| StripComments.StrippedHasNoOpener | xtask/secret_debug.py:88-115 | no comment opener is left |
| StripComments.NothingToStrip | xtask/secret_debug.py:88-115 | a text without openers is unchanged |
| StripComments.StrippingIsIdempotent | xtask/secret_debug.py:88-115 | stripping twice is stripping once |

## Left out

- SnapshotsWellFormed: needs distinct names; `WellFormedIsExact` has the exact condition.
- TimerIsPaced: bounds a pair of firings from below and is not an equivalence; `PacedFromIff` has the exact condition at a firing.
- RunChain: a chain inside a chain is not modelled; the private maps are promised for chains with distinct tags that leave the context in place.
- WaiterReturns: counts the waiter's own steps; that a scheduler runs it is not modelled, and likewise for `PermitWakes`.
- WaiterIsNotForgotten: speaks of a live handle; once it is dropped, nobody awaits an answer.
- run_writer, refresh_attempt and wait_for suspend in the middle, so they are events of a state machine and not methods with loops.
- Closing the handle may happen at any moment of a run; the borrows that rule some of these moments out are not modelled.
- Relaxed atomics and `ArcSwap` loads are taken as sequentially consistent; tearing of the several counters of one metrics snapshot is not modelled.
- Generations, reset epochs, barrier generations and counters are unbounded integers; their 64-bit wrap-around is not modelled.
- A merge reads each clock once; touching a topic through an old snapshot that shares its stamps is the same as touching the current one.
- A broker is an ID, an address and a rack; a response's host and port are one address.
- The waiters of a batch are a set: in which order they are told is not modelled.
- The immediate answer from the cache is part of `Inner.Request` and not an event of the protocol.
- Backoff delays are real numbers: rounding, infinities and `NaN` in `calculate_backoff` are not modelled. The trigger's jitter is any number up to a fifth of it.
- Connection racing and candidate order, `get_leader_connection`, `ensure_partition_count`, closing of pools.
- The recorder machine follows one counter at a time; `snapshot` with its sorting and `ProducerMetrics::add` would add only sums of fields.
- HTTP status lines, headers, the `Content-Length` branch, timeouts and zeroization; `Vec::with_capacity` is taken to reserve exactly what it is asked for.
- Stored values and their types are numbers in the record context; downcasts are exact by type.
- Reading manifests, the advisory database and requirement strings: comparators come parsed, with the further version texts found in them.
- Parsing `cargo tree` output and joining a path's names with arrows; children are visited in any order, where the script sorts them.
- UUIDs, CRC32C, error-code tables beyond `is_retriable`, and everything outside these files.
