# KubeLens: a verified model of the log pipeline

KubeLens shows pod logs in a browser. Its backend opens one shared stream per pod and container,
elects one replica per stream to read from Kubernetes, passes lines to the other replicas through a
Redis stream, and fans them out to bounded subscriber channels. App streams merge the pod streams of
one application and report pod life-cycle markers. The frontend cuts the server-sent-event text back
into events and renders it.

This project models that pipeline, together with the rate limiter, the redirect guard, the retry
helper, the metrics cache and the environment extraction. It proves what they keep over every input
and every run. `dafny verify dfyconfig.toml` checks all files.

## How the model is built

- Goroutines that interleave are state machines. `Apply` is one step and `Exec` a run from the
  initial state. An event that is not possible in a state leaves it alone or has no successor.
- Objects that the source updates in place are classes: `RoleMachine.LogStream`, `LogBuffer.Buffer`,
  `Fanout.Stream`, `Reconcile.AppStream`, `Markers.Emitter`, `TokenBucket.Limiter`,
  `RedirectGuard.Guard`. Their methods are proved against the functions the lemmas are about.
- Loops that compute a value are methods with loop invariants.
- Redis is one expiring key (`Lease`) and an append-only stream in id order that is trimmed at the
  front (`Follower`). Kubernetes, clocks, random numbers, JSON parsing, SHA-256 and letter-case
  comparison are parameters.

| file | contents |
|---|---|
| `Lease.dfy`, `LeaseProgress.dfy`, `RoleMachine.dfy` | leader election among replicas; the goroutine that switches sources |
| `LogBuffer.dfy`, `Fanout.dfy`, `HandOver.dfy` | the bounded buffer, the subscriber channels, replay plus live channel |
| `Follower.dfy` | a replica that follows the Redis stream |
| `PodHash.dfy`, `Reconcile.dfy`, `Markers.dfy`, `MarkerStream.dfy`, `Merge.dfy` | app streams |
| `Sse.dfy`, `SseExactness.dfy`, `SseStandard.dfy`, `Ansi.dfy` | the event stream as printed and read here, and against section 9.2.6 of the WHATWG HTML Living Standard; terminal colours |
| `TokenBucket.dfy`, `RedirectGuard.dfy`, `RedirectStorage.dfy`, `Retry.dfy` | bounds over runs of calls |
| `MetricsCache.dfy`, `EnvMask.dfy` | the metrics cache under shared flights; masking of secrets |
| `Wrappers.dfy`, `Subsequences.dfy`, `Decimal.dfy`, `Text.dfy`, `NameOrder.dfy` | shared helpers |

## Where the code falls short of the expected property

The members named here show the failing case, or state exactly when the property holds.

- Leader election. A lease of 1 s or 2 s is refreshed every 2 s, so it can run out under its leader
  (`LateRefreshBreaks`, `PromptSafety`). The lock value is the replica's id and not the stream
  object's. A stream object that stops can therefore delete the lock of its successor in the same
  replica (`SharedOwnerBreaks`). `LeaderSafety` gives the exact condition.
- Empty log lines. The leader's subscribers get them. Followers refuse them (`LeaderToFollower`).
- A follower that polls too late loses what was trimmed. `FollowerExactlyOnce` says exactly when.
- The wire. An event survives exactly when its fields are clean and its data is JSON
  (`FaithfulIffClean`).
- The redirect guard permits three attempts per window, and five within one window length
  (`FiveIsReached`). Refused writes to session storage break both bounds.
  `ThreePerWindowIffWritable` and `FivePerIntervalIffWritable` say exactly which refusals do.
- A retry base of 1 ns makes the random draw panic at the first throttled call (`RetryK8s`).
- The fingerprint of a pod list does not see where a name with a zero byte ends (`NulCollision`).
  `HashIdentifiesPieces` says exactly which lists it confuses. Kubernetes names have no zero bytes.
- The metrics lookup gives neither data nor an error exactly when the cached entry has no items
  (`NilMeansNoItems`). Its last statement, which does the same, is unreachable.

## Model

| member | source | states |
|---|---|---|
| `Lease.LeaderSafety` | backend/internal/api/log_stream_hub.go:385-436 | for every positive TTL, every delay bound and every assignment of stream objects to two or more replicas: in all timed runs, with lost commands and lost answers, every reader holds the unexpired lock and there is never a second reader, if and only if refresh interval + 2 × delay < TTL and a replica restarts a stream object only after the old one is gone (or runs just one) |
| `Lease.PromptSafety` | backend/internal/api/log_stream_hub.go:427-436 | with on-time ticks and serial restarts a configured number of seconds is safe if and only if it is not 1 or 2 |
| `Lease.LockLostOnlyByOwner` | backend/internal/api/log_stream_hub.go:781-811 | a step after which a replica no longer holds its lock is the passing of the expiry time or that replica's own release |
| `Lease.RunsKeepInv` | backend/internal/api/log_stream_hub.go:385-425 | every run of a sound configuration keeps every claim on the lock covered by the unexpired lock until the claim ends |
| `Lease.StepKeepsInv` | backend/internal/api/log_stream_hub.go:385-425 | each single step of a sound configuration keeps that |
| `Lease.OthersStayCovered` | backend/internal/api/log_stream_hub.go:781-811 | no step of one stream object touches a lock another one relies on |
| `Lease.ActorStaysCovered` | backend/internal/api/log_stream_hub.go:385-425 | a stream object's own step leaves what it relies on afterwards covered |
| `Lease.ReliantHolds` | backend/internal/api/log_stream_hub.go:781-803 | a stream object that relies on the lock holds it now |
| `Lease.InvImpliesGood` | backend/internal/api/log_stream_hub.go:385-425 | the invariant gives: every reader holds the lock and any two readers are the same stream object |
| `Lease.LateRefreshBreaks` | backend/internal/api/log_stream_hub.go:427-436 | a run with two readers whenever refresh interval + 2 × delay reaches the TTL |
| `Lease.SharedOwnerBreaks` | backend/internal/api/log_stream_hub.go:805-811 | a run with two readers whenever a replica can have two stream objects at once: the one that stops deletes the lock of the other |
| `Lease.LockRefreshInterval` | backend/internal/api/log_stream_hub.go:427-436 | two refreshes fit into a lease of at least 4 s, and shorter leases are refreshed every 2 s |
| `LeaseProgress.FailoverBound` | backend/internal/api/log_stream_hub.go:400-425 | from every reachable state: while one follower lives whose commands get through, somebody holds the lock within one refresh interval and the delay |
| `LeaseProgress.FreeLockElects` | backend/internal/api/log_stream_hub.go:416-421 | from every reachable state with a free lock, a tick of any waiting follower makes it the reader with a full lease, and leaves the others alone |
| `LeaseProgress.FollowerTick` | backend/internal/api/log_stream_hub.go:416-421 | a follower takes the lock if and only if it is free and the command gets through, and leads if and only if it also gets the answer; otherwise the lock is as before |
| `LeaseProgress.LeaderTick` | backend/internal/api/log_stream_hub.go:410-415 | a leader renews the lease to now + TTL if and only if its replica still holds it and the command gets through, and goes on reading if and only if it also gets the answer |
| `LeaseProgress.BootTakesFreeLock` | backend/internal/api/log_stream_hub.go:393-399 | the same at start-up, with the first tick one interval later |
| `LeaseProgress.ReleaseFrees` | backend/internal/api/log_stream_hub.go:805-811 | a stream object that stops frees the lock if and only if its replica holds it and the command gets through |
| `RoleMachine.LogStream.Run` | backend/internal/api/log_stream_hub.go:385-425 | the goroutine performs exactly the action sequence of the lock answers; at every loop head exactly the source the role asks for runs; at the end none runs |
| `RoleMachine.LogStream.Boot` | backend/internal/api/log_stream_hub.go:393-398 | the first answer decides the role and starts the one source of that role |
| `RoleMachine.LogStream.HandleTick` | backend/internal/api/log_stream_hub.go:409-422 | after a tick the role is the answer and only its source runs; a change stops the old source before the new one starts, no change does nothing |
| `RoleMachine.LogStream.Finish` | backend/internal/api/log_stream_hub.go:404-408 | on cancellation the running source stops, then the lock is given back |
| `RoleMachine.LogStream.StartK8s` | backend/internal/api/log_stream_hub.go:438-445 | starts the reader once |
| `RoleMachine.LogStream.StopK8s` | backend/internal/api/log_stream_hub.go:447-452 | stops the reader if it runs |
| `RoleMachine.LogStream.StartRedisConsumer` | backend/internal/api/log_stream_hub.go:454-461 | starts the consumer once, only with Redis enabled |
| `RoleMachine.LogStream.StopRedisConsumer` | backend/internal/api/log_stream_hub.go:463-468 | stops the consumer if it runs |
| `RoleMachine.OneSourceAtEveryHead` | backend/internal/api/log_stream_hub.go:393-425 | after any answers exactly one source runs, the Kubernetes reader exactly for a leader |
| `RoleMachine.RunObeys` | backend/internal/api/log_stream_hub.go:385-425 | for every answer sequence no source is started while another runs, none is stopped that does not run, the lock is given back only with both stopped, and the run ends with none running |
| `RoleMachine.EveryPrefixObeys` | backend/internal/api/log_stream_hub.go:385-425 | the same at every moment of a run: the rule is unbroken and never both sources run |
| `RoleMachine.SingleModeReads` | backend/internal/api/log_stream_hub.go:386-391 | without Redis the reader runs from the start to the cancellation and no lock is given back |
| `RoleMachine.HeadsAreInTrace` | backend/internal/api/log_stream_hub.go:400-425 | every loop head is a moment of the run, and the lock is given back once, at the very end |
| `LogBuffer.Buffer.Append` | backend/internal/api/log_stream_hub.go:813-827 | after any appends the buffer is the kept part of everything appended, and the byte counter is the sum of the sizes |
| `LogBuffer.KeptIsLongest` | backend/internal/api/log_stream_hub.go:813-827 | a suffix of the history meets both limits if and only if it is no longer than the kept part |
| `LogBuffer.LimitsDecide` | backend/internal/api/log_stream_hub.go:813-827 | the same with the limits written out: at most the given number of entries, and of characters of all texts plus 16 for each entry |
| `LogBuffer.BytesAreText` | backend/internal/api/log_stream_hub.go:874-876 | the size of a list of entries is the length of all their texts plus 16 for each |
| `LogBuffer.KeptIsFittingSuffix` | backend/internal/api/log_stream_hub.go:813-827 | the kept part is a suffix of the history and meets both limits |
| `LogBuffer.KeptIsIncremental` | backend/internal/api/log_stream_hub.go:813-827 | trimming after each append gives what trimming the whole history would |
| `LogBuffer.Buffer.Snapshot` | backend/internal/api/log_stream_hub.go:829-833 | line and byte counts of the longest fitting suffix |
| `LogBuffer.Buffer.Tail` | backend/internal/api/log_stream_hub.go:835-842 | the last entries of the kept part, all of it for a count that is not positive |
| `LogBuffer.LastEntriesAreNewest` | backend/internal/api/log_stream_hub.go:835-842 | the newest min(count, kept) entries of everything appended, and all kept ones for a count that is not positive |
| `LogBuffer.Buffer.SinceId` | backend/internal/api/log_stream_hub.go:844-853 | found exactly when the buffer has the id, and then the entries after it |
| `LogBuffer.AfterIdFound` | backend/internal/api/log_stream_hub.go:844-853 | the entries after the first occurrence of the id, all of them |
| `LogBuffer.AfterIdIffPresent` | backend/internal/api/log_stream_hub.go:844-853 | nothing is found if and only if no entry has the id |
| `LogBuffer.Buffer.SinceTime` | backend/internal/api/log_stream_hub.go:855-872 | the entries whose timestamp parses to an instant not before the given one, in order |
| `LogBuffer.NotBeforeConcat` | backend/internal/api/log_stream_hub.go:855-872 | two parts of a buffer contribute one after the other |
| `LogBuffer.NotBeforeOne` | backend/internal/api/log_stream_hub.go:855-872 | one entry contributes itself if and only if it has a timestamp that parses to an instant at or after the given one |
| `LogBuffer.NotBeforeIsSub` | backend/internal/api/log_stream_hub.go:855-872 | the result is an in-order part of the buffer |
| `Fanout.RunsAreSafe` | backend/internal/api/log_stream_hub.go:316-354 | in every run of subscribe, repeated unsubscribe, broadcast, receive and shutdown, whatever the ids: no panic, queues within capacity, each channel in use by one id, received + queued an in-order part of offered and the rest counted as dropped |
| `Fanout.ChannelHistory` | backend/internal/api/log_stream_hub.go:769-779 | in every run a channel was offered exactly the items broadcast while it was registered; those that found room were received or are queued, in order; its drop count is the number of those that found the queue at capacity |
| `Fanout.BroadcastReaches` | backend/internal/api/log_stream_hub.go:769-779 | a broadcast appends the item to the queue of every registered channel with room, counts one drop for every registered channel without, and leaves the others alone |
| `Fanout.SubscribeOpens` | backend/internal/api/log_stream_hub.go:316-345 | a new subscriber gets an empty open channel of its own and no other channel changes |
| `Fanout.LeavingCloses` | backend/internal/api/app_stream_pool.go:209-220 | unsubscribing closes the channel of the id and no other, shutting down every registered one; queues stay |
| `Fanout.ReceiveTakesOldest` | frontend/components/LogView.tsx:741-798 | a receive takes the oldest queued item of one channel |
| `Fanout.StepKeepsInv` | backend/internal/api/app_stream_pool.go:383-393 | each single step keeps that |
| `Fanout.NoDropMeansEverything` | backend/internal/api/log_stream_hub.go:769-779 | the drop count is zero if and only if received + queued is exactly what was offered |
| `Fanout.ClosedIsFinal` | backend/internal/api/app_stream_pool.go:149-163 | a closed channel stays closed and is offered nothing more |
| `Fanout.Stream.Subscribe` | backend/internal/api/log_stream_hub.go:316-345 | registers a new empty channel under the id |
| `Fanout.Stream.Unsubscribe` | backend/internal/api/log_stream_hub.go:347-354 | removes and closes the channel if the id is registered, else nothing |
| `Fanout.Stream.Broadcast` | backend/internal/api/log_stream_hub.go:769-779 | offers the entry once to every registered channel, in whatever order the map is visited, counting a drop where the queue is full |
| `Fanout.Stream.Shutdown` | backend/internal/api/app_stream_pool.go:209-220 | closes every registered channel once and empties the registry |
| `HandOver.RunsKeepInv` | backend/internal/api/log_stream_hub.go:524-539 | in every interleaving of append, broadcast, register and replay each channel was offered one contiguous stretch of the history |
| `HandOver.HandOverIsGapFree` | backend/internal/api/log_stream_hub.go:316-345 | replay and channel together are the history from the resume place on, without a gap; what they share is exactly the stretch appended before the copy and broadcast after registration, the end of the one and the start of the other, and nothing else |
| `HandOver.EveryEntryArrives` | backend/internal/api/log_stream_hub.go:316-345 | entry by entry: an entry is in the replay if and only if it lies between the resume place and the copy, and was offered if and only if it lies between registration and what the channel has reached; every entry from the place on is in one of them |
| `HandOver.KnownIdHasPlace` | backend/internal/api/log_stream_hub.go:844-853 | a resume id found in the buffer resumes right after its entry |
| `HandOver.TailHasPlace` | backend/internal/api/log_stream_hub.go:661-697 | a request without a resume point, or with an id and a time that lead to no buffered entry, resumes at the start of its tail |
| `HandOver.TimeResumeMissesNothing` | backend/internal/api/log_stream_hub.go:661-697 | resuming by time: the replay is an in-order part of the history without repetitions; an entry is in it if and only if it was still buffered at the copy and is not older than the time; every such entry up to what the channel has reached is in the replay or was offered |
| `HandOver.ReplayIsTheRecent` | backend/internal/api/log_stream_hub.go:855-872 | a replay by time has exactly the buffered entries that are not older |
| `HandOver.RegisteredIsUpToDate` | backend/internal/api/log_stream_hub.go:769-779 | a registered channel was offered everything broadcast since its registration |
| `HandOver.DrainedClientMissesNothing` | backend/internal/api/log_stream_hub.go:524-539 | a drained client without drops has seen all of the history after its place, repeating only the overlap |
| `HandOver.NothingIsReplayed` | backend/internal/api/log_stream_hub.go:661-697 | a request that leads nowhere and asks for no tail gets no replay |
| `HandOver.HistoryIsIngested` | backend/internal/api/log_stream_hub.go:524-539 | in every run the history is the ingested lines, in order, with their texts, numbered from one |
| `HandOver.SubscribingTakesPlace` | backend/internal/api/log_stream_hub.go:316-345 | registration is at what was broadcast so far, and the copy is of the buffer at that moment |
| `HandOver.DropsAreOverflows` | backend/internal/api/log_stream_hub.go:769-779 | in every run a channel drops an entry exactly when it is broadcast while the channel is registered and full |
| `Sse.WriteEvent` | backend/internal/api/logs.go:640-656 | appends exactly the printed form of the event to the output |
| `Sse.ParseSseEvent` | frontend/components/LogView.tsx:179-256 | the message of a raw event: last id and event line, joined data lines, nothing without data or with data that is not JSON |
| `Sse.Drain` | frontend/components/LogView.tsx:741-798 | splits off and parses every complete event and leaves the incomplete rest |
| `Sse.ReadLoop` | frontend/components/LogView.tsx:741-798 | the loop reads chunk by chunk: what the buffer held is continued by the next chunk, and only complete events are split off |
| `Sse.ChunksDoNotMatter` | frontend/components/LogView.tsx:741-798 | chunk by chunk gives the messages and the rest of the whole text at once, for every cutting |
| `Sse.ReadIsIncremental` | frontend/components/LogView.tsx:741-798 | more text never changes the messages already read |
| `Sse.RoundTrip` | backend/internal/api/logs.go:640-656 | any list of clean events, printed, cut into any chunks and read one chunk after the other, comes back in order, id, name and data, with an empty buffer; an event without a name comes back as "message" |
| `Sse.PartialRead` | frontend/components/LogView.tsx:741-798 | at any moment on the way the messages read so far are the beginning of that list |
| `Sse.LastIdWins` | frontend/components/LogView.tsx:179-194 | the last id line decides, trimmed |
| `Sse.LastEventWins` | frontend/components/LogView.tsx:179-194 | the last event line decides, trimmed |
| `Sse.DefaultFields` | frontend/components/LogView.tsx:179-194 | without such lines there is no id and the event is a log line |
| `SseStandard.PrintedIsStandard` | backend/internal/api/logs.go:640-656 | by the rules of section 9.2.6 of the WHATWG HTML Living Standard, the lines of a printed event dispatch exactly that event, whatever its fields, as long as none has a line break and the id no zero byte |
| `Sse.ReadPrinted` | frontend/components/LogView.tsx:179-194 | reading the printed list gives each event with its id, name and data, in order; one without a name is read as "message" |
| `SseExactness.FaithfulIffClean` | frontend/components/LogView.tsx:179-194 | whatever the client takes for JSON, an event comes back with its own id, name ("message" without one) and data if and only if its id and name have no newline and no space at either end, its data has no newline and no space in front, and its data is JSON |
| `SseExactness.FaithfulHead` | frontend/components/LogView.tsx:179-194 | an event that comes back has a clean id and name and data that is JSON |
| `SseExactness.FaithfulData` | frontend/components/LogView.tsx:179-194 | an event that comes back has clean data: if the client refuses the first raw event, what is left is too short to give the data back |
| `PodHash.HashStrings` | backend/internal/api/logs.go:589-602 | the loop feeds the hash with the sorted names, each ended by a zero byte |
| `PodHash.HashIdentifiesNames` | backend/internal/api/logs.go:589-602 | with an injective digest, names without zero bytes have one fingerprint if and only if they are the same names equally often, in whatever order |
| `PodHash.EncodeIsInjective` | backend/internal/api/logs.go:589-602 | the zero-terminated encoding determines the list |
| `PodHash.HashIdentifiesPieces` | backend/internal/api/logs.go:589-602 | for any names at all: the fingerprints agree if and only if the sorted lists agree once every name is cut at its zero bytes |
| `PodHash.NulCollision` | backend/internal/api/logs.go:589-602 | two different lists that agree in this sense |
| `NameOrder.SortSorts` | backend/internal/api/logs.go:589-602 | the sort gives the same names, sorted |
| `NameOrder.SortedIsUnique` | backend/internal/api/logs.go:589-602 | two sorted lists of the same names are equal, so the fingerprint does not depend on the sort |
| `NameOrder.LeqIsDictionary` | backend/internal/api/logs.go:589-602 | the order is that of a dictionary: the first character that differs decides |
| `Reconcile.ActiveIsDesired` | backend/internal/api/app_stream_pool.go:222-258 | in every run the active pods between reconciles are those of the last list used without those whose consumers ended since, both read off the events |
| `Reconcile.SkipIff` | backend/internal/api/app_stream_pool.go:239-258 | a reconcile skips the synchronisation if and only if it is not the first, lists the same pods equally often, and no consumer of any of them ended since the last |
| `Reconcile.ShortcutRefinesFullSync` | backend/internal/api/app_stream_pool.go:239-258 | from every reachable state a reconcile with the hash-and-count shortcut ends in the state of one that always synchronises |
| `Reconcile.SkipIsNoOp` | backend/internal/api/app_stream_pool.go:239-258 | whenever the shortcut is taken the active pods are already the desired ones |
| `Reconcile.RunsKeepInv` | backend/internal/api/app_stream_pool.go:222-279 | in every run the remembered fingerprint is that of the last list, and between reconciles the active pods are that list without the consumers that ended since |
| `Reconcile.AppStream.SyncPodStreams` | backend/internal/api/app_stream_pool.go:260-279 | the active pods become the desired ones; exactly the surplus is cancelled and exactly the missing are started |
| `Reconcile.AppStream.MarkPodInactive` | backend/internal/api/app_stream_pool.go:319-323 | removes the one pod |
| `Reconcile.AppStream.ComparePods` | backend/internal/api/app_stream_pool.go:239-252 | remembers the new fingerprint and decides whether to synchronise |
| `Reconcile.AppStream.ReconcilePods` | backend/internal/api/app_stream_pool.go:222-258 | one reconcile during which any consumers end between comparing and synchronising: afterwards the active pods are the listed ones if it synchronised, else the listed ones without those that ended |
| `Reconcile.ReconciledActive` | backend/internal/api/app_stream_pool.go:222-258 | the same on the state, which keeps the invariant |
| `Markers.Emitter.EmitPodMarkers` | backend/internal/api/app_stream_pool.go:325-364 | for any visiting order of the two maps: the remembered states become the new ones, and the markers per pod are exactly those of its own change |
| `Markers.Emitter.DropGone` | backend/internal/api/app_stream_pool.go:329-334 | the first loop removes exactly the pods no longer desired and reports each once |
| `Markers.Compare` | backend/internal/api/app_stream_pool.go:336-363 | one pod: added when new, restart when the count goes up, readiness when it changes |
| `Markers.TraceIsEventLog` | backend/internal/api/app_stream_pool.go:325-364 | over every run, with or without the initial reconcile, per pod: added and removed alternate, ready and not-ready alternate in between, each restart marker goes up from where the last one ended, and the trace agrees with what the server remembers |
| `Markers.TraceIsExact` | backend/internal/api/app_stream_pool.go:325-364 | a reader that knows a pod's state reconstructs it exactly from the trace as long as the pod stays |
| `Markers.RememberedIsObserved` | backend/internal/api/app_stream_pool.go:325-364 | after a reconcile exactly the listed pods are known, each with its latest readiness and the highest restart count since it was last unknown |
| `Markers.ListedOnce` | frontend/components/LogView.tsx:773-779 | the list of removed pods has no repetitions |
| `Markers.RemovedIsKnownMinusNow` | frontend/components/LogView.tsx:773-779 | a client that sees every marker lists a pod as removed if and only if it was known at some moment since subscribing and is not known now |
| `MarkerStream.RunsKeepInv` | backend/internal/api/app_stream_pool.go:178-207 | in every run of reconciles, failed ones, other events and subscribers coming and going, each channel was offered exactly the markers of the reconciles it was registered for |
| `MarkerStream.DrainedClientListsRemoved` | backend/internal/api/app_stream_pool.go:425-439 | in every run, a registered client whose channel dropped nothing and was drained lists a pod as removed if and only if it was known at some moment since it subscribed and is not known now |
| `MarkerStream.DropsAreOverflows` | backend/internal/api/app_stream_pool.go:383-393 | in every run a channel drops an event exactly when it is sent while the channel is registered and full |
| `Merge.MergeKeepsSourceOrder` | backend/internal/api/app_stream_pool.go:281-311 | in every run what a subscriber gets from one consumer is an in-order part of what that consumer emitted, which is its replay followed by what it received from the pod stream, whatever the shared queue or the subscriber queue drops |
| `Merge.RunsKeepInv` | backend/internal/api/app_stream_pool.go:190-206 | every run keeps the order between emitted, queued, forwarded and offered items |
| `Merge.OrderInState` | backend/internal/api/app_stream_pool.go:383-393 | received and queued entries of one consumer are an in-order part of its output |
| `Merge.EndToEndOrder` | backend/internal/api/app_stream_pool.go:281-311 | in every run, over all three bounded queues: what a subscriber received from one consumer is an in-order part of the replay followed by what the pod stream offered the consumer |
| `Merge.AdmittedIsForwarded` | backend/internal/api/app_stream_pool.go:281-311 | in every run, what was emitted while the shared queue had room was forwarded or is queued, all of it and in order |
| `Merge.OutIsEmitted` | backend/internal/api/app_stream_pool.go:281-311 | what a consumer put out is exactly what was emitted on its behalf |
| `Merge.PodChannelStep` | backend/internal/api/app_stream_pool.go:298-310 | the pod stream fills the consumer's channel while it has room, and the consumer takes the oldest entry out when it emits it |
| `Merge.FanIsRun` | backend/internal/api/app_stream_pool.go:190-206 | the subscriber channels see the forwarded items and announcements, and nothing else, as broadcasts |
| `Merge.DropsAreOverflows` | backend/internal/api/app_stream_pool.go:383-393 | a subscriber channel drops an item exactly when it is forwarded while the channel is registered and full |
| `Follower.ConsumeRedis` | backend/internal/api/log_stream_hub.go:541-587 | buffer = prefill + broadcasts, and together they are the deliveries of the session described by the lemmas below |
| `Follower.FetchTail` | backend/internal/api/log_stream_hub.go:607-628 | the prefill is the parseable part of the newest messages, as many as asked for and there, and the cursor the last id; nothing if the command failed, nothing was asked for or nothing is there |
| `Follower.Poll` | backend/internal/api/log_stream_hub.go:561-585 | one read delivers exactly the parseable messages not yet reached, although the cursor stays behind unparseable ones |
| `Follower.Handle` | backend/internal/api/log_stream_hub.go:574-585 | passes on the parseable messages in order and moves the cursor to the last of them |
| `Follower.FollowerExactlyOnce` | backend/internal/api/log_stream_hub.go:541-587 | a session delivers in order and at most once from one contiguous stretch of the stream, and the whole stretch if and only if no poll came after a parseable message ahead of the cursor was trimmed |
| `Follower.SessionIsStretch` | backend/internal/api/log_stream_hub.go:541-587 | the same from any start |
| `Follower.PollExtends` | backend/internal/api/log_stream_hub.go:561-585 | a poll extends the stretch, and keeps it whole if and only if it lost nothing |
| `Follower.PrefillIsNewest` | backend/internal/api/log_stream_hub.go:607-628 | the prefill reaches to the end of the stream and takes at most the count asked for, fewer only if no more are there |
| `Follower.PrefillIsExact` | backend/internal/api/log_stream_hub.go:607-628 | it delivers all of that stretch that can be parsed |
| `Follower.ReReadIsHarmless` | backend/internal/api/log_stream_hub.go:576-580 | reading unparseable messages again delivers nothing twice and skips nothing |
| `Follower.XReadResult` | backend/internal/api/log_stream_hub.go:561-565 | what is beyond the cursor is the stream from there or from the trim point on |
| `Follower.LeaderToFollower` | backend/internal/api/log_stream_hub.go:878-904 | an entry written by the leader comes back unchanged under its Redis id if and only if its message is not empty, and is refused if and only if it is empty |
| `Follower.AnyMessage` | backend/internal/api/log_stream_hub.go:878-904 | any message is refused if and only if it has no text; its number is the decimal one it carries, and what it does not say about its origin is that of the stream |
| `Follower.CursorIsLastParsed` | backend/internal/api/log_stream_hub.go:576-580 | the cursor is the id of the last message that could be parsed |
| `Follower.FollowersShowLeaderLines` | backend/internal/api/log_stream_hub.go:524-605 | end to end: when the stream holds what the leader ingested, a session without loss delivers the leader's lines of one stretch, in order, without the empty ones, under their Redis ids |
| `Decimal.ParseRendered` | backend/internal/api/log_stream_hub.go:878-904 | a number printed in decimal is parsed back exactly when it is below the limit |
| `TokenBucket.WindowBound` | backend/internal/api/log_rate_limiter.go:61-93 | for all nondecreasing call times, the calls allowed in any stretch of time are at most burst + rate × its length |
| `TokenBucket.RefusedIffWindowFull` | backend/internal/api/log_rate_limiter.go:61-93 | a call is refused if and only if allowing it would break that bound for some window that starts with a call so far |
| `TokenBucket.TokensBounded` | backend/internal/api/log_rate_limiter.go:61-93 | tokens stay between 0 and the burst, and the bucket remembers the last call |
| `TokenBucket.LevelWithinRoom` | backend/internal/api/log_rate_limiter.go:61-93 | the level before a call is at most what any window permits |
| `TokenBucket.LevelIsSomeRoom` | backend/internal/api/log_rate_limiter.go:61-93 | and equals what some window permits |
| `TokenBucket.SpacedCallsAllowed` | backend/internal/api/log_rate_limiter.go:61-93 | a call at least 1/rate after the previous one is allowed |
| `TokenBucket.PerMinuteUsable` | backend/internal/api/log_rate_limiter.go:26-59 | a configured limit limits if and only if its rate is positive, and then its bucket holds at least one token |
| `TokenBucket.OverridesUsable` | backend/internal/api/log_rate_limiter.go:26-55 | every namespace override kept is usable and limiting |
| `TokenBucket.Limiter.constructor` | backend/internal/api/log_rate_limiter.go:26-55 | default and overrides are as configured and usable, no bucket exists |
| `TokenBucket.ConfiguredLimit` | backend/internal/api/log_rate_limiter.go:95-105 | the last override entry with a positive rate for a namespace decides its limit, and the default without one: so many requests a minute, and a bucket of the burst or else of a minute |
| `TokenBucket.Limiter.Allow` | backend/internal/api/log_rate_limiter.go:61-93 | a rate that is not positive allows everything and touches nothing; else exactly the one bucket takes one step of the rule |
| `TokenBucket.AllowAll` | backend/internal/api/log_rate_limiter.go:61-93 | any interleaving of requests of any subjects for any namespaces, from a new limiter on: each is answered as its place in the run of its own subject and namespace says |
| `TokenBucket.ClientWindowBound` | backend/internal/api/logs.go:530-545 | whatever the other clients do, the requests of one subject for one namespace allowed in any stretch of time are at most burst + rate × its length |
| `TokenBucket.SharedBucketIff` | backend/internal/api/logs.go:530-545 | two requests share a bucket if and only if subject and namespace agree, whatever the subjects contain |
| `RedirectGuard.Guard.ConsumeRedirectAttempt` | frontend/components/AuthGuard.tsx:180-209 | permits by the next tracker and stores it when storage accepts it |
| `RedirectGuard.Guard.Reset` | frontend/components/AuthGuard.tsx:176-178 | forgets the tracker |
| `RedirectGuard.WindowPermitsThree` | frontend/components/AuthGuard.tsx:180-209 | in every window exactly the first three attempts are permitted |
| `RedirectGuard.IntervalPermitsFive` | frontend/components/AuthGuard.tsx:180-209 | any closed interval of the window length has at most five permitted attempts |
| `RedirectGuard.FiveIsReached` | frontend/components/AuthGuard.tsx:42-43 | a sequence of attempts that reaches five |
| `RedirectGuard.WritableRun` | frontend/components/AuthGuard.tsx:180-209 | with working storage the stored tracker is that of the run above |
| `RedirectGuard.PermittedIffRoom` | frontend/components/AuthGuard.tsx:180-209 | whatever writes storage refuses, an attempt is permitted if and only if it finds no window, or one that is over, or fewer than three accepted writes since the one that opened it |
| `RedirectGuard.WindowBoundIff` | frontend/components/AuthGuard.tsx:180-209 | a window permits at most three attempts if and only if it has no more than three or the writes of its first three were accepted |
| `RedirectGuard.ThreePerWindowIffWritable` | frontend/components/AuthGuard.tsx:180-209 | no times at all break the bound of three per window if and only if there are at most three attempts or every write but the last is accepted |
| `RedirectStorage.FivePerIntervalIffWritable` | frontend/components/AuthGuard.tsx:180-209 | no times at all break the bound of five per interval if and only if, of any five writes in a row before the last, none is refused after an accepted one and at most two otherwise |
| `RedirectGuard.UnwritableRunIsUnbounded` | frontend/components/AuthGuard.tsx:180-209 | before the first accepted write every attempt is permitted |
| `Retry.RetryK8s` | backend/internal/api/resource_cache.go:402-431 | at most count calls, every call before the last one throttled and not cancelled, the result that of the last call, success if and only if that call succeeded, each throttled call counted once, the time waited exactly that of the waits in full and of the cancelled one, below the budget; with a base of 1 ns a throttled call ends in a panic |
| `Retry.WaitsDouble` | backend/internal/api/resource_cache.go:417-421 | unless 64 bits overflow, n waits take at least base × (2^n − 1) |
| `Retry.WaitBounded` | backend/internal/api/resource_cache.go:417-421 | one wait is base × 2^attempt + jitter, and overflow only ever shortens it |
| `Retry.BudgetClosed` | backend/internal/api/resource_cache.go:402-431 | the budget for n calls is base × (2^n − 1) + n × (base / 2) |
| `Retry.SpentWithinBudget` | backend/internal/api/resource_cache.go:402-431 | the longest possible waits stay below the budget |
| `MetricsCache.AnswersAreCoherent` | backend/internal/api/resources.go:2362-2403 | in every interleaving of callers, shared flights and background refreshes, an answer maps one entry as one write stored it, not older than what the caller saw, at most one TTL old at its check or after a fetch that ended later; an error only if the caller saw no entry and its flight failed; the last return, which maps no entry and gives no error, is never taken |
| `MetricsCache.CheckAnswersAtOnce` | backend/internal/api/resources.go:2372-2375 | a caller is answered at once if and only if the cache has an entry within the TTL |
| `MetricsCache.JoinSharesFlight` | backend/internal/api/resource_cache.go:325-334 | otherwise it waits for the flight under way, or starts one if there is none |
| `MetricsCache.FetchReplaces` | backend/internal/api/resources.go:2377-2387 | a fetch that succeeds replaces the entry by what it found now; one that fails leaves it and fails the flight if and only if its starter had no entry |
| `MetricsCache.NilMeansNoItems` | backend/internal/api/resources.go:2362-2420 | in every run a caller gets nil without an error if and only if the entry it was answered with was written without items |
| `MetricsCache.RunsKeepInv` | backend/internal/api/resource_cache.go:325-334 | every run keeps the invariant of cache, flight and callers behind that |
| `MetricsCache.MapMetricsSnapshot` | backend/internal/api/resources.go:2405-2420 | nothing for no items; else the items by name, the whole seconds of age, and stale exactly from the limit on |
| `MetricsCache.LastItemWins` | backend/internal/api/resources.go:2405-2420 | a name is shown if and only if an item has it, and then the last such item |
| `EnvMask.MaskedIsIndependentOfSecrets` | backend/internal/api/resources.go:2244-2320 | without permission to show them, two clusters that differ only in the values inside secrets give the same environment and key list |
| `EnvMask.LastWriterDecides` | backend/internal/api/resources.go:2244-2320 | every key is what the last variable that writes it, else the last source that supplies it, left there, and is absent if there is none; a key is listed as secret if and only if some variable or source writes it as a secret |
| `EnvMask.SecretsAreMasked` | backend/internal/api/resources.go:2244-2320 | without permission a key whose last writer is a secret shows the mask and is listed |
| `EnvMask.SecretsAreShown` | backend/internal/api/resources.go:2244-2320 | with permission a key whose last writer is a secret that can be fetched shows its value |
| `EnvMask.LastSourceIsLast` | backend/internal/api/resources.go:2249-2286 | the last source: it supplies the key, by a Secret or else a ConfigMap that can be fetched, and no later one does; an optional ConfigMap that cannot be fetched takes the Secret of its source with it |
| `EnvMask.LastVarIsLast` | backend/internal/api/resources.go:2288-2318 | the last variable: it writes the name and no later one does |
| `EnvMask.ExtractEnv` | backend/internal/api/resources.go:2244-2320 | the loops compute the environment the lemmas are about, and the nonempty secret keys sorted, each once |
| `EnvMask.AddData` | backend/internal/api/resources.go:2258-2262 | adds every entry of a ConfigMap but the empty key, in whatever order the map is visited |
| `EnvMask.AddSecret` | backend/internal/api/resources.go:2272-2282 | adds every entry of a secret but the empty key, masked unless it may be shown, and lists its keys |
| `EnvMask.ExtractVar` | backend/internal/api/resources.go:2288-2318 | one variable: its literal value, else a secret masked unless it may be shown and can be fetched and always listed, else a ConfigMap value or the mask, else nothing |
| `EnvMask.MapKeys` | backend/internal/api/resources.go:2158-2168 | the keys without the empty one, each once, sorted, whatever the order of the map |
| `Ansi.RenderAnsiWithHighlight` | frontend/components/LogView.tsx:280-317 | for every query the rendered line shows the stripped text, every character in its style, and marks exactly the matches of the query in each span |
| `Ansi.MatchesAreOccurrences` | frontend/components/LogView.tsx:289-299 | the matches are occurrences of the query and the parts between them contain none |
| `Ansi.ParseAnsiSegments` | frontend/components/LogView.tsx:101-169 | the segments give each visible character the style that folds all codes before it, show the stripped text, and none is empty |
| `Ansi.StyledThroughEscape` | frontend/components/LogView.tsx:101-169 | text before an escape sequence keeps its style, the sequence changes the style by its codes or resets it if it has none, and stripping removes just the sequence |
| `Ansi.LastCodeDecides` | frontend/components/LogView.tsx:126-158 | for each attribute (bold, dim, italic, underline, colour, background) the last code that concerns it decides, and other codes leave it alone |
| `Ansi.CodeEffect` | frontend/components/LogView.tsx:126-158 | what one code does to each attribute |
| `Ansi.SegmentsShowStrippedText` | frontend/components/LogView.tsx:70-72 | any segments that paint like the reference show exactly the stripped text |
| `Ansi.StripKeepsPlainText` | frontend/components/LogView.tsx:70-72 | a text without escape characters is unchanged |
| `Ansi.EscapeIsMatched` | frontend/components/LogView.tsx:70-70 | the pattern matches an escape sequence as a whole, whatever follows it |
| `Ansi.MatchIsEscape` | frontend/components/LogView.tsx:70-70 | whatever it matches is an escape sequence |
| `Ansi.CodesOfJoined` | frontend/components/LogView.tsx:101-169 | codes joined by semicolons are read back |
| `Ansi.InterleaveIsText` | frontend/components/LogView.tsx:280-317 | split parts interleaved with the matches give the text back |
| `Ansi.ParseSegments` | frontend/components/LogView.tsx:101-169 | the loop for any pattern whose matches change the style: each visible character gets the style folded so far |
| `Ansi.Alternate` | frontend/components/LogView.tsx:299-310 | parts and marked matches are put in turn, none left out |
| `Ansi.RenderSegment` | frontend/components/LogView.tsx:280-317 | a segment shows its own text and marks the matches |

## Left out

- HTTP handlers, routing, configuration loading and the Kubernetes, Redis, SQL and OIDC clients: plumbing around the modelled logic.
- React rendering, saved views, URL handling and the response builders: field copying and one-step facts.
- Reconnects to Kubernetes (`consumeK8s`): it reopens with the same tail, so lines are ingested again; nothing is claimed across reconnects.
- Replay across Redis role changes and `fetchRedisSince`: a prefill appends without broadcasting and the range read takes the oldest entries; `HandOver` is single mode, `Follower` one session.
- Idle removal of streams: looking a stream up and subscribing to it are not one step, so nothing is claimed about a subscriber's stream still being in its hub or pool.
- Consumer goroutines per pod: an old consumer that ends late can remove a newer one's key; only the key set is claimed.
- Losses at the shared queue of an app stream: it drops silently; `Merge` claims order, not completeness.
- Resets of the redirect guard: every accepted token resets it, so a whole login run has no bound.
- Statistics and heartbeat events of app streams, and the restart sum over containers (32-bit): observed pod states are parameters.
- Mapping of event payloads and log levels in the client: the payload is an opaque text that is JSON or not.
- Floating-point rounding: the token bucket is over `real`. UTF-8: texts are character sequences and sizes count characters.
- Clock readings: nondecreasing parameters. Subscriber ids made from the clock: not assumed distinct in `Fanout`.
- Regular expressions other than the colour pattern: the query split takes the length of the query and a character comparison as parameters.
- Merge.RunsKeepInv: the loops of `run` and `consumePodStream` are steps of a state machine on values, because they interleave; update in place is not captured there. The same holds for `HandOver`, `MarkerStream` and `MetricsCache`.
- Fanout.Stream.Subscribe: the replay that the source returns with the channel is in `HandOver`; the idle timer is not modelled.
- RedirectGuard.IntervalPermitsFive: for storage that accepts every write; `FivePerIntervalIffWritable` has the other runs.
- Follower.LeaderToFollower: entries of the stream itself, with a timestamp and a 64-bit sequence number, as the leader writes them.
- Reconcile.ActiveIsDesired: takes the digest to be injective and pod names to have no zero byte, as the Kubernetes name rules guarantee.
- Sse.RoundTrip: the events are clean and their data is JSON; by `FaithfulIffClean` no other event survives on its own.
