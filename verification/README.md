# btcd.watch: verified model

btcd.watch is a block explorer over one btcd node: a Go service that caches what the
node says, an HTTP and WebSocket API, and a browser client. This project models the
parts of it whose correctness needs an argument and proves their properties with
Dafny 4.11. Run `dafny verify dfyconfig.toml`.

What is modelled, component by component:

* **The fee queue** (`Snapshots`, `FeeQueue`, `FeeTiers`). One mempool snapshot feeds four
  separately written computations: the sorted fee-band histogram, the weighted
  percentiles, a pending transaction's unsorted scan, and the browser's estimate from
  the bands. Each is proved against a sum over the unordered snapshot, hence independent
  of map order and unstable sorting, and then they are proved to agree with each other.
* **Caches that must not freeze or lie** (`MempoolCache`, `PeakWindow`, `BackgroundRefresh`,
  `BlockPush`, `BlockInterval`, `Locks`). Goroutines are interleaved at lock boundaries and at calls to the node, which
  may answer late, in any order, or never. Objects carry the fields and critical
  sections; whole runs are proved on their values, and every method is tied to the
  step of the run it performs.
* **The watch protocol** (`HubState`, `WsHub`, `LiveSocket`, `WatchSync`, `Notifications`).
  Browser, FIFO links and the hub's two-way index, over any number of disconnects.
* **The rate limiter** (`RateLimiter`), **rolling counters** (`Inflow`, `Arrivals`), the **LRU
  cache** (`Lru`, `LruRecency`) and **input resolution** through it (`Prevouts`).
* **Satoshi accounting** (`TxAccounting`, `AddressHistory`).

Conventions: `float64` rates are exact reals, `time.Time` is a number of nanoseconds
(`None` for the zero time where it is read), `int64` amounts are unbounded integers,
virtual sizes are not negative, and a map iteration or a tie in a sort takes any order.
Clocks never run backwards: times in a run are nondecreasing, which the code relies on.

Places where the code does less than its comments promise, each with the exact
condition: `MempoolCache.AlwaysFreshIff` (an older fetch can overwrite a newer one),
`FeeTiers.EmptyMempoolVerbatimIff` (floors are rounded even when the mempool is empty),
`AddressHistory.ApproximateIff` (set although nothing is missing when the history ends
exactly at the cap), `AddressHistory.HasMoreIff`, `WatchSync.ReplayLosesNothingIff` (more
than 32 watches), `BackgroundRefresh.NeverSupersededIff` (a stuck refresh delivers old
figures last), `BlockPush.PushShowsBlockIff` (the push made with a block repeats the old
mempool), `BlockInterval.AtMostOneBlockStaleIff` (a stalled measurement misses any number
of blocks) and `LiveSocket.CloseKeepsOneSocketIff` (a callback that subscribes inside
`onclose`). Each has a lemma at a failing input beside it. Where comment and code differ,
the model follows the code.

## Model

| member | source | states |
|---|---|---|
| Snapshots.Collect | internal/explorer/queue.go:58-65 | in whatever order the map is visited, the collected entries weigh the same as the snapshot for every set of rates and show the same rates |
| Snapshots.VBytesIs | internal/explorer/queue.go:58-65 | however the transactions are listed, the vbytes of a set of rates are the sum of the sizes of those whose rate is in it |
| Snapshots.SortByRate | internal/explorer/queue.go:66-68 | sorted by rate, a permutation of the input, ties in any order |
| FeeQueue.Walk | internal/explorer/queue.go:70-88 | over sorted entries each band gets exactly the vbytes whose rate lies in its interval, and the recorded line is the one whose vbytes complete a block |
| FeeQueue.QueueFromSnapshot | internal/explorer/queue.go:41-93 | the histogram meets a specification without sorting: band contents, total, cutoff fraction, and the next-block rate r with vbytes above r < 1,000,000 <= vbytes at or above r (the minimum rate when less than a block waits) |
| FeeQueue.NextBlockRateUnique | internal/explorer/queue.go:70-90 | there is only one rate that meets that description |
| FeeQueue.QueueUnique | internal/explorer/queue.go:63-91 | two runs over one snapshot build the same queue, whatever the map order and tie order |
| FeeQueue.FrontBandsAre | internal/explorer/queue.go:76-81 | the first n bands together hold exactly what pays at least the lower edge of the n-th |
| FeeQueue.BandsSumToTotal | internal/explorer/queue.go:76-82 | the bands add up to the total |
| FeeQueue.BandLabels | internal/explorer/queue.go:48-53 | each band begins where the next higher one ends, and a rate is counted in the band between whose labels it lies |
| FeeQueue.DerivePending | internal/explorer/tx.go:439-471 | the scan counts exactly the other transactions with a strictly higher rate and their vbytes, the rate being that of the snapshot where the transaction is in it and its own otherwise |
| FeeQueue.PendingFigures | internal/explorer/tx.go:456-468 | the vbytes ahead fill all blocks before the expected one and not that; the seconds are as many intervals in whole seconds; the fraction times the total is the vbytes ahead |
| FeeQueue.NextBlockAgrees | internal/explorer/tx.go:449-462 | a snapshotted transaction is expected in the next block exactly when it pays at least the histogram's next-block rate |
| FeeQueue.MarkerInsideCutoff | internal/explorer/tx.go:447-468 | and exactly then its marker lies inside the cutoff drawn on the queue bar |
| FeeQueue.HigherRateNeverWaitsLonger | internal/explorer/tx.go:456-468 | blocks, transactions ahead and fraction are antitone in the rate |
| FeeQueue.BandIndex | web/src/components/MempoolQueue.tsx:39-44 | the first band whose lower edge the rate reaches, else the last |
| FeeQueue.BandIndexAgrees | web/src/components/MempoolQueue.tsx:39-44 | the browser puts a rate into band i exactly when the server counts it there |
| FeeQueue.BandEtaBlocks | web/src/components/MempoolQueue.tsx:46-56 | the estimate from the vbytes of the bands in front and the encoded capacity |
| FeeQueue.BandEtaIs | web/src/components/MempoolQueue.tsx:46-56 | 1 while everything fits into a block, otherwise the block that a transaction behind all vbytes at or above the upper label of the rate's band falls into |
| FeeQueue.EncodedCapacity | internal/explorer/queue.go:91 | total times cutoff fraction is exactly one block whenever more than a block waits |
| FeeQueue.BandEtaNeverExceeds | web/src/components/MempoolQueue.tsx:49-56 | for every snapshotted transaction the browser's estimate is at least 1 and at most the server's |
| FeeTiers.Percentile | internal/explorer/fees.go:82-95 | for p <= 1 the loop returns the lowest present rate at which the share p of the vbytes sits at or below, so its fallback is never taken |
| FeeTiers.PercentileIs | internal/explorer/fees.go:82-95 | at least the share p of all vbytes pays at most the percentile, and less than that share pays at most any lower rate present |
| FeeTiers.PercentileUnique | internal/explorer/fees.go:82-95 | independent of map order and of the unstable sort |
| FeeTiers.PercentileMonotone | internal/explorer/fees.go:82-95 | monotone in p |
| FeeTiers.TierRates | internal/explorer/fees.go:64-110 | the tiers are the clamped percentiles of the snapshot, or the clamped floors when it is empty |
| FeeTiers.TiersUnique | internal/explorer/fees.go:64-110 | one snapshot has one set of tiers |
| FeeTiers.TiersOrdered | internal/explorer/fees.go:103-109 | 1 <= slow <= standard <= urgent, each at least its floor rounded to 0.1 |
| FeeTiers.ClampIsLeast | internal/explorer/fees.go:103-105 | the tiers are the least ordered values of at least 1 that are not below the rounded ones |
| FeeTiers.NearestTenth | internal/explorer/fees.go:103-105 | rounding gives the nearest tenth, away from zero on a tie |
| FeeTiers.OrderedFloorsNeedNoRepair | internal/explorer/fees.go:97-105 | with ordered floors every tier is its own rounded percentile or floor: forcing monotonicity changes nothing |
| FeeTiers.EmptyMempoolVerbatimIff | internal/explorer/fees.go:10-11 | the floors come out verbatim on an empty mempool exactly when they are multiples of 0.1, at least 1 and ordered |
| FeeTiers.FloorNotVerbatim | internal/explorer/fees.go:65-66 | a slow floor of 1.25 comes out as 1.3 |
| PeakWindow.PeakRefinesLog | internal/explorer/mempool.go:113-137 | for every log of notes with a nondecreasing clock: at most six buckets, strictly increasing, and the returned peak is the maximum noted in the current and five preceding buckets |
| PeakWindow.PeakRefinesTimes | internal/explorer/mempool.go:26-31 | in times: the peak is the maximum noted since a bucket start that lies 50 to 60 minutes back |
| MempoolCache.Mempool.NotePeakLocked | internal/explorer/mempool.go:116-137 | appends or raises the last bucket, prunes, and returns the maximum as specified |
| PeakWindow.Trim | internal/explorer/mempool.go:128-130 | drops exactly the leading buckets older than the cutoff |
| PeakWindow.Highest | internal/explorer/mempool.go:132-136 | the largest of the current depth and the kept maxima |
| MempoolCache.Mempool.BeginRefresh | internal/explorer/mempool.go:145-163 | first critical section: serve when fresh, serve stale beside an unstuck fetch, otherwise mark a fetch under the current generation |
| MempoolCache.Mempool.FailRefresh | internal/explorer/mempool.go:166-171 | an RPC error only ends the flight |
| MempoolCache.Mempool.InstallRefresh | internal/explorer/mempool.go:173-207 | installs exactly the converted valid entries, drops the memoized queue, and is clean only if nothing was marked since the fetch began |
| MempoolCache.EntriesAre | internal/explorer/mempool.go:173-193 | kept are exactly the transactions whose fee is an amount, with that fee, the virtual size or else the plain one, and a rate that times the size is the fee |
| MempoolCache.Mempool.ReadSnapshotAndQueue | internal/explorer/mempool.go:100-111 | entries and queue belong together, the queue is derived at most once per install, and its peak is at least its total |
| MempoolCache.Mempool.Invalidate | internal/explorer/mempool.go:212-218 | forgets the fetch time, dirties, advances the generation |
| MempoolCache.Mempool.MarkDirty | internal/explorer/mempool.go:222-227 | dirties and advances the generation |
| MempoolCache.EveryReadIsConsistent | internal/explorer/mempool.go:80-111 | in every run, overlapping fetches included, a read after a successful refresh finds entries and a memoized queue is that of the entries beside it |
| MempoolCache.EveryPeakIsExact | internal/explorer/mempool.go:106-137 | in every run the served peak is the largest of all depths noted since the start of the fifth bucket before that of the last note |
| MempoolCache.FreshStepIff | internal/explorer/mempool.go:195-207 | a step keeps "clean implies fetched after the last mark" exactly when it is no install, or the generation is unchanged, or the snapshot is dirty |
| MempoolCache.AlwaysFreshIff | internal/explorer/mempool.go:145-208 | a run keeps it throughout exactly when each of its installs meets that condition |
| MempoolCache.InOrderRunsAreFresh | internal/explorer/mempool.go:145-227 | it does whenever no reply is installed over one whose fetch started later |
| MempoolCache.SerialRunsAreFresh | internal/explorer/mempool.go:145-227 | in particular as long as fetches do not overlap: no mark is lost |
| MempoolCache.TidyRunsAreSerial | internal/explorer/mempool.go:154-163 | with at most one fetch in flight and known to the guard, fetches that never outlive the watchdog and callers who leave the very first fetch alone never overlap |
| MempoolCache.PromptNodeKeepsFresh | internal/explorer/mempool.go:145-227 | from boot: if no fetch outlives the two-minute watchdog and nobody calls while there are no entries and the first fetch is under way, the snapshot stays fresh throughout |
| MempoolCache.OverlapCanGoStale | internal/explorer/mempool.go:154-207 | a concrete run of two prompt cold-start fetches ends clean with entries older than the last mark |
| MempoolCache.ServedIsRecentOrAwaited | internal/explorer/mempool.go:145-163 | in every run, whoever is served without fetching gets entries installed less than 5 s ago (1 s if dirty), or a fetch younger than two minutes is in flight |
| MempoolCache.NeverFrozen | internal/explorer/mempool.go:20-24 | in every run, once all fetches in flight are two minutes old, a caller who finds the snapshot out of date fetches anew |
| MempoolCache.NoFetchSoonAfterInstall | internal/explorer/mempool.go:16-19 | in every run, however often the snapshot is marked dirty, a fetch begins at least a second after any earlier install, unless a block invalidated the snapshot in between |
| MempoolCache.ServedAfterInstall | internal/explorer/mempool.go:145-153 | in every run every caller is served for a second after an install, and for five while nothing marks the snapshot dirty |
| MempoolCache.BlockForcesFetch | internal/explorer/mempool.go:212-218 | in every run, from a block until the next install, every caller fetches unless a young fetch is in flight |
| MempoolCache.FetchRateBound | internal/explorer/mempool.go:145-163 | in any stretch of a run without invalidations, failures, stuck fetches or a disturbed first fetch, n + 1 fetches take at least n seconds |
| BackgroundRefresh.LiveCache.LiveSnapshot | internal/explorer/live.go:36-49 | serves the cache unchanged and starts a refresh exactly when one is due |
| BackgroundRefresh.LiveCache.FinishRefresh | internal/explorer/live.go:54-72 | failed feeds keep their previous value |
| BackgroundRefresh.LiveCache.Stats | internal/explorer/live.go:101-106 | the cached feed, or unavailable before its first success; starts a refresh exactly when one is due |
| BackgroundRefresh.SyncCache.SyncStatus | internal/explorer/stats.go:85-102 | the same protocol for the sync probe |
| BackgroundRefresh.SyncCache.FinishRefresh | internal/explorer/stats.go:112-133 | an error keeps the last answer, a success replaces tip, check time and verdict |
| BackgroundRefresh.RefreshRateBound | internal/explorer/live.go:40-46 | in every run, stuck and overlapping refreshes included, n + 1 starts take at least n periods |
| BackgroundRefresh.LiveAndSyncRates | internal/explorer/stats.go:89-95 | live recomputes start at least 5 s apart and sync probes at least 10 s apart |
| BackgroundRefresh.IdleReadRefreshesIff | internal/explorer/live.go:40-46 | in every run, with nothing running, a read starts a refresh exactly when the last completion lies a period back |
| BackgroundRefresh.ServesLatestSuccess | internal/explorer/live.go:59-71 | in every run each feed served is the outcome after which every later completion failed for that feed, and nothing exactly while all have failed |
| BackgroundRefresh.AvailabilityIsKept | internal/explorer/live.go:101-123 | a feed once available never becomes unavailable |
| BackgroundRefresh.PromptRefreshesNeverOverlap | internal/explorer/live.go:40-46 | if none outlives two minutes, at most one is in flight and they complete in starting order |
| BackgroundRefresh.NeverSupersededIff | internal/explorer/live.go:54-72 | at every moment of a run the feeds served are of the successful refresh that started last, exactly when no completion delivers a feed that a later-started refresh had already delivered |
| BackgroundRefresh.PromptRefreshesServeTheLastStarted | internal/explorer/live.go:36-72 | which holds in every run where no refresh outlives two minutes |
| BackgroundRefresh.StuckRefreshServesOldFigures | internal/explorer/live.go:40-72 | a concrete run: a refresh stuck for two minutes completes after the one started beside it, and its older figures are served |
| BackgroundRefresh.NeverWedged | internal/explorer/live.go:22-24 | whatever hangs, a read two minutes after the last start and one period after the last completion starts anew |
| BackgroundRefresh.SyncViewIsLastSuccess | internal/explorer/stats.go:112-133 | after any attempts: height and time of the last successful one, and syncing iff gated and its tip was more than four hours old |
| BackgroundRefresh.SyncViewBeforeSuccess | internal/explorer/stats.go:85-102 | before any success a gated node counts as syncing |
| BlockPush.PushShowsBlockIff | internal/api/hub.go:183-192 | in every run of hub, live cache and snapshot together, a mempool push shows the mempool since the last block exactly when the refresh that delivered last had read entries whose fetch began after that block |
| BlockPush.PushWithBlockIsOld | internal/api/hub.go:185-186 | until some refresh has delivered after the block, every push repeats the mempool from before it: the push made at once with the block never shows the contraction |
| BlockPush.CleanReadShowsBlock | internal/explorer/arrivals.go:83-87 | a refresh that reads a clean snapshot has read the mempool since the block, whenever clean means fetched after the last mark |
| BlockPush.RefreshBegunAfterBlockCanBeOld | internal/explorer/mempool.go:154-159 | a concrete run: a refresh begun after the block is served the old entries beside another reader's fetch, and delivers them |
| BlockInterval.IntervalCache.Lookup | internal/explorer/tx.go:478-484 | the cached mean while it is younger than 30 s |
| BlockInterval.IntervalCache.Store | internal/explorer/tx.go:493-502 | caches and returns a positive measurement, else the target spacing |
| BlockInterval.IntervalCache.Invalidate | internal/explorer/tx.go:203-205 | forgets when the mean was stored |
| BlockInterval.MeanOfEvenBlocks | internal/explorer/tx.go:505-527 | if the last nine blocks came d seconds apart the mean is d seconds |
| BlockInterval.MeanIsQuotient | internal/explorer/tx.go:493-527 | the mean is the span's duration over its blocks in whole seconds, and the target where that is not positive or the chain too short |
| BlockInterval.StoredIsServed | internal/explorer/tx.go:478-484 | without blocks and new measurements a stored mean is served for exactly thirty seconds |
| BlockInterval.ServedMeanLag | internal/explorer/tx.go:477-527 | in every run a cached mean is the target spacing or the mean up to a height that lags the announced one by exactly the blocks announced while it was measured, less those the node was ahead when it named its tip |
| BlockInterval.AtMostOneBlockStaleIff | internal/explorer/tx.go:491-492 | it is at worst one block stale exactly when at most one block that the measurement had not seen was announced before it was stored |
| BlockInterval.NothingServedAcrossBlock | internal/explorer/tx.go:199-206 | nothing stored before a block is served after it |
| BlockInterval.StalledMeasurementMissesMany | internal/explorer/tx.go:486-502 | for every k a run that serves a mean measured k blocks before |
| HubState.IndexHolds | internal/api/hub.go:146-181 | over every event sequence of fresh clients: c watches txid iff txid lists c, no watcher set is empty or mentions an unregistered client, at most 32 txids per client, at most MaxClients clients |
| HubState.WatchersAreTheInverse | internal/api/hub.go:83-86 | the txid side is determined by the client side |
| HubState.DropLeavesNoTrace | internal/api/hub.go:244-253 | a dropped client is in no set, and no other client is affected |
| HubState.AcceptedIffRoom | internal/api/hub.go:146-155 | a new connection is accepted exactly when no limit is set or there is room |
| HubState.WatchTakesEffectIff | internal/api/hub.go:160-181 | a watch takes effect exactly when the txid is watched already or fewer than 32 are, and touches nothing else |
| WsHub.WsClient.TrySend | internal/api/ws.go:53-66 | false exactly when a live client's buffer is full; a live client's message is queued last |
| WsHub.WsClient.Shutdown | internal/api/ws.go:68-76 | idempotent |
| WsHub.Hub.Register | internal/api/hub.go:146-155 | accepts unless the house is full, in which case the client is shut down |
| WsHub.Hub.Watch | internal/api/hub.go:160-177 | updates both halves of the index, refuses unknown clients and a 33rd txid, and pushes iff the txid is then watched |
| WsHub.Hub.Unwatch | internal/api/hub.go:178-181 | removes the txid from both halves |
| WsHub.Hub.RemoveWatcher | internal/api/hub.go:255-262 | takes one client out of one set and deletes a set left empty |
| WsHub.Hub.Drop | internal/api/hub.go:244-253 | walking only the client's own txids removes it from every watcher set |
| WsHub.Hub.Handle | internal/api/hub.go:138-181 | each turn of the loop keeps the index valid and acts as the registry step |
| WsHub.Hub.PushAll | internal/api/hub.go:227-242 | every watched txid is pushed to exactly the registered clients that watch it |
| WsHub.Hub.Send | internal/api/hub.go:313-331 | a live client takes the message or, if its buffer is full, is handed to the unregister queue unless that is full; nobody else is |
| LiveSocket.Socket.Watch | web/src/api/ws.ts:71-80 | counts the callback, and sends a frame only for a new txid on an open socket |
| LiveSocket.Socket.Unwatch | web/src/api/ws.ts:82-90 | sends a frame only when the last callback leaves |
| LiveSocket.Socket.Ensure | web/src/api/ws.ts:93-96 | connects unless a socket or a timer exists |
| LiveSocket.Socket.OnOpen | web/src/api/ws.ts:103-106 | open, and the backoff is reset |
| LiveSocket.Socket.Replay | web/src/api/ws.ts:107-110 | one watch frame for every key and nothing else |
| LiveSocket.Socket.OnCloseBegin | web/src/api/ws.ts:131-136 | the socket is gone and no longer open |
| LiveSocket.Socket.OnCloseEnd | web/src/api/ws.ts:137-141 | a timer is set and the backoff doubled up to its maximum |
| LiveSocket.OneSocketKept | web/src/api/ws.ts:93-145 | never a socket and a timer at once, open implies a socket, no key without callbacks, backoff within its bounds |
| LiveSocket.HeldIffSubscribed | web/src/api/ws.ts:71-91 | after every sequence of calls a callback is held exactly when some subscription of it has not been ended since, and no txid is kept without callbacks |
| LiveSocket.WatchedIffSubscribed | web/src/api/ws.ts:71-91 | a txid is watched exactly while some callback is subscribed to it |
| LiveSocket.ConnectionsKeepWatches | web/src/api/ws.ts:93-145 | opens, closes and timers leave the subscriptions alone; whoever asked for a connection has a socket or a timer |
| LiveSocket.CloseKeepsOneSocketIff | web/src/api/ws.ts:131-142 | whatever sequence of subscriptions and unsubscriptions the connection callbacks make inside onclose, that survives exactly when the socket had never opened or all of them are unsubscriptions |
| LiveSocket.ReentrantCloseBreaksIt | web/src/api/ws.ts:131-142 | a callback that listens to stats inside onclose leaves a socket and a timer, which then replaces that socket by a second one |
| LiveSocket.BackoffIsExponential | web/src/api/ws.ts:131-141 | n closes without an open give min(1000 * 2^n, 30000) |
| LiveSocket.OpenResetsBackoff | web/src/api/ws.ts:103-105 | after an open the delays start at 1000 ms again, whatever they were before |
| WatchSync.CanonicalIsRead | internal/api/ws.go:119-127 | the read pump passes 64 lower-case hex digits on unchanged |
| WatchSync.ReadIsCanonical | internal/api/ws.go:119-127 | only 64 hex digits, in either case and with white space around, are passed on, in lower case |
| WatchSync.TrimIsInner | internal/api/ws.go:119-127 | trimming takes white space off both ends and nothing else |
| WatchSync.WatchesStayInSync | web/src/api/ws.ts:72-111 | over any number of disconnects, on an open connection the hub has neither dropped nor rejected, the frames in flight turn the server's watch set into exactly the browser's keys |
| WatchSync.QuietLinkMeansExactPushes | internal/api/hub.go:160-181 | with a drained link the hub lists the connection under a txid exactly when the browser watches it |
| WatchSync.ReplayLosesNothingIff | web/src/api/ws.ts:22-26 | a replay to a fresh client restores all watches exactly when there are at most 32 |
| WatchSync.ReplayLosesTheThirtyThird | internal/api/hub.go:165-167 | 33 concrete canonical txids of which the replay loses one |
| Notifications.HubChannels.DrainBlocks | internal/api/hub.go:111-115 | after it the channel has room |
| Notifications.HubChannels.SendBlock | internal/api/hub.go:116 | queues the hash on a channel with room |
| Notifications.HubChannels.NotifyMempool | internal/api/hub.go:121-126 | leaves a token and never blocks |
| Notifications.HubChannels.TakeBlock | internal/api/hub.go:183-192 | takes the queued hash and clears the dirty flag |
| Notifications.HubChannels.TakeMempool | internal/api/hub.go:194-195 | trades the token for the dirty flag |
| Notifications.HubChannels.MempoolTick | internal/api/hub.go:197-204 | pushes iff dirty, and is clean afterwards |
| Notifications.StepsActOnChannels | internal/api/hub.go:108-126 | the steps of the runs are the steps of those methods |
| Notifications.NotifyBlockNeverBlocks | internal/api/hub.go:108-117 | with one notifier the send always finds room, wherever the loop stands |
| Notifications.NewestBlockIsNeverLost | internal/api/hub.go:108-117 | the hub handles a subsequence of the announced hashes, and between calls the newest is queued or already taken |
| Notifications.NoMempoolNotificationIsLost | internal/api/hub.go:119-126 | every notification is covered by the token, the flag or a later push round |
| Notifications.EveryNotificationIsPushed | internal/api/hub.go:183-204 | from every reachable state, a push round has followed every notification made so far once the loop takes a block, or takes the token and then sees a throttle tick, whatever happens in between |
| Notifications.PushesAreThrottled | internal/api/hub.go:194-204 | throttled pushes outnumber neither ticks nor notifications |
| Notifications.PushPerTick | internal/api/hub.go:197-204 | in every stretch of a run, at most one throttled push per tick |
| RateLimiter.RateLimiter.constructor | internal/api/middleware.go:92-101 | a burst of zero or less means a minute's budget |
| RateLimiter.RateLimiter.Allow | internal/api/middleware.go:103-127 | answers and spends by what is available after housekeeping |
| RateLimiter.RateLimiter.Sweep | internal/api/middleware.go:131-138 | keeps exactly the buckets touched within the truncated refill time |
| RateLimiter.EveryRouteServableIff | internal/api/middleware.go:59-71 | with a burst of at least 8 every route is served after a long enough pause; with a smaller one an address lookup never is |
| RateLimiter.IdleMeansFull | internal/api/middleware.go:129-135 | idle beyond the refill time truncated to nanoseconds means refilled to the burst |
| RateLimiter.SoundRun | internal/api/middleware.go:103-138 | in every reachable state, sweeps included, 0 <= tokens <= burst |
| RateLimiter.WindowBound | internal/api/middleware.go:103-127 | for every key and window of a nondecreasing clock, the cost let through is at most burst + perSec * length |
| RateLimiter.AllowedIffEveryWindowAllows | internal/api/middleware.go:103-127 | and its converse: over every request sequence a request is let through exactly when, in every window ending with it, it and what was let through before stay within burst + perSec * length |
| RateLimiter.MinuteBudget | internal/api/middleware.go:92-101 | any minute lets through at most the burst and the configured budget per minute; a new client may spend the burst |
| RateLimiter.SweepsAreSpaced | internal/api/middleware.go:107-110 | sweeps lie at least five minutes apart |
| RateLimiter.SweepingIsUnobservable | internal/api/middleware.go:129-138 | on every request sequence the answers are those of a limiter that never sweeps |
| RateLimiter.MemoryIsBounded | internal/api/middleware.go:73-76 | after every request only clients heard from within sweepEvery + refill time are remembered |
| RateLimiter.ServableIff | internal/api/middleware.go:122-126 | a cost above the burst is never let through, any other is after a long enough pause |
| Inflow.InflowCounter.Note | internal/explorer/inflow.go:33-43 | the ring counts the event in its slot and keeps refining the log |
| Inflow.InflowCounter.RatePerMin | internal/explorer/inflow.go:47-64 | the rate is computed from the exact number of logged events in the last six slots |
| Inflow.InflowCounter.Rotate | internal/explorer/inflow.go:68-77 | after any gap the ring refines the same log at the new slot |
| Inflow.RotateRefines | internal/explorer/inflow.go:68-77 | zeroing the passed buckets turns the old window into the new one |
| Inflow.PassedIsNew | internal/explorer/inflow.go:72-75 | the loop passes exactly the buckets whose slot is new to the window |
| Inflow.NoteRefines | internal/explorer/inflow.go:40-42 | incrementing bucket slot mod 6 logs one event of that slot |
| Inflow.TotalIsWindow | internal/explorer/inflow.go:56-59 | the six buckets add up to the count of the slots in (slot - 6, slot] |
| Inflow.RateIs | internal/explorer/inflow.go:60-64 | after a minute the rate is the count; before, the count scaled from the age (at least ten seconds) to a minute, to the nearest tenth |
| Inflow.CountIsSum | internal/explorer/inflow.go:56-59 | the count takes every logged event of the slots once |
| Inflow.WindowIsUpToAMinute | internal/explorer/inflow.go:14-18 | the window misses nothing of the last 50 s and holds nothing a minute old |
| Arrivals.ArrivalsBuffer.NoteArrival | internal/explorer/arrivals.go:42-67 | the rebuilt buffer: the new arrival, then the older ones it leaves room for |
| Arrivals.ArrivalsBuffer.Join | internal/explorer/arrivals.go:92-105 | exactly the transactions that are both buffered and in the snapshot, each once and in buffer order, with the buffered amount and that snapshot's rate, size and time |
| Arrivals.BufferedIffRecent | internal/explorer/arrivals.go:42-67 | after every log: buffered iff it arrived, fewer than 12 others arrived since and it is at most 5 minutes older than the newest; no duplicates, newest first |
| Arrivals.JoinedIsFeed | internal/explorer/arrivals.go:92-105 | the joined list contains just that, for every buffer without duplicates and every snapshot |
| Arrivals.FeedIsRecentAndPending | internal/explorer/arrivals.go:83-110 | after every log of arrivals the feed lists a transaction exactly when the snapshot holds it, fewer than 12 others arrived since and it is at most 5 minutes older than the newest; newest first |
| Lru.LruCache.Get | internal/explorer/cache.go:31-42 | a hit moves to the front, a miss changes nothing; map and list stay in step |
| Lru.LruCache.Put | internal/explorer/cache.go:51-66 | in place for a held key, otherwise in front, evicting the last beyond the capacity |
| Lru.LruCache.Clear | internal/explorer/cache.go:44-49 | empty |
| Lru.LruCache.MoveToFront | internal/explorer/cache.go:40 | the same entries with one in front |
| Lru.LookupAfterPut | internal/explorer/cache.go:51-66 | a put changes no other key's value |
| Lru.LookupAfterGet | internal/explorer/cache.go:31-42 | a get changes no key's value |
| LruRecency.HeldIffRecent | internal/explorer/cache.go:31-66 | after every history of puts, gets and clears: held iff fewer than cap distinct other keys were put or hit since its last use, with its last-put value |
| Prevouts.KeyInjective | internal/explorer/tx.go:390 | two outpoints never share a cache key |
| Prevouts.ResolvePrevouts | internal/explorer/tx.go:385-422 | from every consistent cache the result is the uncached one: row by row the value, addresses and type of the spent output, or the failure of the first input that has one; each parent is fetched at most once; none if all are held; the cache stays consistent |
| Prevouts.UncachedIsResolution | internal/explorer/tx.go:385-422 | for every node and inputs, the uncached result is that resolution |
| Prevouts.PutKeepsConsistent | internal/explorer/tx.go:413-418 | caching what the node answered keeps the cache consistent, evictions included |
| TxAccounting.Tx.DeriveInputs | internal/explorer/tx.go:248-261 | one row per input, their sum, and the distinct sender addresses in order |
| TxAccounting.Tx.DeriveOutputs | internal/explorer/tx.go:300-380 | one row per output, flagged by the heuristic unless it flags all; the amount is the sum of the rows not flagged; recipients and codes are theirs; fee and rate from the sums |
| TxAccounting.CountOutputs | internal/explorer/tx.go:336-363 | the pass and the self-send fallback together |
| TxAccounting.NoRecipientsIff | internal/explorer/tx.go:353-356 | the fallback is taken exactly when every output looked like change |
| TxAccounting.RecipientsAre | internal/explorer/tx.go:324-334 | the recipients are exactly the addresses (or the label) of the counted outputs, each once |
| TxAccounting.RecipientsInOrder | internal/explorer/tx.go:324-334 | in the order of first appearance |
| TxAccounting.FromInOrder | internal/explorer/tx.go:248-261 | so are the senders |
| TxAccounting.CodesAre | internal/explorer/tx.go:336-363 | the output codes are those of exactly the counted outputs, in their order |
| TxAccounting.DeriveAmounts | internal/explorer/tx.go:240-265 | by position: inputs = outputs + fee = amount + change + fee; a row is change exactly when its output pays only senders and some output does not; the senders are the inputs' addresses and the recipients those of the rows that are not change; fee rate times size is the fee |
| TxAccounting.DeriveCoinbase | internal/explorer/tx.go:300-334 | nothing of a coinbase is change, and its amount is the sum of its outputs |
| TxAccounting.ChangeIff | internal/explorer/tx.go:308-363 | who pays only themselves has no change; otherwise change is what pays only senders |
| TxAccounting.FromIsSenders | internal/explorer/tx.go:248-261 | the senders are exactly the addresses of the inputs, each once |
| Transactions.AddrsAre | internal/explorer/tx.go:616-632 | an output's addresses are those of the list, or the single one when the list is empty |
| TxAccounting.DominantCode | internal/explorer/tx.go:591-612 | the online loop finds the non-empty code of maximum count with the earliest first occurrence |
| TxAccounting.DominantUnique | internal/explorer/tx.go:591-592 | which is unique |
| TxAccounting.DeriveTxType | internal/explorer/tx.go:573-589 | the dominant input code, else output code; none iff no side has one |
| AddressHistory.AddressDelta | internal/explorer/address.go:162-181 | what a transaction paid to and spent from the address, once per mention |
| AddressHistory.ActivityIsConserved | internal/explorer/address.go:162-223 | if every output and origin has one address, the signed activity of all addresses of a transaction adds up to minus its fee |
| AddressHistory.ReceivedIsPaid | internal/explorer/address.go:162-172 | what those addresses receive is the sum of the outputs |
| AddressHistory.SentIsSpent | internal/explorer/address.go:173-181 | what they spend is the sum of the origins |
| AddressHistory.NotMentioned | internal/explorer/address.go:162-181 | an address mentioned nowhere receives and spends nothing |
| AddressHistory.FeeIs | internal/explorer/address.go:227-239 | the fee by position: all origins less all outputs, if every origin is known |
| AddressHistory.TxFee | internal/explorer/address.go:227-239 | inputs minus outputs, unknown when any origin is missing |
| AddressHistory.ActivityFor | internal/explorer/address.go:189-223 | direction and amount: signed by direction it is received minus spent; self exactly when both sides occur and the net outflow is within the fee |
| AddressHistory.ScanTotals | internal/explorer/address.go:118-142 | the paged walk equals the fold over the newest min(n, maxScan) transactions, approximate iff n >= maxScan |
| AddressHistory.TotalsCoverNewest | internal/explorer/address.go:118-142 | by position: the totals are the sums over the newest transactions, as many as there are up to the cap |
| AddressHistory.AddressTotals | internal/explorer/address.go:111-143 | a young cached result or a new complete scan, which alone is cached |
| AddressHistory.ApproximateIff | internal/explorer/address.go:44-46 | the flag means "history exceeds the cap" exactly when the history does not end at the cap |
| AddressHistory.CompleteYetApproximate | internal/explorer/address.go:118-142 | one transaction under a cap of one: the totals are complete and flagged approximate |
| AddressHistory.BalanceIsSignedActivity | internal/explorer/address.go:84-100 | unless approximate, the balance is the signed sum of the activity of the whole history |
| AddressHistory.Summarize | internal/explorer/address.go:79-100 | one activity row per transaction of the page, and the flag for more |
| AddressHistory.HasMoreIff | internal/explorer/address.go:96-100 | the flag is truthful exactly unless the history reaches the cap and the page ends with the history |
| AddressHistory.LastPageAnnouncesMore | internal/explorer/address.go:96-100 | one transaction, a cap of one and pages of one: the last page announces another, which is empty |
| AddressHistory.PagesCoverHistory | internal/explorer/address.go:96-100 | a client that follows pages for as long as the flag announces more visits every transaction once, in order |
| Locks.ProgramsAreDisciplined | internal/explorer/tx.go:477-557 | every path of the service takes locks in order, gives them back and makes no RPC under one |
| Locks.HandlersAreDisciplined | internal/explorer/tx.go:196-206 | so do the notification handlers, which make no RPC at all |
| Locks.WaitersHoldNothing | internal/explorer/mempool.go:139-171 | in every interleaving a goroutine that awaits a reply holds no lock |
| Locks.SomeoneCanRun | internal/explorer/arrivals.go:89-110 | behind every blocked goroutine stands one that can take a lock step |
| Locks.HandlerFinishes | internal/explorer/tx.go:486-492 | the notification handler can always finish by lock steps alone |
| Locks.NotificationGoroutineNeverDeadlocks | internal/explorer/tx.go:486-492 | after every history every message of the node can be read, however many notifications stand before a reply |
| Locks.HoldingAcrossRpcDeadlocks | internal/explorer/tx.go:486-492 | holding the interval lock across the RPC instead reaches a state in which nothing moves |

## Left out

- The node's client, TLS, JSON, HTTP routing, static files, configuration and prices: plumbing over libraries. The node is an arbitrary responder in the caches and locks, and a fixed function of the txid or history in the lookups.
- WebSocket frames, pings and deadlines: a link is a FIFO that may close at any point.
- `ClassifyQuery` beyond 64 hex digits, address decoding and `ScriptTypeFromRPC`: an output carries its address strings and its script-type code.
- IEEE-754 rounding, `btcutil.NewAmount` and 64-bit overflow of amounts, generations and durations.
- Easy members: subsidies, the halving countdown, RBF signalling, `humanEta`, block pages, the view reducer and the React components.
- Reorganisations: header times are a fixed function of the height in `BlockInterval`.
- The retry in `derivePending` that invalidates the snapshot when the transaction is missing: the scan is modelled for either snapshot.
- WatchSync.WatchesStayInSync: for canonical txids (64 lower-case hex digits), the only ones the browser obtains from the server, and for callbacks that do not reconnect inside `onclose`; callbacks inside `onopen` may subscribe and unsubscribe.
- Concurrent use of the LRU inside one `resolvePrevouts` call: other goroutines' puts are consistent too, but the call is modelled alone.
- TxAccounting.Tx.DeriveOutputs: the rows are built as a value and stored once, not appended to the transaction one by one.
- Mutexes of the price source and of the node client.
